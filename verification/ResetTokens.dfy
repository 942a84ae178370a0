/**
 Password reset tokens of threads-be/src/modules/auth/auth.service.ts:260-342. Calls come one after the
 other, the clock does not go back, raw tokens are fresh and a hash matches only its own input, so a row
 carries the raw token itself.
 */
module ResetTokens {

  type UserId = nat
  type Raw = nat
  type RowId = nat

  const MINUTE := 60 * 1000
  const TTL := 30 * MINUTE                    // RESET_TTL_MINUTES
  const WINDOW := 24 * 60 * MINUTE

  /** `usedAt` is null or not. */
  datatype Row = Row(user: UserId, hashed: Raw, expiresAt: int, used: bool, createdAt: int)

  /** `resets` records whose password was reset with which token, in order. */
  datatype State = State(now: int, rows: map<RowId, Row>, next: RowId, raws: set<Raw>, resets: seq<(Raw, UserId)>)

  datatype Event =
    | Tick(ms: nat)
    | Request(user: UserId, raw: Raw)         // of an existing user; `raw` is what randomBytes gives
    | Reset(raw: Raw)

  function Live(s: State, user: UserId): set<RowId> {
    set i | i in s.rows && s.rows[i].user == user && !s.rows[i].used && s.rows[i].expiresAt > s.now
  }

  function OnRequest(s: State, user: UserId, raw: Raw): State {
    if |Live(s, user)| >= 3 then s
    else s.(rows := s.rows[s.next := Row(user, raw, s.now + TTL, false, s.now)], next := s.next + 1,
        raws := s.raws + {raw})
  }

  /** The rows `resetPassword` looks at. */
  predicate Candidate(s: State, i: RowId) {
    i in s.rows && !s.rows[i].used && s.rows[i].expiresAt > s.now && s.rows[i].createdAt > s.now - WINDOW
  }

  predicate Matches(s: State, raw: Raw, i: RowId) {
    Candidate(s, i) && s.rows[i].hashed == raw
  }

  /** The transaction: the password, the row that matched, and every other unused row of that user. */
  function UseAll(s: State, user: UserId, raw: Raw): State {
    s.(rows := (map i | i in s.rows :: if s.rows[i].user == user then s.rows[i].(used := true) else s.rows[i]),
       resets := s.resets + [(raw, user)])
  }

  ghost predicate CanReset(s: State, raw: Raw) {
    exists i :: Matches(s, raw, i)
  }

  ghost function OnReset(s: State, raw: Raw): State {
    if CanReset(s, raw) then
      var i :| Matches(s, raw, i);
      UseAll(s, s.rows[i].user, raw)
    else s
  }

  ghost function Step(s: State, e: Event): State {
    match e
    case Tick(ms) => s.(now := s.now + ms)
    case Request(user, raw) => if raw in s.raws then s else OnRequest(s, user, raw)
    case Reset(raw) => OnReset(s, raw)
  }

  ghost function Run(s: State, es: seq<Event>): State
    decreases es
  {
    if es == [] then s else Run(Step(s, es[0]), es[1..])
  }

  const INIT := State(0, map[], 0, {}, [])

  // ---------------------------------------------------------------------------------------
  // Invariant
  // ---------------------------------------------------------------------------------------

  ghost predicate RowOk(s: State, i: RowId)
    requires i in s.rows
  {
    var row := s.rows[i];
    i < s.next && row.hashed in s.raws && row.createdAt <= s.now && row.expiresAt == row.createdAt + TTL
  }

  ghost predicate SameRaw(s: State, i: RowId, j: RowId)
    requires i in s.rows && j in s.rows
  {
    s.rows[i].hashed == s.rows[j].hashed ==> i == j
  }

  /** A token that reset a password belongs to a used row, and it did so once. */
  ghost predicate ResetOk(s: State, k: nat)
    requires k < |s.resets|
  {
    exists i :: i in s.rows && s.rows[i].hashed == s.resets[k].0 && s.rows[i].used && s.rows[i].user == s.resets[k].1
  }

  ghost predicate Inv(s: State) {
    && (forall i :: i in s.rows ==> RowOk(s, i))
    && (forall i, j :: i in s.rows && j in s.rows ==> SameRaw(s, i, j))
    && (forall user :: |Live(s, user)| <= 3)
    && (forall k: nat :: k < |s.resets| ==> ResetOk(s, k))
    && (forall k: nat, l: nat :: k < l < |s.resets| ==> s.resets[k].0 != s.resets[l].0)
  }

  lemma SubsetSize(a: set<RowId>, b: set<RowId>)
    requires a <= b
    ensures |a| <= |b|
  {
    assert b == a + (b - a);
  }

  lemma TickInv(s: State, ms: nat)
    requires Inv(s)
    ensures Inv(Step(s, Tick(ms)))
  {
    var t := Step(s, Tick(ms));
    forall i | i in t.rows ensures RowOk(t, i) { assert RowOk(s, i); }
    forall i, j | i in t.rows && j in t.rows ensures SameRaw(t, i, j) { assert SameRaw(s, i, j); }
    forall user ensures |Live(t, user)| <= 3 { SubsetSize(Live(t, user), Live(s, user)); }
    forall k: nat | k < |t.resets| ensures ResetOk(t, k) { assert ResetOk(s, k); }
  }

  lemma RequestLive(s: State, user: UserId, raw: Raw, u: UserId)
    requires Inv(s) && |Live(s, user)| < 3
    ensures |Live(OnRequest(s, user, raw), u)| <= 3
  {
    var added := if u == user then {s.next} else {};
    assert s.next in s.rows ==> RowOk(s, s.next);
    assert Live(OnRequest(s, user, raw), u) == Live(s, u) + added;
  }

  lemma RequestReset(s: State, user: UserId, raw: Raw, k: nat)
    requires Inv(s) && |Live(s, user)| < 3 && k < |s.resets|
    ensures ResetOk(OnRequest(s, user, raw), k)
  {
    assert ResetOk(s, k);
    var i :| i in s.rows && s.rows[i].hashed == s.resets[k].0 && s.rows[i].used && s.rows[i].user == s.resets[k].1;
    assert RowOk(s, i);
    assert OnRequest(s, user, raw).rows[i] == s.rows[i];
  }

  lemma RequestInv(s: State, user: UserId, raw: Raw)
    requires Inv(s) && raw !in s.raws
    ensures Inv(OnRequest(s, user, raw))
  {
    var t := OnRequest(s, user, raw);
    if |Live(s, user)| < 3 {
      forall i | i in s.rows ensures i < s.next && s.rows[i].hashed != raw { assert RowOk(s, i); }
      forall i | i in t.rows ensures RowOk(t, i) {
        if i != s.next { assert RowOk(s, i); }
      }
      forall i, j | i in t.rows && j in t.rows ensures SameRaw(t, i, j) {
        if i != s.next && j != s.next { assert SameRaw(s, i, j); }
      }
      forall u ensures |Live(t, u)| <= 3 { RequestLive(s, user, raw, u); }
      forall k: nat | k < |t.resets| ensures ResetOk(t, k) { RequestReset(s, user, raw, k); }
    }
  }

  lemma ResetInv(s: State, raw: Raw)
    requires Inv(s)
    ensures Inv(OnReset(s, raw))
  {
    if CanReset(s, raw) {
      var i :| Matches(s, raw, i);
      forall j | Matches(s, raw, j) ensures j == i { assert SameRaw(s, i, j); }
      var user := s.rows[i].user;
      var t := UseAll(s, user, raw);
      assert OnReset(s, raw) == t;
      forall j | j in t.rows ensures RowOk(t, j) { assert RowOk(s, j); }
      forall j, k | j in t.rows && k in t.rows ensures SameRaw(t, j, k) { assert SameRaw(s, j, k); }
      forall u ensures |Live(t, u)| <= 3 { SubsetSize(Live(t, u), Live(s, u)); }
      forall k: nat | k < |t.resets| ensures ResetOk(t, k) {
        if k < |s.resets| {
          assert ResetOk(s, k);
          var j :| j in s.rows && s.rows[j].hashed == s.resets[k].0 && s.rows[j].used
              && s.rows[j].user == s.resets[k].1;
          assert t.rows[j] == s.rows[j];
        } else {
          assert t.rows[i].hashed == raw && t.rows[i].used;
        }
      }
      forall k: nat | k < |s.resets| ensures s.resets[k].0 != raw {
        assert ResetOk(s, k);
        var j :| j in s.rows && s.rows[j].hashed == s.resets[k].0 && s.rows[j].used && s.rows[j].user == s.resets[k].1;
        assert SameRaw(s, i, j);
      }
    }
  }

  lemma {:induction false} RunInv(s: State, es: seq<Event>)
    requires Inv(s)
    ensures Inv(Run(s, es))
    decreases es
  {
    if es != [] {
      match es[0] {
        case Tick(ms) => TickInv(s, ms);
        case Request(user, raw) => if raw !in s.raws { RequestInv(s, user, raw); }
        case Reset(raw) => ResetInv(s, raw);
      }
      RunInv(Step(s, es[0]), es[1..]);
    }
  }

  lemma InitInv()
    ensures Inv(INIT)
  {
    forall user ensures |Live(INIT, user)| <= 3 { assert Live(INIT, user) == {}; }
  }

  /** In every run: at most three live tokens per user, and no token resets a password twice. */
  lemma TokensAreLimitedAndSingleUse(es: seq<Event>, user: UserId, k: nat, l: nat)
    ensures var s := Run(INIT, es);
            && |Live(s, user)| <= 3
            && (k < l < |s.resets| ==> s.resets[k].0 != s.resets[l].0)
  {
    InitInv();
    RunInv(INIT, es);
  }

  /** The 24-hour window turns away no unexpired token: the candidates are the live rows, no more and no fewer. */
  lemma WindowExcludesNothing(es: seq<Event>, i: RowId)
    ensures var s := Run(INIT, es);
            Candidate(s, i) <==> i in s.rows && i in Live(s, s.rows[i].user)
  {
    InitInv();
    RunInv(INIT, es);
    var s := Run(INIT, es);
    if i in s.rows { assert RowOk(s, i); }
  }

  /** A reset succeeds exactly for the token of a live row, and leaves its user, and only him, without live tokens. */
  lemma ResetEndsAll(es: seq<Event>, raw: Raw, user: UserId)
    ensures var s := Run(INIT, es); var t := Step(s, Reset(raw));
            && (t.resets == s.resets + [(raw, user)] <==> exists i :: i in Live(s, user) && s.rows[i].hashed == raw)
            && (t.resets == s.resets + [(raw, user)] ==> Live(t, user) == {})
            && (t.resets != s.resets + [(raw, user)] ==> Live(t, user) == Live(s, user))
  {
    InitInv();
    RunInv(INIT, es);
    var s := Run(INIT, es);
    var t := Step(s, Reset(raw));
    forall i ensures Candidate(s, i) <==> i in s.rows && i in Live(s, s.rows[i].user) {
      WindowExcludesNothing(es, i);
    }
    if CanReset(s, raw) {
      var i :| Matches(s, raw, i);
      forall j | j in s.rows && s.rows[j].hashed == raw ensures j == i { assert SameRaw(s, i, j); }
      assert t == UseAll(s, s.rows[i].user, raw);
      assert t.resets[|s.resets|] == (raw, s.rows[i].user);
      if s.rows[i].user == user {
        assert i in Live(s, user) && t.resets == s.resets + [(raw, user)];
        assert Live(t, user) == {};
      } else {
        assert Live(t, user) == Live(s, user);
        assert t.resets != s.resets + [(raw, user)] by { assert (s.resets + [(raw, user)])[|s.resets|] == (raw, user); }
      }
    } else {
      assert |s.resets + [(raw, user)]| == |s.resets| + 1;
      forall i | i in Live(s, user) ensures s.rows[i].hashed != raw { assert !Matches(s, raw, i); }
    }
  }

  /** Since the first `n` resets, one ended this user's tokens. */
  ghost predicate EndedSince(s: State, n: nat, user: UserId) {
    exists k :: n <= k < |s.resets| && s.resets[k].1 == user
  }

  /** The row of a token as it was sent, marked used exactly if a reset of its user came since. */
  ghost predicate StillSent(s: State, i: RowId, user: UserId, raw: Raw, sentAt: int, n: nat) {
    && n <= |s.resets| && i in s.rows
    && s.rows[i] == Row(user, raw, sentAt + 1_800_000, EndedSince(s, n, user), sentAt)
  }

  lemma StepSent(s: State, e: Event, i: RowId, user: UserId, raw: Raw, sentAt: int, n: nat)
    requires Inv(s) && StillSent(s, i, user, raw, sentAt, n)
    ensures StillSent(Step(s, e), i, user, raw, sentAt, n)
  {
    var t := Step(s, e);
    assert RowOk(s, i);
    if e.Reset? && CanReset(s, e.raw) {
      var j :| Matches(s, e.raw, j) && t == UseAll(s, s.rows[j].user, e.raw);
      assert forall k :: 0 <= k < |s.resets| ==> t.resets[k] == s.resets[k];
      assert t.resets[|s.resets|].1 == s.rows[j].user;
      if EndedSince(s, n, user) {
        var k :| n <= k < |s.resets| && s.resets[k].1 == user;
        assert t.resets[k].1 == user;
      }
    }
  }

  lemma {:induction false} RunSent(s: State, es: seq<Event>, i: RowId, user: UserId, raw: Raw, sentAt: int, n: nat)
    requires Inv(s) && StillSent(s, i, user, raw, sentAt, n)
    ensures Inv(Run(s, es)) && StillSent(Run(s, es), i, user, raw, sentAt, n)
    decreases es
  {
    if es != [] {
      RunInv(s, [es[0]]);
      RunOne(s, es[0]);
      StepSent(s, es[0], i, user, raw, sentAt, n);
      RunSent(Step(s, es[0]), es[1..], i, user, raw, sentAt, n);
    }
  }

  lemma RunOne(s: State, e: Event)
    ensures Run(s, [e]) == Step(s, e)
  {
    assert [e][1..] == [];
  }

  function Elapsed(es: seq<Event>): nat {
    if es == [] then 0 else (if es[0].Tick? then es[0].ms else 0) + Elapsed(es[1..])
  }

  lemma {:induction false} RunNow(s: State, es: seq<Event>)
    ensures Run(s, es).now == s.now + Elapsed(es)
    decreases es
  {
    if es != [] { RunNow(Step(s, es[0]), es[1..]); }
  }

  /** The owner of a token can reset with it exactly while it is unused and unexpired. */
  lemma ResetSucceedsIff(s: State, i: RowId)
    requires Inv(s) && i in s.rows
    ensures var Row(user, raw, expiresAt, used, _) := s.rows[i];
            OnReset(s, raw).resets == s.resets + [(raw, user)] <==> !used && s.now < expiresAt
  {
    var raw := s.rows[i].hashed;
    assert RowOk(s, i);
    if CanReset(s, raw) {
      var j :| Matches(s, raw, j) && OnReset(s, raw) == UseAll(s, s.rows[j].user, raw);
      assert SameRaw(s, i, j);
    } else {
      assert !Matches(s, raw, i);
      assert |s.resets + [(raw, s.rows[i].user)]| > |s.resets|;
    }
  }

  /**
   A token that was sent resets its user's password, whatever happened in between, exactly if less than 30
   minutes have passed and no reset of that user came first.
   */
  lemma SentTokenWorksIff(es: seq<Event>, user: UserId, raw: Raw, later: seq<Event>)
    requires |Live(Run(INIT, es), user)| < 3 && raw !in Run(INIT, es).raws
    ensures var s := Run(INIT, es);
            var t := Run(Step(s, Request(user, raw)), later);
            Step(t, Reset(raw)).resets == t.resets + [(raw, user)]
            <==> Elapsed(later) < 1_800_000 && !EndedSince(t, |s.resets|, user)
  {
    var s := Run(INIT, es);
    InitInv();
    RunInv(INIT, es);
    RequestInv(s, user, raw);
    assert s.next in s.rows ==> RowOk(s, s.next);
    RunSent(Step(s, Request(user, raw)), later, s.next, user, raw, s.now, |s.resets|);
    var t := Run(Step(s, Request(user, raw)), later);
    ResetSucceedsIff(t, s.next);
    RunNow(Step(s, Request(user, raw)), later);
  }

  // ---------------------------------------------------------------------------------------
  // Calls that interleave
  // ---------------------------------------------------------------------------------------

  type CallId = nat

  /** A `resetPassword` that has found its row and not yet run its transaction. */
  datatype Found = Found(raw: Raw, row: RowId)

  /** A reset that happened: the row it used, its user, and the rows that existed then. */
  datatype Entry = Entry(raw: Raw, row: RowId, user: UserId, before: RowId)

  datatype Busy = Busy(state: State, calls: map<CallId, Found>, log: seq<Entry>)

  datatype Phase =
    | Pass(ms: nat)
    | Ask(user: UserId, raw: Raw)
    | Find(call: CallId, raw: Raw)         // the candidate search
    | Commit(call: CallId)                 // the transaction, which does not look at `usedAt` again

  ghost function StepPhase(b: Busy, p: Phase): Busy {
    match p
    case Pass(ms) => b.(state := Step(b.state, Tick(ms)))
    case Ask(user, raw) => b.(state := Step(b.state, Request(user, raw)))
    case Find(call, raw) =>
      if call in b.calls || !CanReset(b.state, raw) then b
      else
        var i :| Matches(b.state, raw, i);
        b.(calls := b.calls[call := Found(raw, i)])
    case Commit(call) =>
      if call !in b.calls || b.calls[call].row !in b.state.rows then b
      else
        var Found(raw, i) := b.calls[call];
        var user := b.state.rows[i].user;
        Busy(UseAll(b.state, user, raw), b.calls - {call}, b.log + [Entry(raw, i, user, b.state.next)])
  }

  ghost function RunPhases(b: Busy, ps: seq<Phase>): Busy
    decreases ps
  {
    if ps == [] then b else RunPhases(StepPhase(b, ps[0]), ps[1..])
  }

  /** The two phases of a call in a row are the call, and the other phases are the other events. */
  lemma PhasesInARow(b: Busy, call: CallId, raw: Raw, user: UserId, ms: nat)
    requires Inv(b.state) && call !in b.calls
    ensures StepPhase(StepPhase(b, Find(call, raw)), Commit(call)).state == Step(b.state, Reset(raw))
    ensures StepPhase(b, Pass(ms)).state == Step(b.state, Tick(ms))
    ensures StepPhase(b, Ask(user, raw)).state == Step(b.state, Request(user, raw))
  {
    if CanReset(b.state, raw) {
      var i :| Matches(b.state, raw, i);
      forall j | Matches(b.state, raw, j) ensures j == i { assert SameRaw(b.state, i, j); }
      assert StepPhase(b, Find(call, raw)).calls[call] == Found(raw, i);
    }
  }

  const QUIET := Busy(INIT, map[], [])

  ghost predicate Ended(b: Busy, i: RowId, k: nat)
    requires i in b.state.rows && k < |b.log|
  {
    b.log[k].user == b.state.rows[i].user && i < b.log[k].before
  }

  /** A row is used exactly if a reset of its user came after it. */
  ghost predicate UsedOk(b: Busy, i: RowId)
    requires i in b.state.rows
  {
    b.state.rows[i].used <==> exists k: nat :: k < |b.log| && Ended(b, i, k)
  }

  ghost predicate EntryOk(b: Busy, k: nat)
    requires k < |b.log|
  {
    var e := b.log[k];
    e.row in b.state.rows && b.state.rows[e.row].hashed == e.raw && b.state.rows[e.row].user == e.user
    && e.row < e.before <= b.state.next
  }

  ghost predicate FoundOk(b: Busy, call: CallId)
    requires call in b.calls
  {
    b.calls[call].row in b.state.rows && b.state.rows[b.calls[call].row].hashed == b.calls[call].raw
  }

  ghost predicate BusyInv(b: Busy) {
    && (forall i :: i in b.state.rows ==> RowOk(b.state, i) && UsedOk(b, i))
    && (forall i, j :: i in b.state.rows && j in b.state.rows ==> SameRaw(b.state, i, j))
    && (forall k: nat :: k < |b.log| ==> EntryOk(b, k))
    && (forall call :: call in b.calls ==> FoundOk(b, call))
  }

  lemma PassInv(b: Busy, ms: nat)
    requires BusyInv(b)
    ensures BusyInv(StepPhase(b, Pass(ms)))
  {
    var t := StepPhase(b, Pass(ms));
    forall i | i in t.state.rows ensures RowOk(t.state, i) && UsedOk(t, i) {
      assert RowOk(b.state, i) && UsedOk(b, i);
      assert forall k: nat :: k < |b.log| ==> (Ended(t, i, k) <==> Ended(b, i, k));
    }
    forall i, j | i in t.state.rows
        && j in t.state.rows ensures SameRaw(t.state, i, j) { assert SameRaw(b.state, i, j); }
    forall k: nat | k < |t.log| ensures EntryOk(t, k) { assert EntryOk(b, k); }
    forall call | call in t.calls ensures FoundOk(t, call) { assert FoundOk(b, call); }
  }

  lemma AskInv(b: Busy, user: UserId, raw: Raw)
    requires BusyInv(b) && raw !in b.state.raws && |Live(b.state, user)| < 3
    ensures BusyInv(StepPhase(b, Ask(user, raw)))
  {
    var t, added := StepPhase(b, Ask(user, raw)), b.state.next;
    forall i | i in b.state.rows ensures i < added && b.state.rows[i].hashed != raw { assert RowOk(b.state, i); }
    forall k: nat | k < |t.log| ensures EntryOk(t, k) { assert EntryOk(b, k); }
    forall i | i in t.state.rows ensures RowOk(t.state, i) && UsedOk(t, i) {
      if i != added {
        assert RowOk(b.state, i) && UsedOk(b, i);
        assert forall k: nat :: k < |b.log| ==> (Ended(t, i, k) <==> Ended(b, i, k));
      } else {
        forall k: nat | k < |t.log| ensures !Ended(t, i, k) { assert EntryOk(b, k); }
      }
    }
    forall i, j | i in t.state.rows && j in t.state.rows ensures SameRaw(t.state, i, j) {
      if i != added && j != added { assert SameRaw(b.state, i, j); }
    }
    forall call | call in t.calls ensures FoundOk(t, call) { assert FoundOk(b, call); }
  }

  lemma FindInv(b: Busy, call: CallId, raw: Raw)
    requires BusyInv(b)
    ensures BusyInv(StepPhase(b, Find(call, raw)))
  {
    var t := StepPhase(b, Find(call, raw));
    forall i | i in t.state.rows ensures RowOk(t.state, i) && UsedOk(t, i) {
      assert RowOk(b.state, i) && UsedOk(b, i);
      assert forall k: nat :: k < |b.log| ==> (Ended(t, i, k) <==> Ended(b, i, k));
    }
    forall k: nat | k < |t.log| ensures EntryOk(t, k) { assert EntryOk(b, k); }
    forall c | c in t.calls ensures FoundOk(t, c) {
      if c in b.calls { assert FoundOk(b, c); }
    }
  }

  lemma CommitInv(b: Busy, call: CallId)
    requires BusyInv(b) && call in b.calls
    ensures BusyInv(StepPhase(b, Commit(call)))
  {
    var t := StepPhase(b, Commit(call));
    assert FoundOk(b, call);
    var user, n := b.state.rows[b.calls[call].row].user, |b.log|;
    forall i | i in t.state.rows ensures RowOk(t.state, i) && UsedOk(t, i) {
      assert RowOk(b.state, i) && UsedOk(b, i);
      assert forall k: nat :: k < n ==> (Ended(t, i, k) <==> Ended(b, i, k));
      assert Ended(t, i, n) <==> b.state.rows[i].user == user;
    }
    forall i, j | i in t.state.rows
        && j in t.state.rows ensures SameRaw(t.state, i, j) { assert SameRaw(b.state, i, j); }
    forall k: nat | k < |t.log| ensures EntryOk(t, k) {
      if k < n { assert EntryOk(b, k); } else { assert RowOk(b.state, b.calls[call].row); }
    }
    forall c | c in t.calls ensures FoundOk(t, c) { assert FoundOk(b, c); }
  }

  lemma PhaseInv(b: Busy, p: Phase)
    requires BusyInv(b)
    ensures BusyInv(StepPhase(b, p))
  {
    match p
    case Pass(ms) => PassInv(b, ms);
    case Ask(user, raw) => if raw !in b.state.raws && |Live(b.state, user)| < 3 { AskInv(b, user, raw); }
    case Find(call, raw) => FindInv(b, call, raw);
    case Commit(call) => if call in b.calls { CommitInv(b, call); }
  }

  /** No reset uses a token that was there when an earlier reset of the same user ended all his tokens. */
  ghost predicate SingleUse(log: seq<Entry>) {
    forall k: nat, l: nat :: k < l < |log| ==> InTurn(log[k], log[l])
  }

  predicate InTurn(e: Entry, f: Entry) {
    e.user == f.user ==> e.before <= f.row
  }

  /** A transaction keeps that exactly if its row is still unused when it runs. */
  lemma CommitSingleUseIff(b: Busy, call: CallId)
    requires BusyInv(b) && SingleUse(b.log) && call in b.calls
    ensures b.calls[call].row in b.state.rows
    ensures SingleUse(StepPhase(b, Commit(call)).log) <==> !b.state.rows[b.calls[call].row].used
  {
    assert FoundOk(b, call);
    var i, n := b.calls[call].row, |b.log|;
    var log := StepPhase(b, Commit(call)).log;
    assert UsedOk(b, i) && log[n].row == i && log[..n] == b.log;
    forall k: nat | k < n ensures InTurn(log[k], log[n]) <==> !Ended(b, i, k) { assert log[k] == b.log[k]; }
    forall k: nat, l: nat | k < l < n ensures InTurn(log[k], log[l]) { assert InTurn(b.log[k], b.log[l]); }
  }

  ghost predicate LateCommit(b: Busy, p: Phase) {
    p.Commit? && p.call in b.calls && b.calls[p.call].row in b.state.rows && b.state.rows[b.calls[p.call].row].used
  }

  ghost predicate NoLateCommits(b: Busy, ps: seq<Phase>)
    decreases ps
  {
    ps == [] || (!LateCommit(b, ps[0]) && NoLateCommits(StepPhase(b, ps[0]), ps[1..]))
  }

  lemma {:induction false} RunPhasesInv(b: Busy, ps: seq<Phase>)
    requires BusyInv(b)
    ensures BusyInv(RunPhases(b, ps))
    ensures SingleUse(b.log) && NoLateCommits(b, ps) ==> SingleUse(RunPhases(b, ps).log)
    decreases ps
  {
    if ps != [] {
      PhaseInv(b, ps[0]);
      if ps[0].Commit? && ps[0].call in b.calls && SingleUse(b.log) { CommitSingleUseIff(b, ps[0].call); }
      RunPhasesInv(StepPhase(b, ps[0]), ps[1..]);
    }
  }

  /** However calls interleave, no token resets a password twice as long as no transaction runs on a used row. */
  lemma NoTokenTwiceIfInTime(ps: seq<Phase>, k: nat, l: nat)
    requires NoLateCommits(QUIET, ps)
    ensures var log := RunPhases(QUIET, ps).log;
            SingleUse(log) && (k < l < |log| ==> log[k].raw != log[l].raw)
  {
    RunPhasesInv(QUIET, ps);
    var b := RunPhases(QUIET, ps);
    if k < l < |b.log| {
      assert EntryOk(b, k) && EntryOk(b, l) && InTurn(b.log[k], b.log[l]);
      assert SameRaw(b.state, b.log[k].row, b.log[l].row);
    }
  }

  /** Two calls with the one token of user 7, both of which search before either commits. */
  function Racing(): seq<Phase> {
    [Ask(7, 5), Find(0, 5), Find(1, 5), Commit(0), Commit(1)]
  }

  lemma RunFive(b: Busy, ps: seq<Phase>)
    requires |ps| == 5
    ensures RunPhases(b, ps)
        == StepPhase(StepPhase(StepPhase(StepPhase(StepPhase(b, ps[0]), ps[1]), ps[2]), ps[3]), ps[4])
  {
    assert ps[1..][1..] == ps[2..] && ps[2..][1..] == ps[3..] && ps[3..][1..] == [ps[4]] && [ps[4]][1..] == [];
    var b1 := StepPhase(b, ps[0]);
    var b2 := StepPhase(b1, ps[1]);
    var b3 := StepPhase(b2, ps[2]);
    var b4 := StepPhase(b3, ps[3]);
    assert RunPhases(b4, [ps[4]]) == StepPhase(b4, ps[4]);
    assert RunPhases(b3, ps[3..]) == RunPhases(b4, [ps[4]]);
    assert RunPhases(b2, ps[2..]) == RunPhases(b3, ps[3..]);
    assert RunPhases(b1, ps[1..]) == RunPhases(b2, ps[2..]);
  }

  lemma OnlyMatch(b: Busy, call: CallId)
    requires b.state.rows == map[0 := Row(7, 5, TTL, false, 0)] && b.state.now == 0 && call !in b.calls
    ensures StepPhase(b, Find(call, 5)) == b.(calls := b.calls[call := Found(5, 0)])
  {
    assert Matches(b.state, 5, 0);
    assert forall i :: Matches(b.state, 5, i) ==> i == 0;
  }

  /** The token then resets the password twice. */
  lemma RaceUsesTokenTwice()
    ensures var log := RunPhases(QUIET, Racing()).log; |log| == 2 && log[0].raw == log[1].raw == 5 && !SingleUse(log)
  {
    var ps := Racing();
    RunFive(QUIET, ps);
    var b1 := StepPhase(QUIET, ps[0]);
    assert Live(INIT, 7) == {};
    assert b1.state.rows == map[0 := Row(7, 5, TTL, false, 0)] && b1.state.next == 1;
    OnlyMatch(b1, 0);
    var b2 := StepPhase(b1, ps[1]);
    assert b2 == b1.(calls := map[0 := Found(5, 0)]);
    OnlyMatch(b2, 1);
    var b3 := StepPhase(b2, ps[2]);
    assert b3 == b1.(calls := map[0 := Found(5, 0), 1 := Found(5, 0)]);
    var b4 := StepPhase(b3, ps[3]);
    assert b4.log == [Entry(5, 0, 7, 1)] && b4.calls == map[1 := Found(5, 0)];
    var b5 := StepPhase(b4, ps[4]);
    assert b5.log == [Entry(5, 0, 7, 1), Entry(5, 0, 7, 1)];
    assert !InTurn(b5.log[0], b5.log[1]);
  }

  /**
   A request counts first and writes later. The write leaves the user with at most three live tokens exactly
   if he has fewer than three by then.
   */
  lemma LateRequestIff(s: State, user: UserId, raw: Raw)
    requires Inv(s)
    ensures var row := Row(user, raw, s.now + TTL, false, s.now);
            |Live(s.(rows := s.rows[s.next := row]), user)| <= 3 <==> |Live(s, user)| < 3
  {
    var row := Row(user, raw, s.now + TTL, false, s.now);
    assert s.next in s.rows ==> RowOk(s, s.next);
    assert Live(s.(rows := s.rows[s.next := row]), user) == Live(s, user) + {s.next};
  }

  // ---------------------------------------------------------------------------------------
  // The search loop and the transaction
  // ---------------------------------------------------------------------------------------

  class ResetTokenTable {
    var rows: map<RowId, Row>
    var next: RowId

    constructor ()
      ensures rows == map[] && next == 0
    {
      rows, next := map[], 0;
    }

    /** `requestPasswordReset` for a user that exists. */
    method RequestPasswordReset(user: UserId, raw: Raw, now: int, ghost s: State) returns (sent: bool)
      requires rows == s.rows && next == s.next && now == s.now
      modifies this
      ensures rows == OnRequest(s, user, raw).rows && next == OnRequest(s, user, raw).next
      ensures sent <==> |Live(s, user)| < 3
      ensures rows == if sent then old(rows)[old(next) := Row(user, raw, now + 1_800_000, false, now)] else old(rows)
      ensures next == old(next) + (if sent then 1 else 0)
    {
      var active := set i | i in rows && rows[i].user == user && !rows[i].used && rows[i].expiresAt > now;
      assert active == Live(s, user);
      if |active| >= 3 {
        return false;
      }
      rows := rows[next := Row(user, raw, now + TTL, false, now)];
      next := next + 1;
      return true;
    }

    /** Compare with one candidate after the other until a hash matches. */
    method FindMatch(candidates: seq<RowId>, raw: Raw) returns (found: bool, i: RowId)
      requires forall c :: c in candidates ==> c in rows
      ensures found ==> i in candidates && rows[i].hashed == raw
      ensures !found ==> forall c :: c in candidates ==> rows[c].hashed != raw
    {
      found, i := false, 0;
      for k := 0 to |candidates|
        invariant !found
        invariant forall c :: c in candidates[..k] ==> rows[c].hashed != raw
      {
        assert candidates[..k + 1] == candidates[..k] + [candidates[k]];
        if rows[candidates[k]].hashed == raw {
          return true, candidates[k];
        }
      }
      assert candidates[..|candidates|] == candidates;
    }

    /** `resetPassword`, given the candidates in whatever order the query returns them. */
    method ResetPassword(raw: Raw, candidates: seq<RowId>, ghost s: State) returns (ok: bool)
      requires rows == s.rows && Inv(s) && (forall c :: c in candidates <==> Candidate(s, c))
      modifies this`rows
      ensures rows == OnReset(s, raw).rows && (ok <==> CanReset(s, raw))
    {
      var found, i := FindMatch(candidates, raw);
      if !found {
        assert forall j :: Candidate(s, j) ==> s.rows[j].hashed != raw;
        return false;
      }
      assert Matches(s, raw, i);
      forall j | Matches(s, raw, j) ensures j == i { assert SameRaw(s, i, j); }
      var user := rows[i].user;
      rows := rows[i := rows[i].(used := true)];
      rows := map j | j in rows :: if rows[j].user == user && !rows[j].used then rows[j].(used := true) else rows[j];
      assert rows == UseAll(s, user, raw).rows;
      return true;
    }
  }
}
