/**
 Refresh-token rotation in threads-be/src/modules/auth/auth.service.ts: `refreshTokens` finds the
 presented token, deletes its row and creates a row for a new one, in three database calls with
 no transaction around them. Any number of calls may interleave at those points, also with
 logins, logouts and revocations.
 */
module Rotation {

  // Tokens and user ids are only ever compared for equality.
  type Token = nat
  type UserId = nat
  type CallId = nat

  datatype Row = Row(user: UserId, expiresAt: int)

  /** Seven days, in milliseconds: how long a refresh token is good for. */
  const WEEK := 7 * 24 * 60 * 60 * 1000

  /** Where one call of `refreshTokens` stands; the state names the database call it makes next. */
  datatype Pc =
    | Finding
    | Purging(user: UserId)             // found, but expired: delete, then refuse
    | Deleting(user: UserId)
    | Creating(user: UserId)            // the presented token is consumed
    | Done(user: UserId, signed: Token)
    | Refused                           // no such token, expired, or its row is already gone
    | Broken(user: UserId)              // a database error after the token was consumed

  datatype Call = Call(token: Token, pc: Pc)

  /** `rows` is the table, unique on the token; `issued` is every token ever signed. */
  datatype State = State(rows: map<Token, Row>, issued: set<Token>, calls: map<CallId, Call>)

  datatype Event =
    | Begin(c: CallId, token: Token)
    | Find(c: CallId, now: int)
    | Delete(c: CallId)
    | Create(c: CallId, signed: Token, signedAt: int)
    | Break(c: CallId)
    | Login(token: Token, user: UserId, signedAt: int)
    | Logout(user: UserId, token: Token)
    | RevokeAll(user: UserId)           // logoutAll, and the last statement of changePassword

  function Move(s: State, c: CallId, pc: Pc): State
    requires c in s.calls
  {
    s.(calls := s.calls[c := s.calls[c].(pc := pc)])
  }

  function OnFind(s: State, c: CallId, now: int): State
    requires c in s.calls
  {
    var t := s.calls[c].token;
    if t !in s.rows then Move(s, c, Refused)
    else if now > s.rows[t].expiresAt then Move(s, c, Purging(s.rows[t].user))
    else Move(s, c, Deleting(s.rows[t].user))
  }

  /** Deleting the row by its id throws when it is gone. */
  function OnDelete(s: State, c: CallId): State
    requires c in s.calls && (s.calls[c].pc.Deleting? || s.calls[c].pc.Purging?)
  {
    var t := s.calls[c].token;
    if t !in s.rows || s.calls[c].pc.Purging? then Move(s.(rows := s.rows - {t}), c, Refused)
    else Move(s.(rows := s.rows - {t}), c, Creating(s.calls[c].pc.user))
  }

  /** `generateTokens`: signing is taken to be fresh, so a token that was signed before is not signed again. */
  function OnCreate(s: State, c: CallId, signed: Token, signedAt: int): State
    requires c in s.calls && s.calls[c].pc.Creating?
  {
    var user := s.calls[c].pc.user;
    Move(s.(rows := s.rows[signed := Row(user, signedAt + WEEK)], issued := s.issued + {signed}), c, Done(user, signed))
  }

  function Without(s: State, user: UserId): map<Token, Row> {
    map t | t in s.rows && s.rows[t].user != user :: s.rows[t]
  }

  predicate Enabled(s: State, e: Event) {
    match e
    case Begin(c, _) => c !in s.calls
    case Find(c, _) => c in s.calls && s.calls[c].pc.Finding?
    case Delete(c) => c in s.calls && (s.calls[c].pc.Deleting? || s.calls[c].pc.Purging?)
    case Create(c, signed, _) => c in s.calls && s.calls[c].pc.Creating? && signed !in s.issued
    case Break(c) => c in s.calls && s.calls[c].pc.Creating?
    case Login(token, _, _) => token !in s.issued
    case Logout(_, _) => true
    case RevokeAll(_) => true
  }

  function Effect(s: State, e: Event): State
    requires Enabled(s, e)
  {
    match e
    case Begin(c, token) => s.(calls := s.calls[c := Call(token, Finding)])
    case Find(c, now) => OnFind(s, c, now)
    case Delete(c) => OnDelete(s, c)
    case Create(c, signed, signedAt) => OnCreate(s, c, signed, signedAt)
    case Break(c) => Move(s, c, Broken(s.calls[c].pc.user))
    case Login(token, user, signedAt) =>
      s.(rows := s.rows[token := Row(user, signedAt + WEEK)], issued := s.issued + {token})
    case Logout(user, token) =>
      if token in s.rows && s.rows[token].user == user then s.(rows := s.rows - {token}) else s
    case RevokeAll(user) => s.(rows := Without(s, user))
  }

  function Step(s: State, e: Event): State {
    if Enabled(s, e) then Effect(s, e) else s
  }

  function Run(s: State, es: seq<Event>): State
    decreases es
  {
    if es == [] then s else Run(Step(s, es[0]), es[1..])
  }

  // ---------------------------------------------------------------------------------------
  // One-shot
  // ---------------------------------------------------------------------------------------

  /** The call's delete step removed the row of the token it presented. */
  predicate Consumed(pc: Pc) {
    pc.Creating? || pc.Done? || pc.Broken?
  }

  predicate ConsumedBy(s: State, c: CallId) {
    c in s.calls && Consumed(s.calls[c].pc)
  }

  /** A consumed token is dead; a new token was signed; `Deleting` remembers the owner of the row it found. */
  ghost predicate CallOk(s: State, c: CallId)
    requires c in s.calls
  {
    var Call(token, pc) := s.calls[c];
    && (Consumed(pc) ==> token in s.issued && token !in s.rows)
    && (pc.Deleting? ==> token in s.issued && (token in s.rows ==> s.rows[token].user == pc.user))
    && (pc.Done? ==> pc.signed in s.issued)
  }

  ghost predicate Apart(s: State, c: CallId, d: CallId)
    requires c in s.calls && d in s.calls
  {
    && (Consumed(s.calls[c].pc) && Consumed(s.calls[d].pc) ==> s.calls[c].token != s.calls[d].token)
    && (s.calls[c].pc.Done? && s.calls[d].pc.Done? ==> s.calls[c].pc.signed != s.calls[d].pc.signed)
  }

  ghost predicate Inv(s: State) {
    && s.rows.Keys <= s.issued
    && (forall c :: c in s.calls ==> CallOk(s, c))
    && (forall c, d :: c in s.calls && d in s.calls && c != d ==> Apart(s, c, d))
  }

  /** No rows, no tokens, no calls. */
  const INIT := State(map[], {}, map[])

  lemma InitInv()
    ensures Inv(INIT)
  {}

  lemma StepInv(s: State, e: Event)
    requires Inv(s)
    ensures Inv(Step(s, e))
  {}

  lemma {:induction false} RunInv(s: State, es: seq<Event>)
    requires Inv(s)
    ensures Inv(Run(s, es))
    decreases es
  {
    if es != [] {
      StepInv(s, es[0]);
      RunInv(Step(s, es[0]), es[1..]);
    }
  }

  /** However calls interleave, one refresh token is consumed by at most one call, so it buys at most one new token. */
  lemma OneShot(s: State, es: seq<Event>, c: CallId, d: CallId)
    requires Inv(s)
    ensures var t := Run(s, es);
            ConsumedBy(t, c) && ConsumedBy(t, d) && t.calls[c].token == t.calls[d].token ==> c == d
  {
    RunInv(s, es);
    var t := Run(s, es);
    if ConsumedBy(t, c) && ConsumedBy(t, d) && c != d {
      assert Apart(t, c, d);
    }
  }

  // ---------------------------------------------------------------------------------------
  // Where rows come from
  // ---------------------------------------------------------------------------------------

  /** The i-th event wrote this row: a login, or the create step of a call for that user. */
  ghost predicate Wrote(es: seq<Event>, i: nat, token: Token, row: Row) {
    i < |es| &&
    match es[i]
    case Login(t, user, signedAt) => t == token && Row(user, signedAt + 604_800_000) == row
    case Create(c, signed, signedAt) =>
      var s := Run(INIT, es[..i]);
      && signed == token && signedAt + 604_800_000 == row.expiresAt
      && c in s.calls && s.calls[c].pc == Creating(row.user)
    case _ => false
  }

  ghost predicate Written(es: seq<Event>, token: Token, row: Row) {
    exists i: nat :: Wrote(es, i, token, row)
  }

  lemma {:induction false} RunSnoc(s: State, es: seq<Event>, e: Event)
    ensures Run(s, es + [e]) == Step(Run(s, es), e)
    decreases es
  {
    if es == [] {
      assert [e][1..] == [];
    } else {
      assert (es + [e])[1..] == es[1..] + [e];
      RunSnoc(Step(s, es[0]), es[1..], e);
    }
  }

  lemma WrittenLonger(es: seq<Event>, e: Event, token: Token, row: Row)
    requires Written(es, token, row)
    ensures Written(es + [e], token, row)
  {
    var i: nat :| Wrote(es, i, token, row);
    assert (es + [e])[..i] == es[..i] && (es + [e])[i] == es[i];
    assert Wrote(es + [e], i, token, row);
  }

  /** In every run each row is as it was written, for the user and with the expiry that its token was signed for. */
  lemma {:induction false} RowsAreAsWritten(es: seq<Event>, token: Token)
    ensures var rows := Run(INIT, es).rows; token in rows ==> Written(es, token, rows[token])
  {
    if es != [] {
      var init, e := es[..|es| - 1], es[|es| - 1];
      assert es == init + [e] && es[..|init|] == init;
      RunSnoc(INIT, init, e);
      RowsAreAsWritten(init, token);
      var s, t := Run(INIT, init), Run(INIT, es);
      if token in t.rows {
        if token in s.rows && s.rows[token] == t.rows[token] {
          WrittenLonger(init, e, token, t.rows[token]);
        } else {
          assert Wrote(es, |init|, token, t.rows[token]);
        }
      }
    }
  }

  /** A token that is gone stays gone, and a row that stays stays as it is. */
  lemma {:induction false} RowsOnlyGo(s: State, es: seq<Event>, token: Token)
    requires Inv(s) && token in s.issued
    ensures var t := Run(s, es);
            token in t.issued && (token in t.rows ==> token in s.rows && t.rows[token] == s.rows[token])
    decreases es
  {
    if es != [] {
      StepInv(s, es[0]);
      RowsOnlyGo(Step(s, es[0]), es[1..], token);
    }
  }

  // ---------------------------------------------------------------------------------------
  // Conservation of sessions
  // ---------------------------------------------------------------------------------------

  function Held(rows: map<Token, Row>, user: UserId): set<Token> {
    set t | t in rows && rows[t].user == user
  }

  function Midway(calls: map<CallId, Call>, user: UserId): set<CallId> {
    set c | c in calls && calls[c].pc == Creating(user)
  }

  /** Rows of the user, plus calls that took a row away and still owe the one that replaces it. */
  function Sessions(s: State, user: UserId): nat {
    |Held(s.rows, user)| + |Midway(s.calls, user)|
  }

  /** What an event does to a user's sessions: only the lines below add or lose any. */
  function Change(s: State, e: Event, user: UserId): int {
    if !Enabled(s, e) then 0 else
    match e
    case Login(_, u, _) => if u == user then 1 else 0
    case Logout(u, token) => if u == user && token in Held(s.rows, user) then -1 else 0
    case RevokeAll(u) => if u == user then -|Held(s.rows, user)| else 0
    case Break(c) => if s.calls[c].pc == Creating(user) then -1 else 0
    case Delete(c) => if s.calls[c].pc.Purging? && s.calls[c].token in Held(s.rows, user) then -1 else 0
    case Begin(_, _) => 0
    case Find(_, _) => 0
    case Create(_, _, _) => 0
  }

  lemma HeldRemove(rows: map<Token, Row>, token: Token, user: UserId)
    ensures |Held(rows - {token}, user)| == |Held(rows, user)| - (if token in Held(rows, user) then 1 else 0)
  {
    assert Held(rows - {token}, user) == Held(rows, user) - {token};
  }

  lemma HeldAdd(rows: map<Token, Row>, token: Token, row: Row, user: UserId)
    requires token !in rows
    ensures |Held(rows[token := row], user)| == |Held(rows, user)| + (if row.user == user then 1 else 0)
  {
    var added := if row.user == user then {token} else {};
    assert Held(rows[token := row], user) == Held(rows, user) + added;
  }

  lemma MidwaySet(calls: map<CallId, Call>, c: CallId, call: Call, user: UserId)
    ensures |Midway(calls[c := call], user)| == |Midway(calls, user)|
                                                - (if c in Midway(calls, user) then 1 else 0)
                                                + (if call.pc == Creating(user) then 1 else 0)
  {
    var added := if call.pc == Creating(user) then {c} else {};
    assert Midway(calls[c := call], user) == Midway(calls, user) - {c} + added;
  }

  lemma CallSessions(s: State, e: Event, user: UserId)
    requires Inv(s) && Enabled(s, e) && (e.Begin? || e.Find? || e.Break?)
    ensures Sessions(Effect(s, e), user) == Sessions(s, user) + Change(s, e, user)
  {
    MidwaySet(s.calls, e.c, Effect(s, e).calls[e.c], user);
  }

  lemma DeleteSessions(s: State, c: CallId, user: UserId)
    requires Inv(s) && Enabled(s, Delete(c))
    ensures Sessions(OnDelete(s, c), user) == Sessions(s, user) + Change(s, Delete(c), user)
  {
    assert CallOk(s, c);
    HeldRemove(s.rows, s.calls[c].token, user);
    MidwaySet(s.calls, c, OnDelete(s, c).calls[c], user);
  }

  lemma CreateSessions(s: State, c: CallId, signed: Token, signedAt: int, user: UserId)
    requires Inv(s) && Enabled(s, Create(c, signed, signedAt))
    ensures Sessions(OnCreate(s, c, signed, signedAt), user) == Sessions(s, user)
  {
    HeldAdd(s.rows, signed, Row(s.calls[c].pc.user, signedAt + WEEK), user);
    MidwaySet(s.calls, c, OnCreate(s, c, signed, signedAt).calls[c], user);
  }

  lemma TableSessions(s: State, e: Event, user: UserId)
    requires Inv(s) && Enabled(s, e) && (e.Login? || e.Logout? || e.RevokeAll?)
    ensures Sessions(Effect(s, e), user) == Sessions(s, user) + Change(s, e, user)
  {
    match e
    case Login(token, u, signedAt) => HeldAdd(s.rows, token, Row(u, signedAt + WEEK), user);
    case Logout(u, token) => HeldRemove(s.rows, token, user);
    case RevokeAll(u) => assert Held(Without(s, u), user) == if u == user then {} else Held(s.rows, user);
  }

  lemma StepSessions(s: State, e: Event, user: UserId)
    requires Inv(s)
    ensures Sessions(Step(s, e), user) == Sessions(s, user) + Change(s, e, user)
  {
    if Enabled(s, e) {
      match e
      case Delete(c) => DeleteSessions(s, c, user);
      case Create(c, signed, signedAt) => CreateSessions(s, c, signed, signedAt, user);
      case Begin(_, _) => CallSessions(s, e, user);
      case Find(_, _) => CallSessions(s, e, user);
      case Break(_) => CallSessions(s, e, user);
      case Login(_, _, _) => TableSessions(s, e, user);
      case Logout(_, _) => TableSessions(s, e, user);
      case RevokeAll(_) => TableSessions(s, e, user);
    }
  }

  function Ledger(s: State, es: seq<Event>, user: UserId): int
    decreases es
  {
    if es == [] then 0 else Change(s, es[0], user) + Ledger(Step(s, es[0]), es[1..], user)
  }

  /**
   Over every run the number of a user's sessions is what logins added less what logouts,
   revocations, expiry and database errors took: refreshing itself neither adds nor loses one.
   */
  lemma {:induction false} SessionsConserved(s: State, es: seq<Event>, user: UserId)
    requires Inv(s)
    ensures Sessions(Run(s, es), user) == Sessions(s, user) + Ledger(s, es, user)
    decreases es
  {
    if es != [] {
      StepInv(s, es[0]);
      StepSessions(s, es[0], user);
      SessionsConserved(Step(s, es[0]), es[1..], user);
    }
  }

  // ---------------------------------------------------------------------------------------
  // Revocation
  // ---------------------------------------------------------------------------------------

  /** A row for a token signed before the revocation is an old row of somebody else. */
  ghost predicate RowDead(s: State, before: State, user: UserId, t: Token) {
    t in s.rows && t in before.issued ==> t in before.rows && s.rows[t].user != user
  }

  /** A call that took such a token for the user had done so before. */
  ghost predicate CallDead(s: State, before: State, user: UserId, c: CallId)
    requires c in s.calls
  {
    var Call(token, pc) := s.calls[c];
    token in before.issued && Consumed(pc) && pc.user == user ==> ConsumedBy(before, c)
  }

  ghost predicate OldTokensDead(s: State, before: State, user: UserId) {
    && before.issued <= s.issued
    && (forall t :: RowDead(s, before, user, t))
    && (forall c :: c in s.calls ==> CallDead(s, before, user, c))
  }

  lemma StepRevoked(s: State, e: Event, before: State, user: UserId)
    requires Inv(s) && OldTokensDead(s, before, user)
    ensures OldTokensDead(Step(s, e), before, user)
  {
    if Enabled(s, e) {
      var r := Effect(s, e);
      forall t ensures RowDead(r, before, user, t) { assert RowDead(s, before, user, t); }
      forall c | c in r.calls ensures CallDead(r, before, user, c) {
        if c in s.calls {
          assert CallDead(s, before, user, c) && CallOk(s, c);
          assert RowDead(s, before, user, s.calls[c].token);
        }
      }
    }
  }

  lemma {:induction false} RunRevoked(s: State, es: seq<Event>, before: State, user: UserId)
    requires Inv(s) && OldTokensDead(s, before, user)
    ensures OldTokensDead(Run(s, es), before, user)
    decreases es
  {
    if es != [] {
      StepInv(s, es[0]);
      StepRevoked(s, es[0], before, user);
      RunRevoked(Step(s, es[0]), es[1..], before, user);
    }
  }

  /**
   After `logoutAll` or `changePassword` removed the user's rows, no token signed before can yield a
   session of that user, whatever happens next, except through a call already past its delete step.
   */
  lemma RevocationHolds(s: State, user: UserId, es: seq<Event>, c: CallId)
    requires Inv(s)
    ensures var t := Run(Step(s, RevokeAll(user)), es);
            && (c in t.calls && t.calls[c].token in s.issued && t.calls[c].pc.Done? && t.calls[c].pc.user == user
                ==> ConsumedBy(s, c))
            && (forall token :: token in t.rows && t.rows[token].user == user ==> token !in s.issued)
  {
    var r := Step(s, RevokeAll(user));
    StepInv(s, RevokeAll(user));
    RunRevoked(r, es, s, user);
    var t := Run(r, es);
    if c in t.calls { assert CallDead(t, s, user, c); }
    forall token | token in t.rows && t.rows[token].user == user
      ensures token !in s.issued
    {
      assert RowDead(t, s, user, token);
    }
  }

  // ---------------------------------------------------------------------------------------
  // The service on its table
  // ---------------------------------------------------------------------------------------

  /** What a call of `refreshTokens` that is not interleaved with anything leaves in the table. */
  function Refreshed(rows: map<Token, Row>, token: Token, now: int, signed: Token, signedAt: int): map<Token, Row> {
    if token !in rows then rows
    else if now > rows[token].expiresAt || signed in rows - {token} then rows - {token}
    else (rows - {token})[signed := Row(rows[token].user, signedAt + WEEK)]
  }

  /** The steps of one call in a row. */
  function Whole(s: State, c: CallId, token: Token, now: int, signed: Token, signedAt: int): State {
    Step(Step(Step(Step(s, Begin(c, token)), Find(c, now)), Delete(c)), Create(c, signed, signedAt))
  }

  /**
   The steps of one call, run in a row: it succeeds iff the token is live and unexpired, and then the new token
   stands for the same user for seven days; if it fails the old token is gone; all other rows stay.
   */
  lemma Uninterrupted(s: State, c: CallId, token: Token, now: int, signed: Token, signedAt: int)
    requires Inv(s) && c !in s.calls && signed !in s.issued
    ensures var t := Whole(s, c, token, now, signed, signedAt);
            && Inv(t) && t.issued <= s.issued + {signed} && t.calls.Keys == s.calls.Keys + {c}
            && t.rows == Refreshed(s.rows, token, now, signed, signedAt)
            && (t.calls[c].pc.Done? <==> token in s.rows && now <= s.rows[token].expiresAt)
            && (t.calls[c].pc.Done? ==>
                  && token in s.rows
                  && t.rows == (s.rows - {token})[signed := Row(s.rows[token].user, signedAt + 604_800_000)])
            && (!t.calls[c].pc.Done? ==> t.rows == s.rows - {token})
  {
    var s1 := Step(s, Begin(c, token));
    var s2 := Step(s1, Find(c, now));
    var s3 := Step(s2, Delete(c));
    StepInv(s, Begin(c, token));
    StepInv(s1, Find(c, now));
    StepInv(s2, Delete(c));
    StepInv(s3, Create(c, signed, signedAt));
    assert s.rows - {token} == s.rows || token in s.rows;
  }

  /** One refresh of a client: when it happens, and what is signed for it and when. */
  datatype Turn = Turn(c: CallId, now: int, signed: Token, signedAt: int)

  /** Each refresh comes in time for the token that the one before it brought. */
  predicate InTime(deadline: int, turns: seq<Turn>)
    decreases turns
  {
    turns == [] || (turns[0].now <= deadline && InTime(turns[0].signedAt + 604_800_000, turns[1..]))
  }

  /** Calls and tokens are new. */
  ghost predicate Fresh(s: State, turns: seq<Turn>) {
    && (forall i :: 0 <= i < |turns| ==> turns[i].c !in s.calls && turns[i].signed !in s.issued)
    && (forall i, j :: 0 <= i < j < |turns| ==> turns[i].c != turns[j].c && turns[i].signed != turns[j].signed)
  }

  /** A client that presents each new token in turn; false once a call has failed. */
  function TakeTurns(s: State, token: Token, turns: seq<Turn>): (State, bool)
    decreases turns
  {
    if turns == [] then (s, true)
    else
      var Turn(c, now, signed, signedAt) := turns[0];
      var t := Whole(s, c, token, now, signed, signedAt);
      if c in t.calls && t.calls[c].pc.Done? then TakeTurns(t, signed, turns[1..]) else (t, false)
  }

  /**
   Refreshing goes on as long as each token is used within seven days, and no longer: the session is then in the
   row of the last token, with the same user as at the start, and nobody else's row is touched.
   */
  lemma {:induction false} SessionGoesOnIff(s: State, token: Token, turns: seq<Turn>)
    requires Inv(s) && token in s.rows && Fresh(s, turns)
    ensures var (t, ok) := TakeTurns(s, token, turns);
            && (ok <==> InTime(s.rows[token].expiresAt, turns))
            && (ok && turns != [] ==>
                  var last := turns[|turns| - 1];
                  t.rows == (s.rows - {token})[last.signed := Row(s.rows[token].user, last.signedAt + 604_800_000)])
    decreases turns
  {
    if turns != [] {
      var Turn(c, now, signed, signedAt) := turns[0];
      var t := Whole(s, c, token, now, signed, signedAt);
      Uninterrupted(s, c, token, now, signed, signedAt);
      if t.calls[c].pc.Done? {
        assert t.rows[signed] == Row(s.rows[token].user, signedAt + WEEK);
        assert signed !in s.rows;
        assert t.rows - {signed} == s.rows - {token};
        SessionGoesOnIff(t, signed, turns[1..]);
      }
    }
  }

  class RefreshTokenTable {
    var rows: map<Token, Row>

    constructor ()
      ensures rows == map[]
    {
      rows := map[];
    }

    method FindUnique(token: Token) returns (row: Row, found: bool)
      ensures found <==> token in rows
      ensures found ==> row == rows[token]
    {
      found := token in rows;
      row := if found then rows[token] else Row(0, 0);
    }

    /** `delete`: the flag is false when it throws because the row is gone. */
    method DeleteRow(token: Token) returns (ok: bool)
      modifies this
      ensures ok == (token in old(rows)) && rows == old(rows) - {token}
    {
      ok := token in rows;
      rows := rows - {token};
    }

    /** `create`: the flag is false when it throws because the token is there already. */
    method CreateRow(token: Token, user: UserId, expiresAt: int) returns (ok: bool)
      modifies this
      ensures ok <==> token !in old(rows)
      ensures rows == if ok then old(rows)[token := Row(user, expiresAt)] else old(rows)
    {
      if token in rows {
        return false;
      }
      rows := rows[token := Row(user, expiresAt)];
      return true;
    }

    /** One call, not interleaved. A token that is signed a second time costs the session. */
    method RefreshTokens(token: Token, now: int, signed: Token, signedAt: int) returns (ok: bool)
      modifies this
      ensures rows == Refreshed(old(rows), token, now, signed, signedAt)
      ensures ok <==> token in old(rows) && now <= old(rows)[token].expiresAt && signed !in old(rows) - {token}
      ensures ok ==> signed in rows && rows[signed] == Row(old(rows)[token].user, signedAt + 604_800_000)
      ensures ok ==> rows - {signed} == old(rows) - {token}
      ensures !ok ==> rows == old(rows) - {token}
      ensures forall user :: ok ==> |Held(rows, user)| == |Held(old(rows), user)|
    {
      var row, found := FindUnique(token);
      if !found {
        return false;
      }
      if now > row.expiresAt {
        var _ := DeleteRow(token);
        return false;
      }
      ok := DeleteRow(token);
      ok := CreateRow(signed, row.user, signedAt + WEEK);
      if ok {
        forall user
          ensures |Held(rows, user)| == |Held(old(rows), user)|
        {
          HeldRemove(old(rows), token, user);
          HeldAdd(old(rows) - {token}, signed, Row(row.user, signedAt + WEEK), user);
        }
      }
    }

    /** `logoutAll`, also the last statement of `changePassword`. */
    method LogoutAll(user: UserId)
      modifies this
      ensures forall t :: t in rows <==> t in old(rows) && old(rows)[t].user != user
      ensures forall t :: t in rows ==> rows[t] == old(rows)[t]
    {
      rows := map t | t in rows && rows[t].user != user :: rows[t];
    }
  }
}
