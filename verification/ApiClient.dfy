/**
 The response interceptor of threads-fe/src/libs/api/axios.ts: the first 401 leads a token
 refresh, later 401s wait in a queue, and the answer to the refresh replays or rejects them all.

 JavaScript runs each callback to completion, so one answer from the network is one step. The
 environment (callers and network) is a list of events that may arrive in any order.
 */
module ApiClient {

  type Id = nat

  /** What the network reports for one call: a 2xx answer, a 401, or anything else. */
  datatype Answer = Success | Unauthorized | OtherError

  const REFRESH := "/auth/refresh"
  const LOGIN := "/auth/signin"
  const REGISTER := "/auth/signup"

  predicate OccursAt(s: string, t: string, i: nat) {
    i + |t| <= |s| && s[i..i + |t|] == t
  }

  predicate Includes(s: string, t: string) {
    exists i: nat | i <= |s| :: OccursAt(s, t, i)
  }

  predicate IsAuthRefreshUrl(url: string) {
    url != "" && Includes(url, REFRESH)
  }

  predicate IsPublicAuthUrl(url: string) {
    url != "" && (Includes(url, LOGIN) || Includes(url, REGISTER))
  }

  predicate IsAuthCall(url: string) {
    IsAuthRefreshUrl(url) || IsPublicAuthUrl(url)
  }

  ghost predicate Holds(url: string, text: string) {
    exists before, after :: url == before + text + after
  }

  ghost predicate NamesAuth(url: string) {
    Holds(url, "/auth/signin") || Holds(url, "/auth/signup") || Holds(url, "/auth/refresh")
  }

  lemma IncludesIff(url: string, text: string)
    ensures Includes(url, text) <==> Holds(url, text)
  {
    if Includes(url, text) {
      var i: nat :| i <= |url| && OccursAt(url, text, i);
      assert url == url[..i] + text + url[i + |text|..];
    }
    if Holds(url, text) {
      var before, after :| url == before + text + after;
      assert OccursAt(url, text, |before|);
    }
  }

  /** The calls that are never retried are those with one of three texts in their URL. */
  lemma AuthCallIff(url: string)
    ensures IsAuthCall(url) <==> NamesAuth(url)
  {
    IncludesIff(url, REFRESH);
    IncludesIff(url, LOGIN);
    IncludesIff(url, REGISTER);
  }

  /**
   `isRefreshing`, `queue` and `retried` (the `_retry` flags) are the module's own variables.
   The rest is what an observer sees: calls on the wire, refresh calls on the wire (named by
   their leader), everything ever sent, and every time a caller's promise was settled.
   */
  datatype State = State(
    isRefreshing: bool,
    queue: seq<Id>,
    retried: set<Id>,
    urls: map<Id, string>,
    wire: multiset<Id>,
    refreshes: multiset<Id>,
    sends: multiset<Id>,
    refreshesSent: nat,
    resolved: multiset<Id>,
    rejected: multiset<Id>)

  const INIT := State(false, [], {}, map[], multiset{}, multiset{}, multiset{}, 0, multiset{}, multiset{})

  datatype Event =
    | Issue(id: Id, url: string)
    | Answered(id: Id, answer: Answer)
    | RefreshAnswered(leader: Id, ok: bool)

  /** The event can happen: a new call is made, or the network answers a call it still holds. */
  predicate Enabled(s: State, e: Event) {
    match e
    case Issue(id, _) => id !in s.urls
    case Answered(id, _) => id in s.wire
    case RefreshAnswered(leader, _) => leader in s.refreshes
  }

  predicate GivesUpAtOnce(s: State, id: Id)
    requires id in s.urls
  {
    id in s.retried || IsAuthCall(s.urls[id])
  }

  function Send(s: State, ids: seq<Id>): State {
    s.(wire := s.wire + multiset(ids), sends := s.sends + multiset(ids))
  }

  function OnUnauthorized(s: State, id: Id): State
    requires id in s.urls
  {
    if GivesUpAtOnce(s, id) then
      s.(rejected := s.rejected + multiset{id})
    else if s.isRefreshing then
      s.(retried := s.retried + {id}, queue := s.queue + [id])
    else
      s.(retried := s.retried + {id}, isRefreshing := true,
         refreshes := s.refreshes + multiset{id}, refreshesSent := s.refreshesSent + 1)
  }

  function OnAnswer(s: State, id: Id, answer: Answer): State
    requires id in s.urls
  {
    var t := s.(wire := s.wire - multiset{id});
    match answer
    case Success => t.(resolved := t.resolved + multiset{id})
    case OtherError => t.(rejected := t.rejected + multiset{id})
    case Unauthorized => OnUnauthorized(t, id)
  }

  /** `drainQueue`: replay every waiter in order, or reject every waiter. */
  function Drained(s: State, ok: bool): State {
    var t := if ok then Send(s, s.queue) else s.(rejected := s.rejected + multiset(s.queue));
    t.(queue := [])
  }

  function OnRefreshAnswer(s: State, leader: Id, ok: bool): State {
    var t := Drained(s.(isRefreshing := false, refreshes := s.refreshes - multiset{leader}), ok);
    if ok then Send(t, [leader]) else t.(rejected := t.rejected + multiset{leader})
  }

  /** One step; an event that cannot happen changes nothing. */
  function Step(s: State, e: Event): State {
    match e
    case Issue(id, url) => if id in s.urls then s else Send(s.(urls := s.urls[id := url]), [id])
    case Answered(id, a) => if id in s.wire && id in s.urls then OnAnswer(s, id, a) else s
    case RefreshAnswered(leader, ok) => if leader in s.refreshes then OnRefreshAnswer(s, leader, ok) else s
  }

  function Run(s: State, es: seq<Event>): State
    decreases es
  {
    if es == [] then s else Run(Step(s, es[0]), es[1..])
  }

  // ---------------------------------------------------------------------------------------
  // Safety
  // ---------------------------------------------------------------------------------------

  ghost predicate Waiting(s: State, id: Id) {
    id in s.refreshes || id in s.queue
  }

  /** How often a request occurs in all the places where it can be. */
  ghost function Places(s: State, id: Id): nat {
    s.wire[id] + s.refreshes[id] + multiset(s.queue)[id] + s.resolved[id] + s.rejected[id]
  }

  /** It is in one place if it was issued; it was marked before waiting; it is sent again only after waiting. */
  ghost predicate Accounted(s: State, id: Id) {
    && Places(s, id) == (if id in s.urls then 1 else 0)
    && (id in s.retried ==> id in s.urls)
    && (Waiting(s, id) ==> id in s.retried)
    && s.sends[id] <= (if id in s.urls then 1 else 0) + (if id in s.retried && !Waiting(s, id) then 1 else 0)
  }

  ghost predicate Inv(s: State) {
    && (forall id :: Accounted(s, id))
    && |s.refreshes| == (if s.isRefreshing then 1 else 0)
    && (s.queue != [] ==> s.isRefreshing)
    && s.refreshesSent <= |s.retried|
  }

  lemma InitInv()
    ensures Inv(INIT)
  {}

  lemma IssueInv(s: State, id: Id, url: string)
    requires Inv(s) && id !in s.urls
    ensures Inv(Step(s, Issue(id, url)))
  {
    var t := Step(s, Issue(id, url));
    forall x ensures Accounted(t, x) {
      assert Accounted(s, x);
    }
  }

  function Settled(s: State, id: Id, ok: bool): State {
    if ok then s.(wire := s.wire - multiset{id}, resolved := s.resolved + multiset{id})
    else s.(wire := s.wire - multiset{id}, rejected := s.rejected + multiset{id})
  }

  lemma SettleInv(s: State, id: Id, ok: bool)
    requires Inv(s) && id in s.wire
    ensures Inv(Settled(s, id, ok))
  {
    var t := Settled(s, id, ok);
    forall x ensures Accounted(t, x) {
      assert Accounted(s, x);
      assert t.wire[x] == s.wire[x] - (if x == id then 1 else 0);
      assert t.resolved[x] + t.rejected[x] == s.resolved[x] + s.rejected[x] + (if x == id then 1 else 0);
      assert Places(t, x) == Places(s, x);
    }
  }

  lemma EnqueueInv(s: State, id: Id)
    requires Inv(s) && id in s.wire && id in s.urls && !GivesUpAtOnce(s, id) && s.isRefreshing
    ensures Inv(OnAnswer(s, id, Unauthorized))
  {
    var t := OnAnswer(s, id, Unauthorized);
    assert Accounted(s, id);
    forall x ensures Accounted(t, x) {
      assert Accounted(s, x);
      assert multiset(s.queue + [id]) == multiset(s.queue) + multiset{id};
      assert x in s.queue + [id] <==> x in s.queue || x == id;
    }
  }

  lemma LeadInv(s: State, id: Id)
    requires Inv(s) && id in s.wire && id in s.urls && !GivesUpAtOnce(s, id) && !s.isRefreshing
    ensures Inv(OnAnswer(s, id, Unauthorized))
  {
    var t := OnAnswer(s, id, Unauthorized);
    assert Accounted(s, id);
    forall x ensures Accounted(t, x) {
      assert Accounted(s, x);
    }
  }

  lemma AnswerInv(s: State, id: Id, a: Answer)
    requires Inv(s) && id in s.wire
    ensures id in s.urls && Inv(OnAnswer(s, id, a))
  {
    assert Accounted(s, id);
    if a != Unauthorized || GivesUpAtOnce(s, id) {
      SettleInv(s, id, a == Success);
      assert OnAnswer(s, id, a) == Settled(s, id, a == Success);
    } else if s.isRefreshing {
      EnqueueInv(s, id);
    } else {
      LeadInv(s, id);
    }
  }

  lemma OnlyLeader(s: State, leader: Id)
    requires |s.refreshes| == 1 && leader in s.refreshes
    ensures s.refreshes == multiset{leader} && s.refreshes - multiset{leader} == multiset{}
  {
    assert s.refreshes == multiset{leader} + (s.refreshes - multiset{leader});
    assert |s.refreshes - multiset{leader}| == 0;
  }

  lemma RefreshInv(s: State, leader: Id, ok: bool)
    requires Inv(s) && leader in s.refreshes
    ensures Inv(Step(s, RefreshAnswered(leader, ok)))
  {
    var t := Step(s, RefreshAnswered(leader, ok));
    OnlyLeader(s, leader);
    assert multiset([leader]) == multiset{leader};
    forall x ensures Accounted(t, x) {
      assert Accounted(s, x);
    }
  }

  lemma StepInv(s: State, e: Event)
    requires Inv(s)
    ensures Inv(Step(s, e))
  {
    match e
    case Issue(id, url) => if id !in s.urls { IssueInv(s, id, url); }
    case Answered(id, a) => if id in s.wire { AnswerInv(s, id, a); }
    case RefreshAnswered(leader, ok) => if leader in s.refreshes { RefreshInv(s, leader, ok); }
  }

  lemma {:induction false} RunInv(s: State, es: seq<Event>)
    requires Inv(s)
    ensures Inv(Run(s, es))
    decreases es
  {
    if es != [] {
      StepInv(s, es[0]);
      RunInv(Step(s, es[0]), es[1..]);
    }
  }

  lemma EndsRefresh(s: State, leader: Id, ok: bool)
    requires Inv(s) && leader in s.refreshes
    ensures var t := Step(s, RefreshAnswered(leader, ok));
            Inv(t) && s.isRefreshing && !t.isRefreshing && t.refreshesSent == s.refreshesSent
  {
    assert |s.refreshes| > 0;
    RefreshInv(s, leader, ok);
  }

  /** The answer to a refresh sends everybody who waited for it again, or rejects them. */
  lemma RefreshWakesAll(s: State, leader: Id, ok: bool, id: Id)
    requires Inv(s) && leader in s.refreshes && Waiting(s, id)
    ensures var t := Step(s, RefreshAnswered(leader, ok));
            !Waiting(t, id) && t.wire[id] == (if ok then 1 else 0) && t.rejected[id] == (if ok then 0 else 1)
  {
    assert Accounted(s, id);
    OnlyLeader(s, leader);
    assert multiset([leader]) == multiset{leader};
  }

  /** Where one request stands: the phases exclude each other. */
  ghost predicate ExactlyOnePlace(s: State, id: Id) {
    (if id in s.wire && id !in s.retried then 1 else 0)      // first try
    + (if id in s.wire && id in s.retried then 1 else 0)     // second try
    + (if id in s.refreshes then 1 else 0)                   // leading the refresh
    + (if id in s.queue then 1 else 0)                       // waiting in the queue
    + (if id in s.resolved then 1 else 0)
    + (if id in s.rejected then 1 else 0) == 1
  }

  lemma OnlyOnce(q: seq<Id>, i: nat, j: nat)
    requires i < j < |q| && multiset(q)[q[i]] <= 1
    ensures q[i] != q[j]
  {
    assert q == q[..j] + [q[j]] + q[j + 1..];
    assert q[i] in multiset(q[..j]) by { assert q[..j][i] == q[i]; }
  }

  /** Single-flight safety, for every list of events whatsoever. */
  lemma SingleFlight(es: seq<Event>)
    ensures var s := Run(INIT, es);
            && |s.refreshes| <= 1
            && (s.queue != [] ==> |s.refreshes| == 1)
            && (s.isRefreshing <==> |s.refreshes| == 1)
            && (forall i, j :: 0 <= i < j < |s.queue| ==> s.queue[i] != s.queue[j])
            && (forall id :: id in s.urls ==> ExactlyOnePlace(s, id))
            && (forall id :: s.sends[id] <= 2)
            && (forall id :: s.resolved[id] + s.rejected[id] <= 1)
  {
    InitInv();
    RunInv(INIT, es);
    var s := Run(INIT, es);
    forall id
      ensures id in s.urls ==> ExactlyOnePlace(s, id)
      ensures s.sends[id] <= 2
      ensures s.resolved[id] + s.rejected[id] <= 1
    {
      assert Accounted(s, id);
    }
    forall i, j | 0 <= i < j < |s.queue|
      ensures s.queue[i] != s.queue[j]
    {
      assert Accounted(s, s.queue[i]);
      OnlyOnce(s.queue, i, j);
    }
  }

  // ---------------------------------------------------------------------------------------
  // Which requests are tried again
  // ---------------------------------------------------------------------------------------

  ghost predicate NoAuthRetried(s: State) {
    forall id :: OrdinaryIfRetried(s, id)
  }

  ghost predicate OrdinaryIfRetried(s: State, id: Id) {
    id in s.retried && id in s.urls ==> !IsAuthCall(s.urls[id])
  }

  lemma {:induction false} RunNoAuth(s: State, es: seq<Event>)
    requires Inv(s) && NoAuthRetried(s)
    ensures NoAuthRetried(Run(s, es))
    decreases es
  {
    if es != [] {
      StepInv(s, es[0]);
      StepNoAuth(s, es[0]);
      RunNoAuth(Step(s, es[0]), es[1..]);
    }
  }

  /** A step marks at most a request that it may retry. */
  lemma StepMarks(s: State, e: Event, id: Id)
    requires id in s.urls
    ensures var t := Step(s, e);
            && id in t.urls && t.urls[id] == s.urls[id]
            && (id in t.retried && id !in s.retried ==> !IsAuthCall(s.urls[id]))
  {}

  lemma StepNoAuth(s: State, e: Event)
    requires Inv(s) && NoAuthRetried(s)
    ensures NoAuthRetried(Step(s, e))
  {
    forall id ensures OrdinaryIfRetried(Step(s, e), id) {
      assert OrdinaryIfRetried(s, id) && Accounted(s, id);
      if id in s.urls { StepMarks(s, e, id); }
    }
  }

  /** Sign-in, sign-up and refresh calls are sent once: a 401 on one of them never starts or awaits a refresh. */
  lemma AuthCallsAreSentOnce(es: seq<Event>, id: Id)
    ensures var s := Run(INIT, es);
            id in s.urls && IsAuthCall(s.urls[id]) ==> s.sends[id] <= 1 && !Waiting(s, id)
  {
    InitInv();
    RunInv(INIT, es);
    RunNoAuth(INIT, es);
    assert Accounted(Run(INIT, es), id) && OrdinaryIfRetried(Run(INIT, es), id);
  }

  /** Sent once, and once more if it waited; rejected only for good. */
  ghost predicate TriedFully(s: State, id: Id) {
    && (id in s.urls ==> s.sends[id] == (if id in s.retried && !Waiting(s, id) then 2 else 1))
    && (s.rejected[id] > 0 ==> id in s.urls && (IsAuthCall(s.urls[id]) || (id in s.retried && !Waiting(s, id))))
  }

  predicate RefreshesSucceed(es: seq<Event>) {
    forall e :: e in es ==> (e.RefreshAnswered? ==> e.ok) && (e.Answered? ==> e.answer != OtherError)
  }

  lemma AnswerTried(s: State, id: Id, a: Answer)
    requires Inv(s) && id in s.wire && id in s.urls && a != OtherError && forall x :: TriedFully(s, x)
    ensures forall x :: TriedFully(OnAnswer(s, id, a), x)
  {
    var t := OnAnswer(s, id, a);
    forall x ensures TriedFully(t, x) {
      assert TriedFully(s, x) && Accounted(s, x);
      assert x in s.queue + [id] <==> x in s.queue || x == id;
    }
  }

  lemma RefreshTried(s: State, leader: Id)
    requires Inv(s) && leader in s.refreshes && forall x :: TriedFully(s, x)
    ensures forall x :: TriedFully(OnRefreshAnswer(s, leader, true), x)
  {
    var t := OnRefreshAnswer(s, leader, true);
    OnlyLeader(s, leader);
    assert multiset([leader]) == multiset{leader};
    forall x ensures TriedFully(t, x) {
      assert TriedFully(s, x) && Accounted(s, x);
    }
  }

  lemma IssueTried(s: State, id: Id, url: string)
    requires Inv(s) && id !in s.urls && forall x :: TriedFully(s, x)
    ensures forall x :: TriedFully(Step(s, Issue(id, url)), x)
  {
    forall x ensures TriedFully(Step(s, Issue(id, url)), x) {
      assert TriedFully(s, x) && Accounted(s, x);
    }
  }

  lemma {:induction false} RunTried(s: State, es: seq<Event>)
    requires Inv(s) && RefreshesSucceed(es) && forall x :: TriedFully(s, x)
    ensures forall x :: TriedFully(Run(s, es), x)
    decreases es
  {
    if es != [] {
      assert es[0] in es;
      StepInv(s, es[0]);
      match es[0] {
        case Issue(id, url) => if id !in s.urls { IssueTried(s, id, url); }
        case Answered(id, a) => if id in s.wire { assert Accounted(s, id); AnswerTried(s, id, a); }
        case RefreshAnswered(leader, ok) => if leader in s.refreshes { RefreshTried(s, leader); }
      }
      RunTried(Step(s, es[0]), es[1..]);
    }
  }

  /** When refreshes succeed, an ordinary request is rejected only after the replay got a 401 as well. */
  lemma RejectedOnlyAfterReplay(es: seq<Event>, id: Id)
    requires RefreshesSucceed(es)
    ensures var s := Run(INIT, es);
            s.rejected[id] > 0 ==> id in s.urls && (IsAuthCall(s.urls[id]) || s.sends[id] == 2)
  {
    InitInv();
    RunTried(INIT, es);
    assert TriedFully(Run(INIT, es), id);
  }

  lemma {:induction false} RunUnreplayed(s: State, es: seq<Event>)
    requires Inv(s) && (forall e :: e in es && e.RefreshAnswered? ==> !e.ok) && forall x :: s.sends[x] <= 1
    ensures forall x :: Run(s, es).sends[x] <= 1
    decreases es
  {
    if es != [] {
      assert es[0] in es;
      StepInv(s, es[0]);
      if es[0].Issue? { assert Accounted(s, es[0].id); }
      forall x ensures Step(s, es[0]).sends[x] <= 1 { assert Accounted(s, x); }
      RunUnreplayed(Step(s, es[0]), es[1..]);
    }
  }

  /** When every refresh fails, nothing is ever replayed. */
  lemma NoReplayAfterFailure(es: seq<Event>, id: Id)
    requires forall e :: e in es && e.RefreshAnswered? ==> !e.ok
    ensures Run(INIT, es).sends[id] <= 1
  {
    InitInv();
    RunUnreplayed(INIT, es);
  }

  // ---------------------------------------------------------------------------------------
  // One request by itself
  // ---------------------------------------------------------------------------------------

  /** What one request learns: the answer to it, or the outcome of the refresh that it leads or waits for. */
  datatype Note = Got(answer: Answer) | Woken(ok: bool)

  function Noted(s: State, e: Event, id: Id): seq<Note> {
    match e
    case Issue(_, _) => []
    case Answered(x, a) => if x == id && id in s.wire && id in s.urls then [Got(a)] else []
    case RefreshAnswered(leader, ok) =>
      if leader in s.refreshes && (id == leader || id in s.queue) then [Woken(ok)] else []
  }

  function History(es: seq<Event>, id: Id): seq<Note> {
    if es == [] then []
    else
      var init := es[..|es| - 1];
      History(init, id) + Noted(Run(INIT, init), es[|es| - 1], id)
  }

  datatype Place = OnWire | Waits | Resolved | Rejected

  /** What the interceptor promises a caller, whatever other requests do: only the last note matters. */
  ghost function Fate(url: string, notes: seq<Note>): Place {
    if notes == [] then OnWire
    else
      match notes[|notes| - 1]
      case Got(Success) => Resolved
      case Got(OtherError) => Rejected
      case Got(Unauthorized) => if |notes| > 1 || NamesAuth(url) then Rejected else Waits
      case Woken(ok) => if ok then OnWire else Rejected
  }

  ghost predicate IsAt(s: State, id: Id, place: Place) {
    && s.wire[id] == (if place == OnWire then 1 else 0)
    && (Waiting(s, id) <==> place == Waits)
    && s.resolved[id] == (if place == Resolved then 1 else 0)
    && s.rejected[id] == (if place == Rejected then 1 else 0)
  }

  ghost predicate AsNoted(s: State, id: Id, h: seq<Note>) {
    if id !in s.urls then h == []
    else
      && IsAt(s, id, Fate(s.urls[id], h))
      && (id in s.retried <==> !NamesAuth(s.urls[id]) && h != [] && h[0] == Got(Unauthorized))
      && (|h| > 1 || (h != [] && h[|h| - 1].Woken?) ==> id in s.retried)
      && s.sends[id] == (if Woken(true) in h then 2 else 1)
      && (Woken(true) in h ==> |h| > 1)
  }

  lemma OwnAnswerNoted(s: State, id: Id, a: Answer, h: seq<Note>)
    requires Inv(s) && id in s.wire && id in s.urls && AsNoted(s, id, h)
    ensures AsNoted(OnAnswer(s, id, a), id, h + [Got(a)])
  {
    assert Accounted(s, id);
    var h1 := h + [Got(a)];
    AuthCallIff(s.urls[id]);
    assert h1[|h1| - 1] == Got(a) && (h != [] ==> h1[0] == h[0]);
    if a == Unauthorized {
      assert id in s.queue + [id];
    }
  }

  lemma OtherAnswerNoted(s: State, x: Id, a: Answer, id: Id, h: seq<Note>)
    requires Inv(s) && x in s.wire && x in s.urls && x != id && AsNoted(s, id, h)
    ensures AsNoted(OnAnswer(s, x, a), id, h)
  {
    assert id in s.queue + [x] <==> id in s.queue;
  }

  lemma RefreshNoted(s: State, leader: Id, ok: bool, id: Id, h: seq<Note>)
    requires Inv(s) && leader in s.refreshes && AsNoted(s, id, h)
    ensures AsNoted(OnRefreshAnswer(s, leader, ok), id, h + Noted(s, RefreshAnswered(leader, ok), id))
  {
    assert Accounted(s, id);
    OnlyLeader(s, leader);
    assert multiset([leader]) == multiset{leader};
    var h1 := h + Noted(s, RefreshAnswered(leader, ok), id);
    if Waiting(s, id) {
      assert h1 == h + [Woken(ok)] && h1[|h1| - 1] == Woken(ok) && h != [] && h1[0] == h[0];
    } else {
      assert h1 == h;
    }
  }

  lemma StepNoted(s: State, e: Event, id: Id, h: seq<Note>)
    requires Inv(s) && AsNoted(s, id, h)
    ensures AsNoted(Step(s, e), id, h + Noted(s, e, id))
  {
    assert h + [] == h;
    match e
    case Issue(x, url) => assert Accounted(s, id);
    case Answered(x, a) =>
      if x in s.wire {
        assert Accounted(s, x);
        if x == id { OwnAnswerNoted(s, id, a, h); } else { OtherAnswerNoted(s, x, a, id, h); }
      }
    case RefreshAnswered(leader, ok) => if leader in s.refreshes { RefreshNoted(s, leader, ok, id, h); }
  }

  lemma {:induction false} RunNoted(es: seq<Event>, id: Id)
    ensures Inv(Run(INIT, es)) && AsNoted(Run(INIT, es), id, History(es, id))
  {
    InitInv();
    if es != [] {
      var init, last := es[..|es| - 1], es[|es| - 1];
      var s := Run(INIT, init);
      RunNoted(init, id);
      StepInv(s, last);
      StepNoted(s, last, id, History(init, id));
      assert es == init + [last];
      RunSnoc(INIT, init, last);
    }
  }

  lemma ResolvedFate(url: string, h: seq<Note>)
    ensures Fate(url, h) == Resolved <==> h != [] && h[|h| - 1] == Got(Success)
  {}

  /**
   In every run, what became of a request is decided by what it learnt itself: it resolves exactly if its last
   answer was a 2xx; it rejects exactly on another error, on a 401 to a sign-in, sign-up or refresh call, on a
   401 after it had learnt anything before, and on a failed refresh; it waits exactly after its first 401; and
   it was sent twice exactly if its refresh succeeded.
   */
  lemma EveryRequestMeetsItsFate(es: seq<Event>, id: Id)
    ensures var s, h := Run(INIT, es), History(es, id);
            id in s.urls ==>
              && IsAt(s, id, Fate(s.urls[id], h))
              && (s.resolved[id] == 1 <==> h != [] && h[|h| - 1] == Got(Success))
              && s.sends[id] == (if Woken(true) in h then 2 else 1)
  {
    RunNoted(es, id);
    var s, h := Run(INIT, es), History(es, id);
    if id in s.urls { ResolvedFate(s.urls[id], h); }
  }

  // ---------------------------------------------------------------------------------------
  // Progress
  // ---------------------------------------------------------------------------------------

  /** Work left: every answer the network gives lowers it. */
  function Measure(s: State): int {
    2 * (|s.urls| - |s.retried|) + 2 * (|s.refreshes| + |s.queue|) + |s.wire|
  }

  lemma MeasureIsNat(s: State)
    requires Inv(s)
    ensures 0 <= Measure(s)
    ensures s.refreshesSent <= |s.retried| <= |s.urls|
  {
    assert s.retried <= s.urls.Keys by {
      forall id | id in s.retried ensures id in s.urls { assert Accounted(s, id); }
    }
    assert s.urls.Keys == s.retried + (s.urls.Keys - s.retried);
  }

  lemma AnswerMeasure(s: State, id: Id, a: Answer)
    requires id in s.wire && id in s.urls
    ensures OnAnswer(s, id, a).urls == s.urls && Measure(OnAnswer(s, id, a)) < Measure(s)
  {
    assert s.wire == (s.wire - multiset{id}) + multiset{id};
  }

  /** Any answer the network gives removes at least one unit. */
  lemma StepMeasure(s: State, e: Event)
    requires Inv(s) && Enabled(s, e) && !e.Issue?
    ensures Measure(Step(s, e)) < Measure(s) && Step(s, e).urls == s.urls
  {
    if e.Answered? {
      assert Accounted(s, e.id);
      AnswerMeasure(s, e.id, e.answer);
    } else {
    }
  }

  function Issued(s: State, es: seq<Event>): nat
    decreases es
  {
    if es == [] then 0
    else (if es[0].Issue? && Enabled(s, es[0]) then 1 else 0) + Issued(Step(s, es[0]), es[1..])
  }

  function Answers(s: State, es: seq<Event>): nat
    decreases es
  {
    if es == [] then 0
    else (if !es[0].Issue? && Enabled(s, es[0]) then 1 else 0) + Answers(Step(s, es[0]), es[1..])
  }

  lemma {:induction false} RunMeasure(s: State, es: seq<Event>)
    requires Inv(s)
    ensures Measure(Run(s, es)) + Answers(s, es) <= Measure(s) + 3 * Issued(s, es)
    ensures |Run(s, es).urls| == |s.urls| + Issued(s, es)
    decreases es
  {
    if es != [] {
      StepInv(s, es[0]);
      if Enabled(s, es[0]) {
        if !es[0].Issue? { StepMeasure(s, es[0]); }
      }
      RunMeasure(Step(s, es[0]), es[1..]);
    }
  }

  ghost predicate Quiet(s: State) {
    s.wire == multiset{} && s.refreshes == multiset{}
  }

  lemma QuietMeansSettled(s: State)
    requires Inv(s) && Quiet(s)
    ensures s.queue == [] && !s.isRefreshing && s.resolved + s.rejected == multiset(s.urls.Keys)
  {
    forall id
      ensures (s.resolved + s.rejected)[id] == multiset(s.urls.Keys)[id]
    {
      assert Accounted(s, id);
    }
  }

  /**
   Progress, for every run: n requests take at most 3n answers and at most n refreshes; and once
   the network owes no answer, all n are settled exactly once and nobody is left waiting.
   */
  lemma EveryRunSettles(es: seq<Event>)
    ensures var s, n := Run(INIT, es), Issued(INIT, es);
            && Answers(INIT, es) <= 3 * n
            && s.refreshesSent <= n == |s.urls|
            && (Quiet(s) ==> s.queue == [] && !s.isRefreshing && s.resolved + s.rejected == multiset(s.urls.Keys))
            && (forall id :: Quiet(s) && id in s.urls ==> s.resolved[id] + s.rejected[id] == 1)
  {
    InitInv();
    RunInv(INIT, es);
    RunMeasure(INIT, es);
    var s := Run(INIT, es);
    MeasureIsNat(s);
    if Quiet(s) {
      QuietMeansSettled(s);
      forall id | id in s.urls
        ensures s.resolved[id] + s.rejected[id] == 1
      {
        assert (s.resolved + s.rejected)[id] == 1;
      }
    }
  }

  /** A network that, as long as it owes an answer, gives one of those it owes. */
  ghost predicate Responsive(net: State -> Event) {
    forall s :: !Quiet(s) ==> !net(s).Issue? && Enabled(s, net(s))
  }

  /** Let a responsive network answer until nothing is outstanding; the measure makes this end. */
  ghost function Drive(s: State, net: State -> Event): State
    requires Inv(s) && Responsive(net)
    decreases Measure(s)
  {
    if Quiet(s) then s
    else
      StepInv(s, net(s));
      StepMeasure(s, net(s));
      MeasureIsNat(s);
      MeasureIsNat(Step(s, net(s)));
      Drive(Step(s, net(s)), net)
  }

  /** Whatever the answers are, every request of every run ends settled, none in the queue. */
  lemma {:induction false} ResponsiveNetworkSettlesAll(s: State, net: State -> Event)
    requires Inv(s) && Responsive(net)
    ensures var t := Drive(s, net);
            t.urls == s.urls && t.resolved + t.rejected == multiset(s.urls.Keys) && t.queue == []
            && t.refreshesSent <= |s.urls|
    decreases Measure(s)
  {
    MeasureIsNat(s);
    if Quiet(s) {
      QuietMeansSettled(s);
    } else {
      StepInv(s, net(s));
      StepMeasure(s, net(s));
      MeasureIsNat(Step(s, net(s)));
      ResponsiveNetworkSettlesAll(Step(s, net(s)), net);
    }
  }

  lemma {:induction false} RunSnoc(s: State, es: seq<Event>, e: Event)
    ensures Run(s, es + [e]) == Step(Run(s, es), e)
    decreases es
  {
    if es == [] {
      assert [e][1..] == [];
    } else {
      assert (es + [e])[1..] == es[1..] + [e];
      RunSnoc(Step(s, es[0]), es[1..], e);
    }
  }

  /** One more request that gets a 401 and leads a refresh of its own. */
  lemma OneMoreRefresh(s: State, id: Id)
    requires Inv(s) && !s.isRefreshing && id !in s.urls
    ensures var t := Step(Step(Step(s, Issue(id, "")), Answered(id, Unauthorized)), RefreshAnswered(id, false));
            t.refreshesSent == s.refreshesSent + 1 && !t.isRefreshing && t.urls == s.urls[id := ""]
  {
    assert Accounted(s, id);
    var s1 := Step(s, Issue(id, ""));
    assert id in s1.wire && s1.urls == s.urls[id := ""] && !GivesUpAtOnce(s1, id);
  }

  lemma {:induction false} OneByOne(n: nat) returns (es: seq<Event>)
    ensures var s := Run(INIT, es);
            s.refreshesSent == n && |s.urls| == n && !s.isRefreshing && (forall id :: id in s.urls ==> id < n)
  {
    es := [];
    if n > 0 {
      es := OneByOne(n - 1);
      var s := Run(INIT, es);
      InitInv();
      RunInv(INIT, es);
      OneMoreRefresh(s, n - 1);
      assert s.urls[n - 1 := ""].Keys == s.urls.Keys + {n - 1};
      RunSnoc(INIT, es, Issue(n - 1, ""));
      es := es + [Issue(n - 1, "")];
      RunSnoc(INIT, es, Answered(n - 1, Unauthorized));
      es := es + [Answered(n - 1, Unauthorized)];
      RunSnoc(INIT, es, RefreshAnswered(n - 1, false));
      es := es + [RefreshAnswered(n - 1, false)];
    }
  }

  /** The bound of n refreshes is reached: it cannot be improved. */
  lemma RefreshBoundIsTight(n: nat)
    ensures exists es :: |Run(INIT, es).urls| == n && Run(INIT, es).refreshesSent == n
  {
    var es := OneByOne(n);
  }

  // ---------------------------------------------------------------------------------------
  // The interceptor as the module-level variables it updates
  // ---------------------------------------------------------------------------------------

  /** What one callback does to the outside world, in order. */
  datatype Effects = Effects(sent: seq<Id>, resolved: seq<Id>, rejected: seq<Id>, refresh: seq<Id>)

  ghost predicate Performed(s: State, t: State, fx: Effects) {
    && t.sends == s.sends + multiset(fx.sent)
    && t.resolved == s.resolved + multiset(fx.resolved)
    && t.rejected == s.rejected + multiset(fx.rejected)
    && t.refreshesSent == s.refreshesSent + |fx.refresh|
  }

  class Interceptor {
    var isRefreshing: bool
    var queue: seq<Id>
    var retried: set<Id>

    ghost predicate Agrees(s: State)
      reads this
    {
      isRefreshing == s.isRefreshing && queue == s.queue && retried == s.retried
    }

    constructor ()
      ensures Agrees(INIT)
    {
      isRefreshing, queue, retried := false, [], {};
    }

    /** `drainQueue`, given whether there was an error: the waiters to replay, or to reject, in queue order. */
    method DrainQueue(failed: bool) returns (replayed: seq<Id>, rejected: seq<Id>)
      modifies this`queue
      ensures queue == []
      ensures replayed == (if failed then [] else old(queue)) && rejected == (if failed then old(queue) else [])
    {
      replayed, rejected := [], [];
      for i := 0 to |queue|
        invariant queue == old(queue)
        invariant replayed == (if failed then [] else queue[..i]) && rejected == (if failed then queue[..i] else [])
      {
        if failed {
          rejected := rejected + [queue[i]];
        } else {
          replayed := replayed + [queue[i]];
        }
      }
      queue := [];
    }

    /** The two callbacks given to `interceptors.response.use`, up to the awaited refresh call. */
    method OnResponse(id: Id, url: string, answer: Answer, ghost s: State) returns (fx: Effects)
      requires Agrees(s) && id in s.wire && id in s.urls && s.urls[id] == url
      modifies this
      ensures Agrees(Step(s, Answered(id, answer))) && Performed(s, Step(s, Answered(id, answer)), fx)
      ensures Step(s, Answered(id, answer)).refreshes == s.refreshes + multiset(fx.refresh) && fx.sent == []
      ensures fx.resolved == if answer == Success then [id] else []
      ensures var final := id in old(retried) || NamesAuth(url);
              fx.rejected == if answer == OtherError || (answer == Unauthorized && final) then [id] else []
      ensures var retry := answer == Unauthorized && id !in old(retried) && !NamesAuth(url);
              && fx.refresh == (if retry && !old(isRefreshing) then [id] else [])
              && queue == old(queue) + (if retry && old(isRefreshing) then [id] else [])
              && retried == old(retried) + (if retry then {id} else {})
              && isRefreshing == (old(isRefreshing) || retry)
    {
      AuthCallIff(url);
      if answer == Success {
        return Effects([], [id], [], []);
      }
      if answer != Unauthorized {
        return Effects([], [], [id], []);
      }
      if id in retried || IsAuthRefreshUrl(url) || IsPublicAuthUrl(url) {
        return Effects([], [], [id], []);
      }
      retried := retried + {id};
      if isRefreshing {
        queue := queue + [id];
        return Effects([], [], [], []);
      }
      isRefreshing := true;
      return Effects([], [], [], [id]);
    }

    /** The leader resumes after the refresh call it awaited. */
    method OnRefresh(leader: Id, ok: bool, ghost s: State) returns (fx: Effects)
      requires Agrees(s) && leader in s.refreshes
      modifies this
      ensures Agrees(Step(s, RefreshAnswered(leader, ok))) && Performed(s, Step(s, RefreshAnswered(leader, ok)), fx)
      ensures fx.sent == (if ok then s.queue + [leader] else [])
          && fx.rejected == (if ok then [] else s.queue + [leader])
      ensures Step(s, RefreshAnswered(leader, ok)).refreshes == s.refreshes - multiset{leader} && fx.refresh == []
    {
      isRefreshing := false;
      var replayed, rejected := DrainQueue(!ok);
      if ok {
        return Effects(replayed + [leader], [], [], []);
      }
      return Effects([], [], rejected + [leader], []);
    }
  }
}
