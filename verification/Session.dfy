/**
 One browser client (module ApiClient) against the rotating tokens of the server (module
 Rotation). The interceptor's refresh call carries the refresh cookie; the answer to a successful
 one replaces it (threads-be/src/modules/auth/auth.controller.ts:121-141). The connection may
 break at any moment, which leaves the server's call running without anybody to answer to.

 No logout and no expiry: the other reasons for a token to disappear are covered in Rotation.
 */
module Session {
  import C = ApiClient
  import R = Rotation

  /**
   The k-th refresh the interceptor sends is call k of the server. `delivered` holds the calls
   whose success reached the client.
   */
  datatype State = State(client: C.State, server: R.State, cookie: R.Token, delivered: set<R.CallId>)

  datatype Event =
    | Client(call: C.Event)         // Issue or Answered: callers, and answers to ordinary calls
    | Server(op: R.Event)         // one database call of a refreshTokens call, or a login elsewhere
    | Deliver(leader: C.Id)        // the answer of the outstanding refresh arrives
    | Cut(leader: C.Id)            // its connection breaks instead

  function Outstanding(s: State): int {
    s.client.refreshesSent - 1
  }

  /** Server events in scope; `find` must see the token unexpired. */
  predicate InScope(r: R.State, e: R.Event) {
    match e
    case Find(c, now) => c in r.calls && (r.calls[c].token in r.rows ==> now <= r.rows[r.calls[c].token].expiresAt)
    case Delete(_) => true
    case Create(_, _, _) => true
    case Break(_) => true
    case Login(_, _, _) => true
    case Begin(_, _) => false
    case Logout(_, _) => false
    case RevokeAll(_) => false
  }

  function OnClient(s: State, e: C.Event): State {
    var client := C.Step(s.client, e);
    var started := client.refreshesSent > s.client.refreshesSent;
    var server := if started then R.Step(s.server, R.Begin(s.client.refreshesSent, s.cookie)) else s.server;
    s.(client := client, server := server)
  }

  predicate Finished(pc: R.Pc) {
    pc.Done? || pc.Refused? || pc.Broken?
  }

  function OnDeliver(s: State, leader: C.Id, k: R.CallId): State
    requires k in s.server.calls
  {
    var pc := s.server.calls[k].pc;
    var t := s.(client := C.Step(s.client, C.RefreshAnswered(leader, pc.Done?)));
    if pc.Done? then t.(cookie := pc.signed, delivered := s.delivered + {k}) else t
  }

  function Step(s: State, e: Event): State {
    match e
    case Client(f) => if f.RefreshAnswered? then s else OnClient(s, f)
    case Server(f) => if InScope(s.server, f) then s.(server := R.Step(s.server, f)) else s
    case Deliver(leader) =>
      if leader in s.client.refreshes && Outstanding(s) in s.server.calls && Finished(s.server.calls[Outstanding(s)].pc)
      then OnDeliver(s, leader, Outstanding(s))
      else s
    case Cut(leader) =>
      if leader in s.client.refreshes then s.(client := C.Step(s.client, C.RefreshAnswered(leader, false))) else s
  }

  function Run(s: State, es: seq<Event>): State
    decreases es
  {
    if es == [] then s else Run(Step(s, es[0]), es[1..])
  }

  /** A signed-in client that has sent nothing yet. */
  ghost predicate Start(s: State) {
    && s.client == C.INIT && s.delivered == {}
    && s.server.rows.Keys <= s.server.issued && s.server.calls == map[] && s.cookie in s.server.rows
  }

  // ---------------------------------------------------------------------------------------
  // The client-server invariant
  // ---------------------------------------------------------------------------------------

  /** The call consumed the token it presented and its answer has not reached the client. */
  ghost predicate Owed(r: R.State, delivered: set<R.CallId>, c: R.CallId) {
    R.ConsumedBy(r, c) && c !in delivered
  }

  ghost predicate SomeOwed(r: R.State, delivered: set<R.CallId>) {
    exists c :: Owed(r, delivered, c)
  }

  /** One server call as seen from the client that sent it. */
  ghost predicate CallFits(r: R.State, cookie: R.Token, delivered: set<R.CallId>, c: R.CallId)
    requires c in r.calls
  {
    var token, pc := r.calls[c].token, r.calls[c].pc;
    && token in r.issued
    && !pc.Purging?
    && (token == cookie || token !in r.rows)
    && (R.Consumed(pc) && c !in delivered ==> token == cookie)
    && (pc.Done? && c !in delivered ==>
        pc.signed in r.rows && pc.signed != cookie && forall d :: d in r.calls ==> r.calls[d].token != pc.signed)
    && (c in delivered ==> pc.Done?)
  }

  /** `sent` refreshes were sent; the last one is outstanding iff `refreshing`. */
  ghost predicate Linked(sent: nat, refreshing: bool, r: R.State, cookie: R.Token, delivered: set<R.CallId>) {
    && R.Inv(r)
    && (refreshing ==> sent > 0)
    && (forall c: nat :: c in r.calls <==> c < sent)
    && cookie in r.issued
    && delivered <= r.calls.Keys
    && (forall c :: c in r.calls ==> CallFits(r, cookie, delivered, c))
    && (cookie !in r.rows ==> SomeOwed(r, delivered))
    && (refreshing ==>
        sent - 1 !in delivered && r.calls[sent - 1].token == cookie
        && (r.calls[sent - 1].pc.Refused? ==> SomeOwed(r, delivered)))
  }

  ghost predicate Inv(s: State) {
    C.Inv(s.client) && Linked(s.client.refreshesSent, s.client.isRefreshing, s.server, s.cookie, s.delivered)
  }

  lemma OwedKept(r: R.State, t: R.State, delivered: set<R.CallId>)
    requires SomeOwed(r, delivered)
    requires forall c :: R.ConsumedBy(r, c) ==> R.ConsumedBy(t, c)
    ensures SomeOwed(t, delivered)
  {
    var c :| Owed(r, delivered, c);
    assert Owed(t, delivered, c);
  }

  lemma BeginLinked(sent: nat, r: R.State, cookie: R.Token, delivered: set<R.CallId>)
    requires Linked(sent, false, r, cookie, delivered)
    ensures Linked(sent + 1, true, R.Step(r, R.Begin(sent, cookie)), cookie, delivered)
  {
    var t := R.Step(r, R.Begin(sent, cookie));
    R.StepInv(r, R.Begin(sent, cookie));
    forall c | c in t.calls
      ensures CallFits(t, cookie, delivered, c)
    {
      if c != sent { assert CallFits(r, cookie, delivered, c); }
    }
    if SomeOwed(r, delivered) { OwedKept(r, t, delivered); }
  }

  lemma FindLinked(sent: nat, refreshing: bool, r: R.State, cookie: R.Token, delivered: set<R.CallId>, k: R.CallId,
                   now: int)
    requires Linked(sent, refreshing, r, cookie, delivered)
    requires R.Enabled(r, R.Find(k, now)) && InScope(r, R.Find(k, now))
    ensures Linked(sent, refreshing, R.OnFind(r, k, now), cookie, delivered)
  {
    var t := R.OnFind(r, k, now);
    R.StepInv(r, R.Find(k, now));
    forall c | c in t.calls
      ensures CallFits(t, cookie, delivered, c)
    {
      assert CallFits(r, cookie, delivered, c);
    }
    if SomeOwed(r, delivered) { OwedKept(r, t, delivered); }
  }

  lemma DeleteLinked(sent: nat, refreshing: bool, r: R.State, cookie: R.Token, delivered: set<R.CallId>, k: R.CallId)
    requires Linked(sent, refreshing, r, cookie, delivered) && R.Enabled(r, R.Delete(k))
    ensures Linked(sent, refreshing, R.OnDelete(r, k), cookie, delivered)
  {
    var t := R.OnDelete(r, k);
    R.StepInv(r, R.Delete(k));
    assert CallFits(r, cookie, delivered, k);
    forall c | c in t.calls
      ensures CallFits(t, cookie, delivered, c)
    {
      assert CallFits(r, cookie, delivered, c);
    }
    if SomeOwed(r, delivered) {
      OwedKept(r, t, delivered);
    } else {
      assert Owed(t, delivered, k) || t.rows == r.rows;
    }
  }

  lemma CreateLinked(sent: nat, refreshing: bool, r: R.State, cookie: R.Token, delivered: set<R.CallId>, k: R.CallId,
                     signed: R.Token, signedAt: int)
    requires Linked(sent, refreshing, r, cookie, delivered) && R.Enabled(r, R.Create(k, signed, signedAt))
    ensures Linked(sent, refreshing, R.OnCreate(r, k, signed, signedAt), cookie, delivered)
  {
    var t := R.OnCreate(r, k, signed, signedAt);
    R.StepInv(r, R.Create(k, signed, signedAt));
    assert CallFits(r, cookie, delivered, k);
    forall c | c in t.calls
      ensures CallFits(t, cookie, delivered, c)
    {
      assert CallFits(r, cookie, delivered, c);
      forall d | d in t.calls
        ensures t.calls[d].token != signed
      {
        assert CallFits(r, cookie, delivered, d);
      }
    }
    if SomeOwed(r, delivered) { OwedKept(r, t, delivered); }
  }

  lemma OtherLinked(sent: nat, refreshing: bool, r: R.State, cookie: R.Token, delivered: set<R.CallId>, e: R.Event)
    requires Linked(sent, refreshing, r, cookie, delivered) && R.Enabled(r, e) && (e.Break? || e.Login?)
    ensures Linked(sent, refreshing, R.Effect(r, e), cookie, delivered)
  {
    var t := R.Effect(r, e);
    R.StepInv(r, e);
    forall c | c in t.calls
      ensures CallFits(t, cookie, delivered, c)
    {
      assert CallFits(r, cookie, delivered, c);
    }
    if SomeOwed(r, delivered) { OwedKept(r, t, delivered); }
  }

  lemma ServerLinked(sent: nat, refreshing: bool, r: R.State, cookie: R.Token, delivered: set<R.CallId>, e: R.Event)
    requires Linked(sent, refreshing, r, cookie, delivered) && InScope(r, e)
    ensures Linked(sent, refreshing, R.Step(r, e), cookie, delivered)
  {
    if R.Enabled(r, e) {
      match e
      case Find(k, now) => FindLinked(sent, refreshing, r, cookie, delivered, k, now);
      case Delete(k) => DeleteLinked(sent, refreshing, r, cookie, delivered, k);
      case Create(k, signed, signedAt) => CreateLinked(sent, refreshing, r, cookie, delivered, k, signed, signedAt);
      case Break(_) => OtherLinked(sent, refreshing, r, cookie, delivered, e);
      case Login(_, _, _) => OtherLinked(sent, refreshing, r, cookie, delivered, e);
      case _ =>
    }
  }

  lemma DeliverLinked(sent: nat, r: R.State, cookie: R.Token, delivered: set<R.CallId>)
    requires Linked(sent, true, r, cookie, delivered) && r.calls[sent - 1].pc.Done?
    ensures Linked(sent, false, r, r.calls[sent - 1].pc.signed, delivered + {sent - 1})
  {
    var k: R.CallId := sent - 1;
    var cookie2, delivered2 := r.calls[k].pc.signed, delivered + {k};
    assert CallFits(r, cookie, delivered, k);
    forall c | c in r.calls
      ensures CallFits(r, cookie2, delivered2, c)
    {
      assert CallFits(r, cookie, delivered, c) && R.CallOk(r, k);
      if c != k { assert R.Apart(r, c, k); }
    }
  }

  lemma ClientInv(s: State, f: C.Event)
    requires Inv(s) && !f.RefreshAnswered?
    ensures Inv(OnClient(s, f))
  {
    C.StepInv(s.client, f);
    if C.Step(s.client, f).refreshesSent > s.client.refreshesSent {
      BeginLinked(s.client.refreshesSent, s.server, s.cookie, s.delivered);
    }
  }

  lemma DeliverInv(s: State, leader: C.Id)
    requires Inv(s) && leader in s.client.refreshes
    ensures Inv(Step(s, Deliver(leader)))
  {
    C.EndsRefresh(s.client, leader, false);
    C.EndsRefresh(s.client, leader, true);
    if s.server.calls[Outstanding(s)].pc.Done? {
      DeliverLinked(s.client.refreshesSent, s.server, s.cookie, s.delivered);
    }
  }

  lemma StepInv(s: State, e: Event)
    requires Inv(s)
    ensures Inv(Step(s, e))
  {
    match e
    case Client(f) => if !f.RefreshAnswered? { ClientInv(s, f); }
    case Server(f) =>
      if InScope(s.server, f) {
        ServerLinked(s.client.refreshesSent, s.client.isRefreshing, s.server, s.cookie, s.delivered, f);
      }
    case Deliver(leader) => if leader in s.client.refreshes { DeliverInv(s, leader); }
    case Cut(leader) => if leader in s.client.refreshes { C.EndsRefresh(s.client, leader, false); }
  }

  lemma {:induction false} RunInv(s: State, es: seq<Event>)
    requires Inv(s)
    ensures Inv(Run(s, es))
    decreases es
  {
    if es != [] {
      StepInv(s, es[0]);
      RunInv(Step(s, es[0]), es[1..]);
    }
  }

  lemma StartInv(s: State)
    requires Start(s)
    ensures Inv(s)
  {
    C.InitInv();
  }

  // ---------------------------------------------------------------------------------------
  // Results
  // ---------------------------------------------------------------------------------------

  /**
   In every run, whenever no refresh is outstanding: the client's cookie is a live token exactly
   when no server call consumed a token without its answer having reached the client.
   */
  lemma CookieLiveIff(s: State, es: seq<Event>)
    requires Start(s)
    ensures var t := Run(s, es);
            !t.client.isRefreshing ==>
              (t.cookie in t.server.rows <==> !SomeOwed(t.server, t.delivered))
  {
    StartInv(s);
    RunInv(s, es);
    var t := Run(s, es);
    if SomeOwed(t.server, t.delivered) {
      var c :| Owed(t.server, t.delivered, c);
      assert CallFits(t.server, t.cookie, t.delivered, c) && R.CallOk(t.server, c);
    }
  }

  /** No connection is cut and no database error falls between a delete and its create. */
  predicate Smooth(es: seq<Event>) {
    forall e :: e in es ==> !e.Cut? && !(e.Server? && e.op.Break?)
  }

  /** Nothing is owed except by the outstanding call, and no call was ever refused. */
  ghost predicate AllWell(s: State) {
    && (forall c :: Owed(s.server, s.delivered, c) ==>
          s.client.isRefreshing && c == Outstanding(s) && !s.server.calls[c].pc.Broken?)
    && (forall c :: c in s.server.calls ==> !s.server.calls[c].pc.Refused? && !s.server.calls[c].pc.Broken?)
    && (forall c :: c in s.server.calls && c !in s.delivered ==> s.client.isRefreshing && c == Outstanding(s))
  }

  lemma ServerAllWell(s: State, f: R.Event)
    requires Inv(s) && AllWell(s) && InScope(s.server, f) && R.Enabled(s.server, f) && !f.Break?
    ensures AllWell(s.(server := R.Effect(s.server, f)))
  {
    var t := s.(server := R.Effect(s.server, f));
    if !f.Login? {
      // The call that moves is the outstanding one: all earlier ones were delivered, hence done.
      var k := f.c;
      assert CallFits(s.server, s.cookie, s.delivered, k);
      assert k !in s.delivered && k == Outstanding(s);
      if f.Find? || f.Delete? {
        assert !Owed(s.server, s.delivered, k);
        assert !SomeOwed(s.server, s.delivered);
        assert s.server.calls[k].token == s.cookie && s.cookie in s.server.rows;
      }
      forall c | Owed(t.server, t.delivered, c)
        ensures c == k
      {
        assert c == k || Owed(s.server, s.delivered, c);
      }
    } else {
      forall c | Owed(t.server, t.delivered, c)
        ensures Owed(s.server, s.delivered, c)
      {}
    }
  }

  lemma ClientAllWell(s: State, f: C.Event)
    requires Inv(s) && AllWell(s) && !f.RefreshAnswered?
    ensures AllWell(OnClient(s, f))
  {
    var t := OnClient(s, f);
    assert t.client.refreshesSent > s.client.refreshesSent ==>
        t.server.calls == s.server.calls[s.client.refreshesSent := R.Call(s.cookie, R.Finding)];
    forall c | Owed(t.server, t.delivered, c)
      ensures Owed(s.server, s.delivered, c)
    {}
  }

  lemma DeliverAllWell(s: State, leader: C.Id)
    requires Inv(s) && AllWell(s)
    ensures AllWell(Step(s, Deliver(leader)))
  {
    if leader in s.client.refreshes {
      C.EndsRefresh(s.client, leader, true);
      C.EndsRefresh(s.client, leader, false);
      var t := Step(s, Deliver(leader));
      forall c | Owed(t.server, t.delivered, c)
        ensures Owed(s.server, s.delivered, c)
      {}
    }
  }

  lemma StepAllWell(s: State, e: Event)
    requires Inv(s) && AllWell(s) && !e.Cut? && !(e.Server? && e.op.Break?)
    ensures AllWell(Step(s, e))
  {
    match e
    case Client(f) => if !f.RefreshAnswered? { ClientAllWell(s, f); }
    case Server(f) => if InScope(s.server, f) && R.Enabled(s.server, f) { ServerAllWell(s, f); }
    case Deliver(leader) => DeliverAllWell(s, leader);
    case Cut(_) =>
  }

  lemma {:induction false} RunAllWell(s: State, es: seq<Event>)
    requires Inv(s) && AllWell(s) && Smooth(es)
    ensures Inv(Run(s, es)) && AllWell(Run(s, es))
    decreases es
  {
    if es != [] {
      assert es[0] in es;
      StepInv(s, es[0]);
      StepAllWell(s, es[0]);
      RunAllWell(Step(s, es[0]), es[1..]);
    }
  }

  /**
   As long as connections hold, rotation works for any number of 401s: no refresh is ever refused
   because its token was already consumed, and between refreshes the cookie is live.
   */
  lemma NoRefreshIsRefused(s: State, es: seq<Event>)
    requires Start(s) && Smooth(es)
    ensures var t := Run(s, es);
            && (!t.client.isRefreshing ==> t.cookie in t.server.rows)
            && (forall c :: c in t.server.calls ==> !t.server.calls[c].pc.Refused?)
  {
    StartInv(s);
    RunAllWell(s, es);
    CookieLiveIff(s, es);
  }

  /**
   What the client hears: with the answer of a successful call it takes the new cookie and sends the leader and
   all waiters again; with a refusal, a server error or a broken connection they are all rejected.
   */
  lemma AnswerReachesAll(s: State, e: Event, id: C.Id)
    requires Inv(s) && (e.Deliver? || e.Cut?) && e.leader in s.client.refreshes && C.Waiting(s.client, id)
    requires e.Deliver? ==> Finished(s.server.calls[Outstanding(s)].pc)
    ensures var t := Step(s, e);
            var good := e.Deliver? && s.server.calls[Outstanding(s)].pc.Done?;
            && !t.client.isRefreshing && t.server == s.server
            && t.client.wire[id] == (if good then 1 else 0) && t.client.rejected[id] == (if good then 0 else 1)
            && t.cookie == if good then s.server.calls[Outstanding(s)].pc.signed else s.cookie
  {
    C.EndsRefresh(s.client, e.leader, false);
    C.EndsRefresh(s.client, e.leader, true);
    C.RefreshWakesAll(s.client, e.leader, true, id);
    C.RefreshWakesAll(s.client, e.leader, false, id);
  }

  /** The database calls that the outstanding server call still needs. */
  function CallsLeft(pc: R.Pc): nat {
    match pc
    case Finding => 3
    case Purging(_) => 2
    case Deleting(_) => 2
    case Creating(_) => 1
    case _ => 0
  }

  lemma {:induction false} SomethingNew(issued: set<nat>) returns (t: nat)
    ensures t !in issued && forall x :: x in issued ==> x < t
  {
    if issued == {} {
      t := 0;
    } else {
      var x :| x in issued;
      t := SomethingNew(issued - {x});
      if t <= x { t := x + 1; }
      forall y | y in issued ensures y < t {
        if y != x { assert y in issued - {x}; }
      }
    }
  }

  /** The server can always go on with the call. */
  lemma NextMove(s: State) returns (e: Event)
    requires Inv(s) && s.client.isRefreshing && CallsLeft(s.server.calls[Outstanding(s)].pc) > 0
    ensures e.Server? && !e.op.Break?
    ensures var t := Step(s, e);
            && t.client == s.client && t.cookie == s.cookie && t.delivered == s.delivered
            && Outstanding(s) in t.server.calls
            && CallsLeft(t.server.calls[Outstanding(s)].pc) < CallsLeft(s.server.calls[Outstanding(s)].pc)
  {
    var k: R.CallId, r := Outstanding(s), s.server;
    assert CallFits(r, s.cookie, s.delivered, k);
    if r.calls[k].pc.Finding? {
      e := Server(R.Find(k, if r.calls[k].token in r.rows then r.rows[r.calls[k].token].expiresAt else 0));
    } else if r.calls[k].pc.Deleting? {
      e := Server(R.Delete(k));
    } else {
      var signed := SomethingNew(r.issued);
      e := Server(R.Create(k, signed, 0));
    }
  }

  lemma DeliverEnds(s: State, leader: C.Id)
    requires Inv(s) && leader in s.client.refreshes && CallsLeft(s.server.calls[Outstanding(s)].pc) == 0
    ensures !Run(s, [Deliver(leader)]).client.isRefreshing
  {
    C.EndsRefresh(s.client, leader, true);
    C.EndsRefresh(s.client, leader, false);
    assert [Deliver(leader)][1..] == [];
  }

  /** No refresh gets stuck: without any failure the server can finish the outstanding call and answer it. */
  lemma {:induction false} RefreshCanEnd(s: State) returns (es: seq<Event>)
    requires Inv(s) && s.client.isRefreshing
    ensures Smooth(es) && !Run(s, es).client.isRefreshing
    decreases CallsLeft(s.server.calls[Outstanding(s)].pc)
  {
    if CallsLeft(s.server.calls[Outstanding(s)].pc) > 0 {
      var e := NextMove(s);
      StepInv(s, e);
      var rest := RefreshCanEnd(Step(s, e));
      es := [e] + rest;
      assert es[1..] == rest && es[0] == e;
    } else {
      assert |s.client.refreshes| == 1;
      var leader :| leader in s.client.refreshes;
      es := [Deliver(leader)];
      DeliverEnds(s, leader);
    }
  }

  /** A dead cookie never comes back: every later refresh is refused. `c` is the call whose answer was lost. */
  ghost predicate Lost(s: State, cookie: R.Token, c: R.CallId) {
    && s.cookie == cookie && cookie !in s.server.rows
    && Owed(s.server, s.delivered, c) && !(s.client.isRefreshing && c == Outstanding(s))
  }

  lemma ClientLost(s: State, f: C.Event, c: R.CallId)
    requires Inv(s) && Lost(s, s.cookie, c) && !f.RefreshAnswered?
    ensures Lost(OnClient(s, f), s.cookie, c)
  {
    assert R.CallOk(s.server, c);
  }

  lemma ServerLost(s: State, f: R.Event, c: R.CallId)
    requires Inv(s) && Lost(s, s.cookie, c) && InScope(s.server, f)
    ensures Lost(Step(s, Server(f)), s.cookie, c)
  {
    assert R.CallOk(s.server, c) && CallFits(s.server, s.cookie, s.delivered, c);
  }

  /** A later call presents the same dead cookie, so it is not done and brings no new one. */
  lemma DeliverLost(s: State, leader: C.Id, c: R.CallId)
    requires Inv(s) && Lost(s, s.cookie, c)
    ensures Lost(Step(s, Deliver(leader)), s.cookie, c)
  {
    if leader in s.client.refreshes {
      C.EndsRefresh(s.client, leader, true);
      C.EndsRefresh(s.client, leader, false);
      var k: R.CallId := Outstanding(s);
      assert CallFits(s.server, s.cookie, s.delivered, c) && R.Apart(s.server, c, k);
    }
  }

  lemma StepLost(s: State, e: Event, c: R.CallId)
    requires Inv(s) && Lost(s, s.cookie, c)
    ensures Lost(Step(s, e), s.cookie, c)
  {
    match e
    case Client(f) => if !f.RefreshAnswered? { ClientLost(s, f, c); }
    case Server(f) => if InScope(s.server, f) { ServerLost(s, f, c); }
    case Deliver(leader) => DeliverLost(s, leader, c);
    case Cut(leader) => if leader in s.client.refreshes { C.EndsRefresh(s.client, leader, false); }
  }

  lemma {:induction false} RunLost(s: State, es: seq<Event>, c: R.CallId)
    requires Inv(s) && Lost(s, s.cookie, c)
    ensures Lost(Run(s, es), s.cookie, c)
    decreases es
  {
    if es != [] {
      StepInv(s, es[0]);
      StepLost(s, es[0], c);
      RunLost(Step(s, es[0]), es[1..], c);
    }
  }

  /** Once the cookie is dead between refreshes it stays the cookie and stays dead, whatever happens. */
  lemma LostForGood(s: State, es: seq<Event>)
    requires Inv(s) && !s.client.isRefreshing && s.cookie !in s.server.rows
    ensures Run(s, es).cookie == s.cookie && s.cookie !in Run(s, es).server.rows
  {
    var c :| Owed(s.server, s.delivered, c);
    RunLost(s, es, c);
  }

  /** A connection cut after the server's delete step and before the answer arrives loses the session. */
  lemma CutAfterDelete(s: State, leader: C.Id, k: R.CallId)
    requires Inv(s) && leader in s.client.refreshes && k == Outstanding(s) && R.ConsumedBy(s.server, k)
    ensures var t := Step(s, Cut(leader)); !t.client.isRefreshing && t.cookie !in t.server.rows
  {
    C.EndsRefresh(s.client, leader, false);
    assert CallFits(s.server, s.cookie, s.delivered, k) && R.CallOk(s.server, k);
  }

  /** The first 401 of a client sends its cookie as call 0. */
  lemma FirstCall(s: State)
    requires Start(s)
    ensures var t := Step(Step(s, Client(C.Issue(0, ""))), Client(C.Answered(0, C.Unauthorized)));
            && t.server == R.Step(s.server, R.Begin(0, s.cookie)) && t.cookie == s.cookie
            && t.client.refreshesSent == 1 && t.client.isRefreshing && 0 in t.client.refreshes
  {
  }

  /** An unexpired token that is found is then deleted. */
  lemma FindThenDelete(r: R.State, token: R.Token)
    requires R.Inv(r) && r.calls == map[] && token in r.rows
    ensures var now := r.rows[token].expiresAt;
            var r1 := R.Step(r, R.Begin(0, token));
            var r2 := R.Step(r1, R.Find(0, now));
            InScope(r1, R.Find(0, now)) && R.ConsumedBy(R.Step(r2, R.Delete(0)), 0)
  {}

  /** That can happen to any signed-in client, with its very first 401. */
  lemma AnyClientCanLoseItsSession(s: State)
    requires Start(s)
    ensures exists es :: var t := Run(s, es); !t.client.isRefreshing && t.cookie !in t.server.rows
  {
    var now := s.server.rows[s.cookie].expiresAt;
    var es := [Client(C.Issue(0, "")), Client(C.Answered(0, C.Unauthorized)), Server(R.Find(0, now)),
        Server(R.Delete(0))];
    FirstCall(s);
    FindThenDelete(s.server, s.cookie);
    RunFour(s, es);
    StartInv(s);
    RunInv(s, es);
    CutAfterDelete(Run(s, es), 0, 0);
    RunSnoc(s, es, Cut(0));
  }

  lemma RunFour(s: State, es: seq<Event>)
    requires |es| == 4
    ensures Run(s, es) == Step(Step(Step(Step(s, es[0]), es[1]), es[2]), es[3])
  {
    RunSnoc(s, [], es[0]);
    RunSnoc(s, [es[0]], es[1]);
    RunSnoc(s, [es[0], es[1]], es[2]);
    RunSnoc(s, [es[0], es[1], es[2]], es[3]);
    assert [] + [es[0]] == [es[0]] && [es[0]] + [es[1]] == [es[0], es[1]];
    assert [es[0], es[1]] + [es[2]] == [es[0], es[1], es[2]] && [es[0], es[1], es[2]] + [es[3]] == es;
  }

  lemma {:induction false} RunSnoc(s: State, es: seq<Event>, e: Event)
    ensures Run(s, es + [e]) == Step(Run(s, es), e)
    decreases es
  {
    if es == [] {
      assert [] + [e] == [e] && [e][1..] == [];
    } else {
      assert (es + [e])[1..] == es[1..] + [e];
      RunSnoc(Step(s, es[0]), es[1..], e);
    }
  }
}
