/**
 threads-be/src/modules/follows/follows.service.ts: the follow graph and the two counters kept on
 every user. `toggleFollow` decides on a read made outside the transaction, so by the time it
 writes the decision may be stale; the unique key (followerId, followingId) and the rollback of
 the transaction are what keeps the counters right.
 */
module Follows {
  import opened Counting

  type UserId = nat
  type CallId = nat

  datatype Db = Db(
    users: set<UserId>,
    follows: set<(UserId, UserId)>,        // (follower, followed)
    followersCount: map<UserId, int>,
    followingCount: map<UserId, int>)

  /** The next database call of one `toggleFollow`. */
  datatype Pc =
    | ReadEdge
    | FindFollower
    | FindFollowed
    | ReadEdgeAgain
    | Insert
    | Notify                             // the follow is committed; `sendNotification` runs after it
    | Delete
    | Followed
    | Unfollowed
    | Failed
    | Unnotified                         // the notification throws, and so does the call

  datatype Call = Call(follower: UserId, followed: UserId, pc: Pc)

  datatype State = State(db: Db, calls: map<CallId, Call>)

  datatype Event =
    | Register(user: UserId)
    | Toggle(c: CallId, follower: UserId, followed: UserId)
    | Next(c: CallId, notified: bool)    // `notified`: sendNotification does not throw

  /** The transaction of `follow`: it commits or leaves the database as it was. */
  function InsertTx(db: Db, a: UserId, b: UserId): (r: (Db, bool)) {
    if (a, b) in db.follows || a !in db.users || b !in db.users
       || a !in db.followingCount || b !in db.followersCount then (db, false)
    else (db.(follows := db.follows + {(a, b)},
              followingCount := db.followingCount[a := db.followingCount[a] + 1],
              followersCount := db.followersCount[b := db.followersCount[b] + 1]), true)
  }

  /** The transaction of `unFollow`. */
  function DeleteTx(db: Db, a: UserId, b: UserId): (r: (Db, bool)) {
    if (a, b) !in db.follows || a !in db.followingCount || b !in db.followersCount then (db, false)
    else (db.(follows := db.follows - {(a, b)},
              followingCount := db.followingCount[a := db.followingCount[a] - 1],
              followersCount := db.followersCount[b := db.followersCount[b] - 1]), true)
  }

  function NextPc(db: Db, call: Call, notified: bool): Pc {
    match call.pc
    case ReadEdge => if (call.follower, call.followed) in db.follows then Delete else FindFollower
    case FindFollower => if call.follower in db.users then FindFollowed else Failed
    case FindFollowed => if call.followed in db.users then ReadEdgeAgain else Failed
    case ReadEdgeAgain => if (call.follower, call.followed) in db.follows then Failed else Insert
    case Insert => if InsertTx(db, call.follower, call.followed).1 then Notify else Failed
    case Notify => if notified then Followed else Unnotified
    case Delete => if DeleteTx(db, call.follower, call.followed).1 then Unfollowed else Failed
    case _ => call.pc
  }

  function NextDb(db: Db, call: Call): Db {
    match call.pc
    case Insert => InsertTx(db, call.follower, call.followed).0
    case Delete => DeleteTx(db, call.follower, call.followed).0
    case _ => db
  }

  function Step(s: State, e: Event): State {
    match e
    case Register(u) =>
      if u in s.db.users then s
      else s.(db := s.db.(users := s.db.users + {u},
                          followersCount := s.db.followersCount[u := 0],
                          followingCount := s.db.followingCount[u := 0]))
    case Toggle(c, a, b) =>
      if c in s.calls then s else s.(calls := s.calls[c := Call(a, b, if a == b then Failed else ReadEdge)])
    case Next(c, notified) =>
      if c !in s.calls then s
      else State(NextDb(s.db, s.calls[c]), s.calls[c := s.calls[c].(pc := NextPc(s.db, s.calls[c], notified))])
  }

  function Run(s: State, es: seq<Event>): State
    decreases es
  {
    if es == [] then s else Run(Step(s, es[0]), es[1..])
  }

  const INIT := State(Db({}, {}, map[], map[]), map[])

  // ---------------------------------------------------------------------------------------
  // Counters equal degrees
  // ---------------------------------------------------------------------------------------

  ghost predicate Consistent(db: Db) {
    && db.followersCount.Keys == db.users && db.followingCount.Keys == db.users
    && EdgesOk(db.follows, db.users)
    && (forall u :: u in db.users ==> DegreesOk(db, u))
    && SumsOk(db)
  }

  ghost predicate DegreesOk(db: Db, u: UserId) {
    && u in db.followingCount && db.followingCount[u] == |From(db.follows, u)|
    && u in db.followersCount && db.followersCount[u] == |To(db.follows, u)|
  }

  /** Both counter columns add up to the number of edges. */
  ghost predicate SumsOk(db: Db) {
    Sum(db.followersCount) == |db.follows| == Sum(db.followingCount)
  }

  /** Foreign keys, and no self-loop. */
  ghost predicate EdgesOk(follows: set<(UserId, UserId)>, users: set<UserId>) {
    forall e :: e in follows ==> e.0 in users && e.1 in users && e.0 != e.1
  }

  ghost predicate Inv(s: State) {
    && Consistent(s.db)
    && (forall c :: c in s.calls && s.calls[c].follower == s.calls[c].followed ==> s.calls[c].pc == Failed)
  }

  lemma RegisterConsistent(s: State, u: UserId)
    requires Consistent(s.db)
    ensures Consistent(Step(s, Register(u)).db)
  {
    if u !in s.db.users {
      SumNewKey(s.db.followersCount, u, 0);
      SumNewKey(s.db.followingCount, u, 0);
      var t := Step(s, Register(u)).db;
      assert From(s.db.follows, u) == {} && To(s.db.follows, u) == {};
      forall v | v in t.users
        ensures DegreesOk(t, v)
      {
        assert v != u ==> DegreesOk(s.db, v);
      }
    }
  }

  lemma InsertSums(db: Db, a: UserId, b: UserId)
    requires SumsOk(db)
    ensures SumsOk(InsertTx(db, a, b).0)
  {
    if InsertTx(db, a, b).1 {
      assert |db.follows + {(a, b)}| == |db.follows| + 1;
      SumUpdate(db.followersCount, b, db.followersCount[b] + 1);
      SumUpdate(db.followingCount, a, db.followingCount[a] + 1);
    }
  }

  lemma DeleteSums(db: Db, a: UserId, b: UserId)
    requires SumsOk(db)
    ensures SumsOk(DeleteTx(db, a, b).0)
  {
    if DeleteTx(db, a, b).1 {
      assert |db.follows - {(a, b)}| == |db.follows| - 1;
      SumUpdate(db.followersCount, b, db.followersCount[b] - 1);
      SumUpdate(db.followingCount, a, db.followingCount[a] - 1);
    }
  }

  lemma InsertConsistent(db: Db, a: UserId, b: UserId)
    requires Consistent(db) && a != b
    ensures Consistent(InsertTx(db, a, b).0)
    ensures InsertTx(db, a, b).1 <==> a in db.users && b in db.users && (a, b) !in db.follows
  {
    InsertSums(db, a, b);
    if InsertTx(db, a, b).1 {
      forall u | u in db.users
        ensures DegreesOk(InsertTx(db, a, b).0, u)
      {
        assert DegreesOk(db, u);
        AddRow(db.follows, a, b, u, u);
      }
    }
  }

  lemma DeleteConsistent(db: Db, a: UserId, b: UserId)
    requires Consistent(db)
    ensures Consistent(DeleteTx(db, a, b).0)
    ensures DeleteTx(db, a, b).1 <==> (a, b) in db.follows
  {
    DeleteSums(db, a, b);
    if DeleteTx(db, a, b).1 {
      forall u | u in db.users
        ensures DegreesOk(DeleteTx(db, a, b).0, u)
      {
        assert DegreesOk(db, u);
        RemoveRow(db.follows, a, b, u, u);
      }
    }
  }

  lemma StepInv(s: State, e: Event)
    requires Inv(s)
    ensures Inv(Step(s, e))
  {
    match e
    case Register(u) => RegisterConsistent(s, u);
    case Toggle(c, a, b) =>
    case Next(c, _) =>
      if c in s.calls {
        var Call(a, b, pc) := s.calls[c];
        if pc == Insert { InsertConsistent(s.db, a, b); }
        if pc == Delete { DeleteConsistent(s.db, a, b); }
      }
  }

  lemma {:induction false} RunInv(s: State, es: seq<Event>)
    requires Inv(s)
    ensures Inv(Run(s, es))
    decreases es
  {
    if es != [] {
      StepInv(s, es[0]);
      RunInv(Step(s, es[0]), es[1..]);
    }
  }

  /**
   For every interleaving of any number of `toggleFollow` calls: each counter is the degree in the
   follow graph, nobody follows himself, and both counter columns add up to the number of edges.
   */
  lemma CountersAreDegrees(es: seq<Event>)
    ensures var db := Run(INIT, es).db;
            && db.followersCount.Keys == db.users && db.followingCount.Keys == db.users
            && (forall u :: u in db.users ==> db.followersCount[u] == |To(db.follows, u)|)
            && (forall u :: u in db.users ==> db.followingCount[u] == |From(db.follows, u)|)
            && (forall u :: (u, u) !in db.follows)
            && Sum(db.followersCount) == |db.follows| == Sum(db.followingCount)
  {
    RunInv(INIT, es);
    var db := Run(INIT, es).db;
    forall u | u in db.users
      ensures db.followersCount[u] == |To(db.follows, u)| && db.followingCount[u] == |From(db.follows, u)|
    {
      assert DegreesOk(db, u);
    }
  }

  function CallsLeft(pc: Pc): nat {
    match pc
    case ReadEdge => 6
    case FindFollower => 5
    case FindFollowed => 4
    case ReadEdgeAgain => 3
    case Insert => 2
    case Notify => 1
    case Delete => 1
    case _ => 0
  }

  /** The rest of a call, from a state that nothing else touches: its `Next` steps in a row. */
  function Finish(db: Db, call: Call, notified: bool): (Db, Pc)
    decreases CallsLeft(call.pc)
  {
    if CallsLeft(call.pc) == 0 then (db, call.pc)
    else Finish(NextDb(db, call), call.(pc := NextPc(db, call, notified)), notified)
  }

  function ToggleAlone(db: Db, a: UserId, b: UserId, notified: bool): (Db, Pc) {
    Finish(db, Call(a, b, if a == b then Failed else ReadEdge), notified)
  }

  /** The edge was stored, whether or not the call then threw. */
  predicate Stored(pc: Pc) {
    pc == Followed || pc == Unnotified
  }

  /**
   `toggleFollow` flipped exactly the edge it names, for two distinct users, or refused and changed nothing;
   a follow that cannot be notified is stored and throws.
   */
  ghost predicate Flips(db: Db, t: Db, pc: Pc, a: UserId, b: UserId, notified: bool) {
    && t.users == db.users
    && (Stored(pc) <==> a != b && a in db.users && b in db.users && (a, b) !in db.follows)
    && (pc == Unfollowed <==> (a, b) in db.follows)
    && (pc == Followed ==> notified) && (pc == Unnotified ==> !notified)
    && (!Stored(pc) && pc != Unfollowed ==> pc == Failed && t == db)
    && t.follows == (if Stored(pc) then db.follows + {(a, b)}
                     else if pc == Unfollowed then db.follows - {(a, b)}
                     else db.follows)
  }

  lemma AloneFlips(db: Db, a: UserId, b: UserId, notified: bool)
    requires Consistent(db)
    ensures Consistent(ToggleAlone(db, a, b, notified).0)
    ensures Flips(db, ToggleAlone(db, a, b, notified).0, ToggleAlone(db, a, b, notified).1, a, b, notified)
  {
    AloneIs(db, a, b, notified);
    DeleteConsistent(db, a, b);
    if a != b { InsertConsistent(db, a, b); }
  }

  /** An undisturbed call, all its steps at once. */
  function Toggled(db: Db, a: UserId, b: UserId, notified: bool): (Db, Pc) {
    if a == b then (db, Failed)
    else if (a, b) in db.follows then
      var (t, ok) := DeleteTx(db, a, b);
      (t, if ok then Unfollowed else Failed)
    else
      var (t, ok) := InsertTx(db, a, b);
      (t, if !ok then Failed else if notified then Followed else Unnotified)
  }

  lemma AloneIs(db: Db, a: UserId, b: UserId, notified: bool)
    ensures ToggleAlone(db, a, b, notified) == Toggled(db, a, b, notified)
  {
    if a != b {
      Unfold(db, Call(a, b, ReadEdge), notified);
      if (a, b) in db.follows {
        Unfold(db, Call(a, b, Delete), notified);
      } else {
        Unfold(db, Call(a, b, FindFollower), notified);
        Unfold(db, Call(a, b, FindFollowed), notified);
        Unfold(db, Call(a, b, ReadEdgeAgain), notified);
        Unfold(db, Call(a, b, Insert), notified);
        Unfold(InsertTx(db, a, b).0, Call(a, b, Notify), notified);
      }
    }
  }

  /**
   A call that throws changed the database all the same, exactly if it was a follow of somebody else that was
   not there, both users exist, and the notification throws.
   */
  lemma RejectedChangedIff(db: Db, a: UserId, b: UserId, notified: bool)
    requires Consistent(db) && ToggleAlone(db, a, b, notified).1 !in {Followed, Unfollowed}
    ensures ToggleAlone(db, a, b, notified).0 != db
            <==> a != b && a in db.users && b in db.users && (a, b) !in db.follows && !notified
  {
    AloneFlips(db, a, b, notified);
    var (t, pc) := ToggleAlone(db, a, b, notified);
    assert pc == Unnotified ==> (a, b) in t.follows && (a, b) !in db.follows;
  }

  /** So a client that sees an error and tries again undoes the follow that it believes has failed. */
  lemma RetryUndoes(db: Db, a: UserId, b: UserId, again: bool)
    requires Consistent(db) && ToggleAlone(db, a, b, false).1 == Unnotified
    ensures ToggleAlone(ToggleAlone(db, a, b, false).0, a, b, again) == (db, Unfollowed)
  {
    var (once, pc1) := ToggleAlone(db, a, b, false);
    AloneFlips(db, a, b, false);
    AloneFlips(once, a, b, again);
    var (twice, pc2) := ToggleAlone(once, a, b, again);
    FlipsTwice(db, once, twice, pc1, pc2, a, b, false, again);
    SameEdgesSameDb(twice, db);
  }

  lemma Unfold(db: Db, call: Call, notified: bool)
    requires CallsLeft(call.pc) > 0
    ensures var pc := NextPc(db, call, notified);
            Finish(db, call, notified) ==
            if CallsLeft(pc) == 0 then (NextDb(db, call), pc) else Finish(NextDb(db, call), call.(pc := pc), notified)
  {}

  lemma FlipsTwice(db: Db, once: Db, twice: Db, pc1: Pc, pc2: Pc, a: UserId, b: UserId, n1: bool, n2: bool)
    requires EdgesOk(db.follows, db.users) && Flips(db, once, pc1, a, b, n1) && Flips(once, twice, pc2, a, b, n2)
    ensures twice.users == db.users && twice.follows == db.follows
  {
    if Stored(pc1) {
      assert pc2 == Unfollowed;
    } else if pc1 == Unfollowed {
      assert Stored(pc2);
    }
  }

  /** Toggling twice restores the edges and every counter, whatever becomes of the notifications. */
  lemma TwiceIsIdentity(db: Db, a: UserId, b: UserId, n1: bool, n2: bool)
    requires Consistent(db)
    ensures ToggleAlone(ToggleAlone(db, a, b, n1).0, a, b, n2).0 == db
  {
    AloneFlips(db, a, b, n1);
    var (once, pc1) := ToggleAlone(db, a, b, n1);
    AloneFlips(once, a, b, n2);
    var (twice, pc2) := ToggleAlone(once, a, b, n2);
    FlipsTwice(db, once, twice, pc1, pc2, a, b, n1, n2);
    SameEdgesSameDb(twice, db);
  }

  /** The counters carry no information of their own: they are determined by users and edges. */
  lemma SameEdgesSameDb(x: Db, y: Db)
    requires Consistent(x) && Consistent(y) && x.users == y.users && x.follows == y.follows
    ensures x == y
  {
    forall u | u in x.users
      ensures x.followersCount[u] == y.followersCount[u] && x.followingCount[u] == y.followingCount[u]
    {
      assert DegreesOk(x, u) && DegreesOk(y, u);
    }
  }

  /** The users are those who registered. */
  lemma {:induction false} UsersAreRegistered(s: State, es: seq<Event>, u: UserId)
    ensures u in Run(s, es).db.users <==> u in s.db.users || Register(u) in es
    decreases es
  {
    if es != [] {
      UsersAreRegistered(Step(s, es[0]), es[1..], u);
    }
  }

  /** Every toggle that was asked for under a new name is a call, on the pair it names. */
  lemma {:induction false} CallsAreMade(s: State, es: seq<Event>, c: CallId, a: UserId, b: UserId)
    requires c !in s.calls && es != [] && es[0] == Toggle(c, a, b)
    ensures var t := Run(s, es); c in t.calls && t.calls[c].follower == a && t.calls[c].followed == b
  {
    CallsStay(Step(s, es[0]), es[1..], c);
  }

  lemma {:induction false} CallsStay(s: State, es: seq<Event>, c: CallId)
    requires c in s.calls
    ensures var t := Run(s, es);
            c in t.calls && t.calls[c].follower == s.calls[c].follower && t.calls[c].followed == s.calls[c].followed
    decreases es
  {
    if es != [] { CallsStay(Step(s, es[0]), es[1..], c); }
  }

  // ---------------------------------------------------------------------------------------
  // What one call saw, in any interleaving
  // ---------------------------------------------------------------------------------------

  /** The database as a call meets it, if this event is one of its steps. */
  function Met(s: State, e: Event, c: CallId): seq<Db> {
    if e.Next? && e.c == c && c in s.calls && CallsLeft(s.calls[c].pc) > 0 then [s.db] else []
  }

  /** The database at each step of one call. */
  function Seen(es: seq<Event>, c: CallId): seq<Db> {
    if es == [] then []
    else
      var init := es[..|es| - 1];
      Seen(init, c) + Met(Run(INIT, init), es[|es| - 1], c)
  }

  /** The first look, both searches for the users, and the second look found nothing against the follow. */
  predicate Clear(v: seq<Db>, a: UserId, b: UserId, n: nat) {
    && |v| >= n
    && (n > 0 ==> (a, b) !in v[0].follows)
    && (n > 1 ==> a in v[1].users)
    && (n > 2 ==> b in v[2].users)
    && (n > 3 ==> (a, b) !in v[3].follows)
    && (n > 4 ==> (a, b) !in v[4].follows)
  }

  /** The step at which a call was turned away. */
  predicate TurnedAway(v: seq<Db>, a: UserId, b: UserId) {
    || (|v| == 2 && (a, b) in v[0].follows && (a, b) !in v[1].follows)      // unfollowed meanwhile
    || (|v| == 2 && Clear(v, a, b, 1) && a !in v[1].users)
    || (|v| == 3 && Clear(v, a, b, 2) && b !in v[2].users)
    || (|v| == 4 && Clear(v, a, b, 3) && (a, b) in v[3].follows)            // the second look
    || (|v| == 5 && Clear(v, a, b, 4) && (a, b) in v[4].follows)            // the unique key
  }

  ghost predicate Explained(call: Call, v: seq<Db>, users: set<UserId>) {
    var Call(a, b, pc) := call;
    if a == b then pc == Failed && v == []
    else
      match pc
      case ReadEdge => v == []
      case FindFollower => |v| == 1 && Clear(v, a, b, 1)
      case FindFollowed => |v| == 2 && Clear(v, a, b, 2) && a in users
      case ReadEdgeAgain => |v| == 3 && Clear(v, a, b, 3) && a in users && b in users
      case Insert => |v| == 4 && Clear(v, a, b, 4) && a in users && b in users
      case Notify => |v| == 5 && Clear(v, a, b, 5)
      case Delete => |v| == 1 && (a, b) in v[0].follows
      case Unfollowed => |v| == 2 && (a, b) in v[0].follows && (a, b) in v[1].follows
      case Failed => TurnedAway(v, a, b)
      case _ => |v| == 6 && Clear(v, a, b, 5)
  }

  ghost predicate AsSeen(s: State, c: CallId, v: seq<Db>) {
    if c in s.calls then Explained(s.calls[c], v, s.db.users) else v == []
  }

  lemma NextExplained(s: State, c: CallId, notified: bool, v: seq<Db>)
    requires Inv(s) && c in s.calls && Explained(s.calls[c], v, s.db.users)
    ensures var t := Step(s, Next(c, notified));
            Explained(t.calls[c], v + Met(s, Next(c, notified), c), t.db.users)
  {
    var Call(a, b, pc) := s.calls[c];
    if CallsLeft(pc) > 0 {
      var v1 := v + [s.db];
      assert forall i :: 0 <= i < |v| ==> v1[i] == v[i];
      assert v1[|v|] == s.db;
      if pc == Insert { InsertConsistent(s.db, a, b); }
      if pc == Delete { DeleteConsistent(s.db, a, b); }
    } else {
      assert v + [] == v;
    }
  }

  lemma StepExplained(s: State, e: Event, c: CallId, v: seq<Db>)
    requires Inv(s) && AsSeen(s, c, v)
    ensures AsSeen(Step(s, e), c, v + Met(s, e, c))
  {
    assert v + [] == v;
    if e.Next? && e.c == c && c in s.calls { NextExplained(s, c, e.notified, v); }
  }

  lemma {:induction false} RunSnoc(s: State, es: seq<Event>, e: Event)
    ensures Run(s, es + [e]) == Step(Run(s, es), e)
    decreases es
  {
    if es == [] {
      assert [e][1..] == [];
    } else {
      assert (es + [e])[1..] == es[1..] + [e];
      RunSnoc(Step(s, es[0]), es[1..], e);
    }
  }

  lemma {:induction false} RunExplained(es: seq<Event>, c: CallId)
    ensures AsSeen(Run(INIT, es), c, Seen(es, c))
  {
    if es != [] {
      var init, e := es[..|es| - 1], es[|es| - 1];
      assert es == init + [e];
      RunSnoc(INIT, init, e);
      RunInv(INIT, init);
      RunExplained(init, c);
      StepExplained(Run(INIT, init), e, c, Seen(init, c));
    }
  }

  /** The follow was written: the call still has to notify, or is done. */
  predicate Committed(pc: Pc) {
    pc == Notify || Stored(pc)
  }

  /**
   In every interleaving, what a call did is decided by what it saw: it unfollowed exactly if its first look
   found the edge and the edge was still there at its transaction; it followed exactly if neither look nor the
   transaction found the edge; otherwise, once it has ended, it was turned away.
   */
  lemma CallsDoAsTheySaw(es: seq<Event>, c: CallId)
    ensures var s, v := Run(INIT, es), Seen(es, c);
            c in s.calls ==>
              var Call(a, b, pc) := s.calls[c];
              && (pc == Unfollowed <==> |v| == 2 && (a, b) in v[0].follows && (a, b) in v[1].follows)
              && (Committed(pc) <==> Clear(v, a, b, 5))
              && (pc == Failed <==> a == b || TurnedAway(v, a, b))
  {
    RunExplained(es, c);
  }

  /** The one step of a call that adds its edge, the one that removes it; every other step leaves the tables. */
  lemma StepWrites(s: State, e: Event)
    ensures var t := Step(s, e);
            if e.Next? && e.c in s.calls then
              var Call(a, b, pc) := s.calls[e.c];
              if pc == Insert && t.calls[e.c].pc == Notify then
                (a, b) !in s.db.follows && t.db.follows == s.db.follows + {(a, b)}
              else if pc == Delete && t.calls[e.c].pc == Unfollowed then
                (a, b) in s.db.follows && t.db.follows == s.db.follows - {(a, b)}
              else t.db == s.db
            else t.db.follows == s.db.follows
  {}

  function HasFollowed(a: UserId, b: UserId): Call -> bool {
    (call: Call) => call.follower == a && call.followed == b && Committed(call.pc)
  }

  function HasUnfollowed(a: UserId, b: UserId): Call -> bool {
    (call: Call) => call.follower == a && call.followed == b && call.pc == Unfollowed
  }

  /** The calls that have followed, and those that have unfollowed. */
  function Followers(calls: map<CallId, Call>, a: UserId, b: UserId): set<CallId> {
    Having(calls, HasFollowed(a, b))
  }

  function Unfollowers(calls: map<CallId, Call>, a: UserId, b: UserId): set<CallId> {
    Having(calls, HasUnfollowed(a, b))
  }

  /** Of the calls on one pair, one more has followed than unfollowed if the edge is there, and as many if not. */
  ghost predicate Balanced(s: State, a: UserId, b: UserId) {
    |Followers(s.calls, a, b)| == |Unfollowers(s.calls, a, b)| + (if (a, b) in s.db.follows then 1 else 0)
  }

  lemma NextBalanced(s: State, c: CallId, notified: bool, a: UserId, b: UserId)
    requires Balanced(s, a, b) && c in s.calls
    ensures Balanced(Step(s, Next(c, notified)), a, b)
  {
    var t := Step(s, Next(c, notified));
    var before, after := s.calls[c], t.calls[c];
    StepWrites(s, Next(c, notified));
    assert t.calls == s.calls[c := after];
    HavingUpdate(s.calls, c, after, HasFollowed(a, b));
    HavingUpdate(s.calls, c, after, HasUnfollowed(a, b));
  }

  lemma ToggleBalanced(s: State, c: CallId, x: UserId, y: UserId, a: UserId, b: UserId)
    requires Balanced(s, a, b) && c !in s.calls
    ensures Balanced(Step(s, Toggle(c, x, y)), a, b)
  {
    var call := Call(x, y, if x == y then Failed else ReadEdge);
    HavingUpdate(s.calls, c, call, HasFollowed(a, b));
    HavingUpdate(s.calls, c, call, HasUnfollowed(a, b));
  }

  lemma {:induction false} RunBalanced(s: State, es: seq<Event>, a: UserId, b: UserId)
    requires Balanced(s, a, b)
    ensures Balanced(Run(s, es), a, b)
    decreases es
  {
    if es != [] {
      match es[0] {
        case Register(_) =>
        case Toggle(c, x, y) => if c !in s.calls { ToggleBalanced(s, c, x, y, a, b); }
        case Next(c, notified) => if c in s.calls { NextBalanced(s, c, notified, a, b); }
      }
      RunBalanced(Step(s, es[0]), es[1..], a, b);
    }
  }

  /**
   Many clicks at once make one follow: if no call on the pair found the edge at its first look, then at most
   one of them has followed, and the edge is there exactly if one has.
   */
  lemma ManyClicksOneFollow(es: seq<Event>, a: UserId, b: UserId)
    requires forall c :: Seen(es, c) != [] && c in Run(INIT, es).calls
               && Run(INIT, es).calls[c].follower == a && Run(INIT, es).calls[c].followed == b
               ==> (a, b) !in Seen(es, c)[0].follows
    ensures var s := Run(INIT, es); |Followers(s.calls, a, b)| == if (a, b) in s.db.follows then 1 else 0
  {
    var s := Run(INIT, es);
    RunBalanced(INIT, es, a, b);
    forall c | c in s.calls
      ensures c !in Unfollowers(s.calls, a, b)
    {
      CallsDoAsTheySaw(es, c);
    }
    assert Unfollowers(s.calls, a, b) == {};
  }

  // ---------------------------------------------------------------------------------------
  // The tables and their transactions
  // ---------------------------------------------------------------------------------------

  class FollowStore {
    var users: set<UserId>
    var follows: set<(UserId, UserId)>
    var followersCount: map<UserId, int>
    var followingCount: map<UserId, int>

    ghost function View(): Db
      reads this
    {
      Db(users, follows, followersCount, followingCount)
    }

    constructor ()
      ensures View() == INIT.db
    {
      users, follows, followersCount, followingCount := {}, {}, map[], map[];
    }

    /** One `follow.create` and two `user.update`s; an error in any of them rolls all back. */
    method Follow(a: UserId, b: UserId) returns (ok: bool)
      modifies this
      ensures (View(), ok) == InsertTx(old(View()), a, b)
    {
      if (a, b) in follows || a !in users || b !in users {
        return false;                              // unique key or foreign key violation
      }
      var follows0, following0 := follows, followingCount;
      follows := follows + {(a, b)};
      if a !in followingCount {
        follows := follows0;
        return false;
      }
      followingCount := followingCount[a := followingCount[a] + 1];
      if b !in followersCount {
        follows, followingCount := follows0, following0;
        return false;
      }
      followersCount := followersCount[b := followersCount[b] + 1];
      ok := true;
    }

    /** One `follow.delete` and two `user.update`s. */
    method UnFollow(a: UserId, b: UserId) returns (ok: bool)
      modifies this
      ensures (View(), ok) == DeleteTx(old(View()), a, b)
    {
      if (a, b) !in follows {
        return false;                              // P2025: the row does not exist
      }
      var follows0, following0 := follows, followingCount;
      follows := follows - {(a, b)};
      if a !in followingCount {
        follows := follows0;
        return false;
      }
      followingCount := followingCount[a := followingCount[a] - 1];
      if b !in followersCount {
        follows, followingCount := follows0, following0;
        return false;
      }
      followersCount := followersCount[b := followersCount[b] - 1];
      ok := true;
    }

    /** `toggleFollow` when nothing else runs meanwhile; the counters stay the degrees. */
    method ToggleFollow(a: UserId, b: UserId, notified: bool) returns (pc: Pc)
      modifies this
      ensures (View(), pc) == ToggleAlone(old(View()), a, b, notified)
      ensures old(Consistent(View())) ==> Consistent(View())
    {
      AloneIs(View(), a, b, notified);
      if Consistent(View()) { AloneFlips(View(), a, b, notified); }
      if a == b {
        return Failed;
      }
      if (a, b) in follows {
        var ok := UnFollow(a, b);
        return if ok then Unfollowed else Failed;
      }
      if a !in users || b !in users {
        return Failed;
      }
      var ok := Follow(a, b);
      if !ok {
        return Failed;
      }
      return if notified then Followed else Unnotified;
    }
  }
}
