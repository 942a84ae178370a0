/**
 threads-be/src/modules/likes/likes.service.ts and reposts/reposts.service.ts: two relations between
 users and posts, each with a counter on the post. As with follows, the toggle decides on reads made
 outside its transaction. Posts may be removed meanwhile, which cascades to both relations.
 */
module Reactions {
  import opened Counting

  type UserId = nat
  type PostId = nat
  type CallId = nat

  datatype Kind = Like | Repost

  datatype Post = Post(owner: UserId, isDeleted: bool, likeCount: int, repostCount: int)

  datatype Db = Db(posts: map<PostId, Post>, likes: set<(UserId, PostId)>, reposts: set<(UserId, PostId)>)

  datatype Pc = FindPost | FindRow(owner: UserId) | Insert(owner: UserId) | Delete(owner: UserId) | On | Off | Failed

  datatype Call = Call(kind: Kind, user: UserId, post: PostId, pc: Pc)

  datatype State = State(db: Db, calls: map<CallId, Call>)

  datatype Event =
    | Publish(post: PostId, owner: UserId)
    | SoftDelete(post: PostId)
    | Remove(gone: set<PostId>)                  // a hard delete and everything it cascades to
    | Toggle(c: CallId, kind: Kind, user: UserId, post: PostId)
    | Next(c: CallId, notified: bool)            // `notified`: sendNotification does not throw

  function Rows(db: Db, kind: Kind): set<(UserId, PostId)> {
    if kind == Like then db.likes else db.reposts
  }

  function Count(post: Post, kind: Kind): int {
    if kind == Like then post.likeCount else post.repostCount
  }

  function Updated(db: Db, kind: Kind, rows: set<(UserId, PostId)>, p: PostId, delta: int): Db
    requires p in db.posts
  {
    var post := db.posts[p];
    if kind == Like then db.(likes := rows, posts := db.posts[p := post.(likeCount := post.likeCount + delta)])
    else db.(reposts := rows, posts := db.posts[p := post.(repostCount := post.repostCount + delta)])
  }

  /** A throwing notification aborts the transaction of a like; that of a repost swallows it. */
  predicate NotificationAborts(kind: Kind, user: UserId, owner: UserId, notified: bool) {
    kind == Like && user != owner && !notified
  }

  function InsertTx(db: Db, kind: Kind, u: UserId, p: PostId, owner: UserId, notified: bool): (Db, bool) {
    if p !in db.posts || (u, p) in Rows(db, kind) || NotificationAborts(kind, u, owner, notified) then (db, false)
    else (Updated(db, kind, Rows(db, kind) + {(u, p)}, p, 1), true)
  }

  function DeleteTx(db: Db, kind: Kind, u: UserId, p: PostId): (Db, bool) {
    if p !in db.posts || (u, p) !in Rows(db, kind) then (db, false)
    else (Updated(db, kind, Rows(db, kind) - {(u, p)}, p, -1), true)
  }

  function NextPc(db: Db, call: Call, notified: bool): Pc {
    match call.pc
    case FindPost =>
      if call.post !in db.posts || (call.kind == Like && db.posts[call.post].isDeleted) then Failed
      else FindRow(db.posts[call.post].owner)
    case FindRow(owner) => if (call.user, call.post) in Rows(db, call.kind) then Delete(owner) else Insert(owner)
    case Insert(owner) => if InsertTx(db, call.kind, call.user, call.post, owner, notified).1 then On else Failed
    case Delete(_) => if DeleteTx(db, call.kind, call.user, call.post).1 then Off else Failed
    case _ => call.pc
  }

  function NextDb(db: Db, call: Call, notified: bool): Db {
    match call.pc
    case Insert(owner) => InsertTx(db, call.kind, call.user, call.post, owner, notified).0
    case Delete(_) => DeleteTx(db, call.kind, call.user, call.post).0
    case _ => db
  }

  function Surviving(rows: set<(UserId, PostId)>, gone: set<PostId>): set<(UserId, PostId)> {
    set r | r in rows && r.1 !in gone
  }

  function Step(s: State, e: Event): State {
    match e
    case Publish(p, owner) =>
      if p in s.db.posts then s else s.(db := s.db.(posts := s.db.posts[p := Post(owner, false, 0, 0)]))
    case SoftDelete(p) =>
      if p !in s.db.posts then s
      else s.(db := s.db.(posts := s.db.posts[p := s.db.posts[p].(isDeleted := true)]))
    case Remove(gone) =>
      s.(db := Db(s.db.posts - gone, Surviving(s.db.likes, gone), Surviving(s.db.reposts, gone)))
    case Toggle(c, kind, user, post) =>
      if c in s.calls then s else s.(calls := s.calls[c := Call(kind, user, post, FindPost)])
    case Next(c, notified) =>
      if c !in s.calls then s
      else State(NextDb(s.db, s.calls[c], notified),
                 s.calls[c := s.calls[c].(pc := NextPc(s.db, s.calls[c], notified))])
  }

  function Run(s: State, es: seq<Event>): State
    decreases es
  {
    if es == [] then s else Run(Step(s, es[0]), es[1..])
  }

  const INIT := State(Db(map[], {}, {}), map[])

  // ---------------------------------------------------------------------------------------
  // Counters equal rows
  // ---------------------------------------------------------------------------------------

  ghost predicate Counted(posts: map<PostId, Post>, rows: set<(UserId, PostId)>, kind: Kind) {
    && (forall r :: r in rows ==> r.1 in posts)
    && (forall p :: p in posts ==> Count(posts[p], kind) == |To(rows, p)|)
  }

  ghost predicate Consistent(db: Db) {
    Counted(db.posts, db.likes, Like) && Counted(db.posts, db.reposts, Repost)
  }

  /** One more row for a post and one more on its counter. */
  lemma AddCounted(posts: map<PostId, Post>, rows: set<(UserId, PostId)>, kind: Kind, u: UserId, p: PostId, post: Post)
    requires Counted(posts, rows, kind) && p in posts && (u, p) !in rows
    requires Count(post, kind) == Count(posts[p], kind) + 1
    ensures Counted(posts[p := post], rows + {(u, p)}, kind)
  {
    forall q | q in posts
      ensures Count(posts[p := post][q], kind) == |To(rows + {(u, p)}, q)|
    {
      AddRow(rows, u, p, u, q);
    }
  }

  lemma DropCounted(posts: map<PostId, Post>, rows: set<(UserId, PostId)>, kind: Kind, u: UserId, p: PostId, post: Post)
    requires Counted(posts, rows, kind) && (u, p) in rows
    requires p in posts && Count(post, kind) == Count(posts[p], kind) - 1
    ensures Counted(posts[p := post], rows - {(u, p)}, kind)
  {
    forall q | q in posts
      ensures Count(posts[p := post][q], kind) == |To(rows - {(u, p)}, q)|
    {
      RemoveRow(rows, u, p, u, q);
    }
  }

  function Other(kind: Kind): Kind {
    if kind == Like then Repost else Like
  }

  lemma InsertConsistent(db: Db, kind: Kind, u: UserId, p: PostId, owner: UserId, notified: bool)
    requires Consistent(db)
    ensures Consistent(InsertTx(db, kind, u, p, owner, notified).0)
  {
    var (db1, ok) := InsertTx(db, kind, u, p, owner, notified);
    if ok {
      AddCounted(db.posts, Rows(db, kind), kind, u, p, db1.posts[p]);
      assert Counted(db1.posts, Rows(db, Other(kind)), Other(kind));
    }
  }

  lemma DeleteConsistent(db: Db, kind: Kind, u: UserId, p: PostId)
    requires Consistent(db)
    ensures Consistent(DeleteTx(db, kind, u, p).0)
  {
    var (db1, ok) := DeleteTx(db, kind, u, p);
    if ok {
      DropCounted(db.posts, Rows(db, kind), kind, u, p, db1.posts[p]);
      assert Counted(db1.posts, Rows(db, Other(kind)), Other(kind));
    }
  }

  lemma RemoveCounted(posts: map<PostId, Post>, rows: set<(UserId, PostId)>, kind: Kind, gone: set<PostId>)
    requires Counted(posts, rows, kind)
    ensures Counted(posts - gone, Surviving(rows, gone), kind)
  {
    forall p | p in posts - gone
      ensures To(Surviving(rows, gone), p) == To(rows, p)
    {}
  }

  lemma StepConsistent(s: State, e: Event)
    requires Consistent(s.db)
    ensures Consistent(Step(s, e).db)
  {
    match e
    case Publish(p, owner) =>
      if p !in s.db.posts {
        assert To(s.db.likes, p) == {} && To(s.db.reposts, p) == {};
      }
    case SoftDelete(p) =>
    case Remove(gone) =>
      RemoveCounted(s.db.posts, s.db.likes, Like, gone);
      RemoveCounted(s.db.posts, s.db.reposts, Repost, gone);
    case Toggle(c, kind, user, post) =>
    case Next(c, notified) =>
      if c in s.calls {
        var Call(kind, u, p, pc) := s.calls[c];
        if pc.Insert? { InsertConsistent(s.db, kind, u, p, pc.owner, notified); }
        if pc.Delete? { DeleteConsistent(s.db, kind, u, p); }
      }
  }

  lemma {:induction false} RunConsistent(s: State, es: seq<Event>)
    requires Consistent(s.db)
    ensures Consistent(Run(s, es).db)
    decreases es
  {
    if es != [] {
      StepConsistent(s, es[0]);
      RunConsistent(Step(s, es[0]), es[1..]);
    }
  }

  /**
   For every interleaving of toggles, publications and removals, on every post both counters equal
   the number of rows, so they are never negative.
   */
  lemma CountersAreRows(es: seq<Event>, p: PostId)
    ensures var db := Run(INIT, es).db;
            p in db.posts ==>
              && db.posts[p].likeCount == |To(db.likes, p)| >= 0
              && db.posts[p].repostCount == |To(db.reposts, p)| >= 0
  {
    RunConsistent(INIT, es);
  }

  function CallsLeft(pc: Pc): nat {
    match pc
    case FindPost => 3
    case FindRow(_) => 2
    case Insert(_) => 1
    case Delete(_) => 1
    case _ => 0
  }

  /** The rest of a call, from a state that nothing else touches: its `Next` steps in a row. */
  function Finish(db: Db, call: Call, notified: bool): (Db, Pc)
    decreases CallsLeft(call.pc)
  {
    if CallsLeft(call.pc) == 0 then (db, call.pc)
    else Finish(NextDb(db, call, notified), call.(pc := NextPc(db, call, notified)), notified)
  }

  function ToggleAlone(db: Db, kind: Kind, u: UserId, p: PostId, notified: bool): (Db, Pc) {
    Finish(db, Call(kind, u, p, FindPost), notified)
  }

  /** The post that a toggle acts on; a like looks for posts that are not deleted. */
  predicate Found(db: Db, kind: Kind, p: PostId) {
    p in db.posts && !(kind == Like && db.posts[p].isDeleted)
  }

  /** The toggle flipped exactly the row it names, or it failed and changed nothing. */
  ghost predicate Flips(db: Db, t: Db, pc: Pc, kind: Kind, u: UserId, p: PostId, notified: bool) {
    && (pc == Off <==> Found(db, kind, p) && (u, p) in Rows(db, kind))
    && (pc == On <==> (Found(db, kind, p) && (u, p) !in Rows(db, kind)
                       && !NotificationAborts(kind, u, db.posts[p].owner, notified)))
    && (pc !in {On, Off} ==> pc == Failed && t == db)
    && (pc == On ==> t == Updated(db, kind, Rows(db, kind) + {(u, p)}, p, 1))
    && (pc == Off ==> t == Updated(db, kind, Rows(db, kind) - {(u, p)}, p, -1))
  }

  lemma AloneFlips(db: Db, kind: Kind, u: UserId, p: PostId, notified: bool)
    ensures Flips(db, ToggleAlone(db, kind, u, p, notified).0, ToggleAlone(db, kind, u, p, notified).1, kind, u, p,
        notified)
    ensures Consistent(db) ==> Consistent(ToggleAlone(db, kind, u, p, notified).0)
  {
    Unfold(db, Call(kind, u, p, FindPost), notified);
    if Found(db, kind, p) {
      var owner := db.posts[p].owner;
      Unfold(db, Call(kind, u, p, FindRow(owner)), notified);
      if (u, p) in Rows(db, kind) {
        Unfold(db, Call(kind, u, p, Delete(owner)), notified);
        if Consistent(db) { DeleteConsistent(db, kind, u, p); }
      } else {
        Unfold(db, Call(kind, u, p, Insert(owner)), notified);
        if Consistent(db) { InsertConsistent(db, kind, u, p, owner, notified); }
      }
    }
  }

  lemma Unfold(db: Db, call: Call, notified: bool)
    requires CallsLeft(call.pc) > 0
    ensures var pc := NextPc(db, call, notified);
            Finish(db, call, notified)
            == if CallsLeft(pc) == 0 then (NextDb(db, call, notified), pc)
               else Finish(NextDb(db, call, notified), call.(pc := pc), notified)
  {}

  /** Toggling twice restores both relations and every counter, when the first call does not abort. */
  lemma TwiceIsIdentity(db: Db, kind: Kind, u: UserId, p: PostId, notified: bool)
    requires p in db.posts ==> !NotificationAborts(kind, u, db.posts[p].owner, notified)
    ensures ToggleAlone(ToggleAlone(db, kind, u, p, notified).0, kind, u, p, notified).0 == db
  {
    AloneFlips(db, kind, u, p, notified);
    var (once, pc) := ToggleAlone(db, kind, u, p, notified);
    AloneFlips(once, kind, u, p, notified);
    var rows := Rows(db, kind);
    if pc == On {
      assert rows + {(u, p)} - {(u, p)} == rows;
    } else if pc == Off {
      assert rows - {(u, p)} + {(u, p)} == rows;
    }
  }

  /** The post was there and is not removed, or it is published. */
  predicate IsThere(posts: map<PostId, Post>, e: Event, p: PostId) {
    (p in posts && !(e.Remove? && p in e.gone)) || (e.Publish? && p == e.post)
  }

  /**
   What the events outside the toggles do: a post is published once, without any reaction; it goes when it is
   removed, and all reactions to it with it; and a deletion that keeps the row only marks it.
   */
  lemma OthersDo(s: State, e: Event)
    requires !e.Next? && !e.Toggle?
    ensures var t := Step(s, e);
            && t.calls == s.calls
            && (forall p :: p in t.db.posts <==> IsThere(s.db.posts, e, p))
            && (forall p :: p in t.db.posts && p !in s.db.posts ==>
                  e.Publish? && t.db.posts[p] == Post(e.owner, false, 0, 0))
            && (forall p :: p in t.db.posts && p in s.db.posts ==>
                  t.db.posts[p] == s.db.posts[p].(isDeleted := s.db.posts[p].isDeleted || e == SoftDelete(p)))
            && (forall r :: r in t.db.likes <==> r in s.db.likes && !(e.Remove? && r.1 in e.gone))
            && (forall r :: r in t.db.reposts <==> r in s.db.reposts && !(e.Remove? && r.1 in e.gone))
  {}

  lemma {:induction false} CallsStay(s: State, es: seq<Event>, c: CallId)
    requires c in s.calls
    ensures var t := Run(s, es);
            && c in t.calls && t.calls[c].kind == s.calls[c].kind
            && t.calls[c].user == s.calls[c].user && t.calls[c].post == s.calls[c].post
    decreases es
  {
    if es != [] { CallsStay(Step(s, es[0]), es[1..], c); }
  }

  /** Every toggle that was asked for under a new name is a call, on the user and post it names. */
  lemma CallsAreMade(s: State, es: seq<Event>, c: CallId, kind: Kind, u: UserId, p: PostId)
    requires c !in s.calls && es != [] && es[0] == Toggle(c, kind, u, p)
    ensures var t := Run(s, es);
            c in t.calls && t.calls[c].kind == kind && t.calls[c].user == u && t.calls[c].post == p
  {
    CallsStay(Step(s, es[0]), es[1..], c);
  }

  // ---------------------------------------------------------------------------------------
  // What one call saw, in any interleaving
  // ---------------------------------------------------------------------------------------

  /** The database as a call meets it at one of its steps, and whether a notification would get through. */
  datatype Sight = Sight(db: Db, notified: bool)

  function Met(s: State, e: Event, c: CallId): seq<Sight> {
    if e.Next? && e.c == c && c in s.calls && CallsLeft(s.calls[c].pc) > 0 then [Sight(s.db, e.notified)] else []
  }

  function Seen(es: seq<Event>, c: CallId): seq<Sight> {
    if es == [] then []
    else
      var init := es[..|es| - 1];
      Seen(init, c) + Met(Run(INIT, init), es[|es| - 1], c)
  }

  /** The call found the post, then looked for the row. */
  predicate LookedUp(v: seq<Sight>, call: Call, present: bool) {
    |v| >= 2 && Found(v[0].db, call.kind, call.post) && ((call.user, call.post) in Rows(v[1].db, call.kind)) == present
  }

  /** The transaction can write: the post is there, the row is as it was, and the notification does not abort. */
  predicate Writes(v: seq<Sight>, call: Call, present: bool) {
    && LookedUp(v, call, present) && |v| == 3
    && call.post in v[2].db.posts
    && ((call.user, call.post) in Rows(v[2].db, call.kind)) == present
    && (present || !(call.kind == Like && call.user != v[0].db.posts[call.post].owner && !v[2].notified))
  }

  ghost predicate Explained(call: Call, v: seq<Sight>) {
    match call.pc
    case FindPost => v == []
    case FindRow(owner) => |v| == 1 && Found(v[0].db, call.kind, call.post) && v[0].db.posts[call.post].owner == owner
    case Insert(owner) => |v| == 2 && LookedUp(v, call, false) && v[0].db.posts[call.post].owner == owner
    case Delete(owner) => |v| == 2 && LookedUp(v, call, true)
    case On => Writes(v, call, false)
    case Off => Writes(v, call, true)
    case Failed => TurnedAway(v, call)
  }

  /** The post was not found, or the transaction could not write. */
  ghost predicate TurnedAway(v: seq<Sight>, call: Call) {
    || (|v| == 1 && !Found(v[0].db, call.kind, call.post))
    || (|v| == 3 && LookedUp(v, call, false) && !Writes(v, call, false))
    || (|v| == 3 && LookedUp(v, call, true) && !Writes(v, call, true))
  }

  ghost predicate AsSeen(s: State, c: CallId, v: seq<Sight>) {
    if c in s.calls then Explained(s.calls[c], v) else v == []
  }

  lemma NextExplained(s: State, c: CallId, notified: bool, v: seq<Sight>)
    requires c in s.calls && Explained(s.calls[c], v)
    ensures Explained(Step(s, Next(c, notified)).calls[c], v + Met(s, Next(c, notified), c))
  {
    var call := s.calls[c];
    if CallsLeft(call.pc) > 0 {
      var v1 := v + [Sight(s.db, notified)];
      assert forall i :: 0 <= i < |v| ==> v1[i] == v[i];
      assert v1[|v|] == Sight(s.db, notified);
      assert call.pc.Insert? || call.pc.Delete? ==> LookedUp(v1, call, call.pc.Delete?);
    } else {
      assert v + [] == v;
    }
  }

  lemma StepExplained(s: State, e: Event, c: CallId, v: seq<Sight>)
    requires AsSeen(s, c, v)
    ensures AsSeen(Step(s, e), c, v + Met(s, e, c))
  {
    assert v + [] == v;
    if e.Next? && e.c == c && c in s.calls { NextExplained(s, c, e.notified, v); }
  }

  lemma {:induction false} RunSnoc(s: State, es: seq<Event>, e: Event)
    ensures Run(s, es + [e]) == Step(Run(s, es), e)
    decreases es
  {
    if es == [] {
      assert [e][1..] == [];
    } else {
      assert (es + [e])[1..] == es[1..] + [e];
      RunSnoc(Step(s, es[0]), es[1..], e);
    }
  }

  lemma {:induction false} RunExplained(es: seq<Event>, c: CallId)
    ensures AsSeen(Run(INIT, es), c, Seen(es, c))
  {
    if es != [] {
      var init, e := es[..|es| - 1], es[|es| - 1];
      assert es == init + [e];
      RunSnoc(INIT, init, e);
      RunExplained(init, c);
      StepExplained(Run(INIT, init), e, c, Seen(init, c));
    }
  }

  /**
   In every interleaving, what a call did is decided by what it saw: it switched the reaction on exactly if it
   found the post and no row, and its transaction could write; off exactly if it found the row and the
   transaction still did; and otherwise, once it has ended, it was turned away.
   */
  lemma CallsDoAsTheySaw(es: seq<Event>, c: CallId)
    ensures var s, v := Run(INIT, es), Seen(es, c);
            c in s.calls ==>
              && (s.calls[c].pc == On <==> Writes(v, s.calls[c], false))
              && (s.calls[c].pc == Off <==> Writes(v, s.calls[c], true))
              && (s.calls[c].pc == Failed <==> TurnedAway(v, s.calls[c]))
  {
    RunExplained(es, c);
  }

  /** The one step of a call that adds its row, the one that takes it away; every other step leaves the tables. */
  lemma NextWrites(s: State, c: CallId, notified: bool)
    requires c in s.calls
    ensures var t := Step(s, Next(c, notified));
            var Call(kind, u, p, pc) := s.calls[c];
            && (if pc.Insert? && t.calls[c].pc == On then
                  (u, p) !in Rows(s.db, kind) && Rows(t.db, kind) == Rows(s.db, kind) + {(u, p)}
                else if pc.Delete? && t.calls[c].pc == Off then
                  (u, p) in Rows(s.db, kind) && Rows(t.db, kind) == Rows(s.db, kind) - {(u, p)}
                else t.db == s.db)
            && Rows(t.db, Other(kind)) == Rows(s.db, Other(kind)) && t.db.posts.Keys == s.db.posts.Keys
            && (forall q :: q in s.db.posts ==> t.db.posts[q].owner == s.db.posts[q].owner)
            && (forall q :: q in s.db.posts ==> t.db.posts[q].isDeleted == s.db.posts[q].isDeleted)
  {}

  // ---------------------------------------------------------------------------------------
  // The tables and their transactions
  // ---------------------------------------------------------------------------------------

  class ReactionStore {
    var posts: map<PostId, Post>
    var likes: set<(UserId, PostId)>
    var reposts: set<(UserId, PostId)>

    ghost function View(): Db
      reads this
    {
      Db(posts, likes, reposts)
    }

    constructor ()
      ensures View() == INIT.db
    {
      posts, likes, reposts := map[], {}, {};
    }

    /** The transaction of `like`; `notified` is false when `sendNotification` throws. */
    method LikePost(u: UserId, p: PostId, owner: UserId, notified: bool) returns (ok: bool)
      modifies this
      ensures (View(), ok) == InsertTx(old(View()), Like, u, p, owner, notified)
    {
      if (u, p) in likes || p !in posts {
        return false;
      }
      var likes0, posts0 := likes, posts;
      likes := likes + {(u, p)};
      posts := posts[p := posts[p].(likeCount := posts[p].likeCount + 1)];
      if u != owner && !notified {
        likes, posts := likes0, posts0;
        return false;
      }
      return true;
    }

    /** The transaction of `unlike`. */
    method UnlikePost(u: UserId, p: PostId) returns (ok: bool)
      modifies this
      ensures (View(), ok) == DeleteTx(old(View()), Like, u, p)
    {
      if (u, p) !in likes || p !in posts {
        return false;
      }
      likes := likes - {(u, p)};
      posts := posts[p := posts[p].(likeCount := posts[p].likeCount - 1)];
      return true;
    }

    /** The transaction of `repost`, which looks again before it writes. */
    method RepostPost(u: UserId, p: PostId, owner: UserId, notified: bool) returns (ok: bool)
      modifies this
      ensures (View(), ok) == InsertTx(old(View()), Repost, u, p, owner, notified)
    {
      if p !in posts {
        return false;
      }
      if (u, p) in reposts {
        return false;
      }
      reposts := reposts + {(u, p)};
      posts := posts[p := posts[p].(repostCount := posts[p].repostCount + 1)];
      return true;
    }

    /** The transaction of `unRepost`. */
    method UnrepostPost(u: UserId, p: PostId) returns (ok: bool)
      modifies this
      ensures (View(), ok) == DeleteTx(old(View()), Repost, u, p)
    {
      if (u, p) !in reposts || p !in posts {
        return false;
      }
      reposts := reposts - {(u, p)};
      posts := posts[p := posts[p].(repostCount := posts[p].repostCount - 1)];
      return true;
    }

    /** `toggleLike` when nothing else runs meanwhile; both counters stay the numbers of rows. */
    method ToggleLike(u: UserId, p: PostId, notified: bool) returns (pc: Pc)
      modifies this
      ensures (View(), pc) == ToggleAlone(old(View()), Like, u, p, notified)
      ensures p !in old(posts) || old(posts)[p].isDeleted ==> pc == Failed && View() == old(View())
      ensures old(Consistent(View())) ==> Consistent(View())
    {
      ghost var before := View();
      AloneFlips(before, Like, u, p, notified);
      if p !in posts || posts[p].isDeleted {
        return Failed;
      }
      var owner := posts[p].owner;
      if (u, p) in likes {
        var ok := UnlikePost(u, p);
        return if ok then Off else Failed;
      }
      var ok := LikePost(u, p, owner, notified);
      return if ok then On else Failed;
    }

    /** `toggleRepost`. */
    method ToggleRepost(u: UserId, p: PostId, notified: bool) returns (pc: Pc)
      modifies this
      ensures (View(), pc) == ToggleAlone(old(View()), Repost, u, p, notified)
      ensures pc == Failed <==> p !in old(posts)
      ensures old(Consistent(View())) ==> Consistent(View())
    {
      ghost var before := View();
      AloneFlips(before, Repost, u, p, notified);
      if p !in posts {
        return Failed;
      }
      var owner := posts[p].owner;
      if (u, p) in reposts {
        var ok := UnrepostPost(u, p);
        return if ok then Off else Failed;
      }
      var ok := RepostPost(u, p, owner, notified);
      return if ok then On else Failed;
    }
  }
}
