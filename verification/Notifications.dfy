/**
 Notifications as a mirror of likes, reposts and follows: `sendNotification` and `findDuplicate` of
 threads-be/src/modules/notifications/notifications.service.ts, called and undone by the toggles of the
 likes, reposts and follows services. Calls come one after the other and none of them fails.
 */
module Notifications {
  import opened Collections

  type UserId = nat
  type PostId = nat
  type NotifId = nat

  datatype Kind = LIKE | REPOST | FOLLOW

  /** One row of the three relations. */
  datatype Edge =
    | Liked(user: UserId, post: PostId)
    | Reposted(user: UserId, post: PostId)
    | Follows(user: UserId, followed: UserId)

  datatype Row = Row(recipient: UserId, actor: UserId, kind: Kind, post: Option<PostId>, isRead: bool, createdAt: int)

  datatype State = State(
    now: int,
    posts: map<PostId, UserId>,          // owner of each post
    edges: set<Edge>,
    rows: map<NotifId, Row>,
    next: NotifId)

  const DAY := 24 * 60 * 60 * 1000

  const INIT := State(0, map[], {}, map[], 0)

  function KindOf(e: Edge): Kind {
    match e
    case Liked(_, _) => LIKE
    case Reposted(_, _) => REPOST
    case Follows(_, _) => FOLLOW
  }

  /** The `postId` argument: none for a follow. */
  function PostOf(e: Edge): Option<PostId> {
    if e.Follows? then None else Some(e.post)
  }

  predicate Possible(s: State, e: Edge) {
    if e.Follows? then e.user != e.followed else e.post in s.posts
  }

  function Recipient(s: State, e: Edge): UserId
    requires Possible(s, e)
  {
    if e.Follows? then e.followed else s.posts[e.post]
  }

  /** `findDuplicate`: an undefined postId filters nothing. */
  predicate IsDuplicate(row: Row, recipient: UserId, actor: UserId, kind: Kind, post: Option<PostId>, now: int) {
    row.recipient == recipient && row.actor == actor && row.kind == kind && (post.None? || row.post == post)
    && row.createdAt >= now - DAY
  }

  predicate HasDuplicate(s: State, recipient: UserId, actor: UserId, kind: Kind, post: Option<PostId>) {
    exists n :: n in s.rows && IsDuplicate(s.rows[n], recipient, actor, kind, post, s.now)
  }

  function SendNotification(s: State, recipient: UserId, actor: UserId, kind: Kind, post: Option<PostId>): State {
    if recipient == actor || HasDuplicate(s, recipient, actor, kind, post) then s
    else s.(rows := s.rows[s.next := Row(recipient, actor, kind, post, false, s.now)], next := s.next + 1)
  }

  /** The `where` of the `deleteMany` that undoes an edge. */
  predicate Names(row: Row, e: Edge) {
    row.kind == KindOf(e) && row.actor == e.user
        && (if e.Follows? then row.recipient == e.followed else row.post == Some(e.post))
  }

  function DeleteNotifications(s: State, e: Edge): State {
    s.(rows := (map n | n in s.rows && !Names(s.rows[n], e) :: s.rows[n]))
  }

  function Toggle(s: State, e: Edge): State {
    if !Possible(s, e) then s
    else if e in s.edges then
      var t := s.(edges := s.edges - {e});
      if Recipient(s, e) != e.user then DeleteNotifications(t, e) else t
    else
      SendNotification(s.(edges := s.edges + {e}), Recipient(s, e), e.user, KindOf(e), PostOf(e))
  }

  predicate Survives(e: Edge, gone: set<PostId>) {
    e.Follows? || e.post !in gone
  }

  predicate About(row: Row, gone: set<PostId>) {
    row.post.Some? && row.post.value in gone
  }

  datatype Event =
    | Publish(post: PostId, owner: UserId)
    | ToggleEdge(edge: Edge)
    | RemovePosts(gone: set<PostId>)             // cascades to likes, reposts and notifications
    | MarkAsRead(n: NotifId, user: UserId)
    | MarkAllAsRead(user: UserId)
    | Tick(ms: nat)

  function Step(s: State, e: Event): State {
    match e
    case Publish(p, owner) => if p in s.posts then s else s.(posts := s.posts[p := owner])
    case ToggleEdge(edge) => Toggle(s, edge)
    case RemovePosts(gone) =>
      s.(posts := s.posts - gone,
         edges := (set e | e in s.edges && Survives(e, gone)),
         rows := (map n | n in s.rows && !About(s.rows[n], gone) :: s.rows[n]))
    case MarkAsRead(n, user) =>
      if n in s.rows && s.rows[n].recipient == user then s.(rows := s.rows[n := s.rows[n].(isRead := true)]) else s
    case MarkAllAsRead(user) =>
      s.(rows := (map n | n in s.rows :: if s.rows[n].recipient == user then s.rows[n].(isRead := true) else s.rows[n]))
    case Tick(ms) => s.(now := s.now + ms)
  }

  function Run(s: State, es: seq<Event>): State
    decreases es
  {
    if es == [] then s else Run(Step(s, es[0]), es[1..])
  }

  // ---------------------------------------------------------------------------------------
  // The mirror
  // ---------------------------------------------------------------------------------------

  function Notified(s: State, e: Edge): set<NotifId> {
    set n | n in s.rows && Names(s.rows[n], e)
  }

  /** Exactly one notification per edge between two different people, and none otherwise. */
  ghost predicate Mirrored(s: State, e: Edge) {
    |Notified(s, e)| == if e in s.edges && Possible(s, e) && Recipient(s, e) != e.user then 1 else 0
  }

  /** A row tells the right person about somebody else, and about a post that exists. */
  ghost predicate RowOk(s: State, n: NotifId)
    requires n in s.rows
  {
    var row := s.rows[n];
    && n < s.next && row.actor != row.recipient
    && (row.kind == FOLLOW ==> row.post.None?)
    && (row.kind != FOLLOW ==> row.post.Some? && row.post.value in s.posts && row.recipient == s.posts[row.post.value])
  }

  ghost predicate Inv(s: State) {
    && (forall e :: Mirrored(s, e))
    && (forall n :: n in s.rows ==> RowOk(s, n))
    && (forall e :: e in s.edges ==> Possible(s, e))
  }

  lemma NoneWhenAbsent(s: State, e: Edge)
    requires Inv(s) && e !in s.edges
    ensures Notified(s, e) == {}
  {
    assert Mirrored(s, e);
  }

  /** Before an edge is made there is no row about it, so the duplicate check cannot fire. */
  lemma NoDuplicateEver(s: State, e: Edge)
    requires Inv(s) && e !in s.edges && Possible(s, e)
    ensures !HasDuplicate(s, Recipient(s, e), e.user, KindOf(e), PostOf(e))
  {
    NoneWhenAbsent(s, e);
    forall n | n in s.rows
      ensures !IsDuplicate(s.rows[n], Recipient(s, e), e.user, KindOf(e), PostOf(e), s.now)
    {
      assert n !in Notified(s, e);
    }
  }

  lemma MakeInv(s: State, e: Edge)
    requires Inv(s) && e !in s.edges && Possible(s, e)
    ensures Inv(Toggle(s, e))
  {
    NoDuplicateEver(s, e);
    var t := Toggle(s, e);
    assert HasDuplicate(s.(edges := s.edges + {e}), Recipient(s, e), e.user, KindOf(e), PostOf(e))
        == HasDuplicate(s, Recipient(s, e), e.user, KindOf(e), PostOf(e));
    NoneWhenAbsent(s, e);
    forall k | k in s.rows
      ensures k < s.next
    {
      assert RowOk(s, k);
    }
    forall f
      ensures Mirrored(t, f)
    {
      assert Mirrored(s, f);
      if Recipient(s, e) != e.user {
        assert Names(t.rows[s.next], f) <==> f == e;
        assert Notified(t, f) == Notified(s, f) + (if f == e then {s.next} else {});
      } else {
        assert Notified(t, f) == Notified(s, f);
      }
    }
    forall n | n in t.rows
      ensures RowOk(t, n)
    {
      if n in s.rows { assert RowOk(s, n); }
    }
  }

  lemma UndoInv(s: State, e: Edge)
    requires Inv(s) && e in s.edges
    ensures Inv(Toggle(s, e))
  {
    assert Possible(s, e);
    var t := Toggle(s, e);
    forall f
      ensures Mirrored(t, f)
    {
      assert Mirrored(s, f);
      forall n | n in s.rows && Names(s.rows[n], e) && Names(s.rows[n], f)
        ensures f == e
      {
      }
      assert Notified(t, f) == if f == e && Recipient(s, e) != e.user then {} else Notified(s, f);
    }
    forall n | n in t.rows
      ensures RowOk(t, n)
    {
      assert RowOk(s, n);
    }
  }

  lemma RemoveInv(s: State, gone: set<PostId>)
    requires Inv(s)
    ensures Inv(Step(s, RemovePosts(gone)))
  {
    var t := Step(s, RemovePosts(gone));
    forall f
      ensures Mirrored(t, f)
    {
      assert Mirrored(s, f);
      if Survives(f, gone) {
        forall n | n in s.rows && Names(s.rows[n], f)
          ensures !About(s.rows[n], gone)
        {
          assert RowOk(s, n);
        }
        assert Notified(t, f) == Notified(s, f);
      } else {
        assert Notified(t, f) == {};
      }
    }
    forall n | n in t.rows
      ensures RowOk(t, n)
    {
      assert RowOk(s, n);
    }
  }

  lemma OtherInv(s: State, e: Event)
    requires Inv(s) && !e.ToggleEdge? && !e.RemovePosts?
    ensures Inv(Step(s, e))
  {
    var t := Step(s, e);
    forall f
      ensures Mirrored(t, f)
    {
      assert Mirrored(s, f);
      assert Notified(t, f) == Notified(s, f);
    }
    forall n | n in t.rows
      ensures RowOk(t, n)
    {
      assert RowOk(s, n);
    }
  }

  lemma StepInv(s: State, e: Event)
    requires Inv(s)
    ensures Inv(Step(s, e))
  {
    match e
    case ToggleEdge(edge) =>
      if edge in s.edges { UndoInv(s, edge); } else if Possible(s, edge) { MakeInv(s, edge); }
    case RemovePosts(gone) => RemoveInv(s, gone);
    case _ => OtherInv(s, e);
  }

  lemma {:induction false} RunInv(s: State, es: seq<Event>)
    requires Inv(s)
    ensures Inv(Run(s, es))
    decreases es
  {
    if es != [] {
      StepInv(s, es[0]);
      RunInv(Step(s, es[0]), es[1..]);
    }
  }

  /**
   After every sequence of toggles, removals and reads: one notification for every like, repost and
   follow of somebody else, addressed to the owner or the followed person; none for anything else; and
   none to oneself.
   */
  lemma NotificationsMirrorEdges(es: seq<Event>, e: Edge, n: NotifId)
    ensures var s := Run(INIT, es);
            && (e in s.edges ==> Possible(s, e))
            && |Notified(s, e)| == (if e in s.edges && Recipient(s, e) != e.user then 1 else 0)
            && (n in Notified(s, e) ==> Possible(s, e) && s.rows[n].recipient == Recipient(s, e))
            && (n in s.rows ==> s.rows[n].actor != s.rows[n].recipient)
  {
    forall f ensures Mirrored(INIT, f) {
      assert Notified(INIT, f) == {};
    }
    RunInv(INIT, es);
    var s := Run(INIT, es);
    assert Mirrored(s, e);
    if n in s.rows {
      assert RowOk(s, n);
    }
  }

  /** So no caller is ever turned away by the 24-hour check: every new edge to somebody else makes a row. */
  lemma DuplicateCheckNeverFires(es: seq<Event>, e: Edge)
    ensures var s := Run(INIT, es);
            e !in s.edges && Possible(s, e) && Recipient(s, e) != e.user ==>
              var t := Step(s, ToggleEdge(e));
              Notified(t, e) == {s.next}
                  && t.rows[s.next] == Row(Recipient(s, e), e.user, KindOf(e), PostOf(e), false, s.now)
  {
    forall f ensures Mirrored(INIT, f) {
      assert Notified(INIT, f) == {};
    }
    RunInv(INIT, es);
    var s := Run(INIT, es);
    if e !in s.edges && Possible(s, e) {
      NoDuplicateEver(s, e);
      assert HasDuplicate(s.(edges := s.edges + {e}), Recipient(s, e), e.user, KindOf(e), PostOf(e))
          == HasDuplicate(s, Recipient(s, e), e.user, KindOf(e), PostOf(e));
      NoneWhenAbsent(s, e);
    }
  }

  /** Within the last day the same was told: by the same person, of that kind, about that post if one is given. */
  ghost predicate RecentlyTold(rows: map<NotifId, Row>, recipient: UserId, actor: UserId, kind: Kind,
                               post: Option<PostId>, now: int)
  {
    exists n :: n in rows && rows[n].recipient == recipient && rows[n].actor == actor && rows[n].kind == kind
      && (post.Some? ==> rows[n].post == post) && now - rows[n].createdAt <= 86_400_000
  }

  /** The event is the recipient's reading of the notification, or of all of his. */
  predicate Reads(e: Event, n: NotifId, row: Row) {
    e == MarkAsRead(n, row.recipient) || e == MarkAllAsRead(row.recipient)
  }

  ghost predicate ReadIn(es: seq<Event>, n: NotifId, row: Row) {
    exists i :: 0 <= i < |es| && Reads(es[i], n, row)
  }

  lemma StepReads(s: State, e: Event, n: NotifId)
    requires Inv(s) && n in s.rows && n in Step(s, e).rows
    ensures Step(s, e).rows[n] == s.rows[n].(isRead := s.rows[n].isRead || Reads(e, n, s.rows[n]))
  {
    assert RowOk(s, n);
  }

  lemma GoneForGood(s: State, e: Event, n: NotifId)
    requires Inv(s) && n < s.next
    ensures n < Step(s, e).next && (n in Step(s, e).rows ==> n in s.rows)
  {}

  /**
   A notification that stays never changes, except that it is read: exactly if it was before, or its recipient,
   and nobody else, has read it or all of his since.
   */
  lemma {:induction false} OnlyTheRecipientReads(s: State, es: seq<Event>, n: NotifId)
    requires Inv(s) && n < s.next && n in Run(s, es).rows
    ensures n in s.rows
    ensures Run(s, es).rows[n] == s.rows[n].(isRead := s.rows[n].isRead || ReadIn(es, n, s.rows[n]))
    decreases es
  {
    if es != [] {
      var e, rest := es[0], es[1..];
      StepInv(s, e);
      GoneForGood(s, e, n);
      OnlyTheRecipientReads(Step(s, e), rest, n);
      StepReads(s, e, n);
      var row := s.rows[n];
      if Reads(e, n, row) { assert ReadIn(es, n, row); }
      if ReadIn(rest, n, row) {
        var i :| 0 <= i < |rest| && Reads(rest[i], n, row);
        assert es[i + 1] == rest[i];
        assert ReadIn(es, n, row);
      }
      if ReadIn(es, n, row) {
        var i :| 0 <= i < |es| && Reads(es[i], n, row);
        assert i > 0 ==> rest[i - 1] == es[i];
      }
    }
  }

  /** A toggle flips the edge it names if it can be made, and no other; removing posts removes the edges to them. */
  lemma EdgesAre(s: State, e: Event, f: Edge)
    ensures var t := Step(s, e);
            f in t.edges <==>
              if e == ToggleEdge(f) && Possible(s, f) then f !in s.edges
              else f in s.edges && !(e.RemovePosts? && !f.Follows? && f.post in e.gone)
  {}

  /** Posts come when they are published and go when they are removed; time goes on only by ticks. */
  lemma PostsAre(s: State, e: Event, p: PostId)
    ensures var t := Step(s, e);
            && (p in t.posts <==> (p in s.posts && !(e.RemovePosts? && p in e.gone)) || (e.Publish? && e.post == p))
            && (p in t.posts && p in s.posts ==> t.posts[p] == s.posts[p])
            && (p in t.posts && p !in s.posts ==> e == Publish(p, t.posts[p]))
            && t.now == s.now + (if e.Tick? then e.ms else 0)
  {}

  // ---------------------------------------------------------------------------------------
  // The service on its table
  // ---------------------------------------------------------------------------------------

  class NotificationStore {
    var rows: map<NotifId, Row>
    var next: NotifId

    constructor ()
      ensures rows == map[] && next == 0
    {
      rows, next := map[], 0;
    }

    method Send(recipient: UserId, actor: UserId, kind: Kind, post: Option<PostId>, now: int, ghost s: State)
      requires rows == s.rows && next == s.next && now == s.now
      modifies this
      ensures var t := SendNotification(s, recipient, actor, kind, post); rows == t.rows && next == t.next
      ensures var sent := recipient != actor && !RecentlyTold(old(rows), recipient, actor, kind, post, now);
              var row := Row(recipient, actor, kind, post, false, now);
              && rows == (if sent then old(rows)[old(next) := row] else old(rows))
              && next == old(next) + (if sent then 1 else 0)
    {
      if recipient == actor {
        return;
      }
      var duplicates := set n | n in rows && IsDuplicate(rows[n], recipient, actor, kind, post, now);
      if duplicates != {} {
        assert exists n :: n in duplicates;
        return;
      }
      forall n | n in rows
        ensures !IsDuplicate(rows[n], recipient, actor, kind, post, now)
      {
        assert n !in duplicates;
      }
      rows := rows[next := Row(recipient, actor, kind, post, false, now)];
      next := next + 1;
    }

    method MarkAll(user: UserId, ghost s: State)
      requires rows == s.rows
      modifies this`rows
      ensures rows == Step(s, MarkAllAsRead(user)).rows
      ensures rows.Keys == old(rows).Keys
      ensures forall n :: n in rows ==>
                rows[n] == old(rows)[n].(isRead := old(rows)[n].isRead || old(rows)[n].recipient == user)
    {
      rows := map n | n in rows :: if rows[n].recipient == user then rows[n].(isRead := true) else rows[n];
    }
  }
}
