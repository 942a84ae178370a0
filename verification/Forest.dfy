/**
 The reply forest of threads-be/prisma/schema.prisma:89-137: every post may name a parent and a
 thread root, both with `onDelete: Cascade`. A post's id is its place in the order of creation, so
 foreign keys, which must exist when the row is written, point to smaller ids.
 */
module Forest {
  import opened Collections

  type UserId = nat
  type PostId = nat
  type Key = string

  datatype Post = Post(owner: UserId, parent: Option<PostId>, root: Option<PostId>, replyCount: int, media: set<Key>)

  type Posts = map<PostId, Post>

  predicate Refers(posts: Posts, q: PostId, key: Option<PostId>) {
    key.Some? ==> key.value in posts && key.value < q
  }

  /** Foreign keys hold. */
  ghost predicate WellFormed(posts: Posts) {
    forall q :: q in posts ==> Refers(posts, q, posts[q].parent) && Refers(posts, q, posts[q].root)
  }

  /** Deleting `p` deletes `q`: follow `q`'s foreign keys upwards until they meet `p`. */
  predicate Doomed(posts: Posts, p: PostId, q: PostId)
    requires WellFormed(posts) && q in posts
    decreases q
  {
    || q == p
    || (posts[q].parent.Some? && Doomed(posts, p, posts[q].parent.value))
    || (posts[q].root.Some? && Doomed(posts, p, posts[q].root.value))
  }

  function Cascade(posts: Posts, p: PostId): set<PostId>
    requires WellFormed(posts)
  {
    set q | q in posts && Doomed(posts, p, q)
  }

  /** `q` is `p` or a reply below it. */
  ghost predicate Below(posts: Posts, p: PostId, q: PostId)
    requires WellFormed(posts) && q in posts
    decreases q
  {
    q == p || (posts[q].parent.Some? && Below(posts, p, posts[q].parent.value))
  }

  ghost function Subtree(posts: Posts, p: PostId): set<PostId>
    requires WellFormed(posts)
  {
    set q | q in posts && Below(posts, p, q)
  }

  /** Rows that must go when the rows of `gone` go. */
  ghost predicate ClosedUnderCascade(posts: Posts, gone: set<PostId>) {
    forall q :: q in posts && (PointsInto(posts[q].parent, gone) || PointsInto(posts[q].root, gone)) ==> q in gone
  }

  predicate PointsInto(key: Option<PostId>, gone: set<PostId>) {
    key.Some? && key.value in gone
  }

  /** What the database deletes is the least set that contains `p` and is closed under both foreign keys. */
  lemma CascadeIsLeast(posts: Posts, p: PostId)
    requires WellFormed(posts) && p in posts
    ensures p in Cascade(posts, p) && ClosedUnderCascade(posts, Cascade(posts, p))
    ensures forall gone: set<PostId> :: p in gone && ClosedUnderCascade(posts, gone) ==> Cascade(posts, p) <= gone
  {
    forall gone: set<PostId> | p in gone && ClosedUnderCascade(posts, gone)
      ensures Cascade(posts, p) <= gone
    {
      forall q | q in Cascade(posts, p)
        ensures q in gone
      {
        DoomedInClosed(posts, p, q, gone);
      }
    }
  }

  lemma {:induction false} DoomedInClosed(posts: Posts, p: PostId, q: PostId, gone: set<PostId>)
    requires WellFormed(posts) && q in posts && Doomed(posts, p, q)
    requires p in gone && ClosedUnderCascade(posts, gone)
    ensures q in gone
    decreases q
  {
    if q != p {
      if posts[q].parent.Some? && Doomed(posts, p, posts[q].parent.value) {
        DoomedInClosed(posts, p, posts[q].parent.value, gone);
      } else {
        DoomedInClosed(posts, p, posts[q].root.value, gone);
      }
    }
  }

  lemma {:induction false} DoomedIsYounger(posts: Posts, p: PostId, q: PostId)
    requires WellFormed(posts) && q in posts && Doomed(posts, p, q)
    ensures p <= q
    decreases q
  {
    if q != p {
      if posts[q].parent.Some? && Doomed(posts, p, posts[q].parent.value) {
        DoomedIsYounger(posts, p, posts[q].parent.value);
      } else {
        DoomedIsYounger(posts, p, posts[q].root.value);
      }
    }
  }

  // ---------------------------------------------------------------------------------------
  // Roots that are ancestors
  // ---------------------------------------------------------------------------------------

  /** Every thread root is null or an ancestor. The service does not check it: it stores what the caller sends. */
  ghost predicate RootsAreAncestors(posts: Posts)
    requires WellFormed(posts)
  {
    forall q :: q in posts && posts[q].root.Some? ==> Below(posts, posts[q].root.value, q)
  }

  lemma {:induction false} BelowTransitive(posts: Posts, p: PostId, r: PostId, q: PostId)
    requires WellFormed(posts) && q in posts && r in posts && Below(posts, p, r) && Below(posts, r, q)
    ensures Below(posts, p, q)
    decreases q
  {
    if q != r {
      BelowTransitive(posts, p, r, posts[q].parent.value);
    }
  }

  lemma {:induction false} DoomedIsBelow(posts: Posts, p: PostId, q: PostId)
    requires WellFormed(posts) && RootsAreAncestors(posts) && q in posts
    ensures Doomed(posts, p, q) <==> Below(posts, p, q)
    decreases q
  {
    if posts[q].parent.Some? {
      DoomedIsBelow(posts, p, posts[q].parent.value);
    }
    if posts[q].root.Some? {
      var r := posts[q].root.value;
      DoomedIsBelow(posts, p, r);
      if Doomed(posts, p, r) {
        BelowTransitive(posts, p, r, q);
      }
    }
  }

  /** With such roots a delete removes exactly the post and the replies below it. */
  lemma CascadeIsSubtree(posts: Posts, p: PostId)
    requires WellFormed(posts) && RootsAreAncestors(posts)
    ensures Cascade(posts, p) == Subtree(posts, p)
  {
    forall q | q in posts
      ensures Doomed(posts, p, q) <==> Below(posts, p, q)
    {
      DoomedIsBelow(posts, p, q);
    }
  }

  /** Ancestry depends on parents only, so it is the same in any part of the table that keeps them. */
  lemma {:induction false} BelowInPart(part: Posts, posts: Posts, p: PostId, q: PostId)
    requires WellFormed(part) && WellFormed(posts) && q in part
    requires forall x :: x in part ==> x in posts && part[x].parent == posts[x].parent
    ensures Below(part, p, q) <==> Below(posts, p, q)
    decreases q
  {
    if part[q].parent.Some? {
      BelowInPart(part, posts, p, part[q].parent.value);
    }
  }

  // ---------------------------------------------------------------------------------------
  // Reply counts
  // ---------------------------------------------------------------------------------------

  function Children(posts: Posts, x: PostId): set<PostId> {
    set q | q in posts && posts[q].parent == Some(x)
  }

  ghost predicate CountsAreRight(posts: Posts) {
    forall x :: x in posts ==> posts[x].replyCount == |Children(posts, x)|
  }

  /** What holds whatever roots callers send: a count is never too low. */
  ghost predicate CountsCover(posts: Posts) {
    forall x :: x in posts ==> posts[x].replyCount >= |Children(posts, x)|
  }

  function Bump(posts: Posts, x: Option<PostId>, delta: int): Posts
    requires x.Some? ==> x.value in posts
  {
    if x.None? then posts else posts[x.value := posts[x.value].(replyCount := posts[x.value].replyCount + delta)]
  }

  /** The transaction of `createSync`: the row with its media, then the parent's counter. */
  function Inserted(posts: Posts, id: PostId, owner: UserId, parent: Option<PostId>, root: Option<PostId>,
        media: set<Key>): Posts
    requires parent.Some? ==> parent.value in posts
  {
    Bump(posts[id := Post(owner, parent, root, 0, media)], parent, 1)
  }

  /** The transaction of `delete`: the parent's counter, then the row and everything it cascades to. */
  function Removed(posts: Posts, p: PostId): Posts
    requires WellFormed(posts) && p in posts
  {
    Bump(posts, posts[p].parent, -1) - Cascade(posts, p)
  }

  /** The id is new, and the foreign keys point to rows. */
  predicate Insertable(posts: Posts, id: PostId, parent: Option<PostId>, root: Option<PostId>) {
    && (forall q :: q in posts ==> q < id)
    && (parent.Some? ==> parent.value in posts) && (root.Some? ==> root.value in posts)
  }

  lemma InsertedRows(posts: Posts, id: PostId, owner: UserId, parent: Option<PostId>, root: Option<PostId>,
        media: set<Key>)
    requires WellFormed(posts) && Insertable(posts, id, parent, root)
    ensures var posts1 := Inserted(posts, id, owner, parent, root, media);
            && WellFormed(posts1)
            && posts1.Keys == posts.Keys + {id}
            && posts1[id] == Post(owner, parent, root, 0, media)
            && (forall x :: x in posts ==>
                  posts1[x] == posts[x].(replyCount := posts[x].replyCount + (if parent == Some(x) then 1 else 0)))
  {
    var posts1 := Inserted(posts, id, owner, parent, root, media);
    forall q | q in posts1
      ensures Refers(posts1, q, posts1[q].parent) && Refers(posts1, q, posts1[q].root)
    {
      if q != id { assert Refers(posts, q, posts[q].parent) && Refers(posts, q, posts[q].root); }
    }
  }

  lemma InsertedChildren(posts: Posts, id: PostId, owner: UserId, parent: Option<PostId>, root: Option<PostId>,
        media: set<Key>, x: PostId)
    requires WellFormed(posts) && Insertable(posts, id, parent, root)
    ensures |Children(Inserted(posts, id, owner, parent, root, media), x)|
            == |Children(posts, x)| + (if parent == Some(x) then 1 else 0)
    ensures x == id ==> Children(posts, x) == {} && parent != Some(x)
  {
    InsertedRows(posts, id, owner, parent, root, media);
    var added := if parent == Some(x) then {id} else {};
    assert Children(Inserted(posts, id, owner, parent, root, media), x) == Children(posts, x) + added;
    assert id !in Children(posts, x);
    if x == id { NoChildrenYet(posts, id); }
  }

  lemma NoChildrenYet(posts: Posts, id: PostId)
    requires WellFormed(posts) && forall q :: q in posts ==> q < id
    ensures Children(posts, id) == {}
  {
    forall q | q in posts
      ensures posts[q].parent != Some(id)
    {
      assert Refers(posts, q, posts[q].parent);
    }
  }

  lemma InsertedCounts(posts: Posts, id: PostId, owner: UserId, parent: Option<PostId>, root: Option<PostId>,
        media: set<Key>)
    requires WellFormed(posts) && Insertable(posts, id, parent, root)
    ensures CountsAreRight(posts) ==> CountsAreRight(Inserted(posts, id, owner, parent, root, media))
    ensures CountsCover(posts) ==> CountsCover(Inserted(posts, id, owner, parent, root, media))
  {
    InsertedRows(posts, id, owner, parent, root, media);
    var posts1 := Inserted(posts, id, owner, parent, root, media);
    forall x | x in posts1
      ensures CountsAreRight(posts) ==> posts1[x].replyCount == |Children(posts1, x)|
      ensures CountsCover(posts) ==> posts1[x].replyCount >= |Children(posts1, x)|
    {
      InsertedChildren(posts, id, owner, parent, root, media, x);
    }
  }

  lemma InsertedRoots(posts: Posts, id: PostId, owner: UserId, parent: Option<PostId>, root: Option<PostId>,
        media: set<Key>)
    requires WellFormed(posts) && Insertable(posts, id, parent, root) && RootsAreAncestors(posts)
    requires root.Some? ==> parent.Some? && Below(posts, root.value, parent.value)
    ensures WellFormed(Inserted(posts, id, owner, parent, root, media))
    ensures RootsAreAncestors(Inserted(posts, id, owner, parent, root, media))
  {
    InsertedRows(posts, id, owner, parent, root, media);
    var posts1 := Inserted(posts, id, owner, parent, root, media);
    forall q | q in posts1 && posts1[q].root.Some?
      ensures Below(posts1, posts1[q].root.value, q)
    {
      if q == id {
        BelowInPart(posts, posts1, root.value, parent.value);
      } else {
        BelowInPart(posts, posts1, posts1[q].root.value, q);
      }
    }
  }

  /** Survivors keep their rows; only the parent of the deleted post is touched, and only its counter. */
  lemma RemovedRows(posts: Posts, p: PostId)
    requires WellFormed(posts) && p in posts
    ensures var posts1 := Removed(posts, p);
            && WellFormed(posts1)
            && posts1.Keys == posts.Keys - Cascade(posts, p)
            && (posts[p].parent.Some? ==> posts[p].parent.value in posts1)
            && (forall x :: x in posts1 ==>
                  posts1[x] == posts[x].(replyCount := posts[x].replyCount
                                                       - (if posts[p].parent == Some(x) then 1 else 0)))
  {
    var posts1 := Removed(posts, p);
    assert Refers(posts, p, posts[p].parent);
    if posts[p].parent.Some? && Doomed(posts, p, posts[p].parent.value) {
      DoomedIsYounger(posts, p, posts[p].parent.value);
    }
    forall q | q in posts1
      ensures Refers(posts1, q, posts1[q].parent) && Refers(posts1, q, posts1[q].root)
    {
      assert Refers(posts, q, posts[q].parent) && Refers(posts, q, posts[q].root);
    }
  }

  /** Every post that goes, other than `p` itself, goes together with its parent. */
  ghost predicate CascadeKeepsFamilies(posts: Posts, p: PostId)
    requires WellFormed(posts)
  {
    forall q :: q in Cascade(posts, p) && q != p && posts[q].parent.Some? ==> posts[q].parent.value in Cascade(posts, p)
  }

  /** The children a survivor loses. */
  ghost function LostChildren(posts: Posts, p: PostId, x: PostId): set<PostId>
    requires WellFormed(posts)
  {
    Children(posts, x) * Cascade(posts, p)
  }

  lemma SurvivorChildren(posts: Posts, p: PostId, x: PostId)
    requires WellFormed(posts) && p in posts && x in Removed(posts, p)
    ensures |Children(posts, x)| == |Children(Removed(posts, p), x)| + |LostChildren(posts, p, x)|
    ensures posts[p].parent == Some(x) <==> p in LostChildren(posts, p, x)
  {
    RemovedRows(posts, p);
    assert Children(posts, x) == Children(Removed(posts, p), x) + LostChildren(posts, p, x);
  }

  lemma FamiliesKeepCounts(posts: Posts, p: PostId)
    requires WellFormed(posts) && p in posts && CountsAreRight(posts) && CascadeKeepsFamilies(posts, p)
    ensures CountsAreRight(Removed(posts, p))
  {
    var posts1 := Removed(posts, p);
    RemovedRows(posts, p);
    forall x | x in posts1
      ensures posts1[x].replyCount == |Children(posts1, x)|
    {
      SurvivorChildren(posts, p, x);
      assert LostChildren(posts, p, x) == if posts[p].parent == Some(x) then {p} else {};
    }
  }

  /** A survivor that loses another child than `p` is counted wrong. */
  lemma LostChildCounts(posts: Posts, p: PostId, q: PostId, x: PostId)
    requires WellFormed(posts) && p in posts && CountsAreRight(posts)
    requires q in Cascade(posts, p) && q != p && posts[q].parent == Some(x) && x in Removed(posts, p)
    ensures Removed(posts, p)[x].replyCount != |Children(Removed(posts, p), x)|
  {
    RemovedRows(posts, p);
    SurvivorChildren(posts, p, x);
    assert q in LostChildren(posts, p, x);
    TwoElements(LostChildren(posts, p, x), p, q);
  }

  /**
   A delete keeps all reply counts right exactly when every post in its cascade, other than the
   deleted one, goes together with its parent.
   */
  lemma DeleteKeepsCountsIff(posts: Posts, p: PostId)
    requires WellFormed(posts) && p in posts && CountsAreRight(posts)
    ensures CountsAreRight(Removed(posts, p)) <==> CascadeKeepsFamilies(posts, p)
  {
    RemovedRows(posts, p);
    if CascadeKeepsFamilies(posts, p) {
      FamiliesKeepCounts(posts, p);
    } else {
      var q :| q in Cascade(posts, p) && q != p && posts[q].parent.Some? && posts[q].parent.value !in Cascade(posts, p);
      assert Refers(posts, q, posts[q].parent);
      LostChildCounts(posts, p, q, posts[q].parent.value);
    }
  }

  lemma TwoElements(s: set<PostId>, p: PostId, q: PostId)
    requires q in s && q != p
    ensures |s| >= (if p in s then 2 else 1)
  {
    assert |s| == |s - {q}| + 1;
    if p in s { assert |s - {q}| == |s - {q} - {p}| + 1; }
  }

  lemma RemovedCover(posts: Posts, p: PostId)
    requires WellFormed(posts) && p in posts && CountsCover(posts)
    ensures CountsCover(Removed(posts, p))
  {
    RemovedRows(posts, p);
    forall x | x in Removed(posts, p)
      ensures Removed(posts, p)[x].replyCount >= |Children(Removed(posts, p), x)|
    {
      SurvivorChildren(posts, p, x);
    }
  }

  lemma RemovedRoots(posts: Posts, p: PostId)
    requires WellFormed(posts) && p in posts && RootsAreAncestors(posts)
    ensures WellFormed(Removed(posts, p)) && RootsAreAncestors(Removed(posts, p))
    ensures CascadeKeepsFamilies(posts, p)
  {
    RemovedRows(posts, p);
    CascadeIsSubtree(posts, p);
    forall q | q in Removed(posts, p) && Removed(posts, p)[q].root.Some?
      ensures Below(Removed(posts, p), Removed(posts, p)[q].root.value, q)
    {
      BelowInPart(Removed(posts, p), posts, posts[q].root.value, q);
    }
  }

  /** Post 2 replies to 0 but names the unrelated post 1 as its root. */
  const STRAY: Posts := map[0 := Post(7, None, None, 1, {}), 1 := Post(7, None, None, 0, {}),
                            2 := Post(7, Some(0), Some(1), 0, {})]

  /** Deleting 1 takes 2 away from 0, which goes on counting it. */
  lemma StrayRootBreaksCounts()
    ensures WellFormed(STRAY) && CountsAreRight(STRAY) && !CountsAreRight(Removed(STRAY, 1))
  {
    assert WellFormed(STRAY);
    assert Children(STRAY, 0) == {2} && Children(STRAY, 1) == {} && Children(STRAY, 2) == {};
    assert Doomed(STRAY, 1, 1) && Doomed(STRAY, 1, 2);
    assert !Doomed(STRAY, 1, 0);
    assert 2 in Cascade(STRAY, 1) && 0 !in Cascade(STRAY, 1);
    DeleteKeepsCountsIff(STRAY, 1);
  }
}
