/**
 Cursor pagination: `getUserPosts` and `getNewsFeedPost` of
 threads-be/src/modules/posts/posts.service.ts with the infinite query of
 threads-fe/src/hooks/useNewsfeed.tsx, which keeps the pages and shows them concatenated.
 */
module Paging {
  import opened Collections

  type PostId = nat

  datatype Post = Post(id: PostId, isPinned: bool, createdAt: int)

  /** Pinned posts first, and of two posts alike in that the newer one. */
  predicate Before(a: Post, b: Post) {
    (a.isPinned && !b.isPinned) || (a.isPinned == b.isPinned && a.createdAt > b.createdAt)
  }

  /** The rows a query matches, in its order. No two posts share a creation time, nor an id. */
  ghost predicate Ordered(list: seq<Post>) {
    forall i, j :: InOrder(list, i, j)
  }

  ghost predicate InOrder(list: seq<Post>, i: int, j: int) {
    0 <= i < j < |list| ==> Before(list[i], list[j]) && list[i].id != list[j].id
  }

  function Min(a: int, b: int): int { if a < b then a else b }
  function Max(a: int, b: int): int { if a > b then a else b }

  function Take(limit: int): (t: int)
    ensures 1 <= t <= 100
    ensures 1 <= limit <= 100 ==> t == limit
  {
    Min(Max(limit, 1), 100)
  }

  /** Where the cursor row stands, or the length of the list if it is not there. */
  function IndexOf(list: seq<Post>, id: PostId): (i: nat)
    ensures i <= |list|
    ensures i < |list| ==> list[i].id == id
  {
    if list == [] || list[0].id == id then 0 else 1 + IndexOf(list[1..], id)
  }

  /** Where `cursor` with `skip: 1` starts: after the cursor row; at the end if there is no such row. */
  function Position(list: seq<Post>, cursor: Option<PostId>): (n: nat)
    ensures n <= |list|
  {
    match cursor
    case None => 0
    case Some(id) => Min(IndexOf(list, id) + 1, |list|)
  }

  function FindMany(list: seq<Post>, n: nat, take: nat): seq<Post>
    requires n <= |list|
  {
    list[n..Min(n + take, |list|)]
  }

  datatype Page = Page(posts: seq<Post>, hasMore: bool, nextCursor: Option<PostId>)

  /** The answer of `getUserPosts` when the query starts at row `n`. */
  function PageAt(list: seq<Post>, n: nat, limit: int): Page
    requires n <= |list|
  {
    var posts := FindMany(list, n, Take(limit) + 1);
    var hasMore := |posts| > Take(limit);
    var postsToReturn := if hasMore then DropLast(posts) else posts;
    Page(postsToReturn, hasMore, if hasMore then Some(postsToReturn[|postsToReturn| - 1].id) else None)
  }

  function GetUserPosts(list: seq<Post>, cursor: Option<PostId>, limit: int): Page {
    PageAt(list, Position(list, cursor), limit)
  }

  lemma {:induction false} IndexOfAtMost(list: seq<Post>, i: nat)
    requires i < |list|
    ensures IndexOf(list, list[i].id) <= i
  {
    if i > 0 && list[0].id != list[i].id {
      IndexOfAtMost(list[1..], i - 1);
    }
  }

  /** A cursor that is not in the list leads to its end. */
  lemma {:induction false} NoSuchCursor(list: seq<Post>, id: PostId)
    requires forall p :: p in list ==> p.id != id
    ensures IndexOf(list, id) == |list| && Position(list, Some(id)) == |list|
  {
    if list != [] {
      assert list[0] in list;
      forall p | p in list[1..] ensures p in list {}
      NoSuchCursor(list[1..], id);
    }
  }

  lemma PositionAfter(list: seq<Post>, i: nat)
    requires Ordered(list) && i < |list|
    ensures IndexOf(list, list[i].id) == i
    ensures Position(list, Some(list[i].id)) == i + 1
  {
    IndexOfAtMost(list, i);
    var k := IndexOf(list, list[i].id);
    assert InOrder(list, k, i);
  }

  /**
   A page is a non-empty piece of what is left, and its cursor continues right after it; or it is all that is
   left.
   */
  lemma PageIs(list: seq<Post>, n: nat, limit: int)
    requires Ordered(list) && n <= |list|
    ensures var page, m := PageAt(list, n, limit), n + Take(limit);
            if m < |list| then page.hasMore && page.posts == list[n..m] && Position(list, page.nextCursor) == m
            else page == Page(list[n..], false, None)
  {
    var m := n + Take(limit);
    if m < |list| {
      var posts := FindMany(list, n, Take(limit) + 1);
      assert posts == list[n..m + 1] && |posts| == Take(limit) + 1;
      assert posts[..|posts| - 1] == list[n..m];
      PositionAfter(list, m - 1);
    } else {
      assert FindMany(list, n, Take(limit) + 1) == list[n..];
    }
  }

  // ---------------------------------------------------------------------------------------
  // The newsfeed, which compares with the limit as given
  // ---------------------------------------------------------------------------------------

  /** `getNewsFeedPost`: None when reading the id of the last post to return throws, there being none. */
  function NewsAt(list: seq<Post>, n: nat, limit: int): Option<Page>
    requires n <= |list|
  {
    var posts := FindMany(list, n, Take(limit) + 1);
    var hasMore := |posts| > limit;
    var postsToReturn := if hasMore then DropLast(posts) else posts;
    if hasMore && postsToReturn == [] then None
    else Some(Page(postsToReturn, hasMore, if hasMore then Some(postsToReturn[|postsToReturn| - 1].id) else None))
  }

  function GetNewsFeedPost(list: seq<Post>, cursor: Option<PostId>, limit: int): Option<Page> {
    NewsAt(list, Position(list, cursor), limit)
  }

  lemma NewsInRange(list: seq<Post>, n: nat, limit: int)
    requires n <= |list| && 1 <= limit <= 100
    ensures NewsAt(list, n, limit) == Some(PageAt(list, n, limit))
  {}

  lemma NewsTooSmall(list: seq<Post>, n: nat, limit: int)
    requires Ordered(list) && n <= |list| && limit <= 0
    ensures |list| - n >= 2 ==>
              NewsAt(list, n, limit) == Some(Page([list[n]], true, Some(list[n].id)))
              && Position(list, Some(list[n].id)) == n + 1
    ensures |list| - n == 1 || (|list| == n && limit < 0) ==> NewsAt(list, n, limit) == None
    ensures |list| == n && limit == 0 ==> NewsAt(list, n, limit) == Some(Page([], false, None))
  {
    if |list| - n >= 2 {
      PositionAfter(list, n);
      assert DropLast(FindMany(list, n, 2)) == [list[n]];
    }
  }

  lemma NewsTooLarge(list: seq<Post>, n: nat, limit: int)
    requires n <= |list| && limit > 100
    ensures NewsAt(list, n, limit) == Some(Page(list[n..Min(n + 101, |list|)], false, None))
  {}

  // ---------------------------------------------------------------------------------------
  // Fetching while others write
  // ---------------------------------------------------------------------------------------

  /** The infinite query: `next` is what `getNextPageParam` gave, `done` that it gave undefined. */
  datatype State = State(list: seq<Post>, pages: seq<seq<Post>>, next: Option<PostId>, done: bool)

  /** One hook fetches one kind of page; a run may hold either kind, or both. */
  datatype Event = Insert(post: Post) | FetchNextPage(limit: int) | FetchNews(limit: int)

  function Fetched(s: State, page: Page): State {
    s.(pages := s.pages + [page.posts], next := page.nextCursor, done := !page.hasMore)
  }

  function Flatten(pages: seq<seq<Post>>): seq<Post> {
    if pages == [] then [] else pages[0] + Flatten(pages[1..])
  }

  lemma {:induction false} FlattenSnoc(pages: seq<seq<Post>>, page: seq<Post>)
    ensures Flatten(pages + [page]) == Flatten(pages) + page
  {
    if pages == [] {
      assert pages + [page] == [page];
      assert Flatten([page]) == page + Flatten([]) == page;
    } else {
      assert (pages + [page])[1..] == pages[1..] + [page];
      FlattenSnoc(pages[1..], page);
    }
  }

  /** The place of a new post in the order. */
  function Place(list: seq<Post>, post: Post): (i: nat)
    ensures i <= |list|
    ensures i < |list| ==> !Before(list[i], post)
  {
    if list == [] || !Before(list[0], post) then 0 else 1 + Place(list[1..], post)
  }

  function Inserted(list: seq<Post>, post: Post): seq<Post> {
    list[..Place(list, post)] + [post] + list[Place(list, post)..]
  }

  predicate IsNew(list: seq<Post>, post: Post) {
    forall p :: p in list ==> p.id != post.id && p.createdAt != post.createdAt
  }

  function Step(s: State, e: Event): State {
    match e
    case Insert(post) => if IsNew(s.list, post) then s.(list := Inserted(s.list, post)) else s
    case FetchNextPage(limit) =>
      if s.done then s else Fetched(s, GetUserPosts(s.list, s.next, limit))
    case FetchNews(limit) =>
      if s.done then s
      else
        match GetNewsFeedPost(s.list, s.next, limit)
        case None => s                             // the call throws; nothing is added
        case Some(page) => Fetched(s, page)
  }

  function Run(s: State, es: seq<Event>): State
    decreases es
  {
    if es == [] then s else Run(Step(s, es[0]), es[1..])
  }

  /** The posts of a list that were there at the start. */
  function Old(list: seq<Post>, start: set<Post>): seq<Post> {
    if list == [] then []
    else (if list[0] in start then [list[0]] else []) + Old(list[1..], start)
  }

  lemma {:induction false} OldConcat(a: seq<Post>, b: seq<Post>, start: set<Post>)
    ensures Old(a + b, start) == Old(a, start) + Old(b, start)
  {
    if a == [] {
      assert a + b == b;
    } else {
      var head := if a[0] in start then [a[0]] else [];
      assert (a + b)[1..] == a[1..] + b && (a + b)[0] == a[0];
      OldConcat(a[1..], b, start);
      assert head + Old(a[1..], start) + Old(b, start) == head + (Old(a[1..], start) + Old(b, start));
    }
  }

  lemma {:induction false} OldAll(list: seq<Post>, start: set<Post>)
    requires forall p :: p in list ==> p in start
    ensures Old(list, start) == list
  {
    if list != [] {
      OldAll(list[1..], start);
    }
  }

  ghost predicate NoDuplicates(posts: seq<Post>) {
    forall i, j :: 0 <= i < j < |posts| ==> posts[i].id != posts[j].id
  }

  /** `shown` took from the first `n` posts of the list every old one, in order, and none twice. */
  ghost predicate Covers(list: seq<Post>, n: nat, shown: seq<Post>, start: set<Post>)
    requires n <= |list|
  {
    && (forall p :: p in shown ==> p in list[..n])
    && NoDuplicates(shown)
    && Old(shown, start) == Old(list[..n], start)
  }

  /** `whole`: no fetch stopped before the end of the list. */
  ghost predicate Inv(s: State, start: set<Post>, first: seq<Post>, whole: bool) {
    && Ordered(s.list)
    && start <= Elements(s.list)
    && Old(s.list, start) == first
    && (s.next.Some? && !s.done ==> IndexOf(s.list, s.next.value) < |s.list|)
    && (!s.done ==> Covers(s.list, Position(s.list, s.next), Flatten(s.pages), start))
    && (s.done ==> NoDuplicates(Flatten(s.pages)) && Old(Flatten(s.pages), start) <= first)
    && (s.done && whole ==> Old(Flatten(s.pages), start) == first)
  }

  lemma {:induction false} PlaceAfter(list: seq<Post>, post: Post, j: nat)
    requires j < Place(list, post)
    ensures Before(list[j], post)
  {
    if j > 0 {
      PlaceAfter(list[1..], post, j - 1);
    }
  }

  lemma InsertedOrdered(list: seq<Post>, post: Post)
    requires Ordered(list) && IsNew(list, post)
    ensures Ordered(Inserted(list, post))
  {
    var k := Place(list, post);
    var list1 := Inserted(list, post);
    forall j | 0 <= j < k
      ensures Before(list[j], post)
    {
      PlaceAfter(list, post, j);
    }
    forall j | k <= j < |list|
      ensures Before(post, list[j])
    {
      assert list[k] in list;
      assert InOrder(list, k, j);
    }
    forall i, j
      ensures InOrder(list1, i, j)
    {
      assert InOrder(list, if i < k then i else i - 1, if j < k then j else j - 1);
      if 0 <= i < j < |list1| {
        assert i != k ==> list1[i] == (if i < k then list[i] else list[i - 1]) && list1[i] in list;
        assert j != k ==> list1[j] == (if j < k then list[j] else list[j - 1]) && list1[j] in list;
      }
    }
  }

  lemma OldInserted(a: seq<Post>, b: seq<Post>, post: Post, start: set<Post>)
    requires post !in start
    ensures Old(a + [post] + b, start) == Old(a + b, start)
  {
    OldConcat(a, [post], start);
    OldConcat(a + [post], b, start);
    OldConcat(a, b, start);
    assert Old([post], start) == [];
  }

  /** An insertion somewhere leaves what was covered covered, one place further on if it fell inside. */
  lemma CoversInserted(list: seq<Post>, k: nat, post: Post, n: nat, shown: seq<Post>, start: set<Post>)
    requires k <= |list| && n <= |list| && post !in start && Covers(list, n, shown, start)
    ensures Covers(list[..k] + [post] + list[k..], if k < n then n + 1 else n, shown, start)
  {
    var list1 := list[..k] + [post] + list[k..];
    if k < n {
      assert list1[..n + 1] == list[..k] + [post] + list[k..n];
      assert list[..n] == list[..k] + list[k..n];
      OldInserted(list[..k], list[k..n], post, start);
      forall p | p in shown ensures p in list1[..n + 1] {
        assert p in list[..n];
      }
    } else {
      assert list1[..n] == list[..n];
    }
  }

  /** The cursor row keeps its place among the others, so the query continues after the same posts. */
  lemma PositionInserted(list: seq<Post>, post: Post, cursor: Option<PostId>)
    requires Ordered(list) && IsNew(list, post) && (cursor.Some? ==> IndexOf(list, cursor.value) < |list|)
    ensures var list1, n := Inserted(list, post), Position(list, cursor);
            && Position(list1, cursor) == (if Place(list, post) < n then n + 1 else n)
            && (cursor.Some? ==> IndexOf(list1, cursor.value) < |list1|)
  {
    if cursor.Some? {
      var i := IndexOf(list, cursor.value);
      var i1 := if Place(list, post) <= i then i + 1 else i;
      InsertedOrdered(list, post);
      assert Inserted(list, post)[i1] == list[i];
      PositionAfter(Inserted(list, post), i1);
    }
  }

  lemma InsertInv(s: State, post: Post, start: set<Post>, first: seq<Post>, whole: bool)
    requires Inv(s, start, first, whole) && IsNew(s.list, post)
    ensures Inv(Step(s, Insert(post)), start, first, whole)
  {
    var list := s.list;
    InsertedOrdered(list, post);
    InsertedOld(list, post, start);
    if !s.done {
      PositionInserted(list, post, s.next);
      CoversInserted(list, Place(list, post), post, Position(list, s.next), Flatten(s.pages), start);
    }
  }

  lemma InsertedOld(list: seq<Post>, post: Post, start: set<Post>)
    requires IsNew(list, post) && start <= Elements(list)
    ensures post !in start && start <= Elements(Inserted(list, post))
    ensures Old(Inserted(list, post), start) == Old(list, start)
  {
    var k := Place(list, post);
    assert post !in Elements(list);
    assert list == list[..k] + list[k..];
    OldInserted(list[..k], list[k..], post, start);
  }

  /** One more page: it continues where the cursor stands, so it repeats nothing and skips nothing. */
  lemma CoverMore(list: seq<Post>, n: nat, m: nat, shown: seq<Post>, start: set<Post>)
    requires Ordered(list) && n <= m <= |list| && Covers(list, n, shown, start)
    ensures Covers(list, m, shown + list[n..m], start)
  {
    OldConcat(shown, list[n..m], start);
    OldConcat(list[..n], list[n..m], start);
    assert list[..m] == list[..n] + list[n..m];
    var more := shown + list[n..m];
    forall i, j | 0 <= i < j < |more|
      ensures more[i].id != more[j].id
    {
      if j >= |shown| {
        assert more[j] == list[n + (j - |shown|)];
        if i >= |shown| {
          assert more[i] == list[n + (i - |shown|)];
          assert InOrder(list, n + (i - |shown|), n + (j - |shown|));
        } else {
          assert more[i] in shown && more[i] in list[..n];
          var x :| 0 <= x < n && list[x] == more[i];
          assert InOrder(list, x, n + (j - |shown|));
        }
      }
    }
  }

  /** Any page that is the next piece of the list, with a cursor at its end if there is to be more. */
  lemma PieceInv(s: State, m: nat, page: Page, start: set<Post>, first: seq<Post>, whole: bool)
    requires Inv(s, start, first, whole) && !s.done && Position(s.list, s.next) <= m <= |s.list|
    requires page.posts == s.list[Position(s.list, s.next)..m]
    requires page.hasMore ==> m > 0 && page.nextCursor == Some(s.list[m - 1].id)
    requires !page.hasMore && whole ==> m == |s.list|
    ensures Inv(Fetched(s, page), start, first, whole)
  {
    FlattenSnoc(s.pages, page.posts);
    CoverMore(s.list, Position(s.list, s.next), m, Flatten(s.pages), start);
    if page.hasMore {
      PositionAfter(s.list, m - 1);
    } else {
      OldPrefix(s.list, m, start);
      if m == |s.list| { assert s.list[..m] == s.list; }
    }
  }

  lemma FetchInv(s: State, limit: int, start: set<Post>, first: seq<Post>, whole: bool)
    requires Inv(s, start, first, whole) && !s.done
    ensures Inv(Fetched(s, GetUserPosts(s.list, s.next, limit)), start, first, whole)
  {
    var n := Position(s.list, s.next);
    var m := Min(n + Take(limit), |s.list|);
    PageIs(s.list, n, limit);
    assert s.list[n..] == s.list[n..|s.list|];
    if n + Take(limit) < |s.list| { PageCursor(s.list, n, limit); }
    PieceInv(s, m, PageAt(s.list, n, limit), start, first, whole);
  }

  lemma PageCursor(list: seq<Post>, n: nat, limit: int)
    requires Ordered(list) && n + Take(limit) < |list|
    ensures PageAt(list, n, limit).nextCursor == Some(list[n + Take(limit) - 1].id)
  {
    PageIs(list, n, limit);
  }

  /** A page of the newsfeed is the next piece too, for every limit; only above 100 it may stop too early. */
  lemma NewsInv(s: State, limit: int, start: set<Post>, first: seq<Post>, whole: bool)
    requires Inv(s, start, first, whole) && !s.done && (whole ==> limit <= 100)
    ensures Inv(Step(s, FetchNews(limit)), start, first, whole)
  {
    var n := Position(s.list, s.next);
    if 1 <= limit <= 100 {
      NewsInRange(s.list, n, limit);
      FetchInv(s, limit, start, first, whole);
    } else if limit > 100 {
      NewsTooLarge(s.list, n, limit);
      PieceInv(s, Min(n + 101, |s.list|), GetNewsFeedPost(s.list, s.next, limit).value, start, first, whole);
    } else {
      SmallNewsInv(s, limit, start, first, whole);
    }
  }

  lemma SmallNewsInv(s: State, limit: int, start: set<Post>, first: seq<Post>, whole: bool)
    requires Inv(s, start, first, whole) && !s.done && limit <= 0
    ensures Inv(Step(s, FetchNews(limit)), start, first, whole)
  {
    var n := Position(s.list, s.next);
    NewsTooSmall(s.list, n, limit);
    if |s.list| - n >= 2 {
      assert s.list[n..n + 1] == [s.list[n]];
      PieceInv(s, n + 1, GetNewsFeedPost(s.list, s.next, limit).value, start, first, whole);
    } else if |s.list| == n && limit == 0 {
      PieceInv(s, n, GetNewsFeedPost(s.list, s.next, limit).value, start, first, whole);
    }
  }

  /** No fetch of the newsfeed asks for more than 100 posts. */
  predicate NoLargeNews(es: seq<Event>) {
    forall e :: e in es ==> e.FetchNews? ==> e.limit <= 100
  }

  lemma {:induction false} RunInv(s: State, es: seq<Event>, start: set<Post>, first: seq<Post>, whole: bool)
    requires Inv(s, start, first, whole) && (whole ==> NoLargeNews(es))
    ensures Inv(Run(s, es), start, first, whole)
    decreases es
  {
    if es != [] {
      assert es[0] in es;
      match es[0] {
        case Insert(post) => if IsNew(s.list, post) { InsertInv(s, post, start, first, whole); }
        case FetchNextPage(limit) => if !s.done { FetchInv(s, limit, start, first, whole); }
        case FetchNews(limit) => if !s.done { NewsInv(s, limit, start, first, whole); }
      }
      forall e | e in es[1..] ensures e in es {}
      RunInv(Step(s, es[0]), es[1..], start, first, whole);
    }
  }

  lemma OldPrefix(list: seq<Post>, n: nat, start: set<Post>)
    requires n <= |list|
    ensures Old(list[..n], start) <= Old(list, start)
  {
    assert list == list[..n] + list[n..];
    OldConcat(list[..n], list[n..], start);
  }

  function Opened(list: seq<Post>): State {
    State(list, [], None, false)
  }

  /**
   However fetches of either kind interleave with new posts, wherever in the order these fall and whatever
   limits are asked for: no post is shown twice and the posts there at the start appear in their order
   without a gap. When the query says it is finished all of them have appeared, unless the newsfeed was
   asked for more than 100 at a time.
   */
  lemma PagingUnderWrites(list: seq<Post>, es: seq<Event>)
    requires Ordered(list)
    ensures var s := Run(Opened(list), es);
            && NoDuplicates(Flatten(s.pages))
            && Old(Flatten(s.pages), Elements(list)) <= list
            && (s.done && NoLargeNews(es) ==> Old(Flatten(s.pages), Elements(list)) == list)
  {
    var start, whole := Elements(list), NoLargeNews(es);
    OldAll(list, start);
    RunInv(Opened(list), es, start, list, whole);
    var s := Run(Opened(list), es);
    if !s.done {
      OldPrefix(s.list, Position(s.list, s.next), start);
    }
  }

  /** A new post, with an id and a time of its own, enters the list; nothing ever leaves it. */
  lemma {:induction false} PostsEnter(s: State, es: seq<Event>, p: Post)
    ensures p in s.list ==> p in Run(s, es).list
    ensures es != [] && es[0] == Insert(p) && IsNew(s.list, p) ==> p in Run(s, es).list
    ensures p in Run(s, es).list ==> p in s.list || Insert(p) in es
    decreases es
  {
    if es != [] {
      var list := s.list;
      if es[0].Insert? { assert list == list[..Place(list, es[0].post)] + list[Place(list, es[0].post)..]; }
      PostsEnter(Step(s, es[0]), es[1..], p);
    }
  }

  /** A page of user posts is a piece of the list from the cursor on; the last one reaches the end. */
  lemma UserPiece(s: State, limit: int)
    requires Ordered(s.list) && !s.done
    ensures var n, t := Position(s.list, s.next), Step(s, FetchNextPage(limit));
            var m := Min(n + Take(limit), |s.list|);
            && t.list == s.list && Flatten(t.pages) == Flatten(s.pages) + s.list[n..m]
            && (t.done <==> m == |s.list|) && (!t.done ==> Position(s.list, t.next) == m)
  {
    var n := Position(s.list, s.next);
    PageIs(s.list, n, limit);
    assert s.list[n..] == s.list[n..|s.list|];
    FlattenSnoc(s.pages, PageAt(s.list, n, limit).posts);
  }

  /** Where the next page of the newsfeed ends: nowhere further if the call throws. */
  function NewsEnd(s: State, limit: int): (m: nat)
    ensures Position(s.list, s.next) <= m <= |s.list|
  {
    var n := Position(s.list, s.next);
    if limit > 0 then Min(n + (if limit > 100 then 101 else limit), |s.list|)
    else if |s.list| - n >= 2 then n + 1
    else n
  }

  lemma NewsPiece(s: State, limit: int)
    requires Ordered(s.list) && !s.done
    ensures var n, m, t := Position(s.list, s.next), NewsEnd(s, limit), Step(s, FetchNews(limit));
            && t.list == s.list && Flatten(t.pages) == Flatten(s.pages) + s.list[n..m]
            && (!t.done ==> Position(s.list, t.next) == m)
  {
    var n, m := Position(s.list, s.next), NewsEnd(s, limit);
    if 1 <= limit <= 100 {
      NewsInRange(s.list, n, limit);
      UserPiece(s, limit);
    } else if limit > 100 {
      NewsTooLarge(s.list, n, limit);
      FlattenSnoc(s.pages, s.list[n..m]);
    } else {
      NewsTooSmall(s.list, n, limit);
      NewsSmallPiece(s, limit);
    }
  }

  lemma NewsSmallPiece(s: State, limit: int)
    requires Ordered(s.list) && !s.done && limit <= 0
    ensures var n, m := Position(s.list, s.next), NewsEnd(s, limit);
            Flatten(Step(s, FetchNews(limit)).pages) == Flatten(s.pages) + s.list[n..m]
  {
    var n, m := Position(s.list, s.next), NewsEnd(s, limit);
    NewsTooSmall(s.list, n, limit);
    assert m == n + 1 ==> s.list[n..m] == [s.list[n]];
    assert m == n ==> s.list[n..m] == [] && Flatten(s.pages) + [] == Flatten(s.pages);
    FlattenSnoc(s.pages, s.list[n..m]);
  }

  /** Pinned posts before the others, and in either group the newer one first. */
  ghost predicate NewestFirst(posts: seq<Post>) {
    forall i, j :: 0 <= i < j < |posts| ==>
      (posts[i].isPinned && !posts[j].isPinned)
      || (posts[i].isPinned == posts[j].isPinned && posts[i].createdAt > posts[j].createdAt)
  }

  lemma MoreNewestFirst(list: seq<Post>, n: nat, m: nat, shown: seq<Post>)
    requires Ordered(list) && n <= m <= |list| && NewestFirst(shown) && forall p :: p in shown ==> p in list[..n]
    ensures NewestFirst(shown + list[n..m])
  {
    var more := shown + list[n..m];
    forall i, j | 0 <= i < j < |more|
      ensures Before(more[i], more[j])
    {
      if j >= |shown| {
        assert more[j] == list[n + (j - |shown|)];
        if i >= |shown| {
          assert more[i] == list[n + (i - |shown|)];
          assert InOrder(list, n + (i - |shown|), n + (j - |shown|));
        } else {
          assert more[i] in shown && more[i] in list[..n];
          var x :| 0 <= x < n && list[x] == more[i];
          assert InOrder(list, x, n + (j - |shown|));
        }
      }
    }
  }

  lemma StepInv(s: State, e: Event, start: set<Post>, first: seq<Post>)
    requires Inv(s, start, first, false)
    ensures Inv(Step(s, e), start, first, false)
  {
    match e
    case Insert(post) => if IsNew(s.list, post) { InsertInv(s, post, start, first, false); }
    case FetchNextPage(limit) => if !s.done { FetchInv(s, limit, start, first, false); }
    case FetchNews(limit) => if !s.done { NewsInv(s, limit, start, first, false); }
  }

  lemma FetchNewestFirst(s: State, e: Event)
    requires Ordered(s.list) && !e.Insert? && !s.done
    requires NewestFirst(Flatten(s.pages))
    requires forall p :: p in Flatten(s.pages) ==> p in s.list[..Position(s.list, s.next)]
    ensures NewestFirst(Flatten(Step(s, e).pages))
  {
    var n := Position(s.list, s.next);
    if e.FetchNews? {
      NewsPiece(s, e.limit);
      MoreNewestFirst(s.list, n, NewsEnd(s, e.limit), Flatten(s.pages));
    } else {
      UserPiece(s, e.limit);
      MoreNewestFirst(s.list, n, Min(n + Take(e.limit), |s.list|), Flatten(s.pages));
    }
  }

  lemma {:induction false} RunNewestFirst(s: State, es: seq<Event>, start: set<Post>, first: seq<Post>)
    requires Inv(s, start, first, false) && NewestFirst(Flatten(s.pages))
    ensures NewestFirst(Flatten(Run(s, es).pages))
    decreases es
  {
    if es != [] {
      if !es[0].Insert? && !s.done { FetchNewestFirst(s, es[0]); }
      StepInv(s, es[0], start, first);
      RunNewestFirst(Step(s, es[0]), es[1..], start, first);
    }
  }

  /** However fetches and new posts interleave, what is shown is newest first after the pinned posts. */
  lemma ShownNewestFirst(list: seq<Post>, es: seq<Event>)
    requires NewestFirst(list) && forall i, j :: 0 <= i < j < |list| ==> list[i].id != list[j].id
    ensures NewestFirst(Flatten(Run(Opened(list), es).pages))
  {
    forall i, j ensures InOrder(list, i, j) {}
    OldAll(list, Elements(list));
    RunNewestFirst(Opened(list), es, Elements(list), list);
  }

  /** How many posts the fetches of user posts ask for, at least one and at most 100 each. */
  function Asked(es: seq<Event>): nat {
    if es == [] then 0 else (if es[0].FetchNextPage? then Take(es[0].limit) else 0) + Asked(es[1..])
  }

  function Inserts(es: seq<Event>): nat {
    if es == [] then 0 else (if es[0].Insert? then 1 else 0) + Inserts(es[1..])
  }

  function Remaining(s: State): nat {
    |s.list| - Position(s.list, s.next)
  }

  lemma StepRemaining(s: State, e: Event, start: set<Post>, first: seq<Post>)
    requires Inv(s, start, first, false) && !Step(s, e).done
    ensures !s.done && Remaining(Step(s, e)) + Asked([e]) <= Remaining(s) + Inserts([e])
  {
    assert [e][1..] == [];
    if e.Insert? {
      if IsNew(s.list, e.post) { PositionInserted(s.list, e.post, s.next); }
    } else if !s.done {
      if e.FetchNews? { NewsPiece(s, e.limit); } else { UserPiece(s, e.limit); }
    }
  }

  lemma {:induction false} RunRemaining(s: State, es: seq<Event>, start: set<Post>, first: seq<Post>)
    requires Inv(s, start, first, false) && !Run(s, es).done
    ensures !s.done && Remaining(Run(s, es)) + Asked(es) <= Remaining(s) + Inserts(es)
    decreases es
  {
    if es != [] {
      StepInv(s, es[0], start, first);
      RunRemaining(Step(s, es[0]), es[1..], start, first);
      StepRemaining(s, es[0], start, first);
      assert [es[0]][1..] == [];
    }
  }

  /** Scrolling ends: once more has been asked for than was there or was added meanwhile, the query is finished. */
  lemma ScrollingEnds(list: seq<Post>, es: seq<Event>)
    requires Ordered(list) && Asked(es) > |list| + Inserts(es)
    ensures Run(Opened(list), es).done
  {
    OldAll(list, Elements(list));
    if !Run(Opened(list), es).done { RunRemaining(Opened(list), es, Elements(list), list); }
  }

  /**
   A fetch of more than 100 ends the newsfeed. It has then shown all exactly if nothing old lies beyond the
   next 101.
   */
  lemma LargeNewsCompleteIff(s: State, limit: int, start: set<Post>, first: seq<Post>, whole: bool)
    requires Inv(s, start, first, whole) && !s.done && limit > 100
    ensures var t := Step(s, FetchNews(limit));
            var m := Min(Position(s.list, s.next) + 101, |s.list|);
            t.done && (Old(Flatten(t.pages), start) == first <==> Old(s.list[m..], start) == [])
  {
    var n := Position(s.list, s.next);
    var m := Min(n + 101, |s.list|);
    NewsTooLarge(s.list, n, limit);
    FlattenSnoc(s.pages, s.list[n..m]);
    CoverMore(s.list, n, m, Flatten(s.pages), start);
    OldConcat(s.list[..m], s.list[m..], start);
    assert s.list == s.list[..m] + s.list[m..];
  }

  // ---------------------------------------------------------------------------------------
  // Fetching user posts with no writes
  // ---------------------------------------------------------------------------------------

  /** Scroll to the end: the posts shown, and the number of calls. */
  function Scroll(list: seq<Post>, cursor: Option<PostId>, limit: int): (seq<Post>, nat)
    requires Ordered(list)
    decreases |list| - Position(list, cursor)
  {
    PageIs(list, Position(list, cursor), limit);
    var page := GetUserPosts(list, cursor, limit);
    if !page.hasMore then (page.posts, 1)
    else
      var (posts, calls) := Scroll(list, page.nextCursor, limit);
      (page.posts + posts, calls + 1)
  }

  /** `c` is max(1, ceil(n / take)). */
  predicate IsCeiling(c: nat, n: nat, take: nat) {
    c >= 1 && n <= c * take && (c > 1 ==> (c - 1) * take < n)
  }

  function Calls(n: nat, take: nat): nat
    requires take >= 1
  {
    if n <= take then 1 else 1 + Calls(n - take, take)
  }

  lemma {:induction false} CallsIsCeiling(n: nat, take: nat)
    requires take >= 1
    ensures IsCeiling(Calls(n, take), n, take)
  {
    if n > take {
      CallsIsCeiling(n - take, take);
      var c := Calls(n - take, take);
      assert (c + 1) * take == c * take + take;
      assert c * take == (c - 1) * take + take;
    }
  }

  /** One call of `getUserPosts`, and what is left to scroll. */
  lemma ScrollUnfolds(list: seq<Post>, cursor: Option<PostId>, limit: int) returns (next: Option<PostId>)
    requires Ordered(list)
    ensures var n, m := Position(list, cursor), Position(list, cursor) + Take(limit);
            if m < |list| then
              var rest := Scroll(list, next, limit);
              Position(list, next) == m && Scroll(list, cursor, limit) == (list[n..m] + rest.0, rest.1 + 1)
            else Scroll(list, cursor, limit) == (list[n..], 1)
  {
    PageIs(list, Position(list, cursor), limit);
    next := GetUserPosts(list, cursor, limit).nextCursor;
  }

  lemma SplitTail<T>(list: seq<T>, n: nat, m: nat)
    requires n <= m <= |list|
    ensures list[n..] == list[n..m] + list[m..]
  {}

  lemma {:induction false} ScrollFrom(list: seq<Post>, n: nat, cursor: Option<PostId>, limit: int)
    requires Ordered(list) && n == Position(list, cursor)
    ensures Scroll(list, cursor, limit).0 == list[n..]
    ensures Scroll(list, cursor, limit).1 == Calls(|list| - n, Take(limit))
    decreases |list| - n
  {
    var m := n + Take(limit);
    var next := ScrollUnfolds(list, cursor, limit);
    if m < |list| {
      ScrollFrom(list, m, next, limit);
      SplitTail(list, n, m);
    }
  }

  /** With no writes the pages concatenate to exactly the list, in max(1, ceil(n / take)) calls. */
  lemma ScrollShowsAll(list: seq<Post>, cursor: Option<PostId>, limit: int)
    requires Ordered(list)
    ensures Scroll(list, cursor, limit).0 == list[Position(list, cursor)..]
    ensures IsCeiling(Scroll(list, cursor, limit).1, |list| - Position(list, cursor), Take(limit))
  {
    ScrollFrom(list, Position(list, cursor), cursor, limit);
    CallsIsCeiling(|list| - Position(list, cursor), Take(limit));
  }

  // ---------------------------------------------------------------------------------------
  // Fetching the newsfeed with no writes
  // ---------------------------------------------------------------------------------------

  /** Each further page starts later, for any limit. */
  lemma NewsAdvances(list: seq<Post>, n: nat, limit: int)
    requires Ordered(list) && n <= |list|
    ensures var r := NewsAt(list, n, limit);
            r.Some? && r.value.hasMore ==> n < Position(list, r.value.nextCursor)
  {
    if 1 <= limit <= 100 {
      NewsInRange(list, n, limit);
      PageIs(list, n, limit);
    } else if limit <= 0 {
      NewsTooSmall(list, n, limit);
    } else {
      NewsTooLarge(list, n, limit);
    }
  }

  /** Scroll the newsfeed to the end; None if some call throws. */
  function NewsScroll(list: seq<Post>, cursor: Option<PostId>, limit: int): Option<seq<Post>>
    requires Ordered(list)
    decreases |list| - Position(list, cursor)
  {
    NewsAdvances(list, Position(list, cursor), limit);
    match GetNewsFeedPost(list, cursor, limit)
    case None => None
    case Some(page) =>
      if !page.hasMore then Some(page.posts)
      else
        match NewsScroll(list, page.nextCursor, limit)
        case None => None
        case Some(posts) => Some(page.posts + posts)
  }

  lemma {:induction false} NewsScrollInRange(list: seq<Post>, cursor: Option<PostId>, limit: int)
    requires Ordered(list) && 1 <= limit <= 100
    ensures NewsScroll(list, cursor, limit) == Some(list[Position(list, cursor)..])
    decreases |list| - Position(list, cursor)
  {
    var n := Position(list, cursor);
    NewsInRange(list, n, limit);
    PageIs(list, n, limit);
    var page := PageAt(list, n, limit);
    if page.hasMore {
      NewsScrollInRange(list, page.nextCursor, limit);
      SplitTail(list, n, n + limit);
    }
  }

  /** With a limit below one every non-empty feed ends in an error. */
  lemma {:induction false} NewsScrollTooSmall(list: seq<Post>, cursor: Option<PostId>, limit: int)
    requires Ordered(list) && (limit < 0 || (limit == 0 && Position(list, cursor) < |list|))
    ensures NewsScroll(list, cursor, limit) == None
    decreases |list| - Position(list, cursor)
  {
    var n := Position(list, cursor);
    NewsTooSmall(list, n, limit);
    if |list| - n >= 2 {
      NewsScrollTooSmall(list, Some(list[n].id), limit);
    }
  }

  /** Scrolling the newsfeed shows every post exactly when the limit lies in 1..100, or the list is short enough. */
  lemma NewsfeedCompleteIff(list: seq<Post>, limit: int)
    requires Ordered(list)
    ensures NewsScroll(list, None, limit) == Some(list)
            <==> 1 <= limit <= 100 || (limit > 100 && |list| <= 101) || (limit == 0 && list == [])
  {
    if 1 <= limit <= 100 {
      NewsScrollInRange(list, None, limit);
    } else if limit > 100 {
      NewsTooLarge(list, 0, limit);
      assert |list| <= 101 ==> list[0..Min(101, |list|)] == list;
    } else if limit < 0 || list != [] {
      NewsScrollTooSmall(list, None, limit);
    } else {
      NewsTooSmall(list, 0, limit);
    }
  }
}
