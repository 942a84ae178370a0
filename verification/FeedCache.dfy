/**
 The optimistic updates of threads-fe/src/hooks/useNewsfeed.tsx (`useLikePost`, `useRepost`) against the
 likes and reposts of the server (module Reactions): one user, nobody else acting, each toggle settled
 before the next.
 */
module FeedCache {
  import opened Collections
  import opened Counting
  import opened Reactions

  type QueryKey = nat

  /** A cached copy of a post. A flag that the server did not send is undefined. */
  datatype Copy = Copy(id: PostId, isLiked: Option<bool>, likes: int, isReposted: Option<bool>, reposts: int)

  type Pages = seq<seq<Copy>>

  /** The data of every cached query under a key prefix; a query without data yet is None. */
  type Queries = map<QueryKey, Option<Pages>>

  datatype Cache = Cache(newsfeed: Queries, userPosts: Queries)

  predicate Truthy(flag: Option<bool>) {
    flag == Some(true)
  }

  function Flipped(copy: Copy, kind: Kind): Copy {
    if kind == Like then
      copy.(isLiked := Some(!Truthy(copy.isLiked)), likes := copy.likes + (if Truthy(copy.isLiked) then -1 else 1))
    else
      copy.(isReposted := Some(!Truthy(copy.isReposted)),
          reposts := copy.reposts + (if Truthy(copy.isReposted) then -1 else 1))
  }

  function UpdatedPage(page: seq<Copy>, kind: Kind, p: PostId): seq<Copy> {
    seq(|page|, i requires 0 <= i < |page| => if page[i].id == p then Flipped(page[i], kind) else page[i])
  }

  function UpdatedPages(pages: Pages, kind: Kind, p: PostId): Pages {
    seq(|pages|, i requires 0 <= i < |pages| => UpdatedPage(pages[i], kind, p))
  }

  /** `setQueriesData`: the updater leaves undefined data alone. */
  function UpdatedQueries(q: Queries, kind: Kind, p: PostId): Queries {
    map k | k in q :: if q[k].None? then None else Some(UpdatedPages(q[k].value, kind, p))
  }

  /** `onMutate`. */
  function Mutated(cache: Cache, kind: Kind, p: PostId): Cache {
    Cache(UpdatedQueries(cache.newsfeed, kind, p), UpdatedQueries(cache.userPosts, kind, p))
  }

  /** `onError`: set every query of the snapshot back; `setQueryData` ignores undefined. */
  function Restored(q: Queries, snapshot: Queries): Queries {
    map k | k in q.Keys + Defined(snapshot) :: if k in Defined(snapshot) then snapshot[k] else q[k]
  }

  function Defined(q: Queries): set<QueryKey> {
    set k | k in q && q[k].Some?
  }

  // ---------------------------------------------------------------------------------------
  // Client and server together
  // ---------------------------------------------------------------------------------------

  /** What the browser holds, and the server. */
  datatype Screen = Screen(cache: Cache, db: Db)

  datatype Event =
    | FetchNewsfeed(key: QueryKey, ids: seq<PostId>)      // one more page of posts as they are now
    | FetchUserPosts(key: QueryKey, ids: seq<PostId>)
    | TogglePost(kind: Kind, post: PostId, notified: bool)

  function NewsCopy(db: Db, me: UserId, p: PostId): Copy
    requires p in db.posts
  {
    Copy(p, Some((me, p) in db.likes), db.posts[p].likeCount, Some((me, p) in db.reposts), db.posts[p].repostCount)
  }

  /** `getUserPosts` is called without the current user, so its posts come without the two flags. */
  function UserCopy(db: Db, p: PostId): Copy
    requires p in db.posts
  {
    Copy(p, None, db.posts[p].likeCount, None, db.posts[p].repostCount)
  }

  function WithPage(q: Queries, key: QueryKey, page: seq<Copy>): Queries {
    q[key := Some((if key in q && q[key].Some? then q[key].value else []) + [page])]
  }

  /** The mutation: optimistic update, the call, and on an error the rollback. */
  function OnToggle(s: Screen, me: UserId, kind: Kind, p: PostId, notified: bool): Screen {
    var (db, pc) := ToggleAlone(s.db, kind, me, p, notified);
    var shown := Mutated(s.cache, kind, p);
    if pc == On || pc == Off then Screen(shown, db)
    else Screen(Cache(Restored(shown.newsfeed, s.cache.newsfeed), Restored(shown.userPosts, s.cache.userPosts)), db)
  }

  predicate AllPublished(db: Db, ids: seq<PostId>) {
    forall p :: p in ids ==> p in db.posts
  }

  function Step(s: Screen, me: UserId, e: Event): Screen {
    match e
    case FetchNewsfeed(key, ids) =>
      if !AllPublished(s.db, ids) then s
      else
        var page := seq(|ids|, i requires 0 <= i < |ids| => NewsCopy(s.db, me, ids[i]));
        s.(cache := s.cache.(newsfeed := WithPage(s.cache.newsfeed, key, page)))
    case FetchUserPosts(key, ids) =>
      if !AllPublished(s.db, ids) then s
      else
        var page := seq(|ids|, i requires 0 <= i < |ids| => UserCopy(s.db, ids[i]));
        s.(cache := s.cache.(userPosts := WithPage(s.cache.userPosts, key, page)))
    case TogglePost(kind, p, notified) => OnToggle(s, me, kind, p, notified)
  }

  function Run(s: Screen, me: UserId, es: seq<Event>): Screen
    decreases es
  {
    if es == [] then s else Run(Step(s, me, es[0]), me, es[1..])
  }

  // ---------------------------------------------------------------------------------------
  // Agreement
  // ---------------------------------------------------------------------------------------

  ghost predicate Shows(q: Queries, k: QueryKey, i: int, j: int) {
    k in q && q[k].Some? && 0 <= i < |q[k].value| && 0 <= j < |q[k].value[i]|
  }

  /** Every cached newsfeed copy of a post says what the server says. */
  ghost predicate Agrees(s: Screen, me: UserId) {
    forall k, i, j :: Shows(s.cache.newsfeed, k, i, j) ==>
      var copy := s.cache.newsfeed[k].value[i][j];
      copy.id in s.db.posts && copy == NewsCopy(s.db, me, copy.id)
  }

  ghost predicate Inv(s: Screen, me: UserId) {
    Consistent(s.db) && Agrees(s, me)
  }

  /** A toggle moves the server's answer for the post as `Flipped` moves the copy, and no other post's. */
  lemma FlipFollowsServer(db: Db, me: UserId, kind: Kind, p: PostId, notified: bool, q: PostId)
    requires q in db.posts
    ensures var (db1, pc) := ToggleAlone(db, kind, me, p, notified);
            && q in db1.posts
            && (pc == On || pc == Off ==>
                  NewsCopy(db1, me, q) == if q == p then Flipped(NewsCopy(db, me, q), kind) else NewsCopy(db, me, q))
            && (pc != On && pc != Off ==> db1 == db)
  {
    AloneFlips(db, kind, me, p, notified);
  }

  /** Rolling back restores the cache exactly. */
  lemma RollbackIsExact(q: Queries, kind: Kind, p: PostId)
    ensures Restored(UpdatedQueries(q, kind, p), q) == q
  {}

  lemma ToggleInv(s: Screen, me: UserId, kind: Kind, p: PostId, notified: bool)
    requires Inv(s, me)
    ensures Inv(OnToggle(s, me, kind, p, notified), me)
  {
    var (db, pc) := ToggleAlone(s.db, kind, me, p, notified);
    var t := OnToggle(s, me, kind, p, notified);
    AloneFlips(s.db, kind, me, p, notified);
    if pc == On || pc == Off {
      forall k, i, j | Shows(t.cache.newsfeed, k, i, j)
        ensures var copy := t.cache.newsfeed[k].value[i][j]; copy.id in db.posts && copy == NewsCopy(db, me, copy.id)
      {
        assert Shows(s.cache.newsfeed, k, i, j);
        FlipFollowsServer(s.db, me, kind, p, notified, s.cache.newsfeed[k].value[i][j].id);
      }
    } else {
      RollbackIsExact(s.cache.newsfeed, kind, p);
    }
  }

  lemma FetchInv(s: Screen, me: UserId, e: Event)
    requires Inv(s, me) && !e.TogglePost?
    ensures Inv(Step(s, me, e), me)
  {
    var t := Step(s, me, e);
    forall k, i, j | Shows(t.cache.newsfeed, k, i, j)
      ensures var copy := t.cache.newsfeed[k].value[i][j]; copy.id in t.db.posts && copy == NewsCopy(t.db, me, copy.id)
    {
      if Shows(s.cache.newsfeed, k, i, j) {
        assert t.cache.newsfeed[k].value[i] == s.cache.newsfeed[k].value[i];
      }
    }
  }

  lemma {:induction false} RunInv(s: Screen, me: UserId, es: seq<Event>)
    requires Inv(s, me)
    ensures Inv(Run(s, me, es), me)
    decreases es
  {
    if es != [] {
      if es[0].TogglePost? {
        ToggleInv(s, me, es[0].kind, es[0].post, es[0].notified);
      } else {
        FetchInv(s, me, es[0]);
      }
      RunInv(Step(s, me, es[0]), me, es[1..]);
    }
  }

  /**
   After every sequence of fetches and toggles, every newsfeed copy shows whether the user likes and
   reposts the post, and how many like and repost rows the server holds for it.
   */
  lemma NewsfeedShowsTheServer(db: Db, me: UserId, es: seq<Event>)
    requires Consistent(db)
    ensures var s := Run(Screen(Cache(map[], map[]), db), me, es);
            forall k, i, j :: Shows(s.cache.newsfeed, k, i, j) ==>
              var copy := s.cache.newsfeed[k].value[i][j];
              && copy.isLiked == Some((me, copy.id) in s.db.likes) && copy.likes == |To(s.db.likes, copy.id)|
              && copy.isReposted == Some((me, copy.id) in s.db.reposts) && copy.reposts == |To(s.db.reposts, copy.id)|
  {
    RunInv(Screen(Cache(map[], map[]), db), me, es);
  }

  function PageIds(page: seq<Copy>): seq<PostId> {
    seq(|page|, i requires 0 <= i < |page| => page[i].id)
  }

  /** Which posts a query shows, page by page. */
  function ShownIds(q: Queries, key: QueryKey): seq<seq<PostId>> {
    if key !in q || q[key].None? then []
    else
      var pages := q[key].value;
      seq(|pages|, i requires 0 <= i < |pages| => PageIds(pages[i]))
  }

  /** The pages that were fetched for it, of posts that exist. */
  function Fetched(posts: set<PostId>, es: seq<Event>, key: QueryKey): seq<seq<PostId>> {
    if es == [] then []
    else
      var mine := es[0].FetchNewsfeed? && es[0].key == key && forall p :: p in es[0].ids ==> p in posts;
      (if mine then [es[0].ids] else []) + Fetched(posts, es[1..], key)
  }

  /** The server after these toggles, one after the other. */
  function Served(db: Db, me: UserId, es: seq<Event>): Db
    decreases es
  {
    if es == [] then db
    else if es[0].TogglePost? then
      Served(ToggleAlone(db, es[0].kind, me, es[0].post, es[0].notified).0, me, es[1..])
    else Served(db, me, es[1..])
  }

  lemma {:induction false} RunServes(s: Screen, me: UserId, es: seq<Event>)
    ensures Run(s, me, es).db == Served(s.db, me, es)
    decreases es
  {
    if es != [] {
      RunServes(Step(s, me, es[0]), me, es[1..]);
    }
  }

  lemma UpdateKeepsIds(q: Queries, kind: Kind, p: PostId, key: QueryKey)
    ensures ShownIds(UpdatedQueries(q, kind, p), key) == ShownIds(q, key)
  {
    if key in q && q[key].Some? {
      var pages := q[key].value;
      forall i | 0 <= i < |pages|
        ensures PageIds(UpdatedPages(pages, kind, p)[i]) == PageIds(pages[i])
      {}
    }
  }

  lemma ToggleShows(s: Screen, me: UserId, kind: Kind, p: PostId, notified: bool, key: QueryKey)
    ensures var t := OnToggle(s, me, kind, p, notified);
            t.db.posts.Keys == s.db.posts.Keys && ShownIds(t.cache.newsfeed, key) == ShownIds(s.cache.newsfeed, key)
  {
    AloneFlips(s.db, kind, me, p, notified);
    UpdateKeepsIds(s.cache.newsfeed, kind, p, key);
    RollbackIsExact(s.cache.newsfeed, kind, p);
  }

  lemma PageShows(db: Db, me: UserId, q: Queries, k: QueryKey, ids: seq<PostId>, key: QueryKey)
    requires AllPublished(db, ids)
    ensures var page := seq(|ids|, i requires 0 <= i < |ids| => NewsCopy(db, me, ids[i]));
            ShownIds(WithPage(q, k, page), key) == ShownIds(q, key) + if k == key then [ids] else []
  {
    var page := seq(|ids|, i requires 0 <= i < |ids| => NewsCopy(db, me, ids[i]));
    assert PageIds(page) == ids;
  }

  lemma StepShows(s: Screen, me: UserId, e: Event, key: QueryKey)
    ensures var t := Step(s, me, e);
            && t.db.posts.Keys == s.db.posts.Keys
            && ShownIds(t.cache.newsfeed, key) == ShownIds(s.cache.newsfeed, key) + Fetched(s.db.posts.Keys, [e], key)
  {
    assert [e][1..] == [] && ShownIds(s.cache.newsfeed, key) + [] == ShownIds(s.cache.newsfeed, key);
    match e
    case FetchNewsfeed(k, ids) => if AllPublished(s.db, ids) { PageShows(s.db, me, s.cache.newsfeed, k, ids, key); }
    case FetchUserPosts(_, _) =>
    case TogglePost(kind, p, notified) => ToggleShows(s, me, kind, p, notified, key);
  }

  lemma {:induction false} RunShows(s: Screen, me: UserId, es: seq<Event>, key: QueryKey)
    ensures ShownIds(Run(s, me, es).cache.newsfeed, key)
         == ShownIds(s.cache.newsfeed, key) + Fetched(s.db.posts.Keys, es, key)
    decreases es
  {
    if es != [] {
      var t, posts := Step(s, me, es[0]), s.db.posts.Keys;
      StepShows(s, me, es[0], key);
      RunShows(t, me, es[1..], key);
      FetchedOne(posts, es, key);
    }
  }

  lemma FetchedOne(posts: set<PostId>, es: seq<Event>, key: QueryKey)
    requires es != []
    ensures Fetched(posts, es, key) == Fetched(posts, [es[0]], key) + Fetched(posts, es[1..], key)
  {
    assert [es[0]][1..] == [];
  }

  /**
   After every sequence of fetches and toggles a newsfeed shows exactly the posts fetched for it, in order, and
   the server is where the toggles alone take it.
   */
  lemma NewsfeedShowsWhatWasFetched(db: Db, me: UserId, es: seq<Event>, key: QueryKey)
    ensures var s := Run(Screen(Cache(map[], map[]), db), me, es);
            ShownIds(s.cache.newsfeed, key) == Fetched(db.posts.Keys, es, key) && s.db == Served(db, me, es)
  {
    RunShows(Screen(Cache(map[], map[]), db), me, es, key);
    RunServes(Screen(Cache(map[], map[]), db), me, es);
  }

  /** A toggle that fails leaves cache and server as they were, whatever was cached. */
  lemma FailureRestoresAll(s: Screen, me: UserId, kind: Kind, p: PostId, notified: bool)
    requires ToggleAlone(s.db, kind, me, p, notified).1 == Failed
    ensures OnToggle(s, me, kind, p, notified) == s
  {
    AloneFlips(s.db, kind, me, p, notified);
    RollbackIsExact(s.cache.newsfeed, kind, p);
    RollbackIsExact(s.cache.userPosts, kind, p);
  }

  /**
   When the toggle goes through but its answer is lost, the rollback leaves the newsfeed right exactly if
   it shows no copy of the post.
   */
  lemma LostAnswerRightIff(s: Screen, me: UserId, kind: Kind, p: PostId, notified: bool)
    requires Agrees(s, me) && ToggleAlone(s.db, kind, me, p, notified).1 in {On, Off}
    ensures var shown := Mutated(s.cache, kind, p);
            var cache := Cache(Restored(shown.newsfeed, s.cache.newsfeed),
                Restored(shown.userPosts, s.cache.userPosts));
            Agrees(Screen(cache, ToggleAlone(s.db, kind, me, p, notified).0), me)
            <==> forall k, i, j :: Shows(s.cache.newsfeed, k, i, j) ==> s.cache.newsfeed[k].value[i][j].id != p
  {
    RollbackIsExact(s.cache.newsfeed, kind, p);
    RollbackIsExact(s.cache.userPosts, kind, p);
    forall k, i, j | Shows(s.cache.newsfeed, k, i, j)
      ensures var copy := s.cache.newsfeed[k].value[i][j]; var db := ToggleAlone(s.db, kind, me, p, notified).0;
              copy.id in db.posts && (copy == NewsCopy(db, me, copy.id) <==> copy.id != p)
    {
      FlipFollowsServer(s.db, me, kind, p, notified, s.cache.newsfeed[k].value[i][j].id);
    }
  }

  /**
   On a profile page, whose copies come without flags, the first toggle of a post shows the server's state
   afterwards exactly if the user had not reacted before: undefined counts as "not yet".
   */
  lemma ProfileCopyRightIff(db: Db, me: UserId, kind: Kind, p: PostId, notified: bool)
    requires p in db.posts && ToggleAlone(db, kind, me, p, notified).1 in {On, Off}
    ensures var db1 := ToggleAlone(db, kind, me, p, notified).0;
            var shown := Flipped(UserCopy(db, p), kind);
            && p in db1.posts
            && ((if kind == Like then shown.isLiked == Some((me, p) in db1.likes)
                && shown.likes == db1.posts[p].likeCount
                 else shown.isReposted == Some((me, p) in db1.reposts) && shown.reposts == db1.posts[p].repostCount)
                <==> (me, p) !in Rows(db, kind))
  {
    AloneFlips(db, kind, me, p, notified);
  }

  // ---------------------------------------------------------------------------------------
  // Profile pages over whole runs
  // ---------------------------------------------------------------------------------------

  function Flag(copy: Copy, kind: Kind): bool {
    Truthy(if kind == Like then copy.isLiked else copy.isReposted)
  }

  function ShownCount(copy: Copy, kind: Kind): int {
    if kind == Like then copy.likes else copy.reposts
  }

  predicate Reacted(db: Db, me: UserId, p: PostId, kind: Kind) {
    (me, p) in Rows(db, kind)
  }

  /** The count of a profile copy is the server's, or two too high when the flag is set and the user has not reacted. */
  ghost predicate CountDrifts(db: Db, me: UserId, copy: Copy, kind: Kind) {
    && copy.id in db.posts
    && ShownCount(copy, kind)
       == Count(db.posts[copy.id], kind) + (if Flag(copy, kind) && !Reacted(db, me, copy.id, kind) then 2 else 0)
  }

  ghost predicate ProfileOk(s: Screen, me: UserId) {
    forall k, i, j, kind :: Shows(s.cache.userPosts, k, i, j)
        ==> CountDrifts(s.db, me, s.cache.userPosts[k].value[i][j], kind)
  }

  predicate FlagIsRight(db: Db, me: UserId, copy: Copy, kind: Kind) {
    Flag(copy, kind) == Reacted(db, me, copy.id, kind)
  }

  /** A settled toggle keeps both the drift of the count and whether the flag is right. */
  lemma ToggleKeepsDrift(db: Db, me: UserId, toggled: Kind, p: PostId, notified: bool, copy: Copy, kind: Kind)
    requires CountDrifts(db, me, copy, kind) && ToggleAlone(db, toggled, me, p, notified).1 in {On, Off}
    ensures var db1 := ToggleAlone(db, toggled, me, p, notified).0;
            var copy1 := if copy.id == p then Flipped(copy, toggled) else copy;
            CountDrifts(db1, me, copy1, kind)
                && (FlagIsRight(db1, me, copy1, kind) <==> FlagIsRight(db, me, copy, kind))
  {
    AloneFlips(db, toggled, me, p, notified);
  }

  /** One event keeps a profile copy where it is, and keeps its flag right or wrong. */
  lemma StepKeepsCopy(s: Screen, me: UserId, e: Event, k: QueryKey, i: nat, j: nat, kind: Kind)
    requires ProfileOk(s, me) && Shows(s.cache.userPosts, k, i, j)
    ensures var t := Step(s, me, e);
            && Shows(t.cache.userPosts, k, i, j)
            && t.cache.userPosts[k].value[i][j].id == s.cache.userPosts[k].value[i][j].id
            && CountDrifts(t.db, me, t.cache.userPosts[k].value[i][j], kind)
            && (FlagIsRight(t.db, me, t.cache.userPosts[k].value[i][j], kind)
                <==> FlagIsRight(s.db, me, s.cache.userPosts[k].value[i][j], kind))
  {
    var copy := s.cache.userPosts[k].value[i][j];
    assert CountDrifts(s.db, me, copy, kind);
    if e.TogglePost? {
      if ToggleAlone(s.db, e.kind, me, e.post, e.notified).1 in {On, Off} {
        ToggleKeepsDrift(s.db, me, e.kind, e.post, e.notified, copy, kind);
      } else {
        AloneFlips(s.db, e.kind, me, e.post, e.notified);
        RollbackIsExact(s.cache.userPosts, e.kind, e.post);
      }
    }
  }

  lemma StepProfile(s: Screen, me: UserId, e: Event)
    requires ProfileOk(s, me)
    ensures ProfileOk(Step(s, me, e), me)
  {
    var t := Step(s, me, e);
    forall k, i, j, kind | Shows(t.cache.userPosts, k, i, j)
      ensures CountDrifts(t.db, me, t.cache.userPosts[k].value[i][j], kind)
    {
      if Shows(s.cache.userPosts, k, i, j) {
        StepKeepsCopy(s, me, e, k, i, j, kind);
      } else {
        NewProfileCopy(s, me, e, k, i, j);
      }
    }
  }

  /** A copy that was not there before comes from a fetch, without flags and with the server's counts. */
  lemma NewProfileCopy(s: Screen, me: UserId, e: Event, k: QueryKey, i: int, j: int)
    requires Shows(Step(s, me, e).cache.userPosts, k, i, j) && !Shows(s.cache.userPosts, k, i, j)
    ensures var t := Step(s, me, e);
            var copy := t.cache.userPosts[k].value[i][j];
            t.db == s.db && copy.id in s.db.posts && copy == UserCopy(s.db, copy.id)
  {
    if e.TogglePost? {
      RollbackIsExact(s.cache.userPosts, e.kind, e.post);
      assert false;
    }
  }

  lemma {:induction false} RunKeepsCopy(s: Screen, me: UserId, es: seq<Event>, k: QueryKey, i: nat, j: nat, kind: Kind)
    requires ProfileOk(s, me) && Shows(s.cache.userPosts, k, i, j)
    ensures var t := Run(s, me, es);
            && ProfileOk(t, me) && Shows(t.cache.userPosts, k, i, j)
            && t.cache.userPosts[k].value[i][j].id == s.cache.userPosts[k].value[i][j].id
            && (FlagIsRight(t.db, me, t.cache.userPosts[k].value[i][j], kind)
                <==> FlagIsRight(s.db, me, s.cache.userPosts[k].value[i][j], kind))
    decreases es
  {
    if es != [] {
      StepKeepsCopy(s, me, es[0], k, i, j, kind);
      StepProfile(s, me, es[0]);
      RunKeepsCopy(Step(s, me, es[0]), me, es[1..], k, i, j, kind);
    }
  }

  lemma {:induction false} RunProfile(s: Screen, me: UserId, es: seq<Event>)
    requires ProfileOk(s, me)
    ensures ProfileOk(Run(s, me, es), me)
    decreases es
  {
    if es != [] {
      StepProfile(s, me, es[0]);
      RunProfile(Step(s, me, es[0]), me, es[1..]);
    }
  }

  /** In every run, every count on a profile page is the server's, or two too high. */
  lemma ProfileCountsDriftByTwo(db: Db, me: UserId, es: seq<Event>)
    ensures ProfileOk(Run(Screen(Cache(map[], map[]), db), me, es), me)
  {
    RunProfile(Screen(Cache(map[], map[]), db), me, es);
  }

  /**
   However often it is toggled afterwards, a fetched profile copy shows the right flag exactly if the user had
   not reacted then.
   */
  lemma ProfileRightForEverIff(s: Screen, me: UserId, key: QueryKey, ids: seq<PostId>, j: nat, es: seq<Event>,
        kind: Kind)
    requires ProfileOk(s, me) && AllPublished(s.db, ids) && j < |ids|
    ensures var u := Step(s, me, FetchUserPosts(key, ids));
            var t := Run(u, me, es);
            && key in u.cache.userPosts && u.cache.userPosts[key].Some? && |u.cache.userPosts[key].value| > 0
            && var i := |u.cache.userPosts[key].value| - 1;
               Shows(t.cache.userPosts, key, i, j)
               && (FlagIsRight(t.db, me, t.cache.userPosts[key].value[i][j], kind)
                   <==> !Reacted(s.db, me, ids[j], kind))
  {
    var e := FetchUserPosts(key, ids);
    var u := Step(s, me, e);
    var i := |u.cache.userPosts[key].value| - 1;
    StepProfile(s, me, e);
    assert ids[j] in ids && u.cache.userPosts[key].value[i][j] == UserCopy(s.db, ids[j]);
    RunKeepsCopy(u, me, es, key, i, j, kind);
  }

  // ---------------------------------------------------------------------------------------
  // The query cache that the mutation overwrites
  // ---------------------------------------------------------------------------------------

  class QueryCache {
    var newsfeed: Queries
    var userPosts: Queries

    ghost function View(): Cache
      reads this
    {
      Cache(newsfeed, userPosts)
    }

    constructor ()
      ensures View() == Cache(map[], map[])
    {
      newsfeed, userPosts := map[], map[];
    }

    /** Snapshot, then update both families of queries. */
    method OnMutate(kind: Kind, p: PostId) returns (previousNewsfeed: Queries, previousUserPosts: Queries)
      modifies this
      ensures Cache(previousNewsfeed, previousUserPosts) == old(View())
      ensures View() == Mutated(old(View()), kind, p)
    {
      previousNewsfeed, previousUserPosts := newsfeed, userPosts;
      newsfeed := UpdatedQueries(newsfeed, kind, p);
      userPosts := UpdatedQueries(userPosts, kind, p);
    }

    method OnError(previousNewsfeed: Queries, previousUserPosts: Queries)
      modifies this
      ensures newsfeed == Restored(old(newsfeed), previousNewsfeed)
      ensures userPosts == Restored(old(userPosts), previousUserPosts)
    {
      newsfeed := Restored(newsfeed, previousNewsfeed);
      userPosts := Restored(userPosts, previousUserPosts);
    }

    /** The whole mutation, given whether the call succeeds. */
    method Mutate(kind: Kind, p: PostId, ok: bool)
      modifies this
      ensures View() == if ok then Mutated(old(View()), kind, p) else old(View())
    {
      var previousNewsfeed, previousUserPosts := OnMutate(kind, p);
      if !ok {
        RollbackIsExact(previousNewsfeed, kind, p);
        RollbackIsExact(previousUserPosts, kind, p);
        OnError(previousNewsfeed, previousUserPosts);
      }
    }
  }
}
