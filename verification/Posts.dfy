/**
 `createSync` and `delete` of threads-be/src/modules/posts/posts.service.ts as interleaved calls over
 the reply forest and the image store. A call uploads or reads first, then runs its transaction, then
 schedules the clean-up; the clean-up worker may run at any time. Media rows hold the URLs of their keys,
 so a delete schedules the keys that it reads back from URLs (module Urls).
 */
module Posts {
  import opened Collections
  import opened Forest
  import opened Urls

  type CallId = nat
  type Back = Key -> Key

  datatype Call =
    | Uploaded(owner: UserId, parent: Option<PostId>, root: Option<PostId>, keys: set<Key>)  // images stored only
    | RolledBack(keys: set<Key>)                     // the transaction failed; clean-up not yet scheduled
    | Reading(post: PostId, keys: set<Key>)          // `delete` found the row and its media
    | Deleted(keys: set<Key>)                        // its transaction committed; clean-up not yet scheduled
    | Ended

  /**
   `objects` are the keys in the store, `used` all keys ever generated, `scheduled` those handed to
   the clean-up queue. `strays` records keys that nobody can know about any more: a partly failed
   upload, media rows that disappeared in a cascade, keys that did not come back from their URL, and a
   clean-up that could not be scheduled. `back` gives the key that is read back from the URL of a key; it
   depends on the configuration alone, and no event changes it.
   */
  datatype State = State(
    back: Back,
    posts: Posts,
    next: PostId,
    objects: set<Key>,
    used: set<Key>,
    scheduled: set<Key>,
    strays: set<Key>,
    calls: map<CallId, Call>)

  datatype Event =
    | Upload(c: CallId, owner: UserId, parent: Option<PostId>, root: Option<PostId>, keys: set<Key>)
    | UploadFails(keys: set<Key>)
    | Commit(c: CallId)
    | Abort(c: CallId)                               // the transaction fails for a reason of its own
    | Read(c: CallId, post: PostId, user: UserId)
    | Remove(c: CallId)
    | Schedule(c: CallId)
    | ScheduleFails(c: CallId)                       // the queue refuses the job and the call throws
    | Clean(keys: set<Key>)

  function Init(back: Back): State {
    State(back, map[], 0, {}, {}, {}, {}, map[])
  }

  predicate KeysExist(posts: Posts, parent: Option<PostId>, root: Option<PostId>) {
    (parent.Some? ==> parent.value in posts) && (root.Some? ==> root.value in posts)
  }

  /** `createSync`'s transaction: a missing parent or root is a foreign key error and rolls back. */
  function OnCommit(s: State, c: CallId): State
    requires c in s.calls && s.calls[c].Uploaded?
  {
    var Uploaded(owner, parent, root, keys) := s.calls[c];
    if KeysExist(s.posts, parent, root) then
      s.(posts := Inserted(s.posts, s.next, owner, parent, root, keys), next := s.next + 1,
          calls := s.calls[c := Ended])
    else
      s.(calls := s.calls[c := RolledBack(keys)])
  }

  /** Media that goes with the rows of the cascade other than `p`'s own. */
  ghost function CascadedMedia(posts: Posts, p: PostId): set<Key>
    requires WellFormed(posts)
  {
    set q, k | q in Cascade(posts, p) && q != p && k in posts[q].media :: k
  }

  /** Keys of one post's media that are not among those read back from its URLs. */
  function LostMedia(back: Back, media: set<Key>): set<Key> {
    media - ReadBackAll(back, media)
  }

  /** `delete`'s transaction: if the row is gone meanwhile it rolls back and the call throws. */
  ghost function OnRemove(s: State, c: CallId): State
    requires WellFormed(s.posts) && c in s.calls && s.calls[c].Reading?
  {
    var Reading(p, keys) := s.calls[c];
    if p in s.posts then
      s.(posts := Removed(s.posts, p),
         strays := s.strays + CascadedMedia(s.posts, p) + LostMedia(s.back, s.posts[p].media),
         calls := s.calls[c := Deleted(keys)])
    else
      s.(calls := s.calls[c := Ended])
  }

  ghost predicate Enabled(s: State, e: Event) {
    match e
    case Upload(c, _, _, _, keys) => c !in s.calls && keys !! s.used
    case UploadFails(keys) => keys !! s.used
    case Commit(c) => c in s.calls && s.calls[c].Uploaded?
    case Abort(c) => c in s.calls && s.calls[c].Uploaded?
    case Read(c, p, user) => c !in s.calls && p in s.posts && s.posts[p].owner == user
    case Remove(c) => c in s.calls && s.calls[c].Reading?
    case Schedule(c) => c in s.calls && (s.calls[c].RolledBack? || s.calls[c].Deleted?)
    case ScheduleFails(c) => c in s.calls && (s.calls[c].RolledBack? || s.calls[c].Deleted?)
    case Clean(keys) => keys <= s.scheduled
  }

  ghost function Effect(s: State, e: Event): State
    requires WellFormed(s.posts) && Enabled(s, e)
  {
    match e
    case Upload(c, owner, parent, root, keys) =>
      s.(objects := s.objects + keys, used := s.used + keys, calls := s.calls[c := Uploaded(owner, parent, root, keys)])
    case UploadFails(keys) =>
      s.(objects := s.objects + keys, used := s.used + keys, strays := s.strays + keys)
    case Commit(c) => OnCommit(s, c)
    case Abort(c) => s.(calls := s.calls[c := RolledBack(s.calls[c].keys)])
    case Read(c, p, _) => s.(calls := s.calls[c := Reading(p, ReadBackAll(s.back, s.posts[p].media))])
    case Remove(c) => OnRemove(s, c)
    case Schedule(c) => s.(scheduled := s.scheduled + s.calls[c].keys, calls := s.calls[c := Ended])
    case ScheduleFails(c) => s.(strays := s.strays + s.calls[c].keys, calls := s.calls[c := Ended])
    case Clean(keys) => s.(objects := s.objects - keys)
  }

  /** The tables never lose their foreign keys, so the guard is always true (RunForest). */
  ghost function Step(s: State, e: Event): State {
    if WellFormed(s.posts) && Enabled(s, e) then Effect(s, e) else s
  }

  ghost function Run(s: State, es: seq<Event>): State
    decreases es
  {
    if es == [] then s else Run(Step(s, es[0]), es[1..])
  }

  // ---------------------------------------------------------------------------------------
  // Reply counts
  // ---------------------------------------------------------------------------------------

  ghost predicate ForestInv(s: State) {
    WellFormed(s.posts) && (forall q :: q in s.posts ==> q < s.next) && CountsCover(s.posts)
  }

  /** Only the transactions of a create and of a delete touch the table. */
  lemma TableUnchanged(s: State, e: Event)
    requires !(e.Commit? || e.Remove?) || !Enabled(s, e)
    ensures Step(s, e).posts == s.posts && Step(s, e).next == s.next
  {}

  lemma StepForest(s: State, e: Event)
    requires ForestInv(s)
    ensures ForestInv(Step(s, e))
  {
    if e.Commit? && Enabled(s, e) {
      var Uploaded(owner, parent, root, keys) := s.calls[e.c];
      if KeysExist(s.posts, parent, root) {
        InsertedRows(s.posts, s.next, owner, parent, root, keys);
        InsertedCounts(s.posts, s.next, owner, parent, root, keys);
      }
    } else if e.Remove? && Enabled(s, e) {
      if s.calls[e.c].post in s.posts {
        RemovedRows(s.posts, s.calls[e.c].post);
        RemovedCover(s.posts, s.calls[e.c].post);
      }
    } else {
      TableUnchanged(s, e);
    }
  }

  /** For every run and whatever roots callers send: foreign keys hold and no reply count is too low. */
  lemma {:induction false} RunForest(s: State, es: seq<Event>)
    requires ForestInv(s)
    ensures ForestInv(Run(s, es))
    decreases es
  {
    if es != [] {
      StepForest(s, es[0]);
      RunForest(Step(s, es[0]), es[1..]);
    }
  }

  /** If the step is a create that commits, its root is null or an ancestor of the new post. */
  ghost predicate HonestRoot(s: State, e: Event) {
    WellFormed(s.posts) && e.Commit? && Enabled(s, e) ==>
      var call := s.calls[e.c];
      KeysExist(s.posts, call.parent, call.root) && call.root.Some? ==>
        call.parent.Some? && Below(s.posts, call.root.value, call.parent.value)
  }

  ghost predicate HonestRoots(s: State, es: seq<Event>)
    decreases es
  {
    es == [] || (HonestRoot(s, es[0]) && HonestRoots(Step(s, es[0]), es[1..]))
  }

  ghost predicate ExactInv(s: State) {
    ForestInv(s) && RootsAreAncestors(s.posts) && CountsAreRight(s.posts)
  }

  lemma StepExact(s: State, e: Event)
    requires ExactInv(s) && HonestRoot(s, e)
    ensures ExactInv(Step(s, e))
  {
    StepForest(s, e);
    if e.Commit? && Enabled(s, e) {
      var Uploaded(owner, parent, root, keys) := s.calls[e.c];
      if KeysExist(s.posts, parent, root) {
        InsertedCounts(s.posts, s.next, owner, parent, root, keys);
        InsertedRoots(s.posts, s.next, owner, parent, root, keys);
      }
    } else if e.Remove? && Enabled(s, e) {
      var p := s.calls[e.c].post;
      if p in s.posts {
        RemovedRoots(s.posts, p);
        DeleteKeepsCountsIff(s.posts, p);
      }
    } else {
      TableUnchanged(s, e);
    }
  }

  lemma {:induction false} RunExact(s: State, es: seq<Event>)
    requires ExactInv(s) && HonestRoots(s, es)
    ensures ExactInv(Run(s, es))
    decreases es
  {
    if es != [] {
      StepExact(s, es[0]);
      RunExact(Step(s, es[0]), es[1..]);
    }
  }

  /**
   In every run whose roots are null or ancestors, every post's reply count is the number of its
   replies, and every delete removes exactly a subtree.
   */
  lemma ReplyCountsAreRight(back: Back, es: seq<Event>)
    requires HonestRoots(Init(back), es)
    ensures var s := Run(Init(back), es);
            && WellFormed(s.posts)
            && (forall x :: x in s.posts ==> s.posts[x].replyCount == |Children(s.posts, x)|)
            && (forall p :: p in s.posts ==> Cascade(s.posts, p) == Subtree(s.posts, p))
  {
    RunExact(Init(back), es);
    var s := Run(Init(back), es);
    forall p | p in s.posts
      ensures Cascade(s.posts, p) == Subtree(s.posts, p)
    {
      CascadeIsSubtree(s.posts, p);
    }
  }

  // ---------------------------------------------------------------------------------------
  // Stored files
  // ---------------------------------------------------------------------------------------

  ghost predicate OfPost(s: State, q: PostId, k: Key) {
    q in s.posts && k in s.posts[q].media
  }

  ghost predicate OfUpload(s: State, c: CallId, k: Key) {
    c in s.calls && s.calls[c].Uploaded? && k in s.calls[c].keys
  }

  /** The call still has to hand the key to the clean-up queue. */
  ghost predicate Discards(s: State, c: CallId, k: Key) {
    c in s.calls && (s.calls[c].RolledBack? || s.calls[c].Deleted?) && k in s.calls[c].keys
  }

  /** The key is stored, and nothing on its way to the clean-up worker names it. */
  ghost predicate Safe(s: State, k: Key) {
    && k in s.used && k in s.objects && k !in s.scheduled
    && (forall c :: !Discards(s, c, k))
  }

  /** Media rows are written once: what `delete` read is what the row still gives, if it is still there. */
  ghost predicate ReadIsCurrent(s: State, c: CallId) {
    c in s.calls && s.calls[c].Reading? ==>
      && s.calls[c].post < s.next
      && (s.calls[c].post in s.posts ==> ReadBackAll(s.back, s.posts[s.calls[c].post].media) == s.calls[c].keys)
  }

  ghost predicate ReadsInv(s: State) {
    forall c :: ReadIsCurrent(s, c)
  }

  /** The key was generated, or read back from one that was. */
  ghost predicate Named(s: State, k: Key) {
    exists l :: l in s.used && Names(s.back, l, k)
  }

  ghost predicate Names(back: Back, l: Key, k: Key) {
    l == k || back(l) == k
  }

  /** Keys of media rows and of uploads about to be written are safe, and no two of them share one. */
  ghost predicate FilesInv(s: State) {
    && (forall q, k :: OfPost(s, q, k) ==> Safe(s, k))
    && (forall c, k :: OfUpload(s, c, k) ==> Safe(s, k))
    && (forall q, r, k :: OfPost(s, q, k) && OfPost(s, r, k) ==> q == r)
    && (forall c, d, k :: OfUpload(s, c, k) && OfUpload(s, d, k) ==> c == d)
    && (forall q, c, k :: OfPost(s, q, k) && OfUpload(s, c, k) ==> false)
    && (forall c, k :: Discards(s, c, k) ==> Named(s, k))
    && (forall k :: k in s.scheduled ==> Named(s, k))
  }

  lemma StepReads(s: State, e: Event)
    requires ForestInv(s) && ReadsInv(s)
    ensures ReadsInv(Step(s, e))
  {
    var t := Step(s, e);
    if Enabled(s, e) {
      if e.Commit? {
        var Uploaded(owner, parent, root, keys) := s.calls[e.c];
        if KeysExist(s.posts, parent, root) { InsertedRows(s.posts, s.next, owner, parent, root, keys); }
      } else if e.Remove? {
        if s.calls[e.c].post in s.posts { RemovedRows(s.posts, s.calls[e.c].post); }
      } else {
        TableUnchanged(s, e);
      }
      forall c ensures ReadIsCurrent(t, c) { assert ReadIsCurrent(s, c); }
    }
  }

  lemma NamedKept(s: State, t: State, k: Key)
    requires Named(s, k) && s.used <= t.used && s.back == t.back
    ensures Named(t, k)
  {
    var l :| l in s.used && Names(s.back, l, k);
    assert l in t.used && Names(t.back, l, k);
  }

  /** A fresh key is named by nothing before it, or it collides. */
  lemma FreshIsUnnamed(s: State, t: State, k: Key)
    requires Named(s, k) && k !in s.used && k in t.used && s.used <= t.used && s.back == t.back
    ensures !NoCollision(t.back, t.used)
  {
    var l :| l in s.used && Names(s.back, l, k);
    assert !Distinct(t.back, l, k);
  }

  lemma UploadFiles(s: State, e: Event)
    requires ForestInv(s) && FilesInv(s) && Enabled(s, e) && (e.Upload? || e.UploadFails?)
    requires NoCollision(s.back, Step(s, e).used)
    ensures FilesInv(Step(s, e))
  {
    var t := Step(s, e);
    forall k, q ensures OfPost(t, q, k) <==> OfPost(s, q, k) {}
    forall k, c ensures OfUpload(t, c, k) <==> OfUpload(s, c, k) || (e.Upload? && c == e.c && k in e.keys) {}
    forall k, c ensures Discards(t, c, k) <==> Discards(s, c, k) {}
    forall k ensures Named(s, k) ==> Named(t, k) {
      if Named(s, k) { NamedKept(s, t, k); }
    }
    forall k | k in e.keys ensures !Named(s, k) {
      if Named(s, k) { FreshIsUnnamed(s, t, k); }
    }
    forall k | Safe(s, k) || k in e.keys
      ensures Safe(t, k)
    {}
  }

  lemma CommitFiles(s: State, c: CallId)
    requires ForestInv(s) && FilesInv(s) && Enabled(s, Commit(c))
    requires KeysExist(s.posts, s.calls[c].parent, s.calls[c].root)
    ensures FilesInv(Step(s, Commit(c)))
  {
    var t := Step(s, Commit(c));
    var Uploaded(owner, parent, root, keys) := s.calls[c];
    InsertedRows(s.posts, s.next, owner, parent, root, keys);
    forall k, q ensures OfPost(t, q, k) <==> OfPost(s, q, k) || (q == s.next && OfUpload(s, c, k)) {}
    forall k, d ensures OfUpload(t, d, k) <==> OfUpload(s, d, k) && d != c {}
    forall k, d ensures Discards(t, d, k) <==> Discards(s, d, k) {}
    forall k ensures Safe(s, k) ==> Safe(t, k) {}
    forall k ensures Named(s, k) ==> Named(t, k) {}
  }

  lemma RollbackFiles(s: State, c: CallId)
    requires ForestInv(s) && FilesInv(s) && c in s.calls && s.calls[c].Uploaded?
    ensures FilesInv(s.(calls := s.calls[c := RolledBack(s.calls[c].keys)]))
  {
    var t := s.(calls := s.calls[c := RolledBack(s.calls[c].keys)]);
    forall k, q ensures OfPost(t, q, k) <==> OfPost(s, q, k) {}
    forall k, d ensures OfUpload(t, d, k) <==> OfUpload(s, d, k) && d != c {}
    forall k, d ensures Discards(t, d, k) <==> Discards(s, d, k) || (d == c && OfUpload(s, c, k)) {}
    forall k ensures Safe(s, k) && !OfUpload(s, c, k) ==> Safe(t, k) {}
    forall k ensures Named(s, k) || OfUpload(s, c, k) ==> Named(t, k) {
      if OfUpload(s, c, k) { assert Safe(s, k) && Names(t.back, k, k); }
    }
  }

  /** What a delete will schedule is named by the post's own keys, and is no other post's or upload's key. */
  lemma RemoveNames(s: State, c: CallId, k: Key)
    requires ReadsInv(s) && FilesInv(s) && NoCollision(s.back, s.used) && c in s.calls && s.calls[c].Reading?
    requires s.calls[c].post in s.posts && k in s.calls[c].keys
    ensures Named(s, k) && (k in s.used ==> OfPost(s, s.calls[c].post, k))
  {
    var p := s.calls[c].post;
    assert ReadIsCurrent(s, c);
    var l :| l in s.posts[p].media && s.back(l) == k;
    assert OfPost(s, p, l) && Safe(s, l);
    assert Names(s.back, l, k) && (k in s.used ==> Distinct(s.back, l, k));
  }

  lemma RemoveFiles(s: State, c: CallId)
    requires ForestInv(s) && ReadsInv(s) && FilesInv(s) && NoCollision(s.back, s.used)
    requires Enabled(s, Remove(c)) && s.calls[c].post in s.posts
    ensures FilesInv(Step(s, Remove(c)))
  {
    var t := Step(s, Remove(c));
    var Reading(p, keys) := s.calls[c];
    RemovedRows(s.posts, p);
    CascadeIsLeast(s.posts, p);
    forall k | k in keys ensures Named(s, k) && (k in s.used ==> OfPost(s, p, k)) { RemoveNames(s, c, k); }
    forall k, q ensures OfPost(t, q, k) ==> OfPost(s, q, k) && q != p {}
    forall k, d ensures OfUpload(t, d, k) <==> OfUpload(s, d, k) {}
    forall k, d ensures Discards(t, d, k) <==> Discards(s, d, k) || (d == c && k in keys) {}
    forall k ensures Safe(s, k) && !OfPost(s, p, k) ==> Safe(t, k) {}
    forall k ensures Named(s, k) ==> Named(t, k) {}
  }

  lemma OtherFiles(s: State, e: Event)
    requires ForestInv(s) && FilesInv(s) && Enabled(s, e) && (e.Read? || e.Schedule? || e.ScheduleFails? || e.Clean?)
    ensures FilesInv(Step(s, e))
  {
    var t := Step(s, e);
    forall k, q ensures OfPost(t, q, k) <==> OfPost(s, q, k) {}
    forall k, d ensures OfUpload(t, d, k) <==> OfUpload(s, d, k) {}
    forall k, d ensures Discards(t, d, k) ==> Discards(s, d, k) {}
    forall k ensures Safe(s, k) ==> Safe(t, k) {
      if e.Schedule? && k in s.calls[e.c].keys { assert Discards(s, e.c, k); }
    }
    forall k ensures Named(s, k) ==> Named(t, k) {}
    forall k | k in t.scheduled ensures Named(t, k) {
      if k !in s.scheduled { assert Discards(s, e.c, k); }
    }
  }

  lemma StepFiles(s: State, e: Event)
    requires ForestInv(s) && ReadsInv(s) && FilesInv(s) && NoCollision(s.back, Step(s, e).used)
    ensures FilesInv(Step(s, e))
  {
    if Enabled(s, e) {
      StepUsed(s, e);
      match e
      case Upload(_, _, _, _, _) => UploadFiles(s, e);
      case UploadFails(_) => UploadFiles(s, e);
      case Commit(c) =>
        if KeysExist(s.posts, s.calls[c].parent, s.calls[c].root) { CommitFiles(s, c); } else { RollbackFiles(s, c); }
      case Abort(c) => RollbackFiles(s, c);
      case Remove(c) => if s.calls[c].post in s.posts { RemoveFiles(s, c); } else { EndFiles(s, c); }
      case Read(_, _, _) => OtherFiles(s, e);
      case Schedule(_) => OtherFiles(s, e);
      case ScheduleFails(_) => OtherFiles(s, e);
      case Clean(_) => OtherFiles(s, e);
    }
  }

  lemma EndFiles(s: State, c: CallId)
    requires FilesInv(s) && c in s.calls && s.calls[c].Reading?
    ensures FilesInv(s.(calls := s.calls[c := Ended]))
  {
    var t := s.(calls := s.calls[c := Ended]);
    forall k, q ensures OfPost(t, q, k) <==> OfPost(s, q, k) {}
    forall k, d ensures OfUpload(t, d, k) <==> OfUpload(s, d, k) {}
    forall k, d ensures Discards(t, d, k) <==> Discards(s, d, k) {}
    forall k ensures Safe(s, k) ==> Safe(t, k) {}
    forall k ensures Named(s, k) ==> Named(t, k) {}
  }

  lemma StepUsed(s: State, e: Event)
    ensures s.used <= Step(s, e).used && Step(s, e).back == s.back
  {}

  lemma {:induction false} RunUsed(s: State, es: seq<Event>)
    ensures s.used <= Run(s, es).used && Run(s, es).back == s.back
    decreases es
  {
    if es != [] {
      StepUsed(s, es[0]);
      RunUsed(Step(s, es[0]), es[1..]);
    }
  }

  lemma FewerKeys(back: Back, keys: set<Key>, more: set<Key>)
    requires NoCollision(back, more) && keys <= more
    ensures NoCollision(back, keys)
  {}

  lemma {:induction false} RunReads(s: State, es: seq<Event>)
    requires ForestInv(s) && ReadsInv(s)
    ensures ForestInv(Run(s, es)) && ReadsInv(Run(s, es))
    decreases es
  {
    if es != [] {
      StepForest(s, es[0]);
      StepReads(s, es[0]);
      RunReads(Step(s, es[0]), es[1..]);
    }
  }

  lemma {:induction false} RunFiles(s: State, es: seq<Event>)
    requires ForestInv(s) && ReadsInv(s) && FilesInv(s) && NoCollision(s.back, Run(s, es).used)
    ensures FilesInv(Run(s, es))
    decreases es
  {
    if es != [] {
      var t := Step(s, es[0]);
      StepUsed(s, es[0]);
      RunUsed(t, es[1..]);
      FewerKeys(s.back, t.used, Run(s, es).used);
      StepForest(s, es[0]);
      StepReads(s, es[0]);
      StepFiles(s, es[0]);
      RunFiles(t, es[1..]);
    }
  }

  /** Every image of a post that exists is in the store and is not scheduled for deletion. */
  ghost predicate AllKept(s: State) {
    forall q, k :: OfPost(s, q, k) ==> k in s.objects && k !in s.scheduled
  }

  /** In every run whose keys do not collide, the images of posts are kept. */
  lemma ImagesAreKept(back: Back, es: seq<Event>)
    requires NoCollision(back, Run(Init(back), es).used)
    ensures AllKept(Run(Init(back), es))
  {
    RunFiles(Init(back), es);
  }

  /**
   On an origin, in every run whose keys are generated, each with its own timestamp and random number, the
   images of posts are kept: whatever the files were called, and whether or not their keys come back.
   */
  lemma GeneratedImagesAreKept(site: Site, scheme: string, host: string, es: seq<Event>)
    requires IsOrigin(site, scheme, host) && AllGenerated(site.parser, Run(Init(BackOf(site)), es).used)
    ensures AllKept(Run(Init(BackOf(site)), es))
  {
    GeneratedKeysDoNotCollide(site, scheme, host, Run(Init(BackOf(site)), es).used);
    ImagesAreKept(BackOf(site), es);
  }

  // ---------------------------------------------------------------------------------------
  // Whole calls in a run
  // ---------------------------------------------------------------------------------------

  lemma {:induction false} RunConcat(s: State, a: seq<Event>, b: seq<Event>)
    ensures Run(s, a + b) == Run(Run(s, a), b)
    decreases a
  {
    if a == [] {
      assert a + b == b;
    } else {
      assert (a + b)[1..] == a[1..] + b;
      RunConcat(Step(s, a[0]), a[1..], b);
    }
  }

  /** A create by user 7, uninterrupted. */
  function Creating(c: CallId, parent: Option<PostId>, root: Option<PostId>, keys: set<Key>): seq<Event> {
    [Upload(c, 7, parent, root, keys), Commit(c)]
  }

  lemma CreatingIs(s: State, c: CallId, parent: Option<PostId>, root: Option<PostId>, keys: set<Key>)
    requires WellFormed(s.posts) && c !in s.calls && keys !! s.used && KeysExist(s.posts, parent, root)
    ensures Run(s, Creating(c, parent, root, keys))
            == s.(posts := Inserted(s.posts, s.next, 7, parent, root, keys), next := s.next + 1,
                  objects := s.objects + keys, used := s.used + keys, calls := s.calls[c := Ended])
  {
    var t := Step(s, Upload(c, 7, parent, root, keys));
    assert t.calls[c] == Uploaded(7, parent, root, keys) && t.calls[c := Ended] == s.calls[c := Ended];
    assert Creating(c, parent, root, keys)[1..] == [Commit(c)] && [Commit(c)][1..] == [];
    assert Run(t, [Commit(c)]) == Step(t, Commit(c));
  }

  /** A delete by user 7, uninterrupted. */
  function Deleting(c: CallId, p: PostId): seq<Event> {
    [Read(c, p, 7), Remove(c), Schedule(c)]
  }

  lemma RunThree(s: State, es: seq<Event>)
    requires |es| == 3
    ensures Run(s, es) == Step(Step(Step(s, es[0]), es[1]), es[2])
  {
    assert es[1..][1..] == [es[2]] && [es[2]][1..] == [];
    var t := Step(s, es[0]);
    assert Run(t, es[1..]) == Run(Step(t, es[1]), [es[2]]);
    assert Run(Step(t, es[1]), [es[2]]) == Step(Step(t, es[1]), es[2]);
  }

  lemma RemoveIs(s: State, c: CallId)
    requires WellFormed(s.posts) && c in s.calls && s.calls[c].Reading? && s.calls[c].post in s.posts
    ensures var t := Step(Step(s, Remove(c)), Schedule(c));
            && t.posts == Removed(s.posts, s.calls[c].post) && t.scheduled == s.scheduled + s.calls[c].keys
            && t.calls == s.calls[c := Ended] && t.objects == s.objects && t.used == s.used && t.back == s.back
  {
    RemovedRows(s.posts, s.calls[c].post);
    var t := Step(s, Remove(c));
    assert t.posts == Removed(s.posts, s.calls[c].post) && t.calls == s.calls[c := Deleted(s.calls[c].keys)];
    assert t.calls[c := Ended] == s.calls[c := Ended];
    ScheduleIs(t, c);
  }

  lemma ScheduleIs(s: State, c: CallId)
    requires WellFormed(s.posts) && c in s.calls && s.calls[c].Deleted?
    ensures Step(s, Schedule(c)) == s.(scheduled := s.scheduled + s.calls[c].keys, calls := s.calls[c := Ended])
  {}

  lemma DeletingIs(s: State, c: CallId, p: PostId)
    requires WellFormed(s.posts) && c !in s.calls && p in s.posts && s.posts[p].owner == 7
    ensures var t := Run(s, Deleting(c, p));
            && t.posts == Removed(s.posts, p) && t.scheduled == s.scheduled + ReadBackAll(s.back, s.posts[p].media)
            && t.calls == s.calls[c := Ended] && t.objects == s.objects && t.used == s.used && t.back == s.back
  {
    RunThree(s, Deleting(c, p));
    var t := Step(s, Read(c, p, 7));
    assert t == s.(calls := s.calls[c := Reading(p, ReadBackAll(s.back, s.posts[p].media))]);
    assert t.calls[c := Ended] == s.calls[c := Ended];
    RemoveIs(t, c);
  }

  // ---------------------------------------------------------------------------------------
  // Who can delete
  // ---------------------------------------------------------------------------------------

  /** The call that is about to delete was made by the owner of the post. */
  ghost predicate AskedByOwner(s: State, es: seq<Event>, c: CallId) {
    c in s.calls && s.calls[c].Reading? ==>
      exists user :: Read(c, s.calls[c].post, user) in es && OwnsIfThere(s, s.calls[c].post, user)
  }

  ghost predicate OwnsIfThere(s: State, p: PostId, user: UserId) {
    p < s.next && (p in s.posts ==> s.posts[p].owner == user)
  }

  lemma OwnerKept(s: State, e: Event, p: PostId, user: UserId)
    requires ForestInv(s) && OwnsIfThere(s, p, user)
    ensures OwnsIfThere(Step(s, e), p, user)
  {
    if e.Commit? && Enabled(s, e) {
      var Uploaded(owner, parent, root, keys) := s.calls[e.c];
      if KeysExist(s.posts, parent, root) { InsertedRows(s.posts, s.next, owner, parent, root, keys); }
    } else if e.Remove? && Enabled(s, e) {
      if s.calls[e.c].post in s.posts { RemovedRows(s.posts, s.calls[e.c].post); }
    } else {
      TableUnchanged(s, e);
    }
  }

  lemma StepAsked(s: State, es: seq<Event>, e: Event, c: CallId)
    requires ForestInv(s) && AskedByOwner(s, es, c)
    ensures AskedByOwner(Step(s, e), es + [e], c)
  {
    var t := Step(s, e);
    if c in t.calls && t.calls[c].Reading? {
      if c in s.calls && s.calls[c].Reading? {
        assert t.calls[c] == s.calls[c];
        var user :| Read(c, s.calls[c].post, user) in es && OwnsIfThere(s, s.calls[c].post, user);
        OwnerKept(s, e, s.calls[c].post, user);
        assert Read(c, t.calls[c].post, user) in es + [e];
      } else {
        assert e == Read(c, t.calls[c].post, s.posts[t.calls[c].post].owner);
        assert (es + [e])[|es|] == e;
        assert OwnsIfThere(t, e.post, e.user);
      }
    }
  }

  lemma {:induction false} RunAsked(back: Back, es: seq<Event>, c: CallId)
    ensures ForestInv(Run(Init(back), es)) && AskedByOwner(Run(Init(back), es), es, c)
  {
    RunForest(Init(back), es);
    if es != [] {
      var init, e := es[..|es| - 1], es[|es| - 1];
      assert es == init + [e];
      RunAsked(back, init, c);
      StepAsked(Run(Init(back), init), init, e, c);
      RunConcat(Init(back), init, [e]);
      assert [e][1..] == [];
    }
  }

  /**
   In every run a post disappears only by a delete of it, of an ancestor or of a root above it, and only if the
   owner of the deleted post asked for that delete.
   */
  lemma OnlyOwnersDelete(back: Back, es: seq<Event>, e: Event, p: PostId)
    ensures var s := Run(Init(back), es);
            p in s.posts && p !in Step(s, e).posts ==>
              && e.Remove? && e.c in s.calls && s.calls[e.c].Reading? && s.calls[e.c].post in s.posts
              && WellFormed(s.posts) && p in Cascade(s.posts, s.calls[e.c].post)
              && Read(e.c, s.calls[e.c].post, s.posts[s.calls[e.c].post].owner) in es
  {
    var s := Run(Init(back), es);
    RunForest(Init(back), es);
    if p in s.posts && p !in Step(s, e).posts {
      if e.Commit? && Enabled(s, e) {
        var Uploaded(owner, parent, root, keys) := s.calls[e.c];
        if KeysExist(s.posts, parent, root) { InsertedRows(s.posts, s.next, owner, parent, root, keys); }
        assert false;
      } else if e.Remove? && Enabled(s, e) {
        RunAsked(back, es, e.c);
        if s.calls[e.c].post in s.posts { RemovedRows(s.posts, s.calls[e.c].post); }
      } else {
        TableUnchanged(s, e);
        assert false;
      }
    }
  }

  /** Two posts without parents, with the given images. */
  function TwoPosts(k: set<Key>, l: set<Key>): seq<Event> {
    Creating(0, None, None, k) + Creating(1, None, None, l)
  }

  lemma TwoPostsAre(back: Back, k: set<Key>, l: set<Key>)
    requires k !! l
    ensures var s := Run(Init(back), TwoPosts(k, l));
            && s.posts == map[0 := Post(7, None, None, 0, k), 1 := Post(7, None, None, 0, l)] && s.next == 2
            && s.calls == map[0 := Ended, 1 := Ended] && s.used == k + l && s.back == back && s.scheduled == {}
  {
    RunConcat(Init(back), Creating(0, None, None, k), Creating(1, None, None, l));
    CreatingIs(Init(back), 0, None, None, k);
    CreatingIs(Run(Init(back), Creating(0, None, None, k)), 1, None, None, l);
  }

  /** Two posts, the first with an image whose URL gives back the key of the second's; delete the first. */
  function Clash(k: Key, l: Key): seq<Event> {
    TwoPosts({k}, {l}) + Deleting(2, 0)
  }

  lemma ClashRemoves(posts: Posts, one: Post, other: Post)
    requires posts == map[0 := one, 1 := other]
    requires one.parent.None? && one.root.None? && other.parent.None? && other.root.None?
    ensures WellFormed(posts) && Removed(posts, 0) == map[1 := other]
  {
    assert Doomed(posts, 0, 0) && !Doomed(posts, 0, 1);
  }

  lemma CollisionDeletes(back: Back, k: Key, l: Key)
    requires k != l && back(k) == l
    ensures var s := Run(Init(back), Clash(k, l)); s.used == {k, l} && !AllKept(s)
  {
    TwoPostsAre(back, {k}, {l});
    var s := Run(Init(back), TwoPosts({k}, {l}));
    RunConcat(Init(back), TwoPosts({k}, {l}), Deleting(2, 0));
    ClashRemoves(s.posts, s.posts[0], s.posts[1]);
    DeletingIs(s, 2, 0);
    assert l in ReadBackAll(back, {k});
    assert OfPost(Run(s, Deleting(2, 0)), 1, l);
  }

  /** Two posts, and a third that replies to the first and names the second as its root. */
  function Straying(): seq<Event> {
    TwoPosts({}, {}) + Creating(2, Some(0), Some(1), {})
  }

  lemma StrayTable()
    ensures var two := map[0 := Post(7, None, None, 0, {}), 1 := Post(7, None, None, 0, {})];
            WellFormed(two) && Inserted(two, 2, 7, Some(0), Some(1), {}) == STRAY
  {}

  lemma StrayingIs(back: Back)
    ensures var t := Run(Init(back), Straying()); t.posts == STRAY && 3 !in t.calls
  {
    TwoPostsAre(back, {}, {});
    StrayTable();
    RunConcat(Init(back), TwoPosts({}, {}), Creating(2, Some(0), Some(1), {}));
    CreatingIs(Run(Init(back), TwoPosts({}, {})), 2, Some(0), Some(1), {});
  }

  /** A root outside the thread can make a reply count wrong: three creates and a delete. */
  lemma StrayRootRun(back: Back)
    ensures !CountsAreRight(Run(Init(back), Straying() + Deleting(3, 1)).posts)
  {
    StrayingIs(back);
    StrayRootBreaksCounts();
    RunConcat(Init(back), Straying(), Deleting(3, 1));
    DeletingIs(Run(Init(back), Straying()), 3, 1);
  }

  /** A post and a reply with an image. */
  function Replying(l: Key): seq<Event> {
    Creating(0, None, None, {}) + Creating(1, Some(0), Some(0), {l})
  }

  lemma ReplyTable(l: Key)
    ensures var one := Inserted(map[], 0, 7, None, None, {});
            && one == map[0 := Post(7, None, None, 0, {})] && WellFormed(one)
            && Inserted(one, 1, 7, Some(0), Some(0), {l})
               == map[0 := Post(7, None, None, 1, {}), 1 := Post(7, Some(0), Some(0), 0, {l})]
  {}

  lemma ReplyingIs(back: Back, l: Key)
    ensures var t := Run(Init(back), Replying(l));
            && t.posts == map[0 := Post(7, None, None, 1, {}), 1 := Post(7, Some(0), Some(0), 0, {l})]
            && t.calls == map[0 := Ended, 1 := Ended] && t.objects == {l} && t.scheduled == {}
  {
    ReplyTable(l);
    RunConcat(Init(back), Creating(0, None, None, {}), Creating(1, Some(0), Some(0), {l}));
    CreatingIs(Init(back), 0, None, None, {});
    CreatingIs(Run(Init(back), Creating(0, None, None, {})), 1, Some(0), Some(0), {l});
  }

  lemma ReplyRemoves(posts: Posts, one: Post, reply: Post)
    requires posts == map[0 := one, 1 := reply]
    requires one.parent.None? && one.root.None? && reply.parent == reply.root == Some(0)
    ensures WellFormed(posts) && Removed(posts, 0) == map[]
  {
    assert Doomed(posts, 0, 0) && Doomed(posts, 0, 1);
  }

  /** Delete that post: the image of its reply stays in the store, and nobody knows of it. */
  lemma ReplyImageLeaks(back: Back, l: Key)
    ensures var s := Run(Init(back), Replying(l) + Deleting(2, 0)); l in s.objects && Leaks(s, l)
  {
    ReplyingIs(back, l);
    var t := Run(Init(back), Replying(l));
    ReplyRemoves(t.posts, t.posts[0], t.posts[1]);
    RunConcat(Init(back), Replying(l), Deleting(2, 0));
    DeletingIs(t, 2, 0);
    assert ReadBackAll(t.back, {}) == {};
  }

  /**
   A set of keys is fit for use, in that no run with these keys ever schedules the image of a living post,
   exactly if none of them is read back from the URL of another.
   */
  lemma ImagesAreKeptIff(back: Back, keys: set<Key>)
    ensures (forall es :: Run(Init(back), es).used <= keys ==> AllKept(Run(Init(back), es)))
        <==> NoCollision(back, keys)
  {
    if NoCollision(back, keys) {
      forall es | Run(Init(back), es).used <= keys
        ensures AllKept(Run(Init(back), es))
      {
        FewerKeys(back, Run(Init(back), es).used, keys);
        ImagesAreKept(back, es);
      }
    } else {
      var k, l :| k in keys && l in keys && !Distinct(back, k, l);
      CollisionDeletes(back, k, l);
    }
  }

  /** On an origin, safe keys do not collide: each comes back as itself. */
  lemma SafeKeysDoNotCollide(site: Site, scheme: string, host: string, keys: set<Key>)
    requires IsOrigin(site, scheme, host) && forall k :: k in keys ==> IsSafeKey(site.parser, k)
    ensures NoCollision(BackOf(site), keys)
  {
    forall k, l | k in keys && l in keys
      ensures Distinct(BackOf(site), k, l)
    {
      RoundTripIff(site, scheme, host, k);
    }
  }

  // ---------------------------------------------------------------------------------------
  // Leaks
  // ---------------------------------------------------------------------------------------

  ghost predicate Held(s: State, k: Key) {
    exists c :: OfUpload(s, c, k) || Discards(s, c, k)
  }

  ghost predicate Referenced(s: State, k: Key) {
    exists q :: OfPost(s, q, k)
  }

  /** Every stored object is referenced, scheduled, held by a call that will do one or the other, or a stray. */
  ghost predicate Accounted(s: State) {
    forall k :: k in s.objects ==> Referenced(s, k) || k in s.scheduled || Held(s, k) || k in s.strays
  }

  lemma Carried(s: State, t: State, k: Key, c: CallId)
    requires Held(s, k) && (forall d :: d != c && d in s.calls ==> d in t.calls && t.calls[d] == s.calls[d])
    ensures Held(t, k) || OfUpload(s, c, k) || Discards(s, c, k)
  {
    var d :| OfUpload(s, d, k) || Discards(s, d, k);
    if d != c { assert OfUpload(t, d, k) || Discards(t, d, k); }
  }

  lemma StepAccounted(s: State, e: Event)
    requires ForestInv(s) && ReadsInv(s) && Accounted(s)
    ensures Accounted(Step(s, e))
  {
    var t := Step(s, e);
    if Enabled(s, e) {
      forall k | k in t.objects
        ensures Referenced(t, k) || k in t.scheduled || Held(t, k) || k in t.strays
      {
        match e
        case Upload(c, _, _, _, keys) =>
          if k in keys { assert OfUpload(t, c, k); }
          if Held(s, k) { Carried(s, t, k, c); assert c !in s.calls; }
          if Referenced(s, k) { var q :| OfPost(s, q, k); assert OfPost(t, q, k); }
        case UploadFails(keys) =>
          if Held(s, k) { var d :| OfUpload(s, d, k) || Discards(s, d, k); assert OfUpload(t, d, k)
              || Discards(t, d, k); }
          if Referenced(s, k) { var q :| OfPost(s, q, k); assert OfPost(t, q, k); }
        case Commit(c) => CommitAccounted(s, c, k);
        case Abort(c) =>
          if Held(s, k) { Carried(s, t, k, c); if OfUpload(s, c, k) { assert Discards(t, c, k); } }
          if Referenced(s, k) { var q :| OfPost(s, q, k); assert OfPost(t, q, k); }
        case Read(c, _, _) =>
          if Held(s, k) { Carried(s, t, k, c); }
          if Referenced(s, k) { var q :| OfPost(s, q, k); assert OfPost(t, q, k); }
        case Remove(c) => RemoveAccounted(s, c, k);
        case ScheduleFails(c) =>
          if Held(s, k) { Carried(s, t, k, c); }
          if Referenced(s, k) { var q :| OfPost(s, q, k); assert OfPost(t, q, k); }
        case Schedule(c) =>
          if Held(s, k) { Carried(s, t, k, c); }
          if Referenced(s, k) { var q :| OfPost(s, q, k); assert OfPost(t, q, k); }
        case Clean(keys) =>
          if Held(s, k) { var d :| OfUpload(s, d, k) || Discards(s, d, k); assert OfUpload(t, d, k)
              || Discards(t, d, k); }
          if Referenced(s, k) { var q :| OfPost(s, q, k); assert OfPost(t, q, k); }
      }
    }
  }

  lemma CommitAccounted(s: State, c: CallId, k: Key)
    requires ForestInv(s) && Enabled(s, Commit(c))
    requires Referenced(s, k) || k in s.scheduled || Held(s, k) || k in s.strays
    ensures var t := Step(s, Commit(c)); Referenced(t, k) || k in t.scheduled || Held(t, k) || k in t.strays
  {
    var t := Step(s, Commit(c));
    var Uploaded(owner, parent, root, keys) := s.calls[c];
    if KeysExist(s.posts, parent, root) {
      InsertedRows(s.posts, s.next, owner, parent, root, keys);
    }
    if Held(s, k) {
      Carried(s, t, k, c);
      if OfUpload(s, c, k) { assert OfPost(t, s.next, k) || Discards(t, c, k); }
    }
    if Referenced(s, k) {
      var q :| OfPost(s, q, k);
      assert OfPost(t, q, k);
    }
  }

  lemma RemoveAccounted(s: State, c: CallId, k: Key)
    requires ForestInv(s) && ReadsInv(s) && Enabled(s, Remove(c))
    requires Referenced(s, k) || k in s.scheduled || Held(s, k) || k in s.strays
    ensures var t := Step(s, Remove(c)); Referenced(t, k) || k in t.scheduled || Held(t, k) || k in t.strays
  {
    var t := Step(s, Remove(c));
    var Reading(p, keys) := s.calls[c];
    if Held(s, k) { Carried(s, t, k, c); }
    if Referenced(s, k) {
      var q :| OfPost(s, q, k);
      if p in s.posts {
        RemovedRows(s.posts, p);
        assert ReadIsCurrent(s, c);
        if q == p {
          assert k in keys ==> Discards(t, c, k);
          assert k !in keys ==> k in LostMedia(s.back, s.posts[p].media);
        } else if q !in Cascade(s.posts, p) {
          assert OfPost(t, q, k);
        } else {
          assert k in CascadedMedia(s.posts, p);
        }
      } else {
        assert OfPost(t, q, k);
      }
    }
  }

  /**
   Nothing is forgotten except by the three kinds of step that are named: a partly failed upload, a clean-up
   that cannot be scheduled, and a delete with a key that does not come back from its URL, or whose
   cascade takes media rows of other posts with it.
   */
  ghost predicate Forgetful(s: State, e: Event) {
    WellFormed(s.posts) && Enabled(s, e) &&
    ((e.UploadFails? && e.keys != {})
     || (e.ScheduleFails? && s.calls[e.c].keys != {})
     || (e.Remove? && s.calls[e.c].post in s.posts
         && CascadedMedia(s.posts, s.calls[e.c].post) + LostMedia(s.back, s.posts[s.calls[e.c].post].media) != {}))
  }

  ghost predicate NeverForgetful(s: State, es: seq<Event>)
    decreases es
  {
    es == [] || (!Forgetful(s, es[0]) && NeverForgetful(Step(s, es[0]), es[1..]))
  }

  lemma StepStrays(s: State, e: Event)
    ensures s.strays <= Step(s, e).strays
    ensures !Forgetful(s, e) ==> Step(s, e).strays == s.strays
    ensures Forgetful(s, e) ==> Step(s, e).strays != {}
  {}

  /** An object enters the store with an upload, and leaves it only when it is cleaned up after being scheduled. */
  lemma ObjectsAre(s: State, e: Event, k: Key)
    requires ForestInv(s) && Enabled(s, e)
    ensures k in Step(s, e).objects
        <==> || (k in s.objects && !(e.Clean? && k in e.keys))
             || ((e.Upload? || e.UploadFails?) && k in e.keys)
    ensures e.Clean? ==> e.keys <= s.scheduled
    ensures k in Step(s, e).scheduled <==> k in s.scheduled || (e.Schedule? && k in s.calls[e.c].keys)
  {}

  lemma {:induction false} RunAccounted(s: State, es: seq<Event>)
    requires ForestInv(s) && ReadsInv(s) && Accounted(s)
    ensures Accounted(Run(s, es)) && s.strays <= Run(s, es).strays
    ensures NeverForgetful(s, es) ==> Run(s, es).strays == s.strays
    decreases es
  {
    if es != [] {
      StepForest(s, es[0]);
      StepReads(s, es[0]);
      StepAccounted(s, es[0]);
      StepStrays(s, es[0]);
      RunAccounted(Step(s, es[0]), es[1..]);
    }
  }

  /**
   In every run in which uploads succeed as a whole, clean-ups are scheduled, and no delete meets a key that
   does not come back or cascades to another post's images, every object in the store belongs to a post, is
   scheduled for deletion, or is held by a running call.
   */
  lemma NoImageLeaks(back: Back, es: seq<Event>)
    requires NeverForgetful(Init(back), es)
    ensures var s := Run(Init(back), es);
            forall k :: k in s.objects ==> Referenced(s, k) || k in s.scheduled || Held(s, k)
  {
    RunAccounted(Init(back), es);
  }

  /** After the delete of `p` nobody knows of the key: no row, no clean-up, no call. */
  ghost predicate Leaks(t: State, k: Key) {
    !Referenced(t, k) && k !in t.scheduled && !Held(t, k)
  }

  lemma OwnImage(s: State, c: CallId, k: Key)
    requires ForestInv(s) && ReadsInv(s) && FilesInv(s) && NoCollision(s.back, s.used)
    requires Enabled(s, Remove(c)) && s.calls[c].post in s.posts && OfPost(s, s.calls[c].post, k)
    ensures k in s.calls[c].keys <==> s.back(k) == k
  {
    var p := s.calls[c].post;
    assert ReadIsCurrent(s, c) && Safe(s, k);
    if k in s.calls[c].keys {
      var l :| l in s.posts[p].media && s.back(l) == k;
      assert OfPost(s, p, l) && Safe(s, l) && Distinct(s.back, l, k);
    }
  }

  lemma GoneImage(s: State, c: CallId, q: PostId, k: Key)
    requires ForestInv(s) && ReadsInv(s) && FilesInv(s) && NoCollision(s.back, s.used)
    requires Enabled(s, Remove(c)) && s.calls[c].post in s.posts && OfPost(s, q, k)
        && q in Cascade(s.posts, s.calls[c].post)
    ensures Leaks(Step(s, Remove(c)), k) <==> k !in s.calls[c].keys
  {
    var t := Step(s, Remove(c));
    RemovedRows(s.posts, s.calls[c].post);
    assert Safe(s, k);
    forall r ensures !OfPost(t, r, k) {
      assert OfPost(t, r, k) ==> OfPost(s, r, k);
    }
    forall d ensures !OfUpload(t, d, k) {
      assert OfUpload(t, d, k) ==> OfUpload(s, d, k);
    }
    forall d ensures Discards(t, d, k) <==> d == c && k in s.calls[c].keys {
      assert !Discards(s, d, k);
    }
    assert k in s.calls[c].keys ==> Discards(t, c, k);
    assert !Held(t, k) <==> k !in s.calls[c].keys;
  }

  /**
   A delete leaks exactly the images of the replies it takes with it, and those of its own images whose keys
   do not come back from their URLs: they stay, with no row and no clean-up.
   */
  lemma DeleteLeaksIff(s: State, c: CallId, k: Key)
    requires ForestInv(s) && ReadsInv(s) && FilesInv(s) && NoCollision(s.back, s.used)
    requires Enabled(s, Remove(c)) && s.calls[c].post in s.posts && Referenced(s, k)
    ensures var p := s.calls[c].post;
            Leaks(Step(s, Remove(c)), k)
            <==> k in CascadedMedia(s.posts, p) || (k in s.posts[p].media && s.back(k) != k)
  {
    var p := s.calls[c].post;
    var q :| OfPost(s, q, k);
    CascadeIsLeast(s.posts, p);
    assert k in CascadedMedia(s.posts, p) ==> exists r :: r in Cascade(s.posts, p) && r != p && OfPost(s, r, k);
    if q in Cascade(s.posts, p) {
      GoneImage(s, c, q, k);
      if q == p {
        OwnImage(s, c, k);
      } else {
        assert k in CascadedMedia(s.posts, p) && !OfPost(s, p, k) && Safe(s, k);
        if k in s.calls[c].keys { RemoveNames(s, c, k); }
      }
    } else {
      RemovedRows(s.posts, p);
      assert OfPost(Step(s, Remove(c)), q, k) && !OfPost(s, p, k);
    }
  }

  /** The same over every run with generated keys on an origin: the own images that leak are those with unsafe keys. */
  lemma GeneratedDeleteLeaksIff(site: Site, scheme: string, host: string, es: seq<Event>, c: CallId, k: Key)
    requires IsOrigin(site, scheme, host) && AllGenerated(site.parser, Run(Init(BackOf(site)), es).used)
    requires var s := Run(Init(BackOf(site)), es);
             Enabled(s, Remove(c)) && s.calls[c].post in s.posts && Referenced(s, k)
    ensures var s := Run(Init(BackOf(site)), es);
            && WellFormed(s.posts)
            && (Leaks(Step(s, Remove(c)), k)
                <==> || k in CascadedMedia(s.posts, s.calls[c].post)
                     || (k in s.posts[s.calls[c].post].media && !IsSafeKey(site.parser, k)))
  {
    var s := Run(Init(BackOf(site)), es);
    GeneratedKeysDoNotCollide(site, scheme, host, s.used);
    RunUsed(Init(BackOf(site)), es);
    RunReads(Init(BackOf(site)), es);
    RunFiles(Init(BackOf(site)), es);
    DeleteLeaksIff(s, c, k);
    RoundTripIff(site, scheme, host, k);
  }

  // ---------------------------------------------------------------------------------------
  // The service on its tables
  // ---------------------------------------------------------------------------------------

  class PostStore {
    const site: Site
    var posts: Posts
    var next: PostId
    var scheduled: set<Key>

    constructor (site: Site)
      ensures this.site == site && posts == map[] && next == 0 && scheduled == {}
    {
      this.site := site;
      posts, next, scheduled := map[], 0, {};
    }

    method ScheduleCleanup(keys: set<Key>)
      modifies this`scheduled
      ensures scheduled == old(scheduled) + keys
    {
      scheduled := scheduled + keys;
    }

    /** `createSync` after the upload: transaction, and on an error the clean-up of what was uploaded. */
    method Create(owner: UserId, parent: Option<PostId>, root: Option<PostId>, keys: set<Key>) returns (ok: bool)
      requires WellFormed(posts) && forall q :: q in posts ==> q < next
      modifies this
      ensures ok <==> (parent.Some? ==> parent.value in old(posts)) && (root.Some? ==> root.value in old(posts))
      ensures ok ==> next == old(next) + 1 && scheduled == old(scheduled)
                     && posts == Inserted(old(posts), old(next), owner, parent, root, keys)
      ensures !ok ==> posts == old(posts) && next == old(next) && scheduled == old(scheduled) + keys
      ensures WellFormed(posts) && (old(CountsAreRight(posts)) ==> CountsAreRight(posts))
    {
      ghost var before := posts;
      if (parent.Some? && parent.value !in posts) || (root.Some? && root.value !in posts) {
        ScheduleCleanup(keys);
        return false;
      }
      posts := posts[next := Post(owner, parent, root, 0, keys)];
      if parent.Some? {
        posts := posts[parent.value := posts[parent.value].(replyCount := posts[parent.value].replyCount + 1)];
      }
      assert posts == Inserted(before, next, owner, parent, root, keys);
      InsertedRows(before, next, owner, parent, root, keys);
      InsertedCounts(before, next, owner, parent, root, keys);
      next := next + 1;
      return true;
    }

    /** `delete`, not interleaved: the row's owner is checked, the cascade is the database's own work. */
    method Delete(p: PostId, user: UserId) returns (ok: bool)
      requires WellFormed(posts)
      modifies this
      ensures ok <==> p in old(posts) && old(posts)[p].owner == user
      ensures ok ==> posts == Removed(old(posts), p)
      ensures ok ==> scheduled == old(scheduled) + ReadBackAll(BackOf(site), old(posts)[p].media)
      ensures !ok ==> posts == old(posts) && scheduled == old(scheduled)
      ensures next == old(next) && WellFormed(posts)
    {
      if p !in posts {
        return false;
      }
      var post := posts[p];
      if post.owner != user {
        return false;
      }
      DeleteRow(p);
      if post.media != {} {
        ScheduleCleanup(ReadBackAll(BackOf(site), post.media));
      }
      return true;
    }

    /** The transaction of `delete`. */
    method DeleteRow(p: PostId)
      requires WellFormed(posts) && p in posts
      modifies this`posts
      ensures posts == Removed(old(posts), p) && WellFormed(posts)
    {
      RemovedRows(posts, p);
      assert Refers(posts, p, posts[p].parent);
      var gone, parent := Cascade(posts, p), posts[p].parent;
      if parent.Some? {
        posts := posts[parent.value := posts[parent.value].(replyCount := posts[parent.value].replyCount - 1)];
      }
      posts := posts - gone;
    }
  }
}
