# Verified model of the Threads clone

A Dafny model of the protocols and bookkeeping under a small social network: a NestJS/Prisma backend
(`threads-be`) and a React client (`threads-fe`). `dafny verify dfyconfig.toml` checks everything.

The system keeps several pieces of state consistent without locks: an HTTP interceptor that must refresh a
session once for any number of failed requests, a server that rotates refresh tokens in three separate
database calls, counters stored beside the rows they count, a reply forest whose rows cascade along two
foreign keys, an image store that is cleaned up after the fact, pages fetched with a cursor while others
write, and an optimistic cache. Each of these is a state machine here. The database is maps and sets with the
unique keys and cascades of `threads-be/prisma/schema.prisma`; a transaction is one step that commits or
leaves everything as it was; every other database call is a step of its own, so that calls interleave.

How the modules are built:

* `State`, `Event` and a total `Step`: an event that cannot happen changes nothing, so the theorems range over
  every list of events. `Run` folds `Step`.
* Theorems about `Run`, each resting on an invariant that every step keeps.
* Where several calls interleave, the outcome of one call is also stated from what that call itself saw, in a table
  that does not mention the steps (`ApiClient.EveryRequestMeetsItsFate`, `Follows.CallsDoAsTheySaw`,
  `Reactions.CallsDoAsTheySaw`).
* Where the source updates fields, tables or a cache in place, a class with those fields, whose methods leave
  exactly the state that the specification function gives. Rows and queues are fields of type `map`, `set` and
  `seq`.

| file | what it models |
|---|---|
| `ApiClient.dfy` | the response interceptor: one refresh at a time, a queue, a drain |
| `Rotation.dfy` | refresh-token rotation on the server |
| `Session.dfy` | both together: one client's cookie against the server's tokens |
| `Collections.dfy` | optional values, lists without repetition, first occurrences |
| `Counting.dfy` | degrees of a relation and sums of a counter column, used by `Follows.dfy` and `Reactions.dfy` |
| `Follows.dfy`, `Reactions.dfy` | follow, like and repost rows and their counters |
| `Forest.dfy`, `Posts.dfy` | the reply forest, creating and deleting posts, stored images |
| `Urls.dfy` | key to URL, and back through the URL parser |
| `Paging.dfy` | cursor pages and the infinite query |
| `Suggestions.dfy` | who to follow, from the server's ranking to the client's list |
| `Conversations.dfy`, `Notifications.dfy`, `ResetTokens.dfy` | smaller state machines |
| `FeedCache.dfy` | optimistic likes and reposts against the server |
| `Usernames.dfy`, `Mentions.dfy` | two loops |

## What the code does not keep

Some things one would expect of the code do not hold. The code is modelled as it is; the condition under which
it does what it should is proved in both directions.

* A client loses its session for good when the connection breaks between the server's delete step and the
  arrival of the answer (`Session.CookieLiveIff`, `Session.LostForGood`, `Session.AnyClientCanLoseItsSession`).
* The newsfeed compares the number of rows with the limit as requested, not with the clamped one. Scrolling
  shows everything exactly for limits 1 to 100, and otherwise only for short feeds (`Paging.NewsfeedCompleteIff`,
  `Paging.LargeNewsCompleteIff`).
* `createSync` stores whatever `rootPostId` it is sent. A delete keeps the reply counts right exactly when its
  cascade takes every reply together with its parent (`Forest.DeleteKeepsCountsIff`, `Posts.StrayRootRun`); with
  roots that are null or ancestors it always does.
* On a domain that is an http or https origin, a key comes back from its URL exactly when it is safe: no
  character that the URL parser drops, encodes or takes for a separator (spaces, controls, `"#<>?`, backslash,
  backquote, braces, anything beyond ASCII, and `^` in recent parsers), and no segment that means "here" or "one
  up", such as `..` or `%2e` (`Urls.RoundTripIff`). The extension of an uploaded file is copied into the key
  unchecked, so a file called `my photo` is enough (`Urls.GeneratedKeyRoundTripIff`, `Urls.SpaceDoesNotComeBack`).
  On a domain with a trailing slash or an ordinary path no key comes back at all; on one with a path, exactly the
  safe keys if the path cancels out (`Urls.PathRoundTripIff`, `Urls.NoKeyBehindPath`).
* So a delete leaves behind exactly the replies' images and those of its own whose keys do not come back
  (`Posts.DeleteLeaksIff`, `Posts.GeneratedDeleteLeaksIff`, `Posts.ReplyImageLeaks`).
* A follow is committed before its notification is sent. If that throws, the call is rejected with the follow
  stored, and calling again removes it (`Follows.RejectedChangedIff`, `Follows.RetryUndoes`).
* Popular users are picked without regard to who is ranked already, so places can stay empty
  (`Suggestions.FullIff`, `Suggestions.PlaceStaysEmpty`).
* `create` looks for an existing DIRECT conversation and writes later; the late write is right exactly when
  the pair still has none (`Conversations.PhaseKeepsInvIff`, `Conversations.TwoLooksTwoConversations`).
* `resetPassword` searches first and commits later without looking again, so two calls can use one token. A
  commit respects single use exactly if its row is still unused (`ResetTokens.CommitSingleUseIff`,
  `ResetTokens.RaceUsesTokenTwice`).
* A group belongs to its creator exactly when he lists himself first (`Conversations.CreatorOwnsIff`).
* Copies on a profile page lack the two flags. However often they are toggled, they show the right flag exactly
  when the user had not reacted as they were fetched (`FeedCache.ProfileRightForEverIff`), and otherwise the count
  is two too high after every odd number of toggles (`FeedCache.ProfileCountsDriftByTwo`). If a toggle succeeds but its
  answer is lost, the rollback is right exactly when the feed shows no copy (`FeedCache.LostAnswerRightIff`).

One thing that might be feared it does keep: even where keys do not come back, a delete never removes another
post's image. What is read back from the URL of a generated key carries that key's own timestamp and random number,
whatever the file was called (`Urls.GeneratedKeysDoNotCollide`, `Posts.GeneratedImagesAreKept`).

## Model

| member | source | states |
|---|---|---|
| ApiClient.SingleFlight | threads-fe/src/libs/api/axios.ts:14-77 | in every reachable state at most one refresh is outstanding, waiters exist only then and are distinct, each request is in exactly one of six places, is sent at most twice and settles at most once |
| ApiClient.EveryRequestMeetsItsFate | threads-fe/src/libs/api/axios.ts:37-77 | in every run one request's own history decides where it is: resolved exactly if its last answer was a 2xx; rejected exactly on another error, a 401 to a sign-in, sign-up or refresh call, a 401 to a replay, or a failed refresh; waiting exactly after its first 401; sent twice exactly after a good refresh |
| ApiClient.AuthCallIff | threads-fe/src/libs/api/axios.ts:29-35 | the calls never retried are those whose URL contains `/auth/signin`, `/auth/signup` or `/auth/refresh` |
| ApiClient.StepInv | threads-fe/src/libs/api/axios.ts:37-77 | every callback keeps the account of where each request is |
| ApiClient.EveryRunSettles | threads-fe/src/libs/api/axios.ts:22-27 | n requests take at most 3n answers and n refreshes; when the network owes nothing, all are settled exactly once and the queue is empty |
| ApiClient.StepMeasure | threads-fe/src/libs/api/axios.ts:51-76 | every answer from the network lowers a measure |
| ApiClient.ResponsiveNetworkSettlesAll | threads-fe/src/libs/api/axios.ts:51-76 | any network that keeps answering settles every request of every reachable state, whether refreshes succeed or fail |
| ApiClient.RefreshBoundIsTight | threads-fe/src/libs/api/axios.ts:63-76 | the bound of n refreshes is reached |
| ApiClient.AuthCallsAreSentOnce | threads-fe/src/libs/api/axios.ts:29-49 | sign-in, sign-up and refresh calls are never retried and never wait |
| ApiClient.RejectedOnlyAfterReplay | threads-fe/src/libs/api/axios.ts:45-69 | while every refresh succeeds and every answer is 2xx or 401, an ordinary request is rejected only after its replay got a 401 too |
| ApiClient.NoReplayAfterFailure | threads-fe/src/libs/api/axios.ts:70-75 | while refreshes fail, no request is sent twice |
| ApiClient.Interceptor.DrainQueue | threads-fe/src/libs/api/axios.ts:22-27 | the loop replays all waiters in order, or rejects all, and empties the queue |
| ApiClient.Interceptor.OnResponse | threads-fe/src/libs/api/axios.ts:37-65 | a 2xx resolves; any other error but a 401, a 401 on a marked request and one on an auth URL reject; otherwise the request is marked and leads a refresh or joins the end of the queue |
| ApiClient.Interceptor.OnRefresh | threads-fe/src/libs/api/axios.ts:67-75 | the leader's continuation sends the waiters in queue order and the leader last, or rejects them all |
| Rotation.OneShot | threads-be/src/modules/auth/auth.service.ts:132-170 | however calls interleave, one refresh token is consumed by at most one call |
| Rotation.StepInv | threads-be/src/modules/auth/auth.service.ts:132-194 | every database call keeps: consumed tokens are dead, and no two calls consumed the same one |
| Rotation.SessionsConserved | threads-be/src/modules/auth/auth.service.ts:132-194 | over every run, a user's sessions are what logins added less what logout, revocation, expiry and errors took; refreshing is neutral |
| Rotation.RevocationHolds | threads-be/src/modules/auth/auth.service.ts:187-194 | after all rows of a user were deleted, no token issued before yields him a session unless its delete step came first |
| Rotation.Uninterrupted | threads-be/src/modules/auth/auth.service.ts:132-170 | the steps of one call in a row succeed exactly for a token that is there and unexpired; the new row then has the same user and seven days, and otherwise the old one is gone; no other row changes |
| Rotation.SessionGoesOnIff | threads-be/src/modules/auth/auth.service.ts:132-170 | refresh after refresh succeeds exactly as long as each token is presented within seven days; the session is then the last token's row |
| Rotation.RowsAreAsWritten | threads-be/src/modules/auth/auth.service.ts:438-450 | in every run each row has the user and the expiry, seven days after signing, that the login or create step gave it |
| Rotation.RowsOnlyGo | threads-be/src/modules/auth/auth.service.ts:153-155 | no row is ever changed, and no token that is gone comes back |
| Rotation.RefreshTokenTable.RefreshTokens | threads-be/src/modules/auth/auth.service.ts:132-170 | succeeds exactly for an unexpired token and an unused new one; the new row is then the old one's user with seven days, all other rows stay, nobody's number of sessions changes; a new token that exists already costs the session |
| Rotation.RefreshTokenTable.LogoutAll | threads-be/src/modules/auth/auth.service.ts:252-255 | exactly the other users' rows remain |
| Session.CookieLiveIff | threads-be/src/modules/auth/auth.controller.ts:117-146 | between refreshes the client's cookie is a live token exactly when no consumed token's answer is missing |
| Session.NoRefreshIsRefused | threads-fe/src/libs/api/axios.ts:53-76 | while connections and the database hold, no refresh is ever refused and the cookie is live between refreshes |
| Session.AnswerReachesAll | threads-fe/src/libs/api/axios.ts:65-75 | the answer of a successful call brings the new cookie and sends the leader and all waiters again; a refusal, an error or a broken connection rejects them all |
| Session.RefreshCanEnd | threads-be/src/modules/auth/auth.service.ts:132-170 | from every reachable state with a refresh outstanding, the server can finish it and answer without any failure |
| Session.StepInv | threads-be/src/modules/auth/auth.controller.ts:121-141 | the client-server invariant that ties each refresh sent to one server call |
| Session.CutAfterDelete | threads-be/src/modules/auth/auth.service.ts:153-164 | a cut after the delete step leaves a dead cookie |
| Session.LostForGood | threads-fe/src/libs/api/axios.ts:63-76 | a dead cookie stays the cookie and stays dead |
| Session.AnyClientCanLoseItsSession | threads-be/src/modules/auth/auth.service.ts:132-170 | this can happen to every signed-in client |
| Follows.CountersAreDegrees | threads-be/src/modules/follows/follows.service.ts:17-159 | under any interleaving with stale reads, counters are in- and out-degrees, nobody follows himself, both columns sum to the number of edges |
| Follows.CallsDoAsTheySaw | threads-be/src/modules/follows/follows.service.ts:17-152 | in every interleaving a call unfollowed exactly if it found the edge and the edge was still there at its transaction, followed exactly if neither look nor the transaction found it, and was turned away otherwise, also by its second look |
| Follows.StepWrites | threads-be/src/modules/follows/follows.service.ts:77-152 | one step of a call adds its edge and one removes it; no other step writes |
| Follows.ManyClicksOneFollow | threads-be/src/modules/follows/follows.service.ts:64-102 | if no call on a pair found the edge at its first look, at most one has followed, and the edge is there exactly if one has |
| Follows.InsertConsistent | threads-be/src/modules/follows/follows.service.ts:77-102 | the follow transaction keeps all that, and commits exactly for two users without the edge |
| Follows.DeleteConsistent | threads-be/src/modules/follows/follows.service.ts:120-159 | the unfollow transaction keeps all that, and commits exactly if the edge exists |
| Follows.AloneFlips | threads-be/src/modules/follows/follows.service.ts:17-118 | an undisturbed toggle flips exactly the named edge or refuses and changes nothing; a follow whose notification throws is stored and rejected |
| Follows.RejectedChangedIff | threads-be/src/modules/follows/follows.service.ts:77-108 | a rejected toggle changed the database exactly if both users exist, differ, were not connected, and the notification throws |
| Follows.RetryUndoes | threads-be/src/modules/follows/follows.service.ts:104-108 | calling again after such a rejection removes the follow |
| Follows.TwiceIsIdentity | threads-be/src/modules/follows/follows.service.ts:17-38 | toggling twice restores edges and counters |
| Follows.SameEdgesSameDb | threads-be/prisma/schema.prisma:160-174 | users and edges determine all counters |
| Follows.FollowStore.Follow | threads-be/src/modules/follows/follows.service.ts:77-102 | statement by statement, with rollback, the transaction leaves the specified tables |
| Follows.FollowStore.UnFollow | threads-be/src/modules/follows/follows.service.ts:120-152 | the same for unfollow |
| Follows.FollowStore.ToggleFollow | threads-be/src/modules/follows/follows.service.ts:17-118 | the whole toggle with the notification after its transaction, keeping the counters right |
| Reactions.CountersAreRows | threads-be/src/modules/likes/likes.service.ts:34-132 | under any interleaving of toggles, publications and removals, likeCount and repostCount equal the rows, so never go negative |
| Reactions.CallsDoAsTheySaw | threads-be/src/modules/likes/likes.service.ts:13-132 | in every interleaving a call switched the reaction on exactly if it found the post and no row and its transaction could write, off exactly if the row was there both times, and was turned away otherwise |
| Reactions.NextWrites | threads-be/src/modules/likes/likes.service.ts:53-132 | one step of a call adds its row and one removes it; no step touches the other relation or an owner |
| Reactions.OthersDo | threads-be/prisma/schema.prisma:117-119 | publishing starts without reactions, removing takes the reactions to what is removed and no others, a soft delete only marks |
| Reactions.InsertConsistent | threads-be/src/modules/likes/likes.service.ts:53-92 | the inserting transactions keep both counters right, committed or rolled back |
| Reactions.DeleteConsistent | threads-be/src/modules/reposts/reposts.service.ts:86-120 | so do the deleting ones |
| Reactions.AloneFlips | threads-be/src/modules/reposts/reposts.service.ts:127-151 | an undisturbed toggle flips exactly the named row and its counter, and when it fails nothing changes |
| Reactions.TwiceIsIdentity | threads-be/src/modules/likes/likes.service.ts:13-51 | toggling twice restores the database |
| Reactions.ReactionStore.LikePost | threads-be/src/modules/likes/likes.service.ts:53-92 | a throwing notification rolls row and counter back |
| Reactions.ReactionStore.UnlikePost | threads-be/src/modules/likes/likes.service.ts:100-132 | the unlike transaction |
| Reactions.ReactionStore.RepostPost | threads-be/src/modules/reposts/reposts.service.ts:18-78 | the repost transaction, in which a throwing notification is swallowed |
| Reactions.ReactionStore.UnrepostPost | threads-be/src/modules/reposts/reposts.service.ts:86-120 | the unrepost transaction |
| Reactions.ReactionStore.ToggleLike | threads-be/src/modules/likes/likes.service.ts:13-51 | the whole toggle, keeping the counters right |
| Reactions.ReactionStore.ToggleRepost | threads-be/src/modules/reposts/reposts.service.ts:127-151 | the same for reposts |
| Forest.CascadeIsLeast | threads-be/prisma/schema.prisma:117-119 | what a delete removes is the least set closed under both foreign keys |
| Forest.CascadeIsSubtree | threads-be/prisma/schema.prisma:117-119 | with roots null or ancestors that is exactly the post and the replies below it |
| Forest.InsertedRows | threads-be/src/modules/posts/posts.service.ts:85-143 | a create adds its row, raises the parent's counter, and touches nothing else |
| Forest.InsertedCounts | threads-be/src/modules/posts/posts.service.ts:137-143 | it keeps reply counts right |
| Forest.RemovedRows | threads-be/src/modules/posts/posts.service.ts:223-235 | a delete keeps foreign keys, removes the cascade, lowers the parent's counter by one, and touches nothing else |
| Forest.DeleteKeepsCountsIff | threads-be/src/modules/posts/posts.service.ts:223-235 | it keeps reply counts right exactly when its cascade takes every reply with its parent |
| Forest.RemovedRoots | threads-be/prisma/schema.prisma:117-119 | it keeps roots ancestors |
| Forest.StrayRootBreaksCounts | threads-be/src/modules/posts/posts.service.ts:93 | a table with a root outside the thread, and the delete that makes a count wrong |
| Posts.StrayRootRun | threads-be/src/modules/posts/posts.service.ts:36-242 | three creates lead to that table, and a delete to the wrong count |
| Posts.RunForest | threads-be/src/modules/posts/posts.service.ts:36-242 | in every run, whatever roots are sent, foreign keys hold and no reply count is too low |
| Posts.ReplyCountsAreRight | threads-be/src/modules/posts/posts.service.ts:137-143 | in every run with roots null or ancestors, replyCount equals the number of child rows and deletes remove subtrees |
| Posts.OnlyOwnersDelete | threads-be/src/modules/posts/posts.service.ts:207-235 | in every run a post disappears only in the cascade of a delete that the owner of the deleted post asked for |
| Posts.ObjectsAre | threads-be/src/uploads/processors/cleanup.processor.ts:45 | an object enters the store by an upload and leaves it only by a clean-up that was scheduled |
| Posts.ImagesAreKept | threads-be/src/modules/posts/posts.service.ts:147-152 | in every run whose keys do not collide, the image of an existing post is stored and never scheduled for deletion |
| Posts.ImagesAreKeptIff | threads-be/src/modules/posts/posts.service.ts:237-241 | for any keys whatsoever, this holds of all runs over a set of them exactly if none is read back from the URL of another |
| Posts.GeneratedImagesAreKept | threads-be/src/modules/posts/posts.service.ts:65-152 | on an origin it holds of every run whose keys are generated, each with its own timestamp and random number |
| Posts.SafeKeysDoNotCollide | threads-be/src/modules/posts/posts.service.ts:601-608 | on an origin, safe keys do not collide |
| Posts.StepFiles | threads-be/src/modules/posts/posts.service.ts:223-241 | every step keeps: the keys of rows and uploads are stored, unscheduled and unshared |
| Posts.NoImageLeaks | threads-be/src/modules/posts/posts.service.ts:65-109 | if uploads succeed whole, clean-ups are accepted, and deletes meet no replies' images and no key that is lost on the way back, every stored key is referenced, scheduled, or held by a running call |
| Posts.DeleteLeaksIff | threads-be/src/modules/posts/posts.service.ts:237-241 | a delete leaks exactly the images of the replies its cascade takes and the own ones whose keys do not come back from their URLs |
| Posts.GeneratedDeleteLeaksIff | threads-be/src/modules/posts/posts.service.ts:207-242 | after every run with generated keys on an origin: the replies' images, and the own ones with unsafe keys |
| Posts.ReplyImageLeaks | threads-be/src/modules/posts/posts.service.ts:207-242 | a post, a reply with an image, and a delete: the image stays and nobody knows of it |
| Posts.PostStore.Create | threads-be/src/modules/posts/posts.service.ts:82-152 | row and parent counter on success, clean-up of the uploaded keys on a foreign key error; counts stay right |
| Posts.PostStore.Delete | threads-be/src/modules/posts/posts.service.ts:207-242 | only the owner deletes; cascade, counter, and the keys read back from the URLs are scheduled |
| Posts.PostStore.DeleteRow | threads-be/src/modules/posts/posts.service.ts:224-235 | its transaction |
| Urls.RoundTripIff | threads-be/src/uploads/s3.service.ts:169-182 | on an http or https origin a key comes back from its URL exactly if it is safe, and what comes back is always safe |
| Urls.CutAtQuery | threads-be/src/uploads/s3.service.ts:174-181 | a key with a `?` or `#` comes back as what stands before it |
| Urls.NewlineVanishes | threads-be/src/uploads/s3.service.ts:174-181 | tabs and newlines are dropped |
| Urls.BackslashIsSlash | threads-be/src/uploads/s3.service.ts:174-181 | a backslash comes back as a slash |
| Urls.DotsVanish | threads-be/src/uploads/s3.service.ts:174-181 | a dot segment is dropped, one that means "one up" together with the segment before it |
| Urls.EncodedInPlace | threads-be/src/uploads/s3.service.ts:174-181 | any other unsafe character comes back encoded in its place |
| Urls.EncodedIsUtf8 | threads-be/src/uploads/s3.service.ts:174-181 | encoded means its UTF-8 bytes (RFC 3629, section 3), three characters each |
| Urls.KeptCharacters | threads-be/src/uploads/s3.service.ts:174-181 | the characters that paths keep, listed |
| Urls.DotSpellings | threads-be/src/uploads/s3.service.ts:174-181 | the spellings of dot segments, listed |
| Urls.GeneratedKeyIs | threads-be/src/uploads/s3.service.ts:160-166 | folder, time, random number and the text after the last dot, in that order |
| Urls.ScheduledKeysIff | threads-be/src/modules/posts/posts.service.ts:237-241 | the keys read back from a set of URLs are the stored ones exactly if all of those are safe |
| Urls.NoSchemeNoKey | threads-be/src/modules/posts/posts.service.ts:601-608 | a domain without a colon never gives a key back, but the whole URL |
| Urls.PathRoundTripIff | threads-be/src/uploads/s3.service.ts:169-182 | on an origin followed by a path, a key comes back exactly if it is safe and the path cancels out |
| Urls.NoKeyBehindPath | threads-be/src/uploads/s3.service.ts:169-172 | with a trailing slash or an ordinary path no key comes back |
| Urls.GeneratedKeyRoundTripIff | threads-be/src/uploads/s3.service.ts:160-166 | a generated key comes back exactly if the extension of the file name is safe |
| Urls.SpaceDoesNotComeBack | threads-be/src/uploads/s3.service.ts:163 | the key of a file called "my photo" does not come back |
| Urls.ReadBackKeepsStem | threads-be/src/uploads/s3.service.ts:160-182 | if one generated key is read back from the URL of another, both have the same timestamp and random number |
| Urls.GeneratedKeysDoNotCollide | threads-be/src/uploads/s3.service.ts:160-182 | on an origin no generated key is read back from the URL of another, safe or not |
| Urls.Extension | threads-be/src/uploads/s3.service.ts:163 | the text after the last dot |
| Paging.PagingUnderWrites | threads-fe/src/hooks/useNewsfeed.tsx:27-106 | however fetches of user posts or newsfeed interleave with new posts, for all limits: no duplicates, and the posts there at the start appear in order without a gap; all of them by the end, if the newsfeed is never asked for more than 100 |
| Paging.ShownNewestFirst | threads-be/src/modules/posts/posts.service.ts:451-452 | whatever is posted meanwhile, what is shown is pinned posts first and then newest first |
| Paging.ScrollingEnds | threads-fe/src/hooks/useNewsfeed.tsx:94-106 | once more posts have been asked for than were there or were added, the query is finished |
| Paging.NewsInv | threads-be/src/modules/posts/posts.service.ts:286-411 | a newsfeed page continues where the cursor stands, for every limit |
| Paging.LargeNewsCompleteIff | threads-be/src/modules/posts/posts.service.ts:366-409 | a newsfeed fetch of more than 100 ends the feed, and has shown all old posts exactly if none lies beyond the next 101 |
| Paging.PageIs | threads-be/src/modules/posts/posts.service.ts:421-545 | a page is the next piece of the list and its cursor continues right after it, or it is the last |
| Paging.CoverMore | threads-fe/src/hooks/useNewsfeed.tsx:106 | appending a page repeats and skips nothing |
| Paging.PositionInserted | threads-be/src/modules/posts/posts.service.ts:447-452 | an insertion does not move the cursor among the other posts |
| Paging.ScrollShowsAll | threads-fe/src/hooks/useNewsfeed.tsx:94-106 | without writes the pages concatenate to the list, in max(1, ceil(n / take)) calls |
| Paging.NewsfeedCompleteIff | threads-be/src/modules/posts/posts.service.ts:286-411 | the newsfeed scrolls through everything exactly for limits 1 to 100, or above that at most 101 posts, or limit 0 and none |
| Suggestions.SuggestionsEndToEnd | threads-be/src/modules/suggestions/suggestions.service.ts:12-52 | what the user sees: no one twice, not himself, no one followed, at most `limit`, each number the number of followed users who follow that person, non-increasing |
| Suggestions.OmittedScoreNoMore | threads-be/src/modules/suggestions/suggestions.service.ts:34-52 | whoever is left out scores no more than anyone shown |
| Suggestions.ShownIff | threads-be/src/modules/suggestions/suggestions.service.ts:38-87 | with places left, exactly those are shown who have mutual connections or have fewer more popular users before them than there are free places |
| Suggestions.ShownOrder | threads-be/src/modules/suggestions/suggestions.service.ts:34-46 | who comes first: more mutual connections, then the order of the lists, then popularity |
| Suggestions.PickedIff | threads-be/src/modules/suggestions/suggestions.service.ts:54-84 | a popular user is picked exactly if he may be suggested and fewer than `limit` such users are more popular |
| Suggestions.PicksAre | threads-be/src/modules/suggestions/suggestions.service.ts:54-84 | the number picked is the limit or all there are, none twice, the more popular first |
| Suggestions.PassedOverHasFewer | threads-be/src/modules/suggestions/suggestions.service.ts:78-83 | nobody passed over has more followers than somebody picked |
| Suggestions.ShownCount | threads-be/src/modules/suggestions/suggestions.service.ts:38-87 | the number shown: those with mutual connections, and those chosen by popularity who have none |
| Suggestions.FullIff | threads-be/src/modules/suggestions/suggestions.service.ts:38-48 | the list has `limit` entries exactly if that many people have mutual connections, or enough users may be suggested and none of the most popular ones that fill the places has a mutual connection |
| Suggestions.PlaceStaysEmpty | threads-be/src/modules/suggestions/suggestions.service.ts:59-64 | a graph in which a place stays empty though somebody could be suggested |
| Suggestions.CountIsMutuals | threads-be/src/modules/suggestions/suggestions.service.ts:16-32 | occurrences in the flattened lists count mutual connections |
| Suggestions.SortKeeps | threads-be/src/modules/suggestions/suggestions.service.ts:34-36 | the sort ranks by count and repeats nobody |
| Suggestions.SortOrder | threads-be/src/modules/suggestions/suggestions.service.ts:34-36 | and leaves equal counts in their order |
| Suggestions.UniqueOfItems | threads-fe/src/hooks/useSuggestion.tsx:26-43 | the client's dedup on ids is dropping repeated entries |
| Suggestions.UniqueItemsAre | threads-fe/src/hooks/useSuggestion.tsx:26-43 | every id stays, none twice, and entries without id all stay |
| Suggestions.UniqueSuggestions | threads-fe/src/hooks/useSuggestion.tsx:26-43 | the loop keeps entries without id and first occurrences of the others |
| Suggestions.CountUsers | threads-be/src/modules/suggestions/suggestions.service.ts:26-32 | the accumulator ends as the count of every id |
| Conversations.ConversationsAreSound | threads-be/src/modules/conversations/conversations.service.ts:35-106 | over every sequence of calls: at most one active DIRECT per pair, two rows in every DIRECT, one owner in every GROUP, nobody an admin |
| Conversations.ParticipantsAndOwnersAreForever | threads-be/src/modules/conversations/conversations.service.ts:430-470 | the two of a DIRECT and the owner of a GROUP never change |
| Conversations.LengthCheckIff | threads-be/src/modules/conversations/conversations.service.ts:39-46 | comparing lengths accepts exactly lists of existing users without repetition |
| Conversations.RefusalIff | threads-be/src/modules/conversations/conversations.service.ts:29-78 | the requests that `create` refuses, said without counting rows |
| Conversations.CreateAnswers | threads-be/src/modules/conversations/conversations.service.ts:21-147 | `create` refuses exactly bad requests; returns the pair's active DIRECT, changing nothing, exactly if there is one; and otherwise adds one conversation with exactly the given people and the caller, nobody gone, the first listed owning a group |
| Conversations.CreatorOwnsIff | threads-be/src/modules/conversations/conversations.service.ts:93-102 | the creator owns the group exactly if he is listed first |
| Conversations.AddSucceedsIff | threads-be/src/modules/conversations/conversations.service.ts:413-470 | exactly a group's owner adds, exactly people not in it; all other rows stay |
| Conversations.AddRefusals | threads-be/src/modules/conversations/conversations.service.ts:407-452 | how everybody else is answered |
| Conversations.LeaveIff | threads-be/src/modules/conversations/conversations.service.ts:514-543 | exactly whoever is in a conversation leaves it; his row is marked and nothing else changes |
| Conversations.PresenceChanges | threads-be/src/modules/conversations/conversations.service.ts:407-543 | people come into an existing conversation only when the owner of a group adds them, and go only by leaving |
| Conversations.AddUndoesLeave | threads-be/src/modules/conversations/conversations.service.ts:455-470 | adding somebody back restores kind, participants, roles and who has left |
| Conversations.StaleLookIff | threads-be/src/modules/conversations/conversations.service.ts:56-64 | a write after an old look keeps the invariant exactly if the pair still has no conversation |
| Conversations.PhaseKeepsInvIff | threads-be/src/modules/conversations/conversations.service.ts:56-106 | with looks and writes as steps of their own, a step keeps the invariant exactly if it is no stale write |
| Conversations.PhasesInARow | threads-be/src/modules/conversations/conversations.service.ts:56-106 | a look and a write in a row are the whole call |
| Conversations.SoundWithoutStaleWrites | threads-be/src/modules/conversations/conversations.service.ts:21-147 | every interleaving without a stale write keeps conversations sound |
| Conversations.TwoLooksTwoConversations | threads-be/src/modules/conversations/conversations.service.ts:56-106 | a run from the empty state in which two people end with two conversations |
| Conversations.ConversationStore.FindExistingDirectConversation | threads-be/src/modules/conversations/conversations.service.ts:663-705 | it finds an active DIRECT of the two exactly if there is one |
| Conversations.ConversationStore.CreateConversation | threads-be/src/modules/conversations/conversations.service.ts:21-147 | the same of the tables before and after, and the invariant |
| Conversations.ConversationStore.Add | threads-be/src/modules/conversations/conversations.service.ts:407-482 | the whole new state and outcome |
| Conversations.ConversationStore.LeaveConversation | threads-be/src/modules/conversations/conversations.service.ts:514-543 | the whole new state and outcome |
| Notifications.NotificationsMirrorEdges | threads-be/src/modules/notifications/notifications.service.ts:45-75 | over every run, one notification per like, repost and follow of somebody else, to the right person, and none besides |
| Notifications.NoDuplicateEver | threads-be/src/modules/notifications/notifications.service.ts:140-156 | before a new edge the duplicate check finds nothing |
| Notifications.DuplicateCheckNeverFires | threads-be/src/modules/notifications/notifications.service.ts:53-61 | so every new edge to somebody else makes its row |
| Notifications.UndoInv | threads-be/src/modules/likes/likes.service.ts:122-131 | undoing an edge removes its notification and no other |
| Notifications.RemoveInv | threads-be/prisma/schema.prisma:293 | removing posts keeps the mirror |
| Notifications.OnlyTheRecipientReads | threads-be/src/modules/notifications/notifications.service.ts:120-132 | over every run a notification changes in nothing but being read, exactly if its recipient read it or all of his |
| Notifications.EdgesAre | threads-be/src/modules/likes/likes.service.ts:13-51 | a toggle flips the edge it names and no other |
| Notifications.NotificationStore.Send | threads-be/src/modules/notifications/notifications.service.ts:45-61 | one unread row is added exactly if it is not to oneself and the same was not told within a day |
| Notifications.NotificationStore.MarkAll | threads-be/src/modules/notifications/notifications.service.ts:127-132 | exactly the user's rows become read |
| ResetTokens.TokensAreLimitedAndSingleUse | threads-be/src/modules/auth/auth.service.ts:260-342 | never more than three live tokens per user; no token resets twice |
| ResetTokens.WindowExcludesNothing | threads-be/src/modules/auth/auth.service.ts:304-314 | the 24-hour window turns no live token away |
| ResetTokens.ResetEndsAll | threads-be/src/modules/auth/auth.service.ts:316-341 | a reset succeeds exactly for a live token of that user, and leaves him, and only him, none |
| ResetTokens.SentTokenWorksIff | threads-be/src/modules/auth/auth.service.ts:271-341 | a token that was sent works, whatever happens in between, exactly within 30 minutes and before any reset of its user |
| ResetTokens.CommitSingleUseIff | threads-be/src/modules/auth/auth.service.ts:328-341 | with search and transaction as steps of their own, a transaction keeps single use exactly if its row is still unused |
| ResetTokens.PhasesInARow | threads-be/src/modules/auth/auth.service.ts:298-342 | search and transaction in a row are the whole call |
| ResetTokens.NoTokenTwiceIfInTime | threads-be/src/modules/auth/auth.service.ts:298-342 | every interleaving without a late transaction uses no token twice |
| ResetTokens.RaceUsesTokenTwice | threads-be/src/modules/auth/auth.service.ts:307-341 | two interleaved calls that reset a password twice with one token |
| ResetTokens.LateRequestIff | threads-be/src/modules/auth/auth.service.ts:271-288 | a row written after an old count leaves at most three live tokens exactly if there are fewer than three by then |
| ResetTokens.ResetTokenTable.RequestPasswordReset | threads-be/src/modules/auth/auth.service.ts:271-288 | exactly if fewer than three tokens are live a row is written: unused, for this user and token, for 30 minutes |
| ResetTokens.ResetTokenTable.FindMatch | threads-be/src/modules/auth/auth.service.ts:316-322 | the loop finds a matching candidate exactly if there is one |
| ResetTokens.ResetTokenTable.ResetPassword | threads-be/src/modules/auth/auth.service.ts:298-342 | the rows end as specified |
| FeedCache.NewsfeedShowsTheServer | threads-fe/src/hooks/useNewsfeed.tsx:132-228 | after every sequence of fetches and toggles, each newsfeed copy shows the user's like and repost and the numbers of rows |
| FeedCache.NewsfeedShowsWhatWasFetched | threads-fe/src/hooks/useNewsfeed.tsx:94-106 | after every sequence of fetches and toggles a newsfeed holds exactly the posts fetched for it, in order |
| FeedCache.FlipFollowsServer | threads-fe/src/hooks/useNewsfeed.tsx:149-178 | the optimistic update changes a copy as the toggle changes the server |
| FeedCache.FailureRestoresAll | threads-fe/src/hooks/useNewsfeed.tsx:211-228 | a failed toggle leaves cache and server as they were |
| FeedCache.RollbackIsExact | threads-fe/src/hooks/useNewsfeed.tsx:213-222 | restoring the snapshot restores every query |
| FeedCache.LostAnswerRightIff | threads-fe/src/hooks/useNewsfeed.tsx:211-222 | when only the answer is lost, the rollback is right exactly if the post is not shown |
| FeedCache.ProfileCopyRightIff | threads-be/src/modules/posts/posts.controller.ts:91-96 | after the first toggle, a copy without flags is right exactly if the user had not reacted |
| FeedCache.ProfileRightForEverIff | threads-fe/src/hooks/useNewsfeed.tsx:179-207 | after any number of toggles its flag is right exactly if the user had not reacted when it was fetched |
| FeedCache.ProfileCountsDriftByTwo | threads-fe/src/hooks/useNewsfeed.tsx:179-207 | in every run its count is the server's, or two too high when the flag is set and the user has not reacted |
| FeedCache.QueryCache.Mutate | threads-fe/src/hooks/useNewsfeed.tsx:249-342 | snapshot, update and, on an error, restoring: the cache ends updated on success and unchanged on failure |
| Usernames.AllocateUsername | threads-be/src/modules/auth/auth.service.ts:498-505 | the loop ends within one probe more than there are taken names, with the first free name of the sequence |
| Usernames.NamesDiffer | threads-be/src/modules/auth/auth.service.ts:503 | no two probes try the same name |
| Usernames.DecimalReads | threads-be/src/modules/auth/auth.service.ts:503 | the counter is printed in decimal without leading zero |
| Usernames.DecimalInjective | threads-be/src/modules/auth/auth.service.ts:503 | different counters print differently |
| Usernames.BoundIsReached | threads-be/src/modules/auth/auth.service.ts:502-505 | the bound cannot be improved |
| Mentions.ExtractMentions | threads-be/src/modules/messages/messages.service.ts:211-221 | the scan yields all mentions in the text, in order, then without repetition |
| Mentions.Exec | threads-be/src/modules/messages/messages.service.ts:216 | one search finds the first mention at or after its index and skips none |
| Mentions.MentionedIff | threads-be/src/modules/messages/messages.service.ts:212-218 | a text is mentioned exactly if it stands right after some `@`, consists of word characters, and is not followed by another |
| Mentions.MentionsExample | threads-be/src/modules/messages/messages.service.ts:212-218 | letters of either case, digits and the underscore belong to a mention, other characters end it |
| Mentions.MentionsInOrder | threads-be/src/modules/messages/messages.service.ts:216-218 | one mention per start, in ascending order |
| Mentions.RunIsMaximal | threads-be/src/modules/messages/messages.service.ts:212 | a run is not followed by another word character |
| Mentions.KeepsFirsts | threads-be/src/modules/messages/messages.service.ts:220 | every text stays once, in the order of first occurrence |

## Left out

- Session.NoRefreshIsRefused: excludes logout, revocation and expiry, which make tokens disappear for their own reasons (module Rotation covers them); several tabs sharing one cookie, and the client's direct call of the refresh endpoint outside the interceptor, are not modelled.
- Rotation.OneShot: takes signing to be fresh. Two tokens signed for one user within the same second are the same string, and the unique key then refuses the second (`Rotation.RefreshTokenTable.RefreshTokens` covers that for one call).
- ApiClient.SingleFlight: the retry mark is taken to stay with the request when it is sent again, as the HTTP client copies the configuration.
- Paging.PagingUnderWrites: posts with distinct creation times, since the order has no tie-break, and no deletion or change of a pin while scrolling.
- Notifications.NotificationsMirrorEdges: calls one after the other, none failing; interleavings of the three services are not modelled.
- ResetTokens.TokensAreLimitedAndSingleUse: calls one after the other; for interleaved calls see `ResetTokens.CommitSingleUseIff` and `ResetTokens.LateRequestIff`.
- Follows.FollowStore.UnFollow: the notification rows that its transaction deletes are in module Notifications, not in this store, and a database error in that statement is not an outcome here.
- Reactions.ReactionStore.UnlikePost: the same for its notification rows.
- Reactions.ReactionStore.UnrepostPost: the same for its notification rows.
- Conversations.ConversationsAreSound: whole calls one after the other; for interleaved creates see `Conversations.SoundWithoutStaleWrites`.
- Conversations.AddUndoesLeave: the times of joining and leaving and the system messages are not modelled; the source writes a new joining time and two messages.
- Conversations.ConversationStore.Add: the joining time and the system message are not in this store.
- Conversations.ConversationStore.LeaveConversation: the system message is not in this store; of the leaving time, only that there is one.
- FeedCache.NewsfeedShowsTheServer: one user, nobody else acting, each toggle settled before the next, and answers that arrive; refetches and invalidation are fetches of further pages.
- Suggestions.PassedOverHasFewer: among users with equally many followers the order is whatever the database returns; each user is listed once.
- Rotation.RowsAreAsWritten: seven days are 604800000 milliseconds; the source adds seven calendar days, which differ by an hour across a clock change of the server's time zone.
- Urls.RoundTripIff: which texts the URL parser accepts as credentials, host and port, what it does with schemes other than http and https, and whether it encodes `^`, are parameters; the result holds for all of them. Characters are Unicode scalar values, so unpaired surrogates do not occur.
- Posts.ImagesAreKept: keys are values that uploads never repeat; a media row stands for the URL of its key.
- `softDelete`, which lowers the parent's counter again each time it is called, is not an event of the reply forest.
- Users are never deleted; hashtags (their counts are not lowered on delete), bookmarks, blocks and comments.
- Reading a conversation, its messages, unread counts and pins; system messages of groups.
- Sockets, mail, the job queue's retries, resizing, password hashing and token signing.
- Access tokens, guards, validation of request bodies, and all components of the user interface.
