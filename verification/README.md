# A verified model of the social network service

The repository is a social network backend: an HTTP application, a chat service and a counter service that
share work through Redis, PostgreSQL and RabbitMQ. Three of its state machines span several processes and
are only safe because of the order in which single commands are issued. This project models those three,
the stores under them and two computational kernels, and proves what they keep over every run.

| modules | what they model |
|---|---|
| `CounterFunctions`, `CounterReconciler` | the Redis functions on the unread counters, the consumer's two increments, the SCAN loop of the reconciler, as classes and methods over the Redis hash |
| `DialogStore` | the two-level dialog index, compared with one log of all sends |
| `UnreadSaga` | the unread-counter saga: every Redis command, publish, delivery, acknowledgement, crash and reply is one step, a call that failed may still be executed later, and any interleaving is a run |
| `SagaSteps` | what each step of the saga does to the counters, the dialogs and the message it is about |
| `SagaDrift`, `SagaDelivery`, `SagaReading` | theorems over all runs of the saga |
| `ChatBackend` | the send, consume and open-dialog code, call by call: what it leaves in the stores, and that it makes the steps of the saga in the right order |
| `PostFeed` | the materialised feed: a handler or consumer call is one step, events may be repeated, late or out of order, and a call may fail part of the way: after the row is written and before the lists are dropped, or after some of the followers |
| `FeedSteps` | what each step of the feed does to the tables, the queue and the lists |
| `FeedSelection`, `FeedCoherence`, `FeedBreaks`, `FeedDiscipline`, `FeedPaging` | when the cached lists agree with the query, exactly, over all runs of the feed; a run for each way to break it; a discipline that is enough; the slices a read returns |
| `FeedNotification`, `FeedStale`, `FanOut` | feed, fan-out and any number of instances with their queues and sessions in one state machine: from a new post to a session and back to the feed, and how often a message is processed |
| `PostFeedCache` | `PostFeedCache` and the handlers around it as a class that writes in place, with what each method leaves in the tables and lists, and proved to be one feed step |
| `FeedCommands` | the feed lists at the granularity of single Redis commands |
| `WsRegistry`, `WsDelivery`, `PostFeedWs` | the WebSocket session registry of an instance, what each session hears over a whole run, and the manager as a class that makes the steps of that run |
| `VirtualBucket` | the FNV-1a bucket hash in wrapping 64-bit arithmetic |
| `PasswordHasher` | hex coding, comparison, registration and login |
| `Wrappers`, `Sums`, `Order`, `Bits` | shared vocabulary: results, sums over sequences and maps, the lexicographic order, bitwise operators on numbers |

Messages, executions of the consumer, reconciles per user and dialog-open requests are recorded in the state
of the saga although the program does not store them. Failures are choices of the environment: whether a
publish, an increment, a reset call, an invalidation or a SCAN succeeds, and whether a failed call still takes
effect, is a parameter of the method or part of a step. User ids are arbitrary texts throughout.

## What the proofs show about the code

- `total` is not always the sum of the dialog fields. Its distance from the sum is known exactly in every run
  (`SagaDrift.DriftSandwich`), and a run in which it is wrong is given (`SagaDrift.DriftHappens`).
- The comment at `src/dialog/dialog_list_handler.cpp:56-57` says that the reconciler corrects stale counts
  after a failed reset. It does not: it recomputes `total` from the dialog fields and never lowers a dialog
  field. The count of a dialog falls if and only if that dialog is reset while the count is positive
  (`SagaDelivery.FallsExactly`, `SagaDelivery.StaleUntilReset`), and a run in which it is stale after a
  reconcile is given (`SagaDelivery.StaleHappens`). The model follows the code.
- A reset whose call ended with an error may still be executed later. Then it can mark a message as read
  that the request did not show (`SagaReading.HidingHappens`). `SagaReading.SeenWhateverFollows` says exactly
  when that can happen: if and only if the reset had not run when its call ended. A reply to the call rules
  it out.
- The cached lists equal the query, less the posts still queued, throughout a run if and only if every step
  is taken under its guard (`FeedCoherence.GuardIsExact`, `FeedCoherence.RefinesExactly`). The guards fail
  for a lost publish, a repeated event, an event overtaken by a newer one, an event whose post was changed or
  deleted before a follower's feed was loaded, a load that shows a post still queued, and an invalidation
  that fails after the row was written while the change shows in a list; `FeedBreaks` has a run for each.
  Edits, deletions, follows and unfollows whose invalidation is done need no guard, also while the event of
  the post is queued.
- The entries of a cached feed are by people its user follows, throughout a run, if and only if no unfollow
  fails to drop a list that holds a post of the former friend (`PostFeed.FriendIsolation`).
- A notification can be read back (`FeedNotification.NotificationCanBeReadBack`), except from a list that
  lacks posts of a new friend because the follow failed to drop it. Such a follow hides something if and only
  if the list lacks a materialised post of the new friend and is not full of newer ones
  (`FeedNotification.FollowHidesExactly`); a run in which it does is given (`FeedStale.KeptFollowHides`).
- A hit and a miss of `GetFeed` return different slices for some arguments, first of all for offset 0 and
  limit 0. The exact set is given by `FeedPaging.HitAndMissAgree`.
- Index keys of dialogs can collide when an id contains a colon, which the chat service does not rule out.
  Which pairs share a key is given exactly, for all ids (`DialogStore.IdxKeyExact`), and a listing is the
  pair's own log if and only if no other pair shares its key (`DialogStore.ListRefinesPairLog`). Ids
  without a colon, as UUID texts are, never collide.
- A deletion between EXISTS and LPUSH turns a full list into a list of one entry (`FeedCommands.LoneEntry`).
  Throughout a run whoever is about to push finds a list, if and only if every deletion of it comes while
  nobody stands between the two commands (`FeedCommands.PushExtendsExactly`).
- Counted, underway and never published messages of a dialog exceed the stored ones by exactly what requeued
  events and late increments have counted again (`SagaDelivery.Conservation`).

## Model

| member | source | states |
|---|---|---|
| CounterFunctions.CounterStore.ResetDialog | scripts/redis/counter_functions.lua:6-21 | the read, zero, subtract and clamp sequence sets the dialog's count to zero, takes it from `total` but not below zero, changes no other field or user, writes no key when there is nothing to clear, and returns the count it cleared |
| CounterFunctions.CounterStore.ReconcileUser | scripts/redis/counter_functions.lua:26-42 | sets `total` to the sum of the positive dialog fields and changes nothing else |
| CounterFunctions.ComputeTotal | scripts/redis/counter_functions.lua:29-39 | the loop over the flat HGETALL reply adds every positive field other than `total` exactly once, in whatever order Redis lists the fields |
| CounterFunctions.DialogSumPut | scripts/redis/counter_functions.lua:35-37 | a write to one field moves the sum of the dialog fields by the change of that field, and a write to `total` does not move it |
| CounterFunctions.ReconcileEndsDrift | scripts/redis/counter_functions.lua:26-42 | on non-negative counters a reconcile makes `total` equal to the dialog sum, and leaves every dialog field alone |
| CounterFunctions.ResetDrift | scripts/redis/counter_functions.lua:12-20 | a reset clears its field and no other; without a clamp it keeps the drift, and with one it raises a negative drift by the clamped amount, to at most zero |
| CounterReconciler.UserOfInvertsKey | counter-service/src/counter/counter_reconciler.cpp:55 | cutting the prefix off a user's key gives the user |
| CounterReconciler.KeyInvertsUserOf | counter-service/src/counter/counter_reconciler.cpp:43-60 | a key matched by the pattern is the key of the user cut out of it, so the call hits the hash that was found |
| CounterReconciler.ReconcileTwice | scripts/redis/counter_functions.lua:26-42 | reconciling is idempotent, so keys that SCAN repeats are harmless |
| CounterReconciler.ReconcileBatch | counter-service/src/counter/counter_reconciler.cpp:51-69 | the inner loop reconciles exactly the users whose call runs, and skips the failed ones |
| CounterReconciler.RunReconciliation | counter-service/src/counter/counter_reconciler.cpp:34-71 | the cursor loop stops at the first cursor 0, or at a failed SCAN, and reconciles exactly the users visited before that whose call ran |
| CounterReconciler.PassEndsDrift | counter-service/src/counter/counter_reconciler.cpp:34-71 | a pass without concurrent writers leaves `total` equal to the dialog sum for every repaired user, and every other user unchanged |
| CounterReconciler.RepairedExactly | counter-service/src/counter/counter_reconciler.cpp:38-70 | a user is repaired if and only if one of the visited keys is the user's and its call ran |
| DialogStore.DialogRedis.DialogSend | chat-service/scripts/redis/dialog_functions.lua:12-22 | writes the record under the id and appends the id to the index of the unordered pair; every other record and index is as before |
| DialogStore.DialogRedis.DialogList | chat-service/scripts/redis/dialog_functions.lua:26-37 | reads the records of all ids of the pair in index order, with an empty entry for a missing record |
| DialogStore.IdxKeyExact | chat-service/scripts/redis/dialog_functions.lua:3-9 | for all ids, two pairs share a key if and only if they are the same unordered pair, or the key text of one is that of the other split at another of its colons |
| DialogStore.OrderedKeyExact | chat-service/scripts/redis/dialog_functions.lua:5-7 | for all ids, two ordered pairs give the same text exactly when they are equal or one is the other with its split moved to another colon |
| DialogStore.IdxKeyInjective | chat-service/scripts/redis/dialog_functions.lua:3-9 | two pairs of ids without a colon share a key exactly when they are the same unordered pair |
| DialogStore.SmallerComesFirst | chat-service/scripts/redis/dialog_functions.lua:3-9 | the id with the smaller character at the first difference comes first in the key |
| DialogStore.UuidIsColonFree | chat-service/scripts/redis/dialog_functions.lua:3-9 | ids in the text form of section 4 of RFC 9562 contain no colon |
| DialogStore.IdxKeyCollision | chat-service/scripts/redis/dialog_functions.lua:3-9 | a smallest example of two different pairs that share a key, for which `IdxKeyExact` gives the exact condition |
| DialogStore.ReplayRecord | chat-service/scripts/redis/dialog_functions.lua:18-19 | after any sends with distinct ids, each is found under its id |
| DialogStore.ReplayIndex | chat-service/scripts/redis/dialog_functions.lua:17-20 | after any sends, the index under any key holds the ids of exactly the sends with that key, in send order |
| DialogStore.KeyLogInOrder | chat-service/scripts/redis/dialog_functions.lua:20 | the ids of an index are at rising positions of the log of all sends |
| DialogStore.ListIsKeyLog | chat-service/scripts/redis/dialog_functions.lua:26-37 | whatever the ids, listing a dialog from either side gives the messages sent to its key, in send order, none missing its record |
| DialogStore.ListRefinesPairLog | chat-service/scripts/redis/dialog_functions.lua:26-37 | the listing is exactly the messages the two users sent each other, in send order, if and only if no send between another pair went to their key |
| DialogStore.ColonFreeIsUnmixed | chat-service/scripts/redis/dialog_functions.lua:3-22 | when no id contains a colon no other pair's send went to the key |
| DialogStore.IndexedHasRecord | chat-service/scripts/redis/dialog_functions.lua:12-22 | every indexed id has its record, and the pair in that record is the pair of the index |
| DialogStore.IndexedOnce | chat-service/scripts/redis/dialog_functions.lua:12-22 | an id occurs in one index only, and there only once |
| SagaDrift.DriftSandwich | scripts/redis/counter_functions.lua:6-42 | in every reachable state `total` minus the dialog sum is new minus late plus what clamps repaired since the last reconcile; it lies between new minus late and new; `total` is exact if and only if new plus repaired equals late |
| SagaDrift.CountersNonNegative | scripts/redis/counter_functions.lua:6-42 | in every reachable state no counter of any user is negative |
| SagaDrift.ClampIsRepair | scripts/redis/counter_functions.lua:15-18 | the clamp fires only when more late than new increments are outstanding, and then strictly shrinks the drift without passing zero; a reset that does not clamp keeps the drift |
| SagaDrift.DriftHappens | counter-service/src/counter/counter_consumer.cpp:62-66 | a crash between the two increments leaves `total` one ahead |
| SagaDrift.ClampHappens | scripts/redis/counter_functions.lua:16-18 | a reconcile between the two increments makes the clamp fire when the dialog is opened |
| SagaDrift.SaneStep | counter-service/src/counter/counter_consumer.cpp:62-66 | each step of each actor keeps the exact account of every user's drift |
| SagaDelivery.Conservation | counter-service/src/counter/counter_consumer.cpp:53-67 | in every run: the dialog field plus everything its resets returned is the number of second increments ever made; together with the messages underway and those never published it is the stored messages plus exactly what requeues and late increments counted again; and every published event is unacknowledged or counted |
| SagaDelivery.FaultFreeConservation | counter-service/src/counter/counter_consumer.cpp:53-67 | without faults field, returned counts and messages underway add up to the stored messages |
| SagaDelivery.CountedStep | counter-service/src/counter/counter_consumer.cpp:53-67 | what a step counts beyond one increment for each message that becomes done: one for the requeue of an event that was counted, one for a second increment that runs late, and nothing for any other step |
| SagaDelivery.ClearMovesUnread | scripts/redis/counter_functions.lua:12-20 | a reset moves exactly the unread increments of its dialog to what it returned, and leaves every other dialog alone |
| SagaDelivery.FallsExactly | scripts/redis/counter_functions.lua:6-42 | a step of any actor lowers the unread count of a dialog if and only if it resets that dialog while the count is positive, and the count is zero then |
| SagaDelivery.StaleUntilReset | src/dialog/dialog_list_handler.cpp:55-71 | in any run the unread count of a dialog falls somewhere if and only if the dialog is reset there while the count is positive, however often the reconciler runs |
| SagaDelivery.StaleHappens | src/dialog/dialog_list_handler.cpp:55-71 | a run in which the reset call fails, the request shows the message, a reconcile follows, and the message still counts as unread in its dialog and in `total` |
| SagaReading.NothingReadUnseen | src/dialog/dialog_list_handler.cpp:55-102 | when the reset ran before the listing, the returned list is the dialog up to some point and contains every message whose unread increment the request cleared; with ids without a colon it is the pair's own log |
| SagaReading.ReplyMeansReset | src/dialog/dialog_list_handler.cpp:63-66 | a request that saw its reset call succeed has had its reset |
| SagaReading.LateResetHides | src/dialog/dialog_list_handler.cpp:67-70 | if the reset has not run when its failed call ends, some continuation clears a message the request did not show |
| SagaReading.SeenWhateverFollows | src/dialog/dialog_list_handler.cpp:55-90 | whatever follows, a request never clears a message it does not show, if and only if its reset had run when the call ended |
| SagaReading.HidingHappens | src/dialog/dialog_list_handler.cpp:67-70 | after any run and for any two users, a continuation in which the reset call fails before the reset runs and the request clears a message it did not show |
| SagaReading.ReadingStep | src/dialog/dialog_list_handler.cpp:55-90 | each step of each actor keeps every listing equal to a prefix of the dialog, and every cleared message inside that prefix |
| ChatBackend.Backend.SendMessage | chat-service/src/dialog/dialog_service.cpp:56-87 | stores and then publishes: unless storing fails the record has sender, recipient and text, the id is at the end of the pair's index, and every other record and index is as before; when publishing fails the message stays stored; when storing fails nothing is published; either error reaches the caller |
| ChatBackend.Backend.Process | counter-service/src/counter/counter_consumer.cpp:53-67 | makes the first increment and then the second, as far as it gets: `total` of the recipient grows by one, the sender's field by one if it gets there, and nothing else changes |
| ChatBackend.Backend.ConsumeHead | counter-service/src/counter/counter_consumer.cpp:53-67 | one delivery of the event at the head adds one to the recipient's `total` and, once past the second increment, one to the sender's field, and changes no other counter; it is acknowledged if it runs through and put back otherwise |
| ChatBackend.Backend.ListMessages | chat-service/src/dialog/dialog_service.cpp:89-114 | returns the message of every entry of the reply, in order; it fails if and only if a record is missing |
| ChatBackend.Backend.CallReset | src/dialog/dialog_list_handler.cpp:58-71 | unless it fails before the reset, the dialog's count is zero afterwards, `total` is less by that count but not below zero, and no other field or user changes; if it fails before, no counter changes; the request records a reply exactly when there was one, and a reset exactly when it ran; an error is ignored |
| ChatBackend.Backend.OpenDialog | src/dialog/dialog_list_handler.cpp:34-103 | resets before it lists, with that effect on the counters, and the listing comes after the reset exactly when the reset ran; the status is 400 exactly for a malformed id, with nothing changed, and 500 exactly when the list call fails; otherwise the reply is the whole dialog |
| ChatBackend.NoRecordMissing | chat-service/src/dialog/dialog_service.cpp:105-112 | in every reachable state each listed id has its record, so reading the reply cannot fail |
| SagaSteps.StoreWrites | chat-service/scripts/redis/dialog_functions.lua:12-22 | storing a message in the saga writes its record and appends it to its dialog's index, and leaves the counters alone |
| SagaSteps.FirstAdds | counter-service/src/counter/counter_consumer.cpp:62-63 | the first increment adds one to the recipient's `total` and to nothing else |
| SagaSteps.SecondAdds | counter-service/src/counter/counter_consumer.cpp:65-66 | the second increment adds one to the sender's field of the recipient and to nothing else |
| SagaSteps.ResetClears | scripts/redis/counter_functions.lua:6-21 | in every reachable state a reset sets the dialog's count to zero, takes it from `total` but not below zero, changes no other counter, and returns that count |
| SagaSteps.ReconcileSums | scripts/redis/counter_functions.lua:26-42 | in every reachable state a reconcile makes `total` the sum of the dialog fields and changes nothing else |
| SagaSteps.EventIncrements | counter-service/src/counter/counter_consumer.cpp:62-66 | a delivered event makes the first increment and an event half way the second |
| SagaSteps.StrayIncrements | counter-service/src/counter/counter_consumer.cpp:62-66 | an increment left behind by a failed call runs late, once, and moves no event |
| SagaSteps.RequeueLeaves | counter-service/src/counter/counter_consumer.cpp:53-67 | an event put back during an increment leaves that call behind |
| SagaSteps.EventMoves | counter-service/src/counter/counter_consumer.cpp:53-67 | publishing, delivering, acknowledging and putting back move exactly that event and change neither counters nor dialogs |
| SagaSteps.ListShows | chat-service/src/dialog/dialog_service.cpp:89-114 | a listing is what the dialog store holds at that moment |
| PostFeed.FriendIsolation | src/post/post_feed_cache.cpp:112-164 | in every run, with events repeated, late, out of order or half materialised: the cached entries are by people their user then follows, throughout the run, if and only if no unfollow fails to drop a list that holds a post of the former friend |
| PostFeed.IsolatedExactly | src/friend/friend_delete_handler.cpp:45-53 | a step keeps the lists to posts of friends if and only if it is no unfollow that leaves a post of the former friend in the list |
| PostFeed.DroppedIsIsolated | src/friend/friend_delete_handler.cpp:45-53 | in every run in which each unfollow drops the user's list, every cached entry is by someone the user follows |
| PostFeed.CappedStep | src/post/post_feed_cache.cpp:98-129 | at handler granularity a list that is present has between 1 and 1000 entries |
| PostFeed.OrderedStep | src/post/post_create_handler.cpp:59-72 | posts stay in order of creation, and an event keeps the id and author of its post |
| FeedCoherence.GuardIsExact | src/post/post_feed_cache.cpp:67-151 | when every cached list is the query less the queued posts, a step keeps it so if and only if its guard holds, for each kind of step, with and without failures; edits, deletions, follows and unfollows whose invalidation is done need no guard |
| FeedCoherence.RefinesExactly | src/post/post_feed_cache.cpp:67-188 | in all states of a run every cached list is the query less the queued posts, if and only if every step of the run is taken under its guard |
| FeedBreaks.LostPublishBreaks | src/post/post_create_handler.cpp:59-72 | a run, coherent so far, in which a lost publish leaves a cached follower without the post |
| FeedBreaks.RepeatedEventBreaks | src/post/post_feed_consumer.cpp:36-46 | a run, coherent so far, in which an event is materialised without being acknowledged |
| FeedBreaks.ReorderedEventBreaks | src/post/post_feed_cache.cpp:122-131 | a run, coherent so far, in which an event is materialised after a newer one |
| FeedBreaks.EarlyLoadBreaks | src/post/post_feed_cache.cpp:89-100 | a run, coherent so far, in which a feed is loaded while a post it shows is queued |
| FeedBreaks.StaleEventBreaks | src/post/post_feed_cache.cpp:112-132 | a run, coherent so far, in which the event of a deleted post brings it back |
| FeedBreaks.KeptUpdateBreaks | src/post/post_update_handler.cpp:68-84 | a run, coherent so far, in which an edit fails to drop the lists that show the old text |
| FeedBreaks.KeptDeleteBreaks | src/post/post_delete_handler.cpp:42-54 | a run, coherent so far, in which a deletion fails to drop the lists that show the post |
| FeedBreaks.KeptFollowBreaks | src/friend/friend_add_handler.cpp:45-54 | a run, coherent so far, in which a follow fails to drop a list that lacks the posts of the new friend |
| FeedBreaks.KeptUnfollowBreaks | src/friend/friend_delete_handler.cpp:45-53 | a run, coherent and isolated so far, in which an unfollow fails to drop the list and it is neither any more |
| FeedCoherence.StalePush | src/post/post_feed_cache.cpp:112-132 | materialising an event that differs from the database puts a stale entry into every cached follower's list |
| FeedDiscipline.CacheRefinesQuery | src/post/post_feed_cache.cpp:67-188 | when events are published, consumed once and in order, invalidations are done, and feeds are loaded only while no followed author's event is queued, each cached list is the first 1000 posts of the friends query without the queued ones, and the query itself when none is queued |
| FeedDiscipline.ReadsAreQueries | src/post/post_feed_cache.cpp:67-110 | in such a run, with nothing of the user's friends queued, a read returns that page of the query on a hit and on a miss |
| FeedSelection.SelectReveal | src/post/post_feed_cache.cpp:117-130 | making the newest hidden post visible puts it in front of the selection and changes nothing else |
| FeedSelection.TopFewer | src/post/post_feed_cache.cpp:157-162 | deselecting posts that are not among the first n of a selection does not change its first n |
| FeedSelection.TopMore | src/post/post_feed_cache.cpp:157-162 | selecting more posts, all older than the last of the first n, does not change the first n |
| FeedSelection.DropBeyond | src/post/post_feed_cache.cpp:157-162 | deleting a post that is not among the first n does not change them |
| FeedSelection.SwapBeyond | src/post/post_feed_cache.cpp:157-162 | changing the text of a post that is not among the first n does not change them |
| FeedNotification.NotificationCanBeReadBack | src/post/post_feed_consumer.cpp:36-46 | in every run with any number of instances, also when materialisations stop half way and invalidations fail: once a session's queue has a message, a read of the first 1000 entries of its user's feed contains the post unless it was deleted, its author was unfollowed, 1000 entries created or pushed later fill the list, or the list lacks posts of a new friend because the follow failed to drop it |
| FeedNotification.NotifiedCanReadBack | src/post/ws_fanout_consumer.cpp:40-47 | when an instance processes a copy, exactly the open live sessions of the author's followers get it, once each, and each of their users can then read it back, unless their list is stale in that sense |
| FeedNotification.FreshReadsAll | src/post/post_feed_cache.cpp:67-132 | in every run, a user whose list is not stale in that sense can read back every post that was materialised, still exists and is by someone followed |
| FeedNotification.FollowHidesExactly | src/friend/friend_add_handler.cpp:45-54 | after any run, a follow that fails to drop the user's list hides a materialised post from that user if and only if the list lacks such a post of the new friend and is not full of newer ones |
| FeedStale.KeptFollowHides | src/friend/friend_add_handler.cpp:45-54 | a run in which a follow fails to drop the list, a session of the user is told of a post of the new friend, and a read with room for it does not show it |
| FeedNotification.SessionsHear | src/post/post_feed_ws_manager.cpp:58-78 | over a whole run with feed, fan-out and instances, an open live session's queue is exactly what its instance processed since it subscribed and its user then followed |
| FeedNotification.PushPlaces | src/post/post_feed_cache.cpp:122-131 | materialising an event puts its post in front of the lists it reaches, and every other materialised post keeps its place behind newer ones or is displaced from a full list |
| FeedNotification.QueryPlaces | src/post/post_feed_cache.cpp:153-176 | a list loaded from the database has each followed post at a place behind newer ones only, or is full of newer ones |
| FeedPaging.ProperPage | src/post/post_feed_cache.cpp:72-109 | for offset at least 0, limit at least 1 and no overflow, the range of a hit and the slice of a miss are both the page |
| FeedPaging.PageAt | src/post/post_feed_cache.cpp:102-109 | a page has the entries from the offset on, as many as the limit unless the feed ends before |
| FeedPaging.ZeroLimitDiffers | src/post/post_feed_cache.cpp:72-109 | for offset 0 and limit 0 a hit returns the whole list and a miss nothing |
| FeedPaging.HitAndMissAgree | src/post/post_feed_cache.cpp:72-109 | for all int arguments, negative ones and overflowing sums included, hit and miss agree if and only if the stated condition on length, offset and limit holds |
| FeedPaging.MissInside | src/post/post_feed_cache.cpp:102-109 | what the unsigned arithmetic of a miss returns for a negative limit: everything from the offset on, or a reversed range |
| FeedPaging.PagesTile | src/post/post_feed_cache.cpp:102-109 | consecutive pages concatenate to the whole feed |
| FeedPaging.WholeFeed | src/post/post_feed_cache.cpp:67-110 | a read of the first 1000 entries returns the whole feed |
| PostFeed.SelectFollowers | src/post/post_feed_ws_manager.cpp:80-89 | lists each user who follows the author exactly once, in whatever order rows come |
| PostFeedCache.FeedBackend.GetFollowers | src/post/post_feed_cache.cpp:178-188 | lists each user who follows the author exactly once |
| PostFeedCache.FeedBackend.LoadFeedFromDb | src/post/post_feed_cache.cpp:153-176 | returns, newest first, the at most 1000 newest posts by people the user follows: all of them, or else the others are older than the last |
| PostFeedCache.FeedBackend.GetFeed | src/post/post_feed_cache.cpp:67-110 | a hit changes nothing; a miss stores the newest posts unless there are none, and changes no other list; the result is the range or the slice, and for a proper page that page of the list |
| PostFeedCache.FeedBackend.OnPostCreated | src/post/post_feed_cache.cpp:112-132 | puts the post in front of every existing list of the followers it gets to, with what was there behind it up to 1000, changes no other list and creates none; when it throws after some followers exactly the rest are missed |
| PostFeedCache.FeedBackend.InvalidateFeedsOfFollowersOf | src/post/post_feed_cache.cpp:134-146 | removes the lists of exactly the followers and leaves every other list as it was |
| PostFeedCache.FeedBackend.CreatePost | src/post/post_create_handler.cpp:59-72 | inserts a row with a new id, the author and the text in front and then publishes exactly that as the event: when the insert fails nothing changes, when the publish fails the row stays without an event, and either error reaches the caller |
| PostFeedCache.FeedBackend.UpdatePost | src/post/post_update_handler.cpp:68-84 | writes the text into the row of that id and no other, whatever happens to the invalidation, and then drops exactly the lists of the author's followers; without such a row nothing changes; an invalidation that fails leaves the lists as they were |
| PostFeedCache.FeedBackend.DeletePost | src/post/post_delete_handler.cpp:42-54 | takes out the row of that id and no other, whatever happens to the invalidation, and then drops exactly the lists of the author's followers; without such a row nothing changes; an invalidation that fails leaves the lists as they were |
| PostFeedCache.FeedBackend.AddFriend | src/friend/friend_add_handler.cpp:45-54 | adds exactly that friendship and then drops exactly the user's list; if the invalidation fails the friendship stands and the lists stay |
| PostFeedCache.FeedBackend.DeleteFriend | src/friend/friend_delete_handler.cpp:45-53 | removes exactly that friendship and then drops exactly the user's list; if the invalidation fails the friendship is gone and the lists stay |
| PostFeedCache.FeedBackend.ProcessEvent | src/post/post_feed_consumer.cpp:27-47 | materialises first; the event leaves the queue, and is published, exactly when all followers are reached and the publish succeeds; otherwise it stays queued although some or all of the lists have it |
| FeedSteps.CreateWrites | src/post/post_create_handler.cpp:59-72 | a creation puts exactly one new row, with the next id, in front, queues exactly that as an event if it is published, and changes no list |
| FeedSteps.UpdateWrites | src/post/post_update_handler.cpp:68-84 | an edit gives the row of that id the text and leaves every other row, and the order, as it was |
| FeedSteps.UpdatedText | src/post/post_update_handler.cpp:68-78 | after an edit the row of that id has the text, whether or not the invalidation was done |
| FeedSteps.UpdateDrops | src/post/post_update_handler.cpp:80-84 | an edit drops exactly the lists of the author's followers if the invalidation is done, and none otherwise |
| FeedSteps.DeleteRemoves | src/post/post_delete_handler.cpp:42-48 | a deletion takes out the row of that id and no other, whether or not the invalidation is done |
| FeedSteps.DeleteDrops | src/post/post_delete_handler.cpp:50-54 | a deletion drops exactly the lists of the author's followers if the invalidation is done, and none otherwise |
| FeedSteps.FollowAdds | src/friend/friend_add_handler.cpp:45-54 | a follow adds exactly that friendship, and drops exactly the user's list if the invalidation is done |
| FeedSteps.UnfollowRemoves | src/friend/friend_delete_handler.cpp:45-53 | an unfollow removes exactly that friendship, and drops exactly the user's list if the invalidation is done |
| FeedSteps.ReadLoads | src/post/post_feed_cache.cpp:67-100 | a read leaves a list that is there and every list of others; otherwise the newest posts are the list, unless there are none |
| FeedSteps.ProcessPushes | src/post/post_feed_cache.cpp:112-132 | an event is put in front of the lists of the followers reached, with what was there behind it up to 1000, and changes no other list |
| FeedSelection.QueryIsNewest | src/post/post_feed_cache.cpp:153-164 | the friends query is, newest first, the at most 1000 newest posts by people followed: all of them, or else the others are older than the last |
| FeedSelection.NewestIsUnique | src/post/post_feed_cache.cpp:153-164 | that description fits one list only |
| FeedCommands.LengthBound | src/post/post_feed_cache.cpp:98-129 | with any number of interleaved writers a list has at most 1000 entries, plus one per addition and 1000 per load that is between its push and its trim |
| FeedCommands.BoundIsReached | src/post/post_feed_cache.cpp:98-129 | for any numbers of additions and loads some run reaches that bound exactly |
| FeedCommands.PushExtendsExactly | src/post/post_feed_cache.cpp:125-130 | throughout a run whoever is about to push to a list finds it there, if and only if every deletion of the list comes while nobody stands between EXISTS and LPUSH on it |
| FeedCommands.PushersLoseListExactly | src/post/post_feed_cache.cpp:125-150 | a command leaves a pusher without its list if and only if it deletes the list under one |
| FeedCommands.PushExtends | src/post/post_feed_cache.cpp:125-130 | in particular, when nobody deletes the list, whoever is about to push to it finds it there |
| FeedCommands.LoneEntry | src/post/post_feed_cache.cpp:125-128 | a run in which a deletion between EXISTS and LPUSH turns a list of 1000 posts into a list of one |
| FeedCommands.PushGoesFirst | src/post/post_feed_cache.cpp:128 | LPUSH puts the post in front of what is there |
| FeedCommands.FillGoesLast | src/post/post_feed_cache.cpp:98 | RPUSH puts the posts of the query behind what is there, in their order |
| FeedCommands.TrimKeepsFirst | src/post/post_feed_cache.cpp:99-129 | LTRIM keeps the first 1000 entries |
| FeedCommands.AskDecides | src/post/post_feed_cache.cpp:72-126 | EXISTS changes no list, and decides what the writer does next |
| FeedCommands.GoesAlone | src/post/post_feed_cache.cpp:98-129 | a writer's command touches no other list and no other writer |
| FeedCommands.AdditionAlone | src/post/post_feed_cache.cpp:122-131 | an addition that nobody interrupts is the one step it is at the granularity of handlers |
| FeedCommands.LoadAlone | src/post/post_feed_cache.cpp:89-100 | a load that nobody interrupts makes the posts of the query the list |
| PostFeedWs.WsManager.Subscribe | src/post/post_feed_ws_manager.cpp:36-42 | appends a new session to the user's list, with an empty queue, and touches no other list or queue; the registry stays sound |
| PostFeedWs.WsManager.Unsubscribe | src/post/post_feed_ws_manager.cpp:44-56 | for any user and session: the user's list has exactly the live sessions it had other than that one, in their order, and is gone if there are none; no other list and no queue changes; a session of that user is not open any more; the registry stays sound |
| PostFeedWs.WsManager.NotifyFollowers | src/post/post_feed_ws_manager.cpp:58-89 | puts one copy at the end of the queue of every live session listed for a follower of the moment, and changes no other queue; the registry stays sound |
| PostFeedWs.WsManager.Release | src/post/post_feed_ws_handler.cpp:69-73 | when the handler lets go of a session only its liveness changes; the registry stays sound |
| WsDelivery.SessionHearsItsMessages | src/post/post_feed_ws_manager.cpp:36-78 | in every run no user has an empty list, a subscribed live session is listed exactly once and under its own user, and its queue holds, in order and once each, exactly the messages since it subscribed whose author its user then followed |
| WsDelivery.NotifyReaches | src/post/ws_fanout_consumer.cpp:40-47 | one processed message reaches each open live session of a follower once, and no other session |
| WsDelivery.UnsubscribeRemoves | src/post/post_feed_ws_manager.cpp:44-56 | unsubscribing takes the session and the dead ones out of the user's list, keeps the others in order, and touches nobody else |
| WsDelivery.UnsubscribedHearsNothing | src/post/post_feed_ws_manager.cpp:44-78 | over any continuation of any run, the queue of a session that its owner has unsubscribed never changes again |
| WsDelivery.ExpiredIsNotTold | src/post/post_feed_ws_manager.cpp:73-76 | a session whose handler has let go of it is told of nothing |
| WsDelivery.HeardInOrder | src/post/post_feed_ws_manager.cpp:58-78 | the messages a user hears are those of the log meant for that user, one for each, in the order of the log |
| FanOut.CopiesAccounted | src/post/ws_fanout_consumer.cpp:61-88 | in every run and for every instance, the copies it has acknowledged and those still in its queue are what was published since its queue was bound, in that order |
| FanOut.ProcessedOnce | src/post/ws_fanout_consumer.cpp:40-88 | without faults an instance processes what was published since its launch in that order, each message once, and the rest waits in its queue |
| FanOut.PublishedOnce | src/post/post_feed_consumer.cpp:36-46 | without faults no message is published twice |
| FanOut.ReachesOnce | src/post/ws_fanout_consumer.cpp:40-88 | without faults a published message reaches each session once, on whatever instance: it waits in the instance's queue and no session there has it, or the instance has processed it exactly once, and an open live session has exactly one copy if it had subscribed by then and its user followed the author at that moment, and none otherwise |
| WsDelivery.KeptInOrder | src/post/post_feed_ws_manager.cpp:51-54 | the live sessions that stay keep their order |
| WsDelivery.KeptMembers | src/post/post_feed_ws_manager.cpp:51-54 | exactly the live sessions other than the one that leaves are kept, without repetition |
| VirtualBucket.GetVirtualBucket | src/dialog/dialog_utils.hpp:32-37 | the bucket of two users is the ten-bit fold of the smaller id, and lies in 0..1023 |
| VirtualBucket.FnvHash | src/dialog/dialog_utils.hpp:18-30 | the loop computes the FNV-1a fold with 64-bit wrap-around |
| VirtualBucket.FnvOfA | src/dialog/dialog_utils.hpp:18-30 | the hash of the empty string and of the letter a are the known FNV-1a values |
| VirtualBucket.TenBitsSuffice | src/dialog/dialog_utils.hpp:18-37 | the hash modulo 1024 is the ten-bit fold with multiplier 435 from 805, for byte strings of any length |
| VirtualBucket.TenStepIsBijection | src/dialog/dialog_utils.hpp:24-28 | for every byte a step of the fold is a bijection on 0..1023, with its inverse given |
| VirtualBucket.NearKeysSeparate | src/dialog/dialog_utils.hpp:18-37 | two keys that differ in exactly one byte never share a bucket |
| VirtualBucket.BucketSymmetric | src/dialog/dialog_utils.hpp:12-16 | both users of a dialog find the same bucket |
| VirtualBucket.MinIsSmaller | src/dialog/dialog_utils.hpp:12-16 | the smaller id is the one with the smaller byte at the first difference |
| Bits.XorBitsAt | src/dialog/dialog_utils.hpp:26 | a bit of an exclusive or is set exactly when it differs in the arguments |
| PasswordHasher.ToHex | src/user/password_hasher.cpp:107-118 | the loop writes two lower-case digits per byte |
| PasswordHasher.HexAt | src/user/password_hasher.cpp:107-118 | byte k is written as the digits of its quotient and its remainder by sixteen |
| PasswordHasher.FromHex | src/user/password_hasher.cpp:120-139 | on any string: fails exactly for an odd length, and otherwise reads the digits pair by pair, up to the first malformed pair |
| PasswordHasher.BytesAt | src/user/password_hasher.cpp:129-136 | in a hex string a pair of digits is read as sixteen times the first and the second |
| PasswordHasher.DigitIsWorth | src/user/password_hasher.cpp:129-136 | a digit is worth its place among the sixteen, in lower or upper case |
| Bits.OrBitsAt | src/user/password_hasher.cpp:75 | a bit of an inclusive or is set exactly when it is set in one of the arguments |
| PasswordHasher.HexRoundTrip | src/user/password_hasher.cpp:107-139 | reading back what was written gives every byte string again |
| PasswordHasher.BytesRoundTrip | src/user/password_hasher.cpp:107-139 | writing what was read gives a string again if and only if it is lower-case hex of even length |
| PasswordHasher.ConstantTimeCompare | src/user/password_hasher.cpp:65-79 | the OR of the XORs is zero exactly on equal strings |
| PasswordHasher.SlowHash | src/user/password_hasher.cpp:5-30 | the result ends a chain of hashes that starts with the input and in which the round, with each number below the iteration count in turn, leads from one to the next |
| PasswordHasher.TraceEndsInSlow | src/user/password_hasher.cpp:5-30 | every such chain ends in the same hash |
| PasswordHasher.VerifyPassword | src/user/password_hasher.cpp:96-105 | accepts exactly when the iterated hash of password and salt is the expected one |
| PasswordHasher.Register | src/user/user_register_handler.cpp:69-84 | stores the hex forms of salt and hash, each in its own column |
| PasswordHasher.Login | src/auth/login.cpp:118-122 | on any row: fails exactly for an odd length, and otherwise accepts exactly when the salted hash is the stored one |
| PasswordHasher.RegisterThenLogin | src/auth/login.cpp:105-126 | a registered row can always be read, login accepts an attempt exactly when its salted hash equals that of the registered password, and so accepts the password itself |

## Left out

- PasswordHasher.FromHex: what the C++ stream yields from the first character on that is no hex digit is any function of the text written to it so far; `ToHex` never writes such a character.
- PasswordHasher.SlowHash: a round is any deterministic function, so the values of the standard library's hash and the sleeps are not modelled; `GenerateSalt` is an arbitrary byte string.
- ChatBackend.Backend.SendMessage: the random message id is a parameter assumed to be new.
- ChatBackend.Backend.ConsumeHead: the class consumes the queue from its head, one call at a time; deliveries in any order, failed calls that run late, and everything interleaved are in the saga's runs.
- CounterReconciler.RunReconciliation: SCAN replies are given in advance and eventually end with cursor 0 or a failure, since the loop has no other way out.
- FeedCommands.LengthBound: at the granularity of single commands only the length of a list is stated, because coherence fails there.
- PostFeedCache.FeedBackend.OnPostCreated: a failure between the LPUSH and the LTRIM of one list, which leaves it one entry too long until the next trim, is only in the runs of `FeedCommands`.
- PostFeedWs.WsManager.NotifyFollowers: sessions are numbers with a set of the live ones instead of heap objects with weak pointers, and messages are posts instead of their JSON; a push that a queue refuses is not modelled.
- The lookup of the user and the token of login: a single query and a random string.
- The number of events in flight is not limited to the 100 of the configuration (`counter-service/configs/static_config.yaml:89`): the theorems hold for any number.
- Counters are unbounded integers: the overflow of HINCRBY and the rounding of Lua numbers above 2^53 are not modelled.
- Replicas are taken to be up to date and creation times to be distinct, so a post's id is its place in the order of creation.
- Feed lists are keyed by user instead of by the text `feed:` with the user's id, and entries are posts instead of their JSON.
- Strings are compared character by character, as Lua does in the C locale.
- Redis, PostgreSQL and RabbitMQ appear only through what the code's own commands read and write: single commands and function calls are atomic, a returning consumer acknowledges and a throwing one requeues, friendships are unique (`postgresql/schemas/db_1.sql:20-25`).
- HTTP, gRPC, JSON, configuration, metrics, deployment and load scripts: no logic of their own. The request handlers' validation of bodies and ids is modelled for the open-dialog request only.
- Authentication headers, tokens, user search and `GetUnreadCount`: single branches or plain queries.
