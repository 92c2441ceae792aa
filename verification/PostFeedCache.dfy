/**
 `PostFeedCache` and the handlers around it as code that writes the database tables, the queue and the
 Redis lists in place. Each method is proved to make exactly one step of the feed state machine.
 */
module PostFeedCache {
  import opened Wrappers
  import opened PostFeed
  import opened FeedPaging
  import opened FeedSelection
  import opened FeedSteps

  /** How a creation ends; a publish may throw although its event is queued. */
  datatype CreateOutcome = InsertFailed | PublishFailed | Queued(reported: bool)

  /**
   How a change of a row and the invalidation after it end: the invalidation may throw without having been
   done, or although it was.
   */
  datatype ChangeOutcome = WriteFailed | DropFailed | Dropped(reported: bool)

  class FeedBackend {
    var posts: seq<Post>                    // newest first
    var nextId: nat
    var friendships: set<(string, string)>
    var queue: set<Post>
    var redis: map<string, seq<Post>>

    function View(): State
      reads this
    {
      State(posts, nextId, friendships, queue, redis)
    }

    /** Posts are newest first, events match their posts, and lists have 1 to 1000 entries. */
    ghost predicate Valid()
      reads this
    {
      Ordered(View()) && Capped(View())
    }

    constructor ()
      ensures Valid() && View() == INIT
    {
      posts, nextId, friendships, queue, redis := [], 0, {}, {}, map[];
    }

    /** `GetFollowers` */
    method GetFollowers(authorId: string) returns (followers: seq<string>)
      ensures forall u :: u in followers <==> Follows(friendships, u, authorId)
      ensures forall i, j :: 0 <= i < j < |followers| ==> followers[i] != followers[j]
    {
      followers := SelectFollowers(friendships, authorId);
    }

    /** `LoadFeedFromDb`: the rows of the friends query, copied one by one. */
    method LoadFeedFromDb(userId: string) returns (feed: seq<Post>)
      requires Valid()
      ensures feed == Query(View(), userId)
      ensures IsNewestFeed(feed, posts, friendships, userId)
    {
      QueryIsNewest(View(), userId);
      var rows := Cap(Select(posts, friendships, {}, userId));
      feed := [];
      for n := 0 to |rows|
        invariant feed == rows[..n]
      {
        var row := rows[n];
        assert rows[..n + 1] == rows[..n] + [row];
        feed := feed + [Post(row.id, row.author, row.text)];
      }
      assert rows[..|rows|] == rows;
    }

    /** `GetFeed` */
    method GetFeed(userId: string, offset: int, limit: int) returns (result: Result<seq<Post>, Fault>)
      requires Valid()
      modifies this`redis
      ensures Valid() && View() == Next(old(View()), Read(userId))
      ensures result == Shown(old(View()), userId, offset, limit)
      ensures OnlyLoaded(old(redis), redis, posts, friendships, userId)
      ensures offset >= 0 && limit >= 1 && offset + limit <= INT_MAX ==>
        result == Ok(Page(if userId in redis then redis[userId] else [], offset, limit))
    {
      CappedStep(View(), Read(userId));
      ReadLoads(View(), userId);
      PageIsShown(View(), userId, offset, limit);
      if userId in redis {
        return HitSlice(redis[userId], offset, limit);
      }
      var dbFeed := LoadAndStore(userId);
      result := MissSlice(dbFeed, offset, limit);
    }

    /** The miss: RPUSH and LTRIM, if the query found posts. */
    method LoadAndStore(userId: string) returns (dbFeed: seq<Post>)
      requires Valid() && userId !in redis
      modifies this`redis
      ensures dbFeed == Query(old(View()), userId)
      ensures redis == if dbFeed == [] then old(redis) else old(redis)[userId := dbFeed]
    {
      dbFeed := LoadFeedFromDb(userId);
      if dbFeed != [] {
        redis := redis[userId := dbFeed];
        redis := redis[userId := Cap(redis[userId])];
      }
    }

    /**
     `OnPostCreated`: one follower after another, and only where a list exists. A call may throw after any
     number of followers, and then the rest are missed.
     */
    method OnPostCreated(authorId: string, postId: nat, text: string, throwsAfter: Option<nat>)
      returns (ok: bool, ghost missed: set<string>)
      modifies this`redis
      ensures redis == Push(old(redis), friendships, Post(postId, authorId, text), missed)
      ensures missed <= FollowersOf(friendships, authorId)
      ensures (ok <==> missed == {}) && (throwsAfter.None? ==> ok)
      ensures old(Capped(View())) ==>
        Capped(View()) && OnlyExtended(old(redis), redis, friendships, Post(postId, authorId, text), missed)
    {
      ghost var before := redis;
      var followers := GetFollowers(authorId);
      var newPost := Post(postId, authorId, text);
      var reached := if throwsAfter.Some? && throwsAfter.value < |followers| then throwsAfter.value else |followers|;
      ghost var served := ExtendFirst(followers, reached, newPost);
      ok := reached == |followers|;
      missed := FollowersOf(friendships, authorId) - served;
      assert !ok ==> followers[reached] in missed;
      PushExtends(before, friendships, newPost, missed);
    }

    /** The loop over the followers, as far as it gets */
    method ExtendFirst(followers: seq<string>, reached: nat, newPost: Post) returns (ghost served: set<string>)
      requires reached <= |followers|
      requires forall i, j :: 0 <= i < j < |followers| ==> followers[i] != followers[j]
      modifies this`redis
      ensures forall k :: 0 <= k < |followers| ==> (followers[k] in served <==> k < reached)
      ensures forall u :: u in served ==> u in followers
      ensures redis.Keys == old(redis).Keys
      ensures forall u :: u in redis ==>
        redis[u] == if u in served then Cap([newPost] + old(redis)[u]) else old(redis)[u]
    {
      served := {};
      for n := 0 to reached
        invariant redis.Keys == old(redis).Keys
        invariant forall k :: 0 <= k < |followers| ==> (followers[k] in served <==> k < n)
        invariant forall u :: u in served ==> u in followers
        invariant forall u :: u in redis ==>
          redis[u] == if u in served then Cap([newPost] + old(redis)[u]) else old(redis)[u]
      {
        ExtendIfPresent(followers[n], newPost);
        served := served + {followers[n]};
      }
    }

    /** EXISTS, then LPUSH and LTRIM if there is a list. */
    method ExtendIfPresent(followerId: string, newPost: Post)
      modifies this`redis
      ensures redis == if followerId in old(redis) then old(redis)[followerId := Cap([newPost] + old(redis)[followerId])]
                       else old(redis)
    {
      if followerId in redis {
        redis := redis[followerId := [newPost] + redis[followerId]];
        redis := redis[followerId := Cap(redis[followerId])];
      }
    }

    /** `InvalidateFeedsOfFollowersOf` */
    method InvalidateFeedsOfFollowersOf(authorId: string)
      modifies this`redis
      ensures redis == DropFollowersOf(old(redis), friendships, authorId)
      ensures OnlyFollowersDropped(old(redis), redis, friendships, authorId)
    {
      var followers := GetFollowers(authorId);
      if followers == [] {
        assert DropFollowersOf(redis, friendships, authorId) == redis;
        return;
      }
      var keys := {};
      for n := 0 to |followers|
        invariant forall u :: u in keys <==> u in followers[..n]
        invariant redis == old(redis)
      {
        keys := keys + {followers[n]};
      }
      redis := redis - keys;
    }

    /** `InvalidateFeed` */
    method InvalidateFeed(userId: string)
      modifies this`redis
      ensures redis == old(redis) - {userId}
      ensures OnlyDropped(old(redis), redis, userId)
    {
      redis := redis - {userId};
    }

    /**
     The create handler: insert, then publish. If the insert fails nothing is published; if the publish
     fails the post stays, without an event.
     */
    method CreatePost(authorId: string, text: string, outcome: CreateOutcome) returns (id: Option<nat>)
      requires Valid()
      modifies this`posts, this`nextId, this`queue
      ensures Valid()
      ensures View() == if outcome.InsertFailed? then old(View())
                        else Next(old(View()), Create(authorId, text, outcome.Queued?))
      ensures id == if outcome == Queued(true) then Some(old(nextId)) else None
      ensures !outcome.InsertFailed? ==>
        posts == [Post(old(nextId), authorId, text)] + old(posts) && nextId == old(nextId) + 1
      ensures queue == old(queue) + if outcome.Queued? then {Post(old(nextId), authorId, text)} else {}
    {
      if outcome.InsertFailed? {
        return None;
      }
      var p := InsertThenPublish(authorId, text, outcome.Queued?);
      id := if outcome == Queued(true) then Some(p.id) else None;
    }

    method InsertThenPublish(authorId: string, text: string, publishes: bool) returns (p: Post)
      requires Valid()
      modifies this`posts, this`nextId, this`queue
      ensures Valid() && View() == Next(old(View()), Create(authorId, text, publishes))
      ensures p == Post(old(nextId), authorId, text)
      ensures posts == [p] + old(posts) && nextId == old(nextId) + 1
      ensures queue == old(queue) + if publishes then {p} else {}
    {
      ghost var t := Next(View(), Create(authorId, text, publishes));
      ValidStep(View(), Create(authorId, text, publishes));
      p := InsertRow(authorId, text);
      if publishes {
        queue := queue + {p};
      }
      assert View() == t;
    }

    method InsertRow(authorId: string, text: string) returns (p: Post)
      modifies this`posts, this`nextId
      ensures p == Post(old(nextId), authorId, text)
      ensures posts == [p] + old(posts) && nextId == old(nextId) + 1
    {
      p := Post(nextId, authorId, text);
      posts, nextId := [p] + posts, nextId + 1;
    }

    /** The update handler: no row, no invalidation. An invalidation that fails comes after the write. */
    method UpdatePost(id: nat, text: string, outcome: ChangeOutcome) returns (ok: bool)
      requires Valid()
      modifies this`posts, this`redis
      ensures Valid()
      ensures View() == if outcome.WriteFailed? then old(View())
                        else Next(old(View()), Update(id, text, outcome.Dropped?))
      ensures ok <==> outcome == Dropped(true) || (!outcome.WriteFailed? && forall p :: p in old(posts) ==> p.id != id)
      ensures forall i :: 0 <= i < |old(posts)| && old(posts)[i].id == id && !outcome.WriteFailed? ==>
        && posts == old(posts)[i := Post(id, old(posts)[i].author, text)]
        && (outcome.Dropped? ==> OnlyFollowersDropped(old(redis), redis, friendships, old(posts)[i].author))
      ensures !outcome.Dropped? || (forall p :: p in old(posts) ==> p.id != id) ==> redis == old(redis)
      ensures (forall p :: p in old(posts) ==> p.id != id) ==> posts == old(posts)
    {
      if outcome.WriteFailed? {
        return false;
      }
      ValidStep(View(), Update(id, text, outcome.Dropped?));
      var i := Find(posts, id);
      if i < |posts| {
        assert posts[i] in posts;
        ok := UpdateRow(i, text, outcome);
      } else {
        ok := true;
      }
    }

    method UpdateRow(i: nat, text: string, outcome: ChangeOutcome) returns (ok: bool)
      requires i < |posts| && !outcome.WriteFailed?
      modifies this`posts, this`redis
      ensures posts == old(posts)[i := Post(old(posts)[i].id, old(posts)[i].author, text)]
      ensures redis == if outcome.Dropped? then DropFollowersOf(old(redis), friendships, old(posts)[i].author)
                       else old(redis)
      ensures outcome.Dropped? ==> OnlyFollowersDropped(old(redis), redis, friendships, old(posts)[i].author)
      ensures ok <==> outcome == Dropped(true)
    {
      var author := posts[i].author;
      posts := posts[i := posts[i].(text := text)];
      if outcome.DropFailed? {
        return false;
      }
      InvalidateFeedsOfFollowersOf(author);
      ok := outcome.reported;
    }

    /** The delete handler */
    method DeletePost(id: nat, outcome: ChangeOutcome) returns (ok: bool)
      requires Valid()
      modifies this`posts, this`redis
      ensures Valid()
      ensures View() == if outcome.WriteFailed? then old(View())
                        else Next(old(View()), Delete(id, outcome.Dropped?))
      ensures ok <==> outcome == Dropped(true) || (!outcome.WriteFailed? && forall p :: p in old(posts) ==> p.id != id)
      ensures forall i :: 0 <= i < |old(posts)| && old(posts)[i].id == id && !outcome.WriteFailed? ==>
        && posts == Without(old(posts), i)
        && (outcome.Dropped? ==> OnlyFollowersDropped(old(redis), redis, friendships, old(posts)[i].author))
      ensures !outcome.Dropped? || (forall p :: p in old(posts) ==> p.id != id) ==> redis == old(redis)
      ensures (forall p :: p in old(posts) ==> p.id != id) ==> posts == old(posts)
    {
      if outcome.WriteFailed? {
        return false;
      }
      ValidStep(View(), Delete(id, outcome.Dropped?));
      var i := Find(posts, id);
      if i < |posts| {
        assert posts[i] in posts;
        ok := DeleteRow(i, outcome);
      } else {
        ok := true;
      }
    }

    method DeleteRow(i: nat, outcome: ChangeOutcome) returns (ok: bool)
      requires i < |posts| && !outcome.WriteFailed?
      modifies this`posts, this`redis
      ensures posts == Without(old(posts), i) == old(posts)[..i] + old(posts)[i + 1..]
      ensures redis == if outcome.Dropped? then DropFollowersOf(old(redis), friendships, old(posts)[i].author)
                       else old(redis)
      ensures outcome.Dropped? ==> OnlyFollowersDropped(old(redis), redis, friendships, old(posts)[i].author)
      ensures ok <==> outcome == Dropped(true)
    {
      var author := posts[i].author;
      posts := posts[..i] + posts[i + 1..];
      if outcome.DropFailed? {
        return false;
      }
      InvalidateFeedsOfFollowersOf(author);
      ok := outcome.reported;
    }

    /** The friend-add handler */
    method AddFriend(userId: string, friendId: string, outcome: ChangeOutcome) returns (ok: bool)
      requires Valid()
      modifies this`friendships, this`redis
      ensures Valid()
      ensures View() == if outcome.WriteFailed? then old(View())
                        else Next(old(View()), Follow(userId, friendId, outcome.Dropped?))
      ensures ok <==> outcome == Dropped(true)
      ensures friendships == old(friendships) + if outcome.WriteFailed? then {} else {(userId, friendId)}
      ensures if outcome.Dropped? then OnlyDropped(old(redis), redis, userId) else redis == old(redis)
    {
      if outcome.WriteFailed? {
        return false;
      }
      friendships := friendships + {(userId, friendId)};
      if outcome.DropFailed? {
        return false;
      }
      InvalidateFeed(userId);
      ok := outcome.reported;
    }

    /** The friend-delete handler */
    method DeleteFriend(userId: string, friendId: string, outcome: ChangeOutcome) returns (ok: bool)
      requires Valid()
      modifies this`friendships, this`redis
      ensures Valid()
      ensures View() == if outcome.WriteFailed? then old(View())
                        else Next(old(View()), Unfollow(userId, friendId, outcome.Dropped?))
      ensures ok <==> outcome == Dropped(true)
      ensures friendships == old(friendships) - if outcome.WriteFailed? then {} else {(userId, friendId)}
      ensures if outcome.Dropped? then OnlyDropped(old(redis), redis, userId) else redis == old(redis)
    {
      if outcome.WriteFailed? {
        return false;
      }
      friendships := friendships - {(userId, friendId)};
      if outcome.DropFailed? {
        return false;
      }
      InvalidateFeed(userId);
      ok := outcome.reported;
    }

    /**
     `PostFeedConsumer::Process`: the caches first, then the fan-out. When either throws the event stays
     queued, although some or all of the lists have it.
     */
    method ProcessEvent(event: Post, throwsAfter: Option<nat>, publishes: bool)
      returns (fanout: Option<Post>, ghost missed: set<string>)
      requires Valid() && event in queue
      modifies this`redis, this`queue
      ensures Valid()
      ensures fanout == if missed == {} && publishes then Some(event) else None
      ensures View() == Next(old(View()), Process(event, missed, fanout.Some?))
      ensures throwsAfter.None? ==> missed == {}
      ensures OnlyExtended(old(redis), redis, friendships, event, missed)
      ensures queue == old(queue) - if fanout.Some? then {event} else {}
    {
      var ok;
      ok, missed := OnPostCreated(event.author, event.id, event.text, throwsAfter);
      MatchingFewer(queue, queue - {event}, posts, nextId);
      if ok && publishes {
        queue := queue - {event};
        fanout := Some(event);
      } else {
        fanout := None;
      }
    }
  }

  lemma ValidStep(s: State, step: Step)
    requires Ordered(s) && Capped(s) && Enabled(s, step)
    ensures Ordered(Next(s, step)) && Capped(Next(s, step))
  {
    OrderedStep(s, step);
    CappedStep(s, step);
  }

  /** For a proper page, hit and miss return that page of the list that is there after the read. */
  lemma PageIsShown(s: State, user: string, offset: int, limit: int)
    requires Capped(s)
    ensures offset >= 0 && limit >= 1 && offset + limit <= INT_MAX ==>
      var t := Next(s, Read(user));
      Shown(s, user, offset, limit) == Ok(Page(if user in t.cache then t.cache[user] else [], offset, limit))
  {
    if offset >= 0 && limit >= 1 && offset + limit <= INT_MAX {
      ProperPage(Feed(s, user), offset, limit);
    }
  }

  lemma PushExtends(before: Lists, friends: set<(string, string)>, p: Post, missed: set<string>)
    ensures (forall u :: u in before ==> 0 < |before[u]| <= MAX_FEED_SIZE) ==>
      && OnlyExtended(before, Push(before, friends, p, missed), friends, p, missed)
      && forall u :: u in before ==> 0 < |Push(before, friends, p, missed)[u]| <= MAX_FEED_SIZE
  {
    if forall u :: u in before ==> 0 < |before[u]| <= MAX_FEED_SIZE {
      forall u | u in before ensures InFront(before[u], Cap([p] + before[u]), p) {
        PushIsInFront(before[u], p);
      }
    }
  }
}
