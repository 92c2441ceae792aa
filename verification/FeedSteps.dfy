/** What each step of the feed does to the tables, the queue and the lists, said of their contents. */
module FeedSteps {
  import opened PostFeed
  import opened FeedSelection

  type Lists = map<string, seq<Post>>

  /** The lists of the users who follow `author` are gone, the others are as they were. */
  ghost predicate OnlyFollowersDropped(before: Lists, after: Lists, friends: set<(string, string)>, author: string) {
    && (forall u :: u in after <==> u in before && (u, author) !in friends)
    && (forall u :: u in after ==> u in before && after[u] == before[u])
  }

  ghost predicate OnlyDropped(before: Lists, after: Lists, user: string) {
    && (forall u :: u in after <==> u in before && u != user)
    && (forall u :: u in after ==> u in before && after[u] == before[u])
  }

  /** The post is in front of what was there, and nothing else is; only what exceeds 1000 is cut off. */
  ghost predicate InFront(before: seq<Post>, after: seq<Post>, p: Post) {
    && |after| == (if |before| < 1000 then |before| + 1 else 1000)
    && after[0] == p
    && forall j :: 0 < j < |after| ==> after[j] == before[j - 1]
  }

  /** The post is in front of the lists of the followers reached, and no other list is changed. */
  ghost predicate OnlyExtended(before: Lists, after: Lists, friends: set<(string, string)>, p: Post, missed: set<string>) {
    && (forall u :: u in after <==> u in before)
    && (forall u :: u in after ==>
          (u in before &&
           if (u, p.author) in friends && u !in missed then InFront(before[u], after[u], p) else after[u] == before[u]))
  }

  lemma CreateWrites(s: State, author: string, text: string, published: bool)
    ensures var t, p := Next(s, Create(author, text, published)), Post(s.nextId, author, text);
      && t.posts == [p] + s.posts && t.nextId == s.nextId + 1
      && t.friends == s.friends && t.cache == s.cache
      && (forall e :: e in t.queue <==> e in s.queue || (published && e == p))
  {
  }

  /** An id is at one place only. */
  lemma FindIsUnique(s: State, id: nat, p: Post)
    requires Ordered(s) && p in s.posts && p.id == id
    ensures Find(s.posts, id) < |s.posts| && s.posts[Find(s.posts, id)] == p
  {
    var k :| 0 <= k < |s.posts| && s.posts[k] == p;
  }

  lemma UpdateWrites(s: State, id: nat, text: string, dropped: bool)
    requires Ordered(s)
    ensures var t := Next(s, Update(id, text, dropped));
      && |t.posts| == |s.posts| && t.nextId == s.nextId && t.friends == s.friends && t.queue == s.queue
      && (forall i :: 0 <= i < |t.posts| ==>
            t.posts[i] == if s.posts[i].id == id then Post(id, s.posts[i].author, text) else s.posts[i])
  {
  }

  /** After a successful write the row has the text. */
  lemma UpdatedText(s: State, id: nat, text: string, dropped: bool, p: Post)
    requires Ordered(s) && p in Next(s, Update(id, text, dropped)).posts && p.id == id
    ensures p.text == text
  {
    UpdateWrites(s, id, text, dropped);
  }

  lemma UpdateDrops(s: State, id: nat, text: string, dropped: bool)
    requires Ordered(s)
    ensures var t := Next(s, Update(id, text, dropped));
      && (forall p :: p in s.posts && p.id == id && dropped ==>
            OnlyFollowersDropped(s.cache, t.cache, s.friends, p.author))
      && ((!dropped || forall p :: p in s.posts ==> p.id != id) ==> t.cache == s.cache)
  {
    forall p | p in s.posts && p.id == id ensures s.posts[Find(s.posts, id)] == p {
      FindIsUnique(s, id, p);
    }
  }

  lemma DeleteRemoves(s: State, id: nat, dropped: bool)
    requires Ordered(s)
    ensures var t := Next(s, Delete(id, dropped));
      && t.nextId == s.nextId && t.friends == s.friends && t.queue == s.queue
      && (forall p :: p in t.posts <==> p in s.posts && p.id != id)
      && (forall i, j :: 0 <= i < j < |t.posts| ==> t.posts[i].id > t.posts[j].id)
  {
    var i := Find(s.posts, id);
    OrderedDeleted(s, id, dropped);
    if i < |s.posts| {
      WithoutKeeps(s.posts, i);
      WithoutAddsNothing(s.posts, i);
    }
  }

  lemma WithoutKeeps(posts: seq<Post>, i: nat)
    requires i < |posts|
    ensures forall p :: p in posts && p.id != posts[i].id ==> p in Without(posts, i)
  {
    forall p | p in posts && p.id != posts[i].id ensures p in Without(posts, i) {
      var k :| 0 <= k < |posts| && posts[k] == p;
      assert Without(posts, i)[if k < i then k else k - 1] == p;
    }
  }

  lemma WithoutAddsNothing(posts: seq<Post>, i: nat)
    requires i < |posts| && forall j, k :: 0 <= j < k < |posts| ==> posts[j].id > posts[k].id
    ensures forall p :: p in Without(posts, i) ==> p in posts && p.id != posts[i].id
  {
    forall p | p in Without(posts, i) ensures p in posts && p.id != posts[i].id {
      var k :| 0 <= k < |posts| - 1 && Without(posts, i)[k] == p;
      assert p == posts[if k < i then k else k + 1];
    }
  }

  lemma DeleteDrops(s: State, id: nat, dropped: bool)
    requires Ordered(s)
    ensures var t := Next(s, Delete(id, dropped));
      && (forall p :: p in s.posts && p.id == id && dropped ==>
            OnlyFollowersDropped(s.cache, t.cache, s.friends, p.author))
      && ((!dropped || forall p :: p in s.posts ==> p.id != id) ==> t.cache == s.cache)
  {
    forall p | p in s.posts && p.id == id ensures s.posts[Find(s.posts, id)] == p {
      FindIsUnique(s, id, p);
    }
  }

  lemma FollowAdds(s: State, user: string, friend: string, dropped: bool)
    ensures var t := Next(s, Follow(user, friend, dropped));
      && t.posts == s.posts && t.nextId == s.nextId && t.queue == s.queue
      && (forall u, a :: (u, a) in t.friends <==> (u, a) in s.friends || (u == user && a == friend))
      && if dropped then OnlyDropped(s.cache, t.cache, user) else t.cache == s.cache
  {
  }

  lemma UnfollowRemoves(s: State, user: string, friend: string, dropped: bool)
    ensures var t := Next(s, Unfollow(user, friend, dropped));
      && t.posts == s.posts && t.nextId == s.nextId && t.queue == s.queue
      && (forall u, a :: (u, a) in t.friends <==> (u, a) in s.friends && !(u == user && a == friend))
      && if dropped then OnlyDropped(s.cache, t.cache, user) else t.cache == s.cache
  {
  }

  /** A list that is there stays; otherwise the newest posts are loaded, unless there are none. */
  lemma ReadLoads(s: State, user: string)
    requires Ordered(s)
    ensures var t := Next(s, Read(user));
      && t.posts == s.posts && t.nextId == s.nextId && t.friends == s.friends && t.queue == s.queue
      && OnlyLoaded(s.cache, t.cache, s.posts, s.friends, user)
  {
    QueryIsNewest(s, user);
  }

  ghost predicate OnlyLoaded(before: Lists, after: Lists, posts: seq<Post>, friends: set<(string, string)>, user: string) {
    && (forall u :: u in before ==> u in after && after[u] == before[u])
    && (forall u :: u in after && u !in before ==> u == user)
    && (user !in before ==>
          if user in after then after[user] != [] && IsNewestFeed(after[user], posts, friends, user)
          else IsNewestFeed([], posts, friends, user))
  }

  lemma PushIsInFront(before: seq<Post>, p: Post)
    requires |before| <= 1000
    ensures InFront(before, Cap([p] + before), p)
  {
  }

  lemma ProcessPushes(s: State, event: Post, missed: set<string>, acked: bool)
    requires Capped(s) && Enabled(s, Process(event, missed, acked))
    ensures var t := Next(s, Process(event, missed, acked));
      && t.posts == s.posts && t.nextId == s.nextId && t.friends == s.friends
      && OnlyExtended(s.cache, t.cache, s.friends, event, missed)
      && (forall e :: e in t.queue <==> e in s.queue && !(acked && e == event))
  {
    forall u | u in s.cache ensures InFront(s.cache[u], Cap([event] + s.cache[u]), event) {
      PushIsInFront(s.cache[u], event);
    }
  }
}
