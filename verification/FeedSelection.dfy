/** What a selection of posts, and its first entries, look like when posts or friendships change. */
module FeedSelection {
  import opened PostFeed

  lemma {:induction false} SelectAgree(posts: seq<Post>, f: set<(string, string)>, h: set<nat>,
                                       f': set<(string, string)>, h': set<nat>, user: string)
    requires forall p :: p in posts ==> Selected(p, f, h, user) == Selected(p, f', h', user)
    ensures Select(posts, f, h, user) == Select(posts, f', h', user)
  {
    if posts != [] {
      SelectAgree(posts[1..], f, h, f', h', user);
    }
  }

  /** The newest selected post comes first. */
  lemma {:induction false} SelectHead(posts: seq<Post>, f: set<(string, string)>, h: set<nat>, user: string, q: Post)
    requires forall i, j :: 0 <= i < j < |posts| ==> posts[i].id > posts[j].id
    requires q in posts && Selected(q, f, h, user)
    ensures Select(posts, f, h, user) != [] && Select(posts, f, h, user)[0].id >= q.id
  {
    if !Selected(posts[0], f, h, user) {
      SelectHead(posts[1..], f, h, user, q);
    }
  }

  /** Revealing the newest hidden post puts it in front. */
  lemma {:induction false} SelectReveal(posts: seq<Post>, f: set<(string, string)>, h: set<nat>, user: string, e: Post)
    requires forall i, j :: 0 <= i < j < |posts| ==> posts[i].id > posts[j].id
    requires e in posts && e.id in h && Follows(f, user, e.author)
    requires forall p :: p in posts && p.id > e.id ==> !Selected(p, f, h, user)
    ensures Select(posts, f, h - {e.id}, user) == [e] + Select(posts, f, h, user)
  {
    if posts[0] == e {
      SelectAgree(posts[1..], f, h, f, h - {e.id}, user);
    } else {
      SelectReveal(posts[1..], f, h, user, e);
    }
  }

  /** A selection keeps the order of the posts. */
  lemma {:induction false} SelectFalling(posts: seq<Post>, f: set<(string, string)>, h: set<nat>, user: string)
    requires forall i, j :: 0 <= i < j < |posts| ==> posts[i].id > posts[j].id
    ensures forall i, j :: 0 <= i < j < |Select(posts, f, h, user)| ==>
      Select(posts, f, h, user)[i].id > Select(posts, f, h, user)[j].id
  {
    if posts != [] {
      SelectFalling(posts[1..], f, h, user);
      SelectMembers(posts[1..], f, h, user);
      var tail := Select(posts[1..], f, h, user);
      forall j | 0 <= j < |tail| ensures tail[j].id < posts[0].id {
        assert tail[j] in tail;
      }
    }
  }

  /** The first `n` posts of a selection. */
  function Top(n: nat, posts: seq<Post>, f: set<(string, string)>, h: set<nat>, user: string): seq<Post> {
    Take(n, Select(posts, f, h, user))
  }

  lemma TakeCons(n: nat, p: Post, feed: seq<Post>)
    requires n > 0
    ensures Take(n, [p] + feed) == [p] + Take(n - 1, feed)
  {
  }

  lemma TopHead(n: nat, posts: seq<Post>, f: set<(string, string)>, h: set<nat>, user: string)
    requires posts != [] && n > 0
    ensures Top(n, posts, f, h, user) ==
      if Selected(posts[0], f, h, user) then [posts[0]] + Top(n - 1, posts[1..], f, h, user)
      else Top(n, posts[1..], f, h, user)
  {
    var tail := Select(posts[1..], f, h, user);
    if Selected(posts[0], f, h, user) {
      TakeCons(n, posts[0], tail);
    } else {
      assert Select(posts, f, h, user) == tail;
    }
  }

  /** Deselecting posts that are not among the first `n` does not change those. */
  lemma {:induction false} TopFewer(n: nat, posts: seq<Post>, f: set<(string, string)>, h: set<nat>,
                                    f': set<(string, string)>, h': set<nat>, user: string)
    requires forall p :: p in posts && Selected(p, f', h', user) ==> Selected(p, f, h, user)
    requires forall p :: p in Top(n, posts, f, h, user) ==> Selected(p, f', h', user)
    ensures Top(n, posts, f', h', user) == Top(n, posts, f, h, user)
  {
    if posts != [] && n > 0 {
      TopHead(n, posts, f, h, user);
      TopHead(n, posts, f', h', user);
      if Selected(posts[0], f, h, user) {
        assert posts[0] in Top(n, posts, f, h, user);
        TopFewer(n - 1, posts[1..], f, h, f', h', user);
      } else {
        TopFewer(n, posts[1..], f, h, f', h', user);
      }
    }
  }

  /** Selecting more posts, all older than the last of the first `n`, does not change those. */
  lemma {:induction false} TopMore(n: nat, posts: seq<Post>, f: set<(string, string)>, h: set<nat>,
                                   f': set<(string, string)>, user: string)
    requires forall i, j :: 0 <= i < j < |posts| ==> posts[i].id > posts[j].id
    requires forall p :: p in posts && Selected(p, f, h, user) ==> Selected(p, f', h, user)
    requires n > 0 && |Top(n, posts, f, h, user)| == n
    requires forall p :: p in posts && Selected(p, f', h, user) && !Selected(p, f, h, user) ==>
      p.id < Top(n, posts, f, h, user)[n - 1].id
    ensures Top(n, posts, f', h, user) == Top(n, posts, f, h, user)
  {
    TopHead(n, posts, f, h, user);
    TopHead(n, posts, f', h, user);
    if !Selected(posts[0], f, h, user) {
      TopIsOlder(n, posts, f, h, user);
      TopMore(n, posts[1..], f, h, f', user);
    } else if n > 1 {
      TopMore(n - 1, posts[1..], f, h, f', user);
    }
  }

  lemma TopIsOlder(n: nat, posts: seq<Post>, f: set<(string, string)>, h: set<nat>, user: string)
    requires forall i, j :: 0 <= i < j < |posts| ==> posts[i].id > posts[j].id
    requires posts != []
    ensures forall p :: p in Top(n, posts[1..], f, h, user) ==> p.id < posts[0].id
  {
    SelectMembers(posts[1..], f, h, user);
    forall p | p in Top(n, posts[1..], f, h, user) ensures p.id < posts[0].id {
      assert p in Select(posts[1..], f, h, user);
    }
  }

  /** Replacing a post that is not among the first `n` by one of the same id and author. */
  lemma {:induction false} SwapBeyond(n: nat, posts: seq<Post>, i: nat, p: Post, f: set<(string, string)>, h: set<nat>,
                                      user: string)
    requires i < |posts| && p.id == posts[i].id && p.author == posts[i].author
    requires posts[i] !in Top(n, posts, f, h, user)
    ensures Top(n, posts[i := p], f, h, user) == Top(n, posts, f, h, user)
  {
    if n > 0 {
      TopHead(n, posts, f, h, user);
      TopHead(n, posts[i := p], f, h, user);
      if i == 0 {
        assert posts[i := p][1..] == posts[1..];
        var head := posts[0];
        assert Selected(head, f, h, user) ==> head in Top(n, posts, f, h, user);
      } else {
        assert posts[i := p][1..] == posts[1..][i - 1 := p];
        if Selected(posts[0], f, h, user) {
          SwapBeyond(n - 1, posts[1..], i - 1, p, f, h, user);
        } else {
          SwapBeyond(n, posts[1..], i - 1, p, f, h, user);
        }
      }
    }
  }

  lemma WithoutHead(posts: seq<Post>, i: nat)
    requires 0 < i < |posts|
    ensures Without(posts, i) != [] && Without(posts, i)[0] == posts[0]
    ensures Without(posts, i)[1..] == Without(posts[1..], i - 1)
  {
  }

  /** Deleting a post that is not among the first `n`. */
  lemma {:induction false} DropBeyond(n: nat, posts: seq<Post>, i: nat, f: set<(string, string)>, h: set<nat>, user: string)
    requires i < |posts| && posts[i] !in Top(n, posts, f, h, user)
    ensures Top(n, Without(posts, i), f, h, user) == Top(n, posts, f, h, user)
  {
    if n > 0 {
      TopHead(n, posts, f, h, user);
      if i == 0 {
        assert Without(posts, 0) == posts[1..];
        var head := posts[0];
        assert Selected(head, f, h, user) ==> head in Top(n, posts, f, h, user);
      } else {
        WithoutHead(posts, i);
        TopHead(n, Without(posts, i), f, h, user);
        if Selected(posts[0], f, h, user) {
          DropBeyond(n - 1, posts[1..], i - 1, f, h, user);
        } else {
          DropBeyond(n, posts[1..], i - 1, f, h, user);
        }
      }
    }
  }

  lemma MaterialisedMembers(s: State, user: string)
    ensures forall p :: p in Materialised(s, user) ==>
      p in s.posts && Follows(s.friends, user, p.author) && p.id !in Ids(s.queue)
  {
    SelectMembers(s.posts, s.friends, Ids(s.queue), user);
    assert forall p :: p in Materialised(s, user) ==> p in Select(s.posts, s.friends, Ids(s.queue), user);
  }

  /** A selected post is among the first 1000, or older than the last of them. */
  lemma ShownOrOlder(posts: seq<Post>, f: set<(string, string)>, h: set<nat>, user: string, p: Post)
    requires forall i, j :: 0 <= i < j < |posts| ==> posts[i].id > posts[j].id
    requires p in posts && Selected(p, f, h, user)
    ensures var top := Top(MAX_FEED_SIZE, posts, f, h, user);
      p in top || (|top| == MAX_FEED_SIZE && p.id < top[MAX_FEED_SIZE - 1].id)
  {
    var all := Select(posts, f, h, user);
    SelectMembers(posts, f, h, user);
    SelectFalling(posts, f, h, user);
    var k :| 0 <= k < |all| && all[k] == p;
    if k < MAX_FEED_SIZE {
      assert Top(MAX_FEED_SIZE, posts, f, h, user)[k] == p;
    }
  }

  /**
   The newest 1000 posts that `user` reads: newest first, written by people followed, and any other such post
   is older than the last of a full list.
   */
  ghost predicate IsNewestFeed(feed: seq<Post>, posts: seq<Post>, friends: set<(string, string)>, user: string) {
    && |feed| <= 1000
    && (forall i, j :: 0 <= i < j < |feed| ==> feed[i].id > feed[j].id)
    && (forall p :: p in feed ==> p in posts && (user, p.author) in friends)
    && (forall p :: p in posts && (user, p.author) in friends ==> p in feed || (|feed| == 1000 && p.id < feed[999].id))
  }

  lemma QueryIsNewest(s: State, user: string)
    requires Ordered(s)
    ensures IsNewestFeed(Query(s, user), s.posts, s.friends, user)
  {
    QueryMembers(s, user);
    SelectFalling(s.posts, s.friends, {}, user);
    forall p | p in s.posts && (user, p.author) in s.friends
      ensures p in Query(s, user) || (|Query(s, user)| == 1000 && p.id < Query(s, user)[999].id)
    {
      ShownOrOlder(s.posts, s.friends, {}, user, p);
    }
  }

  /** There is only one such feed. */
  lemma {:induction false} NewestIsUnique(a: seq<Post>, b: seq<Post>, posts: seq<Post>, friends: set<(string, string)>, user: string)
    requires forall i, j :: 0 <= i < j < |posts| ==> posts[i].id > posts[j].id
    requires IsNewestFeed(a, posts, friends, user) && IsNewestFeed(b, posts, friends, user)
    ensures a == b
  {
    var n := if |a| < |b| then |a| else |b|;
    AgreeUpTo(a, b, posts, friends, user, n);
    NotShorter(a, b, posts, friends, user);
    NotShorter(b, a, posts, friends, user);
  }

  lemma NotShorter(a: seq<Post>, b: seq<Post>, posts: seq<Post>, friends: set<(string, string)>, user: string)
    requires IsNewestFeed(a, posts, friends, user) && IsNewestFeed(b, posts, friends, user)
    requires |a| <= |b| ==> a == b[..|a|]
    ensures |a| >= |b|
  {
    if |a| < |b| {
      NextIsMissing(a, b);
    }
  }

  lemma NextIsMissing(a: seq<Post>, b: seq<Post>)
    requires |a| < |b| && a == b[..|a|]
    requires forall i, j :: 0 <= i < j < |b| ==> b[i].id > b[j].id
    ensures b[|a|] in b && b[|a|] !in a
  {
    forall k | 0 <= k < |a| ensures a[k] != b[|a|] {
      assert a[k] == b[k];
    }
  }

  lemma {:induction false} AgreeUpTo(a: seq<Post>, b: seq<Post>, posts: seq<Post>, friends: set<(string, string)>, user: string, k: nat)
    requires forall i, j :: 0 <= i < j < |posts| ==> posts[i].id > posts[j].id
    requires IsNewestFeed(a, posts, friends, user) && IsNewestFeed(b, posts, friends, user)
    requires k <= |a| && k <= |b|
    ensures a[..k] == b[..k]
  {
    if k > 0 {
      AgreeUpTo(a, b, posts, friends, user, k - 1);
      NotNewer(a, b, posts, friends, user, k - 1);
      NotNewer(b, a, posts, friends, user, k - 1);
      assert a[k - 1] in a && b[k - 1] in b;
      assert a[..k] == a[..k - 1] + [a[k - 1]] && b[..k] == b[..k - 1] + [b[k - 1]];
    }
  }

  lemma NotNewer(a: seq<Post>, b: seq<Post>, posts: seq<Post>, friends: set<(string, string)>, user: string, k: nat)
    requires IsNewestFeed(a, posts, friends, user) && IsNewestFeed(b, posts, friends, user)
    requires k < |a| && k < |b| && a[..k] == b[..k]
    ensures a[k].id <= b[k].id
  {
    if a[k].id > b[k].id {
      assert a[k] in a;
      forall j | 0 <= j < |b| ensures b[j] != a[k] {
        assert j < k ==> b[..k][j] == a[..k][j];
      }
    }
  }
}
