/** For each way in which the guard of a step can fail, a run that is coherent until that step breaks it. */
module FeedBreaks {
  import opened Wrappers
  import opened PostFeed
  import opened FeedCoherence

  /** The run leads to `s`, and the caches were coherent in every state of it. */
  ghost predicate CoherentRun(steps: seq<Step>, s: State) {
    Run(INIT, steps) == Some(s) && AlwaysCoherent(steps)
  }

  lemma Onward(steps: seq<Step>, s: State, step: Step)
    requires CoherentRun(steps, s) && Enabled(s, step) && Guard(s, step)
    ensures CoherentRun(steps + [step], Next(s, step))
  {
    assert (steps + [step])[..|steps|] == steps;
    OrderedRun(steps);
    GuardIsExact(s, step);
  }

  lemma Broken(steps: seq<Step>, s: State, step: Step)
    requires CoherentRun(steps, s) && Enabled(s, step) && !Guard(s, step)
    ensures !Coherent(Next(s, step))
  {
    OrderedRun(steps);
    GuardIsExact(s, step);
  }

  /** `u` follows `a`, who has one post. */
  lemma OnePost(u: string, a: string, text: string, published: bool) returns (steps: seq<Step>, s: State)
    ensures CoherentRun(steps, s)
    ensures s == State([Post(0, a, text)], 1, {(u, a)}, if published then {Post(0, a, text)} else {}, map[])
    ensures Query(s, u) == [Post(0, a, text)]
  {
    var before, s1 := OneFollower(u, a);
    Onward(before, s1, Create(a, text, published));
    steps, s := before + [Create(a, text, published)], Next(s1, Create(a, text, published));
    OnlyPost(s, u, Post(0, a, text));
  }

  lemma OneFollower(u: string, a: string) returns (steps: seq<Step>, s: State)
    ensures CoherentRun(steps, s) && s == State([], 0, {(u, a)}, {}, map[])
  {
    assert CoherentRun([], INIT);
    Onward([], INIT, Follow(u, a, true));
    steps, s := [] + [Follow(u, a, true)], Next(INIT, Follow(u, a, true));
  }

  /** The post is in the cached list of `u`. */
  lemma OneCached(u: string, a: string, text: string) returns (steps: seq<Step>, s: State)
    ensures CoherentRun(steps, s)
    ensures s == State([Post(0, a, text)], 1, {(u, a)}, {}, map[u := [Post(0, a, text)]])
  {
    var before, one := OnePost(u, a, text, false);
    assert Ids(one.queue) == {};
    Onward(before, one, Read(u));
    steps, s := before + [Read(u)], Next(one, Read(u));
  }

  /** And a second one has been created, whose event is queued. */
  lemma SecondQueued(u: string, a: string, text: string, text': string) returns (steps: seq<Step>, s: State)
    ensures CoherentRun(steps, s)
    ensures s == State([Post(1, a, text'), Post(0, a, text)], 2, {(u, a)}, {Post(1, a, text')},
                       map[u := [Post(0, a, text)]])
  {
    var before, one := OneCached(u, a, text);
    Onward(before, one, Create(a, text', true));
    steps, s := before + [Create(a, text', true)], Next(one, Create(a, text', true));
  }

  /** A lost publish leaves cached followers without the post. */
  lemma {:induction false} LostPublishBreaks(u: string, a: string, text: string) returns (steps: seq<Step>, s: State)
    ensures CoherentRun(steps, s) && !Coherent(Next(s, Create(a, text, false)))
  {
    steps, s := OneCached(u, a, text);
    assert u in s.cache && Follows(s.friends, u, a);
    Broken(steps, s, Create(a, text, false));
  }

  /** An event that is not acknowledged is in the list and still to come. */
  lemma {:induction false} RepeatedEventBreaks(u: string, a: string, text: string) returns (steps: seq<Step>, s: State)
    ensures CoherentRun(steps, s)
    ensures Post(1, a, text) in s.queue && !Coherent(Next(s, Process(Post(1, a, text), {}, false)))
  {
    steps, s := SecondQueued(u, a, text, text);
    assert u in s.cache && Follows(s.friends, u, a);
    Broken(steps, s, Process(Post(1, a, text), {}, false));
  }

  /** Two events are queued, the newer one is materialised first. */
  lemma Overtaken(u: string, a: string, text: string) returns (steps: seq<Step>, s: State)
    ensures CoherentRun(steps, s)
    ensures s.queue == {Post(1, a, text)} && Post(2, a, text) in s.posts
    ensures u in s.cache && Follows(s.friends, u, a)
  {
    var first, second := Post(1, a, text), Post(2, a, text);
    var before, one := SecondQueued(u, a, text, text);
    Onward(before, one, Create(a, text, true));
    var two := Next(one, Create(a, text, true));
    assert two.queue == {first, second} && two.posts[0] == second;
    assert InOrder(two, second);
    Onward(before + [Create(a, text, true)], two, Process(second, {}, true));
    steps, s := before + [Create(a, text, true)] + [Process(second, {}, true)], Next(two, Process(second, {}, true));
  }

  /** An event that a newer one has overtaken is put in front of it. */
  lemma {:induction false} ReorderedEventBreaks(u: string, a: string, text: string) returns (steps: seq<Step>, s: State)
    ensures CoherentRun(steps, s)
    ensures Post(1, a, text) in s.queue && !Coherent(Next(s, Process(Post(1, a, text), {}, true)))
  {
    steps, s := Overtaken(u, a, text);
    assert Post(2, a, text).id !in Ids(s.queue);
    Broken(steps, s, Process(Post(1, a, text), {}, true));
  }

  /** A feed loaded while a post it shows is queued holds that post too early. */
  lemma EarlyLoadBreaks(u: string, a: string, text: string) returns (steps: seq<Step>, s: State)
    ensures CoherentRun(steps, s) && !Coherent(Next(s, Read(u)))
  {
    steps, s := OnePost(u, a, text, true);
    assert Post(0, a, text) in s.queue && Post(0, a, text) in Query(s, u);
    Broken(steps, s, Read(u));
  }

  /** The event of a post that was deleted meanwhile brings it back. */
  lemma {:induction false} StaleEventBreaks(u: string, a: string, text: string) returns (steps: seq<Step>, s: State)
    ensures CoherentRun(steps, s)
    ensures Post(0, a, text) in s.queue && Post(0, a, text) !in s.posts
    ensures !Coherent(Next(s, Process(Post(0, a, text), {}, true)))
  {
    var event, other := Post(0, a, text), Post(1, a, text);
    var before, s1 := OnePost(u, a, text, true);
    Onward(before, s1, Create(a, text, false));
    var s2 := Next(s1, Create(a, text, false));
    assert s2.posts == [other, event];
    assert Find(s2.posts, 0) == 1;
    Onward(before + [Create(a, text, false)], s2, Delete(0, true));
    var s3 := Next(s2, Delete(0, true));
    assert s3.posts == [other] && s3.cache == map[];
    OnlyPost(s3, u, other);
    Onward(before + [Create(a, text, false)] + [Delete(0, true)], s3, Read(u));
    steps, s := before + [Create(a, text, false)] + [Delete(0, true)] + [Read(u)], Next(s3, Read(u));
    assert u in s.cache && Follows(s.friends, u, a);
    Broken(steps, s, Process(event, {}, true));
  }

  lemma OnlyPost(s: State, u: string, p: Post)
    requires s.posts == [p] && Follows(s.friends, u, p.author)
    ensures Query(s, u) == [p]
  {
    assert Select(s.posts[1..], s.friends, {}, u) == [];
  }

  /** An edit whose invalidation fails leaves the old text in the lists. */
  lemma KeptUpdateBreaks(u: string, a: string, text: string, text': string) returns (steps: seq<Step>, s: State)
    requires text' != text
    ensures CoherentRun(steps, s) && !Coherent(Next(s, Update(0, text', false)))
  {
    steps, s := OneCached(u, a, text);
    assert Find(s.posts, 0) == 0 && s.posts[0] in s.cache[u];
    Broken(steps, s, Update(0, text', false));
  }

  /** A deletion whose invalidation fails leaves the post in the lists. */
  lemma KeptDeleteBreaks(u: string, a: string, text: string) returns (steps: seq<Step>, s: State)
    ensures CoherentRun(steps, s) && !Coherent(Next(s, Delete(0, false)))
  {
    steps, s := OneCached(u, a, text);
    assert Find(s.posts, 0) == 0 && s.posts[0] in s.cache[u];
    Broken(steps, s, Delete(0, false));
  }

  /** An unfollow whose invalidation fails leaves the posts of the former friend in the list. */
  lemma KeptUnfollowBreaks(u: string, a: string, text: string) returns (steps: seq<Step>, s: State)
    ensures CoherentRun(steps, s) && Isolated(s)
    ensures !Coherent(Next(s, Unfollow(u, a, false))) && !Isolated(Next(s, Unfollow(u, a, false)))
  {
    steps, s := OneCached(u, a, text);
    assert Post(0, a, text) in s.cache[u];
    Broken(steps, s, Unfollow(u, a, false));
    IsolatedExactly(s, Unfollow(u, a, false));
  }

  lemma OtherPost(u: string, a: string, b: string, text: string) returns (steps: seq<Step>, s: State)
    requires a != b
    ensures CoherentRun(steps, s)
    ensures s == State([Post(1, b, text), Post(0, a, text)], 2, {(u, a)}, {}, map[u := [Post(0, a, text)]])
  {
    var before, one := OneCached(u, a, text);
    Onward(before, one, Create(b, text, false));
    steps, s := before + [Create(b, text, false)], Next(one, Create(b, text, false));
  }

  /** A follow whose invalidation fails leaves the posts of the new friend out of the list. */
  lemma KeptFollowBreaks(u: string, a: string, b: string, text: string) returns (steps: seq<Step>, s: State)
    requires a != b
    ensures CoherentRun(steps, s) && !Coherent(Next(s, Follow(u, b, false)))
  {
    steps, s := OtherPost(u, a, b, text);
    assert s.posts[0].author == b && !FullOfNewer(s, u, b);
    Broken(steps, s, Follow(u, b, false));
  }
}
