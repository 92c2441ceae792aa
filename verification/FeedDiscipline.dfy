/** A discipline under which the cached feeds agree with the query in every run. */
module FeedDiscipline {
  import opened Wrappers
  import opened PostFeed
  import opened FeedPaging
  import opened FeedSelection
  import opened FeedCoherence

  /**
   Every event is published, consumed once and in creation order, every invalidation is done, and no feed
   is loaded while an event of a followed author is queued. Edits and deletions need no further care.
   */
  ghost predicate Disciplined(s: State, step: Step) {
    match step
    case Create(author, text, published) => published
    case Read(user) => user in s.cache || forall e :: e in s.queue ==> !Follows(s.friends, user, e.author)
    case Process(event, missed, acked) => acked && forall e :: e in s.queue ==> event.id <= e.id
    case _ => step.dropped
  }

  /** Only the newest posts are queued. */
  ghost predicate QueueIsNewest(s: State) {
    forall e, p :: e in s.queue && p in s.posts && p.id > e.id ==> p.id in Ids(s.queue)
  }

  /** A queued event that no longer says what the database says concerns no cached list. */
  ghost predicate Clean(s: State) {
    forall e, u :: e in s.queue && u in s.cache && Follows(s.friends, u, e.author) ==> e in s.posts
  }

  ghost predicate Good(s: State) { Ordered(s) && Coherent(s) && Clean(s) && QueueIsNewest(s) }

  lemma DisciplinedIsGuarded(s: State, step: Step)
    requires Good(s) && Enabled(s, step) && Disciplined(s, step)
    ensures Guard(s, step)
  {
    if step.Read? && step.user !in s.cache {
      QueryMembers(s, step.user);
      forall p | p in Query(s, step.user) ensures p.id !in Ids(s.queue) {
        var i :| 0 <= i < |s.posts| && s.posts[i] == p;
        assert forall e :: e in s.queue && e.id == p.id ==> e.author == s.posts[i].author;
      }
    }
  }

  lemma DisciplinedStep(s: State, step: Step)
    requires Good(s) && Enabled(s, step) && Disciplined(s, step)
    ensures Good(Next(s, step))
  {
    DisciplinedIsGuarded(s, step);
    GuardIsExact(s, step);
    OrderedStep(s, step);
    CleanStays(s, step);
    NewestStays(s, step);
  }

  lemma CleanStays(s: State, step: Step)
    requires Clean(s) && Enabled(s, step) && Disciplined(s, step)
    ensures Clean(Next(s, step))
  {
    match step
    case Update(id, text, dropped) => CleanUpdate(s, id, text);
    case Delete(id, dropped) => CleanDelete(s, id);
    case _ =>
  }

  lemma CleanUpdate(s: State, id: nat, text: string)
    requires Clean(s)
    ensures Clean(Updated(s, id, text, true))
  {
    var t := Updated(s, id, text, true);
    var i := Find(s.posts, id);
    if i < |s.posts| {
      forall e, u | e in t.queue && u in t.cache && Follows(t.friends, u, e.author) ensures e in t.posts {
        var k :| 0 <= k < |s.posts| && s.posts[k] == e;
        assert t.posts[k] == e;
      }
    }
  }

  lemma CleanDelete(s: State, id: nat)
    requires Clean(s)
    ensures Clean(Deleted(s, id, true))
  {
    var t := Deleted(s, id, true);
    var i := Find(s.posts, id);
    if i < |s.posts| {
      forall e, u | e in t.queue && u in t.cache && Follows(t.friends, u, e.author) ensures e in t.posts {
        StillThere(s.posts, i, e);
      }
    }
  }

  lemma StillThere(posts: seq<Post>, i: nat, e: Post)
    requires i < |posts| && e in posts && e != posts[i]
    ensures e in Without(posts, i)
  {
    assert posts == posts[..i] + [posts[i]] + posts[i + 1..];
  }

  lemma NewestStays(s: State, step: Step)
    requires Ordered(s) && QueueIsNewest(s) && Enabled(s, step) && Disciplined(s, step)
    ensures QueueIsNewest(Next(s, step))
  {
    match step
    case Create(author, text, published) => NewestCreate(s, author, text);
    case Update(id, text, dropped) => NewestUpdate(s, id, text, dropped);
    case Delete(id, dropped) => NewestDelete(s, id, dropped);
    case Process(event, missed, acked) => NewestProcess(s, event);
    case _ =>
  }

  lemma NewestCreate(s: State, author: string, text: string)
    requires Ordered(s) && QueueIsNewest(s)
    ensures QueueIsNewest(Next(s, Create(author, text, true)))
  {
    var t := Next(s, Create(author, text, true));
    var newest := Post(s.nextId, author, text);
    forall e, p | e in t.queue && p in t.posts && p.id > e.id ensures p.id in Ids(t.queue) {
      if p == newest {
        assert newest in t.queue;
      } else {
        var k :| 0 <= k < |s.posts| && s.posts[k] == p;
        assert e != newest && p.id in Ids(s.queue);
      }
    }
  }

  lemma NewestUpdate(s: State, id: nat, text: string, dropped: bool)
    requires QueueIsNewest(s)
    ensures QueueIsNewest(Updated(s, id, text, dropped))
  {
    var t := Updated(s, id, text, dropped);
    forall e, p | e in t.queue && p in t.posts && p.id > e.id ensures p.id in Ids(t.queue) {
      var k :| 0 <= k < |t.posts| && t.posts[k] == p;
      assert s.posts[k] in s.posts && s.posts[k].id == p.id;
    }
  }

  lemma NewestDelete(s: State, id: nat, dropped: bool)
    requires QueueIsNewest(s)
    ensures QueueIsNewest(Deleted(s, id, dropped))
  {
    var t := Deleted(s, id, dropped);
    forall e, p | e in t.queue && p in t.posts && p.id > e.id ensures p.id in Ids(t.queue) {
      assert p in s.posts;
    }
  }

  lemma NewestProcess(s: State, event: Post)
    requires Ordered(s) && QueueIsNewest(s) && event in s.queue
    requires forall e :: e in s.queue ==> event.id <= e.id
    ensures QueueIsNewest(Next(s, Process(event, {}, true)))
  {
    var t := Next(s, Process(event, {}, true));
    AckHides(s.queue, event);
    forall e, p | e in t.queue && p in t.posts && p.id > e.id ensures p.id in Ids(t.queue) {
      assert p.id in Ids(s.queue) && event.id <= e.id;
    }
  }

  ghost predicate AlwaysDisciplined(steps: seq<Step>)
    requires Run(INIT, steps).Some?
  {
    steps == [] ||
    (var before := steps[..|steps| - 1];
     AlwaysDisciplined(before) && Disciplined(Run(INIT, before).value, steps[|steps| - 1]))
  }

  lemma {:induction false} DisciplinedRun(steps: seq<Step>)
    requires Run(INIT, steps).Some? && AlwaysDisciplined(steps)
    ensures Good(Run(INIT, steps).value)
  {
    if steps != [] {
      var before := steps[..|steps| - 1];
      DisciplinedRun(before);
      DisciplinedStep(Run(INIT, before).value, steps[|steps| - 1]);
    }
  }

  /**
   In a disciplined run, through any mix of creations, edits, deletions, friendship changes and reads,
   every cached list is the query without the posts still queued; so it is the query itself for a user
   none of whose friends has an event underway.
   */
  lemma {:induction false} CacheRefinesQuery(steps: seq<Step>, user: string)
    requires Run(INIT, steps).Some? && AlwaysDisciplined(steps)
    ensures var s := Run(INIT, steps).value;
      user in s.cache ==>
        && s.cache[user] == Materialised(s, user)
        && ((forall e :: e in s.queue ==> !Follows(s.friends, user, e.author)) ==> s.cache[user] == Query(s, user))
  {
    DisciplinedRun(steps);
    var s := Run(INIT, steps).value;
    if forall e :: e in s.queue ==> !Follows(s.friends, user, e.author) {
      NoneQueued(s, user);
    }
  }

  /** Then a read shows the same page of the query whether it finds a list or not. */
  lemma {:induction false} ReadsAreQueries(steps: seq<Step>, user: string, offset: nat, limit: nat)
    requires Run(INIT, steps).Some? && AlwaysDisciplined(steps)
    requires forall e :: e in Run(INIT, steps).value.queue ==> !Follows(Run(INIT, steps).value.friends, user, e.author)
    requires limit >= 1 && offset + limit <= INT_MAX
    ensures var s := Run(INIT, steps).value;
      Shown(s, user, offset, limit) == Ok(Page(Query(s, user), offset, limit))
  {
    CacheRefinesQuery(steps, user);
    ProperPage(Query(Run(INIT, steps).value, user), offset, limit);
  }

  lemma NoneQueued(s: State, user: string)
    requires Ordered(s)
    requires forall e :: e in s.queue ==> !Follows(s.friends, user, e.author)
    ensures Materialised(s, user) == Query(s, user)
  {
    forall p | p in s.posts
      ensures Selected(p, s.friends, Ids(s.queue), user) == Selected(p, s.friends, {}, user)
    {
      var i :| 0 <= i < |s.posts| && s.posts[i] == p;
      forall e | e in s.queue && e.id == p.id ensures !Follows(s.friends, user, p.author) {
        assert s.posts[i].author == e.author;
      }
    }
    SelectAgree(s.posts, s.friends, Ids(s.queue), s.friends, {}, user);
  }
}
