/**
 How often a published message is processed: every instance accounts for its own copies, in every run; and
 without faults each session is told exactly once.
 */
module FanOut {
  import opened Wrappers
  import opened PostFeed
  import opened FeedNotification
  import W = WsDelivery

  /** What was published to ws-fanout since instance `n` was launched, in order. */
  ghost function PublishedSince(actions: seq<Action>, n: nat): seq<Post>
    requires RunOf(actions).Some?
  {
    if actions == [] then []
    else
      var before, action := actions[..|actions| - 1], actions[|actions| - 1];
      if n >= |RunOf(before).value.nodes| then []
      else PublishedSince(before, n) + if action.Consume? && action.published then [action.event] else []
  }

  /** The messages of the log whose copies were acknowledged. */
  function Acknowledged(log: seq<W.Notice>, acks: seq<bool>): seq<Post>
    requires |acks| == |log|
  {
    if log == [] then []
    else
      Acknowledged(log[..|log| - 1], acks[..|log| - 1]) + if acks[|log| - 1] then [log[|log| - 1].msg] else []
  }

  lemma AcknowledgedMore(log: seq<W.Notice>, acks: seq<bool>, notice: W.Notice, acked: bool)
    requires |acks| == |log|
    ensures Acknowledged(log + [notice], acks + [acked]) ==
      Acknowledged(log, acks) + if acked then [notice.msg] else []
  {
    assert (log + [notice])[..|log|] == log && (acks + [acked])[..|log|] == acks;
  }

  /** Every copy the instance was given is acknowledged or still in its queue. */
  ghost predicate Accounted(node: Node, published: seq<Post>) {
    |node.acks| == |node.ws.log| && Acknowledged(node.ws.log, node.acks) + node.copies == published
  }

  lemma AccountedNotify(node: Node, friends: set<(string, string)>, acked: bool, published: seq<Post>)
    requires Accounted(node, published) && node.copies != []
    ensures Accounted(Processed(node, friends, acked), published)
  {
    var notice, done := NoticeOf(friends, node.copies[0]), Acknowledged(node.ws.log, node.acks);
    AcknowledgedMore(node.ws.log, node.acks, notice, acked);
    assert W.Next(node.ws, W.Notify(notice)).log == node.ws.log + [notice];
    if acked {
      assert done + node.copies == done + [notice.msg] + node.copies[1..];
    } else {
      assert done + [] == done;
    }
  }

  lemma AccountedSession(node: Node, change: W.Step, published: seq<Post>)
    requires Accounted(node, published) && !change.Notify?
    ensures Accounted(node.(ws := W.Next(node.ws, change)), published)
  {
    assert W.Next(node.ws, change).log == node.ws.log;
  }

  lemma AccountedCopy(node: Node, message: Post, published: seq<Post>)
    requires Accounted(node, published)
    ensures Accounted(node.(copies := node.copies + [message]), published + [message])
  {
    assert Acknowledged(node.ws.log, node.acks) + (node.copies + [message])
        == Acknowledged(node.ws.log, node.acks) + node.copies + [message];
  }

  function NewCopy(action: Action): seq<Post> {
    if action.Consume? && action.published then [action.event] else []
  }

  lemma AccountedStep(y: System, action: Action, n: nat, published: seq<Post>)
    requires Possible(y, action) && n < |y.nodes| && Accounted(y.nodes[n], published)
    ensures n < |Act(y, action).nodes| && Accounted(Act(y, action).nodes[n], published + NewCopy(action))
  {
    assert NewCopy(action) == [] ==> published + NewCopy(action) == published;
    match action
    case Notify(m, acked) =>
      if m == n {
        AccountedNotify(y.nodes[n], y.feed.friends, acked, published);
      }
    case Session(m, change) =>
      if m == n {
        AccountedSession(y.nodes[n], change, published);
      }
    case Consume(event, _, _, sent) =>
      if sent {
        AccountedCopy(y.nodes[n], event, published);
      }
    case _ =>
  }

  /**
   In every run and for every instance, the copies it has acknowledged and those still in its queue are what
   was published since it was launched, in that order.
   */
  lemma {:induction false} CopiesAccounted(actions: seq<Action>, n: nat)
    requires RunOf(actions).Some? && n < |RunOf(actions).value.nodes|
    ensures Accounted(RunOf(actions).value.nodes[n], PublishedSince(actions, n))
  {
    var before, action := actions[..|actions| - 1], actions[|actions| - 1];
    var y := RunOf(before).value;
    if n < |y.nodes| {
      CopiesAccounted(before, n);
      AccountedStep(y, action, n, PublishedSince(before, n));
    } else {
      assert action.Launch? && RunOf(actions).value.nodes[n] == Node(W.EMPTY, [], []);
    }
  }

  /* ---- Without faults ---- */

  /** Every event and every copy is processed to the end and acknowledged. */
  predicate FaultFree(actions: seq<Action>) {
    forall k :: 0 <= k < |actions| ==>
      (actions[k].Consume? ==> actions[k].acked) && (actions[k].Notify? ==> actions[k].acked)
  }

  ghost predicate AllAcked(node: Node) { forall k :: 0 <= k < |node.acks| ==> node.acks[k] }

  lemma AckedStep(y: System, action: Action, n: nat)
    requires Possible(y, action) && n < |y.nodes| && AllAcked(y.nodes[n]) && (action.Notify? ==> action.acked)
    ensures n < |Act(y, action).nodes| && AllAcked(Act(y, action).nodes[n])
  {
  }

  lemma {:induction false} AckedRun(actions: seq<Action>, n: nat)
    requires RunOf(actions).Some? && n < |RunOf(actions).value.nodes| && FaultFree(actions)
    ensures AllAcked(RunOf(actions).value.nodes[n])
  {
    var before, action := actions[..|actions| - 1], actions[|actions| - 1];
    assert FaultFree(before) && (action.Notify? ==> action.acked);
    var y := RunOf(before).value;
    if n < |y.nodes| {
      AckedRun(before, n);
      AckedStep(y, action, n);
    } else {
      assert RunOf(actions).value.nodes[n] == Node(W.EMPTY, [], []);
    }
  }

  /** What was published is no longer queued for the feed consumer. */
  ghost predicate Handed(y: System) { y.fanout !! y.feed.queue }

  lemma HandedStep(y: System, action: Action)
    requires Sound(y) && Handed(y) && Possible(y, action) && (action.Consume? ==> action.acked)
    ensures Handed(Act(y, action))
  {
    match action
    case Call(Create(author, text, published)) =>
      var p := Post(y.feed.nextId, author, text);
      assert p !in y.feed.queue + y.fanout;
    case _ =>
  }

  lemma {:induction false} HandedRun(actions: seq<Action>)
    requires RunOf(actions).Some? && FaultFree(actions)
    ensures Handed(RunOf(actions).value)
  {
    if actions != [] {
      var before, action := actions[..|actions| - 1], actions[|actions| - 1];
      assert FaultFree(before) && (action.Consume? ==> action.acked);
      HandedRun(before);
      SoundRun(before);
      HandedStep(RunOf(before).value, action);
    }
  }

  ghost predicate Distinct(posts: seq<Post>) { forall i, j :: 0 <= i < j < |posts| ==> posts[i] != posts[j] }

  lemma {:induction false} PublishedInFanout(actions: seq<Action>, n: nat)
    requires RunOf(actions).Some?
    ensures forall m :: m in PublishedSince(actions, n) ==> m in RunOf(actions).value.fanout
  {
    if actions != [] {
      var before, action := actions[..|actions| - 1], actions[|actions| - 1];
      PublishedInFanout(before, n);
      FanoutGrows(RunOf(before).value, action);
    }
  }

  lemma FanoutGrows(y: System, action: Action)
    requires Possible(y, action)
    ensures y.fanout <= Act(y, action).fanout
    ensures action.Consume? && action.published ==> action.event in Act(y, action).fanout
  {
  }

  /** Without faults no message is published twice. */
  lemma {:induction false} PublishedOnce(actions: seq<Action>, n: nat)
    requires RunOf(actions).Some? && FaultFree(actions)
    ensures Distinct(PublishedSince(actions, n))
  {
    if actions != [] {
      var before, action := actions[..|actions| - 1], actions[|actions| - 1];
      assert FaultFree(before);
      PublishedOnce(before, n);
      PublishedInFanout(before, n);
      HandedRun(before);
    }
  }

  function Messages(log: seq<W.Notice>): (messages: seq<Post>)
    ensures |messages| == |log|
  {
    seq(|log|, k requires 0 <= k < |log| => log[k].msg)
  }

  lemma {:induction false} AckedAreMessages(log: seq<W.Notice>, acks: seq<bool>)
    requires |acks| == |log| && forall k :: 0 <= k < |acks| ==> acks[k]
    ensures Acknowledged(log, acks) == Messages(log)
  {
    if log != [] {
      AckedAreMessages(log[..|log| - 1], acks[..|log| - 1]);
    }
  }

  /**
   Without faults each instance processes what was published since it was launched, in that order, each
   message once: what it has processed and what is in its queue make up the whole.
   */
  lemma {:induction false} ProcessedOnce(actions: seq<Action>, n: nat)
    requires RunOf(actions).Some? && n < |RunOf(actions).value.nodes| && FaultFree(actions)
    ensures var node := RunOf(actions).value.nodes[n];
      Messages(node.ws.log) + node.copies == PublishedSince(actions, n) && Distinct(PublishedSince(actions, n))
  {
    var node := RunOf(actions).value.nodes[n];
    CopiesAccounted(actions, n);
    AckedRun(actions, n);
    AckedAreMessages(node.ws.log, node.acks);
    PublishedOnce(actions, n);
  }

  /** How many copies of `message` a list of messages has. */
  function Count(messages: seq<Post>, message: Post): nat { multiset(messages)[message] }

  lemma {:induction false} HeardNever(log: seq<W.Notice>, user: string, message: Post)
    requires forall k :: 0 <= k < |log| ==> log[k].msg != message
    ensures message !in W.Heard(log, user)
  {
    if log != [] {
      HeardNever(log[..|log| - 1], user, message);
    }
  }

  lemma {:induction false} HeardOnce(log: seq<W.Notice>, user: string, message: Post, k: nat)
    requires k < |log| && log[k].msg == message
    requires forall j :: 0 <= j < |log| && log[j].msg == message ==> j == k
    ensures Count(W.Heard(log, user), message) == if user in log[k].followers then 1 else 0
  {
    var n := |log| - 1;
    if k == n {
      HeardNever(log[..n], user, message);
    } else {
      HeardOnce(log[..n], user, message, k);
    }
  }

  /** A session of the instance is told of the `k`th processed message if it listened then. */
  predicate ToldAt(w: W.Instance, s: nat, k: nat)
    requires k < |w.log|
  {
    s in w.since && s in w.owner && w.since[s] <= k && w.owner[s] in w.log[k].followers
  }

  /**
   Without faults a published message reaches every session once, on whatever instance. A message published
   since the launch of an instance either waits in its queue and no session there has it, or the instance has
   processed it exactly once, and every open live session has exactly one copy if it had subscribed by then
   and its user followed the author at that moment, and none otherwise.
   */
  lemma {:induction false} ReachesOnce(actions: seq<Action>, n: nat, s: nat, message: Post)
    requires RunOf(actions).Some? && n < |RunOf(actions).value.nodes| && FaultFree(actions)
    requires message in PublishedSince(actions, n)
    requires var w := RunOf(actions).value.nodes[n].ws; s in w.open && s in w.live
    ensures var node := RunOf(actions).value.nodes[n];
      && s in node.ws.queues
      && (message in node.copies ==> Count(node.ws.queues[s], message) == 0)
      && (message !in node.copies ==>
            exists k :: 0 <= k < |node.ws.log| && node.ws.log[k].msg == message
              && (forall j :: 0 <= j < |node.ws.log| && node.ws.log[j].msg == message ==> j == k)
              && Count(node.ws.queues[s], message) == if ToldAt(node.ws, s, k) then 1 else 0)
  {
    var node := RunOf(actions).value.nodes[n];
    ProcessedOnce(actions, n);
    SessionsHear(actions, n, s);
    if message in node.copies {
      NotYetProcessed(node, PublishedSince(actions, n), message);
      HeardNever(node.ws.log[node.ws.since[s]..], node.ws.owner[s], message);
    } else {
      var k := ProcessedAt(node, PublishedSince(actions, n), message);
      CountInQueue(node.ws, s, message, k);
    }
  }

  lemma NotYetProcessed(node: Node, published: seq<Post>, message: Post)
    requires Messages(node.ws.log) + node.copies == published && Distinct(published) && message in node.copies
    ensures forall k :: 0 <= k < |node.ws.log| ==> node.ws.log[k].msg != message
  {
    var c :| 0 <= c < |node.copies| && node.copies[c] == message;
    assert published[|node.ws.log| + c] == message;
    forall k | 0 <= k < |node.ws.log| ensures node.ws.log[k].msg != message {
      assert published[k] == node.ws.log[k].msg;
    }
  }

  lemma ProcessedAt(node: Node, published: seq<Post>, message: Post) returns (k: nat)
    requires Messages(node.ws.log) + node.copies == published && Distinct(published)
    requires message in published && message !in node.copies
    ensures k < |node.ws.log| && node.ws.log[k].msg == message
    ensures forall j :: 0 <= j < |node.ws.log| && node.ws.log[j].msg == message ==> j == k
  {
    var processed := Messages(node.ws.log);
    assert message in processed + node.copies;
    k :| 0 <= k < |processed| && processed[k] == message;
    assert published[k] == message;
    forall j | 0 <= j < |node.ws.log| && node.ws.log[j].msg == message ensures j == k {
      assert published[j] == message;
    }
  }

  lemma CountInQueue(w: W.Instance, s: nat, message: Post, k: nat)
    requires W.Served(w, s) && k < |w.log| && w.log[k].msg == message
    requires forall j :: 0 <= j < |w.log| && w.log[j].msg == message ==> j == k
    ensures Count(w.queues[s], message) == if ToldAt(w, s, k) then 1 else 0
  {
    var heard := w.log[w.since[s]..];
    if k < w.since[s] {
      HeardNever(heard, w.owner[s], message);
    } else {
      assert heard[k - w.since[s]] == w.log[k];
      HeardOnce(heard, w.owner[s], message, k - w.since[s]);
    }
  }
}
