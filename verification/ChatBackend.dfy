/**
 The request handlers and consumers of the saga as code, one call after another. `steps` records the
 saga steps a call makes, in order; `Valid` says that what the program stores is what those steps of
 the state machine lead to.
 */
module ChatBackend {
  import opened Wrappers
  import opened CounterFunctions
  import opened UnreadSaga
  import opened SagaDrift
  import D = DialogStore

  /** The JSON event `message.sent` */
  datatype Event = Event(fromUserId: string, toUserId: string)

  /** How far `Process` gets before it throws or its process dies. */
  datatype Progress = Nothing | FirstIncrement | BothIncrements | Acknowledged

  /**
   How a send ends: either of its two calls may throw. A call that throws may have taken effect all the
   same; if `dialog_send` throws, nothing is published.
   */
  datatype SendOutcome = Confirmed | ErrorAfterPublish | ErrorWithoutPublish | ErrorWithoutStore

  datatype ResetOutcome = ResetReplied | ErrorAfterReset | ErrorWithoutReset

  datatype HttpReply = BadRequest | InternalServerError | MessageList(items: seq<D.Message>)

  /** The steps of one send. */
  function SendSteps(i: nat, sent: D.Sent, outcome: SendOutcome): seq<Step> {
    match outcome
    case ErrorWithoutStore => []
    case ErrorWithoutPublish => [Store(sent), LosePublish(i)]
    case _ => [Store(sent), Publish(i)]
  }

  /** The steps of one `Process` call for the event of entry `i`. */
  function ProcessSteps(i: nat, progress: Progress): seq<Step> {
    match progress
    case Nothing => [Deliver(i), Requeue(i)]
    case FirstIncrement => [Deliver(i), IncrTotal(i), Requeue(i)]
    case BothIncrements => [Deliver(i), IncrTotal(i), IncrDialog(i), Requeue(i)]
    case Acknowledged => [Deliver(i), IncrTotal(i), IncrDialog(i), Ack(i)]
  }

  /** The steps of one dialog-open request: the reset call comes before the listing. */
  function OpenSteps(r: nat, user: string, partner: string, outcome: ResetOutcome, lists: bool): seq<Step> {
    [Open(user, partner)] + (ResetSteps(r, outcome) + if lists then [ListDialog(r)] else [])
  }

  function ResetSteps(r: nat, outcome: ResetOutcome): seq<Step> {
    match outcome
    case ResetReplied => [RunReset(r), ReplyReset(r)]
    case ErrorAfterReset => [RunReset(r), FailReset(r)]
    case ErrorWithoutReset => [FailReset(r)]
  }

  class Backend {
    const counters: CounterStore
    const dialogs: D.DialogRedis
    var queue: seq<Event>           // message-counters
    ghost var queued: seq<nat>      // the entries of the events in `queue`
    ghost var steps: seq<Step>
    ghost var state: State

    /** The stores are those of the state that the recorded steps lead to. */
    ghost predicate Synced()
      reads this, counters, dialogs
    {
      && Run(INIT, steps) == Some(state)
      && counters.redis == state.redis
      && dialogs.View() == state.dialogs
    }

    ghost predicate Valid()
      reads this, counters, dialogs
    {
      Synced() && Waiting(state.entries, queue, queued)
    }

    constructor ()
      ensures Valid() && fresh(counters) && fresh(dialogs)
      ensures steps == [] && queue == []
    {
      counters := new CounterStore();
      dialogs := new D.DialogRedis();
      queue, queued, steps, state := [], [], [], INIT;
    }

    /** Appends a step to the record. */
    ghost method Record(step: Step)
      requires Run(INIT, steps) == Some(state) && Enabled(state, step)
      modifies this`steps, this`state
      ensures steps == old(steps) + [step]
      ensures state == Next(old(state), step) && Run(INIT, steps) == Some(state)
    {
      RunMore(INIT, steps, step);
      state := Next(state, step);
      steps := steps + [step];
    }

    /** `SendMessage`: the message is stored before its event is published. */
    method SendMessage(fromUserId: string, toUserId: string, text: string, msgId: string, outcome: SendOutcome)
      returns (ok: bool)
      requires Valid()
      requires Enabled(state, Store(D.Sent(msgId, D.Message(fromUserId, toUserId, text))))
      modifies this, dialogs
      ensures Valid() && (ok <==> outcome.Confirmed?)
      ensures steps == old(steps) +
        SendSteps(|old(state).entries|, D.Sent(msgId, D.Message(fromUserId, toUserId, text)), outcome)
      ensures outcome.ErrorWithoutStore? ==> dialogs.View() == old(dialogs.View()) && state == old(state)
      ensures !outcome.ErrorWithoutStore? ==>
        D.Holds(old(dialogs.View()), dialogs.View(), fromUserId, toUserId, text, msgId)
      ensures queue == old(queue) +
        if outcome.Confirmed? || outcome.ErrorAfterPublish? then [Event(fromUserId, toUserId)] else []
    {
      if outcome.ErrorWithoutStore? {
        return false;
      }
      StoreThenPublish(fromUserId, toUserId, text, msgId, outcome);
      ok := outcome.Confirmed?;
    }

    method StoreThenPublish(fromUserId: string, toUserId: string, text: string, msgId: string, outcome: SendOutcome)
      requires Valid() && !outcome.ErrorWithoutStore?
      requires Enabled(state, Store(D.Sent(msgId, D.Message(fromUserId, toUserId, text))))
      modifies this, dialogs
      ensures Valid()
      ensures steps == old(steps) +
        SendSteps(|old(state).entries|, D.Sent(msgId, D.Message(fromUserId, toUserId, text)), outcome)
      ensures D.Holds(old(dialogs.View()), dialogs.View(), fromUserId, toUserId, text, msgId)
      ensures queue == old(queue) + if outcome.ErrorWithoutPublish? then [] else [Event(fromUserId, toUserId)]
    {
      ghost var i := |state.entries|;
      StoreMessage(fromUserId, toUserId, text, msgId);
      Publish(i, Event(fromUserId, toUserId), outcome);
    }

    method StoreMessage(fromUserId: string, toUserId: string, text: string, msgId: string)
      requires Valid()
      requires Enabled(state, Store(D.Sent(msgId, D.Message(fromUserId, toUserId, text))))
      modifies this`steps, this`state, dialogs
      ensures Valid()
      ensures steps == old(steps) + [Store(D.Sent(msgId, D.Message(fromUserId, toUserId, text)))]
      ensures state.entries == old(state).entries + [Entry(D.Sent(msgId, D.Message(fromUserId, toUserId, text)), Stored)]
      ensures D.Holds(old(dialogs.View()), dialogs.View(), fromUserId, toUserId, text, msgId)
    {
      dialogs.DialogSend(fromUserId, toUserId, text, msgId);
      Record(Store(D.Sent(msgId, D.Message(fromUserId, toUserId, text))));
    }

    /** The event reaches the queue, or it never does. */
    method Publish(ghost i: nat, event: Event, outcome: SendOutcome)
      requires Valid() && i < |state.entries| && state.entries[i].status.Stored?
      requires event == Event(state.entries[i].sent.msg.from, state.entries[i].sent.msg.to)
      modifies this
      ensures Valid()
      ensures steps == old(steps) +
        [if outcome.ErrorWithoutPublish? then LosePublish(i) else UnreadSaga.Publish(i)]
      ensures queue == old(queue) + if outcome.ErrorWithoutPublish? then [] else [event]
    {
      if outcome.ErrorWithoutPublish? {
        Record(LosePublish(i));
      } else {
        queue := queue + [event];
        queued := queued + [i];
        Record(UnreadSaga.Publish(i));
      }
    }

    /** `CounterConsumer::Process`: two increments, one after the other, as far as it gets. */
    method Process(ghost i: nat, event: Event, progress: Progress)
      requires Synced() && InQueue(state.entries, i, event)
      modifies this`steps, this`state, counters
      ensures Synced()
      ensures steps == old(steps) + [Deliver(i)] +
        (if progress.Nothing? then [] else if progress.FirstIncrement? then [IncrTotal(i)] else [IncrTotal(i), IncrDialog(i)])
      ensures |state.entries| == |old(state).entries|
      ensures forall j :: 0 <= j < |state.entries| && j != i ==> state.entries[j] == old(state).entries[j]
      ensures state.entries[i].sent == old(state).entries[i].sent
      ensures progress.Nothing? ==> counters.redis == old(counters.redis)
      ensures !progress.Nothing? ==>
        OnlySets(old(counters.redis), counters.redis, event.toUserId, event.fromUserId,
                 Total(old(counters.redis), event.toUserId) + 1,
                 CountOf(old(counters.redis), event.toUserId, event.fromUserId)
                 + if progress.FirstIncrement? then 0 else 1)
      ensures match progress
        case Nothing => state.entries[i].status.Delivered?
        case FirstIncrement => state.entries[i].status.Halfway?
        case _ => state.entries[i].status.Counted?
    {
      Record(Deliver(i));
      if !progress.Nothing? {
        Increment(i, event, !progress.FirstIncrement?);
      }
    }

    method Increment(ghost i: nat, event: Event, both: bool)
      requires Synced() && i < |state.entries| && state.entries[i].status.Delivered?
      requires event == Event(state.entries[i].sent.msg.from, state.entries[i].sent.msg.to)
      modifies this`steps, this`state, counters
      ensures Synced()
      ensures steps == old(steps) + if both then [IncrTotal(i), IncrDialog(i)] else [IncrTotal(i)]
      ensures |state.entries| == |old(state).entries| && state.entries[i].sent == old(state).entries[i].sent
      ensures forall j :: 0 <= j < |state.entries| && j != i ==> state.entries[j] == old(state).entries[j]
      ensures if both then state.entries[i].status.Counted? else state.entries[i].status.Halfway?
      ensures OnlySets(old(counters.redis), counters.redis, event.toUserId, event.fromUserId,
                       Total(old(counters.redis), event.toUserId) + 1,
                       CountOf(old(counters.redis), event.toUserId, event.fromUserId) + if both then 1 else 0)
    {
      IncrementTotal(i, event);
      ghost var first := counters.redis;
      if both {
        IncrementDialog(i, event);
        OnlySetsTwice(old(counters.redis), first, counters.redis, event.toUserId, event.fromUserId);
      }
    }

    method IncrementTotal(ghost i: nat, event: Event)
      requires Synced() && Enabled(state, IncrTotal(i)) && state.entries[i].sent.msg.to == event.toUserId
      modifies this`steps, this`state, counters
      ensures Synced() && steps == old(steps) + [IncrTotal(i)] && state == NextIncrTotal(old(state), i)
      ensures OnlySets(old(counters.redis), counters.redis, event.toUserId, event.fromUserId,
                       Total(old(counters.redis), event.toUserId) + 1,
                       CountOf(old(counters.redis), event.toUserId, event.fromUserId))
    {
      var _ := counters.HIncrBy(event.toUserId, TOTAL, 1);
      Record(IncrTotal(i));
    }

    method IncrementDialog(ghost i: nat, event: Event)
      requires Synced() && Enabled(state, IncrDialog(i))
      requires var e := state.executions[state.entries[i].status.x];
        e.to == event.toUserId && e.from == event.fromUserId
      modifies this`steps, this`state, counters
      ensures Synced() && steps == old(steps) + [IncrDialog(i)] && state == NextIncrDialog(old(state), i)
      ensures OnlySets(old(counters.redis), counters.redis, event.toUserId, event.fromUserId,
                       Total(old(counters.redis), event.toUserId),
                       CountOf(old(counters.redis), event.toUserId, event.fromUserId) + 1)
    {
      var _ := counters.HIncrBy(event.toUserId, DialogField(event.fromUserId), 1);
      Record(IncrDialog(i));
    }

    /** One delivery of the event at the head of the queue: acknowledged, or put back. */
    method ConsumeHead(progress: Progress)
      requires Valid() && queue != []
      modifies this, counters
      ensures Valid()
      ensures steps == old(steps) + ProcessSteps(old(queued)[0], progress)
      ensures queue == if progress.Acknowledged? then old(queue)[1..] else old(queue)
      ensures progress.Nothing? ==> counters.redis == old(counters.redis)
      ensures !progress.Nothing? ==>
        OnlySets(old(counters.redis), counters.redis, old(queue)[0].toUserId, old(queue)[0].fromUserId,
                 Total(old(counters.redis), old(queue)[0].toUserId) + 1,
                 CountOf(old(counters.redis), old(queue)[0].toUserId, old(queue)[0].fromUserId)
                 + if progress.FirstIncrement? then 0 else 1)
      ensures old(queued)[0] < |state.entries|
      ensures state.entries[old(queued)[0]].status == if progress.Acknowledged? then Acked else Queued
    {
      ghost var i := queued[0];
      ghost var before := state.entries;
      Consume(i, queue[0], progress);
      HeadSettled(before, state.entries, queue, queued, progress.Acknowledged?);
      if progress.Acknowledged? {
        queue, queued := queue[1..], queued[1..];
      }
    }

    method Consume(ghost i: nat, event: Event, progress: Progress)
      requires Synced() && InQueue(state.entries, i, event)
      modifies this`steps, this`state, counters
      ensures Synced() && steps == old(steps) + ProcessSteps(i, progress)
      ensures state.entries ==
        old(state).entries[i := old(state).entries[i].(status := if progress.Acknowledged? then Acked else Queued)]
      ensures progress.Nothing? ==> counters.redis == old(counters.redis)
      ensures !progress.Nothing? ==>
        OnlySets(old(counters.redis), counters.redis, event.toUserId, event.fromUserId,
                 Total(old(counters.redis), event.toUserId) + 1,
                 CountOf(old(counters.redis), event.toUserId, event.fromUserId)
                 + if progress.FirstIncrement? then 0 else 1)
    {
      Process(i, event, progress);
      Settle(i, progress.Acknowledged?);
    }

    ghost method Settle(i: nat, acknowledged: bool)
      requires Synced() && i < |state.entries|
      requires state.entries[i].status.Counted? || (!acknowledged && (state.entries[i].status.Delivered? || state.entries[i].status.Halfway?))
      modifies this`steps, this`state
      ensures Synced() && steps == old(steps) + [if acknowledged then Ack(i) else Requeue(i)]
      ensures state.entries == SetStatus(old(state), i, if acknowledged then Acked else Queued).entries
    {
      Record(if acknowledged then Ack(i) else Requeue(i));
    }

    /** `ListMessages`; a record that is missing from Redis cannot be read as a message. */
    method ListMessages(userId: string, otherUserId: string) returns (response: Option<seq<D.Message>>)
      ensures var reply := D.List(dialogs.View(), userId, otherUserId);
        match response
        case None => exists n :: 0 <= n < |reply| && reply[n].None?
        case Some(messages) => IsFound(messages, reply)
    {
      var reply := dialogs.DialogList(userId, otherUserId);
      var messages := [];
      for n := 0 to |reply|
        invariant IsFound(messages, reply[..n])
      {
        if reply[n].None? {
          return None;
        }
        messages := messages + [reply[n].value];
      }
      response := Some(messages);
    }

    ghost method RecordOpen(userId: string, partner: string)
      requires Valid()
      modifies this`steps, this`state
      ensures Valid() && steps == old(steps) + [Open(userId, partner)]
      ensures state.dialogs == old(state).dialogs
      ensures state.requests == old(state).requests + [Request(userId, partner, None, Pending, None)]
    {
      Record(Open(userId, partner));
    }

    /** The reset call of the open handler; an error is logged and ignored. */
    method CallReset(ghost r: nat, userId: string, partner: string, outcome: ResetOutcome)
      requires Valid() && r < |state.requests| && state.requests[r] == Request(userId, partner, None, Pending, None)
      modifies this`steps, this`state, counters
      ensures Valid()
      ensures steps == old(steps) + ResetSteps(r, outcome)
      ensures state.dialogs == old(state).dialogs
      ensures r < |state.requests| && !state.requests[r].call.Pending? && state.requests[r].listing.None?
      ensures state.requests[r].user == userId && state.requests[r].partner == partner
      ensures state.requests[r].call.Replied? <==> outcome.ResetReplied?
      ensures state.requests[r].reset.Some? <==> !outcome.ErrorWithoutReset?
      ensures outcome.ErrorWithoutReset? ==> counters.redis == old(counters.redis)
      ensures !outcome.ErrorWithoutReset? ==>
        OnlySets(old(counters.redis), counters.redis, userId, partner,
                 Max0(Total(old(counters.redis), userId) - CountOf(old(counters.redis), userId, partner)), 0)
    {
      if !outcome.ErrorWithoutReset? {
        ResetInRedis(r, userId, partner);
      }
      if outcome.ResetReplied? {
        Record(ReplyReset(r));
      } else {
        Record(FailReset(r));
      }
    }

    method ResetInRedis(ghost r: nat, userId: string, partner: string)
      requires Valid() && r < |state.requests| && state.requests[r] == Request(userId, partner, None, Pending, None)
      modifies this`steps, this`state, counters
      ensures Valid() && steps == old(steps) + [RunReset(r)]
      ensures state.dialogs == old(state).dialogs && r < |state.requests| && state.requests[r].reset.Some?
      ensures state.requests[r] == old(state).requests[r].(reset := state.requests[r].reset)
      ensures OnlySets(old(counters.redis), counters.redis, userId, partner,
                       Max0(Total(old(counters.redis), userId) - CountOf(old(counters.redis), userId, partner)), 0)
    {
      CountersSane(steps, userId);
      var _ := counters.ResetDialog(userId, partner);
      Record(RunReset(r));
    }

    /** The handler that opens a dialog; `other` is what the path argument parses to, if it does. */
    method OpenDialog(userId: string, other: Option<string>, outcome: ResetOutcome, lists: bool)
      returns (reply: HttpReply)
      requires Valid()
      modifies this`steps, this`state, counters
      ensures Valid()
      ensures steps == old(steps) +
        if other.None? then [] else OpenSteps(|old(state).requests|, userId, other.value, outcome, lists)
      ensures reply.BadRequest? <==> other.None?
      ensures reply.InternalServerError? <==> other.Some? && !lists
      ensures reply.MessageList? ==> IsFound(reply.items, D.List(old(dialogs.View()), userId, other.value))
      ensures other.None? || outcome.ErrorWithoutReset? ==> counters.redis == old(counters.redis)
      ensures other.Some? && !outcome.ErrorWithoutReset? ==>
        OnlySets(old(counters.redis), counters.redis, userId, other.value,
                 Max0(Total(old(counters.redis), userId) - CountOf(old(counters.redis), userId, other.value)), 0)
      ensures other.Some? ==> Opened(state, |old(state).requests|, outcome, lists)
    {
      if other.None? {
        return BadRequest;
      }
      reply := OpenKnown(userId, other.value, outcome, lists);
    }

    method OpenKnown(userId: string, partner: string, outcome: ResetOutcome, lists: bool) returns (reply: HttpReply)
      requires Valid()
      modifies this`steps, this`state, counters
      ensures Valid()
      ensures steps == old(steps) + OpenSteps(|old(state).requests|, userId, partner, outcome, lists)
      ensures !reply.BadRequest? && (reply.InternalServerError? <==> !lists)
      ensures reply.MessageList? ==> IsFound(reply.items, D.List(old(dialogs.View()), userId, partner))
      ensures outcome.ErrorWithoutReset? ==> counters.redis == old(counters.redis)
      ensures !outcome.ErrorWithoutReset? ==>
        OnlySets(old(counters.redis), counters.redis, userId, partner,
                 Max0(Total(old(counters.redis), userId) - CountOf(old(counters.redis), userId, partner)), 0)
      ensures Opened(state, |old(state).requests|, outcome, lists)
    {
      ghost var r := |state.requests|;
      RecordOpen(userId, partner);
      reply := ResetThenList(r, userId, partner, outcome, lists);
    }

    /** The two calls of the open handler */
    method ResetThenList(ghost r: nat, userId: string, partner: string, outcome: ResetOutcome, lists: bool)
      returns (reply: HttpReply)
      requires Valid() && r < |state.requests| && state.requests[r] == Request(userId, partner, None, Pending, None)
      modifies this`steps, this`state, counters
      ensures Valid()
      ensures steps == old(steps) + (ResetSteps(r, outcome) + if lists then [ListDialog(r)] else [])
      ensures !reply.BadRequest? && (reply.InternalServerError? <==> !lists)
      ensures reply.MessageList? ==> IsFound(reply.items, D.List(old(dialogs.View()), userId, partner))
      ensures outcome.ErrorWithoutReset? ==> counters.redis == old(counters.redis)
      ensures !outcome.ErrorWithoutReset? ==>
        OnlySets(old(counters.redis), counters.redis, userId, partner,
                 Max0(Total(old(counters.redis), userId) - CountOf(old(counters.redis), userId, partner)), 0)
      ensures Opened(state, r, outcome, lists)
    {
      CallReset(r, userId, partner, outcome);
      if !lists {
        return InternalServerError;
      }
      var items := ListAfterReset(r, userId, partner);
      reply := MessageList(items);
    }

    /** The second half of the open handler: the list call and the reply built from it. */
    method ListAfterReset(ghost r: nat, userId: string, partner: string) returns (items: seq<D.Message>)
      requires Valid() && r < |state.requests|
      requires !state.requests[r].call.Pending? && state.requests[r].listing.None?
      modifies this`steps, this`state
      ensures Valid() && steps == old(steps) + [ListDialog(r)]
      ensures IsFound(items, D.List(dialogs.View(), userId, partner))
      ensures state.requests == old(state).requests[r := old(state).requests[r].(listing := state.requests[r].listing)]
      ensures state.requests[r].listing.Some?
      ensures state.requests[r].listing.value.afterReset <==> old(state).requests[r].reset.Some?
    {
      NoRecordMissing(steps, userId, partner);
      var response := ListMessages(userId, partner);
      items := response.value;
      Record(ListDialog(r));
    }
  }

  lemma OnlySetsTwice(before: Redis, between: Redis, after: Redis, user: string, partner: string)
    requires OnlySets(before, between, user, partner, Total(between, user), CountOf(between, user, partner))
    requires OnlySets(between, after, user, partner, Total(after, user), CountOf(after, user, partner))
    ensures OnlySets(before, after, user, partner, Total(after, user), CountOf(after, user, partner))
  {
    forall f | f != TOTAL && f != DialogField(partner) ensures Same(HashOf(before, user), HashOf(after, user), f) {
      assert Same(HashOf(before, user), HashOf(between, user), f);
      assert Same(HashOf(between, user), HashOf(after, user), f);
    }
    forall key | key != Key(user) ensures Same(before, after, key) {
      assert Same(before, between, key) && Same(between, after, key);
    }
  }

  /** No entry of the reply is without a message, and these are the messages. */
  ghost predicate IsFound(messages: seq<D.Message>, reply: seq<Option<D.Message>>) {
    |messages| == |reply| && forall n :: 0 <= n < |reply| ==> reply[n] == Some(messages[n])
  }

  /** Request `r` has seen its reset call end as it did, and has then listed the dialog if it does. */
  ghost predicate Opened(s: State, r: nat, outcome: ResetOutcome, lists: bool) {
    && r < |s.requests|
    && (s.requests[r].call.Replied? <==> outcome.ResetReplied?) && !s.requests[r].call.Pending?
    && (s.requests[r].reset.Some? <==> !outcome.ErrorWithoutReset?)
    && (s.requests[r].listing.Some? <==> lists)
    && (lists ==> (s.requests[r].listing.value.afterReset <==> !outcome.ErrorWithoutReset?))
  }

  ghost predicate InQueue(entries: seq<Entry>, i: nat, event: Event) {
    && i < |entries| && entries[i].status.Queued?
    && event == Event(entries[i].sent.msg.from, entries[i].sent.msg.to)
  }

  /** `queued` names the entries whose events are in the queue. */
  ghost predicate Waiting(entries: seq<Entry>, queue: seq<Event>, queued: seq<nat>) {
    && |queued| == |queue|
    && (forall n :: 0 <= n < |queue| ==> InQueue(entries, queued[n], queue[n]))
    && (forall m, n :: 0 <= m < n < |queue| ==> queued[m] != queued[n])
  }

  /** The event at the head is acknowledged, or stays where it is. */
  lemma HeadSettled(before: seq<Entry>, after: seq<Entry>, queue: seq<Event>, queued: seq<nat>, acked: bool)
    requires Waiting(before, queue, queued) && queue != []
    requires |after| == |before|
    requires forall j :: 0 <= j < |after| && j != queued[0] ==> after[j] == before[j]
    requires after[queued[0]] == before[queued[0]].(status := if acked then Acked else Queued)
    ensures if acked then Waiting(after, queue[1..], queued[1..]) else Waiting(after, queue, queued)
  {
  }

  ghost predicate NoneMissing(store: D.Store, user: string, partner: string) {
    forall n :: 0 <= n < |D.List(store, user, partner)| ==> D.List(store, user, partner)[n].Some?
  }

  /** In a reachable state no counter is negative. */
  lemma CountersSane(steps: seq<Step>, user: string)
    requires Run(INIT, steps).Some?
    ensures NonNegative(HashOf(Run(INIT, steps).value.redis, user))
  {
    CountersNonNegative(Run(INIT, steps).value, user);
  }

  /** In a reachable state every listed id has its record. */
  lemma NoRecordMissing(steps: seq<Step>, user: string, partner: string)
    requires Run(INIT, steps).Some?
    ensures NoneMissing(Run(INIT, steps).value.dialogs, user, partner)
  {
    LoggedRun(steps);
    D.ListIsKeyLog(Log(Run(INIT, steps).value.entries), user, partner);
  }

  lemma {:induction false} LoggedRun(steps: seq<Step>)
    requires Run(INIT, steps).Some?
    ensures Logged(Run(INIT, steps).value)
  {
    if steps != [] {
      var before := steps[..|steps| - 1];
      LoggedRun(before);
      LoggedStep(Run(INIT, before).value, steps[|steps| - 1]);
    }
  }
}
