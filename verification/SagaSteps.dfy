/** What each step of the saga does to the counters, the dialogs and the message it is about. */
module SagaSteps {
  import opened Wrappers
  import opened CounterFunctions
  import opened UnreadSaga
  import opened SagaDrift
  import D = DialogStore

  /** Storing a message writes its record and appends it to its dialog; it waits to be published. */
  lemma StoreWrites(s: State, sent: D.Sent)
    requires Enabled(s, Store(sent))
    ensures var t := Next(s, Store(sent));
      && D.Holds(s.dialogs, t.dialogs, sent.msg.from, sent.msg.to, sent.msg.text, sent.id)
      && t.redis == s.redis && t.entries == s.entries + [Entry(sent, Stored)]
  {
  }

  /** The first increment adds one to the recipient's total, and to nothing else. */
  lemma FirstAdds(s: State, i: nat)
    requires Has(s, i)
    ensures var m, t := s.entries[i].sent.msg, FirstIncrement(s, i);
      && OnlySets(s.redis, t.redis, m.to, m.from, Total(s.redis, m.to) + 1, CountOf(s.redis, m.to, m.from))
      && t.dialogs == s.dialogs
  {
  }

  /** The second one adds one to the count of the sender's dialog, and to nothing else. */
  lemma SecondAdds(s: State, x: nat)
    requires Linked(s) && x < |s.executions|
    ensures var m, t := s.entries[s.executions[x].event].sent.msg, SecondIncrement(s, x);
      && OnlySets(s.redis, t.redis, m.to, m.from, Total(s.redis, m.to), CountOf(s.redis, m.to, m.from) + 1)
      && t.dialogs == s.dialogs
  {
  }

  /** A delivered event makes the first, and an event half way the second. */
  lemma EventIncrements(s: State, i: nat)
    ensures Enabled(s, IncrTotal(i)) ==>
      var t := Next(s, IncrTotal(i));
      t.redis == FirstIncrement(s, i).redis && t.entries[i].status == Halfway(|s.executions|)
    ensures Enabled(s, IncrDialog(i)) ==>
      var x, t := s.entries[i].status.x, Next(s, IncrDialog(i));
      t.redis == SecondIncrement(s, x).redis && t.entries[i].status == Counted(x)
  {
  }

  /** A call left behind is made late, once, and moves no event. */
  lemma StrayIncrements(s: State, call: Stray)
    requires Enabled(s, RunStray(call))
    ensures var t := Next(s, RunStray(call));
      && t.redis == (if call.First? then FirstIncrement(s, call.i) else SecondIncrement(s, call.x)).redis
      && t.entries == s.entries && t.strays == s.strays - multiset{call}
  {
  }

  /** A reset clears the dialog's count, takes it from the total and returns it. */
  lemma ResetClears(s: State, r: nat)
    requires Reachable(s) && Enabled(s, RunReset(r))
    ensures var q, t := s.requests[r], Next(s, RunReset(r));
      && OnlySets(s.redis, t.redis, q.user, q.partner,
                  Max0(Total(s.redis, q.user) - CountOf(s.redis, q.user, q.partner)), 0)
      && t.requests[r].reset.Some? && t.requests[r].reset.value.count == CountOf(s.redis, q.user, q.partner)
      && t.dialogs == s.dialogs && t.entries == s.entries
  {
    CountersNonNegative(s, s.requests[r].user);
  }

  /** A reconcile makes the total the sum of the user's dialogs, and changes nothing else. */
  lemma ReconcileSums(s: State, user: string, partner: string)
    requires Reachable(s)
    ensures var t := Next(s, Reconcile(user));
      && OnlySets(s.redis, t.redis, user, partner, DialogSum(HashOf(s.redis, user)), CountOf(s.redis, user, partner))
      && t.dialogs == s.dialogs && t.entries == s.entries
  {
    CountersNonNegative(s, user);
    ReconcileEndsDrift(HashOf(s.redis, user));
    assert CountedFields(HashOf(s.redis, user)) == Dialogs(HashOf(s.redis, user));
  }

  /** A listing is what the store holds at that moment. */
  lemma ListShows(s: State, r: nat)
    requires Enabled(s, ListDialog(r))
    ensures var q, t := s.requests[r], Next(s, ListDialog(r));
      && t.requests[r].listing.Some?
      && t.requests[r].listing.value.reply == D.List(s.dialogs, q.user, q.partner)
      && (t.requests[r].listing.value.afterReset <==> q.reset.Some?)
      && t.redis == s.redis && t.dialogs == s.dialogs
  {
  }

  /** Moving an event, or hearing of a call, changes neither counters nor dialogs. */
  lemma EventMoves(s: State, step: Step)
    requires Enabled(s, step)
    requires step.Publish? || step.LosePublish? || step.Deliver? || step.Ack? || step.Requeue?
    ensures var t := Next(s, step);
      && t.redis == s.redis && t.dialogs == s.dialogs && |t.entries| == |s.entries|
      && (forall j :: 0 <= j < |s.entries| && j != step.i ==> t.entries[j] == s.entries[j])
      && t.entries[step.i].sent == s.entries[step.i].sent
      && match step
         case Publish(i) => t.entries[i].status.Queued?
         case LosePublish(i) => t.entries[i].status.Unpublished?
         case Deliver(i) => t.entries[i].status.Delivered?
         case Ack(i) => t.entries[i].status.Acked?
         case Requeue(i) => t.entries[i].status.Queued?
  {
  }

  /** An event put back during an increment leaves that call behind, to be made late or never. */
  lemma RequeueLeaves(s: State, i: nat)
    requires Enabled(s, Requeue(i))
    ensures var t := Next(s, Requeue(i));
      && (s.entries[i].status.Delivered? ==> First(i) in t.strays)
      && (s.entries[i].status.Halfway? ==> Second(s.entries[i].status.x) in t.strays)
  {
  }
}
