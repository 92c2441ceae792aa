/** Every message is counted: at least once always, exactly once when nothing fails. */
module SagaDelivery {
  import opened Wrappers
  import opened Sums
  import opened CounterFunctions
  import opened UnreadSaga
  import opened SagaDrift
  import D = DialogStore

  predicate FromTo(e: Entry, to: string, from: string) { e.sent.msg.to == to && e.sent.msg.from == from }

  datatype Stage =
    | Any
    | Published
    | Unacked
    | Acknowledged
    | Done       // its second increment is made
    | Underway   // stored, and still on the way to its second increment
    | Lost       // stored, and never to be published

  predicate At(status: Status, stage: Stage) {
    match stage
    case Any => true
    case Published => !status.Stored? && !status.Unpublished?
    case Unacked => status.Queued? || status.Delivered? || status.Halfway? || status.Counted?
    case Acknowledged => status.Acked?
    case Done => status.Counted? || status.Acked?
    case Underway => status.Stored? || status.Queued? || status.Delivered? || status.Halfway?
    case Lost => status.Unpublished?
  }

  /** Messages from `from` to `to` at a stage. */
  ghost function Messages(s: State, to: string, from: string, stage: Stage): int {
    SeqSum(s.entries, EntryWeight(to, from, stage))
  }

  function EntryWeight(to: string, from: string, stage: Stage): Entry -> int {
    (e: Entry) => Bit(FromTo(e, to, from) && At(e.status, stage))
  }

  /** The field holds the uncleared second increments; resets return the cleared ones. */
  ghost predicate Balanced(s: State, to: string, from: string) {
    && Field(s, to, from) == UnreadCount(s, to, from) >= 0
    && Field(s, to, from) + Returned(s, to, from) == Applied(s, to, from)
  }

  ghost predicate AllBalanced(s: State) {
    Linked(s) && Timely(s) && forall to, from :: Balanced(s, to, from)
  }

  lemma BalancedFirst(s: State, i: nat, to: string, from: string)
    requires AllBalanced(s) && Has(s, i)
    ensures Balanced(FirstIncrement(s, i), to, from)
  {
    FirstAppliesNothing(s, i, to, from);
    assert Balanced(s, to, from);
    assert Key(to) == Key(s.entries[i].sent.msg.to) ==> to == s.entries[i].sent.msg.to;
  }

  lemma FirstAppliesNothing(s: State, i: nat, to: string, from: string)
    requires Has(s, i)
    ensures UnreadCount(FirstIncrement(s, i), to, from) == UnreadCount(s, to, from)
    ensures Applied(FirstIncrement(s, i), to, from) == Applied(s, to, from)
  {
    var m := s.entries[i].sent.msg;
    var e := Execution(i, m.to, m.from, Epoch(s, m.to), None, None);
    SeqSumAppend(s.executions, e, UnreadWeight(to, from));
    SeqSumAppend(s.executions, e, AppliedWeight(to, from));
  }

  lemma SecondApplies(s: State, x: nat, to: string, from: string)
    requires Linked(s) && Timely(s) && x < |s.executions| && s.executions[x].secondEpoch.None?
    ensures var t, gain := SecondIncrement(s, x), Bit(FromTo(s.entries[s.executions[x].event], to, from));
      && UnreadCount(t, to, from) == UnreadCount(s, to, from) + gain
      && Applied(t, to, from) == Applied(s, to, from) + gain
  {
    var e := s.executions[x].(secondEpoch := Some(Epoch(s, s.executions[x].to)));
    SeqSumUpdate(s.executions, x, e, UnreadWeight(to, from));
    SeqSumUpdate(s.executions, x, e, AppliedWeight(to, from));
  }

  lemma BalancedSecond(s: State, x: nat, to: string, from: string)
    requires AllBalanced(s) && x < |s.executions| && s.executions[x].secondEpoch.None?
    ensures Balanced(SecondIncrement(s, x), to, from)
  {
    var e := s.executions[x];
    SecondApplies(s, x, to, from);
    assert Balanced(s, to, from);
    assert Key(to) == Key(e.to) ==> to == e.to;
    assert DialogField(from) == DialogField(e.from) ==> from == e.from;
  }

  /** Balance is about what is in Redis and what was executed, not about where events are. */
  lemma BalancedKept(s: State, t: State, to: string, from: string)
    requires Balanced(s, to, from)
    requires t.redis == s.redis && t.executions == s.executions && t.requests == s.requests
    ensures Balanced(t, to, from)
  {
  }

  lemma BalancedIncrement(s: State, step: Step, to: string, from: string)
    requires AllBalanced(s) && Enabled(s, step) && (step.IncrTotal? || step.IncrDialog? || step.RunStray?)
    ensures Balanced(Next(s, step), to, from)
  {
    match step
    case IncrTotal(i) =>
      BalancedFirst(s, i, to, from);
      BalancedKept(FirstIncrement(s, i), Next(s, step), to, from);
    case RunStray(First(i)) =>
      BalancedFirst(s, i, to, from);
      BalancedKept(FirstIncrement(s, i), Next(s, step), to, from);
    case IncrDialog(i) =>
      BalancedSecond(s, s.entries[i].status.x, to, from);
      BalancedKept(SecondIncrement(s, s.entries[i].status.x), Next(s, step), to, from);
    case RunStray(Second(x)) =>
      BalancedSecond(s, x, to, from);
      BalancedKept(SecondIncrement(s, x), Next(s, step), to, from);
  }

  lemma ClearMovesUnread(s: State, r: nat, to: string, from: string)
    requires Enabled(s, RunReset(r))
    ensures var t, mine := NextRunReset(s, r), s.requests[r].user == to && s.requests[r].partner == from;
      && UnreadCount(t, to, from) == (if mine then 0 else UnreadCount(s, to, from))
      && Applied(t, to, from) == Applied(s, to, from)
      && Returned(t, to, from) == Returned(s, to, from) + if mine then Field(s, to, from) else 0
  {
    var t := NextRunReset(s, r);
    SeqSumAgree(t.executions, s.executions, AppliedWeight(to, from), AppliedWeight(to, from));
    SeqSumUpdate(s.requests, r, t.requests[r], ReturnWeight(to, from));
    if s.requests[r].user == to && s.requests[r].partner == from {
      SeqSumZero(t.executions, UnreadWeight(to, from));
    } else {
      SeqSumAgree(t.executions, s.executions, UnreadWeight(to, from), UnreadWeight(to, from));
    }
  }

  lemma BalancedRunReset(s: State, r: nat, to: string, from: string)
    requires AllBalanced(s) && Enabled(s, RunReset(r))
    ensures Balanced(NextRunReset(s, r), to, from)
  {
    var q := s.requests[r];
    ClearMovesUnread(s, r, to, from);
    assert Balanced(s, to, from) && Balanced(s, q.user, q.partner);
    assert Key(to) == Key(q.user) ==> to == q.user;
    assert DialogField(from) == DialogField(q.partner) ==> from == q.partner;
  }

  lemma BalancedReconcile(s: State, user: string, to: string, from: string)
    requires AllBalanced(s)
    ensures Balanced(Next(s, Reconcile(user)), to, from)
  {
    assert Balanced(s, to, from);
    assert Key(to) == Key(user) ==> to == user;
  }

  lemma BalancedOther(s: State, step: Step, to: string, from: string)
    requires AllBalanced(s) && Enabled(s, step)
    requires !step.IncrTotal? && !step.IncrDialog? && !step.RunStray? && !step.RunReset? && !step.Reconcile?
    ensures Balanced(Next(s, step), to, from)
  {
    var t := Next(s, step);
    var w := ReturnWeight(to, from);
    assert Balanced(s, to, from);
    match step
    case Open(user, partner) => SeqSumAppend(s.requests, Request(user, partner, None, Pending, None), w);
    case ReplyReset(r) => SeqSumUpdate(s.requests, r, t.requests[r], w);
    case FailReset(r) => SeqSumUpdate(s.requests, r, t.requests[r], w);
    case ListDialog(r) => SeqSumUpdate(s.requests, r, t.requests[r], w);
    case _ =>
  }

  lemma BalancedStep(s: State, step: Step)
    requires AllBalanced(s) && Enabled(s, step)
    ensures AllBalanced(Next(s, step))
  {
    LinkedStep(s, step);
    TimelyStep(s, step);
    forall to, from ensures Balanced(Next(s, step), to, from) {
      match step
      case RunReset(r) => BalancedRunReset(s, r, to, from);
      case Reconcile(user) => BalancedReconcile(s, user, to, from);
      case _ =>
        if step.IncrTotal? || step.IncrDialog? || step.RunStray? {
          BalancedIncrement(s, step, to, from);
        } else {
          BalancedOther(s, step, to, from);
        }
    }
  }

  /** What a step counts beyond one increment for each message that becomes done. */
  function Extra(s: State, step: Step, to: string, from: string): nat
    requires Enabled(s, step)
  {
    match step
    case Requeue(i) => if FromTo(s.entries[i], to, from) && s.entries[i].status.Counted? then 1 else 0
    case RunStray(Second(x)) => if s.executions[x].to == to && s.executions[x].from == from then 1 else 0
    case _ => 0
  }

  /** What one step does to the second increments made and to the messages that are done. */
  lemma CountedStep(s: State, step: Step, to: string, from: string)
    requires Linked(s) && Timely(s) && Enabled(s, step)
    ensures Applied(Next(s, step), to, from) - Applied(s, to, from) ==
      Messages(Next(s, step), to, from, Done) - Messages(s, to, from, Done) + Extra(s, step, to, from)
  {
    DoneStep(s, step, to, from);
    match step
    case IncrTotal(i) => FirstAppliesNothing(s, i, to, from);
    case RunStray(First(i)) => FirstAppliesNothing(s, i, to, from);
    case IncrDialog(i) => SecondApplies(s, s.entries[i].status.x, to, from);
    case RunStray(Second(x)) => SecondApplies(s, x, to, from);
    case RunReset(r) => ClearMovesUnread(s, r, to, from);
    case _ =>
  }

  /** The entry a step moves on, with the status it moves to. */
  function Moved(s: State, step: Step): Option<(nat, Status)>
    requires Enabled(s, step)
  {
    match step
    case Publish(i) => Some((i, Queued))
    case LosePublish(i) => Some((i, Unpublished))
    case Deliver(i) => Some((i, Delivered))
    case IncrTotal(i) => Some((i, Halfway(|s.executions|)))
    case IncrDialog(i) => Some((i, Counted(s.entries[i].status.x)))
    case Ack(i) => Some((i, Acked))
    case Requeue(i) => Some((i, Queued))
    case _ => None
  }

  lemma EntriesAfter(s: State, step: Step)
    requires Enabled(s, step) && !step.Store?
    ensures match Moved(s, step)
      case None => Next(s, step).entries == s.entries
      case Some((i, status)) =>
        i < |s.entries| && Next(s, step).entries == s.entries[i := s.entries[i].(status := status)]
  {
  }

  /** The moves that make a message done, and the one that undoes it. */
  lemma MovedToDone(s: State, step: Step)
    requires Enabled(s, step) && Moved(s, step).Some?
    ensures var (i, status) := Moved(s, step).value;
      && Has(s, i)
      && At(status, Done) == (step.IncrDialog? || step.Ack?)
      && (At(s.entries[i].status, Done) ==> step.Ack? || (step.Requeue? && s.entries[i].status.Counted?))
      && (step.Ack? ==> At(s.entries[i].status, Done))
      && (step.IncrDialog? || step.Requeue? ==> i == step.i)
  {
  }

  lemma DoneStep(s: State, step: Step, to: string, from: string)
    requires Enabled(s, step)
    ensures var done := Messages(Next(s, step), to, from, Done) - Messages(s, to, from, Done);
      if step.IncrDialog? then done == Bit(FromTo(s.entries[step.i], to, from))
      else if step.Requeue? then done + Extra(s, step, to, from) == 0
      else done == 0
  {
    var w := EntryWeight(to, from, Done);
    if step.Store? {
      SeqSumAppend(s.entries, Entry(step.sent, Stored), w);
    } else {
      EntriesAfter(s, step);
      if Moved(s, step).Some? {
        MovedToDone(s, step);
        DoneMoved(s, Moved(s, step).value.0, Moved(s, step).value.1, to, from);
      }
    }
  }

  lemma DoneMoved(s: State, i: nat, status: Status, to: string, from: string)
    requires Has(s, i)
    ensures SeqSum(s.entries[i := s.entries[i].(status := status)], EntryWeight(to, from, Done)) ==
      Messages(s, to, from, Done)
      + Bit(FromTo(s.entries[i], to, from) && At(status, Done))
      - Bit(FromTo(s.entries[i], to, from) && At(s.entries[i].status, Done))
  {
    SeqSumUpdate(s.entries, i, s.entries[i].(status := status), EntryWeight(to, from, Done));
  }

  predicate FaultFree(steps: seq<Step>) {
    forall n :: 0 <= n < |steps| ==> !steps[n].Requeue? && !steps[n].RunStray? && !steps[n].LosePublish?
  }

  lemma InitBalanced()
    ensures AllBalanced(INIT)
  {
  }

  /** What a run has counted more than once, because an event was requeued or an increment ran late. */
  ghost function OverCount(steps: seq<Step>, to: string, from: string): nat
    requires Run(INIT, steps).Some?
  {
    if steps == [] then 0
    else
      var before := steps[..|steps| - 1];
      OverCount(before, to, from) + Extra(Run(INIT, before).value, steps[|steps| - 1], to, from)
  }

  lemma {:induction false} CountedRun(steps: seq<Step>, to: string, from: string)
    requires Run(INIT, steps).Some?
    ensures AllBalanced(Run(INIT, steps).value)
    ensures Applied(Run(INIT, steps).value, to, from) ==
      Messages(Run(INIT, steps).value, to, from, Done) + OverCount(steps, to, from)
  {
    InitBalanced();
    if steps != [] {
      var before := steps[..|steps| - 1];
      CountedRun(before, to, from);
      BalancedStep(Run(INIT, before).value, steps[|steps| - 1]);
      CountedStep(Run(INIT, before).value, steps[|steps| - 1], to, from);
    }
  }

  /**
   Conservation, in every run. The dialog field and everything the resets of the dialog returned add up to
   the second increments ever made. Every stored message is counted once, or is underway, or was never
   published, except for what the run counted more than once. And every published event is still
   unacknowledged or has been counted.
   */
  lemma {:induction false} Conservation(steps: seq<Step>, to: string, from: string)
    requires Run(INIT, steps).Some?
    ensures var s := Run(INIT, steps).value;
      && Field(s, to, from) + Returned(s, to, from) == Applied(s, to, from)
      && Field(s, to, from) + Returned(s, to, from) + Messages(s, to, from, Underway) + Messages(s, to, from, Lost)
         == Messages(s, to, from, Any) + OverCount(steps, to, from)
      && Applied(s, to, from) + Messages(s, to, from, Unacked) >= Messages(s, to, from, Published)
  {
    var s := Run(INIT, steps).value;
    CountedRun(steps, to, from);
    assert Balanced(s, to, from);
    PublishedSplit(s.entries, to, from);
    AllSplit(s.entries, to, from);
  }

  lemma {:induction false} NoFaults(steps: seq<Step>, to: string, from: string)
    requires Run(INIT, steps).Some? && FaultFree(steps)
    ensures OverCount(steps, to, from) == 0
    ensures forall i :: 0 <= i < |Run(INIT, steps).value.entries| ==> !Run(INIT, steps).value.entries[i].status.Unpublished?
  {
    if steps != [] {
      var before, step := steps[..|steps| - 1], steps[|steps| - 1];
      assert FaultFree(before) && !step.Requeue? && !step.RunStray? && !step.LosePublish?;
      NoFaults(before, to, from);
      NothingUnpublished(Run(INIT, before).value, step);
    }
  }

  /** Without faults each stored message is counted exactly once or is still underway. */
  lemma {:induction false} FaultFreeConservation(steps: seq<Step>, to: string, from: string)
    requires Run(INIT, steps).Some? && FaultFree(steps)
    ensures var s := Run(INIT, steps).value;
      Field(s, to, from) + Returned(s, to, from) + Messages(s, to, from, Underway) == Messages(s, to, from, Any)
  {
    Conservation(steps, to, from);
    NoFaults(steps, to, from);
    SeqSumZero(Run(INIT, steps).value.entries, EntryWeight(to, from, Lost));
  }

  lemma NothingUnpublished(s: State, step: Step)
    requires Enabled(s, step) && !step.LosePublish?
    requires forall i :: 0 <= i < |s.entries| ==> !s.entries[i].status.Unpublished?
    ensures forall i :: 0 <= i < |Next(s, step).entries| ==> !Next(s, step).entries[i].status.Unpublished?
  {
  }

  lemma {:induction false} PublishedSplit(entries: seq<Entry>, to: string, from: string)
    ensures SeqSum(entries, EntryWeight(to, from, Published)) ==
      SeqSum(entries, EntryWeight(to, from, Unacked)) + SeqSum(entries, EntryWeight(to, from, Acknowledged))
    ensures SeqSum(entries, EntryWeight(to, from, Acknowledged)) <= SeqSum(entries, EntryWeight(to, from, Done))
  {
    if entries != [] {
      PublishedSplit(entries[..|entries| - 1], to, from);
    }
  }

  lemma {:induction false} AllSplit(entries: seq<Entry>, to: string, from: string)
    ensures SeqSum(entries, EntryWeight(to, from, Any)) ==
      SeqSum(entries, EntryWeight(to, from, Underway)) + SeqSum(entries, EntryWeight(to, from, Done))
      + SeqSum(entries, EntryWeight(to, from, Lost))
  {
    if entries != [] {
      AllSplit(entries[..|entries| - 1], to, from);
    }
  }

  /* ---- What reconciliation cannot repair ---- */

  predicate Resets(s: State, step: Step, user: string, partner: string)
    requires Enabled(s, step)
  {
    step.RunReset? && s.requests[step.r].user == user && s.requests[step.r].partner == partner
  }

  lemma FieldAfterFirst(s: State, i: nat, user: string, partner: string)
    requires Has(s, i)
    ensures Field(FirstIncrement(s, i), user, partner) == Field(s, user, partner)
  {
    assert Key(user) == Key(s.entries[i].sent.msg.to) ==> user == s.entries[i].sent.msg.to;
  }

  lemma FieldAfterSecond(s: State, x: nat, user: string, partner: string)
    requires x < |s.executions|
    ensures Field(SecondIncrement(s, x), user, partner) ==
      Field(s, user, partner) + Bit(s.executions[x].to == user && s.executions[x].from == partner)
  {
    var e := s.executions[x];
    assert Key(user) == Key(e.to) ==> user == e.to;
    assert DialogField(partner) == DialogField(e.from) ==> partner == e.from;
  }

  lemma FieldAfterReset(s: State, r: nat, user: string, partner: string)
    requires Enabled(s, RunReset(r))
    ensures Field(NextRunReset(s, r), user, partner) ==
      if Resets(s, RunReset(r), user, partner) && Field(s, user, partner) > 0 then 0 else Field(s, user, partner)
  {
    var q := s.requests[r];
    assert Key(user) == Key(q.user) ==> user == q.user;
    assert DialogField(partner) == DialogField(q.partner) ==> partner == q.partner;
  }

  lemma FieldAfterReconcile(s: State, u: string, user: string, partner: string)
    ensures Field(Next(s, Reconcile(u)), user, partner) == Field(s, user, partner)
  {
    assert Key(user) == Key(u) ==> user == u;
  }

  /**
   A step lowers the unread count of a dialog if and only if it is a reset of that very dialog while the
   count is positive; the count is zero then.
   */
  lemma FallsExactly(s: State, step: Step, user: string, partner: string)
    requires Enabled(s, step)
    ensures Field(Next(s, step), user, partner) < Field(s, user, partner) <==>
      Resets(s, step, user, partner) && Field(s, user, partner) > 0
    ensures Field(Next(s, step), user, partner) < Field(s, user, partner) ==>
      Field(Next(s, step), user, partner) == 0
  {
    match step
    case IncrTotal(i) => FieldAfterFirst(s, i, user, partner);
    case RunStray(First(i)) => FieldAfterFirst(s, i, user, partner);
    case IncrDialog(i) => FieldAfterSecond(s, s.entries[i].status.x, user, partner);
    case RunStray(Second(x)) => FieldAfterSecond(s, x, user, partner);
    case RunReset(r) => FieldAfterReset(s, r, user, partner);
    case Reconcile(u) => FieldAfterReconcile(s, u, user, partner);
    case _ =>
  }

  /** No step of the run resets the dialog of `user` with `partner` while it has unread messages. */
  ghost predicate NeverClears(s: State, steps: seq<Step>, user: string, partner: string)
    requires Run(s, steps).Some?
  {
    steps == [] ||
    (var before, step := steps[..|steps| - 1], steps[|steps| - 1];
     && NeverClears(s, before, user, partner)
     && !(Resets(Run(s, before).value, step, user, partner) && Field(Run(s, before).value, user, partner) > 0))
  }

  /** The unread count does not fall anywhere in the run. */
  ghost predicate NeverFalls(s: State, steps: seq<Step>, user: string, partner: string)
    requires Run(s, steps).Some?
  {
    steps == [] ||
    (var before := steps[..|steps| - 1];
     && NeverFalls(s, before, user, partner)
     && Field(Run(s, before).value, user, partner) <= Field(Run(s, steps).value, user, partner))
  }

  /**
   When the reset of an opened dialog fails, only another reset can bring the unread count of that dialog
   down again: however often the reconciler runs, the count falls somewhere in a run if and only if the
   dialog is reset there while it has unread messages.
   */
  lemma {:induction false} StaleUntilReset(s: State, steps: seq<Step>, user: string, partner: string)
    requires Run(s, steps).Some?
    ensures NeverFalls(s, steps, user, partner) <==> NeverClears(s, steps, user, partner)
    ensures NeverClears(s, steps, user, partner) ==>
      Field(Run(s, steps).value, user, partner) >= Field(s, user, partner)
  {
    if steps != [] {
      var before := steps[..|steps| - 1];
      StaleUntilReset(s, before, user, partner);
      FallsExactly(Run(s, before).value, steps[|steps| - 1], user, partner);
    }
  }

  /** A message is counted, and the recipient opens the dialog; the call of the reset fails. */
  lemma {:induction false} FailedOpen(sent: D.Sent) returns (steps: seq<Step>, s: State)
    ensures Run(INIT, steps) == Some(s)
    ensures s.entries == [Entry(sent, Acked)] && s.dialogs == D.Send(D.EMPTY, sent.msg.from, sent.msg.to, sent.msg.text, sent.id)
    ensures s.requests == [Request(sent.msg.to, sent.msg.from, None, Errored, None)] && s.epochs == map[]
    ensures HashOf(s.redis, sent.msg.to) == map[TOTAL := 1, DialogField(sent.msg.from) := 1]
  {
    var before, counted := CountedOnce(sent);
    RunMore(INIT, before, Open(sent.msg.to, sent.msg.from));
    RunMore(INIT, before + [Open(sent.msg.to, sent.msg.from)], FailReset(0));
    steps := before + [Open(sent.msg.to, sent.msg.from)] + [FailReset(0)];
    s := Run(INIT, steps).value;
  }

  lemma {:induction false} CountedOnce(sent: D.Sent) returns (steps: seq<Step>, s: State)
    ensures Run(INIT, steps) == Some(s)
    ensures s.entries == [Entry(sent, Acked)] && s.dialogs == D.Send(D.EMPTY, sent.msg.from, sent.msg.to, sent.msg.text, sent.id)
    ensures s.requests == [] && s.epochs == map[]
    ensures HashOf(s.redis, sent.msg.to) == map[TOTAL := 1, DialogField(sent.msg.from) := 1]
  {
    var before, half := HalfCounted(sent);
    RunMore(INIT, before, IncrDialog(0));
    RunMore(INIT, before + [IncrDialog(0)], Ack(0));
    steps, s := before + [IncrDialog(0)] + [Ack(0)], Next(NextIncrDialog(half, 0), Ack(0));
  }

  /** The request then shows the message. */
  lemma ShownUnreset(sent: D.Sent) returns (steps: seq<Step>, s: State)
    ensures Run(INIT, steps) == Some(s)
    ensures s.requests == [Request(sent.msg.to, sent.msg.from, None, Errored, Some(Listing([Some(sent.msg)], 1, false)))]
    ensures s.epochs == map[]
    ensures HashOf(s.redis, sent.msg.to) == map[TOTAL := 1, DialogField(sent.msg.from) := 1]
  {
    var before, failed := FailedOpen(sent);
    D.IdxKeySymmetric(sent.msg.from, sent.msg.to);
    assert D.List(failed.dialogs, sent.msg.to, sent.msg.from) == [Some(sent.msg)];
    RunMore(INIT, before, ListDialog(0));
    steps, s := before + [ListDialog(0)], Next(failed, ListDialog(0));
  }

  /**
   Stale counts do occur: the reset of an opened dialog fails, the request shows the message, a reconcile
   follows, and the message still counts as unread, in the dialog and in `total`.
   */
  lemma StaleHappens(sent: D.Sent) returns (s: State)
    ensures Reachable(s) && |s.requests| == 1 && s.requests[0].call.Errored?
    ensures s.requests[0].user == sent.msg.to && s.requests[0].partner == sent.msg.from
    ensures s.requests[0].listing.Some? && s.requests[0].listing.value.reply == [Some(sent.msg)]
    ensures Epoch(s, sent.msg.to) == 1
    ensures Field(s, sent.msg.to, sent.msg.from) == 1 == Get(HashOf(s.redis, sent.msg.to), TOTAL)
  {
    var steps, shown := ShownUnreset(sent);
    RunMore(INIT, steps, Reconcile(sent.msg.to));
    s := Next(shown, Reconcile(sent.msg.to));
    CountsOne(sent.msg.from);
  }

  lemma CountsOne(from: string)
    ensures MapSum(CountedFields(map[TOTAL := 1, DialogField(from) := 1])) == 1
  {
    assert CountedFields(map[TOTAL := 1, DialogField(from) := 1]) == map[][DialogField(from) := 1];
    MapSumPut(map[], DialogField(from), 1);
  }
}
