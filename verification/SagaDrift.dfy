/** How far `total` can be from the sum of the dialog fields, in every run. */
module SagaDrift {
  import opened Wrappers
  import opened Sums
  import opened CounterFunctions
  import opened UnreadSaga
  import D = DialogStore

  /** The exact account of a user's drift, and the bound on what clamps have repaired. */
  ghost predicate Accounted(s: State, user: string) {
    && NonNegative(HashOf(s.redis, user))
    && Drift(HashOf(s.redis, user)) == New(s, user) - Late(s, user) + RepairedSum(s, user)
    && Drift(HashOf(s.redis, user)) <= New(s, user)
  }

  ghost predicate Sane(s: State) {
    Linked(s) && Timely(s) && forall u :: Accounted(s, u)
  }

  lemma InitSane()
    ensures Sane(INIT)
  {
    forall u ensures Accounted(INIT, u) {
      assert Dialogs(map[]) == map[];
    }
  }

  /** Two states that agree on what a user's account is made of. */
  lemma AccountKept(s: State, t: State, user: string)
    requires Accounted(s, user)
    requires HashOf(t.redis, user) == HashOf(s.redis, user)
    requires New(t, user) == New(s, user) && Late(t, user) == Late(s, user)
    requires RepairedSum(t, user) == RepairedSum(s, user)
    ensures Accounted(t, user)
  {
  }

  /** A first increment starts a new execution. */
  lemma CountsFirst(s: State, i: nat, u: string)
    requires Has(s, i)
    ensures New(FirstIncrement(s, i), u) == New(s, u) + Bit(u == s.entries[i].sent.msg.to)
    ensures Late(FirstIncrement(s, i), u) == Late(s, u)
  {
    var m := s.entries[i].sent.msg;
    var e := Execution(i, m.to, m.from, Epoch(s, m.to), None, None);
    SeqSumAppend(s.executions, e, NewWeight(u, Epoch(s, u)));
    SeqSumAppend(s.executions, e, LateWeight(u, Epoch(s, u)));
  }

  lemma AccountFirst(s: State, i: nat, u: string)
    requires Sane(s) && Has(s, i)
    ensures Accounted(FirstIncrement(s, i), u)
  {
    var to := s.entries[i].sent.msg.to;
    var h := HashOf(s.redis, to);
    CountsFirst(s, i, u);
    assert Accounted(s, u);
    if u == to {
      DialogSumPut(h, TOTAL, Get(h, TOTAL) + 1);
      assert HashOf(FirstIncrement(s, i).redis, u) == Incr(h, TOTAL, 1);
    } else {
      assert Key(u) != Key(to);
    }
  }

  /** A second increment ends a new execution, or else it counts as late. */
  lemma CountsSecond(s: State, x: nat, u: string)
    requires Sane(s) && x < |s.executions| && s.executions[x].secondEpoch.None?
    ensures var t := SecondIncrement(s, x);
      && New(t, u) - Late(t, u) == New(s, u) - Late(s, u) - Bit(u == s.executions[x].to)
      && New(t, u) >= New(s, u) - Bit(u == s.executions[x].to)
  {
    var e := s.executions[x].(secondEpoch := Some(Epoch(s, s.executions[x].to)));
    SeqSumUpdate(s.executions, x, e, NewWeight(u, Epoch(s, u)));
    SeqSumUpdate(s.executions, x, e, LateWeight(u, Epoch(s, u)));
  }

  lemma AccountSecond(s: State, x: nat, u: string)
    requires Sane(s) && x < |s.executions| && s.executions[x].secondEpoch.None?
    ensures Accounted(SecondIncrement(s, x), u)
  {
    var e := s.executions[x];
    var h := HashOf(s.redis, e.to);
    assert Accounted(s, u);
    CountsSecond(s, x, u);
    if u == e.to {
      DialogSumPut(h, DialogField(e.from), Get(h, DialogField(e.from)) + 1);
      assert HashOf(SecondIncrement(s, x).redis, u) == Incr(h, DialogField(e.from), 1);
    } else {
      assert Key(u) != Key(e.to);
    }
  }

  lemma AccountIncrTotal(s: State, i: nat, u: string)
    requires Sane(s) && Enabled(s, IncrTotal(i))
    ensures Accounted(NextIncrTotal(s, i), u)
  {
    AccountFirst(s, i, u);
    AccountKept(FirstIncrement(s, i), NextIncrTotal(s, i), u);
  }

  lemma AccountIncrDialog(s: State, i: nat, u: string)
    requires Sane(s) && Enabled(s, IncrDialog(i))
    ensures Accounted(NextIncrDialog(s, i), u)
  {
    AccountSecond(s, s.entries[i].status.x, u);
    AccountKept(SecondIncrement(s, s.entries[i].status.x), NextIncrDialog(s, i), u);
  }

  lemma AccountStray(s: State, call: Stray, u: string)
    requires Sane(s) && Enabled(s, RunStray(call))
    ensures Accounted(Next(s, RunStray(call)), u)
  {
    match call
    case First(i) =>
      AccountFirst(s, i, u);
      AccountKept(FirstIncrement(s, i), Next(s, RunStray(call)), u);
    case Second(x) =>
      AccountSecond(s, x, u);
      AccountKept(SecondIncrement(s, x), Next(s, RunStray(call)), u);
  }

  lemma ClearKeepsNewAndLate(s: State, r: nat, u: string)
    requires Timely(s) && Enabled(s, RunReset(r))
    ensures New(NextRunReset(s, r), u) == New(s, u)
    ensures Late(NextRunReset(s, r), u) == Late(s, u)
  {
    var t := NextRunReset(s, r);
    SeqSumAgree(t.executions, s.executions, NewWeight(u, Epoch(s, u)), NewWeight(u, Epoch(s, u)));
    SeqSumAgree(t.executions, s.executions, LateWeight(u, Epoch(s, u)), LateWeight(u, Epoch(s, u)));
  }

  lemma RepairsRunReset(s: State, r: nat, u: string)
    requires Enabled(s, RunReset(r))
    ensures var q := s.requests[r]; var h := HashOf(s.redis, q.user);
      RepairedSum(NextRunReset(s, r), u) == RepairedSum(s, u) +
        if u == q.user && Clamps(h, q.partner) then Get(h, DialogField(q.partner)) - Get(h, TOTAL) else 0
  {
    SeqSumUpdate(s.requests, r, NextRunReset(s, r).requests[r], RepairWeight(u, Epoch(s, u)));
  }

  lemma AccountRunReset(s: State, r: nat, u: string)
    requires Sane(s) && Enabled(s, RunReset(r))
    ensures Accounted(NextRunReset(s, r), u)
  {
    var t := NextRunReset(s, r);
    var q := s.requests[r];
    ClearKeepsNewAndLate(s, r, u);
    RepairsRunReset(s, r, u);
    SeqSumNonNegative(s.executions, NewWeight(u, Epoch(s, u)));
    assert Accounted(s, u);
    if u == q.user {
      ResetDrift(HashOf(s.redis, u), q.partner);
      assert HashOf(t.redis, u) == Reset(HashOf(s.redis, u), q.partner);
    } else {
      assert Key(u) != Key(q.user);
    }
  }

  /** After a reconcile nothing counts any more that came before it. */
  lemma AfreshAfterReconcile(s: State, user: string)
    requires Timely(s)
    ensures var t := Next(s, Reconcile(user)); New(t, user) == Late(t, user) == RepairedSum(t, user) == 0
  {
    var t := Next(s, Reconcile(user));
    SeqSumZero(t.executions, NewWeight(user, Epoch(t, user)));
    SeqSumZero(t.executions, LateWeight(user, Epoch(t, user)));
    SeqSumZero(t.requests, RepairWeight(user, Epoch(t, user)));
  }

  lemma AccountReconcile(s: State, user: string, u: string)
    requires Sane(s)
    ensures Accounted(Next(s, Reconcile(user)), u)
  {
    var t := Next(s, Reconcile(user));
    assert Accounted(s, u);
    if u == user {
      ReconcileEndsDrift(HashOf(s.redis, u));
      AfreshAfterReconcile(s, u);
      assert HashOf(t.redis, u) == Reconciled(HashOf(s.redis, u));
    } else {
      assert Key(u) != Key(user);
      AccountKept(s, t, u);
    }
  }

  /** No other step writes a counter or changes what the account counts. */
  lemma AccountOther(s: State, step: Step, u: string)
    requires Sane(s) && Enabled(s, step)
    requires !step.IncrTotal? && !step.IncrDialog? && !step.RunStray? && !step.RunReset? && !step.Reconcile?
    ensures Accounted(Next(s, step), u)
  {
    var t := Next(s, step);
    RequestsKeepRepairs(s, step, u);
    AccountKept(s, t, u);
  }

  lemma RequestsKeepRepairs(s: State, step: Step, u: string)
    requires Enabled(s, step) && !step.RunReset? && !step.Reconcile?
    ensures RepairedSum(Next(s, step), u) == RepairedSum(s, u)
  {
    var t := Next(s, step);
    var w := RepairWeight(u, Epoch(s, u));
    match step
    case Open(user, partner) => SeqSumAppend(s.requests, Request(user, partner, None, Pending, None), w);
    case ReplyReset(r) => SeqSumUpdate(s.requests, r, t.requests[r], w);
    case FailReset(r) => SeqSumUpdate(s.requests, r, t.requests[r], w);
    case ListDialog(r) => SeqSumUpdate(s.requests, r, t.requests[r], w);
    case _ =>
  }

  lemma SaneStep(s: State, step: Step)
    requires Sane(s) && Enabled(s, step)
    ensures Sane(Next(s, step))
  {
    LinkedStep(s, step);
    TimelyStep(s, step);
    forall u ensures Accounted(Next(s, step), u) {
      match step
      case IncrTotal(i) => AccountIncrTotal(s, i, u);
      case IncrDialog(i) => AccountIncrDialog(s, i, u);
      case RunStray(call) => AccountStray(s, call, u);
      case RunReset(r) => AccountRunReset(s, r, u);
      case Reconcile(user) => AccountReconcile(s, user, u);
      case _ => AccountOther(s, step, u);
    }
  }

  lemma {:induction false} SaneRun(s: State, steps: seq<Step>)
    requires Sane(s) && Run(s, steps).Some?
    ensures Sane(Run(s, steps).value)
  {
    if steps != [] {
      var before := steps[..|steps| - 1];
      SaneRun(s, before);
      SaneStep(Run(s, before).value, steps[|steps| - 1]);
    }
  }

  lemma {:induction false} ReachableSane(s: State)
    requires Reachable(s)
    ensures Sane(s)
  {
    var steps :| Run(INIT, steps) == Some(s);
    InitSane();
    SaneRun(INIT, steps);
  }

  /** In every run no counter is ever negative. */
  lemma {:induction false} CountersNonNegative(s: State, user: string)
    requires Reachable(s)
    ensures NonNegative(HashOf(s.redis, user))
  {
    ReachableSane(s);
    assert Accounted(s, user);
  }

  /**
   In every run the drift of `total` is exactly the new half-made increments, less the late second
   increments, plus what clamps have repaired; so it lies between new - late and new. `total` is exact
   if and only if the account is even, in particular when there are neither.
   */
  lemma {:induction false} DriftSandwich(s: State, user: string)
    requires Reachable(s)
    ensures Drift(HashOf(s.redis, user)) == New(s, user) - Late(s, user) + RepairedSum(s, user)
    ensures New(s, user) - Late(s, user) <= Drift(HashOf(s.redis, user)) <= New(s, user)
    ensures Get(HashOf(s.redis, user), TOTAL) == DialogSum(HashOf(s.redis, user)) <==>
      New(s, user) + RepairedSum(s, user) == Late(s, user)
    ensures New(s, user) == Late(s, user) == 0 ==> RepairedSum(s, user) == 0
  {
    ReachableSane(s);
    assert Accounted(s, user);
    var steps :| Run(INIT, steps) == Some(s);
    RepairsNonNegative(steps, user);
  }

  ghost predicate RepairsCounted(s: State) {
    forall r :: 0 <= r < |s.requests| && s.requests[r].reset.Some? ==> s.requests[r].reset.value.repaired >= 0
  }

  lemma RepairsCountedStep(s: State, step: Step)
    requires RepairsCounted(s) && Enabled(s, step)
    ensures RepairsCounted(Next(s, step))
  {
  }

  lemma {:induction false} RepairsCountedRun(steps: seq<Step>)
    requires Run(INIT, steps).Some?
    ensures RepairsCounted(Run(INIT, steps).value)
  {
    if steps != [] {
      var before := steps[..|steps| - 1];
      RepairsCountedRun(before);
      RepairsCountedStep(Run(INIT, before).value, steps[|steps| - 1]);
    }
  }

  lemma RepairsNonNegative(steps: seq<Step>, user: string)
    requires Run(INIT, steps).Some?
    ensures RepairedSum(Run(INIT, steps).value, user) >= 0
  {
    RepairsCountedRun(steps);
    var s := Run(INIT, steps).value;
    SeqSumNonNegative(s.requests, RepairWeight(user, Epoch(s, user)));
  }

  /**
   The clamp in the reset only fires when a reconcile came between the two increments of some event,
   and then it strictly shrinks the drift, never past zero. A reset that does not clamp keeps the drift.
   */
  lemma {:induction false} ClampIsRepair(s: State, r: nat)
    requires Reachable(s) && Enabled(s, RunReset(r))
    ensures var user := s.requests[r].user;
      var before, after := Drift(HashOf(s.redis, user)), Drift(HashOf(NextRunReset(s, r).redis, user));
      if Clamps(HashOf(s.redis, user), s.requests[r].partner)
      then Late(s, user) > New(s, user) && before < after <= 0
      else before == after
  {
    var q := s.requests[r];
    var h := HashOf(s.redis, q.user);
    DriftSandwich(s, q.user);
    CountersNonNegative(s, q.user);
    ResetDrift(h, q.partner);
    DialogSumNonNegative(h);
    assert HashOf(NextRunReset(s, r).redis, q.user) == Reset(h, q.partner);
  }

  /** One message whose event a consumer has received. */
  lemma Arrives(sent: D.Sent) returns (steps: seq<Step>, s: State)
    ensures Run(INIT, steps) == Some(s)
    ensures s == INIT.(entries := [Entry(sent, Delivered)],
                       dialogs := D.Send(D.EMPTY, sent.msg.from, sent.msg.to, sent.msg.text, sent.id))
  {
    assert Run(INIT, []) == Some(INIT);
    RunMore(INIT, [], Store(sent));
    var stored := Next(INIT, Store(sent));
    RunMore(INIT, [] + [Store(sent)], Publish(0));
    var published := Next(stored, Publish(0));
    RunMore(INIT, [] + [Store(sent)] + [Publish(0)], Deliver(0));
    steps, s := [] + [Store(sent)] + [Publish(0)] + [Deliver(0)], Next(published, Deliver(0));
  }

  /** The event is consumed as far as its first increment. */
  lemma HalfCounted(sent: D.Sent) returns (steps: seq<Step>, s: State)
    ensures Run(INIT, steps) == Some(s)
    ensures s.entries == [Entry(sent, Halfway(0))]
    ensures s.executions == [Execution(0, sent.msg.to, sent.msg.from, 0, None, None)]
    ensures HashOf(s.redis, sent.msg.to) == map[TOTAL := 1]
    ensures s.epochs == map[] && s.requests == []
    ensures s.dialogs == D.Send(D.EMPTY, sent.msg.from, sent.msg.to, sent.msg.text, sent.id)
  {
    var before, arrived := Arrives(sent);
    RunMore(INIT, before, IncrTotal(0));
    steps, s := before + [IncrTotal(0)], NextIncrTotal(arrived, 0);
  }

  /** The counters do drift: `total` is ahead between the two increments, and stays so after a crash. */
  lemma {:induction false} DriftHappens(sent: D.Sent) returns (s: State)
    ensures Reachable(s) && |s.entries| == 1 && s.entries[0].status.Queued? && Drift(HashOf(s.redis, sent.msg.to)) == 1
  {
    var steps, half := HalfCounted(sent);
    RunMore(INIT, steps, Requeue(0));
    s := Next(half, Requeue(0));
    assert Dialogs(HashOf(s.redis, sent.msg.to)) == map[];
  }

  /** A reconcile forgets the first increment, before the second one is made. */
  lemma ReconciledHalfway(sent: D.Sent) returns (steps: seq<Step>, s: State)
    ensures Run(INIT, steps) == Some(s)
    ensures s.entries == [Entry(sent, Halfway(0))] && s.requests == []
    ensures s.executions == [Execution(0, sent.msg.to, sent.msg.from, 0, None, None)]
    ensures HashOf(s.redis, sent.msg.to) == map[TOTAL := 0]
  {
    var before, half := HalfCounted(sent);
    RunMore(INIT, before, Reconcile(sent.msg.to));
    steps, s := before + [Reconcile(sent.msg.to)], Next(half, Reconcile(sent.msg.to));
    assert CountedFields(map[TOTAL := 1]) == map[];
  }

  /** The clamp does fire: reconcile between the two increments of a message, then open its dialog. */
  lemma ClampHappens(sent: D.Sent) returns (s: State)
    ensures Reachable(s) && Enabled(s, RunReset(0))
    ensures s.requests[0].user == sent.msg.to && s.requests[0].partner == sent.msg.from
    ensures Clamps(HashOf(s.redis, sent.msg.to), sent.msg.from)
  {
    var to, from := sent.msg.to, sent.msg.from;
    var steps, even := ReconciledHalfway(sent);
    RunMore(INIT, steps, IncrDialog(0));
    var late := NextIncrDialog(even, 0);
    assert HashOf(late.redis, to) == Incr(map[TOTAL := 0], DialogField(from), 1);
    RunMore(INIT, steps + [IncrDialog(0)], Open(to, from));
    s := Next(late, Open(to, from));
  }
}
