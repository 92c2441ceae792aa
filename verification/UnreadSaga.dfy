/**
 The unread-counter saga as a state machine. Every Redis command or function call, every publish,
 delivery, acknowledgement and crash is one step, and any interleaving of any number of senders,
 consumers, readers and reconcilers is a run. What the program stores is in `redis` and `dialogs`;
 entries, executions, epochs and requests record who did what, so that the theorems can refer to it.
 */
module UnreadSaga {
  import opened Wrappers
  import opened Sums
  import opened CounterFunctions
  import D = DialogStore

  /** Where a message is on its way from `dialog_send` to an acknowledged event. */
  datatype Status =
    | Stored           // in the dialog store; its event is not published yet
    | Unpublished      // publishing failed, or the sender died first
    | Queued           // its event waits in the queue message-counters
    | Delivered        // a consumer has the event and has written nothing yet
    | Halfway(x: nat)  // execution x has incremented total, not yet the dialog field
    | Counted(x: nat)  // execution x has made both increments
    | Acked

  datatype Entry = Entry(sent: D.Sent, status: Status)

  /** A run of the consumer for one event that got at least as far as its first increment. */
  datatype Execution = Execution(
    event: nat,
    to: string,
    from: string,
    firstEpoch: nat,            // the recipient's reconciles before the first increment
    secondEpoch: Option<nat>,   // and before the second one, once that is made
    clearedBy: Option<nat>)     // the request whose reset cleared the second increment

  /** An increment whose call failed, or whose caller died: Redis may still run it, once, or never. */
  datatype Stray = First(i: nat) | Second(x: nat)

  datatype ResetReply = ResetReply(count: int, repaired: int, epoch: nat)

  datatype Listing = Listing(reply: seq<Option<D.Message>>, upTo: nat, afterReset: bool)

  datatype Call = Pending | Replied | Errored

  /** A request that opens a dialog: it calls the reset, sees the call end, and then lists. */
  datatype Request = Request(
    user: string,
    partner: string,
    reset: Option<ResetReply>,  // set once the reset function has run in Redis
    call: Call,                 // what the caller has seen of the reset call
    listing: Option<Listing>)

  datatype State = State(
    redis: Redis,
    dialogs: D.Store,
    entries: seq<Entry>,
    executions: seq<Execution>,
    strays: multiset<Stray>,
    epochs: map<string, nat>,   // reconciles so far, by user
    requests: seq<Request>)

  datatype Step =
    | Store(sent: D.Sent)       // dialog_send
    | Publish(i: nat)           // the event reaches the queue
    | LosePublish(i: nat)       // it never does: publishing failed, or the sender died before it
    | Deliver(i: nat)
    | IncrTotal(i: nat)
    | IncrDialog(i: nat)
    | Ack(i: nat)
    | Requeue(i: nat)           // Process throws or the consumer dies
    | RunStray(call: Stray)
    | Open(user: string, partner: string)
    | RunReset(r: nat)
    | ReplyReset(r: nat)
    | FailReset(r: nat)         // RpcError; the reset may have run, may still run, or may never run
    | ListDialog(r: nat)
    | Reconcile(user: string)

  const INIT := State(map[], D.EMPTY, [], [], multiset{}, map[], [])

  function Epoch(s: State, user: string): nat { EpochIn(s.epochs, user) }

  function EpochIn(epochs: map<string, nat>, user: string): nat { if user in epochs then epochs[user] else 0 }

  function Log(entries: seq<Entry>): (log: seq<D.Sent>)
    ensures |log| == |entries|
    ensures forall i :: 0 <= i < |entries| ==> log[i] == entries[i].sent
  {
    seq(|entries|, i requires 0 <= i < |entries| => entries[i].sent)
  }

  predicate Has(s: State, i: nat) { i < |s.entries| }

  predicate Enabled(s: State, step: Step) {
    match step
    case Store(sent) => forall i :: 0 <= i < |s.entries| ==> s.entries[i].sent.id != sent.id
    case Publish(i) => Has(s, i) && s.entries[i].status.Stored?
    case LosePublish(i) => Has(s, i) && s.entries[i].status.Stored?
    case Deliver(i) => Has(s, i) && s.entries[i].status.Queued?
    case IncrTotal(i) => Has(s, i) && s.entries[i].status.Delivered?
    case IncrDialog(i) => Has(s, i) && s.entries[i].status.Halfway? && s.entries[i].status.x < |s.executions|
    case Ack(i) => Has(s, i) && s.entries[i].status.Counted?
    case Requeue(i) =>
      Has(s, i) && (s.entries[i].status.Delivered? || s.entries[i].status.Halfway? || s.entries[i].status.Counted?)
    case RunStray(First(i)) => First(i) in s.strays && Has(s, i)
    case RunStray(Second(x)) => Second(x) in s.strays && x < |s.executions| && s.executions[x].secondEpoch.None?
    case Open(user, partner) => true
    case RunReset(r) => r < |s.requests| && s.requests[r].reset.None?
    case ReplyReset(r) => r < |s.requests| && s.requests[r].reset.Some? && s.requests[r].call.Pending?
    case FailReset(r) => r < |s.requests| && s.requests[r].call.Pending?
    case ListDialog(r) => r < |s.requests| && !s.requests[r].call.Pending? && s.requests[r].listing.None?
    case Reconcile(user) => true
  }

  function SetStatus(s: State, i: nat, status: Status): State
    requires Has(s, i)
  {
    s.(entries := s.entries[i := s.entries[i].(status := status)])
  }

  function Write(redis: Redis, user: string, h: Hash): Redis { redis[Key(user) := h] }

  ghost function Next(s: State, step: Step): State
    requires Enabled(s, step)
  {
    match step
    case Store(sent) =>
      s.(dialogs := D.Send(s.dialogs, sent.msg.from, sent.msg.to, sent.msg.text, sent.id),
         entries := s.entries + [Entry(sent, Stored)])
    case Publish(i) => SetStatus(s, i, Queued)
    case LosePublish(i) => SetStatus(s, i, Unpublished)
    case Deliver(i) => SetStatus(s, i, Delivered)
    case IncrTotal(i) => NextIncrTotal(s, i)
    case IncrDialog(i) => NextIncrDialog(s, i)
    case Ack(i) => SetStatus(s, i, Acked)
    case Requeue(i) => SetStatus(s, i, Queued).(strays := s.strays + LeftBehind(i, s.entries[i].status))
    case RunStray(call) =>
      (match call
       case First(i) => FirstIncrement(s, i)
       case Second(x) => SecondIncrement(s, x)).(strays := s.strays - multiset{call})
    case Open(user, partner) => s.(requests := s.requests + [Request(user, partner, None, Pending, None)])
    case RunReset(r) => NextRunReset(s, r)
    case ReplyReset(r) => s.(requests := s.requests[r := s.requests[r].(call := Replied)])
    case FailReset(r) => s.(requests := s.requests[r := s.requests[r].(call := Errored)])
    case ListDialog(r) =>
      var q := s.requests[r];
      var listing := Listing(D.List(s.dialogs, q.user, q.partner), |s.entries|, q.reset.Some?);
      s.(requests := s.requests[r := q.(listing := Some(listing))])
    case Reconcile(user) =>
      s.(redis := Write(s.redis, user, Reconciled(HashOf(s.redis, user))),
         epochs := s.epochs[user := Epoch(s, user) + 1])
  }

  /** The call that was underway when event `i` went back to the queue. */
  function LeftBehind(i: nat, status: Status): multiset<Stray> {
    match status
    case Delivered => multiset{First(i)}
    case Halfway(x) => multiset{Second(x)}
    case _ => multiset{}
  }

  /** `HINCRBY counters:<to> total 1` for event `i` */
  function FirstIncrement(s: State, i: nat): State
    requires Has(s, i)
  {
    var m := s.entries[i].sent.msg;
    s.(redis := Write(s.redis, m.to, Incr(HashOf(s.redis, m.to), TOTAL, 1)),
       executions := s.executions + [Execution(i, m.to, m.from, Epoch(s, m.to), None, None)])
  }

  /** `HINCRBY counters:<to> dialog:<from> 1` for execution `x` */
  function SecondIncrement(s: State, x: nat): State
    requires x < |s.executions|
  {
    var e := s.executions[x];
    s.(redis := Write(s.redis, e.to, Incr(HashOf(s.redis, e.to), DialogField(e.from), 1)),
       executions := s.executions[x := e.(secondEpoch := Some(Epoch(s, e.to)))])
  }

  function NextIncrTotal(s: State, i: nat): State
    requires Enabled(s, IncrTotal(i))
  {
    SetStatus(FirstIncrement(s, i), i, Halfway(|s.executions|))
  }

  function NextIncrDialog(s: State, i: nat): State
    requires Enabled(s, IncrDialog(i))
  {
    SetStatus(SecondIncrement(s, s.entries[i].status.x), i, Counted(s.entries[i].status.x))
  }

  function NextRunReset(s: State, r: nat): State
    requires Enabled(s, RunReset(r))
  {
    var q := s.requests[r];
    var h := HashOf(s.redis, q.user);
    var count := Get(h, DialogField(q.partner));
    var repaired := if Clamps(h, q.partner) then count - Get(h, TOTAL) else 0;
    s.(redis := if count > 0 then Write(s.redis, q.user, Reset(h, q.partner)) else s.redis,
       executions := Clear(s.executions, q.user, q.partner, r),
       requests := s.requests[r := q.(reset := Some(ResetReply(count, repaired, Epoch(s, q.user))))])
  }

  /** Is the second increment of `e` part of the field `dialog:<from>` of `to`? */
  predicate Unread(e: Execution, to: string, from: string) {
    e.to == to && e.from == from && e.secondEpoch.Some? && e.clearedBy.None?
  }

  /** The executions once request `r` has reset the dialog of `to` with `from`. */
  function Clear(executions: seq<Execution>, to: string, from: string, r: nat): (cleared: seq<Execution>)
    ensures |cleared| == |executions|
  {
    seq(|executions|, x requires 0 <= x < |executions| =>
      if Unread(executions[x], to, from) then executions[x].(clearedBy := Some(r)) else executions[x])
  }

  /** The state a run leads to; `None` if one of its steps is not enabled when its turn comes. */
  ghost function Run(s: State, steps: seq<Step>): Option<State> {
    if steps == [] then Some(s)
    else
      var before := Run(s, steps[..|steps| - 1]);
      if before.Some? && Enabled(before.value, steps[|steps| - 1])
      then Some(Next(before.value, steps[|steps| - 1]))
      else None
  }

  lemma RunMore(s: State, steps: seq<Step>, step: Step)
    requires Run(s, steps).Some? && Enabled(Run(s, steps).value, step)
    ensures Run(s, steps + [step]) == Some(Next(Run(s, steps).value, step))
  {
    assert (steps + [step])[..|steps|] == steps;
  }

  ghost predicate Reachable(s: State) {
    exists steps :: Run(INIT, steps) == Some(s)
  }

  /* ---- What every reachable state satisfies ---- */

  /**
   Executions belong to the message of their event; an entry half way points at its own execution, which
   still waits for its second increment and is not left behind.
   */
  ghost predicate Linked(s: State) {
    && (forall x :: 0 <= x < |s.executions| ==>
          && s.executions[x].event < |s.entries|
          && s.executions[x].to == s.entries[s.executions[x].event].sent.msg.to
          && s.executions[x].from == s.entries[s.executions[x].event].sent.msg.from)
    && (forall i :: 0 <= i < |s.entries| && s.entries[i].status.Halfway? ==>
          && s.entries[i].status.x < |s.executions|
          && s.executions[s.entries[i].status.x].event == i
          && s.executions[s.entries[i].status.x].secondEpoch.None?
          && Second(s.entries[i].status.x) !in s.strays)
    && (forall x: nat :: Second(x) in s.strays ==> x < |s.executions|)
  }

  ghost predicate Timely(s: State) { InTime(s.executions, s.requests, s.epochs) }

  /** No recorded epoch lies in the future. */
  ghost predicate InTime(executions: seq<Execution>, requests: seq<Request>, epochs: map<string, nat>) {
    && (forall x :: 0 <= x < |executions| ==>
          && executions[x].firstEpoch <= EpochIn(epochs, executions[x].to)
          && (executions[x].secondEpoch.Some? ==>
                executions[x].firstEpoch <= executions[x].secondEpoch.value <= EpochIn(epochs, executions[x].to))
          && (executions[x].clearedBy.Some? ==> executions[x].secondEpoch.Some?))
    && (forall r :: 0 <= r < |requests| && requests[r].reset.Some? ==>
          requests[r].reset.value.epoch <= EpochIn(epochs, requests[r].user))
  }

  /** The dialog store holds exactly the stored messages, each under its own id. */
  ghost predicate Logged(s: State) {
    && s.dialogs == D.Replay(Log(s.entries))
    && D.DistinctIds(Log(s.entries))
  }

  lemma {:induction false} LinkedStep(s: State, step: Step)
    requires Linked(s) && Enabled(s, step)
    ensures Linked(Next(s, step))
  {
    match step
    case Publish(i) => LinkedSetStatus(s, i, Queued);
    case LosePublish(i) => LinkedSetStatus(s, i, Unpublished);
    case Deliver(i) => LinkedSetStatus(s, i, Delivered);
    case IncrTotal(i) => LinkedIncrTotal(s, i);
    case IncrDialog(i) => LinkedIncrDialog(s, i);
    case Ack(i) => LinkedSetStatus(s, i, Acked);
    case Requeue(i) => LinkedRequeue(s, i);
    case RunStray(call) => LinkedRunStray(s, call);
    case RunReset(r) => LinkedRunReset(s, r);
    case _ =>
  }

  lemma LinkedSetStatus(s: State, i: nat, status: Status)
    requires Linked(s) && Has(s, i) && !status.Halfway?
    ensures Linked(SetStatus(s, i, status))
  {
  }

  lemma LinkedRequeue(s: State, i: nat)
    requires Linked(s) && Enabled(s, Requeue(i))
    ensures Linked(Next(s, Requeue(i)))
  {
    LinkedSetStatus(s, i, Queued);
  }

  lemma LinkedRunStray(s: State, call: Stray)
    requires Linked(s) && Enabled(s, RunStray(call))
    ensures Linked(Next(s, RunStray(call)))
  {
    match call
    case First(i) => LinkedFirst(s, i, s.strays - multiset{call});
    case Second(x) => LinkedSecond(s, x, s.strays - multiset{call});
  }

  lemma LinkedFirst(s: State, i: nat, strays: multiset<Stray>)
    requires Linked(s) && Has(s, i) && strays <= s.strays
    ensures Linked(FirstIncrement(s, i).(strays := strays))
  {
  }

  lemma LinkedSecond(s: State, x: nat, strays: multiset<Stray>)
    requires Linked(s) && x < |s.executions| && Second(x) in s.strays && strays <= s.strays
    ensures Linked(SecondIncrement(s, x).(strays := strays))
  {
  }

  lemma LinkedRunReset(s: State, r: nat)
    requires Linked(s) && Enabled(s, RunReset(r))
    ensures Linked(NextRunReset(s, r))
  {
  }

  lemma LinkedIncrTotal(s: State, i: nat)
    requires Linked(s) && Enabled(s, IncrTotal(i))
    ensures Linked(NextIncrTotal(s, i))
  {
  }

  lemma LinkedIncrDialog(s: State, i: nat)
    requires Linked(s) && Enabled(s, IncrDialog(i))
    ensures Linked(NextIncrDialog(s, i))
  {
  }

  lemma {:induction false} TimelyStep(s: State, step: Step)
    requires Linked(s) && Timely(s) && Enabled(s, step)
    ensures Timely(Next(s, step))
  {
    match step
    case IncrTotal(i) => TimelyFirst(s, i);
    case RunStray(First(i)) => TimelyFirst(s, i);
    case IncrDialog(i) => TimelySecond(s, s.entries[i].status.x);
    case RunStray(Second(x)) => TimelySecond(s, x);
    case RunReset(r) => TimelyRunReset(s, r);
    case Reconcile(user) => TimelyReconcile(s, user);
    case _ => TimelyOther(s, step);
  }

  lemma TimelyFirst(s: State, i: nat)
    requires Timely(s) && Has(s, i)
    ensures Timely(FirstIncrement(s, i))
  {
  }

  lemma TimelySecond(s: State, x: nat)
    requires Timely(s) && x < |s.executions| && s.executions[x].secondEpoch.None?
    ensures Timely(SecondIncrement(s, x))
  {
  }

  lemma TimelyRunReset(s: State, r: nat)
    requires Timely(s) && Enabled(s, RunReset(r))
    ensures Timely(NextRunReset(s, r))
  {
  }

  lemma TimelyReconcile(s: State, user: string)
    requires Timely(s)
    ensures Timely(Next(s, Reconcile(user)))
  {
  }

  lemma TimelyOther(s: State, step: Step)
    requires Timely(s) && Enabled(s, step)
    requires Next(s, step).executions == s.executions && Next(s, step).epochs == s.epochs
    requires !step.RunReset?
    ensures Timely(Next(s, step))
  {
  }

  lemma {:induction false} LoggedStep(s: State, step: Step)
    requires Logged(s) && Enabled(s, step)
    ensures Logged(Next(s, step))
  {
    if step.Store? {
      StoreExtendsLog(s, step.sent);
    } else {
      LogKept(s, step);
    }
  }

  lemma LogMore(entries: seq<Entry>, e: Entry)
    ensures Log(entries + [e]) == Log(entries) + [e.sent]
  {
  }

  lemma ReplayMore(log: seq<D.Sent>, sent: D.Sent)
    ensures D.Replay(log + [sent]) == D.Send(D.Replay(log), sent.msg.from, sent.msg.to, sent.msg.text, sent.id)
  {
    assert (log + [sent])[..|log|] == log;
  }

  lemma StoreExtendsLog(s: State, sent: D.Sent)
    requires Logged(s) && Enabled(s, Store(sent))
    ensures Logged(Next(s, Store(sent)))
  {
    LogMore(s.entries, Entry(sent, Stored));
    ReplayMore(Log(s.entries), sent);
  }

  lemma LogKept(s: State, step: Step)
    requires Enabled(s, step) && !step.Store?
    ensures Log(Next(s, step).entries) == Log(s.entries)
    ensures Next(s, step).dialogs == s.dialogs
  {
  }

  /* ---- What the theorems count ---- */

  function Bit(b: bool): int { if b then 1 else 0 }

  /** Executions that incremented `total` since the user's last reconcile and not the dialog field. */
  ghost function New(s: State, user: string): int { SeqSum(s.executions, NewWeight(user, Epoch(s, user))) }

  function NewWeight(user: string, epoch: nat): Execution -> int {
    (e: Execution) => Bit(e.to == user && e.firstEpoch == epoch && e.secondEpoch.None?)
  }

  /** Second increments since the user's last reconcile whose first increment came before it. */
  ghost function Late(s: State, user: string): int { SeqSum(s.executions, LateWeight(user, Epoch(s, user))) }

  function LateWeight(user: string, epoch: nat): Execution -> int {
    (e: Execution) => Bit(e.to == user && e.firstEpoch < epoch && e.secondEpoch == Some(epoch))
  }

  /** What clamps have added to `total` since the user's last reconcile. */
  ghost function RepairedSum(s: State, user: string): int {
    SeqSum(s.requests, RepairWeight(user, Epoch(s, user)))
  }

  function RepairWeight(user: string, epoch: nat): Request -> int {
    (q: Request) => if q.user == user && q.reset.Some? && q.reset.value.epoch == epoch then q.reset.value.repaired else 0
  }

  /** Second increments ever made for messages from `from` to `to`. */
  ghost function Applied(s: State, to: string, from: string): int {
    SeqSum(s.executions, AppliedWeight(to, from))
  }

  function AppliedWeight(to: string, from: string): Execution -> int {
    (e: Execution) => Bit(e.to == to && e.from == from && e.secondEpoch.Some?)
  }

  ghost function UnreadCount(s: State, to: string, from: string): int {
    SeqSum(s.executions, UnreadWeight(to, from))
  }

  function UnreadWeight(to: string, from: string): Execution -> int {
    (e: Execution) => Bit(Unread(e, to, from))
  }

  /** The sum of what the resets of one dialog returned. */
  ghost function Returned(s: State, user: string, partner: string): int {
    SeqSum(s.requests, ReturnWeight(user, partner))
  }

  function ReturnWeight(user: string, partner: string): Request -> int {
    (q: Request) => if q.user == user && q.partner == partner && q.reset.Some? then q.reset.value.count else 0
  }

  function Field(s: State, user: string, partner: string): int {
    Get(HashOf(s.redis, user), DialogField(partner))
  }

}
