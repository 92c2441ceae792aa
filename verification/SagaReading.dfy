/** A request that opens a dialog never marks as read what it does not show, and exactly when not. */
module SagaReading {
  import opened Wrappers
  import opened UnreadSaga
  import D = DialogStore

  /** A listing shows the dialog as it stood when the first `upTo` messages were stored. */
  ghost predicate Shows(log: seq<D.Sent>, q: Request) {
    q.listing.Some? ==>
      && !q.call.Pending?
      && q.listing.value.upTo <= |log|
      && q.listing.value.reply == D.List(D.Replay(log[..q.listing.value.upTo]), q.user, q.partner)
      && (q.listing.value.afterReset ==> q.reset.Some?)
  }

  /** A cleared increment is in its request's dialog, and shown if the reset came before the listing. */
  ghost predicate ClearedIsShown(requests: seq<Request>, e: Execution) {
    e.clearedBy.Some? ==>
      && e.clearedBy.value < |requests|
      && var q := requests[e.clearedBy.value];
      && q.reset.Some? && q.user == e.to && q.partner == e.from
      && (q.listing.Some? && q.listing.value.afterReset ==> e.event < q.listing.value.upTo)
  }

  ghost predicate Reading(s: State) {
    && Linked(s) && Timely(s) && Logged(s)
    && (forall r :: 0 <= r < |s.requests| ==> Shows(Log(s.entries), s.requests[r]))
    && (forall r :: 0 <= r < |s.requests| && s.requests[r].call.Replied? ==> s.requests[r].reset.Some?)
    && (forall x :: 0 <= x < |s.executions| ==> ClearedIsShown(s.requests, s.executions[x]))
  }

  /** Request `r` has listed the dialog, and has cleared the increment of a message not in the list. */
  ghost predicate Unseen(s: State, r: nat) {
    && r < |s.requests| && s.requests[r].listing.Some?
    && exists x :: 0 <= x < |s.executions| && s.executions[x].clearedBy == Some(r) &&
                   s.executions[x].event >= s.requests[r].listing.value.upTo
  }

  lemma {:induction false} ShowsStep(s: State, step: Step, r: nat)
    requires Reading(s) && Enabled(s, step) && r < |Next(s, step).requests|
    ensures Shows(Log(Next(s, step).entries), Next(s, step).requests[r])
  {
    if step.Store? {
      var t := Next(s, step);
      var q := s.requests[r];
      assert Shows(Log(s.entries), q);
      assert Log(t.entries) == Log(s.entries) + [step.sent];
      if q.listing.Some? {
        assert Log(t.entries)[..q.listing.value.upTo] == Log(s.entries)[..q.listing.value.upTo];
      }
    } else {
      LogKept(s, step);
      ShowsOther(s, step, r);
    }
  }

  lemma ShowsOther(s: State, step: Step, r: nat)
    requires Reading(s) && Enabled(s, step) && !step.Store? && r < |Next(s, step).requests|
    requires Log(Next(s, step).entries) == Log(s.entries)
    ensures Shows(Log(Next(s, step).entries), Next(s, step).requests[r])
  {
    assert r < |s.requests| ==> Shows(Log(s.entries), s.requests[r]);
    assert Log(s.entries)[..|s.entries|] == Log(s.entries);
  }

  lemma RepliedStep(s: State, step: Step, r: nat)
    requires Reading(s) && Enabled(s, step) && r < |Next(s, step).requests|
    ensures Next(s, step).requests[r].call.Replied? ==> Next(s, step).requests[r].reset.Some?
  {
  }

  lemma ClearedRunReset(s: State, r: nat, x: nat)
    requires Reading(s) && Enabled(s, RunReset(r)) && x < |s.executions|
    ensures ClearedIsShown(NextRunReset(s, r).requests, NextRunReset(s, r).executions[x])
  {
    assert ClearedIsShown(s.requests, s.executions[x]) && Shows(Log(s.entries), s.requests[r]);
  }

  /** Listing shows everything stored so far. */
  lemma ClearedListDialog(s: State, r: nat, x: nat)
    requires Reading(s) && Enabled(s, ListDialog(r)) && x < |s.executions|
    ensures ClearedIsShown(Next(s, ListDialog(r)).requests, s.executions[x])
  {
    assert ClearedIsShown(s.requests, s.executions[x]);
  }

  lemma ClearedCall(s: State, step: Step, x: nat)
    requires Reading(s) && Enabled(s, step) && (step.Open? || step.ReplyReset? || step.FailReset?)
    requires x < |s.executions|
    ensures ClearedIsShown(Next(s, step).requests, s.executions[x])
  {
    assert ClearedIsShown(s.requests, s.executions[x]);
  }

  lemma ClearedFirst(s: State, i: nat, x: nat)
    requires Reading(s) && Has(s, i) && x < |FirstIncrement(s, i).executions|
    ensures ClearedIsShown(s.requests, FirstIncrement(s, i).executions[x])
  {
    assert x < |s.executions| ==> ClearedIsShown(s.requests, s.executions[x]);
  }

  lemma ClearedSecond(s: State, y: nat, x: nat)
    requires Reading(s) && y < |s.executions| && x < |s.executions|
    ensures ClearedIsShown(s.requests, SecondIncrement(s, y).executions[x])
  {
    assert ClearedIsShown(s.requests, s.executions[x]);
  }

  lemma ClearedIncrement(s: State, step: Step, x: nat)
    requires Reading(s) && Enabled(s, step) && (step.IncrTotal? || step.IncrDialog? || step.RunStray?)
    requires x < |Next(s, step).executions|
    ensures ClearedIsShown(Next(s, step).requests, Next(s, step).executions[x])
  {
    match step
    case IncrTotal(i) => ClearedFirst(s, i, x);
    case RunStray(First(i)) => ClearedFirst(s, i, x);
    case IncrDialog(i) => ClearedSecond(s, s.entries[i].status.x, x);
    case RunStray(Second(y)) => ClearedSecond(s, y, x);
  }

  lemma {:induction false} ClearedStep(s: State, step: Step, x: nat)
    requires Reading(s) && Enabled(s, step) && x < |Next(s, step).executions|
    ensures ClearedIsShown(Next(s, step).requests, Next(s, step).executions[x])
  {
    if step.RunReset? {
      ClearedRunReset(s, step.r, x);
    } else if step.IncrTotal? || step.IncrDialog? || step.RunStray? {
      ClearedIncrement(s, step, x);
    } else {
      assert Next(s, step).executions == s.executions;
      if step.ListDialog? {
        ClearedListDialog(s, step.r, x);
      } else if step.Open? || step.ReplyReset? || step.FailReset? {
        ClearedCall(s, step, x);
      } else {
        assert ClearedIsShown(s.requests, s.executions[x]);
      }
    }
  }

  lemma ReadingStep(s: State, step: Step)
    requires Reading(s) && Enabled(s, step)
    ensures Reading(Next(s, step))
  {
    LinkedStep(s, step);
    TimelyStep(s, step);
    LoggedStep(s, step);
    forall r | 0 <= r < |Next(s, step).requests|
      ensures Shows(Log(Next(s, step).entries), Next(s, step).requests[r])
      ensures Next(s, step).requests[r].call.Replied? ==> Next(s, step).requests[r].reset.Some?
    {
      ShowsStep(s, step, r);
      RepliedStep(s, step, r);
    }
    forall x | 0 <= x < |Next(s, step).executions|
      ensures ClearedIsShown(Next(s, step).requests, Next(s, step).executions[x])
    {
      ClearedStep(s, step, x);
    }
  }

  lemma {:induction false} ReadingRun(s: State, steps: seq<Step>)
    requires Reading(s) && Run(s, steps).Some?
    ensures Reading(Run(s, steps).value)
  {
    if steps != [] {
      var before := steps[..|steps| - 1];
      ReadingRun(s, before);
      ReadingStep(Run(s, before).value, steps[|steps| - 1]);
    }
  }

  lemma ReachableReading(s: State)
    requires Reachable(s)
    ensures Reading(s)
  {
    var steps :| Run(INIT, steps) == Some(s);
    ReadingRun(INIT, steps);
  }

  /**
   When the reset came before the listing, every message whose unread increment it cleared is in the
   list the request returned: the list is the whole dialog up to some point, and the message is in it.
   With ids that contain no colon the list holds the messages of this pair and no others.
   */
  lemma NothingReadUnseen(s: State, r: nat, x: nat)
    requires Reachable(s) && r < |s.requests| && x < |s.executions|
    requires s.requests[r].listing.Some? && s.requests[r].listing.value.afterReset
    requires s.executions[x].clearedBy == Some(r)
    ensures s.requests[r].listing.value.upTo <= |s.entries|
    ensures var q := s.requests[r];
      var log := Log(s.entries)[..q.listing.value.upTo];
      var shown := D.KeyLog(log, D.IdxKey(q.user, q.partner));
      && q.listing.value.reply == D.Messages(shown)
      && s.executions[x].event < |s.entries|
      && s.entries[s.executions[x].event].sent in shown
      && (D.ColonFreeUsers(log) && D.ColonFree(q.user) && D.ColonFree(q.partner) ==>
            shown == D.PairLog(log, q.user, q.partner))
  {
    ReachableReading(s);
    var q := s.requests[r];
    var e := s.executions[x];
    var log := Log(s.entries)[..q.listing.value.upTo];
    assert ClearedIsShown(s.requests, e) && Shows(Log(s.entries), q);
    D.ListIsKeyLog(log, q.user, q.partner);
    D.KeyLogFromLog(log, D.IdxKey(q.user, q.partner));
    D.IdxKeySymmetric(q.user, q.partner);
    assert log[e.event] == s.entries[e.event].sent;
    if D.ColonFreeUsers(log) && D.ColonFree(q.user) && D.ColonFree(q.partner) {
      D.ColonFreeIsUnmixed(log, q.user, q.partner);
      D.UnmixedLogsAgree(log, q.user, q.partner);
    }
  }

  /** A request whose reset call got a reply has had its reset before it lists. */
  lemma ReplyMeansReset(s: State, r: nat)
    requires Reachable(s) && r < |s.requests| && s.requests[r].call.Replied?
    ensures s.requests[r].reset.Some?
  {
    ReachableReading(s);
  }

  ghost predicate ResetFirst(s: State, r: nat) {
    && Reading(s) && r < |s.requests| && s.requests[r].reset.Some?
    && (s.requests[r].listing.Some? ==> s.requests[r].listing.value.afterReset)
  }

  lemma ResetFirstStep(s: State, step: Step, r: nat)
    requires ResetFirst(s, r) && Enabled(s, step)
    ensures ResetFirst(Next(s, step), r)
  {
    ReadingStep(s, step);
    ResetStaysFirst(s, step, r);
  }

  lemma ResetStaysFirst(s: State, step: Step, r: nat)
    requires Enabled(s, step) && r < |s.requests| && s.requests[r].reset.Some?
    requires s.requests[r].listing.Some? ==> s.requests[r].listing.value.afterReset
    ensures r < |Next(s, step).requests| && Next(s, step).requests[r].reset.Some?
    ensures Next(s, step).requests[r].listing.Some? ==> Next(s, step).requests[r].listing.value.afterReset
  {
  }

  lemma {:induction false} ResetFirstRun(s: State, steps: seq<Step>, r: nat)
    requires ResetFirst(s, r) && Run(s, steps).Some?
    ensures ResetFirst(Run(s, steps).value, r)
  {
    if steps != [] {
      var before := steps[..|steps| - 1];
      ResetFirstRun(s, before, r);
      ResetFirstStep(Run(s, before).value, steps[|steps| - 1], r);
    }
  }

  lemma ResetFirstIsSeen(s: State, r: nat)
    requires ResetFirst(s, r)
    ensures !Unseen(s, r)
  {
    forall x | 0 <= x < |s.executions| && s.executions[x].clearedBy == Some(r)
      ensures s.requests[r].listing.Some? ==> s.executions[x].event < s.requests[r].listing.value.upTo
    {
      assert ClearedIsShown(s.requests, s.executions[x]);
    }
  }

  /** An id longer than every id in the log. */
  ghost function FreshId(log: seq<D.Sent>): (id: string)
    ensures forall i :: 0 <= i < |log| ==> |log[i].id| < |id|
  {
    if log == [] then "x"
    else
      var id := FreshId(log[..|log| - 1]);
      var last := log[|log| - 1].id;
      if |last| < |id| then id else last + "x"
  }

  /** A message is stored, its event is published, delivered and counted. */
  lemma {:induction false} CountsMessage(s: State, steps: seq<Step>, sent: D.Sent) returns (more: seq<Step>, t: State)
    requires Run(s, steps).Some? && Enabled(Run(s, steps).value, Store(sent))
    ensures Run(s, more) == Some(t)
    ensures var u := Run(s, steps).value;
      && t.requests == u.requests
      && |t.executions| == |u.executions| + 1
      && t.executions[|u.executions|].event == |u.entries|
      && Unread(t.executions[|u.executions|], sent.msg.to, sent.msg.from)
  {
    var u := Run(s, steps).value;
    var i := |u.entries|;
    RunMore(s, steps, Store(sent));
    RunMore(s, steps + [Store(sent)], Publish(i));
    RunMore(s, steps + [Store(sent)] + [Publish(i)], Deliver(i));
    RunMore(s, steps + [Store(sent)] + [Publish(i)] + [Deliver(i)], IncrTotal(i));
    RunMore(s, steps + [Store(sent)] + [Publish(i)] + [Deliver(i)] + [IncrTotal(i)], IncrDialog(i));
    more := steps + [Store(sent)] + [Publish(i)] + [Deliver(i)] + [IncrTotal(i)] + [IncrDialog(i)];
    t := Run(s, more).value;
  }

  /** If the caller goes on to list while its reset has not run, the reset may later hide a message. */
  lemma {:induction false} LateResetHides(s: State, r: nat) returns (steps: seq<Step>, t: State)
    requires Reading(s) && r < |s.requests|
    requires !s.requests[r].call.Pending? && s.requests[r].listing.None? && s.requests[r].reset.None?
    ensures Run(s, steps) == Some(t) && Unseen(t, r)
  {
    var q := s.requests[r];
    var sent := D.Sent(FreshId(Log(s.entries)), D.Message(q.partner, q.user, ""));
    assert Run(s, []) == Some(s);
    RunMore(s, [], ListDialog(r));
    var listed := Next(s, ListDialog(r));
    assert listed.entries == s.entries;
    forall i | 0 <= i < |s.entries| ensures s.entries[i].sent.id != sent.id {
      assert |Log(s.entries)[i].id| < |sent.id|;
    }
    var before, u := CountsMessage(s, [] + [ListDialog(r)], sent);
    RunMore(s, before, RunReset(r));
    steps, t := before + [RunReset(r)], Next(u, RunReset(r));
    assert t.executions[|s.executions|].clearedBy == Some(r);
  }

  /** Whatever follows, request `r` never clears a message it does not show. */
  ghost predicate SafeFrom(s: State, r: nat) {
    forall steps :: Run(s, steps).Some? ==> !Unseen(Run(s, steps).value, r)
  }

  /**
   Once the caller has seen its reset call end, the request can never clear a message it does not show,
   whatever follows, if and only if the reset has run by then.
   */
  lemma {:induction false} SeenWhateverFollows(s: State, r: nat)
    requires Reachable(s) && r < |s.requests|
    requires !s.requests[r].call.Pending? && s.requests[r].listing.None?
    ensures SafeFrom(s, r) <==> s.requests[r].reset.Some?
  {
    ReachableReading(s);
    if s.requests[r].reset.Some? {
      forall steps | Run(s, steps).Some? ensures !Unseen(Run(s, steps).value, r) {
        ResetFirstRun(s, steps, r);
        ResetFirstIsSeen(Run(s, steps).value, r);
      }
    } else {
      var steps, t := LateResetHides(s, r);
      assert Run(s, steps).Some? && Unseen(Run(s, steps).value, r);
    }
  }

  lemma CallFails(before: seq<Step>, s: State, user: string, partner: string) returns (steps: seq<Step>, t: State)
    requires Run(INIT, before) == Some(s)
    ensures Run(INIT, steps) == Some(t)
    ensures t.requests == s.requests + [Request(user, partner, None, Errored, None)]
  {
    RunMore(INIT, before, Open(user, partner));
    var pending := Next(s, Open(user, partner));
    RunMore(INIT, before + [Open(user, partner)], FailReset(|s.requests|));
    steps := before + [Open(user, partner)] + [FailReset(|s.requests|)];
    t := Next(pending, FailReset(|s.requests|));
  }

  /**
   And that can happen after any run, to any two users: the call of a reset fails before the reset has run,
   the request lists the dialog, a message arrives, and the reset clears it.
   */
  lemma HidingHappens(s: State, user: string, partner: string) returns (t: State)
    requires Reachable(s)
    ensures Reachable(t) && Unseen(t, |s.requests|)
    ensures t.requests[|s.requests|].user == user && t.requests[|s.requests|].partner == partner
  {
    var r := |s.requests|;
    var before :| Run(INIT, before) == Some(s);
    var steps, failed := CallFails(before, s, user, partner);
    ReachableReading(failed);
    var more, u := LateResetHides(failed, r);
    RunAppend(INIT, steps, more);
    SameRequest(failed, more, r);
    t := u;
  }

  lemma {:induction false} RunAppend(s: State, steps: seq<Step>, more: seq<Step>)
    requires Run(s, steps).Some?
    ensures Run(s, steps + more) == Run(Run(s, steps).value, more)
  {
    if more == [] {
      assert steps + more == steps;
    } else {
      var n := |more| - 1;
      assert (steps + more)[..|steps + more| - 1] == steps + more[..n];
      RunAppend(s, steps, more[..n]);
    }
  }

  lemma {:induction false} SameRequest(s: State, steps: seq<Step>, r: nat)
    requires Run(s, steps).Some? && r < |s.requests|
    ensures r < |Run(s, steps).value.requests|
    ensures Run(s, steps).value.requests[r].user == s.requests[r].user
    ensures Run(s, steps).value.requests[r].partner == s.requests[r].partner
  {
    if steps != [] {
      SameRequest(s, steps[..|steps| - 1], r);
      RequestKept(Run(s, steps[..|steps| - 1]).value, steps[|steps| - 1], r);
    }
  }

  lemma RequestKept(s: State, step: Step, r: nat)
    requires Enabled(s, step) && r < |s.requests|
    ensures r < |Next(s, step).requests|
    ensures Next(s, step).requests[r].user == s.requests[r].user
    ensures Next(s, step).requests[r].partner == s.requests[r].partner
  {
  }
}
