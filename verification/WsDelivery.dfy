/** What each session hears over a whole run of one instance. */
module WsDelivery {
  import opened PostFeed
  import opened Order
  import opened WsRegistry

  /** A fan-out message as the instance processed it, with the followers of that moment. */
  datatype Notice = Notice(followers: set<string>, msg: Post)

  datatype Instance = Instance(
    sessions: SessionMap,
    live: set<nat>,
    queues: map<nat, seq<Post>>,
    nextSession: nat,
    owner: map<nat, string>,    // who subscribed a session
    open: set<nat>,             // subscribed and not unsubscribed
    log: seq<Notice>,           // the messages processed so far
    since: map<nat, nat>)       // how many there were when a session subscribed

  datatype Step =
    | Subscribe(user: string)
    | Unsubscribe(user: string, session: nat)
    | Expire(session: nat)      // the handler lets go of it, whether or not it has unsubscribed
    | Notify(notice: Notice)

  const EMPTY := Instance(map[], {}, map[], 0, map[], {}, [], map[])

  ghost function Next(w: Instance, step: Step): Instance {
    match step
    case Subscribe(user) =>
      var id := w.nextSession;
      Instance(w.sessions[user := Listed(w.sessions, user) + [id]], w.live + {id}, w.queues[id := []], id + 1,
               w.owner[id := user], w.open + {id}, w.log, w.since[id := |w.log|])
    case Unsubscribe(user, session) =>
      w.(sessions := Unsubscribed(w.sessions, w.live, user, session),
         open := if session in w.owner && w.owner[session] == user then w.open - {session} else w.open)
    case Expire(session) => w.(live := w.live - {session})
    case Notify(notice) =>
      w.(queues := Pushed(w.queues, Audience(w.sessions, w.live, notice.followers), notice.msg),
         log := w.log + [notice])
  }

  ghost function Run(steps: seq<Step>): Instance {
    if steps == [] then EMPTY else Next(Run(steps[..|steps| - 1]), steps[|steps| - 1])
  }

  /** The messages of a stretch of the log that are meant for `user`. */
  function Heard(log: seq<Notice>, user: string): seq<Post> {
    if log == [] then []
    else Heard(log[..|log| - 1], user) + if user in log[|log| - 1].followers then [log[|log| - 1].msg] else []
  }

  /** A listed session is open and in its owner's list. */
  ghost predicate Owned(w: Instance) {
    forall u, s :: u in w.sessions && s in w.sessions[u] ==> s in w.open && s in w.owner && w.owner[s] == u
  }

  /** An open live session is listed, and its queue holds what its owner should have heard since. */
  ghost predicate Served(w: Instance, s: nat) {
    && s in w.owner && s in w.queues && s in w.since && w.since[s] <= |w.log|
    && s in Listed(w.sessions, w.owner[s])
    && w.queues[s] == Heard(w.log[w.since[s]..], w.owner[s])
  }

  ghost predicate Numbered(w: Instance) {
    && (forall s :: s in w.open || s in w.owner || s in w.queues || s in w.since ==> s < w.nextSession)
  }

  ghost predicate Sound(w: Instance) {
    && Registered(w.sessions, w.queues)
    && Owned(w) && Numbered(w)
    && (forall s :: s in w.open && s in w.live ==> Served(w, s))
  }

  lemma {:induction false} KeptMembers(list: seq<nat>, live: set<nat>, session: nat)
    ensures forall s :: s in Kept(list, live, session) <==> s in list && s in live && s != session
    ensures (forall i, j :: 0 <= i < j < |list| ==> list[i] != list[j]) ==>
      forall i, j :: 0 <= i < j < |Kept(list, live, session)| ==>
        Kept(list, live, session)[i] != Kept(list, live, session)[j]
  {
    if list != [] {
      KeptMembers(list[..|list| - 1], live, session);
      assert list == list[..|list| - 1] + [list[|list| - 1]];
    }
  }

  lemma HeardMore(log: seq<Notice>, notice: Notice, from: nat, user: string)
    requires from <= |log|
    ensures Heard((log + [notice])[from..], user) ==
      Heard(log[from..], user) + if user in notice.followers then [notice.msg] else []
  {
    assert (log + [notice])[from..] == log[from..] + [notice];
    assert (log[from..] + [notice])[..|log| - from] == log[from..];
  }

  lemma RegisteredSubscribe(w: Instance, user: string)
    requires Sound(w)
    ensures Registered(Next(w, Subscribe(user)).sessions, Next(w, Subscribe(user)).queues)
  {
  }

  lemma OwnedSubscribe(w: Instance, user: string)
    requires Sound(w)
    ensures Owned(Next(w, Subscribe(user))) && Numbered(Next(w, Subscribe(user)))
  {
  }

  lemma {:induction false} SoundSubscribe(w: Instance, user: string)
    requires Sound(w)
    ensures Sound(Next(w, Subscribe(user)))
  {
    var t := Next(w, Subscribe(user));
    RegisteredSubscribe(w, user);
    OwnedSubscribe(w, user);
    forall s | s in t.open && s in t.live ensures Served(t, s) {
      if s == w.nextSession {
        assert t.log[t.since[s]..] == [];
      } else {
        assert Served(w, s);
      }
    }
  }

  lemma RegisteredUnsubscribe(w: Instance, user: string, session: nat)
    requires Registered(w.sessions, w.queues)
    ensures Registered(Unsubscribed(w.sessions, w.live, user, session), w.queues)
  {
    KeptMembers(Listed(w.sessions, user), w.live, session);
  }

  lemma OwnedUnsubscribe(w: Instance, user: string, session: nat)
    requires Sound(w)
    ensures Owned(Next(w, Unsubscribe(user, session))) && Numbered(Next(w, Unsubscribe(user, session)))
  {
    KeptMembers(Listed(w.sessions, user), w.live, session);
  }

  lemma ServedUnsubscribe(w: Instance, user: string, session: nat, s: nat)
    requires Sound(w) && s in Next(w, Unsubscribe(user, session)).open && s in w.live
    ensures Served(Next(w, Unsubscribe(user, session)), s)
  {
    assert Served(w, s);
    KeptMembers(Listed(w.sessions, user), w.live, session);
  }

  lemma SoundUnsubscribe(w: Instance, user: string, session: nat)
    requires Sound(w)
    ensures Sound(Next(w, Unsubscribe(user, session)))
  {
    var t := Next(w, Unsubscribe(user, session));
    RegisteredUnsubscribe(w, user, session);
    OwnedUnsubscribe(w, user, session);
    forall s | s in t.open && s in t.live ensures Served(t, s) {
      ServedUnsubscribe(w, user, session, s);
    }
  }

  /** One message reaches exactly the open live sessions of followers, once each. */
  lemma NotifyReaches(w: Instance, notice: Notice, s: nat)
    requires Sound(w) && s in w.queues
    ensures s in Next(w, Notify(notice)).queues
    ensures Next(w, Notify(notice)).queues[s] == w.queues[s] +
      if s in w.open && s in w.live && w.owner[s] in notice.followers then [notice.msg]
      else []
  {
    if s in w.open && s in w.live {
      assert Served(w, s);
    }
  }

  lemma SoundNotify(w: Instance, notice: Notice)
    requires Sound(w)
    ensures Sound(Next(w, Notify(notice)))
  {
    var t := Next(w, Notify(notice));
    forall s | s in t.open && s in t.live ensures Served(t, s) {
      assert Served(w, s);
      NotifyReaches(w, notice, s);
      HeardMore(w.log, notice, w.since[s], w.owner[s]);
    }
  }

  lemma SoundExpire(w: Instance, session: nat)
    requires Sound(w)
    ensures Sound(Next(w, Expire(session)))
  {
    forall s | s in w.open && s in w.live && s != session
      ensures Served(Next(w, Expire(session)), s)
    {
      assert Served(w, s);
    }
  }

  lemma SoundStep(w: Instance, step: Step)
    requires Sound(w)
    ensures Sound(Next(w, step))
  {
    match step
    case Subscribe(user) => SoundSubscribe(w, user);
    case Unsubscribe(user, session) => SoundUnsubscribe(w, user, session);
    case Expire(session) => SoundExpire(w, session);
    case Notify(notice) => SoundNotify(w, notice);
  }

  lemma {:induction false} SoundRun(steps: seq<Step>)
    ensures Sound(Run(steps))
  {
    if steps != [] {
      SoundRun(steps[..|steps| - 1]);
      SoundStep(Run(steps[..|steps| - 1]), steps[|steps| - 1]);
    }
  }

  /**
   In every run no user has an empty list; a subscribed live session is listed exactly once, under its
   own user; and its queue holds, in order and once each, exactly the messages processed since it
   subscribed whose author its user then followed.
   */
  lemma SessionHearsItsMessages(steps: seq<Step>, s: nat)
    requires s in Run(steps).open && s in Run(steps).live
    ensures var w := Run(steps);
      && (forall u :: u in w.sessions ==> w.sessions[u] != [])
      && s in w.owner && s in w.queues && s in w.since && w.since[s] <= |w.log|
      && w.queues[s] == Heard(w.log[w.since[s]..], w.owner[s])
      && (exists i :: 0 <= i < |Listed(w.sessions, w.owner[s])| && Listed(w.sessions, w.owner[s])[i] == s
            && forall u, j :: u in w.sessions && 0 <= j < |w.sessions[u]| && w.sessions[u][j] == s ==>
                 u == w.owner[s] && j == i)
  {
    SoundRun(steps);
    var w := Run(steps);
    assert Served(w, s);
    var i :| 0 <= i < |Listed(w.sessions, w.owner[s])| && Listed(w.sessions, w.owner[s])[i] == s;
    forall u, j | u in w.sessions && 0 <= j < |w.sessions[u]| && w.sessions[u][j] == s
      ensures u == w.owner[s] && j == i
    {
      assert s in w.sessions[u];
    }
  }

  /** `Unsubscribe` takes out one session and the dead ones; the others stay, in their order. */
  lemma {:induction false} KeptInOrder(list: seq<nat>, live: set<nat>, session: nat, i: nat, j: nat)
    returns (k: nat, m: nat)
    requires i < j < |list|
    requires list[i] in live && list[i] != session && list[j] in live && list[j] != session
    ensures k < m < |Kept(list, live, session)|
    ensures Kept(list, live, session)[k] == list[i] && Kept(list, live, session)[m] == list[j]
  {
    var n := |list| - 1;
    if j < n {
      k, m := KeptInOrder(list[..n], live, session, i, j);
    } else {
      k := KeptAt(list[..n], live, session, i);
      m := |Kept(list[..n], live, session)|;
    }
  }

  lemma {:induction false} KeptAt(list: seq<nat>, live: set<nat>, session: nat, i: nat) returns (k: nat)
    requires i < |list| && list[i] in live && list[i] != session
    ensures k < |Kept(list, live, session)| && Kept(list, live, session)[k] == list[i]
  {
    var n := |list| - 1;
    if i < n {
      k := KeptAt(list[..n], live, session, i);
    } else {
      k := |Kept(list[..n], live, session)|;
    }
  }

  /* ---- Who has unsubscribed is gone ---- */

  lemma {:induction false} KeptPositions(list: seq<nat>, live: set<nat>, session: nat) returns (at: seq<nat>)
    ensures Positions(at, list, Kept(list, live, session))
  {
    at := [];
    if list != [] {
      var front, last := list[..|list| - 1], list[|list| - 1];
      at := KeptPositions(front, live, session);
      PositionsMore(at, front, Kept(front, live, session), last);
      assert list == front + [last];
      at := at + if last in live && last != session then [|front|] else [];
    }
  }

  lemma KeptInOrderOf(list: seq<nat>, live: set<nat>, session: nat)
    requires forall i, j :: 0 <= i < j < |list| ==> list[i] != list[j]
    ensures InOrderOf(Kept(list, live, session), list)
  {
    var kept := Kept(list, live, session);
    var at := KeptPositions(list, live, session);
    forall i, j, a, b | 0 <= i < j < |kept| && 0 <= a < |list| && 0 <= b < |list| && kept[i] == list[a] && kept[j] == list[b]
      ensures a < b
    {
      assert a == at[i] && b == at[j];
    }
  }

  lemma UnsubscribedOnlyRemoves(sessions: SessionMap, live: set<nat>, user: string, session: nat)
    requires user in sessions ==> forall i, j :: 0 <= i < j < |sessions[user]| ==> sessions[user][i] != sessions[user][j]
    ensures OnlyRemoved(sessions, Unsubscribed(sessions, live, user, session), live, user, session)
  {
    if user in sessions {
      KeptMembers(sessions[user], live, session);
      KeptInOrderOf(sessions[user], live, session);
      var kept := Kept(sessions[user], live, session);
      if kept != [] {
        assert kept[0] in kept;
      }
    }
  }

  /** What `Unsubscribe` does: the session and the dead ones leave the user's list, nobody else is touched. */
  lemma UnsubscribeRemoves(w: Instance, user: string, session: nat)
    requires Sound(w)
    ensures var t := Next(w, Unsubscribe(user, session));
      && OnlyRemoved(w.sessions, t.sessions, w.live, user, session)
      && t.queues == w.queues && t.live == w.live && t.log == w.log && t.owner == w.owner
      && (forall s :: s in t.open <==> s in w.open && !(s == session && s in w.owner && w.owner[s] == user))
  {
    UnsubscribedOnlyRemoves(w.sessions, w.live, user, session);
  }

  /** A session that exists and is not open: it has unsubscribed. */
  ghost predicate Gone(w: Instance, s: nat) { s < w.nextSession && s !in w.open && s in w.queues }

  lemma GoneStep(w: Instance, step: Step, s: nat)
    requires Sound(w) && Gone(w, s)
    ensures Gone(Next(w, step), s) && Next(w, step).queues[s] == w.queues[s]
  {
    match step
    case Notify(notice) => NotifyReaches(w, notice, s);
    case _ =>
  }

  lemma {:induction false} GoneRun(steps: seq<Step>, more: seq<Step>, s: nat)
    requires Gone(Run(steps), s)
    ensures Gone(Run(steps + more), s) && Run(steps + more).queues[s] == Run(steps).queues[s]
  {
    if more == [] {
      assert steps + more == steps;
    } else {
      var n := |more| - 1;
      assert (steps + more)[..|steps + more| - 1] == steps + more[..n];
      GoneRun(steps, more[..n], s);
      SoundRun(steps + more[..n]);
      GoneStep(Run(steps + more[..n]), more[n], s);
    }
  }

  /** Once its owner has unsubscribed a session, it is never told of anything again, whatever happens. */
  lemma {:induction false} UnsubscribedHearsNothing(steps: seq<Step>, user: string, s: nat, more: seq<Step>)
    requires s in Run(steps).owner && Run(steps).owner[s] == user && s in Run(steps).queues
    ensures s in Run(steps + [Unsubscribe(user, s)] + more).queues
    ensures Run(steps + [Unsubscribe(user, s)] + more).queues[s] == Run(steps).queues[s]
  {
    SoundRun(steps);
    var gone := steps + [Unsubscribe(user, s)];
    assert gone[..|steps|] == steps;
    UnsubscribeRemoves(Run(steps), user, s);
    GoneRun(gone, more, s);
  }

  /** So is a session whose handler has let go of it. */
  lemma ExpiredIsNotTold(w: Instance, s: nat, notice: Notice)
    requires Sound(w) && s in w.queues
    ensures s in Next(Next(w, Expire(s)), Notify(notice)).queues
    ensures Next(Next(w, Expire(s)), Notify(notice)).queues[s] == w.queues[s]
  {
    SoundExpire(w, s);
    NotifyReaches(Next(w, Expire(s)), notice, s);
  }

  /** `at` lists, in order, the positions in the log of what `user` hears. */
  ghost predicate HeardAt(at: seq<nat>, log: seq<Notice>, user: string, heard: seq<Post>) {
    && |at| == |heard|
    && (forall i :: 0 <= i < |at| ==> at[i] < |log| && user in log[at[i]].followers && heard[i] == log[at[i]].msg)
    && (forall i, j :: 0 <= i < j < |at| ==> at[i] < at[j])
    && (forall k :: 0 <= k < |log| && user in log[k].followers ==> k in at)
  }

  lemma HeardAtMore(at: seq<nat>, log: seq<Notice>, user: string, heard: seq<Post>, notice: Notice)
    requires HeardAt(at, log, user, heard)
    ensures if user in notice.followers then HeardAt(at + [|log|], log + [notice], user, heard + [notice.msg])
            else HeardAt(at, log + [notice], user, heard)
  {
  }

  /** The messages meant for a user are in the order of the log, one for each. */
  lemma {:induction false} HeardInOrder(log: seq<Notice>, user: string) returns (at: seq<nat>)
    ensures HeardAt(at, log, user, Heard(log, user))
  {
    at := [];
    if log != [] {
      var front, last := log[..|log| - 1], log[|log| - 1];
      at := HeardInOrder(front, user);
      HeardAtMore(at, front, user, Heard(front, user), last);
      assert log == front + [last];
      at := at + if user in last.followers then [|front|] else [];
    }
  }
}
