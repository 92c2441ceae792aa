/**
 The session registry of one application instance: a list of sessions per user. It holds weak pointers:
 a session is live while its handler holds it, and an entry whose session is gone is only swept when some
 session of the same user unsubscribes.
 */
module WsRegistry {
  import opened PostFeed

  type SessionMap = map<string, seq<nat>>

  /** The sessions that `Unsubscribe` keeps: the live ones other than its own. */
  function Kept(list: seq<nat>, live: set<nat>, session: nat): seq<nat> {
    if list == [] then []
    else
      Kept(list[..|list| - 1], live, session)
      + if list[|list| - 1] in live && list[|list| - 1] != session then [list[|list| - 1]] else []
  }

  function Unsubscribed(sessions: SessionMap, live: set<nat>, user: string, session: nat): SessionMap {
    if user !in sessions then sessions
    else if Kept(sessions[user], live, session) == [] then sessions - {user}
    else sessions[user := Kept(sessions[user], live, session)]
  }

  function Listed(sessions: SessionMap, user: string): seq<nat> {
    if user in sessions then sessions[user] else []
  }

  function SetOf(users: seq<string>): set<string> { set u | u in users }

  /** Every live session listed for one of the followers. */
  ghost function Audience(sessions: SessionMap, live: set<nat>, followers: set<string>): set<nat> {
    set u, s | u in sessions && u in followers && s in sessions[u] && s in live :: s
  }

  function LiveIn(list: seq<nat>, live: set<nat>): set<nat> { set s | s in list && s in live }

  /** One copy of `msg` at the end of each of the queues in `to`. */
  function Pushed(queues: map<nat, seq<Post>>, to: set<nat>, msg: Post): map<nat, seq<Post>> {
    map s | s in queues :: if s in to then queues[s] + [msg] else queues[s]
  }

  /** Lists are never empty, never repeat a session, and never share one; every listed session has a queue. */
  ghost predicate Registered(sessions: SessionMap, queues: map<nat, seq<Post>>) {
    && (forall u :: u in sessions ==> sessions[u] != [])
    && (forall u, i, j :: u in sessions && 0 <= i < j < |sessions[u]| ==> sessions[u][i] != sessions[u][j])
    && (forall u, v, s :: u in sessions && v in sessions && s in sessions[u] && s in sessions[v] ==> u == v)
    && (forall u, s :: u in sessions && s in sessions[u] ==> s in queues)
  }

  /** Only the list of `user` may have changed. */
  ghost predicate OthersSame(before: SessionMap, after: SessionMap, user: string) {
    forall u :: u != user ==> (u in after <==> u in before) && (u in before ==> after[u] == before[u])
  }

  /** `part` has its elements in the order of `whole`, without repetition. */
  ghost predicate InOrderOf(part: seq<nat>, whole: seq<nat>) {
    forall i, j, a, b ::
      0 <= i < j < |part| && 0 <= a < |whole| && 0 <= b < |whole| && part[i] == whole[a] && part[j] == whole[b] ==> a < b
  }

  /**
   The list of `user` has exactly the live sessions it had other than `session`, in their order, and it is
   gone if there are none; nothing else has changed.
   */
  ghost predicate OnlyRemoved(before: SessionMap, after: SessionMap, live: set<nat>, user: string, session: nat) {
    && (forall s :: s in Listed(after, user) <==> s in Listed(before, user) && s in live && s != session)
    && InOrderOf(Listed(after, user), Listed(before, user))
    && (user in after <==> exists s :: s in Listed(before, user) && s in live && s != session)
    && OthersSame(before, after, user)
  }

  /** One copy at the end of the queue of each live session listed for a follower, and nothing else. */
  ghost predicate OnlyPushed(before: map<nat, seq<Post>>, after: map<nat, seq<Post>>, sessions: SessionMap,
                             live: set<nat>, friends: set<(string, string)>, p: Post)
  {
    && (forall s :: s in after <==> s in before)
    && (forall s :: s in after ==> (s in before && after[s] == before[s] +
          if s in live && exists u :: u in sessions && s in sessions[u] && (u, p.author) in friends then [p] else []))
  }

  lemma PushedIsOnlyPushed(queues: map<nat, seq<Post>>, sessions: SessionMap, live: set<nat>,
                           friends: set<(string, string)>, p: Post)
    ensures OnlyPushed(queues, Pushed(queues, Audience(sessions, live, FollowersOf(friends, p.author)), p),
                       sessions, live, friends, p)
  {
  }

  lemma AudienceOfNone(sessions: SessionMap, live: set<nat>)
    ensures Audience(sessions, live, {}) == {}
  {
  }

  lemma PushedTwice(queues: map<nat, seq<Post>>, sessions: SessionMap, live: set<nat>, told: set<string>, f: string, msg: Post)
    requires Registered(sessions, queues) && f in sessions && f !in told
    ensures Pushed(Pushed(queues, Audience(sessions, live, told), msg), LiveIn(sessions[f], live), msg)
         == Pushed(queues, Audience(sessions, live, told + {f}), msg)
  {
    var before, now := Audience(sessions, live, told), LiveIn(sessions[f], live);
    assert before !! now;
    assert Audience(sessions, live, told + {f}) == before + now;
  }
}
