/**
 `PostFeedWsManager` as a class that changes its map and the session queues in place. Each method is
 proved to make exactly one step of the instance in `WsDelivery`; the ghost fields are the part of that
 state which the program does not store.
 */
module PostFeedWs {
  import opened PostFeed
  import opened WsRegistry
  import W = WsDelivery

  class WsManager {
    var sessions: SessionMap
    var live: set<nat>                 // sessions with an owner besides the registry
    var queues: map<nat, seq<Post>>    // what has been pushed to each session
    var nextSession: nat
    ghost var owner: map<nat, string>
    ghost var open: set<nat>
    ghost var log: seq<W.Notice>
    ghost var since: map<nat, nat>

    ghost function View(): W.Instance
      reads this
    {
      W.Instance(sessions, live, queues, nextSession, owner, open, log, since)
    }

    ghost predicate Valid()
      reads this
    {
      W.Sound(View())
    }

    constructor ()
      ensures Valid() && View() == W.EMPTY
    {
      sessions, live, queues, nextSession := map[], {}, map[], 0;
      owner, open, log, since := map[], {}, [], map[];
    }

    /** `Subscribe` */
    method Subscribe(userId: string) returns (session: nat)
      requires Valid()
      modifies this
      ensures Valid() && View() == W.Next(old(View()), W.Subscribe(userId))
      ensures session == old(nextSession) && session !in old(queues)
      ensures Listed(sessions, userId) == Listed(old(sessions), userId) + [session]
      ensures OthersSame(old(sessions), sessions, userId)
      ensures live == old(live) + {session} && queues == old(queues)[session := []]
    {
      W.SoundSubscribe(View(), userId);
      session := Append(userId);
    }

    method Append(userId: string) returns (session: nat)
      modifies this
      ensures View() == W.Next(old(View()), W.Subscribe(userId)) && session == old(nextSession)
      ensures Listed(sessions, userId) == Listed(old(sessions), userId) + [session]
      ensures OthersSame(old(sessions), sessions, userId)
      ensures live == old(live) + {session} && queues == old(queues)[session := []]
    {
      session := nextSession;
      nextSession := nextSession + 1;
      live := live + {session};
      queues := queues[session := []];
      var list := if userId in sessions then sessions[userId] else [];
      sessions := sessions[userId := list + [session]];
      owner, open, since := owner[session := userId], open + {session}, since[session := |log|];
    }

    /** `Unsubscribe`, whoever calls it: erase-remove, then drop the user's entry when nothing is left. */
    method Unsubscribe(userId: string, session: nat)
      requires Valid()
      modifies this`sessions, this`open
      ensures Valid() && View() == W.Next(old(View()), W.Unsubscribe(userId, session))
      ensures OnlyRemoved(old(sessions), sessions, live, userId, session)
      ensures open == old(open) - if session in owner && owner[session] == userId then {session} else {}
    {
      W.SoundUnsubscribe(View(), userId, session);
      W.UnsubscribedOnlyRemoves(sessions, live, userId, session);
      Sweep(userId, session);
      open := if session in owner && owner[session] == userId then open - {session} else open;
    }

    method Sweep(userId: string, session: nat)
      modifies this`sessions
      ensures sessions == Unsubscribed(old(sessions), live, userId, session)
    {
      if userId !in sessions {
        return;
      }
      var list := sessions[userId];
      var kept := [];
      for n := 0 to |list|
        invariant kept == Kept(list[..n], live, session)
        invariant sessions == old(sessions)
      {
        assert list[..n + 1][..n] == list[..n];
        if list[n] in live && list[n] != session {
          kept := kept + [list[n]];
        }
      }
      assert list[..|list|] == list;
      sessions := sessions[userId := kept];
      if kept == [] {
        sessions := sessions - {userId};
      }
    }

    /** The handler of a session ends and lets go of it. */
    method Release(session: nat)
      requires Valid()
      modifies this`live
      ensures Valid() && View() == W.Next(old(View()), W.Expire(session))
      ensures live == old(live) - {session}
    {
      W.SoundExpire(View(), session);
      live := live - {session};
    }

    /** The sessions in one follower's list, one after another. */
    method PushAll(list: seq<nat>, msg: Post)
      requires forall i, j :: 0 <= i < j < |list| ==> list[i] != list[j]
      requires forall s :: s in list ==> s in queues
      modifies this`queues
      ensures queues == Pushed(old(queues), LiveIn(list, live), msg)
    {
      ghost var done: set<nat> := {};
      for n := 0 to |list|
        invariant forall k :: 0 <= k < |list| ==> (list[k] in done <==> k < n && list[k] in live)
        invariant forall s :: s in done ==> s in list
        invariant queues == Pushed(old(queues), done, msg)
      {
        if list[n] in live {
          queues := queues[list[n] := queues[list[n]] + [msg]];
          done := done + {list[n]};
        }
      }
      assert done == LiveIn(list, live);
    }

    /** `NotifyFollowers`: to the followers of this moment, one after another. */
    method NotifyFollowers(friendships: set<(string, string)>, authorId: string, postId: nat, text: string)
      requires Valid()
      modifies this`queues, this`log
      ensures Valid()
      ensures View() ==
        W.Next(old(View()), W.Notify(W.Notice(FollowersOf(friendships, authorId), Post(postId, authorId, text))))
      ensures OnlyPushed(old(queues), queues, sessions, live, friendships, Post(postId, authorId, text))
    {
      PushedIsOnlyPushed(queues, sessions, live, friendships, Post(postId, authorId, text));
      ghost var notice := W.Notice(FollowersOf(friendships, authorId), Post(postId, authorId, text));
      W.SoundNotify(View(), notice);
      var followers := SelectFollowers(friendships, authorId);
      assert SetOf(followers) == notice.followers;
      PushToFollowers(followers, Post(postId, authorId, text));
      log := log + [notice];
    }

    /** The loop of `NotifyFollowers` */
    method PushToFollowers(followers: seq<string>, msg: Post)
      requires Registered(sessions, queues)
      requires forall i, j :: 0 <= i < j < |followers| ==> followers[i] != followers[j]
      modifies this`queues
      ensures queues == Pushed(old(queues), Audience(sessions, live, SetOf(followers)), msg)
    {
      ghost var told: set<string> := {};
      AudienceOfNone(sessions, live);
      for n := 0 to |followers|
        invariant forall k :: 0 <= k < |followers| ==> (followers[k] in told <==> k < n)
        invariant told <= SetOf(followers)
        invariant queues == Pushed(old(queues), Audience(sessions, live, told), msg)
      {
        var f := followers[n];
        if f in sessions {
          PushAll(sessions[f], msg);
          PushedTwice(old(queues), sessions, live, told, f, msg);
        } else {
          assert Audience(sessions, live, told + {f}) == Audience(sessions, live, told);
        }
        told := told + {f};
      }
      assert told == SetOf(followers);
    }
  }
}
