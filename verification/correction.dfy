/** remove_user as its design evidently intends it: the user leaves its
    channel's member map too. The source keeps the original channels map
    when the channel still has members, so the departing user stays listed
    (Invariants.RemovedUserStaysListed shows the consequence). Here the
    updated channel is stored back, and a stronger invariant holds: every
    listed member is a live session. */
module Correction {
  import opened Errors
  import opened Messages
  import opened Channels
  import opened Invariants
  import States
  import Reducer

  type AppState = States.AppState

  /** Unregisters the user of `sessionId` and drops it from its channel,
      deleting the channel when no member remains. */
  function RemoveUserCorrected(s: AppState, sessionId: string): (r: Result<AppState>)
    ensures sessionId !in s.users ==> r == Err(UserNotFound)
    ensures sessionId in s.users && s.users[sessionId].channelName !in s.channels ==> r == Err(KeyError)
    ensures sessionId in s.users && s.users[sessionId].channelName in s.channels
            && s.users[sessionId].name !in s.channels[s.users[sessionId].channelName].users
            ==> r == Err(UserNotFound)
    ensures r.Ok? ==>
      && sessionId in s.users
      && s.users[sessionId].channelName in s.channels
      && s.users[sessionId].name in s.channels[s.users[sessionId].channelName].users
    ensures r.Ok? ==> r.value.users.Keys == s.users.Keys - {sessionId}
    ensures r.Ok? ==> forall k :: k in r.value.users ==> r.value.users[k] == s.users[k]
    ensures r.Ok? ==>
      var u := s.users[sessionId];
      && (forall c :: c in s.channels && c != u.channelName ==> c in r.value.channels && r.value.channels[c] == s.channels[c])
      && (u.channelName in r.value.channels <==> s.channels[u.channelName].users.Keys != {u.name})
      && r.value.channels.Keys <= s.channels.Keys
      && (u.channelName in r.value.channels ==>
            var before := s.channels[u.channelName];
            var after := r.value.channels[u.channelName];
            && after.name == before.name
            && after.messages == before.messages
            && after.users.Keys == before.users.Keys - {u.name}
            && forall n :: n in after.users ==> after.users[n] == before.users[n])
  {
    var user :- States.GetUser(s, sessionId);
    var users := s.users - {sessionId};
    if user.channelName !in s.channels then
      Err(KeyError)
    else
      var channel :- DelUser(s.channels[user.channelName], user.name);
      var channels :=
        if |channel.users| == 0 then s.channels - {user.channelName}
        else s.channels[user.channelName := channel];
      Ok(States.AppState(channels, users))
  }

  /** Every listed member of every channel is the user of a live session. */
  predicate NoStaleMembers(s: AppState) {
    forall c, n :: c in s.channels && n in s.channels[c].users ==>
      var m := s.channels[c].users[n];
      m.sessionId in s.users && s.users[m.sessionId] == m
  }

  /** The invariant of the corrected model. */
  predicate Tidy(s: AppState) {
    Valid(s) && NoStaleMembers(s)
  }

  /** With the correction, a departing user is no longer listed anywhere
      and its name is free again in its channel. */
  lemma CorrectedRemovalFreesName(s: AppState, sessionId: string, freshSession: string, color: ColorId)
    requires Valid(s)
    requires sessionId in s.users
    requires freshSession !in s.users || freshSession == sessionId
    ensures RemoveUserCorrected(s, sessionId).Ok?
    ensures
      var u := s.users[sessionId];
      var t := RemoveUserCorrected(s, sessionId).value;
      && (u.channelName in t.channels ==> u.name !in t.channels[u.channelName].users)
      && States.AddUser(t, UserData(freshSession, u.name, u.channelName), color).Ok?
  {
    assert Seated(s, sessionId);
  }

  lemma CorrectedRemovalPreservesTidy(s: AppState, sessionId: string)
    requires Tidy(s)
    ensures RemoveUserCorrected(s, sessionId).Ok? ==> Tidy(RemoveUserCorrected(s, sessionId).value)
  {
    var r := RemoveUserCorrected(s, sessionId);
    if r.Ok? {
      CorrectedRemovalKeepsSeated(s, sessionId, r.value);
      CorrectedRemovalKeepsKeys(s, sessionId, r.value);
      CorrectedRemovalKeepsMembers(s, sessionId, r.value);
      CorrectedRemovalLeavesNoStale(s, sessionId, r.value);
    }
  }

  lemma CorrectedRemovalKeepsSeated(s: AppState, sessionId: string, t: AppState)
    requires Tidy(s)
    requires RemoveUserCorrected(s, sessionId) == Ok(t)
    ensures UsersSeated(t)
  {
    var u := s.users[sessionId];
    forall sid | sid in t.users
      ensures Seated(t, sid)
    {
      assert Seated(s, sid);
      var v := s.users[sid];
      if v.channelName == u.channelName && v.name == u.name {
        SeatsAreUnique(s, sid, sessionId);
      }
      if v.channelName == u.channelName {
        assert v.name in s.channels[u.channelName].users.Keys - {u.name};
      }
    }
  }

  lemma CorrectedRemovalKeepsKeys(s: AppState, sessionId: string, t: AppState)
    requires Tidy(s)
    requires RemoveUserCorrected(s, sessionId) == Ok(t)
    ensures WellKeyed(t)
  {
    var u := s.users[sessionId];
    forall c | c in t.channels
      ensures t.channels[c].name == c
    {
      assert c in s.channels;
    }
    forall c, n | c in t.channels && n in t.channels[c].users
      ensures t.channels[c].users[n].name == n && t.channels[c].users[n].channelName == c
    {
      assert c in s.channels;
      if c == u.channelName {
        assert n in s.channels[c].users && t.channels[c].users[n] == s.channels[c].users[n];
      } else {
        assert t.channels[c] == s.channels[c];
      }
    }
  }

  lemma CorrectedRemovalKeepsMembers(s: AppState, sessionId: string, t: AppState)
    requires Tidy(s)
    requires RemoveUserCorrected(s, sessionId) == Ok(t)
    ensures NoEmptyChannels(t)
  {
    var u := s.users[sessionId];
    forall c | c in t.channels
      ensures |t.channels[c].users| > 0
    {
      if c == u.channelName {
        var before := s.channels[c].users.Keys;
        assert before != {u.name};
        assert u.name in before;
        var other :| other in before && other != u.name;
        assert other in t.channels[c].users;
      }
    }
  }

  lemma CorrectedRemovalLeavesNoStale(s: AppState, sessionId: string, t: AppState)
    requires Tidy(s)
    requires RemoveUserCorrected(s, sessionId) == Ok(t)
    ensures NoStaleMembers(t)
  {
    var u := s.users[sessionId];
    CorrectedRemovalShrinks(s, sessionId, t);
    forall c, n | c in t.channels && n in t.channels[c].users
      ensures t.channels[c].users[n].sessionId in t.users
      ensures t.users[t.channels[c].users[n].sessionId] == t.channels[c].users[n]
    {
      var m := t.channels[c].users[n];
      assert m == s.channels[c].users[n];
      assert m.sessionId != sessionId by {
        assert m.name == n && m.channelName == c;
      }
    }
  }

  /** Each channel after the repaired remove lists a subset of the members
      it listed before, never the departing user, and the users map only
      loses the departing session. */
  lemma CorrectedRemovalShrinks(s: AppState, sessionId: string, t: AppState)
    requires Valid(s)
    requires RemoveUserCorrected(s, sessionId) == Ok(t)
    ensures t.users == s.users - {sessionId}
    ensures forall c, n :: c in t.channels && n in t.channels[c].users ==>
      && c in s.channels
      && n in s.channels[c].users
      && t.channels[c].users[n] == s.channels[c].users[n]
      && s.channels[c].users[n] != s.users[sessionId]
  {
    var u := s.users[sessionId];
    assert Seated(s, sessionId);
    var channel := s.channels[u.channelName].(users := s.channels[u.channelName].users - {u.name});
    assert t.channels == if |channel.users| == 0 then s.channels - {u.channelName} else s.channels[u.channelName := channel];
  }

  lemma AddUserPreservesTidy(s: AppState, data: UserData, color: ColorId)
    requires Tidy(s)
    ensures States.AddUser(s, data, color).Ok? ==> Tidy(States.AddUser(s, data, color).value)
  {
    AddUserPreservesValid(s, data, color);
    var r := States.AddUser(s, data, color);
    if r.Ok? {
      var t := r.value;
      forall c, n | c in t.channels && n in t.channels[c].users
        ensures t.channels[c].users[n].sessionId in t.users
        ensures t.users[t.channels[c].users[n].sessionId] == t.channels[c].users[n]
      {
        if c != data.channelName || n != data.name {
          assert n in s.channels[c].users;
        }
      }
    }
  }

  lemma AddMessagePreservesTidy(s: AppState, channelName: string, message: Message)
    requires Tidy(s)
    ensures States.AddMessage(s, channelName, message).Ok? ==> Tidy(States.AddMessage(s, channelName, message).value)
  {
    AddMessagePreservesValid(s, channelName, message);
  }

  /** The reducer with the corrected remove_user. */
  function ReduceCorrected(s: AppState, a: Reducer.Action, color: ColorId): (r: Result<AppState>)
    ensures !a.RemoveUser? ==> r == Reducer.Reduce(s, a, color)
    ensures a.RemoveUser? ==> r == RemoveUserCorrected(s, a.sessionId)
  {
    match a
    case RemoveUser(sessionId) => RemoveUserCorrected(s, sessionId)
    case _ => Reducer.Reduce(s, a, color)
  }

  /** The corrected reducer keeps the stronger invariant, and refuses the
      same actions with the same errors as the source's reducer. */
  lemma ReduceCorrectedPreservesTidy(s: AppState, a: Reducer.Action, color: ColorId)
    requires Tidy(s)
    ensures ReduceCorrected(s, a, color).Err? <==> Reducer.Refused(s, a)
    ensures ReduceCorrected(s, a, color).Err? ==> ReduceCorrected(s, a, color).error == Reducer.RefusalError(a)
    ensures ReduceCorrected(s, a, color).Ok? ==> Tidy(ReduceCorrected(s, a, color).value)
  {
    Reducer.ReduceFailsExactlyWhenRefused(s, a, color);
    match a
    case AddMessage(channelName, message) =>
      AddMessagePreservesTidy(s, channelName, message);
    case AddUser(data) =>
      AddUserPreservesTidy(s, data, color);
    case RemoveUser(sessionId) =>
      if sessionId in s.users {
        assert Seated(s, sessionId);
      }
      CorrectedRemovalPreservesTidy(s, sessionId);
  }
}
