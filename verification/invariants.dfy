/** The invariants of the application state and their preservation by every
    transition. */
module Invariants {
  import opened Errors
  import opened Messages
  import opened Channels
  import opened States

  /** The user of `sessionId` carries that session id, its channel exists,
      and the channel lists this very user under the user's name. */
  predicate Seated(s: AppState, sessionId: string)
    requires sessionId in s.users
  {
    var u := s.users[sessionId];
    && u.sessionId == sessionId
    && u.channelName in s.channels
    && u.name in s.channels[u.channelName].users
    && s.channels[u.channelName].users[u.name] == u
  }

  /** Every registered session is seated in its channel. */
  predicate UsersSeated(s: AppState) {
    forall sid :: sid in s.users ==> Seated(s, sid)
  }

  /** No channel is left without members. */
  predicate NoEmptyChannels(s: AppState) {
    forall c :: c in s.channels ==> |s.channels[c].users| > 0
  }

  /** Channels are keyed by their own name, and members by their own name,
      and a member names the channel it is listed in. */
  predicate WellKeyed(s: AppState) {
    && (forall c :: c in s.channels ==> s.channels[c].name == c)
    && (forall c, n :: c in s.channels && n in s.channels[c].users ==>
          s.channels[c].users[n].name == n && s.channels[c].users[n].channelName == c)
  }

  /** The invariant every reachable state keeps. */
  predicate Valid(s: AppState) {
    UsersSeated(s) && NoEmptyChannels(s) && WellKeyed(s)
  }

  /** Two sessions seated under the same name in the same channel are the
      same session: names are unique per channel among live sessions. */
  lemma SeatsAreUnique(s: AppState, a: string, b: string)
    requires UsersSeated(s)
    requires a in s.users && b in s.users
    requires s.users[a].channelName == s.users[b].channelName
    requires s.users[a].name == s.users[b].name
    ensures a == b
  {
    assert Seated(s, a) && Seated(s, b);
  }

  lemma EmptyIsValid()
    ensures Valid(Empty())
    ensures forall sid :: RemoveUser(Empty(), sid) == Err(UserNotFound)
    ensures forall c, m :: AddMessage(Empty(), c, m) == Err(ChannelNotFound)
  {
  }

  lemma AddMessagePreservesValid(s: AppState, channelName: string, message: Message)
    requires Valid(s)
    ensures AddMessage(s, channelName, message).Ok? ==> Valid(AddMessage(s, channelName, message).value)
  {
    var r := AddMessage(s, channelName, message);
    if r.Ok? {
      var t := r.value;
      forall sid | sid in t.users
        ensures Seated(t, sid)
      {
        assert Seated(s, sid);
      }
    }
  }

  lemma AddUserPreservesValid(s: AppState, data: UserData, color: ColorId)
    requires Valid(s)
    ensures AddUser(s, data, color).Ok? ==> Valid(AddUser(s, data, color).value)
  {
    var r := AddUser(s, data, color);
    if r.Ok? {
      AddUserKeepsSeated(s, data, color, r.value);
      AddUserKeepsMembers(s, data, color, r.value);
      AddUserKeepsKeys(s, data, color, r.value);
    }
  }

  lemma AddUserKeepsSeated(s: AppState, data: UserData, color: ColorId, t: AppState)
    requires Valid(s)
    requires AddUser(s, data, color) == Ok(t)
    ensures UsersSeated(t)
  {
    forall sid | sid in t.users
      ensures Seated(t, sid)
    {
      if sid != data.sessionId {
        assert Seated(s, sid);
        var u := s.users[sid];
        if u.channelName == data.channelName {
          assert u.name != data.name;
        }
      }
    }
  }

  lemma AddUserKeepsMembers(s: AppState, data: UserData, color: ColorId, t: AppState)
    requires Valid(s)
    requires AddUser(s, data, color) == Ok(t)
    ensures NoEmptyChannels(t)
  {
    forall c | c in t.channels
      ensures |t.channels[c].users| > 0
    {
      if c == data.channelName {
        HasMember(t.channels[c].users, data.name);
      } else {
        assert t.channels[c] == s.channels[c];
      }
    }
  }

  lemma AddUserKeepsKeys(s: AppState, data: UserData, color: ColorId, t: AppState)
    requires Valid(s)
    requires AddUser(s, data, color) == Ok(t)
    ensures WellKeyed(t)
  {
    forall c, n | c in t.channels && n in t.channels[c].users
      ensures t.channels[c].users[n].name == n && t.channels[c].users[n].channelName == c
    {
      if c == data.channelName && n != data.name {
        assert n in s.channels[c].users;
      }
    }
  }

  /** Removing a user keeps the invariant, although the user may stay listed
      in its channel: the listing is then stale, but no live session points
      at it. */
  lemma RemoveUserPreservesValid(s: AppState, sessionId: string)
    requires Valid(s)
    ensures RemoveUser(s, sessionId).Ok? ==> Valid(RemoveUser(s, sessionId).value)
  {
    var r := RemoveUser(s, sessionId);
    if r.Ok? {
      var t := r.value;
      var u := s.users[sessionId];
      forall sid | sid in t.users
        ensures Seated(t, sid)
      {
        assert Seated(s, sid);
        var v := s.users[sid];
        if v.channelName == u.channelName && v.name == u.name {
          SeatsAreUnique(s, sid, sessionId);
        }
        if v.channelName == u.channelName {
          assert v.name in s.channels[u.channelName].users.Keys - {u.name};
        }
      }
    }
  }

  /** On a valid state, remove_user fails exactly when the session is
      unknown, and then with UserNotFound. */
  lemma RemoveUserFailsIffAbsent(s: AppState, sessionId: string)
    requires Valid(s)
    ensures RemoveUser(s, sessionId).Err? <==> sessionId !in s.users
    ensures RemoveUser(s, sessionId).Err? ==> RemoveUser(s, sessionId).error == UserNotFound
  {
    if sessionId in s.users {
      assert Seated(s, sessionId);
    }
  }

  /** When other members remain, removing a user leaves it listed in its
      channel, so the name stays taken there: a later join under the same
      name and channel, even from a fresh session, is refused. */
  lemma RemovedUserStaysListed(s: AppState, sessionId: string, freshSession: string, color: ColorId)
    requires Valid(s)
    requires sessionId in s.users
    requires |s.channels[s.users[sessionId].channelName].users| > 1
    ensures RemoveUser(s, sessionId).Ok?
    ensures
      var u := s.users[sessionId];
      var t := RemoveUser(s, sessionId).value;
      && sessionId !in t.users
      && u.channelName in t.channels
      && u.name in t.channels[u.channelName].users
      && t.channels[u.channelName].users[u.name] == u
      && AddUser(t, UserData(freshSession, u.name, u.channelName), color) == Err(DuplicateUser)
  {
    assert Seated(s, sessionId);
    var u := s.users[sessionId];
    var members := s.channels[u.channelName].users.Keys;
    assert |{u.name}| == 1;
    assert members != {u.name};
  }

  /** When the departing user is the last member, its channel goes, and
      looking it up afterwards fails with ChannelNotFound. */
  lemma LastLeaveDeletesChannel(s: AppState, sessionId: string)
    requires Valid(s)
    requires sessionId in s.users
    requires |s.channels[s.users[sessionId].channelName].users| == 1
    ensures RemoveUser(s, sessionId).Ok?
    ensures s.users[sessionId].channelName !in RemoveUser(s, sessionId).value.channels
    ensures GetChannel(RemoveUser(s, sessionId).value, s.users[sessionId].channelName) == Err(ChannelNotFound)
  {
    assert Seated(s, sessionId);
    var u := s.users[sessionId];
    OnlyMember(s.channels[u.channelName].users, u.name);
  }

  /** Joining a channel that does not exist starts it afresh, with just the
      new member and no history. */
  lemma JoinAbsentChannel(s: AppState, data: UserData, color: ColorId)
    requires data.sessionId !in s.users
    requires data.channelName !in s.channels
    ensures AddUser(s, data, color).Ok?
    ensures AddUser(s, data, color).value.channels[data.channelName].users.Keys == {data.name}
    ensures AddUser(s, data, color).value.channels[data.channelName].messages == []
  {
  }

  /** A map of one entry holding `k` has exactly the key `k`. */
  lemma OnlyMember<V>(m: map<string, V>, k: string)
    requires k in m && |m| == 1
    ensures m.Keys == {k}
  {
    var rest := m.Keys - {k};
    assert m.Keys == rest + {k};
    assert |m.Keys| == |rest| + 1;
  }

  /** A map holding `k` is not empty. */
  lemma HasMember<V>(m: map<string, V>, k: string)
    requires k in m
    ensures |m| > 0
  {
    assert m.Keys >= {k};
  }
}
