/** The application state and its transitions. A state is an immutable value:
    every transition returns a new state or the error the source raises, and
    an error carries no state, so a failed transition changes nothing. */
module States {
  import opened Errors
  import opened Messages
  import opened Channels

  /** Channels keyed by name and users keyed by session id. */
  datatype AppState = AppState(channels: map<string, Channel>, users: map<string, User>)

  /** The state a server starts from. */
  function Empty(): (s: AppState)
    ensures |s.channels| == 0 && |s.users| == 0
  {
    AppState(map[], map[])
  }

  /** The channel called `name`; fails when there is none. */
  function GetChannel(s: AppState, name: string): (r: Result<Channel>)
    ensures r.Err? <==> name !in s.channels
    ensures r.Err? ==> r.error == ChannelNotFound
    ensures r.Ok? ==> name in s.channels && r.value == s.channels[name]
  {
    if name !in s.channels then
      Err(ChannelNotFound)
    else
      Ok(s.channels[name])
  }

  /** The user registered under `sessionId`; fails when there is none. */
  function GetUser(s: AppState, sessionId: string): (r: Result<User>)
    ensures r.Err? <==> sessionId !in s.users
    ensures r.Err? ==> r.error == UserNotFound
    ensures r.Ok? ==> sessionId in s.users && r.value == s.users[sessionId]
  {
    if sessionId !in s.users then
      Err(UserNotFound)
    else
      Ok(s.users[sessionId])
  }

  /** Posts `message` to the channel `channelName`. Only that channel's
      history changes, and only by one entry at its end. */
  function AddMessage(s: AppState, channelName: string, message: Message): (r: Result<AppState>)
    ensures r.Err? <==> channelName !in s.channels
    ensures r.Err? ==> r.error == ChannelNotFound
    ensures r.Ok? ==> r.value.users == s.users
    ensures r.Ok? ==> r.value.channels.Keys == s.channels.Keys
    ensures r.Ok? ==> forall c :: c in s.channels && c != channelName ==> r.value.channels[c] == s.channels[c]
    ensures r.Ok? ==>
      && channelName in s.channels
      && r.value.channels[channelName].name == s.channels[channelName].name
      && r.value.channels[channelName].users == s.channels[channelName].users
      && r.value.channels[channelName].messages == s.channels[channelName].messages + [message]
  {
    var channel :- GetChannel(s, channelName);
    Ok(s.(channels := s.channels[channelName := AppendMessage(channel, message)]))
  }

  /** True when `data` clashes with the state: its session is already
      registered, or its channel exists and already has a member of its name. */
  predicate Clashes(s: AppState, data: UserData) {
    || data.sessionId in s.users
    || (data.channelName in s.channels && data.name in s.channels[data.channelName].users)
  }

  /** Registers a new user and seats it in its channel, creating the channel
      when absent. `color` is the colour drawn for the new user. */
  function AddUser(s: AppState, data: UserData, color: ColorId): (r: Result<AppState>)
    ensures r.Err? <==> Clashes(s, data)
    ensures r.Err? ==> r.error == DuplicateUser
    // the same user is installed in both maps
    ensures r.Ok? ==>
      var u := User(data.sessionId, data.name, data.channelName, color);
      && data.sessionId in r.value.users
      && r.value.users[data.sessionId] == u
      && data.channelName in r.value.channels
      && data.name in r.value.channels[data.channelName].users
      && r.value.channels[data.channelName].users[data.name] == u
    // no other user changes
    ensures r.Ok? ==> r.value.users.Keys == s.users.Keys + {data.sessionId}
    ensures r.Ok? ==> forall k :: k in s.users ==> r.value.users[k] == s.users[k]
    // no other channel changes
    ensures r.Ok? ==> r.value.channels.Keys == s.channels.Keys + {data.channelName}
    ensures r.Ok? ==> forall c :: c in s.channels && c != data.channelName ==> r.value.channels[c] == s.channels[c]
    // the target channel gains exactly the one member
    ensures r.Ok? ==>
      var ch := r.value.channels[data.channelName];
      && ch.name == (if data.channelName in s.channels then s.channels[data.channelName].name else data.channelName)
      && ch.messages == (if data.channelName in s.channels then s.channels[data.channelName].messages else [])
      && ch.users.Keys == (if data.channelName in s.channels then s.channels[data.channelName].users.Keys else {}) + {data.name}
      && (data.channelName in s.channels ==>
            forall n :: n in s.channels[data.channelName].users ==> ch.users[n] == s.channels[data.channelName].users[n])
  {
    if data.sessionId in s.users then
      Err(DuplicateUser)
    else if data.channelName in s.channels && data.name in s.channels[data.channelName].users then
      Err(DuplicateUser)
    else
      var channel := if data.channelName in s.channels then s.channels[data.channelName] else NewChannel(data.channelName);
      var user := NewUser(data, color);
      var channel' := SetUser(channel, data.name, user);
      Ok(AppState(s.channels[data.channelName := channel'], s.users[data.sessionId := user]))
  }

  /** Unregisters the user of `sessionId`, as the source does it: the user's
      channel is deleted when dropping the user leaves it without members,
      and otherwise the channels are kept exactly as they were, so the
      departing user stays listed as a member of its channel. */
  function RemoveUser(s: AppState, sessionId: string): (r: Result<AppState>)
    // error cases, in the order the source meets them
    ensures sessionId !in s.users ==> r == Err(UserNotFound)
    ensures sessionId in s.users && s.users[sessionId].channelName !in s.channels ==> r == Err(KeyError)
    ensures sessionId in s.users && s.users[sessionId].channelName in s.channels
            && s.users[sessionId].name !in s.channels[s.users[sessionId].channelName].users
            ==> r == Err(UserNotFound)
    ensures r.Ok? ==>
      && sessionId in s.users
      && s.users[sessionId].channelName in s.channels
      && s.users[sessionId].name in s.channels[s.users[sessionId].channelName].users
    // the session is dropped and every other session is kept
    ensures r.Ok? ==> r.value.users.Keys == s.users.Keys - {sessionId}
    ensures r.Ok? ==> forall k :: k in r.value.users ==> r.value.users[k] == s.users[k]
    // the channel goes exactly when its member map would become empty;
    // otherwise the channels map is returned untouched
    ensures r.Ok? ==>
      var u := s.users[sessionId];
      if s.channels[u.channelName].users.Keys == {u.name} then
        r.value.channels == s.channels - {u.channelName}
      else
        r.value.channels == s.channels
  {
    var user :- GetUser(s, sessionId);
    var users := s.users - {sessionId};
    if user.channelName !in s.channels then
      Err(KeyError)
    else
      var channel :- DelUser(s.channels[user.channelName], user.name);
      var channels := if |channel.users| == 0 then s.channels - {user.channelName} else s.channels;
      Ok(AppState(channels, users))
  }

  /** After a successful join, the new session reads back as the new user,
      its channel reads back as present, and other sessions read as before. */
  lemma GetAfterAddUser(s: AppState, data: UserData, color: ColorId, other: string)
    requires AddUser(s, data, color).Ok?
    ensures GetUser(AddUser(s, data, color).value, data.sessionId) == Ok(NewUser(data, color))
    ensures GetChannel(AddUser(s, data, color).value, data.channelName).Ok?
    ensures other != data.sessionId ==> GetUser(AddUser(s, data, color).value, other) == GetUser(s, other)
  {
  }

  /** After a successful remove, the session reads as unknown and every
      other session reads as before. */
  lemma GetAfterRemoveUser(s: AppState, sessionId: string, other: string)
    requires RemoveUser(s, sessionId).Ok?
    ensures GetUser(RemoveUser(s, sessionId).value, sessionId) == Err(UserNotFound)
    ensures other != sessionId ==> GetUser(RemoveUser(s, sessionId).value, other) == GetUser(s, other)
  {
  }

  /** After a successful post, the channel reads back as the old channel
      with the message appended, and every other channel reads as before. */
  lemma GetAfterAddMessage(s: AppState, channelName: string, message: Message, other: string)
    requires AddMessage(s, channelName, message).Ok?
    ensures GetChannel(AddMessage(s, channelName, message).value, channelName)
            == Ok(AppendMessage(s.channels[channelName], message))
    ensures other != channelName ==>
            GetChannel(AddMessage(s, channelName, message).value, other) == GetChannel(s, other)
  {
  }
}
