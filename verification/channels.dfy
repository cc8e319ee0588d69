/** Users and channels, and the pure operations of a channel. Each operation
    returns a new channel value; nothing is updated in place. */
module Channels {
  import opened Errors
  import opened Messages

  /** The display colour of a user: drawn once, uniformly from [0, 255), when
      the user is created. The draw itself is an input of the model. */
  type ColorId = c: int | 0 <= c < 255

  /** What a client supplies to join a channel. */
  datatype UserData = UserData(sessionId: string, name: string, channelName: string)

  /** A registered user. The session id is the user's identity. */
  datatype User = User(sessionId: string, name: string, channelName: string, colorId: ColorId)

  /** The user built from `data`, with the colour `color` drawn for it. */
  function NewUser(data: UserData, color: ColorId): (u: User)
    ensures u.sessionId == data.sessionId && u.name == data.name
    ensures u.channelName == data.channelName && u.colorId == color
  {
    User(data.sessionId, data.name, data.channelName, color)
  }

  /** A channel: its members keyed by display name, and its history in
      posting order. */
  datatype Channel = Channel(name: string, users: map<string, User>, messages: seq<Message>)

  /** A freshly created channel has no members and no history. */
  function NewChannel(name: string): (c: Channel)
    ensures c.name == name && |c.users| == 0 && |c.messages| == 0
  {
    Channel(name, map[], [])
  }

  /** The channel with `m` posted at the end of its history. */
  function AppendMessage(c: Channel, m: Message): (r: Channel)
    ensures r.name == c.name && r.users == c.users
    ensures |r.messages| == |c.messages| + 1
    ensures r.messages[..|c.messages|] == c.messages
    ensures r.messages[|c.messages|] == m
  {
    c.(messages := c.messages + [m])
  }

  /** The channel without the member called `userName`; fails when there is
      no such member. */
  function DelUser(c: Channel, userName: string): (r: Result<Channel>)
    ensures r.Err? <==> userName !in c.users
    ensures r.Err? ==> r.error == UserNotFound
    ensures r.Ok? ==> r.value.name == c.name && r.value.messages == c.messages
    ensures r.Ok? ==> r.value.users.Keys == c.users.Keys - {userName}
    ensures r.Ok? ==> forall n :: n in r.value.users ==> r.value.users[n] == c.users[n]
  {
    if userName !in c.users then
      Err(UserNotFound)
    else
      Ok(c.(users := c.users - {userName}))
  }

  /** The member called `userName`; fails when there is no such member. */
  function GetUser(c: Channel, userName: string): (r: Result<User>)
    ensures r.Err? <==> userName !in c.users
    ensures r.Err? ==> r.error == UserNotFound
    ensures r.Ok? ==> userName in c.users && r.value == c.users[userName]
  {
    if userName !in c.users then
      Err(UserNotFound)
    else
      Ok(c.users[userName])
  }

  /** The channel with `user` installed under `userName`, replacing any
      member already called so. */
  function SetUser(c: Channel, userName: string, user: User): (r: Channel)
    ensures r.name == c.name && r.messages == c.messages
    ensures r.users.Keys == c.users.Keys + {userName}
    ensures userName in r.users && r.users[userName] == user
    ensures forall n :: n in c.users && n != userName ==> r.users[n] == c.users[n]
  {
    c.(users := c.users[userName := user])
  }

  /** Reading back a member just set yields it; other members read as before. */
  lemma GetAfterSet(c: Channel, userName: string, user: User, other: string)
    ensures GetUser(SetUser(c, userName, user), userName) == Ok(user)
    ensures other != userName ==> GetUser(SetUser(c, userName, user), other) == GetUser(c, other)
  {
  }

  /** After a successful delete the member is gone; other members read as before. */
  lemma GetAfterDel(c: Channel, userName: string, other: string)
    requires DelUser(c, userName).Ok?
    ensures GetUser(DelUser(c, userName).value, userName) == Err(UserNotFound)
    ensures other != userName ==> GetUser(DelUser(c, userName).value, other) == GetUser(c, other)
  {
  }

  /** Deleting a member that was just added under a fresh name gives the
      original channel back. */
  lemma DelUndoesSet(c: Channel, userName: string, user: User)
    requires userName !in c.users
    ensures DelUser(SetUser(c, userName, user), userName) == Ok(c)
  {
    assert SetUser(c, userName, user).users - {userName} == c.users;
  }

  /** Setting back the member that was just deleted gives the original
      channel back. */
  lemma SetUndoesDel(c: Channel, userName: string)
    requires userName in c.users
    ensures DelUser(c, userName).Ok?
    ensures SetUser(DelUser(c, userName).value, userName, c.users[userName]) == c
  {
    assert (c.users - {userName})[userName := c.users[userName]] == c.users;
  }
}
