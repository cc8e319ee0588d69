/** The actions and the reducer that applies them to the application state.

    The reducer here follows the operations it delegates to, with actions
    shaped as those operations need them. The source's own action and
    reducer files disagree with each other at three points, which this model
    does not reproduce:
    - reducer.py imports `App` from the model, which only defines `AppState`;
    - reducer.py matches `AddUserAction(data=...)` and
      `RemoveUserAction(data=...)`, but those action classes carry
      `channel_name` and `user_name` fields and neither `data` nor a session id;
    - the `AppAction` union leaves out `AddMessageAction`.
    Action is a closed datatype, so the source's fall-through branch for an
    unknown action (a TypeError) has no counterpart: the match is exhaustive. */
module Reducer {
  import opened Errors
  import opened Messages
  import opened Channels
  import opened Invariants
  import States

  type AppState = States.AppState

  /** The closed set of intents that may change the state. */
  datatype Action =
    | AddMessage(channelName: string, message: Message)
    | AddUser(data: UserData)
    | RemoveUser(sessionId: string)

  /** Applies `a` to `s`. `color` is the colour drawn for a user that an
      AddUser action creates; other actions ignore it. The reducer catches
      nothing: an operation's error is the reducer's result. */
  function Reduce(s: AppState, a: Action, color: ColorId): (r: Result<AppState>)
    ensures a.AddMessage? ==> r == States.AddMessage(s, a.channelName, a.message)
    ensures a.AddUser? ==> r == States.AddUser(s, a.data, color)
    ensures a.RemoveUser? ==> r == States.RemoveUser(s, a.sessionId)
  {
    match a
    case AddMessage(channelName, message) => States.AddMessage(s, channelName, message)
    case AddUser(data) => States.AddUser(s, data, color)
    case RemoveUser(sessionId) => States.RemoveUser(s, sessionId)
  }

  /** When an action is refused, stated on the state alone: posting to an
      unknown channel, joining with a taken session or a taken name, and
      leaving with an unknown session. */
  predicate Refused(s: AppState, a: Action) {
    match a
    case AddMessage(channelName, _) => channelName !in s.channels
    case AddUser(data) => States.Clashes(s, data)
    case RemoveUser(sessionId) => sessionId !in s.users
  }

  /** The error each refused action reports: a join reports a duplicate
      entity, the other actions a missing entity, and none reports a bare
      KeyError. */
  function RefusalError(a: Action): (e: Error)
    ensures e.IsDuplicateEntity() <==> a.AddUser?
    ensures e.IsEntityNotFound() <==> !a.AddUser?
  {
    match a
    case AddMessage(_, _) => ChannelNotFound
    case AddUser(_) => DuplicateUser
    case RemoveUser(_) => UserNotFound
  }

  /** On a valid state the reducer fails exactly for the refused actions,
      each with its own error, and otherwise yields a valid state. */
  lemma ReduceFailsExactlyWhenRefused(s: AppState, a: Action, color: ColorId)
    requires Valid(s)
    ensures Reduce(s, a, color).Err? <==> Refused(s, a)
    ensures Reduce(s, a, color).Err? ==> Reduce(s, a, color).error == RefusalError(a)
    ensures Reduce(s, a, color).Ok? ==> Valid(Reduce(s, a, color).value)
  {
    match a
    case AddMessage(channelName, message) =>
      AddMessagePreservesValid(s, channelName, message);
    case AddUser(data) =>
      AddUserPreservesValid(s, data, color);
    case RemoveUser(sessionId) =>
      RemoveUserFailsIffAbsent(s, sessionId);
      RemoveUserPreservesValid(s, sessionId);
  }

  /** One action of a run, with the colour drawn while applying it. */
  datatype Step = Step(action: Action, color: ColorId)

  /** The state after dispatching one step: a refused action leaves the
      state as it was. */
  function Dispatch(s: AppState, step: Step): AppState {
    match Reduce(s, step.action, step.color)
    case Ok(t) => t
    case Err(_) => s
  }

  /** The state after dispatching `steps` in order. */
  function Run(s: AppState, steps: seq<Step>): AppState
    decreases |steps|
  {
    if |steps| == 0 then s else Run(Dispatch(s, steps[0]), steps[1..])
  }

  /** Every run from a valid state ends in a valid state. */
  lemma {:induction false} RunPreservesValid(s: AppState, steps: seq<Step>)
    requires Valid(s)
    ensures Valid(Run(s, steps))
    decreases |steps|
  {
    if |steps| > 0 {
      ReduceFailsExactlyWhenRefused(s, steps[0].action, steps[0].color);
      RunPreservesValid(Dispatch(s, steps[0]), steps[1..]);
    }
  }

  /** Every state reachable from the empty state is valid. */
  lemma ReachableIsValid(steps: seq<Step>)
    ensures Valid(Run(States.Empty(), steps))
  {
    EmptyIsValid();
    RunPreservesValid(States.Empty(), steps);
  }

  /** The steps that post each of `ms`, in order, to `channelName`. */
  function Posts(channelName: string, ms: seq<Message>): (steps: seq<Step>)
    ensures |steps| == |ms|
    ensures forall i :: 0 <= i < |ms| ==> steps[i] == Step(AddMessage(channelName, ms[i]), 0)
  {
    if |ms| == 0 then [] else [Step(AddMessage(channelName, ms[0]), 0)] + Posts(channelName, ms[1..])
  }

  /** Posting messages one after another to an existing channel appends
      them to its history in posting order, and changes nothing else. */
  lemma {:induction false} PostsAppendInOrder(s: AppState, channelName: string, ms: seq<Message>)
    requires channelName in s.channels
    ensures
      var t := Run(s, Posts(channelName, ms));
      && t.users == s.users
      && t.channels.Keys == s.channels.Keys
      && t.channels[channelName].messages == s.channels[channelName].messages + ms
      && t.channels[channelName].users == s.channels[channelName].users
      && (forall c :: c in s.channels && c != channelName ==> t.channels[c] == s.channels[c])
    decreases |ms|
  {
    if |ms| > 0 {
      var steps := Posts(channelName, ms);
      assert steps[1..] == Posts(channelName, ms[1..]);
      var s1 := Dispatch(s, steps[0]);
      assert s1 == States.AddMessage(s, channelName, ms[0]).value;
      PostsAppendInOrder(s1, channelName, ms[1..]);
      assert s.channels[channelName].messages + [ms[0]] + ms[1..] == s.channels[channelName].messages + ms;
    }
  }
}
