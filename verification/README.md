# Chat backend state model

A Dafny model of the domain core of the rstore example chat backend. The
application state holds channels, keyed by name, and users, keyed by session
id. A channel holds its members, keyed by display name, and its message
history. The state is an immutable value. It changes only through pure
transitions: add a message, add a user, remove a user. Each transition
returns a new state or one of the domain's typed errors. A reducer picks the
transition from a closed set of actions.

Modules:

- `Errors`: the exception classes of the domain, plus Python's `KeyError`, and a `Result` type that carries them.
- `Messages`: system and user messages, and the join/leave notices.
- `Channels`: users, channels and the channel operations `append_message`, `del_user`, `get_user`, `set_user`.
- `States`: the application state and `empty`, `get_channel`, `get_user`, `add_message`, `add_user`, `remove_user`.
- `Invariants`: the state invariant, and proofs that every transition preserves it.
- `Reducer`: the action datatype and the reducer. Also runs of actions, where a refused action leaves the state unchanged.
- `Correction`: `remove_user` with the defect described under Findings repaired, and the stronger invariant the repair keeps.
- `Scenarios`: concrete runs from the empty state.

The state invariant (`Invariants.Valid`) has three parts:

- Every registered session is seated. Its user carries that session id, the user's channel exists, and the channel lists that very user under the user's name.
- No channel has zero members. Stale listings left by `remove_user` count as members here, so a channel whose users have all left can survive with no live session (`Scenarios.ChannelOutlivesItsUsers`).
- Channels and members are keyed by their own names.

The repaired model also keeps `Correction.NoStaleMembers`: every listed member is the user of a live session.

Three facts about the code are worth stating, because a reader might expect otherwise:

- `remove_user` does not drop the departing user from its channel's member map when other members remain (see Findings).
- When the last member leaves, the channel is deleted together with its message history. A later join to a channel of that name starts a fresh channel with an empty history (`Invariants.JoinAbsentChannel`).
- The reducer's source does not agree with its own action classes. `reducer.py:8` imports `App`, which the model file does not define; it defines `AppState`. `reducer.py:16,19` match on a `data` attribute that `AddUserAction` and `RemoveUserAction` (`action.py:25-43`) do not have. Those classes carry `channel_name` and `user_name`, not a `UserData` or a session id. `AppAction` (`action.py:45-51`) leaves out `AddMessageAction`. The model's `Reducer.Action` uses the arguments that the delegated operations take: `AddUser(UserData)`, `RemoveUser(session_id)` and `AddMessage(channel_name, message)`.

The colour of a new user is drawn at random in the source. Here it is an input of subset type `ColorId`, which covers 0 to 254. `Reducer.Reduce` takes it as a parameter too.

## Model

| member | source | states |
|---|---|---|
| Messages.UserJoined | api/rstore_example_api/model.py:48-52 | the join notice is a system message whose text is the user's name followed by " has joined the channel." |
| Messages.UserLeft | api/rstore_example_api/model.py:54-58 | the leave notice is a system message whose text is the user's name followed by " has left the channel." |
| Messages.NoticesDetermineName | api/rstore_example_api/model.py:48-58 | two join notices, or two leave notices, are equal exactly when they were made for the same name |
| Messages.JoinNeverLooksLikeLeave | api/rstore_example_api/model.py:48-58 | no join notice has the same text as any leave notice, whatever the names |
| Channels.AppendMessage | api/rstore_example_api/model.py:103-106 | the history grows by exactly one entry, the new message at the end; earlier messages keep their values and order; name and members are unchanged |
| Channels.DelUser | api/rstore_example_api/model.py:108-115 | fails with UserNotFound exactly when the name is not a member; otherwise removes exactly that key and keeps other members, the name and the history |
| Channels.GetUser | api/rstore_example_api/model.py:117-121 | fails with UserNotFound exactly when the name is not a member; otherwise yields the member stored under it |
| Channels.SetUser | api/rstore_example_api/model.py:123-127 | installs the user under the name, adds only that key, keeps every other member, the name and the history |
| Channels.GetAfterSet | api/rstore_example_api/model.py:117-127 | after setting a member, reading it back yields that user, and reading any other name is unaffected |
| Channels.GetAfterDel | api/rstore_example_api/model.py:108-121 | after a successful delete, reading the name fails with UserNotFound, and reading any other name is unaffected |
| Channels.DelUndoesSet | api/rstore_example_api/model.py:108-127 | setting a fresh name and then deleting it gives back the original channel |
| Channels.SetUndoesDel | api/rstore_example_api/model.py:108-127 | deleting a member and then setting it back gives back the original channel |
| States.Empty | api/rstore_example_api/model.py:194-196 | the initial state has no channels and no users |
| States.GetChannel | api/rstore_example_api/model.py:166-170 | fails with ChannelNotFound exactly when the channel is absent; otherwise yields that channel |
| States.GetUser | api/rstore_example_api/model.py:172-176 | fails with UserNotFound exactly when the session is absent; otherwise yields that session's user |
| States.AddMessage | api/rstore_example_api/model.py:134-141 | fails with ChannelNotFound exactly when the channel is absent; otherwise only that channel's history changes, growing by the message at its end; users and all other channels are unchanged |
| States.AddUser | api/rstore_example_api/model.py:143-164 | fails with DuplicateUser exactly when the session is registered or the existing target channel already has the name; otherwise the same new user is installed at the session and in the channel, the channel is created empty when absent, and nothing else changes |
| States.RemoveUser | api/rstore_example_api/model.py:178-192 | the errors in the source's order: UserNotFound for an unknown session, KeyError for a missing channel, UserNotFound for a missing member; on success it removes only that session; the channel is deleted exactly when the user was its only member, and otherwise the channels map is returned unchanged |
| States.GetAfterAddUser | api/rstore_example_api/model.py:143-176 | after a successful join, the new session reads back as the new user with the drawn colour, its channel reads back as present, and every other session reads as before |
| States.GetAfterRemoveUser | api/rstore_example_api/model.py:172-192 | after a successful remove, the session reads as UserNotFound and every other session reads as before |
| States.GetAfterAddMessage | api/rstore_example_api/model.py:134-141 | after a successful post, the channel reads back as the old channel with the message appended, and every other channel reads as before |
| Invariants.SeatsAreUnique | api/rstore_example_api/model.py:143-151 | in a state where every session is seated, two sessions with the same name in the same channel are the same session |
| Invariants.EmptyIsValid | api/rstore_example_api/model.py:194-196 | the empty state satisfies the invariant, and on it every remove fails with UserNotFound and every post fails with ChannelNotFound |
| Invariants.AddMessagePreservesValid | api/rstore_example_api/model.py:134-141 | a successful post keeps the invariant |
| Invariants.AddUserPreservesValid | api/rstore_example_api/model.py:143-164 | a successful join keeps the invariant |
| Invariants.RemoveUserPreservesValid | api/rstore_example_api/model.py:178-192 | a successful remove keeps the invariant, even though it leaves a stale listing behind |
| Invariants.RemoveUserFailsIffAbsent | api/rstore_example_api/model.py:172-192 | on a valid state, remove fails exactly when the session is unknown, and then with UserNotFound |
| Invariants.RemovedUserStaysListed | api/rstore_example_api/model.py:183-190 | when other members remain, the removed user is still listed in its channel, and a join with that name to that channel, even from a fresh session, fails with DuplicateUser |
| Invariants.LastLeaveDeletesChannel | api/rstore_example_api/model.py:183-188 | when the departing user is the channel's only member, the channel is deleted, and looking it up afterwards fails with ChannelNotFound |
| Invariants.JoinAbsentChannel | api/rstore_example_api/model.py:147-164 | joining an absent channel with a fresh session succeeds and creates a channel with just the new member and no history |
| Reducer.Reduce | api/rstore_example_api/reducer.py:11-20 | each action yields exactly what its operation yields, errors included: AddMessage gives add_message, AddUser gives add_user, RemoveUser gives remove_user |
| Reducer.RefusalError | api/rstore_example_api/model.py:11-32 | a refused join reports a duplicate-entity error and a refused post or remove an entity-not-found error, following the exception hierarchy |
| Reducer.ReduceFailsExactlyWhenRefused | api/rstore_example_api/reducer.py:11-20 | on a valid state, an action fails exactly when it is refused (unknown channel, taken session or name, unknown session), each with its own error, and otherwise yields a valid state |
| Reducer.RunPreservesValid | api/rstore_example_api/reducer.py:11-20 | any sequence of actions applied to a valid state ends in a valid state, where a refused action leaves the state unchanged |
| Reducer.ReachableIsValid | api/rstore_example_api/reducer.py:11-20 | every state reached from the empty state by any sequence of actions is valid |
| Reducer.PostsAppendInOrder | api/rstore_example_api/reducer.py:13-14 | posting a sequence of messages to an existing channel appends them in posting order, and changes no user and no other channel |
| Correction.RemoveUserCorrected | api/rstore_example_api/model.py:178-192 | same errors as the source; on success the session is dropped and the user leaves its channel's members; the channel is deleted exactly when the user was its only member; every other channel is unchanged |
| Correction.CorrectedRemovalFreesName | api/rstore_example_api/model.py:178-192 | after the repaired remove, the departing user is no longer listed, and a join with its name to its channel succeeds |
| Correction.CorrectedRemovalPreservesTidy | api/rstore_example_api/model.py:178-192 | the repaired remove keeps the invariant and leaves no stale members |
| Correction.AddUserPreservesTidy | api/rstore_example_api/model.py:143-164 | a successful join leaves no stale members |
| Correction.ReduceCorrectedPreservesTidy | api/rstore_example_api/reducer.py:11-20 | the reducer with the repaired remove refuses exactly the actions the source's reducer refuses, with the same errors, and otherwise keeps the invariant with no stale members |
| Scenarios.DuplicateNameRejected | api/rstore_example_api/model.py:143-151 | after "alice" joins "x", a second "alice" joining "x" from another session fails with DuplicateUser |
| Scenarios.StaleMemberBlocksRejoin | api/rstore_example_api/model.py:178-192 | after alice and bob join "x" and alice leaves, "alice" is still listed in "x" and cannot rejoin with the source's remove; with the repaired remove she can |
| Scenarios.ChannelOutlivesItsUsers | api/rstore_example_api/model.py:178-192 | after alice and bob join "x" and both leave, no session is left, yet "x" still exists, still lists "alice" and still accepts posts |
| Scenarios.ThreePostsInOrder | api/rstore_example_api/model.py:134-141 | a join notice and three posts to one channel appear in its history in exactly that order |

## Left out

- The store (`rstore`): serialised dispatch, subscribers and replication between processes. It is not part of this model; `Reducer.Run` stands in for a sequence of dispatches, where a refused action leaves the state unchanged.
- `middleware.py` and `task.py`: the system-notice middleware and its fire-and-forget task are asynchronous scheduling around the store. The notice texts are modelled (`Messages.UserJoined`, `Messages.UserLeft`).
- `app.py`, `__main__.py`, `config.py`: web framework, CORS, Redis client and environment wiring. These are I/O only.
- The web client under `webapp/`: user interface and HTTP plumbing.
- The random draw of `color_id`: it is an input restricted to 0 to 254, the range `random.randrange(255)` yields.
- The reducer's fall-through branch for an unknown action (a `TypeError`): `Reducer.Action` is closed, so the match is exhaustive and the branch cannot be reached.
- `AccessError` is declared with the other errors but no modelled operation raises it.
- Validation and JSON encoding of the data classes. `Channel.messages` is declared as a list of user messages but receives system notices too, so it is modelled as a sequence of any message.

## Findings

| source | as written | input that shows it | evidently intended | confidence | as-written member | corrected member |
|---|---|---|---|---|---|---|
| api/rstore_example_api/model.py:184-190 | when the channel keeps other members, `remove_user` returns the original `self.channels`, so the updated channel is discarded and the departing user stays in its member map; the name stays taken, and a channel whose users have all left is never deleted | sessions s1 "alice" and s2 "bob" join "x"; s1 is removed; a new session s3 then joins "x" as "alice" and is refused with DuplicateUserError; if s2 also leaves, no user remains but "x" still exists and accepts posts | store the updated channel back into the copied channels map, so the user leaves the channel | high; not executed | Invariants.RemovedUserStaysListed | Correction.RemoveUserCorrected |

`Reducer.Reduce` keeps the source's `remove_user` so that it models the code as written. `Correction.ReduceCorrected` is the same reducer with the repaired remove. `Correction.ReduceCorrectedPreservesTidy` proves the stronger invariant for it.
