/** Concrete runs of the reducer from the empty state. */
module Scenarios {
  import opened Errors
  import opened Messages
  import opened Channels
  import opened Reducer
  import States
  import Correction

  const alice := UserData("s1", "alice", "x")
  const bob := UserData("s2", "bob", "x")

  /** Two joins of the same name to the same channel: the second is refused
      with DuplicateUser, even from another session. */
  lemma DuplicateNameRejected()
    ensures
      var s := Reduce(States.Empty(), AddUser(alice), 7);
      && s.Ok?
      && Reduce(s.value, AddUser(UserData("s2", "alice", "x")), 9) == Err(DuplicateUser)
  {
  }

  /** Alice and bob join "x", then alice leaves. With the source's
      remove_user, "alice" is still listed in "x" and cannot join again from
      a new session; with the corrected one she can. */
  lemma StaleMemberBlocksRejoin()
    ensures
      var s1 := Reduce(States.Empty(), AddUser(alice), 1).value;
      var s2 := Reduce(s1, AddUser(bob), 2).value;
      var s3 := Reduce(s2, RemoveUser("s1"), 0);
      && s3.Ok?
      && "s1" !in s3.value.users
      && "alice" in s3.value.channels["x"].users
      && Reduce(s3.value, AddUser(UserData("s3", "alice", "x")), 3) == Err(DuplicateUser)
      && Correction.ReduceCorrected(s2, RemoveUser("s1"), 0).Ok?
      && Correction.ReduceCorrected(Correction.ReduceCorrected(s2, RemoveUser("s1"), 0).value,
                                    AddUser(UserData("s3", "alice", "x")), 3).Ok?
  {
    var s1 := Reduce(States.Empty(), AddUser(alice), 1).value;
    var s2 := Reduce(s1, AddUser(bob), 2).value;
    assert s2.channels["x"].users.Keys == {"alice", "bob"};
    assert s2.channels["x"].users.Keys != {"alice"} by {
      assert "bob" in s2.channels["x"].users.Keys;
    }
  }

  /** Three posts to one channel appear in its history in posting order,
      after the join notice posted first. */
  lemma ThreePostsInOrder(m1: Message, m2: Message, m3: Message)
    ensures
      var s1 := Reduce(States.Empty(), AddUser(alice), 4).value;
      var s2 := Reduce(s1, AddMessage("x", UserJoined("alice")), 0);
      && s2.Ok?
      && var t := Run(s2.value, Posts("x", [m1, m2, m3]));
      && "x" in t.channels
      && t.channels["x"].messages == [UserJoined("alice"), m1, m2, m3]
  {
    var s1 := Reduce(States.Empty(), AddUser(alice), 4).value;
    var s2 := Reduce(s1, AddMessage("x", UserJoined("alice")), 0).value;
    assert s2.channels["x"].messages == [UserJoined("alice")];
    PostsAppendInOrder(s2, "x", [m1, m2, m3]);
  }

  /** Alice and bob join "x", then both leave. With the source's
      remove_user no session is left, yet "x" still exists, still lists
      "alice", and still accepts posts: the channel outlives all its users. */
  lemma ChannelOutlivesItsUsers(m: Message)
    ensures
      var s1 := Reduce(States.Empty(), AddUser(alice), 1).value;
      var s2 := Reduce(s1, AddUser(bob), 2).value;
      var s3 := Reduce(s2, RemoveUser("s1"), 0).value;
      var s4 := Reduce(s3, RemoveUser("s2"), 0);
      && s4.Ok?
      && s4.value.users == map[]
      && "x" in s4.value.channels
      && "alice" in s4.value.channels["x"].users
      && Reduce(s4.value, AddMessage("x", m), 0).Ok?
  {
    var a := User("s1", "alice", "x", 1);
    var b := User("s2", "bob", "x", 2);
    var x := Channel("x", map["alice" := a, "bob" := b], []);
    var s2 := Reduce(Reduce(States.Empty(), AddUser(alice), 1).value, AddUser(bob), 2).value;
    assert s2 == States.AppState(map["x" := x], map["s1" := a, "s2" := b]);
    assert x.users.Keys != {"alice"} by {
      assert "bob" in x.users.Keys;
    }
    var s3 := Reduce(s2, RemoveUser("s1"), 0).value;
    assert s3 == States.AppState(map["x" := x], map["s2" := b]);
    assert x.users.Keys != {"bob"} by {
      assert "alice" in x.users.Keys;
    }
    assert Reduce(s3, RemoveUser("s2"), 0) == Ok(States.AppState(map["x" := x], map[]));
  }
}
