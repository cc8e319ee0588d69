/** Chat messages: system notices and messages posted by users. */
module Messages {

  /** A message as stored in a channel's history. The source tags the two
      kinds with a `type` discriminator; here they are two constructors. */
  datatype Message =
    | SystemMessage(content: string)
    | UserMessage(senderName: string, senderColorId: int, content: string)

  const JoinedSuffix: string := " has joined the channel."
  const LeftSuffix: string := " has left the channel."

  /** The notice posted when `userName` joins a channel. */
  function UserJoined(userName: string): (m: Message)
    ensures m.SystemMessage?
    ensures |m.content| == |userName| + |JoinedSuffix|
    ensures m.content[..|userName|] == userName
    ensures m.content[|userName|..] == JoinedSuffix
  {
    SystemMessage(userName + JoinedSuffix)
  }

  /** The notice posted when `userName` leaves a channel. */
  function UserLeft(userName: string): (m: Message)
    ensures m.SystemMessage?
    ensures |m.content| == |userName| + |LeftSuffix|
    ensures m.content[..|userName|] == userName
    ensures m.content[|userName|..] == LeftSuffix
  {
    SystemMessage(userName + LeftSuffix)
  }

  /** A notice determines the name it was made for: two joins (or two
      leaves) carry the same text only when the names agree. */
  lemma NoticesDetermineName(a: string, b: string)
    ensures UserJoined(a) == UserJoined(b) <==> a == b
    ensures UserLeft(a) == UserLeft(b) <==> a == b
  {
    if UserJoined(a) == UserJoined(b) {
      assert |a| == |b|;
      assert a == UserJoined(a).content[..|a|];
    }
    if UserLeft(a) == UserLeft(b) {
      assert |a| == |b|;
      assert a == UserLeft(a).content[..|a|];
    }
  }

  /** A join notice never reads like a leave notice, whatever the names:
      counting back from the end, the character before " the channel." is
      'd' in one and 't' in the other. */
  lemma JoinNeverLooksLikeLeave(a: string, b: string)
    ensures UserJoined(a).content != UserLeft(b).content
  {
    var j := UserJoined(a).content;
    var l := UserLeft(b).content;
    assert j[|j| - 14] == JoinedSuffix[|JoinedSuffix| - 14] == 'd';
    assert l[|l| - 14] == LeftSuffix[|LeftSuffix| - 14] == 't';
  }
}
