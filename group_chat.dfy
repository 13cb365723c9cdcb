/** The group chat: a message list, a user list with online and typing flags,
    the local typing indicator, and the scripted reply that the first typing
    user posts. Message ids and times come from the clock and are
    parameters here. */
module GroupChat {
  import opened Seqs
  import opened Text

  datatype Message = Message(id: string, author: string, content: string, timestamp: string, isCurrentUser: bool)

  datatype User = User(id: string, name: string, isOnline: bool, isTyping: bool)

  const You: string := "You"

  /** The text of every scripted reply. */
  const ScriptedText: string := "I just finished my 9 to 5"

  const SeedMessages: seq<Message> :=
    [ Message("1", "Alex Johnson", "Hey everyone! How's it going?", "10:32 AM", false),
      Message("2", "Jamie Smith", "Pretty good!", "10:33 AM", false),
      Message("3", "You", "I'm excited to see the new updates!", "10:34 AM", true) ]

  const SeedUsers: seq<User> :=
    [ User("1", "Alex Johnson", true, false),
      User("2", "Jamie Smith", true, true),
      User("3", "Taylor Brown", false, false),
      User("4", "You", true, false) ]

  // ---------------------------------------------------------------------------
  // Rewrites of the user list

  /** Every user named `name` takes the typing flag `flag`; every other user
      and every other field stays as it was. */
  function SetTypingByName(users: seq<User>, name: string, flag: bool): (r: seq<User>)
    ensures |r| == |users|
    ensures forall i :: 0 <= i < |users| ==>
      r[i] == if users[i].name == name then users[i].(isTyping := flag) else users[i]
  {
    seq(|users|, i requires 0 <= i < |users| =>
      if users[i].name == name then users[i].(isTyping := flag) else users[i])
  }

  /** Every user with id `id` stops typing; every other user stays as it was. */
  function StopTypingById(users: seq<User>, id: string): (r: seq<User>)
    ensures |r| == |users|
    ensures forall i :: 0 <= i < |users| ==>
      r[i] == if users[i].id == id then users[i].(isTyping := false) else users[i]
  {
    seq(|users|, i requires 0 <= i < |users| =>
      if users[i].id == id then users[i].(isTyping := false) else users[i])
  }

  /** `users.find(u => u.isTyping)`: the position of the first typing user,
      or `None` when nobody types. */
  function FirstTyping(users: seq<User>): (r: Option<nat>)
    ensures r == None <==> forall i :: 0 <= i < |users| ==> !users[i].isTyping
    ensures r.Some? ==> r.value < |users| && users[r.value].isTyping
    ensures r.Some? ==> forall j :: 0 <= j < r.value ==> !users[j].isTyping
  {
    if users == [] then None
    else if users[0].isTyping then Some(0)
    else
      match FirstTyping(users[1..])
      case None => None
      case Some(k) => Some(k + 1)
  }

  function IsTyping(): User -> bool {
    (u: User) => u.isTyping
  }

  /** How many users show as typing. */
  function TypingCount(users: seq<User>): nat {
    |Filter(IsTyping(), users)|
  }

  /** A rewrite that never starts anyone typing and stops user `k` keeps
      fewer users typing. */
  lemma {:induction false} FewerTyping(a: seq<User>, b: seq<User>, k: nat)
    requires |a| == |b| && k < |a|
    requires forall i :: 0 <= i < |a| ==> (b[i].isTyping ==> a[i].isTyping)
    requires a[k].isTyping && !b[k].isTyping
    ensures TypingCount(b) < TypingCount(a)
  {
    if k == 0 {
      NoMoreTyping(a[1..], b[1..]);
    } else {
      FewerTyping(a[1..], b[1..], k - 1);
    }
  }

  lemma {:induction false} NoMoreTyping(a: seq<User>, b: seq<User>)
    requires |a| == |b|
    requires forall i :: 0 <= i < |a| ==> (b[i].isTyping ==> a[i].isTyping)
    ensures TypingCount(b) <= TypingCount(a)
  {
    if a != [] {
      NoMoreTyping(a[1..], b[1..]);
    }
  }

  /** Each scripted reply stops at least one typing user, so without new
      typing the replies run out. */
  lemma ScriptedReplyStopsOne(users: seq<User>)
    requires FirstTyping(users).Some?
    ensures TypingCount(StopTypingById(users, users[FirstTyping(users).value].id)) < TypingCount(users)
  {
    var k := FirstTyping(users).value;
    FewerTyping(users, StopTypingById(users, users[k].id), k);
  }

  // ---------------------------------------------------------------------------
  // Views

  function IsOnline(): User -> bool {
    (u: User) => u.isOnline
  }

  /** The "n online" line: how many users are online. */
  function OnlineCount(users: seq<User>): (n: nat)
    ensures n <= |users|
    ensures n == 0 <==> forall i :: 0 <= i < |users| ==> !users[i].isOnline
    ensures n == |set i: nat | i < |users| && users[i].isOnline|
  {
    FilterLength(IsOnline(), users);
    assert IndexSet(IsOnline(), users) == set i: nat | i < |users| && users[i].isOnline;
    var f := Filter(IsOnline(), users);
    assert f != [] ==> f[0] in f;
    assert forall i :: 0 <= i < |users| && users[i].isOnline ==> users[i] in f;
    |f|
  }

  function OtherTyping(): User -> bool {
    (u: User) => u.isTyping && u.name != You
  }

  /** The names before "typing...": every typing user except the local
      user, in list order. */
  function TypingNames(users: seq<User>): (r: seq<string>)
    ensures forall name :: name in r <==>
      exists i :: 0 <= i < |users| && users[i].isTyping && users[i].name != You && users[i].name == name
    ensures You !in r
    // one name per typing user other than the local one, in list order
    ensures var idx := Positions(OtherTyping(), users);
      |r| == |idx| && forall k :: 0 <= k < |r| ==> r[k] == users[idx[k]].name
  {
    FilterSelects(OtherTyping(), users);
    TypingNamesMembers(users);
    Names(Filter(OtherTyping(), users))
  }

  /** The names of `us`, in order. */
  function Names(us: seq<User>): (r: seq<string>)
    ensures |r| == |us| && forall k :: 0 <= k < |us| ==> r[k] == us[k].name
  {
    seq(|us|, k requires 0 <= k < |us| => us[k].name)
  }

  lemma TypingNamesMembers(users: seq<User>)
    ensures forall name :: name in Names(Filter(OtherTyping(), users)) <==>
      exists i :: 0 <= i < |users| && users[i].isTyping && users[i].name != You && users[i].name == name
  {
    var f := Filter(OtherTyping(), users);
    var r := Names(f);
    forall name | name in r
      ensures exists i :: 0 <= i < |users| && users[i].isTyping && users[i].name != You && users[i].name == name
    {
      var j :| 0 <= j < |f| && f[j].name == name;
      assert f[j] in users;
    }
    forall i | 0 <= i < |users| && users[i].isTyping && users[i].name != You ensures users[i].name in r {
      assert users[i] in f;
      var j :| 0 <= j < |f| && f[j] == users[i];
      assert r[j] == users[i].name;
    }
  }

  // ---------------------------------------------------------------------------
  // The widget

  /** The widget's state fields. */
  class Store {
    var messages: seq<Message>
    var users: seq<User>
    var newMessage: string
    var isTyping: bool

    constructor ()
      ensures messages == SeedMessages && users == SeedUsers && newMessage == "" && !isTyping
    {
      messages := SeedMessages;
      users := SeedUsers;
      newMessage := "";
      isTyping := false;
    }

    /** The input's `onChange`: the text is taken, and the local typing flag
        is raised when it was down. */
    method HandleInputChange(text: string) returns (started: bool)
      modifies this`newMessage, this`isTyping
      ensures newMessage == text
      ensures started <==> !old(isTyping)
      ensures isTyping
    {
      newMessage := text;
      started := !isTyping;
      if !isTyping {
        isTyping := true;
      }
    }

    /** The effect that runs when the local typing flag changes: while it is
        up, the local user shows as typing. */
    method TypingEffect()
      modifies this`users
      ensures isTyping ==> users == SetTypingByName(old(users), You, true)
      ensures !isTyping ==> users == old(users)
    {
      if isTyping {
        users := SetTypingByName(users, You, true);
      }
    }

    /** The two-second timer of the typing effect: the flag drops and the
        local user stops showing as typing. */
    method TypingExpired()
      modifies this`isTyping, this`users
      ensures !isTyping
      ensures users == SetTypingByName(old(users), You, false)
    {
      isTyping := false;
      users := SetTypingByName(users, You, false);
    }

    /** Sending: a blank input changes nothing; otherwise the trimmed text is
        appended as the local user's message, the input clears and the local
        user stops typing. */
    method HandleSendMessage(id: string, timestamp: string) returns (sent: bool)
      modifies this`messages, this`newMessage, this`isTyping, this`users
      ensures sent <==> Trim(old(newMessage)) != []
      ensures !sent ==>
        && messages == old(messages) && newMessage == old(newMessage)
        && isTyping == old(isTyping) && users == old(users)
      ensures sent ==>
        && messages == old(messages) + [Message(id, You, Trim(old(newMessage)), timestamp, true)]
        && newMessage == "" && !isTyping
        && users == SetTypingByName(old(users), You, false)
    {
      var text := Trim(newMessage);
      sent := text != [];
      if sent {
        Send(Message(id, You, text, timestamp, true));
      }
    }

    /** The four state updates of a non-blank send: `m` is appended, the
        input clears, and the local user stops typing. */
    method Send(m: Message)
      modifies this`messages, this`newMessage, this`isTyping, this`users
      ensures messages == old(messages) + [m]
      ensures newMessage == "" && !isTyping
      ensures users == SetTypingByName(old(users), You, false)
    {
      messages := messages + [m];
      newMessage := "";
      isTyping := false;
      users := SetTypingByName(users, You, false);
    }

    /** The three-second timer of the users effect: when somebody types, the
        first typing user in list order posts the scripted text and stops
        typing. That user can be the local one, whose reply is then shown as
        another user's. */
    method ScriptedReply(id: string, timestamp: string) returns (replied: bool)
      modifies this`messages, this`users
      ensures replied <==> FirstTyping(old(users)).Some?
      ensures !replied ==> messages == old(messages) && users == old(users)
      ensures replied ==>
        var u := old(users)[FirstTyping(old(users)).value];
        && messages == old(messages) + [Message(id, u.name, ScriptedText, timestamp, false)]
        && users == StopTypingById(old(users), u.id)
        && TypingCount(users) < TypingCount(old(users))
    {
      var first := FirstTyping(users);
      replied := first.Some?;
      if first.Some? {
        var u := users[first.value];
        ScriptedReplyStopsOne(users);
        messages := messages + [Message(id, u.name, ScriptedText, timestamp, false)];
        users := StopTypingById(users, u.id);
      }
    }
  }
}
