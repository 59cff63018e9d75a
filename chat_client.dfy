/** The chat room view of the real-time chat client
    (FullStackIntegration/Experiment-17b/frontend/src/components/ChatRoom.tsx).

    The listeners registered on the socket update three pieces of React state with pure
    updater functions: the message log, the online-user list and the typing-user list.
    The form handlers emit on the socket. The updaters are functions here; the
    component's state and its socket emits are a class. */
module ChatClient {
  import opened Wrappers
  import opened Strings
  import PresenceRelay

  /** A log entry. A chat `Message` has an `id`; a `SystemMessage` (join/leave notice)
      has none. */
  datatype Entry = Entry(id: Option<int>, username: string, message: string, timestamp: int)

  datatype TypingUser = TypingUser(username: string, isTyping: bool)

  /** What the client sends through the socket service. */
  datatype Outgoing = JoinChat(username: string) | SendText(message: string) | SendTyping(isTyping: bool)

  /** The events the component listens to. */
  datatype Incoming =
    | ReceiveMessage(entry: Entry)
    | UserJoined(entry: Entry)
    | UserLeft(entry: Entry)
    | UsersList(users: seq<PresenceRelay.User>)
    | UserTyping(data: TypingUser)

  /** `isSystemMessage`: no `id` field. */
  predicate IsSystemMessage(m: Entry) {
    m.id.None?
  }

  /** `isUserMessage`: an `id` field; the exact complement of `IsSystemMessage`. */
  function IsUserMessage(m: Entry): (r: bool)
    ensures r <==> !IsSystemMessage(m)
  {
    m.id.Some?
  }

  // ---------------------------------------------------------------------------
  // State updaters

  /** `prev => [...prev, entry]` (the three message-log listeners). */
  function AppendEntry(log: seq<Entry>, entry: Entry): (r: seq<Entry>)
    ensures |r| == |log| + 1 && r[|log|] == entry
    ensures forall i :: 0 <= i < |log| ==> r[i] == log[i]
  {
    log + [entry]
  }

  /** `prev.filter(user => user.username !== name)`. */
  function WithoutUser(prev: seq<TypingUser>, name: string): (r: seq<TypingUser>)
    ensures |r| <= |prev|
    ensures forall t :: t in r <==> t in prev && t.username != name
  {
    if prev == [] then []
    else if prev[0].username == name then WithoutUser(prev[1..], name)
    else [prev[0]] + WithoutUser(prev[1..], name)
  }

  /** The `user_typing` updater: drop the sender's entry, then put `data` at the end if
      the sender is typing. */
  function UpdateTyping(prev: seq<TypingUser>, data: TypingUser): seq<TypingUser> {
    var others := WithoutUser(prev, data.username);
    if data.isTyping then others + [data] else others
  }

  /** The name occurs at most once in the list. */
  predicate AtMostOnce(s: seq<TypingUser>, name: string) {
    forall i, j :: 0 <= i < |s| && 0 <= j < |s| && s[i].username == name && s[j].username == name ==> i == j
  }

  predicate UniqueNames(s: seq<TypingUser>) {
    forall i, j :: 0 <= i < j < |s| ==> s[i].username != s[j].username
  }

  lemma {:induction false} WithoutUserConcat(a: seq<TypingUser>, b: seq<TypingUser>, name: string)
    ensures WithoutUser(a + b, name) == WithoutUser(a, name) + WithoutUser(b, name)
  {
    if a == [] {
      assert a + b == b;
    } else {
      assert (a + b)[0] == a[0] && (a + b)[1..] == a[1..] + b;
      WithoutUserConcat(a[1..], b, name);
    }
  }

  lemma {:induction false} WithoutUserIdempotent(s: seq<TypingUser>, name: string)
    ensures WithoutUser(WithoutUser(s, name), name) == WithoutUser(s, name)
  {
    if s != [] {
      WithoutUserIdempotent(s[1..], name);
      if s[0].username != name {
        assert ([s[0]] + WithoutUser(s[1..], name))[1..] == WithoutUser(s[1..], name);
      }
    }
  }

  /** After a typing update the sender's name is present iff it is typing; when present
      it occurs once, as the last entry, and is exactly the received `data`. */
  lemma TypingPresence(prev: seq<TypingUser>, data: TypingUser)
    ensures var r := UpdateTyping(prev, data);
      && AtMostOnce(r, data.username)
      && ((exists i :: 0 <= i < |r| && r[i].username == data.username) <==> data.isTyping)
      && (data.isTyping ==> r[|r| - 1] == data)
  {
    var others := WithoutUser(prev, data.username);
    var r := UpdateTyping(prev, data);
    assert forall i :: 0 <= i < |others| ==> others[i] in others;
    if data.isTyping {
      assert r[|r| - 1] == data;
    }
  }

  /** Entries for the other users keep their relative order: filtering the sender out of
      the result gives what filtering it out of the old list gives. */
  lemma TypingKeepsOthers(prev: seq<TypingUser>, data: TypingUser)
    ensures WithoutUser(UpdateTyping(prev, data), data.username) == WithoutUser(prev, data.username)
  {
    var others := WithoutUser(prev, data.username);
    WithoutUserIdempotent(prev, data.username);
    if data.isTyping {
      WithoutUserConcat(others, [data], data.username);
      assert WithoutUser([data], data.username) == [];
    }
  }

  /** Applying the same typing update twice is applying it once. */
  lemma TypingIdempotent(prev: seq<TypingUser>, data: TypingUser)
    ensures UpdateTyping(UpdateTyping(prev, data), data) == UpdateTyping(prev, data)
  {
    TypingKeepsOthers(prev, data);
  }

  lemma {:induction false} WithoutUserKeepsNamesUnique(s: seq<TypingUser>, name: string)
    requires UniqueNames(s)
    ensures UniqueNames(WithoutUser(s, name))
  {
    if s != [] {
      WithoutUserKeepsNamesUnique(s[1..], name);
      if s[0].username != name {
        var rest := WithoutUser(s[1..], name);
        forall j | 0 <= j < |rest| ensures rest[j].username != s[0].username {
          assert rest[j] in s[1..];
          var k :| 0 <= k < |s[1..]| && s[1..][k] == rest[j];
          assert s[k + 1] == rest[j];
        }
      }
    }
  }

  /** If every user appeared at most once before a typing update, the same holds after. */
  lemma TypingKeepsNamesUnique(prev: seq<TypingUser>, data: TypingUser)
    requires UniqueNames(prev)
    ensures UniqueNames(UpdateTyping(prev, data))
  {
    WithoutUserKeepsNamesUnique(prev, data.username);
    var others := WithoutUser(prev, data.username);
    assert forall i :: 0 <= i < |others| ==> others[i] in others;
  }

  // ---------------------------------------------------------------------------
  // The component

  class ChatRoom {
    const username: string
    var messages: seq<Entry>
    var users: seq<PresenceRelay.User>
    var typingUsers: seq<TypingUser>
    var newMessage: string
    var isConnected: bool
    /** What has been emitted on the socket, in order. */
    var sent: seq<Outgoing>

    constructor (username: string)
      ensures this.username == username
      ensures messages == [] && users == [] && typingUsers == [] && newMessage == ""
      ensures !isConnected && sent == []
    {
      this.username := username;
      messages, users, typingUsers, newMessage, isConnected, sent := [], [], [], "", false, [];
    }

    /** `onConnect`: mark connected and join under the component's user name. */
    method OnConnect()
      modifies this
      ensures isConnected && sent == old(sent) + [JoinChat(username)]
      ensures messages == old(messages) && users == old(users) && typingUsers == old(typingUsers)
      ensures newMessage == old(newMessage)
    {
      isConnected := true;
      sent := sent + [JoinChat(username)];
    }

    /** `onDisconnect` and `onConnectError`. */
    method OnDisconnect()
      modifies this`isConnected
      ensures !isConnected
    {
      isConnected := false;
    }

    /** One socket event through its listener's updater. */
    method Receive(ev: Incoming)
      modifies this`messages, this`users, this`typingUsers
      ensures ev.ReceiveMessage? || ev.UserJoined? || ev.UserLeft? ==>
        messages == old(messages) + [ev.entry] &&
        users == old(users) && typingUsers == old(typingUsers)
      ensures ev.UsersList? ==>
        users == ev.users && messages == old(messages) && typingUsers == old(typingUsers)
      ensures ev.UserTyping? ==>
        typingUsers == UpdateTyping(old(typingUsers), ev.data) &&
        messages == old(messages) && users == old(users)
    {
      match ev
      case ReceiveMessage(m) => messages := AppendEntry(messages, m);
      case UserJoined(m) => messages := AppendEntry(messages, m);
      case UserLeft(m) => messages := AppendEntry(messages, m);
      case UsersList(list) => users := list;
      case UserTyping(data) => typingUsers := UpdateTyping(typingUsers, data);
    }

    /** `handleSendMessage`: only a non-blank input on a connected client is sent, trimmed;
        then the input is cleared and a stop-typing signal follows. */
    method SendMessage()
      modifies this`newMessage, this`sent
      ensures IsBlank(old(newMessage)) || !isConnected ==>
        newMessage == old(newMessage) && sent == old(sent)
      ensures !IsBlank(old(newMessage)) && isConnected ==>
        newMessage == "" &&
        sent == old(sent) + [SendText(Trim(old(newMessage))), SendTyping(false)]
      ensures !IsBlank(old(newMessage)) && isConnected ==> Trim(old(newMessage)) != ""
    {
      var text := Trim(newMessage);
      if text != "" && isConnected {
        sent := sent + [SendText(text)];
        newMessage := "";
        sent := sent + [SendTyping(false)];
      }
    }

    /** `handleInputChange`: store the input and signal typing. */
    method InputChange(value: string)
      modifies this`newMessage, this`sent
      ensures newMessage == value && sent == old(sent) + [SendTyping(true)]
    {
      newMessage := value;
      sent := sent + [SendTyping(true)];
    }
  }
}
