/** The Socket.IO presence relay of the real-time chat backend
    (FullStackIntegration/Experiment-17b/backend/server.js).

    The relay keeps a process-wide registry of joined connections (a JavaScript `Map`,
    modelled as a sequence of users in insertion order with unique connection ids) and
    reacts to four events, each handled in one synchronous step: update the registry,
    then emit. Emits are recorded in an outbox as (recipient set, event) pairs with
    Socket.IO's recipient rules: `io.emit` reaches every connected socket and
    `socket.broadcast.emit` every connected socket except the sender, whether or not
    those sockets ever joined. */
module PresenceRelay {
  import opened Wrappers

  /** Socket.IO's `socket.id`. */
  type ConnId = string

  /** A registry value: `{ id, username, joinedAt }`. */
  datatype User = User(id: ConnId, username: string, joinedAt: int)

  /** The outbound events and their payloads. Timestamps and message ids are clock
      readings supplied by the caller. */
  datatype Event =
    | UserJoined(username: string, message: string, timestamp: int)
    | UsersList(users: seq<User>)
    | ReceiveMessage(id: int, username: string, message: string, timestamp: int)
    | UserTyping(username: string, isTyping: bool)
    | UserLeft(username: string, message: string, timestamp: int)

  datatype Emit = Emit(recipients: set<ConnId>, event: Event)

  /** The presence history that the registry summarises: who joined, who disconnected. */
  datatype Presence = Joined(conn: ConnId) | Left(conn: ConnId)

  // ---------------------------------------------------------------------------
  // The registry as an insertion-ordered map

  function Keys(users: seq<User>): set<ConnId> {
    set i | 0 <= i < |users| :: users[i].id
  }

  predicate UniqueIds(users: seq<User>) {
    forall i, j :: 0 <= i < j < |users| ==> users[i].id != users[j].id
  }

  /** With unique ids, the number of entries is the number of keys. */
  lemma {:induction false} SizeIsKeyCount(users: seq<User>)
    requires UniqueIds(users)
    ensures |Keys(users)| == |users|
  {
    if users != [] {
      var tail := users[1..];
      assert DeletedAt(users, tail, 0);
      DeleteKeepsUnique(users, tail, 0);
      DeleteKeys(users, tail, 0);
      SizeIsKeyCount(tail);
      assert users[0].id in Keys(users);
      assert Keys(users) == Keys(tail) + {users[0].id};
    }
  }

  /** `users.get(c)`: the first entry with key `c`. */
  function Find(users: seq<User>, c: ConnId): (r: Option<User>)
    ensures r.Some? <==> c in Keys(users)
    ensures r.Some? ==> r.value in users && r.value.id == c
  {
    if users == [] then None
    else if users[0].id == c then Some(users[0])
    else
      var r := Find(users[1..], c);
      assert c in Keys(users) <==> c in Keys(users[1..]) by {
        if c in Keys(users) {
          var i :| 0 <= i < |users| && users[i].id == c;
          assert users[1..][i - 1].id == c;
        }
        if c in Keys(users[1..]) {
          var i :| 0 <= i < |users[1..]| && users[1..][i].id == c;
          assert users[i + 1].id == c;
        }
      }
      r
  }

  /** With unique ids, looking up the key stored at index `i` yields that entry. */
  lemma {:induction false} FindAt(users: seq<User>, i: nat)
    requires UniqueIds(users) && i < |users|
    ensures Find(users, users[i].id) == Some(users[i])
  {
    if i > 0 {
      assert users[1..][i - 1] == users[i];
      FindAt(users[1..], i - 1);
    }
  }

  /** Where key `c` sits in insertion order. */
  function Position(users: seq<User>, c: ConnId): (k: nat)
    requires c in Keys(users)
    ensures k < |users| && users[k].id == c
    ensures forall i :: 0 <= i < k ==> users[i].id != c
  {
    if users[0].id == c then 0
    else
      assert c in Keys(users[1..]) by {
        var i :| 0 <= i < |users| && users[i].id == c;
        assert users[1..][i - 1].id == c;
      }
      1 + Position(users[1..], c)
  }

  /** Two registries with unique ids that hold the same entries at the same keys. */
  lemma SameLookups(a: seq<User>, b: seq<User>, c: ConnId)
    requires UniqueIds(a) && UniqueIds(b)
    requires forall i :: 0 <= i < |a| && a[i].id == c ==> exists j :: 0 <= j < |b| && b[j] == a[i]
    requires forall j :: 0 <= j < |b| && b[j].id == c ==> exists i :: 0 <= i < |a| && a[i] == b[j]
    ensures Find(a, c) == Find(b, c)
  {
    if c in Keys(a) {
      var i :| 0 <= i < |a| && a[i].id == c;
      var j :| 0 <= j < |b| && b[j] == a[i];
      FindAt(a, i);
      FindAt(b, j);
    }
  }

  /** `r` is `users` with `u` written at index `k`: either over the entry with the same
      key, or appended at the end. */
  predicate WrittenAt(users: seq<User>, r: seq<User>, k: nat, u: User) {
    && k <= |users| && |r| == |users| + (if k == |users| then 1 else 0) && r[k] == u
    && (k < |users| ==> users[k].id == u.id)
    && (k == |users| ==> u.id !in Keys(users))
    && forall i :: 0 <= i < |users| && i != k ==> r[i] == users[i]
  }

  lemma WriteKeepsUnique(users: seq<User>, r: seq<User>, k: nat, u: User)
    requires UniqueIds(users) && WrittenAt(users, r, k, u)
    ensures UniqueIds(r)
  {
    forall i, j | 0 <= i < j < |r| ensures r[i].id != r[j].id {
      if i != k && j != k {
        assert r[i] == users[i] && r[j] == users[j];
      } else if i == k {
        assert r[j] == users[j] && users[j].id in Keys(users);
        if k < |users| {
          assert users[k].id != users[j].id;
        }
      } else {
        assert r[i] == users[i] && users[i].id in Keys(users);
        if k < |users| {
          assert users[i].id != users[k].id;
        }
      }
    }
  }

  lemma WriteKeys(users: seq<User>, r: seq<User>, k: nat, u: User)
    requires WrittenAt(users, r, k, u)
    ensures Keys(r) == Keys(users) + {u.id}
  {
    forall c | c in Keys(r) ensures c in Keys(users) + {u.id} {
      var i :| 0 <= i < |r| && r[i].id == c;
      if i != k {
        assert users[i].id == c;
      }
    }
    forall c | c in Keys(users) + {u.id} ensures c in Keys(r) {
      if c == u.id {
        assert r[k].id == c;
      } else {
        var j :| 0 <= j < |users| && users[j].id == c;
        assert r[j].id == c;
      }
    }
  }

  lemma WriteLookups(users: seq<User>, r: seq<User>, k: nat, u: User)
    requires UniqueIds(users) && UniqueIds(r) && WrittenAt(users, r, k, u)
    ensures Find(r, u.id) == Some(u)
    ensures forall c :: c != u.id ==> Find(r, c) == Find(users, c)
  {
    FindAt(r, k);
    forall c | c != u.id ensures Find(r, c) == Find(users, c) {
      forall i | 0 <= i < |r| && r[i].id == c
        ensures exists j :: 0 <= j < |users| && users[j] == r[i]
      {
        assert users[i] == r[i];
      }
      forall j | 0 <= j < |users| && users[j].id == c
        ensures exists i :: 0 <= i < |r| && r[i] == users[j]
      {
        assert r[j] == users[j];
      }
      SameLookups(r, users, c);
    }
  }

  /** `users.set(u.id, u)`: an existing key keeps its place and gets the new value, a new
      key goes at the end; every other entry is unchanged. */
  function Put(users: seq<User>, u: User): (r: seq<User>)
    requires UniqueIds(users)
    ensures UniqueIds(r)
    ensures Keys(r) == Keys(users) + {u.id}
    ensures Find(r, u.id) == Some(u)
    ensures forall c :: c != u.id ==> Find(r, c) == Find(users, c)
    ensures |r| == if u.id in Keys(users) then |users| else |users| + 1
    ensures u.id in Keys(users) ==> r == users[Position(users, u.id) := u]
    ensures u.id !in Keys(users) ==> r == users + [u]
  {
    var k := if u.id in Keys(users) then Position(users, u.id) else |users|;
    var r := if u.id in Keys(users) then users[k := u] else users + [u];
    assert WrittenAt(users, r, k, u);
    WriteKeepsUnique(users, r, k, u);
    WriteKeys(users, r, k, u);
    WriteLookups(users, r, k, u);
    r
  }

  /** `r` is `users` without the entry at index `k`, the others in their order. */
  predicate DeletedAt(users: seq<User>, r: seq<User>, k: nat) {
    && k < |users| && |r| == |users| - 1
    && (forall i :: 0 <= i < k ==> r[i] == users[i])
    && (forall i :: k <= i < |r| ==> r[i] == users[i + 1])
  }

  lemma DeleteKeepsUnique(users: seq<User>, r: seq<User>, k: nat)
    requires UniqueIds(users) && DeletedAt(users, r, k)
    ensures UniqueIds(r)
    ensures forall i :: 0 <= i < |r| ==> r[i].id != users[k].id
  {
    forall i, j | 0 <= i < j < |r| ensures r[i].id != r[j].id {
      var i' := if i < k then i else i + 1;
      var j' := if j < k then j else j + 1;
      assert r[i] == users[i'] && r[j] == users[j'];
    }
    forall i | 0 <= i < |r| ensures r[i].id != users[k].id {
      if i < k { assert r[i] == users[i]; } else { assert r[i] == users[i + 1]; }
    }
  }

  lemma DeleteKeys(users: seq<User>, r: seq<User>, k: nat)
    requires UniqueIds(users) && DeletedAt(users, r, k)
    ensures Keys(r) == Keys(users) - {users[k].id}
  {
    DeleteKeepsUnique(users, r, k);
    forall d | d in Keys(r) ensures d in Keys(users) - {users[k].id} {
      var i :| 0 <= i < |r| && r[i].id == d;
      if i < k { assert users[i].id == d; } else { assert users[i + 1].id == d; }
    }
    forall d | d in Keys(users) - {users[k].id} ensures d in Keys(r) {
      var j :| 0 <= j < |users| && users[j].id == d;
      if j < k { assert r[j].id == d; } else { assert r[j - 1].id == d; }
    }
  }

  lemma DeleteLookups(users: seq<User>, r: seq<User>, k: nat)
    requires UniqueIds(users) && UniqueIds(r) && DeletedAt(users, r, k)
    ensures forall d :: d != users[k].id ==> Find(r, d) == Find(users, d)
  {
    forall d | d != users[k].id ensures Find(r, d) == Find(users, d) {
      forall i | 0 <= i < |r| && r[i].id == d
        ensures exists j :: 0 <= j < |users| && users[j] == r[i]
      {
        if i < k { assert users[i] == r[i]; } else { assert users[i + 1] == r[i]; }
      }
      forall j | 0 <= j < |users| && users[j].id == d
        ensures exists i :: 0 <= i < |r| && r[i] == users[j]
      {
        if j < k { assert r[j] == users[j]; } else { assert r[j - 1] == users[j]; }
      }
      SameLookups(r, users, d);
    }
  }

  /** `users.delete(c)`: removes that key only; the others keep their order. */
  function Remove(users: seq<User>, c: ConnId): (r: seq<User>)
    requires UniqueIds(users)
    ensures UniqueIds(r)
    ensures Keys(r) == Keys(users) - {c}
    ensures Find(r, c) == None
    ensures forall d :: d != c ==> Find(r, d) == Find(users, d)
    ensures |r| == if c in Keys(users) then |users| - 1 else |users|
    ensures c in Keys(users) ==> r == users[..Position(users, c)] + users[Position(users, c) + 1..]
  {
    if c !in Keys(users) then users
    else
      var k := Position(users, c);
      var r := users[..k] + users[k + 1..];
      assert DeletedAt(users, r, k);
      DeleteKeepsUnique(users, r, k);
      DeleteKeys(users, r, k);
      DeleteLookups(users, r, k);
      r
  }

  // ---------------------------------------------------------------------------
  // Presence history

  /** The connections that joined and have not disconnected since. */
  function Live(history: seq<Presence>): set<ConnId> {
    if history == [] then {}
    else
      var last := history[|history| - 1];
      var before := Live(history[..|history| - 1]);
      if last.Joined? then before + {last.conn} else before - {last.conn}
  }

  lemma LiveAppend(history: seq<Presence>, p: Presence)
    ensures p.Joined? ==> Live(history + [p]) == Live(history) + {p.conn}
    ensures p.Left? ==> Live(history + [p]) == Live(history) - {p.conn}
  {
    assert (history + [p])[..|history|] == history;
  }

  /** Registry size equals the number of connections that joined and have not
      disconnected, whenever the registry holds exactly those connections. */
  lemma RegistrySizeIsLiveCount(users: seq<User>, history: seq<Presence>)
    requires UniqueIds(users) && Keys(users) == Live(history)
    ensures |users| == |Live(history)|
  {
    SizeIsKeyCount(users);
  }

  function JoinedText(username: string): string { username + " joined the chat" }

  function LeftText(username: string): string { username + " left the chat" }

  // ---------------------------------------------------------------------------
  // The relay

  class Relay {
    /** Sockets currently connected to the namespace. */
    var connected: set<ConnId>
    /** The `users` Map, in insertion order. */
    var users: seq<User>
    /** Everything emitted so far, in emission order. */
    var outbox: seq<Emit>
    ghost var history: seq<Presence>

    ghost predicate Valid()
      reads this
    {
      UniqueIds(users) && Keys(users) <= connected && Keys(users) == Live(history)
    }

    constructor ()
      ensures Valid()
      ensures connected == {} && users == [] && outbox == [] && history == []
    {
      connected, users, outbox, history := {}, [], [], [];
    }

    /** A socket connects: it is connected but has not joined. */
    method Connect(c: ConnId)
      requires Valid() && c !in connected
      modifies this
      ensures Valid()
      ensures connected == old(connected) + {c}
      ensures users == old(users) && outbox == old(outbox) && history == old(history)
    {
      connected := connected + {c};
    }

    /** `user_join`: register (or re-register) the sender under `username`, which is not
        validated; tell the other sockets, then send the whole list to everyone. The
        handler reads the clock twice: `joinedAt` for the registry entry, `announcedAt`
        for the announcement. */
    method Join(c: ConnId, username: string, joinedAt: int, announcedAt: int)
      requires Valid() && c in connected
      modifies this
      ensures Valid()
      ensures users == Put(old(users), User(c, username, joinedAt))
      ensures Find(users, c) == Some(User(c, username, joinedAt))
      ensures forall d :: d != c ==> Find(users, d) == Find(old(users), d)
      ensures c in Keys(old(users)) ==> |users| == |old(users)|
      ensures c !in Keys(old(users)) ==> |users| == |old(users)| + 1
      ensures outbox == old(outbox) + [
        Emit(connected - {c}, UserJoined(username, JoinedText(username), announcedAt)),
        Emit(connected, UsersList(users))]
      ensures connected == old(connected) && history == old(history) + [Joined(c)]
    {
      var next := Put(users, User(c, username, joinedAt));
      LiveAppend(history, Joined(c));
      users := next;
      history := history + [Joined(c)];
      outbox := outbox + [Emit(connected - {c}, UserJoined(username, JoinedText(username), announcedAt)),
                          Emit(connected, UsersList(next))];
    }

    /** `send_message`: a registered sender's message goes to every connected socket,
        itself included, stamped with its registered name; the body is passed on as is.
        An unregistered sender changes nothing. */
    method SendMessage(c: ConnId, message: string, id: int, now: int)
      requires Valid() && c in connected
      modifies this
      ensures Valid()
      ensures users == old(users) && connected == old(connected) && history == old(history)
      ensures c !in Keys(users) ==> outbox == old(outbox)
      ensures c in Keys(users) ==>
        outbox == old(outbox) +
          [Emit(connected, ReceiveMessage(id, Find(users, c).value.username, message, now))]
    {
      var user := Find(users, c);
      if user.Some? {
        outbox := outbox + [Emit(connected, ReceiveMessage(id, user.value.username, message, now))];
      }
    }

    /** `typing`: a registered sender's typing state goes to every other connected socket
        under its registered name. An unregistered sender changes nothing. */
    method Typing(c: ConnId, isTyping: bool)
      requires Valid() && c in connected
      modifies this
      ensures Valid()
      ensures users == old(users) && connected == old(connected) && history == old(history)
      ensures c !in Keys(users) ==> outbox == old(outbox)
      ensures c in Keys(users) ==>
        outbox == old(outbox) +
          [Emit(connected - {c}, UserTyping(Find(users, c).value.username, isTyping))]
    {
      var user := Find(users, c);
      if user.Some? {
        outbox := outbox + [Emit(connected - {c}, UserTyping(user.value.username, isTyping))];
      }
    }

    /** `disconnect`: the socket has already left the namespace when the handler runs. A
        registered connection loses exactly its own entry; the remaining sockets get
        `user_left` and then the shrunk list. An unregistered one emits nothing. */
    method Disconnect(c: ConnId, now: int)
      requires Valid() && c in connected
      modifies this
      ensures Valid()
      ensures connected == old(connected) - {c}
      ensures history == old(history) + [Left(c)]
      ensures users == Remove(old(users), c)
      ensures forall d :: d != c ==> Find(users, d) == Find(old(users), d)
      ensures c !in Keys(old(users)) ==> users == old(users) && outbox == old(outbox)
      ensures c in Keys(old(users)) ==>
        |users| == |old(users)| - 1 &&
        var name := Find(old(users), c).value.username;
        outbox == old(outbox) + [
          Emit(connected, UserLeft(name, LeftText(name), now)),
          Emit(connected, UsersList(users))]
    {
      connected := connected - {c};
      var user := Find(users, c);
      LiveAppend(history, Left(c));
      history := history + [Left(c)];
      if user.Some? {
        users := Remove(users, c);
        var name := user.value.username;
        outbox := outbox + [Emit(connected, UserLeft(name, LeftText(name), now))];
        outbox := outbox + [Emit(connected, UsersList(users))];
      }
    }

    /** `GET /api/users`: the registry values in insertion order, one per connection that
        joined and has not disconnected. */
    function OnlineUsers(): (r: seq<User>)
      reads this
      requires Valid()
      ensures Keys(r) == Live(history)
      ensures |r| == |Live(history)|
      ensures forall c :: c in Live(history) ==> Find(r, c) == Find(users, c)
    {
      RegistrySizeIsLiveCount(users, history);
      users
    }
  }

  /** Nothing stops two connections from registering the same name: each gets its own
      entry, in join order. */
  lemma SameNameTwice()
    ensures var one := Put([], User("c1", "alice", 1));
      Put(one, User("c2", "alice", 2)) == [User("c1", "alice", 1), User("c2", "alice", 2)]
  {
    var one := Put([], User("c1", "alice", 1));
    assert Keys([]) == {};
    assert one == [User("c1", "alice", 1)];
    assert Keys(one) == {"c1"};
    assert "c1"[1] != "c2"[1];
  }
}
