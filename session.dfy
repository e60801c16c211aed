/** The socket server's session rooms: the in-memory `rooms` registry keyed by room
    id, the per-room member list (insertion-ordered, so "next host" is the earliest
    remaining member), the host role, the edit lock and the chat history, and the
    event handlers that update them.

    Each handler runs to completion before the next (one event loop), so each is one
    atomic step here. What a handler emits is returned as a list of (audience, event)
    pairs; an audience is a socket.io target: one socket, everyone in a socket.io
    room, or everyone in it but the sender. A string field the client leaves out is
    modelled as "". */
module Session {
  import opened Common
  import opened Members

  type SocketId = string
  type RoomId = string

  datatype User = User(username: string, color: string, isHost: bool)

  datatype ChatMessage = ChatMessage(username: string, message: string, timestamp: string, isSystem: bool)

  datatype Room = Room(
    code: string,
    language: string,
    users: seq<Entry<User>>,
    messages: seq<ChatMessage>,
    hostId: SocketId,
    isLocked: bool)

  /** One member as listed in a `joined` event. */
  datatype ClientInfo = ClientInfo(socketId: SocketId, username: string, color: string, isHost: bool)

  datatype Event =
    | Joined(clients: seq<ClientInfo>, username: string, socketId: SocketId, hostId: SocketId, isLocked: bool)
    | SyncCode(code: string, language: string, hostId: SocketId, isLocked: bool, messages: seq<ChatMessage>)
    | CodeChange(code: string)
    | LanguageChange(language: string)
    | CursorUpdate(socketId: SocketId, username: string, color: string, lineNumber: int, column: int)
    | ReceiveMessage(msg: ChatMessage)
    | LockChanged(isLocked: bool, lockedBy: string)
    | HostChanged(newHostId: SocketId, newHostName: string, isLocked: bool)
    | Disconnected(socketId: SocketId, username: string)
    | EditRejected(reason: string)

  datatype Audience = ToSocket(id: SocketId) | ToRoom(room: RoomId) | ToRoomExcept(room: RoomId, except: SocketId)

  datatype Emit = Emit(to: Audience, event: Event)

  /** The code a new room starts with. */
  const InitialCode: string := "// JavaScript - Start coding here\nconsole.log(\"Hello, SyncCode!\");\n"

  const CodeLockedReason: string := "Room is locked. Only the host can edit."
  const SettingsLockedReason: string := "Room is locked. Only the host can change settings."
  const NotHostReason: string := "Only the host can lock/unlock the room."

  /** What every room in the registry satisfies between handlers: it has a member,
      its host is one of its members, and no member is listed twice. */
  predicate RoomValid(room: Room) {
    room.users != [] && HasKey(room.users, room.hostId) && DistinctKeys(room.users)
  }

  // ---------------------------------------------------------------------------
  // Room-level steps
  // ---------------------------------------------------------------------------

  /** The room after `sid` joins: `existing` is the room registered under the id,
      if any; an unseen id gets a fresh room hosted by the joiner. */
  function JoinRoom(existing: Option<Room>, sid: SocketId, username: string, color: string): (r: Room)
    ensures existing.None? ==>
      r == Room(InitialCode, "javascript", [Entry(sid, User(username, color, true))], [], sid, false)
    ensures existing.Some? ==>
      && r.hostId == existing.value.hostId && r.isLocked == existing.value.isLocked
      && r.code == existing.value.code && r.language == existing.value.language
      && r.messages == existing.value.messages
      && r.users == Put(existing.value.users, sid, User(username, color, existing.value.hostId == sid))
  {
    var isNewRoom := existing.None?;
    var room := if isNewRoom then Room(InitialCode, "javascript", [], [], sid, false) else existing.value;
    var isHost := room.hostId == sid || isNewRoom;
    room.(users := Put(room.users, sid, User(username, color, isHost)))
  }

  /** Joining establishes the room invariant on a new room and keeps it on an
      existing one. */
  lemma JoinKeepsValid(existing: Option<Room>, sid: SocketId, username: string, color: string)
    requires existing.Some? ==> RoomValid(existing.value)
    ensures RoomValid(JoinRoom(existing, sid, username, color))
  {
    if existing.Some? {
      var e := existing.value;
      var u := User(username, color, e.hostId == sid);
      PutDistinct(e.users, sid, u);
      PutHasKey(e.users, sid, u, e.hostId);
    }
  }

  /** A re-join by a socket already in the room overwrites its entry where it
      stands: no duplicate, no reordering, every other member untouched. */
  lemma RejoinInPlace(room: Room, sid: SocketId, username: string, color: string)
    requires HasKey(room.users, sid)
    ensures var r := JoinRoom(Some(room), sid, username, color); var p := IndexOf(room.users, sid);
      && |r.users| == |room.users|
      && r.users[p] == Entry(sid, User(username, color, room.hostId == sid))
      && forall j :: 0 <= j < |room.users| && j != p ==> r.users[j] == room.users[j]
  {
    PutPresent(room.users, sid, User(username, color, room.hostId == sid));
  }

  /** A first join by a socket appends it as the last member. */
  lemma FirstJoinAppends(room: Room, sid: SocketId, username: string, color: string)
    requires RoomValid(room) && !HasKey(room.users, sid)
    ensures JoinRoom(Some(room), sid, username, color).users
         == room.users + [Entry(sid, User(username, color, false))]
  {
    PutAbsent(room.users, sid, User(username, color, false));
  }

  /** The member list sent in `joined`: every member in insertion order, flagged
      as host exactly when it is the room's current host. */
  function ClientList(room: Room): (r: seq<ClientInfo>)
    ensures |r| == |room.users|
    ensures forall i :: 0 <= i < |r| ==>
      r[i] == ClientInfo(room.users[i].key, room.users[i].val.username, room.users[i].val.color,
                         room.users[i].key == room.hostId)
  {
    seq(|room.users|, i requires 0 <= i < |room.users| =>
      var e := room.users[i];
      ClientInfo(e.key, e.val.username, e.val.color, e.key == room.hostId))
  }

  /** In a valid room the `joined` list marks exactly one member as host, and that
      member is the room's host. */
  lemma ExactlyOneHostListed(room: Room)
    requires RoomValid(room)
    ensures var cs := ClientList(room);
      exists i :: 0 <= i < |cs| && cs[i].isHost && cs[i].socketId == room.hostId
        && forall j :: 0 <= j < |cs| && cs[j].isHost ==> j == i
  {
    var cs := ClientList(room);
    var p := IndexOf(room.users, room.hostId);
    forall j | 0 <= j < |cs| && cs[j].isHost ensures j == p {
      if j > p { DistinctAt(room.users, p, j); }
    }
  }

  /** The room after `sid` leaves, or None when it was the last member (the room is
      then deleted). When the host leaves, the first remaining member becomes host
      and the lock is forced off; otherwise host and lock stay as they were. */
  function Leave(room: Room, sid: SocketId): (r: Option<Room>)
    ensures var rest := Remove(room.users, sid);
      && (r.None? <==> rest == [])
      && (r.Some? ==>
          && r.value.users == rest
          && r.value.code == room.code && r.value.language == room.language
          && r.value.messages == room.messages
          && (sid == room.hostId ==> r.value.hostId == rest[0].key && !r.value.isLocked)
          && (sid != room.hostId ==> r.value.hostId == room.hostId && r.value.isLocked == room.isLocked))
  {
    var wasHost := sid == room.hostId;
    var rest := Remove(room.users, sid);
    if rest == [] then None
    else if wasHost then Some(room.(users := rest, hostId := rest[0].key, isLocked := false))
    else Some(room.(users := rest))
  }

  /** Leaving keeps the room invariant, and the room disappears exactly when its
      last member leaves. */
  lemma LeaveKeepsValid(room: Room, sid: SocketId)
    requires RoomValid(room) && HasKey(room.users, sid)
    ensures Leave(room, sid).None? <==> |room.users| == 1
    ensures Leave(room, sid).Some? ==> RoomValid(Leave(room, sid).value)
  {
    var rest := Remove(room.users, sid);
    RemoveAt(room.users, sid);
    RemoveDistinct(room.users, sid);
    RemoveHasKey(room.users, sid, room.hostId);
  }

  /** Host hand-over picks the earliest-inserted member that is still present:
      every member who joined before the new host is the one who left. */
  lemma NewHostIsEarliestRemaining(room: Room, sid: SocketId)
    requires sid == room.hostId && Leave(room, sid).Some?
    ensures var h := Leave(room, sid).value.hostId;
      exists i :: 0 <= i < |room.users| && room.users[i].key == h && h != sid
        && forall j :: 0 <= j < i ==> room.users[j].key == sid
  {
    RemoveFirstRemaining(room.users, sid);
  }

  /** Whether a code or language change from `sid` is refused. */
  predicate EditBlocked(room: Room, sid: SocketId): (blocked: bool)
    ensures !room.isLocked ==> !blocked
    ensures sid == room.hostId ==> !blocked
    ensures room.isLocked && sid != room.hostId ==> blocked
  {
    room.isLocked && sid != room.hostId
  }

  /** `room.users.get(sid)?.username || 'Host'`. */
  function LockedBy(room: Room, sid: SocketId): (name: string)
    ensures name != ""
    ensures Get(room.users, sid).Some? && Get(room.users, sid).value.username != "" ==>
      name == Get(room.users, sid).value.username
    ensures Get(room.users, sid).None? || Get(room.users, sid).value.username == "" ==> name == "Host"
  {
    match Get(room.users, sid)
    case Some(u) => OrElse(u.username, "Host")
    case None => "Host"
  }

  // ---------------------------------------------------------------------------
  // Leaving every room a socket is in
  // ---------------------------------------------------------------------------

  /** One iteration of the `disconnecting` loop, for the socket.io room `roomId`. */
  function LeaveStep(rooms: map<RoomId, Room>, sid: SocketId, roomId: RoomId): (r: (map<RoomId, Room>, seq<Emit>))
    ensures r.1 == [] <==> !(roomId != sid && roomId in rooms && HasKey(rooms[roomId].users, sid))
    ensures forall e :: e in r.1 ==> !e.to.ToSocket? && e.to.room == roomId
  {
    if roomId == sid || roomId !in rooms || !HasKey(rooms[roomId].users, sid) then (rooms, [])
    else
      var room := rooms[roomId];
      var user := Get(room.users, sid).value;
      var left := Leave(room, sid);
      var hostEmit :=
        if sid == room.hostId && left.Some?
        then [Emit(ToRoom(roomId), HostChanged(left.value.hostId, left.value.users[0].val.username, false))]
        else [];
      var goneEmit := [Emit(ToRoomExcept(roomId, sid), Disconnected(sid, user.username))];
      (if left.None? then rooms - {roomId} else rooms[roomId := left.value], hostEmit + goneEmit)
  }

  /** What one leave step announces: nothing and no change unless the socket is a
      member; otherwise `disconnected` to the rest of the room, last, preceded by a
      `host_changed` naming the registry's new host, unlocked, exactly when the host
      left someone behind. */
  lemma LeaveStepEmits(rooms: map<RoomId, Room>, sid: SocketId, roomId: RoomId)
    ensures var r := LeaveStep(rooms, sid, roomId);
      var member := roomId != sid && roomId in rooms && HasKey(rooms[roomId].users, sid);
      && (!member ==> r == (rooms, []))
      && (member ==>
            r.1[|r.1| - 1] == Emit(ToRoomExcept(roomId, sid), Disconnected(sid, Get(rooms[roomId].users, sid).value.username)))
      && (|r.1| == 2 <==> member && sid == rooms[roomId].hostId && Remove(rooms[roomId].users, sid) != [])
      && (|r.1| == 2 ==>
            && roomId in r.0 && r.0[roomId].users != [] && r.1[0].to == ToRoom(roomId)
            && r.1[0].event == HostChanged(r.0[roomId].hostId, r.0[roomId].users[0].val.username, false)
            && r.0[roomId].hostId == r.0[roomId].users[0].key && !r.0[roomId].isLocked)
  {
  }

  /** The whole `disconnecting` loop over the socket's socket.io rooms, in order. */
  function LeaveAll(rooms: map<RoomId, Room>, sid: SocketId, ids: seq<RoomId>): (r: (map<RoomId, Room>, seq<Emit>))
    ensures |r.1| <= 2 * |ids|
    ensures forall e :: e in r.1 ==> !e.to.ToSocket? && e.to.room in ids
  {
    if ids == [] then (rooms, [])
    else
      var (rs, out) := LeaveAll(rooms, sid, ids[..|ids| - 1]);
      var (rs', out') := LeaveStep(rs, sid, ids[|ids| - 1]);
      (rs', out + out')
  }

  ghost predicate AllValid(rooms: map<RoomId, Room>) {
    forall id :: id in rooms ==> RoomValid(rooms[id])
  }

  /** One leave step keeps every room valid, touches only its own room, and leaves
      `sid` out of that room. */
  lemma LeaveStepSpec(rooms: map<RoomId, Room>, sid: SocketId, roomId: RoomId)
    requires AllValid(rooms)
    ensures var rs := LeaveStep(rooms, sid, roomId).0;
      && AllValid(rs)
      && rs.Keys <= rooms.Keys
      && (forall id :: id != roomId && id in rooms ==> id in rs && rs[id] == rooms[id])
      && (roomId != sid && roomId in rs ==> !HasKey(rs[roomId].users, sid))
  {
    if roomId != sid && roomId in rooms && HasKey(rooms[roomId].users, sid) {
      var room := rooms[roomId];
      LeaveKeepsValid(room, sid);
      RemoveHasKey(room.users, sid, sid);
    }
  }

  /** After `disconnecting`, every room is still valid, rooms the socket was not in
      are untouched, and no room it was in still lists it. */
  lemma {:induction false} LeaveAllSpec(rooms: map<RoomId, Room>, sid: SocketId, ids: seq<RoomId>)
    requires AllValid(rooms)
    ensures var rs := LeaveAll(rooms, sid, ids).0;
      && AllValid(rs)
      && rs.Keys <= rooms.Keys
      && (forall id :: id !in ids && id in rooms ==> id in rs && rs[id] == rooms[id])
      && (forall id :: id in ids && id != sid && id in rs ==> !HasKey(rs[id].users, sid))
  {
    if ids != [] {
      var init := ids[..|ids| - 1];
      var last := ids[|ids| - 1];
      LeaveAllSpec(rooms, sid, init);
      var rs0 := LeaveAll(rooms, sid, init).0;
      LeaveStepSpec(rs0, sid, last);
      assert forall id :: id in ids <==> id in init || id == last;
    }
  }

  // ---------------------------------------------------------------------------
  // The registry and its handlers
  // ---------------------------------------------------------------------------

  class SessionServer {
    /** `rooms`: room id to room state. */
    var rooms: map<RoomId, Room>

    ghost predicate Valid()
      reads this
    {
      AllValid(rooms)
    }

    constructor ()
      ensures Valid() && rooms == map[]
    {
      rooms := map[];
    }

    /** `join`: create the room on first sight with the joiner as host, add or
        overwrite the member, tell the room, and send the joiner the room state. */
    method OnJoin(sid: SocketId, roomId: RoomId, username: string, color: string, randomColor: string)
      returns (out: seq<Emit>)
      requires Valid()
      modifies this
      ensures Valid()
      ensures var existing := if roomId in old(rooms) then Some(old(rooms)[roomId]) else None;
        var room := JoinRoom(existing, sid, username, OrElse(color, randomColor));
        && rooms == old(rooms)[roomId := room]
        && out == [
          Emit(ToRoom(roomId), Joined(ClientList(room), username, sid, room.hostId, room.isLocked)),
          Emit(ToSocket(sid), SyncCode(room.code, room.language, room.hostId, room.isLocked, room.messages))]
    {
      var isNewRoom := roomId !in rooms;
      if isNewRoom {
        rooms := rooms[roomId := Room(InitialCode, "javascript", [], [], sid, false)];
      }
      var room := rooms[roomId];
      var userColor := OrElse(color, randomColor);
      var isHost := room.hostId == sid || isNewRoom;
      room := room.(users := Put(room.users, sid, User(username, userColor, isHost)));
      rooms := rooms[roomId := room];
      ghost var existing := if roomId in old(rooms) then Some(old(rooms)[roomId]) else None;
      assert room == JoinRoom(existing, sid, username, userColor);
      JoinKeepsValid(existing, sid, username, userColor);
      out := [
        Emit(ToRoom(roomId), Joined(ClientList(room), username, sid, room.hostId, room.isLocked)),
        Emit(ToSocket(sid), SyncCode(room.code, room.language, room.hostId, room.isLocked, room.messages))];
    }

    /** `code_change`: refused to a non-host while the room is locked; otherwise
        stored and passed to everyone else in the room. Unknown rooms are ignored. */
    method OnCodeChange(sid: SocketId, roomId: RoomId, code: string) returns (out: seq<Emit>)
      requires Valid()
      modifies this
      ensures Valid()
      ensures roomId !in old(rooms) ==> rooms == old(rooms) && out == []
      ensures roomId in old(rooms) && EditBlocked(old(rooms)[roomId], sid) ==>
        rooms == old(rooms) && out == [Emit(ToSocket(sid), EditRejected(CodeLockedReason))]
      ensures roomId in old(rooms) && !EditBlocked(old(rooms)[roomId], sid) ==>
        && rooms == old(rooms)[roomId := old(rooms)[roomId].(code := code)]
        && out == [Emit(ToRoomExcept(roomId, sid), CodeChange(code))]
    {
      out := [];
      if roomId in rooms {
        var room := rooms[roomId];
        if room.isLocked && sid != room.hostId {
          out := [Emit(ToSocket(sid), EditRejected(CodeLockedReason))];
          return;
        }
        rooms := rooms[roomId := room.(code := code)];
        out := [Emit(ToRoomExcept(roomId, sid), CodeChange(code))];
      }
    }

    /** `language_change`: the same lock rule as code changes. */
    method OnLanguageChange(sid: SocketId, roomId: RoomId, language: string) returns (out: seq<Emit>)
      requires Valid()
      modifies this
      ensures Valid()
      ensures roomId !in old(rooms) ==> rooms == old(rooms) && out == []
      ensures roomId in old(rooms) && EditBlocked(old(rooms)[roomId], sid) ==>
        rooms == old(rooms) && out == [Emit(ToSocket(sid), EditRejected(SettingsLockedReason))]
      ensures roomId in old(rooms) && !EditBlocked(old(rooms)[roomId], sid) ==>
        && rooms == old(rooms)[roomId := old(rooms)[roomId].(language := language)]
        && out == [Emit(ToRoomExcept(roomId, sid), LanguageChange(language))]
    {
      out := [];
      if roomId in rooms {
        var room := rooms[roomId];
        if room.isLocked && sid != room.hostId {
          out := [Emit(ToSocket(sid), EditRejected(SettingsLockedReason))];
          return;
        }
        rooms := rooms[roomId := room.(language := language)];
        out := [Emit(ToRoomExcept(roomId, sid), LanguageChange(language))];
      }
    }

    /** `cursor_change`: a member's cursor goes to everyone else in the room, with
        the name and colour it joined with filling in for missing ones. Nothing is
        stored, and a non-member is ignored. */
    method OnCursorChange(sid: SocketId, roomId: RoomId, username: string, color: string, lineNumber: int, column: int)
      returns (out: seq<Emit>)
      ensures roomId !in rooms || !HasKey(rooms[roomId].users, sid) ==> out == []
      ensures roomId in rooms && HasKey(rooms[roomId].users, sid) ==>
        var u := Get(rooms[roomId].users, sid).value;
        && |out| == 1
        && out[0].to == ToRoomExcept(roomId, sid)
        && out[0].event.CursorUpdate? && out[0].event.socketId == sid
        && out[0].event.lineNumber == lineNumber && out[0].event.column == column
        && out[0].event.username == (if username != "" then username else u.username)
        && out[0].event.color == (if color != "" then color else u.color)
    {
      out := [];
      if roomId in rooms && HasKey(rooms[roomId].users, sid) {
        var user := Get(rooms[roomId].users, sid).value;
        out := [Emit(ToRoomExcept(roomId, sid),
                     CursorUpdate(sid, OrElse(username, user.username), OrElse(color, user.color), lineNumber, column))];
      }
    }

    /** `send_message`: append one message to an existing room's history and send it
        to the whole room, sender included. There is no membership check. */
    method OnSendMessage(sid: SocketId, roomId: RoomId, message: string, username: string, timestamp: string)
      returns (out: seq<Emit>)
      requires Valid()
      modifies this
      ensures Valid()
      ensures roomId !in old(rooms) ==> rooms == old(rooms) && out == []
      ensures roomId in old(rooms) ==>
        var msg := ChatMessage(username, message, timestamp, false);
        && rooms == old(rooms)[roomId := old(rooms)[roomId].(messages := old(rooms)[roomId].messages + [msg])]
        && out == [Emit(ToRoom(roomId), ReceiveMessage(msg))]
    {
      out := [];
      if roomId in rooms {
        var msgData := ChatMessage(username, message, timestamp, false);
        var room := rooms[roomId];
        rooms := rooms[roomId := room.(messages := room.messages + [msgData])];
        out := [Emit(ToRoom(roomId), ReceiveMessage(msgData))];
      }
    }

    /** `toggle_lock`: only the host flips the lock, and the whole room hears who did
        it; anyone else gets a rejection and nothing changes. */
    method OnToggleLock(sid: SocketId, roomId: RoomId) returns (out: seq<Emit>)
      requires Valid()
      modifies this
      ensures Valid()
      ensures roomId !in old(rooms) ==> rooms == old(rooms) && out == []
      ensures roomId in old(rooms) && sid != old(rooms)[roomId].hostId ==>
        rooms == old(rooms) && out == [Emit(ToSocket(sid), EditRejected(NotHostReason))]
      ensures roomId in old(rooms) && sid == old(rooms)[roomId].hostId ==>
        var room := old(rooms)[roomId];
        && rooms == old(rooms)[roomId := room.(isLocked := !room.isLocked)]
        && out == [Emit(ToRoom(roomId), LockChanged(!room.isLocked, LockedBy(room, sid)))]
    {
      out := [];
      if roomId in rooms {
        var room := rooms[roomId];
        if sid != room.hostId {
          out := [Emit(ToSocket(sid), EditRejected(NotHostReason))];
          return;
        }
        room := room.(isLocked := !room.isLocked);
        rooms := rooms[roomId := room];
        out := [Emit(ToRoom(roomId), LockChanged(room.isLocked, LockedBy(room, sid)))];
      }
    }

    /** `disconnecting`: leave every session room among the socket's socket.io
        rooms (its own id excepted), handing over the host role and deleting
        rooms that become empty. */
    method OnDisconnecting(sid: SocketId, socketRooms: seq<RoomId>) returns (out: seq<Emit>)
      requires Valid()
      modifies this
      ensures Valid()
      ensures (rooms, out) == LeaveAll(old(rooms), sid, socketRooms)
    {
      out := [];
      var i := 0;
      while i < |socketRooms|
        invariant 0 <= i <= |socketRooms|
        invariant (rooms, out) == LeaveAll(old(rooms), sid, socketRooms[..i])
      {
        var roomId := socketRooms[i];
        ghost var ids := socketRooms[..i + 1];
        assert ids[..|ids| - 1] == socketRooms[..i] && ids[|ids| - 1] == roomId;
        var emitted := LeaveRoom(sid, roomId);
        out := out + emitted;
        i := i + 1;
      }
      assert socketRooms[..i] == socketRooms;
      LeaveAllSpec(old(rooms), sid, socketRooms);
    }

    /** The `forEach` callback of `disconnecting`, for one socket.io room. */
    method LeaveRoom(sid: SocketId, roomId: RoomId) returns (out: seq<Emit>)
      modifies this
      ensures (rooms, out) == LeaveStep(old(rooms), sid, roomId)
    {
      ghost var step := LeaveStep(rooms, sid, roomId);
      out := [];
      if roomId != sid && roomId in rooms && HasKey(rooms[roomId].users, sid) {
        var room := rooms[roomId];
        var user := Get(room.users, sid).value;
        var wasHost := sid == room.hostId;
        var rest := Remove(room.users, sid);
        room := room.(users := rest);
        if wasHost && |rest| > 0 {
          var nextHostId := rest[0].key;
          room := room.(hostId := nextHostId, isLocked := false);
          var newHost := rest[0].val;
          out := out + [Emit(ToRoom(roomId), HostChanged(nextHostId, newHost.username, false))];
        }
        out := out + [Emit(ToRoomExcept(roomId, sid), Disconnected(sid, user.username))];
        if |rest| == 0 {
          rooms := rooms - {roomId};
        } else {
          rooms := rooms[roomId := room];
        }
        assert Leave(old(rooms)[roomId], sid) == if |rest| == 0 then None else Some(room);
        assert rooms == step.0 && out == step.1;
      }
    }
  }
}
