/** The editor page's client-side rules: who may edit, how the page's view of the
    room (members, remote cursors, chat, host, lock) follows the server's events,
    the language-switch and lock-toggle guards, and which run result is shown. */
module EditorPage {
  import opened Common
  import opened Languages
  import opened Session
  import opened Members

  /** A remote collaborator's cursor. */
  datatype Cursor = Cursor(socketId: SocketId, username: string, color: string, lineNumber: int, column: int)

  /** A chat message as the page keeps it: the server's message plus whether the
      local user sent it. */
  datatype ViewMessage = ViewMessage(username: string, message: string, timestamp: string, isLocal: bool)

  /** What the page sends to the server. */
  datatype Outgoing =
    | LanguageChangeRequest(roomId: RoomId, language: string)
    | ToggleLockRequest(roomId: RoomId)
    | SendMessageRequest(roomId: RoomId, message: string, username: string, timestamp: string)

  const ChatTab: string := "chat"
  const UsersTab: string := "users"

  // ---------------------------------------------------------------------------
  // Edit permission
  // ---------------------------------------------------------------------------

  /** `socket.id === hostId` (client/src/pages/EditorPage.jsx:135): the socket id is undefined until connected and the
      host id null until the server names one, and neither equals anything then. */
  predicate IsHost(selfId: Option<SocketId>, hostId: Option<SocketId>) {
    selfId.Some? && hostId.Some? && selfId.value == hostId.value
  }

  /** `!isLocked || isHost`. */
  function CanEdit(isLocked: bool, selfId: Option<SocketId>, hostId: Option<SocketId>): (r: bool)
    ensures r <==> !isLocked || (selfId.Some? && selfId == hostId)
    ensures selfId.None? ==> r == !isLocked
  {
    !isLocked || IsHost(selfId, hostId)
  }

  /** The page's rule and the server's lock guard agree: with the same lock flag and
      host, the page lets a socket edit exactly when the server would accept its
      edit. */
  lemma CanEditMatchesServer(room: Room, sid: SocketId)
    ensures CanEdit(room.isLocked, Some(sid), Some(room.hostId)) <==> !EditBlocked(room, sid)
  {
  }

  // ---------------------------------------------------------------------------
  // List updaters
  // ---------------------------------------------------------------------------

  /** `list.filter(x => x.socketId !== id)`. */
  function Without<T(!new)>(xs: seq<T>, id: SocketId, key: T -> SocketId): (r: seq<T>)
    ensures |r| <= |xs|
    ensures forall x :: x in r <==> x in xs && key(x) != id
    ensures (forall i :: 0 <= i < |xs| ==> key(xs[i]) != id) ==> r == xs
  {
    if xs == [] then []
    else if key(xs[0]) == id then Without(xs[1..], id, key)
    else [xs[0]] + Without(xs[1..], id, key)
  }

  /** Filtering works piece by piece, so the entries that stay keep their order. */
  lemma {:induction false} WithoutAppend<T(!new)>(a: seq<T>, b: seq<T>, id: SocketId, key: T -> SocketId)
    ensures Without(a + b, id, key) == Without(a, id, key) + Without(b, id, key)
  {
    if a == [] {
      assert a + b == b;
    } else {
      var ab := a + b;
      assert ab[0] == a[0] && ab[1..] == a[1..] + b;
      WithoutAppend(a[1..], b, id, key);
      if key(a[0]) != id {
        calc {
          Without(ab, id, key);
          [a[0]] + Without(a[1..] + b, id, key);
          [a[0]] + (Without(a[1..], id, key) + Without(b, id, key));
          ([a[0]] + Without(a[1..], id, key)) + Without(b, id, key);
        }
      }
    }
  }

  /** Removing one entry from a list that mentions the id once cuts it out and keeps
      the entries on either side in place. */
  lemma WithoutSingle<T(!new)>(a: seq<T>, x: T, b: seq<T>, id: SocketId, key: T -> SocketId)
    requires key(x) == id
    requires forall i :: 0 <= i < |a| ==> key(a[i]) != id
    requires forall i :: 0 <= i < |b| ==> key(b[i]) != id
    ensures Without(a + [x] + b, id, key) == a + b
  {
    WithoutAppend(a + [x], b, id, key);
    WithoutAppend(a, [x], id, key);
  }

  function ClientId(c: ClientInfo): SocketId { c.socketId }
  function CursorId(c: Cursor): SocketId { c.socketId }

  /** `handleDisconnected`'s updater. */
  function DropClient(clients: seq<ClientInfo>, socketId: SocketId): (r: seq<ClientInfo>)
    ensures forall c :: c in r <==> c in clients && c.socketId != socketId
  {
    Without(clients, socketId, ClientId)
  }

  /** The corrected `handleCursorUpdate` updater: drop the user's old cursor and put
      the new one last. */
  function UpsertCursor(cursors: seq<Cursor>, c: Cursor): (r: seq<Cursor>)
    ensures |r| >= 1 && r[|r| - 1] == c
    ensures forall x :: x in r <==> x == c || (x in cursors && x.socketId != c.socketId)
    ensures forall k :: 0 <= k < |r| && r[k].socketId == c.socketId ==> k == |r| - 1
  {
    var rest := Without(cursors, c.socketId, CursorId);
    assert forall k :: 0 <= k < |rest| ==> rest[k] in rest;
    rest + [c]
  }

  /** Other users' cursors stay where they were, in order. */
  lemma UpsertKeepsOthers(a: seq<Cursor>, old_: Cursor, b: seq<Cursor>, c: Cursor)
    requires old_.socketId == c.socketId
    requires forall i :: 0 <= i < |a| ==> a[i].socketId != c.socketId
    requires forall i :: 0 <= i < |b| ==> b[i].socketId != c.socketId
    ensures UpsertCursor(a + [old_] + b, c) == a + b + [c]
  {
    WithoutSingle(a, old_, b, c.socketId, CursorId);
  }

  /** `handleCursorUpdate` AS WRITTEN: after the own-cursor check it calls
      `setRemoteCursors`, which the page never declares, so every other user's
      cursor update throws a ReferenceError inside the event listener and no state
      changes. */
  datatype CursorHandling = Ignored | ReferenceError(identifier: string) | Updated(cursors: seq<Cursor>)

  function HandleCursorUpdateAsWritten(selfId: Option<SocketId>, c: Cursor): (r: CursorHandling)
    ensures r.Ignored? <==> selfId == Some(c.socketId)
    ensures !r.Updated?
  {
    if selfId == Some(c.socketId) then Ignored else ReferenceError("setRemoteCursors")
  }

  /** No remote cursor is ever recorded by the code as written. */
  lemma CursorUpdateNeverApplied(selfId: Option<SocketId>, c: Cursor)
    requires selfId != Some(c.socketId)
    ensures HandleCursorUpdateAsWritten(selfId, c) == ReferenceError("setRemoteCursors")
  {
  }

  /** `handleCursorUpdate` with the cursor list declared: the own cursor is ignored,
      any other is upserted. */
  function HandleCursorUpdate(selfId: Option<SocketId>, cursors: seq<Cursor>, c: Cursor): (r: CursorHandling)
    ensures r.Ignored? <==> selfId == Some(c.socketId)
    ensures r.Updated? <==> selfId != Some(c.socketId)
    ensures r.Updated? ==>
      && |r.cursors| >= 1 && r.cursors[|r.cursors| - 1] == c
      && (forall x :: x in r.cursors <==> x == c || (x in cursors && x.socketId != c.socketId))
  {
    if selfId == Some(c.socketId) then Ignored else Updated(UpsertCursor(cursors, c))
  }

  /** Marking a server message as local or not. */
  function ToView(m: ChatMessage, username: string): (v: ViewMessage)
    ensures v.username == m.username && v.message == m.message && v.timestamp == m.timestamp
    ensures v.isLocal <==> m.username == username
  {
    ViewMessage(m.username, m.message, m.timestamp, m.username == username)
  }

  /** `handleReceiveMessage`'s updater. */
  function AppendMessage(messages: seq<ViewMessage>, m: ChatMessage, username: string): (r: seq<ViewMessage>)
    ensures |r| == |messages| + 1 && r[..|messages|] == messages
    ensures r[|messages|] == ToView(m, username)
    ensures r[|messages|].isLocal <==> m.username == username
  {
    messages + [ToView(m, username)]
  }

  /** The chat history loaded from `sync_code`, each message marked local or not. */
  function HistoryView(ms: seq<ChatMessage>, username: string): (r: seq<ViewMessage>)
    ensures |r| == |ms|
    ensures forall i :: 0 <= i < |ms| ==> r[i] == ToView(ms[i], username)
  {
    seq(|ms|, i requires 0 <= i < |ms| => ToView(ms[i], username))
  }

  /** `LANGUAGES.find(l => l.id === id)?.name || id`: the language's display name,
      or its id when the catalogue does not have it. */
  function LanguageLabel(id: string): (shown: string)
    ensures Find(id).Some? && Find(id).value.name != "" ==> shown == Find(id).value.name
    ensures Find(id).None? ==> shown == id
  {
    match Find(id)
    case Some(l) => OrElse(l.name, id)
    case None => id
  }

  // ---------------------------------------------------------------------------
  // The language switch and the lock toggle
  // ---------------------------------------------------------------------------

  datatype LanguageSwitch =
    | Refused(reason: string)
    | Cancelled
    | Switched(language: string, code: string)

  /** `isCodeEmpty`: no shared text yet, or only whitespace in it. */
  predicate CodeBlank(doc: Option<string>): (blank: bool)
    ensures blank <==> doc.None? || AllWhitespace(doc.value)
  {
    if doc.None? then true
    else
      TrimEmptyIff(doc.value);
      Trim(doc.value) == ""
  }

  /** The local `handleLanguageChange`: refused when the user may not edit;
      otherwise, when the code is not blank, the user is asked and may cancel;
      otherwise the new language's template (or '') replaces the code. `confirmed`
      is the answer the user would give; it is only asked for non-blank code. */
  function LocalLanguageChange(canEdit: bool, doc: Option<string>, confirmed: bool, newLanguage: string): (r: LanguageSwitch)
    ensures r.Refused? <==> !canEdit
    ensures r.Refused? ==> r.reason == SettingsLockedReason
    ensures r.Cancelled? <==> canEdit && !CodeBlank(doc) && !confirmed
    ensures r.Switched? ==> r.language == newLanguage && r.code == TemplateOrEmpty(newLanguage)
    ensures canEdit && CodeBlank(doc) ==> r.Switched?
  {
    if !canEdit then Refused(SettingsLockedReason)
    else if !CodeBlank(doc) && !confirmed then Cancelled
    else Switched(newLanguage, TemplateOrEmpty(newLanguage))
  }

  /** A switch to a catalogue language with a template always yields that template,
      and a switch to an unknown id clears the code. */
  lemma SwitchedCode(doc: Option<string>, newLanguage: string)
    ensures var r := LocalLanguageChange(true, doc, true, newLanguage);
      r.Switched? && (Template(newLanguage).Some? ==> r.code == Template(newLanguage).value)
        && (Template(newLanguage).None? ==> r.code == "")
  {
  }

  /** `toggleLock`: only the host sends the request. */
  function ToggleLockRequestFor(selfId: Option<SocketId>, hostId: Option<SocketId>, roomId: RoomId): (r: Option<Outgoing>)
    ensures r.Some? <==> IsHost(selfId, hostId)
    ensures r.Some? ==> r.value == ToggleLockRequest(roomId)
  {
    if IsHost(selfId, hostId) then Some(ToggleLockRequest(roomId)) else None
  }

  // ---------------------------------------------------------------------------
  // Running code
  // ---------------------------------------------------------------------------

  /** `!code.trim()` where the code is the shared text, or '' before it exists. The
      run button refuses exactly the texts for which a language switch does not ask
      for confirmation. */
  predicate RunRefused(doc: Option<string>): (refused: bool)
    ensures refused <==> CodeBlank(doc)
  {
    var code := if doc.Some? then doc.value else "";
    TrimEmptyIff(code);
    Trim(code) == ""
  }

  /** A run is refused exactly when there is no text or nothing but whitespace in it. */
  lemma RunRefusedIff(doc: Option<string>)
    ensures RunRefused(doc) <==> doc.None? || forall i :: 0 <= i < |doc.value| ==> IsJsWhitespace(doc.value[i])
  {
    if doc.Some? {
      TrimEmptyIff(doc.value);
    }
  }

  /** What the execution service answered: a `run` object, an object with (only) a
      `message`, or the request or its JSON decoding failed. */
  datatype RunReply =
    | Run(stdout: Option<string>, stderr: Option<string>)
    | Reply(message: Option<string>)
    | Failed

  datatype Terminal = Terminal(output: string, isError: bool)

  const NoOutput: string := "No output"
  const ExecutionFailed: string := "Failed to execute code. Please try again."

  /** The terminal after a run that was not refused (output and error flag are reset
      first, so a reply with neither `run` nor `message` leaves them cleared). */
  function RunTerminal(reply: RunReply): (t: Terminal)
    ensures reply.Run? ==> t.output != "" && (t.isError <==> Truthy(reply.stderr))
    ensures reply.Reply? ==>
      && (t.isError <==> Truthy(reply.message))
      && t.output == (if Truthy(reply.message) then reply.message.value else "")
    ensures reply.Failed? ==> t == Terminal(ExecutionFailed, true)
  {
    match reply
    case Run(stdout, stderr) =>
      var result := OrElse(if stdout.Some? then stdout.value else "", OrElse(if stderr.Some? then stderr.value else "", NoOutput));
      var hasError := Truthy(stderr);
      Terminal(if hasError then stderr.value else result, hasError)
    case Reply(message) =>
      if Truthy(message) then Terminal(message.value, true) else Terminal("", false)
    case Failed => Terminal(ExecutionFailed, true)
  }

  /** With a `run` result: a non-empty stderr is shown as an error; otherwise stdout is
      shown, and 'No output' when it is empty, never as an error. */
  lemma RunTerminalSpec(stdout: Option<string>, stderr: Option<string>)
    ensures var t := RunTerminal(Run(stdout, stderr));
      && (Truthy(stderr) ==> t == Terminal(stderr.value, true))
      && (!Truthy(stderr) && Truthy(stdout) ==> t == Terminal(stdout.value, false))
      && (!Truthy(stderr) && !Truthy(stdout) ==> t == Terminal(NoOutput, false))
      && t.output != ""
  {
  }

  /** The error flag is set exactly when something other than the program's normal
      output is shown: stderr, the service's message, or the failure notice. */
  lemma RunErrorIff(reply: RunReply)
    ensures var t := RunTerminal(reply);
      t.isError <==> (reply.Run? && Truthy(reply.stderr)) || (reply.Reply? && Truthy(reply.message)) || reply.Failed?
  {
  }

  /** `newWidth > 150 && newWidth < 400`. */
  predicate SidebarWidthAccepted(w: int) {
    150 < w < 400
  }

  // ---------------------------------------------------------------------------
  // Switching sidebar tabs, as written
  // ---------------------------------------------------------------------------

  /** The server's session registry after one click on a sidebar tab, AS WRITTEN.
      The tab is a dependency of the page's socket effect, so the click runs the
      effect's cleanup (`socket.disconnect()`) and then the effect again
      (`socket.connect()` and `join`): the server handles `disconnecting` for the
      old socket id, then `join` for the new one with the same name and colour. The
      leave loop skips the old id's own socket.io room, so only `roomId` is left. */
  function TabSwitchAsWritten(rooms: map<RoomId, Room>, roomId: RoomId, oldSid: SocketId, newSid: SocketId,
                              username: string, color: string): (r: map<RoomId, Room>)
    ensures roomId in r && r.Keys == rooms.Keys + {roomId}
    ensures forall id :: id in rooms && id != roomId ==> r[id] == rooms[id]
    ensures HasKey(r[roomId].users, newSid)
  {
    var left := LeaveStep(rooms, oldSid, roomId).0;
    var existing := if roomId in left then Some(left[roomId]) else None;
    var room := JoinRoom(existing, newSid, username, color);
    PutHasKey(if existing.Some? then existing.value.users else [], newSid,
              User(username, color, existing.None? || existing.value.hostId == newSid), newSid);
    left[roomId := room]
  }

  /** A host who opens the chat tab (or the users tab) while others are in the room
      loses the host role to the earliest remaining member, the lock is forced off,
      and the host comes back last in the member list as an ordinary member. */
  lemma TabSwitchDemotesHost(rooms: map<RoomId, Room>, roomId: RoomId, oldSid: SocketId, newSid: SocketId,
                             username: string, color: string)
    requires AllValid(rooms) && roomId in rooms && roomId != oldSid
    requires rooms[roomId].hostId == oldSid && |rooms[roomId].users| >= 2
    requires !HasKey(rooms[roomId].users, newSid)
    ensures var room := TabSwitchAsWritten(rooms, roomId, oldSid, newSid, username, color)[roomId];
      && RoomValid(room)
      && room.hostId != oldSid && room.hostId != newSid && !room.isLocked
      && room.users == Remove(rooms[roomId].users, oldSid) + [Entry(newSid, User(username, color, false))]
      && room.hostId == room.users[0].key
  {
    var before := rooms[roomId];
    LeaveKeepsValid(before, oldSid);
    var after := Leave(before, oldSid).value;
    assert LeaveStep(rooms, oldSid, roomId).0 == rooms[roomId := after];
    RemoveHasKey(before.users, oldSid, newSid);
    RemoveHasKey(before.users, oldSid, oldSid);
    FirstJoinAppends(after, newSid, username, color);
    JoinKeepsValid(Some(after), newSid, username, color);
  }

  /** A user alone in the room who switches tabs deletes the room and recreates it:
      the chat history is gone, the language is back to JavaScript and the code to
      the starter text. */
  lemma TabSwitchResetsLoneRoom(rooms: map<RoomId, Room>, roomId: RoomId, oldSid: SocketId, newSid: SocketId,
                                username: string, color: string, u: User)
    requires roomId in rooms && roomId != oldSid && rooms[roomId].users == [Entry(oldSid, u)]
    ensures TabSwitchAsWritten(rooms, roomId, oldSid, newSid, username, color)[roomId]
         == Room(InitialCode, "javascript", [Entry(newSid, User(username, color, true))], [], newSid, false)
  {
    var es := rooms[roomId].users;
    assert HasKey(es, oldSid);
    assert Remove(es, oldSid) == [];
    assert LeaveStep(rooms, oldSid, roomId).0 == rooms - {roomId};
  }

  // ---------------------------------------------------------------------------
  // The page's state and its event handlers
  // ---------------------------------------------------------------------------

  class EditorState {
    const username: string
    const roomId: RoomId
    var selfId: Option<SocketId>
    var clients: seq<ClientInfo>
    var language: string
    var hostId: Option<SocketId>
    var isLocked: bool
    var messages: seq<ViewMessage>
    var activeTab: string
    var hasUnread: bool
    var cursors: seq<Cursor>
    var sidebarWidth: int
    var draggingSidebar: bool
    /** The shared text, once the document is there. */
    var doc: Option<string>
    var initialCodeSet: bool

    /** The sidebar is always strictly between 150 and 400 pixels wide. */
    ghost predicate Valid()
      reads this
    {
      SidebarWidthAccepted(sidebarWidth)
    }

    constructor (username: string, roomId: RoomId)
      ensures Valid()
      ensures this.username == username && this.roomId == roomId
      ensures selfId == None && clients == [] && language == "javascript" && hostId == None
      ensures !isLocked && messages == [] && activeTab == UsersTab && !hasUnread && cursors == []
      ensures sidebarWidth == 280 && !draggingSidebar && doc == None && !initialCodeSet
    {
      this.username := username;
      this.roomId := roomId;
      selfId, clients, language, hostId := None, [], "javascript", None;
      isLocked, messages, activeTab, hasUnread, cursors := false, [], UsersTab, false, [];
      sidebarWidth, draggingSidebar, doc, initialCodeSet := 280, false, None, false;
    }

    function CanEditNow(): (r: bool)
      reads this
      ensures r <==> CanEdit(isLocked, selfId, hostId)
    {
      CanEdit(isLocked, selfId, hostId)
    }

    /** `joined`: take the member list and host; take the lock flag when present. */
    method OnJoined(roomClients: seq<ClientInfo>, roomHostId: SocketId, roomLocked: Option<bool>)
      modifies this
      ensures clients == roomClients && hostId == Some(roomHostId)
      ensures isLocked == if roomLocked.Some? then roomLocked.value else old(isLocked)
      ensures unchanged(this`language, this`messages, this`cursors, this`sidebarWidth, this`doc)
      ensures selfId == old(selfId) && activeTab == old(activeTab) && hasUnread == old(hasUnread)
      ensures draggingSidebar == old(draggingSidebar) && initialCodeSet == old(initialCodeSet)
    {
      clients := roomClients;
      hostId := Some(roomHostId);
      if roomLocked.Some? {
        isLocked := roomLocked.value;
      }
    }

    /** `sync_code`: take the language; the host only when truthy; the lock flag only
        when present; the chat history only when it is a non-empty list. */
    method OnSyncCode(syncedLanguage: string, roomHostId: Option<SocketId>, roomLocked: Option<bool>,
                      synced: Option<seq<ChatMessage>>)
      modifies this
      ensures language == syncedLanguage
      ensures hostId == if Truthy(roomHostId) then roomHostId else old(hostId)
      ensures isLocked == if roomLocked.Some? then roomLocked.value else old(isLocked)
      ensures messages == if synced.Some? && |synced.value| > 0 then HistoryView(synced.value, username)
                          else old(messages)
      ensures clients == old(clients) && cursors == old(cursors) && sidebarWidth == old(sidebarWidth)
      ensures selfId == old(selfId) && activeTab == old(activeTab) && hasUnread == old(hasUnread)
      ensures doc == old(doc) && draggingSidebar == old(draggingSidebar) && initialCodeSet == old(initialCodeSet)
    {
      language := syncedLanguage;
      if Truthy(roomHostId) {
        hostId := roomHostId;
      }
      if roomLocked.Some? {
        isLocked := roomLocked.value;
      }
      if synced.Some? && |synced.value| > 0 {
        messages := HistoryView(synced.value, username);
      }
    }

    /** Another user switched language. */
    method OnRemoteLanguageChange(newLanguage: string) returns (shown: string)
      modifies this`language
      ensures language == newLanguage && shown == LanguageLabel(newLanguage)
    {
      language := newLanguage;
      shown := LanguageLabel(newLanguage);
    }

    /** `disconnected`: drop exactly that member. */
    method OnDisconnected(socketId: SocketId)
      modifies this`clients
      ensures clients == DropClient(old(clients), socketId)
    {
      clients := DropClient(clients, socketId);
    }

    method OnLockChanged(locked: bool)
      modifies this`isLocked
      ensures isLocked == locked
    {
      isLocked := locked;
    }

    method OnHostChanged(newHostId: SocketId, locked: bool)
      modifies this`hostId, this`isLocked
      ensures hostId == Some(newHostId) && isLocked == locked
    {
      hostId := Some(newHostId);
      isLocked := locked;
    }

    /** `cursor_update`, with the cursor list declared. */
    method OnCursorUpdate(c: Cursor)
      modifies this`cursors
      ensures match HandleCursorUpdate(selfId, old(cursors), c)
        case Updated(cs) => cursors == cs
        case _ => cursors == old(cursors)
    {
      if selfId != Some(c.socketId) {
        cursors := UpsertCursor(cursors, c);
      }
    }

    /** `receive_message`: append, and flag unread unless the chat tab is open. */
    method OnReceiveMessage(m: ChatMessage)
      modifies this`messages, this`hasUnread
      ensures messages == AppendMessage(old(messages), m, username)
      ensures hasUnread == (old(hasUnread) || activeTab != ChatTab)
    {
      messages := AppendMessage(messages, m, username);
      if activeTab != ChatTab {
        hasUnread := true;
      }
    }

    /** The chat tab button, as intended: opening chat clears the unread flag, and
        the connection, the host role, the lock and the lists stay as they were.
        (As written the click also reconnects; see `TabSwitchAsWritten`.) */
    method OpenChatTab()
      modifies this`activeTab, this`hasUnread
      ensures activeTab == ChatTab && !hasUnread
      ensures selfId == old(selfId) && hostId == old(hostId) && isLocked == old(isLocked)
      ensures clients == old(clients) && messages == old(messages) && language == old(language)
    {
      activeTab := ChatTab;
      hasUnread := false;
    }

    /** The users tab button, as intended: only the tab changes. */
    method OpenUsersTab()
      modifies this`activeTab
      ensures activeTab == UsersTab && hasUnread == old(hasUnread)
      ensures selfId == old(selfId) && hostId == old(hostId) && isLocked == old(isLocked)
      ensures clients == old(clients) && messages == old(messages) && language == old(language)
    {
      activeTab := UsersTab;
    }

    /** The local language menu. */
    method HandleLanguageChange(newLanguage: string, confirmed: bool) returns (sent: Option<Outgoing>)
      modifies this`language, this`doc
      ensures var r := LocalLanguageChange(old(CanEditNow()), old(doc), confirmed, newLanguage);
        && (r.Switched? ==>
              && language == newLanguage
              && doc == (if old(doc).Some? then Some(r.code) else None)
              && sent == Some(LanguageChangeRequest(roomId, newLanguage)))
        && (!r.Switched? ==> language == old(language) && doc == old(doc) && sent == None)
    {
      var r := LocalLanguageChange(CanEditNow(), doc, confirmed, newLanguage);
      sent := None;
      if r.Switched? {
        language := newLanguage;
        if doc.Some? {
          doc := Some(r.code);
        }
        sent := Some(LanguageChangeRequest(roomId, newLanguage));
      }
    }

    /** Seeding the shared text once it exists: the host puts the language's template
        into an empty document, once. */
    method SeedTemplate()
      modifies this`doc, this`initialCodeSet
      ensures old(doc).Some? && !old(initialCodeSet) && IsHost(selfId, hostId) ==>
        initialCodeSet && doc == Some(if old(doc).value == "" then TemplateOrEmpty(language) else old(doc).value)
      ensures !(old(doc).Some? && !old(initialCodeSet) && IsHost(selfId, hostId)) ==>
        initialCodeSet == old(initialCodeSet) && doc == old(doc)
    {
      if doc.Some? && !initialCodeSet && IsHost(selfId, hostId) {
        if |doc.value| == 0 {
          doc := Some(TemplateOrEmpty(language));
        }
        initialCodeSet := true;
      }
    }

    method StartSidebarDrag()
      modifies this`draggingSidebar
      ensures draggingSidebar
    {
      draggingSidebar := true;
    }

    method StopDrag()
      modifies this`draggingSidebar
      ensures !draggingSidebar
    {
      draggingSidebar := false;
    }

    /** Mouse movement while dragging the sidebar edge: the new width is the distance
        from the pointer to the window's right edge, taken only when in bounds. */
    method OnMouseMove(innerWidth: int, clientX: int)
      requires Valid()
      modifies this`sidebarWidth
      ensures Valid()
      ensures var w := innerWidth - clientX;
        sidebarWidth == if draggingSidebar && SidebarWidthAccepted(w) then w else old(sidebarWidth)
    {
      if draggingSidebar {
        var newWidth := innerWidth - clientX;
        if newWidth > 150 && newWidth < 400 {
          sidebarWidth := newWidth;
        }
      }
    }
  }
}
