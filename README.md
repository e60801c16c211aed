# SyncCode: a Dafny model of the collaboration server and the editor's client rules

SyncCode is a collaborative code editor. Its server has two in-memory registries that the
handlers change in place:

- **Session rooms** (`rooms`, `session.dfy`). Each room holds the code, the language, the members in
  join order, the chat history, the host and the lock flag.
  - The socket.io handlers `join`, `code_change`, `language_change`, `cursor_change`, `send_message`,
    `toggle_lock` and `disconnecting` are the methods of `Session.SessionServer`.
  - Each handler returns the events it emits. An audience is one socket, a whole room, or a room
    minus the sender.
  - The members are a JavaScript `Map`, modelled in `members.dfy` as its insertion-ordered list of
    entries. A re-join overwrites an entry in place, and "the next host" is the first remaining entry.
- **Shared documents** (`docs`, `relay.dfy`). The document-sync relay covers:
  - the document name taken from the request URL;
  - what happens to each kind of frame;
  - the fan-out to the other open connections;
  - the delayed purge of a document left without connections.

  The replicated document and the wire encodings are opaque.
- **The CORS origin check** (`cors.dfy`).

Around this core sit the client's rules:

- The editor page (`editor_page.dfy`, `languages.dfy`) covers:
  - who may edit;
  - how the page's member list, cursors, chat, host and lock follow the server's events;
  - the language-switch and lock-toggle guards;
  - the download extension and run version lookups;
  - which execution result is shown;
  - the sidebar width bound.
- The join form (`home.dfy`).
- The chat panel (`chat.dfy`).
- The avatar initials and host marks (`client_card.dfy`).
- The status bar (`status_bar.dfy`).

`common.dfy` defines the JavaScript string operations the code relies on, with their
ECMAScript meaning:

- `trim` and its whitespace set;
- `split(' ')` and its inverse `join(' ')`;
- `includes`;
- `replace` with a string pattern, which removes the first occurrence only;
- `toUpperCase` on ASCII letters;
- `slice(0, n)`;
- `||` on strings.

Each handler runs atomically, as on Node's event loop. Inputs the code takes from the outside
become parameters:

- random colours;
- timestamps;
- whether a connection is open;
- the bytes the sync protocol writes as a reply;
- the user's answer to the confirmation dialog;
- the execution service's reply.

An absent string field (`undefined`) is modelled as the empty string wherever the code only
tests it for truthiness.

The server-side handlers are methods of classes whose fields they update. Their contracts
state the whole new state and the events emitted. The invariants they keep are proved on
values and used by the methods:

- every room has a member, its host is a member, and no member is listed twice;
- every live connection is listed in exactly its own document.

## Model

| member | source | states |
|---|---|---|
| Common.OrElse | server/index.js:18 | `a \|\| b` on strings: `a` when non-empty, otherwise `b` |
| Common.Trim | client/src/pages/Home.jsx:31 | the trimmed string is no longer than the input, and neither starts nor ends with whitespace |
| Common.TrimSlice | client/src/pages/Home.jsx:31 | trimming cuts only whitespace, and only from the two ends: the result is a slice with whitespace on either side |
| Common.TrimEmptyIff | client/src/pages/Home.jsx:31-39 | `!s.trim()` holds exactly when every character of `s` is whitespace |
| Common.TrimKeeps | client/src/components/Client.jsx:8 | a string that neither starts nor ends with whitespace trims to itself |
| Common.TrimIdempotent | client/src/pages/Home.jsx:42 | trimming twice is trimming once |
| Common.Includes | server/index.js:35-36 | the empty pattern is always found; a pattern longer than the string never is |
| Common.IncludesIff | server/index.js:35-36 | `includes` is true exactly when the pattern occurs at some position |
| Common.IncludesInside | server/index.js:35-36 | a string contains any pattern placed inside it |
| Common.RemoveFirst | server/index.js:77 | `replace(p, '')` leaves a string without `p` unchanged and never lengthens it |
| Common.RemoveFirstCutsFirst | server/index.js:77 | when `p` occurs, `replace(p, '')` cuts out exactly its first occurrence: no earlier position holds `p` |
| Common.RemoveFirstAtStart | server/index.js:77 | removing `p` from `p + rest` gives `rest` |
| Common.SplitSpace | client/src/components/Client.jsx:8 | `split(' ')` gives at least one piece and no piece contains a space |
| Common.SplitJoin | client/src/components/Client.jsx:8 | joining the pieces of `split(' ')` with ' ' gives back the input |
| Common.JoinSplit | client/src/components/Client.jsx:8 | splitting the join of space-free pieces gives back the pieces |
| Common.JoinSpace | client/src/components/Client.jsx:8 | `join(' ')` of n pieces is at least n - 1 characters long, one separator between each two pieces |
| Common.ToUpper | client/src/components/Client.jsx:10-12 | same length, each ASCII lower-case letter raised, other characters kept |
| Common.Take | client/src/components/Client.jsx:12 | `slice(0, n)` is the prefix of length `min(n, length)` |
| Members.HasKeyIff | server/index.js:285 | `users.has(k)` holds exactly when some entry has key `k` |
| Members.DistinctAt | server/index.js:218 | in a Map no two entries share a key |
| Members.IndexOf | server/index.js:349 | the position of the first entry with the key; no earlier entry has it |
| Members.Get | server/index.js:286 | `users.get(k)` is present exactly when the key is, and is the value at the key's position |
| Members.Put | server/index.js:218 | `set` keeps the length on a present key and adds one on a new key |
| Members.PutPresent | server/index.js:218 | `set` on a present key overwrites that entry where it stands and leaves every other entry in place |
| Members.PutAbsent | server/index.js:218 | `set` on a new key appends it last |
| Members.PutHasKey | server/index.js:218 | after `set` the keys are the old keys plus the new one |
| Members.PutDistinct | server/index.js:218 | `set` keeps keys distinct |
| Members.PutGet | server/index.js:218 | after `set`, `get` returns the new value at that key and the old value elsewhere |
| Members.Remove | server/index.js:345 | `delete` never lengthens the map |
| Members.RemoveHasKey | server/index.js:345 | after `delete` the keys are the old keys without the deleted one |
| Members.RemoveDistinct | server/index.js:345 | `delete` keeps keys distinct |
| Members.RemoveAbsent | server/index.js:345 | deleting an absent key changes nothing |
| Members.RemoveAt | server/index.js:345 | deleting a present key cuts out exactly its entry, the others keeping their order |
| Members.RemoveFirstRemaining | server/index.js:349 | after `delete`, the first key left is the earliest-inserted key other than the deleted one |
| Cors.ClientUrl | server/index.js:18 | the environment's client URL when set and non-empty, otherwise http://localhost:5173 |
| Cors.StripTrailingSlash | server/index.js:30-31 | removes one '/' exactly when the string ends with '/' |
| Cors.OriginAllowed | server/index.js:25-41 | a missing or empty origin and the client URL itself are accepted; a refused origin is non-empty, differs from the client URL and contains neither "localhost" nor "vercel.app" |
| Cors.OriginAllowedIff | server/index.js:25-41 | an origin is accepted iff it is missing or empty, equals the client URL up to one trailing '/', or contains "localhost" or "vercel.app" anywhere |
| Cors.ClientUrlAccepted | server/index.js:30-37 | the client URL itself is accepted with and without a trailing '/' |
| Cors.SubstringOriginsAccepted | server/index.js:35-37 | any origin with "localhost" or "vercel.app" inside it is accepted, whatever surrounds it |
| Cors.OtherOriginsRefused | server/index.js:34-40 | every other origin is refused |
| Languages.FindIn | client/src/pages/EditorPage.jsx:423 | `find` returns a listed language with that id, and none exactly when no entry has the id |
| Languages.Find | client/src/pages/EditorPage.jsx:13-22 | the catalogue lookup gives a listed language with that id, and nothing exactly when no entry has the id |
| Languages.Template | client/src/pages/EditorPage.jsx:26-75 | `LANGUAGE_TEMPLATES[id]`: a starter template, when there is one, is never empty |
| Languages.TemplateIffListed | client/src/pages/EditorPage.jsx:13-75 | a language has a starter template exactly when it is in the catalogue |
| Languages.TemplateOrEmpty | client/src/pages/EditorPage.jsx:387 | the language's starter template, or '' when it has none |
| Languages.DownloadExtension | client/src/pages/EditorPage.jsx:423-424 | the language's extension, or 'txt' when the language is not in the catalogue |
| Languages.DownloadExtensionFallback | client/src/pages/EditorPage.jsx:423-425 | the extension is 'txt' exactly when the language is unknown, and never empty |
| Languages.DownloadFileName | client/src/pages/EditorPage.jsx:423-425 | the file name starts with 'synccode.' followed by a non-empty extension, and is 'synccode.txt' for an unknown language |
| Languages.RunVersion | client/src/pages/EditorPage.jsx:469 | the language's version, or '*' when the language is unknown |
| Session.JoinRoom | server/index.js:193-218 | an unseen room id gives a room hosted by the joiner, unlocked, in JavaScript, with an empty history; an existing room keeps host, lock, code, language and history, and the member is set with `set` |
| Session.JoinKeepsValid | server/index.js:194-218 | after a join the room has a member, its host is a member, and keys are distinct |
| Session.RejoinInPlace | server/index.js:218 | a re-join overwrites the socket's entry in its position, with no duplicate and no reordering |
| Session.FirstJoinAppends | server/index.js:211-218 | a newcomer to an existing room is appended last, not as host |
| Session.ClientList | server/index.js:221-226 | one entry per member in join order, flagged host iff its id is the room's host |
| Session.ExactlyOneHostListed | server/index.js:221-226 | in a valid room the `joined` list marks exactly one member as host, the room's host |
| Session.Leave | server/index.js:342-377 | the member is removed; the room is deleted iff none remain; a departing host hands over to the first remaining member and the lock is forced off; otherwise host and lock are unchanged |
| Session.LeaveKeepsValid | server/index.js:345-377 | leaving keeps the room valid, and deletes the room exactly when the last member leaves |
| Session.NewHostIsEarliestRemaining | server/index.js:348-350 | the new host is a remaining member, and everyone who joined before it is the member who left |
| Session.EditBlocked | server/index.js:254 | an edit is rejected exactly when the room is locked and the sender is not the host |
| Session.LockedBy | server/index.js:327 | the host's name when non-empty, and 'Host' when the host is not a member or has an empty name; never empty |
| Session.LeaveStep | server/index.js:338-378 | one loop step emits nothing exactly when the socket is not a member of that room (or the room is the socket's own); every event goes to that room, never to a single socket |
| Session.LeaveStepEmits | server/index.js:341-370 | a non-member changes nothing; a member's step ends with `disconnected` to the rest of the room, preceded by `host_changed` (the first remaining member, unlocked) to the whole room exactly when the host leaves others behind |
| Session.LeaveAll | server/index.js:335-380 | the whole loop emits at most two events per room and addresses only the socket's rooms |
| Session.LeaveStepSpec | server/index.js:338-378 | one loop step keeps every room valid, touches only its room, and removes the socket from it |
| Session.LeaveAllSpec | server/index.js:335-380 | after the whole loop every room is valid, other rooms are untouched, and no room the socket was in lists it |
| Session.SessionServer.constructor | server/index.js:161 | the registry starts empty |
| Session.SessionServer.OnJoin | server/index.js:190-247 | the room becomes `JoinRoom` of the old one (colour defaulted by the random colour), `joined` goes to the whole room and `sync_code` to the joiner; rooms stay valid |
| Session.SessionServer.OnCodeChange | server/index.js:250-264 | unknown room: nothing; locked and not host: `edit_rejected` to the sender only, nothing stored; otherwise the code is stored and sent to everyone else in the room |
| Session.SessionServer.OnLanguageChange | server/index.js:267-280 | as for code changes, with the language and the settings rejection reason |
| Session.SessionServer.OnCursorChange | server/index.js:283-296 | a member's cursor goes to everyone else in the room, with the stored name and colour standing in for empty ones; non-members and unknown rooms produce nothing; nothing is stored |
| Session.SessionServer.OnSendMessage | server/index.js:299-310 | an existing room's history gains exactly one non-system message at the end, sent to the whole room, sender included, with no membership check; unknown rooms: nothing |
| Session.SessionServer.OnToggleLock | server/index.js:313-332 | non-host: `edit_rejected` to the sender, lock unchanged; host: lock flipped and `lock_changed` with `LockedBy` to the whole room |
| Session.SessionServer.OnDisconnecting | server/index.js:335-380 | the loop over the socket's rooms computes exactly `LeaveAll` (rooms and events), keeping every room valid |
| Session.SessionServer.LeaveRoom | server/index.js:338-378 | one loop step on the registry: new rooms and events are exactly `LeaveStep` of the old registry |
| YjsRelay.DocName | server/index.js:77 | the document name is never empty, and is the URL itself when the URL does not contain '/yjs/' |
| YjsRelay.DocNameOfPath | server/index.js:77 | `/yjs/<room>` names `<room>`; a bare prefix or a missing URL names 'default' |
| YjsRelay.DocNameCutsFirst | server/index.js:77 | a URL containing '/yjs/' names the URL with the first occurrence cut out, anywhere in the URL ("/yjsx/yjs/a" names "/yjsxa") |
| YjsRelay.Broadcast | server/index.js:115-131 | at most one send per listed connection, each carrying the frame unchanged to an open connection other than the sender |
| YjsRelay.BroadcastSpec | server/index.js:115-131 | a relayed frame goes unchanged to open connections of the document other than the sender, to every one of them, once each when none is listed twice |
| YjsRelay.FanOut | server/index.js:115-119 | the `forEach` relay loop sends exactly `Broadcast` |
| YjsRelay.RemoveClient | server/index.js:140 | `clients.delete(ws)` removes exactly `ws`, keeps the set duplicate-free, and shrinks it by one when `ws` was in it |
| YjsRelay.AddClient | server/index.js:53-60 | `getYDoc` then `clients.add`: the document exists afterwards with the connection added, other documents untouched |
| YjsRelay.ConnectPreserves | server/index.js:76-81 | a new connection keeps the registry consistent |
| YjsRelay.ConnectKeepsListed | server/index.js:76-81 | after a connection every live connection is still listed in its own document |
| YjsRelay.ConnectKeepsLive | server/index.js:76-81 | after a connection every listed connection is live and mapped to the document that lists it |
| YjsRelay.MergePreserves | server/index.js:106 | merging a sync payload keeps the registry consistent |
| YjsRelay.ClosePreserves | server/index.js:139-147 | closing a connection keeps the registry consistent |
| YjsRelay.CloseKeepsListed | server/index.js:139-141 | after a close every remaining live connection is still listed in its own document |
| YjsRelay.CloseKeepsLive | server/index.js:139-141 | after a close every listed connection is still live and mapped to the document that lists it; the closed one is listed nowhere |
| YjsRelay.PurgePreserves | server/index.js:148-154 | deleting a document with no connection keeps the registry consistent |
| YjsRelay.YjsServer.constructor | server/index.js:51 | no documents, connections or timers |
| YjsRelay.YjsServer.OnConnect | server/index.js:76-93 | the document is found or created and gains the connection; the new connection gets sync step 1 and the awareness states |
| YjsRelay.YjsServer.OnMessage | server/index.js:96-136 | sync frames: a non-empty reply to the sender; step 2 and update frames merged and relayed to the other open connections; awareness frames relayed; other types and undecodable frames dropped with the connection kept |
| YjsRelay.YjsServer.OnClose | server/index.js:139-156 | the connection leaves its document; a purge timer is armed exactly when that empties the document |
| YjsRelay.YjsServer.OnPurgeTimer | server/index.js:148-154 | the oldest timer fires, and deletes its document only if it still exists with no connection |
| YjsRelay.OpenAndLeave | server/index.js:76-81 | from any valid state, a connection that opens an empty or new document and closes again leaves the document empty, the connections as before, and one more purge timer armed |
| YjsRelay.StaleTimerPurges | server/index.js:146-155 | timers are never cancelled: from any valid state with no timer pending, a document emptied, reused and emptied again is purged when the first timer fires |
| EditorPage.CanEdit | client/src/pages/EditorPage.jsx:135-139 | editing is allowed iff the room is unlocked or this socket's id is the host id |
| EditorPage.CanEditMatchesServer | client/src/pages/EditorPage.jsx:138-139 | the page allows an edit exactly when the server's lock guard would accept it |
| EditorPage.Without | client/src/pages/EditorPage.jsx:237 | `filter` keeps exactly the entries with another socket id, and is the identity when none matches |
| EditorPage.WithoutAppend | client/src/pages/EditorPage.jsx:237 | filtering distributes over concatenation, so the entries kept stay in order |
| EditorPage.WithoutSingle | client/src/pages/EditorPage.jsx:270-274 | filtering out the only entry with an id cuts it out between its neighbours |
| EditorPage.DropClient | client/src/pages/EditorPage.jsx:237 | on `disconnected` exactly the entries with that socket id leave the member list |
| EditorPage.UpsertCursor | client/src/pages/EditorPage.jsx:270-274 | the new cursor is last and is the only entry with its socket id; the other cursors are kept |
| EditorPage.UpsertKeepsOthers | client/src/pages/EditorPage.jsx:270-274 | replacing a user's cursor keeps everyone else's in order and puts the new one last |
| EditorPage.HandleCursorUpdateAsWritten | client/src/pages/EditorPage.jsx:266-276 | the own cursor is ignored; every other update ends in a ReferenceError and never updates anything |
| EditorPage.CursorUpdateNeverApplied | client/src/pages/EditorPage.jsx:268-270 | as written, any other user's cursor update throws on `setRemoteCursors` |
| EditorPage.HandleCursorUpdate | client/src/pages/EditorPage.jsx:266-276 | corrected handler: the own cursor is ignored, any other is upserted last |
| EditorPage.ToView | client/src/pages/EditorPage.jsx:280-285 | a message keeps its fields and is local iff its sender is the local user |
| EditorPage.AppendMessage | client/src/pages/EditorPage.jsx:279-285 | a received message is appended last, earlier ones untouched, local iff the names match |
| EditorPage.HistoryView | client/src/pages/EditorPage.jsx:218-223 | the loaded history keeps order and length, each message marked local or not |
| EditorPage.LanguageLabel | client/src/pages/EditorPage.jsx:230 | the catalogue name of a language, or its id when unknown |
| EditorPage.CodeBlank | client/src/pages/EditorPage.jsx:381 | the code counts as empty exactly when there is no shared text or it is all whitespace |
| EditorPage.RunRefused | client/src/pages/EditorPage.jsx:446-451 | a run is refused exactly when the code counts as empty by the language-switch rule |
| EditorPage.RunRefusedIff | client/src/pages/EditorPage.jsx:448-451 | a run is refused exactly when there is no text or only whitespace |
| EditorPage.LocalLanguageChange | client/src/pages/EditorPage.jsx:374-399 | refused iff the user may not edit; cancelled iff the code is not blank and the user declines; otherwise switched to the new language's template or '' |
| EditorPage.SwitchedCode | client/src/pages/EditorPage.jsx:387 | a permitted, confirmed switch yields the template, or '' for a language without one |
| EditorPage.ToggleLockRequestFor | client/src/pages/EditorPage.jsx:402-408 | the lock toggle is sent iff this socket is the host |
| EditorPage.RunTerminal | client/src/pages/EditorPage.jsx:483-496 | a `run` reply shows a non-empty output, as an error iff stderr is non-empty; a `message` reply shows it as an error; a failed request shows the fixed failure text as an error |
| EditorPage.RunTerminalSpec | client/src/pages/EditorPage.jsx:483-492 | non-empty stderr is shown as an error; otherwise stdout, or 'No output', not as an error; never an empty output |
| EditorPage.RunErrorIff | client/src/pages/EditorPage.jsx:483-496 | the error flag is set exactly for stderr, a service message, or a failed request |
| EditorPage.TabSwitchAsWritten | client/src/pages/EditorPage.jsx:192-199 | as written, a tab click disconnects and re-joins under a new socket id: the server registry goes through a leave then a join; the room exists afterwards with the new id as a member, other rooms untouched |
| EditorPage.TabSwitchDemotesHost | client/src/pages/EditorPage.jsx:311-323 | as written, a host clicking a tab with others present loses host to the earliest remaining member and the lock is cleared; the old entry is gone and the new id is appended last |
| EditorPage.TabSwitchResetsLoneRoom | client/src/pages/EditorPage.jsx:321-323 | as written, a lone member clicking a tab gets a fresh room: the starter code, JavaScript, an empty history, the new id as host, unlocked |
| EditorPage.EditorState.constructor | client/src/pages/EditorPage.jsx:101-124 | the page's initial state: no members, JavaScript, no host, unlocked, no messages, users tab, sidebar 280 |
| EditorPage.EditorState.CanEditNow | client/src/pages/EditorPage.jsx:139 | `canEdit` on the page's current state |
| EditorPage.EditorState.OnJoined | client/src/pages/EditorPage.jsx:202-210 | members and host taken from `joined`, lock taken only when present, nothing else changed |
| EditorPage.EditorState.OnSyncCode | client/src/pages/EditorPage.jsx:213-225 | language taken; host only when truthy; lock only when present; history only when non-empty |
| EditorPage.EditorState.OnRemoteLanguageChange | client/src/pages/EditorPage.jsx:228-233 | the language becomes the announced one |
| EditorPage.EditorState.OnDisconnected | client/src/pages/EditorPage.jsx:236-241 | the member list becomes `DropClient` of the old one |
| EditorPage.EditorState.OnLockChanged | client/src/pages/EditorPage.jsx:244-249 | the lock flag becomes the announced one |
| EditorPage.EditorState.OnHostChanged | client/src/pages/EditorPage.jsx:252-258 | host and lock become the announced ones |
| EditorPage.EditorState.OnCursorUpdate | client/src/pages/EditorPage.jsx:266-276 | the cursor list follows the corrected handler |
| EditorPage.EditorState.OnReceiveMessage | client/src/pages/EditorPage.jsx:279-291 | the message is appended; the unread flag is set exactly when the chat tab is not open, and otherwise kept |
| EditorPage.EditorState.OpenChatTab | client/src/pages/EditorPage.jsx:748 | corrected click: the chat tab opens and the unread flag clears; socket id, host, lock, members, messages and language are unchanged |
| EditorPage.EditorState.OpenUsersTab | client/src/pages/EditorPage.jsx:739 | corrected click: the users tab opens; unread flag, socket id, host, lock, members, messages and language are unchanged |
| EditorPage.EditorState.HandleLanguageChange | client/src/pages/EditorPage.jsx:374-399 | on a switch the language, the shared text (when there is one) and a `language_change` request follow `LocalLanguageChange`; on refusal or cancel nothing changes or is sent |
| EditorPage.EditorState.SeedTemplate | client/src/pages/EditorPage.jsx:180-189 | the host puts the template into an empty shared text, once; nobody else changes it |
| EditorPage.EditorState.StartSidebarDrag | client/src/pages/EditorPage.jsx:730 | pressing the sidebar edge starts a drag |
| EditorPage.EditorState.StopDrag | client/src/pages/EditorPage.jsx:337-339 | releasing the mouse ends the drag |
| EditorPage.EditorState.OnMouseMove | client/src/pages/EditorPage.jsx:327-331 | while dragging, a width strictly between 150 and 400 is taken and any other ignored, so the sidebar stays in bounds |
| Home.HandleJoinRoom | client/src/pages/Home.jsx:28-43 | a blank room id is rejected first, then a blank name; otherwise navigation to `/editor/` + the untrimmed room id with the trimmed name |
| Home.BothBlankReportsRoomId | client/src/pages/Home.jsx:31-39 | with both fields blank only the room id error is raised |
| Home.NavigationTarget | client/src/pages/Home.jsx:42 | navigates to `/editor/` + the room id, unchanged, with the trimmed name, which is non-empty |
| Home.AutoFill | client/src/pages/Home.jsx:14-20 | a room id in the navigation state fills the field; otherwise the field is kept |
| Home.InviteRoundTrip | client/src/pages/Home.jsx:15-16 | a visitor sent back with a room id and then typing a name navigates to `/editor/` + that room id with the trimmed name |
| Chat.Send | client/src/components/Chat.jsx:16-22 | the untrimmed input is sent iff it has a non-whitespace character, and the input is cleared exactly then |
| Chat.SendEnabled | client/src/components/Chat.jsx:67 | the button is enabled exactly when the input has a non-whitespace character |
| Chat.ButtonMatchesGuard | client/src/components/Chat.jsx:67 | the send button is enabled exactly when submitting would send |
| Chat.SendOnce | client/src/components/Chat.jsx:18-20 | what is sent is not blank, and a second submit right after sends nothing |
| Chat.ChatInput.constructor | client/src/components/Chat.jsx:8 | the input starts empty |
| Chat.ChatInput.Type | client/src/components/Chat.jsx:61 | typing sets the input |
| Chat.ChatInput.HandleSend | client/src/components/Chat.jsx:16-22 | the send and the new input are those of `Send` |
| Chat.Render | client/src/components/Chat.jsx:28-51 | placeholder iff no messages; otherwise one bubble per message in order, naming the sender only on others' messages |
| Chat.RenderAppend | client/src/components/Chat.jsx:33 | a later message renders after the earlier ones, which keep their bubbles |
| ClientCard.FirstOrUndefined | client/src/components/Client.jsx:10 | `w[0]` inside a concatenation: the first character, or "undefined" for an empty string |
| ClientCard.InitialsAsWritten | client/src/components/Client.jsx:6-13 | as written, never empty; more than two characters only when the trimmed name splits into two or more pieces, one of the first two empty |
| ClientCard.InitialsAsWrittenDoubleSpace | client/src/components/Client.jsx:8-10 | as written, "a  b" (two spaces) gives "AUNDEFINED" |
| ClientCard.AsWrittenPieces | client/src/components/Client.jsx:8-10 | as written, with two or more pieces the initials are the upper-cased first characters of the first two pieces, "undefined" standing in for an empty piece |
| ClientCard.DoubleSpacePieces | client/src/components/Client.jsx:8-10 | as written, "a  b" takes its initials from the pieces "a" and "" |
| ClientCard.TrimDoubleSpace | client/src/components/Client.jsx:8 | "a  b" is its own trim |
| ClientCard.SplitDoubleSpace | client/src/components/Client.jsx:8 | "a  b".split(' ') has an empty middle piece |
| ClientCard.UpperAundefined | client/src/components/Client.jsx:10 | the upper-casing of "aundefined" is "AUNDEFINED" |
| ClientCard.UpperDoubleSpacePieces | client/src/components/Client.jsx:10 | "a" followed by an empty piece upper-cases to "AUNDEFINED" |
| ClientCard.NonEmpty | client/src/components/Client.jsx:8 | the non-empty pieces, all pieces when none is empty |
| ClientCard.Initials | client/src/components/Client.jsx:6-13 | corrected initials: '?' for a falsy name, otherwise one or two characters |
| ClientCard.InitialsAgree | client/src/components/Client.jsx:8-12 | with no empty piece, the corrected initials are those the code computes, at most two characters |
| ClientCard.InitialsOfTwoNames | client/src/components/Client.jsx:8-10 | "first last" gives the two upper-cased initials |
| ClientCard.InitialsOfOneWord | client/src/components/Client.jsx:12 | a single word gives its first two characters upper-cased |
| ClientCard.CardFor | client/src/components/Client.jsx:23-39 | the crown and the 'Host' label appear iff the member is host; the avatar shows `getInitials` as written, which are the intended initials, at most two characters, whenever no piece of the trimmed name is empty |
| ClientCard.OneCrownInSidebar | client/src/pages/EditorPage.jsx:766-772 | built from a valid room's `joined` list and host id, the sidebar crowns exactly one member, the host |
| StatusBar.LatencyColor | client/src/components/StatusBar.jsx:6-10 | green below 80 ms, yellow from 80 up to 200, red from 200 |
| StatusBar.LatencyColorMonotone | client/src/components/StatusBar.jsx:6-10 | a slower round trip never shows a milder colour |
| StatusBar.StatusText | client/src/components/StatusBar.jsx:19 | 'Connected' iff connected |
| StatusBar.LatencyShown | client/src/components/StatusBar.jsx:24 | the latency is shown exactly when connected and measured (not negative) |
| StatusBar.JoinedShowsConnected | client/src/pages/EditorPage.jsx:785 | holding a valid room's member list, the page shows 'Connected' and any measured latency |
| StatusBar.NoLatencyBeforeFirstPing | client/src/components/StatusBar.jsx:24 | the latency stays hidden while it is still the initial -1 |

## Left out

- The replicated document and its protocols are abstract. This covers `Y.Doc`, the sync-protocol reader, awareness encoding and application, and lib0 varint encoding. A frame arrives already classified. The document is the list of payloads merged into it.
- Awareness removal on close (server/index.js:144) is not modelled. It passes the server document's own client id, not the departing client's.
- Transport is not modelled:
  - the HTTP server;
  - the upgrade routing (only URLs starting with '/yjs' reach the relay);
  - socket.io rooms and delivery;
  - `ws.send`.
- Sends are returned as values. Whether a connection is open is a set parameter.
- Timers are explicit steps. The 5-minute purge is a queue fired oldest first (all purge timers have the same delay). The client's 3-second ping loop is left out, as is the server's `ping` acknowledgement.
- Random colours, UUIDs, clocks and timestamps are parameters or left out.
- The execution request to the Piston service is left out; its reply is a parameter. Execution time is left out.
- The terminal height bound (a floating-point fraction of the window height) is left out.
- Toast notifications, page title, mobile detection, clipboard, theme and keyboard shortcut are UI and left out.
- The client's socket connect, join emit and `connect_error` handling are left out.
- The `edit_rejected` client handler (a toast) is left out.
- The Monaco editor wrapper and the y-websocket hook (`Editor.jsx`, `useYjs.js`) are thin wrappers over foreign libraries. `Terminal.jsx`, `ThemeToggle.jsx`, `ErrorBoundary.jsx`, `App.jsx`, `main.jsx` and `socket.js` are UI and configuration. The load-test driver uses the network and floating point. None of these is part of this model.
- Concurrency: each handler is one atomic step; interleavings are not modelled.
- Common.JoinSpace: its own contract states only the length bound; what the join is is stated by `Common.SplitJoin` and `Common.JoinSplit`.
- Common.ToUpper: upper-cases ASCII letters only, not the full Unicode case mapping.
- Strings are sequences of characters, not UTF-16 code units. `w[0]` and `slice(0, 2)` on surrogate pairs differ.
- Languages.Template: looks up the eight ids only. JavaScript would also find inherited object properties such as `constructor`.
- The CORS callback's use of the process environment is modelled as `Cors.ClientUrl`'s parameter.
- EditorPage.EditorState.OpenChatTab / OpenUsersTab: model the intended tab click, with no reconnect. The reconnect the code performs is modelled on the server registry by `EditorPage.TabSwitchAsWritten`, not on the page's state: the page's new socket id and the `joined` and `sync_code` it receives again are not modelled.
- Home.InviteRoundTrip / NavigationTarget: route matching (client/src/App.jsx:30) is not modelled. A room id containing '/', '?' or '#' does not come back unchanged as the editor page's `roomId`.
- Session.SessionServer.OnDisconnecting: skips a session room named like the socket's own id, as the code does. A member who joined such a room is never removed from it.

## Findings

| source | as written | input that shows it | evidently intended | confidence | as-written member | corrected member |
|---|---|---|---|---|---|---|
| client/src/pages/EditorPage.jsx:270 | `handleCursorUpdate` calls `setRemoteCursors`, which is never declared, so any cursor update from another socket throws a ReferenceError in the listener | a `cursor_update` whose socketId differs from the page's own; the browser client never emits `cursor_change` (only the load-test driver does, load-test.js:105), so this happens only while such a client is in the room | keep a remote-cursor list: drop the user's old cursor and append the new one | high (not executed) | EditorPage.CursorUpdateNeverApplied | EditorPage.HandleCursorUpdate |
| client/src/components/Client.jsx:8-10 | `getInitials` takes `words[1][0]` even when the second piece is empty, concatenating `undefined` | the name "a  b" (two spaces) shows "AUNDEFINED" | skip empty pieces, giving at most two initials; the member card (`ClientCard.CardFor`) shows the as-written initials, which agree with the corrected ones when no piece is empty | high (not executed) | ClientCard.InitialsAsWrittenDoubleSpace | ClientCard.Initials |
| client/src/pages/EditorPage.jsx:323 | the socket effect lists `activeSidebarTab` among its dependencies, so every tab click runs the cleanup's `socket.disconnect()` and then connects and joins again under a new socket id | a host clicks Chat with another member in the room: the host passes to that member and the lock clears; a lone member clicks Chat and the leave reaches the server before the new join: the room is deleted and recreated, losing its history and language | the tab is not a dependency of the socket effect, so a click only changes the tab; the `receive_message` handler must then read the current tab through a ref or a state read (it reads `activeSidebarTab` from the effect's closure, EditorPage.jsx:288, and would otherwise keep 'users'), as `EditorPage.EditorState.OnReceiveMessage` does | high (not executed) | EditorPage.TabSwitchDemotesHost | EditorPage.EditorState.OpenChatTab |
