/** The landing page's join form: validation of the two fields, the navigation
    target, and the room id filled in when the editor sends a visitor back. */
module Home {
  import opened Common

  const RoomIdError: string := "Please enter a Room ID"
  const UsernameError: string := "Please enter your username"
  const EditorPrefix: string := "/editor/"

  datatype JoinOutcome =
    | Rejected(message: string)
    | Navigate(path: string, username: string)

  /** `handleJoinRoom`: the room id is checked first, then the user name; on success
      the editor route takes the room id as typed and the user name trimmed. */
  function HandleJoinRoom(roomId: string, username: string): (r: JoinOutcome)
    ensures r == Rejected(RoomIdError) <==> AllWhitespace(roomId)
    ensures r == Rejected(UsernameError) <==> !AllWhitespace(roomId) && AllWhitespace(username)
    ensures r.Navigate? <==> !AllWhitespace(roomId) && !AllWhitespace(username)
    ensures r.Navigate? ==> r.path == EditorPrefix + roomId && r.username == Trim(username)
  {
    TrimEmptyIff(roomId);
    TrimEmptyIff(username);
    if Trim(roomId) == "" then Rejected(RoomIdError)
    else if Trim(username) == "" then Rejected(UsernameError)
    else Navigate(EditorPrefix + roomId, Trim(username))
  }

  /** When both fields are blank only the room id is reported. */
  lemma BothBlankReportsRoomId(roomId: string, username: string)
    requires AllWhitespace(roomId) && AllWhitespace(username)
    ensures HandleJoinRoom(roomId, username) == Rejected(RoomIdError)
  {
  }

  /** The path handed to `navigate` is `/editor/` followed by the room id unchanged
      (surrounding whitespace included), and the user name handed to the editor is
      non-empty and already trimmed, so the editor page's missing-name redirect does
      not fire. How the router then matches the path is not part of this model. */
  lemma NavigationTarget(roomId: string, username: string)
    requires HandleJoinRoom(roomId, username).Navigate?
    ensures var r := HandleJoinRoom(roomId, username);
      && r.path[..|EditorPrefix|] == EditorPrefix && r.path[|EditorPrefix|..] == roomId
      && r.username != "" && Trim(r.username) == r.username
  {
    TrimEmptyIff(username);
    TrimIdempotent(username);
    var r := HandleJoinRoom(roomId, username);
    assert r.path == EditorPrefix + roomId;
  }

  /** The roomId auto-fill: a truthy room id in the navigation state replaces the
      field; otherwise the field keeps its value. */
  function AutoFill(field: string, stateRoomId: Option<string>): (r: string)
    ensures Truthy(stateRoomId) ==> r == stateRoomId.value
    ensures !Truthy(stateRoomId) ==> r == field
  {
    if Truthy(stateRoomId) then stateRoomId.value else field
  }

  /** A visitor sent back from an invite link with the room id in the navigation
      state, who then types a name, navigates to `/editor/` followed by that room id,
      with the trimmed name. */
  lemma InviteRoundTrip(roomId: string, field: string, username: string)
    requires !AllWhitespace(roomId) && !AllWhitespace(username)
    ensures HandleJoinRoom(AutoFill(field, Some(roomId)), username) == Navigate(EditorPrefix + roomId, Trim(username))
  {
  }
}
