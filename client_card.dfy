/** A member card in the sidebar: the avatar initials and the host marks. */
module ClientCard {
  import opened Common
  import opened Members
  import opened Session

  /** `w[0]` on a string, as it ends up inside a concatenation: the first character,
      or the text "undefined" when the string is empty. */
  function FirstOrUndefined(w: string): (r: string)
    ensures w != "" ==> r == [w[0]]
    ensures w == "" ==> r == "undefined"
  {
    if w == "" then "undefined" else [w[0]]
  }

  /** `getInitials` AS WRITTEN: with two or more pieces after splitting the trimmed
      name on ' ', the first characters of the first two pieces, upper-cased;
      otherwise the first two characters of the untrimmed name. Two spaces in a row
      make the second piece empty. */
  function InitialsAsWritten(name: Option<string>): (r: string)
    ensures |r| >= 1
    ensures |r| > 2 ==> Truthy(name) && var words := SplitSpace(Trim(name.value));
      |words| >= 2 && (words[0] == "" || words[1] == "")
  {
    if !Truthy(name) then "?"
    else
      var words := SplitSpace(Trim(name.value));
      if |words| >= 2 then ToUpper(FirstOrUndefined(words[0]) + FirstOrUndefined(words[1]))
      else ToUpper(Take(name.value, 2))
  }

  /** "a  b" (two spaces) shows as "AUNDEFINED", ten characters on a two-letter
      avatar. */
  lemma InitialsAsWrittenDoubleSpace(name: string)
    requires name == "a  b"
    ensures InitialsAsWritten(Some(name)) == "AUNDEFINED"
  {
    DoubleSpacePieces(name);
    UpperDoubleSpacePieces();
  }

  lemma DoubleSpacePieces(name: string)
    requires name == "a  b"
    ensures InitialsAsWritten(Some(name)) == ToUpper(FirstOrUndefined("a") + FirstOrUndefined(""))
  {
    TrimDoubleSpace();
    SplitDoubleSpace();
    AsWrittenPieces(name, ["a", "", "b"]);
  }

  lemma UpperDoubleSpacePieces()
    ensures ToUpper(FirstOrUndefined("a") + FirstOrUndefined("")) == "AUNDEFINED"
  {
    assert FirstOrUndefined("a") + FirstOrUndefined("") == "aundefined";
    UpperAundefined();
  }

  lemma AsWrittenPieces(name: string, words: seq<string>)
    requires name != "" && words == SplitSpace(Trim(name)) && |words| >= 2
    ensures InitialsAsWritten(Some(name)) == ToUpper(FirstOrUndefined(words[0]) + FirstOrUndefined(words[1]))
  {
  }

  lemma TrimDoubleSpace()
    ensures Trim("a  b") == "a  b"
  {
    var s := "a  b";
    assert s[0] == 'a' && s[3] == 'b';
    TrimKeeps(s);
  }

  lemma SplitDoubleSpace()
    ensures SplitSpace("a  b") == ["a", "", "b"]
  {
    assert "b"[1..] == "" && " b"[1..] == "b" && "  b"[1..] == " b" && "a  b"[1..] == "  b";
    assert SplitSpace("") == [""];
    assert ['b'] + "" == "b";
    assert [""][1..] == [];
    assert SplitSpace("b") == [['b'] + ""] + [""][1..];
    assert SplitSpace("b") == ["b"];
    assert SplitSpace(" b") == ["", "b"];
    assert SplitSpace("  b") == ["", "", "b"];
    var rest: seq<string> := ["", "", "b"];
    assert ['a'] + rest[0] == "a" && rest[1..] == ["", "b"];
    assert SplitSpace("a  b") == [['a'] + rest[0]] + rest[1..];
  }

  lemma UpperAundefined()
    ensures ToUpper("aundefined") == "AUNDEFINED"
  {
    var u := ToUpper("aundefined");
    assert u[0] == 'A' && u[1] == 'U' && u[2] == 'N' && u[3] == 'D' && u[4] == 'E';
    assert u[5] == 'F' && u[6] == 'I' && u[7] == 'N' && u[8] == 'E' && u[9] == 'D';
  }

  predicate NoEmptyPiece(words: seq<string>) {
    forall k :: 0 <= k < |words| ==> words[k] != ""
  }

  /** The pieces of a split that are not empty. */
  function NonEmpty(words: seq<string>): (r: seq<string>)
    ensures |r| <= |words|
    ensures forall k :: 0 <= k < |r| ==> r[k] != "" && r[k] in words
    ensures NoEmptyPiece(words) ==> r == words
  {
    if words == [] then []
    else if words[0] == "" then NonEmpty(words[1..])
    else [words[0]] + NonEmpty(words[1..])
  }

  /** `getInitials` with empty pieces skipped: what the avatar is meant to show. */
  function Initials(name: Option<string>): (r: string)
    ensures !Truthy(name) ==> r == "?"
    ensures 1 <= |r| <= 2
  {
    if !Truthy(name) then "?"
    else
      var words := NonEmpty(SplitSpace(Trim(name.value)));
      if |words| >= 2 then ToUpper([words[0][0], words[1][0]])
      else ToUpper(Take(name.value, 2))
  }

  /** Where no piece is empty (no two spaces in a row) the corrected initials are
      exactly those the code computes, and then at most two characters long. */
  lemma InitialsAgree(name: Option<string>)
    requires Truthy(name)
    requires NoEmptyPiece(SplitSpace(Trim(name.value)))
    ensures Initials(name) == InitialsAsWritten(name)
    ensures |InitialsAsWritten(name)| <= 2
  {
    var words := SplitSpace(Trim(name.value));
    assert NonEmpty(words) == words;
    if |words| >= 2 {
      assert words[0] != "" && words[1] != "";
      assert FirstOrUndefined(words[0]) + FirstOrUndefined(words[1]) == [words[0][0], words[1][0]];
    }
  }

  /** A first and last name give their two initials, upper-cased. */
  lemma InitialsOfTwoNames(first: string, last: string)
    requires first != "" && last != "" && NoSpace(first) && NoSpace(last)
    requires !IsJsWhitespace(first[0]) && !IsJsWhitespace(last[|last| - 1])
    ensures Initials(Some(first + " " + last)) == ToUpper([first[0], last[0]])
  {
    var s := first + " " + last;
    var parts := [first, last];
    TrimKeeps(s);
    assert JoinSpace(parts) == s by {
      assert parts[1..] == [last];
      assert JoinSpace([last]) == last;
    }
    JoinSplit(parts);
    assert NonEmpty(parts) == parts by {
      assert NoEmptyPiece(parts);
    }
  }

  /** A single word (no space) shows its first two characters, upper-cased. */
  lemma InitialsOfOneWord(word: string)
    requires word != "" && NoSpace(word)
    ensures Initials(Some(word)) == ToUpper(Take(word, 2))
  {
    var t := Trim(word);
    var i := TrimSlice(word);
    assert NoSpace(t) by {
      forall k | 0 <= k < |t| ensures t[k] != ' ' { assert t[k] == word[i + k]; }
    }
    JoinSplit([t]);
  }

  /** The card for one member. */
  datatype Card = Card(initials: string, name: string, crown: bool, hostLabel: bool)

  /** The card as rendered: the avatar shows `getInitials` as written, so a name with
      two spaces in a row gets the "undefined" text; where no piece is empty it shows
      the intended initials, at most two characters. */
  function CardFor(username: string, isHost: bool): (c: Card)
    ensures c.crown <==> isHost
    ensures c.hostLabel <==> isHost
    ensures c.initials == InitialsAsWritten(Some(username)) && c.name == username
    ensures username != "" && NoEmptyPiece(SplitSpace(Trim(username))) ==>
      c.initials == Initials(Some(username)) && |c.initials| <= 2
  {
    if username != "" && NoEmptyPiece(SplitSpace(Trim(username))) then
      InitialsAgree(Some(username));
      Card(InitialsAsWritten(Some(username)), username, isHost, isHost)
    else
      Card(InitialsAsWritten(Some(username)), username, isHost, isHost)
  }

  /** The editor page builds the cards from the `joined` list, marking a member as
      host when its socket id is the page's host id. With the room's own host id,
      exactly one card in the sidebar wears the crown, and it is the host's. */
  lemma OneCrownInSidebar(room: Room)
    requires RoomValid(room)
    ensures var cs := ClientList(room);
      exists i :: 0 <= i < |cs| && CardFor(cs[i].username, cs[i].socketId == room.hostId).crown
        && cs[i].socketId == room.hostId
        && forall j :: 0 <= j < |cs| && CardFor(cs[j].username, cs[j].socketId == room.hostId).crown ==> j == i
  {
    ExactlyOneHostListed(room);
    var cs := ClientList(room);
    assert forall j :: 0 <= j < |cs| ==> cs[j].isHost == (cs[j].socketId == room.hostId);
  }
}
