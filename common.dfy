/** Values and JavaScript string operations shared by the server and the client model. */
module Common {

  datatype Option<+T> = None | Some(value: T)

  /** A JavaScript string value is "truthy" iff it is present and non-empty. */
  predicate Truthy(s: Option<string>) {
    s.Some? && s.value != ""
  }

  /** `a || b` on two strings: the first when truthy, else the second. */
  function OrElse(a: string, b: string): (r: string)
    ensures a != "" ==> r == a
    ensures a == "" ==> r == b
  {
    if a != "" then a else b
  }

  // ---------------------------------------------------------------------------
  // String.prototype.trim
  // ---------------------------------------------------------------------------

  /** The characters `String.prototype.trim` removes: ECMAScript WhiteSpace and LineTerminator. */
  predicate IsJsWhitespace(c: char) {
    var n := c as int;
    n == 0x09 || n == 0x0A || n == 0x0B || n == 0x0C || n == 0x0D || n == 0x20 ||
    n == 0xA0 || n == 0x1680 || (0x2000 <= n <= 0x200A) || n == 0x2028 || n == 0x2029 ||
    n == 0x202F || n == 0x205F || n == 0x3000 || n == 0xFEFF
  }

  predicate AllWhitespace(s: string) {
    forall i :: 0 <= i < |s| ==> IsJsWhitespace(s[i])
  }

  function TrimStart(s: string): (r: string)
    ensures |r| <= |s| && r == s[|s| - |r|..]
    ensures AllWhitespace(s[..|s| - |r|])
    ensures r != "" ==> !IsJsWhitespace(r[0])
  {
    if s != "" && IsJsWhitespace(s[0]) then TrimStart(s[1..]) else s
  }

  function TrimEnd(s: string): (r: string)
    ensures |r| <= |s| && r == s[..|r|]
    ensures AllWhitespace(s[|r|..])
    ensures r != "" ==> !IsJsWhitespace(r[|r| - 1])
  {
    if s != "" && IsJsWhitespace(s[|s| - 1]) then TrimEnd(s[..|s| - 1]) else s
  }

  /** `s.trim()`: whitespace cut from both ends. */
  function Trim(s: string): (r: string)
    ensures |r| <= |s|
    ensures r != "" ==> !IsJsWhitespace(r[0]) && !IsJsWhitespace(r[|r| - 1])
  {
    TrimEnd(TrimStart(s))
  }

  /** What trimming removes is whitespace only: the result is the slice `s[i..i + |Trim(s)|]`
      with nothing but whitespace on either side. */
  lemma TrimSlice(s: string) returns (i: nat)
    ensures i + |Trim(s)| <= |s| && Trim(s) == s[i..i + |Trim(s)|]
    ensures AllWhitespace(s[..i]) && AllWhitespace(s[i + |Trim(s)|..])
  {
    var a := TrimStart(s);
    var r := TrimEnd(a);
    i := |s| - |a|;
    assert a == s[i..];
    assert r == a[..|r|];
    assert s[i..i + |r|] == r;
    assert s[i + |r|..] == a[|r|..];
  }

  /** A string trims to the empty string exactly when every character is whitespace:
      this is what `!s.trim()` tests in the source. */
  lemma TrimEmptyIff(s: string)
    ensures Trim(s) == "" <==> AllWhitespace(s)
  {
    var r := Trim(s);
    var i := TrimSlice(s);
    if r == "" {
      forall k | 0 <= k < |s| ensures IsJsWhitespace(s[k]) {
        if k < i { assert s[..i][k] == s[k]; } else { assert s[i..][k - i] == s[k]; }
      }
    } else {
      assert s[i] == r[0];
    }
  }

  /** A string that neither starts nor ends with whitespace is its own trim. */
  lemma TrimKeeps(s: string)
    requires s != "" ==> !IsJsWhitespace(s[0]) && !IsJsWhitespace(s[|s| - 1])
    ensures Trim(s) == s
  {
  }

  /** Trimming is idempotent. */
  lemma TrimIdempotent(s: string)
    ensures Trim(Trim(s)) == Trim(s)
  {
    var r := Trim(s);
    var r2 := Trim(r);
    var j := TrimSlice(r);
    if r != "" {
      assert !IsJsWhitespace(r[0]);
    }
  }

  // ---------------------------------------------------------------------------
  // String.prototype.includes
  // ---------------------------------------------------------------------------

  predicate IsPrefix(p: string, s: string) {
    |p| <= |s| && s[..|p|] == p
  }

  /** `s.includes(t)`, computed by scanning. */
  predicate Includes(s: string, t: string): (found: bool)
    ensures t == "" ==> found
    ensures |t| > |s| ==> !found
    decreases |s|
  {
    IsPrefix(t, s) || (s != "" && Includes(s[1..], t))
  }

  ghost predicate OccursAt(s: string, t: string, i: int) {
    0 <= i && i + |t| <= |s| && s[i..i + |t|] == t
  }

  /** The scan agrees with the definition "t occurs at some position of s". */
  lemma {:induction false} IncludesIff(s: string, t: string)
    ensures Includes(s, t) <==> exists i :: OccursAt(s, t, i)
    decreases |s|
  {
    if IsPrefix(t, s) {
      assert OccursAt(s, t, 0);
    } else if s == "" {
      assert |t| > 0;
    } else {
      IncludesIff(s[1..], t);
      if exists i :: OccursAt(s[1..], t, i) {
        var i :| OccursAt(s[1..], t, i);
        assert s[i + 1..i + 1 + |t|] == s[1..][i..i + |t|];
        assert OccursAt(s, t, i + 1);
      }
      if exists i :: OccursAt(s, t, i) {
        var i :| OccursAt(s, t, i);
        assert i != 0;
        assert s[1..][i - 1..i - 1 + |t|] == s[i..i + |t|];
        assert OccursAt(s[1..], t, i - 1);
      }
    }
  }

  /** Whatever `t` is a substring of something wrapped around it. */
  lemma IncludesInside(a: string, t: string, b: string)
    ensures Includes(a + t + b, t)
  {
    var s := a + t + b;
    assert s[|a|..|a| + |t|] == t;
    assert OccursAt(s, t, |a|);
    IncludesIff(s, t);
  }

  // ---------------------------------------------------------------------------
  // String.prototype.replace(pattern, '') with a string pattern: only the first
  // occurrence is removed.
  // ---------------------------------------------------------------------------

  function RemoveFirst(s: string, p: string): (r: string)
    requires p != ""
    ensures !Includes(s, p) ==> r == s
    ensures |r| <= |s|
    decreases |s|
  {
    if IsPrefix(p, s) then s[|p|..]
    else if s == "" then s
    else [s[0]] + RemoveFirst(s[1..], p)
  }

  /** When `p` occurs, exactly its earliest occurrence is cut out and everything
      around it is kept in order. */
  lemma RemoveFirstCutsFirst(s: string, p: string)
    requires p != "" && Includes(s, p)
    ensures exists i :: && OccursAt(s, p, i)
                         && (forall j :: 0 <= j < i ==> !OccursAt(s, p, j))
                         && RemoveFirst(s, p) == s[..i] + s[i + |p|..]
  {
    var i := FirstOccurrence(s, p);
  }

  /** The position `RemoveFirstCutsFirst` promises, found by following the scan. */
  lemma {:induction false} FirstOccurrence(s: string, p: string) returns (i: nat)
    requires p != "" && Includes(s, p)
    ensures OccursAt(s, p, i) && RemoveFirst(s, p) == s[..i] + s[i + |p|..]
    ensures forall j :: 0 <= j < i ==> !OccursAt(s, p, j)
    decreases |s|
  {
    if IsPrefix(p, s) {
      i := 0;
      assert s[..0] + s[|p|..] == s[|p|..];
    } else {
      var k := FirstOccurrence(s[1..], p);
      i := k + 1;
      FirstOccurrenceShift(s, p, k);
      RemoveFirstShift(s, p, k);
    }
  }

  /** The earliest occurrence in the tail, one further on, is the earliest in `s`
      when `s` does not start with `p`. */
  lemma FirstOccurrenceShift(s: string, p: string, k: nat)
    requires s != "" && !IsPrefix(p, s)
    requires OccursAt(s[1..], p, k) && forall j :: 0 <= j < k ==> !OccursAt(s[1..], p, j)
    ensures OccursAt(s, p, k + 1) && forall j :: 0 <= j < k + 1 ==> !OccursAt(s, p, j)
  {
    OccursAtShift(s, p, k + 1);
    forall j | 1 <= j < k + 1 ensures !OccursAt(s, p, j) {
      OccursAtShift(s, p, j);
    }
  }

  /** The cut in the tail, with the first character put back, is the cut in `s`. */
  lemma RemoveFirstShift(s: string, p: string, k: nat)
    requires p != "" && s != "" && !IsPrefix(p, s) && k + |p| <= |s| - 1
    requires RemoveFirst(s[1..], p) == s[1..][..k] + s[1..][k + |p|..]
    ensures RemoveFirst(s, p) == s[..k + 1] + s[k + 1 + |p|..]
  {
    var t := s[1..];
    assert RemoveFirst(s, p) == [s[0]] + RemoveFirst(t, p);
    assert t[..k] == s[1..k + 1];
    assert [s[0]] + s[1..k + 1] == s[..k + 1];
    assert t[k + |p|..] == s[k + 1 + |p|..];
  }

  /** An occurrence past the first character is an occurrence in the tail. */
  lemma OccursAtShift(s: string, p: string, j: int)
    requires s != "" && j >= 1
    ensures OccursAt(s, p, j) <==> OccursAt(s[1..], p, j - 1)
  {
    if j + |p| <= |s| {
      var a, b := s[j..j + |p|], s[1..][j - 1..j - 1 + |p|];
      assert forall k :: 0 <= k < |p| ==> a[k] == s[j + k] == b[k];
      assert a == b;
    }
  }

  /** Removing the first occurrence of `p` from `p + rest` leaves `rest`. */
  lemma RemoveFirstAtStart(p: string, rest: string)
    requires p != ""
    ensures RemoveFirst(p + rest, p) == rest
  {
    assert (p + rest)[..|p|] == p;
    assert (p + rest)[|p|..] == rest;
  }

  // ---------------------------------------------------------------------------
  // String.prototype.split(' ') and its inverse Array.prototype.join(' ')
  // ---------------------------------------------------------------------------

  predicate NoSpace(w: string) {
    forall i :: 0 <= i < |w| ==> w[i] != ' '
  }

  /** `s.split(' ')`: the pieces between consecutive spaces, at least one. */
  function SplitSpace(s: string): (r: seq<string>)
    ensures |r| >= 1
    ensures forall k :: 0 <= k < |r| ==> NoSpace(r[k])
    decreases |s|
  {
    if s == "" then [""]
    else
      var rest := SplitSpace(s[1..]);
      if s[0] == ' ' then [""] + rest
      else [[s[0]] + rest[0]] + rest[1..]
  }

  /** `parts.join(' ')`. */
  function JoinSpace(parts: seq<string>): (r: string)
    requires |parts| >= 1
    ensures |r| >= |parts| - 1
    decreases |parts|
  {
    if |parts| == 1 then parts[0] else parts[0] + " " + JoinSpace(parts[1..])
  }

  /** Splitting on ' ' loses nothing: joining the pieces back gives the input. */
  lemma {:induction false} SplitJoin(s: string)
    ensures JoinSpace(SplitSpace(s)) == s
    decreases |s|
  {
    if s != "" {
      SplitJoin(s[1..]);
      var rest := SplitSpace(s[1..]);
      if s[0] == ' ' {
        assert SplitSpace(s) == [""] + rest;
        assert ([""] + rest)[1..] == rest;
        assert s == " " + s[1..];
      } else {
        var parts := [[s[0]] + rest[0]] + rest[1..];
        assert SplitSpace(s) == parts;
        if |rest| == 1 {
          assert s == [s[0]] + rest[0];
        } else {
          assert parts[1..] == rest[1..];
          assert JoinSpace(rest) == rest[0] + " " + JoinSpace(rest[1..]);
          assert s == [s[0]] + JoinSpace(rest);
        }
      }
    }
  }

  /** Joining space-free pieces and splitting again gives the pieces back. */
  lemma {:induction false} JoinSplit(parts: seq<string>)
    requires |parts| >= 1
    requires forall k :: 0 <= k < |parts| ==> NoSpace(parts[k])
    ensures SplitSpace(JoinSpace(parts)) == parts
    decreases |parts|, |parts[0]|
  {
    if |parts[0]| > 0 {
      var w := parts[0];
      var tail := [w[1..]] + parts[1..];
      JoinSplit(tail);
      assert JoinSpace(parts) == [w[0]] + JoinSpace(tail) by {
        if |parts| > 1 {
          assert tail[1..] == parts[1..];
          assert w == [w[0]] + w[1..];
        } else {
          assert w == [w[0]] + w[1..];
        }
      }
      assert w[0] != ' ';
      assert (tail[0] == w[1..]) && tail[1..] == parts[1..];
      assert [w[0]] + w[1..] == w;
    } else if |parts| == 1 {
    } else {
      JoinSplit(parts[1..]);
      assert JoinSpace(parts) == " " + JoinSpace(parts[1..]);
      assert (" " + JoinSpace(parts[1..]))[1..] == JoinSpace(parts[1..]);
    }
  }

  // ---------------------------------------------------------------------------
  // String.prototype.toUpperCase, for the ASCII letters
  // ---------------------------------------------------------------------------

  function UpperChar(c: char): (u: char)
    ensures 'a' <= c <= 'z' ==> u as int == c as int - 32
    ensures !('a' <= c <= 'z') ==> u == c
    ensures !('a' <= u <= 'z')  || !('a' <= c <= 'z')
  {
    if 'a' <= c <= 'z' then (c as int - 32) as char else c
  }

  function ToUpper(s: string): (r: string)
    ensures |r| == |s|
    ensures forall i :: 0 <= i < |s| ==> r[i] == UpperChar(s[i])
  {
    seq(|s|, i requires 0 <= i < |s| => UpperChar(s[i]))
  }

  /** `s.slice(0, n)` for a non-negative `n`. */
  function Take(s: string, n: nat): (r: string)
    ensures |r| == if n <= |s| then n else |s|
    ensures IsPrefix(r, s)
  {
    if n <= |s| then s[..n] else s
  }
}
