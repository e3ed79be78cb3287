/** The functions of Go's `strings` package that the modelled code uses, with one-character separators. */
module GoStrings {
  /** Whether Go's unicode.IsSpace holds: the White_Space characters. */
  predicate IsSpace(c: char) {
    || c in "\t\n\r \U{0b}\U{0c}\U{85}\U{a0}\U{1680}\U{2028}\U{2029}\U{202f}\U{205f}\U{3000}"
    || '\U{2000}' <= c <= '\U{200a}'
  }

  /** By code point: tab to carriage return, the space, next line, and the spaces and separators of Unicode. */
  lemma SpaceCodes(c: char)
    ensures IsSpace(c) <==>
      || 0x09 <= c as int <= 0x0d || c as int == 0x20 || c as int == 0x85 || c as int == 0xa0 || c as int == 0x1680
      || 0x2000 <= c as int <= 0x200a || c as int == 0x2028 || c as int == 0x2029 || c as int == 0x202f
      || c as int == 0x205f || c as int == 0x3000
  {
  }

  function TrimLeft(s: string, cut: char -> bool): (r: string)
    ensures |r| <= |s| && r == s[|s| - |r|..]
    ensures r != [] ==> !cut(r[0])
    ensures s != [] && !cut(s[0]) ==> r == s
    ensures forall i :: 0 <= i < |s| - |r| ==> cut(s[i])
  {
    if s != [] && cut(s[0]) then
      var rest := TrimLeft(s[1..], cut);
      assert s[1..][|s| - 1 - |rest|..] == s[|s| - |rest|..];
      rest
    else s
  }

  function TrimRight(s: string, cut: char -> bool): (r: string)
    ensures |r| <= |s| && r == s[..|r|]
    ensures r != [] ==> !cut(r[|r| - 1])
    ensures s != [] && !cut(s[|s| - 1]) ==> r == s
    ensures forall i :: |r| <= i < |s| ==> cut(s[i])
  {
    if s != [] && cut(s[|s| - 1]) then TrimRight(s[..|s| - 1], cut) else s
  }

  function Trim(s: string, cut: char -> bool): (r: string)
    ensures |r| <= |s|
    ensures r != [] ==> !cut(r[0]) && !cut(r[|r| - 1])
    ensures s != [] && !cut(s[0]) && !cut(s[|s| - 1]) ==> r == s
  {
    var r := TrimRight(TrimLeft(s, cut), cut);
    assert r != [] ==> r[0] == TrimLeft(s, cut)[0];
    r
  }

  function TrimSpace(s: string): string {
    Trim(s, c => IsSpace(c))
  }

  /** Trimming twice is trimming once. */
  lemma TrimTwice(s: string, cut: char -> bool)
    ensures Trim(Trim(s, cut), cut) == Trim(s, cut)
  {
  }

  lemma TrimSpaceEnds(s: string)
    ensures var r := TrimSpace(s); r != "" ==> !IsSpace(r[0]) && !IsSpace(r[|r| - 1])
  {
    hide IsSpace, TrimLeft, TrimRight;
    var cut := c => IsSpace(c);
    var r := Trim(s, cut);
    assert r != "" ==> !cut(r[0]) && !cut(r[|r| - 1]);
  }

  lemma SlashIsNoSpace()
    ensures !IsSpace('/')
  {
  }

  lemma NewlineIsSpace()
    ensures IsSpace('\n')
  {
  }

  lemma TrimSpaceKeeps(s: string)
    requires s != "" && !IsSpace(s[0]) && !IsSpace(s[|s| - 1])
    ensures TrimSpace(s) == s
  {
  }

  lemma TrimSpaceTwice(s: string)
    ensures TrimSpace(TrimSpace(s)) == TrimSpace(s)
  {
  }

  function Join(parts: seq<string>, sep: char): string {
    if parts == [] then ""
    else if |parts| == 1 then parts[0]
    else parts[0] + [sep] + Join(parts[1..], sep)
  }

  function Split(s: string, sep: char): (r: seq<string>)
    ensures r != []
    ensures forall i :: 0 <= i < |r| ==> sep !in r[i]
  {
    if s == "" then [""]
    else
      var rest := Split(s[1..], sep);
      if s[0] == sep then [""] + rest else [[s[0]] + rest[0]] + rest[1..]
  }

  lemma {:induction false} SplitNone(s: string, sep: char)
    requires sep !in s
    ensures Split(s, sep) == [s]
  {
    if s != "" {
      SplitNone(s[1..], sep);
      assert [s[0]] + s[1..] == s;
    }
  }

  lemma {:induction false} SplitAt(a: string, b: string, sep: char)
    requires sep !in a
    ensures Split(a + [sep] + b, sep) == [a] + Split(b, sep)
  {
    var s := a + [sep] + b;
    if a == "" {
      assert s[1..] == b;
    } else {
      SplitAt(a[1..], b, sep);
      assert s[1..] == a[1..] + [sep] + b;
      assert [a[0]] + a[1..] == a;
    }
  }

  lemma SplitCons(s: string, sep: char)
    requires s != ""
    ensures Split(s, sep) == InFront(s[0], sep, Split(s[1..], sep))
  {
  }

  /** One more character in front of some pieces. */
  function InFront(c: char, sep: char, pieces: seq<string>): seq<string>
    requires pieces != []
  {
    if c == sep then [""] + pieces else [[c] + pieces[0]] + pieces[1..]
  }

  lemma InFrontOfBoth(c: char, sep: char, a: seq<string>, b: seq<string>)
    requires a != []
    ensures InFront(c, sep, a + b) == InFront(c, sep, a) + b
  {
    assert (a + b)[1..] == a[1..] + b && (a + b)[0] == a[0];
  }

  /** Splitting two texts with a separator between them. */
  lemma {:induction false} SplitConcat(a: string, b: string, sep: char)
    ensures Split(a + [sep] + b, sep) == Split(a, sep) + Split(b, sep)
  {
    hide Split, InFront;
    var s := a + [sep] + b;
    SplitCons(s, sep);
    if a == "" {
      assert s[1..] == b;
      SplitNone(a, sep);
      SeparatorInFront(sep, Split(b, sep));
    } else {
      SplitConcat(a[1..], b, sep);
      assert s[1..] == a[1..] + [sep] + b;
      SplitCons(a, sep);
      InFrontOfBoth(a[0], sep, Split(a[1..], sep), Split(b, sep));
    }
  }

  lemma SeparatorInFront(sep: char, pieces: seq<string>)
    requires pieces != []
    ensures InFront(sep, sep, pieces) == [""] + pieces
  {
  }

  /** The pieces of a joined text are the pieces of its parts. */
  lemma {:induction false} JoinedPiece(parts: seq<string>, piece: string, sep: char)
    requires parts != []
    ensures piece in Split(Join(parts, sep), sep) <==> exists i :: 0 <= i < |parts| && piece in Split(parts[i], sep)
  {
    if |parts| > 1 {
      var rest := parts[1..];
      JoinedPiece(rest, piece, sep);
      SplitConcat(parts[0], Join(rest, sep), sep);
      hide Split;
      assert forall i :: 0 <= i < |rest| ==> rest[i] == parts[i + 1];
      assert forall i :: 0 < i < |parts| ==> parts[i] == rest[i - 1];
    }
  }

  predicate Unbroken(parts: seq<string>, sep: char) {
    forall i :: 0 <= i < |parts| ==> sep !in parts[i]
  }

  lemma {:induction false} SplitJoin(parts: seq<string>, sep: char)
    requires parts != [] && Unbroken(parts, sep)
    ensures Split(Join(parts, sep), sep) == parts
  {
    if |parts| == 1 {
      SplitNone(parts[0], sep);
    } else {
      SplitJoin(parts[1..], sep);
      SplitAt(parts[0], Join(parts[1..], sep), sep);
      assert [parts[0]] + parts[1..] == parts;
    }
  }

  /** Parts without a separator split off the front of a joined text. */
  lemma {:induction false} SplitJoinFront(front: seq<string>, back: seq<string>, sep: char)
    requires Unbroken(front, sep) && back != []
    ensures Split(Join(front + back, sep), sep) == front + Split(Join(back, sep), sep)
  {
    hide Split;
    if front == [] {
      assert front + back == back;
    } else {
      SplitJoinFront(front[1..], back, sep);
      assert (front + back)[1..] == front[1..] + back;
      SplitAt(front[0], Join(front[1..] + back, sep), sep);
    }
  }

  lemma {:induction false} JoinSplit(s: string, sep: char)
    ensures Join(Split(s, sep), sep) == s
  {
    if s != "" {
      JoinSplit(s[1..], sep);
      var rest := Split(s[1..], sep);
      assert ([""] + rest)[1..] == rest;
      assert ([[s[0]] + rest[0]] + rest[1..])[1..] == rest[1..];
      assert [s[0]] + s[1..] == s;
    }
  }

  /** The first and last character of a joined text come from its first and last part. */
  lemma {:induction false} JoinEnds(parts: seq<string>, sep: char)
    requires parts != [] && parts[0] != "" && parts[|parts| - 1] != ""
    ensures var s := Join(parts, sep); var last := parts[|parts| - 1];
      s != "" && s[0] == parts[0][0] && s[|s| - 1] == last[|last| - 1]
  {
    if |parts| > 1 {
      JoinLast(parts, sep);
    }
  }

  lemma {:induction false} JoinLast(parts: seq<string>, sep: char)
    requires parts != [] && parts[|parts| - 1] != ""
    ensures var s := Join(parts, sep); var last := parts[|parts| - 1]; s != "" && s[|s| - 1] == last[|last| - 1]
  {
    if |parts| > 1 { JoinLast(parts[1..], sep); }
  }

  /** The length of a joined text does not depend on the separator. */
  lemma {:induction false} JoinLength(parts: seq<string>, a: char, b: char)
    ensures |Join(parts, a)| == |Join(parts, b)|
  {
    if |parts| > 1 { JoinLength(parts[1..], a, b); }
  }
}
