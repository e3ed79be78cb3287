/**
 The one-pass scanner of middleware/distributor.go that counts the top-level members of a JSON
 request body carrying a given name, against the grammar of RFC 8259 (sections 2, 4, 5 and 7).
 */
module JsonKeyScanner {
  import opened Options

  type byte = b: int | 0 <= b < 256
  type Bytes = seq<byte>

  const QUOTE: byte := 0x22
  const BACKSLASH: byte := 0x5c
  const OPEN: byte := 0x7b
  const CLOSE: byte := 0x7d
  const BEGIN_ARRAY: byte := 0x5b
  const END_ARRAY: byte := 0x5d
  const COMMA: byte := 0x2c
  const COLON: byte := 0x3a

  predicate IsWs(b: byte) {
    b == 0x20 || b == 0x09 || b == 0x0d || b == 0x0a
  }

  // ---------- the scanner ----------

  /** The variables of the loop. */
  datatype Scan = Scan(depth: int, inString: bool, escaped: bool, start: nat, expecting: bool, count: nat)

  /** The first position from `i` on that does not hold white space. */
  function SkipWs(data: Bytes, i: nat): nat
    decreases |data| - i
  {
    if i < |data| && IsWs(data[i]) then SkipWs(data, i + 1) else i
  }

  /** Whether the next byte that is not white space is a colon. */
  predicate ColonFollows(data: Bytes, i: nat) {
    SkipWs(data, i) < |data| && data[SkipWs(data, i)] == COLON
  }

  /** JSON string decoding is a library's: any partial function of what stands between the quotes. */
  type Decoder = Bytes -> Option<Bytes>

  /** The name a string token spells: decoded, or its raw content if the library rejects it. */
  function NameOf(content: Bytes, decode: Decoder): Bytes {
    if decode(content).Some? then decode(content).value else content
  }

  /** What a call is given. */
  datatype Input = Input(data: Bytes, target: Bytes, decode: Decoder)

  function ScanByte(x: Input, i: nat, s: Scan): Scan
    requires i < |x.data| && (s.inString ==> s.start <= i)
  {
    var b := x.data[i];
    if s.inString then
      if s.escaped then s.(escaped := false)
      else if b == BACKSLASH then s.(escaped := true)
      else if b != QUOTE then s
      else if s.depth == 1 && s.expecting then
        var hit := ColonFollows(x.data, i + 1) && NameOf(x.data[s.start..i], x.decode) == x.target;
        s.(inString := false, expecting := false, count := if hit then s.count + 1 else s.count)
      else s.(inString := false)
    else if b == QUOTE then s.(inString := true, start := i + 1)
    else if b == OPEN then s.(depth := s.depth + 1, expecting := s.depth + 1 == 1 || s.expecting)
    else if b == CLOSE then s.(depth := s.depth - 1)
    else if b == COMMA then s.(expecting := s.depth == 1 || s.expecting)
    else s
  }

  /** The loop from position `i` up to `j`. */
  function ScanTo(x: Input, i: nat, j: nat, s: Scan): Scan
    requires i <= j <= |x.data| && (s.inString ==> s.start <= i)
    decreases j - i
  {
    if i == j then s else ScanTo(x, i + 1, j, ScanByte(x, i, s))
  }

  const INITIAL := Scan(0, false, false, 0, false, 0)

  method CountTopLevelJsonKey(data: Bytes, target: Bytes, decode: Decoder) returns (count: nat)
    ensures count == ScanTo(Input(data, target, decode), 0, |data|, INITIAL).count
  {
    ghost var x := Input(data, target, decode);
    var depth, inString, escaped, start, expecting := 0, false, false, 0, false;
    count := 0;
    for index := 0 to |data|
      invariant inString ==> start <= index
      invariant ScanTo(x, 0, |data|, INITIAL) == ScanTo(x, index, |data|, Scan(depth, inString, escaped, start, expecting, count))
    {
      var current := data[index];
      if inString {
        if escaped {
          escaped := false;
          continue;
        }
        if current == BACKSLASH {
          escaped := true;
          continue;
        }
        if current != QUOTE {
          continue;
        }
        inString := false;
        if depth == 1 && expecting {
          var key := NameOf(data[start..index], decode);
          var cursor := index + 1;
          while cursor < |data| && IsWs(data[cursor])
            invariant index < cursor <= |data| && SkipWs(data, index + 1) == SkipWs(data, cursor)
          {
            cursor := cursor + 1;
          }
          if cursor < |data| && data[cursor] == COLON && key == target {
            count := count + 1;
          }
          expecting := false;
        }
        continue;
      }
      if current == QUOTE {
        inString, start := true, index + 1;
      } else if current == OPEN {
        depth := depth + 1;
        if depth == 1 {
          expecting := true;
        }
      } else if current == CLOSE {
        depth := depth - 1;
      } else if current == COMMA {
        if depth == 1 {
          expecting := true;
        }
      }
    }
  }

  // ---------- the grammar ----------

  /** A value; numbers and literal names are scalars, which is all the scanner can tell of them. */
  datatype Value =
    | Scalar(text: Bytes)
    | Str(content: Bytes)
    | Arr(pad: Bytes, elements: Elements)
    | Obj(pad: Bytes, members: Members)
  datatype Elements = NoElements | Element(before: Bytes, value: Value, after: Bytes, rest: Elements)
  datatype Members = NoMembers | Member(name: Name, value: Value, after: Bytes, rest: Members)
  /** A member's name and colon, with the white space before the name and on either side of the colon. */
  datatype Name = Name(before: Bytes, content: Bytes, middle: Bytes, gap: Bytes)

  predicate IsHex(b: byte) {
    0x30 <= b <= 0x39 || 0x41 <= b <= 0x46 || 0x61 <= b <= 0x66
  }

  predicate IsEscape(b: byte) {
    b in [QUOTE, BACKSLASH, 0x2f, 0x62, 0x66, 0x6e, 0x72, 0x74]
  }

  /** What may stand between the quotes of a string: unescaped bytes, two-character escapes and \u escapes. */
  predicate StringContent(bs: Bytes) {
    bs == [] || (HeadLength(bs) <= |bs| && HeadOk(bs) && StringContent(bs[HeadLength(bs)..]))
  }

  /** The length of the first character, by its first two bytes. */
  function HeadLength(bs: Bytes): nat {
    if bs == [] || bs[0] != BACKSLASH then 1 else if |bs| >= 2 && bs[1] == 0x75 then 6 else 2
  }

  predicate HeadOk(bs: Bytes)
    requires bs != [] && HeadLength(bs) <= |bs|
  {
    match HeadLength(bs)
    case 1 => bs[0] >= 0x20 && bs[0] != QUOTE
    case 2 => IsEscape(bs[1])
    case _ => IsHex(bs[2]) && IsHex(bs[3]) && IsHex(bs[4]) && IsHex(bs[5])
  }

  predicate Ws(bs: Bytes) {
    forall i :: 0 <= i < |bs| ==> bs[i] in [0x20, 0x09, 0x0a, 0x0d]
  }

  /** Letters, digits and the signs and point of a number: every literal name and every number is made of these. */
  predicate ScalarByte(b: byte) {
    0x30 <= b <= 0x39 || 0x41 <= b <= 0x5a || 0x61 <= b <= 0x7a || b == 0x2b || b == 0x2d || b == 0x2e
  }

  predicate ValidValue(v: Value) {
    match v
    case Scalar(text) => text != [] && forall i :: 0 <= i < |text| ==> ScalarByte(text[i])
    case Str(content) => StringContent(content)
    case Arr(pad, elements) => Ws(pad) && ValidElements(elements)
    case Obj(pad, members) => Ws(pad) && ValidMembers(members)
  }

  predicate ValidElements(es: Elements) {
    match es
    case NoElements => true
    case Element(before, value, after, rest) => Ws(before) && ValidValue(value) && Ws(after) && ValidElements(rest)
  }

  predicate ValidMembers(ms: Members) {
    match ms
    case NoMembers => true
    case Member(name, value, after, rest) => ValidName(name) && ValidValue(value) && Ws(after) && ValidMembers(rest)
  }

  predicate ValidName(n: Name) {
    Ws(n.before) && StringContent(n.content) && Ws(n.middle) && Ws(n.gap)
  }

  function Token(content: Bytes): Bytes {
    [QUOTE] + content + [QUOTE]
  }

  function Text(v: Value): Bytes {
    match v
    case Scalar(text) => text
    case Str(content) => Token(content)
    case Arr(pad, elements) => [BEGIN_ARRAY] + pad + ElementsText(elements) + [END_ARRAY]
    case Obj(pad, members) => [OPEN] + pad + MembersText(members) + [CLOSE]
  }

  function ElementsText(es: Elements): Bytes {
    match es
    case NoElements => []
    case Element(before, value, after, rest) =>
      before + Text(value) + after + (if rest.NoElements? then [] else [COMMA] + ElementsText(rest))
  }

  function MembersText(ms: Members): Bytes {
    match ms
    case NoMembers => []
    case Member(name, value, after, rest) =>
      NameText(name) + Text(value) + after + (if rest.NoMembers? then [] else [COMMA] + MembersText(rest))
  }

  function NameText(n: Name): Bytes {
    n.before + Token(n.content) + n.middle + [COLON] + n.gap
  }

  // ---------- what the scanner should count ----------

  /** The members whose decoded name is the target. */
  function Matching(ms: Members, target: Bytes, decode: Decoder): nat {
    match ms
    case NoMembers => 0
    case Member(name, _, _, rest) => Hit(name.content, target, decode) + Matching(rest, target, decode)
  }

  function Hit(name: Bytes, target: Bytes, decode: Decoder): nat {
    match decode(name)
    case Some(decoded) => if decoded == target then 1 else 0
    case None => if name == target then 1 else 0
  }

  /** The same over every outermost object of a value: of an object itself, or of those an array holds. */
  function Outermost(v: Value, target: Bytes, decode: Decoder): nat {
    match v
    case Obj(_, members) => Matching(members, target, decode)
    case Arr(_, elements) => OutermostIn(elements, target, decode)
    case _ => 0
  }

  function OutermostIn(es: Elements, target: Bytes, decode: Decoder): nat {
    match es
    case NoElements => 0
    case Element(_, value, _, rest) => Outermost(value, target, decode) + OutermostIn(rest, target, decode)
  }

  // ---------- where a text stands ----------

  /** `data` reads `text` at `i`. */
  predicate Reads(data: Bytes, i: nat, text: Bytes) {
    i + |text| <= |data| && forall k :: 0 <= k < |text| ==> data[i + k] == text[k]
  }

  predicate ReadsByte(data: Bytes, i: nat, b: byte) {
    i < |data| && data[i] == b
  }

  predicate ReadsToken(data: Bytes, i: nat, content: Bytes) {
    ReadsByte(data, i, QUOTE) && Reads(data, i + 1, content) && ReadsByte(data, i + 1 + |content|, QUOTE)
  }

  function Length(v: Value): nat {
    match v
    case Scalar(text) => |text|
    case Str(content) => 2 + |content|
    case Arr(pad, elements) => 2 + |pad| + ElementsLength(elements)
    case Obj(pad, members) => 2 + |pad| + MembersLength(members)
  }

  function ElementsLength(es: Elements): nat {
    match es
    case NoElements => 0
    case Element(before, value, after, rest) => |before| + Length(value) + |after| + if rest.NoElements? then 0 else 1 + ElementsLength(rest)
  }

  function ToColon(n: Name): nat {
    |n.before| + 2 + |n.content| + |n.middle|
  }

  function NameLength(n: Name): nat {
    ToColon(n) + 1 + |n.gap|
  }

  function MembersLength(ms: Members): nat {
    match ms
    case NoMembers => 0
    case Member(name, value, after, rest) => NameLength(name) + Length(value) + |after| + if rest.NoMembers? then 0 else 1 + MembersLength(rest)
  }

  /** The grammar by positions: `data` reads the value at `i`. */
  predicate ReadsValue(data: Bytes, i: nat, v: Value)
    decreases v
  {
    match v
    case Scalar(text) => Reads(data, i, text)
    case Str(content) => ReadsToken(data, i, content)
    case Arr(pad, elements) =>
      ReadsByte(data, i, BEGIN_ARRAY) && Reads(data, i + 1, pad) && ReadsElements(data, i + 1 + |pad|, elements)
      && ReadsByte(data, i + 1 + |pad| + ElementsLength(elements), END_ARRAY)
    case Obj(pad, members) =>
      ReadsByte(data, i, OPEN) && Reads(data, i + 1, pad) && ReadsMembers(data, i + 1 + |pad|, members)
      && ReadsByte(data, i + 1 + |pad| + MembersLength(members), CLOSE)
  }

  predicate ReadsElements(data: Bytes, i: nat, es: Elements)
    decreases es
  {
    match es
    case NoElements => i <= |data|
    case Element(before, value, after, rest) =>
      var j := i + |before|;
      var k := j + Length(value);
      Reads(data, i, before) && ReadsValue(data, j, value) && Reads(data, k, after)
      && (rest.Element? ==> ReadsByte(data, k + |after|, COMMA) && ReadsElements(data, k + |after| + 1, rest))
  }

  predicate ReadsName(data: Bytes, i: nat, n: Name) {
    && Reads(data, i, n.before) && ReadsToken(data, i + |n.before|, n.content)
    && Reads(data, i + |n.before| + 2 + |n.content|, n.middle)
    && ReadsByte(data, i + ToColon(n), COLON) && Reads(data, i + ToColon(n) + 1, n.gap)
  }

  predicate ReadsMembers(data: Bytes, i: nat, ms: Members)
    decreases ms
  {
    match ms
    case NoMembers => i <= |data|
    case Member(name, value, after, rest) =>
      var j := i + NameLength(name);
      var k := j + Length(value);
      ReadsName(data, i, name) && ReadsValue(data, j, value) && Reads(data, k, after)
      && (rest.Member? ==> ReadsByte(data, k + |after|, COMMA) && ReadsMembers(data, k + |after| + 1, rest))
  }

  lemma ReadsSplit(data: Bytes, i: nat, a: Bytes, b: Bytes)
    requires Reads(data, i, a + b)
    ensures Reads(data, i, a) && Reads(data, i + |a|, b)
  {
    forall k {:trigger a[k]} | 0 <= k < |a| ensures data[i + k] == a[k] {
      assert (a + b)[k] == a[k];
    }
    forall k {:trigger b[k]} | 0 <= k < |b| ensures data[i + |a| + k] == b[k] {
      assert (a + b)[|a| + k] == b[k];
    }
  }

  lemma ReadsOne(data: Bytes, i: nat, b: byte, rest: Bytes)
    requires Reads(data, i, [b] + rest)
    ensures ReadsByte(data, i, b) && Reads(data, i + 1, rest)
  {
    ReadsSplit(data, i, [b], rest);
    assert data[i + 0] == [b][0];
  }

  lemma ReadsTokenText(data: Bytes, i: nat, content: Bytes)
    requires Reads(data, i, Token(content))
    ensures ReadsToken(data, i, content)
  {
    ReadsSplit(data, i, [QUOTE] + content, [QUOTE]);
    ReadsOne(data, i, QUOTE, content);
    assert data[i + 1 + |content| + 0] == [QUOTE][0];
  }

  lemma {:induction false} ReadsValueText(data: Bytes, i: nat, v: Value)
    requires Reads(data, i, Text(v))
    ensures ReadsValue(data, i, v) && Length(v) == |Text(v)|
    decreases v
  {
    match v
    case Scalar(_) =>
    case Str(content) => ReadsTokenText(data, i, content);
    case Arr(pad, elements) =>
      ReadsBracketed(data, i, BEGIN_ARRAY, pad, ElementsText(elements), END_ARRAY);
      ReadsElementsText(data, i + 1 + |pad|, elements);
    case Obj(pad, members) =>
      ReadsBracketed(data, i, OPEN, pad, MembersText(members), CLOSE);
      ReadsMembersText(data, i + 1 + |pad|, members);
  }

  lemma ReadsBracketed(data: Bytes, i: nat, open: byte, pad: Bytes, body: Bytes, close: byte)
    requires Reads(data, i, [open] + pad + body + [close])
    ensures ReadsByte(data, i, open) && Reads(data, i + 1, pad) && Reads(data, i + 1 + |pad|, body) && ReadsByte(data, i + 1 + |pad| + |body|, close)
  {
    ReadsSplit(data, i, [open] + pad + body, [close]);
    ReadsSplit(data, i, [open] + pad, body);
    ReadsOne(data, i, open, pad);
    assert data[i + 1 + |pad| + |body| + 0] == [close][0];
  }

  lemma ReadsElementParts(data: Bytes, i: nat, es: Elements)
    requires es.Element? && Reads(data, i, ElementsText(es))
    ensures var j := i + |es.before| + |Text(es.value)|;
      && Reads(data, i, es.before) && Reads(data, i + |es.before|, Text(es.value)) && Reads(data, j, es.after)
      && (es.rest.Element? ==> ReadsByte(data, j + |es.after|, COMMA) && Reads(data, j + |es.after| + 1, ElementsText(es.rest)))
  {
    hide Reads, Text;
    var more := if es.rest.NoElements? then [] else [COMMA] + ElementsText(es.rest);
    ReadsPadded(data, i, es.before, Text(es.value), es.after, more);
    if es.rest.Element? {
      ReadsOne(data, i + |es.before| + |Text(es.value)| + |es.after|, COMMA, ElementsText(es.rest));
    }
  }

  lemma ElementsTextLength(es: Elements)
    requires es.Element?
    ensures |ElementsText(es)| == |es.before| + |Text(es.value)| + |es.after| + if es.rest.NoElements? then 0 else 1 + |ElementsText(es.rest)|
  {
  }

  lemma {:induction false} ReadsElementsText(data: Bytes, i: nat, es: Elements)
    requires Reads(data, i, ElementsText(es))
    ensures ReadsElements(data, i, es) && ElementsLength(es) == |ElementsText(es)|
    decreases es
  {
    if es.Element? {
      hide Reads, ReadsValue, Text;
      var j := i + |es.before|;
      var k := j + |Text(es.value)|;
      ReadsElementParts(data, i, es);
      ElementsTextLength(es);
      ReadsValueText(data, j, es.value);
      if es.rest.Element? {
        ReadsElementsText(data, k + |es.after| + 1, es.rest);
      }
    }
  }

  lemma ReadsPadded(data: Bytes, i: nat, a: Bytes, b: Bytes, c: Bytes, d: Bytes)
    requires Reads(data, i, a + b + c + d)
    ensures Reads(data, i, a) && Reads(data, i + |a|, b) && Reads(data, i + |a| + |b|, c) && Reads(data, i + |a| + |b| + |c|, d)
  {
    ReadsSplit(data, i, a + b + c, d);
    ReadsSplit(data, i, a + b, c);
    ReadsSplit(data, i, a, b);
  }

  lemma ReadsNameText(data: Bytes, i: nat, n: Name)
    requires Reads(data, i, NameText(n))
    ensures ReadsName(data, i, n) && NameLength(n) == |NameText(n)|
  {
    ReadsPadded(data, i, n.before + Token(n.content), n.middle, [COLON], n.gap);
    ReadsSplit(data, i, n.before, Token(n.content));
    ReadsTokenText(data, i + |n.before|, n.content);
    assert data[i + ToColon(n) + 0] == [COLON][0];
  }

  lemma ReadsMemberParts(data: Bytes, i: nat, ms: Members)
    requires ms.Member? && Reads(data, i, MembersText(ms))
    ensures var j := i + |NameText(ms.name)| + |Text(ms.value)|;
      && Reads(data, i, NameText(ms.name)) && Reads(data, i + |NameText(ms.name)|, Text(ms.value)) && Reads(data, j, ms.after)
      && (ms.rest.Member? ==> ReadsByte(data, j + |ms.after|, COMMA) && Reads(data, j + |ms.after| + 1, MembersText(ms.rest)))
  {
    hide Reads, NameText, Text;
    var more := if ms.rest.NoMembers? then [] else [COMMA] + MembersText(ms.rest);
    ReadsPadded(data, i, NameText(ms.name), Text(ms.value), ms.after, more);
    if ms.rest.Member? {
      ReadsOne(data, i + |NameText(ms.name)| + |Text(ms.value)| + |ms.after|, COMMA, MembersText(ms.rest));
    }
  }

  lemma MembersTextLength(ms: Members)
    requires ms.Member?
    ensures |MembersText(ms)| == |NameText(ms.name)| + |Text(ms.value)| + |ms.after| + if ms.rest.NoMembers? then 0 else 1 + |MembersText(ms.rest)|
  {
  }

  /** The first member, read by positions, and those after it. */
  lemma ReadsMemberThen(data: Bytes, i: nat, ms: Members)
    requires ms.Member? && ReadsName(data, i, ms.name)
    requires var j := i + NameLength(ms.name); var k := j + Length(ms.value) + |ms.after|;
      && ReadsValue(data, j, ms.value) && Reads(data, j + Length(ms.value), ms.after)
      && (ms.rest.Member? ==> ReadsByte(data, k, COMMA) && ReadsMembers(data, k + 1, ms.rest))
    ensures ReadsMembers(data, i, ms)
    ensures MembersLength(ms) == NameLength(ms.name) + Length(ms.value) + |ms.after| + if ms.rest.NoMembers? then 0 else 1 + MembersLength(ms.rest)
  {
  }

  lemma NoMembersText(data: Bytes, i: nat)
    requires Reads(data, i, MembersText(NoMembers))
    ensures ReadsMembers(data, i, NoMembers) && MembersLength(NoMembers) == |MembersText(NoMembers)|
  {
  }

  lemma {:induction false} ReadsMembersText(data: Bytes, i: nat, ms: Members)
    requires Reads(data, i, MembersText(ms))
    ensures ReadsMembers(data, i, ms) && MembersLength(ms) == |MembersText(ms)|
    decreases ms
  {
    hide Reads, ReadsName, ReadsValue, ReadsByte, ReadsMembers, NameText, Text, MembersText, NameLength, Length, MembersLength;
    if ms.NoMembers? {
      NoMembersText(data, i);
    } else {
      var j := i + |NameText(ms.name)|;
      var k := j + |Text(ms.value)|;
      ReadsMemberParts(data, i, ms);
      MembersTextLength(ms);
      ReadsNameText(data, i, ms.name);
      ReadsValueText(data, j, ms.value);
      if ms.rest.Member? {
        ReadsMembersText(data, k + |ms.after| + 1, ms.rest);
      }
      ReadsMemberThen(data, i, ms);
    }
  }

  // ---------- the scanner over a stretch of text ----------

  /** Scanning from `i` in state `s` reaches `j` in state `m`. */
  predicate Scans(x: Input, i: nat, j: nat, s: Scan, m: Scan) {
    && i <= j <= |x.data| && (s.inString ==> s.start <= i) && (m.inString ==> m.start <= j)
    && ScanTo(x, i, j, s) == m
  }

  lemma {:induction false} ScansThen(x: Input, i: nat, j: nat, k: nat, s: Scan, m: Scan, e: Scan)
    requires Scans(x, i, j, s, m) && Scans(x, j, k, m, e)
    ensures Scans(x, i, k, s, e)
    decreases j - i
  {
    if i < j {
      ScansThen(x, i + 1, j, k, ScanByte(x, i, s), m, e);
    }
  }

  lemma ScansByte(x: Input, i: nat, s: Scan)
    requires i < |x.data| && (s.inString ==> s.start <= i)
    ensures Scans(x, i, i + 1, s, ScanByte(x, i, s))
  {
    var m := ScanByte(x, i, s);
    assert ScanTo(x, i + 1, i + 1, m) == m;
  }

  /** Outside strings, white space, scalars, colons and square brackets change nothing. */
  lemma {:induction false} ScansInert(x: Input, i: nat, text: Bytes, s: Scan)
    requires Reads(x.data, i, text) && !s.inString
    requires forall j :: 0 <= j < |text| ==> IsWs(text[j]) || ScalarByte(text[j])
    ensures Scans(x, i, i + |text|, s, s)
    decreases |text|
  {
    if text != [] {
      assert x.data[i + 0] == text[0];
      assert forall k :: 0 <= k < |text[1..]| ==> x.data[i + (k + 1)] == text[1..][k];
      ScansInert(x, i + 1, text[1..], s);
    }
  }

  /** Inside a string, its content keeps the scanner inside it. */
  lemma {:induction false} ScansContent(x: Input, i: nat, content: Bytes, s: Scan)
    requires StringContent(content) && Reads(x.data, i, content) && s.inString && !s.escaped && s.start <= i
    ensures Scans(x, i, i + |content|, s, s)
    decreases |content|
  {
    if content != [] {
      var n := HeadLength(content);
      ReadsInner(x.data, i, content, 0, n);
      ReadsInner(x.data, i, content, n, |content|);
      ScansHead(x, i, content[..n], s);
      ScansContent(x, i + n, content[n..], s);
      ScansThen(x, i, i + n, i + |content|, s, s, s);
    }
  }

  lemma ScansHead(x: Input, i: nat, head: Bytes, s: Scan)
    requires head != [] && HeadLength(head) == |head| && HeadOk(head) && Reads(x.data, i, head)
    requires s.inString && !s.escaped && s.start <= i
    ensures Scans(x, i, i + |head|, s, s)
  {
    assert x.data[i + 0] == head[0];
    ScansByte(x, i, s);
    if head[0] == BACKSLASH {
      var e := s.(escaped := true);
      assert x.data[i + 1] == head[1];
      ScansByte(x, i + 1, e);
      ScansThen(x, i, i + 1, i + 2, s, e, s);
      ReadsInner(x.data, i, head, 2, |head|);
      ScansHex(x, i + 2, head[2..], s);
      ScansThen(x, i, i + 2, i + |head|, s, s, s);
    }
  }

  lemma ReadsInner(data: Bytes, i: nat, text: Bytes, a: nat, b: nat)
    requires Reads(data, i, text) && a <= b <= |text|
    ensures Reads(data, i + a, text[a..b]) && text[0..b] == text[..b] && text[a..|text|] == text[a..]
  {
    assert forall k :: 0 <= k < b - a ==> text[a..b][k] == text[a + k];
  }

  lemma {:induction false} ScansHex(x: Input, i: nat, hex: Bytes, s: Scan)
    requires Reads(x.data, i, hex) && (forall j :: 0 <= j < |hex| ==> IsHex(hex[j])) && s.inString && !s.escaped && s.start <= i
    ensures Scans(x, i, i + |hex|, s, s)
    decreases |hex|
  {
    if hex != [] {
      assert x.data[i + 0] == hex[0];
      assert forall k :: 0 <= k < |hex[1..]| ==> x.data[i + (k + 1)] == hex[1..][k];
      ScansHex(x, i + 1, hex[1..], s);
    }
  }

  /** What a whole string token does: it counts only as a key of the outermost object. */
  function AfterToken(x: Input, i: nat, content: Bytes, s: Scan): Scan {
    var key := s.depth == 1 && s.expecting;
    var hit := key && ColonFollows(x.data, i + 2 + |content|) && NameOf(content, x.decode) == x.target;
    s.(start := i + 1, expecting := s.expecting && !key, count := if hit then s.count + 1 else s.count)
  }

  lemma ScansOpenQuote(x: Input, i: nat, s: Scan)
    requires ReadsByte(x.data, i, QUOTE) && !s.inString && !s.escaped
    ensures Scans(x, i, i + 1, s, s.(inString := true, start := i + 1))
  {
    ScansByte(x, i, s);
  }

  lemma ScansToken(x: Input, i: nat, content: Bytes, s: Scan)
    requires StringContent(content) && ReadsToken(x.data, i, content) && !s.inString && !s.escaped
    ensures Scans(x, i, i + 2 + |content|, s, AfterToken(x, i, content, s))
  {
    hide Scans, ScanTo, ScanByte, StringContent, AfterToken, Reads;
    var end := i + 1 + |content|;
    var inside := s.(inString := true, start := i + 1);
    ScansOpenQuote(x, i, s);
    ScansContent(x, i + 1, content, inside);
    ScansThen(x, i, i + 1, end, s, inside, inside);
    ScansCloseQuote(x, i, content, s);
    ScansThen(x, i, end, end + 1, s, inside, AfterToken(x, i, content, s));
  }

  lemma ScansCloseQuote(x: Input, i: nat, content: Bytes, s: Scan)
    requires ReadsToken(x.data, i, content) && !s.inString && !s.escaped
    ensures Scans(x, i + 1 + |content|, i + 2 + |content|, s.(inString := true, start := i + 1), AfterToken(x, i, content, s))
  {
    ScansByte(x, i + 1 + |content|, s.(inString := true, start := i + 1));
    ReadsSlice(x.data, i + 1, content);
  }

  lemma ReadsSlice(data: Bytes, i: nat, text: Bytes)
    requires Reads(data, i, text)
    ensures data[i..i + |text|] == text
  {
  }

  lemma {:induction false} SkipsWs(data: Bytes, i: nat, ws: Bytes)
    requires Ws(ws) && Reads(data, i, ws)
    ensures SkipWs(data, i) == SkipWs(data, i + |ws|)
    decreases |ws|
  {
    if ws != [] {
      assert data[i + 0] == ws[0];
      assert forall k :: 0 <= k < |ws[1..]| ==> data[i + (k + 1)] == ws[1..][k];
      SkipsWs(data, i + 1, ws[1..]);
    }
  }

  /** The state after a value that no colon follows: same depth, not in a string, and `hits` more keys. */
  predicate Past(s: Scan, s': Scan, hits: nat) {
    s'.depth == s.depth && !s'.inString && !s'.escaped && s'.count == s.count + hits
  }

  predicate Outside(s: Scan) {
    !s.inString && !s.escaped && s.depth >= 0
  }

  /** The heart of it: a value adds the keys of its outermost objects at depth 0, and nothing at any other depth. */
  lemma {:induction false} ScansValue(x: Input, i: nat, v: Value, s: Scan) returns (m: Scan)
    requires ValidValue(v) && ReadsValue(x.data, i, v) && Outside(s)
    requires !ColonFollows(x.data, i + Length(v))
    ensures Scans(x, i, i + Length(v), s, m) && Past(s, m, if s.depth == 0 then Outermost(v, x.target, x.decode) else 0)
    decreases v, 0
  {
    match v
    case Scalar(text) => ScansInert(x, i, text, s); m := s;
    case Str(content) => ScansToken(x, i, content, s); m := AfterToken(x, i, content, s);
    case Arr(pad, elements) => m := ScansArray(x, i, pad, elements, s);
    case Obj(pad, members) => m := ScansObject(x, i, pad, members, s);
  }

  /** An opening bracket and the white space inside it. */
  lemma ScansOpening(x: Input, i: nat, pad: Bytes, s: Scan) returns (m: Scan)
    requires i < |x.data| && (x.data[i] == BEGIN_ARRAY || x.data[i] == OPEN) && Reads(x.data, i + 1, pad) && Ws(pad) && Outside(s)
    ensures m == ScanByte(x, i, s) && Scans(x, i, i + 1 + |pad|, s, m)
  {
    m := ScanByte(x, i, s);
    ScansByte(x, i, s);
    ScansInert(x, i + 1, pad, m);
    ScansThen(x, i, i + 1, i + 1 + |pad|, s, m, m);
  }

  lemma {:induction false} ScansArray(x: Input, i: nat, pad: Bytes, es: Elements, s: Scan) returns (m: Scan)
    requires var v := Arr(pad, es); ValidValue(v) && ReadsValue(x.data, i, v) && Outside(s)
    ensures Scans(x, i, i + Length(Arr(pad, es)), s, m) && Past(s, m, if s.depth == 0 then OutermostIn(es, x.target, x.decode) else 0)
    decreases es, 1
  {
    var j := i + 1 + |pad|;
    var k := j + ElementsLength(es);
    var inner := ScansOpening(x, i, pad, s);
    m := ScansElements(x, j, es, inner);
    ScansThen(x, i, j, k, s, inner, m);
    ScansByte(x, k, m);
    ScansThen(x, i, k, k + 1, s, m, m);
  }

  lemma {:induction false} ScansObject(x: Input, i: nat, pad: Bytes, ms: Members, s: Scan) returns (m: Scan)
    requires var v := Obj(pad, ms); ValidValue(v) && ReadsValue(x.data, i, v) && Outside(s)
    ensures Scans(x, i, i + Length(Obj(pad, ms)), s, m) && Past(s, m, if s.depth == 0 then Matching(ms, x.target, x.decode) else 0)
    decreases ms, 2
  {
    var j := i + 1 + |pad|;
    var k := j + MembersLength(ms);
    var inner := ScansOpening(x, i, pad, s);
    var e := ScansMembers(x, j, ms, inner);
    ScansThen(x, i, j, k, s, inner, e);
    ScansByte(x, k, e);
    m := ScanByte(x, k, e);
    ScansThen(x, i, k, k + 1, s, e, m);
  }

  /** A value and its trailing white space, with a comma or a closing bracket next. */
  lemma ScansPadded(x: Input, i: nat, v: Value, after: Bytes, s: Scan) returns (m: Scan)
    requires ValidValue(v) && Ws(after) && ReadsValue(x.data, i, v) && Reads(x.data, i + Length(v), after) && Outside(s)
    requires var next := i + Length(v) + |after|; next < |x.data| && x.data[next] in [COMMA, CLOSE, END_ARRAY]
    ensures Scans(x, i, i + Length(v) + |after|, s, m) && Past(s, m, if s.depth == 0 then Outermost(v, x.target, x.decode) else 0)
    decreases v, 1
  {
    var j := i + Length(v);
    SkipsWs(x.data, j, after);
    m := ScansValue(x, i, v, s);
    ScansInert(x, j, after, m);
    ScansThen(x, i, j, j + |after|, s, m, m);
  }

  lemma ScansComma(x: Input, i: nat, s: Scan) returns (m: Scan)
    requires ReadsByte(x.data, i, COMMA) && Outside(s)
    ensures Scans(x, i, i + 1, s, m) && Past(s, m, 0) && (m.depth == 1 ==> m.expecting)
  {
    m := ScanByte(x, i, s);
    ScansByte(x, i, s);
  }

  lemma {:induction false} ScansElements(x: Input, i: nat, es: Elements, s: Scan) returns (m: Scan)
    requires ValidElements(es) && ReadsElements(x.data, i, es) && Outside(s)
    requires ReadsByte(x.data, i + ElementsLength(es), END_ARRAY)
    ensures Scans(x, i, i + ElementsLength(es), s, m) && Past(s, m, if s.depth == 0 then OutermostIn(es, x.target, x.decode) else 0)
    decreases es, 0
  {
    hide Reads, ReadsValue, Length, ScanByte;
    match es
    case NoElements => m := s;
    case Element(before, value, after, rest) =>
      var j := i + |before|;
      var k := j + Length(value) + |after|;
      ScansInert(x, i, before, s);
      m := ScansPadded(x, j, value, after, s);
      ScansThen(x, i, j, k, s, s, m);
      if rest.Element? {
        var n := ScansComma(x, k, m);
        ScansThen(x, i, k, k + 1, s, m, n);
        m := ScansElements(x, k + 1, rest, n);
        ScansThen(x, i, k + 1, i + ElementsLength(es), s, n, m);
      }
  }

  /** A member's name and colon: at depth 1 it is a key, and counts when it is the target. */
  lemma ScansName(x: Input, i: nat, n: Name, s: Scan) returns (m: Scan)
    requires ValidName(n) && ReadsName(x.data, i, n) && Outside(s) && (s.depth == 1 ==> s.expecting)
    ensures Scans(x, i, i + NameLength(n), s, m)
    ensures Past(s, m, if s.depth == 1 then Hit(n.content, x.target, x.decode) else 0)
  {
    var j := i + |n.before|;
    var k := j + 2 + |n.content|;
    var colon := i + ToColon(n);
    ScansInert(x, i, n.before, s);
    SkipsWs(x.data, k, n.middle);
    ScansToken(x, j, n.content, s);
    m := AfterToken(x, j, n.content, s);
    ScansThen(x, i, j, k, s, s, m);
    ScansInert(x, k, n.middle, m);
    ScansThen(x, i, k, colon, s, m, m);
    ScansByte(x, colon, m);
    ScansInert(x, colon + 1, n.gap, m);
    ScansThen(x, colon, colon + 1, i + NameLength(n), m, m, m);
    ScansThen(x, i, colon, i + NameLength(n), s, m, m);
  }

  /** One member, with a comma or the closing brace next. */
  lemma {:induction false} ScansMember(x: Input, i: nat, name: Name, v: Value, after: Bytes, s: Scan) returns (m: Scan)
    requires ValidName(name) && ValidValue(v) && Ws(after) && Outside(s) && s.depth >= 1 && (s.depth == 1 ==> s.expecting)
    requires var j := i + NameLength(name); ReadsName(x.data, i, name) && ReadsValue(x.data, j, v) && Reads(x.data, j + Length(v), after)
    requires var next := i + NameLength(name) + Length(v) + |after|; next < |x.data| && x.data[next] in [COMMA, CLOSE]
    ensures Scans(x, i, i + NameLength(name) + Length(v) + |after|, s, m)
    ensures Past(s, m, if s.depth == 1 then Hit(name.content, x.target, x.decode) else 0)
    decreases v, 2
  {
    var j := i + NameLength(name);
    var e := ScansName(x, i, name, s);
    m := ScansPadded(x, j, v, after, e);
    ScansThen(x, i, j, j + Length(v) + |after|, s, e, m);
  }

  function FirstLength(ms: Members): nat
    requires ms.Member?
  {
    NameLength(ms.name) + Length(ms.value) + |ms.after|
  }

  function MoreLength(ms: Members): nat {
    if ms.NoMembers? then 0 else 1 + MembersLength(ms)
  }

  /** What follows a member: the closing brace, or a comma, more members and the closing brace. */
  predicate ReadsMore(data: Bytes, i: nat, ms: Members) {
    && i <= |data|
    && (ms.Member? ==> ReadsByte(data, i, COMMA) && ReadsMembers(data, i + 1, ms))
    && ReadsByte(data, i + MoreLength(ms), CLOSE)
  }

  lemma {:induction false} ScansFirstMember(x: Input, i: nat, ms: Members, s: Scan) returns (m: Scan)
    requires ms.Member? && ValidMembers(ms) && ReadsMembers(x.data, i, ms) && Outside(s) && s.depth >= 1 && (s.depth == 1 ==> s.expecting)
    requires ReadsByte(x.data, i + MembersLength(ms), CLOSE)
    ensures Scans(x, i, i + FirstLength(ms), s, m) && ReadsMore(x.data, i + FirstLength(ms), ms.rest)
    ensures Past(s, m, if s.depth == 1 then Hit(ms.name.content, x.target, x.decode) else 0)
    decreases ms, 0
  {
    hide Reads, ReadsName, ReadsValue;
    m := ScansMember(x, i, ms.name, ms.value, ms.after, s);
  }

  /** Members: only those of an outermost object are counted. */
  lemma {:induction false} ScansMembers(x: Input, i: nat, ms: Members, s: Scan) returns (m: Scan)
    requires ValidMembers(ms) && ReadsMembers(x.data, i, ms) && Outside(s) && s.depth >= 1 && (s.depth == 1 ==> s.expecting)
    requires ReadsByte(x.data, i + MembersLength(ms), CLOSE)
    ensures Scans(x, i, i + MembersLength(ms), s, m) && Past(s, m, if s.depth == 1 then Matching(ms, x.target, x.decode) else 0)
    decreases ms, 1
  {
    hide Reads, ReadsName, ReadsValue;
    m := s;
    if ms.Member? {
      var k := i + FirstLength(ms);
      var e := ScansFirstMember(x, i, ms, s);
      m := ScansMoreMembers(x, k, ms.rest, e);
      ScansThen(x, i, k, k + MoreLength(ms.rest), s, e, m);
    }
  }

  lemma {:induction false} ScansMoreMembers(x: Input, i: nat, ms: Members, s: Scan) returns (m: Scan)
    requires ValidMembers(ms) && ReadsMore(x.data, i, ms) && Outside(s) && s.depth >= 1
    ensures Scans(x, i, i + MoreLength(ms), s, m) && Past(s, m, if s.depth == 1 then Matching(ms, x.target, x.decode) else 0)
    decreases ms, 2
  {
    m := s;
    if ms.Member? {
      var n := ScansComma(x, i, s);
      m := ScansMembers(x, i + 1, ms, n);
      ScansThen(x, i, i + 1, i + MoreLength(ms), s, n, m);
    }
  }

  // ---------- the results ----------

  /** A JSON text: white space, a value, white space. */
  predicate JsonText(data: Bytes, before: Bytes, v: Value, after: Bytes) {
    Ws(before) && ValidValue(v) && Ws(after) && data == before + Text(v) + after
  }

  /** The value the method above returns. */
  function Counted(data: Bytes, target: Bytes, decode: Decoder): nat {
    ScanTo(Input(data, target, decode), 0, |data|, INITIAL).count
  }

  /** On every JSON text the scanner counts the matching members of the outermost objects. */
  lemma CountsOutermostObjects(data: Bytes, before: Bytes, v: Value, after: Bytes, target: Bytes, decode: Decoder)
    requires JsonText(data, before, v, after)
    ensures Counted(data, target, decode) == Outermost(v, target, decode)
  {
    ReadsSplit(data, 0, before + Text(v), after);
    ReadsSplit(data, 0, before, Text(v));
    ReadsValueText(data, |before|, v);
    ScansText(Input(data, target, decode), before, v, after);
  }

  lemma ScansText(x: Input, before: Bytes, v: Value, after: Bytes)
    requires Ws(before) && ValidValue(v) && Ws(after)
    requires var i, j := |before|, |before| + Length(v);
      |x.data| == j + |after| && Reads(x.data, 0, before) && ReadsValue(x.data, i, v) && Reads(x.data, j, after)
    ensures ScanTo(x, 0, |x.data|, INITIAL).count == Outermost(v, x.target, x.decode)
  {
    var i, j := |before|, |before| + Length(v);
    SkipsWs(x.data, j, after);
    ScansInert(x, 0, before, INITIAL);
    var m := ScansValue(x, i, v, INITIAL);
    ScansThen(x, 0, i, j, INITIAL, INITIAL, m);
    ScansInert(x, j, after, m);
    ScansThen(x, 0, j, |x.data|, INITIAL, m, m);
  }

  /** On every JSON object, whatever its white space, nesting, arrays or escapes: exactly its own members of that name. */
  lemma CountsTopLevelMembers(data: Bytes, before: Bytes, pad: Bytes, members: Members, after: Bytes, target: Bytes, decode: Decoder)
    requires JsonText(data, before, Obj(pad, members), after)
    ensures Counted(data, target, decode) == Matching(members, target, decode)
  {
    CountsOutermostObjects(data, before, Obj(pad, members), after, target, decode);
  }

  /** A JSON text has top-level members only if it is an object. */
  function TopLevel(v: Value, target: Bytes, decode: Decoder): nat {
    if v.Obj? then Matching(v.members, target, decode) else 0
  }

  /** Whether an array holds, outside any other object, an object with a matching member. */
  predicate HoldsMatchingObject(v: Value, target: Bytes, decode: Decoder) {
    match v
    case Obj(_, members) => Matching(members, target, decode) > 0
    case Arr(_, elements) => SomeHoldsMatchingObject(elements, target, decode)
    case _ => false
  }

  predicate SomeHoldsMatchingObject(es: Elements, target: Bytes, decode: Decoder) {
    es.Element? && (HoldsMatchingObject(es.value, target, decode) || SomeHoldsMatchingObject(es.rest, target, decode))
  }

  /** The count is the number of top-level members exactly when the text is not an array holding a matching object. */
  lemma CountIsTopLevelUnlessArrayHoldsMatch(data: Bytes, before: Bytes, v: Value, after: Bytes, target: Bytes, decode: Decoder)
    requires JsonText(data, before, v, after)
    ensures Counted(data, target, decode) == TopLevel(v, target, decode) <==> !(v.Arr? && HoldsMatchingObject(v, target, decode))
  {
    CountsOutermostObjects(data, before, v, after, target, decode);
    OutermostPositive(v, target, decode);
  }

  lemma {:induction false} OutermostPositive(v: Value, target: Bytes, decode: Decoder)
    ensures Outermost(v, target, decode) > 0 <==> HoldsMatchingObject(v, target, decode)
    decreases v
  {
    if v.Arr? { OutermostInPositive(v.elements, target, decode); }
  }

  lemma {:induction false} OutermostInPositive(es: Elements, target: Bytes, decode: Decoder)
    ensures OutermostIn(es, target, decode) > 0 <==> SomeHoldsMatchingObject(es, target, decode)
    decreases es
  {
    if es.Element? {
      OutermostPositive(es.value, target, decode);
      OutermostInPositive(es.rest, target, decode);
    }
  }
}
