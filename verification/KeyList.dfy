/**
 How a multi-key channel stores its keys: one text, read back as a list (GetKeys in
 model/channel.go), and status maps indexed by position in that list.
 */
module KeyList {
  import opened Options
  import opened GoStrings

  const ENABLED := 1
  const MANUALLY_DISABLED := 2
  const AUTO_DISABLED := 3

  /** Parsing a JSON array into the raw texts of its elements is a library's. */
  type Parser = string -> Option<seq<string>>

  /** All that is used of the parser: the elements, their separating commas and two brackets fit in the text. */
  ghost predicate ArrayParser(parse: Parser) {
    forall text :: parse(text).Some? ==> |Join(parse(text).value, ',')| + 2 <= |text|
  }

  function ArrayOf(key: string, parse: Parser): Option<seq<string>> {
    var text := TrimSpace(key);
    if text != "" && text[0] == '[' then parse(text) else None
  }

  function Lines(key: string): seq<string> {
    Split(Trim(key, c => c == '\n'), '\n')
  }

  /** The key list of a stored text. */
  function KeysOf(key: string, parse: Parser): seq<string> {
    if key == "" then []
    else match ArrayOf(key, parse)
      case Some(elements) => elements
      case None => Lines(key)
  }

  /** The size that Update records, which takes an empty array for a line. */
  function CountedKeys(key: string, parse: Parser): nat {
    if key == "" then 0
    else match ArrayOf(key, parse)
      case Some(elements) => if elements == [] then |Lines(key)| else |elements|
      case None => |Lines(key)|
  }

  /** The recorded size is the number of keys, except for a text that is an empty JSON array. */
  lemma SizeIsKeyCount(key: string, parse: Parser)
    ensures CountedKeys(key, parse) == |KeysOf(key, parse)| <==> key == "" || ArrayOf(key, parse) != Some([])
  {
  }

  /** A text that, trimmed, begins with a bracket and parses is the elements parsed; any other that is not empty is its lines. */
  lemma KeysAre(key: string, parse: Parser)
    ensures var text := TrimSpace(key);
      KeysOf(key, parse) ==
        if key == "" then []
        else if text != "" && text[0] == '[' && parse(text).Some? then parse(text).value
        else Split(Trim(key, c => c == '\n'), '\n')
  {
    hide TrimSpace, Trim, Split;
  }

  /** Lists that survive being joined by newlines and read back. */
  predicate Storable(ks: seq<string>, parse: Parser) {
    && ks != [] && Unbroken(ks, '\n') && ks[0] != "" && ks[|ks| - 1] != ""
    && ArrayOf(Join(ks, '\n'), parse) == None
  }

  /** Exactly those lists are read back as they were stored. */
  lemma StoredKeysReadBack(ks: seq<string>, parse: Parser)
    requires ArrayParser(parse) && ks != []
    ensures KeysOf(Join(ks, '\n'), parse) == ks <==> Storable(ks, parse)
  {
    if ArrayOf(Join(ks, '\n'), parse).Some? {
      ArrayNeverReadsBack(ks, parse);
    } else {
      LinesReadBack(ks);
    }
  }

  /** A list that is not: its empty first key is lost. */
  lemma EmptyFirstKeyIsLost(parse: Parser)
    ensures KeysOf(Join(["", "b"], '\n'), parse) == ["b"]
  {
    hide IsSpace, Trim, Split;
    var key := ['\n'] + "b";
    assert ["", "b"][1..] == ["b"];
    assert Join(["", "b"], '\n') == key;
    NewlineIsSpace();
    assert !IsSpace('b') by { LetterIsNoSpace(); }
    TrimsFirst("b", c => c == '\n', '\n');
    TrimsFirst("b", c => IsSpace(c), '\n');
    SplitNone("b", '\n');
  }

  lemma LetterIsNoSpace()
    ensures !IsSpace('b')
  {
  }

  lemma TrimsFirst(s: string, cut: char -> bool, c: char)
    requires s != "" && cut(c) && !cut(s[0]) && !cut(s[|s| - 1])
    ensures Trim([c] + s, cut) == s
  {
    assert ([c] + s)[1..] == s;
  }

  lemma ArrayNeverReadsBack(ks: seq<string>, parse: Parser)
    requires ArrayParser(parse) && ArrayOf(Join(ks, '\n'), parse).Some?
    ensures ArrayOf(Join(ks, '\n'), parse).value != ks
  {
    JoinLength(ks, ',', '\n');
  }

  lemma LinesReadBack(ks: seq<string>)
    requires ks != []
    ensures (Join(ks, '\n') != "" && Lines(Join(ks, '\n')) == ks) <==> Unbroken(ks, '\n') && ks[0] != "" && ks[|ks| - 1] != ""
  {
    var key := Join(ks, '\n');
    if Unbroken(ks, '\n') && ks[0] != "" && ks[|ks| - 1] != "" {
      JoinEnds(ks, '\n');
      assert ks[0][0] != '\n' && ks[|ks| - 1][|ks[|ks| - 1]| - 1] != '\n';
      SplitJoin(ks, '\n');
    } else if key != "" && Lines(key) == ks {
      var text := Trim(key, c => c == '\n');
      JoinSplit(text, '\n');
      assert text == key;
      OuterLinesNonempty(ks);
    }
  }

  /** A joined text that neither starts nor ends with a newline has nonempty outer lines. */
  lemma OuterLinesNonempty(ks: seq<string>)
    requires ks != [] && Unbroken(ks, '\n')
    requires var s := Join(ks, '\n'); s != "" && s[0] != '\n' && s[|s| - 1] != '\n'
    ensures ks[0] != "" && ks[|ks| - 1] != ""
  {
    if ks[|ks| - 1] == "" && |ks| > 1 { JoinEmptyLast(ks); }
  }

  lemma {:induction false} JoinEmptyLast(ks: seq<string>)
    requires |ks| > 1 && ks[|ks| - 1] == ""
    ensures var s := Join(ks, '\n'); s != "" && s[|s| - 1] == '\n'
  {
    if |ks| > 2 { JoinEmptyLast(ks[1..]); }
  }

  // ---------- the status maps ----------

  datatype Info = Info(size: nat, status: map<int, int>, time: map<int, int>, reason: map<int, string>, cursor: int)

  /** The two columns of a channel row that concern its keys. */
  datatype Row = Row(key: string, info: Info)

  /** What the row says about one key. */
  datatype Entry = Entry(key: string, status: int, time: Option<int>, reason: Option<string>)

  function Lookup<V>(m: map<int, V>, i: int): Option<V> {
    if i in m then Some(m[i]) else None
  }

  function StatusOf(info: Info, i: int): int {
    if i in info.status then info.status[i] else ENABLED
  }

  function EntryAt(key: string, info: Info, i: int): Entry {
    Entry(key, StatusOf(info, i), Lookup(info.time, i), Lookup(info.reason, i))
  }

  function Entries(ks: seq<string>, info: Info): (es: seq<Entry>)
    ensures |es| == |ks| && forall i :: 0 <= i < |es| ==> es[i] == EntryAt(ks[i], info, i)
  {
    seq(|ks|, i requires 0 <= i < |ks| => EntryAt(ks[i], info, i))
  }

  function Keys(es: seq<Entry>): (ks: seq<string>)
    ensures |ks| == |es| && forall i :: 0 <= i < |ks| ==> ks[i] == es[i].key
  {
    seq(|es|, i requires 0 <= i < |es| => es[i].key)
  }

  /** The sparse maps that spell a list of entries: an enabled status is left out. */
  function Sparse(es: seq<Entry>, cursor: int): Info {
    Info(|es|,
         map i: int | 0 <= i < |es| && es[i].status != ENABLED :: es[i].status,
         map i: int | 0 <= i < |es| && es[i].time.Some? :: es[i].time.value,
         map i: int | 0 <= i < |es| && es[i].reason.Some? :: es[i].reason.value,
         cursor)
  }

  lemma SparseEntries(es: seq<Entry>, cursor: int)
    ensures Entries(Keys(es), Sparse(es, cursor)) == es
  {
  }

  function Pruned(status: map<int, int>, size: nat): map<int, int> {
    map i | i in status && i < size :: status[i]
  }

  /** Update records the size and drops the statuses beyond it; the times and reasons stay. */
  function Resized(info: Info, size: nat): Info {
    info.(size := size, status := Pruned(info.status, size))
  }

  function Contents(row: Row, parse: Parser): seq<Entry> {
    Entries(KeysOf(row.key, parse), row.info)
  }

  /** What a row becomes when its keys are rewritten: an empty text is not written, so the old one stays. */
  function Rewritten(row: Row, es: seq<Entry>, parse: Parser): Row {
    var text := Join(Keys(es), '\n');
    var key := if text != "" then text else row.key;
    Row(key, Resized(Sparse(es, row.info.cursor), CountedKeys(key, parse)))
  }

  /** Rewriting a row to fewer entries leaves exactly those entries when and only when their keys are storable. */
  lemma RewrittenContents(row: Row, es: seq<Entry>, parse: Parser)
    requires ArrayParser(parse) && |es| < |KeysOf(row.key, parse)|
    ensures Contents(Rewritten(row, es, parse), parse) == es <==> Storable(Keys(es), parse)
  {
    var row' := Rewritten(row, es, parse);
    var ks := KeysOf(row'.key, parse);
    if Join(Keys(es), '\n') != "" && es != [] {
      StoredKeysReadBack(Keys(es), parse);
      if ks == Keys(es) {
        SparseEntries(es, row.info.cursor);
        assert Contents(row', parse) == es;
      } else {
        assert Contents(row', parse) == es ==> Keys(Contents(row', parse)) == ks;
      }
    } else if Storable(Keys(es), parse) {
      JoinEnds(Keys(es), '\n');
    }
  }

  function Reenabled(es: seq<Entry>): (r: seq<Entry>)
    ensures |r| == |es| && forall i :: 0 <= i < |r| ==> r[i] == Entry(es[i].key, ENABLED, None, None)
  {
    seq(|es|, i requires 0 <= i < |es| => Entry(es[i].key, ENABLED, None, None))
  }

  /** Rewriting to no entries at all keeps every key and enables it. */
  lemma RewrittenToNothing(row: Row, parse: Parser)
    ensures Contents(Rewritten(row, [], parse), parse) == Reenabled(Contents(row, parse))
  {
  }
}
