/** The natural way to lay a document out in the YAML subset, and what the parser makes of its lines. */
module YamlRoundTrip {
  import opened Json
  import opened Options
  import opened YamlParser
  import opened YamlScalars
  import opened YamlText

  /** A document before its one-line texts are read: texts, mappings and sequences. */
  datatype Doc = Leaf(text: string) | Block(entries: seq<Entry>) | Items(items: seq<Doc>)
  datatype Entry = Entry(key: string, doc: Doc)

  /** Keys are written as they are: trimmed, without colons, quotes or comment marks, and not like a
      list item or a flow list. */
  predicate KeyOk(key: string) {
    && Trimmed(key) && !IsItem(key) && !("[" <= key)
    && (forall i :: 0 <= i < |key| ==> key[i] != ':' && !IsQuote(key[i]))
    && (forall i :: 0 <= i < |key| && key[i] == '#' ==> i > 0 && key[i - 1] != ' ' && key[i - 1] != '\t')
  }

  /** A text does not look like anything but a text from its first character on. */
  predicate TextOk(text: string) {
    text != "" && Trimmed(text) && !IsItem(text) && text[0] !in {'#', '|', '>', ':'}
  }

  predicate HasEntry(entries: seq<Entry>, key: string) {
    exists i :: 0 <= i < |entries| && entries[i].key == key
  }

  /** Mappings, and non-empty sequences of texts or non-empty mappings. */
  ghost predicate DocOk(doc: Doc) {
    match doc
    case Leaf(text) => TextOk(text)
    case Block(entries) => EntriesOk(entries)
    case Items(items) => items != [] && ItemsOk(items)
  }

  ghost predicate EntriesOk(entries: seq<Entry>) {
    entries == [] || (KeyOk(entries[0].key) && !HasEntry(entries[1..], entries[0].key) && DocOk(entries[0].doc)
                      && EntriesOk(entries[1..]))
  }

  ghost predicate ItemsOk(items: seq<Doc>) {
    items == [] || (ItemOk(items[0]) && DocOk(items[0]) && ItemsOk(items[1..]))
  }

  predicate ItemOk(doc: Doc) {
    doc.Leaf? || (doc.Block? && doc.entries != [])
  }

  // The printer

  function PrintMap(entries: seq<Entry>, column: nat): seq<Line> {
    if entries == [] then [] else PrintEntry(entries[0], column) + PrintMap(entries[1..], column)
  }

  function PrintEntry(e: Entry, column: nat): seq<Line> {
    match e.doc
    case Leaf(text) => [Line(column, e.key + ":" + (" " + text))]
    case Block(entries) => [Line(column, e.key + ":" + "")] + PrintMap(entries, column + 2)
    case Items(items) => [Line(column, e.key + ":" + "")] + PrintSeq(items, column + 2)
  }

  function PrintSeq(items: seq<Doc>, column: nat): seq<Line> {
    if items == [] then [] else PrintItem(items[0], column) + PrintSeq(items[1..], column)
  }

  function PrintItem(doc: Doc, column: nat): seq<Line> {
    match doc
    case Leaf(text) => [Line(column, "- " + text)]
    case Block(entries) => Dashed(PrintMap(entries, column + 2), column)
    case Items(_) => []
  }

  /** The first line of a mapping moves behind the dash of its list item. */
  function Dashed(lines: seq<Line>, column: nat): seq<Line> {
    if lines == [] then [] else [Line(column, "- " + lines[0].content)] + lines[1..]
  }

  // What the parser makes of it

  /** A text after a key is a scalar; a text after a dash is one too, unless it has a colon outside quotes:
      then it is a mapping with one key. */
  function Read(doc: Doc): Value
    decreases doc, 0
  {
    match doc
    case Leaf(text) => ScalarValue(text)
    case Block(entries) => Dict(ReadEntries(entries))
    case Items(items) => List(ReadItems(items))
  }

  function ReadEntries(entries: seq<Entry>): seq<Field> {
    if entries == [] then [] else [Field(entries[0].key, Read(entries[0].doc))] + ReadEntries(entries[1..])
  }

  function ReadItems(items: seq<Doc>): seq<Value> {
    if items == [] then [] else [ReadItem(items[0])] + ReadItems(items[1..])
  }

  function ReadItem(doc: Doc): Value
    decreases doc, 1
  {
    if doc.Leaf? && OpensMapping(doc.text) then Dict([OnlyField(doc.text)]) else Read(doc)
  }

  /** The one field of a text that opens a mapping. */
  function OnlyField(text: string): Field
    requires OpensMapping(text)
  {
    var head := Divided(text, ':', Outside).value;
    var value := Trim(head.after);
    Field(Trim(head.before), if value == "" then Dict([]) else ScalarValue(value))
  }

  // What printed lines look like

  /** A line of a mapping. */
  ghost predicate MapContent(content: string) {
    exists key, after :: IsMapContent(content, key, after)
  }

  ghost predicate IsMapContent(content: string, key: string, after: string) {
    && KeyOk(key) && content == key + ":" + after
    && (after == "" || exists text :: TextOk(text) && after == " " + text)
  }

  lemma MapContentReads(content: string, key: string, after: string)
    requires IsMapContent(content, key, after)
    ensures Divided(content, ':', Outside) == Some(Halves(key, after)) && Trim(key) == key
    ensures !IsItem(content) && OpensMapping(content) && Trimmed(content) && content != ""
  {
    hide Divided, Trim, Trimmed;
    assert key + ":" + after == key + [':'] + after;
    DividedAt(key, after, ':');
    TrimmedStays(key);
    NotAnItem(key, after);
    ContentTrimmed(content, key, after);
  }

  lemma NotAnItem(key: string, after: string)
    requires !IsItem(key) && !("[" <= key)
    ensures !IsItem(key + ":" + after) && !("[" <= key + ":" + after)
  {
    var content := key + ":" + after;
    if key == "" {
      assert content[0] == ':';
    } else {
      assert content[0] == key[0];
      if |key| == 1 {
        assert content[1] == ':';
      } else {
        assert content[1] == key[1];
      }
    }
  }

  lemma ContentTrimmed(content: string, key: string, after: string)
    requires IsMapContent(content, key, after)
    ensures Trimmed(content) && content != ""
  {
    var left := key + ":";
    assert left != "" && !IsSpace(left[0]) && !IsSpace(left[|left| - 1]) by {
      assert left[|left| - 1] == ':' && left[0] == if key == "" then ':' else key[0];
    }
    if after == "" {
      assert content == left;
    } else {
      var text :| TextOk(text) && after == " " + text;
      Ends(" ", text);
      Ends(left, after);
    }
  }

  ghost predicate Starts(lines: seq<Line>, column: nat) {
    lines != [] && lines[0].indent == column
  }

  /** Everything is indented at least this far. */
  predicate AllDeep(lines: seq<Line>, column: nat) {
    forall k :: 0 <= k < |lines| ==> lines[k].indent >= column
  }

  lemma {:induction false} MapLines(entries: seq<Entry>, column: nat)
    requires EntriesOk(entries)
    ensures AllDeep(PrintMap(entries, column), column)
    ensures entries != [] ==>
            Starts(PrintMap(entries, column), column) && MapContent(PrintMap(entries, column)[0].content)
  {
    hide KeyOk, MapContent;
    if entries != [] {
      EntryLines(entries[0], column);
      MapLines(entries[1..], column);
    }
  }

  lemma {:induction false} EntryLines(e: Entry, column: nat)
    requires KeyOk(e.key) && DocOk(e.doc)
    ensures var lines := PrintEntry(e, column);
            Starts(lines, column) && AllDeep(lines, column) && MapContent(lines[0].content)
  {
    hide KeyOk, TextOk;
    match e.doc {
      case Leaf(text) =>
        assert IsMapContent(e.key + ":" + (" " + text), e.key, " " + text);
      case Block(entries) =>
        assert IsMapContent(e.key + ":" + "", e.key, "");
        MapLines(entries, column + 2);
      case Items(items) =>
        assert IsMapContent(e.key + ":" + "", e.key, "");
        SeqLines(items, column + 2);
    }
  }

  lemma {:induction false} SeqLines(items: seq<Doc>, column: nat)
    requires ItemsOk(items)
    ensures AllDeep(PrintSeq(items, column), column)
    ensures items != [] ==> Starts(PrintSeq(items, column), column) && IsItem(PrintSeq(items, column)[0].content)
  {
    if items != [] {
      ItemShape(items[0], column);
      SeqLines(items[1..], column);
    }
  }

  lemma {:induction false} ItemShape(doc: Doc, column: nat)
    requires ItemOk(doc) && DocOk(doc)
    ensures var lines := PrintItem(doc, column);
            Starts(lines, column) && AllDeep(lines, column) && IsItem(lines[0].content)
  {
    if doc.Block? {
      MapLines(doc.entries, column + 2);
    }
  }

  // Parsing what was printed

  ghost predicate Outer(tail: seq<Line>, column: nat) {
    tail == [] || tail[0].indent < column
  }

  lemma {:induction false} PutNew(fields: seq<Field>, f: Field)
    requires !HasKey(fields, f.key)
    ensures Put(fields, f.key, f.value) == fields + [f]
  {
  }

  /** No key of the fields is a key of the entries. */
  ghost predicate Apart(fields: seq<Field>, entries: seq<Entry>) {
    forall i, j :: 0 <= i < |fields| && 0 <= j < |entries| ==> fields[i].key != entries[j].key
  }

  lemma ApartStep(result: seq<Field>, entries: seq<Entry>, value: Value)
    requires entries != [] && EntriesOk(entries) && Apart(result, entries)
    ensures !HasKey(result, entries[0].key) && Apart(result + [Field(entries[0].key, value)], entries[1..])
  {
    hide DocOk, KeyOk;
    assert forall j :: 0 <= j < |entries[1..]| ==> entries[1..][j] == entries[j + 1];
  }

  lemma EntriesDistinct(entries: seq<Entry>)
    requires entries != [] && EntriesOk(entries)
    ensures KeyOk(entries[0].key) && DocOk(entries[0].doc) && EntriesOk(entries[1..])
  {
    hide DocOk, KeyOk, HasEntry;
  }

  lemma MapUnfolds(entries: seq<Entry>, column: nat, result: seq<Field>, tail: seq<Line>)
    requires entries != []
    ensures PrintMap(entries, column) + tail == PrintEntry(entries[0], column) + (PrintMap(entries[1..], column) + tail)
    ensures result + ReadEntries(entries)
            == result + [Field(entries[0].key, Read(entries[0].doc))] + ReadEntries(entries[1..])
  {
    MapParts(entries, column);
    hide PrintEntry, Read, PrintMap, ReadEntries;
    Assoc(PrintEntry(entries[0], column), PrintMap(entries[1..], column), tail);
    Assoc(result, [Field(entries[0].key, Read(entries[0].doc))], ReadEntries(entries[1..]));
  }

  lemma MapParts(entries: seq<Entry>, column: nat)
    requires entries != []
    ensures PrintMap(entries, column) == PrintEntry(entries[0], column) + PrintMap(entries[1..], column)
    ensures ReadEntries(entries) == [Field(entries[0].key, Read(entries[0].doc))] + ReadEntries(entries[1..])
  {
    hide PrintEntry, Read;
  }

  lemma Assoc<T>(a: seq<T>, b: seq<T>, c: seq<T>)
    ensures a + b + c == a + (b + c)
  {
  }

  /** What follows a mapping does not go on with its last entry. */
  ghost predicate Follows(entries: seq<Entry>, tail: seq<Line>, column: nat) {
    entries == [] || entries[|entries| - 1].doc.Leaf? || Outer(tail, column + 1)
  }

  lemma MapFollows(entries: seq<Entry>, column: nat, tail: seq<Line>)
    requires entries != [] && EntriesOk(entries) && Follows(entries, tail, column)
    ensures Follows(entries[1..], tail, column)
    ensures entries[0].doc.Leaf? || Outer(PrintMap(entries[1..], column) + tail, column + 1)
  {
    hide DocOk, KeyOk, HasEntry, PrintMap;
    MapLines(entries[1..], column);
    if |entries| == 1 {
      NothingPrinted(column);
      assert PrintMap(entries[1..], column) + tail == tail;
    } else {
      assert (PrintMap(entries[1..], column) + tail)[0] == PrintMap(entries[1..], column)[0];
    }
  }

  /** The lines of a printed mapping are parsed to what is read from it, whatever comes after them. */
  lemma {:induction false} MapPrefix(entries: seq<Entry>, column: nat, result: seq<Field>, tail: seq<Line>)
    requires EntriesOk(entries) && Apart(result, entries) && Follows(entries, tail, column)
    ensures ParseMap(PrintMap(entries, column) + tail, column, result)
         == ParseMap(tail, column, result + ReadEntries(entries))
    decreases entries, 0
  {
    hide EntriesOk, DocOk, KeyOk, Apart, ParseMap, PrintEntry, Put, HasKey, Read, PrintMap, ReadEntries, Follows;
    if entries == [] {
      NothingPrinted(column);
      assert PrintMap(entries, column) + tail == tail && result + ReadEntries(entries) == result;
    } else {
      var e := entries[0];
      var f := Field(e.key, Read(e.doc));
      EntriesDistinct(entries);
      ApartStep(result, entries, f.value);
      PutNew(result, f);
      MapUnfolds(entries, column, result, tail);
      MapFollows(entries, column, tail);
      EntryReads(e, column, result, PrintMap(entries[1..], column) + tail);
      MapPrefix(entries[1..], column, result + [f], tail);
    }
  }

  /** The lines of a printed mapping parse to what is read from it, and nothing else is consumed. */
  lemma {:induction false} MapReads(entries: seq<Entry>, column: nat, result: seq<Field>, tail: seq<Line>)
    requires EntriesOk(entries) && Apart(result, entries) && Outer(tail, column)
    ensures ParseMap(PrintMap(entries, column) + tail, column, result) == Done(result + ReadEntries(entries), tail)
    decreases entries, 1
  {
    hide EntriesOk, Apart, ParseMap, PrintMap, ReadEntries;
    MapPrefix(entries, column, result, tail);
    MapEnds(tail, column, result + ReadEntries(entries));
  }

  /** One entry: its key is assigned what is read from its document. */
  lemma {:induction false} EntryReads(e: Entry, column: nat, result: seq<Field>, rest: seq<Line>)
    requires KeyOk(e.key) && DocOk(e.doc) && (e.doc.Leaf? || Outer(rest, column + 1))
    ensures ParseMap(PrintEntry(e, column) + rest, column, result)
            == ParseMap(rest, column, Put(result, e.key, Read(e.doc)))
    decreases e
  {
    hide KeyOk, ParseMap, Put, DocOk;
    if e.doc.Leaf? {
      LeafEntryReads(e, column, result, rest);
    } else {
      NestedEntryReads(e, column, result, rest);
    }
  }

  lemma LeafEntryReads(e: Entry, column: nat, result: seq<Field>, rest: seq<Line>)
    requires KeyOk(e.key) && DocOk(e.doc) && e.doc.Leaf?
    ensures ParseMap(PrintEntry(e, column) + rest, column, result)
            == ParseMap(rest, column, Put(result, e.key, Read(e.doc)))
  {
    hide KeyOk, ParseMap, Put, Trim, Divided, ScalarValue, OpensMapping, Trimmed, IsItem;
    var lines := PrintEntry(e, column) + rest;
    var after := " " + e.doc.text;
    assert lines[0] == Line(column, e.key + ":" + after) && lines[1..] == rest;
    assert IsMapContent(lines[0].content, e.key, after);
    MapContentReads(lines[0].content, e.key, after);
    LeadingBlank(e.doc.text);
    MapStep(lines, column, result);
  }

  lemma {:induction false} NestedEntryReads(e: Entry, column: nat, result: seq<Field>, rest: seq<Line>)
    requires KeyOk(e.key) && DocOk(e.doc) && !e.doc.Leaf? && Outer(rest, column + 1)
    ensures ParseMap(PrintEntry(e, column) + rest, column, result)
            == ParseMap(rest, column, Put(result, e.key, Read(e.doc)))
    decreases e, 0
  {
    hide KeyOk, ParseMap, Put, Trim, Divided, ScalarValue, OpensMapping, Trimmed, PrintMap, PrintSeq, ParseSeq,
         ReadEntries, ReadItems;
    var lines := PrintEntry(e, column) + rest;
    var inner := Print(e.doc, column + 2);
    assert lines == [Line(column, e.key + ":" + "")] + (inner + rest);
    assert lines[1..] == inner + rest;
    assert IsMapContent(lines[0].content, e.key, "");
    MapContentReads(lines[0].content, e.key, "");
    NoPieces();
    MapStep(lines, column, result);
    match e.doc {
      case Block(entries) =>
        MapLines(entries, column + 2);
        if entries == [] {
          NothingPrinted(column + 2);
          assert inner + rest == rest;
        } else {
          BlockReads(e.doc, column + 2, rest);
        }
      case Items(items) =>
        SeqLines(items, column + 2);
        BlockReads(e.doc, column + 2, rest);
    }
  }

  lemma NothingPrinted(column: nat)
    ensures PrintMap([], column) == [] && PrintSeq([], column) == [] && ReadEntries([]) == []
  {
  }

  function Print(doc: Doc, column: nat): seq<Line> {
    match doc
    case Block(entries) => PrintMap(entries, column)
    case Items(items) => PrintSeq(items, column)
    case Leaf(_) => []
  }

  /** A mapping or sequence with something in it. */
  predicate Filled(doc: Doc) {
    (doc.Block? && doc.entries != []) || (doc.Items? && doc.items != [])
  }

  lemma {:induction false} BlockReads(doc: Doc, column: nat, tail: seq<Line>)
    requires DocOk(doc) && Filled(doc) && Outer(tail, column)
    ensures Print(doc, column) != [] && ParseBlock(Print(doc, column) + tail, column) == Done(Read(doc), tail)
    decreases doc
  {
    hide ParseMap, ParseSeq, PrintMap, PrintSeq, ReadEntries, ReadItems;
    match doc {
      case Block(entries) =>
        MapLines(entries, column);
        var content := PrintMap(entries, column)[0].content;
        var key, after :| IsMapContent(content, key, after);
        MapContentReads(content, key, after);
        assert Apart([], entries) && [] + ReadEntries(entries) == ReadEntries(entries);
        MapReads(entries, column, [], tail);
      case Items(items) =>
        SeqLines(items, column);
        SeqReads(items, column, tail);
    }
  }

  lemma SeqUnfolds(items: seq<Doc>, column: nat, tail: seq<Line>)
    requires items != []
    ensures PrintSeq(items, column) + tail == PrintItem(items[0], column) + (PrintSeq(items[1..], column) + tail)
  {
    hide PrintItem;
    Assoc(PrintItem(items[0], column), PrintSeq(items[1..], column), tail);
  }

  lemma SeqNext(items: seq<Doc>, column: nat, tail: seq<Line>)
    requires ItemsOk(items) && Outer(tail, column)
    ensures Outer(PrintSeq(items, column) + tail, column + 1)
  {
    hide ItemsOk;
    SeqLines(items, column);
    if items == [] {
      NothingPrinted(column);
      assert PrintSeq(items, column) + tail == tail;
    } else {
      assert (PrintSeq(items, column) + tail)[0] == PrintSeq(items, column)[0];
    }
  }

  /** The lines of a printed sequence parse to what is read from it. */
  lemma {:induction false} SeqReads(items: seq<Doc>, column: nat, tail: seq<Line>)
    requires ItemsOk(items) && Outer(tail, column)
    ensures ParseSeq(PrintSeq(items, column) + tail, column) == Done(ReadItems(items), tail)
    decreases items
  {
    hide ParseSeq, PrintItem, Prepend, ReadItem, PrintSeq;
    if items == [] {
      NothingPrinted(column);
      assert PrintSeq(items, column) + tail == tail;
      PrependNothing(ParseSeq(tail, column));
      SeqEnds([], tail, column);
    } else {
      SeqUnfolds(items, column, tail);
      SeqNext(items[1..], column, tail);
      ItemReads(items[0], column, PrintSeq(items[1..], column) + tail);
      SeqReads(items[1..], column, tail);
      PrependDone([ReadItem(items[0])], ReadItems(items[1..]), tail);
    }
  }

  lemma PrependDone(a: seq<Value>, b: seq<Value>, tail: seq<Line>)
    ensures Prepend(a, Done(b, tail)) == Done(a + b, tail)
  {
  }

  lemma {:induction false} ItemReads(doc: Doc, column: nat, rest: seq<Line>)
    requires ItemOk(doc) && DocOk(doc) && Outer(rest, column + 1)
    ensures ParseSeq(PrintItem(doc, column) + rest, column) == Prepend([ReadItem(doc)], ParseSeq(rest, column))
    decreases doc
  {
    hide ParseSeq, Prepend, OpensMapping, ReadItem;
    if doc.Block? {
      MappingItemReads(doc, column, rest);
    } else if OpensMapping(doc.text) {
      SplitItemReads(doc.text, column, rest);
    } else {
      TextItemReads(doc.text, column, rest);
    }
  }

  lemma Undash(text: string)
    requires Trimmed(text)
    ensures IsItem("- " + text) && Trim(("- " + text)[2..]) == text
  {
    assert ("- " + text)[2..] == text;
    TrimmedStays(text);
  }

  lemma TextItemReads(text: string, column: nat, rest: seq<Line>)
    requires TextOk(text) && !OpensMapping(text)
    ensures ParseSeq(PrintItem(Leaf(text), column) + rest, column)
            == Prepend([ReadItem(Leaf(text))], ParseSeq(rest, column))
  {
    hide ParseSeq, Prepend, Trim, ScalarValue, OpensMapping, Trimmed;
    var lines := PrintItem(Leaf(text), column) + rest;
    assert lines[0] == Line(column, "- " + text) && lines[1..] == rest;
    Undash(text);
    SeqScalar([], lines, column);
    PrependNothing(ParseSeq(lines, column));
    assert [] + [ScalarValue(text)] == [ScalarValue(text)];
  }

  /** A text with a colon outside quotes, alone in its mapping. */
  lemma OneLineMap(text: string, column: nat)
    requires TextOk(text) && OpensMapping(text)
    ensures ParseMap([Line(column, text)], column, []) == Done([OnlyField(text)], [])
  {
    hide ParseMap, Divided, Trim, ScalarValue, Trimmed, IsItem;
    var lines := [Line(column, text)];
    MapStep(lines, column, []);
    assert lines[1..] == [];
    var f := OnlyField(text);
    assert Put([], f.key, f.value) == [f];
    MapEnds([], column, [f]);
  }

  lemma SplitItemReads(text: string, column: nat, rest: seq<Line>)
    requires TextOk(text) && OpensMapping(text) && Outer(rest, column + 1)
    ensures ParseSeq(PrintItem(Leaf(text), column) + rest, column)
            == Prepend([ReadItem(Leaf(text))], ParseSeq(rest, column))
  {
    hide ParseSeq, ParseMap, Prepend, Trim, OnlyField, OpensMapping, ItemLines, AfterItem, Trimmed;
    var inner := [Line(column + 2, text)];
    var lines := PrintItem(Leaf(text), column) + rest;
    assert lines == [Line(column, "- " + text)] + (inner[1..] + rest);
    Undash(text);
    ItemGathers(inner, column, rest, lines);
    OneLineMap(text, column + 2);
    SeqMapping([], lines, column);
    PrependNothing(ParseSeq(lines, column));
    assert [] + [Dict([OnlyField(text)])] == [Dict([OnlyField(text)])];
  }

  lemma {:induction false} MappingItemReads(doc: Doc, column: nat, rest: seq<Line>)
    requires DocOk(doc) && doc.Block? && doc.entries != [] && Outer(rest, column + 1)
    ensures ParseSeq(PrintItem(doc, column) + rest, column) == Prepend([ReadItem(doc)], ParseSeq(rest, column))
    decreases doc, 0
  {
    hide ParseSeq, ParseMap, PrintMap, Prepend, Trim, Divided, OpensMapping, ItemLines, AfterItem, Trimmed, KeyOk,
         ReadEntries;
    var inner := PrintMap(doc.entries, column + 2);
    MapLines(doc.entries, column + 2);
    var content := inner[0].content;
    var key, after :| IsMapContent(content, key, after);
    MapContentReads(content, key, after);
    Undash(content);
    var lines := PrintItem(doc, column) + rest;
    assert lines == [Line(column, "- " + content)] + (inner[1..] + rest);
    ItemGathers(inner, column, rest, lines);
    assert inner + [] == inner && Apart([], doc.entries) && [] + ReadEntries(doc.entries) == ReadEntries(doc.entries);
    MapReads(doc.entries, column + 2, [], []);
    SeqMapping([], lines, column);
    PrependNothing(ParseSeq(lines, column));
    assert [] + [Read(doc)] == [Read(doc)];
  }

  /** The parser gathers exactly the lines of the mapping behind the dash. */
  lemma ItemGathers(inner: seq<Line>, column: nat, rest: seq<Line>, lines: seq<Line>)
    requires Starts(inner, column + 2) && AllDeep(inner, column + 2) && Outer(rest, column + 1)
    requires lines == [Line(column, "- " + inner[0].content)] + (inner[1..] + rest)
    requires Trimmed(inner[0].content)
    ensures IsItem(lines[0].content) && ItemLines(lines, column) == inner && AfterItem(lines, column) == rest
  {
    hide Trimmed, Trim, Deeper;
    Undash(inner[0].content);
    assert lines[1..] == inner[1..] + rest;
    DeepCount(inner[1..], column + 2, rest);
    assert lines[1..1 + |inner[1..]|] == inner[1..] && lines[1 + |inner[1..]|..] == rest;
    assert [inner[0]] + inner[1..] == inner;
  }

  lemma {:induction false} DeepCount(a: seq<Line>, column: nat, rest: seq<Line>)
    requires AllDeep(a, column) && Outer(rest, column)
    ensures Deeper(a + rest, column) == |a|
  {
    if a == [] {
      assert a + rest == rest;
    } else {
      assert (a + rest)[1..] == a[1..] + rest;
      DeepCount(a[1..], column, rest);
    }
  }

  /** Parsing the lines of a printed document gives exactly what is read from its texts, and consumes every
      line. */
  lemma LinesRead(doc: Doc)
    requires DocOk(doc) && !doc.Leaf?
    ensures ParseLines(Print(doc, 0)) == Parsed(Read(doc))
  {
    hide ParseBlock, PrintMap, PrintSeq, ReadEntries, ReadItems;
    if doc == Block([]) {
      NothingPrinted(0);
    } else {
      BlockReads(doc, 0, []);
      assert Print(doc, 0) + [] == Print(doc, 0);
      match doc {
        case Block(entries) => MapLines(entries, 0);
        case Items(items) => SeqLines(items, 0);
      }
    }
  }

  // Documents that are refused

  /** A line that cannot go on a mapping at the left margin: indented for no reason, or a list item, or without
      a colon. After a scalar entry it is refused for just that. */
  lemma BadLineRejected(entries: seq<Entry>, bad: Line, rest: seq<Line>)
    requires EntriesOk(entries) && entries != [] && (entries[|entries| - 1].doc.Leaf? || bad.indent == 0)
    requires bad.indent > 0 || IsItem(bad.content) || Divided(bad.content, ':', Outside) == None
    ensures ParseLines(Print(Block(entries), 0) + ([bad] + rest))
            == if IsItem(bad.content) then Rejected(Leftover(bad.content))
               else if bad.indent > 0 then Rejected(BadIndentation(bad.content))
               else Rejected(ExpectedKey(bad.content))
  {
    hide EntriesOk, PrintMap, ParseMap, ReadEntries, Divided, KeyOk, IsItem, ParseSeq;
    var tail := [bad] + rest;
    var lines := PrintMap(entries, 0) + tail;
    MapLines(entries, 0);
    var content := PrintMap(entries, 0)[0].content;
    var key, after :| IsMapContent(content, key, after);
    MapContentReads(content, key, after);
    assert lines[0] == PrintMap(entries, 0)[0];
    assert Apart([], entries) && [] + ReadEntries(entries) == ReadEntries(entries);
    MapPrefix(entries, 0, [], tail);
    MapStep(tail, 0, ReadEntries(entries));
  }
}
