/** Which values survive being printed and parsed: exactly those whose strings the scans leave alone. */
module YamlStrings {
  import opened Digits
  import opened Json
  import opened Options
  import opened YamlBlocks
  import opened YamlParser
  import opened YamlRoundTrip
  import opened YamlScalars
  import opened YamlText
  import opened YamlTextTrip

  // Values as documents

  function DocOf(v: Value): Doc {
    match v
    case Dict(fields) => Block(EntriesOf(fields))
    case List(items) => if items == [] then Leaf(Text(v)) else Items(DocsOf(items))
    case _ => Leaf(Text(v))
  }

  function EntriesOf(fields: seq<Field>): seq<Entry> {
    if fields == [] then [] else [Entry(fields[0].key, DocOf(fields[0].value))] + EntriesOf(fields[1..])
  }

  function DocsOf(items: seq<Value>): seq<Doc> {
    if items == [] then [] else [DocOf(items[0])] + DocsOf(items[1..])
  }

  /** What can be laid out: distinct keys that can stand as they are, and list items that are scalars or
      non-empty mappings. There is no condition on strings. */
  ghost predicate Printable(v: Value) {
    match v
    case Dict(fields) => FieldsOk(fields)
    case List(items) => ValuesOk(items)
    case _ => true
  }

  ghost predicate FieldsOk(fields: seq<Field>) {
    fields == []
    || (KeyOk(fields[0].key) && !HasKey(fields[1..], fields[0].key) && Printable(fields[0].value)
        && FieldsOk(fields[1..]))
  }

  ghost predicate ValuesOk(items: seq<Value>) {
    items == [] || (CanBeItem(items[0]) && Printable(items[0]) && ValuesOk(items[1..]))
  }

  predicate CanBeItem(v: Value) {
    IsScalar(v) || (v.Dict? && v.fields != [])
  }

  lemma ScalarDoc(v: Value)
    requires IsScalar(v)
    ensures DocOf(v) == Leaf(Text(v)) && TextOk(Text(v))
  {
    hide Decimal, EncodeBody, Trimmed;
    TextTrimmed(v);
    TextFirst(v);
  }

  lemma TextFirst(v: Value)
    requires IsScalar(v)
    ensures Text(v) != "" && Text(v)[0] !in {'#', '|', '>', ':'} && !IsItem(Text(v))
  {
    match v
    case Num(n) =>
      DecimalReads(if n < 0 then -n else n);
      var digits := Decimal(if n < 0 then -n else n);
      assert '0' <= digits[0] <= '9';
      assert n < 0 ==> Text(v)[1] == digits[0];
    case _ =>
  }

  lemma {:induction false} DocOfOk(v: Value)
    requires Printable(v)
    ensures DocOk(DocOf(v)) && (CanBeItem(v) ==> ItemOk(DocOf(v)))
    decreases v
  {
    hide TextOk, Text;
    if IsScalar(v) {
      ScalarDoc(v);
    } else if v.Dict? {
      EntriesOfOk(v.fields);
    } else {
      DocsOfOk(v.items);
    }
  }

  lemma {:induction false} EntriesOfOk(fields: seq<Field>)
    requires FieldsOk(fields)
    ensures EntriesOk(EntriesOf(fields)) && |EntriesOf(fields)| == |fields|
    ensures forall i :: 0 <= i < |fields| ==> EntriesOf(fields)[i].key == fields[i].key
    decreases fields
  {
    hide DocOk, KeyOk, Printable;
    if fields != [] {
      DocOfOk(fields[0].value);
      EntriesOfOk(fields[1..]);
      var entries, more := EntriesOf(fields), EntriesOf(fields[1..]);
      assert entries[1..] == more;
      assert forall i :: 0 <= i < |more| ==> more[i].key == fields[i + 1].key;
      assert !HasEntry(more, fields[0].key);
    }
  }

  lemma {:induction false} DocsOfOk(items: seq<Value>)
    requires ValuesOk(items)
    ensures ItemsOk(DocsOf(items)) && |DocsOf(items)| == |items|
    decreases items
  {
    hide DocOk, Printable;
    if items != [] {
      DocOfOk(items[0]);
      DocsOfOk(items[1..]);
      assert DocsOf(items)[1..] == DocsOf(items[1..]);
    }
  }

  // Which strings survive

  /** The comment scan, which knows no escapes, leaves the string whole. */
  predicate Whole(s: string) {
    Uncommented(Encode(s), Outside, Some(' ')) == Encode(s)
  }

  /** The separator scan, which knows none either, finds no colon in the string. */
  predicate Closed(s: string) {
    Divided(Encode(s), ':', Outside) == None
  }

  /** A value of lines (or of text, if comments are cut): every string of the text is whole, and every
      string that is a list item is closed. */
  predicate Survives(v: Value, text: bool)
    decreases v, 0
  {
    match v
    case Str(s) => text ==> Whole(s)
    case Dict(fields) => FieldsSurvive(fields, text)
    case List(items) => ItemsSurvive(items, text)
    case _ => true
  }

  predicate FieldsSurvive(fields: seq<Field>, text: bool)
    decreases fields, 0
  {
    fields == [] || (Survives(fields[0].value, text) && FieldsSurvive(fields[1..], text))
  }

  predicate ItemsSurvive(items: seq<Value>, text: bool)
    decreases items, 0
  {
    items == [] || (ItemSurvives(items[0], text) && ItemsSurvive(items[1..], text))
  }

  predicate ItemSurvives(v: Value, text: bool)
    decreases v, 1
  {
    (v.Str? ==> Closed(v.s)) && Survives(v, text)
  }

  // Strings without quotes, marks or colons

  lemma {:induction false} BodyLacks(s: string, c: char)
    requires c in {'"', '#', ':'} && c !in s
    ensures c !in EncodeBody(s)
  {
    if s != "" {
      BodyLacks(s[1..], c);
      CharLacks(s[0], c);
    }
  }

  lemma CharLacks(c: char, d: char)
    requires d in {'"', '#', ':'} && c != d
    ensures d !in EncodeChar(c) && EncodeChar(c) != ""
  {
  }

  lemma {:induction false} InsidePasses(body: string, previous: Option<char>)
    requires '"' !in body
    ensures Uncommented(body + "\"", Inside('"'), previous) == body + "\""
  {
    var text := body + "\"";
    if body == "" {
      assert text[1..] == "";
    } else {
      assert text[1..] == body[1..] + "\"";
      InsidePasses(body[1..], Some(body[0]));
      assert [body[0]] + (body[1..] + "\"") == text;
    }
  }

  lemma {:induction false} DividedInside(body: string, separator: char)
    requires '"' !in body
    ensures Divided(body + "\"", separator, Inside('"')) == None
  {
    var text := body + "\"";
    if body == "" {
      assert text[1..] == "";
    } else {
      assert text[1..] == body[1..] + "\"";
      DividedInside(body[1..], separator);
    }
  }

  lemma {:induction false} NoMarkPasses(text: string, span: Span, previous: Option<char>)
    requires '#' !in text
    ensures Uncommented(text, span, previous) == text
  {
    if text != "" {
      NoMarkPasses(text[1..], NextSpan(span, text[0]), Some(text[0]));
    }
  }

  lemma {:induction false} NoColonPasses(text: string, span: Span)
    requires ':' !in text
    ensures Divided(text, ':', span) == None
  {
    if text != "" {
      NoColonPasses(text[1..], NextSpan(span, text[0]));
    }
  }

  /** A string is lost only if it has an escaped quote, and then a mark or a colon. */
  lemma SafeStrings(s: string)
    ensures '"' !in s || '#' !in s ==> Whole(s)
    ensures '"' !in s || ':' !in s ==> Closed(s)
  {
    hide EncodeBody;
    var body, code := EncodeBody(s), Encode(s);
    assert code[0] == '"' && code[1..] == body + "\"";
    if '"' !in s {
      BodyLacks(s, '"');
      InsidePasses(body, Some('"'));
      DividedInside(body, ':');
      assert ['"'] + code[1..] == code;
    }
    if '#' !in s {
      BodyLacks(s, '#');
      NoMarkPasses(code, Outside, Some(' '));
    }
    if ':' !in s {
      BodyLacks(s, ':');
      NoColonPasses(code, Outside);
    }
  }

  // A string that is cut is read as another one

  /** Encoding moves the first quote of a string, and no first # comes earlier. */
  lemma {:induction false} FirstMoves(s: string, c: char, p: nat)
    requires c in {'"', '#'} && p < |s| && s[p] == c && c !in s[..p]
    ensures forall i :: 0 <= i < |EncodeBody(s)| && i < p + (if c == '"' then 1 else 0) ==> EncodeBody(s)[i] != c
  {
    var body := EncodeBody(s);
    if p > 0 {
      assert s[..p][0] == s[0] && s[..p][1..] == s[1..][..p - 1];
      FirstMoves(s[1..], c, p - 1);
      CharLacks(s[0], c);
      hide EncodeChar;
      var first, more := EncodeChar(s[0]), EncodeBody(s[1..]);
      forall i | 0 <= i < |body| && i < p + (if c == '"' then 1 else 0)
        ensures body[i] != c
      {
        if i < |first| {
          assert body[i] == first[i];
        } else {
          assert body[i] == more[i - |first|];
        }
      }
    } else if c == '"' {
      assert body[0] == '\\';
    }
  }

  lemma {:induction false} FirstIndex(s: string, c: char) returns (p: nat)
    requires c in s
    ensures p < |s| && s[p] == c && c !in s[..p]
  {
    if s[0] == c {
      p := 0;
    } else {
      p := FirstIndex(s[1..], c);
      assert s[..p + 1] == [s[0]] + s[1..][..p];
      p := p + 1;
    }
  }

  lemma FirstMark(s: string, p: nat)
    requires p < |s| && s[p] == '#' && '#' !in s[..p]
    ensures forall i :: 0 <= i < |Encode(s)| && i <= p ==> Encode(s)[i] != '#'
  {
    FirstMoves(s, '#', p);
    hide EncodeBody;
    var code, body := Encode(s), EncodeBody(s);
    assert code[0] == '"' && code[|body| + 1] == '"' && |code| == |body| + 2;
    assert forall i :: 0 < i <= |body| ==> code[i] == body[i - 1];
  }

  /** No beginning of the encoded body is the string, if it has a quote; and none of the encoded string,
      if it has a mark. */
  lemma NotItsPrefix(s: string, t: string)
    ensures '"' in s && t <= EncodeBody(s) ==> t != s
    ensures '#' in s && t <= Encode(s) ==> t != s
  {
    hide EncodeBody;
    if '"' in s && t <= EncodeBody(s) {
      var p := FirstIndex(s, '"');
      FirstMoves(s, '"', p);
    }
    if '#' in s && t <= Encode(s) {
      var p := FirstIndex(s, '#');
      FirstMark(s, p);
    }
  }

  lemma PartOfChar(c: char, m: nat)
    requires m < |EncodeChar(c)|
    ensures m == 0 || DecodeBody(EncodeChar(c)[..m]) == None
  {
  }

  /** A beginning of an encoded body decodes to less than the string, if it decodes at all. */
  lemma {:induction false} PartDecodes(s: string, m: nat)
    requires m < |EncodeBody(s)|
    ensures DecodeBody(EncodeBody(s)[..m]) != Some(s)
  {
    hide DecodeBody, EncodeChar;
    var first, more := EncodeChar(s[0]), EncodeBody(s[1..]);
    if m < |first| {
      assert EncodeBody(s)[..m] == first[..m];
      PartOfChar(s[0], m);
      NothingDecoded();
    } else {
      assert EncodeBody(s)[..m] == first + more[..m - |first|];
      DecodeEncoded(s[0], more[..m - |first|]);
      PartDecodes(s[1..], m - |first|);
      PrefixedTail(s, DecodeBody(more[..m - |first|]));
    }
  }

  lemma NothingDecoded()
    ensures DecodeBody("") == Some("")
  {
  }

  lemma PrefixedTail(s: string, rest: Option<string>)
    requires s != "" && rest != Some(s[1..])
    ensures Prefixed(s[0], rest) != Some(s)
  {
    assert rest.Some? ==> ([s[0]] + rest.value)[1..] == rest.value;
  }

  /** A shorter text from the same beginning does not read as the string. */
  lemma PrefixReadsOtherwise(s: string, t: string)
    requires '"' in s && '#' in s && t != "" && t <= Encode(s) && |t| < |Encode(s)| && Trim(t) == t
    ensures ScalarValue(t) != Str(s)
  {
    hide EncodeBody, DecodeBody, Trim, ScalarValue, IsDigits;
    var body := EncodeBody(s);
    assert t[0] == '"';
    if IsQuoted(t) {
      var inner := t[1..|t| - 1];
      assert inner == body[..|t| - 2];
      NotItsPrefix(s, inner);
      PartDecodes(s, |t| - 2);
      QuotedReads(t);
    } else {
      NotItsPrefix(s, t);
      PlainReads(t);
    }
  }

  /** A string is read back from the text of its line if and only if the comment scan leaves it whole. */
  lemma CutStringReads(s: string)
    ensures TextOk(Encode(s)) && TextOk(CutText(Encode(s)))
    ensures Whole(s) ==> CutText(Encode(s)) == Encode(s)
    ensures ScalarValue(CutText(Encode(s))) == Str(s) <==> Whole(s)
  {
    hide Encode, ScalarValue, Trim, TextOk, Uncommented;
    var code := Encode(s);
    var u := Uncommented(code, Outside, Some(' '));
    ScalarDoc(Str(s));
    EncodeTrimmed(s);
    TrimmedStays(code);
    if Whole(s) {
      EncodedScalar(s);
    } else {
      SafeStrings(s);
      UncommentedPrefix(code, Outside, Some(' '));
      CutTextOk(code);
      NotEmpty(CutText(code));
      TrimmedStays(CutText(code));
      PrefixReadsOtherwise(s, CutText(code));
    }
    CutTextOk(code);
  }

  /** Other scalars pass every scan. */
  lemma WordPasses(v: Value)
    requires IsScalar(v) && !v.Str?
    ensures CutText(Text(v)) == Text(v) && Divided(Text(v), ':', Outside) == None && ScalarValue(Text(v)) == v
  {
    hide Text, ScalarValue, CutText, Divided, IsWord;
    ScalarReads(v);
    WordHasNoColon(v);
    TextShape(v);
    WordStays(Text(v));
  }

  lemma WordStays(text: string)
    requires IsWord(text)
    ensures CutText(text) == text
  {
    hide Trim, Trimmed, Uncommented, Plain;
    WordIsPlain(text);
    PlainPasses(text, Some(' '), "");
    NothingUncommented();
    assert text + "" == text;
    TrimmedStays(text);
  }

  lemma WordIsPlain(text: string)
    requires IsWord(text)
    ensures Plain(text, Some(' '))
  {
  }

  // Items

  lemma FoldedOpens(text: string)
    requires TextOk(text) && text[0] == '"'
    ensures OpensMapping(Folded(text)) <==> Divided(text, ':', Outside).Some?
    ensures Divided(text, ':', Outside) == None ==> Folded(text) == text
  {
    hide Trim, Encode, TextOk, Divided;
    match Divided(text, ':', Outside) {
      case Some(h) =>
        assert text == h.before + [':'] + h.after;
        NotEmpty(text);
        BlankIsSpace();
        assert h.before != "" && h.before[0] == '"';
        QuoteStays(h.before);
        var after := " " + Encode("");
        SameDivision(text, ':', Outside, after);
        TrimmedDivision(h.before, ':', Outside, after);
        BeforeLeads(text, h);
        var folded := Trim(h.before) + ": " + Encode("");
        assert folded == TrimRight(h.before) + [':'] + after;
        assert folded[0] == '"' && !("[" <= folded) && !("[" <= text);
      case None =>
    }
  }

  lemma QuoteStays(text: string)
    requires text != "" && text[0] == '"'
    ensures Trim(text) != "" && Trim(text)[0] == '"'
  {
    FirstStays(text);
    assert TrimLeft(text) == text;
  }

  /** What becomes of a document, as lines or as text. */
  function Seen(doc: Doc, text: bool): Doc {
    if text then CutDoc(doc) else doc
  }

  function SeenItem(doc: Doc, text: bool): Doc {
    if text then CutItem(doc) else doc
  }

  function SeenEntries(entries: seq<Entry>, text: bool): seq<Entry> {
    if text then CutEntries(entries) else entries
  }

  function SeenItems(items: seq<Doc>, text: bool): seq<Doc> {
    if text then CutItems(items) else items
  }

  lemma StringItem(s: string, text: bool)
    ensures ReadItem(SeenItem(Leaf(Encode(s)), text)) == Str(s) <==> ItemSurvives(Str(s), text)
  {
    hide Encode, ScalarValue, OnlyField, Folded, CutText, TextOk, Whole, Divided;
    var code := Encode(s);
    CutStringReads(s);
    EncodedScalar(s);
    EncodeTrimmed(s);
    if text {
      var cut := CutText(code);
      CutTextOk(code);
      NotEmpty(cut);
      assert cut[0] == code[0];
      FoldedOpens(cut);
    }
  }

  lemma ScalarItem(v: Value, text: bool)
    requires IsScalar(v)
    ensures ReadItem(SeenItem(DocOf(v), text)) == v <==> ItemSurvives(v, text)
  {
    hide Text, ScalarValue, OnlyField, CutText, TextOk, Whole, Closed;
    ScalarDoc(v);
    if v.Str? {
      TextIsEncoded(v.s);
      StringItem(v.s, text);
    } else {
      WordPasses(v);
    }
  }

  lemma TextIsEncoded(s: string)
    ensures Text(Str(s)) == Encode(s)
  {
  }

  lemma ScalarField(v: Value, text: bool)
    requires IsScalar(v)
    ensures Read(Seen(DocOf(v), text)) == v <==> Survives(v, text)
  {
    hide Text, ScalarValue, CutText, TextOk, Whole;
    ScalarDoc(v);
    if v.Str? {
      TextIsEncoded(v.s);
      CutStringReads(v.s);
      EncodedScalar(v.s);
    } else {
      WordPasses(v);
    }
  }

  // Whole values

  lemma SameCons<T>(a: T, more: seq<T>, all: seq<T>)
    requires all != []
    ensures [a] + more == all <==> a == all[0] && more == all[1..]
  {
    assert ([a] + more)[1..] == more;
    assert [all[0]] + all[1..] == all;
  }

  /** What is read from a printed value is the value if and only if its strings survive. */
  lemma {:induction false} ReadsBack(v: Value, text: bool)
    ensures Read(Seen(DocOf(v), text)) == v <==> Survives(v, text)
    decreases v, 0
  {
    hide CutEntries, CutItems, ReadEntries, ReadItems, Text;
    if IsScalar(v) {
      ScalarField(v, text);
    } else if v.Dict? {
      FieldsReadBack(v.fields, text);
    } else {
      ItemsReadBack(v.items, text);
    }
  }

  lemma {:induction false} FieldsReadBack(fields: seq<Field>, text: bool)
    ensures ReadEntries(SeenEntries(EntriesOf(fields), text)) == fields <==> FieldsSurvive(fields, text)
    decreases fields
  {
    hide Read, CutDoc, DocOf, Survives;
    if fields != [] {
      var entries, more := EntriesOf(fields), EntriesOf(fields[1..]);
      ReadsBack(fields[0].value, text);
      FieldsReadBack(fields[1..], text);
      var first := Field(fields[0].key, Read(Seen(DocOf(fields[0].value), text)));
      var seen := SeenEntries(entries, text);
      assert entries[0] == Entry(fields[0].key, DocOf(fields[0].value)) && entries[1..] == more;
      assert seen[1..] == SeenEntries(more, text);
      assert text ==> seen[0] == CutEntry(entries[0]);
      assert seen[0] == Entry(fields[0].key, Seen(DocOf(fields[0].value), text));
      assert fields[0] == Field(fields[0].key, fields[0].value);
      SameCons(first, ReadEntries(SeenEntries(more, text)), fields);
    }
  }

  lemma {:induction false} ItemsReadBack(items: seq<Value>, text: bool)
    ensures ReadItems(SeenItems(DocsOf(items), text)) == items <==> ItemsSurvive(items, text)
    decreases items
  {
    hide ReadItem, CutItem, DocOf, ItemSurvives;
    if items != [] {
      var docs, more := DocsOf(items), DocsOf(items[1..]);
      ItemReadsBack(items[0], text);
      ItemsReadBack(items[1..], text);
      var first := ReadItem(SeenItem(DocOf(items[0]), text));
      var seen := SeenItems(docs, text);
      assert docs[1..] == more;
      assert seen[1..] == SeenItems(more, text);
      SameCons(first, ReadItems(SeenItems(more, text)), items);
    }
  }

  lemma {:induction false} ItemReadsBack(v: Value, text: bool)
    ensures ReadItem(SeenItem(DocOf(v), text)) == v <==> ItemSurvives(v, text)
    decreases v, 1
  {
    hide CutEntries, CutItems, ReadEntries, ReadItems, Text, EntriesOf, DocsOf, OpensMapping, OnlyField, Survives;
    if IsScalar(v) {
      ScalarItem(v, text);
    } else {
      ReadsBack(v, text);
    }
  }

  /** Printing a value as lines and parsing them gives the value back if and only if the strings that are
      list items have no colon outside what the scan takes for quotes. */
  lemma LinesRoundTrip(v: Value)
    requires Printable(v) && !IsScalar(v)
    ensures ParseLines(Print(DocOf(v), 0)) == Parsed(v) <==> Survives(v, false)
  {
    hide ParseLines, Print, Read, DocOk, Survives;
    DocOfOk(v);
    LinesRead(DocOf(v));
    ReadsBack(v, false);
  }

  /** Printing a value as text and parsing that gives the value back if and only if, besides, no string is
      cut by the comment scan. */
  lemma TextRoundTrip(v: Value)
    requires Printable(v) && !IsScalar(v)
    ensures ParseLines(Lines(ShowAll(Print(DocOf(v), 0)))) == Parsed(v) <==> Survives(v, true)
  {
    hide ParseLines, Print, Read, DocOk, Survives, Lines, ShowAll, CutDoc;
    DocOfOk(v);
    TextReads(DocOf(v));
    ReadsBack(v, true);
  }

  // One value for each failure

  lemma OneItemReads(text: string)
    requires TextOk(text)
    ensures ParseLines([Line(0, "- " + text)]) == Parsed(List([ReadItem(Leaf(text))]))
  {
    hide ReadItem, TextOk, ParseLines;
    var items := [Leaf(text)];
    assert items[1..] == [] && PrintSeq(items[1..], 0) == [] && ReadItems(items[1..]) == [];
    assert ItemsOk(items[1..]);
    assert PrintItem(Leaf(text), 0) == [Line(0, "- " + text)];
    assert Print(Items(items), 0) == PrintItem(Leaf(text), 0) + [] == [Line(0, "- " + text)];
    assert ItemOk(items[0]) && DocOk(items[0]) && ItemsOk(items);
    assert Read(Items(items)) == List([ReadItem(Leaf(text))]);
    LinesRead(Items(items));
  }

  /** A string item with an escaped quote and then a colon becomes a mapping. */
  lemma ItemBecomesMapping()
    ensures ParseLines([Line(0, "- " + Encode("a\": b"))]) == Parsed(List([Dict([Field("\"a\\\"", Str("b\""))])]))
  {
    var before, after := "\"a\\\"", " b\"";
    var code := before + [':'] + after;
    EncodedColon();
    hide Encode, ScalarValue, Trim, TextOk;
    ColonFound();
    TrimmedStays(before);
    LeadingBlank("b\"");
    assert " " + "b\"" == after;
    TrimmedStays("b\"");
    PlainReads("b\"");
    ScalarDoc(Str("a\": b"));
    TextIsEncoded("a\": b");
    OneItemReads(code);
  }

  lemma Encodes(s: string, first: string, more: string)
    requires s != "" && EncodeChar(s[0]) == first && EncodeBody(s[1..]) == more
    ensures EncodeBody(s) == first + more
  {
  }

  lemma EncodedColon()
    ensures Encode("a\": b") == "\"a\\\"" + [':'] + " b\""
  {
    var s := "a\": b";
    assert s[1..][1..][1..][1..][1..] == "";
    Encodes(s[1..][1..][1..][1..], "b", "");
    Encodes(s[1..][1..][1..], " ", "b");
    Encodes(s[1..][1..], ":", " b");
    Encodes(s[1..], "\\\"", ": b");
    Encodes(s, "a", "\\\": b");
  }

  lemma ColonFound()
    ensures Divided("\"a\\\"" + [':'] + " b\"", ':', Outside) == Some(Halves("\"a\\\"", " b\""))
  {
    var code := "\"a\\\"" + [':'] + " b\"";
    assert SpanAt(code, 0) == Outside && SpanAt(code, 1) == Inside('"') && SpanAt(code, 2) == Inside('"');
    assert SpanAt(code, 3) == Inside('"') && SpanAt(code, 4) == Outside;
    assert IsDivision(code, ':', Some(Halves("\"a\\\"", " b\"")));
    DivisionIsDivided(code, ':', Some(Halves("\"a\\\"", " b\"")));
  }

  lemma OneFieldReads(text: string)
    requires TextOk(text)
    ensures ParseLines(Lines(["k: " + text])) == Parsed(Dict([Field("k", ScalarValue(CutText(text)))]))
  {
    hide ScalarValue, CutText, TextOk, ParseLines, Lines;
    var entries := [Entry("k", Leaf(text))];
    assert entries[1..] == [] && PrintMap(entries[1..], 0) == [] && EntriesOk(entries[1..]) && KeyOk("k");
    assert Print(Block(entries), 0) == PrintEntry(entries[0], 0) + [] == [Line(0, "k" + ":" + (" " + text))];
    assert "k" + ":" + (" " + text) == "k: " + text;
    OneShown(Line(0, "k: " + text));
    assert Show(Line(0, "k: " + text)) == "k: " + text;
    OneFieldCut(text);
    assert DocOk(entries[0].doc) && !HasEntry(entries[1..], "k") && EntriesOk(entries);
    TextReads(Block(entries));
  }

  lemma OneFieldCut(text: string)
    ensures Read(CutDoc(Block([Entry("k", Leaf(text))]))) == Dict([Field("k", ScalarValue(CutText(text)))])
  {
    hide ScalarValue, CutText;
    var entries, cut := [Entry("k", Leaf(text))], [Entry("k", Leaf(CutText(text)))];
    assert entries[1..] == [] && CutEntries(entries[1..]) == [];
    assert CutDoc(Leaf(text)) == Leaf(CutText(text));
    assert CutEntries(entries) == [CutEntry(entries[0])] + [] == cut;
    assert cut[1..] == [] && ReadEntries(cut[1..]) == [];
    assert ReadEntries(cut) == [Field("k", ScalarValue(CutText(text)))] + [];
  }

  /** A string with an escaped quote and then a comment mark is cut, and another string is read. */
  lemma StringIsCut()
    ensures ParseLines(Lines(["k: " + Encode("\" #")])) == Parsed(Dict([Field("k", Str("\\"))]))
  {
    EncodedMark();
    hide Encode, ScalarValue, CutText, TextOk, ParseLines, Lines;
    ScalarDoc(Str("\" #"));
    TextIsEncoded("\" #");
    CutReads();
    OneFieldReads("\"\\\" #\"");
  }

  lemma EncodedMark()
    ensures Encode("\" #") == "\"\\\" #\""
  {
    var s := "\" #";
    assert s[1..][1..][1..] == "";
    Encodes(s[1..][1..], "#", "");
    Encodes(s[1..], " ", "#");
    Encodes(s, "\\\"", " #");
  }

  lemma CutReads()
    ensures CutText("\"\\\" #\"") == "\"\\\"" && ScalarValue("\"\\\"") == Str("\\")
  {
    var quoted, cut := "\"\\\" #\"", "\"\\\"";
    MarkFound();
    hide Uncommented;
    assert (cut + " ")[..3] == cut && "\"\\\" " == cut + " ";
    assert cut[1..2] == "\\" && DecodeBody("\\") == None;
    TrimmedStays(cut);
    assert TrimRight(cut + " ") == TrimRight(cut);
    assert Trim(cut + " ") == cut;
    QuotedReads(cut);
  }

  lemma MarkFound()
    ensures Uncommented("\"\\\" #\"", Outside, Some(' ')) == "\"\\\" "
  {
    var quoted := "\"\\\" #\"";
    var a, b, c, d := quoted[1..], quoted[2..], quoted[3..], quoted[4..];
    assert a[1..] == b && b[1..] == c && c[1..] == d;
    assert d[0] == '#' && Uncommented(d, Outside, Some(' ')) == "";
    assert Uncommented(c, Outside, Some('"')) == " ";
    assert Uncommented(b, Inside('"'), Some('\\')) == "\" ";
    assert Uncommented(a, Inside('"'), Some('"')) == "\\\" ";
  }
}
