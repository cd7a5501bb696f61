/** Printed documents as text: what the comment scan and the block scalars make of the lines. */
module YamlTextTrip {
  import opened Json
  import opened Options
  import opened YamlParser
  import opened YamlRoundTrip
  import opened YamlScalars
  import opened YamlText

  function Spaces(n: nat): (s: string)
    ensures |s| == n && forall i :: 0 <= i < n ==> s[i] == ' '
  {
    seq(n, i => ' ')
  }

  /** One line of the text. */
  function Show(line: Line): string {
    Spaces(line.indent) + line.content
  }

  function ShowAll(lines: seq<Line>): seq<string> {
    seq(|lines|, i requires 0 <= i < |lines| => Show(lines[i]))
  }

  // Comments

  predicate IsBlank(c: char) {
    c == ' ' || c == '\t'
  }

  /** No quote, and no # that starts a comment. */
  predicate Plain(text: string, previous: Option<char>) {
    && (forall i :: 0 <= i < |text| ==> !IsQuote(text[i]))
    && (forall i :: 0 < i < |text| && text[i] == '#' ==> !IsBlank(text[i - 1]))
    && (text != "" && text[0] == '#' ==> previous.Some? && !IsBlank(previous.value))
  }

  function LastOf(text: string, previous: Option<char>): Option<char> {
    if text == "" then previous else Some(text[|text| - 1])
  }

  /** Plain text passes the comment scan. */
  lemma {:induction false} PlainPasses(text: string, previous: Option<char>, rest: string)
    requires Plain(text, previous)
    ensures Uncommented(text + rest, Outside, previous) == text + Uncommented(rest, Outside, LastOf(text, previous))
  {
    if text == "" {
      assert text + rest == rest;
    } else {
      assert (text + rest)[1..] == text[1..] + rest;
      assert forall i :: 0 <= i < |text[1..]| ==> text[1..][i] == text[i + 1];
      PlainPasses(text[1..], Some(text[0]), rest);
      assert LastOf(text[1..], Some(text[0])) == LastOf(text, previous);
      assert [text[0]] + (text[1..] + Uncommented(rest, Outside, LastOf(text, previous)))
             == text + Uncommented(rest, Outside, LastOf(text, previous));
    }
  }

  lemma {:induction false} SkipBlanks(spaces: string, content: string)
    requires (forall i :: 0 <= i < |spaces| ==> spaces[i] == ' ') && content != "" && !IsSpace(content[0])
    ensures TrimLeft(spaces + content) == content && Indent(spaces + content) == |spaces|
  {
    if spaces == "" {
      assert spaces + content == content;
    } else {
      assert (spaces + content)[1..] == spaces[1..] + content;
      SkipBlanks(spaces[1..], content);
    }
  }

  lemma TrimSpaces(n: nat, content: string)
    requires content != "" && Trimmed(content)
    ensures Trim(Spaces(n) + content) == content && Indent(Spaces(n) + content) == n
  {
    SkipBlanks(Spaces(n), content);
    TrimmedStays(content);
  }

  lemma SpacesPlain(spaces: string, prefix: string)
    requires Plain(prefix, None) && forall i :: 0 <= i < |spaces| ==> spaces[i] == ' '
    ensures Plain(spaces + prefix, None)
  {
  }

  lemma KeyPlain(dash: string, key: string, colon: string)
    requires KeyOk(key) && dash in {"", "- "} && colon in {":", ": "}
    ensures Plain(dash + key + colon, None)
    ensures forall i :: 0 <= i < |dash + key| ==> (dash + key)[i] != ':' && !IsQuote((dash + key)[i])
  {
    var text := dash + key + colon;
    forall i | 0 <= i < |text|
      ensures !IsQuote(text[i]) && (text[i] == '#' ==> i > 0 && !IsBlank(text[i - 1]))
    {
      if |dash| <= i < |dash + key| {
        assert text[i] == key[i - |dash|];
        assert text[i] == '#' ==> text[i - 1] == key[i - |dash| - 1];
      } else if i >= |dash + key| {
        assert text[i] == colon[i - |dash + key|];
      } else {
        assert text[i] == dash[i];
      }
    }
  }

  // Texts

  /** What is left of a text behind a blank: the part before a comment mark, trimmed. */
  function CutText(text: string): string {
    Trim(Uncommented(text, Outside, Some(' ')))
  }

  /** A list item that looks like a block scalar becomes one, with nothing in it. */
  function Folded(text: string): string {
    match Divided(text, ':', Outside)
    case Some(h) => if Trim(h.after) in BLOCK_STYLES then Trim(h.before) + ": " + Encode("") else text
    case None => text
  }

  function CutDoc(doc: Doc): Doc
    decreases doc, 0
  {
    match doc
    case Leaf(text) => Leaf(CutText(text))
    case Block(entries) => Block(CutEntries(entries))
    case Items(items) => Items(CutItems(items))
  }

  function CutEntries(entries: seq<Entry>): seq<Entry> {
    if entries == [] then [] else [CutEntry(entries[0])] + CutEntries(entries[1..])
  }

  function CutEntry(e: Entry): Entry {
    Entry(e.key, CutDoc(e.doc))
  }

  function CutItems(items: seq<Doc>): seq<Doc> {
    if items == [] then [] else [CutItem(items[0])] + CutItems(items[1..])
  }

  function CutItem(doc: Doc): Doc
    decreases doc, 1
  {
    if doc.Leaf? then Leaf(Folded(CutText(doc.text))) else CutDoc(doc)
  }

  lemma {:induction false} UncommentedPrefix(text: string, span: Span, previous: Option<char>)
    ensures Uncommented(text, span, previous) <= text
  {
    if text != "" && !StartsComment(span, previous, text[0]) {
      UncommentedPrefix(text[1..], NextSpan(span, text[0]), Some(text[0]));
      var rest := Uncommented(text[1..], NextSpan(span, text[0]), Some(text[0]));
      assert text == [text[0]] + text[1..] && text[1..][..|rest|] == rest;
    }
  }

  lemma {:induction false} TrimRightKeeps(prefix: string, text: string)
    requires TrimRight(text) != ""
    ensures TrimRight(prefix + text) == prefix + TrimRight(text)
  {
    var whole := prefix + text;
    assert whole[|whole| - 1] == text[|text| - 1];
    if IsSpace(text[|text| - 1]) {
      TrimRightKeeps(prefix, text[..|text| - 1]);
      assert whole[..|whole| - 1] == prefix + text[..|text| - 1];
    }
  }

  /** The cut of a text is a non-empty prefix of it, trimmed, and still looks like a text. */
  lemma CutTextOk(text: string)
    requires TextOk(text)
    ensures TextOk(CutText(text)) && CutText(text) <= text
    ensures var u := Uncommented(text, Outside, Some(' ')); TrimRight(u) == CutText(text)
  {
    var u := Uncommented(text, Outside, Some(' '));
    UncommentedPrefix(text, Outside, Some(' '));
    assert u != "" && u[0] == text[0];
    assert TrimLeft(u) == u;
    FirstStays(u);
    TrimExactly(u);
    assert CutText(text) <= u <= text;
    PrefixNoItem(CutText(text), text);
  }

  lemma {:induction false} FirstStays(u: string)
    requires u != "" && !IsSpace(u[0])
    ensures TrimRight(u) != "" && TrimRight(u)[0] == u[0]
  {
    if IsSpace(u[|u| - 1]) {
      FirstStays(u[..|u| - 1]);
    }
  }

  lemma PrefixNoItem(prefix: string, text: string)
    requires prefix <= text && !IsItem(text)
    ensures !IsItem(prefix)
  {
  }

  // One line of the text

  /** The uncommented line: its plain part, and what is left of the text behind it. */
  lemma LineUncommented(n: nat, prefix: string, text: string)
    requires Plain(prefix, None) && prefix != "" && prefix[|prefix| - 1] == ' '
    ensures Uncommented(Spaces(n) + (prefix + text), Outside, None)
            == Spaces(n) + (prefix + Uncommented(text, Outside, Some(' ')))
  {
    hide Plain, Uncommented, Spaces, LastOf;
    SpacesPlain(Spaces(n), prefix);
    Assoc(Spaces(n), prefix, text);
    PlainPasses(Spaces(n) + prefix, None, text);
    LastIsLast(Spaces(n), prefix);
    Assoc(Spaces(n), prefix, Uncommented(text, Outside, Some(' ')));
  }

  lemma LastIsLast(a: string, b: string)
    requires b != ""
    ensures LastOf(a + b, None) == Some(b[|b| - 1])
  {
  }

  /** Trimming it trims what is left of the text. */
  lemma LineTrimmed(n: nat, prefix: string, text: string)
    requires prefix != "" && !IsSpace(prefix[0]) && TextOk(text)
    ensures var line := Spaces(n) + (prefix + Uncommented(text, Outside, Some(' ')));
            Trim(line) == prefix + CutText(text) && Indent(line) == n
  {
    hide CutText, TextOk;
    var u := Uncommented(text, Outside, Some(' '));
    CutTextOk(text);
    assert TrimRight(u) != "" by {
      NotEmpty(CutText(text));
    }
    SkipBlanks(Spaces(n), prefix + u);
    TrimRightKeeps(prefix, u);
  }

  lemma NotEmpty(text: string)
    requires TextOk(text)
    ensures text != "" && Trimmed(text)
  {
  }

  /** The lines that follow come back out to this column. */
  predicate TailOk(raw: seq<string>, column: nat) {
    raw == [] || !InBody(raw[0], column)
  }

  /** A key with nothing behind it, alone or behind a dash. */
  lemma BareKeyLine(n: nat, dash: string, key: string, rest: seq<string>)
    requires KeyOk(key) && dash in {"", "- "}
    ensures Lines([Spaces(n) + (dash + (key + ":" + ""))] + rest) == [Line(n, dash + (key + ":" + ""))] + Lines(rest)
  {
    hide Plain, KeyOk, Trimmed, Trim, Divided, Uncommented, Indent, Lines, Spaces;
    var content := dash + (key + ":" + "");
    assert content == dash + key + ":" && content == (dash + key) + [':'] + "";
    KeyPlain(dash, key, ":");
    SpacesPlain(Spaces(n), content);
    PlainPasses(Spaces(n) + content, None, "");
    NothingUncommented();
    assert Spaces(n) + content + "" == Spaces(n) + content;
    ContentEnds(dash, key);
    TrimSpaces(n, content);
    DividedAt(dash + key, "", ':');
    NoPieces();
    LinesStep([Spaces(n) + content] + rest);
    assert ([Spaces(n) + content] + rest)[1..] == rest;
  }

  lemma NothingUncommented()
    ensures forall span, previous :: Uncommented("", span, previous) == ""
  {
  }

  lemma ContentEnds(dash: string, key: string)
    requires KeyOk(key) && dash in {"", "- "}
    ensures Trimmed(dash + key + ":") && dash + key + ":" != "" && !IsSpace((dash + key + ": ")[0])
  {
    var content := dash + key + ":";
    assert content[|content| - 1] == ':';
    assert content[0] == if dash != "" then '-' else if key != "" then key[0] else ':';
    assert (dash + key + ": ")[0] == content[0];
  }

  /** A key with a text behind it, alone or behind a dash: the text is cut. */
  lemma TextKeyLine(n: nat, dash: string, key: string, text: string, rest: seq<string>)
    requires KeyOk(key) && dash in {"", "- "} && TextOk(text)
    ensures Lines([Spaces(n) + (dash + (key + ":" + (" " + text)))] + rest)
         == [Line(n, dash + (key + ":" + (" " + CutText(text))))] + Lines(rest)
  {
    hide Plain, KeyOk, Trim, Divided, Uncommented, Indent, Lines, Spaces, CutText, TextOk;
    var prefix := dash + key + ": ";
    var raw := Spaces(n) + (prefix + text);
    assert dash + (key + ":" + (" " + text)) == prefix + text;
    assert dash + (key + ":" + (" " + CutText(text))) == prefix + CutText(text);
    assert prefix + CutText(text) == (dash + key) + [':'] + (" " + CutText(text));
    KeyPlain(dash, key, ":");
    KeyPlain(dash, key, ": ");
    ContentEnds(dash, key);
    LineUncommented(n, prefix, text);
    LineTrimmed(n, prefix, text);
    DividedAt(dash + key, " " + CutText(text), ':');
    CutTextOk(text);
    TextIsNoStyle(CutText(text));
    LinesStep([raw] + rest);
    assert ([raw] + rest)[1..] == rest;
  }

  lemma TextIsNoStyle(text: string)
    requires TextOk(text)
    ensures text !in BLOCK_STYLES && Trim(" " + text) == text && text != "" && Trimmed(text)
  {
    hide Trim, Trimmed, IsItem;
    LeadingBlank(text);
    StylesLead();
  }

  lemma StylesLead()
    ensures forall style :: style in BLOCK_STYLES ==> style != "" && style[0] in {'|', '>'}
  {
  }

  lemma DividedPast(text: string)
    ensures Divided("- " + text, ':', Outside) == match Divided(text, ':', Outside)
                                                  case Some(h) => Some(Halves("- " + h.before, h.after))
                                                  case None => None
  {
    assert ("- " + text)[1..] == " " + text && (" " + text)[1..] == text;
    match Divided(text, ':', Outside) {
      case Some(h) => assert "- " + h.before == ['-'] + ([' '] + h.before);
      case None =>
    }
  }

  /** A text behind a dash: it is cut, and folded if that makes it look like a block scalar. */
  lemma TextItemLine(n: nat, text: string, rest: seq<string>)
    requires TextOk(text) && TailOk(rest, n)
    ensures Lines([Spaces(n) + ("- " + text)] + rest) == [Line(n, "- " + Folded(CutText(text)))] + Lines(rest)
  {
    hide Plain, Trim, Divided, Uncommented, Indent, Lines, Spaces, CutText, TextOk, InBody, Encode;
    var cut := CutText(text);
    var raw := Spaces(n) + ("- " + text);
    assert Plain("- ", None) by {
      DashPlain();
    }
    LineUncommented(n, "- ", text);
    LineTrimmed(n, "- ", text);
    CutTextOk(text);
    DividedPast(cut);
    LinesStep([raw] + rest);
    assert ([raw] + rest)[1..] == rest;
    assert BodyLength(rest, n) == 0;
    assert rest[..0] == [] && rest[0..] == rest;
    if OpensBlock(Divided(cut, ':', Outside)) {
      EmptyBlock(n, cut);
    }
  }

  lemma DashPlain()
    ensures Plain("- ", None) && !IsSpace("- "[0])
  {
  }

  lemma EmptyBlock(n: nat, text: string)
    requires TextOk(text) && OpensBlock(Divided(text, ':', Outside))
    ensures var h := Divided(text, ':', Outside).value;
            BlockLine(n, Halves("- " + h.before, h.after), []) == Line(n, "- " + Folded(text))
  {
    hide Encode, Trim, Divided, TrimRight;
    var h := Divided(text, ':', Outside).value;
    assert text == h.before + [':'] + h.after;
    assert h.before != "" && h.before[0] == text[0];
    DashTrim(h.before);
    NoPieces();
    assert Joined([], Glue(Trim(h.after))) == "";
    assert "- " + Trim(h.before) + ": " + Encode("") == "- " + (Trim(h.before) + ": " + Encode(""));
  }

  lemma DashTrim(text: string)
    requires text != "" && !IsSpace(text[0])
    ensures Trim("- " + text) == "- " + Trim(text)
  {
    FirstStays(text);
    TrimRightKeeps("- ", text);
    hide TrimRight;
    assert TrimLeft("- " + text) == "- " + text && TrimLeft(text) == text;
  }

  // Whole documents

  lemma ShownTail(lines: seq<Line>, n: nat, raw: seq<string>)
    requires lines != [] && lines[0].indent == n && lines[0].content != "" && Trimmed(lines[0].content)
    ensures TailOk(ShowAll(lines) + raw, n)
  {
    hide Trimmed, Trim, Indent, Spaces;
    assert (ShowAll(lines) + raw)[0] == Show(lines[0]);
    TrimSpaces(n, lines[0].content);
  }

  /** The first line of an entry, and the lines below it. */
  function FirstContent(e: Entry): string {
    e.key + ":" + if e.doc.Leaf? then " " + e.doc.text else ""
  }

  lemma EntryParts(e: Entry, column: nat)
    ensures PrintEntry(e, column) == [Line(column, FirstContent(e))] + Print(e.doc, column + 2)
  {
    hide PrintMap, PrintSeq;
  }

  lemma ShowConcat(a: seq<Line>, b: seq<Line>)
    ensures ShowAll(a + b) == ShowAll(a) + ShowAll(b)
  {
    hide Show;
  }

  lemma EntryFirst(e: Entry, column: nat, dash: string, rest: seq<string>)
    requires KeyOk(e.key) && DocOk(e.doc) && dash in {"", "- "}
    ensures Lines([Spaces(column) + (dash + FirstContent(e))] + rest)
            == [Line(column, dash + FirstContent(CutEntry(e)))] + Lines(rest)
  {
    hide Lines, Spaces, CutText, KeyOk, TextOk;
    match e.doc {
      case Leaf(text) => TextKeyLine(column, dash, e.key, text, rest);
      case Block(entries) => BareKeyLine(column, dash, e.key, rest);
      case Items(items) => BareKeyLine(column, dash, e.key, rest);
    }
  }

  lemma TailDeeper(raw: seq<string>, column: nat, inner: nat)
    requires TailOk(raw, column) && column <= inner
    ensures TailOk(raw, inner)
  {
    hide Trim, Indent;
  }

  lemma MapTail(entries: seq<Entry>, column: nat, raw: seq<string>, inner: nat)
    requires EntriesOk(entries) && TailOk(raw, column) && column <= inner
    ensures TailOk(ShowAll(PrintMap(entries, column)) + raw, inner)
  {
    hide EntriesOk, PrintMap, ShowAll;
    if entries == [] {
      NothingPrinted(column);
      NothingShown(raw);
      TailDeeper(raw, column, inner);
    } else {
      MapLines(entries, column);
      var content := PrintMap(entries, column)[0].content;
      var key, after :| IsMapContent(content, key, after);
      MapContentReads(content, key, after);
      ShownTail(PrintMap(entries, column), column, raw);
      TailDeeper(ShowAll(PrintMap(entries, column)) + raw, column, inner);
    }
  }

  lemma SeqTail(items: seq<Doc>, column: nat, raw: seq<string>)
    requires ItemsOk(items) && TailOk(raw, column)
    ensures TailOk(ShowAll(PrintSeq(items, column)) + raw, column)
  {
    hide DocOk, ShowAll;
    if items == [] {
      NothingShown(raw);
    } else {
      SeqLines(items, column);
      ItemTrimmed(items[0], column);
      assert PrintSeq(items, column)[0] == PrintItem(items[0], column)[0];
      ShownTail(PrintSeq(items, column), column, raw);
    }
  }

  lemma ItemTrimmed(doc: Doc, column: nat)
    requires ItemOk(doc) && DocOk(doc)
    ensures PrintItem(doc, column) != [] && PrintItem(doc, column)[0].content != ""
            && Trimmed(PrintItem(doc, column)[0].content)
  {
    hide Trimmed, PrintMap;
    match doc {
      case Leaf(text) => DashTrimmed(text);
      case Block(entries) =>
        MapLines(entries, column + 2);
        var content := PrintMap(entries, column + 2)[0].content;
        var key, after :| IsMapContent(content, key, after);
        MapContentReads(content, key, after);
        DashTrimmed(content);
    }
  }

  lemma DashTrimmed(text: string)
    requires text != "" && Trimmed(text)
    ensures Trimmed("- " + text)
  {
    Ends("- ", text);
  }

  lemma NothingShown(raw: seq<string>)
    ensures ShowAll([]) == [] && ShowAll([]) + raw == raw
  {
  }

  /** The text below the first line of a mapping. */
  lemma {:induction false} BodyText(entries: seq<Entry>, column: nat, raw: seq<string>)
    requires entries != [] && EntriesOk(entries) && TailOk(raw, column)
    ensures Lines(ShowAll(Print(entries[0].doc, column + 2) + PrintMap(entries[1..], column)) + raw)
         == Print(CutDoc(entries[0].doc), column + 2) + PrintMap(CutEntries(entries[1..]), column) + Lines(raw)
    decreases entries, 0
  {
    hide EntriesOk, Lines, ShowAll, Print, PrintMap, CutEntries, CutDoc, TailOk, DocOk;
    var below, more := Print(entries[0].doc, column + 2), PrintMap(entries[1..], column);
    EntriesDistinct(entries);
    MapTail(entries[1..], column, raw, column + 2);
    DocText(entries[0].doc, column + 2, ShowAll(more) + raw);
    MapText(entries[1..], column, raw);
    ShowConcat(below, more);
    Assoc(ShowAll(below), ShowAll(more), raw);
    Assoc(Print(CutDoc(entries[0].doc), column + 2), PrintMap(CutEntries(entries[1..]), column), Lines(raw));
  }

  /** A first line of a mapping, alone or behind a dash, with the text below it. */
  lemma {:induction false} HeadedText(entries: seq<Entry>, column: nat, at: nat, dash: string, raw: seq<string>)
    requires entries != [] && EntriesOk(entries) && TailOk(raw, column) && dash in {"", "- "}
    ensures Lines(ShowAll([Line(at, dash + FirstContent(entries[0]))]
                          + (Print(entries[0].doc, column + 2) + PrintMap(entries[1..], column))) + raw)
         == [Line(at, dash + FirstContent(CutEntry(entries[0])))]
            + (Print(CutDoc(entries[0].doc), column + 2) + PrintMap(CutEntries(entries[1..]), column)) + Lines(raw)
    decreases entries, 1
  {
    hide EntriesOk, Lines, ShowAll, Print, PrintMap, CutEntries, CutDoc, TailOk, DocOk, FirstContent, Spaces;
    var first := Line(at, dash + FirstContent(entries[0]));
    var below := Print(entries[0].doc, column + 2) + PrintMap(entries[1..], column);
    EntriesDistinct(entries);
    BodyText(entries, column, raw);
    EntryFirst(entries[0], at, dash, ShowAll(below) + raw);
    ShowConcat([first], below);
    assert ShowAll([first]) == [Show(first)] by {
      OneShown(first);
    }
    Assoc([Show(first)], ShowAll(below), raw);
    Assoc([Line(at, dash + FirstContent(CutEntry(entries[0])))],
          Print(CutDoc(entries[0].doc), column + 2) + PrintMap(CutEntries(entries[1..]), column), Lines(raw));
  }

  lemma OneShown(line: Line)
    ensures ShowAll([line]) == [Show(line)]
  {
  }

  /** The lines of a printed mapping, shown as text and read again, are the lines of the mapping with its
      texts cut. */
  lemma {:induction false} MapText(entries: seq<Entry>, column: nat, raw: seq<string>)
    requires EntriesOk(entries) && TailOk(raw, column)
    ensures Lines(ShowAll(PrintMap(entries, column)) + raw) == PrintMap(CutEntries(entries), column) + Lines(raw)
    decreases entries, 2
  {
    hide EntriesOk, Lines, ShowAll, Print, TailOk, FirstContent, CutDoc, PrintEntry, PrintMap;
    if entries == [] {
      NothingPrinted(column);
      NothingShown(raw);
      assert PrintMap(CutEntries(entries), column) + Lines(raw) == Lines(raw);
    } else {
      HeadedText(entries, column, column, "", raw);
      assert "" + FirstContent(entries[0]) == FirstContent(entries[0]);
      assert "" + FirstContent(CutEntry(entries[0])) == FirstContent(CutEntry(entries[0]));
      MapHeaded(entries, column);
      MapHeaded(CutEntries(entries), column);
      assert CutEntries(entries)[1..] == CutEntries(entries[1..]);
    }
  }

  lemma MapHeaded(entries: seq<Entry>, column: nat)
    requires entries != []
    ensures PrintMap(entries, column)
         == [Line(column, FirstContent(entries[0]))]
           + (Print(entries[0].doc, column + 2) + PrintMap(entries[1..], column))
  {
    MapParts(entries, column);
    hide PrintMap, PrintEntry, FirstContent, Print;
    EntryParts(entries[0], column);
    Assoc([Line(column, FirstContent(entries[0]))], Print(entries[0].doc, column + 2), PrintMap(entries[1..], column));
  }

  lemma {:induction false} DocText(doc: Doc, column: nat, raw: seq<string>)
    requires DocOk(doc) && TailOk(raw, column)
    ensures Lines(ShowAll(Print(doc, column)) + raw) == Print(CutDoc(doc), column) + Lines(raw)
    decreases doc, 0
  {
    hide Lines, ShowAll, TailOk, PrintMap, PrintSeq, CutText;
    match doc {
      case Leaf(_) =>
        NothingShown(raw);
        assert Print(CutDoc(doc), column) + Lines(raw) == Lines(raw);
      case Block(entries) => MapText(entries, column, raw);
      case Items(items) => SeqText(items, column, raw);
    }
  }

  lemma {:induction false} SeqText(items: seq<Doc>, column: nat, raw: seq<string>)
    requires ItemsOk(items) && TailOk(raw, column)
    ensures Lines(ShowAll(PrintSeq(items, column)) + raw) == PrintSeq(CutItems(items), column) + Lines(raw)
    decreases items
  {
    hide Lines, ShowAll, TailOk, PrintItem, CutItem, DocOk;
    if items == [] {
      NothingShown(raw);
      assert PrintSeq(CutItems(items), column) + Lines(raw) == Lines(raw);
    } else {
      var here, more := PrintItem(items[0], column), PrintSeq(items[1..], column);
      SeqTail(items[1..], column, raw);
      ItemText(items[0], column, ShowAll(more) + raw);
      SeqText(items[1..], column, raw);
      ShowConcat(here, more);
      Assoc(ShowAll(here), ShowAll(more), raw);
      Assoc(PrintItem(CutItem(items[0]), column), PrintSeq(CutItems(items[1..]), column), Lines(raw));
      assert CutItems(items)[1..] == CutItems(items[1..]);
    }
  }

  lemma {:induction false} ItemText(doc: Doc, column: nat, raw: seq<string>)
    requires ItemOk(doc) && DocOk(doc) && TailOk(raw, column)
    ensures Lines(ShowAll(PrintItem(doc, column)) + raw) == PrintItem(CutItem(doc), column) + Lines(raw)
    decreases doc, 1
  {
    hide Lines, ShowAll, CutText, Folded, Spaces, Print, EntriesOk, FirstContent, InBody;
    match doc {
      case Leaf(text) =>
        OneShown(Line(column, "- " + text));
        TextItemLine(column, text, raw);
      case Block(entries) =>
        TailDeeper(raw, column, column + 2);
        HeadedText(entries, column + 2, column, "- ", raw);
        DashedHead(entries, column);
        DashedHead(CutEntries(entries), column);
        assert CutEntries(entries)[1..] == CutEntries(entries[1..]);
    }
  }

  lemma DashedHead(entries: seq<Entry>, column: nat)
    requires entries != []
    ensures PrintItem(Block(entries), column)
         == [Line(column, "- " + FirstContent(entries[0]))]
           + (Print(entries[0].doc, column + 4) + PrintMap(entries[1..], column + 2))
  {
    MapHeaded(entries, column + 2);
    hide PrintMap, Print, FirstContent;
    var below := Print(entries[0].doc, column + 4) + PrintMap(entries[1..], column + 2);
    assert ([Line(column + 2, FirstContent(entries[0]))] + below)[1..] == below;
  }

  // Cutting keeps a document well formed

  lemma {:induction false} CutDocOk(doc: Doc)
    requires DocOk(doc)
    ensures DocOk(CutDoc(doc)) && (ItemOk(doc) ==> ItemOk(CutDoc(doc)))
    decreases doc, 0
  {
    hide TextOk, CutText;
    match doc {
      case Leaf(text) => CutTextOk(text);
      case Block(entries) => CutEntriesOk(entries);
      case Items(items) => CutItemsOk(items);
    }
  }

  lemma {:induction false} CutEntriesOk(entries: seq<Entry>)
    requires EntriesOk(entries)
    ensures EntriesOk(CutEntries(entries)) && forall key :: HasEntry(CutEntries(entries), key) <==>
            HasEntry(entries, key)
    decreases entries
  {
    hide DocOk, KeyOk, CutDoc;
    if entries != [] {
      CutDocOk(entries[0].doc);
      CutEntriesOk(entries[1..]);
      SameKeys(entries);
    }
  }

  lemma SameKeys(entries: seq<Entry>)
    requires entries != [] && forall key :: HasEntry(CutEntries(entries[1..]), key) <==> HasEntry(entries[1..], key)
    ensures CutEntries(entries)[1..] == CutEntries(entries[1..]) && CutEntries(entries)[0] == CutEntry(entries[0])
    ensures forall key :: HasEntry(CutEntries(entries), key) <==> HasEntry(entries, key)
  {
    hide CutDoc;
    var cut := CutEntries(entries);
    assert cut == [CutEntry(entries[0])] + CutEntries(entries[1..]);
    forall key
      ensures HasEntry(cut, key) <==> HasEntry(entries, key)
    {
      HasSplit(cut, key);
      HasSplit(entries, key);
    }
  }

  lemma HasSplit(entries: seq<Entry>, key: string)
    requires entries != []
    ensures HasEntry(entries, key) <==> entries[0].key == key || HasEntry(entries[1..], key)
  {
    if HasEntry(entries[1..], key) {
      var i :| 0 <= i < |entries[1..]| && entries[1..][i].key == key;
      assert entries[i + 1].key == key;
    }
    if i :| 0 <= i < |entries| && entries[i].key == key {
      assert i > 0 ==> entries[1..][i - 1].key == key;
    }
  }

  lemma {:induction false} CutItemsOk(items: seq<Doc>)
    requires ItemsOk(items)
    ensures ItemsOk(CutItems(items)) && (items != [] ==> CutItems(items) != [])
    decreases items
  {
    hide DocOk, CutDoc, CutText, Folded, TextOk;
    if items != [] {
      CutItemOk(items[0]);
      CutItemsOk(items[1..]);
      assert CutItems(items)[1..] == CutItems(items[1..]);
    }
  }

  lemma {:induction false} CutItemOk(doc: Doc)
    requires ItemOk(doc) && DocOk(doc)
    ensures ItemOk(CutItem(doc)) && DocOk(CutItem(doc))
    decreases doc, 1
  {
    hide TextOk, CutText, Folded;
    match doc {
      case Leaf(text) =>
        CutTextOk(text);
        FoldedOk(CutText(text));
      case Block(_) => CutDocOk(doc);
    }
  }

  lemma FoldedOk(text: string)
    requires TextOk(text)
    ensures TextOk(Folded(text))
  {
    hide Divided, Trim, Encode;
    match Divided(text, ':', Outside) {
      case Some(h) =>
        assert text == h.before + [':'] + h.after;
        assert h.before != "" && h.before[0] == text[0];
        EncodeTrimmed("");
        TrimPrefix(h.before);
        Ends(Trim(h.before), ": ");
        Ends(Trim(h.before) + ": ", Encode(""));
        FoldedNoItem(Trim(h.before), text);
      case None =>
    }
  }

  lemma TrimPrefix(text: string)
    requires text != "" && !IsSpace(text[0])
    ensures Trim(text) != "" && Trim(text) <= text
  {
    FirstStays(text);
    assert TrimLeft(text) == text;
  }

  lemma FoldedNoItem(before: string, text: string)
    requires !IsItem(text) && before != "" && before <= text
    ensures !IsItem(before + ": " + Encode(""))
  {
    hide Encode;
    var folded := before + ": " + Encode("");
    assert folded[0] == before[0];
    assert folded[1] == if |before| > 1 then before[1] else ':';
  }

  /** Parsing the text of a printed document gives exactly what is read from its texts once they are cut. */
  lemma TextReads(doc: Doc)
    requires DocOk(doc) && !doc.Leaf?
    ensures ParseLines(Lines(ShowAll(Print(doc, 0)))) == Parsed(Read(CutDoc(doc)))
  {
    hide DocOk, Lines, ShowAll, Print, ParseLines, Read;
    DocText(doc, 0, []);
    NoLines([]);
    assert ShowAll(Print(doc, 0)) + [] == ShowAll(Print(doc, 0));
    assert Print(CutDoc(doc), 0) + [] == Print(CutDoc(doc), 0);
    CutDocOk(doc);
    LinesRead(CutDoc(doc));
  }
}
