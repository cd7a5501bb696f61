/** Block scalars: folded into one line before parsing, and read back whole. */
module YamlBlocks {
  import opened Json
  import opened Options
  import opened YamlParser
  import opened YamlRoundTrip
  import opened YamlScalars
  import opened YamlText
  import opened YamlTextTrip

  // Where the key ends

  /** The first separator stays the first, whatever follows it. */
  lemma {:induction false} SameDivision(text: string, separator: char, span: Span, rest: string)
    requires Divided(text, separator, span).Some?
    ensures var before := Divided(text, separator, span).value.before;
            Divided(before + [separator] + rest, separator, span) == Some(Halves(before, rest))
  {
    var before := Divided(text, separator, span).value.before;
    var again := before + [separator] + rest;
    if span.Outside? && !IsQuote(text[0]) && text[0] == separator {
      assert again[0] == separator && again[1..] == rest;
    } else {
      SameDivision(text[1..], separator, NextSpan(span, text[0]), rest);
      var shorter := Divided(text[1..], separator, NextSpan(span, text[0])).value.before;
      assert before == [text[0]] + shorter;
      assert again[0] == text[0] && again[1..] == shorter + [separator] + rest;
    }
  }

  /** Dropping a blank before the separator does not move it. */
  lemma {:induction false} DropBlank(before: string, separator: char, span: Span, rest: string)
    requires before != "" && IsSpace(before[|before| - 1]) && !IsSpace(separator)
             && (span.Inside? ==> IsQuote(span.quote))
    requires Divided(before + [separator] + rest, separator, span) == Some(Halves(before, rest))
    ensures Divided(before[..|before| - 1] + [separator] + rest, separator, span)
            == Some(Halves(before[..|before| - 1], rest))
  {
    hide IsSpace, IsQuote;
    SpaceIsPlain(before[|before| - 1]);
    var text, init := before + [separator] + rest, before[..|before| - 1];
    var shorter := init + [separator] + rest;
    assert text[0] == before[0] && text[1..] == before[1..] + [separator] + rest;
    if |before| == 1 {
      assert before[1..] == "" && init == "";
      assert before[1..] + [separator] + rest == shorter;
      assert NextSpan(span, before[0]) == span;
    } else {
      assert shorter[0] == before[0] && shorter[1..] == init[1..] + [separator] + rest;
      assert before[1..][..|before| - 2] == init[1..];
      assert Divided(text[1..], separator, NextSpan(span, before[0])) == Some(Halves(before[1..], rest)) by {
        var tail := Divided(text[1..], separator, NextSpan(span, before[0]));
        assert tail.Some? && ([before[0]] + tail.value.before)[1..] == tail.value.before;
      }
      DropBlank(before[1..], separator, NextSpan(span, before[0]), rest);
      assert [before[0]] + init[1..] == init;
    }
  }

  lemma {:induction false} TrimmedDivision(before: string, separator: char, span: Span, rest: string)
    requires !IsSpace(separator) && (span.Inside? ==> IsQuote(span.quote))
    requires Divided(before + [separator] + rest, separator, span) == Some(Halves(before, rest))
    ensures Divided(TrimRight(before) + [separator] + rest, separator, span) == Some(Halves(TrimRight(before), rest))
    decreases |before|
  {
    hide Divided;
    if before != "" && IsSpace(before[|before| - 1]) {
      DropBlank(before, separator, span, rest);
      TrimmedDivision(before[..|before| - 1], separator, span, rest);
    }
  }

  lemma BeforeLeads(text: string, h: Halves)
    requires Trimmed(text) && Divided(text, ':', Outside) == Some(h)
    ensures Trim(h.before) == TrimRight(h.before)
  {
  }

  lemma EncodedScalar(s: string)
    ensures ScalarValue(Encode(s)) == Str(s)
  {
    hide Encode, Trim, Trimmed, IsQuoted, QuotedValue;
    EncodeTrimmed(s);
    TrimmedStays(Encode(s));
    StringReads(s);
    QuotedReads(Encode(s));
  }

  /** A block scalar survives the line-based parser: whatever its text, quotes and colons included, the
      key is assigned its lines, trimmed and joined. */
  lemma BlockScalarSurvives(stripped: string, h: Halves, body: seq<string>, indent: nat, rest: seq<Line>,
                            result: seq<Field>)
    requires Trimmed(stripped) && Divided(stripped, ':', Outside) == Some(h) && OpensBlock(Some(h))
    requires !IsItem(BlockLine(indent, h, body).content)
    ensures ParseMap([BlockLine(indent, h, body)] + rest, indent, result)
         == ParseMap(rest, indent, Put(result, Trim(h.before), Str(Trim(Joined(body, Glue(Trim(h.after)))))))
  {
    hide Divided, Trim, ParseMap, Encode, Trimmed, ScalarValue, Put, Joined, Glue, OpensBlock, TrimRight, IsItem;
    var text := Trim(Joined(body, Glue(Trim(h.after))));
    var lines := [BlockLine(indent, h, body)] + rest;
    var key, after := Trim(h.before), " " + Encode(text);
    SameDivision(stripped, ':', Outside, after);
    TrimmedDivision(h.before, ':', Outside, after);
    BeforeLeads(stripped, h);
    assert key + ": " + Encode(text) == key + [':'] + after;
    TrimExactly(h.before);
    TrimmedStays(key);
    EncodeTrimmed(text);
    LeadingBlank(Encode(text));
    EncodedScalar(text);
    assert lines[1..] == rest;
    MapStep(lines, indent, result);
  }

  // Behind a dash

  /** The key of a block scalar opened behind a dash. */
  function DashKey(h: Halves): string
    requires |Trim(h.before)| >= 2
  {
    TrimLeft(Trim(h.before)[2..])
  }

  function BlockText(h: Halves, body: seq<string>): string {
    Trim(Joined(body, Glue(Trim(h.after))))
  }

  lemma BlockContent(indent: nat, h: Halves, body: seq<string>)
    ensures BlockLine(indent, h, body) == Line(indent, Trim(h.before) + ": " + Encode(BlockText(h, body)))
  {
  }

  lemma SpaceIsPlain(c: char)
    ensures IsSpace(c) ==> c != ':' && !IsQuote(c)
  {
  }

  lemma {:induction false} LeadingDivision(text: string)
    ensures Divided(TrimLeft(text), ':', Outside) == match Divided(text, ':', Outside)
                                                     case Some(h) => Some(Halves(TrimLeft(h.before), h.after))
                                                     case None => None
  {
    hide IsSpace, IsQuote;
    if text != "" {
      SpaceIsPlain(text[0]);
      if IsSpace(text[0]) {
        LeadingDivision(text[1..]);
        LeftSkips(text[0], Divided(text[1..], ':', Outside));
      } else {
        FirstLeads(text, Divided(text, ':', Outside));
      }
    }
  }

  lemma LeftSkips(c: char, halves: Option<Halves>)
    requires IsSpace(c)
    ensures halves.Some? ==> TrimLeft([c] + halves.value.before) == TrimLeft(halves.value.before)
  {
    assert halves.Some? ==> ([c] + halves.value.before)[1..] == halves.value.before;
  }

  lemma FirstLeads(text: string, halves: Option<Halves>)
    requires text != "" && !IsSpace(text[0])
             && (halves.Some? ==> text == halves.value.before + [':'] + halves.value.after)
    ensures halves.Some? ==> TrimLeft(halves.value.before) == halves.value.before
  {
    hide IsSpace;
    assert halves.Some? && halves.value.before != "" ==> halves.value.before[0] == text[0];
  }

  /** A trimmed prefix that starts a list item has a key behind its dash. */
  lemma DashSplits(before: string, after: string)
    requires Trimmed(before) && IsItem(before + ": " + after)
    ensures |before| >= 3 && before == "- " + before[2..] && TrimLeft(before[2..]) != ""
            && Trimmed(TrimLeft(before[2..]))
  {
    hide IsSpace;
    ShortIsNoItem(before, after);
    BlankIsSpace();
    var content := before + ": " + after;
    assert content[0] == before[0] && content[1] == before[1];
    assert before[|before| - 1] != ' ';
    LeftKeepsLast(before[2..]);
  }

  lemma ShortIsNoItem(before: string, after: string)
    ensures |before| <= 1 ==> !IsItem(before + ": " + after)
  {
    var content := before + ": " + after;
    assert before == "" ==> content[0] == ':';
    assert |before| == 1 ==> content[1] == ':';
  }

  lemma BlankIsSpace()
    ensures IsSpace(' ') && !IsSpace(':')
  {
  }

  lemma {:induction false} LeftKeepsLast(x: string)
    requires x != "" && !IsSpace(x[|x| - 1])
    ensures TrimLeft(x) != "" && Trimmed(TrimLeft(x))
  {
    hide IsSpace;
    if IsSpace(x[0]) {
      LeftKeepsLast(x[1..]);
    }
  }

  lemma {:induction false} LeftOfConcat(x: string, y: string)
    requires TrimLeft(x) != ""
    ensures TrimLeft(x + y) == TrimLeft(x) + y
  {
    hide IsSpace;
    assert x != "" && (x + y)[0] == x[0];
    if IsSpace(x[0]) {
      assert (x + y)[1..] == x[1..] + y;
      LeftOfConcat(x[1..], y);
    }
  }

  lemma Undashed(x: string, after: string)
    requires Divided("- " + x + [':'] + after, ':', Outside) == Some(Halves("- " + x, after))
    ensures Divided(x + [':'] + after, ':', Outside) == Some(Halves(x, after))
  {
    hide Divided;
    var y := x + [':'] + after;
    assert "- " + x + [':'] + after == "- " + y;
    DividedPast(y);
    match Divided(y, ':', Outside)
    case Some(h) => assert ("- " + h.before)[2..] == h.before && ("- " + x)[2..] == x;
    case None =>
  }

  /** The text behind the dash of a folded block scalar, and where its key ends. */
  lemma DashText(before: string, code: string)
    requires Trimmed(before) && IsItem(before + ": " + code) && code != "" && Trimmed(code)
    requires Divided(before + [':'] + (" " + code), ':', Outside) == Some(Halves(before, " " + code))
    ensures |before| >= 3 && TrimLeft(before[2..]) != "" && Trimmed(TrimLeft(before[2..]))
    ensures var key := TrimLeft(before[2..]);
            Trim((before + ": " + code)[2..]) == key + ": " + code
            && Divided(key + ": " + code, ':', Outside) == Some(Halves(key, " " + code))
  {
    hide Divided, Trimmed, TrimLeft, IsSpace, IsItem;
    DashSplits(before, code);
    var x, after := before[2..], " " + code;
    var y, key := x + [':'] + after, TrimLeft(x);
    DashShuffles(x, code);
    Undashed(x, after);
    LeadingDivision(y);
    KeyShuffles(x, code);
    KeyShuffles(key, code);
    LeftOfConcat(x, [':'] + after);
    RightStays(key + ": ", code);
  }

  lemma DashShuffles(x: string, code: string)
    ensures "- " + x + [':'] + (" " + code) == ("- " + x) + [':'] + (" " + code)
    ensures (("- " + x) + ": " + code)[2..] == x + [':'] + (" " + code)
  {
  }

  lemma KeyShuffles(key: string, code: string)
    ensures key + ([':'] + (" " + code)) == key + [':'] + (" " + code) == key + ": " + code
  {
  }

  lemma RightStays(prefix: string, code: string)
    requires code != "" && Trimmed(code)
    ensures TrimRight(prefix + code) == prefix + code
  {
    assert (prefix + code)[|prefix + code| - 1] == code[|code| - 1];
  }

  /** A block scalar opened behind a dash: the item is a mapping whose first key is assigned the text,
      whatever it holds, and whose other keys are the lines below. Only a key behind the dash that looks
      like a list item itself, or like a flow list, spoils it. */
  lemma BlockItemSurvives(stripped: string, h: Halves, body: seq<string>, indent: nat, rest: seq<Line>)
    requires Trimmed(stripped) && Divided(stripped, ':', Outside) == Some(h) && OpensBlock(Some(h))
    requires IsItem(BlockLine(indent, h, body).content)
    ensures |Trim(h.before)| >= 2
    ensures var key, text, n := DashKey(h), BlockText(h, body), Deeper(rest, indent + 2);
            ParseSeq([BlockLine(indent, h, body)] + rest, indent)
            == if "[" <= key then Prepend([ScalarValue(key + ": " + Encode(text))], ParseSeq(rest, indent))
               else if IsItem(key + ": " + Encode(text)) then Failed(BadListItem(key + ": " + Encode(text)))
               else match ParseMap(rest[..n], indent + 2, [Field(key, Str(text))])
                    case Failed(e) => Failed(e)
                    case Done(fields, left) =>
                      if left != [] then Failed(BadListItem(key + ": " + Encode(text)))
                      else Prepend([Dict(fields)], ParseSeq(rest[n..], indent))
  {
    hide Divided, Trim, ParseMap, Encode, Trimmed, ScalarValue, Joined, Glue, OpensBlock, TrimRight, TrimLeft, IsItem,
         BlockText, Prepend, ParseSeq;
    BlockDashed(stripped, h, body, indent);
    var key, text := DashKey(h), BlockText(h, body);
    var inner := key + ": " + Encode(text);
    var lines := [BlockLine(indent, h, body)] + rest;
    assert lines[1..] == rest;
    KeyLeads(key, ": " + Encode(text));
    assert key + (": " + Encode(text)) == inner;
    PrependNothing(ParseSeq(lines, indent));
    if "[" <= key {
      SeqScalar([], lines, indent);
      assert [] + [ScalarValue(inner)] == [ScalarValue(inner)];
    } else {
      SeqMapping([], lines, indent);
      var n := Deeper(rest, indent + 2);
      assert ItemLines(lines, indent) == [Line(indent + 2, inner)] + rest[..n];
      assert AfterItem(lines, indent) == rest[n..];
      DashedMap(key, text, indent + 2, rest[..n]);
      WrapsOne(ParseMap(rest[..n], indent + 2, [Field(key, Str(text))]));
    }
  }

  lemma WrapsOne(step: Step<seq<Field>>)
    ensures step.Done? ==> [] + [Dict(step.value)] == [Dict(step.value)]
  {
  }

  lemma KeyLeads(key: string, after: string)
    requires key != ""
    ensures "[" <= key + after <==> "[" <= key
  {
  }

  lemma BlockDashed(stripped: string, h: Halves, body: seq<string>, indent: nat)
    requires Trimmed(stripped) && Divided(stripped, ':', Outside) == Some(h)
    requires IsItem(BlockLine(indent, h, body).content)
    ensures |Trim(h.before)| >= 2 && DashKey(h) != "" && Trimmed(DashKey(h))
    ensures var line, inner := BlockLine(indent, h, body), DashKey(h) + ": " + Encode(BlockText(h, body));
            line.indent == indent && Trim(line.content[2..]) == inner
            && Divided(inner, ':', Outside) == Some(Halves(DashKey(h), " " + Encode(BlockText(h, body))))
  {
    hide Divided, Trim, Encode, Trimmed, TrimRight, TrimLeft, IsItem, BlockText, BlockLine;
    BlockContent(indent, h, body);
    var before, code := Trim(h.before), Encode(BlockText(h, body));
    BlankIsSpace();
    SameDivision(stripped, ':', Outside, " " + code);
    TrimmedDivision(h.before, ':', Outside, " " + code);
    BeforeLeads(stripped, h);
    TrimExactly(h.before);
    EncodeTrimmed(BlockText(h, body));
    DashText(before, code);
  }

  /** The mapping behind the dash starts with the folded line. */
  lemma DashedMap(key: string, text: string, column: nat, more: seq<Line>)
    requires Trimmed(key)
    requires Divided(key + ": " + Encode(text), ':', Outside) == Some(Halves(key, " " + Encode(text)))
    ensures ParseMap([Line(column, key + ": " + Encode(text))] + more, column, [])
         == if IsItem(key + ": " + Encode(text)) then Done([], [Line(column, key + ": " + Encode(text))] + more)
            else ParseMap(more, column, [Field(key, Str(text))])
  {
    hide Divided, Trim, ParseMap, Encode, Trimmed, ScalarValue, IsItem;
    var lines := [Line(column, key + ": " + Encode(text))] + more;
    assert lines[1..] == more;
    TrimmedStays(key);
    EncodeTrimmed(text);
    LeadingBlank(Encode(text));
    EncodedScalar(text);
    assert Put([], key, Str(text)) == [Field(key, Str(text))];
    MapStep(lines, column, []);
  }

  // Lines that open, continue or leave a block

  /** A key opens a block if one of the four styles follows it. */
  lemma OpensBlockMeans(head: Option<Halves>)
    ensures OpensBlock(head) <==> head.Some? && Trim(head.value.after) in {"|", ">", "|-", ">-"}
  {
  }

  lemma {:induction false} IndentMeans(line: string, n: nat)
    ensures Indent(line) > n <==> |line| > n && forall i :: 0 <= i <= n ==> line[i] == ' '
    decreases n
  {
    if line != "" && line[0] == ' ' && n > 0 {
      IndentMeans(line[1..], n - 1);
      assert forall i :: 0 < i < |line| ==> line[i] == line[1..][i - 1];
    }
  }

  /** A line goes on with a block exactly if it is blank or starts with more blanks than the line of the key. */
  lemma InBodyMeans(line: string, n: nat)
    ensures InBody(line, n) <==> Trim(line) == "" || (|line| > n && forall i :: 0 <= i <= n ==> line[i] == ' ')
  {
    IndentMeans(line, n);
  }

  /** A raw line on its own: nothing if it is blank or a comment, one line if it opens no block. */
  function OneLine(raw: string): seq<Line> {
    var content := Uncommented(raw, Outside, None);
    if Trim(content) == "" then [] else [Line(Indent(content), Trim(content))]
  }

  predicate Opens(raw: string) {
    OpensBlock(Divided(Trim(Uncommented(raw, Outside, None)), ':', Outside))
  }

  lemma LineStep(raw: seq<string>)
    requires raw != [] && !Opens(raw[0])
    ensures Lines(raw) == OneLine(raw[0]) + Lines(raw[1..])
  {
    hide Lines, Uncommented, Trim, Divided, Indent, OpensBlock;
    LinesStep(raw);
    assert [] + Lines(raw[1..]) == Lines(raw[1..]);
  }

  /** Without blocks the first pass goes line by line, so blank lines and comments may stand anywhere. */
  lemma {:induction false} LineByLine(before: seq<string>, raw: seq<string>)
    requires forall r :: r in before ==> !Opens(r)
    ensures Lines(before + raw) == Lines(before) + Lines(raw)
    ensures |before| == 1 ==> Lines(before) == OneLine(before[0])
  {
    hide Lines, OneLine, Opens;
    if before == [] {
      NoLines(before);
      assert before + raw == raw && [] + Lines(raw) == Lines(raw);
    } else {
      var rest := before[1..];
      assert (before + raw)[0] == before[0] && (before + raw)[1..] == rest + raw;
      assert before[0] in before && forall r :: r in rest ==> r in before;
      LineByLine(rest, raw);
      LineStep(before);
      LineStep(before + raw);
      NoLines([]);
      assert OneLine(before[0]) + [] == OneLine(before[0]);
      Assoc(OneLine(before[0]), Lines(rest), Lines(raw));
    }
  }

  lemma BlankLineVanishes(before: seq<string>, blank: string, raw: seq<string>)
    requires (forall r :: r in before ==> !Opens(r)) && Trim(Uncommented(blank, Outside, None)) == ""
    ensures Lines(before + ([blank] + raw)) == Lines(before + raw)
  {
    hide Lines, Uncommented, Trim, Opens, Divided;
    LineByLine(before, raw);
    LineByLine(before, [blank] + raw);
    LinesStep([blank] + raw);
    assert ([blank] + raw)[1..] == raw;
  }

  // Whole documents

  /** The lines below a key that opens a block scalar, up to the first that comes back out, become its text,
      quotes, colons and comment marks included. */
  lemma BlockLines(raw: string, body: seq<string>, more: seq<string>)
    requires var content := Uncommented(raw, Outside, None);
             Trim(content) != "" && OpensBlock(Divided(Trim(content), ':', Outside))
             && (forall line :: line in body ==> InBody(line, Indent(content)))
             && (more == [] || !InBody(more[0], Indent(content)))
    ensures var content := Uncommented(raw, Outside, None);
            Lines([raw] + body + more)
                  == [BlockLine(Indent(content), Divided(Trim(content), ':', Outside).value, body)] + Lines(more)
  {
    hide Uncommented, Trim, Divided, Indent, BlockLine, InBody, Lines, OpensBlock;
    var content := Uncommented(raw, Outside, None);
    var all := [raw] + body + more;
    assert all[0] == raw && all[1..] == body + more;
    BodyCounts(body, more, Indent(content));
    assert (body + more)[..|body|] == body && (body + more)[|body|..] == more;
    LinesStep(all);
  }

  lemma {:induction false} BodyCounts(body: seq<string>, more: seq<string>, indent: nat)
    requires (forall line :: line in body ==> InBody(line, indent)) && (more == [] || !InBody(more[0], indent))
    ensures BodyLength(body + more, indent) == |body|
  {
    hide InBody;
    if body == [] {
      assert body + more == more;
    } else {
      assert (body + more)[0] == body[0] && (body + more)[1..] == body[1..] + more;
      BodyCounts(body[1..], more, indent);
    }
  }

  /** What a list of one block scalar parses to. */
  function OneItemOutcome(key: string, text: string): Outcome {
    var inner := key + ": " + Encode(text);
    if "[" <= key then Parsed(List([ScalarValue(inner)]))
    else if IsItem(inner) then Rejected(BadListItem(inner))
    else Parsed(List([Dict([Field(key, Str(text))])]))
  }

  /** A document that is one block scalar: the mapping of its key to its text, or a list of that mapping if
      the key stands behind a dash. */
  lemma BlockDocument(raw: string, body: seq<string>)
    requires var content := Uncommented(raw, Outside, None);
             Trim(content) != "" && OpensBlock(Divided(Trim(content), ':', Outside))
             && forall line :: line in body ==> InBody(line, Indent(content))
    ensures var h := Divided(Trim(Uncommented(raw, Outside, None)), ':', Outside).value;
            var before, text, outcome := Trim(h.before), BlockText(h, body), ParseLines(Lines([raw] + body));
            if !IsItem(before + ": " + Encode(text)) then outcome == Parsed(Dict([Field(before, Str(text))]))
            else |before| >= 2 && outcome == OneItemOutcome(DashKey(h), text)
  {
    hide Uncommented, Trim, Divided, Indent, InBody, Lines, OpensBlock, Encode, Trimmed, BlockText, IsItem, ParseMap,
         ParseSeq, DashKey;
    var content := Uncommented(raw, Outside, None);
    var stripped := Trim(content);
    BlockHasHead(Divided(stripped, ':', Outside));
    var h := Divided(stripped, ':', Outside).value;
    var line := BlockLine(Indent(content), h, body);
    TrimExactly(content);
    BlockContent(Indent(content), h, body);
    OneBlock(raw, body);
    if IsItem(line.content) {
      BlockDashed(stripped, h, body, Indent(content));
      OneBlockItem(stripped, h, body, Indent(content));
    } else {
      OneBlockField(stripped, h, body, Indent(content));
    }
  }

  lemma OneBlock(raw: string, body: seq<string>)
    requires var content := Uncommented(raw, Outside, None);
             Trim(content) != "" && OpensBlock(Divided(Trim(content), ':', Outside))
             && forall line :: line in body ==> InBody(line, Indent(content))
    ensures var content := Uncommented(raw, Outside, None);
            Lines([raw] + body) == [BlockLine(Indent(content), Divided(Trim(content), ':', Outside).value, body)]
  {
    hide Uncommented, Trim, Divided, Indent, BlockLine, InBody, Lines, OpensBlock;
    BlockLines(raw, body, []);
    NoLines([]);
    assert [raw] + body + [] == [raw] + body;
  }

  lemma OneBlockField(stripped: string, h: Halves, body: seq<string>, indent: nat)
    requires Trimmed(stripped) && Divided(stripped, ':', Outside) == Some(h) && OpensBlock(Some(h))
    requires !IsItem(BlockLine(indent, h, body).content)
    ensures ParseLines([BlockLine(indent, h, body)]) == Parsed(Dict([Field(Trim(h.before), Str(BlockText(h, body)))]))
  {
    hide Divided, Trim, ParseMap, ParseSeq, Encode, Trimmed, Joined, Glue, OpensBlock, IsItem, TrimRight;
    var key, text := Trim(h.before), BlockText(h, body);
    var line := BlockLine(indent, h, body);
    BlockScalarSurvives(stripped, h, body, indent, [], []);
    assert [line] + [] == [line] && Put([], key, Str(text)) == [Field(key, Str(text))];
    MapEnds([], indent, [Field(key, Str(text))]);
  }

  lemma OneBlockItem(stripped: string, h: Halves, body: seq<string>, indent: nat)
    requires Trimmed(stripped) && Divided(stripped, ':', Outside) == Some(h) && OpensBlock(Some(h))
    requires IsItem(BlockLine(indent, h, body).content) && |Trim(h.before)| >= 2
    ensures ParseLines([BlockLine(indent, h, body)]) == OneItemOutcome(DashKey(h), BlockText(h, body))
  {
    hide Divided, Trim, ParseMap, ParseSeq, Encode, Trimmed, Joined, Glue, OpensBlock, IsItem, TrimRight, BlockText,
         DashKey;
    var line, fields := BlockLine(indent, h, body), [Field(DashKey(h), Str(BlockText(h, body)))];
    BlockItemSurvives(stripped, h, body, indent, []);
    assert [line] + [] == [line];
    assert Deeper([], indent + 2) == 0;
    MapEnds([], indent + 2, fields);
    SeqEnds([Dict(fields)], [], indent);
    SeqEnds([ScalarValue(DashKey(h) + ": " + Encode(BlockText(h, body)))], [], indent);
  }
}
