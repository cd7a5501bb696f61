/** Flow lists, quoted tokens and block texts: how they are written, and what they are read as. */
module YamlFlow {
  import opened Json
  import opened Options
  import opened YamlBlocks
  import opened YamlParser
  import opened YamlScalars
  import opened YamlText

  // Flow lists

  function SpanAfter(text: string, span: Span): Span {
    if text == "" then span else SpanAfter(text[1..], NextSpan(span, text[0]))
  }

  /** No comma outside what the scan takes for quotes. */
  predicate NoComma(text: string, span: Span) {
    text == "" || (!(span.Outside? && text[0] == ',') && NoComma(text[1..], NextSpan(span, text[0])))
  }

  /** A text that stays in one piece: no comma outside quotes, and every quote closed again. */
  predicate OnePiece(text: string) {
    NoComma(text, Outside) && SpanAfter(text, Outside) == Outside
  }

  lemma {:induction false} PieceGathers(piece: string, span: Span, rest: string, buffer: string)
    requires NoComma(piece, span)
    ensures Parts(piece + rest, buffer, span) == Parts(rest, buffer + piece, SpanAfter(piece, span))
  {
    if piece == "" {
      assert piece + rest == rest && buffer + piece == buffer;
    } else {
      assert (piece + rest)[0] == piece[0] && (piece + rest)[1..] == piece[1..] + rest;
      PieceGathers(piece[1..], NextSpan(span, piece[0]), rest, buffer + [piece[0]]);
      assert buffer + [piece[0]] + piece[1..] == buffer + piece;
    }
  }

  /** Texts between commas, a blank after each comma. */
  function Listed(texts: seq<string>): string {
    if texts == [] then "" else if |texts| == 1 then texts[0] else texts[0] + ("," + (" " + Listed(texts[1..])))
  }

  lemma {:induction false} ListedParts(texts: seq<string>, buffer: string)
    requires texts != [] && forall t :: t in texts ==> t != "" && Trimmed(t) && OnePiece(t)
    requires forall i :: 0 <= i < |buffer| ==> buffer[i] == ' '
    ensures var parts := Parts(Listed(texts), buffer, Outside);
            |parts| == |texts| && forall i :: 0 <= i < |texts| ==> Trim(parts[i]) == texts[i]
  {
    hide Trim, Parts, NoComma, SpanAfter, Trimmed;
    var first := texts[0];
    assert first in texts;
    BlankBefore(buffer, first);
    if |texts| == 1 {
      PieceGathers(first, Outside, "", buffer);
      assert first + "" == first;
      LastPart(buffer + first);
    } else {
      var rest := Listed(texts[1..]);
      PieceGathers(first, Outside, "," + (" " + rest), buffer);
      CommaCuts(" " + rest, buffer + first);
      BlankKept(rest);
      assert forall t :: t in texts[1..] ==> t in texts;
      ListedParts(texts[1..], " ");
      var parts, more := Parts(Listed(texts), buffer, Outside), Parts(rest, " ", Outside);
      assert parts == [buffer + first] + more;
      forall i | 0 <= i < |texts|
        ensures Trim(parts[i]) == texts[i]
      {
        if i > 0 {
          assert parts[i] == more[i - 1] && texts[i] == texts[1..][i - 1];
        }
      }
    }
  }

  lemma {:induction false} BlankBefore(buffer: string, text: string)
    requires text != "" && Trimmed(text) && forall i :: 0 <= i < |buffer| ==> buffer[i] == ' '
    ensures Trim(buffer + text) == text
  {
    if buffer == "" {
      assert buffer + text == text;
      TrimmedStays(text);
    } else {
      assert (buffer + text)[0] == ' ' && (buffer + text)[1..] == buffer[1..] + text;
      BlankBefore(buffer[1..], text);
    }
  }

  lemma LastPart(buffer: string)
    requires Trim(buffer) != ""
    ensures Parts("", buffer, Outside) == [buffer]
  {
  }

  lemma CommaCuts(rest: string, buffer: string)
    ensures Parts("," + rest, buffer, Outside) == [buffer] + Parts(rest, "", Outside)
  {
    assert ("," + rest)[1..] == rest;
  }

  lemma BlankKept(rest: string)
    ensures Parts(" " + rest, "", Outside) == Parts(rest, " ", Outside)
  {
    assert (" " + rest)[1..] == rest && "" + [' '] == " ";
  }

  function Texts(items: seq<Value>): seq<string>
    requires forall v :: v in items ==> IsScalar(v)
  {
    seq(|items|, i requires 0 <= i < |items| => Text(items[i]))
  }

  /** A list of scalars on one line. */
  function FlowText(items: seq<Value>): string
    requires forall v :: v in items ==> IsScalar(v)
  {
    "[" + Listed(Texts(items)) + "]"
  }

  /** The scan for commas, which knows no escapes, leaves the string in one piece. */
  predicate InOnePiece(s: string) {
    OnePiece(Encode(s))
  }

  lemma {:induction false} NoQuotesNoComma(text: string)
    requires forall i :: 0 <= i < |text| ==> text[i] != ',' && !IsQuote(text[i])
    ensures OnePiece(text)
  {
    if text != "" {
      NoQuotesNoComma(text[1..]);
    }
  }

  lemma {:induction false} InsideStays(body: string)
    requires '"' !in body
    ensures NoComma(body + "\"", Inside('"')) && SpanAfter(body + "\"", Inside('"')) == Outside
  {
    var text := body + "\"";
    if body == "" {
      assert text[1..] == "";
    } else {
      assert text[0] == body[0] && text[1..] == body[1..] + "\"";
      InsideStays(body[1..]);
    }
  }

  lemma {:induction false} BodyHasNoQuote(s: string)
    requires '"' !in s
    ensures '"' !in EncodeBody(s)
  {
    if s != "" {
      BodyHasNoQuote(s[1..]);
      assert '"' !in EncodeChar(s[0]);
    }
  }

  /** A string without a double quote stays in one piece, commas or not. */
  lemma UnquotedInOnePiece(s: string)
    requires '"' !in s
    ensures InOnePiece(s)
  {
    BodyHasNoQuote(s);
    hide EncodeBody;
    InsideStays(EncodeBody(s));
    assert Encode(s)[0] == '"' && Encode(s)[1..] == EncodeBody(s) + "\"";
  }

  lemma PieceText(v: Value)
    requires IsScalar(v) && (v.Str? ==> InOnePiece(v.s))
    ensures Text(v) != "" && Trimmed(Text(v)) && OnePiece(Text(v))
  {
    hide NoComma, SpanAfter, Encode, Trimmed, Trim;
    TextTrimmed(v);
    if !v.Str? {
      WordNoComma(v);
      NoQuotesNoComma(Text(v));
    }
  }

  lemma WordNoComma(v: Value)
    requires IsScalar(v) && !v.Str?
    ensures forall i :: 0 <= i < |Text(v)| ==> Text(v)[i] != ',' && !IsQuote(Text(v)[i])
  {
    match v
    case Num(n) =>
      DigitsAreWords(if n < 0 then -n else n);
    case _ =>
  }

  lemma {:induction false} ListedTrimmed(texts: seq<string>)
    requires texts != [] && forall t :: t in texts ==> t != "" && Trimmed(t)
    ensures Listed(texts) != "" && Trimmed(Listed(texts))
  {
    hide Trimmed;
    assert texts[0] in texts;
    if |texts| > 1 {
      assert forall t :: t in texts[1..] ==> t in texts;
      ListedTrimmed(texts[1..]);
      ListedTrims(texts[0], Listed(texts[1..]));
    }
  }

  lemma ListedTrims(a: string, b: string)
    requires a != "" && b != "" && Trimmed(a) && Trimmed(b)
    ensures Trimmed(a + ("," + (" " + b))) && a + ("," + (" " + b)) != ""
  {
    hide IsSpace;
    Ends(" ", b);
    Ends(",", " " + b);
    Ends(a, "," + (" " + b));
  }

  lemma FlowTokens(token: string)
    requires |token| >= 2 && token[0] == '[' && token[|token| - 1] == ']'
    ensures Trim(token) == token && !IsQuoted(token) && IsFlowList(token)
  {
    hide Trim, IsQuoted, IsFlowList;
    BracketsTrimmed(token);
    hide Trimmed;
    TrimmedStays(token);
  }

  lemma Bracketed(inner: string, token: string)
    requires token == "[" + inner + "]"
    ensures |token| == |inner| + 2 && token[0] == '[' && token[|token| - 1] == ']' && token[1..|inner| + 1] == inner
  {
  }

  lemma BracketsTrimmed(token: string)
    requires |token| >= 2 && token[0] == '[' && token[|token| - 1] == ']'
    ensures Trimmed(token) && !IsQuoted(token) && IsFlowList(token)
  {
  }

  lemma SameScalar(text: string, other: string)
    requires Trim(text) == Trim(other)
    ensures ScalarValue(text) == ScalarValue(other)
  {
    hide Trim, PlainValue, QuotedValue;
  }

  /** A list of scalars written on one line is read back item by item, if no string is cut in pieces. */
  lemma FlowReads(items: seq<Value>)
    requires forall v :: v in items ==> IsScalar(v) && (v.Str? ==> InOnePiece(v.s))
    ensures ScalarValue(FlowText(items)) == List(items)
  {
    hide ScalarValue, Trim, Parts, Text, OnePiece, IsQuoted, InOnePiece, IsScalar, Trimmed;
    var token, texts := FlowText(items), Texts(items);
    var inner := Listed(texts);
    Bracketed(inner, token);
    FlowTokens(token);
    forall t | t in texts
      ensures t != "" && Trimmed(t) && OnePiece(t)
    {
      var i :| 0 <= i < |items| && t == Text(items[i]);
      PieceText(items[i]);
    }
    var parts := Parts(Trim(inner), "", Outside);
    if items == [] {
      NoPieces();
      assert texts == [];
    } else {
      ListedTrimmed(texts);
      TrimmedStays(inner);
      ListedParts(texts, "");
    }
    assert FlowPieces(token) == parts && |parts| == |items|;
    var value := ScalarValue(token);
    FlowUnfolds(token, value);
    forall i | 0 <= i < |items|
      ensures value.items[i] == items[i]
    {
      var v := items[i];
      FlowAt(token, i);
      TextTrims(v);
      SameScalar(parts[i], Text(v));
      ScalarReads(v);
    }
    assert value.items == items;
  }

  lemma TextTrims(v: Value)
    requires IsScalar(v)
    ensures Trim(Text(v)) == Text(v)
  {
    TextTrimmed(v);
    TrimmedStays(Text(v));
  }

  lemma FlowUnfolds(token: string, value: Value)
    requires Trim(token) == token && !IsQuoted(token) && IsFlowList(token) && value == ScalarValue(token)
    ensures value.List? && |value.items| == |FlowPieces(token)|
  {
    hide Trim, IsQuoted, FlowPieces, PlainValue, QuotedValue;
  }

  lemma FlowAt(token: string, i: nat)
    requires Trim(token) == token && !IsQuoted(token) && IsFlowList(token) && i < |FlowPieces(token)|
    requires ScalarValue(token).List? && |ScalarValue(token).items| == |FlowPieces(token)|
    ensures ScalarValue(token).items[i] == ScalarValue(FlowPieces(token)[i])
  {
    hide Trim, IsQuoted, FlowPieces, PlainValue, QuotedValue;
  }

  // Quoted tokens

  /** Between single quotes everything is taken as it stands. */
  lemma SingleQuotedReads(s: string)
    ensures ScalarValue("'" + s + "'") == Str(s)
  {
    hide Trim, Parts;
    var token := "'" + s + "'";
    assert token[0] == '\'' && token[|token| - 1] == '\'' && token[1..|token| - 1] == s;
    TrimmedStays(token);
  }

  /** So it is between double quotes, if it is not the body of a JSON string. */
  lemma BadEscapesStay(s: string)
    requires DecodeBody(s) == None
    ensures ScalarValue("\"" + s + "\"") == Str(s)
  {
    hide Trim, Parts, DecodeBody;
    var token := "\"" + s + "\"";
    assert token[0] == '"' && token[|token| - 1] == '"' && token[1..|token| - 1] == s;
    TrimmedStays(token);
  }

  // Block texts

  /** The pieces of a text between the marks. */
  function SplitAt(text: string, mark: char): (pieces: seq<string>)
    ensures pieces != []
  {
    if text == "" then [""]
    else
      var rest := SplitAt(text[1..], mark);
      if text[0] == mark then [""] + rest else [[text[0]] + rest[0]] + rest[1..]
  }

  function Replaced(text: string, old': char, new': char): string {
    seq(|text|, i requires 0 <= i < |text| => if text[i] == old' then new' else text[i])
  }

  lemma {:induction false} SplitFirst(first: string, mark: char, rest: string)
    requires mark !in first
    ensures SplitAt(first + ([mark] + rest), mark) == [first] + SplitAt(rest, mark)
    ensures SplitAt(first, mark) == [first]
  {
    if first == "" {
      assert first + ([mark] + rest) == [mark] + rest && ([mark] + rest)[1..] == rest;
    } else {
      assert (first + ([mark] + rest))[1..] == first[1..] + ([mark] + rest);
      SplitFirst(first[1..], mark, rest);
      assert [first[0]] + first[1..] == first;
    }
  }

  lemma {:induction false} TrimLacks(text: string, c: char)
    requires c !in text
    ensures c !in Trim(text)
  {
    var left := TrimLeft(text);
    assert TrimRight(left) <= left && left == text[|text| - |left|..];
  }

  function TrimmedLines(body: seq<string>): seq<string> {
    seq(|body|, i requires 0 <= i < |body| => Trim(body[i]))
  }

  /** Joined by line ends, the lines of a block are its lines trimmed, in order. */
  lemma {:induction false} LinesAreKept(body: seq<string>)
    requires body != [] && forall line :: line in body ==> '\n' !in line
    ensures SplitAt(Joined(body, "\n"), '\n') == TrimmedLines(body)
  {
    hide Trim;
    var first := Trim(body[0]);
    assert body[0] in body;
    TrimLacks(body[0], '\n');
    if |body| == 1 {
      SplitFirst(first, '\n', "");
    } else {
      var rest := Joined(body[1..], "\n");
      assert forall line :: line in body[1..] ==> line in body;
      LinesAreKept(body[1..]);
      SplitFirst(first, '\n', rest);
      assert Joined(body, "\n") == first + (['\n'] + rest);
      assert TrimmedLines(body) == [first] + TrimmedLines(body[1..]);
    }
  }

  /** Joined by blanks they are the same text with a blank for every line end. */
  lemma {:induction false} LinesAreFolded(body: seq<string>)
    requires forall line :: line in body ==> '\n' !in line
    ensures Joined(body, " ") == Replaced(Joined(body, "\n"), '\n', ' ')
  {
    hide Trim;
    if body != [] {
      var first := Trim(body[0]);
      assert body[0] in body;
      TrimLacks(body[0], '\n');
      if |body| > 1 {
        var rest := Joined(body[1..], "\n");
        assert forall line :: line in body[1..] ==> line in body;
        LinesAreFolded(body[1..]);
        ReplacedParts(first, rest);
        assert Joined(body, "\n") == first + "\n" + rest;
        assert Joined(body, " ") == first + " " + Joined(body[1..], " ");
      }
    }
  }

  lemma ReplacedParts(first: string, rest: string)
    requires '\n' !in first
    ensures Replaced(first + "\n" + rest, '\n', ' ') == first + " " + Replaced(rest, '\n', ' ')
  {
  }

  /** A block scalar opened by | keeps its line ends, one opened by > has blanks for them. */
  lemma BlockTextMeans(h: Halves, body: seq<string>)
    requires OpensBlock(Some(h)) && body != [] && forall line :: line in body ==> '\n' !in line
    ensures Trim(h.after) in {"|", "|-"} || Trim(h.after) in {">", ">-"}
    ensures exists text ::
              && SplitAt(text, '\n') == TrimmedLines(body)
              && BlockText(h, body)
                 == Trim(if Trim(h.after) in {"|", "|-"} then text else Replaced(text, '\n', ' '))
  {
    LinesAreKept(body);
    LinesAreFolded(body);
    GlueMeans(Trim(h.after));
    hide Trim, Joined, SplitAt, Glue;
  }

  lemma GlueMeans(style: string)
    requires style in BLOCK_STYLES
    ensures Glue(style) == if style in {"|", "|-"} then "\n" else " "
    ensures style in {"|", "|-"} || style in {">", ">-"}
  {
    assert style[0] in {'|', '>'};
    assert style[0] == '|' ==> style[..1] == "|";
  }
}
