/** The characters of a task definition: comments, quotes, scalars, and the JSON strings inside them. */
module YamlText {
  import opened Digits
  import opened Json
  import opened Options

  /** What Python's strip removes. */
  predicate IsSpace(c: char) {
    var n := c as int;
    || 9 <= n <= 13 || 28 <= n <= 32 || n == 0x85 || n == 0xA0 || n == 0x1680 || 0x2000 <= n <= 0x200A
    || n == 0x2028 || n == 0x2029 || n == 0x202F || n == 0x205F || n == 0x3000
  }

  function TrimLeft(s: string): (r: string)
    ensures |r| <= |s| && r == s[|s| - |r|..]
  {
    if s != "" && IsSpace(s[0]) then TrimLeft(s[1..]) else s
  }

  function TrimRight(s: string): (r: string)
    ensures r <= s
  {
    if s != "" && IsSpace(s[|s| - 1]) then TrimRight(s[..|s| - 1]) else s
  }

  function Trim(s: string): (r: string)
    ensures |r| <= |s|
  {
    TrimRight(TrimLeft(s))
  }

  /** No whitespace at either end. */
  predicate Trimmed(s: string) {
    s == "" || (!IsSpace(s[0]) && !IsSpace(s[|s| - 1]))
  }

  lemma {:induction false} TrimLeftLeads(s: string)
    ensures TrimLeft(s) == "" || !IsSpace(TrimLeft(s)[0])
  {
    if s != "" && IsSpace(s[0]) {
      TrimLeftLeads(s[1..]);
    }
  }

  lemma {:induction false} TrimRightEnds(s: string)
    ensures TrimRight(s) == "" || !IsSpace(TrimRight(s)[|TrimRight(s)| - 1])
  {
    if s != "" && IsSpace(s[|s| - 1]) {
      TrimRightEnds(s[..|s| - 1]);
    }
  }

  /** Trimming leaves exactly the trimmed strings alone, and makes every string one. */
  lemma TrimExactly(s: string)
    ensures Trimmed(Trim(s)) && (Trim(s) == s <==> Trimmed(s))
  {
    TrimLeftLeads(s);
    TrimRightEnds(TrimLeft(s));
  }

  predicate IsQuote(c: char) {
    c == '\'' || c == '"'
  }

  // Comments

  /** Where a scan is: outside quotes, or inside a span opened by this quote. */
  datatype Span = Outside | Inside(quote: char)

  function NextSpan(span: Span, c: char): Span {
    match span
    case Inside(quote) => if c == quote then Outside else span
    case Outside => if IsQuote(c) then Inside(c) else Outside
  }

  /** Where the scan of a text is before its k-th character. */
  function SpanAt(text: string, k: nat): Span
    requires k <= |text|
  {
    if k == 0 then Outside else NextSpan(SpanAt(text, k - 1), text[k - 1])
  }

  /** A comment starts at a # outside quotes, at the start or after a blank. */
  predicate StartsComment(span: Span, previous: Option<char>, c: char) {
    span.Outside? && c == '#' && (previous.None? || previous.value == ' ' || previous.value == '\t')
  }

  function PreviousAt(text: string, k: nat): Option<char>
    requires k <= |text|
  {
    if k == 0 then None else Some(text[k - 1])
  }

  predicate CommentAt(line: string, k: nat)
    requires k < |line|
  {
    StartsComment(SpanAt(line, k), PreviousAt(line, k), line[k])
  }

  /** The line up to its first comment mark. */
  predicate IsCut(line: string, out: string) {
    && out <= line
    && (forall k :: 0 <= k < |out| ==> !CommentAt(line, k))
    && (|out| < |line| ==> CommentAt(line, |out|))
  }

  function Uncommented(line: string, span: Span, previous: Option<char>): string {
    if line == "" || StartsComment(span, previous, line[0]) then ""
    else [line[0]] + Uncommented(line[1..], NextSpan(span, line[0]), Some(line[0]))
  }

  lemma {:induction false} CutFrom(line: string, out: string, i: nat)
    requires IsCut(line, out) && i <= |out|
    ensures Uncommented(line[i..], SpanAt(line, i), PreviousAt(line, i)) == out[i..]
    decreases |out| - i
  {
    hide StartsComment;
    if i < |out| {
      assert line[i..][0] == out[i] && line[i..][1..] == line[i + 1..];
      assert !CommentAt(line, i);
      CutFrom(line, out, i + 1);
      assert out[i..] == [out[i]] + out[i + 1..];
    }
  }

  /** The recursive reading of a line is its cut, and there is only one. */
  lemma CutIsUncommented(line: string, out: string)
    requires IsCut(line, out)
    ensures out == Uncommented(line, Outside, None)
  {
    CutFrom(line, out, 0);
    assert line[0..] == line && out[0..] == out;
  }

  method StripComment(line: string) returns (out: string)
    ensures IsCut(line, out) && out == Uncommented(line, Outside, None)
  {
    hide StartsComment, NextSpan;
    out := "";
    var span := Outside;
    var previous: Option<char> := None;
    for i := 0 to |line|
      invariant out == line[..i] && span == SpanAt(line, i) && previous == PreviousAt(line, i)
      invariant forall k :: 0 <= k < i ==> !CommentAt(line, k)
    {
      var c := line[i];
      if StartsComment(span, previous, c) {
        CutIsUncommented(line, out);
        return;
      }
      out := out + [c];
      span := NextSpan(span, c);
      previous := Some(c);
    }
    CutIsUncommented(line, out);
  }

  // Separators

  datatype Halves = Halves(before: string, after: string)

  /** A separator outside quotes. */
  predicate SeparatorAt(text: string, separator: char, k: nat)
    requires k < |text|
  {
    SpanAt(text, k).Outside? && !IsQuote(text[k]) && text[k] == separator
  }

  /** The two sides of the first separator outside quotes, if there is one. */
  predicate IsDivision(text: string, separator: char, halves: Option<Halves>) {
    match halves
    case None => forall k :: 0 <= k < |text| ==> !SeparatorAt(text, separator, k)
    case Some(h) =>
      && text == h.before + [separator] + h.after
      && SeparatorAt(text, separator, |h.before|)
      && forall k :: 0 <= k < |h.before| ==> !SeparatorAt(text, separator, k)
  }

  function Divided(text: string, separator: char, span: Span): (r: Option<Halves>)
    ensures r.Some? ==> text == r.value.before + [separator] + r.value.after
  {
    if text == "" then None
    else if span.Outside? && !IsQuote(text[0]) && text[0] == separator then Some(Halves("", text[1..]))
    else
      match Divided(text[1..], separator, NextSpan(span, text[0]))
      case Some(h) => Some(Halves([text[0]] + h.before, h.after))
      case None => None
  }

  lemma {:induction false} NoDivision(text: string, separator: char, i: nat)
    requires i <= |text| && forall k :: i <= k < |text| ==> !SeparatorAt(text, separator, k)
    ensures Divided(text[i..], separator, SpanAt(text, i)) == None
    decreases |text| - i
  {
    if i < |text| {
      assert text[i..][0] == text[i] && text[i..][1..] == text[i + 1..];
      assert !SeparatorAt(text, separator, i);
      NoDivision(text, separator, i + 1);
    }
  }

  lemma {:induction false} DivisionFrom(text: string, separator: char, i: nat, at: nat)
    requires i <= at < |text| && SeparatorAt(text, separator, at)
    requires forall k :: i <= k < at ==> !SeparatorAt(text, separator, k)
    ensures Divided(text[i..], separator, SpanAt(text, i)) == Some(Halves(text[i..at], text[at + 1..]))
    decreases at - i
  {
    assert text[i..][0] == text[i] && text[i..][1..] == text[i + 1..];
    if i == at {
      assert text[i..at] == "";
    } else {
      assert !SeparatorAt(text, separator, i);
      DivisionFrom(text, separator, i + 1, at);
      assert text[i..at] == [text[i]] + text[i + 1..at];
    }
  }

  /** The recursive reading of a text is its division, and there is only one. */
  lemma DivisionIsDivided(text: string, separator: char, halves: Option<Halves>)
    requires IsDivision(text, separator, halves)
    ensures halves == Divided(text, separator, Outside)
  {
    assert text[0..] == text;
    match halves
    case None => NoDivision(text, separator, 0);
    case Some(h) =>
      DivisionFrom(text, separator, 0, |h.before|);
      assert text[..|h.before|] == h.before && text[|h.before| + 1..] == h.after;
  }

  method SplitUnquoted(text: string, separator: char) returns (halves: Option<Halves>)
    ensures IsDivision(text, separator, halves) && halves == Divided(text, separator, Outside)
  {
    hide NextSpan, Divided;
    var span := Outside;
    for i := 0 to |text|
      invariant span == SpanAt(text, i)
      invariant forall k :: 0 <= k < i ==> !SeparatorAt(text, separator, k)
    {
      var c := text[i];
      if span.Outside? && !IsQuote(c) && c == separator {
        halves := Some(Halves(text[..i], text[i + 1..]));
        DivisionIsDivided(text, separator, halves);
        return;
      }
      span := NextSpan(span, c);
    }
    DivisionIsDivided(text, separator, None);
    return None;
  }

  // JSON strings

  function HexDigit(n: nat): char
    requires n < 16
  {
    if n < 10 then ('0' as int + n) as char else ('a' as int + n - 10) as char
  }

  function HexValue(c: char): Option<nat> {
    if '0' <= c <= '9' then Some(c as int - '0' as int)
    else if 'a' <= c <= 'f' then Some(c as int - 'a' as int + 10)
    else if 'A' <= c <= 'F' then Some(c as int - 'A' as int + 10)
    else None
  }

  /** Four hex digits of a control character. */
  function ControlDigits(n: nat): (digits: string)
    requires n < 32
    ensures |digits| == 4
  {
    ['0', '0', HexDigit(n / 16), HexDigit(n % 16)]
  }

  /** One character as json.dumps writes it with ensure_ascii off. */
  function EncodeChar(c: char): string {
    if c == '"' then "\\\"" else if c == '\\' then "\\\\"
    else if c == '\n' then "\\n" else if c == '\r' then "\\r" else if c == '\t' then "\\t"
    else if c as int == 12 then "\\f" else if c as int == 8 then "\\b"
    else if c as int < 32 then "\\u" + ControlDigits(c as int)
    else [c]
  }

  function EncodeBody(s: string): string {
    if s == "" then "" else EncodeChar(s[0]) + EncodeBody(s[1..])
  }

  function Encode(s: string): string {
    "\"" + EncodeBody(s) + "\""
  }

  /** The character a one-letter escape stands for. */
  function Unescaped(c: char): Option<char> {
    if c == '"' || c == '\\' || c == '/' then Some(c)
    else if c == 'n' then Some('\n') else if c == 'r' then Some('\r') else if c == 't' then Some('\t')
    else if c == 'f' then Some(12 as char) else if c == 'b' then Some(8 as char)
    else None
  }

  /** The code unit of four hex digits at the start. */
  function Unit(s: string): Option<nat> {
    if |s| < 4 then None
    else
      match (HexValue(s[0]), HexValue(s[1]), HexValue(s[2]), HexValue(s[3]))
      case (Some(a), Some(b), Some(c), Some(d)) => Some(a * 4096 + b * 256 + c * 16 + d)
      case _ => None
  }

  /** Reading the body of a JSON string: control characters and bare quotes are errors. */
  function DecodeBody(s: string): Option<string> {
    if s == "" then Some("")
    else if s[0] == '"' || (s[0] as int) < 32 then None
    else if s[0] != '\\' then Prefixed(s[0], DecodeBody(s[1..]))
    else if |s| == 1 then None
    else if Unescaped(s[1]).Some? then Prefixed(Unescaped(s[1]).value, DecodeBody(s[2..]))
    else if s[1] != 'u' || Unit(s[2..]).None? then None
    else
      var unit := Unit(s[2..]).value;
      if unit < 0xD800 || 0xE000 <= unit < 0x10000 then Prefixed(unit as char, DecodeBody(s[6..]))
      else if unit < 0xDC00 && |s| >= 12 && s[6] == '\\' && s[7] == 'u' && Unit(s[8..]).Some?
          && 0xDC00 <= Unit(s[8..]).value < 0xE000
      then Prefixed((0x10000 + (unit - 0xD800) * 0x400 + (Unit(s[8..]).value - 0xDC00)) as char, DecodeBody(s[12..]))
      else None
  }

  function Prefixed(c: char, rest: Option<string>): Option<string> {
    match rest
    case Some(s) => Some([c] + s)
    case None => None
  }

  predicate HasShortEscape(c: char) {
    c == '"' || c == '\\' || c == '\n' || c == '\r' || c == '\t' || c as int == 12 || c as int == 8
  }

  lemma DecodeShort(c: char, rest: string)
    requires HasShortEscape(c)
    ensures DecodeBody(EncodeChar(c) + rest) == Prefixed(c, DecodeBody(rest))
  {
    hide Unit;
    assert (EncodeChar(c) + rest)[2..] == rest;
  }

  lemma HexRoundTrip(n: nat)
    requires n < 16
    ensures HexValue(HexDigit(n)) == Some(n)
  {
  }

  lemma UnitOfControl(n: nat, rest: string)
    requires n < 32
    ensures Unit(ControlDigits(n) + rest) == Some(n)
  {
    hide HexDigit;
    HexRoundTrip(n / 16);
    HexRoundTrip(n % 16);
    assert HexValue('0') == Some(0);
    hide HexValue;
  }

  lemma DecodeUnit(s: string, n: nat)
    requires |s| >= 6 && s[0] == '\\' && s[1] == 'u' && n < 32 && Unit(s[2..]) == Some(n)
    ensures DecodeBody(s) == Prefixed(n as char, DecodeBody(s[6..]))
  {
    hide Unit, Prefixed;
    assert Unescaped('u') == None;
  }

  lemma DecodeHex(c: char, rest: string)
    requires !HasShortEscape(c) && (c as int) < 32
    ensures DecodeBody(EncodeChar(c) + rest) == Prefixed(c, DecodeBody(rest))
  {
    var s, n := EncodeChar(c) + rest, c as int;
    var digits := ControlDigits(n);
    assert EncodeChar(c) == "\\u" + digits;
    hide Unit, ControlDigits, Prefixed, DecodeBody, EncodeChar;
    assert s == "\\u" + (digits + rest);
    assert s[2..] == digits + rest && s[6..] == rest;
    UnitOfControl(n, rest);
    DecodeUnit(s, n);
  }

  lemma DecodeEncoded(c: char, rest: string)
    ensures DecodeBody(EncodeChar(c) + rest) == Prefixed(c, DecodeBody(rest))
  {
    if HasShortEscape(c) {
      DecodeShort(c, rest);
    } else if c as int < 32 {
      DecodeHex(c, rest);
    } else {
      assert (EncodeChar(c) + rest)[1..] == rest;
    }
  }

  /** The unit as four hex digits. */
  function UnitDigits(n: nat): (digits: string)
    requires n < 0x10000
    ensures |digits| == 4
  {
    [HexDigit(n / 4096), HexDigit(n / 256 % 16), HexDigit(n / 16 % 16), HexDigit(n % 16)]
  }

  lemma UnitReads(n: nat, rest: string)
    requires n < 0x10000
    ensures Unit(UnitDigits(n) + rest) == Some(n)
  {
    hide HexDigit;
    HexRoundTrip(n / 4096);
    HexRoundTrip(n / 256 % 16);
    HexRoundTrip(n / 16 % 16);
    HexRoundTrip(n % 16);
    hide HexValue;
    assert n / 256 == n / 4096 * 16 + n / 256 % 16 && n / 16 == n / 256 * 16 + n / 16 % 16;
  }

  /** Escapes that the encoder does not use are decoded too: a character of one unit, or of a pair of them. */
  lemma UnicodeEscapeReads(c: char, rest: string)
    ensures var n := c as int;
            n < 0x10000 ==> DecodeBody("\\u" + UnitDigits(n) + rest) == Prefixed(c, DecodeBody(rest))
    ensures var n := c as int - 0x10000;
            n >= 0 ==>
              DecodeBody("\\u" + UnitDigits(0xD800 + n / 0x400) + ("\\u" + UnitDigits(0xDC00 + n % 0x400) + rest))
              == Prefixed(c, DecodeBody(rest))
  {
    hide Unit, Prefixed, UnitDigits, DecodeBody;
    var n := c as int;
    if n < 0x10000 {
      UnitReads(n, rest);
      var s := "\\u" + UnitDigits(n) + rest;
      assert s[2..] == UnitDigits(n) + rest && s[6..] == rest;
      OneUnit(s, n);
    } else {
      var high, low := 0xD800 + (n - 0x10000) / 0x400, 0xDC00 + (n - 0x10000) % 0x400;
      var second := "\\u" + UnitDigits(low) + rest;
      var s := "\\u" + UnitDigits(high) + second;
      UnitReads(high, second);
      UnitReads(low, rest);
      assert s[2..] == UnitDigits(high) + second && s[6..] == second;
      assert s[8..] == UnitDigits(low) + rest && s[12..] == rest;
      TwoUnits(s, high, low);
    }
  }

  lemma OneUnit(s: string, n: nat)
    requires |s| >= 6 && s[0] == '\\' && s[1] == 'u' && Unit(s[2..]) == Some(n)
    requires n < 0xD800 || 0xE000 <= n < 0x10000
    ensures DecodeBody(s) == Prefixed(n as char, DecodeBody(s[6..]))
  {
    hide Unit, Prefixed;
    assert Unescaped('u') == None;
  }

  lemma TwoUnits(s: string, high: nat, low: nat)
    requires |s| >= 12 && s[0] == '\\' && s[1] == 'u' && Unit(s[2..]) == Some(high)
    requires s[6] == '\\' && s[7] == 'u' && Unit(s[8..]) == Some(low)
    requires 0xD800 <= high < 0xDC00 <= low < 0xE000
    ensures DecodeBody(s) == Prefixed((0x10000 + (high - 0xD800) * 0x400 + (low - 0xDC00)) as char, DecodeBody(s[12..]))
  {
    hide Unit, Prefixed;
    assert Unescaped('u') == None;
  }

  /** Encoding and decoding a string gives it back, whatever it holds. Block scalars depend on it: they
      pass through the line-based parser as JSON strings. */
  lemma {:induction false} JsonRoundTrip(s: string)
    ensures DecodeBody(EncodeBody(s)) == Some(s)
  {
    if s != "" {
      JsonRoundTrip(s[1..]);
      DecodeEncoded(s[0], EncodeBody(s[1..]));
      assert [s[0]] + s[1..] == s;
    }
  }

  // Scalars

  predicate IsInteger(token: string) {
    var digits := if token != "" && token[0] == '-' then token[1..] else token;
    digits != "" && IsDigits(digits)
  }

  function Integer(token: string): int
    requires IsInteger(token)
  {
    if token[0] == '-' then 0 - Number(token[1..]) else Number(token)
  }

  /** Splits at every comma outside quotes; a blank last part does not count. */
  function Parts(text: string, buffer: string, span: Span): (parts: seq<string>)
    ensures forall p :: p in parts ==> |p| <= |buffer| + |text|
    decreases |text|
  {
    if text == "" then if Trim(buffer) == "" then [] else [buffer]
    else if span.Outside? && text[0] == ',' then [buffer] + Parts(text[1..], "", Outside)
    else Parts(text[1..], buffer + [text[0]], NextSpan(span, text[0]))
  }

  predicate IsQuoted(token: string) {
    |token| >= 2 && token[0] == token[|token| - 1] && IsQuote(token[0])
  }

  /** JSON escapes are honoured inside double quotes, if the whole token is a JSON string. */
  function QuotedValue(token: string): Value
    requires IsQuoted(token)
  {
    var inner := token[1..|token| - 1];
    if token[0] == '"' && DecodeBody(inner).Some? then Str(DecodeBody(inner).value) else Str(inner)
  }

  predicate IsFlowList(token: string) {
    |token| >= 2 && token[0] == '[' && token[|token| - 1] == ']'
  }

  function FlowPieces(token: string): (parts: seq<string>)
    requires IsFlowList(token)
    ensures forall p :: p in parts ==> |p| < |token|
  {
    Parts(Trim(token[1..|token| - 1]), "", Outside)
  }

  function PlainValue(token: string): Value {
    if token == "true" || token == "false" then Bool(token == "true")
    else if token == "null" then Null
    else if IsInteger(token) then Num(Integer(token))
    else Str(token)
  }

  /** What a value in the text stands for. */
  function ScalarValue(text: string): Value
    decreases |text|
  {
    var token := Trim(text);
    if IsQuoted(token) then QuotedValue(token)
    else if IsFlowList(token) then
      var parts := FlowPieces(token);
      List(seq(|parts|, i requires 0 <= i < |parts| => assert parts[i] in parts; ScalarValue(parts[i])))
    else PlainValue(token)
  }

  method Scalar(text: string) returns (value: Value)
    ensures value == ScalarValue(text)
    decreases |text|, 1
  {
    hide Trim, Parts, PlainValue, DecodeBody;
    var token := Trim(text);
    if IsQuoted(token) {
      if token[0] == '"' {
        var decoded := DecodeBody(token[1..|token| - 1]);
        if decoded.Some? {
          return Str(decoded.value);
        }
      }
      return Str(token[1..|token| - 1]);
    }
    if IsFlowList(token) {
      var inner := Trim(token[1..|token| - 1]);
      var parts := FlowParts(inner);
      assert parts == FlowPieces(token);
      var items := FlowItems(parts, |text|);
      return List(items);
    }
    value := Unquoted(token);
  }

  /** Words with a meaning, integers, and otherwise the text itself. */
  method Unquoted(token: string) returns (value: Value)
    ensures value == PlainValue(token)
  {
    if token == "true" || token == "false" {
      return Bool(token == "true");
    }
    if token == "null" {
      return Null;
    }
    if IsInteger(token) {
      return Num(Integer(token));
    }
    return Str(token);
  }

  method FlowItems(parts: seq<string>, ghost bound: nat) returns (items: seq<Value>)
    requires forall p :: p in parts ==> |p| < bound
    ensures |items| == |parts| && forall i :: 0 <= i < |parts| ==> items[i] == ScalarValue(parts[i])
    decreases bound, 0
  {
    hide ScalarValue;
    items := [];
    for i := 0 to |parts|
      invariant |items| == i && forall j :: 0 <= j < i ==> items[j] == ScalarValue(parts[j])
    {
      assert parts[i] in parts;
      var item := Scalar(parts[i]);
      items := items + [item];
    }
  }

  method FlowParts(inner: string) returns (parts: seq<string>)
    ensures parts == Parts(inner, "", Outside)
  {
    parts := [];
    var buffer := "";
    var span := Outside;
    assert inner[0..] == inner;
    for i := 0 to |inner|
      invariant Parts(inner, "", Outside) == parts + Parts(inner[i..], buffer, span)
    {
      var c := inner[i];
      ghost var rest := inner[i..];
      assert rest[0] == c && rest[1..] == inner[i + 1..];
      if span.Outside? && c == ',' {
        ghost var later := Parts(inner[i + 1..], "", Outside);
        assert Parts(rest, buffer, span) == [buffer] + later;
        assert parts + ([buffer] + later) == (parts + [buffer]) + later;
        parts := parts + [buffer];
        buffer := "";
      } else {
        assert Parts(rest, buffer, span) == Parts(inner[i + 1..], buffer + [c], NextSpan(span, c));
        buffer := buffer + [c];
        span := NextSpan(span, c);
      }
    }
    if Trim(buffer) != "" {
      parts := parts + [buffer];
    }
  }
}
