/** Values on one line: how they are written, and that they are read back as written. */
module YamlScalars {
  import opened Digits
  import opened Json
  import opened Options
  import opened YamlText

  // Scalars

  /** Values written on one line. */
  predicate IsScalar(v: Value) {
    v.Null? || v.Bool? || v.Num? || v.Str? || v == List([])
  }

  function Text(v: Value): string
    requires IsScalar(v)
  {
    match v
    case Null => "null"
    case Bool(b) => if b then "true" else "false"
    case Num(n) => if n < 0 then "-" + Decimal(-n) else Decimal(n)
    case Str(s) => Encode(s)
    case List(_) => "[]"
  }

  lemma TrimmedStays(s: string)
    requires Trimmed(s)
    ensures Trim(s) == s
  {
  }

  /** Nothing special outside quotes: no quote, no separator, no comment, no flow comma. */
  predicate IsWord(text: string) {
    text != "" && Trimmed(text) && forall i :: 0 <= i < |text| ==> text[i] != ':' && text[i] != '#' && !IsQuote(text[i])
  }

  lemma DigitsAreWords(n: nat)
    ensures IsWord(Decimal(n)) && IsWord("-" + Decimal(n)) && IsDigits(Decimal(n))
  {
    DecimalReads(n);
    var s, t := Decimal(n), "-" + Decimal(n);
    assert forall i :: 0 <= i < |s| ==> '0' <= s[i] <= '9';
    assert forall i :: 0 < i < |t| ==> t[i] == s[i - 1];
  }

  /** The text of a scalar is a word or a quoted string. */
  lemma TextShape(v: Value)
    requires IsScalar(v)
    ensures if v.Str? then Text(v) == "\"" + EncodeBody(v.s) + "\"" else IsWord(Text(v))
  {
    match v
    case Num(n) => DigitsAreWords(if n < 0 then -n else n);
    case _ =>
  }

  lemma NumberReads(n: int)
    ensures var text := Text(Num(n)); !IsQuoted(text) && !IsFlowList(text) && PlainValue(text) == Num(n)
  {
    var digits := Decimal(if n < 0 then -n else n);
    DecimalReads(if n < 0 then -n else n);
    assert digits != "" && IsDigits(digits) && '0' <= digits[0] <= '9';
    hide Decimal, Number, IsDigits;
    if n < 0 {
      NegativeReads(digits, -n);
    } else {
      PositiveReads(digits, n);
    }
  }

  lemma NegativeReads(digits: string, n: nat)
    requires digits != "" && IsDigits(digits) && Number(digits) == n
    ensures var text := "-" + digits; !IsQuoted(text) && !IsFlowList(text) && PlainValue(text) == Num(0 - n)
  {
  }

  lemma PositiveReads(digits: string, n: nat)
    requires digits != "" && IsDigits(digits) && '0' <= digits[0] <= '9' && Number(digits) == n
    ensures !IsQuoted(digits) && !IsFlowList(digits) && PlainValue(digits) == Num(n)
  {
  }

  lemma StringReads(s: string)
    ensures IsQuoted(Encode(s)) && QuotedValue(Encode(s)) == Str(s)
  {
    var text := Encode(s);
    assert text[1..|text| - 1] == EncodeBody(s);
    JsonRoundTrip(s);
  }

  lemma NoPieces()
    ensures Trim("") == "" && Parts("", "", Outside) == []
  {
  }

  lemma EmptyListReads()
    requires Trim("[]") == "[]"
    ensures ScalarValue("[]") == List([])
  {
    hide Trim, Parts, IsQuoted;
    NoPieces();
    var text := "[]";
    assert !IsQuoted(text) by {
      NotQuoted();
    }
    assert text[1..|text| - 1] == "";
    assert FlowPieces(text) == [];
    assert ScalarValue(text).List? && ScalarValue(text).items == [];
  }

  lemma NotQuoted()
    ensures !IsQuoted("[]")
  {
  }

  lemma WordsRead()
    ensures PlainValue("true") == Bool(true) && PlainValue("false") == Bool(false) && PlainValue("null") == Null
    ensures forall w :: w in {"true", "false", "null"} ==> !IsQuoted(w) && !IsFlowList(w)
  {
  }

  lemma PlainReads(text: string)
    requires Trim(text) == text && !IsQuoted(text) && !IsFlowList(text)
    ensures ScalarValue(text) == PlainValue(text)
  {
    hide Trim, PlainValue;
  }

  lemma QuotedReads(text: string)
    requires Trim(text) == text && IsQuoted(text)
    ensures ScalarValue(text) == QuotedValue(text)
  {
    hide Trim, QuotedValue;
  }

  /** Every scalar is read back as it was written. */
  lemma ScalarReads(v: Value)
    requires IsScalar(v)
    ensures ScalarValue(Text(v)) == v
  {
    TextTrimmed(v);
    TrimmedStays(Text(v));
    hide Trimmed, Trim, Encode, Decimal, QuotedValue, PlainValue, ScalarValue, IsQuoted, IsFlowList;
    WordsRead();
    match v {
      case Num(n) =>
        NumberReads(n);
        PlainReads(Text(v));
      case Str(s) =>
        StringReads(s);
        QuotedReads(Text(v));
      case List(_) =>
        EmptyListReads();
      case Null =>
        PlainReads("null");
      case Bool(b) =>
        PlainReads(if b then "true" else "false");
      case Dict(_) =>
    }
  }

  lemma TextTrimmed(v: Value)
    requires IsScalar(v)
    ensures Text(v) != "" && Trimmed(Text(v)) && Trim(" " + Text(v)) == Text(v)
  {
    TextShape(v);
    LeadingBlank(Text(v));
  }

  lemma LeadingBlank(text: string)
    requires text != "" && Trimmed(text)
    ensures Trim(" " + text) == text
  {
    assert (" " + text)[1..] == text;
    assert TrimLeft(" " + text) == TrimLeft(text) == text;
    TrimmedStays(text);
  }

  // Separators

  /** A prefix without quotes or the separator is passed over. */
  lemma {:induction false} DividedAt(prefix: string, rest: string, separator: char)
    requires !IsQuote(separator) && forall i :: 0 <= i < |prefix| ==> prefix[i] != separator && !IsQuote(prefix[i])
    ensures Divided(prefix + [separator] + rest, separator, Outside) == Some(Halves(prefix, rest))
  {
    var text := prefix + [separator] + rest;
    if prefix == "" {
      assert text[0] == separator && text[1..] == rest;
    } else {
      assert text[0] == prefix[0] && text[1..] == prefix[1..] + [separator] + rest;
      DividedAt(prefix[1..], rest, separator);
      assert [prefix[0]] + prefix[1..] == prefix;
    }
  }

  lemma {:induction false} DividedNever(text: string, separator: char)
    requires forall i :: 0 <= i < |text| ==> text[i] != separator && !IsQuote(text[i])
    ensures Divided(text, separator, Outside) == None
  {
    if text != "" {
      DividedNever(text[1..], separator);
    }
  }

  /** Only a string can hold a separator outside quotes. */
  lemma WordHasNoColon(v: Value)
    requires IsScalar(v) && !v.Str?
    ensures Divided(Text(v), ':', Outside) == None
  {
    TextShape(v);
    DividedNever(Text(v), ':');
  }

  lemma EncodeTrimmed(s: string)
    ensures Encode(s) != "" && Trimmed(Encode(s)) && Encode(s)[0] == '"'
  {
    hide EncodeBody;
    assert Encode(s)[|Encode(s)| - 1] == '"';
  }

  lemma Ends(a: string, b: string)
    requires a != "" && b != ""
    ensures a + b != "" && (a + b)[0] == a[0] && (a + b)[|a + b| - 1] == b[|b| - 1]
  {
  }
}
