/** The selectors the index records for artifact pointers, read as JSON Pointers (RFC 6901). */
module Selectors {
  import opened Digits
  import opened Json
  import opened Options

  /** What is copied out of a record that points at an artifact. */
  datatype Candidate = Candidate(path: string, sha256: Option<string>)

  datatype Yield = Yield(selector: string, record: Candidate)

  const PATH_KEYS := ["path", "receipt_path", "artifact_path", "output_path"]
  const HASH_KEYS := ["sha256", "receipt_sha256", "artifact_sha256"]

  /** The first of the keys under which the object has a string. */
  function FirstText(fields: seq<Field>, keys: seq<string>): Option<string> {
    if keys == [] then None
    else if Get(fields, keys[0]).Str? then Some(Get(fields, keys[0]).s)
    else FirstText(fields, keys[1..])
  }

  function RecordOf(value: Value): Option<Candidate> {
    if !value.Dict? then None
    else
      match FirstText(value.fields, PATH_KEYS)
      case Some(path) => Some(Candidate(path, FirstText(value.fields, HASH_KEYS)))
      case None => None
  }

  /** The i-th key is the first that has a text, and has this one. */
  predicate PicksAt(fields: seq<Field>, keys: seq<string>, text: string, i: nat) {
    && i < |keys| && Get(fields, keys[i]) == Str(text)
    && forall j :: 0 <= j < i ==> !Get(fields, keys[j]).Str?
  }

  ghost predicate PicksFirst(fields: seq<Field>, keys: seq<string>, text: string) {
    exists i: nat :: PicksAt(fields, keys, text, i)
  }

  lemma {:induction false} FirstTextMeans(fields: seq<Field>, keys: seq<string>)
    ensures forall text :: FirstText(fields, keys) == Some(text) <==> PicksFirst(fields, keys, text)
    ensures FirstText(fields, keys) == None <==> forall i :: 0 <= i < |keys| ==> !Get(fields, keys[i]).Str?
  {
    hide Get;
    if keys != [] {
      var rest := keys[1..];
      FirstTextMeans(fields, rest);
      assert forall i :: 0 < i < |keys| ==> keys[i] == rest[i - 1];
      forall text
        ensures FirstText(fields, keys) == Some(text) <==> PicksFirst(fields, keys, text)
      {
        if !Get(fields, keys[0]).Str? && PicksFirst(fields, rest, text) {
          var i: nat :| PicksAt(fields, rest, text, i);
          assert PicksAt(fields, keys, text, i + 1);
        }
        if Get(fields, keys[0]) == Str(text) {
          assert PicksAt(fields, keys, text, 0);
        }
        if PicksFirst(fields, keys, text) {
          var i: nat :| PicksAt(fields, keys, text, i);
          assert i > 0 ==> PicksAt(fields, rest, text, i - 1);
        }
      }
    }
  }

  /** An object points at an artifact exactly if it has a string under one of the four path keys. The path is that
      under the first of them that has one, the hash likewise, if there is any. */
  lemma RecordsArePicked(fields: seq<Field>)
    ensures var paths, hashes := ["path", "receipt_path", "artifact_path", "output_path"],
                                 ["sha256", "receipt_sha256", "artifact_sha256"];
            match RecordOf(Dict(fields))
            case Some(record) =>
              && PicksFirst(fields, paths, record.path)
              && (match record.sha256
                  case Some(hash) => PicksFirst(fields, hashes, hash)
                  case None => forall key :: key in hashes ==> !Get(fields, key).Str?)
            case None => forall key :: key in paths ==> !Get(fields, key).Str?
  {
    hide Get;
    FirstTextMeans(fields, PATH_KEYS);
    FirstTextMeans(fields, HASH_KEYS);
    hide FirstText, PicksFirst;
  }

  function ReplaceChar(s: string, c: char, with: string): string {
    if s == "" then ""
    else (if s[0] == c then with else [s[0]]) + ReplaceChar(s[1..], c, with)
  }

  function Escape(key: string): string {
    ReplaceChar(ReplaceChar(key, '~', "~0"), '/', "~1")
  }

  /** The walk over a result record: every object with an artifact path, under its selector. */
  function Walk(value: Value, selector: string): seq<Yield>
    decreases value, 1, 0
  {
    match value
    case Dict(_) =>
      (match RecordOf(value)
       case Some(record) => [Yield(if selector == "" then "/" else selector, record)]
       case None => [])
      + WalkFields(value, selector, 0)
    case List(_) => WalkItems(value, selector, 0)
    case _ => []
  }

  function WalkFields(value: Value, selector: string, i: nat): seq<Yield>
    requires value.Dict? && i <= |value.fields|
    decreases value, 0, |value.fields| - i
  {
    if i == |value.fields| then []
    else Walk(value.fields[i].value, selector + "/" + Escape(value.fields[i].key)) + WalkFields(value, selector, i + 1)
  }

  function WalkItems(value: Value, selector: string, i: nat): seq<Yield>
    requires value.List? && i <= |value.items|
    decreases value, 0, |value.items| - i
  {
    if i == |value.items| then []
    else Walk(value.items[i], selector + "/" + Decimal(i)) + WalkItems(value, selector, i + 1)
  }

  // JSON Pointers, as RFC 6901 defines them

  function Split(s: string): (r: seq<string>)
    ensures |r| >= 1
  {
    if s == "" then [""]
    else
      var rest := Split(s[1..]);
      if s[0] == '/' then [""] + rest else [[s[0]] + rest[0]] + rest[1..]
  }

  /** Section 3: a tilde in a token is followed by 0 or 1. */
  predicate TokenOk(token: string) {
    forall i :: 0 <= i < |token| && token[i] == '~' ==> i + 1 < |token| && token[i + 1] in "01"
  }

  function ReplacePair(s: string, c: char, d: char, with: char): string {
    if |s| < 2 then s
    else if s[0] == c && s[1] == d then [with] + ReplacePair(s[2..], c, d, with)
    else [s[0]] + ReplacePair(s[1..], c, d, with)
  }

  /** Section 4: first every ~1 becomes a slash, then every ~0 a tilde. */
  function Unescape(token: string): string {
    ReplacePair(ReplacePair(token, '~', '1', '/'), '~', '0', '~')
  }

  /** Section 4: an array index is 0, or digits without a leading zero. */
  predicate IsIndex(token: string) {
    IsDecimal(token)
  }

  /** One step: the member of that name, or the element of that index. */
  function Member(value: Value, token: string): Option<Value> {
    match value
    case Dict(fields) => if HasKey(fields, token) then Some(Get(fields, token)) else None
    case List(items) => if IsIndex(token) && Number(token) < |items| then Some(items[Number(token)]) else None
    case _ => None
  }

  function Resolve(value: Value, tokens: seq<string>): Option<Value>
    decreases |tokens|
  {
    if tokens == [] then Some(value)
    else
      match Member(value, tokens[0])
      case Some(child) => Resolve(child, tokens[1..])
      case None => None
  }

  function Tokens(pointer: string): Option<seq<string>> {
    if pointer == "" then Some([])
    else if pointer[0] != '/' then None
    else
      var tokens := Split(pointer[1..]);
      if forall t :: t in tokens ==> TokenOk(t)
        then Some(seq(|tokens|, i requires 0 <= i < |tokens| => Unescape(tokens[i]))) else None
  }

  function Evaluate(root: Value, pointer: string): Option<Value> {
    match Tokens(pointer)
    case Some(tokens) => Resolve(root, tokens)
    case None => None
  }

  /** No object repeats a key. */
  ghost predicate WellFormed(value: Value) {
    match value
    case Dict(fields) =>
      && (forall i, j :: 0 <= i < j < |fields| ==> fields[i].key != fields[j].key)
      && (forall i :: 0 <= i < |fields| ==> WellFormed(fields[i].value))
    case List(items) => forall i :: 0 <= i < |items| ==> WellFormed(items[i])
    case _ => true
  }

  // Escaping and splitting undo each other

  /** The two replacements of the walk, in one pass. */
  function Escaped(key: string): string {
    if key == "" then ""
    else (if key[0] == '~' then "~0" else if key[0] == '/' then "~1" else [key[0]]) + Escaped(key[1..])
  }

  lemma {:induction false} ReplaceConcat(a: string, b: string, c: char, with: string)
    ensures ReplaceChar(a + b, c, with) == ReplaceChar(a, c, with) + ReplaceChar(b, c, with)
  {
    if a == "" {
      assert a + b == b;
    } else {
      assert (a + b)[1..] == a[1..] + b;
      ReplaceConcat(a[1..], b, c, with);
    }
  }

  lemma {:induction false} EscapeOnePass(key: string)
    ensures Escape(key) == Escaped(key)
  {
    if key != "" {
      EscapeOnePass(key[1..]);
      var first := if key[0] == '~' then "~0" else [key[0]];
      ReplaceConcat(first, ReplaceChar(key[1..], '~', "~0"), '/', "~1");
      if key[0] == '~' {
        assert "~0"[1..] == "0" && "0"[1..] == "";
        assert ReplaceChar("0", '/', "~1") == "0";
        assert ReplaceChar("~0", '/', "~1") == "~0";
      } else {
        assert first[1..] == "";
      }
    }
  }

  lemma {:induction false} EscapedIsToken(key: string)
    ensures TokenOk(Escaped(key)) && '/' !in Escaped(key)
  {
    if key != "" {
      EscapedIsToken(key[1..]);
    }
  }

  /** The first pass of decoding leaves the tildes escaped. */
  lemma {:induction false} DecodeSlashes(key: string)
    ensures ReplacePair(Escaped(key), '~', '1', '/') == ReplaceChar(key, '~', "~0")
  {
    if key != "" {
      DecodeSlashes(key[1..]);
      var rest := Escaped(key[1..]);
      if key[0] == '~' {
        assert ("~0" + rest)[1..] == "0" + rest && ("0" + rest)[1..] == rest;
        PairSkips('0', rest, '~', '1', '/');
      } else if key[0] == '/' {
        assert ("~1" + rest)[2..] == rest;
      } else {
        PairSkips(key[0], rest, '~', '1', '/');
      }
    }
  }

  lemma PairSkips(x: char, rest: string, c: char, d: char, with: char)
    requires x != c
    ensures ReplacePair([x] + rest, c, d, with) == [x] + ReplacePair(rest, c, d, with)
  {
  }

  lemma {:induction false} DecodeTildes(key: string)
    ensures ReplacePair(ReplaceChar(key, '~', "~0"), '~', '0', '~') == key
  {
    if key != "" {
      DecodeTildes(key[1..]);
      var rest := ReplaceChar(key[1..], '~', "~0");
      if key[0] == '~' {
        assert ("~0" + rest)[2..] == rest;
      } else {
        PairSkips(key[0], rest, '~', '0', '~');
      }
    }
  }

  /** Decoding an escaped key gives the key back. */
  lemma EscapeRoundTrip(key: string)
    ensures Unescape(Escape(key)) == key && TokenOk(Escape(key)) && '/' !in Escape(key)
  {
    EscapeOnePass(key);
    EscapedIsToken(key);
    DecodeSlashes(key);
    DecodeTildes(key);
  }

  lemma {:induction false} SplitToken(token: string, rest: string)
    requires '/' !in token && (rest == "" || rest[0] == '/')
    ensures Split(token + rest) == [token] + if rest == "" then [] else Split(rest[1..])
  {
    if token == "" {
      assert token + rest == rest;
    } else {
      assert (token + rest)[1..] == token[1..] + rest;
      SplitToken(token[1..], rest);
      var others := if rest == "" then [] else Split(rest[1..]);
      assert ([token[1..]] + others)[1..] == others && [token[0]] + token[1..] == token;
    }
  }

  lemma {:induction false} DigitsAreNotEscaped(s: string)
    requires IsDigits(s)
    ensures Escape(s) == s
  {
    EscapeOnePass(s);
    if s != "" {
      DigitsAreNotEscaped(s[1..]);
      EscapeOnePass(s[1..]);
    }
  }

  /** The pointer with these reference tokens. */
  function Pointer(tokens: seq<string>): string {
    if tokens == [] then "" else "/" + Escape(tokens[0]) + Pointer(tokens[1..])
  }

  lemma PointerStep(tokens: seq<string>)
    requires tokens != []
    ensures Pointer(tokens) == "/" + Escape(tokens[0]) + Pointer(tokens[1..])
  {
  }

  lemma {:induction false} PointerSnoc(tokens: seq<string>, token: string)
    ensures Pointer(tokens + [token]) == Pointer(tokens) + "/" + Escape(token)
  {
    hide Escape, Pointer;
    PointerOfNothing();
    PointerStep(tokens + [token]);
    if tokens == [] {
      assert (tokens + [token])[1..] == [];
      assert "" + "/" + Escape(token) == "/" + Escape(token) + "";
    } else {
      PointerStep(tokens);
      PointerSnoc(tokens[1..], token);
      assert (tokens + [token])[1..] == tokens[1..] + [token];
      Assoc("/" + Escape(tokens[0]), Pointer(tokens[1..]), "/", Escape(token));
    }
  }

  lemma Assoc(a: string, b: string, c: string, d: string)
    ensures a + (b + c + d) == a + b + c + d
  {
  }

  lemma AfterSlash(a: string, b: string)
    ensures "/" + a + b != "" && ("/" + a + b)[0] == '/' && ("/" + a + b)[1..] == a + b
  {
  }

  lemma PointerHead(tokens: seq<string>)
    requires tokens != []
    ensures Pointer(tokens) != "" && Pointer(tokens)[0] == '/'
            && Pointer(tokens)[1..] == Escape(tokens[0]) + Pointer(tokens[1..])
  {
    hide Escape;
    AfterSlash(Escape(tokens[0]), Pointer(tokens[1..]));
  }

  lemma {:induction false} PointerSplits(tokens: seq<string>)
    requires tokens != []
    ensures Pointer(tokens) != ""
    ensures var raw := Split(Pointer(tokens)[1..]);
            |raw| == |tokens| && forall i :: 0 <= i < |tokens| ==> raw[i] == Escape(tokens[i])
  {
    hide Escape, Split, Pointer;
    var rest := Pointer(tokens[1..]);
    EscapeRoundTrip(tokens[0]);
    PointerHead(tokens);
    if |tokens| == 1 {
      PointerOfNothing();
      assert rest == "";
    } else {
      PointerHead(tokens[1..]);
    }
    SplitToken(Escape(tokens[0]), rest);
    if |tokens| > 1 {
      PointerSplits(tokens[1..]);
      var others := Split(rest[1..]);
      assert Split(Pointer(tokens)[1..]) == [Escape(tokens[0])] + others;
    }
  }

  /** A pointer decodes to the tokens it was built from; so different tokens give different pointers. */
  lemma PointerRoundTrip(tokens: seq<string>)
    ensures Tokens(Pointer(tokens)) == Some(tokens)
  {
    if tokens != [] {
      PointerSplits(tokens);
      var raw := Split(Pointer(tokens)[1..]);
      forall i | 0 <= i < |tokens|
        ensures Unescape(raw[i]) == tokens[i] && TokenOk(raw[i])
      {
        EscapeRoundTrip(tokens[i]);
      }
      assert forall t :: t in raw ==> TokenOk(t);
      assert Tokens(Pointer(tokens)).value == tokens;
    }
  }

  // The places of records, as token lists

  datatype Place = Place(tokens: seq<string>, record: Candidate)

  function Arity(value: Value): nat {
    match value
    case Dict(fields) => |fields|
    case List(items) => |items|
    case _ => 0
  }

  function TokenAt(value: Value, i: nat): string
    requires i < Arity(value)
  {
    if value.Dict? then value.fields[i].key else Decimal(i)
  }

  function ChildAt(value: Value, i: nat): (child: Value)
    requires i < Arity(value)
    ensures child < value
  {
    if value.Dict? then value.fields[i].value else value.items[i]
  }

  /** Every object with an artifact path, under the tokens that lead to it. */
  ghost function Places(value: Value, prefix: seq<string>): seq<Place>
    decreases value, 1, 0
  {
    (match RecordOf(value)
     case Some(record) => [Place(prefix, record)]
     case None => [])
    + PlacesFrom(value, prefix, 0)
  }

  ghost function PlacesFrom(value: Value, prefix: seq<string>, i: nat): seq<Place>
    requires i <= Arity(value)
    decreases value, 0, Arity(value) - i
  {
    if i == Arity(value) then []
    else Places(ChildAt(value, i), prefix + [TokenAt(value, i)]) + PlacesFrom(value, prefix, i + 1)
  }

  /** The selector the walk shows: the pointer, but a slash for the whole record. */
  function Shown(tokens: seq<string>): string {
    if tokens == [] then "/" else Pointer(tokens)
  }

  function Shows(place: Place): Yield {
    Yield(Shown(place.tokens), place.record)
  }

  ghost predicate ShowsAll(shown: seq<Yield>, places: seq<Place>) {
    |shown| == |places| && forall k :: 0 <= k < |shown| ==> shown[k] == Shows(places[k])
  }

  lemma ShowsConcat(a: seq<Yield>, p: seq<Place>, b: seq<Yield>, q: seq<Place>)
    requires ShowsAll(a, p) && ShowsAll(b, q)
    ensures ShowsAll(a + b, p + q)
  {
  }

  function Own(value: Value, selector: string): seq<Yield> {
    match RecordOf(value)
    case Some(record) => [Yield(if selector == "" then "/" else selector, record)]
    case None => []
  }

  lemma OwnShows(value: Value, prefix: seq<string>)
    ensures ShowsAll(Own(value, Pointer(prefix)),
                     match RecordOf(value) case Some(record) => [Place(prefix, record)] case None => [])
  {
  }

  lemma {:induction false} WalkShowsPlaces(value: Value, prefix: seq<string>)
    ensures ShowsAll(Walk(value, Pointer(prefix)), Places(value, prefix))
    decreases value, 1, 0
  {
    hide Pointer, RecordOf, ShowsAll, WalkFields, WalkItems, PlacesFrom, Shown;
    OwnShows(value, prefix);
    WalkFromShowsPlaces(value, prefix, 0);
    var own := match RecordOf(value) case Some(record) => [Place(prefix, record)] case None => [];
    match value {
      case Dict(_) =>
        ShowsConcat(Own(value, Pointer(prefix)), own, WalkFields(value, Pointer(prefix), 0),
                    PlacesFrom(value, prefix, 0));
      case List(_) =>
        OnlyDictsAreRecords(value);
        assert own + PlacesFrom(value, prefix, 0) == PlacesFrom(value, prefix, 0);
      case _ =>
        OnlyDictsAreRecords(value);
        LeavesHaveNoPlaces(value, prefix);
    }
  }

  lemma OnlyDictsAreRecords(value: Value)
    ensures RecordOf(value).Some? ==> value.Dict?
  {
  }

  lemma LeavesHaveNoPlaces(value: Value, prefix: seq<string>)
    requires !value.Dict? && !value.List?
    ensures ShowsAll(Walk(value, Pointer(prefix)), Places(value, prefix))
  {
  }

  lemma PointerOfNothing()
    ensures Pointer([]) == ""
  {
  }

  lemma {:induction false} WalkFromShowsPlaces(value: Value, prefix: seq<string>, i: nat)
    requires i <= Arity(value)
    ensures value.Dict? ==> ShowsAll(WalkFields(value, Pointer(prefix), i), PlacesFrom(value, prefix, i))
    ensures value.List? ==> ShowsAll(WalkItems(value, Pointer(prefix), i), PlacesFrom(value, prefix, i))
    decreases value, 0, Arity(value) - i
  {
    if i == Arity(value) {
      hide Pointer;
    } else {
      hide Pointer, Escape, Walk, Places, ShowsAll, Decimal;
      var token := TokenAt(value, i);
      var child, longer := ChildAt(value, i), prefix + [token];
      WalkShowsPlaces(child, longer);
      WalkFromShowsPlaces(value, prefix, i + 1);
      PointerSnoc(prefix, token);
      if value.Dict? {
        ShowsConcat(Walk(child, Pointer(longer)), Places(child, longer), WalkFields(value, Pointer(prefix), i + 1),
                    PlacesFrom(value, prefix, i + 1));
      } else {
        DecimalReads(i);
        DigitsAreNotEscaped(Decimal(i));
        ShowsConcat(Walk(child, Pointer(longer)), Places(child, longer), WalkItems(value, Pointer(prefix), i + 1),
                    PlacesFrom(value, prefix, i + 1));
      }
    }
  }

  predicate StartsWith(tokens: seq<string>, prefix: seq<string>) {
    |prefix| <= |tokens| && tokens[..|prefix|] == prefix
  }

  /** Below the i-th child on: the prefix, then the token of one of those children. */
  ghost predicate Beneath(value: Value, prefix: seq<string>, i: nat, tokens: seq<string>) {
    && |prefix| < |tokens| && StartsWith(tokens, prefix)
    && exists j :: i <= j < Arity(value) && tokens[|prefix|] == TokenAt(value, j)
  }

  lemma {:induction false} PlacesStart(value: Value, prefix: seq<string>)
    ensures forall k :: 0 <= k < |Places(value, prefix)| ==> StartsWith(Places(value, prefix)[k].tokens, prefix)
    decreases value, 1, 0
  {
    PlacesFromStart(value, prefix, 0);
    forall k | 0 <= k < |PlacesFrom(value, prefix, 0)|
      ensures StartsWith(PlacesFrom(value, prefix, 0)[k].tokens, prefix)
    {
      assert Beneath(value, prefix, 0, PlacesFrom(value, prefix, 0)[k].tokens);
    }
  }

  lemma {:induction false} PlacesFromStart(value: Value, prefix: seq<string>, i: nat)
    requires i <= Arity(value)
    ensures forall k :: 0 <= k < |PlacesFrom(value, prefix, i)| ==>
            Beneath(value, prefix, i, PlacesFrom(value, prefix, i)[k].tokens)
    decreases value, 0, Arity(value) - i
  {
    hide TokenAt, RecordOf;
    if i < Arity(value) {
      var token := TokenAt(value, i);
      PlacesStart(ChildAt(value, i), prefix + [token]);
      PlacesFromStart(value, prefix, i + 1);
      var here := Places(ChildAt(value, i), prefix + [token]);
      forall k | 0 <= k < |here|
        ensures Beneath(value, prefix, i, here[k].tokens)
      {
        ChildBeneath(value, prefix, i, here[k].tokens);
      }
      var later := PlacesFrom(value, prefix, i + 1);
      forall k | 0 <= k < |later|
        ensures Beneath(value, prefix, i, later[k].tokens)
      {
        assert Beneath(value, prefix, i + 1, later[k].tokens);
      }
    }
  }

  lemma ChildBeneath(value: Value, prefix: seq<string>, i: nat, tokens: seq<string>)
    requires i < Arity(value) && StartsWith(tokens, prefix + [TokenAt(value, i)])
    ensures Beneath(value, prefix, i, tokens) && tokens[|prefix|] == TokenAt(value, i)
  {
  }

  lemma TokensDiffer(value: Value, i: nat, j: nat)
    requires WellFormed(value) && i < Arity(value) && j < Arity(value) && i != j
    ensures TokenAt(value, i) != TokenAt(value, j)
  {
    if value.List? {
      DecimalReads(i);
      DecimalReads(j);
    }
  }

  ghost predicate Distinct(places: seq<Place>) {
    forall k, l :: 0 <= k < l < |places| ==> places[k].tokens != places[l].tokens
  }

  lemma {:induction false} PlacesDistinct(value: Value, prefix: seq<string>)
    requires WellFormed(value)
    ensures Distinct(Places(value, prefix))
    decreases value, 1, 0
  {
    PlacesFromDistinct(value, prefix, 0);
    PlacesFromStart(value, prefix, 0);
    forall k | 0 <= k < |PlacesFrom(value, prefix, 0)|
      ensures PlacesFrom(value, prefix, 0)[k].tokens != prefix
    {
      assert Beneath(value, prefix, 0, PlacesFrom(value, prefix, 0)[k].tokens);
    }
  }

  lemma {:induction false} PlacesFromDistinct(value: Value, prefix: seq<string>, i: nat)
    requires WellFormed(value) && i <= Arity(value)
    ensures Distinct(PlacesFrom(value, prefix, i))
    decreases value, 0, Arity(value) - i
  {
    hide TokenAt, RecordOf, Arity;
    if i < Arity(value) {
      var token := TokenAt(value, i);
      var here, later := Places(ChildAt(value, i), prefix + [token]), PlacesFrom(value, prefix, i + 1);
      ChildWellFormed(value, i);
      PlacesDistinct(ChildAt(value, i), prefix + [token]);
      PlacesFromDistinct(value, prefix, i + 1);
      PlacesStart(ChildAt(value, i), prefix + [token]);
      PlacesFromStart(value, prefix, i + 1);
      forall k, l | 0 <= k < |here| && 0 <= l < |later|
        ensures here[k].tokens != later[l].tokens
      {
        ChildBeneath(value, prefix, i, here[k].tokens);
        assert Beneath(value, prefix, i + 1, later[l].tokens);
        var j :| i + 1 <= j < Arity(value) && later[l].tokens[|prefix|] == TokenAt(value, j);
        TokensDiffer(value, i, j);
      }
    }
  }

  lemma ChildWellFormed(value: Value, i: nat)
    requires WellFormed(value) && i < Arity(value)
    ensures WellFormed(ChildAt(value, i))
  {
  }

  // What the tokens of a place lead to

  lemma {:induction false} GetAt(fields: seq<Field>, i: nat)
    requires i < |fields| && forall k, l :: 0 <= k < l < |fields| ==> fields[k].key != fields[l].key
    ensures HasKey(fields, fields[i].key) && Get(fields, fields[i].key) == fields[i].value
  {
    if i > 0 {
      GetAt(fields[1..], i - 1);
    }
  }

  lemma MemberAt(value: Value, i: nat)
    requires WellFormed(value) && i < Arity(value)
    ensures Member(value, TokenAt(value, i)) == Some(ChildAt(value, i))
  {
    if value.Dict? {
      GetAt(value.fields, i);
    } else {
      DecimalReads(i);
    }
  }

  lemma MemberIsChild(value: Value, token: string) returns (i: nat)
    requires WellFormed(value) && Member(value, token).Some?
    ensures i < Arity(value) && TokenAt(value, i) == token && ChildAt(value, i) == Member(value, token).value
  {
    if value.Dict? {
      i :| 0 <= i < |value.fields| && value.fields[i].key == token;
      GetAt(value.fields, i);
    } else {
      i := Number(token);
      NumberPrints(token);
    }
  }

  /** From value, the tokens after the prefix lead to an object with this record. */
  ghost predicate LeadsTo(value: Value, prefix: seq<string>, place: Place) {
    && StartsWith(place.tokens, prefix)
    && Resolve(value, place.tokens[|prefix|..]).Some?
    && RecordOf(Resolve(value, place.tokens[|prefix|..]).value) == Some(place.record)
  }

  lemma {:induction false} PlacesLead(value: Value, prefix: seq<string>)
    requires WellFormed(value)
    ensures forall k :: 0 <= k < |Places(value, prefix)| ==> LeadsTo(value, prefix, Places(value, prefix)[k])
    decreases value, 1, 0
  {
    hide RecordOf;
    PlacesFromLead(value, prefix, 0);
    assert prefix[|prefix|..] == [] && prefix[..|prefix|] == prefix;
    match RecordOf(value)
    case Some(record) => assert LeadsTo(value, prefix, Place(prefix, record));
    case None =>
  }

  lemma {:induction false} PlacesFromLead(value: Value, prefix: seq<string>, i: nat)
    requires WellFormed(value) && i <= Arity(value)
    ensures forall k :: 0 <= k < |PlacesFrom(value, prefix, i)| ==>
            LeadsTo(value, prefix, PlacesFrom(value, prefix, i)[k])
    decreases value, 0, Arity(value) - i
  {
    hide RecordOf, TokenAt, Arity, LeadsTo;
    if i < Arity(value) {
      var longer := prefix + [TokenAt(value, i)];
      ChildWellFormed(value, i);
      PlacesLead(ChildAt(value, i), longer);
      PlacesFromLead(value, prefix, i + 1);
      var here := Places(ChildAt(value, i), longer);
      forall k | 0 <= k < |here|
        ensures LeadsTo(value, prefix, here[k])
      {
        ChildLeads(value, prefix, i, here[k]);
      }
    }
  }

  lemma ChildLeads(value: Value, prefix: seq<string>, i: nat, place: Place)
    requires WellFormed(value) && i < Arity(value) && LeadsTo(ChildAt(value, i), prefix + [TokenAt(value, i)], place)
    ensures LeadsTo(value, prefix, place)
  {
    hide RecordOf, TokenAt, Member;
    MemberAt(value, i);
    ChildBeneath(value, prefix, i, place.tokens);
    var rest := place.tokens[|prefix|..];
    assert rest[0] == TokenAt(value, i) && rest[1..] == place.tokens[|prefix| + 1..];
  }

  lemma {:induction false} LedIsPlace(value: Value, prefix: seq<string>, suffix: seq<string>, record: Candidate)
    requires WellFormed(value) && Resolve(value, suffix).Some? && RecordOf(Resolve(value, suffix).value) == Some(record)
    ensures Place(prefix + suffix, record) in Places(value, prefix)
    decreases |suffix|
  {
    hide RecordOf, TokenAt, ChildAt, Arity, Member, Places, PlacesFrom, WellFormed;
    if suffix == [] {
      assert prefix + suffix == prefix;
      OwnIsPlace(value, prefix);
    } else {
      var i := MemberIsChild(value, suffix[0]);
      ChildWellFormed(value, i);
      LedIsPlace(ChildAt(value, i), prefix + [suffix[0]], suffix[1..], record);
      assert prefix + [suffix[0]] + suffix[1..] == prefix + suffix;
      ChildPlaceIsPlace(value, prefix, 0, i, Place(prefix + suffix, record));
      LaterIsPlace(value, prefix, Place(prefix + suffix, record));
    }
  }

  lemma OwnIsPlace(value: Value, prefix: seq<string>)
    ensures RecordOf(value).Some? ==> Place(prefix, RecordOf(value).value) in Places(value, prefix)
  {
  }

  lemma LaterIsPlace(value: Value, prefix: seq<string>, place: Place)
    requires place in PlacesFrom(value, prefix, 0)
    ensures place in Places(value, prefix)
  {
  }

  lemma {:induction false} ChildPlaceIsPlace(value: Value, prefix: seq<string>, i: nat, j: nat, place: Place)
    requires i <= j < Arity(value) && place in Places(ChildAt(value, j), prefix + [TokenAt(value, j)])
    ensures place in PlacesFrom(value, prefix, i)
    decreases j - i
  {
    hide TokenAt, Places, Arity;
    if i < j {
      ChildPlaceIsPlace(value, prefix, i + 1, j, place);
    }
  }

  // The walk

  /** Every selector but that of the whole record, evaluated as a JSON Pointer, reaches an object with
      exactly the record it was yielded with. */
  lemma SelectorsReachTheirRecords(root: Value, k: nat)
    requires WellFormed(root) && k < |Walk(root, "")| && (k == 0 ==> RecordOf(root) == None)
    ensures var y := Walk(root, "")[k];
            && Evaluate(root, y.selector).Some?
            && RecordOf(Evaluate(root, y.selector).value) == Some(y.record)
  {
    hide Walk, Pointer, Tokens;
    WalkShowsPlaces(root, []);
    PointerOfNothing();
    PlacesLead(root, []);
    PlacesDistinct(root, []);
    var place := Places(root, [])[k];
    assert LeadsTo(root, [], place) && place.tokens[0..] == place.tokens;
    assert place.tokens != [] by {
      OnlyFirstIsRoot(root, k);
    }
    PointerRoundTrip(place.tokens);
  }

  lemma OnlyFirstIsRoot(root: Value, k: nat)
    requires k < |Places(root, [])|
    ensures Places(root, [])[k].tokens == [] <==> k == 0 && RecordOf(root).Some?
  {
    hide RecordOf;
    PlacesFromStart(root, [], 0);
    forall l | 0 <= l < |PlacesFrom(root, [], 0)|
      ensures PlacesFrom(root, [], 0)[l].tokens != []
    {
      assert Beneath(root, [], 0, PlacesFrom(root, [], 0)[l].tokens);
    }
  }

  /** The selector of the whole record is a slash, and a slash evaluates to the member with the empty name. */
  lemma RootSelectorIsAnotherMember(root: Value)
    requires RecordOf(root).Some?
    ensures Walk(root, "") != [] && Walk(root, "")[0] == Yield("/", RecordOf(root).value)
    ensures Evaluate(root, "/") == Member(root, "")
  {
    OnlyDictsAreRecords(root);
    hide RecordOf, WalkFields, Member, Tokens;
    SlashIsEmptyName();
    PointerRoundTrip([""]);
    assert [""][1..] == [];
  }

  /** And every object with an artifact path is yielded, under the pointer that reaches it. */
  lemma RecordsAreYielded(root: Value, tokens: seq<string>, record: Candidate)
    requires WellFormed(root) && Resolve(root, tokens).Some? && RecordOf(Resolve(root, tokens).value) == Some(record)
    ensures Yield(Shown(tokens), record) in Walk(root, "")
  {
    hide Walk, Pointer, Resolve, RecordOf;
    WalkShowsPlaces(root, []);
    PointerOfNothing();
    LedIsPlace(root, [], tokens, record);
    assert [] + tokens == tokens;
    var k :| 0 <= k < |Places(root, [])| && Places(root, [])[k] == Place(tokens, record);
    assert Walk(root, "")[k] == Yield(Shown(tokens), record);
  }

  ghost predicate AllDistinct(shown: seq<Yield>) {
    forall k, l :: 0 <= k < l < |shown| ==> shown[k].selector != shown[l].selector
  }

  /** The whole record is shown as a slash, which is the pointer of the member with the empty name. */
  predicate RootClashes(root: Value) {
    RecordOf(root).Some? && HasKey(root.fields, "") && RecordOf(Get(root.fields, "")).Some?
  }

  /** No two selectors are equal, unless the whole record is one and so is its member with the empty
      name: those two share a slash. */
  lemma SelectorsDistinctExactly(root: Value)
    requires WellFormed(root)
    ensures AllDistinct(Walk(root, "")) <==> !RootClashes(root)
  {
    hide Walk, Pointer, RecordOf, Resolve, Member, HasKey, Get;
    WalkShowsPlaces(root, []);
    PointerOfNothing();
    var shown, places := Walk(root, ""), Places(root, []);
    assert Pointer([""]) == "/" by {
      SlashIsEmptyName();
    }
    if RootClashes(root) {
      EmptyNameIsPlace(root);
      var k :| 0 <= k < |places| && places[k].tokens == [""];
      OnlyFirstIsRoot(root, 0);
      assert shown[0].selector == shown[k].selector;
    } else {
      forall k, l | 0 <= k < l < |shown|
        ensures shown[k].selector != shown[l].selector
      {
        PlacesDistinct(root, []);
        OnlyFirstIsRoot(root, k);
        OnlyFirstIsRoot(root, l);
        PointerRoundTrip(places[l].tokens);
        if places[k].tokens == [] {
          PointerRoundTrip([""]);
          if places[l].tokens == [""] {
            PlacesLead(root, []);
            assert LeadsTo(root, [], places[l]);
            EmptyNameClashes(root, places[l]);
          }
        } else {
          PointerRoundTrip(places[k].tokens);
        }
      }
    }
  }

  lemma SlashIsEmptyName()
    ensures Pointer([""]) == "/"
  {
  }

  lemma EmptyNameIsPlace(root: Value)
    requires WellFormed(root) && RootClashes(root)
    ensures |Places(root, [])| > 0 && exists k :: 0 <= k < |Places(root, [])| && Places(root, [])[k].tokens == [""]
  {
    var record := RecordOf(Get(root.fields, "")).value;
    assert Resolve(root, [""]) == Some(Get(root.fields, "")) by {
      assert [""][1..] == [];
    }
    hide Places, RecordOf;
    LedIsPlace(root, [], [""], record);
    assert [] + [""] == [""];
  }

  lemma EmptyNameClashes(root: Value, place: Place)
    requires RecordOf(root).Some? && place.tokens == [""] && LeadsTo(root, [], place)
    ensures RootClashes(root)
  {
    assert place.tokens[0..] == [""] && [""][1..] == [];
  }

  // A concrete record for each of the two failures.

  /** The record {"path": "a"} is shown as a slash, and a slash names nothing in it. */
  lemma RootSelectorNamesNothing()
    ensures var root := Dict([Field("path", Str("a"))]);
            && Walk(root, "") != [] && Walk(root, "")[0] == Yield("/", Candidate("a", None))
            && Evaluate(root, "/") == None
  {
    hide Walk, Evaluate;
    var root := Dict([Field("path", Str("a"))]);
    OnlyPath("a");
    RootSelectorIsAnotherMember(root);
  }

  lemma OnlyPath(path: string)
    ensures RecordOf(Dict([Field("path", Str(path))])) == Some(Candidate(path, None))
    ensures Member(Dict([Field("path", Str(path))]), "") == None
  {
    var fields := [Field("path", Str(path))];
    assert fields[1..] == [];
    assert "" != "path";
    HashKeysDiffer();
    assert forall k :: k in HASH_KEYS ==> Get(fields, k) == Null;
    NoText(fields, HASH_KEYS);
  }

  lemma {:induction false} NoText(fields: seq<Field>, keys: seq<string>)
    requires forall k :: k in keys ==> !Get(fields, k).Str?
    ensures FirstText(fields, keys) == None
  {
    if keys != [] {
      NoText(fields, keys[1..]);
    }
  }

  lemma HashKeysDiffer()
    ensures "sha256" != "path" && "receipt_sha256" != "path" && "artifact_sha256" != "path"
  {
    assert |"path"| == 4;
  }

  /** In {"": {"path": "b"}, "path": "a"} the whole record and its member share the slash. */
  lemma SelectorsClash()
    ensures var root := Dict([Field("", Dict([Field("path", Str("b"))])), Field("path", Str("a"))]);
            WellFormed(root) && !AllDistinct(Walk(root, ""))
  {
    hide Walk;
    var member := Dict([Field("path", Str("b"))]);
    var root := Dict([Field("", member), Field("path", Str("a"))]);
    OnlyPath("b");
    assert "" != "path";
    assert root.fields[1..] == [Field("path", Str("a"))];
    assert Get(root.fields, "path") == Str("a") && Get(root.fields, "") == member;
    assert FirstText(root.fields, PATH_KEYS) == Some("a");
    assert HasKey(root.fields, "") by {
      assert root.fields[0].key == "";
    }
    assert RootClashes(root);
    SelectorsDistinctExactly(root);
  }
}
