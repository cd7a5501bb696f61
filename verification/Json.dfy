/** JSON values as the ledger handles them, and the redaction applied to everything it writes. */
module Json {
  datatype Value =
    | Null
    | Bool(b: bool)
    | Num(n: int)
    | Str(s: string)
    | List(items: seq<Value>)
    | Dict(fields: seq<Field>)

  /** Objects keep the order of their keys. */
  datatype Field = Field(key: string, value: Value)

  function LowerChar(c: char): char {
    if 'A' <= c <= 'Z' then (c as int + 32) as char else c
  }

  function Lower(s: string): (r: string)
    ensures |r| == |s| && forall i :: 0 <= i < |s| ==> r[i] == LowerChar(s[i])
  {
    seq(|s|, i requires 0 <= i < |s| => LowerChar(s[i]))
  }

  predicate Occurs(word: string, s: string) {
    exists i :: 0 <= i <= |s| - |word| && OccursAt(word, s, i)
  }

  predicate OccursAt(word: string, s: string, i: nat)
    requires i + |word| <= |s|
  {
    s[i..i + |word|] == word
  }

  const REDACTED_WORDS := ["secret", "password", "passwd", "cookie", "credential", "access_token", "refresh_token",
                           "api_key"]

  predicate Sensitive(key: string) {
    exists w :: w in REDACTED_WORDS && Occurs(w, Lower(key))
  }

  const REDACTED := Str("[redacted]")

  /** The value as it reaches disk: anything under a credential-like key is replaced, at any depth. */
  function Safe(value: Value, key: string): Value {
    if Sensitive(key) then REDACTED
    else
      match value
      case Dict(fields) => Dict(seq(|fields|,
          i requires 0 <= i < |fields| => Field(fields[i].key, Safe(fields[i].value, fields[i].key))))
      case List(items) => List(seq(|items|, i requires 0 <= i < |items| => Safe(items[i], key)))
      case _ => value
  }

  /** Redacting what has been redacted changes nothing. The write-ahead log is checksummed over
      redacted documents and redacted again when written, so acceptance on recovery needs this. */
  lemma {:induction false} SafeIdempotent(value: Value, key: string)
    ensures Safe(Safe(value, key), key) == Safe(value, key)
  {
    if !Sensitive(key) {
      match value
      case Dict(fields) =>
        forall i | 0 <= i < |fields|
          ensures Safe(Safe(fields[i].value, fields[i].key), fields[i].key) == Safe(fields[i].value, fields[i].key)
        {
          SafeIdempotent(fields[i].value, fields[i].key);
        }
      case List(items) =>
        forall i | 0 <= i < |items|
          ensures Safe(Safe(items[i], key), key) == Safe(items[i], key)
        {
          SafeIdempotent(items[i], key);
        }
      case _ =>
    }
  }

  /** What a redacted value can still show under a credential-like key. */
  ghost predicate Leaks(value: Value, key: string) {
    if Sensitive(key) then value != REDACTED
    else
      match value
      case Dict(fields) => exists i :: 0 <= i < |fields| && Leaks(fields[i].value, fields[i].key)
      case List(items) => exists i :: 0 <= i < |items| && Leaks(items[i], key)
      case _ => false
  }

  /** Redaction is exact: it leaves a value alone if and only if nothing leaks from it. */
  lemma {:induction false} SafeExact(value: Value, key: string)
    ensures Safe(value, key) == value <==> !Leaks(value, key)
  {
    if !Sensitive(key) {
      match value
      case Dict(fields) =>
        forall i | 0 <= i < |fields|
          ensures Safe(fields[i].value, fields[i].key) == fields[i].value <==> !Leaks(fields[i].value, fields[i].key)
        {
          SafeExact(fields[i].value, fields[i].key);
        }
        var again := Safe(value, key);
        assert forall i :: 0 <= i < |fields| ==>
               again.fields[i] == Field(fields[i].key, Safe(fields[i].value, fields[i].key));
        if !Leaks(value, key) {
          assert again.fields == fields;
        }
      case List(items) =>
        forall i | 0 <= i < |items|
          ensures Safe(items[i], key) == items[i] <==> !Leaks(items[i], key)
        {
          SafeExact(items[i], key);
        }
        var again := Safe(value, key);
        assert forall i :: 0 <= i < |items| ==> again.items[i] == Safe(items[i], key);
        if !Leaks(value, key) {
          assert again.items == items;
        }
      case _ =>
    }
  }

  /** Nothing leaks from what has been redacted. */
  lemma SafeHidesAll(value: Value, key: string)
    ensures !Leaks(Safe(value, key), key)
  {
  }

  /** The key has one of the eight words somewhere in it, spelled in any case. */
  ghost predicate Spells(key: string, before: string, spelled: string, after: string) {
    && key == before + spelled + after
    && Lower(spelled) in {"secret", "password", "passwd", "cookie", "credential", "access_token", "refresh_token",
                          "api_key"}
  }

  lemma LowerSlice(s: string, i: nat, j: nat)
    requires i <= j <= |s|
    ensures Lower(s[i..j]) == Lower(s)[i..j]
  {
    hide LowerChar;
  }

  lemma SensitiveSpells(key: string)
    requires Sensitive(key)
    ensures exists before, spelled, after :: Spells(key, before, spelled, after)
  {
    hide Lower;
    var w :| w in REDACTED_WORDS && Occurs(w, Lower(key));
    var i: nat :| i + |w| <= |Lower(key)| && OccursAt(w, Lower(key), i);
    LowerSlice(key, i, i + |w|);
    SliceSplits(key, i, i + |w|);
    assert Spells(key, key[..i], key[i..i + |w|], key[i + |w|..]);
  }

  lemma SliceSplits(s: string, i: nat, j: nat)
    requires i <= j <= |s|
    ensures s == s[..i] + s[i..j] + s[j..]
  {
  }

  lemma SpelledIsSensitive(key: string, before: string, spelled: string, after: string)
    requires Spells(key, before, spelled, after)
    ensures Sensitive(key)
  {
    hide LowerChar;
    var w, i := Lower(spelled), |before|;
    assert Lower(key)[i..i + |w|] == w;
    assert OccursAt(w, Lower(key), i) && Occurs(w, Lower(key));
    WordsAreListed(w);
  }

  lemma WordsAreListed(w: string)
    requires w in {"secret", "password", "passwd", "cookie", "credential", "access_token", "refresh_token", "api_key"}
    ensures w in REDACTED_WORDS
  {
    var words := REDACTED_WORDS;
    assert words[0] == "secret" && words[1] == "password" && words[2] == "passwd" && words[3] == "cookie";
    assert words[4] == "credential" && words[5] == "access_token" && words[6] == "refresh_token";
    assert words[7] == "api_key";
  }

  /** A key is sensitive if and only if it spells one of the words, whatever stands around it. */
  lemma SensitiveExactly(key: string)
    ensures Sensitive(key) <==> exists before, spelled, after :: Spells(key, before, spelled, after)
  {
    hide Sensitive, Spells;
    if Sensitive(key) {
      SensitiveSpells(key);
    }
    if before, spelled, after :| Spells(key, before, spelled, after) {
      SpelledIsSensitive(key, before, spelled, after);
    }
  }

  lemma NoOccurrence(word: string, s: string)
    requires |word| > 0
    requires forall i :: 0 <= i <= |s| - |word| ==> s[i] != word[0]
    ensures !Occurs(word, s)
  {
    forall i | 0 <= i <= |s| - |word|
      ensures !OccursAt(word, s, i)
    {
      assert s[i..i + |word|][0] != word[0];
    }
  }

  lemma RevisionIsNotSensitive()
    ensures !Sensitive("revision")
  {
    var s := Lower("revision");
    assert s[0] == 'r' && s[1] == 'e' && s[2] == 'v';
    NoOccurrence("secret", s);
    NoOccurrence("password", s);
    NoOccurrence("passwd", s);
    NoOccurrence("cookie", s);
    NoOccurrence("credential", s);
    NoOccurrence("access_token", s);
    NoOccurrence("refresh_token", s);
    NoOccurrence("api_key", s);
  }

  function Get(fields: seq<Field>, key: string): Value {
    if fields == [] then Null
    else if fields[0].key == key then fields[0].value
    else Get(fields[1..], key)
  }

  predicate HasKey(fields: seq<Field>, key: string) {
    exists i :: 0 <= i < |fields| && fields[i].key == key
  }

  /** Assigning to a key: in place if it is there, at the end if not. */
  function Put(fields: seq<Field>, key: string, value: Value): (r: seq<Field>)
    ensures Get(r, key) == value
    ensures !HasKey(fields, key) ==> r == fields + [Field(key, value)]
  {
    if fields == [] then [Field(key, value)]
    else if fields[0].key == key then [Field(key, value)] + fields[1..]
    else [fields[0]] + Put(fields[1..], key, value)
  }
}
