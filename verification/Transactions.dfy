/** The transaction a commit prepares, and what it makes of the store, document by document and event by
    event. */
module Transactions {
  import opened Json
  import opened DurableModel

  datatype Spec = Spec(kind: string, detail: Object)

  /** The transaction a commit prepares on top of the store b. */
  function TransactionBody(b: Book, updates: map<DocKey, Object>, specs: seq<Spec>, first: Token, now: Time): Body
    requires Meta in b.docs
  {
    var revision := RevisionOf(b.docs[Meta]) + 1;
    Body(
      revision,
      map k | k in updates.Keys + {Meta} ::
        if k == Meta then WithRevision(b.docs[Meta], revision) else Stamp(SafeObject(updates[k]), revision),
      seq(|specs|, i requires 0 <= i < |specs|
          => Draft(first + i, now, specs[i].kind, revision, SafeObject(specs[i].detail))))
  }

  // What is written

  /** The first field of its key; keys are unique in any document there is. */
  predicate IsFirst(fields: seq<Field>, key: string, i: nat)
    requires i < |fields|
  {
    fields[i].key == key && forall j :: 0 <= j < i ==> fields[j].key != key
  }

  /** The caller's keys in the caller's order, each with the caller's value redacted, but for the revision. */
  ghost predicate WrittenAs(doc: Object, out: Object, revision: int) {
    && |out.fields| == |doc.fields|
    && forall i :: 0 <= i < |doc.fields| ==>
         && out.fields[i].key == doc.fields[i].key
         && out.fields[i].value == if IsFirst(doc.fields, "revision", i) then Num(revision)
                                   else Safe(doc.fields[i].value, doc.fields[i].key)
  }

  /** The same document under a new revision number; it gets one if it had none. */
  ghost predicate Renumbered(doc: Object, out: Object, revision: int) {
    if HasKey(doc.fields, "revision") then
      && |out.fields| == |doc.fields|
      && forall i :: 0 <= i < |doc.fields| ==>
           out.fields[i] == if IsFirst(doc.fields, "revision", i) then Field("revision", Num(revision))
                            else doc.fields[i]
    else out.fields == doc.fields + [Field("revision", Num(revision))]
  }

  /** What a commit of these updates and events makes of the documents and the log: each updated document is
      the caller's, redacted and numbered; the metadata changes in its revision alone; no other document
      changes; and the log goes on with the caller's events in order. */
  ghost predicate HasCommitted(before: Book, after: Book, updates: map<DocKey, Object>, specs: seq<Spec>,
                               first: Token, now: Time) {
    && Meta in before.docs && Meta in after.docs
    && var revision := RevisionOf(before.docs[Meta]) + 1;
       && after.docs.Keys == before.docs.Keys + updates.Keys
       && Renumbered(before.docs[Meta], after.docs[Meta], revision)
       && (forall k :: k in updates && k != Meta ==> WrittenAs(updates[k], after.docs[k], revision))
       && (forall k :: k in before.docs && k !in updates && k != Meta ==> after.docs[k] == before.docs[k])
       && |after.events| == |before.events| + |specs|
       && (forall i :: 0 <= i < |before.events| ==> after.events[i] == before.events[i])
       && forall i :: 0 <= i < |specs| ==>
            after.events[|before.events| + i]
            == Event(|before.events| + i, first + i, now, specs[i].kind, revision, Safe(specs[i].detail, ""))
  }

  lemma {:induction false} PutAt(fields: seq<Field>, key: string, value: Value)
    requires HasKey(fields, key)
    ensures |Put(fields, key, value)| == |fields|
    ensures forall i :: 0 <= i < |fields| ==>
              Put(fields, key, value)[i] == if IsFirst(fields, key, i) then Field(key, value) else fields[i]
  {
    if fields[0].key != key {
      hide IsFirst;
      KeyInRest(fields, key);
      PutAt(fields[1..], key, value);
      forall i | 0 < i < |fields|
        ensures IsFirst(fields, key, i) <==> IsFirst(fields[1..], key, i - 1)
      {
        FirstInRest(fields, key, i);
      }
      assert !IsFirst(fields, key, 0) by {
        NotFirst(fields, key);
      }
    }
  }

  lemma NotFirst(fields: seq<Field>, key: string)
    requires fields != [] && fields[0].key != key
    ensures !IsFirst(fields, key, 0)
  {
  }

  lemma KeyInRest(fields: seq<Field>, key: string)
    requires HasKey(fields, key) && fields[0].key != key
    ensures HasKey(fields[1..], key)
  {
    var i :| 0 <= i < |fields| && fields[i].key == key;
    assert fields[1..][i - 1].key == key;
  }

  lemma FirstInRest(fields: seq<Field>, key: string, i: nat)
    requires 0 < i < |fields| && fields[0].key != key
    ensures IsFirst(fields, key, i) <==> IsFirst(fields[1..], key, i - 1)
  {
    var rest := fields[1..];
    assert forall j :: 0 < j < |fields| ==> fields[j] == rest[j - 1];
    if IsFirst(rest, key, i - 1) {
      forall j | 0 < j < i
        ensures fields[j].key != key
      {
        assert rest[j - 1].key != key;
      }
    }
  }

  lemma RenumberedIs(doc: Object, revision: int)
    ensures Renumbered(doc, WithRevision(doc, revision), revision)
  {
    if HasKey(doc.fields, "revision") {
      PutAt(doc.fields, "revision", Num(revision));
    }
  }

  lemma SafeFields(doc: Object)
    ensures |SafeObject(doc).fields| == |doc.fields|
    ensures forall i :: 0 <= i < |doc.fields| ==>
              SafeObject(doc).fields[i] == Field(doc.fields[i].key, Safe(doc.fields[i].value, doc.fields[i].key))
  {
  }

  lemma StampIs(doc: Object, revision: int)
    ensures WrittenAs(doc, Stamp(SafeObject(doc), revision), revision)
  {
    hide SafeObject, Safe;
    SafeFields(doc);
    var safe := SafeObject(doc);
    assert forall i :: 0 <= i < |doc.fields| ==> safe.fields[i].key == doc.fields[i].key;
    assert forall i :: 0 <= i < |doc.fields| ==>
             (IsFirst(safe.fields, "revision", i) <==> IsFirst(doc.fields, "revision", i));
    if HasKey(safe.fields, "revision") {
      PutAt(safe.fields, "revision", Num(revision));
    } else {
      assert forall i :: 0 <= i < |doc.fields| ==> safe.fields[i].key != "revision";
    }
  }

  /** Applying the prepared transaction is what a commit is to do. */
  lemma BodyCommits(b: Book, updates: map<DocKey, Object>, specs: seq<Spec>, first: Token, now: Time)
    requires Meta in b.docs
    ensures HasCommitted(b, Apply(b, TransactionBody(b, updates, specs, first, now)), updates, specs, first, now)
  {
    hide SafeObject, Stamp, WithRevision, Renumbered, WrittenAs, RevisionOf;
    var revision := RevisionOf(b.docs[Meta]) + 1;
    RenumberedIs(b.docs[Meta], revision);
    forall k | k in updates
      ensures WrittenAs(updates[k], Stamp(SafeObject(updates[k]), revision), revision)
    {
      StampIs(updates[k], revision);
    }
    forall i | 0 <= i < |specs|
      ensures SafeObject(specs[i].detail) == Safe(specs[i].detail, "")
    {
      SafeObjectIs(specs[i].detail);
    }
  }

  lemma SafeObjectIs(v: Object)
    ensures SafeObject(v) == Safe(v, "")
  {
  }

  // The metadata document

  /** The metadata holds the schema and the number of transactions, and nothing else. */
  ghost predicate Counts(b: Book, n: int) {
    Meta in b.docs && b.docs[Meta] == Dict([Field("schema", SCHEMA), Field("revision", Num(n))])
  }

  lemma EmptyCounts()
    ensures Counts(EMPTY_BOOK, 0)
  {
    hide Sensitive;
    RevisionIsNotSensitive();
    SchemaIsNotSensitive();
    SafeFields(Default(Meta));
    assert SafeObject(Default(Meta)).fields == [Field("schema", SCHEMA), Field("revision", Num(0))];
  }

  lemma SchemaIsNotSensitive()
    ensures !Sensitive("schema")
  {
    var s := Lower("schema");
    assert s[0] == 's' && s[1] == 'c';
    assert s[0..6][1] != "secret"[1] && !OccursAt("secret", s, 0);
    NoOccurrence("cookie", s);
    NoOccurrence("passwd", s);
  }

  /** Every commit raises the number in the metadata by one. */
  lemma CommitCounts(before: Book, after: Book, updates: map<DocKey, Object>, specs: seq<Spec>, first: Token, now: Time,
                     n: int)
    requires HasCommitted(before, after, updates, specs, first, now) && Counts(before, n)
    ensures Counts(after, n + 1)
  {
    var fields := before.docs[Meta].fields;
    assert fields[1].key == "revision" && fields[0].key == "schema";
    assert |"schema"| == 6 && |"revision"| == 8;
    assert IsFirst(fields, "revision", 1) && !IsFirst(fields, "revision", 0) && HasKey(fields, "revision");
    assert Get(fields, "revision") == Num(n) by {
      assert fields[1..][0] == fields[1];
    }
  }
}
