/** The coordination directory as values: documents, event log, prepared transactions, and the
    atomic store they stand for. */
module DurableModel {
  import opened Json

  type Token = nat
  type Time = int

  type Object = v: Value | v.Dict? witness Dict([])

  datatype DocKey = Meta | Workers | Tasks | Leases | Quotas | Checkpoints | Results | Requests | Operations | Inbox
    | Outbox | Handoffs

  const ALL_DOCS: set<DocKey> := {Meta, Workers, Tasks, Leases, Quotas, Checkpoints, Results, Requests, Operations,
                                  Inbox, Outbox, Handoffs}

  const SCHEMA := Str("rigorloom/coordination-state-v1")

  function Plural(key: DocKey): string {
    match key
    case Meta => ""
    case Workers => "workers"
    case Tasks => "tasks"
    case Leases => "leases"
    case Quotas => "snapshots"
    case Checkpoints => "checkpoints"
    case Results => "results"
    case Requests => "requests"
    case Operations => "operations"
    case Inbox => "messages"
    case Outbox => "messages"
    case Handoffs => "handoffs"
  }

  function Default(key: DocKey): Object {
    var head := [Field("schema", SCHEMA), Field("revision", Num(0))];
    if key == Meta then Dict(head)
    else if key == Inbox || key == Outbox
      then Dict(head + [Field(Plural(key), Dict([])), Field("acknowledged_ids", List([]))])
    else Dict(head + [Field(Plural(key), Dict([]))])
  }

  lemma EmptyKeyIsNotSensitive()
    ensures !Sensitive("")
  {
  }

  function SafeObject(v: Object): Object {
    EmptyKeyIsNotSensitive();
    Safe(v, "")
  }

  /** Already redacted: writing it again changes nothing. */
  predicate Clean(v: Object) {
    SafeObject(v) == v
  }

  function RevisionOf(v: Object): int {
    match Get(v.fields, "revision")
    case Num(n) => n
    case _ => 0
  }

  function WithRevision(v: Object, revision: int): Object {
    Dict(Put(v.fields, "revision", Num(revision)))
  }

  function Stamp(v: Object, revision: int): Object {
    if HasKey(v.fields, "revision") then WithRevision(v, revision) else v
  }

  lemma SafeObjectIsClean(v: Object)
    ensures Clean(SafeObject(v))
  {
    SafeIdempotent(v, "");
  }

  ghost predicate FieldsClean(fields: seq<Field>) {
    forall i :: 0 <= i < |fields| ==> Safe(fields[i].value, fields[i].key) == fields[i].value
  }

  lemma CleanFields(v: Object)
    ensures Clean(v) <==> FieldsClean(v.fields)
  {
  }

  lemma {:induction false} PutClean(fields: seq<Field>, key: string, value: Value)
    requires FieldsClean(fields) && Safe(value, key) == value
    ensures FieldsClean(Put(fields, key, value))
  {
    if fields != [] && fields[0].key != key {
      PutClean(fields[1..], key, value);
    }
  }

  lemma StampClean(v: Object, revision: int)
    requires Clean(v)
    ensures Clean(Stamp(v, revision)) && Clean(WithRevision(v, revision))
  {
    RevisionIsNotSensitive();
    CleanFields(v);
    PutClean(v.fields, "revision", Num(revision));
    CleanFields(WithRevision(v, revision));
  }

  /** An event as the log records it, and as a transaction carries it before it has a position. */
  datatype Event = Event(seqNo: nat, id: Token, at: Time, kind: string, revision: int, detail: Object)
  datatype Draft = Draft(id: Token, at: Time, kind: string, revision: int, detail: Object)

  /** One line of events.jsonl: a whole record, or the unreadable start of one. */
  datatype Content = Record(event: Event) | Garbage
  datatype Line = Line(content: Content, newline: bool)

  datatype Body = Body(revision: int, updates: map<DocKey, Object>, events: seq<Draft>)

  /** A prepared transaction file. The checksum is the hashed content, hashing taken as injective. */
  datatype Wal = Wal(body: Body, checksum: Body)

  datatype Disk = Disk(docs: map<DocKey, Object>, log: seq<Line>, wals: seq<Wal>)

  /** The specification: a store whose transactions happen all at once. */
  datatype Book = Book(docs: map<DocKey, Object>, events: seq<Event>)

  function Number(seqNo: nat, d: Draft): Event {
    Event(seqNo, d.id, d.at, d.kind, d.revision, d.detail)
  }

  function Numbered(start: nat, drafts: seq<Draft>): (r: seq<Event>)
    ensures |r| == |drafts| && forall i :: 0 <= i < |r| ==> r[i] == Number(start + i, drafts[i])
  {
    seq(|drafts|, i requires 0 <= i < |drafts| => Number(start + i, drafts[i]))
  }

  function Apply(b: Book, t: Body): Book {
    Book(b.docs + t.updates, b.events + Numbered(|b.events|, t.events))
  }

  const EMPTY_BOOK: Book := Book(map k | k in ALL_DOCS :: SafeObject(Default(k)), [])

  function Replay(history: seq<Body>): Book {
    if history == [] then EMPTY_BOOK else Apply(Replay(history[..|history| - 1]), history[|history| - 1])
  }

  function Events(log: seq<Line>): seq<Event> {
    if log == [] then []
    else
      var rest := Events(log[..|log| - 1]);
      match log[|log| - 1].content
      case Record(e) => rest + [e]
      case Garbage => rest
  }

  function Ids(events: seq<Event>): (r: set<Token>)
    ensures forall i :: 0 <= i < |events| ==> events[i].id in r
  {
    set i | 0 <= i < |events| :: events[i].id
  }

  /** The drafts not in the log yet, in order. */
  function Missing(drafts: seq<Draft>, ids: set<Token>): seq<Draft> {
    if drafts == [] then []
    else if drafts[0].id in ids then Missing(drafts[1..], ids)
    else [drafts[0]] + Missing(drafts[1..], ids)
  }

  function FilledDocs(docs: map<DocKey, Object>): map<DocKey, Object> {
    map k | k in ALL_DOCS :: if k in docs then docs[k] else SafeObject(Default(k))
  }

  /** The store a directory stands for: what is there, with a prepared transaction completed. */
  function Abs(d: Disk): Book {
    var events := Events(d.log);
    if d.wals == [] then Book(FilledDocs(d.docs), events)
    else
      var t := d.wals[0].body;
      Book(FilledDocs(d.docs) + t.updates, events + Numbered(|events|, Missing(t.events, Ids(events))))
  }

  /** Appending to a file whose last line has no newline runs the two lines together. */
  function AppendLine(log: seq<Line>, line: Line): seq<Line> {
    if log != [] && !log[|log| - 1].newline
    then log[..|log| - 1] + [Line(Garbage, line.newline)]
    else log + [line]
  }

  /** The tail repair: an unreadable last line goes, a readable one is terminated. */
  function Repaired(log: seq<Line>): seq<Line> {
    if log == [] then log
    else if log[|log| - 1].content.Garbage? then log[..|log| - 1]
    else log[..|log| - 1] + [log[|log| - 1].(newline := true)]
  }

  predicate Terminated(log: seq<Line>) {
    forall i :: 0 <= i < |log| ==> log[i].content.Record? && log[i].newline
  }

  /** Only the last line may be torn. */
  predicate TornAtMostLast(log: seq<Line>) {
    log == [] || Terminated(log[..|log| - 1])
  }

  predicate DistinctIds(drafts: seq<Draft>, bound: Token) {
    && (forall i :: 0 <= i < |drafts| ==> drafts[i].id < bound)
    && forall i, j :: 0 <= i < j < |drafts| ==> drafts[i].id != drafts[j].id
  }

  /** Every event once, numbered by its position. */
  predicate LogOk(events: seq<Event>, bound: Token) {
    && (forall i :: 0 <= i < |events| ==> events[i].seqNo == i && events[i].id < bound)
    && forall i, j :: 0 <= i < j < |events| ==> events[i].id != events[j].id
  }

  /** The log ends with the first n events of the transaction and has none of the others. */
  predicate Appended(events: seq<Event>, drafts: seq<Draft>, n: nat) {
    && n <= |drafts| && n <= |events|
    && events[|events| - n..] == Numbered(|events| - n, drafts[..n])
    && forall i :: n <= i < |drafts| ==> drafts[i].id !in Ids(events)
  }

  predicate BodyOk(t: Body, bound: Token) {
    && Meta in t.updates
    && t.updates.Keys <= ALL_DOCS
    && (forall k :: k in t.updates ==> Clean(t.updates[k]))
    && (forall i :: 0 <= i < |t.events| ==> Clean(t.events[i].detail) && t.events[i].revision == t.revision)
    && DistinctIds(t.events, bound)
  }

  ghost predicate PendingOk(d: Disk, w: Wal, bound: Token) {
    && w.checksum == w.body
    && BodyOk(w.body, bound)
    && exists n: nat :: Appended(Events(d.log), w.body.events, n)
  }

  /** What is true of the directory between any two durable writes. */
  ghost predicate DiskOk(d: Disk, bound: Token) {
    && d.docs.Keys <= ALL_DOCS
    && (forall k :: k in d.docs ==> Clean(d.docs[k]))
    && TornAtMostLast(d.log)
    && LogOk(Events(d.log), bound)
    && |d.wals| <= 1
    && (d.wals != [] ==> PendingOk(d, d.wals[0], bound))
  }

  lemma EventsSnoc(log: seq<Line>, line: Line)
    ensures Events(log + [line]) == match line.content case Record(e) => Events(log) + [e] case Garbage => Events(log)
  {
  }

  lemma {:induction false} TerminatedCount(log: seq<Line>)
    requires Terminated(log)
    ensures |Events(log)| == |log|
  {
    if log != [] {
      TerminatedCount(log[..|log| - 1]);
    }
  }

  lemma RepairedOk(log: seq<Line>)
    requires TornAtMostLast(log)
    ensures Terminated(Repaired(log)) && Events(Repaired(log)) == Events(log)
  {
  }

  /** With n events of the transaction in the log, what recovery still finds missing is the rest. */
  lemma MissingIsRest(events: seq<Event>, drafts: seq<Draft>, n: nat, bound: Token)
    requires DistinctIds(drafts, bound) && Appended(events, drafts, n)
    ensures Missing(drafts, Ids(events)) == drafts[n..]
  {
    forall i | 0 <= i < n
      ensures drafts[i].id in Ids(events)
    {
      assert events[|events| - n..][i] == Numbered(|events| - n, drafts[..n])[i];
      assert events[|events| - n + i].id == drafts[i].id;
    }
    MissingSplit(drafts, n, Ids(events));
  }

  lemma {:induction false} MissingSplit(drafts: seq<Draft>, n: nat, ids: set<Token>)
    requires n <= |drafts|
    requires forall i :: 0 <= i < n ==> drafts[i].id in ids
    requires forall i :: n <= i < |drafts| ==> drafts[i].id !in ids
    ensures Missing(drafts, ids) == drafts[n..]
  {
    if drafts != [] {
      MissingSplit(drafts[1..], if n == 0 then 0 else n - 1, ids);
      if n == 0 {
        assert drafts == [drafts[0]] + drafts[1..][0..];
      }
    }
  }

  /** One document of the pending transaction reaches disk. */
  lemma WriteKeepsAbs(d: Disk, key: DocKey, bound: Token)
    requires DiskOk(d, bound) && d.wals != [] && key in d.wals[0].body.updates
    ensures var d' := d.(docs := d.docs[key := d.wals[0].body.updates[key]]);
            DiskOk(d', bound) && Abs(d') == Abs(d)
  {
    hide Events, Missing, SafeObject, Clean, LogOk, TornAtMostLast, Appended, DistinctIds, Ids, FilledDocs;
    var t := d.wals[0].body;
    var d' := d.(docs := d.docs[key := t.updates[key]]);
    assert PendingOk(d', d'.wals[0], bound);
    FilledOverwrite(d.docs, t.updates, key);
  }

  lemma FilledOverwrite(docs: map<DocKey, Object>, updates: map<DocKey, Object>, key: DocKey)
    requires key in updates
    ensures FilledDocs(docs[key := updates[key]]) + updates == FilledDocs(docs) + updates
  {
  }

  /** A missing document is created with its default. */
  lemma FillKeepsAbs(d: Disk, key: DocKey, bound: Token)
    requires DiskOk(d, bound) && key !in d.docs
    ensures var d' := d.(docs := d.docs[key := SafeObject(Default(key))]);
            DiskOk(d', bound) && Abs(d') == Abs(d)
  {
    hide Events, Missing, SafeObject, Clean, LogOk, TornAtMostLast, Appended, BodyOk, Default, Ids;
    var d' := d.(docs := d.docs[key := SafeObject(Default(key))]);
    SafeObjectIsClean(Default(key));
    assert key in ALL_DOCS by {
      match key { case _ => }
    }
    assert FilledDocs(d'.docs) == FilledDocs(d.docs);
    if d.wals != [] {
      assert PendingOk(d', d'.wals[0], bound);
    }
  }

  /** The log file changes but still holds the same records. */
  lemma SameEventsKeepAbs(d: Disk, log: seq<Line>, bound: Token)
    requires DiskOk(d, bound) && TornAtMostLast(log) && Events(log) == Events(d.log)
    ensures DiskOk(d.(log := log), bound) && Abs(d.(log := log)) == Abs(d)
  {
    hide Events, Missing, SafeObject, Clean, LogOk, TornAtMostLast, Appended, BodyOk, Ids, FilledDocs;
    if d.wals != [] {
      assert PendingOk(d.(log := log), d.wals[0], bound);
    }
  }

  /** An append that dies part-way leaves an unreadable line, which counts for nothing. */
  lemma TornKeepsAbs(d: Disk, newline: bool, bound: Token)
    requires DiskOk(d, bound) && Terminated(d.log)
    ensures var d' := d.(log := AppendLine(d.log, Line(Garbage, newline)));
            DiskOk(d', bound) && Abs(d') == Abs(d)
  {
    var log := AppendLine(d.log, Line(Garbage, newline));
    assert log == d.log + [Line(Garbage, newline)];
    hide DiskOk, Abs, Events, AppendLine, Terminated, TornAtMostLast;
    EventsSnoc(d.log, Line(Garbage, newline));
    TornSnoc(d.log, Line(Garbage, newline));
    SameEventsKeepAbs(d, log, bound);
  }

  /** The next event of the pending transaction reaches the log, with or without its newline. */
  lemma AppendKeepsAbs(d: Disk, n: nat, newline: bool, bound: Token)
    requires DiskOk(d, bound) && d.wals != [] && Terminated(d.log)
    requires Appended(Events(d.log), d.wals[0].body.events, n) && n < |d.wals[0].body.events|
    ensures var d' := d.(log := AppendLine(d.log, Line(Record(Number(|d.log|, d.wals[0].body.events[n])), newline)));
            && DiskOk(d', bound) && Abs(d') == Abs(d)
            && Appended(Events(d'.log), d.wals[0].body.events, n + 1)
            && d'.log[..|d.log|] == d.log && |d'.log| == |d.log| + 1 && d'.log[|d.log|].content.Record?
               && d'.log[|d.log|].newline == newline
  {
    hide Events, Missing, Clean, TornAtMostLast, FilledDocs, BodyOk, Numbered, Appended, LogOk;
    var t := d.wals[0].body;
    var e := Number(|d.log|, t.events[n]);
    var line := Line(Record(e), newline);
    var d' := d.(log := AppendLine(d.log, line));
    assert d'.log == d.log + [line];
    assert d'.log[..|d.log|] == d.log;
    EventsSnoc(d.log, line);
    TerminatedCount(d.log);
    AppendCompletes(Events(d.log), t, n, bound);
    assert TornAtMostLast(d'.log) by {
      TornSnoc(d.log, line);
    }
    assert PendingOk(d', d'.wals[0], bound);
  }

  lemma TornSnoc(log: seq<Line>, line: Line)
    requires Terminated(log)
    ensures TornAtMostLast(log + [line])
  {
  }

  /** One more event in the log is one less to complete. */
  lemma AppendCompletes(events: seq<Event>, t: Body, n: nat, bound: Token)
    requires BodyOk(t, bound) && LogOk(events, bound)
    requires Appended(events, t.events, n) && n < |t.events|
    ensures var events' := events + [Number(|events|, t.events[n])];
            && LogOk(events', bound) && Appended(events', t.events, n + 1)
            && events' + Numbered(|events'|, Missing(t.events, Ids(events')))
               == events + Numbered(|events|, Missing(t.events, Ids(events)))
  {
    hide Missing, Clean;
    var e := Number(|events|, t.events[n]);
    var events' := events + [e];
    AppendedMore(events, t.events, n, bound);
    MissingIsRest(events, t.events, n, bound);
    MissingIsRest(events', t.events, n + 1, bound);
    assert events' + Numbered(|events'|, t.events[n + 1..]) == events + Numbered(|events|, t.events[n..]);
    assert e.id !in Ids(events);
  }

  lemma AppendedMore(events: seq<Event>, drafts: seq<Draft>, n: nat, bound: Token)
    requires DistinctIds(drafts, bound) && Appended(events, drafts, n) && n < |drafts|
    ensures Appended(events + [Number(|events|, drafts[n])], drafts, n + 1)
  {
  }

  /** Removing the transaction file once everything in it is in place. */
  lemma UnlinkKeepsAbs(d: Disk, bound: Token)
    requires DiskOk(d, bound) && d.wals != []
    requires var t := d.wals[0].body;
             && (forall k :: k in t.updates ==> k in d.docs && d.docs[k] == t.updates[k])
             && Appended(Events(d.log), t.events, |t.events|)
    ensures DiskOk(d.(wals := []), bound) && Abs(d.(wals := [])) == Abs(d)
  {
    var t := d.wals[0].body;
    MissingIsRest(Events(d.log), t.events, |t.events|, bound);
    assert FilledDocs(d.docs) + t.updates == FilledDocs(d.docs);
  }

  /** Preparing the transaction file is the moment the whole transaction happens. */
  lemma PrepareCommits(d: Disk, t: Body, bound: Token, bound': Token)
    requires DiskOk(d, bound) && d.wals == [] && bound <= bound'
    requires BodyOk(t, bound') && forall i :: 0 <= i < |t.events| ==> bound <= t.events[i].id
    ensures var d' := d.(wals := [Wal(t, t)]);
            DiskOk(d', bound') && Abs(d') == Apply(Abs(d), t) && Appended(Events(d.log), t.events, 0)
  {
    var d' := d.(wals := [Wal(t, t)]);
    var events := Events(d.log);
    forall i | 0 <= i < |t.events|
      ensures t.events[i].id !in Ids(events)
    {
    }
    assert events[|events|..] == Numbered(|events|, t.events[..0]);
    assert Appended(events, t.events, 0);
    MissingIsRest(events, t.events, 0, bound');
    assert t.events[0..] == t.events;
    assert PendingOk(d', d'.wals[0], bound');
  }

  lemma DiskOkMore(d: Disk, bound: Token, bound': Token)
    requires DiskOk(d, bound) && bound <= bound'
    ensures DiskOk(d, bound')
  {
  }

  /** A transaction that carries revision r throughout, in its events and in the metadata document. */
  ghost predicate HasRevision(t: Body, r: int) {
    && t.revision == r
    && Meta in t.updates && RevisionOf(t.updates[Meta]) == r
    && forall j :: 0 <= j < |t.events| ==> t.events[j].revision == r
  }

  /** Revisions count the transactions. */
  ghost predicate HistoryOk(history: seq<Body>) {
    forall i :: 0 <= i < |history| ==> HasRevision(history[i], i + 1)
  }

  lemma DefaultRevision()
    ensures RevisionOf(SafeObject(Default(Meta))) == 0
  {
  }

  lemma {:induction false} ReplayRevision(history: seq<Body>)
    requires HistoryOk(history)
    ensures Meta in Replay(history).docs && RevisionOf(Replay(history).docs[Meta]) == |history|
  {
    if history == [] {
      DefaultRevision();
    }
  }

  /** In the order of the transactions' revisions, none beyond the last. */
  ghost predicate RevisionSorted(es: seq<Event>, last: int) {
    && (forall i :: 0 <= i < |es| ==> 1 <= es[i].revision <= last)
    && forall i, j :: 0 <= i < j < |es| ==> es[i].revision <= es[j].revision
  }

  /** The log of the store is the events of its transactions, in the order of their revisions. */
  lemma {:induction false} ReplayLogSorted(history: seq<Body>)
    requires HistoryOk(history)
    ensures RevisionSorted(Replay(history).events, |history|)
  {
    if history != [] {
      var init, t := history[..|history| - 1], history[|history| - 1];
      assert HistoryOk(init) by {
        assert forall i :: 0 <= i < |init| ==> init[i] == history[i];
      }
      ReplayLogSorted(init);
      var es := Replay(init).events;
      assert forall i :: 0 <= i < |t.events| ==> t.events[i].revision == |history|;
      assert Replay(history).events == es + Numbered(|es|, t.events);
    }
  }

  /** In the store as in the file: every event once, at the position it is numbered with. */
  lemma AbsLogOk(d: Disk, bound: Token)
    requires DiskOk(d, bound)
    ensures LogOk(Abs(d).events, bound)
  {
    hide Events, Missing, Clean, LogOk, TornAtMostLast, FilledDocs, Numbered, Appended, Ids;
    if d.wals != [] {
      var events, drafts := Events(d.log), d.wals[0].body.events;
      var n: nat :| Appended(events, drafts, n);
      MissingIsRest(events, drafts, n, bound);
      CompletionLogOk(events, drafts, n, bound);
    }
  }

  lemma CompletionLogOk(events: seq<Event>, drafts: seq<Draft>, n: nat, bound: Token)
    requires LogOk(events, bound) && DistinctIds(drafts, bound) && Appended(events, drafts, n)
    ensures LogOk(events + Numbered(|events|, drafts[n..]), bound)
  {
  }
}
