/** The write-ahead log, the event log and crash recovery, one durable write at a time. */
module Durable {
  import opened Json
  import opened DurableModel
  import opened Transactions

  /** What an append cut short by a crash leaves behind. */
  datatype Torn = Nothing | Partial(newline: bool) | Unterminated

  datatype Outcome = Finished | Crashed | Corrupt

  lemma AllDocs(key: DocKey)
    ensures key in ALL_DOCS
  {
  }

  lemma TransactionBodyOk(b: Book, updates: map<DocKey, Object>, specs: seq<Spec>, first: Token, now: Time)
    requires Meta in b.docs && Clean(b.docs[Meta])
    ensures BodyOk(TransactionBody(b, updates, specs, first, now), first + |specs|)
  {
    hide Clean, SafeObject, Stamp, WithRevision, ALL_DOCS;
    var t := TransactionBody(b, updates, specs, first, now);
    forall k | k in t.updates
      ensures k in ALL_DOCS && Clean(t.updates[k])
    {
      AllDocs(k);
      if k == Meta {
        StampClean(b.docs[Meta], t.revision);
      } else {
        SafeObjectIsClean(updates[k]);
        StampClean(SafeObject(updates[k]), t.revision);
      }
    }
    forall i | 0 <= i < |t.events|
      ensures Clean(t.events[i].detail)
    {
      SafeObjectIsClean(specs[i].detail);
    }
  }

  /** A transaction as the redacting writer leaves it on disk. */
  function SafeBody(t: Body): Body {
    Body(
      t.revision,
      map k | k in t.updates :: SafeObject(t.updates[k]),
      seq(|t.events|, i requires 0 <= i < |t.events| => t.events[i].(detail := SafeObject(t.events[i].detail))))
  }

  /** Recovery reads back a transaction whose checksum matches if and only if everything in it was
      redacted before the checksum was taken. */
  lemma ChecksumExact(t: Body)
    ensures SafeBody(t) == t <==>
      && (forall k :: k in t.updates ==> Clean(t.updates[k]))
      && (forall i :: 0 <= i < |t.events| ==> Clean(t.events[i].detail))
  {
  }

  /** A finished directory: nothing pending, every document there, every line whole. */
  predicate Settled(d: Disk) {
    d.wals == [] && d.docs.Keys == ALL_DOCS && Terminated(d.log)
  }

  lemma SettledIsAbs(d: Disk)
    requires Settled(d)
    ensures Abs(d) == Book(d.docs, Events(d.log))
  {
  }

  lemma AbsDocsClean(d: Disk, bound: Token)
    requires DiskOk(d, bound)
    ensures Meta in Abs(d).docs && Clean(Abs(d).docs[Meta])
  {
    hide Events, Missing, Clean, SafeObject, Default, LogOk, TornAtMostLast, Appended;
    SafeObjectIsClean(Default(Meta));
  }

  lemma BodyHasRevision(b: Book, updates: map<DocKey, Object>, specs: seq<Spec>, first: Token, now: Time)
    requires Meta in b.docs
    ensures HasRevision(TransactionBody(b, updates, specs, first, now), RevisionOf(b.docs[Meta]) + 1)
  {
    hide SafeObject;
  }

  lemma HistorySnoc(history: seq<Body>, t: Body)
    requires HistoryOk(history) && HasRevision(t, |history| + 1)
    ensures HistoryOk(history + [t])
  {
    hide HasRevision;
  }

  lemma ReplaySnoc(history: seq<Body>, t: Body)
    ensures Replay(history + [t]) == Apply(Replay(history), t)
  {
    hide Apply;
    assert (history + [t])[..|history|] == history;
  }

  lemma HistoryGrows(history: seq<Body>, updates: map<DocKey, Object>, specs: seq<Spec>, first: Token, now: Time)
    requires HistoryOk(history) && Meta in Replay(history).docs
    ensures HistoryOk(history + [TransactionBody(Replay(history), updates, specs, first, now)])
    ensures Replay(history + [TransactionBody(Replay(history), updates, specs, first, now)])
         == Apply(Replay(history), TransactionBody(Replay(history), updates, specs, first, now))
  {
    hide TransactionBody, HasRevision, Apply, HistoryOk, Replay;
    ReplayRevision(history);
    BodyHasRevision(Replay(history), updates, specs, first, now);
    HistorySnoc(history, TransactionBody(Replay(history), updates, specs, first, now));
    ReplaySnoc(history, TransactionBody(Replay(history), updates, specs, first, now));
  }

  class Store {
    var docs: map<DocKey, Object>
    var log: seq<Line>
    var wals: seq<Wal>
    /** The source of unique ids; never repeats, crashes included. */
    var tokens: Token
    /** How many more durable writes this process makes before it dies, and how it dies mid-append. */
    var power: nat
    var torn: Torn
    /** The transactions prepared so far. */
    ghost var history: seq<Body>

    ghost function OnDisk(): Disk
      reads this
    {
      Disk(docs, log, wals)
    }

    ghost predicate Valid()
      reads this
    {
      && DiskOk(OnDisk(), tokens)
      && HistoryOk(history)
      && Abs(OnDisk()) == Replay(history)
    }

    /** A fresh root. */
    constructor ()
      ensures Valid() && history == [] && OnDisk() == Disk(map[], [], [])
    {
      hide DiskOk, Abs, HistoryOk, Replay;
      EmptyDiskOk();
      docs, log, wals := map[], [], [];
      tokens, power, torn := 0, 0, Nothing;
      history := [];
    }

    /** A new process opens the directory; when it will die is not its choice. */
    method Open(power': nat, torn': Torn)
      modifies this`power, this`torn
      ensures power == power' && torn == torn'
    {
      power, torn := power', torn';
    }

    /** Replace one document atomically. */
    method Write(key: DocKey, value: Object) returns (ok: bool)
      modifies this`docs, this`power
      ensures ok ==> docs == old(docs)[key := SafeObject(value)]
      ensures !ok ==> docs == old(docs)
    {
      ok := power > 0;
      if ok {
        power := power - 1;
        docs := docs[key := SafeObject(value)];
      }
    }

    /** Write a transaction file, redacted like every file, with the checksum of the given body.
        Its random name puts it anywhere in the sorted listing. */
    method WriteWal(body: Body, slot: nat) returns (ok: bool)
      requires slot <= |wals|
      modifies this`wals, this`power
      ensures ok ==> wals == old(wals)[..slot] + [Wal(SafeBody(body), body)] + old(wals)[slot..]
      ensures !ok ==> wals == old(wals)
    {
      ok := power > 0;
      if ok {
        power := power - 1;
        wals := wals[..slot] + [Wal(SafeBody(body), body)] + wals[slot..];
      }
    }

    method Unlink(i: nat) returns (ok: bool)
      requires i < |wals|
      modifies this`wals, this`power
      ensures ok ==> wals == old(wals)[..i] + old(wals)[i + 1..]
      ensures !ok ==> wals == old(wals)
    {
      ok := power > 0;
      if ok {
        power := power - 1;
        wals := wals[..i] + wals[i + 1..];
      }
    }

    /** Discard an unreadable last line, terminate a readable one. */
    method RepairEventTail() returns (ok: bool)
      requires Valid()
      modifies this`log, this`power
      ensures Valid()
      ensures Events(log) == Events(old(log))
      ensures ok ==> Terminated(log)
      ensures ok && Terminated(old(log)) ==> log == old(log)
    {
      hide DiskOk, Abs, HistoryOk, Replay, Events;
      TailFacts(OnDisk(), tokens);
      ok := true;
      if log == [] {
        return;
      }
      var last := log[|log| - 1];
      if last.content.Record? && last.newline {
        assert log == log[..|log| - 1] + [last];
        return;
      }
      RepairedOk(log);
      RepairKeepsAbs(OnDisk(), tokens);
      ok := power > 0;
      if ok {
        power := power - 1;
        if last.content.Record? {
          log := log[..|log| - 1] + [last.(newline := true)];
        } else {
          log := log[..|log| - 1];
        }
      }
    }

    /** Write one line at the end of the log; a crash may leave any part of it. */
    method WriteLine(event: Event) returns (ok: bool)
      modifies this`log, this`power
      ensures ok ==> log == AppendLine(old(log), Line(Record(event), true))
      ensures !ok ==> log == TornLog(old(log), event, torn)
    {
      ok := power > 0;
      if ok {
        power := power - 1;
        log := AppendLine(log, Line(Record(event), true));
      } else {
        log := TornLog(log, event, torn);
      }
    }

    /** Append the n-th event of the pending transaction, repairing the tail first. */
    method AppendEvent(draft: Draft, ghost n: nat) returns (ok: bool)
      requires wals != [] && n < |wals[0].body.events| && wals[0].body.events[n] == draft
      requires HasAppended(OnDisk(), n) && Valid()
      modifies this`log, this`power
      ensures ok ==> Terminated(log) && HasAppended(OnDisk(), n + 1)
      ensures Valid()
    {
      hide DiskOk, Abs, HistoryOk, Replay, Appended, Events, Number, SafeObject;
      ok := RepairEventTail();
      if !ok {
        return;
      }
      ghost var d := OnDisk();
      var seqNo := |log|;
      DraftClean(d, n, tokens);
      WriteLineKeepsAbs(d, n, torn, tokens);
      ok := WriteLine(Event(seqNo, draft.id, draft.at, draft.kind, draft.revision, SafeObject(draft.detail)));
    }

    /** Create whatever document is missing. */
    method EnsureFiles() returns (ok: bool)
      requires Valid()
      modifies this`docs, this`power
      ensures Valid()
      ensures old(docs).Keys <= docs.Keys && (ok ==> docs.Keys == ALL_DOCS)
    {
      hide DiskOk, Abs, HistoryOk, Replay, SafeObject, Default;
      var todo := ALL_DOCS;
      while todo != {}
        invariant Valid() && old(docs).Keys <= docs.Keys
        invariant todo <= ALL_DOCS && ALL_DOCS - todo <= docs.Keys
        decreases todo
      {
        var key :| key in todo;
        todo := todo - {key};
        if key !in docs {
          FillKeepsAbs(OnDisk(), key, tokens);
          ok := Write(key, Default(key));
          if !ok {
            return;
          }
        }
      }
      DocsFacts(OnDisk(), tokens);
      ok := true;
    }

    /** Finish whatever transaction is prepared; every step may be the last before a crash. */
    method RecoverLocked() returns (outcome: Outcome)
      requires Valid()
      modifies this`docs, this`log, this`wals, this`power
      ensures Valid() && old(docs).Keys <= docs.Keys
      ensures outcome != Corrupt
      ensures outcome == Finished ==> wals == [] && Terminated(log)
    {
      hide DiskOk, Abs, HistoryOk, Replay, Appended, Events;
      var ok := RepairEventTail();
      if !ok {
        return Crashed;
      }
      var listing := wals;
      ListingFacts(OnDisk(), tokens);
      for i := 0 to |listing|
        invariant Valid() && old(docs).Keys <= docs.Keys && Terminated(log)
        invariant wals == listing[i..] && |listing| <= 1
      {
        var w := listing[i];
        PendingFacts(OnDisk(), tokens);
        if w.checksum != w.body {
          return Corrupt;
        }
        ok := WriteDocs();
        if !ok {
          return Crashed;
        }
        ok := RepairEventTail();
        if !ok {
          return Crashed;
        }
        ok := ReplayEvents();
        if !ok {
          return Crashed;
        }
        UnlinkKeepsAbs(OnDisk(), tokens);
        ok := Unlink(0);
        if !ok {
          return Crashed;
        }
      }
      return Finished;
    }

    /** Write every document of the pending transaction. */
    method WriteDocs() returns (ok: bool)
      requires wals != [] && Valid()
      modifies this`docs, this`power
      ensures Valid() && old(docs).Keys <= docs.Keys
      ensures ok ==> DocsWritten(OnDisk(), wals[0].body.updates.Keys)
    {
      hide DiskOk, Abs, HistoryOk, Replay;
      var updates := wals[0].body.updates;
      var todo := updates.Keys;
      while todo != {}
        invariant Valid() && old(docs).Keys <= docs.Keys
        invariant todo <= updates.Keys && DocsWritten(OnDisk(), updates.Keys - todo)
        decreases todo
      {
        var key :| key in todo;
        todo := todo - {key};
        WriteKeepsAbs(OnDisk(), key, tokens);
        UpdateClean(OnDisk(), key, tokens);
        ok := Write(key, updates[key]);
        if !ok {
          return;
        }
      }
      ok := true;
    }

    /** Append the events of the pending transaction whose ids the log does not show yet. */
    method ReplayEvents() returns (ok: bool)
      requires wals != [] && Terminated(log) && Valid()
      modifies this`log, this`power
      ensures Valid()
      ensures ok ==> Terminated(log) && HasAppended(OnDisk(), |wals[0].body.events|)
    {
      hide DiskOk, Abs, HistoryOk, Replay, Appended, Events, Ids;
      var drafts := wals[0].body.events;
      PendingFacts(OnDisk(), tokens);
      ghost var n := AppendedCount(OnDisk(), tokens);
      var existing := Ids(Events(log));
      for i := 0 to |drafts|
        invariant Valid() && Terminated(log)
        invariant HasAppended(OnDisk(), if i < n then n else i)
        invariant forall j :: i <= j < |drafts| ==> (drafts[j].id in existing <==> j < n)
      {
        if drafts[i].id !in existing {
          ok := AppendEvent(drafts[i], i);
          if !ok {
            return;
          }
          existing := existing + {drafts[i].id};
        }
      }
      ok := true;
    }

    /** What every lock acquisition does first. Completed, it leaves exactly the documents and the
        log that the transactions so far would have left without any crash. */
    method EnsureLocked() returns (outcome: Outcome)
      requires Valid()
      modifies this`docs, this`log, this`wals, this`power
      ensures Valid() && outcome != Corrupt
      ensures outcome == Finished ==> Settled(OnDisk()) && Book(docs, Events(log)) == Replay(history)
    {
      hide DiskOk, Abs, HistoryOk, Replay, Events;
      var ok := EnsureFiles();
      if !ok {
        return Crashed;
      }
      outcome := RecoverLocked();
      if outcome == Finished {
        DocsFacts(OnDisk(), tokens);
        SettledIsAbs(OnDisk());
      }
    }

    /** Commit one logical mutation. It happens when the transaction file is written, or not at all. */
    method AtomicTransaction(updates: map<DocKey, Object>, specs: seq<Spec>, now: Time, slot: nat)
      returns (outcome: Outcome)
      requires Valid()
      modifies this`docs, this`log, this`wals, this`tokens, this`power, this`history
      ensures Valid() && outcome != Corrupt
      ensures var t := TransactionBody(Replay(old(history)), updates, specs, old(tokens), now);
              if outcome == Finished then history == old(history) + [t]
              else history == old(history) || history == old(history) + [t]
      ensures outcome == Finished ==> Settled(OnDisk()) && Book(docs, Events(log)) == Replay(history)
      ensures if history == old(history) then outcome != Finished && Abs(OnDisk()) == Abs(old(OnDisk()))
              else HasCommitted(Abs(old(OnDisk())), Abs(OnDisk()), updates, specs, old(tokens), now)
      ensures outcome == Finished ==>
                HasCommitted(Abs(old(OnDisk())), Book(docs, Events(log)), updates, specs, old(tokens), now)
    {
      hide DiskOk, Abs, HistoryOk, Replay, Appended, Events, TransactionBody, HasCommitted;
      AbsDocsClean(OnDisk(), tokens);
      outcome := EnsureLocked();
      if outcome != Finished {
        return;
      }
      var body := TransactionBody(Book(docs, []), updates, specs, tokens, now);
      var first := tokens;
      tokens := tokens + |specs|;
      HistoryGrows(history, updates, specs, first, now);
      BodyCommits(Replay(history), updates, specs, first, now);
      Prepares(OnDisk(), history, updates, specs, first, now);
      var ok := WriteWal(body, if slot <= |wals| then slot else |wals|);
      if !ok {
        return Crashed;
      }
      history := history + [body];
      assert wals == [Wal(body, body)];
      ok := CompletePrepared();
      if ok {
        SettledIsAbs(OnDisk());
        return Finished;
      }
      return Crashed;
    }

    /** Carry out the transaction just prepared: documents, events, and the file's removal. */
    method CompletePrepared() returns (ok: bool)
      requires wals != [] && docs.Keys == ALL_DOCS && HasAppended(OnDisk(), 0) && Terminated(log) && Valid()
      modifies this`docs, this`log, this`wals, this`power
      ensures Valid() && (ok ==> Settled(OnDisk()))
    {
      hide DiskOk, Abs, HistoryOk, Replay, Appended, Events;
      ok := WriteDocs();
      if !ok {
        return;
      }
      var drafts := wals[0].body.events;
      ghost var prepared, written := wals, docs;
      for i := 0 to |drafts|
        invariant wals == prepared && docs == written
        invariant Valid() && Terminated(log) && HasAppended(OnDisk(), i)
      {
        ok := AppendEvent(drafts[i], i);
        if !ok {
          return;
        }
      }
      ListingFacts(OnDisk(), tokens);
      DocsFacts(OnDisk(), tokens);
      UnlinkKeepsAbs(OnDisk(), tokens);
      ok := Unlink(0);
    }

    /** The log of a finished directory: the events of the transactions in the order of their
        revisions, each once, each numbered by its position. */
    lemma LogExactlyOnce()
      requires Settled(OnDisk()) && Valid()
      ensures Events(log) == Replay(history).events
      ensures LogOk(Events(log), tokens) && RevisionSorted(Events(log), |history|)
    {
      hide DiskOk, HistoryOk, Replay, Events, LogOk, RevisionSorted;
      SettledIsAbs(OnDisk());
      AbsLogOk(OnDisk(), tokens);
      ReplayLogSorted(history);
    }

    /** Any number of processes, one after another, each dying after any number of durable writes, in
        recovery too. Stage by stage, a commit adds its own transaction or nothing, it has added it if it
        reported success, and nothing else changes the history. */
    method Live(script: seq<Action>) returns (outcomes: seq<Outcome>, ghost stages: seq<seq<Body>>)
      requires Valid()
      modifies this
      ensures Valid()
      ensures |outcomes| == |script| && Corrupt !in outcomes
      ensures |stages| == |script| + 1 && stages[0] == old(history) && stages[|script|] == history
      ensures forall i :: 0 <= i < |script| ==> Takes(script[i], outcomes[i], stages[i], stages[i + 1])
      ensures Commits(script, outcomes, true) <= |history| - |old(history)| <= Commits(script, outcomes, false)
    {
      hide DiskOk, Abs, HistoryOk, Replay, Events, Settled, TransactionBody, Takes;
      outcomes, stages := [], [history];
      for i := 0 to |script|
        invariant Valid() && |outcomes| == i && Corrupt !in outcomes
        invariant |stages| == i + 1 && stages[0] == old(history) && stages[i] == history
        invariant forall j :: 0 <= j < i ==> Takes(script[j], outcomes[j], stages[j], stages[j + 1])
        invariant Commits(script[..i], outcomes, true) <= |history| - |old(history)| <= Commits(script[..i], outcomes,
                  false)
      {
        ghost var before, was := outcomes, history;
        var outcome := Act(script[i]);
        TakesOne(script[i], outcome, was, history);
        outcomes, stages := outcomes + [outcome], stages + [history];
        assert script[..i + 1][..i] == script[..i] && outcomes[..i] == before;
      }
      assert script[..|script|] == script;
    }

    /** One process. */
    method Act(action: Action) returns (outcome: Outcome)
      requires Valid()
      modifies this
      ensures Valid() && outcome != Corrupt && Takes(action, outcome, old(history), history)
    {
      hide DiskOk, Abs, HistoryOk, Replay, Events, Settled, TransactionBody, HasCommitted;
      Open(action.power, action.torn);
      ValidHasMeta(OnDisk(), tokens, history);
      match action {
        case Commit(_, _, updates, specs, now, slot) =>
          ghost var was, first := history, tokens;
          outcome := AtomicTransaction(updates, specs, now, slot);
          assert outcome == Finished || history != was ==> Adds(was, history, updates, specs, first, now);
        case Recover(_, _) =>
          outcome := EnsureLocked();
      }
    }
  }

  lemma ValidHasMeta(d: Disk, bound: Token, history: seq<Body>)
    requires DiskOk(d, bound) && Abs(d) == Replay(history)
    ensures Meta in Replay(history).docs
  {
    hide DiskOk, Replay;
    AbsDocsClean(d, bound);
  }

  /** The transaction of these updates and events was added, and it did what such a commit is to do. */
  ghost predicate Adds(before: seq<Body>, after: seq<Body>, updates: map<DocKey, Object>, specs: seq<Spec>,
                       first: Token, now: Time) {
    && Meta in Replay(before).docs && after == before + [TransactionBody(Replay(before), updates, specs, first, now)]
    && HasCommitted(Replay(before), Replay(after), updates, specs, first, now)
  }

  /** What one process does to the history of transactions. */
  ghost predicate Takes(action: Action, outcome: Outcome, before: seq<Body>, after: seq<Body>) {
    match action
    case Recover(_, _) => after == before
    case Commit(_, _, updates, specs, now, _) =>
      || (after == before && outcome != Finished)
      || exists first :: Adds(before, after, updates, specs, first, now)
  }

  lemma TakesOne(action: Action, outcome: Outcome, before: seq<Body>, after: seq<Body>)
    requires Takes(action, outcome, before, after)
    ensures (if action.Commit? && outcome == Finished then 1 else 0) <= |after| - |before| <= if action.Commit? then 1
            else 0
  {
    hide Replay, TransactionBody, HasCommitted;
  }

  datatype Action =
    | Commit(power: nat, torn: Torn, updates: map<DocKey, Object>, specs: seq<Spec>, now: Time, slot: nat)
    | Recover(power: nat, torn: Torn)

  /** How many commits the script asks for, or, with `finished`, how many reported success. */
  function Commits(script: seq<Action>, outcomes: seq<Outcome>, finished: bool): nat
    requires |script| == |outcomes|
  {
    if script == [] then 0
    else
      var last := |script| - 1;
      Commits(script[..last], outcomes[..last], finished)
      + if script[last].Commit? && (finished ==> outcomes[last] == Finished) then 1 else 0
  }

  function TornLog(log: seq<Line>, event: Event, torn: Torn): seq<Line> {
    match torn
    case Nothing => log
    case Partial(newline) => AppendLine(log, Line(Garbage, newline))
    case Unterminated => AppendLine(log, Line(Record(event), false))
  }

  /** The documents in keys are on disk as the pending transaction has them. */
  ghost predicate DocsWritten(d: Disk, keys: set<DocKey>) {
    && d.wals != []
    && keys <= d.wals[0].body.updates.Keys
    && forall k :: k in keys ==> k in d.docs && d.docs[k] == d.wals[0].body.updates[k]
  }

  lemma DocsFacts(d: Disk, bound: Token)
    requires DiskOk(d, bound)
    ensures d.docs.Keys <= ALL_DOCS
  {
  }

  lemma ListingFacts(d: Disk, bound: Token)
    requires DiskOk(d, bound)
    ensures |d.wals| <= 1
  {
  }

  /** The checksum of a pending transaction matches what recovery reads back. */
  lemma PendingFacts(d: Disk, bound: Token)
    requires d.wals != [] && DiskOk(d, bound)
    ensures d.wals[0].checksum == d.wals[0].body
    ensures DistinctIds(d.wals[0].body.events, bound)
  {
  }

  /** How far the log has come with the pending transaction. */
  lemma AppendedCount(d: Disk, bound: Token) returns (n: nat)
    requires d.wals != [] && DiskOk(d, bound)
    ensures HasAppended(d, n) && n <= |d.wals[0].body.events|
    ensures var drafts := d.wals[0].body.events;
            forall j :: 0 <= j < |drafts| ==> (drafts[j].id in Ids(Events(d.log)) <==> j < n)
  {
    hide LogOk, Clean, Events;
    var events, drafts := Events(d.log), d.wals[0].body.events;
    n :| Appended(events, drafts, n);
    forall j | 0 <= j < n
      ensures drafts[j].id in Ids(events)
    {
      assert events[|events| - n..][j] == Numbered(|events| - n, drafts[..n])[j];
    }
  }

  /** Writing the transaction file turns the store into the store with the transaction applied. */
  lemma Prepares(d: Disk, history: seq<Body>, updates: map<DocKey, Object>, specs: seq<Spec>, first: Token, now: Time)
    requires d.wals == [] && d.docs.Keys == ALL_DOCS
    requires DiskOk(d, first) && HistoryOk(history) && Abs(d) == Replay(history)
    ensures Meta in d.docs && Meta in Replay(history).docs && Replay(history).docs[Meta] == d.docs[Meta]
    ensures var t := TransactionBody(Replay(history), updates, specs, first, now);
            var d' := d.(wals := [Wal(t, t)]);
            && t == TransactionBody(Book(d.docs, []), updates, specs, first, now) && SafeBody(t) == t
            && DiskOk(d, first + |specs|)
            && DiskOk(d', first + |specs|) && HistoryOk(history + [t]) && Abs(d') == Replay(history + [t])
            && HasAppended(d', 0)
  {
    hide DiskOk, HistoryOk, Replay, Clean, TransactionBody, Events, Missing, Apply, SafeBody;
    AbsDocsClean(d, first);
    assert FilledDocs(d.docs) == d.docs;
    assert Abs(d).docs == d.docs;
    var t := TransactionBody(Replay(history), updates, specs, first, now);
    BodyNeedsMeta(Replay(history), Book(d.docs, []), updates, specs, first, now);
    TransactionBodyOk(Replay(history), updates, specs, first, now);
    ChecksumExact(t);
    DiskOkMore(d, first, first + |specs|);
    PrepareCommits(d, t, first, first + |specs|);
    HistoryGrows(history, updates, specs, first, now);
  }

  lemma BodyNeedsMeta(b: Book, b': Book, updates: map<DocKey, Object>, specs: seq<Spec>, first: Token, now: Time)
    requires Meta in b.docs && Meta in b'.docs && b.docs[Meta] == b'.docs[Meta]
    ensures TransactionBody(b, updates, specs, first, now) == TransactionBody(b', updates, specs, first, now)
    ensures forall i :: 0 <= i < |TransactionBody(b, updates, specs, first, now).events| ==>
      TransactionBody(b, updates, specs, first, now).events[i].id >= first
  {
  }

  lemma UpdateClean(d: Disk, key: DocKey, bound: Token)
    requires d.wals != [] && key in d.wals[0].body.updates && DiskOk(d, bound)
    ensures SafeObject(d.wals[0].body.updates[key]) == d.wals[0].body.updates[key]
  {
  }

  /** The first n events of the pending transaction are in the log. */
  ghost predicate HasAppended(d: Disk, n: nat) {
    d.wals != [] && Appended(Events(d.log), d.wals[0].body.events, n)
  }

  lemma WriteLineKeepsAbs(d: Disk, n: nat, torn: Torn, bound: Token)
    requires d.wals != [] && n < |d.wals[0].body.events|
    requires HasAppended(d, n) && Terminated(d.log) && DiskOk(d, bound)
    ensures var e := Number(|d.log|, d.wals[0].body.events[n]);
            var whole := d.(log := AppendLine(d.log, Line(Record(e), true)));
            var part := d.(log := TornLog(d.log, e, torn));
            && DiskOk(whole, bound) && Abs(whole) == Abs(d) && Terminated(whole.log)
            && HasAppended(whole, n + 1)
            && DiskOk(part, bound) && Abs(part) == Abs(d)
  {
    hide DiskOk, Abs, Appended, Events, Number;
    AppendKeepsAbs(d, n, true, bound);
    match torn {
      case Nothing =>
      case Partial(newline) => TornKeepsAbs(d, newline, bound);
      case Unterminated => AppendKeepsAbs(d, n, false, bound);
    }
  }

  lemma TailFacts(d: Disk, bound: Token)
    requires DiskOk(d, bound)
    ensures TornAtMostLast(d.log)
  {
  }

  lemma RepairKeepsAbs(d: Disk, bound: Token)
    requires DiskOk(d, bound)
    ensures DiskOk(d.(log := Repaired(d.log)), bound) && Abs(d.(log := Repaired(d.log))) == Abs(d)
  {
    hide Events, LogOk, Abs, Clean, Appended, BodyOk;
    RepairedOk(d.log);
    assert TornAtMostLast(Repaired(d.log));
    SameEventsKeepAbs(d, Repaired(d.log), bound);
  }

  lemma DraftClean(d: Disk, n: nat, bound: Token)
    requires DiskOk(d, bound) && d.wals != [] && n < |d.wals[0].body.events|
    ensures var draft := d.wals[0].body.events[n];
            Number(|d.log|, draft) == Event(|d.log|, draft.id, draft.at, draft.kind, draft.revision,
                   SafeObject(draft.detail))
  {
  }

  lemma EmptyDiskOk()
    ensures DiskOk(Disk(map[], [], []), 0) && HistoryOk([])
    ensures Abs(Disk(map[], [], [])) == Replay([])
  {
    hide SafeObject, Default;
    assert FilledDocs(map[]) == EMPTY_BOOK.docs;
  }
}
