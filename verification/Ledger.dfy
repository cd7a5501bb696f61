/** The ledger object: its documents as mutable fields, its public operations as methods. */
module Ledger {
  import opened Graphs
  import opened LedgerModel
  import opened Options
  import Registration
  import M = LedgerModel

  lemma NoMerge<K, V>(m: map<K, V>)
    ensures m + map[] == m
  {
  }

  lemma MapFacts(s: State)
    ensures s.workers + map[] == s.workers && s.tasks + map[] == s.tasks && s.leases + map[] == s.leases
    ensures s.checkpoints + map[] == s.checkpoints && s.handoffs + map[] == s.handoffs
    ensures s.results + map[] == s.results && s.operations + map[] == s.operations
  {
    NoMerge(s.workers);
    NoMerge(s.tasks);
    NoMerge(s.leases);
    NoMerge(s.checkpoints);
    NoMerge(s.handoffs);
    NoMerge(s.results);
    NoMerge(s.operations);
  }

  lemma PutIsMerge<K, V>(m: map<K, V>, k: K, v: V)
    ensures m[k := v] == m + map[k := v]
  {
  }

  // One transaction at a time: merging a single record is putting it in its document.

  lemma CommitNothing(s: State)
    ensures Commit(s, NOTHING) == s.(revision := s.revision + 1)
  {
    MapFacts(s);
  }

  lemma PutWorker(s: State, w: Name, worker: Worker)
    ensures Commit(s, NOTHING.(workers := map[w := worker]))
            == s.(workers := s.workers[w := worker], revision := s.revision + 1)
  {
    MapFacts(s);
    PutIsMerge(s.workers, w, worker);
  }

  lemma PutTask(s: State, t: TaskId, task: Task)
    ensures Commit(s, NOTHING.(tasks := map[t := task])) == s.(tasks := s.tasks[t := task], revision := s.revision + 1)
  {
    MapFacts(s);
    PutIsMerge(s.tasks, t, task);
  }

  lemma PutLease(s: State, k: Key, lease: Lease)
    ensures Commit(s, NOTHING.(leases := map[k := lease]))
            == s.(leases := s.leases[k := lease], revision := s.revision + 1)
  {
    MapFacts(s);
    PutIsMerge(s.leases, k, lease);
  }

  lemma PutOperation(s: State, id: Name, operation: Operation)
    ensures Commit(s, NOTHING.(operations := map[id := operation]))
            == s.(operations := s.operations[id := operation], revision := s.revision + 1)
  {
    MapFacts(s);
    PutIsMerge(s.operations, id, operation);
  }

  lemma PutTaskAndLease(s: State, t: TaskId, task: Task, k: Key, lease: Lease)
    ensures Commit(s, NOTHING.(tasks := map[t := task], leases := map[k := lease]))
         == s.(tasks := s.tasks[t := task], leases := s.leases[k := lease], revision := s.revision + 1)
  {
    MapFacts(s);
    PutIsMerge(s.tasks, t, task);
    PutIsMerge(s.leases, k, lease);
  }

  lemma PutOperationAndTask(s: State, id: Name, operation: Operation, t: TaskId, task: Task)
    ensures Commit(s, NOTHING.(operations := map[id := operation], tasks := map[t := task]))
         == s.(operations := s.operations[id := operation], tasks := s.tasks[t := task], revision := s.revision + 1)
  {
    MapFacts(s);
    PutIsMerge(s.operations, id, operation);
    PutIsMerge(s.tasks, t, task);
  }

  lemma PutResultAndTask(s: State, t: TaskId, record: Result, task: Task)
    ensures Commit(s, NOTHING.(results := map[t := record], tasks := map[t := task]))
         == s.(results := s.results[t := record], tasks := s.tasks[t := task], revision := s.revision + 1)
  {
    MapFacts(s);
    PutIsMerge(s.results, t, record);
    PutIsMerge(s.tasks, t, task);
  }

  class CoordinationState {
    var workers: map<Name, Worker>
    var tasks: map<TaskId, Task>
    var leases: map<Key, Lease>
    var checkpoints: map<Token, Checkpoint>
    var handoffs: map<Token, Handoff>
    var results: map<TaskId, Result>
    var operations: map<Name, Operation>
    var revision: nat
    /** Source of ids and fencing tokens that are never drawn twice. */
    var tokens: Token

    constructor ()
      ensures Contents() == EMPTY
    {
      workers, tasks, leases, checkpoints, handoffs, results, operations := map[], map[], map[], map[], map[], map[],
        map[];
      revision, tokens := 0, 0;
    }

    ghost function Contents(): State
      reads this
    {
      State(workers, tasks, leases, checkpoints, handoffs, results, operations, revision, tokens)
    }

    method DrawToken() returns (token: Token)
      modifies this`tokens
      ensures token == old(tokens) && tokens == old(tokens) + 1
    {
      token := tokens;
      tokens := tokens + 1;
    }

    // Workers

    method RegisterWorker(id: Name, alive: Liveness, mode: Mode, available: bool, budget: int) returns (reply: Reply)
      modifies this
      ensures var o := M.RegisterWorker(old(Contents()), id, alive, mode, available, budget);
              Contents() == After(old(Contents()), o) && reply == o.reply
    {
      hide Commit;
      if budget < 0 {
        return Refused(InvalidRequest);
      }
      var revised := 1;
      if id in workers {
        revised := workers[id].revision + 1;
      }
      PutWorker(Contents(), id, Worker(alive, mode, available, budget, revised));
      workers := workers[id := Worker(alive, mode, available, budget, revised)];
      revision := revision + 1;
      return Done;
    }

    method UpdateWorker(id: Name, edit: WorkerEdit) returns (reply: Reply)
      modifies this
      ensures var o := M.UpdateWorker(old(Contents()), id, edit);
              Contents() == After(old(Contents()), o) && reply == o.reply
    {
      hide Commit;
      if id !in workers {
        return Refused(InvalidRequest);
      }
      var merged := workers[id];
      if edit.alive.Some? {
        merged := merged.(alive := edit.alive.value);
      }
      if edit.mode.Some? {
        merged := merged.(mode := edit.mode.value);
      }
      if edit.available.Some? {
        merged := merged.(available := edit.available.value);
      }
      if edit.budget.Some? {
        merged := merged.(budget := edit.budget.value);
      }
      merged := merged.(revision := merged.revision + 1);
      PutWorker(Contents(), id, merged);
      workers := workers[id := merged];
      revision := revision + 1;
      return Done;
    }

    /** A quota reading, perhaps bound to a worker. */
    method CaptureQuota(bound: Option<Name>, exhausted: bool, stale: bool) returns (reply: Reply)
      modifies this
      ensures var o := M.CaptureQuota(old(Contents()), bound, exhausted, stale);
              Contents() == After(old(Contents()), o) && reply == o.reply
    {
      hide Commit, QuotaBound;
      CommitNothing(Contents());
      if bound.Some? {
        if bound.value !in workers {
          return Refused(InvalidRequest);
        }
        PutWorker(Contents(), bound.value, QuotaBound(workers[bound.value], exhausted, stale));
        BindQuota(bound.value, exhausted, stale);
      }
      revision := revision + 1;
      return Done;
    }

    method BindQuota(w: Name, exhausted: bool, stale: bool)
      requires w in workers
      modifies this`workers
      ensures workers == old(workers)[w := QuotaBound(old(workers)[w], exhausted, stale)]
    {
      var worker := workers[w].(available := !exhausted && !stale);
      if exhausted {
        worker := worker.(mode := QuotaBlocked);
      } else if worker.mode == QuotaBlocked || worker.mode == ResetPending {
        worker := worker.(mode := Available);
      }
      worker := worker.(revision := worker.revision + 1);
      workers := workers[w := worker];
    }

    // Tasks

    /** Registration: idempotent, and refused when it would close a dependency cycle. */
    method RegisterTask(t: TaskId, dependencies: seq<TaskId>, brief: string, assignee: Option<Name>, status: Status)
      returns (reply: Reply)
      modifies this
      ensures var o := M.RegisterTask(old(Contents()), t, dependencies, brief, assignee, status);
              Contents() == After(old(Contents()), o) && reply == o.reply
    {
      hide Commit;
      hide Registration.SeesCycle, Dedup;
      var ids := Dedup(dependencies);
      if t in ids {
        return Refused(InvalidRequest);
      }
      if t in tasks {
        return Unchanged;
      }
      var closes := Registration.RegistrationClosesCycle(t, ids, DependencyGraph(tasks));
      if closes {
        return Refused(InvalidRequest);
      }
      var task := Task(ids, brief, assignee, status, 0, None, None, None, false, None, None, 0, None, None, None);
      PutTask(Contents(), t, task);
      tasks := tasks[t := task];
      revision := revision + 1;
      return Done;
    }

    /** The readiness check, dependency by dependency, with the reasons it reports. */
    method DependenciesReady(task: Task) returns (failures: seq<(TaskId, DependencyFailure)>)
      ensures failures == [] <==> Ready(Contents(), task)
      ensures forall d :: d in task.dependencies && Failure(Contents(), d).Some? ==>
              (d, Failure(Contents(), d).value) in failures
      ensures forall f :: f in failures ==> f.0 in task.dependencies && Failure(Contents(), f.0) == Some(f.1)
    {
      failures := [];
      for i := 0 to |task.dependencies|
        invariant forall f :: f in failures ==> f.0 in task.dependencies[..i] && Failure(Contents(), f.0) == Some(f.1)
        invariant forall j :: 0 <= j < i && Failure(Contents(), task.dependencies[j]).Some? ==>
                    (task.dependencies[j], Failure(Contents(), task.dependencies[j]).value) in failures
      {
        var d := task.dependencies[i];
        var reason := None;
        if d !in tasks {
          reason := Some(Missing);
        } else if tasks[d].status != Completed {
          reason := Some(NotCompleted);
        } else if tasks[d].result.None? || d !in results || results[d].task != d
            || results[d].resultId != tasks[d].result.value.resultId {
          reason := Some(Undecided);
        } else {
          var decision := results[d].decision;
          if decision.None? || tasks[d].decision != decision {
            reason := Some(Undecided);
          } else if decision.value.ruling.disposition == Rejected {
            reason := Some(WasRejected);
          } else if decision.value.ruling.disposition == Superseded {
            reason := Some(WasSuperseded);
          }
        }
        assert reason == Failure(Contents(), d);
        if reason.Some? {
          failures := failures + [(d, reason.value)];
        }
      }
      if failures != [] {
        assert failures[0] in failures;
      }
    }

    // Leases

    predicate LeaseCurrent(key: Key, holder: Name, epoch: nat, token: Token)
      reads this
      ensures LeaseCurrent(key, holder, epoch, token) == Current(Contents(), key, holder, epoch, token)
    {
      key in leases && leases[key].Active() && leases[key].holder == holder && leases[key].epoch == epoch
        && leases[key].token == token
    }

    method HoldsOtherTask(key: Key, holder: Name, now: Time) returns (busy: bool)
      ensures busy <==> BusyElsewhere(Contents(), key, holder, now)
    {
      var rest := leases.Keys - {key};
      busy := false;
      while rest != {}
        invariant rest <= leases.Keys - {key} && !busy
        invariant forall k :: k in leases && k != key && k !in rest ==>
                  !(k.kind == TaskKind && leases[k].holder == holder && leases[k].Live(now))
        decreases rest
      {
        var k :| k in rest;
        if k.kind == TaskKind && leases[k].holder == holder && leases[k].Live(now) {
          return true;
        }
        rest := rest - {k};
      }
    }

    /** The checks of an acquisition, in the order the ledger makes them. */
    method CheckAcquire(key: Key, holder: Name, ttl: Time, expected: Option<nat>, handoff: Option<Token>, now: Time)
      returns (refusal: Option<Refusal>)
      ensures refusal == AcquireRefusal(Contents(), key, holder, ttl, expected, handoff, now)
    {
      hide BusyElsewhere, Ready;
      if ttl <= 0.0 {
        return Some(InvalidRequest);
      }
      if holder !in workers && key.kind != CoordinatorKind {
        return Some(InvalidRequest);
      }
      if key.kind == TaskKind {
        if key.resource !in tasks {
          return Some(InvalidRequest);
        }
        var task := tasks[key.resource];
        if task.recoveryRequired {
          return Some(RecoveryFirst);
        }
        if task.status == Checkpointed && handoff.None? {
          return Some(Fenced);
        }
        if Terminal(task.status) {
          return Some(LeaseConflict);
        }
        if handoff.None? {
          var failures := DependenciesReady(task);
          if failures != [] {
            return Some(LeaseConflict);
          }
        }
      }
      if key in leases && leases[key].Active() {
        if leases[key].expires > now {
          return Some(LeaseConflict);
        }
        var prior := leases[key].holder;
        var alive := if prior in workers then workers[prior].alive else Unclear;
        if alive == Alive || (alive == Unclear
                              && !(prior in workers && workers[prior].mode in {ModeFailed, ModeStopped})) {
          return Some(LeaseConflict);
        }
      }
      if key.kind == TaskKind {
        assert key == TaskKey(key.resource);
        var busy := HoldsOtherTask(key, holder, now);
        if busy {
          return Some(LeaseConflict);
        }
        var task := tasks[key.resource];
        if task.handoff.Some? && task.handoff.value.claimedBy.Some? && task.handoff.value.claimedBy.value != holder {
          var claimer := task.handoff.value.claimedBy.value;
          var canReclaim := key in leases && leases[key].Active() && leases[key].expires <= now
                            && claimer in workers && workers[claimer].alive == Dead;
          if !canReclaim {
            return Some(LeaseConflict);
          }
        }
        if expected.Some? && expected.value != task.revision {
          return Some(Fenced);
        }
        if handoff.Some? {
          if task.handoff.None? || (task.checkpointId != handoff && task.handoff.value.checkpointId != handoff.value) {
            return Some(Fenced);
          }
          if handoff.value !in handoffs {
            return Some(Fenced);
          }
        }
      }
      return None;
    }

    /** The single lease grant behind acquiring, replacing and routing. */
    method AcquireLease(key: Key, holder: Name, ttl: Time, expected: Option<nat>, handoff: Option<Token>, now: Time)
      returns (reply: Reply)
      modifies this
      ensures var o := M.Acquire(old(Contents()), key, holder, ttl, expected, handoff, now);
              Contents() == After(old(Contents()), o) && reply == o.reply
    {
      hide AcquireRefusal, TaskGrant, PlainGrant;
      var refusal := CheckAcquire(key, holder, ttl, expected, handoff, now);
      if refusal.Some? {
        return Refused(refusal.value);
      }
      ghost var s := Contents();
      AcquireKnows(s, key, holder, ttl, expected, handoff, now);
      var lease;
      if key.kind == TaskKind {
        lease := GrantTask(key.resource, holder, ttl, handoff, now);
      } else {
        lease := WriteLease(key, holder, ttl, None, now);
        MapFacts(s);
        PlainGrantIs(s, key, holder, ttl, now);
        revision := revision + 1;
      }
      return Granted(lease);
    }

    /** Claim the task for the holder and write its lease. */
    method GrantTask(t: TaskId, holder: Name, ttl: Time, handoff: Option<Token>, now: Time) returns (lease: Lease)
      requires t in tasks && (handoff.Some? ==> tasks[t].handoff.Some? && handoff.value in handoffs)
      modifies this
      ensures var c := TaskGrant(old(Contents()), t, holder, ttl, handoff, now);
              Contents() == Commit(old(Contents()), c) && lease == c.leases[TaskKey(t)]
    {
      hide ClaimedTask, TaskGrant;
      ghost var s := Contents();
      var seen := ClaimTask(t, holder, handoff, now);
      lease := WriteLease(TaskKey(t), holder, ttl, Some(seen), now);
      revision := revision + 1;
      GrantIs(s, Contents(), t, holder, ttl, handoff, now, lease);
    }

    /** The task under its new assignee, and the handoff it resumes through; answers the new revision. */
    method ClaimTask(t: TaskId, holder: Name, handoff: Option<Token>, now: Time) returns (seen: nat)
      requires t in tasks && (handoff.Some? ==> tasks[t].handoff.Some? && handoff.value in handoffs)
      modifies this`tasks, this`handoffs
      ensures tasks == old(tasks)[t := ClaimedTask(old(tasks)[t], holder, handoff, now)]
              && seen == old(tasks)[t].revision + 1
      ensures handoffs == if handoff.Some?
              then old(handoffs)[handoff.value := old(handoffs)[handoff.value].(claimedBy := Some(holder),
                  claimedAt := Some(now))]
                          else old(handoffs)
    {
      var task := tasks[t];
      task := task.(revision := task.revision + 1, assignee := Some(holder), status := InProgress, blocker := None);
      if handoff.Some? {
        task := task.(handoff := Some(task.handoff.value.(claimedBy := Some(holder), claimedAt := Some(now))));
        handoffs := handoffs[handoff.value := handoffs[handoff.value].(claimedBy := Some(holder),
            claimedAt := Some(now))];
      }
      tasks := tasks[t := task];
      return task.revision;
    }

    /** A lease under the next epoch and a new token. */
    method WriteLease(key: Key, holder: Name, ttl: Time, taskRevision: Option<nat>, now: Time) returns (lease: Lease)
      modifies this`leases, this`tokens
      ensures lease == Lease(holder, (if key in old(leases) then old(leases)[key].epoch else 0) + 1, old(tokens), now,
                             now + ttl, taskRevision, None)
      ensures leases == old(leases) + map[key := lease] && tokens == old(tokens) + 1
    {
      var epoch := if key in leases then leases[key].epoch else 0;
      var token := DrawToken();
      lease := Lease(holder, epoch + 1, token, now, now + ttl, taskRevision, None);
      PutIsMerge(leases, key, lease);
      leases := leases[key := lease];
    }

    method ReleaseLease(key: Key, holder: Name, epoch: nat, token: Token, reason: string, proof: string, now: Time)
      returns (reply: Reply)
      modifies this
      ensures var o := M.ReleaseLease(old(Contents()), key, holder, epoch, token, reason, proof, now);
              Contents() == After(old(Contents()), o) && reply == o.reply
    {
      hide Commit;
      if !LeaseCurrent(key, holder, epoch, token) {
        return Refused(Fenced);
      }
      var current := leases[key];
      current := current.(release := Some(Release(now, Explicit(reason, proof))));
      PutLease(Contents(), key, current);
      leases := leases[key := current];
      revision := revision + 1;
      return Done;
    }

    method RenewLease(key: Key, holder: Name, epoch: nat, token: Token, ttl: Time, now: Time) returns (reply: Reply)
      modifies this
      ensures var o := M.RenewLease(old(Contents()), key, holder, epoch, token, ttl, now);
              Contents() == After(old(Contents()), o) && reply == o.reply
    {
      hide Commit;
      if ttl <= 0.0 {
        return Refused(InvalidRequest);
      }
      if !LeaseCurrent(key, holder, epoch, token) {
        return Refused(Fenced);
      }
      var renewed := leases[key].(expires := now + ttl);
      PutLease(Contents(), key, renewed);
      leases := leases[key := renewed];
      revision := revision + 1;
      return Done;
    }

    // Checkpoints and recovery

    /** Put the task into recovery; the caller commits. */
    method MarkRecoveryState(t: TaskId, why: string) returns (known: bool)
      modifies this`tasks
      ensures known <==> t in old(tasks)
      ensures tasks == if known then old(tasks)[t := Recovering(old(tasks)[t], why)] else old(tasks)
    {
      if t !in tasks {
        return false;
      }
      var task := tasks[t];
      task := task.(revision := task.revision + 1, status := RecoveryNeeded, recoveryRequired := true,
                    recoveryReason := Some(why));
      task := task.(blocker := Some(UnknownCompletion));
      tasks := tasks[t := task];
      return true;
    }

    method MarkRecoveryRequired(t: TaskId, why: string) returns (reply: Reply)
      modifies this
      ensures var o := M.MarkRecovery(old(Contents()), t, why);
              Contents() == After(old(Contents()), o) && reply == o.reply
    {
      hide Commit, Recovering;
      ghost var s := Contents();
      var known := MarkRecoveryState(t, why);
      if !known {
        return Refused(InvalidRequest);
      }
      PutTask(s, t, Recovering(s.tasks[t], why));
      revision := revision + 1;
      return RecoveryMarked;
    }

    method AbandonToRecovery(t: TaskId, why: string, now: Time) returns (reply: Reply)
      requires TaskKey(t) in leases
      modifies this
      ensures var o := M.AbandonToRecovery(old(Contents()), t, why, now);
              Contents() == After(old(Contents()), o) && reply == o.reply
    {
      hide Commit, Recovering;
      ghost var s := Contents();
      var known := MarkRecoveryState(t, why);
      if !known {
        return Refused(InvalidRequest);
      }
      var lease := leases[TaskKey(t)].(release := Some(Release(now, ForRecovery)));
      PutTaskAndLease(s, t, Recovering(s.tasks[t], why), TaskKey(t), lease);
      leases := leases[TaskKey(t) := lease];
      revision := revision + 1;
      return RecoveryMarked;
    }

    /** A safe boundary: record the checkpoint and hand the task off, or send it to recovery. */
    method CheckpointTask(t: TaskId, holder: Name, epoch: nat, token: Token, req: CheckpointRequest, now: Time)
      returns (reply: Reply)
      modifies this
      ensures var o := M.CheckpointTask(old(Contents()), t, holder, epoch, token, req, now);
              Contents() == After(old(Contents()), o) && reply == o.reply
    {
      hide M.AbandonToRecovery, Commit;
      var key := TaskKey(t);
      if !LeaseCurrent(key, holder, epoch, token) {
        return Refused(Fenced);
      }
      var alive := req.alive;
      if alive == Unclear && holder in workers {
        alive := workers[holder].alive;
      }
      if req.observeTimeout {
        if alive == Alive {
          CommitNothing(Contents());
          revision := revision + 1;
          return ObservationPending;
        }
        if alive == Unclear {
          reply := AbandonToRecovery(t, "checkpoint-observation-unknown", now);
          return;
        }
      }
      if req.unknownCom {
        reply := AbandonToRecovery(t, "unknown-com-save-status", now);
        return;
      }
      if t !in tasks {
        return Refused(InvalidRequest);
      }
      reply := WriteCheckpoint(t, holder, epoch, token, req, now);
    }

    /** The checkpoint, the task pointing at it, the handoff, the released lease, the draining worker. */
    method WriteCheckpoint(t: TaskId, holder: Name, epoch: nat, token: Token, req: CheckpointRequest, now: Time)
      returns (reply: Reply)
      requires t in tasks && TaskKey(t) in leases
      modifies this
      ensures var o := CheckpointWrite(old(Contents()), t, holder, epoch, token, req, now);
              Contents() == After(old(Contents()), o) && reply == o.reply
    {
      hide CheckpointWrite, CheckpointedTask;
      ghost var s := Contents();
      var id, checkpoint := RecordCheckpoint(t, holder, epoch, token, req.content, now);
      leases := leases[TaskKey(t) := leases[TaskKey(t)].(release := Some(Release(now, ForCheckpoint)))];
      DrainWorker(holder, req.mode);
      revision := revision + 1;
      CheckpointIs(s, Contents(), t, holder, epoch, token, req, now, checkpoint);
      CheckpointReplies(s, t, holder, epoch, token, req, now);
      return CheckpointWritten(id);
    }

    method RecordCheckpoint(t: TaskId, holder: Name, epoch: nat, token: Token, content: string, now: Time)
      returns (id: Token, checkpoint: Checkpoint)
      requires t in tasks
      modifies this`tasks, this`checkpoints, this`handoffs, this`tokens
      ensures id == old(tokens) && tokens == old(tokens) + 1
      ensures checkpoint == Checkpoint(t, holder, epoch, token, now, old(tasks)[t].revision, content)
      ensures checkpoints == old(checkpoints)[id := checkpoint]
      ensures tasks == old(tasks)[t := CheckpointedTask(old(tasks)[t], id, holder, epoch)]
      ensures handoffs == old(handoffs)[id := Handoff(checkpoint, t, holder, epoch, old(tasks)[t].revision + 1, now,
              None, None, None)]
    {
      var task := tasks[t];
      id := DrawToken();
      checkpoint := Checkpoint(t, holder, epoch, token, now, task.revision, content);
      checkpoints := checkpoints[id := checkpoint];
      task := task.(revision := task.revision + 1, status := Checkpointed, checkpointId := Some(id));
      task := task.(handoff := Some(TaskHandoff(id, holder, epoch, None, None)), assignee := Some(holder),
                    blocker := None);
      tasks := tasks[t := task];
      handoffs := handoffs[id := Handoff(checkpoint, t, holder, epoch, task.revision, now, None, None, None)];
    }

    method DrainWorker(w: Name, mode: Mode)
      modifies this`workers
      ensures workers == if w in old(workers)
              then old(workers)[w := old(workers)[w].(mode := mode, available := false,
                                                      revision := old(workers)[w].revision + 1)]
                         else old(workers)
    {
      if w in workers {
        workers := workers[w := workers[w].(mode := mode, available := false, revision := workers[w].revision + 1)];
      }
    }

    /** A replacement resumes from the task's checkpoint. */
    method ClaimReplacement(t: TaskId, worker: Name, checkpointId: Token, ttl: Time, expected: Option<nat>,
                            expectedCheckpoint: Option<Checkpoint>, now: Time) returns (reply: Reply)
      modifies this
      ensures var o := M.ClaimReplacement(old(Contents()), t, worker, checkpointId, ttl, expected, expectedCheckpoint,
                                          now);
              Contents() == After(old(Contents()), o) && reply == o.reply
    {
      hide Acquire;
      if t !in tasks || checkpointId !in checkpoints || tasks[t].checkpointId != Some(checkpointId) {
        return Refused(Fenced);
      }
      if expectedCheckpoint.Some? && expectedCheckpoint.value != checkpoints[checkpointId] {
        return Refused(Fenced);
      }
      var task := tasks[t];
      if task.recoveryRequired {
        return Refused(RecoveryFirst);
      }
      if task.status != Checkpointed {
        return Refused(LeaseConflict);
      }
      if expected.Some? && expected.value != task.revision {
        return Refused(Fenced);
      }
      reply := AcquireLease(TaskKey(t), worker, ttl, Some(task.revision), Some(checkpointId), now);
    }

    method ResolveRecovery(t: TaskId, receipt: string) returns (reply: Reply)
      modifies this
      ensures var o := M.ResolveRecovery(old(Contents()), t, receipt);
              Contents() == After(old(Contents()), o) && reply == o.reply
    {
      hide Commit;
      if t !in tasks {
        return Refused(InvalidRequest);
      }
      var task := tasks[t];
      if !task.recoveryRequired {
        return Unchanged;
      }
      task := task.(revision := task.revision + 1, recoveryRequired := false, recoveryReason := None, blocker := None);
      task := task.(status := (if task.checkpointId.Some? then Checkpointed else Queued), receipt := Some(receipt));
      PutTask(Contents(), t, task);
      tasks := tasks[t := task];
      revision := revision + 1;
      return Done;
    }

    // Operations

    method BeginOperation(t: TaskId, holder: Name, epoch: nat, token: Token, kind: string, id: Name, now: Time)
      returns (reply: Reply)
      modifies this
      ensures var o := M.BeginOperation(old(Contents()), t, holder, epoch, token, kind, id, now);
              Contents() == After(old(Contents()), o) && reply == o.reply
    {
      hide Commit;
      if t !in tasks {
        return Refused(InvalidRequest);
      }
      if tasks[t].recoveryRequired {
        return Refused(RecoveryFirst);
      }
      if !LeaseCurrent(TaskKey(t), holder, epoch, token) {
        return Refused(Fenced);
      }
      var operation := Operation(t, holder, epoch, kind, InFlight, now, None, "");
      PutOperation(Contents(), id, operation);
      operations := operations[id := operation];
      revision := revision + 1;
      return Done;
    }

    method FinishOperation(id: Name, status: OperationStatus, receipt: string, now: Time) returns (reply: Reply)
      modifies this
      ensures var o := M.FinishOperation(old(Contents()), id, status, receipt, now);
              Contents() == After(old(Contents()), o) && reply == o.reply
    {
      hide Recovering, Commit;
      if status == InFlight || id !in operations {
        return Refused(InvalidRequest);
      }
      var operation := operations[id];
      if operation.status != InFlight {
        return Unchanged;
      }
      ghost var s := Contents();
      if status == Unknown {
        var known := MarkRecoveryState(operation.task, "unknown-operation-completion");
        if !known {
          return Refused(InvalidRequest);
        }
      }
      operation := operation.(status := status, finishedAt := Some(now), receipt := receipt);
      if status == Unknown {
        PutOperationAndTask(s, id, operation, operation.task, tasks[operation.task]);
      } else {
        PutOperation(s, id, operation);
      }
      operations := operations[id := operation];
      revision := revision + 1;
      return Done;
    }

    // Results

    /** Publication: accepted once, under the current fence and on the expected revision. */
    method PublishResult(t: TaskId, holder: Name, epoch: nat, token: Token, inputRevision: nat, content: string,
                         resultId: Name, receipt: string, now: Time) returns (reply: Reply)
      modifies this
      ensures var o := M.PublishResult(old(Contents()), t, holder, epoch, token, inputRevision, content, resultId,
                                       receipt, now);
              Contents() == After(old(Contents()), o) && reply == o.reply
    {
      hide PublishChange;
      if t !in tasks {
        return Refused(InvalidRequest);
      }
      var task := tasks[t];
      if task.result.Some? {
        var was := task.result.value;
        if was.resultId == resultId && was.holder == holder && was.epoch == epoch && was.token == token {
          return Duplicate;
        }
        return Refused(Fenced);
      }
      if !LeaseCurrent(TaskKey(t), holder, epoch, token) {
        return Refused(Fenced);
      }
      if task.revision != inputRevision {
        return Refused(Fenced);
      }
      var digest := Digest(content);
      var record := Result(resultId, t, holder, epoch, token, inputRevision, digest, receipt, now, None);
      task := task.(revision := task.revision + 1, status := Completed,
                    result := Some(Acceptance(resultId, digest, holder, epoch, token)));
      task := task.(integrated := task.integrated + 1, receipt := Some(receipt));
      WriteResult(t, record, task, now);
      return Done;
    }

    /** The result, the finished task, its handoff and its released lease. */
    method WriteResult(t: TaskId, record: Result, task: Task, now: Time)
      requires t in tasks && TaskKey(t) in leases && task.checkpointId == tasks[t].checkpointId
      modifies this
      ensures Contents() == Commit(old(Contents()), PublishChange(old(Contents()), t, record, task, now))
    {
      hide PublishChange;
      ghost var s := Contents();
      results := results[t := record];
      tasks := tasks[t := task];
      if task.checkpointId.Some? && task.checkpointId.value in handoffs {
        handoffs := handoffs[task.checkpointId.value := handoffs[task.checkpointId.value].(completedAt := Some(now))];
      }
      leases := leases[TaskKey(t) := leases[TaskKey(t)].(release := Some(Release(now, ForResult)))];
      revision := revision + 1;
      PublishIs(s, Contents(), t, record, task, now);
    }

    predicate ResultCanonical(t: TaskId, resultId: Name)
      reads this
      ensures ResultCanonical(t, resultId) == Canonical(Contents(), t, resultId)
    {
      && t in tasks && t in results
      && tasks[t].result.Some? && tasks[t].result.value.resultId == resultId
      && results[t].task == t && results[t].resultId == resultId
    }

    /** The coordinator's ruling on a result: recorded once, then immutable. */
    method DecideResult(t: TaskId, resultId: Name, ruling: Ruling, holder: Name, epoch: nat, token: Token, now: Time)
      returns (reply: Reply)
      modifies this
      ensures var o := M.DecideResult(old(Contents()), t, resultId, ruling, holder, epoch, token, now);
              Contents() == After(old(Contents()), o) && reply == o.reply
    {
      hide Commit;
      if ruling.disposition == Superseded {
        if ruling.superseding.None? || ruling.superseding.value == (t, resultId) {
          return Refused(InvalidRequest);
        }
      } else if ruling.superseding.Some? {
        return Refused(InvalidRequest);
      }
      if !LeaseCurrent(COORDINATOR, holder, epoch, token) || leases[COORDINATOR].expires <= now {
        return Refused(Fenced);
      }
      if !ResultCanonical(t, resultId) {
        return Refused(InvalidRequest);
      }
      if ruling.disposition == Superseded && !ResultCanonical(ruling.superseding.value.0, ruling.superseding.value.1) {
        return Refused(InvalidRequest);
      }
      var record, task := results[t], tasks[t];
      if record.decision.Some? {
        return if record.decision.value.ruling == ruling then Duplicate else Refused(Fenced);
      }
      var decision := Some(Decision(ruling, now));
      record := record.(decision := decision);
      task := task.(decision := decision, revision := task.revision + 1);
      task := task.(status := if ruling.disposition == Rejected && ruling.terminal then Failed else Completed);
      PutResultAndTask(Contents(), t, record, task);
      results := results[t := record];
      tasks := tasks[t := task];
      revision := revision + 1;
      return Done;
    }

    // Routing

    /** Give the task to the first eligible worker that can take its lease, or record that none can. */
    method RouteTask(t: TaskId, order: seq<Name>, eligible: set<Name>, ttl: Time, now: Time) returns (reply: Reply)
      modifies this
      ensures var o := M.RouteTask(old(Contents()), t, order, eligible, ttl, now);
              Contents() == After(old(Contents()), o) && reply == o.reply
    {
      hide Acquire, Ready, RouteFrom, Commit;
      if t !in tasks {
        return Refused(InvalidRequest);
      }
      var task := tasks[t];
      if task.recoveryRequired || task.status == Checkpointed || Terminal(task.status) {
        return NotRoutable;
      }
      CommitNothing(Contents());
      var failures := DependenciesReady(task);
      if failures != [] {
        revision := revision + 1;
        return RoutingBlocked;
      }
      reply := RouteReady(t, order, eligible, ttl, now);
    }

    method RouteReady(t: TaskId, order: seq<Name>, eligible: set<Name>, ttl: Time, now: Time) returns (reply: Reply)
      requires t in tasks
      modifies this
      ensures var o := RouteFrom(old(Contents()), t, order, eligible, ttl, now);
              Contents() == After(old(Contents()), o) && reply == o.reply
    {
      hide Commit;
      hide Acquire;
      ghost var s := Contents();
      var task := tasks[t];
      for i := 0 to |order|
        invariant Contents() == s
                  && RouteFrom(s, t, order, eligible, ttl, now) == RouteFrom(s, t, order[i..], eligible, ttl, now)
      {
        var worker := order[i];
        if worker in eligible && worker in workers {
          AcquireRepliesPlainly(s, TaskKey(t), worker, ttl, Some(task.revision), None, now);
          var attempt := AcquireLease(TaskKey(t), worker, ttl, Some(task.revision), None, now);
          if attempt.Granted? {
            return Routed(worker);
          }
          if attempt == Refused(LeaseConflict) && TaskKey(t) in leases && leases[TaskKey(t)].Active() {
            return AlreadyRouted(leases[TaskKey(t)].holder);
          }
          if attempt != Refused(LeaseConflict) && attempt != Refused(Fenced) {
            return attempt;
          }
        }
      }
      task := task.(revision := task.revision + 1, status := Blocked, blocker := Some(ProvidersUnavailable));
      PutTask(Contents(), t, task);
      tasks := tasks[t := task];
      revision := revision + 1;
      return RoutingBlocked;
    }

    /** One bounded question: a worker answers it, or the task it belongs to is marked blocked. */
    method RouteQuestion(bounded: bool, text: string, order: seq<Name>, eligible: set<Name>, about: Option<TaskId>,
                         now: Time) returns (reply: Reply)
      modifies this
      ensures var o := M.RouteQuestion(old(Contents()), bounded, text, order, eligible, about, now);
              Contents() == After(old(Contents()), o) && reply == o.reply
    {
      hide AnswerChange, BlockedQuestion, Commit;
      if !bounded {
        CommitNothing(Contents());
        revision := revision + 1;
        return QuestionRefused;
      }
      ghost var s := Contents();
      for i := 0 to |order|
        invariant Contents() == s && Answerer(s, order, eligible) == Answerer(s, order[i..], eligible)
      {
        var w := order[i];
        if w in eligible && w in workers && (workers[w].mode == Reserve ==> workers[w].budget > 0) {
          Spend(w);
          return Routed(w);
        }
      }
      RecordUnanswered(text, about, now);
      return RoutingBlocked;
    }

    method Spend(w: Name)
      requires w in workers
      modifies this
      ensures Contents() == Commit(old(Contents()), AnswerChange(old(Contents()), w))
    {
      hide Commit;
      CommitNothing(Contents());
      if workers[w].mode == Reserve {
        var current := workers[w].(budget := workers[w].budget - 1, revision := workers[w].revision + 1);
        PutWorker(Contents(), w, current);
        workers := workers[w := current];
      }
      revision := revision + 1;
    }

    method RecordUnanswered(text: string, about: Option<TaskId>, now: Time)
      modifies this
      ensures Contents() == Commit(old(Contents()), BlockedQuestion(old(Contents()), text, about, now))
    {
      hide Commit;
      CommitNothing(Contents());
      if about.Some? && about.value in tasks {
        var task := tasks[about.value].(question := Some(Question(Digest(text), now)));
        if !task.recoveryRequired {
          task := task.(status := Blocked);
        }
        task := task.(revision := task.revision + 1);
        PutTask(Contents(), about.value, task);
        tasks := tasks[about.value := task];
      }
      revision := revision + 1;
    }
  }

  lemma CheckpointReplies(s: State, t: TaskId, holder: Name, epoch: nat, token: Token, req: CheckpointRequest,
                          now: Time)
    requires t in s.tasks && TaskKey(t) in s.leases
    ensures CheckpointWrite(s, t, holder, epoch, token, req, now).reply == CheckpointWritten(s.tokens)
  {
  }

  lemma AcquireRepliesPlainly(s: State, key: Key, holder: Name, ttl: Time, expected: Option<nat>,
                              handoff: Option<Token>, now: Time)
    ensures var o := Acquire(s, key, holder, ttl, expected, handoff, now);
            && (o.reply.Granted? || o.reply.Refused?) && (o.reply.Refused? ==> o.change == None)
  {
  }

  lemma GrantIs(s: State, s': State, t: TaskId, holder: Name, ttl: Time, handoff: Option<Token>, now: Time,
                lease: Lease)
    requires t in s.tasks && (handoff.Some? ==> handoff.value in s.handoffs)
    requires lease == Lease(holder, (if TaskKey(t) in s.leases then s.leases[TaskKey(t)].epoch else 0) + 1, s.tokens,
                            now, now + ttl,
                            Some(s.tasks[t].revision + 1), None)
    requires s' == s.(
      tasks := s.tasks[t := ClaimedTask(s.tasks[t], holder, handoff, now)],
      leases := s.leases + map[TaskKey(t) := lease],
      handoffs := (if handoff.Some?
          then s.handoffs[handoff.value := s.handoffs[handoff.value].(claimedBy := Some(holder),
              claimedAt := Some(now))] else s.handoffs),
      revision := s.revision + 1, tokens := s.tokens + 1)
    ensures s' == Commit(s, TaskGrant(s, t, holder, ttl, handoff, now))
            && lease == TaskGrant(s, t, holder, ttl, handoff, now).leases[TaskKey(t)]
  {
    hide Commit, ClaimedTask;
    var through := TaskGrant(s, t, holder, ttl, handoff, now).handoffs;
    PutGrant(s, t, ClaimedTask(s.tasks[t], holder, handoff, now), lease, through);
    if handoff.Some? {
      PutIsMerge(s.handoffs, handoff.value,
                 s.handoffs[handoff.value].(claimedBy := Some(holder), claimedAt := Some(now)));
    } else {
      NoMerge(s.handoffs);
    }
    assert ClaimedTask(s.tasks[t], holder, handoff, now).revision == s.tasks[t].revision + 1 by {
      ClaimRaisesRevision(s.tasks[t], holder, handoff, now);
    }
  }

  lemma ClaimRaisesRevision(task: Task, holder: Name, handoff: Option<Token>, now: Time)
    ensures ClaimedTask(task, holder, handoff, now).revision == task.revision + 1
  {
  }

  lemma PutGrant(s: State, t: TaskId, task: Task, lease: Lease, through: map<Token, Handoff>)
    ensures Commit(s, NOTHING.(tasks := map[t := task], leases := map[TaskKey(t) := lease], drawn := 1,
                               handoffs := through))
         == s.(tasks := s.tasks[t := task], leases := s.leases + map[TaskKey(t) := lease],
               handoffs := s.handoffs + through,
               revision := s.revision + 1, tokens := s.tokens + 1)
  {
    MapFacts(s);
    PutIsMerge(s.tasks, t, task);
  }

  lemma CheckpointIs(s: State, s': State, t: TaskId, holder: Name, epoch: nat, token: Token, req: CheckpointRequest,
                     now: Time, checkpoint: Checkpoint)
    requires t in s.tasks && TaskKey(t) in s.leases
    requires checkpoint == Checkpoint(t, holder, epoch, token, now, s.tasks[t].revision, req.content)
    requires s' == State(
      if holder in s.workers then s.workers[holder := s.workers[holder].(mode := req.mode, available := false,
          revision := s.workers[holder].revision + 1)] else s.workers,
      s.tasks[t := CheckpointedTask(s.tasks[t], s.tokens, holder, epoch)],
      s.leases[TaskKey(t) := Released(s.leases[TaskKey(t)], ForCheckpoint, now)],
      s.checkpoints[s.tokens := checkpoint],
      s.handoffs[s.tokens := Handoff(checkpoint, t, holder, epoch, s.tasks[t].revision + 1, now, None, None, None)],
      s.results, s.operations, s.revision + 1, s.tokens + 1)
    ensures s' == After(s, CheckpointWrite(s, t, holder, epoch, token, req, now))
  {
    hide CheckpointedTask, Released;
    MapFacts(s);
    if holder in s.workers {
      PutIsMerge(s.workers, holder,
                 s.workers[holder].(mode := req.mode, available := false, revision := s.workers[holder].revision + 1));
    }
    PutIsMerge(s.tasks, t, CheckpointedTask(s.tasks[t], s.tokens, holder, epoch));
    PutIsMerge(s.leases, TaskKey(t), Released(s.leases[TaskKey(t)], ForCheckpoint, now));
    PutIsMerge(s.checkpoints, s.tokens, checkpoint);
    PutIsMerge(s.handoffs, s.tokens,
               Handoff(checkpoint, t, holder, epoch, s.tasks[t].revision + 1, now, None, None, None));
  }

  lemma PublishIs(s: State, s': State, t: TaskId, record: Result, task: Task, now: Time)
    requires t in s.tasks && TaskKey(t) in s.leases
    requires s' == s.(
      tasks := s.tasks[t := task], results := s.results[t := record],
      leases := s.leases[TaskKey(t) := Released(s.leases[TaskKey(t)], ForResult, now)],
      handoffs := (if s.tasks[t].checkpointId.Some? && s.tasks[t].checkpointId.value in s.handoffs
                   then var id := s.tasks[t].checkpointId.value;
                        s.handoffs[id := s.handoffs[id].(completedAt := Some(now))]
                   else s.handoffs),
      revision := s.revision + 1)
    ensures s' == Commit(s, PublishChange(s, t, record, task, now))
  {
    hide Released;
    MapFacts(s);
    PutIsMerge(s.tasks, t, task);
    PutIsMerge(s.results, t, record);
    PutIsMerge(s.leases, TaskKey(t), Released(s.leases[TaskKey(t)], ForResult, now));
    if s.tasks[t].checkpointId.Some? && s.tasks[t].checkpointId.value in s.handoffs {
      PutIsMerge(s.handoffs, s.tasks[t].checkpointId.value,
                 s.handoffs[s.tasks[t].checkpointId.value].(completedAt := Some(now)));
    }
  }

  lemma PlainGrantIs(s: State, key: Key, holder: Name, ttl: Time, now: Time)
    ensures var lease := NewLease(s, key, holder, ttl, None, now);
            var c := PlainGrant(s, key, holder, ttl, now);
            c == NOTHING.(leases := map[key := lease], drawn := 1)
  {
  }

  lemma AcquireKnows(s: State, key: Key, holder: Name, ttl: Time, expected: Option<nat>, handoff: Option<Token>,
                     now: Time)
    requires AcquireRefusal(s, key, holder, ttl, expected, handoff, now) == None
    ensures key.kind == TaskKind ==> key.resource in s.tasks
    ensures key.kind == TaskKind && handoff.Some? ==> s.tasks[key.resource].handoff.Some? && handoff.value in s.handoffs
  {
  }
}
