/** What a caller may conclude from the answer to one call, operation by operation. */
module LedgerEffects {
  import opened Graphs
  import opened LedgerGrants
  import opened LedgerModel
  import opened Options
  import opened Registration
  import Ledger
  import Readiness

  // Workers

  /** Two edits as one: the second has the last word on every field it gives. */
  function Over(first: WorkerEdit, second: WorkerEdit): WorkerEdit {
    WorkerEdit(
      if second.alive.Some? then second.alive else first.alive,
      if second.mode.Some? then second.mode else first.mode,
      if second.available.Some? then second.available else first.available,
      if second.budget.Some? then second.budget else first.budget)
  }

  /** Updating a worker twice is updating it once with both edits, but for the revision; the empty edit
      changes nothing else; and no other worker or document is touched. */
  lemma UpdatesCompose(s: State, id: Name, first: WorkerEdit, second: WorkerEdit)
    requires id in s.workers
    ensures var once := After(s, UpdateWorker(s, id, first));
            var twice := After(once, UpdateWorker(once, id, second));
            var both := After(s, UpdateWorker(s, id, Over(first, second)));
            && twice == both.(workers := both.workers[id := both.workers[id].(revision := s.workers[id].revision + 2)],
                              revision := s.revision + 2)
            && (first == WorkerEdit(None, None, None, None)
                ==> once.workers[id] == s.workers[id].(revision := s.workers[id].revision + 1))
            && once == s.(workers := s.workers[id := once.workers[id]], revision := s.revision + 1)
  {
    hide Commit;
    var once := After(s, UpdateWorker(s, id, first));
    Ledger.PutWorker(s, id, UpdateWorker(s, id, first).change.value.workers[id]);
    Ledger.PutWorker(once, id, UpdateWorker(once, id, second).change.value.workers[id]);
    Ledger.PutWorker(s, id, UpdateWorker(s, id, Over(first, second)).change.value.workers[id]);
  }

  /** Registering a known worker again is updating every field of it; only a negative budget is refused,
      and only registering makes a worker known. */
  lemma RegisterIsFullUpdate(s: State, id: Name, alive: Liveness, mode: Mode, available: bool, budget: int)
    ensures var o := RegisterWorker(s, id, alive, mode, available, budget);
            var u := UpdateWorker(s, id, WorkerEdit(Some(alive), Some(mode), Some(available), Some(budget)));
            && (o.reply == Done <==> budget >= 0) && (u.reply == Done <==> id in s.workers)
            && (o.reply == Done && u.reply == Done ==> After(s, o) == After(s, u))
            && (o.reply == Done ==> id in After(s, o).workers && forall w :: w in After(s, o).workers ==>
                w == id || w in s.workers)
            && (o.reply != Done ==> After(s, o) == s) && (u.reply != Done ==> After(s, u) == s)
  {
  }

  /** What is stored of a worker: on registration everything that is given, on an update the fields that are
      given, and the others as they were. */
  lemma WorkersAreStored(s: State, id: Name, worker: Worker, edit: WorkerEdit)
    ensures var o := RegisterWorker(s, id, worker.alive, worker.mode, worker.available, worker.budget);
            var known := if id in s.workers then s.workers[id].revision else 0;
            o.reply == Done ==>
              After(s, o) == s.(workers := s.workers[id := worker.(revision := known + 1)], revision := s.revision + 1)
    ensures var o := UpdateWorker(s, id, edit);
            var s' := After(s, o);
            o.reply == Done ==>
              && id in s.workers && id in s'.workers
              && s' == s.(workers := s.workers[id := s'.workers[id]], revision := s.revision + 1)
              && var (w, w') := (s.workers[id], s'.workers[id]);
                 && w'.revision == w.revision + 1
                 && (if edit.alive.Some? then edit.alive == Some(w'.alive) else w'.alive == w.alive)
                 && (if edit.mode.Some? then edit.mode == Some(w'.mode) else w'.mode == w.mode)
                 && (if edit.available.Some? then edit.available == Some(w'.available)
                     else w'.available == w.available)
                 && (if edit.budget.Some? then edit.budget == Some(w'.budget) else w'.budget == w.budget)
  {
    hide Commit;
    var o, u := RegisterWorker(s, id, worker.alive, worker.mode, worker.available, worker.budget),
                UpdateWorker(s, id, edit);
    if o.reply == Done {
      Ledger.PutWorker(s, id, o.change.value.workers[id]);
    }
    if u.reply == Done {
      Ledger.PutWorker(s, id, u.change.value.workers[id]);
    }
  }

  /** A quota reading for a worker: it can take work exactly if the quota is neither exhausted nor stale; an
      exhausted one blocks it, and the next that is not ends the block, or a pending reset; other modes stay. */
  lemma QuotaMeans(s: State, id: Name, exhausted: bool, stale: bool)
    ensures var o := CaptureQuota(s, Some(id), exhausted, stale);
            var s' := After(s, o);
            && (o.reply == Done <==> id in s.workers) && (o.reply != Done ==> o.reply.Refused? && s' == s)
            && (o.reply == Done ==>
                  && id in s'.workers
                  && s' == s.(workers := s.workers[id := s'.workers[id]], revision := s.revision + 1)
                  && var (w, w') := (s.workers[id], s'.workers[id]);
                     && w'.revision == w.revision + 1 && w'.alive == w.alive && w'.budget == w.budget
                     && (w'.available <==> !exhausted && !stale)
                     && (exhausted ==> w'.mode == QuotaBlocked)
                     && (!exhausted ==> w'.mode != QuotaBlocked && w'.mode != ResetPending)
                     && (!exhausted && w'.mode != w.mode ==> w'.mode == Available)
                     && (!exhausted && w.mode != QuotaBlocked && w.mode != ResetPending ==> w'.mode == w.mode))
    ensures After(s, CaptureQuota(s, None, exhausted, stale)) == s.(revision := s.revision + 1)
  {
    hide Commit;
    Ledger.CommitNothing(s);
    var o := CaptureQuota(s, Some(id), exhausted, stale);
    if o.reply == Done {
      Ledger.PutWorker(s, id, o.change.value.workers[id]);
    }
  }

  // Registration

  /** The dependencies as they are stored: each id of the list once, at its first place. */
  ghost predicate Deduplicates(ids: seq<TaskId>, r: seq<TaskId>) {
    && (forall x :: x in r <==> x in ids)
    && (forall i, j :: 0 <= i < j < |r| ==> r[i] != r[j])
    && forall i, j :: 0 <= i < j < |r| ==> exists k :: 0 <= k < |ids| && ids[k] == r[i] && r[j] !in ids[..k + 1]
  }

  lemma {:induction false} DedupMeans(ids: seq<TaskId>)
    ensures Deduplicates(ids, Dedup(ids))
  {
    if ids != [] {
      var n := |ids| - 1;
      var init, r := Dedup(ids[..n]), Dedup(ids);
      DedupMeans(ids[..n]);
      forall i, j | 0 <= i < j < |r|
        ensures exists k :: 0 <= k < |ids| && ids[k] == r[i] && r[j] !in ids[..k + 1]
      {
        if j < |init| {
          var k :| 0 <= k < n && ids[..n][k] == init[i] && init[j] !in ids[..n][..k + 1];
          assert ids[..n][..k + 1] == ids[..k + 1] && ids[k] == r[i];
        } else {
          assert r[i] == init[i] && r[i] in ids[..n];
          var k :| 0 <= k < n && ids[..n][k] == r[i];
          assert r[j] == ids[n] && ids[n] !in ids[..n];
          assert ids[..k + 1] == ids[..n][..k + 1];
          assert r[j] !in ids[..k + 1] && ids[k] == r[i];
        }
      }
    }
  }

  /** On an acyclic ledger a task is registered exactly if its id is new and the dependencies stay acyclic; an
      id already there is left as it is, unless the call makes it its own dependency. The new task is as the
      call describes it, with nothing done yet. */
  lemma RegistersExactly(s: State, t: TaskId, dependencies: seq<TaskId>, brief: string, assignee: Option<Name>,
                         status: Status)
    requires Acyclic(DependencyGraph(s.tasks))
    ensures var o := RegisterTask(s, t, dependencies, brief, assignee, status);
            var s' := After(s, o);
            && (o.reply == Done <==> t !in s.tasks && Acyclic(DependencyGraph(s.tasks)[t := Dedup(dependencies)]))
            && (o.reply == Unchanged <==> t in s.tasks && t !in dependencies)
            && (o.reply != Done ==> s' == s && (o.reply == Unchanged || o.reply == Refused(InvalidRequest)))
            && (o.reply == Done ==>
                  && t in s'.tasks && Deduplicates(dependencies, s'.tasks[t].dependencies)
                  && var deps := s'.tasks[t].dependencies;
                     s' == s.(tasks := s.tasks[t := Task(deps, brief, assignee, status, 0, None, None, None, false,
                                                         None, None, 0, None, None, None)],
                              revision := s.revision + 1))
  {
    hide Commit, Acyclic, SeesCycle, Dedup, Deduplicates;
    var deps := Dedup(dependencies);
    DedupMeans(dependencies);
    if t !in s.tasks {
      RefusesExactlyNewCycles(DependencyGraph(s.tasks), t, deps);
      Ledger.PutTask(s, t, NewTask(deps, brief, assignee, status));
      if t in deps {
        SelfIsCyclic(DependencyGraph(s.tasks), t, deps);
      }
    }
  }

  lemma SelfIsCyclic(g: Graph, t: TaskId, deps: seq<TaskId>)
    requires t in deps
    ensures !Acyclic(g[t := deps])
  {
    var g' := g[t := deps];
    assert Edge(g', t, t);
    ReachesSelf(g', t);
    assert OnCycle(g', t);
  }

  // Leases

  /** A release succeeds exactly under the current fence. It changes that lease alone, and afterwards no
      fence is current for the key, so a second release is refused. */
  lemma ReleaseEnds(s: State, key: Key, holder: Name, epoch: nat, token: Token, reason: string, proof: string,
                    now: Time)
    ensures var o := ReleaseLease(s, key, holder, epoch, token, reason, proof, now);
            var s' := After(s, o);
            && (o.reply == Done <==> Current(s, key, holder, epoch, token))
            && (o.reply != Done ==> o.reply == Refused(Fenced) && s' == s)
            && (o.reply == Done ==>
                  && key in s'.leases && s' == s.(leases := s.leases[key := s'.leases[key]], revision := s.revision + 1)
                  && s'.leases[key] == s.leases[key].(release := Some(Release(now, Explicit(reason, proof))))
                  && forall h, e, t :: !Current(s', key, h, e, t))
  {
    hide Commit;
    if Current(s, key, holder, epoch, token) {
      Ledger.PutLease(s, key, Released(s.leases[key], Explicit(reason, proof), now));
    }
  }

  /** A renewal succeeds exactly under the current fence and for a positive time, expired or not. It moves
      the expiry of that lease alone: it is live again, and every fence is current just as before. */
  lemma RenewKeepsFences(s: State, key: Key, holder: Name, epoch: nat, token: Token, ttl: Time, now: Time)
    ensures var o := RenewLease(s, key, holder, epoch, token, ttl, now);
            var s' := After(s, o);
            && (o.reply == Done <==> ttl > 0.0 && Current(s, key, holder, epoch, token))
            && (o.reply != Done ==> o.reply.Refused? && s' == s)
            && (forall k, h, e, t :: Current(s', k, h, e, t) <==> Current(s, k, h, e, t))
            && (o.reply == Done ==>
                  && key in s'.leases && s' == s.(leases := s.leases[key := s'.leases[key]], revision := s.revision + 1)
                  && s'.leases[key].(expires := s.leases[key].expires) == s.leases[key]
                     && s'.leases[key].expires == now + ttl
                  && s'.leases[key].Live(now))
  {
    hide Commit;
    if ttl > 0.0 && Current(s, key, holder, epoch, token) {
      Ledger.PutLease(s, key, s.leases[key].(expires := now + ttl));
    }
  }

  // Recovery

  /** Nobody can lease a task in recovery, resume it, route it or start an operation on it. */
  ghost predicate Unworkable(s: State, t: TaskId) {
    && (forall holder, ttl, expected, handoff,
        now :: Acquire(s, TaskKey(t), holder, ttl, expected, handoff, now).reply.Refused?)
    && (forall holder, epoch, token, kind, id,
        now :: BeginOperation(s, t, holder, epoch, token, kind, id, now).reply.Refused?)
    && (forall order, eligible, ttl,
        now :: RouteTask(s, t, order, eligible, ttl, now).reply in {NotRoutable, Refused(InvalidRequest)})
  }

  lemma RecoveryIsUnworkable(s: State, t: TaskId)
    requires t in s.tasks && s.tasks[t].recoveryRequired
    ensures Unworkable(s, t)
  {
    hide Ready, BusyElsewhere, HeldRefusal, ResumeRefusal, RouteFrom;
  }

  /** What recovery marking and its resolution leave as it was. */
  predicate SameWork(a: Task, b: Task) {
    && a.result == b.result && a.integrated == b.integrated && a.decision == b.decision
    && a.dependencies == b.dependencies && a.checkpointId == b.checkpointId && a.handoff == b.handoff
       && a.assignee == b.assignee
  }

  /** The task in recovery, for the reason given, under its next revision. */
  function InRecovery(task: Task, reason: string): Task {
    task.(status := RecoveryNeeded, recoveryRequired := true, recoveryReason := Some(reason),
          blocker := Some(UnknownCompletion), revision := task.revision + 1)
  }

  /** Marking a task for recovery works on every known task, finished or not. It takes the task out of
      work, keeps its result, decision and checkpoint, and touches no lease. */
  lemma MarkingStopsWork(s: State, t: TaskId, reason: string)
    ensures var o := MarkRecovery(s, t, reason);
            var s' := After(s, o);
            && (o.reply == RecoveryMarked <==> t in s.tasks) && (t !in s.tasks ==> o.reply.Refused? && s' == s)
            && (t in s.tasks ==>
                  && t in s'.tasks && s' == s.(tasks := s.tasks[t := s'.tasks[t]], revision := s.revision + 1)
                  && s'.tasks[t] == InRecovery(s.tasks[t], reason) && SameWork(s.tasks[t], s'.tasks[t])
                  && Unworkable(s', t))
  {
    hide Commit, Unworkable;
    if t in s.tasks {
      Ledger.PutTask(s, t, Recovering(s.tasks[t], reason));
      RecoveryIsUnworkable(After(s, MarkRecovery(s, t, reason)), t);
    }
  }

  /** Only a task in recovery is resolved, once; it goes back to its checkpoint if it has one and to the
      queue if not, with its result and decision as they were. */
  lemma ResolvingReopens(s: State, t: TaskId, receipt: string)
    ensures var o := ResolveRecovery(s, t, receipt);
            var s' := After(s, o);
            && (o.reply == Done <==> t in s.tasks && s.tasks[t].recoveryRequired)
            && (o.reply == Unchanged <==> t in s.tasks && !s.tasks[t].recoveryRequired) && (o.reply != Done ==> s' == s)
            && (o.reply == Done ==>
                  && t in s'.tasks && s' == s.(tasks := s.tasks[t := s'.tasks[t]], revision := s.revision + 1)
                  && SameWork(s.tasks[t], s'.tasks[t])
                  && s'.tasks[t] == s.tasks[t].(
                       status := if s.tasks[t].checkpointId.Some? then Checkpointed else Queued,
                       recoveryRequired := false, recoveryReason := None, blocker := None, receipt := Some(receipt),
                       revision := s.tasks[t].revision + 1)
                  && ResolveRecovery(s', t, receipt) == Outcome(Unchanged, None))
  {
    hide Commit;
    if t in s.tasks && s.tasks[t].recoveryRequired {
      Ledger.PutTask(s, t, ResolveRecovery(s, t, receipt).change.value.tasks[t]);
    }
  }

  // Checkpoints

  /** What the ledger takes the holder's process to be when it is told nothing definite. */
  function Observed(s: State, holder: Name, req: CheckpointRequest): Liveness {
    if req.alive != Unclear then req.alive else AliveOf(s, holder)
  }

  ghost predicate FenceGone(s: State, key: Key) {
    forall h, e, t :: !Current(s, key, h, e, t)
  }

  /** The task given up to recovery, and its lease with it. */
  function Abandoned(s: State, t: TaskId, reason: string, now: Time): State
    requires t in s.tasks && TaskKey(t) in s.leases
  {
    s.(tasks := s.tasks[t := InRecovery(s.tasks[t], reason)],
       leases := s.leases[TaskKey(t) := s.leases[TaskKey(t)].(release := Some(Release(now, ForRecovery)))],
       revision := s.revision + 1)
  }

  /** The checkpoint and the handoff to whoever resumes the task, under one new id; the task waits at them, the
      lease is over, and the worker is out of work. */
  function Written(s: State, t: TaskId, holder: Name, epoch: nat, token: Token, req: CheckpointRequest,
                   now: Time): State
    requires t in s.tasks && TaskKey(t) in s.leases
  {
    var id, task := s.tokens, s.tasks[t];
    var checkpoint := Checkpoint(t, holder, epoch, token, now, task.revision, req.content);
    s.(checkpoints := s.checkpoints[id := checkpoint],
       handoffs := s.handoffs[id := Handoff(checkpoint, t, holder, epoch, task.revision + 1, now, None, None, None)],
       tasks := s.tasks[t := task.(status := Checkpointed, checkpointId := Some(id), assignee := Some(holder),
                                   handoff := Some(TaskHandoff(id, holder, epoch, None, None)), blocker := None,
                                   revision := task.revision + 1)],
       leases := s.leases[TaskKey(t) := s.leases[TaskKey(t)].(release := Some(Release(now, ForCheckpoint)))],
       workers := if holder !in s.workers then s.workers
                  else s.workers[holder := s.workers[holder].(mode := req.mode, available := false,
                                                              revision := s.workers[holder].revision + 1)],
       revision := s.revision + 1, tokens := s.tokens + 1)
  }

  /** The outcomes of asking for a checkpoint, each exactly when: a stale fence; a live process that has not
      reached a safe point; an unknown process or operation, which sends the task into recovery; a written
      checkpoint. A live process keeps its lease, and nothing but the revision moves; the last two end it. */
  lemma CheckpointOutcomes(s: State, t: TaskId, holder: Name, epoch: nat, token: Token, req: CheckpointRequest,
                           now: Time)
    ensures var o := CheckpointTask(s, t, holder, epoch, token, req, now);
            var s' := After(s, o);
            var fenced := Current(s, TaskKey(t), holder, epoch, token);
            var pending := req.observeTimeout && Observed(s, holder, req) == Alive;
            var lost := (req.observeTimeout && Observed(s, holder, req) == Unclear) || req.unknownCom;
            && (o.reply == Refused(Fenced) <==> !fenced) && (o.reply.Refused? ==> s' == s)
            && (o.reply == ObservationPending <==> fenced && pending)
               && (fenced && pending ==> s' == s.(revision := s.revision + 1))
            && (o.reply == RecoveryMarked <==> fenced && !pending && lost && t in s.tasks)
            && (o.reply.CheckpointWritten? <==> fenced && !pending && !lost && t in s.tasks)
            && (o.reply == RecoveryMarked || o.reply.CheckpointWritten? ==> FenceGone(s', TaskKey(t)))
            && (o.reply == RecoveryMarked ==>
                  && Unworkable(s', t)
                  && var unseen := req.observeTimeout && Observed(s, holder, req) == Unclear;
                     s' == Abandoned(s, t, if unseen then "checkpoint-observation-unknown"
                                           else "unknown-com-save-status", now))
            && (o.reply.CheckpointWritten? ==>
                  o.reply.id == s.tokens && s' == Written(s, t, holder, epoch, token, req, now))
  {
    hide Commit, Unworkable, FenceGone, CheckpointWrite, AbandonToRecovery, Abandoned, Written;
    Ledger.CommitNothing(s);
    if TaskKey(t) in s.leases {
      AbandonEnds(s, t, "checkpoint-observation-unknown", now);
      AbandonEnds(s, t, "unknown-com-save-status", now);
      if t in s.tasks {
        WriteEnds(s, t, holder, epoch, token, req, now);
      }
    }
  }

  lemma AbandonEnds(s: State, t: TaskId, reason: string, now: Time)
    requires TaskKey(t) in s.leases
    ensures var o := AbandonToRecovery(s, t, reason, now);
            if t !in s.tasks then o == Refuse(InvalidRequest)
            else
              var s' := After(s, o);
              && o.reply == RecoveryMarked && FenceGone(s', TaskKey(t)) && Unworkable(s', t)
              && s' == Abandoned(s, t, reason, now)
  {
    hide Unworkable, Commit;
    if t in s.tasks {
      Ledger.PutTaskAndLease(s, t, Recovering(s.tasks[t], reason), TaskKey(t),
                             Released(s.leases[TaskKey(t)], ForRecovery, now));
      RecoveryIsUnworkable(After(s, AbandonToRecovery(s, t, reason, now)), t);
    }
  }

  lemma WriteEnds(s: State, t: TaskId, holder: Name, epoch: nat, token: Token, req: CheckpointRequest, now: Time)
    requires t in s.tasks && TaskKey(t) in s.leases
    ensures var o := CheckpointWrite(s, t, holder, epoch, token, req, now);
            var s' := After(s, o);
            && o.reply == CheckpointWritten(s.tokens) && FenceGone(s', TaskKey(t))
            && s' == Written(s, t, holder, epoch, token, req, now)
  {
    hide After, CheckpointWrite;
    Ledger.CheckpointReplies(s, t, holder, epoch, token, req, now);
    Ledger.CheckpointIs(s, Written(s, t, holder, epoch, token, req, now), t, holder, epoch, token, req, now,
                        Checkpoint(t, holder, epoch, token, now, s.tasks[t].revision, req.content));
  }

  /** A checkpoint hands the task over: the old fence is gone, there is no way back but through it, and a
      claim that shows it and the task's revision succeeds exactly for a known worker without another
      live task lease, unless the task is in recovery. The claim holds the next epoch. */
  lemma CheckpointHandsOver(s: State, t: TaskId, holder: Name, epoch: nat, token: Token, req: CheckpointRequest,
                            now: Time, worker: Name, ttl: Time, later: Time)
    requires t in s.tasks && CheckpointTask(s, t, holder, epoch, token, req, now).reply.CheckpointWritten?
    ensures var o := CheckpointTask(s, t, holder, epoch, token, req, now);
            var s' := After(s, o);
            && o.reply.id in s'.checkpoints && t in s'.tasks
            && s'.checkpoints[o.reply.id] == Checkpoint(t, holder, epoch, token, now, s.tasks[t].revision, req.content)
            && Acquire(s', TaskKey(t), worker, ttl, None, None, later).reply.Refused?
            && var claim := ClaimReplacement(s', t, worker, o.reply.id, ttl, Some(s'.tasks[t].revision),
                                             Some(s'.checkpoints[o.reply.id]), later);
               && (claim.reply.Granted? <==>
                     !s.tasks[t].recoveryRequired && ttl > 0.0 && worker in s'.workers
                       && !BusyElsewhere(s', TaskKey(t), worker, later))
               && (claim.reply.Granted? ==> claim.reply.lease.epoch == epoch + 1 && claim.reply.lease.holder == worker)
  {
    hide BusyElsewhere, Ready;
    var o := CheckpointTask(s, t, holder, epoch, token, req, now);
    CheckpointLeaves(s, t, holder, epoch, token, req, now);
    var s' := After(s, o);
    hide CheckpointTask, After;
    ClaimExactly(s', t, worker, o.reply.id, ttl, later);
  }

  /** The records a written checkpoint leaves behind. */
  ghost predicate HandedOver(s: State, t: TaskId, id: Token, epoch: nat) {
    && t in s.tasks && id in s.checkpoints && id in s.handoffs && TaskKey(t) in s.leases
    && s.tasks[t].status == Checkpointed && s.tasks[t].checkpointId == Some(id)
    && s.tasks[t].handoff.Some? && s.tasks[t].handoff.value.checkpointId == id
       && s.tasks[t].handoff.value.claimedBy == None
    && !s.leases[TaskKey(t)].Active() && s.leases[TaskKey(t)].epoch == epoch
  }

  lemma CheckpointLeaves(s: State, t: TaskId, holder: Name, epoch: nat, token: Token, req: CheckpointRequest, now: Time)
    requires t in s.tasks && CheckpointTask(s, t, holder, epoch, token, req, now).reply.CheckpointWritten?
    ensures var o := CheckpointTask(s, t, holder, epoch, token, req, now);
            var s' := After(s, o);
            && HandedOver(s', t, o.reply.id, epoch) && s'.tasks[t].recoveryRequired == s.tasks[t].recoveryRequired
            && s'.checkpoints[o.reply.id] == Checkpoint(t, holder, epoch, token, now, s.tasks[t].revision, req.content)
  {
  }

  lemma ClaimExactly(s: State, t: TaskId, worker: Name, id: Token, ttl: Time, now: Time)
    requires exists epoch :: HandedOver(s, t, id, epoch)
    ensures Acquire(s, TaskKey(t), worker, ttl, None, None, now).reply.Refused?
    ensures var claim := ClaimReplacement(s, t, worker, id, ttl, Some(s.tasks[t].revision), Some(s.checkpoints[id]),
                                          now);
            && (claim.reply.Granted? <==>
                  !s.tasks[t].recoveryRequired && ttl > 0.0 && worker in s.workers
                    && !BusyElsewhere(s, TaskKey(t), worker, now))
            && (claim.reply.Granted? ==>
                claim.reply.lease.epoch == s.leases[TaskKey(t)].epoch + 1 && claim.reply.lease.holder == worker)
  {
    hide BusyElsewhere, Ready;
  }

  /** A claim is granted only on the task's own checkpoint, shown unchanged, at the revision expected. It
      puts the worker in charge under a current fence, and no further claim of the task succeeds. */
  lemma ClaimsOnce(s: State, t: TaskId, worker: Name, id: Token, ttl: Time, expected: Option<nat>,
                   shown: Option<Checkpoint>, now: Time)
    requires ClaimReplacement(s, t, worker, id, ttl, expected, shown, now).reply.Granted?
    ensures var o := ClaimReplacement(s, t, worker, id, ttl, expected, shown, now);
            var s' := After(s, o);
            && t in s.tasks && id in s.checkpoints && s.tasks[t].checkpointId == Some(id)
               && !s.tasks[t].recoveryRequired
            && (shown.Some? ==> shown.value == s.checkpoints[id])
               && (expected.Some? ==> expected.value == s.tasks[t].revision)
            && Current(s', TaskKey(t), worker, o.reply.lease.epoch, o.reply.lease.token)
            && t in s'.tasks && s'.tasks[t].assignee == Some(worker) && SameButClaim(s.tasks[t], s'.tasks[t])
            && forall w, i, l, e, c, n :: ClaimReplacement(s', t, w, i, l, e, c, n).reply.Refused?
  {
    hide AcquireRefusal;
  }

  predicate SameButClaim(a: Task, b: Task) {
    && a.result == b.result && a.integrated == b.integrated && a.decision == b.decision
    && a.dependencies == b.dependencies && a.checkpointId == b.checkpointId && a.recoveryRequired == b.recoveryRequired
  }

  // Operations

  /** An operation starts exactly under the current fence of a task not in recovery; only its record is
      written, the index reports it unresolved, and it can be finished. */
  lemma BeginOpens(s: State, t: TaskId, holder: Name, epoch: nat, token: Token, kind: string, id: Name, now: Time)
    ensures var o := BeginOperation(s, t, holder, epoch, token, kind, id, now);
            var s' := After(s, o);
            && (o.reply == Done <==>
                t in s.tasks && !s.tasks[t].recoveryRequired && Current(s, TaskKey(t), holder, epoch, token))
            && (o.reply != Done ==> o.reply.Refused? && s' == s)
            && (o.reply == Done ==>
                  && s' == s.(operations := s.operations[id := Operation(t, holder, epoch, kind, InFlight, now, None,
                      "")],
                              revision := s.revision + 1)
                  && Readiness.Applies(s', t, Readiness.UnresolvedOperation)
                  && forall status, receipt, later :: FinishOperation(s', id, status, receipt, later).reply == Done <==>
                     status != InFlight)
  {
    hide Commit;
    var o := BeginOperation(s, t, holder, epoch, token, kind, id, now);
    if o.reply == Done {
      Ledger.PutOperation(s, id, o.change.value.operations[id]);
      assert id in After(s, o).operations && After(s, o).operations[id].task == t;
    }
  }

  /** An operation finishes exactly once, while it is in flight; then a second finish changes nothing. An
      unknown outcome takes its task out of work in the same transaction; any other leaves the tasks. */
  lemma FinishEnds(s: State, id: Name, status: OperationStatus, receipt: string, now: Time)
    ensures var o := FinishOperation(s, id, status, receipt, now);
            var s' := After(s, o);
            var open := id in s.operations && s.operations[id].status == InFlight;
            && (o.reply == Done <==>
                status != InFlight && open && (status == Unknown ==> s.operations[id].task in s.tasks))
            && (o.reply == Unchanged <==> status != InFlight && id in s.operations && !open)
            && (o.reply != Done ==> s' == s)
            && (o.reply == Done ==>
                  && id in s'.operations
                  && s' == s.(
                       operations := s.operations[id := s.operations[id].(status := status, finishedAt := Some(now),
                                                                          receipt := receipt)],
                       tasks := s'.tasks, revision := s.revision + 1)
                  && (status != Unknown ==> s'.tasks == s.tasks)
                  && (status == Unknown ==>
                        var t := s.operations[id].task;
                        && s'.tasks == s.tasks[t := InRecovery(s.tasks[t], "unknown-operation-completion")]
                        && SameWork(s.tasks[t], s'.tasks[t]) && Unworkable(s', t))
                  && forall again, r, later :: again != InFlight ==>
                     FinishOperation(s', id, again, r, later) == Outcome(Unchanged, None))
  {
    hide Commit, Unworkable;
    var o := FinishOperation(s, id, status, receipt, now);
    if o.reply == Done {
      if status == Unknown {
        var t := s.operations[id].task;
        Ledger.PutOperationAndTask(s, id, o.change.value.operations[id], t, o.change.value.tasks[t]);
        RecoveryIsUnworkable(After(s, o), t);
      } else {
        Ledger.PutOperation(s, id, o.change.value.operations[id]);
      }
    }
  }

  // Results

  /** A publication is accepted exactly when the task has no result yet, the fence is current and the
      revision is the expected one. Then the result is there, the lease is over, the handoff behind it is
      completed, the same call again is a duplicate, and any call with another result id is refused. */
  lemma PublishAccepts(s: State, t: TaskId, holder: Name, epoch: nat, token: Token, inputRevision: nat, content: string,
                       resultId: Name, receipt: string, now: Time)
    ensures var o := PublishResult(s, t, holder, epoch, token, inputRevision, content, resultId, receipt, now);
            var s' := After(s, o);
            && (o.reply == Done <==>
                  t in s.tasks && s.tasks[t].result.None? && Current(s, TaskKey(t), holder, epoch, token)
                    && s.tasks[t].revision == inputRevision)
            && (o.reply == Duplicate <==>
                  && t in s.tasks && s.tasks[t].result.Some?
                  && s.tasks[t].result.value.(digest := Digest(""))
                     == Acceptance(resultId, Digest(""), holder, epoch, token))
            && (o.reply != Done ==> s' == s)
            && (o.reply == Done ==>
                  && s' == Delivered(s, t, Result(resultId, t, holder, epoch, token, inputRevision, Digest(content),
                                                  receipt, now, None), now)
                  && FenceGone(s', TaskKey(t)) && Published(s', t)
                  && PublishResult(s', t, holder, epoch, token, inputRevision, content, resultId, receipt, now)
                     == Outcome(Duplicate, None)
                  && forall h, e, k, i, c, r, p, n :: r != resultId ==>
                     PublishResult(s', t, h, e, k, i, c, r, p, n).reply == Refused(Fenced))
  {
    var o := PublishResult(s, t, holder, epoch, token, inputRevision, content, resultId, receipt, now);
    if o.reply == Done {
      PublishLeaves(s, t, holder, epoch, token, inputRevision, content, resultId, receipt, now);
      hide Commit, PublishChange;
    }
  }

  /** The ledger with the result: kept under the task and in its own record, counted once, with the task
      completed, its lease over and the handoff it was resumed through completed. */
  function Delivered(s: State, t: TaskId, record: Result, now: Time): State
    requires t in s.tasks && TaskKey(t) in s.leases
  {
    var task := s.tasks[t];
    s.(results := s.results[t := record],
       tasks := s.tasks[t := task.(
         status := Completed, revision := task.revision + 1, integrated := task.integrated + 1,
         receipt := Some(record.receipt),
         result := Some(Acceptance(record.resultId, record.digest, record.holder, record.epoch, record.token)))],
       leases := s.leases[TaskKey(t) := s.leases[TaskKey(t)].(release := Some(Release(now, ForResult)))],
       handoffs := if task.checkpointId.Some? && task.checkpointId.value in s.handoffs
                   then
                     var id := task.checkpointId.value;
                     s.handoffs[id := s.handoffs[id].(completedAt := Some(now))]
                   else s.handoffs,
       revision := s.revision + 1)
  }

  lemma PublishLeaves(s: State, t: TaskId, holder: Name, epoch: nat, token: Token, inputRevision: nat, content: string,
                      resultId: Name, receipt: string, now: Time)
    requires PublishResult(s, t, holder, epoch, token, inputRevision, content, resultId, receipt, now).reply == Done
    ensures var s' := After(s,
                            PublishResult(s, t, holder, epoch, token, inputRevision, content, resultId, receipt, now));
            var record := Result(resultId, t, holder, epoch, token, inputRevision, Digest(content), receipt, now, None);
            && t in s.tasks && TaskKey(t) in s.leases && s' == Delivered(s, t, record, now)
            && t in s'.tasks && t in s'.results && s'.tasks[t].status == Completed
            && s'.tasks[t].result == Some(Acceptance(resultId, Digest(content), holder, epoch, token))
            && s'.results[t] == record && TaskKey(t) in s'.leases && !s'.leases[TaskKey(t)].Active()
  {
    hide Commit, PublishChange;
    var record := Result(resultId, t, holder, epoch, token, inputRevision, Digest(content), receipt, now, None);
    Ledger.PublishIs(s, Delivered(s, t, record, now), t, record, Delivered(s, t, record, now).tasks[t], now);
  }

  /** A ruling that names a superseding result exactly when it supersedes, and not the result itself. */
  predicate Lawful(t: TaskId, resultId: Name, ruling: Ruling) {
    && (ruling.disposition == Superseded <==> ruling.superseding.Some?)
    && ruling.superseding != Some((t, resultId))
  }

  /** The task's own result has this id, and its record says so too. */
  predicate HasResult(s: State, t: TaskId, resultId: Name) {
    && t in s.tasks && t in s.results && s.results[t].task == t && s.results[t].resultId == resultId
    && s.tasks[t].result.Some? && s.tasks[t].result.value.resultId == resultId
  }

  /** The calls a decision is considered for. */
  predicate MayDecide(s: State, t: TaskId, resultId: Name, ruling: Ruling, holder: Name, epoch: nat, token: Token,
                      now: Time) {
    && Lawful(t, resultId, ruling)
    && Current(s, COORDINATOR, holder, epoch, token) && s.leases[COORDINATOR].Live(now)
    && HasResult(s, t, resultId)
    && (ruling.superseding.Some? ==> HasResult(s, ruling.superseding.value.0, ruling.superseding.value.1))
  }

  /** A lawful ruling under the live coordinator fence is recorded exactly when there is none yet, and the
      same one again is a duplicate. It changes that task and its result alone, and from then on a
      different ruling is refused whoever gives it. */
  lemma DecidesOnce(s: State, t: TaskId, resultId: Name, ruling: Ruling, holder: Name, epoch: nat, token: Token,
                    now: Time)
    ensures var o := DecideResult(s, t, resultId, ruling, holder, epoch, token, now);
            var s' := After(s, o);
            var may := MayDecide(s, t, resultId, ruling, holder, epoch, token, now);
            && (o.reply == Done <==> may && s.results[t].decision.None?)
            && (o.reply == Duplicate <==>
                may && s.results[t].decision.Some? && s.results[t].decision.value.ruling == ruling)
            && (o.reply != Done ==> s' == s)
            && (o.reply == Done ==>
                  && t in s'.tasks && t in s'.results
                  && s' == s.(results := s.results[t := s'.results[t]], tasks := s.tasks[t := s'.tasks[t]],
                              revision := s.revision + 1)
                  && s'.results[t] == s.results[t].(decision := Some(Decision(ruling, now)))
                  && s'.tasks[t] == s.tasks[t].(
                       decision := Some(Decision(ruling, now)), revision := s.tasks[t].revision + 1,
                       status := if ruling.disposition == Rejected && ruling.terminal then Failed else Completed)
                  && forall r, i, h, e, k, n :: r != ruling ==> DecideResult(s', t, i, r, h, e, k, n).reply.Refused?)
  {
    hide Commit;
    var o := DecideResult(s, t, resultId, ruling, holder, epoch, token, now);
    if o.reply == Done {
      Ledger.PutResultAndTask(s, t, o.change.value.results[t], o.change.value.tasks[t]);
    }
  }

  /** What a ruling does to the tasks that wait for the result: an accepted one stands, a rejected or superseded
      one is reported as such, a task rejected for good as not completed; and no other dependency changes. */
  lemma RulingCounts(s: State, t: TaskId, resultId: Name, ruling: Ruling, holder: Name, epoch: nat, token: Token,
                     now: Time, d: TaskId)
    requires DecideResult(s, t, resultId, ruling, holder, epoch, token, now).reply == Done
    ensures var s' := After(s, DecideResult(s, t, resultId, ruling, holder, epoch, token, now));
            Failure(s', d) ==
              if d != t then Failure(s, d)
              else match ruling.disposition
                   case Accepted => None
                   case Superseded => Some(WasSuperseded)
                   case Rejected => Some(if ruling.terminal then NotCompleted else WasRejected)
  {
    DecidesOnce(s, t, resultId, ruling, holder, epoch, token, now);
    hide DecideResult, After, Current;
  }

  /** So after an accepted ruling exactly those tasks are ready whose other dependencies stood already. */
  lemma AcceptanceUnblocks(s: State, t: TaskId, resultId: Name, ruling: Ruling, holder: Name, epoch: nat, token: Token,
                           now: Time, task: Task)
    requires DecideResult(s, t, resultId, ruling, holder, epoch, token, now).reply == Done
    ensures var s' := After(s, DecideResult(s, t, resultId, ruling, holder, epoch, token, now));
            Ready(s', task) <==>
              && (forall d :: d in task.dependencies && d != t ==> Stands(s, d))
              && (t in task.dependencies ==> ruling.disposition == Accepted)
  {
    hide Failure, DecideResult, After, Stands, Ruled;
    var s' := After(s, DecideResult(s, t, resultId, ruling, holder, epoch, token, now));
    forall d
      ensures (Failure(s, d) == None <==> Stands(s, d)) && (d != t ==> Failure(s', d) == Failure(s, d))
      ensures d == t ==> (Failure(s', d) == None <==> ruling.disposition == Accepted)
    {
      StandsMeans(s, d);
      RulingCounts(s, t, resultId, ruling, holder, epoch, token, now, d);
    }
  }

  lemma StandsMeans(s: State, d: TaskId)
    ensures Failure(s, d) == None <==> Stands(s, d)
  {
  }
}
