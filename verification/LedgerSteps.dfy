/** Every public operation of the ledger, called with any arguments, keeps the invariant. */
module LedgerSteps {
  import opened Graphs
  import opened Options
  import opened Registration
  import opened LedgerModel
  import opened LedgerInvariant

  /** A call with everything its caller chooses. `order` and `eligible` are the workers a routing call
      considers and those that pass its capability and quota checks. */
  datatype Call =
    | CallRegisterWorker(id: Name, alive: Liveness, mode: Mode, available: bool, budget: int)
    | CallUpdateWorker(id: Name, edit: WorkerEdit)
    | CallRegisterTask(task: TaskId, dependencies: seq<TaskId>, brief: string, assignee: Option<Name>, status: Status)
    | CallAcquire(key: Key, holder: Name, ttl: Time, expected: Option<nat>, handoff: Option<Token>)
    | CallRelease(key: Key, holder: Name, epoch: nat, token: Token, reason: string, proof: string)
    | CallRenew(key: Key, holder: Name, epoch: nat, token: Token, ttl: Time)
    | CallCheckpoint(task: TaskId, holder: Name, epoch: nat, token: Token, request: CheckpointRequest)
    | CallClaimReplacement(task: TaskId, holder: Name, checkpoint: Token, ttl: Time, expected: Option<nat>,
                           expectedCheckpoint: Option<Checkpoint>)
    | CallResolveRecovery(task: TaskId, receipt: string)
    | CallMarkRecovery(task: TaskId, why: string)
    | CallBeginOperation(task: TaskId, holder: Name, epoch: nat, token: Token, kind: string, operation: Name)
    | CallFinishOperation(operation: Name, outcome: OperationStatus, receipt: string)
    | CallPublish(task: TaskId, holder: Name, epoch: nat, token: Token, inputRevision: nat, content: string,
                  resultId: Name, receipt: string)
    | CallDecide(task: TaskId, resultId: Name, ruling: Ruling, holder: Name, epoch: nat, token: Token)
    | CallRouteTask(task: TaskId, order: seq<Name>, eligible: set<Name>, ttl: Time)
    | CallCaptureQuota(bound: Option<Name>, exhausted: bool, stale: bool)
    | CallRouteQuestion(bounded: bool, question: string, order: seq<Name>, eligible: set<Name>, about: Option<TaskId>)

  ghost function Perform(s: State, c: Call, now: Time): Outcome {
    match c
    case CallRegisterWorker(id, alive, mode, available, budget) => RegisterWorker(s, id, alive, mode, available, budget)
    case CallUpdateWorker(id, edit) => UpdateWorker(s, id, edit)
    case CallRegisterTask(t, deps, brief, assignee, status) => RegisterTask(s, t, deps, brief, assignee, status)
    case CallAcquire(key, holder, ttl, expected, handoff) => Acquire(s, key, holder, ttl, expected, handoff, now)
    case CallRelease(key, holder, epoch, token, reason, proof)
      => ReleaseLease(s, key, holder, epoch, token, reason, proof, now)
    case CallRenew(key, holder, epoch, token, ttl) => RenewLease(s, key, holder, epoch, token, ttl, now)
    case CallCheckpoint(t, holder, epoch, token, request) => CheckpointTask(s, t, holder, epoch, token, request, now)
    case CallClaimReplacement(t, holder, checkpoint, ttl, expected, expectedCheckpoint) =>
      ClaimReplacement(s, t, holder, checkpoint, ttl, expected, expectedCheckpoint, now)
    case CallResolveRecovery(t, receipt) => ResolveRecovery(s, t, receipt)
    case CallMarkRecovery(t, why) => MarkRecovery(s, t, why)
    case CallBeginOperation(t, holder, epoch, token, kind, operation)
      => BeginOperation(s, t, holder, epoch, token, kind, operation, now)
    case CallFinishOperation(operation, outcome, receipt) => FinishOperation(s, operation, outcome, receipt, now)
    case CallPublish(t, holder, epoch, token, inputRevision, content, resultId, receipt) =>
      PublishResult(s, t, holder, epoch, token, inputRevision, content, resultId, receipt, now)
    case CallDecide(t, resultId, ruling, holder, epoch, token)
      => DecideResult(s, t, resultId, ruling, holder, epoch, token, now)
    case CallRouteTask(t, order, eligible, ttl) => RouteTask(s, t, order, eligible, ttl, now)
    case CallCaptureQuota(bound, exhausted, stale) => CaptureQuota(s, bound, exhausted, stale)
    case CallRouteQuestion(bounded, question, order, eligible, about)
      => RouteQuestion(s, bounded, question, order, eligible, about, now)
  }

  ghost function Next(s: State, c: Call, now: Time): State {
    After(s, Perform(s, c, now))
  }

  ghost predicate Writes(s: State, o: Outcome) {
    o.change.Some? ==> ChangeOk(s, o.change.value)
  }

  lemma RegisterTaskOk(s: State, t: TaskId, dependencies: seq<TaskId>, brief: string, assignee: Option<Name>,
                       status: Status)
    requires Inv(s)
    ensures Writes(s, RegisterTask(s, t, dependencies, brief, assignee, status))
  {
    hide Inv, ChangeOk, SeesCycle, Dedup, NewTask;
    var deps := Dedup(dependencies);
    if t !in s.tasks && !SeesCycle(DependencyGraph(s.tasks)[t := deps], t) {
      NewTaskChangeOk(s, t, deps, brief, assignee, status);
    }
  }

  lemma NewTaskChangeOk(s: State, t: TaskId, deps: seq<TaskId>, brief: string, assignee: Option<Name>, status: Status)
    requires Inv(s) && t !in s.tasks && !SeesCycle(DependencyGraph(s.tasks)[t := deps], t)
    ensures ChangeOk(s, NOTHING.(tasks := map[t := NewTask(deps, brief, assignee, status)]))
  {
    hide LeaseOk, Acyclic, SeesCycle, AllAccepted, TaskOk, Inv, DependencyGraph, NewTask, TaskEvolves, LeaseEvolves,
         ResultEvolves, IsAccepted;
    RefusesExactlyNewCycles(DependencyGraph(s.tasks), t, deps) by {
      InvGraph(s, t);
    }
    NewTaskOk(s, t, deps, brief, assignee, status);
    NewGraph(s, t, NewTask(deps, brief, assignee, status));
    assert NewTask(deps, brief, assignee, status).dependencies == deps by {
      NewTaskDepends(deps, brief, assignee, status);
    }
  }

  lemma NewTaskDepends(deps: seq<TaskId>, brief: string, assignee: Option<Name>, status: Status)
    ensures NewTask(deps, brief, assignee, status).dependencies == deps
  {
  }

  lemma InvGraph(s: State, t: TaskId)
    requires Inv(s)
    ensures Acyclic(DependencyGraph(s.tasks)) && (t !in s.tasks ==> t !in DependencyGraph(s.tasks))
  {
    hide TaskOk, LeaseOk, Acyclic;
  }

  lemma NewGraph(s: State, t: TaskId, task: Task)
    ensures DependencyGraph(Commit(s, NOTHING.(tasks := map[t := task])).tasks)
            == DependencyGraph(s.tasks)[t := task.dependencies]
  {
  }

  lemma NewTaskOk(s: State, t: TaskId, deps: seq<TaskId>, brief: string, assignee: Option<Name>, status: Status)
    requires Inv(s) && t !in s.tasks
    ensures TaskOk(Commit(s, NOTHING.(tasks := map[t := NewTask(deps, brief, assignee, status)])), t)
  {
    hide LeaseOk, Acyclic, AllAccepted, DependencyGraph;
  }

  /** The edit leaves alone the fields other records answer to. */
  predicate SameBooks(a: Task, b: Task) {
    && b.revision == a.revision + 1 && b.dependencies == a.dependencies
    && b.result == a.result && b.integrated == a.integrated && b.decision == a.decision
    && b.checkpointId == a.checkpointId && b.handoff.Some? == a.handoff.Some?
    && (a.handoff.Some? ==> b.handoff.value.checkpointId == a.handoff.value.checkpointId)
  }

  lemma EditKeepsTask(s: State, c: Change, t: TaskId)
    requires Inv(s) && t in s.tasks && t in c.tasks && t !in c.results
    requires SameBooks(s.tasks[t], c.tasks[t])
    ensures TaskOk(Commit(s, c), t) && TaskEvolves(s.tasks[t], c.tasks[t])
  {
    hide Inv, AllAccepted, LeaseOk;
    InvAt(s, t, TaskKey(t));
  }

  lemma EditOk(s: State, t: TaskId, task: Task)
    requires Inv(s) && t in s.tasks && SameBooks(s.tasks[t], task)
    ensures ChangeOk(s, NOTHING.(tasks := map[t := task]))
  {
    hide Inv, ChangeOk, TaskOk;
    var c := NOTHING.(tasks := map[t := task]);
    EditKeepsTask(s, c, t);
    SingleIsOk(s, c, t, TaskKey(t));
  }

  lemma AcquireOk(s: State, key: Key, holder: Name, ttl: Time, expected: Option<nat>, handoff: Option<Token>, now: Time)
    requires Inv(s)
    ensures Writes(s, Acquire(s, key, holder, ttl, expected, handoff, now))
  {
    hide Inv, ChangeOk, TaskRefusal, ResumeRefusal, BusyElsewhere, HeldRefusal, TaskGrant, PlainGrant;
    if AcquireRefusal(s, key, holder, ttl, expected, handoff, now) == None {
      if key.kind == TaskKind {
        ClaimKnown(s, key.resource, handoff);
        TaskGrantOk(s, key.resource, holder, ttl, expected, handoff, now);
      } else {
        PlainGrantOk(s, key, holder, ttl, now);
      }
    }
  }

  lemma ClaimKnown(s: State, t: TaskId, handoff: Option<Token>)
    requires TaskRefusal(s, t, handoff) == None
    ensures t in s.tasks
  {
  }

  lemma PlainGrantOk(s: State, key: Key, holder: Name, ttl: Time, now: Time)
    requires Inv(s) && key.kind != TaskKind
    ensures ChangeOk(s, PlainGrant(s, key, holder, ttl, now))
  {
    hide Inv, ChangeOk, TaskOk;
    InvAt(s, key.resource, key);
    SingleIsOk(s, PlainGrant(s, key, holder, ttl, now), key.resource, key);
  }

  lemma TaskGrantOk(s: State, t: TaskId, holder: Name, ttl: Time, expected: Option<nat>, handoff: Option<Token>,
                    now: Time)
    requires Inv(s) && t in s.tasks && TaskRefusal(s, t, handoff) == None
    requires ResumeRefusal(s, t, holder, expected, handoff, now) == None
    ensures ChangeOk(s, TaskGrant(s, t, holder, ttl, handoff, now))
  {
    hide Inv, ChangeOk, TaskOk, AllAccepted, TaskRefusal, ResumeRefusal;
    ClaimAccepted(s, t, holder, expected, handoff, now);
    var c := TaskGrant(s, t, holder, ttl, handoff, now);
    EditKeepsTask(s, c, t);
    InvAt(s, t, TaskKey(t));
    SingleIsOk(s, c, t, TaskKey(t));
  }

  /** Whoever gets a task lease, directly or through a handoff, gets it on accepted dependencies. */
  lemma ClaimAccepted(s: State, t: TaskId, holder: Name, expected: Option<nat>, handoff: Option<Token>, now: Time)
    requires Inv(s) && t in s.tasks && TaskRefusal(s, t, handoff) == None
    requires ResumeRefusal(s, t, holder, expected, handoff, now) == None
    ensures AllAccepted(s, s.tasks[t].dependencies)
    ensures handoff.Some? ==>
            s.tasks[t].handoff.Some? && handoff == s.tasks[t].checkpointId && handoff.value in s.handoffs
  {
    hide Acyclic, DependencyGraph;
    assert TaskOk(s, t);
    if handoff.Some? {
      assert LeaseOk(s, TaskKey(t));
    } else {
      forall d | d in s.tasks[t].dependencies
        ensures IsAccepted(s, d)
      {
        assert Failure(s, d) == None;
      }
    }
  }

  /** Writing an active lease again under the same fence, released or renewed. */
  lemma RewriteOk(s: State, key: Key, lease: Lease)
    requires Inv(s) && key in s.leases && s.leases[key].Active()
    requires lease.(expires := s.leases[key].expires, release := None) == s.leases[key]
    ensures ChangeOk(s, NOTHING.(leases := map[key := lease]))
  {
    hide Inv, ChangeOk, TaskOk;
    InvAt(s, key.resource, key);
    SingleIsOk(s, NOTHING.(leases := map[key := lease]), key.resource, key);
  }

  lemma ReleaseOk(s: State, key: Key, holder: Name, epoch: nat, token: Token, reason: string, proof: string, now: Time)
    requires Inv(s)
    ensures Writes(s, ReleaseLease(s, key, holder, epoch, token, reason, proof, now))
  {
    hide Inv, ChangeOk;
    if Current(s, key, holder, epoch, token) {
      RewriteOk(s, key, Released(s.leases[key], Explicit(reason, proof), now));
    }
  }

  lemma RenewOk(s: State, key: Key, holder: Name, epoch: nat, token: Token, ttl: Time, now: Time)
    requires Inv(s)
    ensures Writes(s, RenewLease(s, key, holder, epoch, token, ttl, now))
  {
    hide Inv, ChangeOk;
    if Current(s, key, holder, epoch, token) {
      RewriteOk(s, key, s.leases[key].(expires := now + ttl));
    }
  }

  lemma AbandonOk(s: State, t: TaskId, why: string, now: Time)
    requires Inv(s) && TaskKey(t) in s.leases && s.leases[TaskKey(t)].Active()
    ensures Writes(s, AbandonToRecovery(s, t, why, now))
  {
    hide Inv, ChangeOk, TaskOk;
    var o := AbandonToRecovery(s, t, why, now);
    if o.change.Some? {
      EditKeepsTask(s, o.change.value, t);
      InvAt(s, t, TaskKey(t));
      SingleIsOk(s, o.change.value, t, TaskKey(t));
    }
  }

  lemma CheckpointOk(s: State, t: TaskId, holder: Name, epoch: nat, token: Token, req: CheckpointRequest, now: Time)
    requires Inv(s)
    ensures Writes(s, CheckpointTask(s, t, holder, epoch, token, req, now))
  {
    hide Inv, ChangeOk, CheckpointWrite, AbandonToRecovery;
    if Current(s, TaskKey(t), holder, epoch, token) {
      AbandonOk(s, t, "checkpoint-observation-unknown", now);
      AbandonOk(s, t, "unknown-com-save-status", now);
      NothingOk(s, map[]);
      if t in s.tasks {
        CheckpointWriteOk(s, t, holder, epoch, token, req, now);
      }
    }
  }

  lemma CheckpointWriteOk(s: State, t: TaskId, holder: Name, epoch: nat, token: Token, req: CheckpointRequest,
                          now: Time)
    requires Inv(s) && t in s.tasks && TaskKey(t) in s.leases && s.leases[TaskKey(t)].Active()
    ensures Writes(s, CheckpointWrite(s, t, holder, epoch, token, req, now))
  {
    hide Inv, ChangeOk, TaskOk;
    InvAt(s, t, TaskKey(t));
    var o := CheckpointWrite(s, t, holder, epoch, token, req, now);
    WrittenTaskOk(s, t, o.change.value);
    SingleIsOk(s, o.change.value, t, TaskKey(t));
  }

  /** The task points at the checkpoint and the handoff written with it. */
  lemma WrittenTaskOk(s: State, t: TaskId, c: Change)
    requires Inv(s) && t in s.tasks && t in c.tasks && t !in c.results && TaskKey(t) in s.leases
    requires s.tokens in c.checkpoints && s.tokens in c.handoffs
    requires c.tasks[t].checkpointId == Some(s.tokens) && c.tasks[t].handoff.Some?
             && c.tasks[t].handoff.value.checkpointId == s.tokens
    requires c.tasks[t].result == s.tasks[t].result && c.tasks[t].integrated == s.tasks[t].integrated
             && c.tasks[t].decision == s.tasks[t].decision
    ensures TaskOk(Commit(s, c), t)
  {
    hide Inv, LeaseOk;
    InvAt(s, t, TaskKey(t));
  }

  lemma ClaimReplacementOk(s: State, t: TaskId, worker: Name, checkpointId: Token, ttl: Time, expected: Option<nat>,
                           expectedCheckpoint: Option<Checkpoint>, now: Time)
    requires Inv(s)
    ensures Writes(s, ClaimReplacement(s, t, worker, checkpointId, ttl, expected, expectedCheckpoint, now))
  {
    hide Inv, ChangeOk, Acquire;
    if t in s.tasks {
      AcquireOk(s, TaskKey(t), worker, ttl, Some(s.tasks[t].revision), Some(checkpointId), now);
    }
  }

  lemma RecoveryOk(s: State, t: TaskId, text: string)
    requires Inv(s)
    ensures Writes(s, ResolveRecovery(s, t, text)) && Writes(s, MarkRecovery(s, t, text))
  {
    hide Inv, ChangeOk;
    if t in s.tasks {
      EditOk(s, t, Recovering(s.tasks[t], text));
      var o := ResolveRecovery(s, t, text);
      if o.change.Some? {
        EditOk(s, t, o.change.value.tasks[t]);
      }
    }
  }

  lemma OperationOk(s: State, t: TaskId, holder: Name, epoch: nat, token: Token, kind: string, id: Name,
                    outcome: OperationStatus, receipt: string, now: Time)
    requires Inv(s)
    ensures Writes(s, BeginOperation(s, t, holder, epoch, token, kind, id, now))
    ensures Writes(s, FinishOperation(s, id, outcome, receipt, now))
  {
    hide Inv, ChangeOk, TaskOk;
    var b := BeginOperation(s, t, holder, epoch, token, kind, id, now);
    if b.change.Some? {
      SingleIsOk(s, b.change.value, t, TaskKey(t));
    }
    var o := FinishOperation(s, id, outcome, receipt, now);
    if o.change.Some? {
      OperationTaskKnown(s, id);
      var t' := s.operations[id].task;
      if outcome == Unknown {
        EditKeepsTask(s, o.change.value, t');
      }
      SingleIsOk(s, o.change.value, t', TaskKey(t'));
    }
  }

  lemma OperationTaskKnown(s: State, id: Name)
    requires Inv(s) && id in s.operations
    ensures s.operations[id].task in s.tasks
  {
  }

  lemma PublishOk(s: State, t: TaskId, holder: Name, epoch: nat, token: Token, inputRevision: nat, content: string,
                  resultId: Name, receipt: string, now: Time)
    requires Inv(s)
    ensures Writes(s, PublishResult(s, t, holder, epoch, token, inputRevision, content, resultId, receipt, now))
  {
    hide Inv, ChangeOk, TaskOk;
    var o := PublishResult(s, t, holder, epoch, token, inputRevision, content, resultId, receipt, now);
    if o.change.Some? {
      InvAt(s, t, TaskKey(t));
      PublishedTaskOk(s, t, o.change.value);
      SingleIsOk(s, o.change.value, t, TaskKey(t));
    }
  }

  lemma PublishedTaskOk(s: State, t: TaskId, c: Change)
    requires Inv(s) && t in s.tasks && t in c.tasks && t in c.results && s.tasks[t].result.None?
             && TaskKey(t) in s.leases
    requires c.tasks[t].result
             == Some(Acceptance(c.results[t].resultId, c.results[t].digest, c.results[t].holder, c.results[t].epoch,
                                c.results[t].token))
    requires c.results[t].decision.None? && c.tasks[t].decision == s.tasks[t].decision && c.results[t].task == t
    requires c.tasks[t].integrated == s.tasks[t].integrated + 1
    requires c.tasks[t].checkpointId == s.tasks[t].checkpointId && c.tasks[t].handoff == s.tasks[t].handoff
    ensures TaskOk(Commit(s, c), t) && s.tasks[t].decision.None? && t !in s.results
  {
    hide Inv, LeaseOk;
    InvAt(s, t, TaskKey(t));
  }

  lemma DecideOk(s: State, t: TaskId, resultId: Name, ruling: Ruling, holder: Name, epoch: nat, token: Token, now: Time)
    requires Inv(s)
    ensures Writes(s, DecideResult(s, t, resultId, ruling, holder, epoch, token, now))
  {
    hide Inv, ChangeOk, TaskOk, Canonical;
    var o := DecideResult(s, t, resultId, ruling, holder, epoch, token, now);
    if o.change.Some? {
      CanonicalKnown(s, t, resultId);
      DecidedTaskOk(s, t, o.change.value);
      SingleIsOk(s, o.change.value, t, TaskKey(t));
    }
  }

  lemma CanonicalKnown(s: State, t: TaskId, resultId: Name)
    requires Canonical(s, t, resultId)
    ensures t in s.tasks && t in s.results && s.tasks[t].result.Some?
  {
  }

  lemma DecidedTaskOk(s: State, t: TaskId, c: Change)
    requires Inv(s) && t in s.tasks && t in c.tasks && t in s.results && t in c.results && s.tasks[t].result.Some?
    requires c.results[t].(decision := s.results[t].decision) == s.results[t] && s.results[t].decision.None?
    requires c.tasks[t].decision == c.results[t].decision && c.tasks[t].result == s.tasks[t].result
             && c.tasks[t].integrated == s.tasks[t].integrated
    requires c.tasks[t].checkpointId == s.tasks[t].checkpointId && c.tasks[t].handoff == s.tasks[t].handoff
    ensures TaskOk(Commit(s, c), t) && s.tasks[t].decision.None?
  {
    hide Inv, LeaseOk;
    InvAt(s, t, TaskKey(t));
  }

  lemma {:induction false} RouteFromOk(s: State, t: TaskId, order: seq<Name>, eligible: set<Name>, ttl: Time, now: Time)
    requires Inv(s) && t in s.tasks
    ensures Writes(s, RouteFrom(s, t, order, eligible, ttl, now))
    decreases |order|
  {
    hide Inv, ChangeOk, Acquire;
    if order == [] {
      EditOk(s, t, RouteFrom(s, t, order, eligible, ttl, now).change.value.tasks[t]);
    } else {
      RouteFromOk(s, t, order[1..], eligible, ttl, now);
      AcquireOk(s, TaskKey(t), order[0], ttl, Some(s.tasks[t].revision), None, now);
    }
  }

  lemma QuestionOk(s: State, bounded: bool, text: string, order: seq<Name>, eligible: set<Name>, t: Option<TaskId>,
                   now: Time)
    requires Inv(s)
    ensures Writes(s, RouteQuestion(s, bounded, text, order, eligible, t, now))
  {
    hide Inv, ChangeOk, Answerer;
    var o := RouteQuestion(s, bounded, text, order, eligible, t, now);
    NothingOk(s, o.change.value.workers);
    if t.Some? && t.value in s.tasks && o.reply == RoutingBlocked {
      EditOk(s, t.value, o.change.value.tasks[t.value]);
    }
  }

  lemma NothingOk(s: State, workers: map<Name, Worker>)
    requires Inv(s)
    ensures ChangeOk(s, NOTHING.(workers := workers))
  {
    hide Inv, TaskOk;
  }

  lemma PerformOk(s: State, c: Call, now: Time)
    requires Inv(s)
    ensures Writes(s, Perform(s, c, now))
  {
    hide Inv, ChangeOk, Acquire, RouteFrom, Ready, Answerer;
    match c {
      case CallRegisterWorker(id, alive, mode, available, budget) =>
        var o := RegisterWorker(s, id, alive, mode, available, budget);
        if o.change.Some? {
          NothingOk(s, o.change.value.workers);
        }
      case CallUpdateWorker(id, edit) =>
        var o := UpdateWorker(s, id, edit);
        if o.change.Some? {
          NothingOk(s, o.change.value.workers);
        }
      case CallRegisterTask(t, deps, brief, assignee, status) => RegisterTaskOk(s, t, deps, brief, assignee, status);
      case CallAcquire(key, holder, ttl, expected, handoff) => AcquireOk(s, key, holder, ttl, expected, handoff, now);
      case CallRelease(key, holder, epoch, token, reason, proof)
        => ReleaseOk(s, key, holder, epoch, token, reason, proof, now);
      case CallRenew(key, holder, epoch, token, ttl) => RenewOk(s, key, holder, epoch, token, ttl, now);
      case CallCheckpoint(t, holder, epoch, token, request) => CheckpointOk(s, t, holder, epoch, token, request, now);
      case CallClaimReplacement(t, holder, checkpoint, ttl, expected, expectedCheckpoint) =>
        ClaimReplacementOk(s, t, holder, checkpoint, ttl, expected, expectedCheckpoint, now);
      case CallResolveRecovery(t, receipt) => RecoveryOk(s, t, receipt);
      case CallMarkRecovery(t, why) => RecoveryOk(s, t, why);
      case CallBeginOperation(t, holder, epoch, token, kind, operation) =>
        OperationOk(s, t, holder, epoch, token, kind, operation, Unknown, "", now);
      case CallFinishOperation(operation, outcome, receipt) =>
        OperationOk(s, TaskId(""), Name(""), 0, 0, "", operation, outcome, receipt, now);
      case CallPublish(t, holder, epoch, token, inputRevision, content, resultId, receipt) =>
        PublishOk(s, t, holder, epoch, token, inputRevision, content, resultId, receipt, now);
      case CallDecide(t, resultId, ruling, holder, epoch, token)
        => DecideOk(s, t, resultId, ruling, holder, epoch, token, now);
      case CallRouteTask(t, order, eligible, ttl) =>
        NothingOk(s, map[]);
        if t in s.tasks {
          RouteFromOk(s, t, order, eligible, ttl, now);
        }
      case CallCaptureQuota(bound, exhausted, stale) =>
        NothingOk(s, if Perform(s, c, now).change.Some? then Perform(s, c, now).change.value.workers else map[]);
      case CallRouteQuestion(bounded, question, order, eligible, about)
        => QuestionOk(s, bounded, question, order, eligible, about, now);
    }
  }

  /** One call, whatever it is, keeps the invariant, moves every record forward and raises revisions
      by one at most. */
  lemma StepKeeps(s: State, c: Call, now: Time)
    requires Inv(s)
    ensures Inv(Next(s, c, now)) && Evolves(s, Next(s, c, now)) && OneRevision(s, Next(s, c, now))
  {
    hide Inv, Evolves, ChangeOk, Perform, Commit;
    PerformOk(s, c, now);
    var o := Perform(s, c, now);
    if o.change.Some? {
      CommitKeepsInv(s, o.change.value);
    } else {
      EvolvesRefl(s);
    }
  }
}
