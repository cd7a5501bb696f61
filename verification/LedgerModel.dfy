/** The coordination ledger as values: its records, and what each public operation decides and writes. */
module LedgerModel {
  import opened Graphs
  import opened Options
  import opened Registration

  type Time = real
  type Token = nat
  datatype Name = Name(text: string)
  datatype Digest = Digest(content: string)

  datatype Mode = Working | Reserve | Draining | QuotaBlocked | ResetPending | Available | ModeFailed | ModeStopped

  /** The process_alive flag: true, false or not known. */
  datatype Liveness = Alive | Dead | Unclear

  datatype Worker = Worker(alive: Liveness, mode: Mode, available: bool, budget: int, revision: nat)

  datatype Status = Queued | InProgress | Blocked | Checkpointed | RecoveryNeeded | Completed | Failed | Cancelled
    | Other(text: string)

  datatype Blocker = UnknownCompletion | ProvidersUnavailable

  datatype TaskHandoff = TaskHandoff(checkpointId: Token, fromHolder: Name, fromEpoch: nat, claimedBy: Option<Name>,
                                     claimedAt: Option<Time>)

  /** The result fields of a task; publishing sets them together. */
  datatype Acceptance = Acceptance(resultId: Name, digest: Digest, holder: Name, epoch: nat, token: Token)

  datatype Disposition = Accepted | Rejected | Superseded
  datatype Ruling = Ruling(disposition: Disposition, decider: Name, terminal: bool, superseding: Option<(TaskId, Name)>,
                           details: string)
  datatype Decision = Decision(ruling: Ruling, decidedAt: Time)

  datatype Question = Question(digest: Digest, recordedAt: Time)

  datatype Task = Task(
    dependencies: seq<TaskId>,
    brief: string,
    assignee: Option<Name>,
    status: Status,
    revision: nat,
    receipt: Option<string>,
    handoff: Option<TaskHandoff>,
    checkpointId: Option<Token>,
    recoveryRequired: bool,
    recoveryReason: Option<string>,
    result: Option<Acceptance>,
    integrated: nat,
    question: Option<Question>,
    blocker: Option<Blocker>,
    decision: Option<Decision>)

  datatype Kind = TaskKind | CoordinatorKind | OtherKind(text: string)

  /** A lease is kept under its kind and resource. */
  datatype Key = Key(kind: Kind, resource: TaskId)

  datatype Reason = Explicit(reason: string, proof: string) | ForRecovery | ForCheckpoint | ForResult
  datatype Release = Release(at: Time, reason: Reason)

  datatype Lease = Lease(holder: Name, epoch: nat, token: Token, created: Time, expires: Time,
                         taskRevision: Option<nat>, release: Option<Release>)
  {
    predicate Active() {
      release.None?
    }

    /** Active and not expired at `now`. */
    predicate Live(now: Time) {
      Active() && expires > now
    }
  }

  /** The checkpoint hash stands for the record itself. */
  datatype Checkpoint = Checkpoint(task: TaskId, holder: Name, epoch: nat, token: Token, capturedAt: Time,
                                   baseRevision: nat, content: string)

  datatype Handoff = Handoff(checkpoint: Checkpoint, task: TaskId, fromHolder: Name, fromEpoch: nat, inputRevision: nat,
                             createdAt: Time, claimedBy: Option<Name>, claimedAt: Option<Time>,
                             completedAt: Option<Time>)

  datatype Result = Result(resultId: Name, task: TaskId, holder: Name, epoch: nat, token: Token, inputRevision: nat,
                           digest: Digest, receipt: string, publishedAt: Time, decision: Option<Decision>)

  datatype OperationStatus = InFlight | Committed | OperationFailed | Unknown
  datatype Operation = Operation(task: TaskId, holder: Name, epoch: nat, kind: string, status: OperationStatus,
                                 startedAt: Time, finishedAt: Option<Time>, receipt: string)

  datatype State = State(
    workers: map<Name, Worker>,
    tasks: map<TaskId, Task>,
    leases: map<Key, Lease>,
    checkpoints: map<Token, Checkpoint>,
    handoffs: map<Token, Handoff>,
    results: map<TaskId, Result>,
    operations: map<Name, Operation>,
    revision: nat,
    tokens: Token)

  const EMPTY := State(map[], map[], map[], map[], map[], map[], map[], 0, 0)

  /** The records one transaction writes, on top of the documents they belong to. */
  datatype Change = Change(
    workers: map<Name, Worker>,
    tasks: map<TaskId, Task>,
    leases: map<Key, Lease>,
    checkpoints: map<Token, Checkpoint>,
    handoffs: map<Token, Handoff>,
    results: map<TaskId, Result>,
    operations: map<Name, Operation>,
    drawn: nat)

  const NOTHING := Change(map[], map[], map[], map[], map[], map[], map[], 0)

  function Commit(s: State, c: Change): State {
    State(s.workers + c.workers, s.tasks + c.tasks, s.leases + c.leases, s.checkpoints + c.checkpoints,
          s.handoffs + c.handoffs, s.results + c.results, s.operations + c.operations, s.revision + 1,
            s.tokens + c.drawn)
  }

  datatype Refusal = InvalidRequest | Fenced | LeaseConflict | RecoveryFirst

  datatype Reply =
    | Done
    | Unchanged
    | Duplicate
    | Granted(lease: Lease)
    | ObservationPending
    | RecoveryMarked
    | CheckpointWritten(id: Token)
    | Routed(worker: Name)
    | AlreadyRouted(worker: Name)
    | RoutingBlocked
    | QuestionRefused
    | NotRoutable
    | Refused(why: Refusal)

  /** What a call answers, and what it writes if it writes at all. */
  datatype Outcome = Outcome(reply: Reply, change: Option<Change>)

  function Refuse(why: Refusal): Outcome {
    Outcome(Refused(why), None)
  }

  function After(s: State, o: Outcome): State {
    match o.change
    case Some(c) => Commit(s, c)
    case None => s
  }

  function TaskKey(t: TaskId): Key {
    Key(TaskKind, t)
  }

  const COORDINATOR := Key(CoordinatorKind, TaskId("default"))

  predicate Terminal(status: Status) {
    status == Completed || status == Failed || status == Cancelled
  }

  /** The fence: active, and held under exactly this holder, epoch and token. */
  predicate Current(s: State, key: Key, holder: Name, epoch: nat, token: Token) {
    key in s.leases && s.leases[key].Active() && s.leases[key].holder == holder && s.leases[key].epoch == epoch
      && s.leases[key].token == token
  }

  function AliveOf(s: State, holder: Name): Liveness {
    if holder in s.workers then s.workers[holder].alive else Unclear
  }

  /** A holder whose expired lease may be taken over: known dead, or unknown and stopped for good. */
  predicate Displaceable(s: State, holder: Name) {
    || AliveOf(s, holder) == Dead
    || (AliveOf(s, holder) == Unclear && holder in s.workers && s.workers[holder].mode in {ModeFailed, ModeStopped})
  }

  datatype DependencyFailure = Missing | NotCompleted | Undecided | WasRejected | WasSuperseded

  /** Why a dependency keeps a task from running, if it does. */
  function Failure(s: State, d: TaskId): Option<DependencyFailure> {
    if d !in s.tasks then Some(Missing)
    else if s.tasks[d].status != Completed then Some(NotCompleted)
    else if s.tasks[d].result.None? || d !in s.results then Some(Undecided)
    else if s.results[d].task != d || s.results[d].resultId != s.tasks[d].result.value.resultId then Some(Undecided)
    else if s.results[d].decision.None? || s.tasks[d].decision != s.results[d].decision then Some(Undecided)
    else
      match s.results[d].decision.value.ruling.disposition
      case Accepted => None
      case Rejected => Some(WasRejected)
      case Superseded => Some(WasSuperseded)
  }

  predicate Ready(s: State, task: Task) {
    forall d :: d in task.dependencies ==> Failure(s, d) == None
  }

  function Dedup(ids: seq<TaskId>): (r: seq<TaskId>)
    ensures forall x :: x in r <==> x in ids
    ensures forall i, j :: 0 <= i < j < |r| ==> r[i] != r[j]
  {
    if ids == [] then []
    else
      var init := Dedup(ids[..|ids| - 1]);
      if ids[|ids| - 1] in init then init else init + [ids[|ids| - 1]]
  }

  function DependencyGraph(tasks: map<TaskId, Task>): Graph {
    map t | t in tasks :: tasks[t].dependencies
  }

  // Workers

  function RegisterWorker(s: State, id: Name, alive: Liveness, mode: Mode, available: bool, budget: int): Outcome {
    if budget < 0 then Refuse(InvalidRequest)
    else
      var revision := if id in s.workers then s.workers[id].revision + 1 else 1;
      Outcome(Done, Some(NOTHING.(workers := map[id := Worker(alive, mode, available, budget, revision)])))
  }

  datatype WorkerEdit = WorkerEdit(alive: Option<Liveness>, mode: Option<Mode>, available: Option<bool>,
                                   budget: Option<int>)

  function Or<T>(o: Option<T>, otherwise: T): T {
    if o.Some? then o.value else otherwise
  }

  function UpdateWorker(s: State, id: Name, edit: WorkerEdit): Outcome {
    if id !in s.workers then Refuse(InvalidRequest)
    else
      var w := s.workers[id];
      Outcome(Done, Some(NOTHING.(workers := map[id :=
        Worker(Or(edit.alive, w.alive), Or(edit.mode, w.mode), Or(edit.available, w.available),
               Or(edit.budget, w.budget), w.revision + 1)])))
  }

  function QuotaBound(w: Worker, exhausted: bool, stale: bool): Worker {
    var mode := if exhausted then QuotaBlocked else if w.mode in {QuotaBlocked, ResetPending} then Available
      else w.mode;
    w.(mode := mode, available := !exhausted && !stale, revision := w.revision + 1)
  }

  /** A quota reading: the worker it is bound to is blocked when the quota is exhausted, and leaves the
      quota modes when it is not. */
  function CaptureQuota(s: State, bound: Option<Name>, exhausted: bool, stale: bool): Outcome {
    match bound
    case None => Outcome(Done, Some(NOTHING))
    case Some(id) =>
      if id !in s.workers then Refuse(InvalidRequest)
      else
        Outcome(Done, Some(NOTHING.(workers := map[id := QuotaBound(s.workers[id], exhausted, stale)])))
  }

  // Tasks

  function NewTask(dependencies: seq<TaskId>, brief: string, assignee: Option<Name>, status: Status): Task {
    Task(dependencies, brief, assignee, status, 0, None, None, None, false, None, None, 0, None, None, None)
  }

  ghost function RegisterTask(s: State, t: TaskId, dependencies: seq<TaskId>, brief: string, assignee: Option<Name>,
                              status: Status): Outcome {
    var deps := Dedup(dependencies);
    if t in deps then Refuse(InvalidRequest)
    else if t in s.tasks then Outcome(Unchanged, None)
    else if SeesCycle(DependencyGraph(s.tasks)[t := deps], t) then Refuse(InvalidRequest)
    else Outcome(Done, Some(NOTHING.(tasks := map[t := NewTask(deps, brief, assignee, status)])))
  }

  // Leases

  /** Another unexpired task lease of the same holder. */
  ghost predicate BusyElsewhere(s: State, key: Key, holder: Name, now: Time) {
    exists k :: k in s.leases && k != key && k.kind == TaskKind && s.leases[k].holder == holder && s.leases[k].Live(now)
  }

  /** Checks on the task itself, before any lease is looked at. */
  function TaskRefusal(s: State, t: TaskId, handoff: Option<Token>): Option<Refusal> {
    if t !in s.tasks then Some(InvalidRequest)
    else
      var task := s.tasks[t];
      if task.recoveryRequired then Some(RecoveryFirst)
      else if task.status == Checkpointed && handoff.None? then Some(Fenced)
      else if Terminal(task.status) then Some(LeaseConflict)
      else if handoff.None? && !Ready(s, task) then Some(LeaseConflict)
      else None
  }

  function HeldRefusal(s: State, key: Key, now: Time): Option<Refusal> {
    if key in s.leases && s.leases[key].Active() && (s.leases[key].Live(now) || !Displaceable(s, s.leases[key].holder))
    then Some(LeaseConflict) else None
  }

  /** Who has resumed the task, the revision the caller saw, and the handoff it names. */
  function ResumeRefusal(s: State, t: TaskId, holder: Name, expected: Option<nat>, handoff: Option<Token>,
                         now: Time): Option<Refusal>
    requires t in s.tasks
  {
    var task, key := s.tasks[t], TaskKey(t);
    var claimedBy := if task.handoff.Some? then task.handoff.value.claimedBy else None;
    if claimedBy.Some? && claimedBy.value != holder
       && !(key in s.leases && s.leases[key].Active() && s.leases[key].expires <= now
            && AliveOf(s, claimedBy.value) == Dead)
    then Some(LeaseConflict)
    else if expected.Some? && expected.value != task.revision then Some(Fenced)
    else if handoff.Some?
            && (task.handoff.None?
                || (task.checkpointId != handoff && task.handoff.value.checkpointId != handoff.value))
    then Some(Fenced)
    else if handoff.Some? && handoff.value !in s.handoffs then Some(Fenced)
    else None
  }

  ghost function AcquireRefusal(s: State, key: Key, holder: Name, ttl: Time, expected: Option<nat>,
                                handoff: Option<Token>, now: Time): Option<Refusal> {
    if ttl <= 0.0 || (holder !in s.workers && key.kind != CoordinatorKind) then Some(InvalidRequest)
    else if key.kind == TaskKind then
      var first := TaskRefusal(s, key.resource, handoff);
      var second := HeldRefusal(s, key, now);
      if first.Some? then first
      else if second.Some? then second
      else if BusyElsewhere(s, key, holder, now) then Some(LeaseConflict)
      else ResumeRefusal(s, key.resource, holder, expected, handoff, now)
    else HeldRefusal(s, key, now)
  }

  function NewLease(s: State, key: Key, holder: Name, ttl: Time, taskRevision: Option<nat>, now: Time): Lease {
    Lease(holder, (if key in s.leases then s.leases[key].epoch else 0) + 1, s.tokens, now, now + ttl, taskRevision,
          None)
  }

  function ClaimedTask(task: Task, holder: Name, handoff: Option<Token>, now: Time): Task {
    task.(revision := task.revision + 1, assignee := Some(holder), status := InProgress, blocker := None,
          handoff := if handoff.Some? && task.handoff.Some?
                     then Some(task.handoff.value.(claimedBy := Some(holder), claimedAt := Some(now)))
                       else task.handoff)
  }

  /** What a granted task lease writes: the claimed task, the lease, and the handoff it came through. */
  function TaskGrant(s: State, t: TaskId, holder: Name, ttl: Time, handoff: Option<Token>, now: Time): Change
    requires t in s.tasks
  {
    var task := ClaimedTask(s.tasks[t], holder, handoff, now);
    NOTHING.(
      tasks := map[t := task],
      leases := map[TaskKey(t) := NewLease(s, TaskKey(t), holder, ttl, Some(task.revision), now)],
      drawn := 1,
      handoffs := if handoff.Some? && handoff.value in s.handoffs
                  then map[handoff.value :=
                           s.handoffs[handoff.value].(claimedBy := Some(holder), claimedAt := Some(now))]
                  else map[])
  }

  function PlainGrant(s: State, key: Key, holder: Name, ttl: Time, now: Time): Change {
    NOTHING.(leases := map[key := NewLease(s, key, holder, ttl, None, now)], drawn := 1)
  }

  ghost function Acquire(s: State, key: Key, holder: Name, ttl: Time, expected: Option<nat>, handoff: Option<Token>,
                         now: Time): Outcome {
    match AcquireRefusal(s, key, holder, ttl, expected, handoff, now)
    case Some(why) => Refuse(why)
    case None =>
      var change := if key.kind == TaskKind && key.resource in s.tasks
        then TaskGrant(s, key.resource, holder, ttl, handoff, now)
                    else PlainGrant(s, key, holder, ttl, now);
      Outcome(Granted(change.leases[key]), Some(change))
  }

  function Released(lease: Lease, reason: Reason, now: Time): Lease {
    lease.(release := Some(Release(now, reason)))
  }

  function ReleaseLease(s: State, key: Key, holder: Name, epoch: nat, token: Token, reason: string, proof: string,
                        now: Time): Outcome {
    if !Current(s, key, holder, epoch, token) then Refuse(Fenced)
    else Outcome(Done, Some(NOTHING.(leases := map[key := Released(s.leases[key], Explicit(reason, proof), now)])))
  }

  function RenewLease(s: State, key: Key, holder: Name, epoch: nat, token: Token, ttl: Time, now: Time): Outcome {
    if ttl <= 0.0 then Refuse(InvalidRequest)
    else if !Current(s, key, holder, epoch, token) then Refuse(Fenced)
    else Outcome(Done, Some(NOTHING.(leases := map[key := s.leases[key].(expires := now + ttl)])))
  }

  // Checkpoints and recovery

  function Recovering(task: Task, reason: string): Task {
    task.(revision := task.revision + 1, status := RecoveryNeeded, recoveryRequired := true,
          recoveryReason := Some(reason),
          blocker := Some(UnknownCompletion))
  }

  function MarkRecovery(s: State, t: TaskId, reason: string): Outcome {
    if t !in s.tasks then Refuse(InvalidRequest)
    else Outcome(RecoveryMarked, Some(NOTHING.(tasks := map[t := Recovering(s.tasks[t], reason)])))
  }

  /** Mark the task for recovery and let its lease go, in one transaction. */
  function AbandonToRecovery(s: State, t: TaskId, reason: string, now: Time): Outcome
    requires TaskKey(t) in s.leases
  {
    if t !in s.tasks then Refuse(InvalidRequest)
    else Outcome(RecoveryMarked, Some(NOTHING.(
      tasks := map[t := Recovering(s.tasks[t], reason)],
      leases := map[TaskKey(t) := Released(s.leases[TaskKey(t)], ForRecovery, now)])))
  }

  datatype CheckpointRequest = CheckpointRequest(content: string, observeTimeout: bool, alive: Liveness,
                                                 unknownCom: bool, mode: Mode)

  function CheckpointedTask(task: Task, id: Token, holder: Name, epoch: nat): Task {
    task.(revision := task.revision + 1, status := Checkpointed, checkpointId := Some(id),
          handoff := Some(TaskHandoff(id, holder, epoch, None, None)), assignee := Some(holder), blocker := None)
  }

  /** A written checkpoint becomes the task's only way back to work, and its lease ends. */
  function CheckpointWrite(s: State, t: TaskId, holder: Name, epoch: nat, token: Token, req: CheckpointRequest,
                           now: Time): Outcome
    requires t in s.tasks && TaskKey(t) in s.leases
  {
    var id := s.tokens;
    var checkpoint := Checkpoint(t, holder, epoch, token, now, s.tasks[t].revision, req.content);
    Outcome(CheckpointWritten(id), Some(NOTHING.(
      checkpoints := map[id := checkpoint],
      tasks := map[t := CheckpointedTask(s.tasks[t], id, holder, epoch)],
      handoffs := map[id := Handoff(checkpoint, t, holder, epoch, s.tasks[t].revision + 1, now, None, None, None)],
      leases := map[TaskKey(t) := Released(s.leases[TaskKey(t)], ForCheckpoint, now)],
      workers := if holder in s.workers
                 then map[holder := s.workers[holder].(mode := req.mode, available := false,
                                                       revision := s.workers[holder].revision + 1)] else map[],
      drawn := 1)))
  }

  function CheckpointTask(s: State, t: TaskId, holder: Name, epoch: nat, token: Token, req: CheckpointRequest,
                          now: Time): Outcome {
    var key := TaskKey(t);
    if !Current(s, key, holder, epoch, token) then Refuse(Fenced)
    else
      var alive := if req.alive != Unclear then req.alive else AliveOf(s, holder);
      if req.observeTimeout && alive == Alive then Outcome(ObservationPending, Some(NOTHING))
      else if req.observeTimeout && alive == Unclear then AbandonToRecovery(s, t, "checkpoint-observation-unknown", now)
      else if req.unknownCom then AbandonToRecovery(s, t, "unknown-com-save-status", now)
      else if t !in s.tasks then Refuse(InvalidRequest)
      else CheckpointWrite(s, t, holder, epoch, token, req, now)
  }

  ghost function ClaimReplacement(s: State, t: TaskId, worker: Name, checkpointId: Token, ttl: Time,
                                  expected: Option<nat>, expectedCheckpoint: Option<Checkpoint>, now: Time): Outcome {
    if t !in s.tasks || checkpointId !in s.checkpoints || s.tasks[t].checkpointId != Some(checkpointId)
      then Refuse(Fenced)
    else if expectedCheckpoint.Some? && expectedCheckpoint.value != s.checkpoints[checkpointId] then Refuse(Fenced)
    else if s.tasks[t].recoveryRequired then Refuse(RecoveryFirst)
    else if s.tasks[t].status != Checkpointed then Refuse(LeaseConflict)
    else if expected.Some? && expected.value != s.tasks[t].revision then Refuse(Fenced)
    else Acquire(s, TaskKey(t), worker, ttl, Some(s.tasks[t].revision), Some(checkpointId), now)
  }

  function ResolveRecovery(s: State, t: TaskId, receipt: string): Outcome {
    if t !in s.tasks then Refuse(InvalidRequest)
    else
      var task := s.tasks[t];
      if !task.recoveryRequired then Outcome(Unchanged, None)
      else Outcome(Done, Some(NOTHING.(tasks := map[t :=
        task.(revision := task.revision + 1, recoveryRequired := false, recoveryReason := None, blocker := None,
              status := (if task.checkpointId.Some? then Checkpointed else Queued), receipt := Some(receipt))])))
  }

  // Operations

  function BeginOperation(s: State, t: TaskId, holder: Name, epoch: nat, token: Token, kind: string, id: Name,
                          now: Time): Outcome {
    if t !in s.tasks then Refuse(InvalidRequest)
    else if s.tasks[t].recoveryRequired then Refuse(RecoveryFirst)
    else if !Current(s, TaskKey(t), holder, epoch, token) then Refuse(Fenced)
    else
      Outcome(Done, Some(NOTHING.(
        operations := map[id := Operation(t, holder, epoch, kind, InFlight, now, None, "")])))
  }

  function FinishOperation(s: State, id: Name, status: OperationStatus, receipt: string, now: Time): Outcome {
    if status == InFlight || id !in s.operations then Refuse(InvalidRequest)
    else
      var operation := s.operations[id];
      if operation.status != InFlight then Outcome(Unchanged, None)
      else if status == Unknown && operation.task !in s.tasks then Refuse(InvalidRequest)
      else Outcome(Done, Some(NOTHING.(
        operations := map[id := operation.(status := status, finishedAt := Some(now), receipt := receipt)],
        tasks := if status == Unknown
                 then map[operation.task := Recovering(s.tasks[operation.task], "unknown-operation-completion")]
                 else map[])))
  }

  // Results

  function PublishResult(s: State, t: TaskId, holder: Name, epoch: nat, token: Token, inputRevision: nat,
                         content: string, resultId: Name, receipt: string, now: Time): Outcome {
    if t !in s.tasks then Refuse(InvalidRequest)
    else
      var task, key := s.tasks[t], TaskKey(t);
      if task.result.Some? then
        var was := task.result.value;
        if was.resultId == resultId && was.holder == holder && was.epoch == epoch && was.token == token
          then Outcome(Duplicate, None)
        else Refuse(Fenced)
      else if !Current(s, key, holder, epoch, token) then Refuse(Fenced)
      else if task.revision != inputRevision then Refuse(Fenced)
      else
        var record := Result(resultId, t, holder, epoch, token, inputRevision, Digest(content), receipt, now, None);
        var published := task.(revision := task.revision + 1, status := Completed,
                               result := Some(Acceptance(resultId, Digest(content), holder, epoch, token)),
                               integrated := task.integrated + 1, receipt := Some(receipt));
        Outcome(Done, Some(PublishChange(s, t, record, published, now)))
  }

  /** The result, the finished task, its handoff completed and its lease released, together. */
  function PublishChange(s: State, t: TaskId, record: Result, published: Task, now: Time): Change
    requires t in s.tasks && TaskKey(t) in s.leases
  {
    var id := s.tasks[t].checkpointId;
    NOTHING.(
      results := map[t := record],
      tasks := map[t := published],
      handoffs := if id.Some? && id.value in s.handoffs
        then map[id.value := s.handoffs[id.value].(completedAt := Some(now))] else map[],
      leases := map[TaskKey(t) := Released(s.leases[TaskKey(t)], ForResult, now)])
  }

  /** Task and result record bound to each other under this result id. */
  predicate Canonical(s: State, t: TaskId, resultId: Name) {
    && t in s.tasks && s.tasks[t].result.Some? && s.tasks[t].result.value.resultId == resultId
    && t in s.results && s.results[t].task == t && s.results[t].resultId == resultId
  }

  function DecideResult(s: State, t: TaskId, resultId: Name, ruling: Ruling, holder: Name, epoch: nat, token: Token,
                        now: Time): Outcome {
    if (ruling.disposition == Superseded) != ruling.superseding.Some? then Refuse(InvalidRequest)
    else if ruling.superseding == Some((t, resultId)) then Refuse(InvalidRequest)
    else if !Current(s, COORDINATOR, holder, epoch, token) || s.leases[COORDINATOR].expires <= now then Refuse(Fenced)
    else if !Canonical(s, t, resultId) then Refuse(InvalidRequest)
    else if ruling.superseding.Some? && !Canonical(s, ruling.superseding.value.0, ruling.superseding.value.1)
      then Refuse(InvalidRequest)
    else if s.results[t].decision.Some? then
      if s.results[t].decision.value.ruling == ruling then Outcome(Duplicate, None) else Refuse(Fenced)
    else
      var decision := Some(Decision(ruling, now));
      var task := s.tasks[t];
      Outcome(Done, Some(NOTHING.(
        results := map[t := s.results[t].(decision := decision)],
        tasks := map[t := task.(decision := decision, revision := task.revision + 1,
                                status := if ruling.disposition == Rejected && ruling.terminal then Failed
                                  else Completed)])))
  }

  // Routing

  /** Try the workers in order; the first that gets the lease has the task. */
  ghost function RouteFrom(s: State, t: TaskId, order: seq<Name>, eligible: set<Name>, ttl: Time, now: Time): Outcome
    requires t in s.tasks
    decreases |order|
  {
    var task := s.tasks[t];
    if order == [] then
      Outcome(RoutingBlocked, Some(NOTHING.(tasks := map[t :=
        task.(revision := task.revision + 1, status := Blocked, blocker := Some(ProvidersUnavailable))])))
    else if order[0] !in eligible || order[0] !in s.workers then RouteFrom(s, t, order[1..], eligible, ttl, now)
    else
      var o := Acquire(s, TaskKey(t), order[0], ttl, Some(task.revision), None, now);
      match o.reply
      case Granted(_) => o.(reply := Routed(order[0]))
      case Refused(why) =>
        if why == LeaseConflict && TaskKey(t) in s.leases && s.leases[TaskKey(t)].Active()
          then Outcome(AlreadyRouted(s.leases[TaskKey(t)].holder), None)
        else if why == LeaseConflict || why == Fenced then RouteFrom(s, t, order[1..], eligible, ttl, now)
        else o
      case _ => o
  }

  ghost function RouteTask(s: State, t: TaskId, order: seq<Name>, eligible: set<Name>, ttl: Time, now: Time): Outcome {
    if t !in s.tasks then Refuse(InvalidRequest)
    else if s.tasks[t].recoveryRequired || s.tasks[t].status == Checkpointed || Terminal(s.tasks[t].status)
      then Outcome(NotRoutable, None)
    else if !Ready(s, s.tasks[t]) then Outcome(RoutingBlocked, Some(NOTHING))
    else RouteFrom(s, t, order, eligible, ttl, now)
  }

  /** The first eligible worker; one kept in reserve only while it has budget for questions. */
  function Answerer(s: State, order: seq<Name>, eligible: set<Name>): (w: Option<Name>)
    ensures w.Some? ==> w.value in s.workers
  {
    if order == [] then None
    else if order[0] in eligible && order[0] in s.workers
        && (s.workers[order[0]].mode == Reserve ==> s.workers[order[0]].budget > 0) then Some(order[0])
    else Answerer(s, order[1..], eligible)
  }

  /** A worker kept in reserve pays for the question. */
  function AnswerChange(s: State, w: Name): Change
    requires w in s.workers
  {
    if s.workers[w].mode == Reserve
    then NOTHING.(workers := map[w := s.workers[w].(budget := s.workers[w].budget - 1,
        revision := s.workers[w].revision + 1)])
    else NOTHING
  }

  /** The task of an unanswered question is marked blocked, unless it is in recovery. */
  function BlockedQuestion(s: State, text: string, t: Option<TaskId>, now: Time): Change {
    if t.Some? && t.value in s.tasks
    then
      var task := s.tasks[t.value];
      NOTHING.(tasks := map[t.value :=
        task.(question := Some(Question(Digest(text), now)),
              status := (if task.recoveryRequired then task.status else Blocked),
              revision := task.revision + 1)])
    else NOTHING
  }

  function RouteQuestion(s: State, bounded: bool, text: string, order: seq<Name>, eligible: set<Name>,
                         t: Option<TaskId>, now: Time): Outcome {
    if !bounded then Outcome(QuestionRefused, Some(NOTHING))
    else
      match Answerer(s, order, eligible)
      case Some(w) => Outcome(Routed(w), Some(AnswerChange(s, w)))
      case None => Outcome(RoutingBlocked, Some(BlockedQuestion(s, text, t, now)))
  }
}
