/** Where releases, recoveries, operations, results, decisions and worker records lead over whole runs. */
module LedgerLifecycles {
  import opened Graphs
  import opened LedgerEffects
  import opened LedgerGrants
  import opened LedgerInvariant
  import opened LedgerModel
  import opened LedgerRuns
  import opened LedgerSteps
  import opened Options
  import opened Registration
  import LedgerOneLive

  /** A release is for good: at no later moment is a fence of that epoch or an older one current, and a
      call that shows one changes nothing. */
  lemma ReleasedForGood(run: Run, i: nat, j: nat, c: Call, now: Time, f: Fence)
    requires i <= j <= |run| && FenceOf(c) == Some(f)
    requires f.key in At(run, i).leases && !At(run, i).leases[f.key].Active()
             && f.epoch <= At(run, i).leases[f.key].epoch
    ensures !Current(At(run, j), f.key, f.holder, f.epoch, f.token) && Next(At(run, j), c, now) == At(run, j)
  {
    hide At, Next, Perform;
    MovesForward(run, i, j);
    assert LeaseEvolves(At(run, i).leases[f.key], At(run, j).leases[f.key]);
    StaleCallWritesNothing(At(run, j), c, now, f);
  }

  // Recovery

  /** The outcome leaves the task in recovery and grants no lease on it. */
  ghost predicate KeepsRecovery(s: State, o: Outcome, t: TaskId) {
    o.change.Some? ==>
      var c := o.change.value;
      && (t in c.tasks ==> c.tasks[t].recoveryRequired)
      && (TaskKey(t) in c.leases ==> TaskKey(t) in s.leases && c.leases[TaskKey(t)].epoch == s.leases[TaskKey(t)].epoch)
  }

  lemma AcquireKeepsRecovery(s: State, t: TaskId, key: Key, holder: Name, ttl: Time, expected: Option<nat>,
                             handoff: Option<Token>, now: Time)
    requires t in s.tasks && s.tasks[t].recoveryRequired
    ensures KeepsRecovery(s, Acquire(s, key, holder, ttl, expected, handoff, now), t)
  {
    hide ResumeRefusal, HeldRefusal, BusyElsewhere, ClaimedTask, NewLease, Ready;
  }

  lemma {:induction false} RouteKeepsRecovery(s: State, t: TaskId, u: TaskId, order: seq<Name>, eligible: set<Name>,
                                              ttl: Time, now: Time)
    requires t in s.tasks && s.tasks[t].recoveryRequired && u in s.tasks
    ensures KeepsRecovery(s, RouteFrom(s, u, order, eligible, ttl, now), t)
    decreases |order|
  {
    hide Acquire;
    if order != [] {
      RouteKeepsRecovery(s, t, u, order[1..], eligible, ttl, now);
      AcquireKeepsRecovery(s, t, TaskKey(u), order[0], ttl, Some(s.tasks[u].revision), None, now);
    }
  }

  lemma FencedKeepsRecovery(s: State, c: Call, now: Time, t: TaskId)
    requires t in s.tasks && s.tasks[t].recoveryRequired && FenceOf(c).Some?
    ensures KeepsRecovery(s, Perform(s, c, now), t)
  {
    hide Canonical;
  }

  lemma UnfencedKeepsRecovery(s: State, c: Call, now: Time, t: TaskId)
    requires t in s.tasks && s.tasks[t].recoveryRequired && FenceOf(c).None?
    requires !c.CallAcquire? && !c.CallClaimReplacement? && !c.CallRouteTask?
    requires !(c.CallResolveRecovery? && c.task == t)
    ensures KeepsRecovery(s, Perform(s, c, now), t)
  {
    hide SeesCycle, Answerer;
  }

  /** One call that does not resolve the task. */
  lemma RecoveryStep(s: State, c: Call, now: Time, t: TaskId)
    requires t in s.tasks && s.tasks[t].recoveryRequired && !(c.CallResolveRecovery? && c.task == t)
    ensures KeepsRecovery(s, Perform(s, c, now), t)
  {
    hide KeepsRecovery, Acquire, RouteFrom, Ready;
    NoChangeKeepsRecovery(s, Perform(s, c, now), t);
    match c {
      case CallAcquire(k, holder, ttl, expected, handoff) =>
        AcquireKeepsRecovery(s, t, k, holder, ttl, expected, handoff, now);
      case CallClaimReplacement(u, holder, checkpoint, ttl, expected, expectedCheckpoint) =>
        if u in s.tasks {
          AcquireKeepsRecovery(s, t, TaskKey(u), holder, ttl, Some(s.tasks[u].revision), Some(checkpoint), now);
        }
      case CallRouteTask(u, order, eligible, ttl) =>
        if u in s.tasks {
          RouteKeepsRecovery(s, t, u, order, eligible, ttl, now);
        }
      case _ =>
        if FenceOf(c).Some? {
          FencedKeepsRecovery(s, c, now, t);
        } else {
          UnfencedKeepsRecovery(s, c, now, t);
        }
    }
  }

  lemma NoChangeKeepsRecovery(s: State, o: Outcome, t: TaskId)
    ensures (o.change.Some? ==> o.change.value.tasks == map[] && o.change.value.leases == map[])
            ==> KeepsRecovery(s, o, t)
  {
  }

  /** Recovery lasts until it is resolved: whatever else is called in between, the task stays in recovery,
      and no lease is granted on it. */
  lemma {:induction false} RecoveryHolds(run: Run, i: nat, j: nat, t: TaskId)
    requires i <= j <= |run| && t in At(run, i).tasks && At(run, i).tasks[t].recoveryRequired
    requires forall n :: i <= n < j ==> !(run[n].call.CallResolveRecovery? && run[n].call.task == t)
    ensures t in At(run, j).tasks && At(run, j).tasks[t].recoveryRequired && Unworkable(At(run, j), t)
    ensures TaskKey(t) in At(run, j).leases ==>
              TaskKey(t) in At(run, i).leases
                      && At(run, j).leases[TaskKey(t)].epoch == At(run, i).leases[TaskKey(t)].epoch
    decreases j
  {
    hide At, Next, Unworkable;
    if i < j {
      RecoveryHolds(run, i, j - 1, t);
      AtNext(run, j - 1);
      RecoveryStep(At(run, j - 1), run[j - 1].call, run[j - 1].now, t);
      RecoveryAfter(At(run, j - 1), run[j - 1].call, run[j - 1].now, t);
    }
    RecoveryIsUnworkable(At(run, j), t);
  }

  lemma RecoveryAfter(s: State, c: Call, now: Time, t: TaskId)
    requires t in s.tasks && s.tasks[t].recoveryRequired && KeepsRecovery(s, Perform(s, c, now), t)
    ensures var s' := Next(s, c, now);
            && t in s'.tasks && s'.tasks[t].recoveryRequired
            && (TaskKey(t) in s'.leases
                ==> TaskKey(t) in s.leases && s'.leases[TaskKey(t)].epoch == s.leases[TaskKey(t)].epoch)
  {
    hide Perform;
  }

  // Finished tasks

  /** Completed, failed or cancelled. */
  predicate Over(s: State, t: TaskId) {
    t in s.tasks && (s.tasks[t].status == Completed || s.tasks[t].status == Failed || s.tasks[t].status == Cancelled)
  }

  /** The outcome grants no lease on the task. */
  ghost predicate OpensNoEpoch(s: State, o: Outcome, t: TaskId) {
    o.change.Some? && TaskKey(t) in o.change.value.leases ==>
      TaskKey(t) in s.leases && o.change.value.leases[TaskKey(t)].epoch == s.leases[TaskKey(t)].epoch
  }

  lemma AcquireOpensNone(s: State, t: TaskId, key: Key, holder: Name, ttl: Time, expected: Option<nat>,
                         handoff: Option<Token>, now: Time)
    requires Over(s, t)
    ensures OpensNoEpoch(s, Acquire(s, key, holder, ttl, expected, handoff, now), t)
  {
    hide AcquireRefusal, ClaimedTask, NewLease, Free, Takeable, Resumable, Handed, AllStand;
    RefusalMeans(s, key, holder, ttl, expected, handoff, now);
  }

  lemma {:induction false} RouteOpensNone(s: State, t: TaskId, u: TaskId, order: seq<Name>, eligible: set<Name>,
                                          ttl: Time, now: Time)
    requires Over(s, t) && u in s.tasks
    ensures OpensNoEpoch(s, RouteFrom(s, u, order, eligible, ttl, now), t)
    decreases |order|
  {
    hide Acquire, Over;
    if order != [] {
      RouteOpensNone(s, t, u, order[1..], eligible, ttl, now);
      AcquireOpensNone(s, t, TaskKey(u), order[0], ttl, Some(s.tasks[u].revision), None, now);
    }
  }

  lemma FencedOpensNone(s: State, c: Call, now: Time, t: TaskId)
    requires FenceOf(c).Some?
    ensures OpensNoEpoch(s, Perform(s, c, now), t)
  {
    hide Canonical;
  }

  lemma UnfencedOpensNone(s: State, c: Call, now: Time, t: TaskId)
    requires FenceOf(c).None? && !c.CallAcquire? && !c.CallClaimReplacement? && !c.CallRouteTask?
    ensures OpensNoEpoch(s, Perform(s, c, now), t)
  {
    hide SeesCycle, Answerer;
  }

  lemma OverStep(s: State, c: Call, now: Time, t: TaskId)
    requires Over(s, t)
    ensures OpensNoEpoch(s, Perform(s, c, now), t)
  {
    hide OpensNoEpoch, Acquire, RouteFrom, Ready, Over;
    NoLeaseOpensNone(s, Perform(s, c, now), t);
    match c {
      case CallAcquire(k, holder, ttl, expected, handoff) =>
        AcquireOpensNone(s, t, k, holder, ttl, expected, handoff, now);
      case CallClaimReplacement(u, holder, checkpoint, ttl, expected, expectedCheckpoint) =>
        if u in s.tasks {
          AcquireOpensNone(s, t, TaskKey(u), holder, ttl, Some(s.tasks[u].revision), Some(checkpoint), now);
        }
      case CallRouteTask(u, order, eligible, ttl) =>
        if u in s.tasks {
          RouteOpensNone(s, t, u, order, eligible, ttl, now);
        }
      case _ =>
        if FenceOf(c).Some? {
          FencedOpensNone(s, c, now, t);
        } else {
          UnfencedOpensNone(s, c, now, t);
        }
    }
  }

  lemma NoLeaseOpensNone(s: State, o: Outcome, t: TaskId)
    ensures (o.change.Some? ==> o.change.value.leases == map[]) ==> OpensNoEpoch(s, o, t)
  {
  }

  /** As long as a task is over nobody gets a new lease on it, by whatever call. */
  lemma {:induction false} OverOpensNoEpoch(run: Run, i: nat, j: nat, t: TaskId)
    requires i <= j <= |run| && forall n :: i <= n < j ==> Over(At(run, n), t)
    ensures TaskKey(t) in At(run, j).leases ==>
              TaskKey(t) in At(run, i).leases
              && At(run, j).leases[TaskKey(t)].epoch == At(run, i).leases[TaskKey(t)].epoch
    decreases j
  {
    hide At, Over;
    if i < j {
      OverOpensNoEpoch(run, i, j - 1, t);
      AtNext(run, j - 1);
      OverStep(At(run, j - 1), run[j - 1].call, run[j - 1].now, t);
      hide Perform;
    }
  }

  // Operations and workers

  /** The call starts an operation under this id. */
  ghost predicate Starts(c: Call, o: Outcome, id: Name) {
    c.CallBeginOperation? && c.operation == id && o.reply == Done
  }

  /** How a call may write operations and workers: an operation while it is in flight or when it is started
      under its id, a worker with its next revision. */
  ghost predicate KeepsBooks(s: State, c: Call, o: Outcome) {
    if o.change.None? then forall id :: !Starts(c, o, id)
    else
      var ch := o.change.value;
      && (forall id :: id in ch.operations && id in s.operations ==>
          s.operations[id].status == InFlight || Starts(c, o, id))
      && (forall id :: Starts(c, o, id) ==> id in ch.operations && ch.operations[id].status == InFlight)
      && (forall w :: w in ch.workers && w in s.workers ==> ch.workers[w].revision == s.workers[w].revision + 1)
  }

  lemma AcquireKeepsBooks(s: State, c: Call, key: Key, holder: Name, ttl: Time, expected: Option<nat>,
                          handoff: Option<Token>, now: Time)
    requires !c.CallBeginOperation?
    ensures KeepsBooks(s, c, Acquire(s, key, holder, ttl, expected, handoff, now))
  {
    hide AcquireRefusal, ClaimedTask, NewLease;
  }

  lemma {:induction false} RouteKeepsBooks(s: State, c: Call, t: TaskId, order: seq<Name>, eligible: set<Name>,
                                           ttl: Time, now: Time)
    requires !c.CallBeginOperation? && t in s.tasks
    ensures KeepsBooks(s, c, RouteFrom(s, t, order, eligible, ttl, now))
    decreases |order|
  {
    hide Acquire;
    if order != [] {
      RouteKeepsBooks(s, c, t, order[1..], eligible, ttl, now);
      AcquireKeepsBooks(s, c, TaskKey(t), order[0], ttl, Some(s.tasks[t].revision), None, now);
    }
  }

  lemma QuietKeepsBooks(s: State, c: Call, o: Outcome)
    requires !c.CallBeginOperation?
    ensures (o.change.Some? ==> o.change.value.operations == map[] && o.change.value.workers == map[])
            ==> KeepsBooks(s, c, o)
  {
  }

  lemma FencedKeepsBooks(s: State, c: Call, now: Time)
    requires FenceOf(c).Some?
    ensures KeepsBooks(s, c, Perform(s, c, now))
  {
    hide Canonical;
  }

  lemma UnfencedKeepsBooks(s: State, c: Call, now: Time)
    requires FenceOf(c).None? && !c.CallAcquire? && !c.CallClaimReplacement? && !c.CallRouteTask?
    ensures KeepsBooks(s, c, Perform(s, c, now))
  {
    hide SeesCycle, Answerer;
  }

  lemma CallKeepsBooks(s: State, c: Call, now: Time)
    ensures KeepsBooks(s, c, Perform(s, c, now))
  {
    hide KeepsBooks, Acquire, RouteFrom, Ready;
    match c {
      case CallAcquire(k, holder, ttl, expected, handoff) =>
        AcquireKeepsBooks(s, c, k, holder, ttl, expected, handoff, now);
      case CallClaimReplacement(t, holder, checkpoint, ttl, expected, expectedCheckpoint) =>
        QuietKeepsBooks(s, c, Perform(s, c, now));
        if t in s.tasks {
          AcquireKeepsBooks(s, c, TaskKey(t), holder, ttl, Some(s.tasks[t].revision), Some(checkpoint), now);
        }
      case CallRouteTask(t, order, eligible, ttl) =>
        QuietKeepsBooks(s, c, Perform(s, c, now));
        if t in s.tasks {
          RouteKeepsBooks(s, c, t, order, eligible, ttl, now);
        }
      case _ =>
        if FenceOf(c).Some? {
          FencedKeepsBooks(s, c, now);
        } else {
          UnfencedKeepsBooks(s, c, now);
        }
    }
  }

  /** A finished operation keeps its record through every call but one: starting an operation again under
      the same id, which the ledger does not refuse, reopens it. */
  lemma FinishedExactly(s: State, c: Call, now: Time, id: Name)
    requires id in s.operations && s.operations[id].status != InFlight
    ensures id in Next(s, c, now).operations
    ensures Next(s, c, now).operations[id] == s.operations[id] <==> !Starts(c, Perform(s, c, now), id)
  {
    CallKeepsBooks(s, c, now);
    hide Perform, Starts;
  }

  /** So an operation's outcome stands as long as nobody starts another under its id. */
  lemma {:induction false} FinishedStays(run: Run, i: nat, j: nat, id: Name)
    requires i <= j <= |run| && id in At(run, i).operations && At(run, i).operations[id].status != InFlight
    requires forall n :: i <= n < j ==>
               !Starts(run[n].call, Perform(At(run, n), run[n].call, run[n].now), id)
    ensures id in At(run, j).operations && At(run, j).operations[id] == At(run, i).operations[id]
    decreases j
  {
    hide At, Next, Perform, Starts;
    if i < j {
      FinishedStays(run, i, j - 1, id);
      AtNext(run, j - 1);
      FinishedExactly(At(run, j - 1), run[j - 1].call, run[j - 1].now, id);
    }
  }

  /** An operation is committed, and starting another under its id puts it back in flight. */
  function ReopeningRun(): Run {
    var w, t, o := Name("w"), TaskId("t"), Name("o");
    [Timed(CallRegisterWorker(w, Alive, Available, true, 0), 0.0),
     Timed(CallRegisterTask(t, [], "", None, Queued), 0.0),
     Timed(CallAcquire(TaskKey(t), w, 1.0, None, None), 0.0),
     Timed(CallBeginOperation(t, w, 1, 0, "", o), 0.0),
     Timed(CallFinishOperation(o, Committed, ""), 0.0),
     Timed(CallBeginOperation(t, w, 1, 0, "", o), 0.0)]
  }

  lemma TaskThere(run: Run)
    requires run == ReopeningRun()
    ensures var s, t := At(run, 2), TaskId("t");
            && Name("w") in s.workers && s.tasks == map[t := NewTask([], "", None, Queued)]
            && s.leases == map[] && s.tokens == 0
  {
    hide At, Inv, RegisterTask, StateAfter, NewTask;
    AtStart(run);
    AtNext(run, 0);
    AtNext(run, 1);
    Reachable(run, 1);
    LedgerOneLive.RegisterFree(At(run, 1), TaskId("t"));
  }

  lemma ReadyToOperate(run: Run)
    requires run == ReopeningRun()
    ensures var s, t := At(run, 3), TaskId("t");
            Current(s, TaskKey(t), Name("w"), 1, 0) && t in s.tasks && !s.tasks[t].recoveryRequired
  {
    hide At, Acquire, StateAfter, After;
    TaskThere(run);
    AtNext(run, 2);
    FreshlyLeased(At(run, 2), TaskId("t"), Name("w"));
    assert run[2] == Timed(CallAcquire(TaskKey(TaskId("t")), Name("w"), 1.0, None, None), 0.0);
    NextIsAfter(At(run, 2), run[2].call, run[2].now);
  }

  lemma NextIsAfter(s: State, c: Call, now: Time)
    ensures Next(s, c, now) == After(s, Perform(s, c, now))
  {
    hide Perform;
  }

  lemma FreshlyLeased(s: State, t: TaskId, w: Name)
    requires w in s.workers && s.tasks == map[t := NewTask([], "", None, Queued)] && s.leases == map[] && s.tokens == 0
    ensures var s' := After(s, Acquire(s, TaskKey(t), w, 1.0, None, None, 0.0));
            Current(s', TaskKey(t), w, 1, 0) && t in s'.tasks && !s'.tasks[t].recoveryRequired
  {
    hide Acquire, After;
    LedgerOneLive.AcquireFree(s, t, w, 1.0, 0.0);
  }

  lemma Reopens(s: State, t: TaskId, w: Name, epoch: nat, token: Token, o: Name, now: Time)
    requires Current(s, TaskKey(t), w, epoch, token) && t in s.tasks && !s.tasks[t].recoveryRequired
    ensures var begun := After(s, BeginOperation(s, t, w, epoch, token, "", o, now));
            var done := After(begun, FinishOperation(begun, o, Committed, "", now));
            var again := After(done, BeginOperation(done, t, w, epoch, token, "", o, now));
            && o in done.operations && done.operations[o].status == Committed
            && o in again.operations && again.operations[o].status == InFlight
  {
    hide BeginOperation, FinishOperation, After, Unworkable, SameWork;
    BeginOpens(s, t, w, epoch, token, "", o, now);
    var begun := After(s, BeginOperation(s, t, w, epoch, token, "", o, now));
    FinishEnds(begun, o, Committed, "", now);
    var done := After(begun, FinishOperation(begun, o, Committed, "", now));
    BeginOpens(done, t, w, epoch, token, "", o, now);
  }

  lemma FinishedCanReopen()
    ensures var run, o := ReopeningRun(), Name("o");
            && o in At(run, 5).operations && At(run, 5).operations[o].status == Committed
            && o in At(run, 6).operations && At(run, 6).operations[o].status == InFlight
  {
    hide At, BeginOperation, FinishOperation, After, Current, StateAfter;
    var run := ReopeningRun();
    ReadyToOperate(run);
    AtNext(run, 3);
    AtNext(run, 4);
    AtNext(run, 5);
    Reopens(At(run, 3), TaskId("t"), Name("w"), 1, 0, Name("o"), 0.0);
  }

  // Workers

  /** A call writes a worker only together with its next revision, and never forgets one. */
  lemma WorkerStep(s: State, c: Call, now: Time, w: Name)
    requires w in s.workers
    ensures var s' := Next(s, c, now);
            w in s'.workers && (s'.workers[w] == s.workers[w] || s'.workers[w].revision == s.workers[w].revision + 1)
  {
    CallKeepsBooks(s, c, now);
    hide Perform, Starts;
  }

  /** A worker that shows the same revision at two moments is the same record at both. */
  lemma {:induction false} WorkerRevisionsAreVersions(run: Run, i: nat, j: nat, w: Name)
    requires i <= j <= |run| && w in At(run, i).workers
    ensures w in At(run, j).workers && At(run, i).workers[w].revision <= At(run, j).workers[w].revision
    ensures At(run, i).workers[w].revision == At(run, j).workers[w].revision
            ==> At(run, i).workers[w] == At(run, j).workers[w]
    decreases j
  {
    hide At, Next;
    if i < j {
      WorkerRevisionsAreVersions(run, i, j - 1, w);
      AtNext(run, j - 1);
      WorkerStep(At(run, j - 1), run[j - 1].call, run[j - 1].now, w);
    }
  }

  // Results and decisions

  /** At most one publication of a task is ever accepted; every later one is a duplicate of it or refused,
      and changes nothing. */
  lemma PublishedOnce(run: Run, i: nat, j: nat)
    requires i < j < |run| && run[i].call.CallPublish? && run[j].call.CallPublish?
             && run[i].call.task == run[j].call.task
    requires Perform(At(run, i), run[i].call, run[i].now).reply == Done
    ensures var a, b := run[i].call, run[j].call;
            && At(run, j + 1) == At(run, j)
            && Perform(At(run, j), b, run[j].now).reply ==
                 if b.resultId == a.resultId && b.holder == a.holder && b.epoch == a.epoch && b.token == a.token
                   then Duplicate else Refused(Fenced)
  {
    hide At;
    var a := run[i].call;
    AtNext(run, i);
    AtNext(run, j);
    PublishLeaves(At(run, i), a.task, a.holder, a.epoch, a.token, a.inputRevision, a.content, a.resultId, a.receipt,
                  run[i].now);
    ResultsExactlyOnce(run, i + 1, j, a.task);
    hide PublishChange, Commit;
  }

  /** At most one ruling on a task's result is ever recorded; every later call changes nothing, and only
      the same ruling is answered as a duplicate. */
  lemma DecidedOnce(run: Run, i: nat, j: nat)
    requires i < j < |run| && run[i].call.CallDecide? && run[j].call.CallDecide? && run[i].call.task == run[j].call.task
    requires Perform(At(run, i), run[i].call, run[i].now).reply == Done
    ensures At(run, j + 1) == At(run, j)
    ensures var reply := Perform(At(run, j), run[j].call, run[j].now).reply;
            reply.Refused? || (reply == Duplicate && run[j].call.ruling == run[i].call.ruling)
  {
    hide At, Commit, Next, Perform, DecideResult;
    var a, b := run[i].call, run[j].call;
    AtNext(run, i);
    AtNext(run, j);
    DecideStep(At(run, i), a, run[i].now);
    ResultsExactlyOnce(run, i + 1, j, a.task);
    DecideAgain(At(run, j), b, run[j].now, a.ruling);
  }

  lemma DecideStep(s: State, c: Call, now: Time)
    requires c.CallDecide? && Perform(s, c, now).reply == Done
    ensures var s' := Next(s, c, now);
            c.task in s'.results && s'.results[c.task].decision == Some(Decision(c.ruling, now))
  {
    hide Commit, DecideResult;
    DecidesOnce(s, c.task, c.resultId, c.ruling, c.holder, c.epoch, c.token, now);
  }

  lemma DecideAgain(s: State, c: Call, now: Time, ruling: Ruling)
    requires c.CallDecide? && c.task in s.results && s.results[c.task].decision.Some?
             && s.results[c.task].decision.value.ruling == ruling
    ensures Next(s, c, now) == s
    ensures Perform(s, c, now).reply.Refused? || (Perform(s, c, now).reply == Duplicate && c.ruling == ruling)
  {
    hide Canonical;
  }
}
