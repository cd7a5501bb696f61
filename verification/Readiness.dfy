/** The readiness table the index derives from a ledger snapshot, against the ledger's own gate. */
module Readiness {
  import opened Graphs
  import opened Options
  import opened Registration
  import opened LedgerModel
  import opened LedgerGrants
  import opened LedgerInvariant
  import opened LedgerSteps
  import opened LedgerRuns
  import ComponentInvariant
  import LedgerOneLive
  import Tarjan

  datatype Obstacle =
    | StatusIs(status: Status)
    | InRecovery
    | ExplicitBlocker
    | InCycle
    | MissingDependency(on: TaskId)
    | IncompleteDependency(on: TaskId, status: Status)
    | ResultMissing(on: TaskId)
    | ActiveLease
    | UnresolvedOperation

  /** When the index is to list a reason for a task. */
  ghost predicate Applies(s: State, t: TaskId, r: Obstacle)
    requires t in s.tasks
  {
    var task := s.tasks[t];
    match r
    case StatusIs(status) => task.status == status && status != Queued
    case InRecovery => task.recoveryRequired
    case ExplicitBlocker => task.blocker.Some?
    case InCycle => OnCycle(DependencyGraph(s.tasks), t)
    case MissingDependency(d) => d in task.dependencies && d !in s.tasks
    case IncompleteDependency(d, status) => d in task.dependencies && d in s.tasks && s.tasks[d].status == status
      && status != Completed
    case ResultMissing(d) =>
      d in task.dependencies && d in s.tasks && s.tasks[d].status == Completed
        && (s.tasks[d].result.None? || d !in s.results)
    case ActiveLease => TaskKey(t) in s.leases && s.leases[TaskKey(t)].Active()
    case UnresolvedOperation => exists id ::
      id in s.operations && s.operations[id].task == t && Unresolved(s.operations[id])
  }

  /** Committed and failed operations are over; in flight and unknown ones are not. */
  predicate Unresolved(operation: Operation) {
    operation.status != Committed && operation.status != OperationFailed
  }

  predicate AboutDependencies(r: Obstacle) {
    r == InCycle || r.MissingDependency? || r.IncompleteDependency? || r.ResultMissing?
  }

  /** Tasks under an active task lease. */
  method LeasedTasks(leases: map<Key, Lease>) returns (active: set<TaskId>)
    ensures forall t :: t in active <==> TaskKey(t) in leases && leases[TaskKey(t)].Active()
  {
    active := {};
    var rest := leases.Keys;
    while rest != {}
      invariant rest <= leases.Keys
      invariant forall t :: t in active <==> TaskKey(t) in leases.Keys - rest && leases[TaskKey(t)].Active()
      decreases rest
    {
      var k :| k in rest;
      if leases[k].Active() && k.kind == TaskKind {
        assert k == TaskKey(k.resource);
        active := active + {k.resource};
      }
      rest := rest - {k};
    }
  }

  method UnresolvedTasks(operations: map<Name, Operation>) returns (unresolved: set<TaskId>)
    ensures forall t :: t in unresolved <==>
            exists id :: id in operations && operations[id].task == t && Unresolved(operations[id])
  {
    unresolved := {};
    var rest := operations.Keys;
    while rest != {}
      invariant rest <= operations.Keys
      invariant forall t :: t in unresolved <==>
                exists id :: id in operations.Keys - rest && operations[id].task == t && Unresolved(operations[id])
      decreases rest
    {
      var id :| id in rest;
      if Unresolved(operations[id]) {
        unresolved := unresolved + {operations[id].task};
      }
      rest := rest - {id};
    }
  }

  /** The dependency reasons of one task, dependency by dependency. */
  method DependencyReasons(s: State, t: TaskId) returns (reasons: set<Obstacle>)
    requires t in s.tasks
    ensures forall r :: r in reasons <==> AboutDependencies(r) && r != InCycle && Applies(s, t, r)
  {
    hide OnCycle, DependencyGraph;
    var dependencies := s.tasks[t].dependencies;
    reasons := {};
    for i := 0 to |dependencies|
      invariant forall r :: r in reasons <==>
                AboutDependencies(r) && r != InCycle && Applies(s, t, r) && r.on in dependencies[..i]
    {
      var d := dependencies[i];
      if d !in s.tasks {
        reasons := reasons + {MissingDependency(d)};
      } else if s.tasks[d].status != Completed {
        reasons := reasons + {IncompleteDependency(d, s.tasks[d].status)};
      } else if s.tasks[d].result.None? || d !in s.results {
        reasons := reasons + {ResultMissing(d)};
      }
      assert dependencies[..i + 1] == dependencies[..i] + [d];
    }
  }

  /** The reasons of one task, given what was found out about all of them. */
  method TaskReasons(s: State, t: TaskId, cyclic: set<TaskId>, active: set<TaskId>, unresolved: set<TaskId>)
    returns (reasons: set<Obstacle>)
    requires t in s.tasks
    requires t in cyclic <==> OnCycle(DependencyGraph(s.tasks), t)
    requires t in active <==> TaskKey(t) in s.leases && s.leases[TaskKey(t)].Active()
    requires t in unresolved <==>
             exists id :: id in s.operations && s.operations[id].task == t && Unresolved(s.operations[id])
    ensures forall r :: r in reasons <==> Applies(s, t, r)
  {
    hide OnCycle, DependencyGraph;
    var task := s.tasks[t];
    reasons := {};
    if task.status != Queued {
      reasons := reasons + {StatusIs(task.status)};
    }
    if task.recoveryRequired {
      reasons := reasons + {InRecovery};
    }
    if task.blocker.Some? {
      reasons := reasons + {ExplicitBlocker};
    }
    if t in cyclic {
      reasons := reasons + {InCycle};
    }
    var missing := DependencyReasons(s, t);
    reasons := reasons + missing;
    if t in active {
      reasons := reasons + {ActiveLease};
    }
    if t in unresolved {
      reasons := reasons + {UnresolvedOperation};
    }
  }

  /** The readiness rows: for every task the reasons that keep it from being picked up. */
  method ReadinessTable(s: State, order: seq<TaskId>) returns (rows: map<TaskId, set<Obstacle>>)
    requires forall t :: t in s.tasks <==> t in order
    ensures rows.Keys == s.tasks.Keys
    ensures forall t, r :: t in s.tasks ==> (r in rows[t] <==> Applies(s, t, r))
  {
    hide OnCycle, Applies;
    var cyclic := Tarjan.TaskCycles(DependencyGraph(s.tasks), order);
    var active := LeasedTasks(s.leases);
    var unresolved := UnresolvedTasks(s.operations);
    rows := map[];
    for i := 0 to |order|
      invariant forall t :: t in rows <==> t in order[..i]
      invariant forall t, r :: t in rows ==> (r in rows[t] <==> Applies(s, t, r))
    {
      var reasons := TaskReasons(s, order[i], cyclic, active, unresolved);
      rows := rows[order[i] := reasons];
    }
  }

  // The index and the ledger

  /** What the index asks of a dependency. */
  predicate Finished(s: State, d: TaskId) {
    d in s.tasks && s.tasks[d].status == Completed && s.tasks[d].result.Some? && d in s.results
  }

  /** The ledger asks for exactly that and for an accepted decision. */
  lemma FailureExactly(s: State, d: TaskId)
    requires Inv(s)
    ensures Failure(s, d) == None <==> Finished(s, d) && IsAccepted(s, d)
  {
  }

  lemma NoReasonExactly(s: State, t: TaskId)
    requires t in s.tasks && Acyclic(DependencyGraph(s.tasks))
    ensures (forall r :: AboutDependencies(r) ==> !Applies(s, t, r)) <==> forall d :: d in s.tasks[t].dependencies ==>
            Finished(s, d)
  {
    hide OnCycle;
    var task := s.tasks[t];
    if forall r :: AboutDependencies(r) ==> !Applies(s, t, r) {
      forall d | d in task.dependencies
        ensures Finished(s, d)
      {
        assert !Applies(s, t, MissingDependency(d)) && !Applies(s, t, ResultMissing(d));
        assert d in s.tasks ==> !Applies(s, t, IncompleteDependency(d, s.tasks[d].status));
      }
    }
  }

  /** In every reachable state the ledger finds the dependencies of a task ready exactly when the index
      built from that snapshot lists no dependency reason and every dependency has been accepted. So the
      index never under-reports readiness. */
  lemma ReadyExactly(run: Run, i: nat, t: TaskId)
    requires i <= |run| && t in At(run, i).tasks
    ensures var s := At(run, i);
            Ready(s, s.tasks[t])
            <==> (forall r :: AboutDependencies(r) ==> !Applies(s, t, r)) && AllAccepted(s, s.tasks[t].dependencies)
  {
    hide At, Inv, Acyclic, Applies, Failure, IsAccepted, Finished;
    var s := At(run, i);
    Reachable(run, i);
    DependenciesStayAcyclic(run, i);
    NoReasonExactly(s, t);
    forall d
      ensures Failure(s, d) == None <==> Finished(s, d) && IsAccepted(s, d)
    {
      FailureExactly(s, d);
    }
  }

  /** The cycle search of the index finds nothing on any reachable ledger. */
  lemma NoReachableCycles(run: Run, i: nat)
    requires i <= |run|
    ensures ComponentInvariant.TasksOnCycles(DependencyGraph(At(run, i).tasks)) == {}
  {
    hide At, OnCycle;
    DependenciesStayAcyclic(run, i);
  }

  /** A task the index calls ready is refused by the ledger, on account of the task, exactly when one of
      its dependencies has no accepted decision. */
  lemma IndexReadyMeans(run: Run, i: nat, t: TaskId)
    requires i <= |run| && t in At(run, i).tasks
    requires forall r :: !Applies(At(run, i), t, r)
    ensures TaskRefusal(At(run, i), t, None) == None <==> AllAccepted(At(run, i), At(run, i).tasks[t].dependencies)
  {
    hide At, AllAccepted, Ready;
    var s := At(run, i);
    ReadyExactly(run, i, t);
    assert !Applies(s, t, StatusIs(s.tasks[t].status)) && !Applies(s, t, InRecovery);
  }

  /** The index calls a task ready exactly if it is queued, with no recovery or blocker to clear, lies on no
      cycle, has every dependency published, and neither a lease nor an operation under way. */
  lemma IndexReadyExactly(s: State, t: TaskId)
    requires t in s.tasks
    ensures (forall r :: !Applies(s, t, r)) <==>
              && s.tasks[t].status == Queued && !s.tasks[t].recoveryRequired && s.tasks[t].blocker == None
              && !OnCycle(DependencyGraph(s.tasks), t)
              && (forall d :: d in s.tasks[t].dependencies ==>
                    d in s.tasks && s.tasks[d].status == Completed && s.tasks[d].result.Some? && d in s.results)
              && (TaskKey(t) in s.leases ==> s.leases[TaskKey(t)].release.Some?)
              && forall id :: id in s.operations && s.operations[id].task == t ==>
                   s.operations[id].status == Committed || s.operations[id].status == OperationFailed
  {
    hide OnCycle, DependencyGraph;
    var task := s.tasks[t];
    if forall r :: !Applies(s, t, r) {
      assert !Applies(s, t, StatusIs(task.status)) && !Applies(s, t, InRecovery) && !Applies(s, t, ExplicitBlocker);
      assert !Applies(s, t, InCycle) && !Applies(s, t, ActiveLease) && !Applies(s, t, UnresolvedOperation);
      forall d | d in task.dependencies
        ensures d in s.tasks && s.tasks[d].status == Completed && s.tasks[d].result.Some? && d in s.results
      {
        assert !Applies(s, t, MissingDependency(d)) && !Applies(s, t, ResultMissing(d));
        assert d in s.tasks ==> !Applies(s, t, IncompleteDependency(d, s.tasks[d].status));
      }
      assert forall id :: id in s.operations && s.operations[id].task == t ==> !Unresolved(s.operations[id]);
    }
  }

  /** On a reachable ledger a worker gets the lease of an index-ready task exactly if every dependency has been
      accepted, the worker is known and free, asks for some time and shows no stale revision, and nobody else
      has resumed the task. */
  lemma IndexReadyIsLeasable(run: Run, i: nat, t: TaskId, w: Name, ttl: Time, expected: Option<nat>, now: Time)
    requires i <= |run| && t in At(run, i).tasks
    requires forall r :: !Applies(At(run, i), t, r)
    ensures var s := At(run, i);
            Acquire(s, TaskKey(t), w, ttl, expected, None, now).reply.Granted? <==>
              && AllAccepted(s, s.tasks[t].dependencies)
              && w in s.workers && ttl > 0.0 && Free(s, TaskKey(t), w, now) && Resumable(s, t, w, now)
              && (expected.Some? ==> expected.value == s.tasks[t].revision)
  {
    hide At, Applies, AllAccepted, Ready, AllStand, Free, Resumable, Acquire, OnCycle, DependencyGraph;
    var s := At(run, i);
    ReadyExactly(run, i, t);
    IndexReadyExactly(s, t);
    ReadyMeans(s, s.tasks[t]);
    GrantsExactly(s, TaskKey(t), w, ttl, expected, None, now);
  }

  // The converse fails: the index does not look at decisions.

  /** A dependency is published but not decided. */
  function UndecidedRun(): Run {
    var w, d, t := Name("w"), TaskId("d"), TaskId("t");
    [Timed(CallRegisterWorker(w, Alive, Available, true, 0), 0.0),
     Timed(CallRegisterTask(t, [d], "", None, Queued), 0.0),
     Timed(CallRegisterTask(d, [], "", None, Queued), 0.0),
     Timed(CallAcquire(TaskKey(d), w, 1.0, None, None), 0.0),
     Timed(CallPublish(d, w, 1, 0, 1, "", Name("r"), ""), 0.0)]
  }

  /** Registering on an empty ledger a task that depends on an unknown one. */
  lemma RegisterAhead(s: State, t: TaskId, d: TaskId)
    requires s.tasks == map[] && t != d
    ensures RegisterTask(s, t, [d], "", None, Queued)
            == Outcome(Done, Some(NOTHING.(tasks := map[t := NewTask([d], "", None, Queued)])))
  {
    var g := DependencyGraph(s.tasks)[t := [d]];
    assert Dedup([d]) == [d] by {
      assert [d][..0] == [];
    }
    assert !SeesCycle(g, t);
  }

  lemma TaskAhead(run: Run)
    requires run == UndecidedRun()
    ensures var s := At(run, 2);
            && Name("w") in s.workers && s.leases == map[] && s.tokens == 0 && s.results == map[]
               && s.operations == map[]
            && s.tasks == map[TaskId("t") := NewTask([TaskId("d")], "", None, Queued)]
  {
    hide At, Inv, RegisterTask, NewTask, StateAfter;
    AtStart(run);
    AtNext(run, 0);
    AtNext(run, 1);
    RegisterAhead(At(run, 1), TaskId("t"), TaskId("d"));
  }

  lemma TasksThere(run: Run)
    requires run == UndecidedRun()
    ensures var s := At(run, 3);
            && Name("w") in s.workers && s.leases == map[] && s.tokens == 0 && s.results == map[]
               && s.operations == map[]
            && s.tasks == map[TaskId("t") := NewTask([TaskId("d")], "", None, Queued),
                              TaskId("d") := NewTask([], "", None, Queued)]
  {
    hide At, Inv, RegisterTask, NewTask, StateAfter;
    TaskAhead(run);
    AtNext(run, 2);
    Reachable(run, 2);
    assert TaskId("d") != TaskId("t");
    LedgerOneLive.RegisterFree(At(run, 2), TaskId("d"));
  }

  lemma DependencyLeased(run: Run)
    requires run == UndecidedRun()
    ensures var s, w, d, t := At(run, 4), Name("w"), TaskId("d"), TaskId("t");
            && s.leases == map[TaskKey(d) := Lease(w, 1, 0, 0.0, 1.0, Some(1), None)] && s.results == map[]
               && s.operations == map[]
            && s.tasks.Keys == {d, t} && s.tasks[t] == NewTask([d], "", None, Queued)
            && s.tasks[d] == ClaimedTask(NewTask([], "", None, Queued), w, None, 0.0)
  {
    hide At, Acquire, StateAfter, NewTask, ClaimedTask;
    TasksThere(run);
    AtNext(run, 3);
    LedgerOneLive.AcquireFree(At(run, 3), TaskId("d"), Name("w"), 1.0, 0.0);
  }

  lemma DependencyPublished(run: Run)
    requires run == UndecidedRun()
    ensures var s, d, t := At(run, 5), TaskId("d"), TaskId("t");
            && s.leases.Keys == {TaskKey(d)} && s.results.Keys == {d} && s.operations == map[]
            && s.tasks.Keys == {d, t} && s.tasks[t] == NewTask([d], "", None, Queued)
            && Finished(s, d) && s.tasks[d].decision == None
  {
    hide At, StateAfter;
    DependencyLeased(run);
    AtNext(run, 4);
    var s, d := At(run, 4), TaskId("d");
    assert TaskKey(d) in s.leases && Current(s, TaskKey(d), Name("w"), 1, 0);
    assert s.tasks[d].revision == 1 && s.tasks[d].result == None && s.tasks[d].checkpointId == None
           && s.tasks[d].decision == None;
  }

  /** The index calls the dependent task ready; the ledger refuses to lease it. */
  lemma IndexOverReports()
    ensures var s, t := At(UndecidedRun(), 5), TaskId("t");
            && t in s.tasks
            && (forall r :: !Applies(s, t, r))
            && TaskRefusal(s, t, None) == Some(LeaseConflict)
  {
    hide At, StateAfter, OnCycle, DependencyGraph, Ready;
    var run := UndecidedRun();
    DependencyPublished(run);
    var s, t := At(run, 5), TaskId("t");
    NoReachableCycles(run, 5);
    assert !OnCycle(DependencyGraph(s.tasks), t) by {
      GraphHasTasks(s.tasks);
      assert t !in ComponentInvariant.TasksOnCycles(DependencyGraph(s.tasks));
    }
    assert TaskKey(t) !in s.leases;
    assert !IsAccepted(s, TaskId("d")) && TaskId("d") in s.tasks[t].dependencies;
    IndexReadyMeans(run, 5, t);
  }

  lemma GraphHasTasks(tasks: map<TaskId, Task>)
    ensures DependencyGraph(tasks).Keys == tasks.Keys
  {
  }
}
