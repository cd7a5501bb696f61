/** What holds over whole runs of the ledger: any calls, any arguments, any order. */
module LedgerRuns {
  import opened Graphs
  import opened Options
  import opened Registration
  import opened LedgerModel
  import opened LedgerInvariant
  import opened LedgerSteps

  /** One call and the clock reading it made. */
  datatype Timed = Timed(call: Call, now: Time)

  type Run = seq<Timed>

  ghost function StateAfter(run: Run): State {
    if run == [] then EMPTY
    else Next(StateAfter(run[..|run| - 1]), run[|run| - 1].call, run[|run| - 1].now)
  }

  /** The state before the i-th call of a run. */
  ghost function At(run: Run, i: nat): State
    requires i <= |run|
  {
    StateAfter(run[..i])
  }

  lemma AtStart(run: Run)
    ensures At(run, 0) == EMPTY
  {
  }

  lemma AtNext(run: Run, i: nat)
    requires i < |run|
    ensures At(run, i + 1) == Next(At(run, i), run[i].call, run[i].now)
  {
    assert run[..i + 1][..i] == run[..i];
  }

  lemma AtEnd(run: Run)
    ensures At(run, |run|) == StateAfter(run)
  {
    assert run[..|run|] == run;
  }

  /** The invariant holds in every reachable state. */
  lemma {:induction false} Reachable(run: Run, i: nat)
    requires i <= |run|
    ensures Inv(At(run, i))
  {
    hide Inv, Next;
    if i == 0 {
      EmptyInv();
    } else {
      Reachable(run, i - 1);
      AtNext(run, i - 1);
      StepKeeps(At(run, i - 1), run[i - 1].call, run[i - 1].now);
    }
  }

  /** Records only move forward along a run. */
  lemma {:induction false} MovesForward(run: Run, i: nat, j: nat)
    requires i <= j <= |run|
    ensures Evolves(At(run, i), At(run, j))
    decreases j
  {
    hide Inv, Next, Evolves;
    if i == j {
      EvolvesRefl(At(run, i));
    } else {
      MovesForward(run, i, j - 1);
      Reachable(run, j - 1);
      AtNext(run, j - 1);
      StepKeeps(At(run, j - 1), run[j - 1].call, run[j - 1].now);
      EvolvesTrans(At(run, i), At(run, j - 1), At(run, j));
    }
  }

  // Exactly-once results

  /** Once a task has a result, its id, hash and record never change; it has been integrated once;
      task and record agree; and a decision, once there, stays as it is in both. */
  lemma ResultsExactlyOnce(run: Run, i: nat, j: nat, t: TaskId)
    requires i <= j <= |run| && t in At(run, i).results
    ensures var s, s' := At(run, i), At(run, j);
            && t in s.tasks && t in s'.tasks && t in s'.results
            && s'.tasks[t].result == s.tasks[t].result && s.tasks[t].result.Some?
            && s'.results[t].(decision := s.results[t].decision) == s.results[t]
            && s'.tasks[t].integrated == 1
            && Agree(t, s'.tasks[t], s'.results[t])
            && (s.results[t].decision.Some?
                ==> s'.results[t].decision == s.results[t].decision && s'.tasks[t].decision == s.results[t].decision)
  {
    var s, s' := At(run, i), At(run, j);
    hide At, Inv, LeaseOk;
    Reachable(run, i);
    Reachable(run, j);
    MovesForward(run, i, j);
    ResultHasTask(s, t);
    InvAt(s, t, TaskKey(t));
    InvAt(s', t, TaskKey(t));
    assert TaskEvolves(s.tasks[t], s'.tasks[t]) && ResultEvolves(s.results[t], s'.results[t]);
  }

  lemma ResultHasTask(s: State, t: TaskId)
    requires Inv(s) && t in s.results
    ensures t in s.tasks
  {
  }

  /** The integration counter of a task is 1 exactly when it has a result, and 0 otherwise. */
  lemma IntegratedIffResult(run: Run, i: nat, t: TaskId)
    requires i <= |run| && t in At(run, i).tasks
    ensures At(run, i).tasks[t].integrated == if t in At(run, i).results then 1 else 0
  {
    hide Inv, At, LeaseOk;
    Reachable(run, i);
    InvAt(At(run, i), t, TaskKey(t));
  }

  // Revisions

  /** No ABA: a task that shows the same revision at two moments is the same record at both, and
      each call raises the revision of a task it changes by exactly one. */
  lemma RevisionsAreVersions(run: Run, i: nat, j: nat, t: TaskId)
    requires i <= j <= |run| && t in At(run, i).tasks
    ensures t in At(run, j).tasks && At(run, i).tasks[t].revision <= At(run, j).tasks[t].revision
    ensures At(run, i).tasks[t].revision == At(run, j).tasks[t].revision ==> At(run, i).tasks[t] == At(run, j).tasks[t]
    ensures j == i + 1 && At(run, i).tasks[t] != At(run, j).tasks[t]
            ==> At(run, j).tasks[t].revision == At(run, i).tasks[t].revision + 1
  {
    hide Inv, At, Next;
    MovesForward(run, i, j);
    assert TaskEvolves(At(run, i).tasks[t], At(run, j).tasks[t]);
    if j == i + 1 {
      Reachable(run, i);
      AtNext(run, i);
      StepKeeps(At(run, i), run[i].call, run[i].now);
    }
  }

  /** A result is only ever accepted on the very record that had the caller's input revision. */
  lemma PublishedOnInput(run: Run, i: nat, j: nat)
    requires i <= j < |run| && run[j].call.CallPublish?
    requires Perform(At(run, j), run[j].call, run[j].now).reply == Done
    requires run[j].call.task in At(run, i).tasks
             && At(run, i).tasks[run[j].call.task].revision == run[j].call.inputRevision
    ensures run[j].call.task in At(run, j).tasks
            && At(run, j).tasks[run[j].call.task] == At(run, i).tasks[run[j].call.task]
  {
    hide At;
    RevisionsAreVersions(run, i, j, run[j].call.task);
  }

  // Fencing

  datatype Fence = Fence(key: Key, holder: Name, epoch: nat, token: Token)

  /** The lease a call claims to hold. */
  function FenceOf(c: Call): Option<Fence> {
    match c
    case CallRelease(key, holder, epoch, token, _, _) => Some(Fence(key, holder, epoch, token))
    case CallRenew(key, holder, epoch, token, _) => Some(Fence(key, holder, epoch, token))
    case CallCheckpoint(t, holder, epoch, token, _) => Some(Fence(TaskKey(t), holder, epoch, token))
    case CallBeginOperation(t, holder, epoch, token, _, _) => Some(Fence(TaskKey(t), holder, epoch, token))
    case CallPublish(t, holder, epoch, token, _, _, _, _) => Some(Fence(TaskKey(t), holder, epoch, token))
    case CallDecide(_, _, _, holder, epoch, token) => Some(Fence(COORDINATOR, holder, epoch, token))
    case _ => None
  }

  /** A call that carries a fence writes only under the current one; publishing may still answer
      that its result is already there. */
  lemma StaleCallWritesNothing(s: State, c: Call, now: Time, f: Fence)
    requires FenceOf(c) == Some(f) && !Current(s, f.key, f.holder, f.epoch, f.token)
    ensures Next(s, c, now) == s
    ensures Perform(s, c, now).reply.Refused? || (c.CallPublish? && Perform(s, c, now).reply == Duplicate)
  {
  }

  /** Fencing over whole runs: once a lease key shows a newer epoch, no later call with an older
      epoch, or with a token issued for an older epoch, changes anything at all. */
  lemma FencedForever(run: Run, h: nat, i: nat, j: nat, c: Call, now: Time, f: Fence)
    requires h <= i <= j <= |run| && FenceOf(c) == Some(f)
    requires f.key in At(run, h).leases && f.key in At(run, i).leases
    requires var newest := At(run, i).leases[f.key];
             || f.epoch < newest.epoch
             || (At(run, h).leases[f.key].epoch < newest.epoch && f.token == At(run, h).leases[f.key].token)
    ensures Next(At(run, j), c, now) == At(run, j)
    ensures Perform(At(run, j), c, now).reply.Refused?
            || (c.CallPublish? && Perform(At(run, j), c, now).reply == Duplicate)
  {
    hide At, Next, Perform;
    MovesForward(run, h, i);
    MovesForward(run, i, j);
    assert LeaseEvolves(At(run, h).leases[f.key], At(run, i).leases[f.key]);
    assert LeaseEvolves(At(run, i).leases[f.key], At(run, j).leases[f.key]);
    StaleCallWritesNothing(At(run, j), c, now, f);
  }

  /** Every grant opens the next epoch of its key, under a token never issued before. */
  lemma GrantsAreNew(run: Run, i: nat, key: Key, holder: Name, ttl: Time, expected: Option<nat>, handoff: Option<Token>,
                     now: Time)
    requires i <= |run|
    requires Acquire(At(run, i), key, holder, ttl, expected, handoff, now).reply.Granted?
    ensures var lease := Acquire(At(run, i), key, holder, ttl, expected, handoff, now).reply.lease;
            && lease.epoch == (if key in At(run, i).leases then At(run, i).leases[key].epoch else 0) + 1
            && forall h, k :: 0 <= h <= i && k in At(run, h).leases ==> At(run, h).leases[k].token < lease.token
  {
    hide At, AcquireRefusal, Inv;
    forall h, k | 0 <= h <= i && k in At(run, h).leases
      ensures At(run, h).leases[k].token < At(run, i).tokens
    {
      Reachable(run, h);
      InvAt(At(run, h), k.resource, k);
      MovesForward(run, h, i);
    }
  }

  // Displacement

  /** The call shows the epoch and token of this very lease. */
  predicate Shows(c: Call, key: Key, lease: Lease) {
    FenceOf(c).Some? && FenceOf(c).value.key == key && FenceOf(c).value.epoch == lease.epoch
            && FenceOf(c).value.token == lease.token
  }

  ghost predicate KeepsLease(s: State, o: Outcome, key: Key)
    requires key in s.leases
  {
    o.change.Some? && key in o.change.value.leases ==> o.change.value.leases[key] == s.leases[key]
  }

  lemma AcquireKeepsHeld(s: State, key: Key, k: Key, holder: Name, ttl: Time, expected: Option<nat>,
                         handoff: Option<Token>, now: Time)
    requires key in s.leases && s.leases[key].Active() && AliveOf(s, s.leases[key].holder) == Alive
    ensures KeepsLease(s, Acquire(s, k, holder, ttl, expected, handoff, now), key)
  {
  }

  lemma {:induction false} RouteKeepsHeld(s: State, key: Key, t: TaskId, order: seq<Name>, eligible: set<Name>,
                                          ttl: Time, now: Time)
    requires key in s.leases && s.leases[key].Active() && AliveOf(s, s.leases[key].holder) == Alive && t in s.tasks
    ensures KeepsLease(s, RouteFrom(s, t, order, eligible, ttl, now), key)
    decreases |order|
  {
    hide Acquire;
    if order != [] {
      RouteKeepsHeld(s, key, t, order[1..], eligible, ttl, now);
      AcquireKeepsHeld(s, key, TaskKey(t), order[0], ttl, Some(s.tasks[t].revision), None, now);
    }
  }

  lemma FencedKeepsOthers(s: State, c: Call, now: Time, key: Key)
    requires key in s.leases && FenceOf(c).Some? && !Shows(c, key, s.leases[key])
    ensures KeepsLease(s, Perform(s, c, now), key)
  {
    hide Canonical;
  }

  lemma UnfencedKeeps(s: State, c: Call, now: Time, key: Key)
    requires key in s.leases && FenceOf(c).None?
    requires !c.CallAcquire? && !c.CallClaimReplacement? && !c.CallRouteTask?
    ensures KeepsLease(s, Perform(s, c, now), key)
  {
    hide SeesCycle, Answerer;
  }

  /** Nobody takes an active lease from a holder whose process is alive, whatever the clock says. */
  lemma LiveHolderStep(s: State, c: Call, now: Time, key: Key)
    requires key in s.leases && s.leases[key].Active() && AliveOf(s, s.leases[key].holder) == Alive
    requires !Shows(c, key, s.leases[key])
    ensures key in Next(s, c, now).leases && Next(s, c, now).leases[key] == s.leases[key]
  {
    assert KeepsLease(s, Perform(s, c, now), key) by {
      hide KeepsLease, Acquire, RouteFrom, AliveOf, Shows;
      match c {
        case CallAcquire(k, holder, ttl, expected, handoff) =>
          AcquireKeepsHeld(s, key, k, holder, ttl, expected, handoff, now);
        case CallClaimReplacement(t, holder, checkpoint, ttl, expected, expectedCheckpoint) =>
          ClaimKeepsHeld(s, key, t, holder, checkpoint, ttl, expected, expectedCheckpoint, now);
        case CallRouteTask(t, order, eligible, ttl) =>
          RouteTaskKeepsHeld(s, key, t, order, eligible, ttl, now);
        case _ =>
          if FenceOf(c).Some? {
            FencedKeepsOthers(s, c, now, key);
          } else {
            UnfencedKeeps(s, c, now, key);
          }
      }
    }
    hide Perform;
  }

  lemma ClaimKeepsHeld(s: State, key: Key, t: TaskId, worker: Name, checkpointId: Token, ttl: Time,
                       expected: Option<nat>, expectedCheckpoint: Option<Checkpoint>, now: Time)
    requires key in s.leases && s.leases[key].Active() && AliveOf(s, s.leases[key].holder) == Alive
    ensures KeepsLease(s, ClaimReplacement(s, t, worker, checkpointId, ttl, expected, expectedCheckpoint, now), key)
  {
  }

  lemma RouteTaskKeepsHeld(s: State, key: Key, t: TaskId, order: seq<Name>, eligible: set<Name>, ttl: Time, now: Time)
    requires key in s.leases && s.leases[key].Active() && AliveOf(s, s.leases[key].holder) == Alive
    ensures KeepsLease(s, RouteTask(s, t, order, eligible, ttl, now), key)
  {
    hide RouteFrom, AliveOf, Ready;
    if t in s.tasks {
      RouteKeepsHeld(s, key, t, order, eligible, ttl, now);
    }
  }

  /** Over a run: while its holder stays alive, a lease survives any clock and any calls that do not
      show its own epoch and token. */
  lemma {:induction false} LiveHolderKeepsLease(run: Run, i: nat, j: nat, key: Key)
    requires i <= j <= |run| && key in At(run, i).leases && At(run, i).leases[key].Active()
    requires forall n :: i <= n < j ==> AliveOf(At(run, n), At(run, i).leases[key].holder) == Alive
    requires forall n :: i <= n < j ==> !Shows(run[n].call, key, At(run, i).leases[key])
    ensures key in At(run, j).leases && At(run, j).leases[key] == At(run, i).leases[key]
    decreases j
  {
    hide At, Next, AliveOf, Shows;
    if i < j {
      LiveHolderKeepsLease(run, i, j - 1, key);
      AtNext(run, j - 1);
      LiveHolderStep(At(run, j - 1), run[j - 1].call, run[j - 1].now, key);
    }
  }

  // Dependencies

  /** The order of first leases is a linear extension of the dependency graph: when a task first gets
      a lease, each of its dependencies has an accepted decision and has had its own lease before. */
  lemma FirstLeasesFollowDependencies(run: Run, i: nat, t: TaskId, d: TaskId)
    requires i < |run| && TaskKey(t) in At(run, i + 1).leases && TaskKey(t) !in At(run, i).leases
    requires t in At(run, i + 1).tasks && d in At(run, i + 1).tasks[t].dependencies
    ensures IsAccepted(At(run, i), d) && TaskKey(d) in At(run, i).leases
  {
    hide At, Inv, Perform, ChangeOk;
    var s := At(run, i);
    var c := run[i].call;
    Reachable(run, i);
    AtNext(run, i);
    PerformOk(s, c, run[i].now);
    NewLeaseAccepted(s, Perform(s, c, run[i].now).change.value, t);
    StepKeeps(s, c, run[i].now);
    assert TaskEvolves(s.tasks[t], At(run, i + 1).tasks[t]);
    AcceptedHasLease(s, d);
  }

  lemma NewLeaseAccepted(s: State, c: Change, t: TaskId)
    requires ChangeOk(s, c) && TaskKey(t) in c.leases && TaskKey(t) !in s.leases
    ensures t in s.tasks && AllAccepted(s, s.tasks[t].dependencies)
  {
  }

  lemma AcceptedHasLease(s: State, d: TaskId)
    requires Inv(s) && IsAccepted(s, d)
    ensures TaskKey(d) in s.leases
  {
  }

  /** A task that has ever held a lease has all its dependencies registered and accepted from then on,
      whatever happens to them later. */
  lemma LeasedTasksAreUnblocked(run: Run, i: nat, j: nat, t: TaskId, d: TaskId)
    requires i <= j <= |run| && TaskKey(t) in At(run, i).leases
    requires t in At(run, i).tasks && d in At(run, i).tasks[t].dependencies
    ensures IsAccepted(At(run, j), d) && d in At(run, i).tasks
            && At(run, j).tasks[d].decision == At(run, i).tasks[d].decision
    ensures d in At(run, j).results && At(run, j).results[d].decision == At(run, i).tasks[d].decision
  {
    hide At, Inv;
    Reachable(run, i);
    Reachable(run, j);
    MovesForward(run, i, j);
    InvAt(At(run, i), t, TaskKey(t));
    assert IsAccepted(At(run, i), d);
    assert TaskEvolves(At(run, i).tasks[d], At(run, j).tasks[d]);
    InvAt(At(run, j), d, TaskKey(d));
  }

  /** The registered dependencies are acyclic in every reachable state. */
  lemma DependenciesStayAcyclic(run: Run, i: nat)
    requires i <= |run|
    ensures Acyclic(DependencyGraph(At(run, i).tasks))
  {
    Reachable(run, i);
  }

  /** So the ledger never deadlocks on dependencies: with every dependency registered, some task
      without an accepted result has only accepted dependencies. */
  lemma SomeTaskCanProceed(run: Run, i: nat) returns (t: TaskId)
    requires i <= |run|
    requires var s := At(run, i);
             && (exists x :: x in s.tasks && !IsAccepted(s, x))
             && (forall x, d :: x in s.tasks && d in s.tasks[x].dependencies ==> d in s.tasks)
    ensures var s := At(run, i);
            t in s.tasks && !IsAccepted(s, t) && AllAccepted(s, s.tasks[t].dependencies)
  {
    hide Inv, Acyclic, At;
    var s := At(run, i);
    DependenciesStayAcyclic(run, i);
    var waiting := set x | x in s.tasks && !IsAccepted(s, x);
    var x :| x in s.tasks && !IsAccepted(s, x);
    assert x in waiting;
    t := SomeTaskIsUnblocked(DependencyGraph(s.tasks), waiting);
  }
}
