/** One live task lease per worker: when the ledger keeps it, and the one call that breaks it. */
module LedgerOneLive {
  import opened Graphs
  import opened Options
  import opened Registration
  import opened LedgerModel
  import opened LedgerInvariant
  import opened LedgerSteps
  import opened LedgerRuns

  /** No holder has two unexpired task leases. */
  ghost predicate OneLive(s: State, now: Time) {
    forall k, k' ::
      k in s.leases && k' in s.leases && k.kind == TaskKind && k'.kind == TaskKind
      && s.leases[k].holder == s.leases[k'].holder && s.leases[k].Live(now) && s.leases[k'].Live(now)
      ==> k == k'
  }

  /** A renewal that succeeds although its holder has another unexpired task lease. Acquiring checks
      for that; renewing does not. */
  ghost predicate ClashingRenewal(s: State, c: Call, now: Time) {
    && c.CallRenew? && c.ttl > 0.0 && c.key.kind == TaskKind
    && Current(s, c.key, c.holder, c.epoch, c.token)
    && BusyElsewhere(s, c.key, c.holder, now)
  }

  ghost predicate Granting(s: State, k: Key, lease: Lease, now: Time) {
    k.kind == TaskKind ==> !BusyElsewhere(s, k, lease.holder, now)
  }

  ghost predicate Renewing(s: State, c: Call, k: Key, lease: Lease, now: Time) {
    && c.CallRenew? && c.ttl > 0.0 && k == c.key && Current(s, k, c.holder, c.epoch, c.token)
    && lease == s.leases[k].(expires := now + c.ttl)
  }

  /** What a call may do to leases: at most one is written, and it is released, renewed or granted. */
  ghost predicate LeaseWrite(s: State, c: Call, o: Outcome, k: Key, now: Time) {
    o.change.Some? ==>
      var leases := o.change.value.leases;
      && leases.Keys <= {k}
      && (k in leases ==>
          !leases[k].Active() || Renewing(s, c, k, leases[k], now) || (!c.CallRenew? && Granting(s, k, leases[k], now)))
  }

  lemma AcquireWrites(s: State, c: Call, key: Key, holder: Name, ttl: Time, expected: Option<nat>,
                      handoff: Option<Token>, now: Time)
    requires !c.CallRenew?
    ensures LeaseWrite(s, c, Acquire(s, key, holder, ttl, expected, handoff, now), key, now)
  {
  }

  lemma {:induction false} RouteWrites(s: State, c: Call, t: TaskId, order: seq<Name>, eligible: set<Name>, ttl: Time,
                                       now: Time)
    requires !c.CallRenew? && t in s.tasks
    ensures LeaseWrite(s, c, RouteFrom(s, t, order, eligible, ttl, now), TaskKey(t), now)
    decreases |order|
  {
    hide Acquire, BusyElsewhere;
    if order != [] {
      RouteWrites(s, c, t, order[1..], eligible, ttl, now);
      AcquireWrites(s, c, TaskKey(t), order[0], ttl, Some(s.tasks[t].revision), None, now);
    }
  }

  lemma FencedWrites(s: State, c: Call, now: Time)
    requires FenceOf(c).Some?
    ensures LeaseWrite(s, c, Perform(s, c, now), FenceOf(c).value.key, now)
  {
    hide Canonical, BusyElsewhere;
  }

  lemma UnfencedWrites(s: State, c: Call, k: Key, now: Time)
    requires FenceOf(c).None? && !c.CallAcquire? && !c.CallClaimReplacement? && !c.CallRouteTask?
    ensures LeaseWrite(s, c, Perform(s, c, now), k, now)
  {
    hide SeesCycle, Answerer, BusyElsewhere;
  }

  lemma CallWrites(s: State, c: Call, now: Time) returns (k: Key)
    ensures LeaseWrite(s, c, Perform(s, c, now), k, now)
    ensures c.CallRenew? ==> k == c.key
  {
    hide Acquire, RouteFrom, LeaseWrite, Ready;
    k := COORDINATOR;
    match c {
      case CallAcquire(key, holder, ttl, expected, handoff) =>
        k := key;
        AcquireWrites(s, c, key, holder, ttl, expected, handoff, now);
      case CallClaimReplacement(t, holder, checkpoint, ttl, expected, expectedCheckpoint) =>
        k := TaskKey(t);
        if t in s.tasks {
          AcquireWrites(s, c, k, holder, ttl, Some(s.tasks[t].revision), Some(checkpoint), now);
        }
        QuietWrites(s, c, Perform(s, c, now), k, now);
      case CallRouteTask(t, order, eligible, ttl) =>
        k := TaskKey(t);
        if t in s.tasks {
          RouteWrites(s, c, t, order, eligible, ttl, now);
        }
        QuietWrites(s, c, Perform(s, c, now), k, now);
      case _ =>
        k := FencedKey(c);
        QuietOrFenced(s, c, now);
    }
  }

  /** The key a fenced call is about. */
  function FencedKey(c: Call): Key {
    if FenceOf(c).Some? then FenceOf(c).value.key else COORDINATOR
  }

  lemma QuietOrFenced(s: State, c: Call, now: Time)
    requires !c.CallAcquire? && !c.CallClaimReplacement? && !c.CallRouteTask?
    ensures LeaseWrite(s, c, Perform(s, c, now), FencedKey(c), now)
  {
    hide Perform, LeaseWrite;
    if FenceOf(c).Some? {
      FencedWrites(s, c, now);
    } else {
      UnfencedWrites(s, c, COORDINATOR, now);
    }
  }

  lemma QuietWrites(s: State, c: Call, o: Outcome, k: Key, now: Time)
    ensures (o.change.Some? ==> o.change.value.leases == map[]) ==> LeaseWrite(s, c, o, k, now)
  {
  }

  /** Either no live lease is written, or one whose holder the ledger has checked or renewed. */
  lemma LeasesAfter(s: State, c: Call, k: Key, now: Time)
    requires LeaseWrite(s, c, Perform(s, c, now), k, now) && (c.CallRenew? ==> k == c.key)
    ensures var leases := Next(s, c, now).leases;
            || leases == s.leases
            || (k in leases && leases == s.leases[k := leases[k]]
                && (leases[k].Live(now) && k.kind == TaskKind && !ClashingRenewal(s, c, now)
                    ==> !BusyElsewhere(s, k, leases[k].holder, now)))
  {
    hide Perform, BusyElsewhere;
    var o := Perform(s, c, now);
    if o.change.Some? {
      var written := o.change.value.leases;
      assert s.leases + written == if k in written then s.leases[k := written[k]] else s.leases;
    }
  }

  /** The property is kept by every call but a clashing renewal, and by no clashing renewal. */
  lemma OneLiveExactly(s: State, c: Call, now: Time)
    requires OneLive(s, now)
    ensures OneLive(Next(s, c, now), now) <==> !ClashingRenewal(s, c, now)
  {
    hide Next, Perform, BusyElsewhere, LeaseWrite, ClashingRenewal, OneLive;
    var k := CallWrites(s, c, now);
    if ClashingRenewal(s, c, now) {
      RenewalClashes(s, c, now);
    } else {
      LeasesAfter(s, c, k, now);
      if Next(s, c, now).leases == s.leases {
        SameLeases(s, Next(s, c, now), now);
      } else {
        OneLiveAfterWrite(s, Next(s, c, now), k, now);
      }
    }
  }

  lemma SameLeases(s: State, s': State, now: Time)
    requires OneLive(s, now) && s'.leases == s.leases
    ensures OneLive(s', now)
  {
  }

  lemma RenewalClashes(s: State, c: Call, now: Time)
    requires ClashingRenewal(s, c, now)
    ensures !OneLive(Next(s, c, now), now)
  {
    var k :| k in s.leases && k != c.key && k.kind == TaskKind && s.leases[k].holder == c.holder
      && s.leases[k].Live(now);
    var s' := Next(s, c, now);
    assert s'.leases[k] == s.leases[k] && s'.leases[c.key].Live(now);
  }

  /** One lease written: a live task lease only for a holder with no other. */
  lemma OneLiveAfterWrite(s: State, s': State, k: Key, now: Time)
    requires OneLive(s, now) && k in s'.leases && s'.leases == s.leases[k := s'.leases[k]]
    requires k.kind == TaskKind && s'.leases[k].Live(now) ==> !BusyElsewhere(s, k, s'.leases[k].holder, now)
    ensures OneLive(s', now)
  {
  }

  lemma OneLiveLater(s: State, now: Time, later: Time)
    requires OneLive(s, now) && now <= later
    ensures OneLive(s, later)
  {
  }

  /** A renewal of a task lease that has already run out. */
  ghost predicate LateRenewal(s: State, c: Call, now: Time) {
    c.CallRenew? && c.key.kind == TaskKind && c.key in s.leases && s.leases[c.key].expires <= now
  }

  ghost predicate ClockRuns(run: Run) {
    forall i, j :: 0 <= i < j < |run| ==> run[i].now <= run[j].now
  }

  /** In every run with a nondecreasing clock in which task leases are renewed before they run out,
      no worker ever has two live task leases. */
  lemma {:induction false} OneLiveAlways(run: Run, i: nat)
    requires ClockRuns(run) && i < |run|
    requires forall n :: 0 <= n <= i ==> !LateRenewal(At(run, n), run[n].call, run[n].now)
    ensures OneLive(At(run, i), run[i].now) && OneLive(At(run, i + 1), run[i].now)
  {
    hide At, Next;
    if i == 0 {
      AtStart(run);
    } else {
      OneLiveAlways(run, i - 1);
      OneLiveLater(At(run, i), run[i - 1].now, run[i].now);
    }
    AtNext(run, i);
    OneLiveExactly(At(run, i), run[i].call, run[i].now);
  }

  /** Without that the property fails: a worker lets one lease run out, takes another task, and then
      renews the first lease, which nobody has taken. */
  function LateRenewalRun(): Run {
    var w, a, b := Name("w"), TaskId("a"), TaskId("b");
    [Timed(CallRegisterWorker(w, Alive, Available, true, 0), 0.0),
     Timed(CallRegisterTask(a, [], "", None, Queued), 0.0),
     Timed(CallRegisterTask(b, [], "", None, Queued), 0.0),
     Timed(CallAcquire(TaskKey(a), w, 1.0, None, None), 0.0),
     Timed(CallAcquire(TaskKey(b), w, 9.0, None, None), 2.0),
     Timed(CallRenew(TaskKey(a), w, 1, 0, 9.0), 3.0)]
  }

  lemma RegisterFree(s: State, t: TaskId)
    requires t !in s.tasks && Inv(s)
    ensures RegisterTask(s, t, [], "", None, Queued)
            == Outcome(Done, Some(NOTHING.(tasks := map[t := NewTask([], "", None, Queued)])))
  {
    hide Inv;
    var g := DependencyGraph(s.tasks)[t := []];
    assert Dedup([]) == [];
    forall x | Reaches(g, t, x)
      ensures !OnCycle(g, x)
    {
      var p :| Connects(g, p, t, x);
      assert |p| > 1 ==> Edge(g, p[0], p[1]);
    }
  }

  lemma GrantEffect(s: State, t: TaskId, w: Name, ttl: Time, now: Time)
    requires t in s.tasks && s.tasks[t].revision == 0 && TaskKey(t) !in s.leases
    ensures var s' := Commit(s, TaskGrant(s, t, w, ttl, None, now));
            && s'.leases == s.leases[TaskKey(t) := Lease(w, 1, s.tokens, now, now + ttl, Some(1), None)]
            && s'.workers == s.workers && s'.tokens == s.tokens + 1 && s'.results == s.results
               && s'.operations == s.operations
            && s'.tasks == s.tasks[t := ClaimedTask(s.tasks[t], w, None, now)]
  {
    var lease := Lease(w, 1, s.tokens, now, now + ttl, Some(1), None);
    assert NewLease(s, TaskKey(t), w, ttl, Some(1), now) == lease;
    assert ClaimedTask(s.tasks[t], w, None, now).revision == 1;
    hide ClaimedTask, NewLease;
    assert s.leases + map[TaskKey(t) := lease] == s.leases[TaskKey(t) := lease];
    assert s.tasks + map[t := ClaimedTask(s.tasks[t], w, None, now)]
           == s.tasks[t := ClaimedTask(s.tasks[t], w, None, now)];
    assert s.workers + map[] == s.workers && s.results + map[] == s.results && s.operations + map[] == s.operations;
  }

  lemma NothingHinders(s: State, t: TaskId, w: Name, ttl: Time, now: Time)
    requires w in s.workers && t in s.tasks && s.tasks[t] == NewTask([], "", None, Queued) && TaskKey(t) !in s.leases
             && ttl > 0.0
    requires forall k :: k in s.leases ==> !s.leases[k].Live(now)
    ensures AcquireRefusal(s, TaskKey(t), w, ttl, None, None, now) == None
  {
  }

  /** A first, unhindered acquisition of a fresh task. */
  lemma AcquireFree(s: State, t: TaskId, w: Name, ttl: Time, now: Time)
    requires w in s.workers && t in s.tasks && s.tasks[t] == NewTask([], "", None, Queued) && TaskKey(t) !in s.leases
             && ttl > 0.0
    requires forall k :: k in s.leases ==> !s.leases[k].Live(now)
    ensures var s' := After(s, Acquire(s, TaskKey(t), w, ttl, None, None, now));
            && s'.leases == s.leases[TaskKey(t) := Lease(w, 1, s.tokens, now, now + ttl, Some(1), None)]
            && s'.workers == s.workers && s'.tokens == s.tokens + 1 && s'.results == s.results
               && s'.operations == s.operations
            && s'.tasks == s.tasks[t := ClaimedTask(s.tasks[t], w, None, now)]
  {
    hide AcquireRefusal, TaskGrant, Commit, ClaimedTask;
    NothingHinders(s, t, w, ttl, now);
    GrantEffect(s, t, w, ttl, now);
  }

  lemma SetUp(run: Run)
    requires run == LateRenewalRun()
    ensures var s := At(run, 3);
            && Name("w") in s.workers && s.leases == map[] && s.tokens == 0
            && s.tasks == map[TaskId("a") := NewTask([], "", None, Queued),
                              TaskId("b") := NewTask([], "", None, Queued)]
  {
    hide At, Inv, RegisterTask, NewTask;
    AtStart(run);
    AtNext(run, 0);
    AtNext(run, 1);
    AtNext(run, 2);
    Reachable(run, 1);
    Reachable(run, 2);
    RegisterFree(At(run, 1), TaskId("a"));
    RegisterFree(At(run, 2), TaskId("b"));
  }

  lemma FirstLease(run: Run)
    requires run == LateRenewalRun()
    ensures var s, w, b := At(run, 4), Name("w"), TaskId("b");
            && s.leases == map[TaskKey(TaskId("a")) := Lease(w, 1, 0, 0.0, 1.0, Some(1), None)]
            && w in s.workers && s.tokens == 1 && b in s.tasks && s.tasks[b] == NewTask([], "", None, Queued)
  {
    hide At, Acquire, StateAfter, NewTask;
    SetUp(run);
    AtNext(run, 3);
    AcquireFree(At(run, 3), TaskId("a"), Name("w"), 1.0, 0.0);
  }

  lemma TwoLeases(run: Run)
    requires run == LateRenewalRun()
    ensures var s, w := At(run, 5), Name("w");
            s.leases == map[TaskKey(TaskId("a")) := Lease(w, 1, 0, 0.0, 1.0, Some(1), None),
                            TaskKey(TaskId("b")) := Lease(w, 1, 1, 2.0, 11.0, Some(1), None)]
  {
    hide At, Acquire, StateAfter, NewTask;
    FirstLease(run);
    AtNext(run, 4);
    AcquireFree(At(run, 4), TaskId("b"), Name("w"), 9.0, 2.0);
  }

  lemma LateRenewalBreaksIt()
    ensures ClockRuns(LateRenewalRun()) && !OneLive(StateAfter(LateRenewalRun()), 3.0)
  {
    hide At, OneLive, StateAfter, Perform;
    var run := LateRenewalRun();
    TwoLeases(run);
    var s := At(run, 5);
    assert BusyElsewhere(s, TaskKey(TaskId("a")), Name("w"), 3.0) by {
      assert TaskKey(TaskId("b")) in s.leases && TaskKey(TaskId("b")) != TaskKey(TaskId("a"));
    }
    RenewalClashes(s, run[5].call, 3.0);
    AtNext(run, 5);
    AtEnd(run);
  }
}
