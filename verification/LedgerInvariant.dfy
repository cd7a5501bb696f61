/** The inductive invariant of the ledger, and the relation every transaction keeps between the
    records before and after it. */
module LedgerInvariant {
  import opened Graphs
  import opened Options
  import opened Registration
  import opened LedgerModel

  /** A dependency with its accepted decision in place. */
  predicate IsAccepted(s: State, d: TaskId) {
    d in s.tasks && s.tasks[d].decision.Some? && s.tasks[d].decision.value.ruling.disposition == Accepted
  }

  predicate AllAccepted(s: State, ids: seq<TaskId>) {
    forall d :: d in ids ==> IsAccepted(s, d)
  }

  /** Task and result record tell the same story, decision included. */
  predicate Agree(t: TaskId, task: Task, r: Result) {
    && task.result == Some(Acceptance(r.resultId, r.digest, r.holder, r.epoch, r.token))
    && r.task == t
    && task.decision == r.decision
  }

  /** One task together with the records that belong to it. */
  predicate TaskOk(s: State, t: TaskId)
    requires t in s.tasks
  {
    var task := s.tasks[t];
    && (if task.result.Some? then t in s.results && Agree(t, task, s.results[t]) && TaskKey(t) in s.leases
        else t !in s.results && task.decision.None?)
    && task.integrated == (if task.result.Some? then 1 else 0)
    && (if task.checkpointId.Some?
        then task.handoff.Some? && task.handoff.value.checkpointId == task.checkpointId.value
             && task.checkpointId.value in s.checkpoints && task.checkpointId.value in s.handoffs
                && TaskKey(t) in s.leases
        else task.handoff.None?)
  }

  /** A task lease is on record only for a task whose dependencies have all been accepted. */
  predicate LeaseOk(s: State, k: Key)
    requires k in s.leases
  {
    && s.leases[k].token < s.tokens
    && s.leases[k].epoch >= 1
    && (k.kind == TaskKind ==> k.resource in s.tasks && AllAccepted(s, s.tasks[k.resource].dependencies))
  }

  ghost predicate Inv(s: State) {
    && (forall t :: t in s.tasks ==> TaskOk(s, t))
    && (forall k :: k in s.leases ==> LeaseOk(s, k))
    && s.results.Keys <= s.tasks.Keys
    && (forall id :: id in s.operations ==> s.operations[id].task in s.tasks)
    && (forall id :: id in s.checkpoints ==> id < s.tokens)
    && Acyclic(DependencyGraph(s.tasks))
  }

  // How records may change. Every relation is reflexive and transitive.

  /** Later versions have higher revisions, and what publication and decision wrote never changes. */
  predicate TaskEvolves(a: Task, b: Task) {
    && a.revision <= b.revision
    && (a.revision == b.revision ==> a == b)
    && a.dependencies == b.dependencies
    && (a.result.Some? ==> b.result == a.result && b.integrated == a.integrated)
    && (a.decision.Some? ==> b.decision == a.decision)
  }

  /** Within an epoch the fence is fixed and a release is final; a new epoch has a newer token. */
  predicate LeaseEvolves(a: Lease, b: Lease) {
    || (b.epoch == a.epoch && b.token == a.token && b.holder == a.holder && (a.release.Some? ==> b == a))
    || (b.epoch > a.epoch && b.token > a.token)
  }

  /** A result record gains at most its decision. */
  predicate ResultEvolves(a: Result, b: Result) {
    && b.(decision := a.decision) == a
    && (a.decision.Some? ==> b == a)
  }

  ghost predicate Evolves(s: State, s': State) {
    && (forall t :: t in s.tasks ==> t in s'.tasks && TaskEvolves(s.tasks[t], s'.tasks[t]))
    && (forall k :: k in s.leases ==> k in s'.leases && LeaseEvolves(s.leases[k], s'.leases[k]))
    && (forall t :: t in s.results ==> t in s'.results && ResultEvolves(s.results[t], s'.results[t]))
    && (forall id :: id in s.checkpoints ==> id in s'.checkpoints && s'.checkpoints[id] == s.checkpoints[id])
    && s.handoffs.Keys <= s'.handoffs.Keys
    && s.workers.Keys <= s'.workers.Keys
    && s.revision <= s'.revision && s.tokens <= s'.tokens
  }

  lemma EvolvesRefl(s: State)
    ensures Evolves(s, s)
  {
  }

  lemma EvolvesTrans(s: State, s': State, s'': State)
    requires Evolves(s, s') && Evolves(s', s'')
    ensures Evolves(s, s'')
  {
    forall t | t in s.tasks
      ensures t in s''.tasks && TaskEvolves(s.tasks[t], s''.tasks[t])
    {
      assert TaskEvolves(s.tasks[t], s'.tasks[t]) && TaskEvolves(s'.tasks[t], s''.tasks[t]);
    }
    forall k | k in s.leases
      ensures k in s''.leases && LeaseEvolves(s.leases[k], s''.leases[k])
    {
      assert LeaseEvolves(s.leases[k], s'.leases[k]) && LeaseEvolves(s'.leases[k], s''.leases[k]);
    }
    forall t | t in s.results
      ensures t in s''.results && ResultEvolves(s.results[t], s''.results[t])
    {
      assert ResultEvolves(s.results[t], s'.results[t]) && ResultEvolves(s'.results[t], s''.results[t]);
    }
  }

  /** One transaction raises the revision of each task it writes by exactly one. */
  ghost predicate OneRevision(s: State, s': State) {
    forall t :: t in s.tasks && t in s'.tasks
      ==> s'.tasks[t] == s.tasks[t] || s'.tasks[t].revision == s.tasks[t].revision + 1
  }

  /** What a transaction has to satisfy, record by record, to keep the invariant. */
  ghost predicate ChangeOk(s: State, c: Change) {
    && (forall t :: t in c.tasks ==> TaskOk(Commit(s, c), t))
    && (forall t :: t in c.tasks && t in s.tasks ==>
          TaskEvolves(s.tasks[t], c.tasks[t]) && c.tasks[t].revision == s.tasks[t].revision + 1)
    && c.results.Keys <= c.tasks.Keys
    && (forall t :: t in c.results && t in s.results ==> ResultEvolves(s.results[t], c.results[t]))
    && (forall k :: k in c.leases ==> c.leases[k].token < s.tokens + c.drawn && c.leases[k].epoch >= 1)
    && (forall k :: k in c.leases && k in s.leases ==> LeaseEvolves(s.leases[k], c.leases[k]))
    && (forall k :: k in c.leases && k !in s.leases && k.kind == TaskKind ==>
          k.resource in s.tasks && AllAccepted(s, s.tasks[k.resource].dependencies))
    && (forall id :: id in c.operations ==> c.operations[id].task in s.tasks)
    && (forall id :: id in c.checkpoints ==> s.tokens <= id < s.tokens + c.drawn)
    && (c.tasks.Keys <= s.tasks.Keys || Acyclic(DependencyGraph(Commit(s, c).tasks)))
  }

  /** The same, for a transaction that writes at most one existing task, its result and one lease. */
  predicate SingleOk(s: State, c: Change, t: TaskId, k: Key) {
    && c.tasks.Keys <= {t} && c.results.Keys <= c.tasks.Keys && c.leases.Keys <= {k}
    && (t in c.tasks ==>
        t in s.tasks && TaskOk(Commit(s, c), t) && TaskEvolves(s.tasks[t], c.tasks[t])
        && c.tasks[t].revision == s.tasks[t].revision + 1)
    && (t in c.results && t in s.results ==> ResultEvolves(s.results[t], c.results[t]))
    && (k in c.leases ==>
          && c.leases[k].token < s.tokens + c.drawn && c.leases[k].epoch >= 1
          && if k in s.leases then LeaseEvolves(s.leases[k], c.leases[k])
             else (k.kind == TaskKind ==> k.resource in s.tasks && AllAccepted(s, s.tasks[k.resource].dependencies)))
    && (forall id :: id in c.operations ==> c.operations[id].task in s.tasks)
    && (forall id :: id in c.checkpoints ==> s.tokens <= id < s.tokens + c.drawn)
  }

  lemma SingleIsOk(s: State, c: Change, t: TaskId, k: Key)
    requires SingleOk(s, c, t, k)
    ensures ChangeOk(s, c)
  {
    hide TaskOk, AllAccepted, TaskEvolves, ResultEvolves, LeaseEvolves, DependencyGraph, Acyclic, Commit;
    assert forall x :: x in c.tasks ==> x == t;
    assert forall x :: x in c.results ==> x == t;
    assert forall x :: x in c.leases ==> x == k;
  }

  /** What the invariant says of one lease and of one task. */
  lemma InvAt(s: State, t: TaskId, k: Key)
    requires Inv(s)
    ensures t in s.tasks ==> TaskOk(s, t)
    ensures k in s.leases ==> LeaseOk(s, k)
  {
  }

  lemma SameGraph(s: State, c: Change)
    requires c.tasks.Keys <= s.tasks.Keys
    requires forall t :: t in c.tasks ==> c.tasks[t].dependencies == s.tasks[t].dependencies
    ensures DependencyGraph(Commit(s, c).tasks) == DependencyGraph(s.tasks)
  {
  }

  lemma CommitEvolves(s: State, c: Change)
    requires Inv(s) && ChangeOk(s, c)
    ensures Evolves(s, Commit(s, c)) && OneRevision(s, Commit(s, c))
  {
    hide TaskOk, AllAccepted, DependencyGraph, Acyclic, LeaseOk, Commit;
    CheckpointsAreNew(s, c);
    RecordsEvolve(s, c);
  }

  lemma TasksEvolve(s: State, c: Change)
    requires ChangeOk(s, c)
    ensures forall t :: t in s.tasks ==> t in Commit(s, c).tasks && TaskEvolves(s.tasks[t], Commit(s, c).tasks[t])
    ensures OneRevision(s, Commit(s, c))
  {
    hide TaskOk, AllAccepted, DependencyGraph, Acyclic, LeaseEvolves, ResultEvolves;
  }

  lemma LeasesEvolve(s: State, c: Change)
    requires ChangeOk(s, c)
    ensures forall k :: k in s.leases ==> k in Commit(s, c).leases && LeaseEvolves(s.leases[k], Commit(s, c).leases[k])
    ensures forall t :: t in s.results ==>
            t in Commit(s, c).results && ResultEvolves(s.results[t], Commit(s, c).results[t])
  {
    hide TaskOk, AllAccepted, DependencyGraph, Acyclic, TaskEvolves;
  }

  lemma RecordsEvolve(s: State, c: Change)
    requires ChangeOk(s, c) && s.checkpoints.Keys !! c.checkpoints.Keys
    ensures Evolves(s, Commit(s, c)) && OneRevision(s, Commit(s, c))
  {
    hide ChangeOk, OneRevision, TaskEvolves, LeaseEvolves, ResultEvolves;
    TasksEvolve(s, c);
    LeasesEvolve(s, c);
  }

  lemma CheckpointsAreNew(s: State, c: Change)
    requires Inv(s) && ChangeOk(s, c)
    ensures s.checkpoints.Keys !! c.checkpoints.Keys
  {
  }

  lemma AcceptedStays(s: State, s': State, ids: seq<TaskId>)
    requires Evolves(s, s') && AllAccepted(s, ids)
    ensures AllAccepted(s', ids)
  {
  }

  lemma CommitKeepsTasks(s: State, c: Change, t: TaskId)
    requires Inv(s) && ChangeOk(s, c) && t in Commit(s, c).tasks
    ensures TaskOk(Commit(s, c), t)
  {
    hide AllAccepted, DependencyGraph, Acyclic, LeaseOk, LeaseEvolves, TaskEvolves, ResultEvolves;
    if t !in c.tasks {
      assert TaskOk(s, t);
    }
  }

  lemma CommitKeepsLeases(s: State, c: Change, k: Key)
    requires Inv(s) && ChangeOk(s, c) && k in Commit(s, c).leases
    ensures LeaseOk(Commit(s, c), k)
  {
    hide TaskOk, DependencyGraph, Acyclic, AllAccepted, LeaseEvolves, ResultEvolves;
    CommitEvolves(s, c);
    if k in s.leases {
      assert LeaseOk(s, k);
    }
    if k.kind == TaskKind {
      var t := k.resource;
      assert t in s.tasks && AllAccepted(s, s.tasks[t].dependencies);
      AcceptedStays(s, Commit(s, c), s.tasks[t].dependencies);
      assert TaskEvolves(s.tasks[t], Commit(s, c).tasks[t]);
    }
  }

  lemma CommitKeepsRest(s: State, c: Change)
    requires Inv(s) && ChangeOk(s, c)
    ensures var s' := Commit(s, c);
            && s'.results.Keys <= s'.tasks.Keys
            && (forall id :: id in s'.operations ==> s'.operations[id].task in s'.tasks)
            && (forall id :: id in s'.checkpoints ==> id < s'.tokens)
            && Acyclic(DependencyGraph(s'.tasks))
  {
    hide TaskOk, LeaseOk, Acyclic, AllAccepted, LeaseEvolves, ResultEvolves, DependencyGraph;
    if c.tasks.Keys <= s.tasks.Keys {
      SameGraph(s, c);
    }
  }

  /** The heart of the induction: a transaction that is right record by record keeps the invariant. */
  lemma CommitKeepsInv(s: State, c: Change)
    requires Inv(s) && ChangeOk(s, c)
    ensures Inv(Commit(s, c)) && Evolves(s, Commit(s, c)) && OneRevision(s, Commit(s, c))
  {
    var s' := Commit(s, c);
    assert Inv(s') by {
      hide TaskOk, LeaseOk, Acyclic, ChangeOk, Commit, DependencyGraph;
      forall t | t in s'.tasks
        ensures TaskOk(s', t)
      {
        CommitKeepsTasks(s, c, t);
      }
      forall k | k in s'.leases
        ensures LeaseOk(s', k)
      {
        CommitKeepsLeases(s, c, k);
      }
      CommitKeepsRest(s, c);
    }
    hide Inv, ChangeOk, Evolves, OneRevision, Commit;
    CommitEvolves(s, c);
  }

  lemma EmptyInv()
    ensures Inv(EMPTY)
  {
  }
}
