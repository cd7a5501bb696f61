/** Who gets a lease, a task or a question, said of the records alone, and what the answer writes. */
module LedgerGrants {
  import opened Graphs
  import opened LedgerModel
  import opened Options
  import Ledger

  // Fences and dependencies

  /** A fence is current exactly when it is the one written in an unreleased lease. */
  lemma OneFence(s: State, key: Key, holder: Name, epoch: nat, token: Token)
    ensures Current(s, key, holder, epoch, token) <==>
              && key in s.leases && s.leases[key].release == None
              && (holder, epoch, token) == (s.leases[key].holder, s.leases[key].epoch, s.leases[key].token)
  {
  }

  /** Completed, with a result that its record confirms. */
  predicate Published(s: State, d: TaskId) {
    && d in s.tasks && s.tasks[d].status == Completed && s.tasks[d].result.Some?
    && d in s.results && s.results[d].task == d && s.results[d].resultId == s.tasks[d].result.value.resultId
  }

  /** Published, and ruled on in the same words by task and record. */
  predicate Ruled(s: State, d: TaskId) {
    Published(s, d) && s.results[d].decision.Some? && s.tasks[d].decision == s.results[d].decision
  }

  predicate Stands(s: State, d: TaskId) {
    Ruled(s, d) && s.results[d].decision.value.ruling.disposition == Accepted
  }

  predicate AllStand(s: State, ids: seq<TaskId>) {
    forall d :: d in ids ==> Stands(s, d)
  }

  /** A task is ready exactly when the results of all its dependencies stand, and each dependency that
      does not stand is reported with its own reason. */
  lemma ReadyMeans(s: State, task: Task)
    ensures Ready(s, task) <==> AllStand(s, task.dependencies)
    ensures forall d :: Failure(s, d) ==
              if d !in s.tasks then Some(Missing)
              else if s.tasks[d].status != Completed then Some(NotCompleted)
              else if !Ruled(s, d) then Some(Undecided)
              else if Stands(s, d) then None
              else if s.results[d].decision.value.ruling.disposition == Rejected then Some(WasRejected)
              else Some(WasSuperseded)
  {
  }

  // Acquiring

  /** Nobody holds the key, or the lease ran out and its holder is known to be dead, or is of unknown
      state and stopped for good. */
  predicate Takeable(s: State, key: Key, now: Time) {
    key in s.leases && s.leases[key].release == None ==>
      var prior := s.leases[key].holder;
      && s.leases[key].expires <= now
      && prior in s.workers
      && (s.workers[prior].alive == Dead
          || (s.workers[prior].alive == Unclear && s.workers[prior].mode in {ModeFailed, ModeStopped}))
  }

  /** The holder has no other task under an unreleased, unexpired lease. */
  ghost predicate Free(s: State, key: Key, holder: Name, now: Time) {
    forall k :: k in s.leases && k != key && k.kind == TaskKind && s.leases[k].holder == holder ==>
      s.leases[k].release != None || s.leases[k].expires <= now
  }

  /** Nobody else has resumed the task, or whoever has is dead and let the lease run out. */
  predicate Resumable(s: State, t: TaskId, holder: Name, now: Time)
    requires t in s.tasks
  {
    s.tasks[t].handoff.Some? && s.tasks[t].handoff.value.claimedBy.Some?
    && s.tasks[t].handoff.value.claimedBy.value != holder ==>
      var claimer := s.tasks[t].handoff.value.claimedBy.value;
      && claimer in s.workers && s.workers[claimer].alive == Dead
      && TaskKey(t) in s.leases && s.leases[TaskKey(t)].release == None && s.leases[TaskKey(t)].expires <= now
  }

  /** The handoff the call names is the task's own and has a record. */
  predicate Handed(s: State, t: TaskId, handoff: Option<Token>)
    requires t in s.tasks
  {
    handoff.Some? ==>
      && s.tasks[t].handoff.Some?
      && (s.tasks[t].checkpointId == handoff || s.tasks[t].handoff.value.checkpointId == handoff.value)
      && handoff.value in s.handoffs
  }

  predicate Known(s: State, key: Key, holder: Name, ttl: Time) {
    && ttl > 0.0
    && (key.kind == CoordinatorKind || holder in s.workers)
    && (key.kind == TaskKind ==> key.resource in s.tasks)
  }

  /** The task is unfinished, and whoever comes without a handoff finds it neither checkpointed nor waiting
      for a dependency. */
  predicate Workable(s: State, t: TaskId, handoff: Option<Token>)
    requires t in s.tasks
  {
    && s.tasks[t].status != Completed && s.tasks[t].status != Failed && s.tasks[t].status != Cancelled
    && (handoff == None ==> s.tasks[t].status != Checkpointed && AllStand(s, s.tasks[t].dependencies))
  }

  /** Everything but what the caller says it saw. */
  ghost predicate Available(s: State, key: Key, holder: Name, ttl: Time, handoff: Option<Token>, now: Time) {
    && Known(s, key, holder, ttl) && Takeable(s, key, now)
    && (key.kind == TaskKind ==>
          && !s.tasks[key.resource].recoveryRequired && Workable(s, key.resource, handoff)
          && Free(s, key, holder, now) && Resumable(s, key.resource, holder, now))
  }

  /** When a lease is granted. */
  ghost predicate MayLease(s: State, key: Key, holder: Name, ttl: Time, expected: Option<nat>, handoff: Option<Token>,
                           now: Time) {
    && Available(s, key, holder, ttl, handoff, now)
    && (key.kind == TaskKind ==>
          && (expected.Some? ==> expected.value == s.tasks[key.resource].revision)
          && Handed(s, key.resource, handoff))
  }

  function LastEpoch(s: State, key: Key): nat {
    if key in s.leases then s.leases[key].epoch else 0
  }

  /** The ledger after a grant: the next epoch under a new token, up to `now + ttl`; a task is in progress
      under its new assignee, and the handoff it was resumed through is marked as claimed. */
  function Leased(s: State, key: Key, holder: Name, ttl: Time, handoff: Option<Token>, now: Time): State
    requires key.kind == TaskKind ==> key.resource in s.tasks && Handed(s, key.resource, handoff)
  {
    if key.kind == TaskKind then
      var t, task := key.resource, s.tasks[key.resource];
      s.(leases := s.leases[key := Lease(holder, LastEpoch(s, key) + 1, s.tokens, now, now + ttl,
                                         Some(task.revision + 1), None)],
         tasks := s.tasks[t := task.(
           revision := task.revision + 1, assignee := Some(holder), status := InProgress, blocker := None,
           handoff := if handoff == None then task.handoff
                      else Some(task.handoff.value.(claimedBy := Some(holder), claimedAt := Some(now))))],
         handoffs := if handoff == None then s.handoffs
                     else var id := handoff.value;
                       s.handoffs[id := s.handoffs[id].(claimedBy := Some(holder), claimedAt := Some(now))],
         revision := s.revision + 1, tokens := s.tokens + 1)
    else
      s.(leases := s.leases[key := Lease(holder, LastEpoch(s, key) + 1, s.tokens, now, now + ttl, None, None)],
         revision := s.revision + 1, tokens := s.tokens + 1)
  }

  /** The reason of a refusal, if there is one. */
  ghost function Objection(s: State, key: Key, holder: Name, ttl: Time, expected: Option<nat>, handoff: Option<Token>,
                           now: Time): Option<Refusal> {
    if !Known(s, key, holder, ttl) then Some(InvalidRequest)
    else if key.kind == TaskKind && s.tasks[key.resource].recoveryRequired then Some(RecoveryFirst)
    else if key.kind == TaskKind && s.tasks[key.resource].status == Checkpointed && handoff == None then Some(Fenced)
    else if !Available(s, key, holder, ttl, handoff, now) then Some(LeaseConflict)
    else if !MayLease(s, key, holder, ttl, expected, handoff, now) then Some(Fenced)
    else None
  }

  lemma FreeMeans(s: State, key: Key, holder: Name, now: Time)
    ensures BusyElsewhere(s, key, holder, now) <==> !Free(s, key, holder, now)
  {
  }

  lemma HeldMeans(s: State, key: Key, now: Time)
    ensures HeldRefusal(s, key, now) == if Takeable(s, key, now) then None else Some(LeaseConflict)
  {
  }

  lemma ResumeMeans(s: State, t: TaskId, holder: Name, expected: Option<nat>, handoff: Option<Token>, now: Time)
    requires t in s.tasks
    ensures ResumeRefusal(s, t, holder, expected, handoff, now)
            == if !Resumable(s, t, holder, now) then Some(LeaseConflict)
               else if (expected.Some? ==> expected.value == s.tasks[t].revision) && Handed(s, t, handoff) then None
               else Some(Fenced)
  {
  }

  lemma TaskMeans(s: State, t: TaskId, handoff: Option<Token>)
    requires t in s.tasks
    ensures TaskRefusal(s, t, handoff)
            == if s.tasks[t].recoveryRequired then Some(RecoveryFirst)
               else if s.tasks[t].status == Checkpointed && handoff == None then Some(Fenced)
               else if !Workable(s, t, handoff) then Some(LeaseConflict)
               else None
  {
    hide Ready, AllStand;
    ReadyMeans(s, s.tasks[t]);
  }

  lemma RefusalMeans(s: State, key: Key, holder: Name, ttl: Time, expected: Option<nat>, handoff: Option<Token>,
                     now: Time)
    ensures AcquireRefusal(s, key, holder, ttl, expected, handoff, now)
            == Objection(s, key, holder, ttl, expected, handoff, now)
    ensures Objection(s, key, holder, ttl, expected, handoff, now) == None
            <==> MayLease(s, key, holder, ttl, expected, handoff, now)
  {
    NoObjection(s, key, holder, ttl, expected, handoff, now);
    hide BusyElsewhere, HeldRefusal, ResumeRefusal, TaskRefusal, Free, Takeable, Resumable, Handed, Workable;
    FreeMeans(s, key, holder, now);
    HeldMeans(s, key, now);
    if key.kind == TaskKind && key.resource in s.tasks {
      TaskMeans(s, key.resource, handoff);
      ResumeMeans(s, key.resource, holder, expected, handoff, now);
    }
    UnknownTask(s, key.resource, handoff);
  }

  lemma NoObjection(s: State, key: Key, holder: Name, ttl: Time, expected: Option<nat>, handoff: Option<Token>,
                    now: Time)
    ensures Objection(s, key, holder, ttl, expected, handoff, now) == None
            <==> MayLease(s, key, holder, ttl, expected, handoff, now)
  {
    hide Free, Takeable, Resumable, Handed, AllStand;
  }

  lemma UnknownTask(s: State, t: TaskId, handoff: Option<Token>)
    ensures t !in s.tasks ==> TaskRefusal(s, t, handoff) == Some(InvalidRequest)
  {
  }

  /** The grant takes the ledger to this state, under this lease. */
  ghost predicate Grants(s: State, key: Key, holder: Name, ttl: Time, handoff: Option<Token>, now: Time, s': State,
                         lease: Lease) {
    && (key.kind == TaskKind ==> key.resource in s.tasks && Handed(s, key.resource, handoff))
    && s' == Leased(s, key, holder, ttl, handoff, now) && lease == s'.leases[key]
  }

  /** A lease is granted if and only if the records allow it; otherwise the call is refused for the reason
      they give, and writes nothing. What a grant writes is all there is to say of the new state. */
  lemma GrantsExactly(s: State, key: Key, holder: Name, ttl: Time, expected: Option<nat>, handoff: Option<Token>,
                      now: Time)
    ensures var o := Acquire(s, key, holder, ttl, expected, handoff, now);
            && (o.reply.Granted? <==> MayLease(s, key, holder, ttl, expected, handoff, now))
            && (!o.reply.Granted? ==>
                  && After(s, o) == s && o.reply.Refused?
                  && Some(o.reply.why) == Objection(s, key, holder, ttl, expected, handoff, now))
            && (o.reply.Granted? ==> Grants(s, key, holder, ttl, handoff, now, After(s, o), o.reply.lease))
  {
    hide AcquireRefusal, Objection, MayLease, Grants, Acquire, After;
    RefusalMeans(s, key, holder, ttl, expected, handoff, now);
    if MayLease(s, key, holder, ttl, expected, handoff, now) {
      GrantFollows(s, key, holder, ttl, expected, handoff, now);
    } else {
      RefusalFollows(s, key, holder, ttl, expected, handoff, now);
    }
  }

  lemma RefusalFollows(s: State, key: Key, holder: Name, ttl: Time, expected: Option<nat>, handoff: Option<Token>,
                       now: Time)
    requires AcquireRefusal(s, key, holder, ttl, expected, handoff, now).Some?
    ensures var o := Acquire(s, key, holder, ttl, expected, handoff, now);
            && After(s, o) == s
            && o.reply == Refused(AcquireRefusal(s, key, holder, ttl, expected, handoff, now).value)
  {
    hide AcquireRefusal;
  }

  lemma GrantFollows(s: State, key: Key, holder: Name, ttl: Time, expected: Option<nat>, handoff: Option<Token>,
                     now: Time)
    requires AcquireRefusal(s, key, holder, ttl, expected, handoff, now) == None
    requires MayLease(s, key, holder, ttl, expected, handoff, now)
    ensures var o := Acquire(s, key, holder, ttl, expected, handoff, now);
            o.reply.Granted? && Grants(s, key, holder, ttl, handoff, now, After(s, o), o.reply.lease)
  {
    hide AcquireRefusal, MayLease, Leased, TaskGrant, PlainGrant, Commit, Handed;
    MayLeaseFacts(s, key, holder, ttl, expected, handoff, now);
    if key.kind == TaskKind {
      TaskGrantIs(s, key.resource, holder, ttl, handoff, now);
    } else {
      PlainGrantIs(s, key, holder, ttl, now);
      NoHandoff(s, key, holder, ttl, handoff, now);
    }
  }

  lemma NoHandoff(s: State, key: Key, holder: Name, ttl: Time, handoff: Option<Token>, now: Time)
    requires key.kind != TaskKind
    ensures Leased(s, key, holder, ttl, handoff, now) == Leased(s, key, holder, ttl, None, now)
  {
  }

  lemma MayLeaseFacts(s: State, key: Key, holder: Name, ttl: Time, expected: Option<nat>, handoff: Option<Token>,
                      now: Time)
    requires MayLease(s, key, holder, ttl, expected, handoff, now)
    ensures key.kind == TaskKind ==> key == TaskKey(key.resource) && key.resource in s.tasks
                                     && Handed(s, key.resource, handoff)
  {
    hide Free, Takeable, Resumable, Handed, Workable;
  }

  lemma TaskGrantIs(s: State, t: TaskId, holder: Name, ttl: Time, handoff: Option<Token>, now: Time)
    requires t in s.tasks && Handed(s, t, handoff)
    ensures Commit(s, TaskGrant(s, t, holder, ttl, handoff, now)) == Leased(s, TaskKey(t), holder, ttl, handoff, now)
    ensures TaskGrant(s, t, holder, ttl, handoff, now).leases.Keys == {TaskKey(t)}
    ensures Commit(s, TaskGrant(s, t, holder, ttl, handoff, now)).leases[TaskKey(t)]
            == TaskGrant(s, t, holder, ttl, handoff, now).leases[TaskKey(t)]
  {
    Ledger.MapFacts(s);
    var c := TaskGrant(s, t, holder, ttl, handoff, now);
    Ledger.PutIsMerge(s.tasks, t, c.tasks[t]);
    Ledger.PutIsMerge(s.leases, TaskKey(t), c.leases[TaskKey(t)]);
    if handoff.Some? {
      Ledger.PutIsMerge(s.handoffs, handoff.value, c.handoffs[handoff.value]);
    }
  }

  lemma PlainGrantIs(s: State, key: Key, holder: Name, ttl: Time, now: Time)
    requires key.kind != TaskKind
    ensures Commit(s, PlainGrant(s, key, holder, ttl, now)) == Leased(s, key, holder, ttl, None, now)
    ensures PlainGrant(s, key, holder, ttl, now).leases.Keys == {key}
    ensures Commit(s, PlainGrant(s, key, holder, ttl, now)).leases[key]
            == PlainGrant(s, key, holder, ttl, now).leases[key]
  {
    Ledger.MapFacts(s);
    Ledger.PutIsMerge(s.leases, key, PlainGrant(s, key, holder, ttl, now).leases[key]);
  }

  /** A replacement gets the task exactly when it shows the task's own checkpoint, unchanged, of a task that
      still waits at it, and may lease it through that handoff. */
  lemma ClaimsExactly(s: State, t: TaskId, worker: Name, id: Token, ttl: Time, expected: Option<nat>,
                      shown: Option<Checkpoint>, now: Time)
    ensures var o := ClaimReplacement(s, t, worker, id, ttl, expected, shown, now);
            var s' := After(s, o);
            && (o.reply.Granted? <==>
                  && t in s.tasks && s.tasks[t].status == Checkpointed && s.tasks[t].checkpointId == Some(id)
                  && id in s.checkpoints && (shown.Some? ==> shown.value == s.checkpoints[id])
                  && MayLease(s, TaskKey(t), worker, ttl, expected, Some(id), now))
            && (!o.reply.Granted? ==> s' == s && o.reply.Refused?)
            && (o.reply.Granted? ==> MayLease(s, TaskKey(t), worker, ttl, Some(s.tasks[t].revision), Some(id), now))
            && (o.reply.Granted? ==> Handed(s, t, Some(id)) && s' == Leased(s, TaskKey(t), worker, ttl, Some(id), now))
  {
    hide Acquire, Leased, Free, Takeable, Resumable, Handed;
    if t in s.tasks {
      GrantsExactly(s, TaskKey(t), worker, ttl, Some(s.tasks[t].revision), Some(id), now);
    }
  }

  // Routing

  predicate Candidate(s: State, order: seq<Name>, eligible: set<Name>, i: nat)
    requires i < |order|
  {
    order[i] in eligible && order[i] in s.workers
  }

  /** Neither in recovery nor checkpointed nor finished. */
  predicate Routable(s: State, t: TaskId)
    requires t in s.tasks
  {
    !s.tasks[t].recoveryRequired && s.tasks[t].status !in {Checkpointed, Completed, Failed, Cancelled}
  }

  predicate UnderLease(s: State, t: TaskId) {
    TaskKey(t) in s.leases && s.leases[TaskKey(t)].release == None
  }

  /** The worker may lease the task as it stands. */
  ghost predicate Fits(s: State, t: TaskId, w: Name, ttl: Time, now: Time)
    requires t in s.tasks
  {
    MayLease(s, TaskKey(t), w, ttl, Some(s.tasks[t].revision), None, now)
  }

  /** The i-th worker is the first that gets the task: it is a candidate and fits, and the candidates before
      it were passed over. */
  ghost predicate Chosen(s: State, t: TaskId, order: seq<Name>, eligible: set<Name>, ttl: Time, now: Time, i: nat)
    requires t in s.tasks && i < |order|
  {
    && Candidate(s, order, eligible, i) && Fits(s, t, order[i], ttl, now)
    && forall j :: 0 <= j < i && Candidate(s, order, eligible, j) ==>
         !UnderLease(s, t) && !Fits(s, t, order[j], ttl, now)
  }

  /** The i-th worker is the first candidate, and finds the task under a lease it may not take over. */
  ghost predicate Preceded(s: State, t: TaskId, order: seq<Name>, eligible: set<Name>, ttl: Time, now: Time, i: nat)
    requires t in s.tasks && i < |order|
  {
    && Candidate(s, order, eligible, i) && UnderLease(s, t) && !Fits(s, t, order[i], ttl, now)
    && forall j :: 0 <= j < i ==> !Candidate(s, order, eligible, j)
  }

  /** Every candidate is passed over. */
  ghost predicate NoneServes(s: State, t: TaskId, order: seq<Name>, eligible: set<Name>, ttl: Time, now: Time)
    requires t in s.tasks
  {
    forall i :: 0 <= i < |order| && Candidate(s, order, eligible, i) ==>
      ttl > 0.0 && !UnderLease(s, t) && !Fits(s, t, order[i], ttl, now)
  }

  ghost predicate Routing(s: State, t: TaskId) {
    t in s.tasks && Routable(s, t) && AllStand(s, s.tasks[t].dependencies)
  }

  /** The task as routing leaves it when nobody can take it. */
  function Unserved(s: State, t: TaskId): State
    requires t in s.tasks
  {
    var task := s.tasks[t];
    s.(tasks := s.tasks[t := task.(revision := task.revision + 1, status := Blocked,
                                   blocker := Some(ProvidersUnavailable))],
       revision := s.revision + 1)
  }

  /** A candidate for a task being routed is refused as an invalid request only for a lease without a length,
      and otherwise for a conflict: the task is under a lease, the worker is busy, or somebody else has
      resumed the task. */
  lemma CandidateRefused(s: State, t: TaskId, w: Name, ttl: Time, now: Time)
    requires Routing(s, t) && w in s.workers
    ensures Fits(s, t, w, ttl, now) <==>
              && ttl > 0.0 && Takeable(s, TaskKey(t), now) && Free(s, TaskKey(t), w, now) && Resumable(s, t, w, now)
    ensures Objection(s, TaskKey(t), w, ttl, Some(s.tasks[t].revision), None, now)
            == if ttl <= 0.0 then Some(InvalidRequest)
               else if Fits(s, t, w, ttl, now) then None
               else Some(LeaseConflict)
  {
    hide Free, Takeable, Resumable, AllStand;
  }

  /** What routing over a list of workers answers and writes. */
  ghost predicate Routes(s: State, t: TaskId, order: seq<Name>, eligible: set<Name>, ttl: Time, now: Time, o: Outcome)
    requires t in s.tasks
  {
    var s' := After(s, o);
    match o.reply
    case Routed(w) =>
      && (exists i :: 0 <= i < |order| && order[i] == w && Chosen(s, t, order, eligible, ttl, now, i))
      && s' == Leased(s, TaskKey(t), w, ttl, None, now)
    case AlreadyRouted(holder) =>
      && (exists i :: 0 <= i < |order| && Preceded(s, t, order, eligible, ttl, now, i))
      && UnderLease(s, t) && holder == s.leases[TaskKey(t)].holder && ttl > 0.0 && s' == s
    case RoutingBlocked => NoneServes(s, t, order, eligible, ttl, now) && s' == Unserved(s, t)
    case Refused(why) =>
      why == InvalidRequest && ttl <= 0.0 && s' == s && exists i :: 0 <= i < |order| && Candidate(s, order, eligible, i)
    case _ => false
  }

  lemma SkipsOne(s: State, t: TaskId, order: seq<Name>, eligible: set<Name>, ttl: Time, now: Time, o: Outcome)
    requires t in s.tasks && order != [] && Routes(s, t, order[1..], eligible, ttl, now, o)
    requires Candidate(s, order, eligible, 0) ==>
               ttl > 0.0 && !UnderLease(s, t) && !Fits(s, t, order[0], ttl, now)
    ensures Routes(s, t, order, eligible, ttl, now, o)
  {
    hide Fits, UnderLease, After, Leased;
    var rest := order[1..];
    assert forall i :: 0 < i < |order| ==> order[i] == rest[i - 1];
    assert forall i :: 0 <= i < |rest| ==> Candidate(s, rest, eligible, i) == Candidate(s, order, eligible, i + 1);
    match o.reply {
      case Routed(w) =>
        var i :| 0 <= i < |rest| && rest[i] == w && Chosen(s, t, rest, eligible, ttl, now, i);
        ChosenLater(s, t, order, eligible, ttl, now, i);
      case AlreadyRouted(_) =>
        var i :| 0 <= i < |rest| && Preceded(s, t, rest, eligible, ttl, now, i);
        PrecededLater(s, t, order, eligible, ttl, now, i);
      case RoutingBlocked =>
        NoneLater(s, t, order, eligible, ttl, now);
      case Refused(_) =>
        var i :| 0 <= i < |rest| && Candidate(s, rest, eligible, i);
        assert Candidate(s, order, eligible, i + 1);
      case _ =>
    }
  }

  lemma ChosenLater(s: State, t: TaskId, order: seq<Name>, eligible: set<Name>, ttl: Time, now: Time, i: nat)
    requires t in s.tasks && i + 1 < |order| && Chosen(s, t, order[1..], eligible, ttl, now, i)
    requires Candidate(s, order, eligible, 0) ==> !UnderLease(s, t) && !Fits(s, t, order[0], ttl, now)
    ensures Chosen(s, t, order, eligible, ttl, now, i + 1)
  {
    hide Fits, UnderLease;
    var rest := order[1..];
    forall j | 0 <= j < i + 1 && Candidate(s, order, eligible, j)
      ensures !UnderLease(s, t) && !Fits(s, t, order[j], ttl, now)
    {
      if j > 0 {
        assert Candidate(s, rest, eligible, j - 1);
      }
    }
  }

  lemma PrecededLater(s: State, t: TaskId, order: seq<Name>, eligible: set<Name>, ttl: Time, now: Time, i: nat)
    requires t in s.tasks && i + 1 < |order| && Preceded(s, t, order[1..], eligible, ttl, now, i)
    requires !Candidate(s, order, eligible, 0)
    ensures Preceded(s, t, order, eligible, ttl, now, i + 1)
  {
    hide Fits, UnderLease;
    var rest := order[1..];
    forall j | 0 <= j < i + 1
      ensures !Candidate(s, order, eligible, j)
    {
      if j > 0 {
        assert !Candidate(s, rest, eligible, j - 1);
      }
    }
  }

  lemma NoneLater(s: State, t: TaskId, order: seq<Name>, eligible: set<Name>, ttl: Time, now: Time)
    requires t in s.tasks && order != [] && NoneServes(s, t, order[1..], eligible, ttl, now)
    requires Candidate(s, order, eligible, 0) ==>
               ttl > 0.0 && !UnderLease(s, t) && !Fits(s, t, order[0], ttl, now)
    ensures NoneServes(s, t, order, eligible, ttl, now)
  {
    hide Fits, UnderLease;
    var rest := order[1..];
    forall i | 0 <= i < |order| && Candidate(s, order, eligible, i)
      ensures ttl > 0.0 && !UnderLease(s, t) && !Fits(s, t, order[i], ttl, now)
    {
      if i > 0 {
        assert Candidate(s, rest, eligible, i - 1);
      }
    }
  }

  lemma {:induction false} RoutesFrom(s: State, t: TaskId, order: seq<Name>, eligible: set<Name>, ttl: Time, now: Time)
    requires Routing(s, t)
    ensures Routes(s, t, order, eligible, ttl, now, RouteFrom(s, t, order, eligible, ttl, now))
    decreases |order|
  {
    hide Acquire, Fits, Leased, Commit, Routing, Objection;
    RoutingFacts(s, t);
    if order == [] {
      Ledger.PutTask(s, t, Unserved(s, t).tasks[t]);
    } else {
      var w := order[0];
      RoutesFrom(s, t, order[1..], eligible, ttl, now);
      if w in eligible && w in s.workers {
        CandidateRefused(s, t, w, ttl, now);
        FitsGrant(s, t, w, ttl, now);
        assert Candidate(s, order, eligible, 0);
        if Fits(s, t, w, ttl, now) {
          assert Chosen(s, t, order, eligible, ttl, now, 0);
          assert RouteFrom(s, t, order, eligible, ttl, now).reply == Routed(order[0]);
        } else if ttl > 0.0 && UnderLease(s, t) {
          assert Preceded(s, t, order, eligible, ttl, now, 0);
        } else if ttl > 0.0 {
          SkipsOne(s, t, order, eligible, ttl, now, RouteFrom(s, t, order[1..], eligible, ttl, now));
        }
      } else {
        SkipsOne(s, t, order, eligible, ttl, now, RouteFrom(s, t, order[1..], eligible, ttl, now));
      }
    }
  }

  lemma RoutingFacts(s: State, t: TaskId)
    requires Routing(s, t)
    ensures t in s.tasks
  {
  }

  lemma FitsGrant(s: State, t: TaskId, w: Name, ttl: Time, now: Time)
    requires t in s.tasks
    ensures var o := Acquire(s, TaskKey(t), w, ttl, Some(s.tasks[t].revision), None, now);
            && (o.reply.Granted? <==> Fits(s, t, w, ttl, now))
            && (o.reply.Granted? ==> After(s, o) == Leased(s, TaskKey(t), w, ttl, None, now))
            && (!o.reply.Granted? ==>
                  o.reply.Refused?
                  && Some(o.reply.why) == Objection(s, TaskKey(t), w, ttl, Some(s.tasks[t].revision), None, now))
            && (!o.reply.Granted? ==> o.change == None)
  {
    hide AcquireRefusal;
    GrantsExactly(s, TaskKey(t), w, ttl, Some(s.tasks[t].revision), None, now);
  }

  /** No two of the answers can be right at once. */
  lemma OneAnswer(s: State, t: TaskId, order: seq<Name>, eligible: set<Name>, ttl: Time, now: Time, i: nat, j: nat)
    requires t in s.tasks && i < |order| && j < |order| && Chosen(s, t, order, eligible, ttl, now, i)
    ensures ttl > 0.0 && !NoneServes(s, t, order, eligible, ttl, now) && !Preceded(s, t, order, eligible, ttl, now, j)
    ensures Chosen(s, t, order, eligible, ttl, now, j) ==> i == j
  {
    hide UnderLease, Takeable, Free, Resumable, Handed, Workable;
  }

  lemma OneRefusal(s: State, t: TaskId, order: seq<Name>, eligible: set<Name>, ttl: Time, now: Time, i: nat)
    requires t in s.tasks && i < |order| && Candidate(s, order, eligible, i)
    ensures ttl <= 0.0 || Preceded(s, t, order, eligible, ttl, now, i) ==> !NoneServes(s, t, order, eligible, ttl, now)
  {
    hide Fits;
  }

  /** Routing, answer by answer: who is served, and that nobody but candidates is; whose lease stands in the
      way; and that every candidate was passed over, or some dependency does not stand, when it is blocked.
      Each answer is given exactly then, and each writes just what it says. */
  lemma RoutesExactly(s: State, t: TaskId, order: seq<Name>, eligible: set<Name>, ttl: Time, now: Time)
    ensures var o := RouteTask(s, t, order, eligible, ttl, now);
            var s' := After(s, o);
            && (forall w :: o.reply == Routed(w) <==>
                  Routing(s, t) && exists i ::
                    0 <= i < |order| && order[i] == w && Chosen(s, t, order, eligible, ttl, now, i))
            && (forall holder :: o.reply == AlreadyRouted(holder) <==>
                  && Routing(s, t) && ttl > 0.0 && UnderLease(s, t) && holder == s.leases[TaskKey(t)].holder
                  && exists i :: 0 <= i < |order| && Preceded(s, t, order, eligible, ttl, now, i))
            && (o.reply == RoutingBlocked <==>
                  && t in s.tasks && Routable(s, t)
                  && (AllStand(s, s.tasks[t].dependencies) ==> NoneServes(s, t, order, eligible, ttl, now)))
            && (o.reply == NotRoutable <==> t in s.tasks && !Routable(s, t))
            && (o.reply == Refused(InvalidRequest) <==>
                  || t !in s.tasks
                  || (Routing(s, t) && ttl <= 0.0
                      && exists i :: 0 <= i < |order| && Candidate(s, order, eligible, i)))
    ensures RouteWrites(s, t, order, eligible, ttl, now)
  {
    hide RouteFrom, Fits, Leased, AllStand, Ready, After, Unserved, Chosen, Preceded, NoneServes, Candidate;
    Ledger.CommitNothing(s);
    NothingAfter(s);
    if t in s.tasks {
      ReadyMeans(s, s.tasks[t]);
      if Routing(s, t) {
        var o := RouteFrom(s, t, order, eligible, ttl, now);
        RoutesFrom(s, t, order, eligible, ttl, now);
        forall i, j | 0 <= i < |order| && 0 <= j < |order| && Chosen(s, t, order, eligible, ttl, now, i)
          ensures ttl > 0.0 && !NoneServes(s, t, order, eligible, ttl, now)
                  && !Preceded(s, t, order, eligible, ttl, now, j)
                  && (Chosen(s, t, order, eligible, ttl, now, j) ==> i == j)
        {
          OneAnswer(s, t, order, eligible, ttl, now, i, j);
        }
        forall i | 0 <= i < |order| && Candidate(s, order, eligible, i)
          ensures ttl <= 0.0 || Preceded(s, t, order, eligible, ttl, now, i) ==>
                    !NoneServes(s, t, order, eligible, ttl, now)
        {
          OneRefusal(s, t, order, eligible, ttl, now, i);
        }
        forall i | 0 <= i < |order| && Preceded(s, t, order, eligible, ttl, now, i)
          ensures Candidate(s, order, eligible, i)
        {
          PrecededIsCandidate(s, t, order, eligible, ttl, now, i);
        }
      }
    }
  }

  lemma PrecededIsCandidate(s: State, t: TaskId, order: seq<Name>, eligible: set<Name>, ttl: Time, now: Time, i: nat)
    requires t in s.tasks && i < |order| && Preceded(s, t, order, eligible, ttl, now, i)
    ensures Candidate(s, order, eligible, i)
  {
    hide Fits, UnderLease;
  }

  lemma NothingAfter(s: State)
    ensures forall reply :: After(s, Outcome(reply, None)) == s
    ensures forall reply :: After(s, Outcome(reply, Some(NOTHING))) == Commit(s, NOTHING)
  {
  }

  /** What a routing call leaves: the lease of the worker it chose, the task marked blocked for want of a
      worker, or the ledger as it was, but for a new revision when a dependency was in the way. */
  ghost predicate RouteWrites(s: State, t: TaskId, order: seq<Name>, eligible: set<Name>, ttl: Time, now: Time) {
    var o := RouteTask(s, t, order, eligible, ttl, now);
    After(s, o) ==
      match o.reply
      case Routed(w) => Leased(s, TaskKey(t), w, ttl, None, now)
      case RoutingBlocked =>
        if t !in s.tasks then s
        else if AllStand(s, s.tasks[t].dependencies) then Unserved(s, t) else s.(revision := s.revision + 1)
      case _ => s
  }

  // Questions

  /** The worker is a candidate; one kept in reserve has budget left. */
  predicate CanAnswer(s: State, order: seq<Name>, eligible: set<Name>, i: nat)
    requires i < |order|
  {
    Candidate(s, order, eligible, i) && (s.workers[order[i]].mode != Reserve || s.workers[order[i]].budget > 0)
  }

  predicate FirstToAnswer(s: State, order: seq<Name>, eligible: set<Name>, i: nat)
    requires i < |order|
  {
    CanAnswer(s, order, eligible, i) && forall j :: 0 <= j < i ==> !CanAnswer(s, order, eligible, j)
  }

  lemma {:induction false} AnswererMeans(s: State, order: seq<Name>, eligible: set<Name>)
    ensures match Answerer(s, order, eligible)
            case Some(w) => exists i :: 0 <= i < |order| && order[i] == w && FirstToAnswer(s, order, eligible, i)
            case None => forall i :: 0 <= i < |order| ==> !CanAnswer(s, order, eligible, i)
  {
    if order != [] {
      var rest := order[1..];
      AnswererMeans(s, rest, eligible);
      assert forall i :: 0 <= i < |rest| ==> CanAnswer(s, rest, eligible, i) == CanAnswer(s, order, eligible, i + 1);
      if CanAnswer(s, order, eligible, 0) {
        assert FirstToAnswer(s, order, eligible, 0);
      } else {
        match Answerer(s, rest, eligible) {
          case Some(w) =>
            var i :| 0 <= i < |rest| && rest[i] == w && FirstToAnswer(s, rest, eligible, i);
            forall j | 0 <= j < i + 1
              ensures !CanAnswer(s, order, eligible, j)
            {
              assert j > 0 ==> !CanAnswer(s, rest, eligible, j - 1);
            }
            assert FirstToAnswer(s, order, eligible, i + 1);
          case None =>
            forall i | 0 < i < |order|
              ensures !CanAnswer(s, order, eligible, i)
            {
              assert !CanAnswer(s, rest, eligible, i - 1);
            }
        }
      }
    }
  }

  /** The worker that answers: one in reserve pays one question, any other nothing. */
  function Paid(worker: Worker): Worker {
    if worker.mode == Reserve then worker.(budget := worker.budget - 1, revision := worker.revision + 1) else worker
  }

  /** The task whose question nobody can answer: it keeps the question, and is blocked unless it is in recovery. */
  function Unanswered(task: Task, text: string, now: Time): Task {
    task.(question := Some(Question(Digest(text), now)), revision := task.revision + 1,
          status := if task.recoveryRequired then task.status else Blocked)
  }

  /** A question within bounds goes to the first candidate that can answer, which pays for it from its reserve
      budget and never below zero; if there is none the task it belongs to is blocked. Each answer is given
      exactly then, and nothing else changes but the revision. */
  lemma QuestionsExactly(s: State, bounded: bool, text: string, order: seq<Name>, eligible: set<Name>,
                         about: Option<TaskId>, now: Time)
    ensures var o := RouteQuestion(s, bounded, text, order, eligible, about, now);
            var s' := After(s, o);
            && (o.reply == QuestionRefused <==> !bounded)
            && (forall w :: o.reply == Routed(w) <==>
                  bounded && exists i :: 0 <= i < |order| && order[i] == w && FirstToAnswer(s, order, eligible, i))
            && (o.reply == RoutingBlocked <==>
                  bounded && forall i :: 0 <= i < |order| ==> !CanAnswer(s, order, eligible, i))
            && (forall w :: o.reply == Routed(w) ==>
                  w in s.workers && s' == s.(workers := s.workers[w := Paid(s.workers[w])], revision := s.revision + 1))
            && (o.reply == RoutingBlocked && about.Some? && about.value in s.tasks ==>
                  s' == s.(tasks := s.tasks[about.value := Unanswered(s.tasks[about.value], text, now)],
                           revision := s.revision + 1))
            && (o.reply == QuestionRefused ==> s' == s.(revision := s.revision + 1))
            && (o.reply == RoutingBlocked && (about.None? || about.value !in s.tasks) ==>
                  s' == s.(revision := s.revision + 1))
  {
    hide Answerer, FirstToAnswer, CanAnswer, Commit;
    AnswererMeans(s, order, eligible);
    OneAnswers(s, order, eligible);
    Ledger.CommitNothing(s);
    match Answerer(s, order, eligible) {
      case Some(w) =>
        Ledger.PutWorker(s, w, Paid(s.workers[w]));
        assert s.workers[w := s.workers[w]] == s.workers;
      case None =>
        if about.Some? && about.value in s.tasks {
          Ledger.PutTask(s, about.value, Unanswered(s.tasks[about.value], text, now));
        }
    }
  }

  lemma OneAnswers(s: State, order: seq<Name>, eligible: set<Name>)
    ensures forall i, j ::
              (0 <= i < |order| && 0 <= j < |order| && FirstToAnswer(s, order, eligible, i)
               && FirstToAnswer(s, order, eligible, j)) ==> i == j
    ensures forall i :: 0 <= i < |order| && FirstToAnswer(s, order, eligible, i) ==> CanAnswer(s, order, eligible, i)
  {
    hide CanAnswer;
  }
}
