/** The coordination lock file: any number of processes, interleaved step by step. A process may die
    between any two of its steps. */
module Lock {
  import opened Options

  type Pid = nat
  type Token = nat

  /** The owner record: who (pid and process start), under which token, and whether all of it is there. */
  datatype Record = Record(owner: Pid, token: Token, whole: bool)

  /** Where a process is, with what it remembers. */
  datatype Pc =
    | Idle
    | Staging(token: Token)
    | Trying(token: Token)
    | Reading(token: Token)
    | Judging(token: Token, seen: Record)
    | Confirming(token: Token, seen: Record)
    | Rechecking(token: Token, seen: Record)
    | Unlinking(token: Token, seen: Record)
    | Holding(token: Token)
    | Leaving(token: Token)
    | LeavingUnlink(token: Token)
    | Dead

  datatype State = State(
    path: Option<Record>,
    stages: map<Pid, Record>,
    pcs: map<Pid, Pc>,
    owners: seq<Pid>)   // who drew each token

  datatype Action =
    | Open           // draw a token, create the stage file
    | Fill           // write and sync the owner record
    | Link           // publish the stage file at the lock path, unless there is one
    | Read           // read the owner of the existing lock
    | ReadFails      // a read of the record fails, or the owner is not known to be dead: try again
    | Judge          // the owner is proven dead
    | Confirm        // read again before reclaiming
    | Recheck        // and once more inside the unlink routine
    | Unlink         // remove the lock path
    | UnlinkFails    // a sharing violation: check again
    | GiveUp         // busy for too long
    | Exit           // leave the critical section
    | ExitRead
    | ExitUnlink
    | ExitUnlinkFails
    | ExitGiveUp     // unlocking is best effort
    | Die

  datatype Step = Step(pid: Pid, action: Action)

  /** When a process can take a step. Judging an owner dead needs the owner to be dead. */
  predicate Enabled(s: State, step: Step) {
    && step.pid in s.pcs
    && var pc := s.pcs[step.pid];
       match step.action
       case Open => pc.Idle?
       case Fill => pc.Staging?
       case Link => pc.Trying? && step.pid in s.stages
       case Read => pc.Reading? && s.path.Some?
       case ReadFails => pc.Reading? || pc.Judging? || pc.Confirming? || pc.Rechecking?
       case Judge => pc.Judging? && pc.seen.owner in s.pcs && s.pcs[pc.seen.owner].Dead?
       case Confirm => pc.Confirming?
       case Recheck => pc.Rechecking?
       case Unlink => pc.Unlinking?
       case UnlinkFails => pc.Unlinking?
       case GiveUp => pc.Trying? || pc.Reading? || pc.Judging? || pc.Confirming? || pc.Rechecking? || pc.Unlinking?
       case Exit => pc.Holding?
       case ExitRead => pc.Leaving?
       case ExitUnlink => pc.LeavingUnlink?
       case ExitUnlinkFails => pc.LeavingUnlink?
       case ExitGiveUp => pc.Leaving?
       case Die => !pc.Dead?
  }

  predicate Matches(path: Option<Record>, token: Token) {
    path.Some? && path.value.token == token
  }

  function Next(s: State, step: Step): State
    requires Enabled(s, step)
  {
    var p := step.pid;
    var pc := s.pcs[p];
    match step.action
    case Open => s.(pcs := s.pcs[p := Staging(|s.owners|)], stages := s.stages[p := Record(p, |s.owners|, false)],
                    owners := s.owners + [p])
    case Fill => s.(pcs := s.pcs[p := Trying(pc.token)], stages := s.stages[p := Record(p, pc.token, true)])
    case Link => if s.path.Some? then At(s, p, Reading(pc.token))
      else At(s, p, Holding(pc.token)).(path := Some(s.stages[p]), stages := s.stages - {p})
    case Read => At(s, p, if s.path.value.whole then Judging(pc.token, s.path.value) else Trying(pc.token))
    case ReadFails => At(s, p, Trying(pc.token))
    case Judge => At(s, p, Confirming(pc.token, pc.seen))
    case Confirm => At(s, p, if Matches(s.path, pc.seen.token) then Rechecking(pc.token, pc.seen) else Trying(pc.token))
    case Recheck => At(s, p, if Matches(s.path, pc.seen.token) then Unlinking(pc.token, pc.seen) else Trying(pc.token))
    case Unlink => At(s, p, Trying(pc.token)).(path := None)
    case UnlinkFails => At(s, p, Rechecking(pc.token, pc.seen))
    case GiveUp => At(s, p, Idle).(stages := s.stages - {p})
    case Exit => At(s, p, Leaving(pc.token))
    case ExitRead => At(s, p, if Matches(s.path, pc.token) then LeavingUnlink(pc.token) else Idle)
    case ExitUnlink => At(s, p, Idle).(path := None)
    case ExitUnlinkFails => At(s, p, Leaving(pc.token))
    case ExitGiveUp => At(s, p, Idle)
    case Die => At(s, p, Dead)
  }

  function At(s: State, p: Pid, pc: Pc): State {
    s.(pcs := s.pcs[p := pc])
  }

  /** Between its link and its unlink. */
  predicate Inside(s: State, p: Pid) {
    p in s.pcs && (s.pcs[p].Holding? || s.pcs[p].Leaving? || s.pcs[p].LeavingUnlink?)
  }

  /** The harmful step: a reclaimer unlinks although the path by now shows the record of a process
      that is inside. Its last check and its unlink are two steps. */
  predicate LateUnlink(s: State, step: Step) {
    && Enabled(s, step) && step.action == Unlink
    && s.path.Some? && Inside(s, s.path.value.owner) && s.pcs[s.path.value.owner].token == s.path.value.token
  }

  // Invariants

  predicate Genuine(s: State, r: Record) {
    r.token < |s.owners| && s.owners[r.token] == r.owner
  }

  predicate Reclaiming(pc: Pc) {
    pc.Confirming? || pc.Rechecking? || pc.Unlinking?
  }

  predicate PcOk(s: State, p: Pid)
    requires p in s.pcs
  {
    var pc := s.pcs[p];
    && (!pc.Idle? && !pc.Dead? ==> pc.token < |s.owners| && s.owners[pc.token] == p)
    && (pc.Judging? || Reclaiming(pc) ==> pc.seen.whole && Genuine(s, pc.seen))
    && (Reclaiming(pc) ==> pc.seen.owner in s.pcs && s.pcs[pc.seen.owner].Dead?)
    && (pc.Trying? || pc.Reading? || pc.Judging? || Reclaiming(pc)
        ==> p in s.stages && s.stages[p] == Record(p, pc.token, true))
  }

  /** What is true whatever happens, late unlinks included. */
  ghost predicate Shape(s: State) {
    && (forall p :: p in s.pcs ==> PcOk(s, p))
    && (s.path.Some? ==> s.path.value.whole && Genuine(s, s.path.value) && s.path.value.owner in s.pcs)
  }

  /** Every process that is inside has its own complete record at the path. */
  ghost predicate Held(s: State) {
    forall p :: Inside(s, p) ==> s.path == Some(Record(p, s.pcs[p].token, true))
  }

  /** A step moves its own process and touches its own stage file; tokens keep their owners. */
  lemma StepFrame(s: State, step: Step)
    requires Enabled(s, step)
    ensures var s' := Next(s, step);
            && s'.pcs.Keys == s.pcs.Keys
            && (forall p :: p in s.pcs && p != step.pid ==> s'.pcs[p] == s.pcs[p])
            && (forall p :: p in s.stages && p != step.pid ==> p in s'.stages && s'.stages[p] == s.stages[p])
            && s.owners <= s'.owners
            && (s.pcs[step.pid].Dead? ==> s'.pcs[step.pid].Dead?)
  {
  }

  lemma OthersKeepPcOk(s: State, step: Step, p: Pid)
    requires Enabled(s, step) && p in s.pcs && p != step.pid && PcOk(s, p)
    ensures p in Next(s, step).pcs && PcOk(Next(s, step), p)
  {
    hide Next, Enabled;
    StepFrame(s, step);
  }

  lemma MoverKeepsPcOk(s: State, step: Step)
    requires Enabled(s, step) && PcOk(s, step.pid)
    requires s.path.Some? ==> s.path.value.whole && Genuine(s, s.path.value)
    ensures step.pid in Next(s, step).pcs && PcOk(Next(s, step), step.pid)
  {
    hide PcOk, Next, Genuine;
    if step.action in {Open, Fill, Link, Read, ReadFails, Judge} {
      ContenderKeepsPcOk(s, step);
    } else if step.action in {Confirm, Recheck, Unlink, UnlinkFails, GiveUp} {
      ReclaimerKeepsPcOk(s, step);
    } else {
      LeaverKeepsPcOk(s, step);
    }
  }

  lemma ContenderKeepsPcOk(s: State, step: Step)
    requires Enabled(s, step) && PcOk(s, step.pid) && step.action in {Open, Fill, Link, Read, ReadFails, Judge}
    requires s.path.Some? ==> s.path.value.whole && Genuine(s, s.path.value)
    ensures step.pid in Next(s, step).pcs && PcOk(Next(s, step), step.pid)
  {
  }

  lemma ReclaimerKeepsPcOk(s: State, step: Step)
    requires Enabled(s, step) && PcOk(s, step.pid)
    requires step.action in {Confirm, Recheck, Unlink, UnlinkFails, GiveUp}
    ensures step.pid in Next(s, step).pcs && PcOk(Next(s, step), step.pid)
  {
  }

  lemma LeaverKeepsPcOk(s: State, step: Step)
    requires Enabled(s, step) && PcOk(s, step.pid)
    requires step.action in {Exit, ExitRead, ExitUnlink, ExitUnlinkFails, ExitGiveUp, Die}
    ensures step.pid in Next(s, step).pcs && PcOk(Next(s, step), step.pid)
  {
  }

  lemma PathStaysGenuine(s: State, step: Step)
    requires Enabled(s, step) && PcOk(s, step.pid)
    requires s.path.Some? ==> s.path.value.whole && Genuine(s, s.path.value) && s.path.value.owner in s.pcs
    ensures var s' := Next(s, step); s'.path.Some? ==>
            s'.path.value.whole && Genuine(s', s'.path.value) && s'.path.value.owner in s'.pcs
  {
  }

  lemma ShapeStep(s: State, step: Step)
    requires Shape(s) && Enabled(s, step)
    ensures Shape(Next(s, step))
  {
    var s' := Next(s, step);
    assert s'.pcs.Keys == s.pcs.Keys;
    assert PcOk(s, step.pid);
    hide PcOk, Next, Enabled;
    forall p | p in s'.pcs
      ensures PcOk(s', p)
    {
      assert PcOk(s, p);
      if p == step.pid {
        MoverKeepsPcOk(s, step);
      } else {
        OthersKeepPcOk(s, step, p);
      }
    }
    PathStaysGenuine(s, step);
  }

  /** One step keeps every holder at the path if and only if it is not a late unlink. */
  lemma HeldStepExactly(s: State, step: Step)
    requires Shape(s) && Held(s) && Enabled(s, step)
    ensures Held(Next(s, step)) <==> !LateUnlink(s, step)
  {
    var s' := Next(s, step);
    assert PcOk(s, step.pid);
    if LateUnlink(s, step) {
      assert Inside(s', s.path.value.owner);
    } else {
      forall p | Inside(s', p)
        ensures s'.path == Some(Record(p, s'.pcs[p].token, true))
      {
        assert p != step.pid ==> Inside(s, p);
      }
    }
  }

  /** A late unlink is one step away from the failure itself: the same process can link its own record
      at once, and then two processes are inside. */
  lemma LateUnlinkCollides(s: State, step: Step)
    requires Shape(s) && LateUnlink(s, step)
    ensures var gone, link := Next(s, step), Step(step.pid, Link);
            && Enabled(gone, link)
            && Inside(Next(gone, link), step.pid) && Inside(Next(gone, link), s.path.value.owner)
            && step.pid != s.path.value.owner
  {
    assert PcOk(s, step.pid);
  }

  /** At most one process is inside. */
  lemma HeldIsExclusive(s: State, p: Pid, q: Pid)
    requires Held(s) && Inside(s, p) && Inside(s, q)
    ensures p == q
  {
  }

  // Runs

  type Run = seq<Step>

  ghost predicate Valid(s: State, run: Run)
    decreases |run|
  {
    run == [] || (Enabled(s, run[0]) && Valid(Next(s, run[0]), run[1..]))
  }

  ghost function After(s: State, run: Run): State
    requires Valid(s, run)
    decreases |run|
  {
    if run == [] then s else After(Next(s, run[0]), run[1..])
  }

  /** No process inside, no lock file: every process starts idle. */
  predicate Initial(s: State) {
    s.path == None && s.owners == [] && forall p :: p in s.pcs ==> s.pcs[p].Idle?
  }

  /** No step of the run is a late unlink. */
  ghost predicate Timely(s: State, run: Run)
    requires Valid(s, run)
    decreases |run|
  {
    run == [] || (!LateUnlink(s, run[0]) && Timely(Next(s, run[0]), run[1..]))
  }

  lemma {:induction false} RunKeepsShape(s: State, run: Run)
    requires Shape(s) && Valid(s, run)
    ensures Shape(After(s, run))
    decreases |run|
  {
    hide Shape, Next, Enabled;
    if run != [] {
      ShapeStep(s, run[0]);
      RunKeepsShape(Next(s, run[0]), run[1..]);
    }
  }

  lemma {:induction false} RunKeepsHeld(s: State, run: Run)
    requires Shape(s) && Held(s) && Valid(s, run) && Timely(s, run)
    ensures Shape(After(s, run)) && Held(After(s, run))
    decreases |run|
  {
    hide Shape, Held, Next, Enabled, LateUnlink;
    if run != [] {
      ShapeStep(s, run[0]);
      HeldStepExactly(s, run[0]);
      RunKeepsHeld(Next(s, run[0]), run[1..]);
    }
  }

  /** Mutual exclusion, for any number of processes, any interleaving and any deaths, in every run
      without a late unlink; and the path shows the record of the process inside. */
  lemma MutualExclusion(s: State, run: Run, p: Pid, q: Pid)
    requires Initial(s) && Valid(s, run) && Timely(s, run)
    requires Inside(After(s, run), p) && Inside(After(s, run), q)
    ensures p == q && After(s, run).path == Some(Record(p, After(s, run).pcs[p].token, true))
  {
    hide Inside;
    InitialOk(s);
    RunKeepsHeld(s, run);
    HeldIsExclusive(After(s, run), p, q);
  }

  lemma InitialOk(s: State)
    requires Initial(s)
    ensures Shape(s) && Held(s) && AliveAtPath(s)
  {
  }

  /** The lock path only ever shows a complete record, of the process that drew its token. */
  lemma PathIsWhole(s: State, run: Run)
    requires Initial(s) && Valid(s, run) && After(s, run).path.Some?
    ensures var s' := After(s, run); s'.path.value.whole && Genuine(s', s'.path.value)
  {
    InitialOk(s);
    RunKeepsShape(s, run);
  }

  /** Leaving removes the process's own record and no other. */
  lemma ExitRemovesOwn(s: State, run: Run, p: Pid)
    requires Initial(s) && Valid(s, run) && Timely(s, run) && Enabled(After(s, run), Step(p, ExitUnlink))
    ensures var s' := After(s, run); s'.path == Some(Record(p, s'.pcs[p].token, true))
  {
    InitialOk(s);
    RunKeepsHeld(s, run);
    assert Inside(After(s, run), p);
  }

  /** The unlink of a leaving process frees the path, and leaves everybody else where they were. */
  lemma ExitFrees(s: State, p: Pid)
    requires Enabled(s, Step(p, ExitUnlink))
    ensures Next(s, Step(p, ExitUnlink)) == s.(path := None, pcs := s.pcs[p := Idle])
  {
  }

  /** A reclaimer goes on exactly while the path still shows the record it judged, and a leaving process unlinks
      exactly if the path shows its own. */
  lemma ChecksAgain(s: State, p: Pid)
    ensures Enabled(s, Step(p, Confirm)) ==>
              var pc := s.pcs[p];
              Next(s, Step(p, Confirm)).pcs[p]
              == if s.path.Some? && s.path.value.token == pc.seen.token then Rechecking(pc.token, pc.seen)
                 else Trying(pc.token)
    ensures Enabled(s, Step(p, Recheck)) ==>
              var pc := s.pcs[p];
              Next(s, Step(p, Recheck)).pcs[p]
              == if s.path.Some? && s.path.value.token == pc.seen.token then Unlinking(pc.token, pc.seen)
                 else Trying(pc.token)
    ensures Enabled(s, Step(p, ExitRead)) ==>
              var pc := s.pcs[p];
              Next(s, Step(p, ExitRead)).pcs[p]
              == if s.path.Some? && s.path.value.token == pc.token then LeavingUnlink(pc.token) else Idle
  {
  }

  /** An unlink that follows its recheck at once is never late: what it removes is the record of a dead process. */
  lemma PromptUnlinkIsTimely(s: State, run: Run, p: Pid)
    requires Initial(s) && Valid(s, run) && Enabled(After(s, run), Step(p, Recheck))
    ensures var checked := Next(After(s, run), Step(p, Recheck));
            Enabled(checked, Step(p, Unlink)) ==>
              && !LateUnlink(checked, Step(p, Unlink))
              && checked.path.Some? && checked.path.value.owner in checked.pcs
              && checked.pcs[checked.path.value.owner].Dead?
  {
    InitialOk(s);
    RunKeepsShape(s, run);
    assert PcOk(After(s, run), p);
  }

  /** Only a record of a dead process is ever about to be reclaimed. */
  lemma ReclaimsOnlyDead(s: State, run: Run, p: Pid)
    requires Initial(s) && Valid(s, run) && Enabled(After(s, run), Step(p, Unlink))
    ensures var s' := After(s, run); s'.pcs[p].seen.owner in s'.pcs && s'.pcs[s'.pcs[p].seen.owner].Dead?
  {
    InitialOk(s);
    RunKeepsShape(s, run);
    assert PcOk(After(s, run), p);
  }

  // When late unlinks cannot happen

  /** A process dies while the path shows its record. */
  predicate DiesAsOwner(s: State, step: Step) {
    step.action == Die && s.path.Some? && s.path.value.owner == step.pid
  }

  ghost predicate NoOwnerDies(s: State, run: Run)
    requires Valid(s, run)
    decreases |run|
  {
    run == [] || (!DiesAsOwner(s, run[0]) && NoOwnerDies(Next(s, run[0]), run[1..]))
  }

  /** The owner at the path is alive, and nobody has found a dead one there. */
  ghost predicate AliveAtPath(s: State) {
    && (s.path.Some? ==> s.path.value.owner in s.pcs && !s.pcs[s.path.value.owner].Dead?)
    && (forall p :: p in s.pcs ==> !s.pcs[p].Rechecking? && !s.pcs[p].Unlinking?)
  }

  lemma AliveStep(s: State, step: Step)
    requires Shape(s) && AliveAtPath(s) && Enabled(s, step) && !DiesAsOwner(s, step)
    ensures AliveAtPath(Next(s, step)) && !LateUnlink(s, step)
  {
    assert PcOk(s, step.pid);
  }

  lemma {:induction false} NoOwnerDiesIsTimely(s: State, run: Run)
    requires Shape(s) && AliveAtPath(s) && Valid(s, run) && NoOwnerDies(s, run)
    ensures Timely(s, run)
    decreases |run|
  {
    hide Shape, AliveAtPath, Next, Enabled, LateUnlink, DiesAsOwner;
    if run != [] {
      AliveStep(s, run[0]);
      ShapeStep(s, run[0]);
      NoOwnerDiesIsTimely(Next(s, run[0]), run[1..]);
    }
  }

  /** Where no process dies while the path shows its record, at most one process is ever inside. */
  lemma ExclusiveUnlessOwnerDies(s: State, run: Run, p: Pid, q: Pid)
    requires Initial(s) && Valid(s, run) && NoOwnerDies(s, run)
    requires Inside(After(s, run), p) && Inside(After(s, run), q)
    ensures p == q
  {
    hide Inside;
    InitialOk(s);
    NoOwnerDiesIsTimely(s, run);
    MutualExclusion(s, run, p, q);
  }

  // Without that the lock fails: two contenders race to reclaim a dead owner's lock.

  lemma {:induction false} Concat(s: State, a: Run, b: Run)
    requires Valid(s, a) && Valid(After(s, a), b)
    ensures Valid(s, a + b) && After(s, a + b) == After(After(s, a), b)
    decreases |a|
  {
    hide Next, Enabled;
    if a == [] {
      assert a + b == b;
    } else {
      assert (a + b)[1..] == a[1..] + b;
      Concat(Next(s, a[0]), a[1..], b);
    }
  }

  /** One more step at the end of a run. */
  lemma Then(s: State, run: Run, step: Step) returns (longer: Run)
    requires Valid(s, run) && Enabled(After(s, run), step)
    ensures longer == run + [step] && Valid(s, longer) && After(s, longer) == Next(After(s, run), step)
  {
    hide Next, Enabled;
    longer := run + [step];
    assert [step][1..] == [];
    Concat(s, run, [step]);
  }

  /** An idle process takes the free lock. */
  lemma Takes(s: State, run: Run, p: Pid) returns (longer: Run)
    requires Valid(s, run) && p in After(s, run).pcs && After(s, run).pcs[p].Idle? && After(s, run).path == None
    ensures longer == run + [Step(p, Open)] + [Step(p, Fill)] + [Step(p, Link)] && Valid(s, longer)
    ensures var t, t' := After(s, run), After(s, longer);
            && t'.path == Some(Record(p, |t.owners|, true)) && t'.pcs == t.pcs[p := Holding(|t.owners|)]
  {
    hide Valid, After;
    longer := Then(s, run, Step(p, Open));
    longer := Then(s, longer, Step(p, Fill));
    longer := Then(s, longer, Step(p, Link));
  }

  /** A leaving process frees the lock in two steps of its own, and then any idle process is inside in three of
      its own. */
  lemma LeavingHandsOver(s: State, run: Run, p: Pid, q: Pid)
    requires Initial(s) && Valid(s, run) && Timely(s, run)
    requires p in After(s, run).pcs && After(s, run).pcs[p].Leaving?
    requires q in After(s, run).pcs && (q == p || After(s, run).pcs[q].Idle?)
    ensures var left := run + [Step(p, ExitRead), Step(p, ExitUnlink)];
            var taken := left + [Step(q, Open), Step(q, Fill), Step(q, Link)];
            && Valid(s, left) && After(s, left).path == None && After(s, left).pcs == After(s, run).pcs[p := Idle]
            && Valid(s, taken) && Inside(After(s, taken), q)
            && After(s, taken).path == Some(Record(q, After(s, taken).pcs[q].token, true))
  {
    hide Valid, After, Enabled, Next, Timely, Initial, Shape;
    InitialOk(s);
    RunKeepsHeld(s, run);
    var t := After(s, run);
    ReadsOwn(t, p);
    var a := Then(s, run, Step(p, ExitRead));
    ExitFreesNext(After(s, a), p);
    var left := Then(s, a, Step(p, ExitUnlink));
    assert left == run + [Step(p, ExitRead), Step(p, ExitUnlink)];
    var taken := Takes(s, left, q);
    assert taken == left + [Step(q, Open), Step(q, Fill), Step(q, Link)];
  }

  /** A leaving process finds its own record at the path. */
  lemma ReadsOwn(s: State, p: Pid)
    requires Held(s) && p in s.pcs && s.pcs[p].Leaving?
    ensures Enabled(s, Step(p, ExitRead))
    ensures Next(s, Step(p, ExitRead)) == s.(pcs := s.pcs[p := LeavingUnlink(s.pcs[p].token)])
  {
    assert Inside(s, p);
  }

  lemma ExitFreesNext(s: State, p: Pid)
    requires p in s.pcs && s.pcs[p].LeavingUnlink?
    ensures Enabled(s, Step(p, ExitUnlink))
    ensures Next(s, Step(p, ExitUnlink)) == s.(path := None, pcs := s.pcs[p := Idle])
  {
  }

  /** An idle process comes all the way to unlinking a dead owner's lock. */
  lemma ComesToUnlink(s: State, run: Run, p: Pid) returns (longer: Run)
    requires Valid(s, run) && p in After(s, run).pcs && After(s, run).pcs[p].Idle?
    requires var t := After(s, run);
             t.path.Some? && t.path.value.whole && t.path.value.owner in t.pcs && t.pcs[t.path.value.owner].Dead?
    ensures Valid(s, longer) && run <= longer && forall i :: |run| <= i < |longer| ==> longer[i].pid == p
    ensures var t, t' := After(s, run), After(s, longer);
            && t'.path == t.path && t'.pcs == t.pcs[p := Unlinking(|t.owners|, t.path.value)]
            && p in t'.stages && t'.stages[p] == Record(p, |t.owners|, true)
            && (forall q :: q in t.stages && q != p ==> q in t'.stages && t'.stages[q] == t.stages[q])
  {
    hide Valid, After;
    longer := Then(s, run, Step(p, Open));
    longer := Then(s, longer, Step(p, Fill));
    longer := Then(s, longer, Step(p, Link));
    longer := Then(s, longer, Step(p, Read));
    longer := Then(s, longer, Step(p, Judge));
    longer := Then(s, longer, Step(p, Confirm));
    longer := Then(s, longer, Step(p, Recheck));
  }

  /** A process about to unlink does so, links its own record, and is inside. */
  lemma UnlinksAndLinks(s: State, run: Run, p: Pid) returns (longer: Run)
    requires Valid(s, run) && p in After(s, run).pcs && After(s, run).pcs[p].Unlinking? && p in After(s, run).stages
    ensures Valid(s, longer) && run <= longer && forall i :: |run| <= i < |longer| ==> longer[i].pid == p
    ensures var t, t' := After(s, run), After(s, longer);
            && t'.pcs == t.pcs[p := Holding(t.pcs[p].token)]
            && (forall q :: q in t.stages && q != p ==> q in t'.stages && t'.stages[q] == t.stages[q])
  {
    hide Valid, After;
    longer := Then(s, run, Step(p, Unlink));
    longer := Then(s, longer, Step(p, Link));
  }

  /** The lock of a dead owner is not lost: an idle process that finds it reclaims it and is inside, in steps
      of its own. */
  lemma DeadOwnerIsReclaimed(s: State, run: Run, p: Pid) returns (longer: Run)
    requires Initial(s) && Valid(s, run) && p in After(s, run).pcs && After(s, run).pcs[p].Idle?
    requires var t := After(s, run); t.path.Some? && t.path.value.owner in t.pcs && t.pcs[t.path.value.owner].Dead?
    ensures Valid(s, longer) && Inside(After(s, longer), p)
    ensures run <= longer && forall i :: |run| <= i < |longer| ==> longer[i].pid == p
  {
    hide Valid, After, Enabled, Next;
    PathIsWhole(s, run);
    longer := ComesToUnlink(s, run, p);
    longer := UnlinksAndLinks(s, longer, p);
  }

  /** From any start with three processes there is a run that ends with two of them inside. */
  lemma RacingReclaimersCollide(s: State, d: Pid, a: Pid, b: Pid) returns (run: Run)
    requires Initial(s) && {d, a, b} <= s.pcs.Keys && d != a && d != b && a != b
    ensures Valid(s, run) && Inside(After(s, run), a) && Inside(After(s, run), b)
  {
    hide Valid, After, Next, Enabled;
    assert Valid(s, []) && After(s, []) == s by {
      Start(s);
    }
    run := Takes(s, [], d);
    run := DiesThen(s, run, d);
    run := ComesToUnlink(s, run, a);
    run := ComesToUnlink(s, run, b);
    run := UnlinksAndLinks(s, run, a);
    run := UnlinksAndLinks(s, run, b);
  }

  lemma Start(s: State)
    ensures Valid(s, []) && After(s, []) == s
  {
  }

  lemma DiesThen(s: State, run: Run, p: Pid) returns (longer: Run)
    requires Valid(s, run) && p in After(s, run).pcs && !After(s, run).pcs[p].Dead?
    ensures Valid(s, longer) && After(s, longer) == After(s, run).(pcs := After(s, run).pcs[p := Dead])
  {
    hide Valid, After;
    longer := Then(s, run, Step(p, Die));
  }
}
