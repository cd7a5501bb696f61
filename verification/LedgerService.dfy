/** The ledger object serving calls, one after another: it goes through exactly the states of the run. */
module LedgerService {
  import opened Graphs
  import opened LedgerModel
  import opened LedgerInvariant
  import opened LedgerSteps
  import opened LedgerRuns
  import opened Ledger
  import opened Options

  method Serve(ledger: CoordinationState, call: Call, now: Time) returns (reply: Reply)
    modifies ledger
    ensures ledger.Contents() == Next(old(ledger.Contents()), call, now)
    ensures reply == Perform(old(ledger.Contents()), call, now).reply
  {
    hide After, Perform;
    if FenceOf(call).Some? {
      reply := ServeFenced(ledger, call, now);
    } else {
      reply := ServeUnfenced(ledger, call, now);
    }
  }

  method ServeFenced(ledger: CoordinationState, call: Call, now: Time) returns (reply: Reply)
    requires FenceOf(call).Some?
    modifies ledger
    ensures ledger.Contents() == Next(old(ledger.Contents()), call, now)
    ensures reply == Perform(old(ledger.Contents()), call, now).reply
  {
    hide After, ReleaseLease, RenewLease, CheckpointTask, BeginOperation, PublishResult, DecideResult;
    match call {
      case CallRelease(key, holder, epoch, token, reason, proof)
        => reply := ledger.ReleaseLease(key, holder, epoch, token, reason, proof, now);
      case CallRenew(key, holder, epoch, token, ttl) => reply := ledger.RenewLease(key, holder, epoch, token, ttl, now);
      case CallCheckpoint(t, holder, epoch, token, request)
        => reply := ledger.CheckpointTask(t, holder, epoch, token, request, now);
      case CallBeginOperation(t, holder, epoch, token, kind, operation) =>
        reply := ledger.BeginOperation(t, holder, epoch, token, kind, operation, now);
      case CallPublish(t, holder, epoch, token, inputRevision, content, resultId, receipt) =>
        reply := ledger.PublishResult(t, holder, epoch, token, inputRevision, content, resultId, receipt, now);
      case CallDecide(t, resultId, ruling, holder, epoch, token)
        => reply := ledger.DecideResult(t, resultId, ruling, holder, epoch, token, now);
    }
  }

  method ServeUnfenced(ledger: CoordinationState, call: Call, now: Time) returns (reply: Reply)
    requires FenceOf(call).None?
    modifies ledger
    ensures ledger.Contents() == Next(old(ledger.Contents()), call, now)
    ensures reply == Perform(old(ledger.Contents()), call, now).reply
  {
    hide After, RegisterWorker, UpdateWorker, RegisterTask, Acquire, ClaimReplacement, ResolveRecovery, MarkRecovery,
         FinishOperation,
         RouteTask, RouteQuestion, CaptureQuota;
    match call {
      case CallRegisterWorker(id, alive, mode, available, budget)
        => reply := ledger.RegisterWorker(id, alive, mode, available, budget);
      case CallUpdateWorker(id, edit) => reply := ledger.UpdateWorker(id, edit);
      case CallRegisterTask(t, deps, brief, assignee, status)
        => reply := ledger.RegisterTask(t, deps, brief, assignee, status);
      case CallAcquire(key, holder, ttl, expected, handoff)
        => reply := ledger.AcquireLease(key, holder, ttl, expected, handoff, now);
      case CallClaimReplacement(t, holder, checkpoint, ttl, expected, expectedCheckpoint) =>
        reply := ledger.ClaimReplacement(t, holder, checkpoint, ttl, expected, expectedCheckpoint, now);
      case CallResolveRecovery(t, receipt) => reply := ledger.ResolveRecovery(t, receipt);
      case CallMarkRecovery(t, why) => reply := ledger.MarkRecoveryRequired(t, why);
      case CallFinishOperation(operation, outcome, receipt)
        => reply := ledger.FinishOperation(operation, outcome, receipt, now);
      case CallRouteTask(t, order, eligible, ttl) => reply := ledger.RouteTask(t, order, eligible, ttl, now);
      case CallCaptureQuota(bound, exhausted, stale) => reply := ledger.CaptureQuota(bound, exhausted, stale);
      case CallRouteQuestion(bounded, question, order, eligible, about) =>
        reply := ledger.RouteQuestion(bounded, question, order, eligible, about, now);
    }
  }

  /** A new ledger after any calls with any arguments: it is where the run is, and keeps the invariant. */
  method ServeRun(run: Run) returns (ledger: CoordinationState, replies: seq<Reply>)
    ensures fresh(ledger) && ledger.Contents() == StateAfter(run) && Inv(ledger.Contents())
    ensures |replies| == |run| && forall i :: 0 <= i < |run| ==>
            replies[i] == Perform(At(run, i), run[i].call, run[i].now).reply
  {
    hide Next, Perform, Inv, StateAfter, At;
    ledger := new CoordinationState();
    replies := [];
    AtStart(run);
    for i := 0 to |run|
      invariant fresh(ledger) && ledger.Contents() == At(run, i)
      invariant |replies| == i && forall j :: 0 <= j < i ==>
                replies[j] == Perform(At(run, j), run[j].call, run[j].now).reply
    {
      var reply := Serve(ledger, run[i].call, run[i].now);
      replies := replies + [reply];
      AtNext(run, i);
    }
    Reachable(run, |run|);
    AtEnd(run);
  }
}
