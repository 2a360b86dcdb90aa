/** What the status of a run says about its execution, over whole histories of the protocol. */
module RunOutcomes {
  import opened RunProtocol
  import opened Runs
  import opened Wrappers

  /**
   What a history has shown so far, from its steps: who executes which run, how each execution
   ended, which outcomes have been written, and which transfer each run was started for.
   */
  datatype Ledger = Ledger(
    executing: map<int, int>, ended: map<int, bool>, written: set<int>,
    rejected: set<int>, owner: map<int, int>)

  function Empty(): Ledger {
    Ledger(map[], map[], {}, {}, map[])
  }

  /** A prepared delivery of a run that is still CREATED makes the worker its executor. */
  function Recorded(s: State, step: Step, l: Ledger): Ledger {
    match step
    case StartRun(id, transfer) => l.(owner := l.owner[id := transfer])
    case MarkRejected(id) => l.(rejected := l.rejected + {id})
    case Deliver(id, w, prepared) =>
      if prepared && id in s.runs && s.runs[id].status == Created then l.(executing := l.executing[w := id]) else l
    case EndExecution(w, success) =>
      if w in l.executing then l.(ended := l.ended[l.executing[w] := success]) else l
    case WriteOutcome(w) =>
      if w in l.executing then
        l.(executing := l.executing - {w}, written := l.written + {l.executing[w]})
      else l
    case WorkerCrash(w) => l.(executing := l.executing - {w})
    case _ => l
  }

  function History(s: State, steps: seq<Step>, l: Ledger): Ledger
    requires ValidTrace(s, steps)
    decreases |steps|
  {
    if steps == [] then l else History(Next(s, steps[0]), steps[1..], Recorded(s, steps[0], l))
  }

  function StatusFor(success: bool): Status {
    if success then Finished else Failed
  }

  // ---------------------------------------------------------------------------
  // What holds without any assumption on overlapping deliveries
  // ---------------------------------------------------------------------------

  /** The workers that claimed a run are the executors, and what they carry is how their execution ended. */
  ghost predicate WorkersAreRecorded(s: State, l: Ledger) {
    && (forall w :: w in l.executing <==> w in s.workers && IsClaimed(s.workers[w]))
    && (forall w | w in l.executing ::
          && w in s.workers && s.workers[w].run == l.executing[w]
          && (if s.workers[w].Executing? then l.executing[w] !in l.ended
              else l.executing[w] in l.ended && s.workers[w].outcome == StatusFor(l.ended[l.executing[w]])))
    && (forall v, w | v in l.executing && w in l.executing && v != w :: l.executing[v] != l.executing[w])
    && (forall w | w in s.workers && !IsClaimed(s.workers[w]) :: s.workers[w].outcome == Failed)
  }

  ghost predicate FinishedIsEarned(s: State, l: Ledger) {
    && (forall w | w in l.executing :: s.executions[l.executing[w]] == 1 && l.executing[w] !in l.written)
    && (forall id | id in l.ended :: s.executions[id] == 1)
    && (forall id | id in l.written :: id in l.ended)
    && forall id | id in s.runs && s.runs[id].status == Finished :: id in l.ended && l.ended[id]
  }

  ghost predicate RunsAreOwned(s: State, l: Ledger) {
    forall id | id in s.runs :: id in l.owner && s.runs[id].transferId == l.owner[id] && l.owner[id] in s.transfers
  }

  ghost predicate Truthful(s: State, l: Ledger) {
    OnceInv(s) && WorkersAreRecorded(s, l) && FinishedIsEarned(s, l) && RunsAreOwned(s, l)
  }

  lemma DeliveryRecordsWorkers(s: State, step: Step, l: Ledger)
    requires Truthful(s, l) && Enabled(s, step) && step.Deliver?
    ensures WorkersAreRecorded(Next(s, step), Recorded(s, step, l))
  {
    if step.prepared && Claimable(s.runs, step.run) {
      assert s.executions[step.run] == 0;
      assert forall w | w in l.executing :: l.executing[w] != step.run;
    }
  }

  lemma WorkerStepRecordsWorkers(s: State, step: Step, l: Ledger)
    requires Truthful(s, l) && Enabled(s, step) && (step.EndExecution? || step.WriteOutcome? || step.WorkerCrash?)
    ensures WorkersAreRecorded(Next(s, step), Recorded(s, step, l))
  {
  }

  lemma OtherStepRecordsWorkers(s: State, step: Step, l: Ledger)
    requires Truthful(s, l) && Enabled(s, step)
    requires !step.Deliver? && !step.EndExecution? && !step.WriteOutcome? && !step.WorkerCrash?
    ensures WorkersAreRecorded(Next(s, step), Recorded(s, step, l))
  {
    var t, m := Next(s, step), Recorded(s, step, l);
    assert t.workers == s.workers && m.executing == l.executing && m.ended == l.ended;
  }

  lemma StepRecordsWorkers(s: State, step: Step, l: Ledger)
    requires Truthful(s, l) && Enabled(s, step)
    ensures WorkersAreRecorded(Next(s, step), Recorded(s, step, l))
  {
    if step.Deliver? {
      DeliveryRecordsWorkers(s, step, l);
    } else if step.EndExecution? || step.WriteOutcome? || step.WorkerCrash? {
      WorkerStepRecordsWorkers(s, step, l);
    } else {
      OtherStepRecordsWorkers(s, step, l);
    }
  }

  lemma WriteKeepsFinishedEarned(s: State, step: Step, l: Ledger)
    requires Truthful(s, l) && Enabled(s, step) && step.WriteOutcome?
    ensures FinishedIsEarned(Next(s, step), Recorded(s, step, l))
  {
    var worker := s.workers[step.writer];
    assert step.writer in l.executing <==> IsClaimed(worker);
  }

  lemma DeliveryKeepsFinishedEarned(s: State, step: Step, l: Ledger)
    requires Truthful(s, l) && Enabled(s, step) && step.Deliver?
    ensures FinishedIsEarned(Next(s, step), Recorded(s, step, l))
  {
    if step.prepared && Claimable(s.runs, step.run) {
      assert s.executions[step.run] == 0;
    }
  }

  lemma OtherStepKeepsFinishedEarned(s: State, step: Step, l: Ledger)
    requires Truthful(s, l) && Enabled(s, step) && !step.Deliver? && !step.WriteOutcome?
    ensures FinishedIsEarned(Next(s, step), Recorded(s, step, l))
  {
    var t := Next(s, step);
    assert t.executions == s.executions;
    assert forall id | id in t.runs && t.runs[id].status == Finished :: id in s.runs && s.runs[id].status == Finished;
  }

  lemma StepKeepsFinishedEarned(s: State, step: Step, l: Ledger)
    requires Truthful(s, l) && Enabled(s, step)
    ensures FinishedIsEarned(Next(s, step), Recorded(s, step, l))
  {
    if step.Deliver? {
      DeliveryKeepsFinishedEarned(s, step, l);
    } else if step.WriteOutcome? {
      WriteKeepsFinishedEarned(s, step, l);
    } else {
      OtherStepKeepsFinishedEarned(s, step, l);
    }
  }

  lemma StepKeepsOwners(s: State, step: Step, l: Ledger)
    requires Truthful(s, l) && Enabled(s, step)
    ensures RunsAreOwned(Next(s, step), Recorded(s, step, l))
  {
  }

  lemma StepKeepsTruthful(s: State, step: Step, l: Ledger)
    requires Truthful(s, l) && Enabled(s, step)
    ensures Truthful(Next(s, step), Recorded(s, step, l))
  {
    StepKeepsOnceInv(s, step);
    StepRecordsWorkers(s, step, l);
    StepKeepsFinishedEarned(s, step, l);
    StepKeepsOwners(s, step, l);
  }

  lemma {:induction false} TruthfulAlways(s: State, steps: seq<Step>, l: Ledger)
    requires Truthful(s, l) && ValidTrace(s, steps)
    ensures Truthful(RunSteps(s, steps), History(s, steps, l))
    decreases |steps|
  {
    if steps != [] {
      StepKeepsTruthful(s, steps[0], l);
      TruthfulAlways(Next(s, steps[0]), steps[1..], Recorded(s, steps[0], l));
    }
  }

  /** A delivery gives the run to a worker, and later that worker's execution ends so. */
  predicate EndsSo(steps: seq<Step>, id: int, success: bool, claim: nat, end: nat, w: int) {
    claim < end < |steps| && steps[claim] == Deliver(id, w, true) && steps[end] == EndExecution(w, success)
  }

  /** Where in the steps an entry of the ledger comes from, if not from the ledger before; -1 stands for before. */
  lemma {:induction false} EntryComesFromTrace(s: State, steps: seq<Step>, l: Ledger, id: int)
    returns (claim: int, end: int, w: int)
    requires ValidTrace(s, steps) && id in History(s, steps, l).ended
    ensures var success := History(s, steps, l).ended[id];
            if end == -1 then id in l.ended && l.ended[id] == success
            else
              && -1 <= claim < end < |steps| && steps[end] == EndExecution(w, success)
              && if claim == -1 then w in l.executing && l.executing[w] == id else steps[claim] == Deliver(id, w, true)
    decreases |steps|
  {
    claim, end, w := -1, -1, 0;
    if steps != [] {
      var step, rest, m := steps[0], steps[1..], Recorded(s, steps[0], l);
      assert History(s, steps, l) == History(Next(s, step), rest, m);
      claim, end, w := EntryComesFromTrace(Next(s, step), rest, m, id);
      if end >= 0 {
        assert steps[end + 1] == rest[end];
        end := end + 1;
        if claim >= 0 {
          assert steps[claim + 1] == rest[claim];
          claim := claim + 1;
        } else if w !in l.executing || l.executing[w] != id {
          claim := 0;
        }
      } else if step.EndExecution? && step.executor in l.executing && l.executing[step.executor] == id {
        claim, end, w := -1, 0, step.executor;
      }
    }
  }

  /**
   FINISHED is earned: over every history, overlapping deliveries included, a run has this
   status only if a worker that was given the run reported success, and never if one reported
   failure; and each run belongs to the transfer it was started for, which still exists.
   */
  lemma FinishedMeansSuccess(s: State, steps: seq<Step>, id: int)
    requires Initial(s) && ValidTrace(s, steps) && id in RunSteps(s, steps).runs
    ensures var t, l := RunSteps(s, steps), History(s, steps, Empty());
            && (t.runs[id].status == Finished ==>
                id in l.ended && l.ended[id] && exists claim, end, w :: EndsSo(steps, id, true, claim, end, w))
            && (id in l.ended && !l.ended[id] ==> t.runs[id].status != Finished)
            && id in l.owner && t.runs[id].transferId == l.owner[id] && l.owner[id] in t.transfers
  {
    var t := RunSteps(s, steps);
    TruthfulAlways(s, steps, Empty());
    if t.runs[id].status == Finished {
      var claim, end, w := EntryComesFromTrace(s, steps, Empty(), id);
      assert EndsSo(steps, id, true, claim, end, w);
    }
  }

  // ---------------------------------------------------------------------------
  // Without overlapping deliveries
  // ---------------------------------------------------------------------------

  /** A written outcome stays, with both timestamps. */
  ghost predicate OutcomesStand(s: State, l: Ledger) {
    forall id | id in l.written && id in s.runs :: OutcomeStands(s.runs[id], id, l)
  }

  predicate OutcomeStands(run: Run, id: int, l: Ledger) {
    && id in l.ended && run.status == StatusFor(l.ended[id])
    && run.startedAt.Some? && run.endedAt.Some?
  }

  /** A run whose message the broker refused is FAILED, and no message of it exists. */
  ghost predicate RefusalsStand(s: State, l: Ledger) {
    forall id | id in l.rejected ::
      && id in s.used && id !in s.queued && id !in s.senders && s.executions[id] == 0
      && (id in s.runs ==> s.runs[id].status == Failed)
  }

  lemma WriteKeepsOutcomes(s: State, step: Step, l: Ledger)
    requires Inv(s) && Truthful(s, l) && OutcomesStand(s, l) && Enabled(s, step) && step.WriteOutcome?
    ensures OutcomesStand(Next(s, step), Recorded(s, step, l))
  {
    var worker, t, m := s.workers[step.writer], Next(s, step), Recorded(s, step, l);
    assert WorkerOk(s, worker) && (step.writer in l.executing <==> IsClaimed(worker));
    forall id | id in m.written && id in t.runs
      ensures OutcomeStands(t.runs[id], id, m)
    {
      assert RowOk(s.runs[id], s.executions[id], s.now);
      if id != worker.run {
        assert t.runs[id] == s.runs[id];
      } else if !IsClaimed(worker) {
        assert id in l.ended && s.executions[id] == 1;
      }
    }
  }

  lemma OtherStepKeepsOutcomes(s: State, step: Step, l: Ledger)
    requires Inv(s) && Truthful(s, l) && OutcomesStand(s, l) && Enabled(s, step) && !step.WriteOutcome?
    ensures OutcomesStand(Next(s, step), Recorded(s, step, l))
  {
    var t, m := Next(s, step), Recorded(s, step, l);
    assert m.written == l.written;
    forall id | id in m.written && id in t.runs
      ensures OutcomeStands(t.runs[id], id, m)
    {
      WrittenRunIsKept(s, step, l, id);
    }
  }

  lemma WrittenRunIsKept(s: State, step: Step, l: Ledger, id: int)
    requires Inv(s) && Truthful(s, l) && OutcomesStand(s, l) && Enabled(s, step) && !step.WriteOutcome?
    requires id in l.written && id in Next(s, step).runs
    ensures id in s.runs && Next(s, step).runs[id] == s.runs[id]
    ensures id in Recorded(s, step, l).ended && Recorded(s, step, l).ended[id] == l.ended[id]
  {
    assert id in l.ended && s.executions[id] == 1;
    assert id in s.runs ==> OutcomeStands(s.runs[id], id, l);
  }

  lemma StepKeepsRefusals(s: State, step: Step, l: Ledger)
    requires Inv(s) && RefusalsStand(s, l) && Enabled(s, step)
    ensures RefusalsStand(Next(s, step), Recorded(s, step, l))
  {
    if step.WriteOutcome? {
      assert WorkerOk(s, s.workers[step.writer]);
    }
  }

  lemma StepKeepsOutcomes(s: State, step: Step, l: Ledger)
    requires Inv(s) && Truthful(s, l) && OutcomesStand(s, l) && RefusalsStand(s, l) && Enabled(s, step)
    ensures OutcomesStand(Next(s, step), Recorded(s, step, l)) && RefusalsStand(Next(s, step), Recorded(s, step, l))
  {
    if step.WriteOutcome? {
      WriteKeepsOutcomes(s, step, l);
    } else {
      OtherStepKeepsOutcomes(s, step, l);
    }
    StepKeepsRefusals(s, step, l);
  }

  lemma {:induction false} OutcomesAlways(s: State, steps: seq<Step>, l: Ledger)
    requires Inv(s) && Truthful(s, l) && ValidTrace(s, steps) && NoOverlap(s, steps)
    requires OutcomesStand(s, l) && RefusalsStand(s, l)
    ensures OutcomesStand(RunSteps(s, steps), History(s, steps, l))
    ensures RefusalsStand(RunSteps(s, steps), History(s, steps, l))
    decreases |steps|
  {
    if steps != [] {
      StepKeepsInv(s, steps[0]);
      StepKeepsTruthful(s, steps[0], l);
      StepKeepsOutcomes(s, steps[0], l);
      OutcomesAlways(Next(s, steps[0]), steps[1..], Recorded(s, steps[0], l));
    }
  }

  /**
   Once the claiming worker has written its outcome, the run, if it still exists, is FINISHED
   if its execution succeeded and FAILED if not, for ever, and both timestamps are set. A run
   whose message the broker refused is FAILED and never executed.
   */
  lemma OutcomeDecidesStatus(s: State, steps: seq<Step>, id: int)
    requires Initial(s) && ValidTrace(s, steps) && NoOverlap(s, steps) && id in RunSteps(s, steps).runs
    ensures var t, l := RunSteps(s, steps), History(s, steps, Empty());
            && (id in l.written ==>
                && id in l.ended && (t.runs[id].status == Finished <==> l.ended[id])
                && t.runs[id].status == StatusFor(l.ended[id])
                && t.runs[id].startedAt.Some? && t.runs[id].endedAt.Some?)
            && (id in l.rejected ==> t.runs[id].status == Failed && t.executions[id] == 0)
  {
    TruthfulAlways(s, steps, Empty());
    OutcomesAlways(s, steps, Empty());
  }

  // ---------------------------------------------------------------------------
  // Stopping
  // ---------------------------------------------------------------------------

  /** A stop takes effect exactly on runs that have not got past STARTED, and touches no other run. */
  lemma StopTakesEffect(s: State, id: int)
    requires id in s.runs
    ensures var t := Next(s, StopRun(id));
            && t.runs.Keys == s.runs.Keys
            && (forall other | other in s.runs && other != id :: t.runs[other] == s.runs[other])
            && (if Rank(s.runs[id].status) <= 1 then t.runs[id] == s.runs[id].(status := SendStopSignal)
                else t.runs[id] == s.runs[id])
  {
  }

  /** A stop that comes before the claim: no later delivery executes the run. */
  lemma StopBeforeClaimTakesEffect(s: State, id: int, steps: seq<Step>)
    requires OnceInv(s) && id in s.runs && s.runs[id].status == Created
    requires ValidTrace(Next(s, StopRun(id)), steps)
    ensures RunSteps(Next(s, StopRun(id)), steps).executions[id] == 0
  {
    StepKeepsOnceInv(s, StopRun(id));
    StoppedBeforeClaimNeverExecutes(Next(s, StopRun(id)), steps, id);
  }

  // ---------------------------------------------------------------------------
  // The life of one run
  // ---------------------------------------------------------------------------

  /** The steps of a run that nothing interferes with. */
  function Life(id: int, transfer: int, w: int, success: bool, elapsed: nat): seq<Step> {
    [StartRun(id, transfer), SendAccepted(id),
     Deliver(id, w, true), Tick(elapsed), EndExecution(w, success), WriteOutcome(w)]
  }

  lemma FirstStep(s: State, steps: seq<Step>)
    requires steps != [] && Enabled(s, steps[0])
    ensures ValidTrace(s, steps) <==> ValidTrace(Next(s, steps[0]), steps[1..])
    ensures ValidTrace(s, steps) ==> RunSteps(s, steps) == RunSteps(Next(s, steps[0]), steps[1..])
  {
  }

  /** From a delivery to the written outcome. */
  lemma ExecutionTakesItsCourse(s: State, id: int, w: int, success: bool, elapsed: nat)
    requires id in s.queued && w !in s.workers && id in s.runs && s.runs[id].status == Created
    ensures var steps := [Deliver(id, w, true), Tick(elapsed), EndExecution(w, success), WriteOutcome(w)];
            && ValidTrace(s, steps)
            && var t := RunSteps(s, steps);
               && id in t.runs && w !in t.workers && t.executions[id] == s.executions[id] + 1
               && t.runs[id] ==
                    Run(s.runs[id].transferId, StatusFor(success), Some(s.now), Some(s.now + elapsed))
  {
    var steps := [Deliver(id, w, true), Tick(elapsed), EndExecution(w, success), WriteOutcome(w)];
    var s1 := Next(s, steps[0]);
    var s2 := Next(s1, steps[1]);
    var s3 := Next(s2, steps[2]);
    var s4 := Next(s3, steps[3]);
    FirstStep(s3, steps[3..]);
    FirstStep(s2, steps[2..]);
    FirstStep(s1, steps[1..]);
    FirstStep(s, steps);
    assert steps[3..][1..] == [] && steps[2..][1..] == steps[3..] && steps[1..][1..] == steps[2..];
    assert RunSteps(s4, []) == s4;
  }

  /** Started, sent, delivered and executed, a run ends as its execution did, with the times of claim and outcome. */
  lemma LifeOfARun(s: State, id: int, transfer: int, w: int, success: bool, elapsed: nat)
    requires id !in s.used && transfer in s.transfers && w !in s.workers
    ensures var steps := Life(id, transfer, w, success, elapsed);
            && ValidTrace(s, steps)
            && id in RunSteps(s, steps).runs
            && RunSteps(s, steps).runs[id] == Run(transfer, StatusFor(success), Some(s.now), Some(s.now + elapsed))
  {
    var steps := Life(id, transfer, w, success, elapsed);
    var s1 := Next(s, steps[0]);
    var s2 := Next(s1, steps[1]);
    ExecutionTakesItsCourse(s2, id, w, success, elapsed);
    assert steps[2..] == [Deliver(id, w, true), Tick(elapsed), EndExecution(w, success), WriteOutcome(w)];
    FirstStep(s1, steps[1..]);
    FirstStep(s, steps);
    assert steps[1..][1..] == steps[2..];
  }

  /** A delivery that cannot prepare the run leaves it FAILED and unexecuted once it has written so. */
  lemma FailedPreparationIsWritten(s: State, id: int, w: int)
    requires id in s.queued && w !in s.workers && id in s.runs && s.runs[id].status == Created
    ensures var steps := [Deliver(id, w, false), WriteOutcome(w)];
            && ValidTrace(s, steps)
            && id in RunSteps(s, steps).runs && RunSteps(s, steps).runs[id].status == Failed
            && RunSteps(s, steps).executions == s.executions
  {
    var steps := [Deliver(id, w, false), WriteOutcome(w)];
    var s1 := Next(s, steps[0]);
    FirstStep(s1, steps[1..]);
    FirstStep(s, steps);
    assert steps[1..][1..] == [] && RunSteps(Next(s1, steps[1]), []) == Next(s1, steps[1]);
  }

  /** A run whose message is refused is marked FAILED, and its sender is done. */
  lemma RefusedSendIsWritten(s: State, id: int, transfer: int)
    requires id !in s.used && transfer in s.transfers
    ensures var steps := [StartRun(id, transfer), SendRejected(id), MarkRejected(id)];
            && ValidTrace(s, steps)
            && var t := RunSteps(s, steps);
               id !in t.senders && id in t.runs && t.runs[id] == Run(transfer, Failed, None, None)
  {
    var steps := [StartRun(id, transfer), SendRejected(id), MarkRejected(id)];
    var s1 := Next(s, steps[0]);
    var s2 := Next(s1, steps[1]);
    FirstStep(s2, steps[2..]);
    FirstStep(s1, steps[1..]);
    FirstStep(s, steps);
    assert steps[2..][1..] == [] && steps[1..][1..] == steps[2..];
    assert RunSteps(Next(s2, steps[2]), []) == Next(s2, steps[2]);
  }

  lemma {:induction false} UnsentStaysUnsent(s: State, steps: seq<Step>, id: int)
    requires id in s.used && id !in s.senders && id !in s.queued && ValidTrace(s, steps)
    ensures var t := RunSteps(s, steps);
            id !in t.senders && id !in t.queued && t.executions[id] == s.executions[id]
    decreases |steps|
  {
    if steps != [] {
      UnsentStaysUnsent(Next(s, steps[0]), steps[1..], id);
    }
  }

  /** A run whose sender crashes before the broker has the message is never executed. */
  lemma CrashedSenderNeverExecutes(s: State, id: int, steps: seq<Step>)
    requires Inv(s) && id in s.senders && ValidTrace(Next(s, SenderCrash(id)), steps)
    ensures RunSteps(Next(s, SenderCrash(id)), steps).executions[id] == 0
  {
    UnsentStaysUnsent(Next(s, SenderCrash(id)), steps, id);
  }

  /** After its transfer is deleted no run of it is left, and none is ever started again. */
  lemma DeletedTransferHasNoRuns(s: State, transfer: int, steps: seq<Step>, l: Ledger)
    requires Truthful(s, l) && transfer in s.transfers && ValidTrace(Next(s, DeleteTransfer(transfer)), steps)
    ensures var t := RunSteps(Next(s, DeleteTransfer(transfer)), steps);
            transfer !in t.transfers && forall id | id in t.runs :: t.runs[id].transferId != transfer
  {
    var deleted := Next(s, DeleteTransfer(transfer));
    StepKeepsTruthful(s, DeleteTransfer(transfer), l);
    TruthfulAlways(deleted, steps, l);
    TransfersOnlyGo(deleted, steps, transfer);
  }

  lemma {:induction false} TransfersOnlyGo(s: State, steps: seq<Step>, transfer: int)
    requires transfer !in s.transfers && ValidTrace(s, steps)
    ensures transfer !in RunSteps(s, steps).transfers
    decreases |steps|
  {
    if steps != [] {
      TransfersOnlyGo(Next(s, steps[0]), steps[1..], transfer);
    }
  }
}
