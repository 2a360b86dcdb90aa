/**
 The life of a run, shared by the server or scheduler that creates it, the broker that
 carries its message and the workers that execute it.

 `RunTable` holds the transactions that touch a run's row. `RunProtocol` interleaves them
 with sending, redelivery, crashes and deletions.
 */
module Runs {
  import opened Wrappers
  import opened Collections

  datatype Status = Created | Started | Failed | SendStopSignal | Stopped | Finished

  datatype Run = Run(transferId: int, status: Status, startedAt: Option<int>, endedAt: Option<int>)

  datatype RunError = RunNotFound | CannotStopRun(current: Status)

  type Runs = map<int, Run>

  /** How a delivered message ends its first transaction. */
  datatype ClaimOutcome = NothingToDo | PreparationFailed | Claimed

  function WithStatus(runs: Runs, id: int, status: Status): Runs {
    if id in runs then runs[id := runs[id].(status := status)] else runs
  }

  predicate Stoppable(status: Status) {
    status == Created || status == Started
  }

  function WithStop(runs: Runs, id: int): Runs {
    if id in runs && Stoppable(runs[id].status) then WithStatus(runs, id, SendStopSignal) else runs
  }

  predicate Claimable(runs: Runs, id: int) {
    id in runs && runs[id].status == Created
  }

  function WithClaim(runs: Runs, id: int, now: int): Runs
    requires Claimable(runs, id)
  {
    runs[id := runs[id].(status := Started, startedAt := Some(now))]
  }

  function WithConclusion(runs: Runs, id: int, outcome: Status, now: int): Runs {
    if id in runs then runs[id := runs[id].(status := outcome, endedAt := Some(now))] else runs
  }

  function WithoutTransfer(runs: Runs, transferId: int): Runs {
    map id | id in runs && runs[id].transferId != transferId :: runs[id]
  }

  class RunTable {
    var runs: Runs

    /** The identifier is new; no other run is touched. */
    method Create(id: int, transferId: int)
      requires id !in runs
      modifies this
      ensures forall other :: other in runs <==> other in old(runs) || other == id
      ensures forall other | other in old(runs) :: runs[other] == old(runs)[other]
      ensures runs[id].transferId == transferId && runs[id].status.Created?
      ensures runs[id].startedAt.None? && runs[id].endedAt.None? && Claimable(runs, id)
    {
      var run := Run(transferId, Created, None, None);
      runs := runs[id := run];
    }

    method UpdateStatus(id: int, status: Status) returns (r: Result<Run, RunError>)
      modifies this
      ensures runs == WithStatus(old(runs), id, status)
      ensures r == if id in runs then Ok(runs[id]) else Err(RunNotFound)
    {
      if id !in runs {
        return Err(RunNotFound);
      }
      runs := runs[id := runs[id].(status := status)];
      return Ok(runs[id]);
    }

    method Stop(id: int) returns (r: Result<Run, RunError>)
      modifies this
      ensures runs == WithStop(old(runs), id)
      ensures r == if id !in old(runs) then Err(RunNotFound)
                   else if !Stoppable(old(runs)[id].status) then Err(CannotStopRun(old(runs)[id].status))
                   else Ok(runs[id])
    {
      if id !in runs {
        return Err(RunNotFound);
      }
      var run := runs[id];
      if run.status != Created && run.status != Started {
        return Err(CannotStopRun(run.status));
      }
      run := run.(status := SendStopSignal);
      runs := runs[id := run];
      return Ok(run);
    }

    /**
     The first transaction of a worker; `prepared` says whether reading credentials and rendering
     the log URL succeed.
     */
    method Claim(id: int, prepared: bool, now: int) returns (outcome: ClaimOutcome)
      modifies this
      ensures outcome == if !Claimable(old(runs), id) then NothingToDo
                         else if prepared then Claimed else PreparationFailed
      ensures runs == if outcome.Claimed? then WithClaim(old(runs), id, now) else old(runs)
    {
      if id !in runs || runs[id].status != Created {
        return NothingToDo;
      }
      if !prepared {
        return PreparationFailed;
      }
      var run := runs[id];
      run := run.(status := Started);
      run := run.(startedAt := Some(now));
      runs := runs[id := run];
      return Claimed;
    }

    /** The last transaction of a worker: it writes whatever it finds, and skips a deleted run. */
    method Conclude(id: int, outcome: Status, now: int)
      modifies this
      ensures runs == WithConclusion(old(runs), id, outcome, now)
    {
      if id in runs {
        var run := runs[id];
        run := run.(status := outcome);
        run := run.(endedAt := Some(now));
        runs := runs[id := run];
      }
    }

    /** Deleting a transfer cascades to its runs, row by row: exactly those go, and the others stay as they are. */
    method DeleteTransfer(transferId: int)
      modifies this
      ensures forall id :: id in runs <==> id in old(runs) && old(runs)[id].transferId != transferId
      ensures forall id | id in runs :: runs[id] == old(runs)[id]
    {
      var rest := runs.Keys;
      while rest != {}
        invariant rest <= runs.Keys
        invariant forall id :: id in runs <==> id in old(runs) && (id in rest || old(runs)[id].transferId != transferId)
        invariant forall id | id in runs :: runs[id] == old(runs)[id]
        decreases rest
      {
        var id := PickOne(rest);
        rest := rest - {id};
        if runs[id].transferId == transferId {
          runs := runs - {id};
        }
      }
    }
  }

  /** What the specification of a deletion says row by row. */
  lemma WithoutTransferIs(runs: Runs, left: Runs, transferId: int)
    requires forall id | id in left :: id in runs && left[id] == runs[id]
    ensures left == WithoutTransfer(runs, transferId) <==>
            forall id :: id in left <==> id in runs && runs[id].transferId != transferId
  {
    var spec := WithoutTransfer(runs, transferId);
    if forall id :: id in left <==> id in runs && runs[id].transferId != transferId {
      assert forall id | id in left :: id in spec && left[id] == spec[id];
      assert forall id | id in spec :: id in left;
      SameMap(left, spec);
    }
  }
}

module RunProtocol {
  import opened Wrappers
  import opened Collections
  import opened Runs

  /** A sender between committing the run and learning what became of its message. */
  datatype Sender = Sending | Rejected

  /** A worker that still has something to write; `claimed` tells whether it is the one that started the run. */
  datatype Worker =
    | Executing(run: int)
    | Concluding(run: int, outcome: Status, claimed: bool)

  predicate IsClaimed(worker: Worker) {
    worker.Executing? || worker.claimed
  }

  /**
   `queued` are the runs whose message the broker has: it may deliver each any number of
   times. `executions` counts, per run, how often a worker went on to execute it.
   */
  datatype State = State(
    transfers: set<int>, runs: Runs, used: set<int>,
    senders: map<int, Sender>, queued: set<int>,
    workers: map<int, Worker>, executions: multiset<int>, now: int)

  datatype Step =
    | StartRun(newRun: int, transfer: int)
    | SendAccepted(accepted: int)
    | SendRejected(rejected: int)
    | MarkRejected(marked: int)
    | SenderCrash(abandoned: int)
    | StopRun(stopped: int)
    | Deliver(run: int, worker: int, prepared: bool)
    | EndExecution(executor: int, success: bool)
    | WriteOutcome(writer: int)
    | WorkerCrash(crashed: int)
    | DeleteTransfer(deleted: int)
    | Tick(elapsed: nat)

  predicate Enabled(s: State, step: Step) {
    match step
    case StartRun(id, transfer) => id !in s.used && transfer in s.transfers
    case SendAccepted(id) => id in s.senders && s.senders[id].Sending?
    case SendRejected(id) => id in s.senders && s.senders[id].Sending?
    case MarkRejected(id) => id in s.senders && s.senders[id].Rejected?
    case SenderCrash(id) => id in s.senders
    case StopRun(id) => true
    case Deliver(id, w, _) => id in s.queued && w !in s.workers
    case EndExecution(w, _) => w in s.workers && s.workers[w].Executing?
    case WriteOutcome(w) => w in s.workers && s.workers[w].Concluding?
    case WorkerCrash(w) => w in s.workers
    case DeleteTransfer(transfer) => transfer in s.transfers
    case Tick(_) => true
  }

  function Next(s: State, step: Step): State
    requires Enabled(s, step)
  {
    match step
    case StartRun(id, transfer) =>
      s.(runs := s.runs[id := Run(transfer, Created, None, None)],
         used := s.used + {id}, senders := s.senders[id := Sending])
    case SendAccepted(id) => s.(senders := s.senders - {id}, queued := s.queued + {id})
    case SendRejected(id) => s.(senders := s.senders[id := Rejected])
    case MarkRejected(id) => s.(senders := s.senders - {id}, runs := WithStatus(s.runs, id, Failed))
    case SenderCrash(id) => s.(senders := s.senders - {id})
    case StopRun(id) => s.(runs := WithStop(s.runs, id))
    case Deliver(id, w, prepared) =>
      if !Claimable(s.runs, id) then s
      else if prepared then
        s.(runs := WithClaim(s.runs, id, s.now), workers := s.workers[w := Executing(id)],
           executions := s.executions + multiset{id})
      else s.(workers := s.workers[w := Concluding(id, Failed, false)])
    case EndExecution(w, success) =>
      s.(workers := s.workers[w := Concluding(s.workers[w].run, if success then Finished else Failed, true)])
    case WriteOutcome(w) =>
      s.(workers := s.workers - {w}, runs := WithConclusion(s.runs, s.workers[w].run, s.workers[w].outcome, s.now))
    case WorkerCrash(w) => s.(workers := s.workers - {w})
    case DeleteTransfer(transfer) =>
      s.(transfers := s.transfers - {transfer}, runs := WithoutTransfer(s.runs, transfer))
    case Tick(elapsed) => s.(now := s.now + elapsed)
  }

  predicate ValidTrace(s: State, steps: seq<Step>)
    decreases |steps|
  {
    steps != [] ==> Enabled(s, steps[0]) && ValidTrace(Next(s, steps[0]), steps[1..])
  }

  function RunSteps(s: State, steps: seq<Step>): State
    requires ValidTrace(s, steps)
    decreases |steps|
  {
    if steps == [] then s else RunSteps(Next(s, steps[0]), steps[1..])
  }

  predicate Initial(s: State) {
    && s.runs == map[] && s.used == {} && s.senders == map[] && s.queued == {}
    && s.workers == map[] && s.executions == multiset{}
  }

  function Rank(status: Status): nat {
    match status
    case Created => 0
    case Started => 1
    case SendStopSignal => 2
    case Stopped => 2
    case Failed => 3
    case Finished => 3
  }

  predicate Terminal(status: Status) {
    status == Failed || status == Finished
  }

  // ---------------------------------------------------------------------------
  // Executed at most once: no assumption on overlapping deliveries
  // ---------------------------------------------------------------------------

  ghost predicate OnceInv(s: State) {
    && s.runs.Keys <= s.used
    && (forall w | w in s.workers && s.workers[w].Concluding? :: Terminal(s.workers[w].outcome))
    && forall id :: s.executions[id] <= 1
                 && (s.executions[id] == 1 ==> id in s.used && (id in s.runs ==> Rank(s.runs[id].status) >= 1))
  }

  lemma StepKeepsOnceInv(s: State, step: Step)
    requires OnceInv(s) && Enabled(s, step)
    ensures OnceInv(Next(s, step))
  {
  }

  lemma {:induction false} ExecutedAtMostOnce(s: State, steps: seq<Step>, id: int)
    requires OnceInv(s) && ValidTrace(s, steps)
    ensures RunSteps(s, steps).executions[id] <= 1
    decreases |steps|
  {
    if steps != [] {
      StepKeepsOnceInv(s, steps[0]);
      ExecutedAtMostOnce(Next(s, steps[0]), steps[1..], id);
    }
  }

  /** A run that is stopped, failed or deleted before any worker claimed it is never executed. */
  lemma {:induction false} StoppedBeforeClaimNeverExecutes(s: State, steps: seq<Step>, id: int)
    requires OnceInv(s) && ValidTrace(s, steps)
    requires id in s.used && s.executions[id] == 0
    requires id in s.runs ==> Rank(s.runs[id].status) >= 1
    ensures RunSteps(s, steps).executions[id] == 0
    decreases |steps|
  {
    if steps != [] {
      var t := Next(s, steps[0]);
      StepKeepsOnceInv(s, steps[0]);
      assert t.executions[id] == 0;
      StoppedBeforeClaimNeverExecutes(t, steps[1..], id);
    }
  }

  // ---------------------------------------------------------------------------
  // Final statuses are final
  // ---------------------------------------------------------------------------

  /** A worker that could not prepare this run has not yet written so. */
  ghost predicate PendingFailure(s: State, id: int) {
    exists w :: w in s.workers && s.workers[w].run == id && !IsClaimed(s.workers[w])
  }

  /** A delivery that would start a run while an earlier delivery's failure to prepare it is still unwritten. */
  ghost predicate Overlapping(s: State, step: Step) {
    step.Deliver? && step.prepared && Claimable(s.runs, step.run) && PendingFailure(s, step.run)
  }

  ghost predicate NoOverlap(s: State, steps: seq<Step>)
    requires ValidTrace(s, steps)
    decreases |steps|
  {
    steps != [] ==> !Overlapping(s, steps[0]) && NoOverlap(Next(s, steps[0]), steps[1..])
  }

  /** One row, against the clock and the number of executions of the run. */
  predicate RowOk(run: Run, executions: nat, now: int) {
    && run.status != Stopped
    && (run.startedAt.Some? <==> executions == 1)
    && (run.status == Created ==> executions == 0)
    && (run.status == Started ==> executions == 1)
    && (run.startedAt.Some? ==> run.startedAt.value <= now)
    && (run.status == Finished ==>
          run.startedAt.Some? && run.endedAt.Some? && run.startedAt.value <= run.endedAt.value <= now)
  }

  /** A worker that has still to write, against the row it will write to. */
  predicate WorkerOk(s: State, worker: Worker) {
    && worker.run in s.queued
    && s.executions[worker.run] == (if IsClaimed(worker) then 1 else 0)
    && (worker.Concluding? ==> Terminal(worker.outcome) && (!worker.claimed ==> worker.outcome == Failed))
    && (worker.run in s.runs ==>
          if IsClaimed(worker) then !Terminal(s.runs[worker.run].status) else s.runs[worker.run].status != Finished)
  }

  ghost predicate RowsOk(s: State) {
    forall id | id in s.runs :: RowOk(s.runs[id], s.executions[id], s.now)
  }

  /** While a run has a sender, no message of it exists. */
  ghost predicate SendersOk(s: State) {
    && s.senders.Keys + s.queued <= s.used && s.senders.Keys !! s.queued
    && (forall id | id in s.senders :: s.executions[id] == 0 && (id in s.runs ==> !Terminal(s.runs[id].status)))
    && forall id | s.executions[id] == 1 :: id in s.queued
  }

  ghost predicate WorkersOk(s: State) {
    && (forall w | w in s.workers :: WorkerOk(s, s.workers[w]))
    && forall v, w | v in s.workers && w in s.workers && v != w && IsClaimed(s.workers[v]) && IsClaimed(s.workers[w]) ::
         s.workers[v].run != s.workers[w].run
  }

  ghost predicate Inv(s: State) {
    OnceInv(s) && RowsOk(s) && SendersOk(s) && WorkersOk(s)
  }

  /** Between two states: no run goes back in rank or leaves a terminal status, and a deleted run stays deleted. */
  ghost predicate Forward(s: State, t: State) {
    && (forall id | id in s.runs && id in t.runs ::
          Rank(s.runs[id].status) <= Rank(t.runs[id].status) &&
          (Terminal(s.runs[id].status) ==> t.runs[id].status == s.runs[id].status))
    && s.used <= t.used
    && forall id | id in s.used && id !in s.runs :: id !in t.runs
  }

  lemma StepKeepsInv(s: State, step: Step)
    requires Inv(s) && Enabled(s, step) && !Overlapping(s, step)
    ensures Inv(Next(s, step)) && Forward(s, Next(s, step))
  {
    StepKeepsOnceInv(s, step);
    StepKeepsRows(s, step);
    StepKeepsSenders(s, step);
    StepKeepsWorkers(s, step);
  }

  lemma StepKeepsRows(s: State, step: Step)
    requires Inv(s) && Enabled(s, step)
    ensures RowsOk(Next(s, step))
    ensures !Overlapping(s, step) ==> Forward(s, Next(s, step))
  {
    if step.Deliver? {
      DeliverKeepsRows(s, step);
    } else if step.WriteOutcome? {
      WriteKeepsRows(s, step);
    } else {
      OtherStepKeepsRows(s, step);
    }
  }

  lemma DeliverKeepsRows(s: State, step: Step)
    requires Inv(s) && Enabled(s, step) && step.Deliver?
    ensures RowsOk(Next(s, step)) && Forward(s, Next(s, step))
  {
    if Claimable(s.runs, step.run) {
      assert RowOk(s.runs[step.run], s.executions[step.run], s.now);
    }
  }

  lemma WriteKeepsRows(s: State, step: Step)
    requires Inv(s) && Enabled(s, step) && step.WriteOutcome?
    ensures RowsOk(Next(s, step)) && Forward(s, Next(s, step))
  {
    var worker, t := s.workers[step.writer], Next(s, step);
    assert WorkerOk(s, worker);
    forall id | id in t.runs
      ensures RowOk(t.runs[id], t.executions[id], t.now)
    {
      assert RowOk(s.runs[id], s.executions[id], s.now);
    }
  }

  lemma OtherStepKeepsRows(s: State, step: Step)
    requires Inv(s) && Enabled(s, step) && !step.Deliver? && !step.WriteOutcome?
    ensures RowsOk(Next(s, step)) && Forward(s, Next(s, step))
  {
    var t := Next(s, step);
    assert t.executions == s.executions && t.now >= s.now;
    forall id | id in t.runs
      ensures RowOk(t.runs[id], t.executions[id], t.now)
    {
      if id in s.runs {
        assert RowOk(s.runs[id], s.executions[id], s.now);
      }
    }
  }

  lemma StepKeepsSenders(s: State, step: Step)
    requires Inv(s) && Enabled(s, step)
    ensures SendersOk(Next(s, step))
  {
    if step.WriteOutcome? {
      assert WorkerOk(s, s.workers[step.writer]);
    }
  }

  lemma StepKeepsWorkers(s: State, step: Step)
    requires Inv(s) && Enabled(s, step) && !Overlapping(s, step)
    ensures WorkersOk(Next(s, step))
  {
    if step.Deliver? {
      DeliverKeepsWorkers(s, step);
    } else if step.WriteOutcome? {
      WriteKeepsWorkers(s, step);
    } else {
      OtherStepKeepsWorkers(s, step);
    }
  }

  lemma DeliverKeepsWorkers(s: State, step: Step)
    requires Inv(s) && Enabled(s, step) && !Overlapping(s, step) && step.Deliver?
    ensures WorkersOk(Next(s, step))
  {
    var t, id := Next(s, step), step.run;
    if Claimable(s.runs, id) {
      assert RowOk(s.runs[id], s.executions[id], s.now);
      forall v | v in s.workers
        ensures WorkerOk(t, s.workers[v]) && (IsClaimed(s.workers[v]) ==> s.workers[v].run != id)
      {
        assert WorkerOk(s, s.workers[v]);
      }
    }
  }

  lemma WriteKeepsWorkers(s: State, step: Step)
    requires Inv(s) && Enabled(s, step) && step.WriteOutcome?
    ensures WorkersOk(Next(s, step))
  {
    var t := Next(s, step);
    assert WorkerOk(s, s.workers[step.writer]);
    forall w | w in t.workers
      ensures WorkerOk(t, t.workers[w])
    {
      assert WorkerOk(s, s.workers[w]);
    }
  }

  lemma OtherStepKeepsWorkers(s: State, step: Step)
    requires Inv(s) && Enabled(s, step) && !step.Deliver? && !step.WriteOutcome?
    ensures WorkersOk(Next(s, step))
  {
    var t := Next(s, step);
    assert t.executions == s.executions && s.queued <= t.queued;
    forall w | w in t.workers
      ensures WorkerOk(t, t.workers[w])
    {
      assert WorkerOk(s, s.workers[w]);
    }
  }

  /** Over a whole run of the system, from any state of the invariant. */
  lemma {:induction false} StatusesOnlyGoForward(s: State, steps: seq<Step>)
    requires Inv(s) && ValidTrace(s, steps) && NoOverlap(s, steps)
    ensures Inv(RunSteps(s, steps)) && Forward(s, RunSteps(s, steps))
    decreases |steps|
  {
    if steps != [] {
      var t := Next(s, steps[0]);
      StepKeepsInv(s, steps[0]);
      StatusesOnlyGoForward(t, steps[1..]);
    }
  }

  lemma InitialStateIsSafe(s: State, steps: seq<Step>, id: int)
    requires Initial(s) && ValidTrace(s, steps) && NoOverlap(s, steps)
    requires id in RunSteps(s, steps).runs
    ensures var run := RunSteps(s, steps).runs[id];
            run.status == Finished ==>
            run.startedAt.Some? && run.endedAt.Some? && run.startedAt.value <= run.endedAt.value
  {
    StatusesOnlyGoForward(s, steps);
  }

  /** How often the status of one run differs between two consecutive states. */
  function StatusChanges(s: State, steps: seq<Step>, id: int): nat
    requires ValidTrace(s, steps)
    decreases |steps|
  {
    if steps == [] then 0
    else
      var t := Next(s, steps[0]);
      (if id in s.runs && id in t.runs && s.runs[id].status != t.runs[id].status then 1 else 0)
        + StatusChanges(t, steps[1..], id)
  }

  lemma {:induction false} AtMostThreeChanges(s: State, steps: seq<Step>, id: int)
    requires Inv(s) && ValidTrace(s, steps) && NoOverlap(s, steps)
    ensures StatusChanges(s, steps, id) <= if id in s.runs then 3 - Rank(s.runs[id].status)
                                           else if id in s.used then 0 else 3
    decreases |steps|
  {
    if steps != [] {
      StepKeepsInv(s, steps[0]);
      AtMostThreeChanges(Next(s, steps[0]), steps[1..], id);
    }
  }

  /** Whatever happens next, provided it does not overlap again, no terminal status is left. */
  ghost predicate SafeFromNowOn(s: State) {
    forall before, after | ValidTrace(s, before + after) && NoOverlap(s, before + after) ::
      ValidTrace(s, before) && Forward(RunSteps(s, before), RunSteps(s, before + after))
  }

  lemma {:induction false} SplitTrace(s: State, before: seq<Step>, after: seq<Step>)
    requires ValidTrace(s, before + after)
    ensures ValidTrace(s, before) && ValidTrace(RunSteps(s, before), after)
    ensures RunSteps(s, before + after) == RunSteps(RunSteps(s, before), after)
    ensures NoOverlap(s, before + after) ==> NoOverlap(s, before) && NoOverlap(RunSteps(s, before), after)
    decreases |before|
  {
    if before == [] {
      assert before + after == after;
    } else {
      assert (before + after)[0] == before[0] && (before + after)[1..] == before[1..] + after;
      SplitTrace(Next(s, before[0]), before[1..], after);
    }
  }

  /**
   The history that undoes a finished run: the second delivery executes and finishes, then the
   first writes its failure.
   */
  function Clobbering(first: int, second: int): seq<Step> {
    [EndExecution(second, true), WriteOutcome(second), WriteOutcome(first)]
  }

  lemma ThreeSteps(s: State, a: Step, b: Step, c: Step)
    requires Enabled(s, a) && Enabled(Next(s, a), b) && Enabled(Next(Next(s, a), b), c)
    requires !a.Deliver? && !b.Deliver? && !c.Deliver?
    ensures ValidTrace(s, [a, b, c]) && NoOverlap(s, [a, b, c])
    ensures RunSteps(s, [a, b, c]) == Next(Next(Next(s, a), b), c)
    ensures ValidTrace(s, [a, b]) && RunSteps(s, [a, b]) == Next(Next(s, a), b)
  {
    var s1 := Next(s, a);
    var s2 := Next(s1, b);
    assert [a, b, c][1..] == [b, c] && [b, c][1..] == [c] && [c][1..] == [];
    assert [a, b][1..] == [b] && [b][1..] == [];
    assert ValidTrace(s2, [c]) && NoOverlap(s2, [c]) && RunSteps(s2, [c]) == RunSteps(Next(s2, c), []);
    assert ValidTrace(s1, [b, c]) && NoOverlap(s1, [b, c]) && RunSteps(s1, [b, c]) == RunSteps(s2, [c]);
    assert ValidTrace(s1, [b]) && RunSteps(s1, [b]) == RunSteps(s2, []);
  }

  lemma OverlapLosesFinished(s: State, id: int, second: int, first: int)
    requires Inv(s) && Enabled(s, Deliver(id, second, true)) && Claimable(s.runs, id)
    requires first in s.workers && s.workers[first].run == id && !IsClaimed(s.workers[first])
    ensures var t := Next(s, Deliver(id, second, true)); var steps := Clobbering(first, second);
            && ValidTrace(t, steps) && NoOverlap(t, steps)
            && ValidTrace(t, steps[..2])
            && id in RunSteps(t, steps[..2]).runs && RunSteps(t, steps[..2]).runs[id].status == Finished
            && id in RunSteps(t, steps).runs && RunSteps(t, steps).runs[id].status == Failed
  {
    var t := Next(s, Deliver(id, second, true));
    var steps := Clobbering(first, second);
    assert WorkerOk(s, s.workers[first]);
    var t1 := Next(t, steps[0]);
    assert id in t1.runs && first in t1.workers && t1.workers[first] == s.workers[first];
    var t2 := Next(t1, steps[1]);
    assert id in t2.runs && t2.runs[id].status == Finished && first in t2.workers;
    ThreeSteps(t, steps[0], steps[1], steps[2]);
    assert steps[..2] == [steps[0], steps[1]];
  }

  /**
   Exactly when starting a run is safe for ever: when no earlier delivery that failed to
   prepare the run has its failure still to write.
   */
  lemma ClaimIsSafeIffNotOverlapping(s: State, id: int, worker: int)
    requires Inv(s) && Enabled(s, Deliver(id, worker, true)) && Claimable(s.runs, id)
    ensures SafeFromNowOn(Next(s, Deliver(id, worker, true))) <==> !PendingFailure(s, id)
  {
    var t := Next(s, Deliver(id, worker, true));
    if PendingFailure(s, id) {
      var first :| first in s.workers && s.workers[first].run == id && !IsClaimed(s.workers[first]);
      OverlapLosesFinished(s, id, worker, first);
      var steps := Clobbering(first, worker);
      assert steps[..2] + steps[2..] == steps;
      assert !Forward(RunSteps(t, steps[..2]), RunSteps(t, steps[..2] + steps[2..]));
    } else {
      StepKeepsInv(s, Deliver(id, worker, true));
      forall before, after | ValidTrace(t, before + after) && NoOverlap(t, before + after)
        ensures ValidTrace(t, before) && Forward(RunSteps(t, before), RunSteps(t, before + after))
      {
        SplitTrace(t, before, after);
        StatusesOnlyGoForward(t, before);
        StatusesOnlyGoForward(RunSteps(t, before), after);
      }
    }
  }
}
