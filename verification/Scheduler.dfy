/**
 The scheduler keeps a persistent store of cron jobs in step with the transfer table,
 although each pass of its loop looks only at rows newer than a watermark.

 The first half is the code itself: a job manager, a fetcher and one pass of the loop.
 The second half interleaves the steps of a pass, one job at a time, with commits by the
 server and with restarts, and proves what holds in every reachable state.
 */
module Scheduler {
  import opened Wrappers
  import opened Collections

  /** The columns of a transfer that the scheduler reads. */
  datatype Row = Row(isScheduled: bool, schedule: string, updatedAt: int)

  datatype Fetched = Fetched(id: int, row: Row)

  /** A stored job: its cron trigger and the transfer it is called with. */
  datatype Job = Job(trigger: string, transferId: int)

  type Table = map<int, Row>
  type Jobs = map<int, Job>

  /** The filter of the fetch query: no watermark means every row. */
  predicate Newer(stamp: int, watermark: Option<int>) {
    watermark.Some? ==> stamp > watermark.value
  }

  /** The job store says about one transfer exactly what its row says. */
  predicate Matches(jobs: Jobs, id: int, row: Row) {
    if row.isScheduled then id in jobs && jobs[id] == Job(row.schedule, id) else id !in jobs
  }

  /** What a full comparison against the table would leave in the job store. */
  function Ideal(table: Table): Jobs {
    map id | id in table && table[id].isScheduled :: Job(table[id].schedule, id)
  }

  ghost predicate AgreesUpTo(table: Table, jobs: Jobs, watermark: Option<int>) {
    forall id | id in table && !Newer(table[id].updatedAt, watermark) :: Matches(jobs, id, table[id])
  }

  function ApplyRow(jobs: Jobs, id: int, row: Row): Jobs {
    if row.isScheduled then jobs[id := Job(row.schedule, id)] else jobs - {id}
  }

  function ApplyAll(jobs: Jobs, transfers: seq<Fetched>): Jobs {
    if transfers == [] then jobs
    else
      var last := transfers[|transfers| - 1];
      ApplyRow(ApplyAll(jobs, transfers[..|transfers| - 1]), last.id, last.row)
  }

  ghost predicate DistinctIds(transfers: seq<Fetched>) {
    forall i, j | 0 <= i < j < |transfers| :: transfers[i].id != transfers[j].id
  }

  /** After a batch, every transfer of the batch has its own row's job and no other job has changed. */
  lemma {:induction false} ApplyAllIsExact(jobs: Jobs, transfers: seq<Fetched>)
    requires DistinctIds(transfers)
    ensures forall i | 0 <= i < |transfers| :: Matches(ApplyAll(jobs, transfers), transfers[i].id, transfers[i].row)
    ensures forall id | (forall i | 0 <= i < |transfers| :: transfers[i].id != id) ::
              (id in ApplyAll(jobs, transfers) <==> id in jobs) &&
              (id in jobs ==> ApplyAll(jobs, transfers)[id] == jobs[id])
  {
    if transfers != [] {
      ApplyAllIsExact(jobs, transfers[..|transfers| - 1]);
    }
  }

  ghost predicate NoOrphans(jobs: Jobs, table: Table) {
    forall id | id in jobs :: id in table
  }

  function WithoutOrphans(jobs: Jobs, table: Table): Jobs {
    map id | id in jobs && id in table :: jobs[id]
  }

  class TransferJobManager {
    var jobs: Jobs

    method UpdateJobs(transfers: seq<Fetched>)
      modifies this
      ensures jobs == ApplyAll(old(jobs), transfers)
    {
      for k := 0 to |transfers|
        invariant jobs == ApplyAll(old(jobs), transfers[..k])
      {
        assert transfers[..k + 1][..k] == transfers[..k];
        var id, row := transfers[k].id, transfers[k].row;
        var hasJob := id in jobs;
        if !row.isScheduled {
          if hasJob {
            jobs := jobs - {id};
          }
        } else if hasJob {
          jobs := jobs[id := jobs[id].(trigger := row.schedule, transferId := id)];
        } else {
          jobs := jobs[id := Job(row.schedule, id)];
        }
      }
      assert transfers[..|transfers|] == transfers;
    }

    method RemoveOrphanJobs(table: Table)
      modifies this
      ensures jobs == WithoutOrphans(old(jobs), table)
    {
      var missing := jobs.Keys - table.Keys;
      while missing != {}
        invariant forall id :: id in missing <==> id in jobs && id !in table
        invariant forall id | id in jobs :: id in old(jobs) && jobs[id] == old(jobs)[id]
        invariant forall id | id in old(jobs) && id in table :: id in jobs
        decreases missing
      {
        var id := PickOne(missing);
        jobs := jobs - {id};
        missing := missing - {id};
      }
      ghost var kept := WithoutOrphans(old(jobs), table);
      assert forall id | id in jobs :: id in table && id in kept && jobs[id] == kept[id];
      assert forall id | id in kept :: id in old(jobs) && id in table && id in jobs;
      SameMap(jobs, kept);
    }
  }

  class TransferFetcher {
    var lastUpdatedAt: Option<int>

    method FetchUpdatedJobs(table: Table) returns (transfers: seq<Fetched>)
      ensures DistinctIds(transfers)
      ensures forall i | 0 <= i < |transfers| ::
                transfers[i].id in table && transfers[i].row == table[transfers[i].id] &&
                Newer(transfers[i].row.updatedAt, lastUpdatedAt)
      ensures forall id | id in table && Newer(table[id].updatedAt, lastUpdatedAt) ::
                Fetched(id, table[id]) in transfers
    {
      transfers := [];
      var rest := table.Keys;
      while rest != {}
        invariant rest <= table.Keys
        invariant DistinctIds(transfers)
        invariant forall i | 0 <= i < |transfers| ::
                    transfers[i].id in table && transfers[i].id !in rest &&
                    transfers[i].row == table[transfers[i].id] &&
                    Newer(transfers[i].row.updatedAt, lastUpdatedAt)
        invariant forall id | id in table && id !in rest && Newer(table[id].updatedAt, lastUpdatedAt) ::
                    Fetched(id, table[id]) in transfers
        decreases rest
      {
        var id := PickOne(rest);
        if Newer(table[id].updatedAt, lastUpdatedAt) {
          transfers := transfers + [Fetched(id, table[id])];
        }
        rest := rest - {id};
      }
    }
  }

  method MaxUpdatedAt(transfers: seq<Fetched>) returns (stamp: int)
    requires transfers != []
    ensures exists i :: 0 <= i < |transfers| && transfers[i].row.updatedAt == stamp
    ensures forall i | 0 <= i < |transfers| :: transfers[i].row.updatedAt <= stamp
  {
    stamp := transfers[0].row.updatedAt;
    for k := 1 to |transfers|
      invariant exists i :: 0 <= i < |transfers| && transfers[i].row.updatedAt == stamp
      invariant forall i | 0 <= i < k :: transfers[i].row.updatedAt <= stamp
    {
      if transfers[k].row.updatedAt > stamp {
        stamp := transfers[k].row.updatedAt;
      }
    }
  }

  /**
   One turn of the endless loop with no commit in between. Whatever jobs were left over
   from before, the store ends up as if every row had been compared, and the watermark
   then covers every row.
   */
  method Pass(manager: TransferJobManager, fetcher: TransferFetcher, table: Table)
    requires AgreesUpTo(table, manager.jobs, fetcher.lastUpdatedAt)
    modifies manager, fetcher
    ensures manager.jobs == Ideal(table)
    ensures forall id | id in table :: !Newer(table[id].updatedAt, fetcher.lastUpdatedAt)
    ensures AgreesUpTo(table, manager.jobs, fetcher.lastUpdatedAt)
  {
    manager.RemoveOrphanJobs(table);
    var transfers := fetcher.FetchUpdatedJobs(table);
    ghost var swept := manager.jobs;
    if transfers != [] {
      manager.UpdateJobs(transfers);
      var stamp := MaxUpdatedAt(transfers);
      fetcher.lastUpdatedAt := Some(stamp);
    }
    ApplyAllIsExact(swept, transfers);
    forall id | id in table
      ensures Matches(manager.jobs, id, table[id]) && !Newer(table[id].updatedAt, fetcher.lastUpdatedAt)
    {
      if Newer(table[id].updatedAt, old(fetcher.lastUpdatedAt)) {
        assert Fetched(id, table[id]) in transfers;
      }
    }
    SettledIsIdeal(table, manager.jobs);
  }

  lemma SettledIsIdeal(table: Table, jobs: Jobs)
    requires NoOrphans(jobs, table)
    requires forall id | id in table :: Matches(jobs, id, table[id])
    ensures jobs == Ideal(table)
  {
    forall id | id in jobs
      ensures id in Ideal(table) && jobs[id] == Ideal(table)[id]
    {
      assert Matches(jobs, id, table[id]);
    }
    forall id | id in Ideal(table)
      ensures id in jobs
    {
      assert Matches(jobs, id, table[id]);
    }
  }

  // ---------------------------------------------------------------------------
  // Interleavings
  // ---------------------------------------------------------------------------

  /** Where the loop is: between passes, dropping orphans, about to fetch, or applying a fetched batch. */
  datatype Phase =
    | Idle
    | Sweeping(missing: set<int>)
    | Swept
    | Applying(batch: Table, todo: set<int>)

  /**
   `clock` is the newest committed stamp and `used` every identifier ever given out;
   the job store and the table outlive a restart, the watermark and the phase do not.
   */
  datatype State = State(
    table: Table, jobs: Jobs, watermark: Option<int>, phase: Phase, clock: int, used: set<int>)

  datatype Step =
    | ListOrphans
    | DropOrphan(orphan: int)
    | EndSweep
    | Fetch
    | ApplyOne(fetched: int)
    | Advance(next: Option<int>)
    | Restart
    | CreateTransfer(created: int, newRow: Row)
    | UpdateTransfer(updated: int, row: Row)
    | DeleteTransfer(deleted: int)
    | CopyTransfer(origin: int, copy: int)

  predicate IsLoopStep(step: Step) {
    step.ListOrphans? || step.DropOrphan? || step.EndSweep? || step.Fetch? || step.ApplyOne? || step.Advance?
  }

  function NewerRows(table: Table, watermark: Option<int>): Table {
    map id | id in table && Newer(table[id].updatedAt, watermark) :: table[id]
  }

  ghost predicate IsMaxStamp(batch: Table, stamp: int) {
    && (exists id :: id in batch && batch[id].updatedAt == stamp)
    && forall id | id in batch :: batch[id].updatedAt <= stamp
  }

  ghost predicate Enabled(s: State, step: Step) {
    match step
    case ListOrphans => s.phase.Idle?
    case DropOrphan(id) => s.phase.Sweeping? && id in s.phase.missing
    case EndSweep => s.phase.Sweeping? && s.phase.missing == {}
    case Fetch => s.phase.Swept?
    case ApplyOne(id) => s.phase.Applying? && id in s.phase.todo && id in s.phase.batch
    case Advance(next) =>
      && s.phase.Applying? && s.phase.todo == {}
      && (if s.phase.batch == map[] then next == s.watermark
          else next.Some? && IsMaxStamp(s.phase.batch, next.value))
    case Restart => true
    case CreateTransfer(id, row) => id !in s.used && row.updatedAt > s.clock
    case UpdateTransfer(id, row) => id in s.table && row.updatedAt > s.clock
    case DeleteTransfer(id) => id in s.table
    case CopyTransfer(origin, id) => origin in s.table && id !in s.used
  }

  ghost function Next(s: State, step: Step): State
    requires Enabled(s, step)
  {
    match step
    case ListOrphans => s.(phase := Sweeping(s.jobs.Keys - s.table.Keys))
    case DropOrphan(id) => s.(jobs := s.jobs - {id}, phase := Sweeping(s.phase.missing - {id}))
    case EndSweep => s.(phase := Swept)
    case Fetch =>
      var batch := NewerRows(s.table, s.watermark);
      s.(phase := Applying(batch, batch.Keys))
    case ApplyOne(id) =>
      s.(jobs := ApplyRow(s.jobs, id, s.phase.batch[id]),
         phase := Applying(s.phase.batch, s.phase.todo - {id}))
    case Advance(next) => s.(watermark := next, phase := Idle)
    case Restart => s.(watermark := None, phase := Idle)
    case CreateTransfer(id, row) => s.(table := s.table[id := row], clock := row.updatedAt, used := s.used + {id})
    case UpdateTransfer(id, row) => s.(table := s.table[id := row], clock := row.updatedAt)
    case DeleteTransfer(id) => s.(table := s.table - {id})
    // The copy takes every column of its origin but the identifier, `updated_at` included.
    case CopyTransfer(origin, id) => s.(table := s.table[id := s.table[origin]], used := s.used + {id})
  }

  ghost predicate ValidTrace(s: State, steps: seq<Step>)
    decreases |steps|
  {
    steps != [] ==> Enabled(s, steps[0]) && ValidTrace(Next(s, steps[0]), steps[1..])
  }

  ghost function Run(s: State, steps: seq<Step>): State
    requires ValidTrace(s, steps)
    decreases |steps|
  {
    if steps == [] then s else Run(Next(s, steps[0]), steps[1..])
  }

  /** A scheduler that has just started, over any leftover job store. */
  ghost predicate Initial(s: State) {
    && s.phase == Idle && s.watermark == None
    && s.table.Keys + s.jobs.Keys <= s.used
    && forall id | id in s.table :: s.table[id].updatedAt <= s.clock
  }

  /** The stamp is newer than the watermark and than everything in the batch being applied. */
  ghost predicate Unseen(s: State, stamp: int) {
    && Newer(stamp, s.watermark)
    && (s.phase.Applying? ==> forall id | id in s.phase.batch :: stamp > s.phase.batch[id].updatedAt)
  }

  /** A fetched batch against a table that may have moved on since. */
  ghost predicate BatchOk(s: State, batch: Table, todo: set<int>) {
    && todo <= batch.Keys <= s.used
    && (forall id | id in batch :: Newer(batch[id].updatedAt, s.watermark) && batch[id].updatedAt <= s.clock)
    && (forall id | id in batch && id in s.table :: batch[id].updatedAt <= s.table[id].updatedAt)
    && (forall id | id in batch && id !in todo :: Matches(s.jobs, id, batch[id]))
    && forall id | id in s.table && Newer(s.table[id].updatedAt, s.watermark) && !Unseen(s, s.table[id].updatedAt) ::
         if id in batch then batch[id] == s.table[id] else Matches(s.jobs, id, s.table[id])
  }

  ghost predicate Inv(s: State) {
    && AgreesUpTo(s.table, s.jobs, s.watermark)
    && s.table.Keys + s.jobs.Keys <= s.used
    && (forall id | id in s.table :: s.table[id].updatedAt <= s.clock)
    && (s.watermark.Some? ==> s.watermark.value <= s.clock)
    && (s.phase.Sweeping? ==> s.phase.missing !! s.table.Keys && s.phase.missing <= s.used)
    && (s.phase.Applying? ==> BatchOk(s, s.phase.batch, s.phase.todo))
  }

  /** A copy is harmless when its origin is not scheduled or is newer than all the scheduler has fetched. */
  ghost predicate Harmless(s: State, step: Step) {
    step.CopyTransfer? && step.origin in s.table ==>
      !s.table[step.origin].isScheduled || Unseen(s, s.table[step.origin].updatedAt)
  }

  ghost predicate HarmlessTrace(s: State, steps: seq<Step>)
    requires ValidTrace(s, steps)
    decreases |steps|
  {
    steps != [] ==> Harmless(s, steps[0]) && HarmlessTrace(Next(s, steps[0]), steps[1..])
  }

  lemma StepKeepsInv(s: State, step: Step)
    requires Inv(s) && Enabled(s, step) && !step.CopyTransfer?
    ensures Inv(Next(s, step))
  {
    var t := Next(s, step);
    match step {
      case Advance(next) =>
        forall id | id in t.table && !Newer(t.table[id].updatedAt, t.watermark)
          ensures Matches(t.jobs, id, t.table[id])
        {
          if Newer(s.table[id].updatedAt, s.watermark) {
            assert !Unseen(s, s.table[id].updatedAt);
          }
        }
      case _ =>
    }
  }

  /**
   The copy endpoint against the invariant: exactly the copies of scheduled transfers whose
   stamp the scheduler has already passed break it.
   */
  lemma CopyKeepsInvIffHarmless(s: State, origin: int, copy: int)
    requires Inv(s) && Enabled(s, CopyTransfer(origin, copy))
    ensures Inv(Next(s, CopyTransfer(origin, copy))) <==> Harmless(s, CopyTransfer(origin, copy))
  {
    var t := Next(s, CopyTransfer(origin, copy));
    var row := s.table[origin];
    assert copy in t.table && t.table[copy] == row && copy !in t.jobs;
    if Harmless(s, CopyTransfer(origin, copy)) {
      assert row.isScheduled ==> Unseen(t, row.updatedAt);
    } else {
      assert !Unseen(t, row.updatedAt) && !Matches(t.jobs, copy, row);
    }
  }

  /** Agreement at or below the watermark, in every state any interleaving can reach. */
  lemma {:induction false} AgreementAlways(s: State, steps: seq<Step>)
    requires Inv(s) && ValidTrace(s, steps) && HarmlessTrace(s, steps)
    ensures Inv(Run(s, steps))
    ensures AgreesUpTo(Run(s, steps).table, Run(s, steps).jobs, Run(s, steps).watermark)
    decreases |steps|
  {
    if steps != [] {
      if steps[0].CopyTransfer? {
        CopyKeepsInvIffHarmless(s, steps[0].origin, steps[0].copy);
      } else {
        StepKeepsInv(s, steps[0]);
      }
      AgreementAlways(Next(s, steps[0]), steps[1..]);
    }
  }

  lemma AgreementFromStart(s: State, steps: seq<Step>)
    requires Initial(s) && ValidTrace(s, steps) && HarmlessTrace(s, steps)
    ensures AgreesUpTo(Run(s, steps).table, Run(s, steps).jobs, Run(s, steps).watermark)
  {
    AgreementAlways(s, steps);
  }

  /** How far an undisturbed pass has got. */
  ghost predicate OnCourse(s: State) {
    match s.phase
    case Idle => s.jobs == Ideal(s.table)
    case Sweeping(missing) => forall id | id in s.jobs && id !in s.table :: id in missing
    case Swept => NoOrphans(s.jobs, s.table)
    case Applying(batch, todo) => NoOrphans(s.jobs, s.table) && batch == NewerRows(s.table, s.watermark)
  }

  lemma LoopStepStaysOnCourse(s: State, step: Step)
    requires Inv(s) && IsLoopStep(step) && Enabled(s, step)
    requires s.phase.Idle? || OnCourse(s)
    ensures Next(s, step).table == s.table && OnCourse(Next(s, step))
  {
    if step.Advance? {
      LastStepSettles(s, step.next);
    }
  }

  lemma LastStepSettles(s: State, next: Option<int>)
    requires Inv(s) && Enabled(s, Advance(next)) && OnCourse(s)
    ensures s.jobs == Ideal(s.table)
  {
    var batch := s.phase.batch;
    forall id | id in s.table
      ensures Matches(s.jobs, id, s.table[id])
    {
      if Newer(s.table[id].updatedAt, s.watermark) {
        assert id in batch && batch[id] == s.table[id];
      }
    }
    SettledIsIdeal(s.table, s.jobs);
  }

  /**
   Any number of whole passes that no commit or restart disturbs, from any state the
   invariant allows: the job store equals the full comparison.
   */
  lemma {:induction false} UndisturbedPassReachesIdeal(s: State, steps: seq<Step>)
    requires Inv(s) && ValidTrace(s, steps) && steps != []
    requires s.phase.Idle? || OnCourse(s)
    requires forall i | 0 <= i < |steps| :: IsLoopStep(steps[i])
    ensures Run(s, steps).table == s.table
    ensures Run(s, steps).phase.Idle? ==> Run(s, steps).jobs == Ideal(s.table)
    decreases |steps|
  {
    LoopStepStaysOnCourse(s, steps[0]);
    StepKeepsInv(s, steps[0]);
    var t := Next(s, steps[0]);
    if |steps| == 1 {
      assert Run(s, steps) == Run(t, []) == t;
    } else {
      UndisturbedPassReachesIdeal(t, steps[1..]);
    }
  }

  /** The row is scheduled and has no job, and nothing the loop has fetched or will fetch includes it. */
  ghost predicate Overlooked(s: State, id: int) {
    && id in s.table && s.table[id].isScheduled && id !in s.jobs && id in s.used
    && !Unseen(s, s.table[id].updatedAt)
    && (s.phase.Applying? ==>
          id !in s.phase.batch && forall b | b in s.phase.batch :: Newer(s.phase.batch[b].updatedAt, s.watermark))
  }

  /** Steps after which the scheduler would look at the transfer again. */
  predicate Touches(step: Step, id: int) {
    step == Restart || step == DeleteTransfer(id) || (step.UpdateTransfer? && step.updated == id)
  }

  lemma {:induction false} OverlookedStaysOverlooked(s: State, id: int, steps: seq<Step>)
    requires Overlooked(s, id) && ValidTrace(s, steps)
    requires forall i | 0 <= i < |steps| :: !Touches(steps[i], id)
    ensures Overlooked(Run(s, steps), id)
    decreases |steps|
  {
    if steps != [] {
      var step := steps[0];
      if step.Advance? && s.phase.batch != map[] {
        var top :| top in s.phase.batch && s.phase.batch[top].updatedAt == step.next.value;
        assert Newer(s.phase.batch[top].updatedAt, s.watermark);
      }
      OverlookedStaysOverlooked(Next(s, step), id, steps[1..]);
    }
  }

  /**
   What a harmful copy leads to: until it is updated or deleted itself or the scheduler
   restarts, no interleaving, of any length, ever gives the scheduled copy a job.
   */
  lemma HarmfulCopyIsNeverScheduled(s: State, origin: int, copy: int, steps: seq<Step>)
    requires Inv(s) && Enabled(s, CopyTransfer(origin, copy)) && !Harmless(s, CopyTransfer(origin, copy))
    requires ValidTrace(Next(s, CopyTransfer(origin, copy)), steps)
    requires forall i | 0 <= i < |steps| :: !Touches(steps[i], copy)
    ensures var t := Run(Next(s, CopyTransfer(origin, copy)), steps);
            copy in t.table && t.table[copy].isScheduled && copy !in t.jobs
  {
    var t := Next(s, CopyTransfer(origin, copy));
    assert t.table[copy] == s.table[origin];
    OverlookedStaysOverlooked(t, copy, steps);
  }
}
