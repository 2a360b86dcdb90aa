/**
 How the scheduler gets over what it has missed: the invariant transfer by transfer, which
 harmful copies break for the copy alone, and which a commit or a restart restores.
 */
module Recovery {
  import opened Collections
  import opened Scheduler
  import opened Wrappers

  /** Identifiers and stamps are accounted for; nothing is said about agreement. */
  ghost predicate Accounted(s: State) {
    && s.table.Keys + s.jobs.Keys <= s.used
    && forall id | id in s.table :: s.table[id].updatedAt <= s.clock
  }

  /** What holds of loop and table whatever has been copied. */
  ghost predicate Sound(s: State) {
    && Accounted(s)
    && (s.watermark.Some? ==> s.watermark.value <= s.clock)
    && (s.phase.Sweeping? ==> s.phase.missing !! s.table.Keys && s.phase.missing <= s.used)
    && (s.phase.Applying? ==> BatchIsSound(s, s.phase.batch, s.phase.todo))
  }

  ghost predicate BatchIsSound(s: State, batch: Table, todo: set<int>) {
    && todo <= batch.Keys <= s.used
    && (forall id | id in batch :: Newer(batch[id].updatedAt, s.watermark) && batch[id].updatedAt <= s.clock)
    && forall id | id in batch && id in s.table :: batch[id].updatedAt <= s.table[id].updatedAt
  }

  /** One row: it has its job if the watermark has passed it, and the running pass will not pass it without. */
  ghost predicate RowInv(s: State, id: int) {
    id in s.table ==>
      && (!Newer(s.table[id].updatedAt, s.watermark) ==> Matches(s.jobs, id, s.table[id]))
      && (s.phase.Applying? && Newer(s.table[id].updatedAt, s.watermark) && !Unseen(s, s.table[id].updatedAt) ==>
            if id in s.phase.todo && id in s.phase.batch then s.phase.batch[id] == s.table[id]
            else Matches(s.jobs, id, s.table[id]))
  }

  lemma InvIsRowByRow(s: State, id: int)
    requires Inv(s)
    ensures Sound(s) && RowInv(s, id)
  {
  }

  lemma StepKeepsSound(s: State, step: Step)
    requires Sound(s) && Enabled(s, step)
    ensures Sound(Next(s, step))
  {
  }

  /** A harmful copy disturbs the copy and no other row. */
  predicate Creates(step: Step, id: int) {
    step.CopyTransfer? && step.copy == id
  }

  lemma StepKeepsRow(s: State, step: Step, id: int)
    requires Sound(s) && RowInv(s, id) && Enabled(s, step) && !Creates(step, id)
    ensures RowInv(Next(s, step), id)
  {
    if step.Advance? && id in s.table && Newer(s.table[id].updatedAt, s.watermark) {
      assert Unseen(s, s.table[id].updatedAt) ==> Newer(s.table[id].updatedAt, step.next);
    }
  }

  /** A commit of its own, or a restart, puts any row right, however wrong it was. */
  lemma TouchRenewsRow(s: State, step: Step, id: int)
    requires Sound(s) && Enabled(s, step)
    requires Touches(step, id) || (step.CreateTransfer? && step.created == id)
    ensures RowInv(Next(s, step), id)
  {
  }

  lemma {:induction false} RowStaysRight(s: State, steps: seq<Step>, id: int)
    requires Sound(s) && RowInv(s, id) && ValidTrace(s, steps)
    requires forall i | 0 <= i < |steps| :: !Creates(steps[i], id)
    ensures Sound(Run(s, steps)) && RowInv(Run(s, steps), id)
    decreases |steps|
  {
    if steps != [] {
      StepKeepsSound(s, steps[0]);
      StepKeepsRow(s, steps[0], id);
      RowStaysRight(Next(s, steps[0]), steps[1..], id);
    }
  }

  lemma {:induction false} SoundAlways(s: State, steps: seq<Step>)
    requires Sound(s) && ValidTrace(s, steps)
    ensures Sound(Run(s, steps))
    decreases |steps|
  {
    if steps != [] {
      StepKeepsSound(s, steps[0]);
      SoundAlways(Next(s, steps[0]), steps[1..]);
    }
  }

  // ---------------------------------------------------------------------------
  // Undisturbed passes, row by row
  // ---------------------------------------------------------------------------

  predicate IsPass(steps: seq<Step>) {
    steps != [] && forall i | 0 <= i < |steps| :: IsLoopStep(steps[i])
  }

  /** The job store says about this identifier what the table says. */
  ghost predicate IsSettled(s: State, id: int) {
    if id in s.table then Matches(s.jobs, id, s.table[id]) else id !in s.jobs
  }

  ghost predicate RowOnCourse(s: State, id: int) {
    match s.phase
    case Idle => IsSettled(s, id)
    case Sweeping(missing) => id in s.jobs && id !in s.table ==> id in missing
    case Swept => id in s.jobs ==> id in s.table
    case Applying(batch, _) => (id in s.jobs ==> id in s.table) && batch == NewerRows(s.table, s.watermark)
  }

  lemma LoopStepKeepsRowOnCourse(s: State, step: Step, id: int)
    requires Sound(s) && RowInv(s, id) && IsLoopStep(step) && Enabled(s, step)
    requires s.phase.Idle? || RowOnCourse(s, id)
    ensures Next(s, step).table == s.table && RowOnCourse(Next(s, step), id)
  {
  }

  /** A pass that nothing disturbs settles every row that is right at its beginning, and removes every orphan. */
  lemma {:induction false} PassSettlesRow(s: State, pass: seq<Step>, id: int)
    requires Sound(s) && RowInv(s, id) && ValidTrace(s, pass) && IsPass(pass)
    requires s.phase.Idle? || RowOnCourse(s, id)
    ensures Run(s, pass).table == s.table
    ensures Run(s, pass).phase.Idle? ==> IsSettled(Run(s, pass), id)
    decreases |pass|
  {
    var t := Next(s, pass[0]);
    LoopStepKeepsRowOnCourse(s, pass[0], id);
    StepKeepsSound(s, pass[0]);
    StepKeepsRow(s, pass[0], id);
    if |pass| > 1 {
      PassSettlesRow(t, pass[1..], id);
    } else {
      assert Run(s, pass) == Run(t, []);
    }
  }

  // ---------------------------------------------------------------------------
  // Every pass can be finished
  // ---------------------------------------------------------------------------

  lemma {:induction false} MaxStampExists(batch: Table, ids: set<int>) returns (stamp: int)
    requires ids <= batch.Keys && ids != {}
    ensures exists id :: id in ids && batch[id].updatedAt == stamp
    ensures forall id | id in ids :: batch[id].updatedAt <= stamp
    decreases |ids|
  {
    var id := SomeOf(ids);
    if ids == {id} {
      stamp := batch[id].updatedAt;
    } else {
      var rest := MaxStampExists(batch, ids - {id});
      stamp := if rest < batch[id].updatedAt then batch[id].updatedAt else rest;
    }
  }

  /** How many steps a pass in progress still has. */
  ghost function Remaining(s: State): nat {
    match s.phase
    case Idle => 0
    case Applying(_, todo) => 1 + |todo|
    case Swept => 2 + |NewerRows(s.table, s.watermark).Keys|
    case Sweeping(missing) => 3 + |NewerRows(s.table, s.watermark).Keys| + |missing|
  }

  lemma NextOfApplying(s: State) returns (step: Step)
    requires Sound(s) && s.phase.Applying?
    ensures IsLoopStep(step) && Enabled(s, step) && Remaining(Next(s, step)) < Remaining(s)
  {
    var batch, todo := s.phase.batch, s.phase.todo;
    if todo != {} {
      var id := SomeOf(todo);
      step := ApplyOne(id);
    } else if batch == map[] {
      step := Advance(s.watermark);
    } else {
      var stamp := MaxStampExists(batch, batch.Keys);
      step := Advance(Some(stamp));
    }
  }

  /** A step that brings a pass in progress nearer to its end. */
  lemma NextOfPass(s: State) returns (step: Step)
    requires Sound(s) && !s.phase.Idle?
    ensures IsLoopStep(step) && Enabled(s, step) && Remaining(Next(s, step)) < Remaining(s)
  {
    match s.phase
    case Sweeping(missing) =>
      if missing == {} {
        step := EndSweep;
      } else {
        var id := SomeOf(missing);
        step := DropOrphan(id);
      }
    case Swept => step := Fetch;
    case Applying(_, _) => step := NextOfApplying(s);
  }

  lemma {:induction false} PassCanBeFinished(s: State) returns (steps: seq<Step>)
    requires Sound(s)
    ensures ValidTrace(s, steps) && Run(s, steps).phase.Idle?
    ensures forall i | 0 <= i < |steps| :: IsLoopStep(steps[i])
    decreases Remaining(s)
  {
    steps := [];
    if !s.phase.Idle? {
      var step := NextOfPass(s);
      StepKeepsSound(s, step);
      var rest := PassCanBeFinished(Next(s, step));
      steps := [step] + rest;
      assert steps[1..] == rest;
    }
  }

  lemma WholePass(s: State) returns (pass: seq<Step>)
    requires Sound(s) && s.phase.Idle?
    ensures IsPass(pass) && ValidTrace(s, pass) && Run(s, pass).phase.Idle?
  {
    StepKeepsSound(s, ListOrphans);
    var rest := PassCanBeFinished(Next(s, ListOrphans));
    pass := [ListOrphans] + rest;
    assert pass[1..] == rest;
  }

  // ---------------------------------------------------------------------------
  // What heals
  // ---------------------------------------------------------------------------

  lemma AllSettledIsIdeal(s: State)
    requires forall id :: IsSettled(s, id)
    ensures s.jobs == Ideal(s.table)
  {
    forall id | id in s.jobs
      ensures id in s.table
    {
      assert IsSettled(s, id);
    }
    forall id | id in s.table
      ensures Matches(s.jobs, id, s.table[id])
    {
      assert IsSettled(s, id);
    }
    SettledIsIdeal(s.table, s.jobs);
  }

  /** After a restart any pass that nothing disturbs ends in the full comparison, whatever was overlooked before. */
  lemma RestartHeals(s: State, pass: seq<Step>)
    requires Accounted(s) && IsPass(pass) && ValidTrace(Next(s, Restart), pass)
    requires Run(Next(s, Restart), pass).phase.Idle?
    ensures Run(Next(s, Restart), pass).jobs == Ideal(s.table) && Run(Next(s, Restart), pass).table == s.table
  {
    var t := Next(s, Restart);
    PassSettlesRow(t, pass, 0);
    forall id: int
      ensures IsSettled(Run(t, pass), id)
    {
      PassSettlesRow(t, pass, id);
    }
    AllSettledIsIdeal(Run(t, pass));
  }

  lemma RestartCanHeal(s: State) returns (pass: seq<Step>)
    requires Accounted(s)
    ensures IsPass(pass) && ValidTrace(Next(s, Restart), pass)
    ensures Run(Next(s, Restart), pass).phase.Idle? && Run(Next(s, Restart), pass).jobs == Ideal(s.table)
  {
    pass := WholePass(Next(s, Restart));
    RestartHeals(s, pass);
  }

  /**
   The copy that nothing scheduled before has its job after a restart and one pass, and such a
   pass exists.
   */
  lemma RestartSchedulesTheCopy(s: State, origin: int, copy: int, steps: seq<Step>) returns (pass: seq<Step>)
    requires Inv(s) && Enabled(s, CopyTransfer(origin, copy)) && !Harmless(s, CopyTransfer(origin, copy))
    requires ValidTrace(Next(s, CopyTransfer(origin, copy)), steps)
    requires forall i | 0 <= i < |steps| :: !Touches(steps[i], copy)
    ensures var t := Run(Next(s, CopyTransfer(origin, copy)), steps);
            && copy !in t.jobs && IsPass(pass) && ValidTrace(Next(t, Restart), pass)
            && Run(Next(t, Restart), pass).phase.Idle?
            && copy in Run(Next(t, Restart), pass).jobs
            && Run(Next(t, Restart), pass).jobs[copy] == Job(s.table[origin].schedule, copy)
  {
    var copied := Next(s, CopyTransfer(origin, copy));
    var t := Run(copied, steps);
    InvIsRowByRow(s, copy);
    StepKeepsSound(s, CopyTransfer(origin, copy));
    SoundAlways(copied, steps);
    HarmfulCopyIsNeverScheduled(s, origin, copy, steps);
    UntouchedFrom(copied, steps, copy);
    pass := RestartCanHeal(t);
  }

  lemma {:induction false} UntouchedFrom(s: State, steps: seq<Step>, id: int)
    requires id in s.used && ValidTrace(s, steps)
    requires forall i | 0 <= i < |steps| ::
               steps[i] != DeleteTransfer(id) && (steps[i].UpdateTransfer? ==> steps[i].updated != id)
    ensures id in Run(s, steps).table <==> id in s.table
    ensures id in s.table ==> Run(s, steps).table[id] == s.table[id]
    decreases |steps|
  {
    if steps != [] {
      UntouchedFrom(Next(s, steps[0]), steps[1..], id);
    }
  }

  /** A commit to one transfer: its new row, or none. */
  predicate Commits(step: Step, id: int, row: Option<Row>) {
    match step
    case CreateTransfer(created, newRow) => created == id && row == Some(newRow)
    case UpdateTransfer(updated, newRow) => updated == id && row == Some(newRow)
    case DeleteTransfer(deleted) => deleted == id && row == None
    case _ => false
  }

  /**
   Every commit takes effect, in any state and whatever was overlooked: unless the transfer is
   committed again, any steps may follow, and the first undisturbed pass from between two turns
   of the loop leaves the job that the committed row asks for, or none.
   */
  lemma CommitTakesEffect(s: State, commit: Step, id: int, row: Option<Row>, steps: seq<Step>, pass: seq<Step>)
    requires Sound(s) && Enabled(s, commit) && Commits(commit, id, row)
    requires ValidTrace(Next(s, commit), steps)
    requires forall i | 0 <= i < |steps| ::
               steps[i] != DeleteTransfer(id) && (steps[i].UpdateTransfer? ==> steps[i].updated != id)
    requires var t := Run(Next(s, commit), steps); t.phase.Idle? && ValidTrace(t, pass) && IsPass(pass)
    requires Run(Run(Next(s, commit), steps), pass).phase.Idle?
    ensures var u := Run(Run(Next(s, commit), steps), pass);
            if row.Some? then id in u.table && u.table[id] == row.value && Matches(u.jobs, id, row.value)
            else id !in u.table && id !in u.jobs
  {
    var committed := Next(s, commit);
    StepKeepsSound(s, commit);
    TouchRenewsRow(s, commit, id);
    UntouchedFrom(committed, steps, id);
    NothingCreatesUsed(committed, steps, id);
    RowStaysRight(committed, steps, id);
    PassSettlesRow(Run(committed, steps), pass, id);
  }

  lemma {:induction false} NothingCreatesUsed(s: State, steps: seq<Step>, id: int)
    requires id in s.used && ValidTrace(s, steps)
    ensures forall i | 0 <= i < |steps| :: !Creates(steps[i], id)
    decreases |steps|
  {
    if steps != [] {
      NothingCreatesUsed(Next(s, steps[0]), steps[1..], id);
      assert forall i | 1 <= i < |steps| :: steps[i] == steps[1..][i - 1];
    }
  }
}
