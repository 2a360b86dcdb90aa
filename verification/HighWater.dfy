/**
 Incremental transfers between database tables: the mark in the store, the rows in the
 target, and what survives runs that fail half-way.

 The reading library is an environment: a reader given a stored mark returns the rows whose
 key is above it, and the new mark is stored only when the whole run ends without an error.
 */
module HighWater {
  import opened Wrappers
  import opened Text

  datatype Row = Row(key: int, data: string)

  datatype Strategy = Full | Incremental

  datatype IfExists = ReplaceEntireTable | Append

  /**
   Where a run fails, if it does: before it touches anything, before the write touches the
   target, or in the middle of the write, when only `written` has arrived.
   */
  datatype Fault = NoFault | AtStart | BeforeWrite | DuringWrite(written: seq<Row>)

  type Marks = map<string, Option<int>>

  // ---------------------------------------------------------------------------
  // Names of marks
  // ---------------------------------------------------------------------------

  /** The name under which the controller looks a mark up. */
  function ControllerMarkName(transferId: nat, connectionType: string, table: string): string {
    Join([Decimal(transferId), connectionType, table], "_")
  }

  /** The name under which the reader stores it. */
  function ReaderMarkName(transferId: nat, connectionType: string, table: string): string {
    Decimal(transferId) + "_" + connectionType + "_" + table
  }

  lemma ReaderAndControllerAgree(transferId: nat, connectionType: string, table: string)
    ensures ControllerMarkName(transferId, connectionType, table) == ReaderMarkName(transferId, connectionType, table)
  {
    var parts := [Decimal(transferId), connectionType, table];
    assert parts[1..] == [connectionType, table] && parts[1..][1..] == [table];
    assert Join([table], "_") == table;
    assert Join([connectionType, table], "_") == connectionType + "_" + table;
  }

  /** No transfer resets or advances the mark of another one, whatever types and tables they have. */
  lemma MarkNamesTellTransfersApart(a: nat, typeA: string, tableA: string, b: nat, typeB: string, tableB: string)
    requires ReaderMarkName(a, typeA, tableA) == ReaderMarkName(b, typeB, tableB)
    ensures a == b
  {
    var restA, restB := typeA + "_" + tableA, typeB + "_" + tableB;
    assert ReaderMarkName(a, typeA, tableA) == Decimal(a) + ['_'] + restA;
    assert ReaderMarkName(b, typeB, tableB) == Decimal(b) + ['_'] + restB;
    LeadingNumeralIsDetermined(a, b, '_', restA, restB);
  }

  // ---------------------------------------------------------------------------
  // One run
  // ---------------------------------------------------------------------------

  function MarkOf(marks: Marks, name: string): Option<int> {
    if name in marks then marks[name] else None
  }

  /** The code asks for a mark's truth value, and zero is false. */
  predicate Truthy(mark: Option<int>) {
    mark.Some? && mark.value != 0
  }

  function Above(rows: seq<Row>, mark: int): seq<Row> {
    if rows == [] then []
    else (if rows[0].key > mark then [rows[0]] else []) + Above(rows[1..], mark)
  }

  function ReadRows(source: seq<Row>, mark: Option<int>): seq<Row> {
    if mark.Some? then Above(source, mark.value) else source
  }

  function MaxKey(rows: seq<Row>): int
    requires rows != []
  {
    if |rows| == 1 then rows[0].key
    else if rows[0].key > MaxKey(rows[1..]) then rows[0].key
    else MaxKey(rows[1..])
  }

  function NextMark(mark: Option<int>, read: seq<Row>): Option<int> {
    if read == [] then mark else Some(MaxKey(read))
  }

  function WriteRows(target: seq<Row>, rows: seq<Row>, mode: IfExists, fault: Fault): seq<Row> {
    match fault
    case NoFault => if mode.Append? then target + rows else rows
    case AtStart => target
    case BeforeWrite => target
    case DuringWrite(written) => if mode.Append? then target + written else written
  }

  /** A write in progress has written some of the rows it was given. */
  predicate Possible(fault: Fault, rows: seq<Row>) {
    fault.DuringWrite? ==> multiset(fault.written) <= multiset(rows)
  }

  /**
   `lastRead` and `clean` only record history: what the latest successful run read, and
   whether no run has failed since the target was last replaced.
   */
  datatype State = State(source: seq<Row>, target: seq<Row>, marks: Marks, lastRead: seq<Row>, clean: bool)

  function RowsOf(s: State, name: string, strategy: Strategy): seq<Row> {
    if strategy.Full? then s.source else ReadRows(s.source, MarkOf(s.marks, name))
  }

  function ResetMark(marks: Marks, name: string): Marks {
    if Truthy(MarkOf(marks, name)) then marks[name := None] else marks
  }

  function ModeOf(marks: Marks, name: string, strategy: Strategy): IfExists {
    if strategy.Incremental? && Truthy(MarkOf(marks, name)) then Append else ReplaceEntireTable
  }

  function MarksAfter(s: State, name: string, strategy: Strategy, storeEnabled: bool, fault: Fault): Marks {
    if fault.AtStart? then s.marks
    else if strategy.Full? then (if storeEnabled then ResetMark(s.marks, name) else s.marks)
    else
      var next := NextMark(MarkOf(s.marks, name), RowsOf(s, name, strategy));
      if fault.NoFault? && next.Some? then s.marks[name := next] else s.marks
  }

  function AfterRun(s: State, name: string, strategy: Strategy, storeEnabled: bool, fault: Fault): State {
    if fault.AtStart? then s
    else
      var rows := RowsOf(s, name, strategy);
      var mode := ModeOf(s.marks, name, strategy);
      State(s.source, WriteRows(s.target, rows, mode, fault), MarksAfter(s, name, strategy, storeEnabled, fault),
            if fault.NoFault? then s.source else s.lastRead,
            fault.NoFault? && (mode.ReplaceEntireTable? || s.clean))
  }

  /** One transfer's controller with both of its handlers, over the tables and the mark store. */
  class TransferController {
    const name: string
    const strategy: Strategy
    const storeEnabled: bool
    var source: seq<Row>
    var target: seq<Row>
    var marks: Marks
    var hwm: Option<int>
    var ifExists: IfExists
    ghost var lastRead: seq<Row>
    ghost var clean: bool

    constructor (name: string, strategy: Strategy, storeEnabled: bool, source: seq<Row>, target: seq<Row>, marks: Marks)
      ensures this.name == name && this.strategy == strategy && this.storeEnabled == storeEnabled
      ensures this.source == source && this.target == target && this.marks == marks
      ensures hwm == None && ifExists == ReplaceEntireTable && !clean && lastRead == []
    {
      this.name, this.strategy, this.storeEnabled := name, strategy, storeEnabled;
      this.source, this.target, this.marks := source, target, marks;
      hwm, ifExists, lastRead, clean := None, ReplaceEntireTable, [], false;
    }

    ghost function Current(): State
      reads this
    {
      State(source, target, marks, lastRead, clean)
    }

    method PerformTransfer(fault: Fault)
      requires hwm == None && ifExists == ReplaceEntireTable
      modifies this
      ensures Current() == AfterRun(old(Current()), name, strategy, storeEnabled, fault)
    {
      if fault.AtStart? {
        return;
      }
      if strategy.Incremental? {
        PerformIncrementalTransfer(fault);
        return;
      }
      if strategy.Full? && storeEnabled {
        ResetTransferHwm();
      }
      var rows := source;
      Write(rows, fault);
    }

    method PerformIncrementalTransfer(fault: Fault)
      requires strategy.Incremental? && !fault.AtStart? && ifExists == ReplaceEntireTable
      modifies this
      ensures Current() == AfterRun(old(Current()), name, strategy, storeEnabled, fault)
    {
      hwm := if name in marks then marks[name] else None;
      var rows := ReadRows(source, if name in marks then marks[name] else None);
      Write(rows, fault);
      var next := NextMark(hwm, rows);
      if fault.NoFault? && next.Some? {
        marks := marks[name := next];
      }
    }

    method ResetTransferHwm()
      modifies this`marks
      ensures marks == ResetMark(old(marks), name)
    {
      if name in marks && marks[name].Some? && marks[name].value != 0 {
        marks := marks[name := None];
      }
    }

    method Write(rows: seq<Row>, fault: Fault)
      requires !fault.AtStart? && ifExists == ReplaceEntireTable
      modifies this`target, this`ifExists, this`lastRead, this`clean
      ensures ifExists == if strategy.Incremental? && Truthy(hwm) then Append else ReplaceEntireTable
      ensures target == WriteRows(old(target), rows, ifExists, fault)
      ensures lastRead == if fault.NoFault? then source else old(lastRead)
      ensures clean == (fault.NoFault? && (ifExists.ReplaceEntireTable? || old(clean)))
    {
      if strategy.Incremental? && hwm.Some? && hwm.value != 0 {
        ifExists := Append;
      }
      match fault {
        case NoFault =>
          target := if ifExists.Append? then target + rows else rows;
        case DuringWrite(written) =>
          target := if ifExists.Append? then target + written else written;
        case _ =>
      }
      lastRead := if fault.NoFault? then source else lastRead;
      clean := fault.NoFault? && (ifExists.ReplaceEntireTable? || clean);
    }
  }

  // ---------------------------------------------------------------------------
  // What every run keeps
  // ---------------------------------------------------------------------------

  /** Every source row with a key at or below the stored mark is in the target, as often as in the source. */
  ghost predicate NoLostRows(s: State, name: string) {
    var mark := MarkOf(s.marks, name);
    mark.Some? ==> forall row | row in s.source && row.key <= mark.value ::
      multiset(s.source)[row] <= multiset(s.target)[row]
  }

  /** A stored mark is some source row's key, so later rows lie above it. */
  ghost predicate MarkAttained(s: State, name: string) {
    var mark := MarkOf(s.marks, name);
    mark.Some? ==> exists row :: row in s.source && row.key == mark.value
  }

  /** With no failure since the last replace, the target is what was last read, and a mark says how far that was. */
  ghost predicate CleanIsExact(s: State, name: string) {
    s.clean ==>
      && multiset(s.target) == multiset(s.lastRead)
      && s.lastRead <= s.source
      && (MarkOf(s.marks, name).Some? ==>
            var mark := MarkOf(s.marks, name).value;
            && (forall row | row in s.lastRead :: row.key <= mark)
            && (forall i | |s.lastRead| <= i < |s.source| :: s.source[i].key > mark))
  }

  ghost predicate Inv(s: State, name: string) {
    NoLostRows(s, name) && MarkAttained(s, name) && CleanIsExact(s, name)
  }

  lemma {:induction false} AboveCounts(rows: seq<Row>, mark: int, row: Row)
    ensures multiset(Above(rows, mark))[row] == if row.key > mark then multiset(rows)[row] else 0
  {
    if rows != [] {
      AboveCounts(rows[1..], mark, row);
      assert rows == [rows[0]] + rows[1..];
    }
  }

  lemma {:induction false} MaxKeyIsMax(rows: seq<Row>)
    requires rows != []
    ensures exists i :: 0 <= i < |rows| && rows[i].key == MaxKey(rows)
    ensures forall i | 0 <= i < |rows| :: rows[i].key <= MaxKey(rows)
  {
    if |rows| == 1 {
      assert rows[0].key == MaxKey(rows);
    } else {
      var rest := rows[1..];
      MaxKeyIsMax(rest);
      var i :| 0 <= i < |rest| && rest[i].key == MaxKey(rest);
      assert rows[i + 1].key == MaxKey(rest) && rows[0].key == rows[0].key;
      assert forall j | 1 <= j < |rows| :: rows[j] == rest[j - 1];
    }
  }

  /** The rows above a mark that separates a prefix from the rest are the rest. */
  lemma {:induction false} AboveIsTheRest(rows: seq<Row>, mark: int, k: nat)
    requires k <= |rows|
    requires forall i | 0 <= i < k :: rows[i].key <= mark
    requires forall i | k <= i < |rows| :: rows[i].key > mark
    ensures Above(rows, mark) == rows[k..]
    decreases |rows|
  {
    if rows != [] {
      var rest := rows[1..];
      assert forall i | 0 <= i < |rest| :: rest[i] == rows[i + 1];
      if k > 0 {
        AboveIsTheRest(rest, mark, k - 1);
        assert rest[k - 1..] == rows[k..];
      } else {
        AboveIsTheRest(rest, mark, 0);
        assert [rows[0]] + rest[0..] == rows[0..];
      }
    }
  }

  /** The state-dependent condition under which a run loses nothing, wherever it fails. */
  predicate Guarded(s: State, name: string, strategy: Strategy, storeEnabled: bool) {
    var mark := MarkOf(s.marks, name);
    if strategy.Full? then mark == None || (storeEnabled && mark != Some(0)) else mark != Some(0)
  }

  lemma FullRunKeepsInv(s: State, name: string, storeEnabled: bool, fault: Fault)
    requires Inv(s, name) && Possible(fault, s.source) && Guarded(s, name, Full, storeEnabled)
    ensures Inv(AfterRun(s, name, Full, storeEnabled, fault), name)
  {
  }

  /** What a read delivers: nothing at or below the mark, everything above it, and its largest key is the next mark. */
  lemma ReadIsComplete(source: seq<Row>, mark: Option<int>)
    ensures var read := ReadRows(source, mark); var next := NextMark(mark, read);
            && (forall row | row in source && (mark.Some? ==> row.key > mark.value) ::
                  multiset(read)[row] == multiset(source)[row])
            && (forall row | row in source ::
                (next.Some? && row.key <= next.value) || (mark.Some? && row.key <= mark.value))
            && (read != [] ==> exists row :: row in source && row.key == next.value)
            && (read != [] && mark.Some? ==> mark.value < next.value)
  {
    var read := ReadRows(source, mark);
    forall row | row in source && (mark.Some? ==> row.key > mark.value)
      ensures multiset(read)[row] == multiset(source)[row] && row in read
    {
      if mark.Some? { AboveCounts(source, mark.value, row); }
      assert multiset(source)[row] > 0;
    }
    if read != [] {
      MaxKeyIsMax(read);
      var i :| 0 <= i < |read| && read[i].key == MaxKey(read);
      if mark.Some? { AboveCounts(source, mark.value, read[i]); }
      assert multiset(read)[read[i]] > 0;
      assert read[i] in source;
    }
  }

  lemma IncrementalRunKeepsNoLostRows(s: State, name: string, storeEnabled: bool, fault: Fault)
    requires Inv(s, name) && Possible(fault, RowsOf(s, name, Incremental)) &&
             Guarded(s, name, Incremental, storeEnabled)
    ensures NoLostRows(AfterRun(s, name, Incremental, storeEnabled, fault), name)
    ensures MarkAttained(AfterRun(s, name, Incremental, storeEnabled, fault), name)
  {
    if fault.NoFault? {
      SuccessfulIncrementalLosesNothing(s, name, storeEnabled);
    } else {
      var mark, t := MarkOf(s.marks, name), AfterRun(s, name, Incremental, storeEnabled, fault);
      assert t.marks == s.marks && (mark.Some? ==> multiset(s.target) <= multiset(t.target));
    }
  }

  lemma SuccessfulIncrementalLosesNothing(s: State, name: string, storeEnabled: bool)
    requires NoLostRows(s, name) && MarkAttained(s, name) && Guarded(s, name, Incremental, storeEnabled)
    ensures NoLostRows(AfterRun(s, name, Incremental, storeEnabled, NoFault), name)
    ensures MarkAttained(AfterRun(s, name, Incremental, storeEnabled, NoFault), name)
  {
    var mark, read := MarkOf(s.marks, name), RowsOf(s, name, Incremental);
    var t := AfterRun(s, name, Incremental, storeEnabled, NoFault);
    ReadIsComplete(s.source, mark);
    assert MarkOf(t.marks, name) == NextMark(mark, read);
    assert multiset(t.target) == if mark.Some? then multiset(s.target) + multiset(read) else multiset(read);
  }

  lemma IncrementalRunKeepsExactness(s: State, name: string, storeEnabled: bool, fault: Fault)
    requires Inv(s, name) && Guarded(s, name, Incremental, storeEnabled)
    ensures CleanIsExact(AfterRun(s, name, Incremental, storeEnabled, fault), name)
  {
    var mark := MarkOf(s.marks, name);
    if fault.NoFault? && mark.Some? && s.clean {
      CleanAppendIsExact(s, name, storeEnabled);
    } else if fault.NoFault? && mark == None {
      ReadIsComplete(s.source, mark);
    }
  }

  lemma CleanAppendIsExact(s: State, name: string, storeEnabled: bool)
    requires s.clean && CleanIsExact(s, name) && MarkOf(s.marks, name).Some? &&
             Guarded(s, name, Incremental, storeEnabled)
    ensures CleanIsExact(AfterRun(s, name, Incremental, storeEnabled, NoFault), name)
  {
    var mark, k := MarkOf(s.marks, name).value, |s.lastRead|;
    var t := AfterRun(s, name, Incremental, storeEnabled, NoFault);
    AboveIsTheRest(s.source, mark, k);
    assert s.source == s.lastRead + s.source[k..];
    assert multiset(t.target) == multiset(s.lastRead) + multiset(s.source[k..]) == multiset(t.lastRead);
    ReadIsComplete(s.source, Some(mark));
    assert s.source[k..] == [] ==> s.source == s.lastRead;
  }

  /** Rows only ever arrive, with keys above all earlier ones. */
  predicate Growth(source: seq<Row>, rows: seq<Row>) {
    forall i, j | 0 <= i < |source| && 0 <= j < |rows| :: source[i].key < rows[j].key
  }

  lemma GrowthKeepsOldCounts(source: seq<Row>, rows: seq<Row>, mark: int, row: Row)
    requires Growth(source, rows) && (exists top :: top in source && top.key == mark)
    requires row in source + rows && row.key <= mark
    ensures row in source && multiset(source + rows)[row] == multiset(source)[row]
  {
    var top :| top in source && top.key == mark;
    assert row !in rows;
    assert multiset(source + rows) == multiset(source) + multiset(rows);
  }

  lemma GrowthKeepsNoLostRows(s: State, name: string, rows: seq<Row>)
    requires NoLostRows(s, name) && MarkAttained(s, name) && Growth(s.source, rows)
    ensures NoLostRows(s.(source := s.source + rows), name) && MarkAttained(s.(source := s.source + rows), name)
  {
    var mark := MarkOf(s.marks, name);
    if mark.Some? {
      forall row | row in s.source + rows && row.key <= mark.value
        ensures row in s.source && multiset(s.source + rows)[row] == multiset(s.source)[row]
      {
        GrowthKeepsOldCounts(s.source, rows, mark.value, row);
      }
      var top :| top in s.source && top.key == mark.value;
      assert top in s.source + rows;
    }
  }

  lemma GrowthKeepsExactness(s: State, name: string, rows: seq<Row>)
    requires CleanIsExact(s, name) && MarkAttained(s, name) && Growth(s.source, rows)
    ensures CleanIsExact(s.(source := s.source + rows), name)
  {
    var mark, all := MarkOf(s.marks, name), s.source + rows;
    if s.clean && mark.Some? {
      var top :| top in s.source && top.key == mark.value;
      var t :| 0 <= t < |s.source| && s.source[t] == top;
      forall i | |s.lastRead| <= i < |all|
        ensures all[i].key > mark.value
      {
        assert i >= |s.source| ==> s.source[t].key < rows[i - |s.source|].key;
      }
    }
  }

  lemma GrowthKeepsInv(s: State, name: string, rows: seq<Row>)
    requires Inv(s, name) && Growth(s.source, rows)
    ensures Inv(s.(source := s.source + rows), name)
  {
    GrowthKeepsNoLostRows(s, name, rows);
    GrowthKeepsExactness(s, name, rows);
  }

  /**
   Exactly when no failure can lose rows: a full run needs the mark store enabled or no mark
   to invalidate, and a mark of zero, which the code takes for no mark at all, is never safe.
   */
  lemma RunIsSafeIffGuarded(s: State, name: string, strategy: Strategy, storeEnabled: bool)
    requires Inv(s, name)
    ensures (forall fault | Possible(fault, RowsOf(s, name, strategy)) ::
               NoLostRows(AfterRun(s, name, strategy, storeEnabled, fault), name))
            <==> Guarded(s, name, strategy, storeEnabled)
  {
    if Guarded(s, name, strategy, storeEnabled) {
      forall fault | Possible(fault, RowsOf(s, name, strategy))
        ensures NoLostRows(AfterRun(s, name, strategy, storeEnabled, fault), name)
      {
        if strategy.Full? {
          FullRunKeepsInv(s, name, storeEnabled, fault);
        } else {
          IncrementalRunKeepsNoLostRows(s, name, storeEnabled, fault);
        }
      }
    } else {
      var mark := MarkOf(s.marks, name).value;
      var row :| row in s.source && row.key == mark;
      var fault := DuringWrite([]);
      var t := AfterRun(s, name, strategy, storeEnabled, fault);
      assert Possible(fault, RowsOf(s, name, strategy));
      assert t.target == [] && MarkOf(t.marks, name) == Some(mark) && multiset(s.source)[row] > 0;
      assert !NoLostRows(t, name);
    }
  }

  /** With a mark of zero even a run that succeeds loses the row that set it. */
  lemma ZeroMarkLosesRowsWithoutAnyFault(s: State, name: string, storeEnabled: bool)
    requires Inv(s, name) && MarkOf(s.marks, name) == Some(0)
    ensures !NoLostRows(AfterRun(s, name, Incremental, storeEnabled, NoFault), name)
  {
    var row :| row in s.source && row.key == 0;
    var t := AfterRun(s, name, Incremental, storeEnabled, NoFault);
    AboveCounts(s.source, 0, row);
    ReadIsComplete(s.source, Some(0));
    assert multiset(s.source)[row] > 0 && multiset(t.target)[row] == 0;
    assert MarkOf(t.marks, name).Some? && MarkOf(t.marks, name).value >= 0;
  }

  // ---------------------------------------------------------------------------
  // Whole histories of one transfer
  // ---------------------------------------------------------------------------

  /** The mark store may be enabled in one run and disabled in another. */
  datatype Step = Arrive(rows: seq<Row>) | Perform(strategy: Strategy, storeEnabled: bool, fault: Fault)

  predicate Enabled(s: State, name: string, step: Step) {
    match step
    case Arrive(rows) => Growth(s.source, rows)
    case Perform(strategy, _, fault) => Possible(fault, RowsOf(s, name, strategy))
  }

  function Next(s: State, name: string, step: Step): State {
    match step
    case Arrive(rows) => s.(source := s.source + rows)
    case Perform(strategy, storeEnabled, fault) => AfterRun(s, name, strategy, storeEnabled, fault)
  }

  predicate ValidTrace(s: State, name: string, steps: seq<Step>)
    decreases |steps|
  {
    steps != [] ==> Enabled(s, name, steps[0]) && ValidTrace(Next(s, name, steps[0]), name, steps[1..])
  }

  function Run(s: State, name: string, steps: seq<Step>): State
    decreases |steps|
  {
    if steps == [] then s else Run(Next(s, name, steps[0]), name, steps[1..])
  }

  /** Every run meets the exact condition of `RunIsSafeIffGuarded` in the state it starts from. */
  predicate GuardedTrace(s: State, name: string, steps: seq<Step>)
    decreases |steps|
  {
    steps != [] ==>
      && (steps[0].Perform? ==> Guarded(s, name, steps[0].strategy, steps[0].storeEnabled))
      && GuardedTrace(Next(s, name, steps[0]), name, steps[1..])
  }

  lemma RunKeepsInv(s: State, name: string, strategy: Strategy, storeEnabled: bool, fault: Fault)
    requires Inv(s, name) && Possible(fault, RowsOf(s, name, strategy)) && Guarded(s, name, strategy, storeEnabled)
    ensures Inv(AfterRun(s, name, strategy, storeEnabled, fault), name)
  {
    if strategy.Full? {
      FullRunKeepsInv(s, name, storeEnabled, fault);
    } else {
      IncrementalRunKeepsNoLostRows(s, name, storeEnabled, fault);
      IncrementalRunKeepsExactness(s, name, storeEnabled, fault);
    }
  }

  lemma StepKeepsInv(s: State, name: string, step: Step)
    requires Inv(s, name) && Enabled(s, name, step)
    requires step.Perform? ==> Guarded(s, name, step.strategy, step.storeEnabled)
    ensures Inv(Next(s, name, step), name)
  {
    match step {
      case Arrive(rows) =>
        GrowthKeepsInv(s, name, rows);
      case Perform(strategy, storeEnabled, fault) =>
        RunKeepsInv(s, name, strategy, storeEnabled, fault);
    }
  }

  /** Any interleaving of arrivals with guarded runs, full and incremental, that fail or not. */
  lemma {:induction false} NoRowIsEverLost(s: State, name: string, steps: seq<Step>)
    requires Inv(s, name) && ValidTrace(s, name, steps) && GuardedTrace(s, name, steps)
    ensures Inv(Run(s, name, steps), name)
    decreases |steps|
  {
    if steps != [] {
      StepKeepsInv(s, name, steps[0]);
      NoRowIsEverLost(Next(s, name, steps[0]), name, steps[1..]);
    }
  }

  ghost predicate PositiveKeys(rows: seq<Row>) {
    forall row | row in rows :: row.key > 0
  }

  /** Keys that arrive are positive, and full runs have the mark store enabled. */
  ghost predicate IsOrdinary(step: Step) {
    match step
    case Arrive(rows) => PositiveKeys(rows)
    case Perform(strategy, storeEnabled, _) => strategy.Full? ==> storeEnabled
  }

  lemma OrdinaryRunIsGuarded(s: State, name: string, strategy: Strategy, storeEnabled: bool)
    requires MarkAttained(s, name) && PositiveKeys(s.source) && (strategy.Full? ==> storeEnabled)
    ensures Guarded(s, name, strategy, storeEnabled)
  {
  }

  lemma StepKeepsPositiveKeys(s: State, name: string, step: Step)
    requires PositiveKeys(s.source) && IsOrdinary(step)
    ensures PositiveKeys(Next(s, name, step).source)
  {
    assert step.Perform? ==> Next(s, name, step).source == s.source;
  }

  /** With positive keys, and the mark store enabled in full runs, every run of a history is guarded. */
  lemma {:induction false} OrdinaryTracesAreGuarded(s: State, name: string, steps: seq<Step>)
    requires Inv(s, name) && PositiveKeys(s.source) && ValidTrace(s, name, steps)
    requires forall i | 0 <= i < |steps| :: IsOrdinary(steps[i])
    ensures GuardedTrace(s, name, steps)
    decreases |steps|
  {
    if steps != [] {
      if steps[0].Perform? {
        OrdinaryRunIsGuarded(s, name, steps[0].strategy, steps[0].storeEnabled);
      }
      StepKeepsInv(s, name, steps[0]);
      StepKeepsPositiveKeys(s, name, steps[0]);
      OrdinaryTracesAreGuarded(Next(s, name, steps[0]), name, steps[1..]);
    }
  }

  /** A transfer that has never run loses nothing in such a history, whatever its target already holds. */
  lemma NeverRunIsSafe(s: State, name: string, steps: seq<Step>)
    requires MarkOf(s.marks, name) == None && !s.clean && PositiveKeys(s.source) && ValidTrace(s, name, steps)
    requires forall i | 0 <= i < |steps| :: IsOrdinary(steps[i])
    ensures NoLostRows(Run(s, name, steps), name)
    ensures Run(s, name, steps).clean ==> multiset(Run(s, name, steps).target) == multiset(Run(s, name, steps).lastRead)
  {
    OrdinaryTracesAreGuarded(s, name, steps);
    NoRowIsEverLost(s, name, steps);
  }

  /** A run of one transfer leaves every other transfer's mark alone. */
  lemma OtherMarksUntouched(s: State, name: string, other: string, strategy: Strategy, storeEnabled: bool, fault: Fault)
    requires other != name
    ensures MarkOf(AfterRun(s, name, strategy, storeEnabled, fault).marks, other) == MarkOf(s.marks, other)
  {
  }

  // ---------------------------------------------------------------------------
  // What successful runs do
  // ---------------------------------------------------------------------------

  /** A successful incremental run over a table with rows leaves a mark, and that is the key of the newest row. */
  lemma SuccessfulRunStoresMark(s: State, name: string, storeEnabled: bool)
    requires MarkAttained(s, name) && s.source != []
    ensures var mark := MarkOf(AfterRun(s, name, Incremental, storeEnabled, NoFault).marks, name);
            && mark.Some?
            && (exists row :: row in s.source && row.key == mark.value)
            && (forall row | row in s.source :: row.key <= mark.value)
            && (forall row | row in RowsOf(s, name, Incremental) :: row.key <= mark.value)
  {
    var before, read := MarkOf(s.marks, name), RowsOf(s, name, Incremental);
    ReadIsComplete(s.source, before);
    assert before.None? ==> read == s.source;
    forall row | row in read
      ensures row in s.source
    {
      if before.Some? { AboveCounts(s.source, before.value, row); }
    }
  }

  lemma {:induction false} NothingAbove(rows: seq<Row>, mark: int)
    requires forall row | row in rows :: row.key <= mark
    ensures Above(rows, mark) == []
  {
    if rows != [] {
      NothingAbove(rows[1..], mark);
    }
  }

  /** The next run without arrivals in between reads nothing and changes nothing that is stored. */
  lemma NothingIsReadAgain(s: State, name: string, storeEnabled: bool)
    requires MarkAttained(s, name) && Guarded(s, name, Incremental, storeEnabled) && PositiveKeys(s.source)
    ensures var t := AfterRun(s, name, Incremental, storeEnabled, NoFault);
            && RowsOf(t, name, Incremental) == []
            && MarkOf(AfterRun(t, name, Incremental, storeEnabled, NoFault).marks, name) == MarkOf(t.marks, name)
            && AfterRun(t, name, Incremental, storeEnabled, NoFault).target == t.target
  {
    var t := AfterRun(s, name, Incremental, storeEnabled, NoFault);
    if s.source != [] {
      SuccessfulRunStoresMark(s, name, storeEnabled);
      NothingAbove(s.source, MarkOf(t.marks, name).value);
      assert t.target + [] == t.target;
    }
  }

  /** A successful full run with the store enabled copies the table and leaves no mark that counts. */
  lemma SuccessfulFullRunCopies(s: State, name: string)
    requires MarkOf(s.marks, name) != Some(0)
    ensures var t := AfterRun(s, name, Full, true, NoFault);
            t.source == s.source && t.target == s.source && t.clean && MarkOf(t.marks, name) == None
  {
  }
}
