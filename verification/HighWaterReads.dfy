/** Histories of arrivals and successful incremental runs: what is read, and what the target holds. */
module HighWaterReads {
  import opened HighWater
  import opened Wrappers

  /** Arrivals, and incremental runs that succeed. */
  predicate IsSmooth(step: Step) {
    step.Perform? ==> step.strategy.Incremental? && step.fault.NoFault?
  }

  predicate IsSmoothTrace(steps: seq<Step>) {
    forall i | 0 <= i < |steps| :: IsSmooth(steps[i])
  }

  function ArrivesIn(step: Step): seq<Row> {
    if step.Arrive? then step.rows else []
  }

  function Arrivals(steps: seq<Step>): seq<Row> {
    if steps == [] then [] else ArrivesIn(steps[0]) + Arrivals(steps[1..])
  }

  function ReadIn(s: State, name: string, step: Step): seq<Row> {
    if step.Perform? then RowsOf(s, name, step.strategy) else []
  }

  /** All that the runs of a history read, one after the other. */
  function ReadBy(s: State, name: string, steps: seq<Step>): seq<Row>
    decreases |steps|
  {
    if steps == [] then [] else ReadIn(s, name, steps[0]) + ReadBy(Next(s, name, steps[0]), name, steps[1..])
  }

  /** What has been read is a beginning of the table, and the mark separates it from the rest. */
  ghost predicate HasRead(s: State, name: string, read: seq<Row>) {
    var mark := MarkOf(s.marks, name);
    && read <= s.source && MarkAttained(s, name)
    && (mark.None? ==> read == [])
    && (mark.Some? ==>
        && (forall row | row in read :: row.key <= mark.value)
        && (forall i | |read| <= i < |s.source| :: s.source[i].key > mark.value))
  }

  lemma Associate<T>(a: seq<T>, b: seq<T>, c: seq<T>)
    ensures a + (b + c) == (a + b) + c
  {
  }

  lemma NothingMore<T>(a: seq<T>)
    ensures a + [] == a && [] + a == a
  {
  }

  lemma Halves<T>(a: seq<T>, b: seq<T>)
    requires a <= b
    ensures a + b[|a|..] == b && (a == [] ==> b[|a|..] == b)
  {
  }

  /** A successful run reads exactly what no earlier one has read. */
  lemma RunReadsTheRest(s: State, name: string, storeEnabled: bool, read: seq<Row>)
    requires HasRead(s, name, read)
    ensures RowsOf(s, name, Incremental) == s.source[|read|..]
    ensures HasRead(AfterRun(s, name, Incremental, storeEnabled, NoFault), name, s.source)
  {
    var mark := MarkOf(s.marks, name);
    if mark.Some? {
      AboveIsTheRest(s.source, mark.value, |read|);
    }
    if s.source != [] {
      SuccessfulRunStoresMark(s, name, storeEnabled);
    }
  }

  lemma ArrivalKeepsRead(s: State, name: string, rows: seq<Row>, read: seq<Row>)
    requires HasRead(s, name, read) && Growth(s.source, rows)
    ensures HasRead(s.(source := s.source + rows), name, read)
  {
    var mark, all := MarkOf(s.marks, name), s.source + rows;
    if mark.Some? {
      var top :| top in s.source && top.key == mark.value;
      var t :| 0 <= t < |s.source| && s.source[t] == top;
      assert top in all;
      forall i | |read| <= i < |all|
        ensures all[i].key > mark.value
      {
        assert i >= |s.source| ==> s.source[t].key < rows[i - |s.source|].key;
      }
    }
  }

  lemma StepReads(s: State, name: string, step: Step, read: seq<Row>)
    requires HasRead(s, name, read) && Enabled(s, name, step) && IsSmooth(step)
    ensures Next(s, name, step).source == s.source + ArrivesIn(step)
    ensures HasRead(Next(s, name, step), name, read + ReadIn(s, name, step))
    ensures step.Perform? ==> read + ReadIn(s, name, step) == s.source
  {
    NothingMore(s.source);
    NothingMore(read);
    if step.Arrive? {
      ArrivalKeepsRead(s, name, step.rows, read);
    } else {
      RunReadsTheRest(s, name, step.storeEnabled, read);
      Halves(read, s.source);
    }
  }

  lemma {:induction false} ReadsFrom(s: State, name: string, steps: seq<Step>, read: seq<Row>)
    requires HasRead(s, name, read) && ValidTrace(s, name, steps) && IsSmoothTrace(steps)
    ensures Run(s, name, steps).source == s.source + Arrivals(steps)
    ensures HasRead(Run(s, name, steps), name, read + ReadBy(s, name, steps))
    ensures steps != [] && steps[|steps| - 1].Perform? ==>
            read + ReadBy(s, name, steps) == Run(s, name, steps).source
    decreases |steps|
  {
    NothingMore(read);
    NothingMore(s.source);
    if steps != [] {
      var t, rest, now := Next(s, name, steps[0]), steps[1..], ReadIn(s, name, steps[0]);
      assert IsSmooth(steps[0]) && IsSmoothTrace(rest);
      StepReads(s, name, steps[0], read);
      ReadsFrom(t, name, rest, read + now);
      Associate(read, now, ReadBy(t, name, rest));
      Associate(s.source, ArrivesIn(steps[0]), Arrivals(rest));
      if rest == [] {
        NothingMore(now);
        NothingMore(ArrivesIn(steps[0]));
      } else {
        assert rest[|rest| - 1] == steps[|steps| - 1];
      }
    }
  }

  /**
   From no mark, over any history of arrivals and successful incremental runs: what the runs
   read, together with what the next one would, is the whole table, each row once and in order.
   */
  lemma EachRowIsReadOnce(s: State, name: string, steps: seq<Step>)
    requires MarkOf(s.marks, name) == None && ValidTrace(s, name, steps) && IsSmoothTrace(steps)
    ensures ReadBy(s, name, steps) + RowsOf(Run(s, name, steps), name, Incremental) == s.source + Arrivals(steps)
    ensures steps != [] && steps[|steps| - 1].Perform? ==> ReadBy(s, name, steps) == s.source + Arrivals(steps)
  {
    var t, read := Run(s, name, steps), ReadBy(s, name, steps);
    ReadsFrom(s, name, steps, []);
    NothingMore(read);
    RunReadsTheRest(t, name, true, read);
    Halves(read, t.source);
  }

  lemma SmoothRunWrites(s: State, name: string, storeEnabled: bool, read: seq<Row>)
    requires HasRead(s, name, read) && PositiveKeys(s.source) && (s.target == read || MarkOf(s.marks, name) == None)
    ensures AfterRun(s, name, Incremental, storeEnabled, NoFault).target == s.source
  {
    RunReadsTheRest(s, name, storeEnabled, read);
    Halves(read, s.source);
  }

  lemma {:induction false} TargetFrom(s: State, name: string, steps: seq<Step>, read: seq<Row>)
    requires HasRead(s, name, read) && s.target == read && PositiveKeys(s.source)
    requires ValidTrace(s, name, steps) && IsSmoothTrace(steps)
    requires forall i | 0 <= i < |steps| :: IsOrdinary(steps[i])
    ensures Run(s, name, steps).target == read + ReadBy(s, name, steps)
    decreases |steps|
  {
    NothingMore(read);
    if steps != [] {
      var t, rest, now := Next(s, name, steps[0]), steps[1..], ReadIn(s, name, steps[0]);
      assert IsSmooth(steps[0]) && IsSmoothTrace(rest) && IsOrdinary(steps[0]);
      StepKeepsPositiveKeys(s, name, steps[0]);
      StepReads(s, name, steps[0], read);
      if steps[0].Perform? {
        SmoothRunWrites(s, name, steps[0].storeEnabled, read);
      }
      TargetFrom(t, name, rest, read + now);
      Associate(read, now, ReadBy(t, name, rest));
    }
  }

  lemma FirstRunReplaces(s: State, name: string, steps: seq<Step>)
    requires MarkOf(s.marks, name) == None && PositiveKeys(s.source)
    requires steps != [] && steps[0].Perform? && ValidTrace(s, name, steps) && IsSmoothTrace(steps)
    requires forall i | 0 <= i < |steps| :: IsOrdinary(steps[i])
    ensures Run(s, name, steps).target == ReadBy(s, name, steps)
  {
    assert IsSmooth(steps[0]);
    SmoothRunWrites(s, name, steps[0].storeEnabled, []);
    RunReadsTheRest(s, name, steps[0].storeEnabled, []);
    TargetFrom(Next(s, name, steps[0]), name, steps[1..], s.source);
    Halves([], s.source);
  }

  /** With positive keys the target holds exactly what was read, from the first run on, whatever it held before. */
  lemma {:induction false} TargetIsWhatWasRead(s: State, name: string, steps: seq<Step>)
    requires MarkOf(s.marks, name) == None && PositiveKeys(s.source)
    requires ValidTrace(s, name, steps) && IsSmoothTrace(steps)
    requires forall i | 0 <= i < |steps| :: IsOrdinary(steps[i])
    requires exists i :: 0 <= i < |steps| && steps[i].Perform?
    ensures Run(s, name, steps).target == ReadBy(s, name, steps)
    decreases |steps|
  {
    if steps[0].Perform? {
      FirstRunReplaces(s, name, steps);
    } else {
      var t, rest := Next(s, name, steps[0]), steps[1..];
      var i :| 0 <= i < |steps| && steps[i].Perform?;
      assert rest[i - 1].Perform?;
      assert IsOrdinary(steps[0]);
      StepKeepsPositiveKeys(s, name, steps[0]);
      TargetIsWhatWasRead(t, name, rest);
      NothingMore(ReadBy(t, name, rest));
    }
  }
}
