/**
 Running a pipeline level by level: submit every open run of a level as a job, wait for all
 of them, and after a failure with strategy Stop cancel what the later levels hold.

 Whether a submission succeeds and how a job ends are not the executor's to decide; they
 are the functions `submits` and `ends` of the plan, `ends` covering the deadline and a
 vanished job too. Any access to the stores may fail, which ends the execution with an
 error: `fails` says which do. Rows of the step store are keyed by run name.
 */
module DagExecutor {
  import opened DagGraph
  import opened RunNames
  import opened Wrappers

  datatype JobState = Succeeded | Failed | Cancelled | TimedOut

  datatype StepState = Pending | Ready | Running | Passed | Broken | Skipped | Stopped

  datatype Strategy = Stop | Continue | Ignore

  datatype RunState = RunSucceeded | RunFailed | RunDegraded

  predicate IsTerminal(s: StepState) {
    s.Passed? || s.Broken? || s.Skipped? || s.Stopped?
  }

  datatype Plan = Plan(
    /** The runs of each level. */
    runs: seq<seq<Run>>,
    strategy: map<Run, Strategy>,
    submits: Run -> bool,
    ends: Run -> Option<JobState>)

  type Store = map<Run, StepState>

  function LevelRuns(p: Plan, i: nat): seq<Run>
    requires i < |p.runs|
  {
    p.runs[i]
  }

  /** Run names are unique, within and across levels, and every run has its row and its strategy. */
  ghost predicate Sound(p: Plan, store: Store) {
    && (forall i :: 0 <= i < |p.runs| ==> Distinct(LevelRuns(p, i)))
    && (forall i, j, q :: 0 <= i < j < |p.runs| && q in LevelRuns(p, i) ==> q !in LevelRuns(p, j))
    && (forall i, q :: 0 <= i < |p.runs| && q in LevelRuns(p, i) ==> q in store && q in p.strategy)
  }

  // ---------------------------------------------------------------------------
  // What becomes of a run
  // ---------------------------------------------------------------------------

  /** Only runs skipped or cancelled beforehand are not submitted. */
  predicate IsOpen(s: StepState) { !s.Skipped? && !s.Stopped? }

  function Ended(j: Option<JobState>): StepState {
    match j
    case Some(Succeeded) => Passed
    case Some(Cancelled) => Stopped
    case _ => Broken
  }

  /** The end of a run whose level is executed. */
  function Executed(p: Plan, was: StepState, q: Run): StepState {
    if !IsOpen(was) then was else if p.submits(q) then Ended(p.ends(q)) else Broken
  }

  /** The end of a run whose level comes after a failure that stops the pipeline. */
  function Closed(was: StepState): StepState {
    if IsTerminal(was) then was else Stopped
  }

  ghost predicate FailsAt(p: Plan, init: Store, i: nat)
    requires i < |p.runs| && Sound(p, init)
  {
    exists q :: q in LevelRuns(p, i) && Executed(p, init[q], q) == Broken
  }

  ghost predicate StopsAt(p: Plan, init: Store, i: nat)
    requires i < |p.runs| && Sound(p, init)
  {
    exists q :: q in LevelRuns(p, i) && Executed(p, init[q], q) == Broken && p.strategy[q] == Stop
  }

  ghost predicate StoppedBefore(p: Plan, init: Store, i: nat)
    requires i <= |p.runs| && Sound(p, init)
  {
    exists j :: 0 <= j < i && StopsAt(p, init, j)
  }

  ghost predicate FailedBefore(p: Plan, init: Store, i: nat)
    requires i <= |p.runs| && Sound(p, init)
  {
    exists j :: 0 <= j < i && !StoppedBefore(p, init, j) && FailsAt(p, init, j)
  }

  ghost function EndState(p: Plan, init: Store, i: nat, q: Run): StepState
    requires i < |p.runs| && Sound(p, init) && q in LevelRuns(p, i)
  {
    if StoppedBefore(p, init, i) then Closed(init[q]) else Executed(p, init[q], q)
  }

  /** The first `i` levels have reached their end, the others are untouched. */
  ghost predicate DoneUpTo(p: Plan, init: Store, store: Store, i: nat)
    requires i <= |p.runs| && Sound(p, init)
  {
    && store.Keys == init.Keys
    && (forall k, q :: 0 <= k < i && q in LevelRuns(p, k) ==> store[q] == EndState(p, init, k, q))
    && (forall k, q :: i <= k < |p.runs| && q in LevelRuns(p, k) ==> store[q] == init[q])
  }

  lemma EndIsTerminal(p: Plan, init: Store, i: nat, q: Run)
    requires i < |p.runs| && Sound(p, init) && q in LevelRuns(p, i)
    ensures IsTerminal(EndState(p, init, i, q))
  {
  }

  lemma StopLasts(p: Plan, init: Store, i: nat, k: nat)
    requires Sound(p, init) && i <= k <= |p.runs|
    ensures StoppedBefore(p, init, i) ==> StoppedBefore(p, init, k)
  {
  }

  /** There is a first level that stops the pipeline, if any does. */
  lemma {:induction false} FirstStop(p: Plan, init: Store, i: nat) returns (j: nat)
    requires i <= |p.runs| && Sound(p, init) && StoppedBefore(p, init, i)
    ensures j < i && StopsAt(p, init, j) && !StoppedBefore(p, init, j)
    decreases i
  {
    j :| 0 <= j < i && StopsAt(p, init, j);
    if StoppedBefore(p, init, j) {
      j := FirstStop(p, init, j);
    }
  }

  function FinalState(failed: bool, stopped: bool): RunState {
    if stopped then RunFailed else if failed then RunDegraded else RunSucceeded
  }

  ghost predicate SomeBroken(p: Plan, store: Store) {
    exists i, q :: 0 <= i < |p.runs| && q in LevelRuns(p, i) && q in store && store[q] == Broken
  }

  ghost predicate SomeStopBroken(p: Plan, store: Store) {
    exists i, q :: 0 <= i < |p.runs| && q in LevelRuns(p, i) && q in store && q in p.strategy
                   && store[q] == Broken && p.strategy[q] == Stop
  }

  lemma BrokenIff(p: Plan, init: Store, store: Store, i: nat, q: Run)
    requires Sound(p, init) && DoneUpTo(p, init, store, |p.runs|)
    requires i < |p.runs| && q in LevelRuns(p, i) && !StoppedBefore(p, init, i)
    ensures store[q] == Broken <==> Executed(p, init[q], q) == Broken
  {
    assert store[q] == EndState(p, init, i, q);
    assert q in init;
  }

  lemma StopMeansBroken(p: Plan, init: Store, store: Store)
    requires Sound(p, init) && DoneUpTo(p, init, store, |p.runs|)
    ensures StoppedBefore(p, init, |p.runs|) <==> SomeStopBroken(p, store)
  {
    if StoppedBefore(p, init, |p.runs|) {
      var j := FirstStop(p, init, |p.runs|);
      var q :| q in LevelRuns(p, j) && Executed(p, init[q], q) == Broken && p.strategy[q] == Stop;
      BrokenIff(p, init, store, j, q);
    }
    if SomeStopBroken(p, store) {
      var i, q :| 0 <= i < |p.runs| && q in LevelRuns(p, i) && q in store && q in p.strategy
                  && store[q] == Broken && p.strategy[q] == Stop;
      if StoppedBefore(p, init, i) {
        StopLasts(p, init, i, |p.runs|);
      } else {
        BrokenIff(p, init, store, i, q);
        assert StopsAt(p, init, i);
      }
    }
  }

  lemma FailureMeansBroken(p: Plan, init: Store, store: Store)
    requires Sound(p, init) && DoneUpTo(p, init, store, |p.runs|)
    ensures FailedBefore(p, init, |p.runs|) <==> SomeBroken(p, store)
  {
    if FailedBefore(p, init, |p.runs|) {
      var j :| 0 <= j < |p.runs| && !StoppedBefore(p, init, j) && FailsAt(p, init, j);
      var q :| q in LevelRuns(p, j) && Executed(p, init[q], q) == Broken;
      BrokenIff(p, init, store, j, q);
    }
    if SomeBroken(p, store) {
      var i, q :| 0 <= i < |p.runs| && q in LevelRuns(p, i) && q in store && store[q] == Broken;
      if StoppedBefore(p, init, i) {
        var j := FirstStop(p, init, i);
        assert FailsAt(p, init, j);
      } else {
        BrokenIff(p, init, store, i, q);
        assert FailsAt(p, init, i);
      }
    }
  }

  /** Every run that was reached is terminal, and the state says which of them failed. */
  ghost predicate Concluded(p: Plan, store: Store, state: RunState) {
    && (forall i, q :: 0 <= i < |p.runs| && q in LevelRuns(p, i) ==> q in store && IsTerminal(store[q]))
    && (state == RunFailed <==> SomeStopBroken(p, store))
    && (state == RunDegraded <==> SomeBroken(p, store) && !SomeStopBroken(p, store))
    && (state == RunSucceeded <==> !SomeBroken(p, store))
  }

  /**
   When the levels have finished, every run they reach is terminal, and the pipeline run is
   Failed exactly when some run failed with strategy Stop, Degraded exactly when some run
   failed but none with Stop, and Succeeded exactly when none failed. Rows that had failed
   before are no exception: they are submitted again, or kept after a stop.
   */
  lemma FinalStateMeans(p: Plan, init: Store, store: Store)
    requires Sound(p, init) && DoneUpTo(p, init, store, |p.runs|)
    ensures Concluded(p, store, FinalState(FailedBefore(p, init, |p.runs|), StoppedBefore(p, init, |p.runs|)))
  {
    forall i, q | 0 <= i < |p.runs| && q in LevelRuns(p, i)
      ensures IsTerminal(store[q])
    {
      EndIsTerminal(p, init, i, q);
    }
    StopMeansBroken(p, init, store);
    FailureMeansBroken(p, init, store);
    assert SomeStopBroken(p, store) ==> SomeBroken(p, store);
  }

  // ---------------------------------------------------------------------------
  // No run starts early
  // ---------------------------------------------------------------------------

  /** A call of the job submitter, with the step store as it was then. */
  datatype Submission = Submission(run: Run, store: Store)

  /** All runs of the levels before the `i`-th are terminal. */
  ghost predicate EarlierOver(p: Plan, store: Store, i: nat)
    requires i <= |p.runs|
  {
    forall k, q :: 0 <= k < i && q in LevelRuns(p, k) ==> q in store && IsTerminal(store[q])
  }

  /** The run belongs to level `i`, nothing stopped the pipeline before, and all earlier levels are over. */
  ghost predicate InTurn(p: Plan, init: Store, e: Submission, i: nat)
    requires Sound(p, init)
  {
    && i < |p.runs| && e.run in LevelRuns(p, i) && !StoppedBefore(p, init, i)
    && EarlierOver(p, e.store, i)
  }

  /** The runs of a list of steps, step by step. */
  function RunsOf(runsOf: map<Name, seq<Run>>, names: seq<Name>): seq<Run> {
    if names == [] then []
    else RunsOf(runsOf, names[..|names| - 1]) +
         (if names[|names| - 1] in runsOf then runsOf[names[|names| - 1]] else [])
  }

  /** The runs of each level. */
  function Expand(runsOf: map<Name, seq<Run>>, levels: Levels): seq<seq<Run>> {
    seq(|levels|, i requires 0 <= i < |levels| => RunsOf(runsOf, levels[i]))
  }

  function NamesOf(defs: seq<Step>): seq<Name> {
    seq(|defs|, i requires 0 <= i < |defs| => defs[i].name)
  }

  lemma DistinctAppend(a: seq<Run>, b: seq<Run>)
    requires Distinct(a) && Distinct(b) && forall q :: q in a ==> q !in b
    ensures Distinct(a + b)
  {
    var c := a + b;
    forall i, j | 0 <= i < j < |c|
      ensures c[i] != c[j]
    {
      assert i < |a| ==> c[i] in a;
      assert j >= |a| ==> c[j] in b;
    }
  }

  lemma {:induction false} LevelRunsMembers(runsOf: map<Name, seq<Run>>, runs: seq<Run>, names: seq<Name>, level: seq<Name>)
    requires Groups(runsOf, runs, names)
    ensures forall q :: q in RunsOf(runsOf, level) <==>
              q in runs && Original(q, names).Some? && Original(q, names).value in level
    ensures Distinct(runs) && Distinct(level) ==> Distinct(RunsOf(runsOf, level))
    decreases |level|
  {
    if level != [] {
      var n := level[|level| - 1];
      LevelRunsMembers(runsOf, runs, names, level[..|level| - 1]);
      AttributedMembers(runs, names, n);
      assert level == level[..|level| - 1] + [n];
      if Distinct(runs) && Distinct(level) {
        DistinctAppend(RunsOf(runsOf, level[..|level| - 1]), Attributed(runs, names, n));
      }
    }
  }

  /** Where the runs come from: the levels of the definitions, and the runs grouped by name. */
  ghost predicate Planned(p: Plan, defs: seq<Step>, runs: seq<Run>, levels: Levels) {
    && Layered(levels, defs) && |p.runs| == |levels|
    && (forall i, q :: 0 <= i < |levels| ==> (q in LevelRuns(p, i) <==> HasLevel(runs, NamesOf(defs), levels[i], q)))
    && (forall i :: 0 <= i < |levels| ==> Distinct(LevelRuns(p, i)))
  }

  ghost predicate HasLevel(runs: seq<Run>, names: seq<Name>, level: seq<Name>, q: Run) {
    q in runs && Original(q, names).Some? && Original(q, names).value in level
  }

  lemma ExpandIsPlanned(p: Plan, defs: seq<Step>, runs: seq<Run>, levels: Levels, runsOf: map<Name, seq<Run>>)
    requires Layered(levels, defs) && Groups(runsOf, runs, NamesOf(defs)) && Distinct(runs)
    requires p.runs == Expand(runsOf, levels)
    ensures Planned(p, defs, runs, levels)
  {
    forall i | 0 <= i < |levels|
      ensures forall q :: q in LevelRuns(p, i) <==> HasLevel(runs, NamesOf(defs), levels[i], q)
      ensures Distinct(LevelRuns(p, i))
    {
      LevelRunsMembers(runsOf, runs, NamesOf(defs), levels[i]);
    }
  }

  /** The plan made from the definitions and the runs' names is sound. */
  lemma {:induction false} PlanIsSound(p: Plan, defs: seq<Step>, runs: seq<Run>, levels: Levels, store: Store)
    requires Planned(p, defs, runs, levels)
    requires forall q :: q in runs ==> q in store && q in p.strategy
    ensures Sound(p, store)
  {
  }

  /** Run `q` belongs to a step that the step of the submitted run needs. */
  ghost predicate WaitedFor(names: seq<Name>, runs: seq<Run>, defs: seq<Step>, e: Submission, s: Step, d: Name, q: Run) {
    && s in defs && Original(e.run, names) == Some(s.name)
    && d in s.needs && q in runs && Original(q, names) == Some(d)
  }

  lemma NeedLevel(levels: Levels, defs: seq<Step>, i: nat, s: Step, d: Name) returns (j: nat)
    requires Layered(levels, defs) && i < |levels| && s in defs && s.name in levels[i] && d in s.needs
    ensures j < i && d in levels[j]
  {
    assert NeedsMet(levels, i, s);
    j :| 0 <= j < i && d in levels[j];
  }

  /** No job is submitted before all runs of the steps it needs are terminal. */
  lemma NeedsAreTerminal(p: Plan, defs: seq<Step>, runs: seq<Run>, levels: Levels, init: Store,
                         e: Submission, s: Step, d: Name, q: Run)
    requires Planned(p, defs, runs, levels) && Sound(p, init) && exists i :: InTurn(p, init, e, i)
    requires WaitedFor(NamesOf(defs), runs, defs, e, s, d, q)
    ensures q in e.store && IsTerminal(e.store[q])
  {
    var i: nat :| InTurn(p, init, e, i);
    assert HasLevel(runs, NamesOf(defs), levels[i], e.run);
    var j := NeedLevel(levels, defs, i, s, d);
    assert HasLevel(runs, NamesOf(defs), levels[j], q);
    assert q in LevelRuns(p, j);
  }

  /** Later levels after a stop: nothing was submitted, and every open run ends cancelled. */
  lemma {:induction false} NothingAfterStop(p: Plan, init: Store, store: Store, log: seq<Submission>, i: nat, q: Run)
    requires Sound(p, init) && DoneUpTo(p, init, store, |p.runs|)
    requires forall e :: e in log ==> exists k :: InTurn(p, init, e, k)
    requires i < |p.runs| && StoppedBefore(p, init, i) && q in LevelRuns(p, i)
    ensures forall e :: e in log ==> e.run != q
    ensures store[q] == if IsTerminal(init[q]) then init[q] else Stopped
  {
    forall e | e in log
      ensures e.run != q
    {
      var k: nat :| InTurn(p, init, e, k);
      if k < i {
        assert e.run !in LevelRuns(p, i);
      } else {
        StopLasts(p, init, i, k);
      }
    }
    assert store[q] == EndState(p, init, i, q);
  }

  // ---------------------------------------------------------------------------
  // The executor
  // ---------------------------------------------------------------------------

  /** A run's state once its level has been submitted. */
  function Started(p: Plan, was: StepState, q: Run): StepState {
    if !IsOpen(was) then was else if p.submits(q) then Running else Broken
  }

  predicate Refused(p: Plan, was: StepState, q: Run) {
    IsOpen(was) && !p.submits(q)
  }

  ghost predicate AnyRefused(p: Plan, init: Store, runs: seq<Run>) {
    exists q :: q in runs && q in init && Refused(p, init[q], q)
  }

  ghost predicate AnyStopRefused(p: Plan, init: Store, runs: seq<Run>) {
    exists q :: q in runs && q in init && q in p.strategy && Refused(p, init[q], q) && p.strategy[q] == Stop
  }

  ghost predicate AnyBad(p: Plan, runs: seq<Run>) {
    exists q :: q in runs && Ended(p.ends(q)) == Broken
  }

  ghost predicate AnyStopBad(p: Plan, runs: seq<Run>) {
    exists q :: q in runs && q in p.strategy && Ended(p.ends(q)) == Broken && p.strategy[q] == Stop
  }

  /** `submitted` are the accepted runs among `runs`, in order and once each. */
  ghost predicate Accepted(p: Plan, init: Store, runs: seq<Run>, submitted: seq<Run>) {
    && Distinct(submitted)
    && (forall q :: q in submitted <==> q in runs && q in init && IsOpen(init[q]) && p.submits(q))
  }

  /** The store after submitting `runs`, when it was `before` and those runs stood as in `init`. */
  ghost predicate StartedAll(p: Plan, init: Store, before: Store, store: Store, runs: seq<Run>) {
    && store.Keys == before.Keys == init.Keys
    && (forall q :: q in store && q !in runs ==> store[q] == before[q])
    && (forall q :: q in store && q in runs ==> store[q] == Started(p, init[q], q))
  }

  ghost predicate EndedAll(p: Plan, before: Store, store: Store, runs: seq<Run>) {
    && store.Keys == before.Keys
    && (forall q :: q in store ==> store[q] == if q in runs then Ended(p.ends(q)) else before[q])
  }

  /** The runs submitted so far, in order. */
  function Sent(log: seq<Submission>): seq<Run> {
    seq(|log|, i requires 0 <= i < |log| => log[i].run)
  }

  function OpenOnes(init: Store, runs: seq<Run>): seq<Run> {
    if runs == [] then []
    else OpenOnes(init, runs[..|runs| - 1]) +
         if runs[|runs| - 1] in init && IsOpen(init[runs[|runs| - 1]]) then [runs[|runs| - 1]] else []
  }

  /** What level `k` submits: its open runs, unless an earlier level stopped the pipeline. */
  ghost function DueIn(p: Plan, init: Store, k: nat): seq<Run>
    requires k < |p.runs| && Sound(p, init)
  {
    if StoppedBefore(p, init, k) then [] else OpenOnes(init, LevelRuns(p, k))
  }

  ghost function Turns(p: Plan, init: Store): seq<seq<Run>>
    requires Sound(p, init)
  {
    seq(|p.runs|, k requires 0 <= k < |p.runs| => DueIn(p, init, k))
  }

  function Flat(ss: seq<seq<Run>>, i: nat): seq<Run>
    requires i <= |ss|
  {
    if i == 0 then [] else Flat(ss, i - 1) + ss[i - 1]
  }

  /** What the first `i` levels submit. */
  ghost function Due(p: Plan, init: Store, i: nat): seq<Run>
    requires i <= |p.runs| && Sound(p, init)
  {
    Flat(Turns(p, init), i)
  }

  lemma {:induction false} FlatHas(ss: seq<seq<Run>>, i: nat, q: Run) returns (k: nat)
    requires i <= |ss| && q in Flat(ss, i)
    ensures k < i && q in ss[k]
  {
    if q in ss[i - 1] {
      k := i - 1;
    } else {
      k := FlatHas(ss, i - 1, q);
    }
  }

  lemma {:induction false} FlatKeeps(ss: seq<seq<Run>>, i: nat, k: nat, q: Run)
    requires k < i <= |ss| && q in ss[k]
    ensures q in Flat(ss, i)
  {
    if k < i - 1 {
      FlatKeeps(ss, i - 1, k, q);
    }
  }

  lemma {:induction false} FlatDistinct(ss: seq<seq<Run>>, i: nat)
    requires i <= |ss| && forall k :: 0 <= k < |ss| ==> Distinct(ss[k])
    requires forall j, k, q :: 0 <= j < k < |ss| && q in ss[j] ==> q !in ss[k]
    ensures Distinct(Flat(ss, i))
  {
    if i > 0 {
      var was, now := Flat(ss, i - 1), ss[i - 1];
      FlatDistinct(ss, i - 1);
      forall q | q in was
        ensures q !in now
      {
        var k := FlatHas(ss, i - 1, q);
      }
      DistinctAppend(was, now);
    }
  }

  lemma {:induction false} OpenOnesDistinct(init: Store, runs: seq<Run>)
    ensures forall q :: q in OpenOnes(init, runs) <==> q in runs && q in init && IsOpen(init[q])
    ensures Distinct(runs) ==> Distinct(OpenOnes(init, runs))
  {
    if runs != [] {
      OpenOnesDistinct(init, runs[..|runs| - 1]);
      assert runs == runs[..|runs| - 1] + [runs[|runs| - 1]];
    }
  }

  /** Run `q` is to be submitted with level `k`. */
  ghost predicate DueAt(p: Plan, init: Store, k: nat, q: Run)
    requires Sound(p, init)
  {
    k < |p.runs| && !StoppedBefore(p, init, k) && q in LevelRuns(p, k) && IsOpen(init[q])
  }

  lemma DueInIff(p: Plan, init: Store, k: nat, q: Run)
    requires k < |p.runs| && Sound(p, init)
    ensures q in DueIn(p, init, k) <==> DueAt(p, init, k, q)
  {
    OpenOnesDistinct(init, LevelRuns(p, k));
  }

  /** A run that is submitted is an open run of a level no stop came before. */
  lemma DueHasLevel(p: Plan, init: Store, i: nat, q: Run) returns (k: nat)
    requires i <= |p.runs| && Sound(p, init) && q in Due(p, init, i)
    ensures k < i && DueAt(p, init, k, q)
  {
    k := FlatHas(Turns(p, init), i, q);
    DueInIff(p, init, k, q);
  }

  /** Every open run of a level no stop came before is submitted. */
  lemma OpenIsDue(p: Plan, init: Store, i: nat, k: nat, q: Run)
    requires k < i <= |p.runs| && Sound(p, init) && DueAt(p, init, k, q)
    ensures q in Due(p, init, i)
  {
    DueInIff(p, init, k, q);
    FlatKeeps(Turns(p, init), i, k, q);
  }

  /** No run is submitted twice. */
  lemma DueOnce(p: Plan, init: Store, i: nat)
    requires i <= |p.runs| && Sound(p, init)
    ensures Distinct(Due(p, init, i))
  {
    var ss := Turns(p, init);
    forall k | 0 <= k < |ss|
      ensures Distinct(ss[k]) && forall q :: q in ss[k] ==> q in LevelRuns(p, k)
    {
      OpenOnesDistinct(init, LevelRuns(p, k));
    }
    forall j, k, q | 0 <= j < k < |ss| && q in ss[j]
      ensures q !in ss[k]
    {
      assert q in LevelRuns(p, j);
    }
    FlatDistinct(ss, i);
  }

  ghost predicate AllInTurn(p: Plan, init: Store, log: seq<Submission>)
    requires Sound(p, init)
  {
    forall e :: e in log ==> exists i :: InTurn(p, init, e, i)
  }

  /** Close every run of a level. */
  function CloseAll(store: Store, runs: seq<Run>): Store {
    map q | q in store :: if q in runs then Closed(store[q]) else store[q]
  }

  lemma NextRun(p: Plan, init: Store, before: Store, store: Store, i: nat, k: nat)
    requires Sound(p, init) && i < |p.runs| && k < |LevelRuns(p, i)|
    requires DoneUpTo(p, init, before, i) && StartedAll(p, init, before, store, LevelRuns(p, i)[..k])
    ensures LevelRuns(p, i)[k] in init && store.Keys == init.Keys
    ensures store[LevelRuns(p, i)[k]] == init[LevelRuns(p, i)[k]]
    ensures EarlierOver(p, store, i)
  {
    var runs := LevelRuns(p, i);
    assert runs[k] in runs && runs[k] !in runs[..k];
    forall j, r | 0 <= j < i && r in LevelRuns(p, j)
      ensures r in store && IsTerminal(store[r])
    {
      assert r !in runs && r !in runs[..k];
      EndIsTerminal(p, init, j, r);
    }
  }

  lemma StartNext(p: Plan, init: Store, before: Store, store: Store, runs: seq<Run>, k: nat)
    requires Distinct(runs) && k < |runs| && runs[k] in init
    requires StartedAll(p, init, before, store, runs[..k])
    ensures StartedAll(p, init, before, store[runs[k] := Started(p, init[runs[k]], runs[k])], runs[..k + 1])
  {
    assert runs[..k + 1] == runs[..k] + [runs[k]];
  }

  /** What submitting `runs` has come to: the accepted runs, and whether any was refused. */
  ghost predicate Submitted(p: Plan, init: Store, runs: seq<Run>, submitted: seq<Run>, failed: bool, stop: bool) {
    && Accepted(p, init, runs, submitted)
    && failed == AnyRefused(p, init, runs) && stop == AnyStopRefused(p, init, runs)
  }

  lemma AcceptNext(p: Plan, init: Store, runs: seq<Run>, k: nat, submitted: seq<Run>)
    requires Distinct(runs) && k < |runs| && runs[k] in init
    requires Accepted(p, init, runs[..k], submitted)
    ensures Accepted(p, init, runs[..k + 1],
                     if IsOpen(init[runs[k]]) && p.submits(runs[k]) then submitted + [runs[k]] else submitted)
  {
    assert runs[..k + 1] == runs[..k] + [runs[k]];
    assert runs[k] !in runs[..k];
  }

  lemma RefuseNext(p: Plan, init: Store, runs: seq<Run>, k: nat)
    requires k < |runs| && runs[k] in init && runs[k] in p.strategy
    ensures AnyRefused(p, init, runs[..k + 1]) <==> AnyRefused(p, init, runs[..k]) || Refused(p, init[runs[k]], runs[k])
    ensures AnyStopRefused(p, init, runs[..k + 1]) <==>
            AnyStopRefused(p, init, runs[..k]) || (Refused(p, init[runs[k]], runs[k]) && p.strategy[runs[k]] == Stop)
  {
    assert runs[..k + 1] == runs[..k] + [runs[k]];
  }

  lemma SubmitNext(p: Plan, init: Store, runs: seq<Run>, k: nat, submitted: seq<Run>, failed: bool, stop: bool)
    requires Distinct(runs) && k < |runs| && runs[k] in init && runs[k] in p.strategy
    requires Submitted(p, init, runs[..k], submitted, failed, stop)
    ensures var q := runs[k];
            Submitted(p, init, runs[..k + 1],
                      if IsOpen(init[q]) && p.submits(q) then submitted + [q] else submitted,
                      failed || Refused(p, init[q], q), stop || (Refused(p, init[q], q) && p.strategy[q] == Stop))
  {
    AcceptNext(p, init, runs, k, submitted);
    RefuseNext(p, init, runs, k);
  }

  lemma OpenNext(init: Store, runs: seq<Run>, k: nat)
    requires k < |runs| && runs[k] in init
    ensures OpenOnes(init, runs[..k + 1]) == OpenOnes(init, runs[..k]) + if IsOpen(init[runs[k]]) then [runs[k]] else []
  {
    assert runs[..k + 1][..k] == runs[..k];
  }

  /** Where the loop over a level's runs stands. */
  ghost predicate Submitting(p: Plan, init: Store, before: Store, store: Store, start: seq<Run>, sent: seq<Run>,
                             runs: seq<Run>, submitted: seq<Run>, failed: bool, stop: bool) {
    && StartedAll(p, init, before, store, runs)
    && Submitted(p, init, runs, submitted, failed, stop)
    && sent == start + OpenOnes(init, runs)
  }

  lemma SubmitOne(p: Plan, init: Store, before: Store, store: Store, start: seq<Run>, sent: seq<Run>,
                  runs: seq<Run>, k: nat, submitted: seq<Run>, failed: bool, stop: bool)
    requires Distinct(runs) && k < |runs| && runs[k] in init && runs[k] in p.strategy
    requires Submitting(p, init, before, store, start, sent, runs[..k], submitted, failed, stop)
    ensures var q, was := runs[k], init[runs[k]];
            Submitting(p, init, before, store[q := Started(p, was, q)], start, sent + (if IsOpen(was) then [q] else []),
                       runs[..k + 1], if IsOpen(was) && p.submits(q) then submitted + [q] else submitted,
                       failed || Refused(p, was, q), stop || (Refused(p, was, q) && p.strategy[q] == Stop))
  {
    StartNext(p, init, before, store, runs, k);
    SubmitNext(p, init, runs, k, submitted, failed, stop);
    OpenNext(init, runs, k);
  }

  lemma CancelCompletes(p: Plan, init: Store, before: Store, i: nat)
    requires Sound(p, init) && i < |p.runs| && StoppedBefore(p, init, i) && DoneUpTo(p, init, before, i)
    ensures DoneUpTo(p, init, CloseAll(before, LevelRuns(p, i)), i + 1)
    ensures StoppedBefore(p, init, i + 1) && FailedBefore(p, init, i + 1) == FailedBefore(p, init, i)
  {
    var store := CloseAll(before, LevelRuns(p, i));
    forall k, q | 0 <= k < i + 1 && q in LevelRuns(p, k)
      ensures store[q] == EndState(p, init, k, q)
    {
      assert k < i ==> q !in LevelRuns(p, i);
    }
    forall k, q | i + 1 <= k < |p.runs| && q in LevelRuns(p, k)
      ensures store[q] == init[q]
    {
      assert q !in LevelRuns(p, i);
    }
  }

  lemma WaitCompletes(p: Plan, init: Store, before: Store, started: Store, store: Store, submitted: seq<Run>, i: nat)
    requires Sound(p, init) && i < |p.runs| && !StoppedBefore(p, init, i) && DoneUpTo(p, init, before, i)
    requires StartedAll(p, init, before, started, LevelRuns(p, i))
    requires Accepted(p, init, LevelRuns(p, i), submitted)
    requires EndedAll(p, started, store, submitted)
    ensures DoneUpTo(p, init, store, i + 1)
  {
    forall k, q | 0 <= k < i + 1 && q in LevelRuns(p, k)
      ensures store[q] == EndState(p, init, k, q)
    {
      assert k < i ==> q !in LevelRuns(p, i);
    }
    forall k, q | i + 1 <= k < |p.runs| && q in LevelRuns(p, k)
      ensures store[q] == init[q]
    {
      assert q !in LevelRuns(p, i);
    }
  }

  lemma FlagsComplete(p: Plan, init: Store, submitted: seq<Run>, i: nat)
    requires Sound(p, init) && i < |p.runs| && !StoppedBefore(p, init, i)
    requires Accepted(p, init, LevelRuns(p, i), submitted)
    ensures FailedBefore(p, init, i + 1) <==>
            FailedBefore(p, init, i) || AnyRefused(p, init, LevelRuns(p, i)) || AnyBad(p, submitted)
    ensures StoppedBefore(p, init, i + 1) <==>
            AnyStopRefused(p, init, LevelRuns(p, i)) || AnyStopBad(p, submitted)
  {
    var runs := LevelRuns(p, i);
    forall q | q in runs
      ensures Executed(p, init[q], q) == Broken <==>
              Refused(p, init[q], q) || (q in submitted && Ended(p.ends(q)) == Broken)
    {
    }
    assert FailsAt(p, init, i) <==> AnyRefused(p, init, runs) || AnyBad(p, submitted);
    assert StopsAt(p, init, i) <==> AnyStopRefused(p, init, runs) || AnyStopBad(p, submitted);
  }

  lemma StillOver(p: Plan, init: Store, store: Store, i: nat, q: Run)
    requires Sound(p, init) && i < |p.runs| && q in LevelRuns(p, i) && EarlierOver(p, store, i)
    ensures EarlierOver(p, store[q := Running], i)
  {
    forall k, r | 0 <= k < i && r in LevelRuns(p, k)
      ensures r in store[q := Running] && IsTerminal(store[q := Running][r])
    {
      assert r !in LevelRuns(p, i);
    }
  }

  lemma LogOne(p: Plan, init: Store, log: seq<Submission>, e: Submission, i: nat)
    requires Sound(p, init) && AllInTurn(p, init, log) && InTurn(p, init, e, i)
    ensures AllInTurn(p, init, log + [e])
    ensures Sent(log + [e]) == Sent(log) + [e.run]
  {
  }

  /** Where the loop over the levels stands after `i` of them. */
  ghost predicate Reached(p: Plan, init: Store, store: Store, sent: seq<Run>, failed: bool, stop: bool, i: nat)
    requires i <= |p.runs| && Sound(p, init)
  {
    && DoneUpTo(p, init, store, i) && sent == Due(p, init, i)
    && failed == FailedBefore(p, init, i) && stop == StoppedBefore(p, init, i)
  }

  lemma AllWaited(p: Plan, defs: seq<Step>, runs: seq<Run>, levels: Levels, init: Store, log: seq<Submission>)
    requires Planned(p, defs, runs, levels) && Sound(p, init) && AllInTurn(p, init, log)
    ensures forall e, s, d, q :: WaitedFor(NamesOf(defs), runs, defs, e, s, d, q) && e in log
                                 ==> q in e.store && IsTerminal(e.store[q])
  {
    forall e, s, d, q | WaitedFor(NamesOf(defs), runs, defs, e, s, d, q) && e in log
      ensures q in e.store && IsTerminal(e.store[q])
    {
      NeedsAreTerminal(p, defs, runs, levels, init, e, s, d, q);
    }
  }

  class Executor {
    /** The step store. */
    var steps: Store
    /** Every call of the job submitter so far. */
    var log: seq<Submission>
    /** Whether the n-th access to the stores fails. */
    const fails: nat -> bool
    var accesses: nat

    constructor (steps: Store, fails: nat -> bool)
      ensures this.steps == steps && this.fails == fails && log == []
    {
      this.steps, this.fails, accesses, log := steps, fails, 0, [];
    }

    ghost predicate Reliable() {
      forall n: nat :: !fails(n)
    }

    /** An access to a store: it may fail. */
    method Access() returns (ok: bool)
      modifies this`accesses
      ensures ok <==> !fails(old(accesses))
      ensures accesses == old(accesses) + 1
    {
      ok := !fails(accesses);
      accesses := accesses + 1;
    }

    /** Change a row: read it, then write it back. */
    method Update(q: Run, s: StepState) returns (ok: bool)
      modifies this`accesses, this`steps
      ensures steps == if ok then old(steps)[q := s] else old(steps)
      ensures ok <==> !fails(old(accesses)) && !fails(old(accesses) + 1)
    {
      ok := Access();
      if !ok { return; }
      ok := Access();
      if ok {
        steps := steps[q := s];
      }
    }

    /** Submit one run of a level unless it was skipped or cancelled. */
    method SubmitRun(p: Plan, i: nat, q: Run, ghost init: Store) returns (ok: bool, sent: bool, refused: bool)
      requires Sound(p, init) && i < |p.runs| && q in LevelRuns(p, i) && !StoppedBefore(p, init, i)
      requires steps.Keys == init.Keys && steps[q] == init[q]
      requires EarlierOver(p, steps, i)
      requires AllInTurn(p, init, log)
      modifies this
      ensures AllInTurn(p, init, log) && old(log) <= log
      ensures Reliable() ==> ok
      ensures ok ==> steps == old(steps)[q := Started(p, init[q], q)]
      ensures ok ==> sent == (IsOpen(init[q]) && p.submits(q)) && refused == Refused(p, init[q], q)
      ensures ok ==> Sent(log) == Sent(old(log)) + if IsOpen(init[q]) then [q] else []
    {
      sent, refused := false, false;
      ok := Access();
      if !ok { return; }
      if !IsOpen(steps[q]) {
        assert steps == steps[q := init[q]];
        return;
      }
      ok := Update(q, Running);
      if !ok { return; }
      StillOver(p, init, old(steps), i, q);
      LogOne(p, init, log, Submission(q, steps), i);
      log := log + [Submission(q, steps)];
      if p.submits(q) {
        ok := Update(q, Running);
        sent := true;
      } else {
        ok := Update(q, Broken);
        refused := true;
      }
    }

    /** `submit_level` */
    method SubmitLevel(p: Plan, i: nat, ghost init: Store)
      returns (ok: bool, submitted: seq<Run>, failed: bool, stop: bool)
      requires Sound(p, init) && i < |p.runs| && !StoppedBefore(p, init, i)
      requires DoneUpTo(p, init, steps, i) && AllInTurn(p, init, log)
      modifies this
      ensures AllInTurn(p, init, log)
      ensures Reliable() ==> ok
      ensures ok ==> StartedAll(p, init, old(steps), steps, LevelRuns(p, i))
      ensures ok ==> Submitted(p, init, LevelRuns(p, i), submitted, failed, stop)
      ensures ok ==> Sent(log) == Sent(old(log)) + OpenOnes(init, LevelRuns(p, i))
    {
      ok, submitted, failed, stop := true, [], false, false;
      var runs := LevelRuns(p, i);
      ghost var before, start := steps, Sent(log);
      for k := 0 to |runs|
        invariant ok && AllInTurn(p, init, log)
        invariant Submitting(p, init, before, steps, start, Sent(log), runs[..k], submitted, failed, stop)
      {
        var q := runs[k];
        NextRun(p, init, before, steps, i, k);
        SubmitOne(p, init, before, steps, start, Sent(log), runs, k, submitted, failed, stop);
        var sent, refused;
        ok, sent, refused := SubmitRun(p, i, q, init);
        if !ok { return; }
        if sent {
          submitted := submitted + [q];
        }
        if refused {
          failed := true;
          if p.strategy[q] == Stop {
            stop := true;
          }
        }
      }
      assert runs[..|runs|] == runs;
    }

    /** `wait_level` */
    method WaitLevel(p: Plan, submitted: seq<Run>) returns (ok: bool, failed: bool, stop: bool)
      requires forall q :: q in submitted ==> q in steps && q in p.strategy
      requires Distinct(submitted)
      modifies this`steps, this`accesses
      ensures Reliable() ==> ok
      ensures ok ==> EndedAll(p, old(steps), steps, submitted)
      ensures ok ==> failed == AnyBad(p, submitted) && stop == AnyStopBad(p, submitted)
    {
      ok, failed, stop := true, false, false;
      for k := 0 to |submitted|
        invariant ok && EndedAll(p, old(steps), steps, submitted[..k])
        invariant failed == AnyBad(p, submitted[..k]) && stop == AnyStopBad(p, submitted[..k])
      {
        var q := submitted[k];
        assert submitted[..k + 1] == submitted[..k] + [q];
        var s := Ended(p.ends(q));
        if s == Broken {
          ok := Access();
          if !ok { return; }
        }
        ok := Update(q, s);
        if !ok { return; }
        if s == Broken {
          failed := true;
          if p.strategy[q] == Stop {
            stop := true;
          }
        }
      }
      assert submitted[..|submitted|] == submitted;
    }

    /** `cancel_level_runs` */
    method CancelLevelRuns(p: Plan, i: nat) returns (ok: bool)
      requires i < |p.runs| && forall q :: q in LevelRuns(p, i) ==> q in steps
      modifies this`steps, this`accesses
      ensures Reliable() ==> ok
      ensures ok ==> steps == CloseAll(old(steps), LevelRuns(p, i))
    {
      ok := true;
      var runs := LevelRuns(p, i);
      assert steps == CloseAll(steps, runs[..0]);
      for k := 0 to |runs|
        invariant ok && steps == CloseAll(old(steps), runs[..k])
      {
        var q := runs[k];
        assert runs[..k + 1] == runs[..k] + [q];
        ok := Access();
        if !ok { return; }
        if !IsTerminal(steps[q]) {
          ok := Access();
          if !ok { return; }
          steps := steps[q := Stopped];
        }
        assert steps == CloseAll(old(steps), runs[..k + 1]);
      }
      assert runs[..|runs|] == runs;
    }

    /** A level that is executed: submit its runs, then wait for all of them. */
    method RunLevel(p: Plan, i: nat, ghost init: Store) returns (ok: bool, failed: bool, stop: bool)
      requires Sound(p, init) && i < |p.runs| && !StoppedBefore(p, init, i)
      requires DoneUpTo(p, init, steps, i) && AllInTurn(p, init, log)
      modifies this
      ensures AllInTurn(p, init, log)
      ensures Reliable() ==> ok
      ensures ok ==> DoneUpTo(p, init, steps, i + 1)
      ensures ok ==> Sent(log) == Sent(old(log)) + OpenOnes(init, LevelRuns(p, i))
      ensures ok ==> FailedBefore(p, init, i + 1) == (FailedBefore(p, init, i) || failed)
      ensures ok ==> StoppedBefore(p, init, i + 1) == stop
    {
      ghost var before := steps;
      var submitted, refused, refusedStop;
      ok, submitted, refused, refusedStop := SubmitLevel(p, i, init);
      failed, stop := refused, refusedStop;
      if !ok { return; }
      ghost var started := steps;
      var bad, badStop;
      ok, bad, badStop := WaitLevel(p, submitted);
      if !ok { return; }
      failed, stop := refused || bad, refusedStop || badStop;
      WaitCompletes(p, init, before, started, steps, submitted, i);
      FlagsComplete(p, init, submitted, i);
    }

    /** One round of the loop over the levels. */
    method NextLevel(p: Plan, i: nat, failed0: bool, stop0: bool, ghost init: Store)
      returns (ok: bool, failed: bool, stop: bool)
      requires Sound(p, init) && i < |p.runs| && AllInTurn(p, init, log)
      requires Reached(p, init, steps, Sent(log), failed0, stop0, i)
      modifies this
      ensures AllInTurn(p, init, log)
      ensures Reliable() ==> ok
      ensures ok ==> Reached(p, init, steps, Sent(log), failed, stop, i + 1)
    {
      failed, stop := failed0, stop0;
      if stop {
        CancelCompletes(p, init, steps, i);
        ok := CancelLevelRuns(p, i);
      } else {
        ok, failed, stop := RunLevel(p, i, init);
        failed := failed0 || failed;
      }
    }

    /** `execute_dag_levels` */
    method ExecuteDagLevels(p: Plan) returns (ok: bool, failed: bool, stop: bool)
      requires Sound(p, steps) && log == []
      modifies this
      ensures AllInTurn(p, old(steps), log)
      ensures Reliable() ==> ok
      ensures ok ==> Reached(p, old(steps), steps, Sent(log), failed, stop, |p.runs|)
    {
      ghost var init := steps;
      ok, failed, stop := true, false, false;
      for i := 0 to |p.runs|
        invariant ok && AllInTurn(p, init, log) && Reached(p, init, steps, Sent(log), failed, stop, i)
      {
        ok, failed, stop := NextLevel(p, i, failed, stop, init);
        if !ok { return; }
      }
    }

    /**
     `execute`: order the definitions, group the runs, execute the levels, and settle the
     state of the run. `None` stands for the error of a failed access.
     */
    method Execute(defs: seq<Step>, runs: seq<Run>, strategy: map<Run, Strategy>,
                   submits: Run -> bool, ends: Run -> Option<JobState>)
      returns (state: Option<RunState>, ghost levels: Levels, ghost p: Plan)
      requires DistinctNames(defs) && Distinct(runs) && log == []
      requires forall q :: q in runs ==> q in steps && q in strategy
      modifies this
      ensures Reliable() ==> state.Some?
      ensures Planned(p, defs, runs, levels) && Saturated(levels, defs)
      ensures p.strategy == strategy && p.submits == submits && p.ends == ends
      ensures Sound(p, old(steps)) && AllInTurn(p, old(steps), log)
      ensures forall e, s, d, q :: WaitedFor(NamesOf(defs), runs, defs, e, s, d, q) && e in log
                                   ==> q in e.store && IsTerminal(e.store[q])
      ensures state.Some? ==> Sent(log) == Due(p, old(steps), |p.runs|)
      ensures state.Some? ==> DoneUpTo(p, old(steps), steps, |p.runs|)
      ensures state.Some? ==> Concluded(p, steps, state.value)
    {
      ghost var init := steps;
      var order := TopologicalLevels(defs);
      var runsOf := BuildRunMaps(runs, NamesOf(defs));
      var plan := Plan(Expand(runsOf, order), strategy, submits, ends);
      p, levels := plan, order;
      ExpandIsPlanned(p, defs, runs, levels, runsOf);
      PlanIsSound(p, defs, runs, levels, steps);
      var ok, failed, stop := ExecuteDagLevels(plan);
      AllWaited(p, defs, runs, levels, init, log);
      if !ok { return None, levels, p; }
      FinalStateMeans(p, init, steps);
      state := Some(FinalState(failed, stop));
    }
  }
}
