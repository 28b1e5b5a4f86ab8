/**
 The record of a pipeline step has two writers. The pipeline executor enters its state and its
 job, and the log flusher of the job enters the progress of its substeps. Both read the whole
 record, change their part and write it back whole; only a cancelled level is entered by a write
 of the state alone. Any number of such updates may overlap.

 `due` is the record as it would be if every update had been made to the record as it stood.
 */
module StepRaces {
  import opened Wrappers
  import DagExecutor
  import SubstepMarkers
  import SubstepRows

  type WriterId = nat

  datatype Record = Record(state: DagExecutor.StepState, job: Option<string>, substeps: seq<SubstepRows.Row>)

  datatype Edit =
    | Begin(seed: seq<SubstepRows.Row>)
    | SetJob(job: string)
    | SetState(state: DagExecutor.StepState)
    | Fold(lines: seq<SubstepMarkers.LogLine>)

  datatype Shared = Shared(record: Record, due: Record, readers: map<WriterId, Record>)

  datatype Step =
    | Read(w: WriterId)
    | Write(w: WriterId, edit: Edit)
    | Skip(w: WriterId)
    | Patch(state: DagExecutor.StepState)

  function Seeded(rows: seq<SubstepRows.Row>, seed: seq<SubstepRows.Row>): seq<SubstepRows.Row> {
    if rows == [] then seed else rows
  }

  function Edited(e: Edit, r: Record): Record {
    match e
    case Begin(seed) => r.(state := DagExecutor.Running, substeps := Seeded(r.substeps, seed))
    case SetJob(job) => r.(job := Some(job))
    case SetState(state) => r.(state := state)
    case Fold(lines) => r.(substeps := SubstepRows.ApplyAll(r.substeps, lines))
  }

  predicate Enabled(s: Shared, step: Step) {
    match step
    case Read(w) => w !in s.readers
    case Write(w, _) => w in s.readers
    case Skip(w) => w in s.readers
    case Patch(_) => true
  }

  function Apply(s: Shared, step: Step): Shared
    requires Enabled(s, step)
  {
    match step
    case Read(w) => s.(readers := s.readers[w := s.record])
    case Write(w, e) => Shared(Edited(e, s.readers[w]), Edited(e, s.due), s.readers - {w})
    case Skip(w) => s.(readers := s.readers - {w})
    case Patch(state) => s.(record := s.record.(state := state), due := s.due.(state := state))
  }

  ghost predicate Runs(s: Shared, steps: seq<Step>, t: Shared)
    decreases |steps|
  {
    if steps == [] then t == s else Enabled(s, steps[0]) && Runs(Apply(s, steps[0]), steps[1..], t)
  }

  // ---------------------------------------------------------------------------
  // When an update is lost
  // ---------------------------------------------------------------------------

  /** Since the record was read, another writer has changed what this edit leaves alone or builds on. */
  predicate Stale(e: Edit, seen: Record, now: Record) {
    match e
    case Begin(seed) => seen.job != now.job || Seeded(seen.substeps, seed) != Seeded(now.substeps, seed)
    case SetJob(_) => seen.state != now.state || seen.substeps != now.substeps
    case SetState(_) => seen.job != now.job || seen.substeps != now.substeps
    case Fold(lines) =>
      || seen.state != now.state || seen.job != now.job
      || SubstepRows.ApplyAll(seen.substeps, lines) != SubstepRows.ApplyAll(now.substeps, lines)
  }

  ghost predicate KeptThroughout(s: Shared, steps: seq<Step>)
    decreases |steps|
  {
    s.record == s.due && (steps != [] && Enabled(s, steps[0]) ==> KeptThroughout(Apply(s, steps[0]), steps[1..]))
  }

  ghost predicate NoneStale(s: Shared, steps: seq<Step>)
    decreases |steps|
  {
    steps != [] && Enabled(s, steps[0]) ==>
      && (steps[0].Write? ==> !Stale(steps[0].edit, s.readers[steps[0].w], s.record))
      && NoneStale(Apply(s, steps[0]), steps[1..])
  }

  /** In every interleaving no update is ever lost if and only if no write is stale. */
  lemma {:induction false} NothingLostIff(s: Shared, steps: seq<Step>)
    requires s.record == s.due
    ensures KeptThroughout(s, steps) <==> NoneStale(s, steps)
    decreases |steps|
  {
    if steps != [] && Enabled(s, steps[0]) {
      var t := Apply(s, steps[0]);
      if t.record == t.due {
        NothingLostIff(t, steps[1..]);
      }
    }
  }

  /** No update is written while another one is between its read and its write. */
  ghost predicate OneAtATime(s: Shared, steps: seq<Step>)
    decreases |steps|
  {
    steps != [] && Enabled(s, steps[0]) ==>
      && (steps[0].Write? ==> s.readers.Keys == {steps[0].w})
      && (steps[0].Patch? ==> s.readers == map[])
      && OneAtATime(Apply(s, steps[0]), steps[1..])
  }

  lemma {:induction false} OneAtATimeKeeps(s: Shared, steps: seq<Step>)
    requires OneAtATime(s, steps) && forall w :: w in s.readers ==> s.readers[w] == s.record
    ensures NoneStale(s, steps)
    decreases |steps|
  {
    if steps != [] && Enabled(s, steps[0]) {
      var t := Apply(s, steps[0]);
      if steps[0].Write? {
        assert t.readers.Keys == {};
      }
      OneAtATimeKeeps(t, steps[1..]);
    }
  }

  // ---------------------------------------------------------------------------
  // Runs that lose one
  // ---------------------------------------------------------------------------

  lemma TwoUpdates(r: Record, first: Edit, second: Edit)
    ensures Runs(Shared(r, r, map[]), [Read(0), Read(1), Write(0, first), Write(1, second)],
                 Shared(Edited(second, r), Edited(second, Edited(first, r)), map[]))
  {
    var steps := [Read(0), Read(1), Write(0, first), Write(1, second)];
    var a := Apply(Shared(r, r, map[]), steps[0]);
    var b := Apply(a, steps[1]);
    var c := Apply(b, steps[2]);
    var d := Apply(c, steps[3]);
    assert d == Shared(Edited(second, r), Edited(second, Edited(first, r)), map[]);
    assert steps[1..][1..] == steps[2..] && steps[2..][1..] == steps[3..] && steps[3..][1..] == [];
    assert Runs(c, steps[3..], d) && Runs(b, steps[2..], d) && Runs(a, steps[1..], d);
  }

  /** The executor enters how the job ended while the flusher is at work: the step is as it was before. */
  lemma VerdictLost(r: Record, verdict: DagExecutor.StepState, lines: seq<SubstepMarkers.LogLine>) returns (t: Shared)
    ensures Runs(Shared(r, r, map[]), [Read(0), Read(1), Write(0, SetState(verdict)), Write(1, Fold(lines))], t)
    ensures t.readers == map[] && t.record.state == r.state && t.due.state == verdict
  {
    t := Shared(Edited(Fold(lines), r), Edited(Fold(lines), Edited(SetState(verdict), r)), map[]);
    TwoUpdates(r, SetState(verdict), Fold(lines));
  }

  /** The flusher enters progress while the executor enters the job: the progress is gone. */
  lemma ProgressLost(r: Record, job: string, lines: seq<SubstepMarkers.LogLine>) returns (t: Shared)
    ensures Runs(Shared(r, r, map[]), [Read(0), Read(1), Write(0, Fold(lines)), Write(1, SetJob(job))], t)
    ensures t.readers == map[] && t.record.substeps == r.substeps
    ensures t.due.substeps == SubstepRows.ApplyAll(r.substeps, lines)
  {
    t := Shared(Edited(SetJob(job), r), Edited(SetJob(job), Edited(Fold(lines), r)), map[]);
    TwoUpdates(r, Fold(lines), SetJob(job));
  }
}
