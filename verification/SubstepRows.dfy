/**
 Substep progress: the rows of a step are updated from the log lines of its job, batch by
 batch. Start and finish times, which are copied from the lines, are not modelled.
 */
module SubstepRows {
  import opened SubstepMarkers
  import RoundTrip = MarkerRoundTrip
  import Script = JobScript
  import opened Wrappers

  datatype RowState = Pending | Running | Succeeded | Failed

  datatype Row = Row(name: string, state: RowState, logStart: Option<nat>, logEnd: Option<nat>, code: Option<int>)

  function NewRow(name: string): Row {
    Row(name, Pending, None, None, None)
  }

  const MAX64: nat := 0xFFFF_FFFF_FFFF_FFFF

  function SaturatingNext(n: nat): nat {
    if n >= MAX64 then MAX64 else n + 1
  }

  function UpdateRow(r: Row, l: LogLine): Row {
    match l.kind
    case SubstepStarted =>
      r.(logStart := if r.logStart.None? then Some(SaturatingNext(l.sequence)) else r.logStart, state := Running)
    case Line =>
      r.(logStart := if r.logStart.None? then Some(l.sequence) else r.logStart, logEnd := Some(l.sequence))
    case SubstepFinished =>
      r.(code := l.code,
         logEnd := if r.logEnd.None? && r.logStart.Some? && l.sequence > r.logStart.value
                   then Some(l.sequence - 1) else r.logEnd,
         state := if l.code == Some(0) then Succeeded else Failed)
  }

  /** The first row of this name, or the number of rows. */
  function IndexOf(rows: seq<Row>, name: string): (i: nat)
    ensures i <= |rows| && (i < |rows| ==> rows[i].name == name)
    ensures forall j :: 0 <= j < i ==> rows[j].name != name
  {
    if rows == [] || rows[0].name == name then 0 else 1 + IndexOf(rows[1..], name)
  }

  /** The rows, with one of this name. */
  function WithRow(rows: seq<Row>, name: string): seq<Row> {
    if IndexOf(rows, name) < |rows| then rows else rows + [NewRow(name)]
  }

  /** Update the row a line belongs to; a line outside any substep changes nothing. */
  function ApplyLine(rows: seq<Row>, l: LogLine): seq<Row> {
    if l.substep.None? then rows
    else
      var more, i := WithRow(rows, l.substep.value), IndexOf(rows, l.substep.value);
      more[i := UpdateRow(more[i], l)]
  }

  function ApplyAll(rows: seq<Row>, lines: seq<LogLine>): seq<Row>
    decreases |lines|
  {
    if lines == [] then rows else ApplyAll(ApplyLine(rows, lines[0]), lines[1..])
  }

  lemma {:induction false} ApplyAppend(rows: seq<Row>, a: seq<LogLine>, b: seq<LogLine>)
    ensures ApplyAll(rows, a + b) == ApplyAll(ApplyAll(rows, a), b)
    decreases |a|
  {
    if a == [] {
      assert a + b == b;
    } else {
      assert (a + b)[1..] == a[1..] + b;
      ApplyAppend(ApplyLine(rows, a[0]), a[1..], b);
    }
  }

  function Flatten(batches: seq<seq<LogLine>>): seq<LogLine> {
    if batches == [] then [] else batches[0] + Flatten(batches[1..])
  }

  function ApplyBatches(rows: seq<Row>, batches: seq<seq<LogLine>>): seq<Row>
    decreases |batches|
  {
    if batches == [] then rows else ApplyBatches(ApplyAll(rows, batches[0]), batches[1..])
  }

  /** Any split into batches gives the same rows. */
  lemma {:induction false} BatchesDoNotMatter(rows: seq<Row>, batches: seq<seq<LogLine>>)
    ensures ApplyBatches(rows, batches) == ApplyAll(rows, Flatten(batches))
    decreases |batches|
  {
    if batches != [] {
      BatchesDoNotMatter(ApplyAll(rows, batches[0]), batches[1..]);
      ApplyAppend(rows, batches[0], Flatten(batches[1..]));
    }
  }

  /** The step's record in the store. */
  class StepRecord {
    var substeps: seq<Row>

    constructor (substeps: seq<Row>)
      ensures this.substeps == substeps
    {
      this.substeps := substeps;
    }

    /** `update_pipeline_substeps`; loading and storing the record may fail */
    method UpdateSubsteps(lines: seq<LogLine>, loads: bool, stores: bool)
      modifies this
      ensures substeps == if loads && stores then ApplyAll(old(substeps), lines) else old(substeps)
    {
      if !loads { return; }
      var rows, changed := substeps, false;
      assert lines[..0] == [];
      for i := 0 to |lines|
        invariant rows == ApplyAll(old(substeps), lines[..i])
        invariant !changed ==> rows == old(substeps)
        invariant substeps == old(substeps)
      {
        var l := lines[i];
        assert lines[..i + 1] == lines[..i] + [l];
        ApplyAppend(old(substeps), lines[..i], [l]);
        assert ApplyAll(rows, [l]) == ApplyLine(rows, l);
        if l.substep.None? { continue; }
        var name := l.substep.value;
        var at := IndexOf(rows, name);
        if at == |rows| {
          rows := rows + [NewRow(name)];
        }
        rows := rows[at := UpdateRow(rows[at], l)];
        changed := true;
      }
      assert lines[..|lines|] == lines;
      if changed && stores {
        substeps := rows;
      }
    }
  }

  // ---------------------------------------------------------------------------
  // One row at a time
  // ---------------------------------------------------------------------------

  function Lookup(rows: seq<Row>, name: string): Row {
    var i := IndexOf(rows, name);
    if i < |rows| then rows[i] else NewRow(name)
  }

  lemma LookupIs(rows: seq<Row>, name: string, i: nat)
    requires i < |rows| && rows[i].name == name && forall j :: 0 <= j < i ==> rows[j].name != name
    ensures Lookup(rows, name) == rows[i]
  {
  }

  /** A line changes the row of its substep and no other. */
  lemma LineChangesOneRow(rows: seq<Row>, l: LogLine, name: string)
    ensures Lookup(ApplyLine(rows, l), name) ==
            if l.substep == Some(name) then UpdateRow(Lookup(rows, name), l) else Lookup(rows, name)
  {
    if l.substep.Some? {
      var more, at := WithRow(rows, l.substep.value), IndexOf(rows, l.substep.value);
      var next := more[at := UpdateRow(more[at], l)];
      assert forall j :: 0 <= j < |next| ==> next[j].name == more[j].name;
      if l.substep.value == name {
        LookupIs(next, name, at);
      } else {
        var i := IndexOf(rows, name);
        if i < |rows| {
          LookupIs(next, name, i);
        }
      }
    }
  }

  /** What the lines of one substep make of its row. */
  function FoldRow(r: Row, lines: seq<LogLine>, name: string): Row
    decreases |lines|
  {
    if lines == [] then r
    else FoldRow(if lines[0].substep == Some(name) then UpdateRow(r, lines[0]) else r, lines[1..], name)
  }

  lemma {:induction false} RowsAreIndependent(rows: seq<Row>, lines: seq<LogLine>, name: string)
    ensures Lookup(ApplyAll(rows, lines), name) == FoldRow(Lookup(rows, name), lines, name)
    decreases |lines|
  {
    if lines != [] {
      LineChangesOneRow(rows, lines[0], name);
      RowsAreIndependent(ApplyLine(rows, lines[0]), lines[1..], name);
    }
  }

  lemma {:induction false} FoldAppend(r: Row, a: seq<LogLine>, b: seq<LogLine>, name: string)
    ensures FoldRow(r, a + b, name) == FoldRow(FoldRow(r, a, name), b, name)
    decreases |a|
  {
    if a == [] {
      assert a + b == b;
    } else {
      assert (a + b)[1..] == a[1..] + b;
      FoldAppend(if a[0].substep == Some(name) then UpdateRow(r, a[0]) else r, a[1..], b, name);
    }
  }

  lemma {:induction false} OtherLinesPass(r: Row, lines: seq<LogLine>, name: string)
    requires forall i :: 0 <= i < |lines| ==> lines[i].substep != Some(name)
    ensures FoldRow(r, lines, name) == r
  {
    if lines != [] {
      OtherLinesPass(r, lines[1..], name);
    }
  }

  predicate DistinctRows(rows: seq<Row>) {
    forall i, j :: 0 <= i < j < |rows| ==> rows[i].name != rows[j].name
  }

  predicate HasRow(rows: seq<Row>, name: string) {
    exists i :: 0 <= i < |rows| && rows[i].name == name
  }

  lemma LineKeepsRowsDistinct(rows: seq<Row>, l: LogLine)
    requires DistinctRows(rows)
    ensures DistinctRows(ApplyLine(rows, l))
    ensures forall name :: HasRow(ApplyLine(rows, l), name) <==> HasRow(rows, name) || l.substep == Some(name)
  {
    if l.substep.Some? {
      var more, at := WithRow(rows, l.substep.value), IndexOf(rows, l.substep.value);
      var next := ApplyLine(rows, l);
      assert forall j :: 0 <= j < |next| ==> next[j].name == more[j].name;
      forall name
        ensures HasRow(next, name) <==> HasRow(rows, name) || l.substep == Some(name)
      {
        if HasRow(rows, name) {
          var j :| 0 <= j < |rows| && rows[j].name == name;
          assert next[j].name == name;
        }
        if l.substep == Some(name) {
          assert next[at].name == name;
        }
      }
    }
  }

  /** There is one row for each name that had one or that a line carries. */
  lemma {:induction false} OneRowPerName(rows: seq<Row>, lines: seq<LogLine>, name: string)
    requires DistinctRows(rows)
    ensures DistinctRows(ApplyAll(rows, lines))
    ensures HasRow(ApplyAll(rows, lines), name) <==>
            HasRow(rows, name) || exists i :: 0 <= i < |lines| && lines[i].substep == Some(name)
    decreases |lines|
  {
    if lines != [] {
      LineKeepsRowsDistinct(rows, lines[0]);
      OneRowPerName(ApplyLine(rows, lines[0]), lines[1..], name);
      assert forall i :: 0 < i < |lines| ==> lines[i] == lines[1..][i - 1];
      assert forall i :: 0 <= i < |lines| - 1 ==> lines[1..][i] == lines[i + 1];
    }
  }

  // ---------------------------------------------------------------------------
  // Well-bracketed streams
  // ---------------------------------------------------------------------------

  /** Lines outside any substep, or a substep from its start to its finish, or without one. */
  datatype Segment =
    | Free(lines: seq<LogLine>)
    | Block(lines: seq<LogLine>, name: string, seen: Option<int>)

  predicate Numbered(lines: seq<LogLine>, k: nat) {
    forall i :: 0 <= i < |lines| ==> lines[i].sequence == k + i
  }

  /** How many of the lines of a block are the substep's own output. */
  function OwnCount(n: int, seen: Option<int>): int {
    if seen.Some? then n - 2 else n - 1
  }

  predicate IsBlock(lines: seq<LogLine>, name: string, seen: Option<int>) {
    var n := OwnCount(|lines|, seen);
    && n >= 0
    && (forall i :: 0 <= i < |lines| ==> lines[i].substep == Some(name))
    && lines[0].kind == SubstepStarted
    && (forall i :: 1 <= i <= n ==> lines[i].kind == Line)
    && (seen.Some? ==> lines[n + 1].kind == SubstepFinished && lines[n + 1].code == seen)
  }

  predicate IsSegment(seg: Segment, k: nat) {
    && Numbered(seg.lines, k)
    && match seg
       case Free(lines) => forall i :: 0 <= i < |lines| ==> lines[i].substep.None? && lines[i].kind == Line
       case Block(lines, name, seen) => IsBlock(lines, name, seen)
  }

  predicate NamesDiffer(segs: seq<Segment>) {
    forall i, j :: 0 <= i < j < |segs| && segs[i].Block? && segs[j].Block? ==> segs[i].name != segs[j].name
  }

  /** Where the i-th segment starts. */
  function Offset(segs: seq<Segment>, i: nat): nat
    requires i <= |segs|
  {
    if i == 0 then 0 else Offset(segs, i - 1) + |segs[i - 1].lines|
  }

  predicate AllNumbered(segs: seq<Segment>, k: nat) {
    forall i :: 0 <= i < |segs| ==> NumberedAt(segs, k, i)
  }

  predicate NumberedAt(segs: seq<Segment>, k: nat, i: nat)
    requires i < |segs|
  {
    IsSegment(segs[i], k + Offset(segs, i))
  }

  /** Consecutively numbered segments, the first line having number `k`. */
  ghost predicate WellBracketed(segs: seq<Segment>, k: nat) {
    && NamesDiffer(segs)
    && AllNumbered(segs, k)
    && k + Offset(segs, |segs|) <= MAX64
  }

  /** The lines of the first `i` segments. */
  function LinesUpTo(segs: seq<Segment>, i: nat): seq<LogLine>
    requires i <= |segs|
  {
    if i == 0 then [] else LinesUpTo(segs, i - 1) + segs[i - 1].lines
  }

  function Verdict(seen: Option<int>): RowState {
    match seen
    case None => Running
    case Some(code) => if code == 0 then Succeeded else Failed
  }

  /** The row of a substep whose start has number `k` and that has `n` lines of its own. */
  function FinalRow(name: string, k: nat, n: nat, seen: Option<int>): Row {
    Row(name, Verdict(seen), Some(k + 1), if n == 0 then None else Some(k + n), seen)
  }

  lemma {:induction false} BodyFolds(r: Row, lines: seq<LogLine>, name: string, k: nat)
    requires Numbered(lines, k) && r.logStart.Some?
    requires forall i :: 0 <= i < |lines| ==> lines[i].substep == Some(name) && lines[i].kind == Line
    ensures FoldRow(r, lines, name) == if lines == [] then r else r.(logEnd := Some(k + |lines| - 1))
    decreases |lines|
  {
    if lines != [] {
      BodyFolds(UpdateRow(r, lines[0]), lines[1..], name, k + 1);
    }
  }

  /** A started substep and its own lines. */
  lemma OpenFolds(lines: seq<LogLine>, name: string, k: nat)
    requires Numbered(lines, k) && IsBlock(lines, name, None) && k < MAX64
    ensures FoldRow(NewRow(name), lines, name) == FinalRow(name, k, |lines| - 1, None)
  {
    var first, body := lines[0], lines[1..];
    assert lines == [first] + body;
    var r := UpdateRow(NewRow(name), first);
    assert FoldRow(NewRow(name), [first], name) == r;
    FoldAppend(NewRow(name), [first], body, name);
    BodyFolds(r, body, name, k + 1);
  }

  lemma FinishFolds(name: string, k: nat, n: nat, last: LogLine)
    requires last.kind == SubstepFinished && last.code.Some? && last.substep == Some(name) && last.sequence == k + n + 1
    ensures FoldRow(FinalRow(name, k, n, None), [last], name) == FinalRow(name, k, n, last.code)
  {
    var r := FinalRow(name, k, n, None);
    assert [last][1..] == [];
    assert FoldRow(r, [last], name) == UpdateRow(r, last);
  }

  lemma BlockFolds(lines: seq<LogLine>, name: string, seen: Option<int>, k: nat)
    requires Numbered(lines, k) && IsBlock(lines, name, seen) && k < MAX64
    ensures FoldRow(NewRow(name), lines, name) == FinalRow(name, k, OwnCount(|lines|, seen), seen)
  {
    if seen.None? {
      OpenFolds(lines, name, k);
    } else {
      var n := |lines| - 1;
      var front, last := lines[..n], lines[n];
      assert lines == front + [last];
      OpenFolds(front, name, k);
      FoldAppend(NewRow(name), front, [last], name);
      FinishFolds(name, k, n - 1, last);
    }
  }

  predicate Foreign(lines: seq<LogLine>, name: string) {
    forall i :: 0 <= i < |lines| ==> lines[i].substep != Some(name)
  }

  lemma OthersAreForeign(segs: seq<Segment>, k: nat, i: nat, j: nat)
    requires WellBracketed(segs, k) && i < |segs| && j < |segs| && i != j && segs[i].Block?
    ensures Foreign(segs[j].lines, segs[i].name)
  {
    assert NumberedAt(segs, k, j);
  }

  lemma {:induction false} OffsetGrows(segs: seq<Segment>, i: nat, j: nat)
    requires i < j <= |segs|
    ensures Offset(segs, i) + |segs[i].lines| <= Offset(segs, j)
  {
    if i < j - 1 {
      OffsetGrows(segs, i, j - 1);
    }
  }

  lemma BlockAt(segs: seq<Segment>, k: nat, i: nat)
    requires WellBracketed(segs, k) && i < |segs| && segs[i].Block?
    ensures Numbered(segs[i].lines, k + Offset(segs, i)) && IsBlock(segs[i].lines, segs[i].name, segs[i].seen)
    ensures k + Offset(segs, i) < MAX64
  {
    assert NumberedAt(segs, k, i);
    OffsetGrows(segs, i, |segs|);
  }

  ghost function FinalRowOf(segs: seq<Segment>, k: nat, i: nat): Row
    requires i < |segs| && segs[i].Block? && OwnCount(|segs[i].lines|, segs[i].seen) >= 0
  {
    FinalRow(segs[i].name, k + Offset(segs, i), OwnCount(|segs[i].lines|, segs[i].seen), segs[i].seen)
  }

  lemma SegmentFolds(segs: seq<Segment>, k: nat, i: nat, m: nat, r: Row)
    requires WellBracketed(segs, k) && i < |segs| && m < |segs| && segs[i].Block? && OwnCount(|segs[i].lines|, segs[i].seen) >= 0
    requires i == m ==> r == NewRow(segs[i].name)
    ensures FoldRow(r, segs[m].lines, segs[i].name) == if i == m then FinalRowOf(segs, k, i) else r
  {
    if i == m {
      BlockAt(segs, k, i);
      BlockFolds(segs[i].lines, segs[i].name, segs[i].seen, k + Offset(segs, i));
    } else {
      OthersAreForeign(segs, k, i, m);
      OtherLinesPass(r, segs[m].lines, segs[i].name);
    }
  }

  lemma {:induction false} SegmentsFold(segs: seq<Segment>, k: nat, i: nat, m: nat)
    requires WellBracketed(segs, k) && i < |segs| && m <= |segs| && segs[i].Block? && OwnCount(|segs[i].lines|, segs[i].seen) >= 0
    ensures FoldRow(NewRow(segs[i].name), LinesUpTo(segs, m), segs[i].name) ==
            if i < m then FinalRowOf(segs, k, i) else NewRow(segs[i].name)
    decreases m
  {
    if m > 0 {
      var name, before := segs[i].name, LinesUpTo(segs, m - 1);
      SegmentsFold(segs, k, i, m - 1);
      FoldAppend(NewRow(name), before, segs[m - 1].lines, name);
      SegmentFolds(segs, k, i, m - 1, FoldRow(NewRow(name), before, name));
    }
  }

  predicate InRange(r: Row, s: nat) {
    r.logStart.Some? && r.logEnd.Some? && r.logStart.value <= s <= r.logEnd.value
  }

  /** The rows, once all lines have been applied. */
  ghost function RowsAfter(rows: seq<Row>, segs: seq<Segment>): seq<Row> {
    ApplyAll(rows, LinesUpTo(segs, |segs|))
  }

  lemma RowExists(rows: seq<Row>, lines: seq<LogLine>, name: string)
    requires DistinctRows(rows) && Lookup(ApplyAll(rows, lines), name) != NewRow(name)
    ensures DistinctRows(ApplyAll(rows, lines)) && HasRow(ApplyAll(rows, lines), name)
  {
    OneRowPerName(rows, lines, name);
    var after := ApplyAll(rows, lines);
    assert IndexOf(after, name) < |after|;
  }

  /**
   After a well-bracketed stream, a substep whose row was new or absent has exactly one row:
   Succeeded when its exit code is 0, Failed when it is not, Running when no finish was seen.
   */
  lemma RowsAfterStream(rows: seq<Row>, segs: seq<Segment>, k: nat, i: nat)
    requires WellBracketed(segs, k) && DistinctRows(rows)
    requires i < |segs| && segs[i].Block? && Lookup(rows, segs[i].name) == NewRow(segs[i].name)
    ensures DistinctRows(RowsAfter(rows, segs)) && HasRow(RowsAfter(rows, segs), segs[i].name)
    ensures OwnCount(|segs[i].lines|, segs[i].seen) >= 0
    ensures Lookup(RowsAfter(rows, segs), segs[i].name) == FinalRowOf(segs, k, i)
    ensures Lookup(RowsAfter(rows, segs), segs[i].name).state == Verdict(segs[i].seen)
  {
    BlockAt(segs, k, i);
    RowsAreIndependent(rows, LinesUpTo(segs, |segs|), segs[i].name);
    SegmentsFold(segs, k, i, |segs|);
    RowExists(rows, LinesUpTo(segs, |segs|), segs[i].name);
  }

  /** The place of a visible line among the numbers. */
  lemma LinePlace(segs: seq<Segment>, k: nat, j: nat, l: LogLine)
    requires WellBracketed(segs, k) && j < |segs| && l in segs[j].lines && l.kind == Line
    ensures k + Offset(segs, j) <= l.sequence < k + Offset(segs, j) + |segs[j].lines|
    ensures segs[j].Block? ==>
              l.substep == Some(segs[j].name) &&
              k + Offset(segs, j) < l.sequence <= k + Offset(segs, j) + OwnCount(|segs[j].lines|, segs[j].seen)
  {
    assert NumberedAt(segs, k, j);
    var p :| 0 <= p < |segs[j].lines| && segs[j].lines[p] == l;
  }

  /** Its log range covers exactly its own visible lines. */
  lemma RangeIsOwnLines(rows: seq<Row>, segs: seq<Segment>, k: nat, i: nat, j: nat, l: LogLine)
    requires WellBracketed(segs, k) && DistinctRows(rows)
    requires i < |segs| && segs[i].Block? && Lookup(rows, segs[i].name) == NewRow(segs[i].name)
    requires j < |segs| && l in segs[j].lines && l.kind == Line
    ensures InRange(Lookup(RowsAfter(rows, segs), segs[i].name), l.sequence) <==> l.substep == Some(segs[i].name)
  {
    RowsAfterStream(rows, segs, k, i);
    LinePlace(segs, k, j, l);
    if i != j {
      OthersAreForeign(segs, k, i, j);
    }
    if j < i {
      OffsetGrows(segs, j, i);
    } else if i < j {
      OffsetGrows(segs, i, j);
    }
  }

  /** The ranges of different substeps are disjoint. */
  lemma RangesAreDisjoint(rows: seq<Row>, segs: seq<Segment>, k: nat, i: nat, j: nat, s: nat)
    requires WellBracketed(segs, k) && DistinctRows(rows) && i < j < |segs| && segs[i].Block? && segs[j].Block?
    requires Lookup(rows, segs[i].name) == NewRow(segs[i].name)
    requires Lookup(rows, segs[j].name) == NewRow(segs[j].name)
    ensures var after := RowsAfter(rows, segs);
            !(InRange(Lookup(after, segs[i].name), s) && InRange(Lookup(after, segs[j].name), s))
  {
    RowsAfterStream(rows, segs, k, i);
    RowsAfterStream(rows, segs, k, j);
    OffsetGrows(segs, i, j);
  }

  // ---------------------------------------------------------------------------
  // From a job's output to its rows
  // ---------------------------------------------------------------------------

  lemma {:induction false} OwnLinesAre(stream: Stream, items: seq<Item>, name: string, k: nat)
    ensures var own := RoundTrip.OwnLines(stream, items, name, k);
            Numbered(own, k) && forall i :: 0 <= i < |own| ==> own[i].substep == Some(name) && own[i].kind == Line
  {
    if items != [] {
      OwnLinesAre(stream, items[1..], name, if items[0].line == "" then k else k + 1);
    }
  }

  /** The events the parser makes of one substep are such a block. */
  lemma SectionIsBlock(stream: Stream, items: seq<Item>, name: string, seen: Option<int>, k: nat)
    requires |items| >= 2
    ensures IsSegment(Block(RoundTrip.SectionEvents(stream, items, name, seen, k), name, seen), k)
  {
    OwnLinesAre(stream, if seen.Some? then items[1..|items| - 1] else items[1..], name, k + 1);
  }

  lemma {:induction false} OffsetShift(segs: seq<Segment>, i: nat)
    requires segs != [] && i < |segs|
    ensures Offset(segs, i + 1) == |segs[0].lines| + Offset(segs[1..], i)
  {
    if i > 0 {
      OffsetShift(segs, i - 1);
      assert segs[1..][i - 1] == segs[i];
    }
  }

  lemma Regroup(a: seq<LogLine>, b: seq<LogLine>, c: seq<LogLine>)
    ensures (a + b) + c == a + (b + c)
  {
  }

  lemma {:induction false} LinesShift(segs: seq<Segment>, rest: seq<Segment>, i: nat)
    requires segs != [] && rest == segs[1..] && i < |segs|
    ensures LinesUpTo(segs, i + 1) == segs[0].lines + LinesUpTo(rest, i)
    decreases i
  {
    if i == 0 {
      assert LinesUpTo(segs, 1) == [] + segs[0].lines;
    } else {
      LinesShift(segs, rest, i - 1);
      assert rest[i - 1] == segs[i];
      Regroup(segs[0].lines, LinesUpTo(rest, i - 1), segs[i].lines);
    }
  }

  function Concat(segs: seq<Segment>): seq<LogLine> {
    if segs == [] then [] else segs[0].lines + Concat(segs[1..])
  }

  lemma {:induction false} ConcatLines(segs: seq<Segment>)
    ensures LinesUpTo(segs, |segs|) == Concat(segs) && Offset(segs, |segs|) == |Concat(segs)|
  {
    if segs != [] {
      ConcatLines(segs[1..]);
      OffsetShift(segs, |segs| - 1);
      LinesShift(segs, segs[1..], |segs| - 1);
    }
  }

  /** The segments belong to the sections one by one. */
  predicate Matched(segs: seq<Segment>, secs: seq<Script.Section>, how: RoundTrip.Carriage) {
    && |segs| == |secs|
    && forall i :: 0 <= i < |segs| ==> segs[i].Block? && segs[i].name == secs[i].name && segs[i].seen == RoundTrip.Seen(secs[i], how)
  }

  /** The sections of a job's output as segments. */
  function SegmentsOf(stream: Stream, items: seq<Item>, secs: seq<Script.Section>, how: RoundTrip.Carriage, k: nat): seq<Segment>
    decreases |secs|
  {
    if secs == [] || |items| < RoundTrip.Size(secs[0]) then []
    else
      var n := RoundTrip.Size(secs[0]);
      var here := RoundTrip.SectionEvents(stream, items[..n], secs[0].name, RoundTrip.Seen(secs[0], how), k);
      [Block(here, secs[0].name, RoundTrip.Seen(secs[0], how))] + SegmentsOf(stream, items[n..], secs[1..], how, k + |here|)
  }

  lemma SegmentsUnfold(stream: Stream, items: seq<Item>, secs: seq<Script.Section>, how: RoundTrip.Carriage, k: nat, n: nat, here: seq<LogLine>)
    requires RoundTrip.ReadsAll(items, secs, how) && secs != [] && n == RoundTrip.Size(secs[0])
    requires here == RoundTrip.SectionEvents(stream, items[..n], secs[0].name, RoundTrip.Seen(secs[0], how), k)
    ensures SegmentsOf(stream, items, secs, how, k) ==
            [Block(here, secs[0].name, RoundTrip.Seen(secs[0], how))] + SegmentsOf(stream, items[n..], secs[1..], how, k + |here|)
  {
  }

  lemma MatchedMore(seg: Segment, segs: seq<Segment>, secs: seq<Script.Section>, how: RoundTrip.Carriage)
    requires secs != [] && Matched(segs, secs[1..], how)
    requires seg.Block? && seg.name == secs[0].name && seg.seen == RoundTrip.Seen(secs[0], how)
    ensures Matched([seg] + segs, secs, how)
  {
    assert forall i :: 0 < i < |secs| ==> secs[i] == secs[1..][i - 1];
  }

  lemma {:induction false} SegmentsMatch(stream: Stream, items: seq<Item>, secs: seq<Script.Section>, how: RoundTrip.Carriage, k: nat)
    requires RoundTrip.ReadsAll(items, secs, how)
    ensures Matched(SegmentsOf(stream, items, secs, how, k), secs, how)
    decreases |secs|
  {
    if secs != [] {
      var n := RoundTrip.Size(secs[0]);
      var here := RoundTrip.SectionEvents(stream, items[..n], secs[0].name, RoundTrip.Seen(secs[0], how), k);
      SegmentsMatch(stream, items[n..], secs[1..], how, k + |here|);
      SegmentsUnfold(stream, items, secs, how, k, n, here);
      MatchedMore(Block(here, secs[0].name, RoundTrip.Seen(secs[0], how)), SegmentsOf(stream, items[n..], secs[1..], how, k + |here|), secs, how);
    }
  }

  lemma ConcatMore(seg: Segment, segs: seq<Segment>)
    ensures Concat([seg] + segs) == seg.lines + Concat(segs)
  {
    assert ([seg] + segs)[1..] == segs;
  }

  lemma {:induction false} SegmentsHoldEvents(stream: Stream, items: seq<Item>, secs: seq<Script.Section>, how: RoundTrip.Carriage, k: nat)
    requires RoundTrip.ReadsAll(items, secs, how)
    ensures Concat(SegmentsOf(stream, items, secs, how, k)) == RoundTrip.AllEvents(stream, items, secs, how, k)
    decreases |secs|
  {
    if secs != [] {
      var n := RoundTrip.Size(secs[0]);
      var here := RoundTrip.SectionEvents(stream, items[..n], secs[0].name, RoundTrip.Seen(secs[0], how), k);
      SegmentsHoldEvents(stream, items[n..], secs[1..], how, k + |here|);
      SegmentsUnfold(stream, items, secs, how, k, n, here);
      RoundTrip.EventsUnfold(stream, items, secs, how, k, n, here);
      ConcatMore(Block(here, secs[0].name, RoundTrip.Seen(secs[0], how)), SegmentsOf(stream, items[n..], secs[1..], how, k + |here|));
    }
  }

  lemma NumberedLater(seg: Segment, segs: seq<Segment>, k: nat, i: nat)
    requires i < |segs| && NumberedAt(segs, k + |seg.lines|, i)
    ensures NumberedAt([seg] + segs, k, i + 1)
  {
    assert ([seg] + segs)[1..] == segs;
    OffsetShift([seg] + segs, i);
  }

  lemma NumberedMore(seg: Segment, segs: seq<Segment>, k: nat)
    requires IsSegment(seg, k) && AllNumbered(segs, k + |seg.lines|)
    ensures AllNumbered([seg] + segs, k)
  {
    forall i | 0 <= i < |segs| + 1
      ensures NumberedAt([seg] + segs, k, i)
    {
      if i > 0 {
        NumberedLater(seg, segs, k, i - 1);
      }
    }
  }

  lemma {:induction false} SegmentsAreNumbered(stream: Stream, items: seq<Item>, secs: seq<Script.Section>, how: RoundTrip.Carriage, k: nat)
    requires RoundTrip.ReadsAll(items, secs, how)
    ensures AllNumbered(SegmentsOf(stream, items, secs, how, k), k)
    decreases |secs|
  {
    if secs != [] {
      var n := RoundTrip.Size(secs[0]);
      var here := RoundTrip.SectionEvents(stream, items[..n], secs[0].name, RoundTrip.Seen(secs[0], how), k);
      SegmentsAreNumbered(stream, items[n..], secs[1..], how, k + |here|);
      SectionIsBlock(stream, items[..n], secs[0].name, RoundTrip.Seen(secs[0], how), k);
      SegmentsUnfold(stream, items, secs, how, k, n, here);
      NumberedMore(Block(here, secs[0].name, RoundTrip.Seen(secs[0], how)), SegmentsOf(stream, items[n..], secs[1..], how, k + |here|), k);
    }
  }

  /**
   From what a job prints to its rows: when the parsed output is the sections of distinct
   substeps, there is one row for each. It says how the substep ended, or Running if the
   finish marker was lost behind an unfinished line.
   */
  lemma {:induction false} OutputToRows(rows: seq<Row>, stream: Stream, items: seq<Item>, secs: seq<Script.Section>,
                                        how: RoundTrip.Carriage, st: State, i: nat)
    requires RoundTrip.ReadsAll(items, secs, how) && DistinctRows(rows) && i < |secs|
    requires forall a, b :: 0 <= a < b < |secs| ==> secs[a].name != secs[b].name
    requires Lookup(rows, secs[i].name) == NewRow(secs[i].name)
    requires st.sequence + |EmitAll(stream, items, st)| <= MAX64
    ensures var after := ApplyAll(rows, EmitAll(stream, items, st));
            && DistinctRows(after) && HasRow(after, secs[i].name)
            && Lookup(after, secs[i].name).code == RoundTrip.Seen(secs[i], how)
            && Lookup(after, secs[i].name).state ==
               if RoundTrip.Seen(secs[i], how).None? then Running else if secs[i].code == 0 then Succeeded else Failed
  {
    var k := st.sequence;
    RoundTrip.SectionsParse(stream, items, secs, how, st);
    var segs := SegmentsOf(stream, items, secs, how, k);
    SegmentsHoldEvents(stream, items, secs, how, k);
    ConcatLines(segs);
    SegmentsMatch(stream, items, secs, how, k);
    SegmentsAreNumbered(stream, items, secs, how, k);
    assert segs[i].name == secs[i].name && segs[i].seen == RoundTrip.Seen(secs[i], how);
    RowsAfterStream(rows, segs, k, i);
  }
}
