/**
 Ordering pipeline steps by their needs: a step enters a level once all its needs are in
 earlier levels.
 */
module DagGraph {

  type Name = string

  datatype Step = Step(name: Name, needs: seq<Name>)

  predicate Distinct<T(==)>(s: seq<T>) {
    forall i, j :: 0 <= i < j < |s| ==> s[i] != s[j]
  }

  predicate DistinctNames(steps: seq<Step>) {
    forall i, j :: 0 <= i < j < |steps| ==> steps[i].name != steps[j].name
  }

  function Names(steps: seq<Step>): set<Name> {
    set s | s in steps :: s.name
  }

  function Count(s: seq<Name>, x: Name): nat {
    if s == [] then 0 else Count(s[..|s| - 1], x) + if s[|s| - 1] == x then 1 else 0
  }

  /** How many of the needs are not placed yet. */
  function Open(needs: seq<Name>, placed: set<Name>): nat {
    if needs == [] then 0 else Open(needs[..|needs| - 1], placed) + if needs[|needs| - 1] in placed then 0 else 1
  }

  lemma {:induction false} OpenIsZeroIff(needs: seq<Name>, placed: set<Name>)
    ensures Open(needs, placed) == 0 <==> forall d :: d in needs ==> d in placed
  {
    if needs != [] {
      OpenIsZeroIff(needs[..|needs| - 1], placed);
      assert forall d :: d in needs <==> d in needs[..|needs| - 1] || d == needs[|needs| - 1];
    }
  }

  /** Placing one more step closes as many needs as name it. */
  lemma {:induction false} OpenAfter(needs: seq<Name>, placed: set<Name>, m: Name)
    requires m !in placed
    ensures Open(needs, placed + {m}) + Count(needs, m) == Open(needs, placed)
  {
    if needs != [] {
      OpenAfter(needs[..|needs| - 1], placed, m);
    }
  }

  /** The dependents of each name, once for every time a step needs it. */
  type Dependents = map<Name, seq<Name>>

  function DependentsOf(r: Dependents, m: Name): seq<Name> {
    if m in r then r[m] else []
  }

  /** `reverse` lists exactly the needs of the steps seen so far. */
  ghost predicate Mirrors(r: Dependents, steps: seq<Step>) {
    && (forall m, s :: s in steps ==> Count(DependentsOf(r, m), s.name) == Count(s.needs, m))
    && (forall m, n :: n in DependentsOf(r, m) ==> n in Names(steps))
  }

  ghost predicate EnteredAt(r0: Dependents, r: Dependents, name: Name, needs: seq<Name>, m: Name, n: Name) {
    && Count(DependentsOf(r, m), n) == Count(DependentsOf(r0, m), n) + (if n == name then Count(needs, m) else 0)
    && (n in DependentsOf(r, m) ==> n in DependentsOf(r0, m) || n == name)
  }

  /** `r` is `r0` with `name` entered under each of `needs`. */
  ghost predicate Entered(r0: Dependents, r: Dependents, name: Name, needs: seq<Name>) {
    forall m, n :: EnteredAt(r0, r, name, needs, m, n)
  }

  lemma CountOne(s: seq<Name>, y: Name, x: Name)
    ensures Count(s + [y], x) == Count(s, x) + if x == y then 1 else 0
  {
    assert (s + [y])[..|s|] == s;
  }

  lemma EnterOne(r0: Dependents, r: Dependents, name: Name, needs: seq<Name>, d: Name, m: Name, n: Name)
    requires EnteredAt(r0, r, name, needs, m, n)
    ensures EnteredAt(r0, r[d := DependentsOf(r, d) + [name]], name, needs + [d], m, n)
  {
    CountOne(DependentsOf(r, d), name, n);
    CountOne(needs, d, m);
  }

  /** One step's needs, entered one by one. */
  method EnterNeeds(r0: Dependents, name: Name, needs: seq<Name>) returns (r: Dependents)
    ensures Entered(r0, r, name, needs)
  {
    r := r0;
    assert needs[..0] == [];
    forall m, n
      ensures EnteredAt(r0, r, name, needs[..0], m, n)
    {
    }
    for i := 0 to |needs|
      invariant Entered(r0, r, name, needs[..i])
    {
      var d := needs[i];
      ghost var seen, seen' := needs[..i], needs[..i + 1];
      assert seen' == seen + [d];
      var r' := r[d := DependentsOf(r, d) + [name]];
      forall m, n
        ensures EnteredAt(r0, r', name, seen', m, n)
      {
        assert EnteredAt(r0, r, name, seen, m, n);
        EnterOne(r0, r, name, seen, d, m, n);
      }
      r := r';
    }
    assert needs[..|needs|] == needs;
  }

  lemma {:induction false} CountAbsent(s: seq<Name>, x: Name)
    ensures Count(s, x) > 0 <==> x in s
  {
    if s != [] {
      CountAbsent(s[..|s| - 1], x);
      assert x in s <==> x in s[..|s| - 1] || x == s[|s| - 1];
    }
  }

  lemma MirrorsMore(r0: Dependents, r: Dependents, steps: seq<Step>, s: Step)
    requires Mirrors(r0, steps) && Entered(r0, r, s.name, s.needs) && s.name !in Names(steps)
    ensures Mirrors(r, steps + [s])
  {
    forall m, t | t in steps + [s]
      ensures Count(DependentsOf(r, m), t.name) == Count(t.needs, m)
    {
      assert EnteredAt(r0, r, s.name, s.needs, m, t.name);
      if t in steps {
        assert t.name in Names(steps);
      } else {
        CountAbsent(DependentsOf(r0, m), s.name);
      }
    }
    forall m, n | n in DependentsOf(r, m)
      ensures n in Names(steps + [s])
    {
      assert EnteredAt(r0, r, s.name, s.needs, m, n);
      assert Names(steps + [s]) == Names(steps) + {s.name};
    }
  }

  method BuildDependents(steps: seq<Step>) returns (r: Dependents)
    requires DistinctNames(steps)
    ensures Mirrors(r, steps)
  {
    r := map[];
    for i := 0 to |steps|
      invariant Mirrors(r, steps[..i])
    {
      var s := steps[i];
      var r' := EnterNeeds(r, s.name, s.needs);
      assert s.name !in Names(steps[..i]);
      MirrorsMore(r, r', steps[..i], s);
      assert steps[..i + 1] == steps[..i] + [s];
      r := r';
    }
    assert steps[..|steps|] == steps;
  }

  type Degrees = map<Name, nat>

  /** Every step not placed yet knows how many of its needs are open. */
  ghost predicate Tracks(deg: Degrees, steps: seq<Step>, placed: set<Name>) {
    && deg.Keys == Names(steps)
    && (forall s :: s in steps && s.name !in placed ==> deg[s.name] == Open(s.needs, placed))
  }

  method InitialDegrees(steps: seq<Step>) returns (deg: Degrees)
    requires DistinctNames(steps)
    ensures Tracks(deg, steps, {})
  {
    deg := map[];
    for i := 0 to |steps|
      invariant Tracks(deg, steps[..i], {})
    {
      assert forall t :: t in steps[..i] ==> t.name != steps[i].name;
      OpenAll(steps[i].needs);
      deg := deg[steps[i].name := |steps[i].needs|];
      assert steps[..i + 1] == steps[..i] + [steps[i]];
    }
    assert steps[..|steps|] == steps;
  }

  lemma {:induction false} OpenAll(needs: seq<Name>)
    ensures Open(needs, {}) == |needs|
  {
    if needs != [] {
      OpenAll(needs[..|needs| - 1]);
    }
  }

  /** `d.saturating_sub(1)` for every dependent of a placed step. */
  method Discharge(deg0: Degrees, dependents: seq<Name>) returns (deg: Degrees)
    ensures deg.Keys == deg0.Keys
    ensures forall n :: n in deg0 ==>
              deg[n] == if Count(dependents, n) <= deg0[n] then deg0[n] - Count(dependents, n) else 0
  {
    deg := deg0;
    assert dependents[..0] == [];
    for i := 0 to |dependents|
      invariant deg.Keys == deg0.Keys
      invariant forall n :: n in deg0 ==>
                  deg[n] == if Count(dependents[..i], n) <= deg0[n] then deg0[n] - Count(dependents[..i], n) else 0
    {
      assert dependents[..i + 1][..i] == dependents[..i];
      var n := dependents[i];
      if n in deg {
        deg := deg[n := if deg[n] == 0 then 0 else deg[n] - 1];
      }
    }
    assert dependents[..|dependents|] == dependents;
  }

  lemma DischargeTracks(deg: Degrees, deg': Degrees, r: Dependents, steps: seq<Step>, placed: set<Name>, m: Name)
    requires Tracks(deg, steps, placed) && Mirrors(r, steps) && m !in placed
    requires deg'.Keys == deg.Keys
    requires forall n :: n in deg ==>
               deg'[n] == if Count(DependentsOf(r, m), n) <= deg[n] then deg[n] - Count(DependentsOf(r, m), n) else 0
    ensures Tracks(deg', steps, placed + {m})
  {
    forall s | s in steps && s.name !in placed + {m}
      ensures deg'[s.name] == Open(s.needs, placed + {m})
    {
      OpenAfter(s.needs, placed, m);
      assert Count(DependentsOf(r, m), s.name) == Count(s.needs, m);
      assert s.name in Names(steps);
    }
  }

  /** The steps that are free to run now, in any order. */
  method Ready(remaining: set<Name>, deg: Degrees) returns (level: seq<Name>)
    requires remaining <= deg.Keys
    ensures Distinct(level)
    ensures forall n :: n in level <==> n in remaining && deg[n] == 0
  {
    level := [];
    var todo := remaining;
    while todo != {}
      invariant todo <= remaining && Distinct(level)
      invariant forall n :: n in level <==> n in remaining && n !in todo && deg[n] == 0
      decreases |todo|
    {
      var n :| n in todo;
      todo := todo - {n};
      if deg[n] == 0 {
        level := level + [n];
      }
    }
  }

  type Levels = seq<seq<Name>>

  ghost function Placed(levels: Levels): set<Name> {
    set i, n | 0 <= i < |levels| && n in levels[i] :: n
  }

  /** Every step is placed at most once, and every need of a placed step lies in an earlier level. */
  ghost predicate Layered(levels: Levels, steps: seq<Step>) {
    && Placed(levels) <= Names(steps)
    && (forall i :: 0 <= i < |levels| ==> Distinct(levels[i]))
    && (forall i, j, n :: 0 <= i < j < |levels| && n in levels[i] ==> n !in levels[j])
    && (forall i, s :: 0 <= i < |levels| && s in steps && s.name in levels[i] ==> NeedsMet(levels, i, s))
  }

  ghost predicate NeedsMet(levels: Levels, i: nat, s: Step)
    requires i <= |levels|
  {
    forall d :: d in s.needs ==> exists j :: 0 <= j < i && d in levels[j]
  }

  /** Nothing more can be placed: every step left out has a need that is left out or unknown. */
  ghost predicate Saturated(levels: Levels, steps: seq<Step>) {
    forall s :: s in steps && s.name !in Placed(levels) ==> exists d :: d in s.needs && d !in Placed(levels)
  }

  lemma AddLevel(levels: Levels, steps: seq<Step>, level: seq<Name>)
    requires Layered(levels, steps) && Distinct(level)
    requires forall n :: n in level ==> n in Names(steps) && n !in Placed(levels)
    requires forall s :: s in steps && s.name in level ==> forall d :: d in s.needs ==> d in Placed(levels)
    ensures Layered(levels + [level], steps)
    ensures Placed(levels + [level]) == Placed(levels) + (set n | n in level)
  {
    var more := levels + [level];
    assert forall i :: 0 <= i < |levels| ==> more[i] == levels[i];
    assert more[|levels|] == level;
    assert forall n :: n in level ==> n in Placed(more);
    assert forall n :: n in Placed(levels) ==> n in Placed(more);
    forall i, s | 0 <= i < |more| && s in steps && s.name in more[i]
      ensures NeedsMet(more, i, s)
    {
      forall d | d in s.needs
        ensures exists j :: 0 <= j < i && d in more[j]
      {
        if i < |levels| {
          assert NeedsMet(levels, i, s);
          var j :| 0 <= j < i && d in levels[j];
          assert d in more[j];
        } else {
          assert d in Placed(levels);
          var j :| 0 <= j < |levels| && d in levels[j];
          assert d in more[j];
        }
      }
    }
  }

  /** Place all steps of a level. */
  method PlaceLevel(level: seq<Name>, r: Dependents, deg0: Degrees, ghost steps: seq<Step>, ghost placed: set<Name>)
    returns (deg: Degrees)
    requires Tracks(deg0, steps, placed) && Mirrors(r, steps) && Distinct(level)
    requires forall n :: n in level ==> n !in placed
    ensures Tracks(deg, steps, placed + (set n | n in level))
  {
    deg := deg0;
    ghost var done := placed;
    for i := 0 to |level|
      invariant done == placed + (set n | n in level[..i])
      invariant Tracks(deg, steps, done)
    {
      var next := Discharge(deg, DependentsOf(r, level[i]));
      assert level[i] !in done;
      DischargeTracks(deg, next, r, steps, done, level[i]);
      deg := next;
      done := done + {level[i]};
      assert level[..i + 1] == level[..i] + [level[i]];
    }
    assert level[..|level|] == level;
  }

  /** The ready steps are those whose needs are all placed; if there are none, nothing more can be placed. */
  lemma ReadyIsMet(levels: Levels, steps: seq<Step>, deg: Degrees, level: seq<Name>)
    requires Tracks(deg, steps, Placed(levels))
    requires forall n :: n in level <==> n in Names(steps) - Placed(levels) && deg[n] == 0
    ensures forall s :: s in steps && s.name in level ==> forall d :: d in s.needs ==> d in Placed(levels)
    ensures level == [] ==> Saturated(levels, steps)
  {
    forall s | s in steps && s.name !in Placed(levels)
      ensures s.name in level <==> forall d :: d in s.needs ==> d in Placed(levels)
    {
      OpenIsZeroIff(s.needs, Placed(levels));
      assert s.name in Names(steps);
    }
  }

  /** One round of the loop: the next level, empty when nothing more can be placed. */
  method NextLevel(levels: Levels, r: Dependents, deg: Degrees, remaining: set<Name>, ghost steps: seq<Step>)
    returns (level: seq<Name>, deg': Degrees)
    requires Layered(levels, steps) && Mirrors(r, steps) && Tracks(deg, steps, Placed(levels))
    requires remaining == Names(steps) - Placed(levels)
    ensures level == [] ==> Saturated(levels, steps)
    ensures forall n :: n in level ==> n in remaining
    ensures Layered(levels + [level], steps) && Tracks(deg', steps, Placed(levels + [level]))
    ensures Placed(levels + [level]) == Placed(levels) + (set n | n in level)
  {
    level := Ready(remaining, deg);
    ReadyIsMet(levels, steps, deg, level);
    AddLevel(levels, steps, level);
    deg' := PlaceLevel(level, r, deg, steps, Placed(levels));
  }

  /** `topological_levels` */
  method TopologicalLevels(steps: seq<Step>) returns (levels: Levels)
    requires DistinctNames(steps)
    ensures Layered(levels, steps)
    ensures Saturated(levels, steps)
  {
    var dependents := BuildDependents(steps);
    var deg := InitialDegrees(steps);
    var remaining := deg.Keys;
    levels := [];
    assert Placed(levels) == {};
    while true
      invariant Layered(levels, steps) && Tracks(deg, steps, Placed(levels))
      invariant remaining == Names(steps) - Placed(levels)
      decreases remaining
    {
      var level, next := NextLevel(levels, dependents, deg, remaining, steps);
      if level == [] {
        return;
      }
      assert level[0] in remaining;
      levels, deg := levels + [level], next;
      remaining := remaining - (set n | n in level);
    }
  }

  // ---------------------------------------------------------------------------
  // Which pipelines are placed completely
  // ---------------------------------------------------------------------------

  /** The needs are known steps and can be ranked: no cycle. */
  ghost predicate Ranks(steps: seq<Step>, rank: Name -> nat) {
    forall s, d :: s in steps && d in s.needs ==> d in Names(steps) && rank(d) < rank(s.name)
  }

  lemma {:induction false} RankedIsPlaced(levels: Levels, steps: seq<Step>, rank: Name -> nat, s: Step)
    requires Saturated(levels, steps) && Ranks(steps, rank) && s in steps
    ensures s.name in Placed(levels)
    decreases rank(s.name)
  {
    if s.name !in Placed(levels) {
      var d :| d in s.needs && d !in Placed(levels);
      assert d in Names(steps);
      var t :| t in steps && t.name == d;
      RankedIsPlaced(levels, steps, rank, t);
    }
  }

  ghost function LevelOf(levels: Levels, n: Name): nat {
    if exists i :: 0 <= i < |levels| && n in levels[i] then
      var i :| 0 <= i < |levels| && n in levels[i]; i
    else 0
  }

  lemma PlacedIsRanked(levels: Levels, steps: seq<Step>)
    requires Layered(levels, steps) && Placed(levels) == Names(steps)
    ensures Ranks(steps, n => LevelOf(levels, n))
  {
    forall s, d | s in steps && d in s.needs
      ensures d in Names(steps) && LevelOf(levels, d) < LevelOf(levels, s.name)
    {
      assert s.name in Names(steps);
      var i := LevelOf(levels, s.name);
      assert s.name in levels[i];
      assert NeedsMet(levels, i, s);
      var j :| 0 <= j < i && d in levels[j];
      assert d in Placed(levels);
      var k := LevelOf(levels, d);
      assert d in levels[k];
    }
  }

  /** Every step gets a level exactly when all needs are known steps and there is no cycle. */
  lemma AllPlacedIffAcyclic(levels: Levels, steps: seq<Step>)
    requires Layered(levels, steps) && Saturated(levels, steps)
    ensures Placed(levels) == Names(steps) <==> exists rank :: Ranks(steps, rank)
  {
    if Placed(levels) == Names(steps) {
      PlacedIsRanked(levels, steps);
    }
    if exists rank :: Ranks(steps, rank) {
      var rank :| Ranks(steps, rank);
      forall n | n in Names(steps)
        ensures n in Placed(levels)
      {
        var s :| s in steps && s.name == n;
        RankedIsPlaced(levels, steps, rank, s);
      }
    }
  }
}
