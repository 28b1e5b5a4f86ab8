/**
 Finding the step or job a run was expanded from. A matrix run is named after its step,
 followed by a blank, an opening bracket and the matrix values.
 */
module RunNames {
  import opened DagGraph
  import opened Wrappers

  type Run = string

  /** `n` could be the step of this run. */
  predicate Matches(q: Run, n: Name) {
    q == n || n + " (" <= q
  }

  /** The first name that could be the run's step. */
  function Original(q: Run, names: seq<Name>): Option<Name> {
    if names == [] then None
    else if Matches(q, names[0]) then Some(names[0])
    else Original(q, names[1..])
  }

  /** `find_original_name` */
  method FindOriginalName(q: Run, names: seq<Name>) returns (r: Option<Name>)
    ensures r == Original(q, names)
  {
    assert names[0..] == names;
    for i := 0 to |names|
      invariant Original(q, names) == Original(q, names[i..])
    {
      assert names[i..][1..] == names[i + 1..];
      if q == names[i] {
        return Some(names[i]);
      }
      if names[i] <= q && " (" <= q[|names[i]|..] {
        assert names[i] + " (" <= q;
        return Some(names[i]);
      }
    }
    return None;
  }

  lemma {:induction false} OriginalIsFirst(q: Run, names: seq<Name>, k: nat)
    requires k < |names| && Distinct(names) && Matches(q, names[k])
    ensures Original(q, names) == Some(names[k]) <==> forall j :: 0 <= j < k ==> !Matches(q, names[j])
  {
    if k > 0 && !Matches(q, names[0]) {
      var rest := names[1..];
      OriginalIsFirst(q, rest, k - 1);
      assert forall j :: 0 <= j < k - 1 ==> rest[j] == names[j + 1];
      assert forall j :: 0 < j < k ==> names[j] == rest[j - 1];
    }
  }

  lemma {:induction false} OriginalMatches(q: Run, names: seq<Name>)
    ensures Original(q, names).Some? ==> Original(q, names).value in names && Matches(q, Original(q, names).value)
    ensures Original(q, names).None? <==> forall n :: n in names ==> !Matches(q, n)
  {
    if names != [] {
      OriginalMatches(q, names[1..]);
      assert names == [names[0]] + names[1..];
    }
  }

  /** Two names that can both be the step of one run are equal, or one reads like a run of the other. */
  lemma SharedRun(q: Run, m: Name, n: Name)
    requires Matches(q, m) && Matches(q, n)
    ensures m == n || m + " (" <= n || n + " (" <= m
  {
    if |m| <= |n| {
      OneInside(q, m, n);
    } else {
      OneInside(q, n, m);
    }
  }

  lemma OneInside(q: Run, m: Name, n: Name)
    requires Matches(q, m) && Matches(q, n) && |m| <= |n|
    ensures m == n || m + " (" <= n
  {
    assert m <= q && n <= q;
    assert m == q[..|m|] && n == q[..|n|];
    if |m| == |n| {
    } else if q == n {
    } else {
      assert q[|m|] == (m + " (")[|m|] == ' ';
      assert q[|m| + 1] == (m + " (")[|m| + 1] == '(';
      assert q[|n|] == (n + " (")[|n|] == ' ';
    }
  }

  /**
   Every run of the `k`-th step is attributed to it exactly when no earlier step is named
   like one of its runs, and it is not named like a run of an earlier step.
   */
  lemma AttributedIff(names: seq<Name>, k: nat)
    requires k < |names| && Distinct(names)
    ensures (forall q :: Matches(q, names[k]) ==> Original(q, names) == Some(names[k])) <==>
            (forall j :: 0 <= j < k ==> !(names[j] + " (" <= names[k]) && !(names[k] + " (" <= names[j]))
  {
    var n := names[k];
    if forall q :: Matches(q, n) ==> Original(q, names) == Some(n) {
      forall j | 0 <= j < k
        ensures !(names[j] + " (" <= n) && !(n + " (" <= names[j])
      {
        OriginalIsFirst(n, names, k);
        if n + " (" <= names[j] {
          OriginalIsFirst(names[j], names, k);
        }
      }
    }
    if forall j :: 0 <= j < k ==> !(names[j] + " (" <= n) && !(n + " (" <= names[j]) {
      forall q | Matches(q, n)
        ensures Original(q, names) == Some(n)
      {
        forall j | 0 <= j < k
          ensures !Matches(q, names[j])
        {
          if Matches(q, names[j]) {
            SharedRun(q, names[j], n);
          }
        }
        OriginalIsFirst(q, names, k);
      }
    }
  }

  /** The runs attributed to one step, in order. */
  function Attributed(runs: seq<Run>, names: seq<Name>, n: Name): seq<Run> {
    if runs == [] then []
    else Attributed(runs[..|runs| - 1], names, n) +
         if Original(runs[|runs| - 1], names) == Some(n) then [runs[|runs| - 1]] else []
  }

  lemma {:induction false} AttributedMembers(runs: seq<Run>, names: seq<Name>, n: Name)
    ensures forall q :: q in Attributed(runs, names, n) <==> q in runs && Original(q, names) == Some(n)
    ensures Distinct(runs) ==> Distinct(Attributed(runs, names, n))
  {
    if runs != [] {
      AttributedMembers(runs[..|runs| - 1], names, n);
      assert runs == runs[..|runs| - 1] + [runs[|runs| - 1]];
    }
  }

  /** The map gives every step exactly the runs attributed to it; a step without runs has no entry. */
  ghost predicate Groups(g: map<Name, seq<Run>>, runs: seq<Run>, names: seq<Name>) {
    forall n :: Attributed(runs, names, n) == if n in g then g[n] else []
  }

  lemma GroupNext(g: map<Name, seq<Run>>, runs: seq<Run>, names: seq<Name>, q: Run)
    requires Groups(g, runs, names)
    ensures var orig := Original(q, names);
            Groups(if orig.None? then g else g[orig.value := (if orig.value in g then g[orig.value] else []) + [q]],
                   runs + [q], names)
  {
    forall n
      ensures Attributed(runs + [q], names, n) ==
              Attributed(runs, names, n) + if Original(q, names) == Some(n) then [q] else []
    {
      assert (runs + [q])[..|runs|] == runs;
    }
  }

  /** `build_run_maps` */
  method BuildRunMaps(runs: seq<Run>, names: seq<Name>) returns (g: map<Name, seq<Run>>)
    ensures Groups(g, runs, names)
  {
    g := map[];
    for i := 0 to |runs|
      invariant Groups(g, runs[..i], names)
    {
      GroupNext(g, runs[..i], names, runs[i]);
      assert runs[..i + 1] == runs[..i] + [runs[i]];
      var orig := FindOriginalName(runs[i], names);
      if orig.Some? {
        g := g[orig.value := (if orig.value in g then g[orig.value] else []) + [runs[i]]];
      }
    }
    assert runs[..|runs|] == runs;
  }
}
