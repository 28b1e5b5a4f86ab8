/**
 The job queue: a max-heap of scored jobs with lazy deletion. `remove` only leaves a
 tombstone; a tombstoned entry is skipped, and its tombstone used up, when the heap yields
 it. The heap itself is modelled by the contract of `BinaryHeap`: a collection whose
 `pop` takes out a greatest element. Entries are told apart by their contents.
 */
module PriorityQueue {
  import opened Wrappers

  type JobId = string

  datatype Tier = Free | Standard | Premium | Enterprise

  function Weight(tier: Tier): nat {
    match tier
    case Free => 1
    case Standard => 10
    case Premium => 100
    case Enterprise => 1000
  }

  datatype ScoredJob = ScoredJob(id: JobId, score: real, enqueuedAt: int, tenant: string)

  /** Whole minutes since `enqueuedAt`; times are in seconds and a clock set back counts as no wait. */
  function WaitMinutes(enqueuedAt: int, now: int): nat {
    if now <= enqueuedAt then 0 else (now - enqueuedAt) / 60
  }

  function Score(tier: Tier, enqueuedAt: int, now: int): real {
    Weight(tier) as real * (10.0 + WaitMinutes(enqueuedAt, now) as real) / 10.0
  }

  /** Job ids compare lexicographically. */
  predicate IdLeq(a: JobId, b: JobId) {
    a == [] || (b != [] && (a[0] < b[0] || (a[0] == b[0] && IdLeq(a[1..], b[1..]))))
  }

  /** Higher score first, ties broken by job id. */
  predicate Leq(a: ScoredJob, b: ScoredJob) {
    a.score < b.score || (a.score == b.score && IdLeq(a.id, b.id))
  }

  lemma {:induction false} IdOrder(a: JobId, b: JobId, c: JobId)
    ensures IdLeq(a, b) || IdLeq(b, a)
    ensures IdLeq(a, b) && IdLeq(b, c) ==> IdLeq(a, c)
    ensures IdLeq(a, b) && IdLeq(b, a) ==> a == b
    decreases |a| + |b| + |c|
  {
    if a != [] && b != [] {
      IdOrder(a[1..], b[1..], if c == [] then [] else c[1..]);
    }
  }

  lemma LeqIsOrder(a: ScoredJob, b: ScoredJob, c: ScoredJob)
    ensures Leq(a, b) || Leq(b, a)
    ensures Leq(a, b) && Leq(b, c) ==> Leq(a, c)
    ensures Leq(a, b) && Leq(b, a) ==> a.score == b.score && a.id == b.id
  {
    IdOrder(a.id, b.id, c.id);
  }

  type Heap = set<ScoredJob>

  predicate IsGreatest(j: ScoredJob, h: Heap) {
    j in h && forall k :: k in h ==> Leq(k, j)
  }

  lemma {:induction false} GreatestExists(h: Heap)
    requires h != {}
    ensures exists j :: IsGreatest(j, h)
    decreases |h|
  {
    var x :| x in h;
    var rest := h - {x};
    LeqIsOrder(x, x, x);
    if rest == {} {
      assert forall k :: k in h ==> k in rest || k == x;
      assert IsGreatest(x, h);
    } else {
      GreatestExists(rest);
      var m :| IsGreatest(m, rest);
      LeqIsOrder(m, x, x);
      var g := if Leq(m, x) then x else m;
      forall k | k in h
        ensures Leq(k, g)
      {
        LeqIsOrder(k, m, x);
      }
      assert IsGreatest(g, h);
    }
  }

  function Ids(h: Heap): set<JobId> {
    set j | j in h :: j.id
  }

  /** No two entries of the heap carry the same job id. */
  predicate Unique(h: Heap) {
    forall j, k :: j in h && k in h && j.id == k.id ==> j == k
  }

  datatype QueueState = QueueState(heap: Heap, tiers: map<JobId, Tier>, removed: set<JobId>)

  /** The abstract queue: the entries that are not tombstoned. */
  function Live(q: QueueState): set<ScoredJob> {
    set j | j in q.heap && j.id !in q.removed
  }

  function LiveIds(q: QueueState): set<JobId> {
    Ids(q.heap) - q.removed
  }

  /**
   `pop` on the concrete queue: everything above the result was tombstoned and goes away
   with its tombstone; without a result the heap is used up.
   */
  ghost predicate Popped(q: QueueState, r: Option<ScoredJob>, q': QueueState) {
    && q'.heap <= q.heap
    && q'.tiers == q.tiers
    && (match r
        case None => q'.heap == {} && forall k :: k in q.heap ==> k.id in q.removed
        case Some(j) =>
          && j in q.heap && j.id !in q.removed
          && (forall k :: k in q.heap && !Leq(k, j) ==> k.id in q.removed)
          && (forall k :: k in q.heap ==> (k in q'.heap <==> Leq(k, j) && k != j)))
    && q'.removed == q.removed - Ids(q.heap - q'.heap)
  }

  /** An entry that `pop` leaves in the heap keeps its tombstone, if it has one. */
  lemma StaysBuried(q: QueueState, r: Option<ScoredJob>, q': QueueState, k: ScoredJob)
    requires Unique(q.heap) && Popped(q, r, q') && k in q'.heap
    ensures k.id in q'.removed <==> k.id in q.removed
  {
    assert forall m :: m in q.heap && m.id == k.id ==> m == k;
  }

  /** The tombstoned queue refines a plain priority set. */
  lemma PopTakesGreatestLive(q: QueueState, r: Option<ScoredJob>, q': QueueState)
    requires Unique(q.heap) && Popped(q, r, q')
    ensures Unique(q'.heap)
    ensures r == None <==> Live(q) == {}
    ensures r.Some? ==> r.value in Live(q) && forall k :: k in Live(q) ==> Leq(k, r.value)
    ensures Live(q') == Live(q) - (if r.Some? then {r.value} else {})
  {
    if r.Some? {
      assert r.value in Live(q);
    }
    forall k
      ensures k in Live(q') <==> k in Live(q) && (r.Some? ==> k != r.value)
    {
      if k in q'.heap {
        StaysBuried(q, r, q', k);
      }
    }
  }

  lemma LiveIdsAreIdsOfLive(q: QueueState)
    ensures LiveIds(q) == (set j | j in Live(q) :: j.id)
  {
    forall i | i in LiveIds(q)
      ensures i in (set j | j in Live(q) :: j.id)
    {
      var j :| j in q.heap && j.id == i;
      assert j in Live(q);
    }
  }

  lemma {:induction false} UniqueHeapSize(h: Heap)
    requires Unique(h)
    ensures |Ids(h)| == |h|
    decreases |h|
  {
    if h != {} {
      var x :| x in h;
      var rest := h - {x};
      UniqueHeapSize(rest);
      assert Ids(h) == Ids(rest) + {x.id};
      assert x.id !in Ids(rest);
    }
  }

  /** `len`: the heap's size less the number of tombstones, never below zero. */
  function Length(q: QueueState): nat {
    if |q.heap| <= |q.removed| then 0 else |q.heap| - |q.removed|
  }

  lemma SplitSize(a: set<JobId>, b: set<JobId>)
    ensures |a| == |a * b| + |a - b|
  {
    assert a == a * b + (a - b);
  }

  /**
   `len` never counts more than the live jobs, and is their number exactly when every
   tombstone names a queued job or nothing is live at all.
   */
  lemma LengthNeverOvercounts(q: QueueState)
    requires Unique(q.heap)
    ensures Length(q) <= |LiveIds(q)|
    ensures Length(q) == |LiveIds(q)| <==> q.removed <= Ids(q.heap) || LiveIds(q) == {}
  {
    UniqueHeapSize(q.heap);
    SizesCompare(|q.heap|, Ids(q.heap), q.removed);
  }

  lemma SizesCompare(n: nat, ids: set<JobId>, removed: set<JobId>)
    requires n == |ids|
    ensures n - |removed| <= |ids - removed|
    ensures n - |removed| == |ids - removed| <==> removed <= ids
    ensures |ids - removed| == 0 <==> ids - removed == {}
  {
    SplitSize(ids, removed);
    SplitSize(removed, ids);
    assert ids * removed == removed * ids;
    if removed - ids == {} {
      forall i | i in removed
        ensures i in ids
      {
        assert i !in removed - ids;
      }
    }
  }

  /** A pushed job is live exactly when its id carries no tombstone. */
  lemma PushIsLiveIff(q: QueueState, job: ScoredJob)
    ensures job.id in LiveIds(q.(heap := q.heap + {job})) <==> job.id !in q.removed
  {
    assert job in q.heap + {job};
  }

  function Refreshed(j: ScoredJob, tiers: map<JobId, Tier>, now: int): ScoredJob {
    if j.id in tiers then j.(score := Score(tiers[j.id], j.enqueuedAt, now)) else j
  }

  /** `refresh_scores`: the live entries with new scores, and no tombstones. */
  ghost predicate RefreshedTo(q: QueueState, now: int, q': QueueState) {
    && q'.tiers == q.tiers
    && q'.removed == {}
    && (forall j :: j in Live(q) ==> Refreshed(j, q.tiers, now) in q'.heap)
    && (forall k :: k in q'.heap ==> exists j :: j in Live(q) && k == Refreshed(j, q.tiers, now))
  }

  lemma RefreshKeepsIds(q: QueueState, now: int, q': QueueState)
    requires RefreshedTo(q, now, q')
    ensures Ids(q'.heap) == LiveIds(q)
  {
    forall i | i in LiveIds(q)
      ensures i in Ids(q'.heap)
    {
      var j :| j in q.heap && j.id == i;
      assert j in Live(q);
      assert Refreshed(j, q.tiers, now) in q'.heap;
    }
  }

  lemma RefreshKeepsUnique(q: QueueState, now: int, q': QueueState)
    requires Unique(q.heap) && RefreshedTo(q, now, q')
    ensures Unique(q'.heap)
  {
  }

  /** `refresh_scores` keeps the live set and makes `len` exact. */
  lemma RefreshKeepsLive(q: QueueState, now: int, q': QueueState)
    requires Unique(q.heap) && RefreshedTo(q, now, q')
    ensures Unique(q'.heap)
    ensures LiveIds(q') == LiveIds(q)
    ensures Length(q') == |LiveIds(q)|
  {
    RefreshKeepsIds(q, now, q');
    RefreshKeepsUnique(q, now, q');
    assert LiveIds(q') == Ids(q'.heap);
    LengthNeverOvercounts(q');
  }

  /** Some live entry that is done, scored afresh. */
  ghost predicate IsFresh(q: QueueState, now: int, drained: Heap, k: ScoredJob) {
    exists j :: j in Live(q) && j !in drained && k == Refreshed(j, q.tiers, now)
  }

  /** The new heap holds exactly the live entries that are done, scored afresh. */
  ghost predicate RefreshedPart(q: QueueState, now: int, drained: Heap, h: Heap) {
    && (forall j :: j in Live(q) && j !in drained ==> Refreshed(j, q.tiers, now) in h)
    && (forall k :: k in h ==> IsFresh(q, now, drained, k))
  }

  lemma RefreshOne(q: QueueState, now: int, drained: Heap, h: Heap, job: ScoredJob)
    requires RefreshedPart(q, now, drained, h) && drained <= q.heap && job in drained
    ensures RefreshedPart(q, now, drained - {job},
                          if job.id in q.removed then h else h + {Refreshed(job, q.tiers, now)})
  {
    var rest := drained - {job};
    forall k | k in h
      ensures IsFresh(q, now, rest, k)
    {
      var j :| j in Live(q) && j !in drained && k == Refreshed(j, q.tiers, now);
      assert j !in rest;
    }
    if job.id !in q.removed {
      assert job in Live(q) && job !in rest;
      assert IsFresh(q, now, rest, Refreshed(job, q.tiers, now));
    }
  }

  /** Only tombstoned entries above all others have left the heap, each with its tombstone. */
  ghost predicate Skimmed(q: QueueState, q': QueueState) {
    && q'.heap <= q.heap
    && q'.tiers == q.tiers
    && (forall k :: k in q.heap - q'.heap ==> k.id in q.removed)
    && (forall k, m :: k in q.heap - q'.heap && m in q'.heap ==> Leq(m, k))
    && q'.removed == q.removed - Ids(q.heap - q'.heap)
  }

  /** One round of the `pop` loop on a greatest entry of the heap. */
  lemma SkimOne(q: QueueState, q': QueueState, job: ScoredJob)
    requires Unique(q.heap) && Skimmed(q, q') && IsGreatest(job, q'.heap)
    ensures job.id in q'.removed <==> job.id in q.removed
    ensures job.id in q'.removed ==>
              Skimmed(q, q'.(heap := q'.heap - {job}, removed := q'.removed - {job.id}))
    ensures job.id !in q'.removed ==> Popped(q, Some(job), q'.(heap := q'.heap - {job}))
  {
    var h := q'.heap - {job};
    assert q.heap - h == (q.heap - q'.heap) + {job};
    assert Ids(q.heap - h) == Ids(q.heap - q'.heap) + {job.id};
    assert job.id !in Ids(q.heap - q'.heap);
    if job.id !in q'.removed {
      forall k | k in q.heap
        ensures k in h <==> Leq(k, job) && k != job
      {
        LeqIsOrder(k, job, job);
      }
    }
  }

  class Queue {
    var heap: Heap
    var tiers: map<JobId, Tier>
    /** Tombstones. */
    var removed: set<JobId>

    function View(): QueueState
      reads this
    {
      QueueState(heap, tiers, removed)
    }

    constructor ()
      ensures View() == QueueState({}, map[], {})
    {
      heap, tiers, removed := {}, map[], {};
    }

    method Push(job: ScoredJob, tier: Tier)
      modifies this
      ensures View() == QueueState(old(heap) + {job}, old(tiers)[job.id := tier], old(removed))
      ensures old(Unique(heap)) && job.id !in old(Ids(heap)) ==> Unique(heap)
    {
      tiers := tiers[job.id := tier];
      heap := heap + {job};
    }

    /** Skip tombstoned entries until a live one turns up or the heap is empty. */
    method Pop() returns (r: Option<ScoredJob>)
      requires Unique(heap)
      modifies this
      ensures Popped(old(View()), r, View())
    {
      while heap != {}
        invariant Skimmed(old(View()), View())
        decreases |heap|
      {
        GreatestExists(heap);
        var job :| job in heap && forall k :: k in heap ==> Leq(k, job);
        SkimOne(old(View()), View(), job);
        heap := heap - {job};
        if job.id in removed {
          removed := removed - {job.id};
        } else {
          return Some(job);
        }
      }
      return None;
    }

    /** Put a popped job back; its tier is still tracked. */
    method Requeue(job: ScoredJob)
      modifies this
      ensures View() == old(View()).(heap := old(heap) + {job})
      ensures old(Unique(heap)) && job.id !in old(Ids(heap)) ==> Unique(heap)
    {
      heap := heap + {job};
    }

    method Remove(id: JobId)
      modifies this
      ensures View() == QueueState(old(heap), old(tiers) - {id}, old(removed) + {id})
      ensures LiveIds(View()) == LiveIds(old(View())) - {id}
    {
      tiers := tiers - {id};
      removed := removed + {id};
    }

    method Len() returns (n: nat)
      requires Unique(heap)
      ensures n == Length(View())
      ensures n <= |LiveIds(View())|
      ensures n == |LiveIds(View())| <==> removed <= Ids(heap) || LiveIds(View()) == {}
    {
      LengthNeverOvercounts(View());
      n := if |heap| <= |removed| then 0 else |heap| - |removed|;
    }

    /** Drop tombstoned entries and score the others afresh. */
    method RefreshScores(now: int)
      requires Unique(heap)
      modifies this
      ensures RefreshedTo(old(View()), now, View())
    {
      ghost var q := View();
      var dead := removed;
      removed := {};
      var drained := heap;
      heap := {};
      while drained != {}
        invariant drained <= q.heap && tiers == q.tiers && removed == {} && dead == q.removed
        invariant RefreshedPart(q, now, drained, heap)
        decreases |drained|
      {
        var job :| job in drained;
        RefreshOne(q, now, drained, heap, job);
        drained := drained - {job};
        if job.id !in dead {
          heap := heap + {Refreshed(job, tiers, now)};
        }
      }
      RefreshDone(q, now, heap);
    }
  }

  lemma RefreshDone(q: QueueState, now: int, h: Heap)
    requires RefreshedPart(q, now, {}, h)
    ensures RefreshedTo(q, now, QueueState(h, q.tiers, {}))
  {
    forall k | k in h
      ensures exists j :: j in Live(q) && k == Refreshed(j, q.tiers, now)
    {
      assert IsFresh(q, now, {}, k);
    }
  }
}
