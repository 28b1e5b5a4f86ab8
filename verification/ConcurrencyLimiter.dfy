/**
 The global and per-tenant limit on running jobs.

 An acquire takes a permit of the global semaphore, finds (or creates) the tenant's counter
 and increments it by a load / compare-exchange loop; when the tenant is at its limit the
 global permit is dropped again. Dropping a `ConcurrencyPermit` first decrements the
 counter (its drop body) and then releases the global permit (its field). Each of these
 operations is one `Step`; a list of steps is one interleaving of any number of acquires
 and drops.
 */
module ConcurrencyLimiter {
  import opened Sums

  type Tenant = string
  type CallId = nat

  const USIZE_MAX: nat := 0xFFFF_FFFF_FFFF_FFFF

  datatype Limits = Limits(global: nat, perTenant: nat)

  datatype Phase =
    | GlobalTaken(tenant: Tenant)
    | CounterFound(tenant: Tenant)
    | CounterRead(tenant: Tenant, seen: nat)
    | Permit(tenant: Tenant)
    | Uncounted(tenant: Tenant)

  /** `calls` holds the acquires in flight and the permits they became. */
  datatype State = State(free: nat, counters: map<Tenant, nat>, calls: map<CallId, Phase>)

  datatype Step =
    | TakeGlobal(c: CallId, tenant: Tenant)
    | FindCounter(c: CallId)
    | ReadCounter(c: CallId)
    | SwapCounter(c: CallId)
    | Reject(c: CallId)
    | DropCounter(c: CallId)
    | DropGlobal(c: CallId)

  function Initial(l: Limits): State {
    State(l.global, map[], map[])
  }

  predicate HasCounter(p: Phase) { !p.GlobalTaken? }

  predicate At(s: State, c: CallId) {
    c in s.calls && (HasCounter(s.calls[c]) ==> s.calls[c].tenant in s.counters)
  }

  predicate Enabled(l: Limits, s: State, step: Step) {
    match step
    case TakeGlobal(c, _) => c !in s.calls && s.free > 0
    case FindCounter(c) => At(s, c) && s.calls[c].GlobalTaken?
    case ReadCounter(c) => At(s, c) && s.calls[c].CounterFound?
    case SwapCounter(c) => At(s, c) && s.calls[c].CounterRead? && s.calls[c].seen < l.perTenant
    case Reject(c) => At(s, c) && s.calls[c].CounterRead? && s.calls[c].seen >= l.perTenant
    case DropCounter(c) => At(s, c) && s.calls[c].Permit?
    case DropGlobal(c) => At(s, c) && s.calls[c].Uncounted?
  }

  /** `AtomicUsize::fetch_sub(1)` wraps around below zero. */
  function Decremented(n: nat): nat {
    if n == 0 then USIZE_MAX else n - 1
  }

  function Apply(l: Limits, s: State, step: Step): State
    requires Enabled(l, s, step)
  {
    match step
    case TakeGlobal(c, tenant) =>
      s.(free := s.free - 1, calls := s.calls[c := GlobalTaken(tenant)])
    case FindCounter(c) =>
      var t := s.calls[c].tenant;
      s.(counters := if t in s.counters then s.counters else s.counters[t := 0], calls := s.calls[c := CounterFound(t)])
    case ReadCounter(c) =>
      var t := s.calls[c].tenant;
      s.(calls := s.calls[c := CounterRead(t, s.counters[t])])
    case SwapCounter(c) =>
      var t := s.calls[c].tenant;
      if s.counters[t] == s.calls[c].seen then
        s.(counters := s.counters[t := s.counters[t] + 1], calls := s.calls[c := Permit(t)])
      else
        s.(calls := s.calls[c := CounterFound(t)])
    case Reject(c) => Leave(s, c)
    case DropCounter(c) =>
      var t := s.calls[c].tenant;
      s.(counters := s.counters[t := Decremented(s.counters[t])], calls := s.calls[c := Uncounted(t)])
    case DropGlobal(c) => Leave(s, c)
  }

  /** The global permit goes back to the semaphore. */
  function Leave(s: State, c: CallId): State {
    s.(free := s.free + 1, calls := s.calls - {c})
  }

  /** `steps` is an interleaving that takes `s` to `t`. */
  ghost predicate Runs(l: Limits, s: State, steps: seq<Step>, t: State)
    decreases |steps|
  {
    if steps == [] then t == s else
      Enabled(l, s, steps[0]) && Runs(l, Apply(l, s, steps[0]), steps[1..], t)
  }

  // ---------------------------------------------------------------------------
  // Accounting
  // ---------------------------------------------------------------------------

  function Counted(p: Phase): nat { if p.Permit? then 1 else 0 }

  function Counts1(p: Phase, tenant: Tenant): nat { if p.Permit? && p.tenant == tenant then 1 else 0 }

  function CountedFor(tenant: Tenant): Phase -> nat {
    (p: Phase) => Counts1(p, tenant)
  }

  function Value(n: nat): nat { n }

  /** Each counter is the number of the tenant's counted permits and within the limit. */
  ghost predicate Counts(l: Limits, s: State) {
    forall t :: t in s.counters ==> s.counters[t] == Total(s.calls, CountedFor(t)) && s.counters[t] <= l.perTenant
  }

  ghost predicate Inv(l: Limits, s: State) {
    && s.free + |s.calls| == l.global
    && (forall c :: c in s.calls ==> At(s, c))
    && Counts(l, s)
    && Total(s.counters, Value) == Total(s.calls, Counted)
  }

  lemma CallMoves(s: State, c: CallId, p: Phase, t: Tenant)
    ensures Total(s.calls[c := p], CountedFor(t)) + (if c in s.calls then Counts1(s.calls[c], t) else 0)
            == Total(s.calls, CountedFor(t)) + Counts1(p, t)
    ensures Total(s.calls[c := p], Counted) + (if c in s.calls then Counted(s.calls[c]) else 0)
            == Total(s.calls, Counted) + Counted(p)
    ensures |s.calls[c := p]| == |s.calls| + (if c in s.calls then 0 else 1)
  {
    TotalSet(s.calls, CountedFor(t), c, p);
    TotalSet(s.calls, Counted, c, p);
    assert s.calls[c := p].Keys == s.calls.Keys + {c};
  }

  lemma CallLeaves(s: State, c: CallId, t: Tenant)
    requires c in s.calls
    ensures Total(s.calls - {c}, CountedFor(t)) + Counts1(s.calls[c], t) == Total(s.calls, CountedFor(t))
    ensures Total(s.calls - {c}, Counted) + Counted(s.calls[c]) == Total(s.calls, Counted)
    ensures |s.calls - {c}| == |s.calls| - 1
  {
    TotalDrop(s.calls, CountedFor(t), c);
    TotalDrop(s.calls, Counted, c);
    assert (s.calls - {c}).Keys == s.calls.Keys - {c};
  }

  /** No permit is counted for a tenant that has no counter. */
  lemma {:induction false} NoCounterNoPermits(calls: map<CallId, Phase>, t: Tenant)
    requires forall c :: c in calls && calls[c].Permit? ==> calls[c].tenant != t
    ensures Total(calls, CountedFor(t)) == 0
    decreases |calls|
  {
    if calls != map[] {
      NoCounterNoPermits(calls - {Pick(calls)}, t);
    }
  }

  /** A permit counts, so the decrement of its counter cannot wrap around. */
  lemma NoUnderflow(l: Limits, s: State, c: CallId)
    requires Inv(l, s) && c in s.calls && s.calls[c].Permit?
    ensures s.calls[c].tenant in s.counters && s.counters[s.calls[c].tenant] >= 1
  {
    var t := s.calls[c].tenant;
    assert At(s, c);
    CallLeaves(s, c, t);
    assert Counts1(s.calls[c], t) == 1;
  }

  lemma LeaveKeepsCounts(l: Limits, s: State, c: CallId)
    requires Inv(l, s) && c in s.calls && !s.calls[c].Permit?
    ensures Inv(l, Leave(s, c))
  {
    CallLeaves(s, c, "");
    forall t | t in s.counters
      ensures Total(s.calls - {c}, CountedFor(t)) == Total(s.calls, CountedFor(t))
    {
      CallLeaves(s, c, t);
    }
  }

  lemma MoveCounts(l: Limits, s: State, c: CallId, p: Phase, now: nat)
    requires Counts(l, s) && c in s.calls && s.calls[c].tenant == p.tenant && p.tenant in s.counters
    requires now + Counted(s.calls[c]) == s.counters[p.tenant] + Counted(p) && now <= l.perTenant
    ensures Counts(l, s.(counters := s.counters[p.tenant := now], calls := s.calls[c := p]))
  {
    var counters, calls := s.counters[p.tenant := now], s.calls[c := p];
    forall t | t in counters
      ensures counters[t] == Total(calls, CountedFor(t)) && counters[t] <= l.perTenant
    {
      CallMoves(s, c, p, t);
    }
  }

  /**
   A call moves while its tenant's counter changes to `now`: the accounts stay right if the
   change is that of the call's own count.
   */
  lemma MoveKeepsCounts(l: Limits, s: State, c: CallId, p: Phase, now: nat)
    requires Inv(l, s) && c in s.calls && HasCounter(p) && s.calls[c].tenant == p.tenant && p.tenant in s.counters
    requires now + Counted(s.calls[c]) == s.counters[p.tenant] + Counted(p) && now <= l.perTenant
    ensures Inv(l, s.(counters := s.counters[p.tenant := now], calls := s.calls[c := p]))
  {
    MoveCounts(l, s, c, p, now);
    CallMoves(s, c, p, p.tenant);
    TotalSet(s.counters, Value, p.tenant, now);
  }

  lemma EnterKeepsCounts(l: Limits, s: State, c: CallId, tenant: Tenant)
    requires Inv(l, s) && c !in s.calls && s.free > 0
    ensures Inv(l, s.(free := s.free - 1, calls := s.calls[c := GlobalTaken(tenant)]))
  {
    CallMoves(s, c, GlobalTaken(tenant), tenant);
    forall t | t in s.counters
      ensures Total(s.calls[c := GlobalTaken(tenant)], CountedFor(t)) == Total(s.calls, CountedFor(t))
    {
      CallMoves(s, c, GlobalTaken(tenant), t);
    }
  }

  lemma FindCounterKeepsCounts(l: Limits, s: State, c: CallId)
    requires Inv(l, s) && c in s.calls && s.calls[c].GlobalTaken?
    ensures Inv(l, Apply(l, s, FindCounter(c)))
  {
    var t := s.calls[c].tenant;
    if t in s.counters {
      MoveKeepsCounts(l, s, c, CounterFound(t), s.counters[t]);
      assert s.counters[t := s.counters[t]] == s.counters;
    } else {
      forall d | d in s.calls && s.calls[d].Permit?
        ensures s.calls[d].tenant != t
      {
        assert At(s, d);
      }
      NoCounterNoPermits(s.calls, t);
      TotalSet(s.counters, Value, t, 0);
      var s' := s.(counters := s.counters[t := 0]);
      assert Inv(l, s');
      MoveKeepsCounts(l, s', c, CounterFound(t), 0);
      assert s'.counters[t := 0] == s'.counters;
    }
  }

  lemma LoopKeepsCounts(l: Limits, s: State, step: Step)
    requires Inv(l, s) && Enabled(l, s, step) && (step.ReadCounter? || step.SwapCounter?)
    ensures Inv(l, Apply(l, s, step))
  {
    var t := s.calls[step.c].tenant;
    var n := s.counters[t];
    assert s.counters[t := n] == s.counters;
    if step.ReadCounter? {
      MoveKeepsCounts(l, s, step.c, CounterRead(t, n), n);
    } else if n == s.calls[step.c].seen {
      MoveKeepsCounts(l, s, step.c, Permit(t), n + 1);
    } else {
      MoveKeepsCounts(l, s, step.c, CounterFound(t), n);
    }
  }

  lemma DropKeepsCounts(l: Limits, s: State, c: CallId)
    requires Inv(l, s) && Enabled(l, s, DropCounter(c))
    ensures Inv(l, Apply(l, s, DropCounter(c)))
  {
    NoUnderflow(l, s, c);
    MoveKeepsCounts(l, s, c, Uncounted(s.calls[c].tenant), s.counters[s.calls[c].tenant] - 1);
  }

  lemma StepKeepsCounts(l: Limits, s: State, step: Step)
    requires Inv(l, s) && Enabled(l, s, step)
    ensures Inv(l, Apply(l, s, step))
  {
    match step
    case TakeGlobal(c, tenant) => EnterKeepsCounts(l, s, c, tenant);
    case FindCounter(c) => FindCounterKeepsCounts(l, s, c);
    case ReadCounter(_) => LoopKeepsCounts(l, s, step);
    case SwapCounter(_) => LoopKeepsCounts(l, s, step);
    case Reject(c) => LeaveKeepsCounts(l, s, c);
    case DropCounter(c) => DropKeepsCounts(l, s, c);
    case DropGlobal(c) => LeaveKeepsCounts(l, s, c);
  }

  lemma {:induction false} RunKeepsCounts(l: Limits, s: State, steps: seq<Step>, t: State)
    requires Inv(l, s) && Runs(l, s, steps, t)
    ensures Inv(l, t)
    decreases |steps|
  {
    if steps != [] {
      StepKeepsCounts(l, s, steps[0]);
      RunKeepsCounts(l, Apply(l, s, steps[0]), steps[1..], t);
    }
  }

  /**
   In every interleaving: each tenant's counter is the number of its counted permits and
   within its limit; the sum over all tenants never exceeds the global permits taken, and
   those never exceed the global limit.
   */
  lemma EveryInterleavingCounts(l: Limits, steps: seq<Step>, t: State)
    requires Runs(l, Initial(l), steps, t)
    ensures forall x :: x in t.counters ==>
              t.counters[x] == Total(t.calls, CountedFor(x)) && t.counters[x] <= l.perTenant
    ensures Total(t.counters, Value) <= l.global - t.free <= l.global
    ensures l.global - t.free == |t.calls|
  {
    assert Inv(l, Initial(l));
    RunKeepsCounts(l, Initial(l), steps, t);
    TotalAtMostSize(t.calls, Counted);
  }

  /** Nothing leaks: once every acquire has been refused or its permit dropped, every slot is free. */
  lemma QuietLimiterIsFree(l: Limits, steps: seq<Step>, t: State)
    requires Runs(l, Initial(l), steps, t) && t.calls == map[]
    ensures t.free == l.global
    ensures forall x :: x in t.counters ==> t.counters[x] == 0
  {
    EveryInterleavingCounts(l, steps, t);
  }

  // ---------------------------------------------------------------------------
  // The operations, as written, under interference
  // ---------------------------------------------------------------------------

  lemma {:induction false} RunsSnoc(l: Limits, s: State, a: seq<Step>, m: State, step: Step)
    requires Runs(l, s, a, m) && Enabled(l, m, step)
    ensures Runs(l, s, a + [step], Apply(l, m, step))
    decreases |a|
  {
    if a == [] {
      assert a + [step] == [step];
    } else {
      RunsSnoc(l, Apply(l, s, a[0]), a[1..], m, step);
      assert (a + [step])[1..] == a[1..] + [step];
    }
  }

  lemma RunHasCounter(l: Limits, steps: seq<Step>, t: State, c: CallId)
    requires Runs(l, Initial(l), steps, t) && c in t.calls
    ensures At(t, c)
    ensures t.calls[c].Permit? ==> t.counters[t.calls[c].tenant] >= 1
  {
    assert Inv(l, Initial(l));
    RunKeepsCounts(l, Initial(l), steps, t);
    if t.calls[c].Permit? {
      NoUnderflow(l, t, c);
    }
  }

  /** What other callers do in one round of the loop: before its load, and between load and exchange. */
  datatype Gap = Gap(before: seq<Step>, between: seq<Step>)

  const QUIET := Gap([], [])

  class Limiter {
    const limits: Limits
    var free: nat
    var counters: map<Tenant, nat>
    /** Acquires in flight and permits held. */
    var calls: map<CallId, Phase>
    ghost var history: seq<Step>

    function View(): State
      reads this
    {
      State(free, counters, calls)
    }

    ghost predicate Valid()
      reads this
    {
      Runs(limits, Initial(limits), history, View())
    }

    constructor (global: nat, perTenant: nat)
      ensures Valid() && limits == Limits(global, perTenant) && View() == Initial(limits) && history == []
    {
      limits := Limits(global, perTenant);
      free, counters, calls, history := global, map[], map[], [];
    }

    method Perform(step: Step)
      requires Valid() && Enabled(limits, View(), step)
      modifies this
      ensures Valid() && View() == Apply(limits, old(View()), step) && history == old(history) + [step]
    {
      RunsSnoc(limits, Initial(limits), history, View(), step);
      var t := Apply(limits, View(), step);
      free, counters, calls := t.free, t.counters, t.calls;
      history := history + [step];
    }

    /** The possible steps of `others` that do not belong to `me`, in order. */
    method Interfere(me: CallId, others: seq<Step>)
      requires Valid()
      modifies this
      ensures Valid() && old(history) <= history
      ensures me in calls <==> me in old(calls)
      ensures me in calls ==> calls[me] == old(calls)[me]
      ensures others == [] ==> View() == old(View())
    {
      for i := 0 to |others|
        invariant Valid() && old(history) <= history
        invariant me in calls <==> me in old(calls)
        invariant me in calls ==> calls[me] == old(calls)[me]
        invariant others == [] ==> View() == old(View())
      {
        if others[i].c != me && Enabled(limits, View(), others[i]) {
          Perform(others[i]);
        }
      }
    }

    /** One load of the tenant's counter, with other callers before it and after it. */
    method Load(me: CallId, gap: Gap) returns (current: nat)
      requires Valid() && me in calls && calls[me].CounterFound? && calls[me].tenant in counters
      modifies this
      ensures Valid() && old(history) <= history
      ensures me in calls && calls[me] == CounterRead(old(calls)[me].tenant, current) && calls[me].tenant in counters
      ensures gap == QUIET ==>
                && View() == old(View()).(calls := old(calls)[me := calls[me]])
                && current == counters[calls[me].tenant]
    {
      Interfere(me, gap.before);
      RunHasCounter(limits, history, View(), me);
      current := counters[calls[me].tenant];
      Perform(ReadCounter(me));
      Interfere(me, gap.between);
      RunHasCounter(limits, history, View(), me);
    }

    /**
     The compare-exchange loop of `try_acquire`, with the steps `schedule[k]` of other
     callers before the load and before the exchange of its k-th round.
     */
    method CountIn(me: CallId, tenant: Tenant, schedule: seq<Gap>) returns (ok: bool)
      requires Valid() && me in calls && calls[me] == CounterFound(tenant) && tenant in counters
      modifies this
      ensures Valid() && old(history) <= history
      ensures ok ==> me in calls && calls[me] == Permit(tenant)
      ensures !ok ==> me !in calls
      ensures schedule == [] ==> (ok <==> old(counters)[tenant] < limits.perTenant)
      ensures schedule == [] && ok ==>
                View() == State(old(free), old(counters)[tenant := old(counters)[tenant] + 1], old(calls)[me := Permit(tenant)])
      ensures schedule == [] && !ok ==> View() == State(old(free) + 1, old(counters), old(calls) - {me})
    {
      var turn := 0;
      while true
        invariant Valid() && old(history) <= history
        invariant me in calls && calls[me] == CounterFound(tenant) && tenant in counters
        invariant 0 <= turn <= |schedule|
        invariant schedule == [] ==> View() == old(View())
        decreases |schedule| - turn
      {
        var current := Load(me, if turn < |schedule| then schedule[turn] else QUIET);
        if current >= limits.perTenant {
          Perform(Reject(me));
          assert schedule == [] ==> calls == old(calls) - {me};
          return false;
        }
        var swapped := counters[tenant] == current;
        Perform(SwapCounter(me));
        if swapped {
          assert schedule == [] ==> calls == old(calls)[me := Permit(tenant)];
          return true;
        }
        turn := turn + 1;
      }
    }

    /**
     `try_acquire` with other callers' steps between any two of its own. It either ends with a counted permit or, refused,
     holds nothing. Run alone it succeeds exactly when a global permit is free and the
     tenant is below its limit, and a refusal changes no count.
     */
    method TryAcquire(me: CallId, tenant: Tenant, first: seq<Step>, schedule: seq<Gap>) returns (ok: bool)
      requires Valid() && me !in calls
      modifies this
      ensures Valid() && old(history) <= history
      ensures ok ==> me in calls && calls[me] == Permit(tenant)
      ensures !ok ==> me !in calls
      ensures old(free) == 0 ==> !ok && View() == old(View())
      ensures first == [] && schedule == [] ==>
                var was := if tenant in old(counters) then old(counters)[tenant] else 0;
                && (ok <==> old(free) > 0 && was < limits.perTenant)
                && (ok ==> View() == State(old(free) - 1, old(counters)[tenant := was + 1], old(calls)[me := Permit(tenant)]))
                && (!ok && old(free) > 0 ==> View() == State(old(free), old(counters)[tenant := was], old(calls)))
    {
      if free == 0 {
        return false;
      }
      Perform(TakeGlobal(me, tenant));
      Interfere(me, first);
      Perform(FindCounter(me));
      assert first == [] ==> counters == old(counters)[tenant := if tenant in old(counters) then old(counters)[tenant] else 0];
      ok := CountIn(me, tenant, schedule);
      assert first == [] && schedule == [] && !ok ==> calls == old(calls);
      assert first == [] && schedule == [] && ok ==> calls == old(calls)[me := Permit(tenant)];
    }

    /** Dropping a permit gives back its count and its global slot, and nothing else. */
    method DropPermit(me: CallId, turn: seq<Step>)
      requires Valid() && me in calls && calls[me].Permit?
      modifies this
      ensures Valid() && old(history) <= history && me !in calls
      ensures turn == [] ==>
                var tenant := old(calls)[me].tenant;
                && tenant in old(counters) && old(counters)[tenant] >= 1
                && View() == State(old(free) + 1, old(counters)[tenant := old(counters)[tenant] - 1], old(calls) - {me})
    {
      RunHasCounter(limits, history, View(), me);
      Perform(DropCounter(me));
      Interfere(me, turn);
      RunHasCounter(limits, history, View(), me);
      Perform(DropGlobal(me));
      assert turn == [] ==> calls == old(calls) - {me};
    }
  }
}
