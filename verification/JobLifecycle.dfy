/**
 The life of one job record: activations of `execute_job`, the stale-job watchdog and
 cancel requests race over a store that offers a compare-and-swap on the state and an
 unguarded write of the whole record.

 Any number of activations and watchdog passes may be under way for the job; each store
 access is one `Step`. `Config.strict` says whether the store's compare-and-swap also
 refuses transitions outside the table of `can_transition_to`. The trait promises only the
 swap; the memory, SQLite and MongoDB stores all check the table as well.
 */
module JobLifecycle {
  import opened RetryPolicy
  import opened Wrappers

  datatype JobState = Pending | Scheduled | Pulling | Running | Succeeded | Failed | Cancelled | TimedOut

  predicate IsTerminal(s: JobState) {
    s.Succeeded? || s.Failed? || s.Cancelled? || s.TimedOut?
  }

  predicate CanTransition(from: JobState, to: JobState) {
    && !IsTerminal(from)
    && (|| to.Cancelled?
        || (from.Pending? && to.Scheduled?)
        || (from.Scheduled? && (to.Pulling? || to.Running?))
        || (from.Pulling? && (to.Running? || to.Failed?))
        || (from.Running? && (to.Succeeded? || to.Failed? || to.TimedOut?)))
  }

  datatype Config = Config(strict: bool, policy: Policy)

  datatype Record = Record(state: JobState, retries: nat)

  type ActorId = nat

  /** Program points of `execute_job` and of a watchdog pass, with the record each one read. */
  datatype Phase =
    | Fetched(job: Record)
    | Claimed(job: Record)
    | Executing(job: Record)
    | Finishing(job: Record, to: JobState)
    | Publishing(job: Record, to: JobState)
    | Resetting(job: Record)
    | Rewriting(job: Record)
    | Sleeping
    | Watching(job: Record)
    | Burying(job: Record)

  datatype State = State(
    record: Record,
    actors: map<ActorId, Phase>,
    /** Entries for this job in the scheduler's queue. */
    tickets: nat,
    // History: container runs, retries written, and time slept before them.
    executions: nat,
    rewrites: nat,
    slept: nat,
    /** Retries whose write failed, so that they are not counted in the record. */
    lost: nat)

  const Initial: State := State(Record(Pending, 0), map[], 1, 0, 0, 0, 0)

  /** What running the container came to. */
  datatype Outcome = Exit(code: Option<int>) | Error(error: RetryPolicy.Error)

  datatype Step =
    | Fetch(a: ActorId)
    | Claim(a: ActorId)
    | Start(a: ActorId)
    | Finish(a: ActorId, outcome: Outcome)
    | Settle(a: ActorId)
    | Publish(a: ActorId)
    | Reset(a: ActorId)
    | Rewrite(a: ActorId)
    | Wake(a: ActorId)
    | List(a: ActorId)
    | Bury(a: ActorId)
    | WriteOff(a: ActorId)
    | Cancel(from: JobState)
    // The store fails: on a swap, and on a write of the whole record.
    | Abandon(a: ActorId)
    | Lose(a: ActorId)

  predicate At(s: State, a: ActorId) { a in s.actors }

  /** A swap is the next store access. */
  predicate Swapping(p: Phase) {
    p.Fetched? || p.Claimed? || p.Finishing? || p.Resetting? || p.Watching?
  }

  /** An unguarded write of the record is the next store access. */
  predicate Writing(p: Phase) {
    p.Publishing? || p.Rewriting? || p.Burying?
  }

  predicate Enabled(s: State, step: Step) {
    match step
    case Fetch(a) => a !in s.actors
    case Claim(a) => At(s, a) && s.actors[a].Fetched?
    case Start(a) => At(s, a) && s.actors[a].Claimed?
    case Finish(a, _) => At(s, a) && s.actors[a].Executing?
    case Settle(a) => At(s, a) && s.actors[a].Finishing?
    case Publish(a) => At(s, a) && s.actors[a].Publishing?
    case Reset(a) => At(s, a) && s.actors[a].Resetting?
    case Rewrite(a) => At(s, a) && s.actors[a].Rewriting?
    case Wake(a) => At(s, a) && s.actors[a].Sleeping?
    case List(a) => a !in s.actors && (s.record.state.Running? || s.record.state.Scheduled?)
    case Bury(a) => At(s, a) && s.actors[a].Watching?
    case WriteOff(a) => At(s, a) && s.actors[a].Burying?
    case Cancel(from) => !IsTerminal(from)
    case Abandon(a) => At(s, a) && Swapping(s.actors[a])
    case Lose(a) => At(s, a) && Writing(s.actors[a])
  }

  function Put(s: State, a: ActorId, p: Phase): State { s.(actors := s.actors[a := p]) }

  function Leave(s: State, a: ActorId): State { s.(actors := s.actors - {a}) }

  /** `update_state` succeeds. */
  predicate Swaps(c: Config, s: State, from: JobState, to: JobState) {
    s.record.state == from && (c.strict ==> CanTransition(from, to))
  }

  /** `update_state(from, to)`, after which the actor goes on at `p` or, refused, gives up. */
  function Swap(c: Config, s: State, a: ActorId, from: JobState, to: JobState, p: Phase): State {
    if Swaps(c, s, from, to) then Put(s, a, p).(record := s.record.(state := to)) else Leave(s, a)
  }

  /** The terminal state `execute_job` chooses for an outcome that is not retried. */
  function Verdict(outcome: Outcome): (to: JobState)
    ensures IsTerminal(to)
    ensures to != TimedOut
  {
    match outcome
    case Exit(code) => if code == Some(0) then Succeeded else Failed
    case Error(e) =>
      if IsRetryable(e) then Failed
      else match e
           case Timeout => TimedOut
           case Cancelled => JobState.Cancelled
           case _ => Failed
  }

  /** After the container has returned: retry, or settle on a terminal state. */
  function Decide(c: Config, job: Record, outcome: Outcome): Phase {
    if outcome.Error? && ShouldRetry(c.policy, outcome.error, job.retries).Some?
    then Resetting(job) else Finishing(job, Verdict(outcome))
  }

  /** A failed write is only logged. After a retry's, the job is enqueued again all the same. */
  function LoseAt(c: Config, s: State, a: ActorId): State
    requires At(s, a) && Writing(s.actors[a])
  {
    if s.actors[a].Rewriting? then
      Put(s, a, Sleeping).(lost := s.lost + 1, slept := s.slept + Delay(c.policy, s.actors[a].job.retries))
    else
      Leave(s, a)
  }

  function Apply(c: Config, s: State, step: Step): State
    requires Enabled(s, step)
  {
    match step
    case Fetch(a) => Put(s, a, Fetched(s.record)).(tickets := if s.tickets > 0 then s.tickets - 1 else 0)
    case Claim(a) => Swap(c, s, a, Pending, Scheduled, Claimed(s.actors[a].job))
    case Start(a) =>
      var t := Swap(c, s, a, Scheduled, Running, Executing(s.actors[a].job));
      if Swaps(c, s, Scheduled, Running) then t.(executions := s.executions + 1) else t
    case Finish(a, outcome) => Put(s, a, Decide(c, s.actors[a].job, outcome))
    case Settle(a) => Swap(c, s, a, Running, s.actors[a].to, Publishing(s.actors[a].job, s.actors[a].to))
    case Publish(a) => Leave(s, a).(record := s.actors[a].job.(state := s.actors[a].to))
    case Reset(a) => Swap(c, s, a, Running, Pending, Rewriting(s.actors[a].job))
    case Rewrite(a) =>
      Put(s, a, Sleeping).(record := Record(Pending, s.actors[a].job.retries + 1), rewrites := s.rewrites + 1,
                           slept := s.slept + Delay(c.policy, s.actors[a].job.retries))
    case Wake(a) => Leave(s, a).(tickets := s.tickets + 1)
    case List(a) => Put(s, a, Watching(s.record))
    case Bury(a) => Swap(c, s, a, s.actors[a].job.state, Failed, Burying(s.actors[a].job))
    case WriteOff(a) => Leave(s, a).(record := s.actors[a].job.(state := Failed))
    case Cancel(from) => if Swaps(c, s, from, JobState.Cancelled) then s.(record := s.record.(state := JobState.Cancelled)) else s
    case Abandon(a) => Leave(s, a)
    case Lose(a) => LoseAt(c, s, a)
  }

  ghost predicate Runs(c: Config, s: State, steps: seq<Step>, t: State)
    decreases |steps|
  {
    if steps == [] then t == s else
      Enabled(s, steps[0]) && Runs(c, Apply(c, s, steps[0]), steps[1..], t)
  }

  // ---------------------------------------------------------------------------
  // At most one runner; terminal states are final
  // ---------------------------------------------------------------------------

  predicate PhaseOk(c: Config, r: JobState, p: Phase) {
    match p
    case Finishing(_, to) => IsTerminal(to) && CanTransition(Running, to)
    case Publishing(_, to) => IsTerminal(to) && r == to
    case Burying(_) => r == Failed
    case Watching(job) => job.state.Running? || job.state.Scheduled?
    case Rewriting(_) => !c.strict
    case Sleeping => !c.strict
    case _ => true
  }

  /** Once terminal, the state stays as it is. */
  predicate Frozen(s: State, t: State) {
    IsTerminal(s.record.state) ==> t.record.state == s.record.state
  }

  /** The activation runs the container, or is about to swap the state back to pending. */
  predicate Active(s: State, a: ActorId) {
    a in s.actors && (s.actors[a].Executing? || s.actors[a].Resetting?)
  }

  /** At most one activation is active, and none before the job is running. */
  ghost predicate Exclusive(c: Config, s: State) {
    && (forall a, b :: Active(s, a) && Active(s, b) ==> a == b)
    && (s.record.state.Pending? || s.record.state.Scheduled? ==> forall a :: !Active(s, a))
    && (forall a :: a in s.actors ==> PhaseOk(c, s.record.state, s.actors[a]))
  }

  /** A retry write overwrites no terminal state and takes the job from no active activation. */
  ghost predicate Harmless(s: State, step: Step) {
    step.Rewrite? ==> !IsTerminal(s.record.state) && forall a :: !Active(s, a)
  }

  ghost predicate AllHarmless(c: Config, s: State, steps: seq<Step>)
    decreases |steps|
  {
    steps == [] || (Enabled(s, steps[0]) ==>
                      Harmless(s, steps[0]) && AllHarmless(c, Apply(c, s, steps[0]), steps[1..]))
  }

  lemma SwapKeepsExclusive(c: Config, s: State, step: Step)
    requires Exclusive(c, s) && Enabled(s, step) && (step.Claim? || step.Start? || step.Settle? || step.Reset?)
    ensures Exclusive(c, Apply(c, s, step)) && Frozen(s, Apply(c, s, step))
  {
    var t := Apply(c, s, step);
    assert forall b :: b != step.a ==> (Active(t, b) <==> Active(s, b));
    assert step.Reset? ==> Active(s, step.a);
    assert PhaseOk(c, s.record.state, s.actors[step.a]);
  }

  lemma OutsiderKeepsExclusive(c: Config, s: State, step: Step)
    requires Exclusive(c, s) && Enabled(s, step) && (step.Bury? || step.WriteOff? || step.Cancel? || step.List?)
    ensures Exclusive(c, Apply(c, s, step)) && Frozen(s, Apply(c, s, step))
  {
    var t := Apply(c, s, step);
    assert forall b :: Active(t, b) <==> Active(s, b);
    if step.Bury? || step.WriteOff? {
      assert PhaseOk(c, s.record.state, s.actors[step.a]);
    }
  }

  lemma MoveKeepsExclusive(c: Config, s: State, step: Step)
    requires Exclusive(c, s) && Enabled(s, step) && Harmless(s, step)
    requires step.Fetch? || step.Finish? || step.Publish? || step.Rewrite? || step.Wake? || step.Abandon? || step.Lose?
    ensures Exclusive(c, Apply(c, s, step)) && Frozen(s, Apply(c, s, step))
  {
    var t := Apply(c, s, step);
    assert forall b :: b != step.a ==> (Active(t, b) <==> Active(s, b));
    assert step.Finish? ==> Active(s, step.a);
    if step.a in s.actors {
      assert PhaseOk(c, s.record.state, s.actors[step.a]);
    }
  }

  lemma StepKeepsExclusive(c: Config, s: State, step: Step)
    requires Exclusive(c, s) && Enabled(s, step) && Harmless(s, step)
    ensures Exclusive(c, Apply(c, s, step)) && Frozen(s, Apply(c, s, step))
  {
    if step.Claim? || step.Start? || step.Settle? || step.Reset? {
      SwapKeepsExclusive(c, s, step);
    } else if step.Bury? || step.WriteOff? || step.Cancel? || step.List? {
      OutsiderKeepsExclusive(c, s, step);
    } else {
      MoveKeepsExclusive(c, s, step);
    }
  }

  /** At most one activation runs the container. */
  ghost predicate OneRunner(s: State) {
    forall a, b :: At(s, a) && At(s, b) && s.actors[a].Executing? && s.actors[b].Executing? ==> a == b
  }

  /**
   In every interleaving whose retry writes are harmless, at most one activation runs the
   job at a time, and a terminal state never changes again.
   */
  lemma {:induction false} EveryRunIsSafe(c: Config, s: State, steps: seq<Step>, t: State)
    requires Exclusive(c, s) && Runs(c, s, steps, t) && AllHarmless(c, s, steps)
    ensures Exclusive(c, t) && OneRunner(t) && Frozen(s, t)
    decreases |steps|
  {
    if steps != [] {
      var m := Apply(c, s, steps[0]);
      StepKeepsExclusive(c, s, steps[0]);
      EveryRunIsSafe(c, m, steps[1..], t);
    } else {
      assert forall a :: At(t, a) && t.actors[a].Executing? ==> Active(t, a);
    }
  }

  lemma {:induction false} HarmlessSplit(c: Config, s: State, a: seq<Step>, m: State, b: seq<Step>)
    requires Runs(c, s, a, m) && AllHarmless(c, s, a + b)
    ensures AllHarmless(c, s, a) && AllHarmless(c, m, b)
    decreases |a|
  {
    if a == [] {
      assert a + b == b;
    } else {
      assert (a + b)[1..] == a[1..] + b;
      HarmlessSplit(c, Apply(c, s, a[0]), a[1..], m, b);
    }
  }

  /**
   Whatever happens from `s` on, as long as retry writes are harmless: one activation at
   most runs the job at any time, and a terminal state is final from any time on.
   */
  ghost predicate SafeFrom(c: Config, s: State) {
    forall a, m, b, t :: Runs(c, s, a, m) && Runs(c, m, b, t) && AllHarmless(c, s, a + b) ==> OneRunner(m) && Frozen(m, t)
  }

  lemma ExclusiveIsSafe(c: Config, s: State)
    requires Exclusive(c, s)
    ensures SafeFrom(c, s)
  {
    forall a, m, b, t | Runs(c, s, a, m) && Runs(c, m, b, t) && AllHarmless(c, s, a + b)
      ensures OneRunner(m) && Frozen(m, t)
    {
      HarmlessSplit(c, s, a, m, b);
      EveryRunIsSafe(c, s, a, m);
      EveryRunIsSafe(c, m, b, t);
    }
  }

  /** No other step writes the record while some activation is between its swap and its write. */
  ghost predicate Undisturbed(c: Config, s: State, steps: seq<Step>)
    decreases |steps|
  {
    steps == [] || (Enabled(s, steps[0]) ==>
                      var t := Apply(c, s, steps[0]);
                      && (forall a :: At(s, a) && s.actors[a].Rewriting? && steps[0] != Rewrite(a) ==> t.record == s.record)
                      && Undisturbed(c, t, steps[1..]))
  }

  /** If no other write falls between a retry's swap and its write, every retry write is harmless. */
  lemma {:induction false} UndisturbedIsHarmless(c: Config, s: State, steps: seq<Step>)
    requires Exclusive(c, s) && Undisturbed(c, s, steps)
    requires forall a :: At(s, a) && s.actors[a].Rewriting? ==> s.record.state.Pending?
    ensures AllHarmless(c, s, steps)
    decreases |steps|
  {
    if steps != [] && Enabled(s, steps[0]) {
      var t := Apply(c, s, steps[0]);
      assert Harmless(s, steps[0]);
      StepKeepsExclusive(c, s, steps[0]);
      forall a | At(t, a) && t.actors[a].Rewriting?
        ensures t.record.state.Pending?
      {
        if At(s, a) && s.actors[a].Rewriting? {
          assert steps[0] != Rewrite(a) ==> t.record == s.record;
        }
      }
      UndisturbedIsHarmless(c, t, steps[1..]);
    }
  }

  /**
   From a fresh job on, if no other write falls between a retry's swap and its write: at any
   time at most one activation runs the job, and a terminal state is final.
   */
  lemma SafeFromTheStart(c: Config, a: seq<Step>, m: State, b: seq<Step>, t: State)
    requires Runs(c, Initial, a, m) && Runs(c, m, b, t) && Undisturbed(c, Initial, a + b)
    ensures OneRunner(m) && Frozen(m, t)
  {
    UndisturbedIsHarmless(c, Initial, a + b);
    ExclusiveIsSafe(c, Initial);
  }

  lemma {:induction false} Above(ids: set<ActorId>) returns (x: ActorId)
    ensures forall a :: a in ids ==> a < x
    decreases |ids|
  {
    x := 0;
    if ids != {} {
      var y :| y in ids;
      var z := Above(ids - {y});
      x := if y < z then z else y + 1;
      assert forall a :: a in ids ==> a == y || a in ids - {y};
    }
  }

  /** A newcomer takes a pending job and runs it, whoever else is there. */
  lemma NewcomerRuns(c: Config, s: State) returns (x: ActorId, steps: seq<Step>, t: State)
    requires s.record.state.Pending?
    ensures x !in s.actors && steps == [Fetch(x), Claim(x), Start(x)] && Runs(c, s, steps, t)
    ensures t.record == s.record.(state := Running)
    ensures t.actors == s.actors[x := Executing(s.record)]
    ensures AllHarmless(c, s, steps)
  {
    x := Above(s.actors.Keys);
    var s1 := Apply(c, s, Fetch(x));
    var s2 := Apply(c, s1, Claim(x));
    t := Apply(c, s2, Start(x));
    steps := [Fetch(x), Claim(x), Start(x)];
    assert AllHarmless(c, t, []) && AllHarmless(c, s2, [Start(x)]) && AllHarmless(c, s1, [Claim(x), Start(x)]) by {
      assert [Start(x)][1..] == [] && [Claim(x), Start(x)][1..] == [Start(x)];
    }
    assert steps[1..] == [Claim(x), Start(x)] && steps[1..][1..] == [Start(x)] && steps[1..][1..][1..] == [];
    assert t.actors == s.actors[x := Executing(s.record)];
    assert Runs(c, s2, [Start(x)], t);
    assert Runs(c, s1, [Claim(x), Start(x)], t);
  }

  lemma {:induction false} RunsTogether(c: Config, s: State, a: seq<Step>, m: State, b: seq<Step>, t: State)
    requires Runs(c, s, a, m) && Runs(c, m, b, t) && AllHarmless(c, s, a) && AllHarmless(c, m, b)
    ensures Runs(c, s, a + b, t) && AllHarmless(c, s, a + b)
    decreases |a|
  {
    if a == [] {
      assert a + b == b;
    } else {
      assert (a + b)[1..] == a[1..] + b;
      RunsTogether(c, Apply(c, s, a[0]), a[1..], m, b, t);
    }
  }

  lemma TwoAreUnsafe(c: Config, s: State, steps: seq<Step>, t: State, a: ActorId, b: ActorId)
    requires Runs(c, s, steps, t) && AllHarmless(c, s, steps) && a != b
    requires At(t, a) && At(t, b) && t.actors[a].Executing? && t.actors[b].Executing?
    ensures !SafeFrom(c, s)
  {
    assert Runs(c, t, [], t) && steps + [] == steps;
    assert !OneRunner(t);
  }

  /** A pending job with an activation still running it: a second one can start. */
  lemma ExecutingIsUnsafe(c: Config, s: State, b: ActorId)
    requires s.record.state.Pending? && At(s, b) && s.actors[b].Executing?
    ensures !SafeFrom(c, s)
  {
    var x, steps, t := NewcomerRuns(c, s);
    TwoAreUnsafe(c, s, steps, t, b, x);
  }

  /** A pending job with an activation about to reset it: the reset hits the next one that runs. */
  lemma ResettingIsUnsafe(c: Config, s: State, b: ActorId)
    requires !c.strict && s.record.state.Pending? && At(s, b) && s.actors[b].Resetting?
    ensures !SafeFrom(c, s)
  {
    var x, steps, m := NewcomerRuns(c, s);
    var reset := Apply(c, m, Reset(b));
    assert Runs(c, m, [Reset(b)], reset) by { assert [Reset(b)][1..] == []; }
    assert AllHarmless(c, m, [Reset(b)]) by { assert [Reset(b)][1..] == []; }
    RunsTogether(c, s, steps, m, [Reset(b)], reset);
    var y, more, t := NewcomerRuns(c, reset);
    RunsTogether(c, s, steps + [Reset(b)], reset, more, t);
    TwoAreUnsafe(c, s, steps + [Reset(b)] + more, t, x, y);
  }

  /**
   Exactly which retry writes are safe, in every state that harmless writes can lead to: the
   write leaves a terminal state alone, and from then on one activation at most runs the job
   and terminal states are final, if and only if the state it overwrites is not terminal and
   no activation is executing the job or about to reset it. Still pending, the state is
   always such; scheduled by another activation, too.
   */
  lemma RetryWriteSafeIff(c: Config, steps: seq<Step>, s: State, a: ActorId)
    requires Runs(c, Initial, steps, s) && AllHarmless(c, Initial, steps) && Enabled(s, Rewrite(a))
    ensures var t := Apply(c, s, Rewrite(a));
            && (Frozen(s, t) && SafeFrom(c, t) <==> Harmless(s, Rewrite(a)))
            && (s.record.state.Pending? || s.record.state.Scheduled? ==> Harmless(s, Rewrite(a)))
  {
    EveryRunIsSafe(c, Initial, steps, s);
    var t := Apply(c, s, Rewrite(a));
    assert PhaseOk(c, s.record.state, s.actors[a]);
    if Harmless(s, Rewrite(a)) {
      StepKeepsExclusive(c, s, Rewrite(a));
      ExclusiveIsSafe(c, t);
    } else if !IsTerminal(s.record.state) {
      var b :| Active(s, b);
      if s.actors[b].Executing? {
        ExecutingIsUnsafe(c, t, b);
      } else {
        ResettingIsUnsafe(c, t, b);
      }
    }
  }

  /** A run in which the write falls on a job another activation is running: a third one starts it again. */
  lemma TwoRunners(policy: Policy) returns (steps: seq<Step>, t: State)
    requires policy.maxRetries > 0
    ensures Runs(Config(false, policy), Initial, steps, t)
    ensures At(t, 1) && At(t, 2) && t.actors[1].Executing? && t.actors[2].Executing?
  {
    var c := Config(false, policy);
    t, steps := RetryUnderWay(policy);
    t, steps := Extend(c, steps, t, Fetch(1));
    t, steps := Extend(c, steps, t, Claim(1));
    t, steps := Extend(c, steps, t, Start(1));
    t, steps := Extend(c, steps, t, Rewrite(0));
    t, steps := Extend(c, steps, t, Fetch(2));
    t, steps := Extend(c, steps, t, Claim(2));
    t, steps := Extend(c, steps, t, Start(2));
  }

  /** The first activation has failed and swapped the state back, and has not written yet. */
  lemma RetryUnderWay(policy: Policy) returns (s: State, steps: seq<Step>)
    requires policy.maxRetries > 0
    ensures Runs(Config(false, policy), Initial, steps, s)
    ensures s.record == Record(Pending, 0) && s.actors == map[0 := Rewriting(Record(Pending, 0))]
  {
    var c := Config(false, policy);
    s, steps := Initial, [];
    s, steps := Extend(c, steps, s, Fetch(0));
    s, steps := Extend(c, steps, s, Claim(0));
    s, steps := Extend(c, steps, s, Start(0));
    s, steps := Extend(c, steps, s, Finish(0, Error(Docker)));
    s, steps := Extend(c, steps, s, Reset(0));
  }

  /** A run in which a cancel falls between swap and write: the cancelled job is pending again. */
  lemma CancelledJobRevived(policy: Policy) returns (steps: seq<Step>, s: State, t: State)
    requires policy.maxRetries > 0
    ensures Runs(Config(false, policy), Initial, steps, s) && s.record.state == JobState.Cancelled
    ensures Enabled(s, Rewrite(0)) && t == Apply(Config(false, policy), s, Rewrite(0)) && t.record.state == Pending
  {
    var c := Config(false, policy);
    s, steps := RetryUnderWay(policy);
    s, steps := Extend(c, steps, s, Cancel(Pending));
    t := Apply(c, s, Rewrite(0));
  }

  lemma {:induction false} RunsSnoc(c: Config, s: State, steps: seq<Step>, m: State, step: Step)
    requires Runs(c, s, steps, m) && Enabled(m, step)
    ensures Runs(c, s, steps + [step], Apply(c, m, step))
    decreases |steps|
  {
    if steps == [] {
      assert steps + [step] == [step];
    } else {
      RunsSnoc(c, Apply(c, s, steps[0]), steps[1..], m, step);
      assert (steps + [step])[1..] == steps[1..] + [step];
    }
  }

  lemma Extend(c: Config, steps: seq<Step>, m: State, step: Step) returns (t: State, steps': seq<Step>)
    requires Runs(c, Initial, steps, m) && Enabled(m, step)
    ensures t == Apply(c, m, step) && steps' == steps + [step] && Runs(c, Initial, steps', t)
  {
    RunsSnoc(c, Initial, steps, m, step);
    t, steps' := Apply(c, m, step), steps + [step];
  }

  // ---------------------------------------------------------------------------
  // A store that checks the transition table
  // ---------------------------------------------------------------------------

  /** The activation has claimed the job and not yet let go of it. */
  predicate Holding(p: Phase) {
    p.Claimed? || p.Executing? || p.Finishing? || p.Resetting?
  }

  predicate Holder(s: State, a: ActorId) { a in s.actors && Holding(s.actors[a]) }

  ghost predicate OneHolder(s: State) {
    forall a, b :: Holder(s, a) && Holder(s, b) ==> a == b
  }

  /** Somebody at most is in charge of the job, and only once it is claimed. */
  ghost predicate Inv(c: Config, s: State) {
    && OneHolder(s)
    && !s.record.state.Pulling?
    && (s.record.state.Pending? ==> forall a :: !Holder(s, a))
    && (forall a :: a in s.actors && s.actors[a].Claimed? ==> !s.record.state.Running?)
    && (forall a :: Holder(s, a) && !s.actors[a].Claimed? ==> !s.record.state.Scheduled?)
    && (forall a :: a in s.actors ==> PhaseOk(c, s.record.state, s.actors[a]))
  }

  lemma SwapKeepsInv(c: Config, s: State, step: Step)
    requires c.strict && Inv(c, s) && Enabled(s, step) && (step.Claim? || step.Start? || step.Settle? || step.Reset?)
    ensures Inv(c, Apply(c, s, step)) && Frozen(s, Apply(c, s, step))
  {
    var t := Apply(c, s, step);
    assert forall b :: b != step.a ==> (Holder(t, b) <==> Holder(s, b));
    assert forall b :: At(s, b) && s.actors[b].Claimed? ==> Holder(s, b);
    assert step.Claim? || Holder(s, step.a);
    assert t.record.state != s.record.state && (step.Claim? || step.Start?) ==> Holder(t, step.a);
    assert PhaseOk(c, s.record.state, s.actors[step.a]);
  }

  lemma BuryKeepsInv(c: Config, s: State, step: Step)
    requires c.strict && Inv(c, s) && Enabled(s, step) && (step.Bury? || step.Cancel?)
    ensures Inv(c, Apply(c, s, step)) && Frozen(s, Apply(c, s, step))
  {
    var t := Apply(c, s, step);
    assert forall b :: Holder(t, b) <==> Holder(s, b);
  }

  lemma MoveKeepsInv(c: Config, s: State, step: Step)
    requires c.strict && Inv(c, s) && Enabled(s, step)
    requires !step.Claim? && !step.Start? && !step.Settle? && !step.Reset? && !step.Bury? && !step.Cancel?
    ensures Inv(c, Apply(c, s, step)) && Frozen(s, Apply(c, s, step))
  {
    var t := Apply(c, s, step);
    if step.a in s.actors {
      assert PhaseOk(c, s.record.state, s.actors[step.a]);
    }
    assert t.record.state == s.record.state;
    assert forall b :: Holder(t, b) ==> Holder(s, b);
  }

  lemma StepKeepsInv(c: Config, s: State, step: Step)
    requires c.strict && Inv(c, s) && Enabled(s, step)
    ensures Inv(c, Apply(c, s, step)) && Frozen(s, Apply(c, s, step))
  {
    if step.Claim? || step.Start? || step.Settle? || step.Reset? {
      SwapKeepsInv(c, s, step);
    } else if step.Bury? || step.Cancel? {
      BuryKeepsInv(c, s, step);
    } else {
      MoveKeepsInv(c, s, step);
    }
  }

  ghost predicate StrictInv(s: State) {
    && s.executions <= 1 && s.rewrites == 0 && s.lost == 0
    && (s.record.state.Pending? || s.record.state.Scheduled? ==> s.executions == 0)
  }

  /**
   With a store that checks the table no proviso is needed: every interleaving is safe. But
   the retry path's swap from Running to Pending is always refused, so the job is run at
   most once and no retry is ever written.
   */
  lemma {:induction false} StrictStoreRunsOnce(c: Config, s: State, steps: seq<Step>, t: State)
    requires c.strict && Inv(c, s) && StrictInv(s) && Runs(c, s, steps, t)
    ensures Inv(c, t) && StrictInv(t) && Frozen(s, t)
    decreases |steps|
  {
    if steps != [] {
      var m := Apply(c, s, steps[0]);
      assert forall a :: a in s.actors ==> PhaseOk(c, s.record.state, s.actors[a]) && !s.actors[a].Rewriting?;
      StepKeepsInv(c, s, steps[0]);
      assert StrictInv(m);
      StrictStoreRunsOnce(c, m, steps[1..], t);
    }
  }

  /** The refused retry leaves the record Running and nobody in charge of it. */
  lemma RefusedRetryStrandsJob(c: Config, s: State, a: ActorId)
    requires c.strict && Inv(c, s) && Enabled(s, Reset(a)) && s.record.state.Running?
    ensures var t := Apply(c, s, Reset(a)); t.record == s.record && forall b :: !Holder(t, b)
  {
    assert Holder(s, a);
    assert forall b :: Holder(Apply(c, s, Reset(a)), b) ==> Holder(s, b) && b != a;
  }

  /** A stranded job changes only when the watchdog buries it or a client cancels it. */
  lemma StrandedUntilBuriedOrCancelled(c: Config, s: State, step: Step)
    requires c.strict && Inv(c, s) && s.record.state.Running? && (forall a :: !Holder(s, a))
    requires Enabled(s, step) && !step.Bury? && !step.Cancel?
    ensures var t := Apply(c, s, step); t.record == s.record && forall a :: !Holder(t, a)
  {
    if !step.Fetch? && !step.List? {
      assert PhaseOk(c, s.record.state, s.actors[step.a]);
      assert !Holder(s, step.a);
    }
    assert forall b :: At(Apply(c, s, step), b) && b != step.a ==> (Holder(Apply(c, s, step), b) <==> Holder(s, b));
  }

  // ---------------------------------------------------------------------------
  // How often a job runs and how long it waits
  // ---------------------------------------------------------------------------

  /** Activations start only from queue entries, of which there is one to begin with. */
  ghost predicate Ticketed(c: Config, s: State, steps: seq<Step>)
    decreases |steps|
  {
    steps == [] || (Enabled(s, steps[0]) ==>
                      && (steps[0].Fetch? ==> s.tickets > 0)
                      && Ticketed(c, Apply(c, s, steps[0]), steps[1..]))
  }

  predicate Activation(s: State, a: ActorId) {
    a in s.actors && !s.actors[a].Watching? && !s.actors[a].Burying?
  }

  /** How an actor's snapshot relates to the retries tried and the runs started so far. */
  predicate Counted(c: Config, s: State, p: Phase) {
    match p
    case Fetched(job) => s.record.state.Pending? ==> job.retries == s.rewrites && s.executions == Tried(s)
    case Claimed(job) => job.retries == s.rewrites && s.executions == Tried(s)
    case Executing(job) => job.retries == s.rewrites && s.executions == Tried(s) + 1
    case Finishing(_, to) => IsTerminal(to)
    case Publishing(_, to) => IsTerminal(to) && s.record.state == to
    case Resetting(job) => job.retries == s.rewrites < c.policy.maxRetries && s.executions == Tried(s) + 1
    case Rewriting(job) =>
      && job.retries == s.rewrites < c.policy.maxRetries && s.executions == Tried(s) + 1
      && (s.record.state.Pending? || s.record.state == JobState.Cancelled)
    case Sleeping => Due(s)
    case Watching(job) => job.state.Running? || job.state.Scheduled?
    case Burying(_) => s.record.state == Failed
  }

  /** Retries, whether their write succeeded or not. */
  function Tried(s: State): nat { s.rewrites + s.lost }

  /** If the job is pending, as many runs have ended as retries were tried. */
  predicate Due(s: State) {
    s.record.state.Pending? ==> s.executions == Tried(s)
  }

  /** The delays of the retries counted, and the cap for each that was not. */
  function Allowance(p: Policy, rewrites: nat, lost: nat): nat {
    if lost == 0 then TotalDelay(p, rewrites) else Allowance(p, rewrites, lost - 1) + p.maxDelay
  }

  lemma {:induction false} AllowanceGrows(p: Policy, rewrites: nat, lost: nat)
    ensures Allowance(p, rewrites + 1, lost) == Allowance(p, rewrites, lost) + Delay(p, rewrites)
  {
    if lost > 0 {
      AllowanceGrows(p, rewrites, lost - 1);
    }
  }

  lemma {:induction false} AllowanceBound(p: Policy, rewrites: nat, lost: nat)
    requires rewrites <= p.maxRetries
    ensures Allowance(p, rewrites, lost) <= p.baseDelay * (Pow2(p.maxRetries) - 1) + lost * p.maxDelay
  {
    if lost == 0 {
      TotalDelayMonotone(p, rewrites, p.maxRetries);
      TotalDelayBound(p, p.maxRetries);
    } else {
      AllowanceBound(p, rewrites, lost - 1);
      assert lost * p.maxDelay == (lost - 1) * p.maxDelay + p.maxDelay;
    }
  }

  ghost predicate TicketInv(c: Config, s: State) {
    && s.executions <= Tried(s) + 1
    && s.rewrites <= c.policy.maxRetries
    && s.slept <= Allowance(c.policy, s.rewrites, s.lost)
    && s.tickets <= 1
    && (!IsTerminal(s.record.state) ==> s.record.retries == s.rewrites)
    && (s.tickets == 1 ==> Due(s) && forall a :: !Activation(s, a))
    && (forall a, b :: Activation(s, a) && Activation(s, b) ==> a == b)
    && (forall a :: a in s.actors ==> Counted(c, s, s.actors[a]))
  }

  /** The one activation moves on, or leaves, while the queue and the retries stay as they are. */
  lemma ActivationMoves(c: Config, s: State, a: ActorId, t: State)
    requires TicketInv(c, s) && Activation(s, a)
    requires t.tickets == s.tickets && t.rewrites == s.rewrites && t.slept == s.slept && t.lost == s.lost
    requires t.executions <= Tried(t) + 1
    requires !IsTerminal(t.record.state) ==> !IsTerminal(s.record.state) && t.record.retries == s.record.retries
    requires s.record.state == Failed ==> t.record.state == Failed
    requires t.actors == s.actors - {a}
             || (a in t.actors && t.actors == s.actors[a := t.actors[a]] && Activation(t, a) && Counted(c, t, t.actors[a]))
    ensures TicketInv(c, t)
  {
    assert forall b :: b in t.actors && b != a ==> b in s.actors && t.actors[b] == s.actors[b];
    assert forall b :: b in s.actors && b != a ==> !Activation(s, b) && Counted(c, s, s.actors[b]);
  }

  lemma ActivationStepCounts(c: Config, s: State, step: Step)
    requires TicketInv(c, s) && Enabled(s, step)
    requires step.Claim? || step.Start? || step.Settle? || step.Reset? || step.Finish? || step.Publish?
    ensures TicketInv(c, Apply(c, s, step))
  {
    assert Counted(c, s, s.actors[step.a]) && Activation(s, step.a);
    ActivationMoves(c, s, step.a, Apply(c, s, step));
  }

  /** The one activation goes to sleep after its retry, whatever became of the write. */
  lemma SleepCounts(c: Config, s: State, a: ActorId, t: State)
    requires TicketInv(c, s) && At(s, a) && s.actors[a].Rewriting?
    requires t.actors == s.actors[a := Sleeping] && t.tickets == s.tickets && t.executions == s.executions == Tried(t)
    requires t.rewrites <= c.policy.maxRetries && t.slept <= Allowance(c.policy, t.rewrites, t.lost)
    requires !IsTerminal(t.record.state) ==> t.record.retries == t.rewrites
    ensures TicketInv(c, t)
  {
    assert Counted(c, s, s.actors[a]) && Activation(s, a);
    assert forall b :: b in s.actors && b != a ==> !Activation(s, b) && Counted(c, s, s.actors[b]);
  }

  lemma LoseCounts(c: Config, s: State, a: ActorId)
    requires TicketInv(c, s) && Enabled(s, Lose(a)) && s.actors[a].Rewriting?
    ensures TicketInv(c, Apply(c, s, Lose(a)))
  {
    assert Counted(c, s, s.actors[a]);
    DelaysGrowToCap(c.policy, s.rewrites);
    SleepCounts(c, s, a, Apply(c, s, Lose(a)));
  }

  /** A failing store that takes a watchdog or an activation out of the game. */
  lemma LeaveCounts(c: Config, s: State, step: Step)
    requires TicketInv(c, s) && Enabled(s, step) && (step.Abandon? || (step.Lose? && !s.actors[step.a].Rewriting?))
    ensures TicketInv(c, Apply(c, s, step))
  {
    var t := Apply(c, s, step);
    assert t == Leave(s, step.a);
    assert forall b :: b in t.actors ==> b in s.actors && t.actors[b] == s.actors[b];
    assert forall b :: Activation(t, b) ==> Activation(s, b);
  }

  lemma RewriteCounts(c: Config, s: State, a: ActorId)
    requires TicketInv(c, s) && Enabled(s, Rewrite(a))
    ensures TicketInv(c, Apply(c, s, Rewrite(a)))
  {
    assert Counted(c, s, s.actors[a]);
    AllowanceGrows(c.policy, s.rewrites, s.lost);
    SleepCounts(c, s, a, Apply(c, s, Rewrite(a)));
  }

  lemma QueueStepCounts(c: Config, s: State, step: Step)
    requires TicketInv(c, s) && Enabled(s, step) && (step.Fetch? ==> s.tickets > 0)
    requires step.Fetch? || step.Wake? || step.List?
    ensures TicketInv(c, Apply(c, s, step))
  {
    var a, t := step.a, Apply(c, s, step);
    assert forall b :: b in t.actors && b != a ==> b in s.actors && t.actors[b] == s.actors[b];
    assert forall b :: Activation(t, b) && b != a ==> Activation(s, b);
    if step.Wake? {
      assert Counted(c, s, s.actors[a]) && Activation(s, a);
    }
  }

  lemma OutsiderStepCounts(c: Config, s: State, step: Step)
    requires TicketInv(c, s) && Enabled(s, step) && (step.Bury? || step.WriteOff? || step.Cancel?)
    ensures TicketInv(c, Apply(c, s, step))
  {
    var t := Apply(c, s, step);
    if !step.Cancel? {
      assert Counted(c, s, s.actors[step.a]);
    }
    assert forall b :: Activation(t, b) ==> Activation(s, b);
  }

  lemma {:induction false} TicketedRunCounts(c: Config, s: State, steps: seq<Step>, t: State)
    requires TicketInv(c, s) && Runs(c, s, steps, t) && Ticketed(c, s, steps)
    ensures TicketInv(c, t)
    decreases |steps|
  {
    if steps != [] {
      var step := steps[0];
      if step.Fetch? || step.Wake? || step.List? {
        QueueStepCounts(c, s, step);
      } else if step.Bury? || step.WriteOff? || step.Cancel? {
        OutsiderStepCounts(c, s, step);
      } else if step.Rewrite? {
        RewriteCounts(c, s, step.a);
      } else if step.Lose? && s.actors[step.a].Rewriting? {
        LoseCounts(c, s, step.a);
      } else if step.Lose? || step.Abandon? {
        LeaveCounts(c, s, step);
      } else {
        ActivationStepCounts(c, s, step);
      }
      TicketedRunCounts(c, Apply(c, s, step), steps[1..], t);
    }
  }

  lemma TicketedTotals(c: Config, s: State, steps: seq<Step>, t: State)
    requires s.record == Record(Pending, 0) && s.actors == map[] && s.tickets == 1
    requires s.executions == s.rewrites == s.lost == s.slept == 0
    requires Runs(c, s, steps, t) && Ticketed(c, s, steps)
    ensures t.executions <= t.rewrites + t.lost + 1 && t.rewrites <= c.policy.maxRetries
    ensures t.slept <= Allowance(c.policy, t.rewrites, t.lost)
  {
    TicketedRunCounts(c, s, steps, t);
  }

  /**
   With every activation started from the queue, and whatever the watchdog, clients and a
   failing store do, a job is run at most `maxRetries + 1` times and its retries wait at most
   base delay times 2^maxRetries - 1 altogether, but for the retries whose write failed: each
   allows one run and one capped delay more.
   */
  lemma RunsAndWaitsAreBounded(c: Config, steps: seq<Step>, t: State)
    requires Runs(c, Initial, steps, t) && Ticketed(c, Initial, steps)
    ensures t.executions <= c.policy.maxRetries + 1 + t.lost
    ensures t.slept <= c.policy.baseDelay * (Pow2(c.policy.maxRetries) - 1) + t.lost * c.policy.maxDelay
  {
    TicketedTotals(c, Initial, steps, t);
    AllowanceBound(c.policy, t.rewrites, t.lost);
  }

  /** The job waits in the queue, and nobody is at work on it. */
  predicate Ready(s: State) {
    s.record.state.Pending? && s.actors == map[] && s.tickets == 1
  }

  /** A run from the start whose activations all come from the queue. */
  ghost predicate Scheduling(c: Config, steps: seq<Step>, s: State) {
    Runs(c, Initial, steps, s) && Ticketed(c, Initial, steps)
  }

  lemma {:induction false} TicketedSnoc(c: Config, s: State, steps: seq<Step>, m: State, step: Step)
    requires Runs(c, s, steps, m) && Ticketed(c, s, steps) && Enabled(m, step) && (step.Fetch? ==> m.tickets > 0)
    ensures Ticketed(c, s, steps + [step])
    decreases |steps|
  {
    if steps == [] {
      assert (steps + [step])[1..] == [];
    } else {
      TicketedSnoc(c, Apply(c, s, steps[0]), steps[1..], m, step);
      assert (steps + [step])[1..] == steps[1..] + [step];
    }
  }

  lemma Schedule(c: Config, steps: seq<Step>, m: State, step: Step) returns (t: State, steps': seq<Step>)
    requires Scheduling(c, steps, m) && Enabled(m, step) && (step.Fetch? ==> m.tickets > 0)
    ensures t == Apply(c, m, step) && Scheduling(c, steps', t)
  {
    TicketedSnoc(c, Initial, steps, m, step);
    RunsSnoc(c, Initial, steps, m, step);
    t, steps' := Apply(c, m, step), steps + [step];
  }

  /** An activation from the queue that runs the container. */
  lemma RunOnce(c: Config, steps: seq<Step>, s: State) returns (t: State, steps': seq<Step>)
    requires Scheduling(c, steps, s) && Ready(s)
    ensures Scheduling(c, steps', t)
    ensures t == s.(record := s.record.(state := Running), actors := map[0 := Executing(s.record)], tickets := 0,
                    executions := s.executions + 1)
  {
    t, steps' := Schedule(c, steps, s, Fetch(0));
    t, steps' := Schedule(c, steps', t, Claim(0));
    t, steps' := Schedule(c, steps', t, Start(0));
    assert t.actors == map[0 := Executing(s.record)];
  }

  /** One that fails with a retryable error, its retry written or lost. */
  lemma RunAgain(c: Config, steps: seq<Step>, s: State, works: bool) returns (t: State, steps': seq<Step>)
    requires !c.strict && Scheduling(c, steps, s) && Ready(s) && s.record.retries < c.policy.maxRetries
    ensures Scheduling(c, steps', t) && Ready(t) && t.executions == s.executions + 1
    ensures t.record.retries == s.record.retries + (if works then 1 else 0)
    ensures t.lost == s.lost + (if works then 0 else 1)
  {
    t, steps' := RunOnce(c, steps, s);
    t, steps' := Schedule(c, steps', t, Finish(0, Error(Docker)));
    t, steps' := Schedule(c, steps', t, Reset(0));
    t, steps' := Schedule(c, steps', t, if works then Rewrite(0) else Lose(0));
    t, steps' := Schedule(c, steps', t, Wake(0));
    assert t.actors == map[];
  }

  lemma {:induction false} RunOften(c: Config, lost: nat, written: nat) returns (t: State, steps: seq<Step>)
    requires !c.strict && 0 < c.policy.maxRetries && written <= c.policy.maxRetries
    ensures Scheduling(c, steps, t) && Ready(t)
    ensures t.lost == lost && t.record.retries == written && t.executions == lost + written
    decreases lost + written
  {
    if written > 0 {
      t, steps := RunOften(c, lost, written - 1);
      t, steps := RunAgain(c, steps, t, true);
    } else if lost > 0 {
      t, steps := RunOften(c, lost - 1, 0);
      t, steps := RunAgain(c, steps, t, false);
    } else {
      t, steps := Initial, [];
    }
  }

  /**
   The bound on the runs is met: with a store that only swaps, a policy that retries and any
   number of failed writes there is a run that reaches it. So `maxRetries + 1` is a bound if
   and only if no retry's write fails.
   */
  lemma BoundIsMet(policy: Policy, lost: nat) returns (t: State, steps: seq<Step>)
    requires 0 < policy.maxRetries
    ensures Runs(Config(false, policy), Initial, steps, t) && Ticketed(Config(false, policy), Initial, steps)
    ensures t.lost == lost && t.executions == policy.maxRetries + 1 + lost
  {
    t, steps := RunOften(Config(false, policy), lost, policy.maxRetries);
    t, steps := RunOnce(Config(false, policy), steps, t);
  }

  // ---------------------------------------------------------------------------
  // `execute_job` and the watchdog, as written, under interference
  // ---------------------------------------------------------------------------

  /** What an undisturbed `execute_job` makes of a pending record; `works` is whether its last write does. */
  function Executed(c: Config, r: Record, outcome: Outcome, works: bool): Record {
    if Decide(c, r, outcome).Resetting? then
      (if c.strict then r.(state := Running) else Record(Pending, if works then r.retries + 1 else r.retries))
    else
      r.(state := Verdict(outcome))
  }

  class Server {
    const config: Config
    var record: Record
    var actors: map<ActorId, Phase>
    var tickets: nat
    var executions: nat
    var rewrites: nat
    var slept: nat
    var lost: nat
    ghost var history: seq<Step>

    function View(): State
      reads this
    {
      State(record, actors, tickets, executions, rewrites, slept, lost)
    }

    ghost predicate Valid()
      reads this
    {
      Runs(config, Initial, history, View())
    }

    constructor (config: Config)
      ensures Valid() && this.config == config && View() == Initial && history == []
    {
      this.config := config;
      record, actors, tickets, executions, rewrites, slept, lost := Record(Pending, 0), map[], 1, 0, 0, 0, 0;
      history := [];
    }

    /** One store access, by anyone. */
    method Perform(step: Step)
      requires Valid() && Enabled(View(), step)
      modifies this
      ensures Valid() && View() == Apply(config, old(View()), step) && history == old(history) + [step]
    {
      RunsSnoc(config, Initial, history, View(), step);
      var t := Apply(config, View(), step);
      record, actors, tickets := t.record, t.actors, t.tickets;
      executions, rewrites, slept, lost := t.executions, t.rewrites, t.slept, t.lost;
      history := history + [step];
    }

    /** The possible steps of `others` that are not steps of `me`, in order. */
    method Interfere(me: ActorId, others: seq<Step>)
      requires Valid()
      modifies this
      ensures Valid() && old(history) <= history
      ensures me in actors <==> me in old(actors)
      ensures me in actors ==> actors[me] == old(actors)[me]
      ensures others == [] ==> View() == old(View())
    {
      for i := 0 to |others|
        invariant Valid() && old(history) <= history
        invariant me in actors <==> me in old(actors)
        invariant me in actors ==> actors[me] == old(actors)[me]
        invariant others == [] ==> View() == old(View())
      {
        if (others[i].Cancel? || others[i].a != me) && Enabled(View(), others[i]) {
          Perform(others[i]);
        }
      }
    }

    /** Claim the job and mark it running; `ok` is false when either swap is refused. */
    method ClaimAndStart(me: ActorId, env: seq<seq<Step>>) returns (ok: bool)
      requires Valid() && me !in actors && |env| == 2
      modifies this
      ensures Valid() && old(history) <= history
      ensures ok ==> me in actors && actors[me].Executing?
      ensures !ok ==> me !in actors
      ensures env == [[], []] ==> (ok <==> old(record).state.Pending?)
      ensures env == [[], []] && ok ==> actors[me].job == old(record) && record == old(record).(state := Running)
      ensures env == [[], []] && !ok ==> record == old(record)
    {
      Perform(Fetch(me));
      Interfere(me, env[0]);
      Perform(Claim(me));
      if me !in actors {
        return false;
      }
      Interfere(me, env[1]);
      Perform(Start(me));
      return me in actors;
    }

    /** The retry path: swap the state back to pending, then write the record, which may fail. */
    method ResetAndRewrite(me: ActorId, turn: seq<Step>, works: bool)
      requires Valid() && me in actors && actors[me].Resetting?
      modifies this
      ensures Valid() && old(history) <= history
      ensures me in actors ==> actors[me].Sleeping?
      ensures turn == [] && old(record).state.Running? ==>
                record == if config.strict then old(record)
                          else if works then Record(Pending, old(actors)[me].job.retries + 1)
                          else old(record).(state := Pending)
    {
      Perform(Reset(me));
      if me in actors {
        Interfere(me, turn);
        Perform(if works then Rewrite(me) else Lose(me));
      }
    }

    /** The final path: swap to the terminal state, then write the record, which may fail. */
    method SettleAndPublish(me: ActorId, turn: seq<Step>, works: bool)
      requires Valid() && me in actors && actors[me].Finishing?
      modifies this
      ensures Valid() && old(history) <= history && me !in actors
      ensures turn == [] && old(record).state.Running? && CanTransition(Running, old(actors)[me].to) ==>
                record == (if works then old(actors)[me].job else old(record)).(state := old(actors)[me].to)
    {
      Perform(Settle(me));
      if me in actors {
        Interfere(me, turn);
        Perform(if works then Publish(me) else Lose(me));
      }
    }

    /** The end of `execute_job`: settle the state by a swap, then write the record. */
    method Conclude(me: ActorId, outcome: Outcome, env: seq<seq<Step>>, works: bool)
      requires Valid() && me in actors && actors[me].Executing? && |env| == 2
      modifies this
      ensures Valid() && old(history) <= history
      ensures me in actors ==> actors[me].Sleeping?
      ensures env == [[], []] && old(record).state.Running? && old(actors)[me].job.retries == old(record).retries ==>
                record == Executed(config, old(actors)[me].job, outcome, works)
    {
      Perform(Finish(me, outcome));
      Interfere(me, env[0]);
      if actors[me].Resetting? {
        ResetAndRewrite(me, env[1], works);
      } else {
        SettleAndPublish(me, env[1], works);
      }
    }

    /**
     `execute_job` with other actors' steps between any two of its store accesses, and a last
     write that works or not. Run alone, it does nothing to a job that is not pending, and
     leaves a pending one as `Executed` says.
     */
    method ExecuteJob(me: ActorId, outcome: Outcome, env: seq<seq<Step>>, works: bool)
      requires Valid() && me !in actors && |env| == 5
      modifies this
      ensures Valid() && old(history) <= history
      ensures me in actors ==> actors[me].Sleeping?
      ensures env == [[], [], [], [], []] ==>
                record == if old(record).state.Pending? then Executed(config, old(record), outcome, works) else old(record)
    {
      var ok := ClaimAndStart(me, env[..2]);
      assert env == [[], [], [], [], []] ==> env[..2] == [[], []] && env[3..] == [[], []];
      if ok {
        Interfere(me, env[2]);
        Conclude(me, outcome, env[3..], works);
      }
    }

    /** The watchdog's swap of a listed job to Failed, and its write, which may fail. */
    method SwapAndWriteOff(me: ActorId, turn: seq<Step>, works: bool)
      requires Valid() && me in actors && actors[me].Watching?
      modifies this
      ensures Valid() && old(history) <= history && me !in actors
      ensures turn == [] && old(record) == old(actors)[me].job ==>
                record == if config.strict && !CanTransition(old(record).state, Failed) then old(record)
                          else old(record).(state := Failed)
    {
      Perform(Bury(me));
      if me in actors {
        Interfere(me, turn);
        Perform(if works then WriteOff(me) else Lose(me));
      }
    }

    /**
     The watchdog's treatment of one listed job. Run alone on a stale job it fails it, except
     that a store which checks the table refuses to fail a merely scheduled one.
     */
    method BuryStale(me: ActorId, stale: bool, env: seq<seq<Step>>, works: bool)
      requires Valid() && me !in actors && |env| == 2
      modifies this
      ensures Valid() && old(history) <= history && me !in actors
      ensures env == [[], []] ==>
                record == if stale && (old(record).state.Running? || (old(record).state.Scheduled? && !config.strict))
                          then old(record).(state := Failed) else old(record)
    {
      if record.state.Running? || record.state.Scheduled? {
        if stale {
          Perform(List(me));
          Interfere(me, env[0]);
          SwapAndWriteOff(me, env[1], works);
        }
      }
    }
  }
}
