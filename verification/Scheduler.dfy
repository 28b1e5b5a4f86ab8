/**
 The dispatch loop of the scheduler, its clients and the queue between them.

 The loop pops a job, tries to acquire a concurrency permit for it and then either hands it
 to the callback or puts it back; enqueues and cancels arrive between any two of these
 steps. Every queue operation runs under the queue's mutex, so each is one action here.
 Whether an acquire succeeds is left open, which covers every behaviour of the limiter and
 every time at which running jobs complete.

 One hypothesis on the clients: an id that is enqueued is neither in the heap nor held by the
 loop. An id may be enqueued again once it has been dispatched, as the retry path does, and it
 may carry a tombstone then: the enqueue counts as cancelled at once.
 */
module Scheduler {
  import opened PriorityQueue
  import opened Wrappers

  datatype State = State(
    queue: QueueState,
    /** The job the loop has popped and neither dispatched nor put back. */
    held: Option<ScoredJob>,
    // History: how often each id was enqueued, dispatched, and cancelled in time.
    enqueued: multiset<JobId>,
    dispatched: multiset<JobId>,
    cancelled: multiset<JobId>)

  datatype Action =
    | Enqueue(job: ScoredJob, tier: Tier)
    | Cancel(id: JobId)
    | Pop
    | Dispatch
    | Requeue
    | Refresh(now: int)

  const Initial: State := State(QueueState({}, map[], {}), None, multiset{}, multiset{}, multiset{})

  predicate Holds(s: State, id: JobId) { s.held.Some? && s.held.value.id == id }

  predicate MayEnqueue(s: State, id: JobId) {
    id !in Ids(s.queue.heap) && !Holds(s, id)
  }

  /** A job enqueued under a tombstone is cancelled by that. */
  function AfterEnqueue(s: State, job: ScoredJob, tier: Tier): State {
    s.(queue := QueueState(s.queue.heap + {job}, s.queue.tiers[job.id := tier], s.queue.removed),
       enqueued := s.enqueued + multiset{job.id},
       cancelled := if job.id in s.queue.removed then s.cancelled + multiset{job.id} else s.cancelled)
  }

  /** A cancel takes effect at once if the job is queued and live. */
  function AfterCancel(s: State, id: JobId): State {
    s.(queue := QueueState(s.queue.heap, s.queue.tiers - {id}, s.queue.removed + {id}),
       cancelled := if id in LiveIds(s.queue) then s.cancelled + multiset{id} else s.cancelled)
  }

  /** A job put back under a tombstone is cancelled by that. */
  function AfterRequeue(s: State): State
    requires s.held.Some?
  {
    var j := s.held.value;
    s.(queue := s.queue.(heap := s.queue.heap + {j}),
       held := None,
       cancelled := if j.id in s.queue.removed then s.cancelled + multiset{j.id} else s.cancelled)
  }

  ghost predicate Next(s: State, a: Action, t: State) {
    match a
    case Enqueue(job, tier) => MayEnqueue(s, job.id) && t == AfterEnqueue(s, job, tier)
    case Cancel(id) => t == AfterCancel(s, id)
    case Pop => s.held == None && Popped(s.queue, t.held, t.queue) && t == s.(queue := t.queue, held := t.held)
    case Dispatch => s.held.Some? && t == s.(held := None, dispatched := s.dispatched + multiset{s.held.value.id})
    case Requeue => s.held.Some? && t == AfterRequeue(s)
    case Refresh(now) => s.held == None && RefreshedTo(s.queue, now, t.queue) && t == s.(queue := t.queue)
  }

  /** `states` and `actions` are one interleaving of clients and loop. */
  ghost predicate Execution(states: seq<State>, actions: seq<Action>) {
    && |states| == |actions| + 1
    && forall i :: 0 <= i < |actions| ==> Next(states[i], actions[i], states[i + 1])
  }

  function B(b: bool): nat { if b then 1 else 0 }

  /**
   Conservation: every enqueue is accounted for exactly once, as a dispatch, a cancel that
   came in time, a live queued job or the job the loop holds.
   */
  ghost predicate Conserved(s: State) {
    forall id: JobId :: s.enqueued[id] == s.dispatched[id] + s.cancelled[id] + B(id in LiveIds(s.queue)) + B(Holds(s, id))
  }

  ghost predicate Inv(s: State) {
    && Unique(s.queue.heap)
    && (s.held.Some? ==> s.held.value.id !in Ids(s.queue.heap))
    && Conserved(s)
  }

  /** `pop` moves one id from the live ids to the loop's hand. */
  lemma PopMovesId(s: State, t: State)
    requires Unique(s.queue.heap) && Next(s, Pop, t)
    ensures Unique(t.queue.heap)
    ensures t.held == None ==> LiveIds(s.queue) == LiveIds(t.queue) == {}
    ensures t.held.Some? ==>
              && t.held.value.id !in Ids(t.queue.heap)
              && t.held.value.id in LiveIds(s.queue)
              && LiveIds(t.queue) == LiveIds(s.queue) - {t.held.value.id}
  {
    PopTakesGreatestLive(s.queue, t.held, t.queue);
    LiveIdsAreIdsOfLive(s.queue);
    LiveIdsAreIdsOfLive(t.queue);
    if t.held.Some? {
      var j := t.held.value;
      assert j in Live(s.queue);
      forall i | i in LiveIds(s.queue) && i != j.id
        ensures i in LiveIds(t.queue)
      {
        var k :| k in Live(s.queue) && k.id == i;
        assert k in Live(t.queue);
      }
    }
  }

  lemma PopConserves(s: State, t: State)
    requires Inv(s) && Next(s, Pop, t)
    ensures Inv(t)
  {
    PopMovesId(s, t);
  }

  lemma HeapGrows(h: Heap, job: ScoredJob)
    ensures Ids(h + {job}) == Ids(h) + {job.id}
    ensures Unique(h) && job.id !in Ids(h) ==> Unique(h + {job})
  {
  }

  lemma EnqueueConserves(s: State, job: ScoredJob, tier: Tier)
    requires Inv(s) && MayEnqueue(s, job.id)
    ensures Inv(AfterEnqueue(s, job, tier))
    ensures LiveIds(AfterEnqueue(s, job, tier).queue) ==
            LiveIds(s.queue) + if job.id in s.queue.removed then {} else {job.id}
  {
    HeapGrows(s.queue.heap, job);
  }

  lemma CancelConserves(s: State, id: JobId)
    requires Inv(s)
    ensures Inv(AfterCancel(s, id))
    ensures LiveIds(AfterCancel(s, id).queue) == LiveIds(s.queue) - {id}
  {
  }

  lemma RequeueConserves(s: State)
    requires Inv(s) && s.held.Some?
    ensures Inv(AfterRequeue(s))
    ensures s.held.value.id in s.queue.removed ==> LiveIds(AfterRequeue(s).queue) == LiveIds(s.queue)
  {
    HeapGrows(s.queue.heap, s.held.value);
  }

  lemma NextConserves(s: State, a: Action, t: State)
    requires Inv(s) && Next(s, a, t)
    ensures Inv(t)
  {
    match a
    case Enqueue(job, tier) => EnqueueConserves(s, job, tier);
    case Cancel(id) => CancelConserves(s, id);
    case Pop => PopConserves(s, t);
    case Dispatch =>
    case Requeue => RequeueConserves(s);
    case Refresh(now) => RefreshKeepsLive(s.queue, now, t.queue);
  }

  /** Conservation holds throughout every interleaving. */
  lemma {:induction false} EveryExecutionConserves(states: seq<State>, actions: seq<Action>, i: nat)
    requires Execution(states, actions) && states[0] == Initial && i < |states|
    ensures Inv(states[i])
  {
    if i > 0 {
      EveryExecutionConserves(states, actions, i - 1);
      NextConserves(states[i - 1], actions[i - 1], states[i]);
    }
  }

  /**
   An id enqueued once is, at every moment, in exactly one of four places: queued, held by
   the loop, dispatched, or cancelled. In particular it is dispatched at most once.
   */
  lemma OnePlaceAtATime(states: seq<State>, actions: seq<Action>, i: nat, id: JobId)
    requires Execution(states, actions) && states[0] == Initial && i < |states|
    requires states[i].enqueued[id] == 1
    ensures var s := states[i];
            B(id in LiveIds(s.queue)) + B(Holds(s, id)) + s.dispatched[id] + s.cancelled[id] == 1
  {
    EveryExecutionConserves(states, actions, i);
  }

  // ---------------------------------------------------------------------------
  // Cancelled jobs are not dispatched
  // ---------------------------------------------------------------------------

  /** The loop can no longer reach the job. */
  predicate Gone(s: State, id: JobId) {
    id !in LiveIds(s.queue) && !Holds(s, id)
  }

  lemma GoneStaysGone(s: State, a: Action, t: State, id: JobId)
    requires Inv(s) && Next(s, a, t) && Gone(s, id)
    requires a.Enqueue? ==> a.job.id != id
    ensures Gone(t, id) && t.dispatched[id] == s.dispatched[id] && t.enqueued[id] == s.enqueued[id]
  {
    match a
    case Enqueue(job, tier) => EnqueueConserves(s, job, tier);
    case Cancel(c) => CancelConserves(s, c);
    case Pop => PopMovesId(s, t);
    case Dispatch =>
    case Requeue => HeapGrows(s.queue.heap, s.held.value);
    case Refresh(now) => RefreshKeepsLive(s.queue, now, t.queue);
  }

  /** Once gone, and until it is enqueued again, a job is never dispatched. */
  lemma {:induction false} GoneIsNeverDispatched(states: seq<State>, actions: seq<Action>, i: nat, j: nat, id: JobId)
    requires Execution(states, actions) && states[0] == Initial && i <= j < |states|
    requires Gone(states[i], id)
    requires forall k :: i <= k < j && actions[k].Enqueue? ==> actions[k].job.id != id
    ensures Gone(states[j], id) && states[j].dispatched[id] == states[i].dispatched[id]
    decreases j
  {
    if i < j {
      GoneIsNeverDispatched(states, actions, i, j - 1, id);
      EveryExecutionConserves(states, actions, j - 1);
      GoneStaysGone(states[j - 1], actions[j - 1], states[j], id);
    }
  }

  /** A cancel that lands while the job is queued: the job is never dispatched. */
  lemma CancelWhileQueued(states: seq<State>, actions: seq<Action>, i: nat, j: nat, id: JobId)
    requires Execution(states, actions) && states[0] == Initial && i < j < |states|
    requires actions[i] == Cancel(id) && id in LiveIds(states[i].queue)
    requires forall k :: i <= k < j && actions[k].Enqueue? ==> actions[k].job.id != id
    ensures states[j].dispatched[id] == states[i].dispatched[id]
  {
    EveryExecutionConserves(states, actions, i);
    CancelConserves(states[i], id);
    assert Next(states[i], actions[i], states[i + 1]);
    assert Gone(states[i + 1], id);
    GoneIsNeverDispatched(states, actions, i + 1, j, id);
  }

  /** While the loop holds a job, only clients act, and they do not lift a tombstone. */
  lemma {:induction false} TombstoneWaitsForLoop(states: seq<State>, actions: seq<Action>, i: nat, j: nat, id: JobId)
    requires Execution(states, actions) && i <= j < |states|
    requires Holds(states[i], id) && id in states[i].queue.removed
    requires forall k :: i <= k < j ==> actions[k].Enqueue? || actions[k].Cancel?
    ensures Holds(states[j], id) && id in states[j].queue.removed
    ensures states[j].dispatched == states[i].dispatched
    decreases j
  {
    if i < j {
      TombstoneWaitsForLoop(states, actions, i, j - 1, id);
      assert Next(states[j - 1], actions[j - 1], states[j]);
    }
  }

  /**
   A cancel that lands while the loop holds the job, which the loop then puts back because
   no permit was free: the job is never dispatched.
   */
  lemma CancelWhileHeldThenRequeued(states: seq<State>, actions: seq<Action>, i: nat, r: nat, j: nat, id: JobId)
    requires Execution(states, actions) && states[0] == Initial && i < r < j < |states|
    requires actions[i] == Cancel(id) && Holds(states[i], id)
    requires (forall k :: i <= k < r ==> actions[k].Enqueue? || actions[k].Cancel?) && actions[r] == Requeue
    requires forall k :: i <= k < j && actions[k].Enqueue? ==> actions[k].job.id != id
    ensures states[j].dispatched[id] == states[i].dispatched[id]
  {
    assert Next(states[i], actions[i], states[i + 1]);
    TombstoneWaitsForLoop(states, actions, i + 1, r, id);
    EveryExecutionConserves(states, actions, r);
    assert Next(states[r], actions[r], states[r + 1]);
    RequeueConserves(states[r]);
    assert Gone(states[r + 1], id);
    GoneIsNeverDispatched(states, actions, r + 1, j, id);
  }

  /** An enqueue under a tombstone is discarded: until the id is enqueued again it is not dispatched. */
  lemma EnqueuedUnderTombstone(states: seq<State>, actions: seq<Action>, i: nat, j: nat, id: JobId)
    requires Execution(states, actions) && states[0] == Initial && i < j < |states|
    requires actions[i].Enqueue? && actions[i].job.id == id && id in states[i].queue.removed
    requires forall k :: i < k < j && actions[k].Enqueue? ==> actions[k].job.id != id
    ensures states[j].dispatched[id] == states[i].dispatched[id]
  {
    EveryExecutionConserves(states, actions, i);
    assert Next(states[i], actions[i], states[i + 1]);
    EnqueueConserves(states[i], actions[i].job, actions[i].tier);
    assert Gone(states[i + 1], id);
    GoneIsNeverDispatched(states, actions, i + 1, j, id);
  }

  lemma TombstoneStep(s: State, a: Action, t: State, id: JobId)
    requires Next(s, a, t) && MayEnqueue(s, id) && (a.Enqueue? ==> a.job.id != id) && a != Cancel(id)
    ensures MayEnqueue(t, id)
    ensures id in t.queue.removed <==> id in s.queue.removed && !a.Refresh?
  {
  }

  /**
   The tombstone of a cancel that comes too late, while the id is neither queued nor held, is
   still there at the id's next enqueue if and only if no idle refresh came in between.
   */
  lemma {:induction false} TombstoneLastsIff(states: seq<State>, actions: seq<Action>, i: nat, j: nat, id: JobId)
    requires Execution(states, actions) && i < j < |states|
    requires actions[i] == Cancel(id) && MayEnqueue(states[i], id)
    requires forall k :: i < k < j ==> actions[k] != Cancel(id) && (actions[k].Enqueue? ==> actions[k].job.id != id)
    ensures MayEnqueue(states[j], id)
    ensures id in states[j].queue.removed <==> forall k :: i < k < j ==> !actions[k].Refresh?
    decreases j
  {
    assert Next(states[j - 1], actions[j - 1], states[j]);
    if i + 1 < j {
      TombstoneLastsIff(states, actions, i, j - 1, id);
      TombstoneStep(states[j - 1], actions[j - 1], states[j], id);
    }
  }

  /**
   A run that comes to this: a cancel arrives while the job is running, its tombstone stays,
   and the retry that follows is enqueued under it. The retry has been counted as enqueued,
   but the queue is as good as empty, and nothing is left of it after the next pop.
   */
  lemma RetrySwallowed(job: ScoredJob, tier: Tier) returns (states: seq<State>, actions: seq<Action>)
    ensures Execution(states, actions) && states[0] == Initial
    ensures actions == [Enqueue(job, tier), Pop, Dispatch, Cancel(job.id), Enqueue(job, tier), Pop]
    ensures var t := states[6];
            && t.enqueued[job.id] == 2 && t.dispatched[job.id] == 1
            && t.held == None && t.queue.heap == {} && t.queue.removed == {}
  {
    var id := job.id;
    var queued := AfterEnqueue(Initial, job, tier);
    assert queued.queue.heap == {job} && LiveIds(queued.queue) == {id};
    LeqIsOrder(job, job, job);
    var popped := queued.(queue := queued.queue.(heap := {}), held := Some(job));
    PopsAlone(queued.queue, job, {});
    var running := popped.(held := None, dispatched := popped.dispatched + multiset{id});
    var late := AfterCancel(running, id);
    var again := AfterEnqueue(late, job, tier);
    assert again.queue.heap == {job};
    PopsAlone(again.queue, job, {id});
    var over := again.(queue := again.queue.(heap := {}, removed := {}));
    states := [Initial, queued, popped, running, late, again, over];
    actions := [Enqueue(job, tier), Pop, Dispatch, Cancel(id), Enqueue(job, tier), Pop];
    assert Next(states[0], actions[0], states[1]) && Next(states[1], actions[1], states[2]);
    assert Next(states[2], actions[2], states[3]) && Next(states[3], actions[3], states[4]);
    assert Next(states[4], actions[4], states[5]) && Next(states[5], actions[5], states[6]);
  }

  /** Popping the only entry of a heap. */
  lemma PopsAlone(q: QueueState, job: ScoredJob, removed: set<JobId>)
    requires q.heap == {job} && q.removed == removed && removed <= {job.id}
    ensures job.id !in removed ==> Popped(q, Some(job), q.(heap := {}))
    ensures job.id in removed ==> Popped(q, None, q.(heap := {}, removed := {}))
  {
    LeqIsOrder(job, job, job);
    assert q.heap - {} == {job};
    assert Ids({job}) == {job.id};
  }

  // ---------------------------------------------------------------------------
  // The loop as written
  // ---------------------------------------------------------------------------

  /** What happens around one round: clients act before the pop and while the job is held; the acquire succeeds or not. */
  datatype Turn = Turn(before: seq<Action>, during: seq<Action>, acquired: bool)

  predicate AreCalls(calls: seq<Action>) {
    forall i :: 0 <= i < |calls| ==> calls[i].Enqueue? || calls[i].Cancel?
  }

  class Loop {
    const queue: Queue
    var held: Option<ScoredJob>
    ghost var enqueued: multiset<JobId>
    ghost var dispatched: multiset<JobId>
    ghost var cancelled: multiset<JobId>
    ghost var states: seq<State>
    ghost var actions: seq<Action>

    ghost function View(): State
      reads this, queue
    {
      State(queue.View(), held, enqueued, dispatched, cancelled)
    }

    /** The loop and its queue are where an execution from the empty scheduler has led them. */
    ghost predicate Valid()
      reads this, queue
    {
      Execution(states, actions) && states[0] == Initial && states[|states| - 1] == View()
    }

    constructor ()
      ensures Valid() && View() == Initial && fresh(queue)
    {
      queue := new Queue();
      held := None;
      enqueued, dispatched, cancelled := multiset{}, multiset{}, multiset{};
      new;
      states, actions := [View()], [];
    }

    ghost method Log(a: Action, before: State)
      requires Execution(states, actions) && states[0] == Initial && states[|states| - 1] == before
      requires Next(before, a, View())
      modifies this`states, this`actions
      ensures Valid() && actions == old(actions) + [a]
    {
      states, actions := states + [View()], actions + [a];
    }

    lemma Reachable()
      requires Valid()
      ensures Inv(View())
    {
      EveryExecutionConserves(states, actions, |states| - 1);
    }

    /** One client call; an enqueue that breaks the hypothesis on ids does not happen. */
    method Client(a: Action)
      requires Valid() && (a.Enqueue? || a.Cancel?)
      modifies this, queue
      ensures Valid() && held == old(held) && dispatched == old(dispatched) && old(actions) <= actions
      ensures a.Cancel? || MayEnqueue(old(View()), a.job.id) ==> actions == old(actions) + [a]
    {
      ghost var before := View();
      match a
      case Enqueue(job, tier) =>
        if job.id !in Ids(queue.heap) && !(held.Some? && held.value.id == job.id) {
          cancelled := if job.id in queue.removed then cancelled + multiset{job.id} else cancelled;
          queue.Push(job, tier);
          enqueued := enqueued + multiset{job.id};
          Log(a, before);
        }
      case Cancel(id) =>
        cancelled := if id in LiveIds(queue.View()) then cancelled + multiset{id} else cancelled;
        queue.Remove(id);
        Log(a, before);
    }

    method Clients(calls: seq<Action>)
      requires Valid() && AreCalls(calls)
      modifies this, queue
      ensures Valid() && held == old(held) && dispatched == old(dispatched) && old(actions) <= actions
    {
      for i := 0 to |calls|
        invariant Valid() && held == old(held) && dispatched == old(dispatched) && old(actions) <= actions
      {
        Client(calls[i]);
      }
    }

    /** `while let Some(job) = self.queue.pop()` */
    method PopNext()
      requires Valid() && held == None
      modifies this, queue
      ensures Valid() && actions == old(actions) + [Pop] && dispatched == old(dispatched)
      ensures held == None ==> LiveIds(queue.View()) == {}
      ensures held.Some? ==> held.value in Live(old(queue.View()))
      ensures held.Some? ==> forall k :: k in Live(old(queue.View())) ==> Leq(k, held.value)
    {
      Reachable();
      ghost var before := View();
      held := queue.Pop();
      PopTakesGreatestLive(before.queue, held, queue.View());
      Log(Pop, before);
      PopMovesId(before, View());
    }

    /** The two arms of the acquire: hand the job on, or put it back. */
    method Settle(acquired: bool)
      requires Valid() && held.Some?
      modifies this, queue
      ensures Valid() && held == None
      ensures actions == old(actions) + [if acquired then Dispatch else Requeue]
      ensures dispatched == if acquired then old(dispatched) + multiset{old(held).value.id} else old(dispatched)
    {
      ghost var before := View();
      var job := held.value;
      held := None;
      if acquired {
        dispatched := dispatched + multiset{job.id};
        Log(Dispatch, before);
      } else {
        cancelled := if job.id in queue.removed then cancelled + multiset{job.id} else cancelled;
        queue.Requeue(job);
        Log(Requeue, before);
      }
    }

    /**
     One pass of the inner loop: dispatch as many jobs as possible. Client calls arrive
     before every pop and while a job is held; once `turns` is used up none arrive and no
     permit is free. The pass is an execution of the protocol, ends with no job held, and
     reports `blocked` exactly when it put a job back; otherwise it has emptied the queue of
     live jobs.
     */
    method DispatchAll(turns: seq<Turn>) returns (blocked: bool)
      requires Valid() && held == None
      requires forall k :: 0 <= k < |turns| ==> AreCalls(turns[k].before) && AreCalls(turns[k].during)
      modifies this, queue
      ensures Valid() && held == None && old(actions) < actions
      ensures blocked <==> actions[|actions| - 1] == Requeue
      ensures !blocked ==> LiveIds(queue.View()) == {}
    {
      var k := 0;
      while true
        invariant Valid() && held == None && old(actions) <= actions && 0 <= k <= |turns|
        decreases |turns| - k
      {
        if k < |turns| {
          Clients(turns[k].before);
        }
        PopNext();
        if held == None {
          return false;
        }
        if k == |turns| {
          Settle(false);
          return true;
        }
        Clients(turns[k].during);
        Settle(turns[k].acquired);
        if !turns[k].acquired {
          return true;
        }
        k := k + 1;
      }
    }

    /** The poll timeout of the idle loop. */
    method RefreshWhenIdle(now: int)
      requires Valid() && held == None
      modifies this, queue
      ensures Valid() && held == None && dispatched == old(dispatched)
      ensures LiveIds(queue.View()) == LiveIds(old(queue.View()))
    {
      Reachable();
      ghost var before := View();
      queue.RefreshScores(now);
      RefreshKeepsLive(before.queue, now, queue.View());
      Log(Refresh(now), before);
    }
  }
}
