/**
 Admission of jobs by CPU, memory and execution slots.

 `ResourceManager` is shared by any number of threads and takes no lock: a caller takes a
 slot, reserves CPU and then memory by load / compare-exchange loops, and rolls back when
 the second reservation is refused. Every atomic operation of the original is one `Step`
 here, and `State.callers` holds the program point of every call in flight, so a list of
 steps is one interleaving of any number of `try_allocate` and `release` calls.
 */
module ResourceManager {
  import opened Sums

  type JobId = string
  type CallerId = nat

  const U64: nat := 0x1_0000_0000_0000_0000

  type u64 = n: nat | n < U64

  /** `u64` addition and `AtomicU64::fetch_sub` wrap around. */
  function Plus64(a: u64, b: u64): u64 { if a + b < U64 then a + b else a + b - U64 }

  function Minus64(a: u64, b: u64): u64 { if b <= a then a - b else a + U64 - b }

  datatype Limits = Limits(cpu: u64, memory: u64, slots: nat)

  datatype Request = Request(cpu: u64, memory: u64)

  /** Where a call is; each phase is named after what the call has done last. */
  datatype Phase =
    | SlotTaken(job: JobId, req: Request)
    | CpuRead(job: JobId, req: Request, seen: u64)
    | CpuTaken(job: JobId, req: Request)
    | MemoryRead(job: JobId, req: Request, seen: u64)
    | MemoryTaken(job: JobId, req: Request)
    | Forgotten(req: Request)
    | CpuReturned(req: Request)
    | SlotLeft

  datatype State = State(
    usedCpu: u64,
    usedMemory: u64,
    permits: nat,
    allocations: map<JobId, Request>,
    callers: map<CallerId, Phase>)

  datatype Step =
    | TakeSlot(c: CallerId, job: JobId, req: Request)
    | ReadCpu(c: CallerId)
    | SwapCpu(c: CallerId)
    | ReadMemory(c: CallerId)
    | SwapMemory(c: CallerId)
    | RollBackCpu(c: CallerId)
    | Record(c: CallerId)
    | Forget(c: CallerId, job: JobId)
    | ReturnCpu(c: CallerId)
    | ReturnMemory(c: CallerId)
    | GiveSlotBack(c: CallerId)

  function Initial(l: Limits): State {
    State(0, 0, l.slots, map[], map[])
  }

  predicate CpuRefused(l: Limits, p: Phase)
    requires p.CpuRead?
  {
    Plus64(p.seen, p.req.cpu) > l.cpu
  }

  predicate MemoryRefused(l: Limits, p: Phase)
    requires p.MemoryRead?
  {
    Plus64(p.seen, p.req.memory) > l.memory
  }

  predicate At(s: State, c: CallerId) { c in s.callers }

  predicate Enabled(l: Limits, s: State, step: Step) {
    match step
    case TakeSlot(c, job, req) => c !in s.callers && s.permits > 0
    case ReadCpu(c) => At(s, c) && s.callers[c].SlotTaken?
    case SwapCpu(c) => At(s, c) && s.callers[c].CpuRead? && !CpuRefused(l, s.callers[c])
    case ReadMemory(c) => At(s, c) && s.callers[c].CpuTaken?
    case SwapMemory(c) => At(s, c) && s.callers[c].MemoryRead? && !MemoryRefused(l, s.callers[c])
    case RollBackCpu(c) => At(s, c) && s.callers[c].MemoryRead? && MemoryRefused(l, s.callers[c])
    case Record(c) => At(s, c) && s.callers[c].MemoryTaken?
    case Forget(c, job) => c !in s.callers && job in s.allocations
    case ReturnCpu(c) => At(s, c) && s.callers[c].Forgotten?
    case ReturnMemory(c) => At(s, c) && s.callers[c].CpuReturned?
    case GiveSlotBack(c) =>
      At(s, c) && (s.callers[c].SlotLeft? || (s.callers[c].CpuRead? && CpuRefused(l, s.callers[c])))
  }

  function Move(s: State, c: CallerId, p: Phase): State {
    s.(callers := s.callers[c := p])
  }

  /** `compare_exchange` on the CPU counter: reserve if the counter is as it was read, else read again. */
  function SwapCpuAt(s: State, c: CallerId): State
    requires c in s.callers && s.callers[c].CpuRead?
  {
    var p := s.callers[c];
    if s.usedCpu == p.seen then
      Move(s, c, CpuTaken(p.job, p.req)).(usedCpu := Plus64(p.seen, p.req.cpu))
    else
      Move(s, c, SlotTaken(p.job, p.req))
  }

  function SwapMemoryAt(s: State, c: CallerId): State
    requires c in s.callers && s.callers[c].MemoryRead?
  {
    var p := s.callers[c];
    if s.usedMemory == p.seen then
      Move(s, c, MemoryTaken(p.job, p.req)).(usedMemory := Plus64(p.seen, p.req.memory))
    else
      Move(s, c, CpuTaken(p.job, p.req))
  }

  function RecordAt(s: State, c: CallerId): State
    requires c in s.callers && s.callers[c].MemoryTaken?
  {
    s.(allocations := s.allocations[s.callers[c].job := s.callers[c].req], callers := s.callers - {c})
  }

  function ForgetAt(s: State, c: CallerId, job: JobId): State
    requires job in s.allocations
  {
    Move(s, c, Forgotten(s.allocations[job])).(allocations := s.allocations - {job})
  }

  function Apply(l: Limits, s: State, step: Step): State
    requires Enabled(l, s, step)
  {
    match step
    case TakeSlot(c, job, req) => Move(s, c, SlotTaken(job, req)).(permits := s.permits - 1)
    case ReadCpu(c) => Move(s, c, CpuRead(s.callers[c].job, s.callers[c].req, s.usedCpu))
    case SwapCpu(c) => SwapCpuAt(s, c)
    case ReadMemory(c) => Move(s, c, MemoryRead(s.callers[c].job, s.callers[c].req, s.usedMemory))
    case SwapMemory(c) => SwapMemoryAt(s, c)
    case RollBackCpu(c) => Move(s, c, SlotLeft).(usedCpu := Minus64(s.usedCpu, s.callers[c].req.cpu))
    case Record(c) => RecordAt(s, c)
    case Forget(c, job) => ForgetAt(s, c, job)
    case ReturnCpu(c) => Move(s, c, CpuReturned(s.callers[c].req)).(usedCpu := Minus64(s.usedCpu, s.callers[c].req.cpu))
    case ReturnMemory(c) => Move(s, c, SlotLeft).(usedMemory := Minus64(s.usedMemory, s.callers[c].req.memory))
    case GiveSlotBack(c) => s.(permits := s.permits + 1, callers := s.callers - {c})
  }

  /** `steps` is an interleaving that takes `s` to `t`. */
  ghost predicate Runs(l: Limits, s: State, steps: seq<Step>, t: State)
    decreases |steps|
  {
    if steps == [] then t == s else
      Enabled(l, s, steps[0]) && Runs(l, Apply(l, s, steps[0]), steps[1..], t)
  }

  // ---------------------------------------------------------------------------
  // The books
  // ---------------------------------------------------------------------------

  /** Amounts of CPU and memory, and a number of slots. */
  datatype Books = Books(cpu: nat, memory: nat, slots: nat)

  const NOTHING := Books(0, 0, 0)

  function CpuOf(r: Request): nat { r.cpu }

  function MemoryOf(r: Request): nat { r.memory }

  function CpuHeld(p: Phase): nat {
    if p.CpuTaken? || p.MemoryRead? || p.MemoryTaken? || p.Forgotten? then p.req.cpu else 0
  }

  function MemoryHeld(p: Phase): nat {
    if p.MemoryTaken? || p.Forgotten? || p.CpuReturned? then p.req.memory else 0
  }

  /** What is recorded, what calls in flight hold, and `lost` besides. */
  ghost function CpuDue(s: State, lost: Books): nat {
    Total(s.allocations, CpuOf) + Total(s.callers, CpuHeld) + lost.cpu
  }

  ghost function MemoryDue(s: State, lost: Books): nat {
    Total(s.allocations, MemoryOf) + Total(s.callers, MemoryHeld) + lost.memory
  }

  function SlotsDue(s: State, lost: Books): nat {
    s.permits + |s.allocations| + |s.callers| + lost.slots
  }

  /** Both counters and the permits account exactly for what is recorded, held or lost. */
  ghost predicate Accounted(l: Limits, s: State, lost: Books) {
    s.usedCpu == CpuDue(s, lost) && s.usedMemory == MemoryDue(s, lost) && SlotsDue(s, lost) == l.slots
  }

  /** Nothing is missing: the counters are what is recorded or held in flight. */
  ghost predicate Balanced(l: Limits, s: State) {
    Accounted(l, s, NOTHING)
  }

  /** A job recorded under an id that is recorded already replaces the older record. */
  predicate Overwrites(s: State, step: Step) {
    step.Record? && At(s, step.c) && s.callers[step.c].MemoryTaken? && s.callers[step.c].job in s.allocations
  }

  /** What is lost after `step`: the slot, CPU and memory of an overwritten record are never given back. */
  function LostBy(s: State, step: Step, lost: Books): Books {
    if Overwrites(s, step) then
      var gone := s.allocations[s.callers[step.c].job];
      Books(lost.cpu + gone.cpu, lost.memory + gone.memory, lost.slots + 1)
    else
      lost
  }

  function Lost(l: Limits, s: State, steps: seq<Step>, lost: Books): Books
    decreases |steps|
  {
    if steps == [] || !Enabled(l, s, steps[0]) then lost else
      Lost(l, Apply(l, s, steps[0]), steps[1..], LostBy(s, steps[0], lost))
  }

  lemma CallerMoves(s: State, c: CallerId, p: Phase)
    ensures Total(s.callers[c := p], CpuHeld) + (if c in s.callers then CpuHeld(s.callers[c]) else 0)
            == Total(s.callers, CpuHeld) + CpuHeld(p)
    ensures Total(s.callers[c := p], MemoryHeld) + (if c in s.callers then MemoryHeld(s.callers[c]) else 0)
            == Total(s.callers, MemoryHeld) + MemoryHeld(p)
    ensures |s.callers[c := p]| == |s.callers| + (if c in s.callers then 0 else 1)
  {
    TotalSet(s.callers, CpuHeld, c, p);
    TotalSet(s.callers, MemoryHeld, c, p);
    assert s.callers[c := p].Keys == s.callers.Keys + {c};
  }

  lemma CallerLeaves(s: State, c: CallerId)
    requires c in s.callers
    ensures Total(s.callers - {c}, CpuHeld) + CpuHeld(s.callers[c]) == Total(s.callers, CpuHeld)
    ensures Total(s.callers - {c}, MemoryHeld) + MemoryHeld(s.callers[c]) == Total(s.callers, MemoryHeld)
    ensures |s.callers - {c}| == |s.callers| - 1
  {
    TotalDrop(s.callers, CpuHeld, c);
    TotalDrop(s.callers, MemoryHeld, c);
    assert (s.callers - {c}).Keys == s.callers.Keys - {c};
  }

  /** The record a job id had before, if any, leaves the totals when the id is recorded again. */
  lemma JobRecorded(s: State, job: JobId, req: Request)
    ensures Total(s.allocations[job := req], CpuOf) + (if job in s.allocations then s.allocations[job].cpu else 0)
            == Total(s.allocations, CpuOf) + req.cpu
    ensures Total(s.allocations[job := req], MemoryOf) + (if job in s.allocations then s.allocations[job].memory else 0)
            == Total(s.allocations, MemoryOf) + req.memory
    ensures |s.allocations[job := req]| == |s.allocations| + (if job in s.allocations then 0 else 1)
  {
    TotalSet(s.allocations, CpuOf, job, req);
    TotalSet(s.allocations, MemoryOf, job, req);
    assert s.allocations[job := req].Keys == s.allocations.Keys + {job};
  }

  lemma JobForgotten(s: State, job: JobId)
    requires job in s.allocations
    ensures Total(s.allocations - {job}, CpuOf) + s.allocations[job].cpu == Total(s.allocations, CpuOf)
    ensures Total(s.allocations - {job}, MemoryOf) + s.allocations[job].memory == Total(s.allocations, MemoryOf)
    ensures |s.allocations - {job}| == |s.allocations| - 1
  {
    TotalDrop(s.allocations, CpuOf, job);
    TotalDrop(s.allocations, MemoryOf, job);
    assert (s.allocations - {job}).Keys == s.allocations.Keys - {job};
  }

  /** A counter goes from `u` to `v` by the 64-bit operation that takes the amount due from `x` to `y`. */
  predicate Follows(u: u64, x: nat, v: u64, y: nat) {
    if x <= y then y - x < U64 && v == Plus64(u, y - x) else x - y < U64 && v == Minus64(u, x - y)
  }

  /** The amount of CPU due grows only where a compare-exchange succeeds, by the request. */
  predicate CpuGrowsAt(s: State, step: Step, x: nat, y: nat) {
    x < y ==>
      && step.SwapCpu? && At(s, step.c) && s.callers[step.c].CpuRead?
      && s.usedCpu == s.callers[step.c].seen && y == x + s.callers[step.c].req.cpu
  }

  predicate MemoryGrowsAt(s: State, step: Step, x: nat, y: nat) {
    x < y ==>
      && step.SwapMemory? && At(s, step.c) && s.callers[step.c].MemoryRead?
      && s.usedMemory == s.callers[step.c].seen && y == x + s.callers[step.c].req.memory
  }

  /** Counters, permits and amounts due move together from `s` to `t`. */
  ghost predicate Tracks(s: State, lost: Books, step: Step, t: State, after: Books) {
    && Follows(s.usedCpu, CpuDue(s, lost), t.usedCpu, CpuDue(t, after))
    && Follows(s.usedMemory, MemoryDue(s, lost), t.usedMemory, MemoryDue(t, after))
    && SlotsDue(s, lost) == SlotsDue(t, after)
    && CpuGrowsAt(s, step, CpuDue(s, lost), CpuDue(t, after))
    && MemoryGrowsAt(s, step, MemoryDue(s, lost), MemoryDue(t, after))
  }

  lemma ReadTracks(l: Limits, s: State, step: Step, lost: Books)
    requires Enabled(l, s, step) && (step.ReadCpu? || step.ReadMemory?)
    ensures Tracks(s, lost, step, Apply(l, s, step), lost)
  {
    CallerMoves(s, step.c, Apply(l, s, step).callers[step.c]);
  }

  lemma SwapCpuTracks(l: Limits, s: State, step: Step, lost: Books)
    requires Enabled(l, s, step) && step.SwapCpu?
    ensures Tracks(s, lost, step, Apply(l, s, step), lost)
  {
    CallerMoves(s, step.c, Apply(l, s, step).callers[step.c]);
  }

  lemma SwapMemoryTracks(l: Limits, s: State, step: Step, lost: Books)
    requires Enabled(l, s, step) && step.SwapMemory?
    ensures Tracks(s, lost, step, Apply(l, s, step), lost)
  {
    CallerMoves(s, step.c, Apply(l, s, step).callers[step.c]);
  }

  lemma ReturnCpuTracks(l: Limits, s: State, step: Step, lost: Books)
    requires Enabled(l, s, step) && (step.RollBackCpu? || step.ReturnCpu?)
    ensures Tracks(s, lost, step, Apply(l, s, step), lost)
  {
    CallerMoves(s, step.c, Apply(l, s, step).callers[step.c]);
  }

  lemma ReturnMemoryTracks(l: Limits, s: State, step: Step, lost: Books)
    requires Enabled(l, s, step) && step.ReturnMemory?
    ensures Tracks(s, lost, step, Apply(l, s, step), lost)
  {
    CallerMoves(s, step.c, Apply(l, s, step).callers[step.c]);
  }

  lemma TakeSlotTracks(l: Limits, s: State, step: Step, lost: Books)
    requires Enabled(l, s, step) && step.TakeSlot?
    ensures Tracks(s, lost, step, Apply(l, s, step), lost)
  {
    CallerMoves(s, step.c, SlotTaken(step.job, step.req));
  }

  lemma GiveSlotBackTracks(l: Limits, s: State, step: Step, lost: Books)
    requires Enabled(l, s, step) && step.GiveSlotBack?
    ensures Tracks(s, lost, step, Apply(l, s, step), lost)
  {
    CallerLeaves(s, step.c);
  }

  lemma RecordTracks(l: Limits, s: State, step: Step, lost: Books)
    requires Enabled(l, s, step) && step.Record?
    ensures Tracks(s, lost, step, Apply(l, s, step), LostBy(s, step, lost))
  {
    CallerLeaves(s, step.c);
    JobRecorded(s, s.callers[step.c].job, s.callers[step.c].req);
  }

  lemma ForgetTracks(l: Limits, s: State, step: Step, lost: Books)
    requires Enabled(l, s, step) && step.Forget?
    ensures Tracks(s, lost, step, Apply(l, s, step), lost)
  {
    CallerMoves(s, step.c, Forgotten(s.allocations[step.job]));
    JobForgotten(s, step.job);
  }

  /** Every atomic step moves each counter by what it moves the amount due. */
  lemma StepTracks(l: Limits, s: State, step: Step, lost: Books)
    requires Enabled(l, s, step)
    ensures Tracks(s, lost, step, Apply(l, s, step), LostBy(s, step, lost))
  {
    match step
    case TakeSlot(_, _, _) => TakeSlotTracks(l, s, step, lost);
    case ReadCpu(_) => ReadTracks(l, s, step, lost);
    case SwapCpu(_) => SwapCpuTracks(l, s, step, lost);
    case ReadMemory(_) => ReadTracks(l, s, step, lost);
    case SwapMemory(_) => SwapMemoryTracks(l, s, step, lost);
    case RollBackCpu(_) => ReturnCpuTracks(l, s, step, lost);
    case Record(_) => RecordTracks(l, s, step, lost);
    case Forget(_, _) => ForgetTracks(l, s, step, lost);
    case ReturnCpu(_) => ReturnCpuTracks(l, s, step, lost);
    case ReturnMemory(_) => ReturnMemoryTracks(l, s, step, lost);
    case GiveSlotBack(_) => GiveSlotBackTracks(l, s, step, lost);
  }

  // ---------------------------------------------------------------------------
  // Every run, whatever the ids and amounts
  // ---------------------------------------------------------------------------

  /** The counters are the amounts due, as far as 64 bits can tell. */
  ghost predicate Congruent(l: Limits, s: State, lost: Books) {
    && s.usedCpu == CpuDue(s, lost) % U64
    && s.usedMemory == MemoryDue(s, lost) % U64
    && SlotsDue(s, lost) == l.slots
  }

  lemma RemainderIs(y: nat, q: int, r: nat)
    requires y == q * U64 + r && r < U64
    ensures y % U64 == r
  {
  }

  lemma FollowsModulo(u: u64, x: nat, v: u64, y: nat)
    requires u == x % U64 && Follows(u, x, v, y)
    ensures v == y % U64
  {
    var q := x / U64;
    assert x == q * U64 + u;
    if x <= y {
      RemainderIs(y, if u + (y - x) < U64 then q else q + 1, v);
    } else {
      RemainderIs(y, if x - y <= u then q else q - 1, v);
    }
  }

  lemma {:induction false} RunIsCongruent(l: Limits, s: State, lost: Books, steps: seq<Step>, t: State)
    requires Congruent(l, s, lost) && Runs(l, s, steps, t)
    ensures Congruent(l, t, Lost(l, s, steps, lost))
    decreases |steps|
  {
    if steps != [] {
      var m, after := Apply(l, s, steps[0]), LostBy(s, steps[0], lost);
      StepTracks(l, s, steps[0], lost);
      FollowsModulo(s.usedCpu, CpuDue(s, lost), m.usedCpu, CpuDue(m, after));
      FollowsModulo(s.usedMemory, MemoryDue(s, lost), m.usedMemory, MemoryDue(m, after));
      RunIsCongruent(l, m, after, steps[1..], t);
    }
  }

  /**
   In every interleaving of any number of `try_allocate` and `release` calls, with any ids and
   any amounts, the slots are accounted for, and so are CPU and memory modulo 2^64.
   */
  lemma EveryRunAccounts(l: Limits, steps: seq<Step>, t: State)
    requires Runs(l, Initial(l), steps, t)
    ensures Congruent(l, t, Lost(l, Initial(l), steps, NOTHING))
  {
    RunIsCongruent(l, Initial(l), NOTHING, steps, t);
  }

  lemma {:induction false} LostTogether(l: Limits, s: State, steps: seq<Step>, lost: Books)
    ensures Lost(l, s, steps, lost).slots >= lost.slots
    ensures Lost(l, s, steps, lost).slots == lost.slots ==> Lost(l, s, steps, lost) == lost
    decreases |steps|
  {
    if steps != [] && Enabled(l, s, steps[0]) {
      LostTogether(l, Apply(l, s, steps[0]), steps[1..], LostBy(s, steps[0], lost));
    }
  }

  /**
   Once every call has returned and every job was released, what is missing from the manager
   is what was lost; it is as new if and only if no record was ever overwritten.
   */
  lemma QuietManagerHasAllCapacityIff(l: Limits, steps: seq<Step>, t: State)
    requires Runs(l, Initial(l), steps, t)
    requires t.callers == map[] && t.allocations == map[]
    ensures var lost := Lost(l, Initial(l), steps, NOTHING);
            && t.usedCpu == lost.cpu % U64
            && t.usedMemory == lost.memory % U64
            && t.permits + lost.slots == l.slots
    ensures t == Initial(l) <==> Lost(l, Initial(l), steps, NOTHING).slots == 0
  {
    EveryRunAccounts(l, steps, t);
    LostTogether(l, Initial(l), steps, NOTHING);
  }

  // ---------------------------------------------------------------------------
  // Runs whose sums fit in 64 bits
  // ---------------------------------------------------------------------------

  /** The two sums the loops form cannot leave `u64`. */
  predicate Fits64(l: Limits, req: Request) {
    l.cpu + req.cpu < U64 && l.memory + req.memory < U64
  }

  predicate AllFit(l: Limits, steps: seq<Step>) {
    forall i :: 0 <= i < |steps| && steps[i].TakeSlot? ==> Fits64(l, steps[i].req)
  }

  predicate Allocating(p: Phase) {
    p.SlotTaken? || p.CpuRead? || p.CpuTaken? || p.MemoryRead? || p.MemoryTaken?
  }

  predicate CallersFit(l: Limits, callers: map<CallerId, Phase>) {
    forall c :: c in callers && Allocating(callers[c]) ==> Fits64(l, callers[c].req)
  }

  predicate Within(l: Limits, s: State) {
    s.usedCpu <= l.cpu && s.usedMemory <= l.memory
  }

  ghost predicate Inv(l: Limits, s: State, lost: Books) {
    Accounted(l, s, lost) && Within(l, s) && CallersFit(l, s.callers)
  }

  lemma FollowsExactly(u: u64, v: u64, y: nat, limit: u64)
    requires Follows(u, u, v, y) && u <= limit
    requires u < y ==> y < U64 && v <= limit
    ensures v == y && v <= limit
  {
  }

  lemma StepFits(l: Limits, s: State, step: Step)
    requires CallersFit(l, s.callers) && Enabled(l, s, step) && (step.TakeSlot? ==> Fits64(l, step.req))
    ensures CallersFit(l, Apply(l, s, step).callers)
  {
  }

  lemma CpuStaysExact(l: Limits, s: State, step: Step, lost: Books)
    requires Inv(l, s, lost) && Enabled(l, s, step)
    requires Tracks(s, lost, step, Apply(l, s, step), LostBy(s, step, lost))
    ensures Apply(l, s, step).usedCpu == CpuDue(Apply(l, s, step), LostBy(s, step, lost)) <= l.cpu
  {
    var t, y := Apply(l, s, step), CpuDue(Apply(l, s, step), LostBy(s, step, lost));
    if s.usedCpu < y {
      assert !CpuRefused(l, s.callers[step.c]);
      assert Fits64(l, s.callers[step.c].req);
    }
    FollowsExactly(s.usedCpu, t.usedCpu, y, l.cpu);
  }

  lemma MemoryStaysExact(l: Limits, s: State, step: Step, lost: Books)
    requires Inv(l, s, lost) && Enabled(l, s, step)
    requires Tracks(s, lost, step, Apply(l, s, step), LostBy(s, step, lost))
    ensures Apply(l, s, step).usedMemory == MemoryDue(Apply(l, s, step), LostBy(s, step, lost)) <= l.memory
  {
    var t, y := Apply(l, s, step), MemoryDue(Apply(l, s, step), LostBy(s, step, lost));
    if s.usedMemory < y {
      assert !MemoryRefused(l, s.callers[step.c]);
      assert Fits64(l, s.callers[step.c].req);
    }
    FollowsExactly(s.usedMemory, t.usedMemory, y, l.memory);
  }

  lemma StepKeepsBooks(l: Limits, s: State, step: Step, lost: Books)
    requires Inv(l, s, lost) && Enabled(l, s, step) && (step.TakeSlot? ==> Fits64(l, step.req))
    ensures Inv(l, Apply(l, s, step), LostBy(s, step, lost))
  {
    StepTracks(l, s, step, lost);
    StepFits(l, s, step);
    CpuStaysExact(l, s, step, lost);
    MemoryStaysExact(l, s, step, lost);
  }

  lemma {:induction false} RunKeepsBooks(l: Limits, s: State, lost: Books, steps: seq<Step>, t: State)
    requires Inv(l, s, lost) && Runs(l, s, steps, t) && AllFit(l, steps)
    ensures Inv(l, t, Lost(l, s, steps, lost))
    decreases |steps|
  {
    if steps != [] {
      StepKeepsBooks(l, s, steps[0], lost);
      RunKeepsBooks(l, Apply(l, s, steps[0]), LostBy(s, steps[0], lost), steps[1..], t);
    }
  }

  /**
   In every interleaving of any number of `try_allocate` and `release` calls whose sums fit in
   64 bits the books are exact, neither total is ever exceeded, and they balance if and only
   if no record was overwritten so far.
   */
  lemma EveryInterleavingBalances(l: Limits, steps: seq<Step>, t: State)
    requires Runs(l, Initial(l), steps, t) && AllFit(l, steps)
    ensures Accounted(l, t, Lost(l, Initial(l), steps, NOTHING)) && Within(l, t)
    ensures Balanced(l, t) <==> Lost(l, Initial(l), steps, NOTHING).slots == 0
  {
    RunKeepsBooks(l, Initial(l), NOTHING, steps, t);
    LostTogether(l, Initial(l), steps, NOTHING);
  }

  /** What a call holds is part of the counter, so taking it away cannot wrap around. */
  lemma NoUnderflow(l: Limits, s: State, lost: Books, c: CallerId)
    requires Accounted(l, s, lost)
    requires c in s.callers
    ensures CpuHeld(s.callers[c]) <= s.usedCpu
    ensures MemoryHeld(s.callers[c]) <= s.usedMemory
  {
    CallerLeaves(s, c);
  }

  lemma RunNeverUnderflows(l: Limits, steps: seq<Step>, t: State, c: CallerId)
    requires Runs(l, Initial(l), steps, t) && AllFit(l, steps) && c in t.callers
    ensures CpuHeld(t.callers[c]) <= t.usedCpu && MemoryHeld(t.callers[c]) <= t.usedMemory
  {
    EveryInterleavingBalances(l, steps, t);
    NoUnderflow(l, t, Lost(l, Initial(l), steps, NOTHING), c);
  }

  /**
   Why the sums must fit in 64 bits: for any counter value a request can be chosen whose sum
   wraps around, and the wrapped sum passes the test although the request exceeds the total.
   */
  lemma WrappedSumIsAdmitted(l: Limits, seen: u64, cpu: u64)
    requires seen <= l.cpu
    ensures (Plus64(seen, cpu) <= l.cpu && seen + cpu > l.cpu) <==> U64 <= seen + cpu <= U64 + l.cpu
  {
    if seen + cpu >= U64 {
      assert Plus64(seen, cpu) == seen + cpu - U64;
    } else {
      assert Plus64(seen, cpu) == seen + cpu;
    }
  }

  // ---------------------------------------------------------------------------
  // When nothing is lost
  // ---------------------------------------------------------------------------

  /** A job id is live from the start of its `try_allocate` until `release` forgets it. */
  predicate Live(s: State, job: JobId) {
    job in s.allocations || exists c :: c in s.callers && Allocating(s.callers[c]) && s.callers[c].job == job
  }

  /** No call of the run starts allocating for a job that is live. */
  ghost predicate AllFresh(l: Limits, s: State, steps: seq<Step>)
    decreases |steps|
  {
    steps != [] && Enabled(l, s, steps[0]) ==>
      && (steps[0].TakeSlot? ==> !Live(s, steps[0].job))
      && AllFresh(l, Apply(l, s, steps[0]), steps[1..])
  }

  /** Live ids belong to one record or one call. */
  ghost predicate Distinct(allocations: map<JobId, Request>, callers: map<CallerId, Phase>) {
    && (forall c :: c in callers && Allocating(callers[c]) ==> callers[c].job !in allocations)
    && (forall c, d :: c in callers && d in callers && c != d && Allocating(callers[c]) && Allocating(callers[d])
                       ==> callers[c].job != callers[d].job)
  }

  lemma FreshStep(l: Limits, s: State, step: Step)
    requires Distinct(s.allocations, s.callers) && Enabled(l, s, step) && (step.TakeSlot? ==> !Live(s, step.job))
    ensures Distinct(Apply(l, s, step).allocations, Apply(l, s, step).callers)
    ensures !Overwrites(s, step)
  {
  }

  lemma {:induction false} FreshRun(l: Limits, s: State, steps: seq<Step>, t: State, lost: Books)
    requires Distinct(s.allocations, s.callers) && Runs(l, s, steps, t) && AllFresh(l, s, steps)
    ensures Lost(l, s, steps, lost) == lost
    decreases |steps|
  {
    if steps != [] {
      FreshStep(l, s, steps[0]);
      FreshRun(l, Apply(l, s, steps[0]), steps[1..], t, lost);
    }
  }

  /** As long as live ids are distinct nothing is lost, so the books balance all the time. */
  lemma FreshIdsLoseNothing(l: Limits, steps: seq<Step>, t: State)
    requires Runs(l, Initial(l), steps, t) && AllFresh(l, Initial(l), steps)
    ensures Lost(l, Initial(l), steps, NOTHING) == NOTHING
    ensures AllFit(l, steps) ==> Balanced(l, t) && Within(l, t)
  {
    FreshRun(l, Initial(l), steps, t, NOTHING);
    if AllFit(l, steps) {
      EveryInterleavingBalances(l, steps, t);
    }
  }

  /** Recording a job keeps the books if and only if its id is not recorded already. */
  lemma RecordKeepsBooksIffFresh(l: Limits, s: State, c: CallerId)
    requires Balanced(l, s) && c in s.callers && s.callers[c].MemoryTaken?
    ensures Balanced(l, Apply(l, s, Record(c))) <==> s.callers[c].job !in s.allocations
  {
    StepTracks(l, s, Record(c), NOTHING);
  }

  // ---------------------------------------------------------------------------
  // The two operations, as written, under interference
  // ---------------------------------------------------------------------------

  lemma {:induction false} RunsAppend(l: Limits, s: State, a: seq<Step>, m: State, b: seq<Step>, t: State)
    requires Runs(l, s, a, m) && Runs(l, m, b, t)
    ensures Runs(l, s, a + b, t)
    decreases |a|
  {
    if a == [] {
      assert a + b == b;
    } else {
      RunsAppend(l, Apply(l, s, a[0]), a[1..], m, b, t);
      assert (a + b)[1..] == a[1..] + b;
    }
  }

  lemma RunsSnoc(l: Limits, s: State, a: seq<Step>, m: State, step: Step)
    requires Runs(l, s, a, m) && Enabled(l, m, step)
    ensures Runs(l, s, a + [step], Apply(l, m, step))
  {
    RunsAppend(l, s, a, m, [step], Apply(l, m, step));
  }

  datatype Outcome = Allocated | NoSlot | CpuShort | MemoryShort

  /** What `try_allocate` answers when nobody interferes. */
  function Alone(l: Limits, s: State, req: Request): Outcome {
    if s.permits == 0 then NoSlot
    else if Plus64(s.usedCpu, req.cpu) > l.cpu then CpuShort
    else if Plus64(s.usedMemory, req.memory) > l.memory then MemoryShort
    else Allocated
  }

  function Taken(s: State, job: JobId, req: Request): State
    requires s.permits > 0
  {
    s.(usedCpu := Plus64(s.usedCpu, req.cpu), usedMemory := Plus64(s.usedMemory, req.memory),
       permits := s.permits - 1, allocations := s.allocations[job := req])
  }

  function Given(s: State, job: JobId): State
    requires job in s.allocations
  {
    s.(usedCpu := Minus64(s.usedCpu, s.allocations[job].cpu), usedMemory := Minus64(s.usedMemory, s.allocations[job].memory),
       permits := s.permits + 1, allocations := s.allocations - {job})
  }

  function AllocateSteps(c: CallerId, job: JobId, req: Request): seq<Step> {
    [TakeSlot(c, job, req), ReadCpu(c), SwapCpu(c)] + [ReadMemory(c), SwapMemory(c), Record(c)]
  }

  function ReleaseSteps(c: CallerId, job: JobId): seq<Step> {
    [Forget(c, job), ReturnCpu(c)] + [ReturnMemory(c), GiveSlotBack(c)]
  }

  lemma ReserveCpuAlone(l: Limits, s: State, c: CallerId, job: JobId, req: Request)
    requires c !in s.callers && s.permits > 0 && Plus64(s.usedCpu, req.cpu) <= l.cpu
    ensures Runs(l, s, [TakeSlot(c, job, req), ReadCpu(c), SwapCpu(c)],
                 Move(s, c, CpuTaken(job, req)).(usedCpu := Plus64(s.usedCpu, req.cpu), permits := s.permits - 1))
  {
    var a := Apply(l, s, TakeSlot(c, job, req));
    var b := Apply(l, a, ReadCpu(c));
    assert Apply(l, b, SwapCpu(c)).callers == s.callers[c := CpuTaken(job, req)];
    RunsSnoc(l, s, [], s, TakeSlot(c, job, req));
    RunsSnoc(l, s, [TakeSlot(c, job, req)], a, ReadCpu(c));
    RunsSnoc(l, s, [TakeSlot(c, job, req), ReadCpu(c)], b, SwapCpu(c));
  }

  lemma ReserveMemoryAlone(l: Limits, s: State, c: CallerId, job: JobId, req: Request)
    requires c in s.callers && s.callers[c] == CpuTaken(job, req) && Plus64(s.usedMemory, req.memory) <= l.memory
    ensures Runs(l, s, [ReadMemory(c), SwapMemory(c), Record(c)],
                 s.(usedMemory := Plus64(s.usedMemory, req.memory), allocations := s.allocations[job := req],
                    callers := s.callers - {c}))
  {
    var a := Apply(l, s, ReadMemory(c));
    var b := Apply(l, a, SwapMemory(c));
    assert Apply(l, b, Record(c)).callers == s.callers - {c};
    RunsSnoc(l, s, [], s, ReadMemory(c));
    RunsSnoc(l, s, [ReadMemory(c)], a, SwapMemory(c));
    RunsSnoc(l, s, [ReadMemory(c), SwapMemory(c)], b, Record(c));
  }

  lemma AllocatesAlone(l: Limits, s: State, c: CallerId, job: JobId, req: Request)
    requires c !in s.callers && Alone(l, s, req) == Allocated
    ensures Runs(l, s, AllocateSteps(c, job, req), Taken(s, job, req))
  {
    var m := Move(s, c, CpuTaken(job, req)).(usedCpu := Plus64(s.usedCpu, req.cpu), permits := s.permits - 1);
    ReserveCpuAlone(l, s, c, job, req);
    ReserveMemoryAlone(l, m, c, job, req);
    assert m.callers - {c} == s.callers;
    RunsAppend(l, s, [TakeSlot(c, job, req), ReadCpu(c), SwapCpu(c)], m,
               [ReadMemory(c), SwapMemory(c), Record(c)], Taken(s, job, req));
  }

  lemma ReleasesAlone(l: Limits, s: State, c: CallerId, job: JobId)
    requires c !in s.callers && job in s.allocations
    ensures Runs(l, s, ReleaseSteps(c, job), Given(s, job))
  {
    var req := s.allocations[job];
    var a := Apply(l, s, Forget(c, job));
    var b := Apply(l, a, ReturnCpu(c));
    var d := Apply(l, b, ReturnMemory(c));
    assert Apply(l, d, GiveSlotBack(c)).callers == s.callers;
    RunsSnoc(l, s, [], s, Forget(c, job));
    RunsSnoc(l, s, [Forget(c, job)], a, ReturnCpu(c));
    RunsSnoc(l, b, [], b, ReturnMemory(c));
    RunsSnoc(l, b, [ReturnMemory(c)], d, GiveSlotBack(c));
    RunsAppend(l, s, [Forget(c, job), ReturnCpu(c)], b, [ReturnMemory(c), GiveSlotBack(c)], Given(s, job));
  }

  function TwiceSteps(c: CallerId, job: JobId, first: Request, second: Request): seq<Step> {
    AllocateSteps(c, job, first) + AllocateSteps(c, job, second) + ReleaseSteps(c, job)
  }

  lemma TwiceRuns(l: Limits, c: CallerId, job: JobId, first: Request, second: Request)
    requires l.slots >= 2 && first.cpu + second.cpu <= l.cpu && first.memory + second.memory <= l.memory
    ensures Runs(l, Initial(l), TwiceSteps(c, job, first, second), State(first.cpu, first.memory, l.slots - 1, map[], map[]))
  {
    var one := Taken(Initial(l), job, first);
    var two := Taken(one, job, second);
    AllocatesAlone(l, Initial(l), c, job, first);
    AllocatesAlone(l, one, c, job, second);
    ReleasesAlone(l, two, c, job);
    assert Given(two, job).allocations == map[];
    RunsAppend(l, Initial(l), AllocateSteps(c, job, first), one, AllocateSteps(c, job, second), two);
    RunsAppend(l, Initial(l), AllocateSteps(c, job, first) + AllocateSteps(c, job, second), two,
               ReleaseSteps(c, job), Given(two, job));
  }

  /**
   An id allocated twice and released once: with room for both, the manager ends with no call
   and no record, and one slot and the first request's CPU and memory are gone for good.
   */
  lemma IdRecordedTwice(l: Limits, c: CallerId, job: JobId, first: Request, second: Request)
    requires l.slots >= 2 && first.cpu + second.cpu <= l.cpu && first.memory + second.memory <= l.memory
    requires Fits64(l, first) && Fits64(l, second)
    ensures var steps := TwiceSteps(c, job, first, second);
            && Runs(l, Initial(l), steps, State(first.cpu, first.memory, l.slots - 1, map[], map[]))
            && AllFit(l, steps)
            && Lost(l, Initial(l), steps, NOTHING) == Books(first.cpu, first.memory, 1)
  {
    TwiceRuns(l, c, job, first, second);
    EveryInterleavingBalances(l, TwiceSteps(c, job, first, second), State(first.cpu, first.memory, l.slots - 1, map[], map[]));
  }

  /** What other callers do in one round of a loop: before its load, and between load and exchange. */
  datatype Gap = Gap(before: seq<Step>, between: seq<Step>)

  const QUIET := Gap([], [])

  /** `now` continues `before` without a record of caller `me`. */
  ghost predicate Grew(before: seq<Step>, now: seq<Step>, me: CallerId) {
    before <= now && Record(me) !in now[|before|..]
  }

  lemma GrewOn(a: seq<Step>, b: seq<Step>, c: seq<Step>, me: CallerId)
    requires Grew(a, b, me) && Grew(b, c, me)
    ensures Grew(a, c, me)
  {
    assert c[|a|..] == b[|a|..] + c[|b|..];
  }

  class Manager {
    const limits: Limits
    var usedCpu: u64
    var usedMemory: u64
    var permits: nat
    var allocations: map<JobId, Request>
    /** The program points of all calls in flight. */
    var callers: map<CallerId, Phase>
    /** Every atomic operation performed so far. */
    ghost var history: seq<Step>

    function View(): State
      reads this
    {
      State(usedCpu, usedMemory, permits, allocations, callers)
    }

    /** The object is where an interleaving of the protocol has led it. */
    ghost predicate Valid()
      reads this
    {
      Runs(limits, Initial(limits), history, View())
    }

    constructor (cpu: u64, memory: u64, slots: nat)
      ensures Valid() && limits == Limits(cpu, memory, slots) && View() == Initial(limits) && history == []
    {
      limits := Limits(cpu, memory, slots);
      usedCpu, usedMemory, permits := 0, 0, slots;
      allocations, callers := map[], map[];
      history := [];
    }

    /** One atomic operation of some call. */
    method Perform(step: Step)
      requires Valid() && Enabled(limits, View(), step)
      modifies this
      ensures Valid() && View() == Apply(limits, old(View()), step)
      ensures history == old(history) + [step]
    {
      RunsSnoc(limits, Initial(limits), history, View(), step);
      var t := Apply(limits, View(), step);
      usedCpu, usedMemory, permits := t.usedCpu, t.usedMemory, t.permits;
      allocations, callers := t.allocations, t.callers;
      history := history + [step];
    }

    /** An atomic operation of caller `me` other than recording. */
    method Advance(me: CallerId, step: Step)
      requires Valid() && Enabled(limits, View(), step) && step != Record(me)
      modifies this
      ensures Valid() && View() == Apply(limits, old(View()), step)
      ensures Grew(old(history), history, me)
    {
      Perform(step);
    }

    /**
     Other callers run: the steps of `others` that are possible when their turn comes, and
     that are not steps of `me`, are performed.
     */
    method Interfere(me: CallerId, others: seq<Step>)
      requires Valid()
      modifies this
      ensures Valid() && Grew(old(history), history, me)
      ensures me in callers <==> me in old(callers)
      ensures me in callers ==> callers[me] == old(callers)[me]
      ensures others == [] ==> View() == old(View())
    {
      for i := 0 to |others|
        invariant Valid() && Grew(old(history), history, me)
        invariant me in callers <==> me in old(callers)
        invariant me in callers ==> callers[me] == old(callers)[me]
        invariant others == [] ==> View() == old(View())
      {
        if others[i].c != me && Enabled(limits, View(), others[i]) {
          ghost var before := history;
          Advance(me, others[i]);
          GrewOn(old(history), before, history, me);
        }
      }
    }

    /** One load of the CPU counter, with other callers before it and after it. */
    method LoadCpu(me: CallerId, gap: Gap) returns (current: u64)
      requires Valid() && me in callers && callers[me].SlotTaken?
      modifies this
      ensures Valid() && Grew(old(history), history, me)
      ensures me in callers && callers[me] == CpuRead(old(callers)[me].job, old(callers)[me].req, current)
      ensures gap == QUIET ==> View() == Move(old(View()), me, callers[me]) && current == old(usedCpu)
    {
      Interfere(me, gap.before);
      ghost var before := history;
      current := usedCpu;
      Advance(me, ReadCpu(me));
      GrewOn(old(history), before, history, me);
      before := history;
      Interfere(me, gap.between);
      GrewOn(old(history), before, history, me);
    }

    method LoadMemory(me: CallerId, gap: Gap) returns (current: u64)
      requires Valid() && me in callers && callers[me].CpuTaken?
      modifies this
      ensures Valid() && Grew(old(history), history, me)
      ensures me in callers && callers[me] == MemoryRead(old(callers)[me].job, old(callers)[me].req, current)
      ensures gap == QUIET ==> View() == Move(old(View()), me, callers[me]) && current == old(usedMemory)
    {
      Interfere(me, gap.before);
      ghost var before := history;
      current := usedMemory;
      Advance(me, ReadMemory(me));
      GrewOn(old(history), before, history, me);
      before := history;
      Interfere(me, gap.between);
      GrewOn(old(history), before, history, me);
    }

    /**
     The CPU loop of `try_allocate`, with the steps `schedule[k]` of other callers before the
     load and before the compare-exchange of its k-th round (none once `schedule` is used up).
     */
    method ReserveCpu(me: CallerId, schedule: seq<Gap>) returns (ok: bool)
      requires Valid() && me in callers && callers[me].SlotTaken?
      modifies this
      ensures Valid() && Grew(old(history), history, me)
      ensures ok ==> me in callers && callers[me] == CpuTaken(old(callers)[me].job, old(callers)[me].req)
      ensures !ok ==> me !in callers
      ensures schedule == [] ==> (ok <==> Plus64(old(usedCpu), old(callers)[me].req.cpu) <= limits.cpu)
      ensures schedule == [] && ok ==>
                View() == Move(old(View()), me, callers[me]).(usedCpu := Plus64(old(usedCpu), old(callers)[me].req.cpu))
      ensures schedule == [] && !ok ==> View() == old(View()).(permits := old(permits) + 1, callers := old(callers) - {me})
    {
      var turn, req := 0, callers[me].req;
      while true
        invariant Valid() && Grew(old(history), history, me)
        invariant me in callers && callers[me] == old(callers)[me]
        invariant 0 <= turn <= |schedule|
        invariant schedule == [] ==> View() == old(View())
        decreases |schedule| - turn
      {
        ghost var before := history;
        var current := LoadCpu(me, if turn < |schedule| then schedule[turn] else QUIET);
        GrewOn(old(history), before, history, me);
        before := history;
        if Plus64(current, req.cpu) > limits.cpu {
          Advance(me, GiveSlotBack(me));
          GrewOn(old(history), before, history, me);
          assert schedule == [] ==> callers == old(callers) - {me};
          return false;
        }
        var swapped := usedCpu == current;
        Advance(me, SwapCpu(me));
        GrewOn(old(history), before, history, me);
        if swapped {
          assert schedule == [] ==> callers == old(callers)[me := callers[me]];
          return true;
        }
        turn := turn + 1;
      }
    }

    /** The refusal path of the memory loop: return the CPU, then the slot. */
    method RollBack(me: CallerId, last: seq<Step>)
      requires Valid() && me in callers && Enabled(limits, View(), RollBackCpu(me))
      modifies this
      ensures Valid() && Grew(old(history), history, me)
      ensures me !in callers
      ensures last == [] ==>
                View() == old(View()).(usedCpu := Minus64(old(usedCpu), old(callers)[me].req.cpu),
                                       permits := old(permits) + 1, callers := old(callers) - {me})
    {
      Advance(me, RollBackCpu(me));
      ghost var before := history;
      Interfere(me, last);
      GrewOn(old(history), before, history, me);
      before := history;
      Advance(me, GiveSlotBack(me));
      GrewOn(old(history), before, history, me);
      assert last == [] ==> callers == old(callers) - {me};
    }

    /** The memory loop of `try_allocate`, which rolls the CPU reservation back when it is refused. */
    method ReserveMemory(me: CallerId, schedule: seq<Gap>, last: seq<Step>) returns (ok: bool)
      requires Valid() && me in callers && callers[me].CpuTaken?
      modifies this
      ensures Valid() && Grew(old(history), history, me)
      ensures ok ==> me in callers && callers[me] == MemoryTaken(old(callers)[me].job, old(callers)[me].req)
      ensures !ok ==> me !in callers
      ensures schedule == [] ==> (ok <==> Plus64(old(usedMemory), old(callers)[me].req.memory) <= limits.memory)
      ensures schedule == [] && ok ==>
                View() == Move(old(View()), me, callers[me]).(usedMemory := Plus64(old(usedMemory), old(callers)[me].req.memory))
      ensures schedule == [] && last == [] && !ok ==>
                View() == old(View()).(usedCpu := Minus64(old(usedCpu), old(callers)[me].req.cpu),
                                       permits := old(permits) + 1, callers := old(callers) - {me})
    {
      var turn, req := 0, callers[me].req;
      while true
        invariant Valid() && Grew(old(history), history, me)
        invariant me in callers && callers[me] == old(callers)[me]
        invariant 0 <= turn <= |schedule|
        invariant schedule == [] ==> View() == old(View())
        decreases |schedule| - turn
      {
        ghost var before := history;
        var current := LoadMemory(me, if turn < |schedule| then schedule[turn] else QUIET);
        GrewOn(old(history), before, history, me);
        before := history;
        if Plus64(current, req.memory) > limits.memory {
          RollBack(me, last);
          GrewOn(old(history), before, history, me);
          assert schedule == [] && last == [] ==> callers == old(callers) - {me};
          return false;
        }
        var swapped := usedMemory == current;
        Advance(me, SwapMemory(me));
        GrewOn(old(history), before, history, me);
        if swapped {
          assert schedule == [] ==> callers == old(callers)[me := callers[me]];
          return true;
        }
        turn := turn + 1;
      }
    }

    /** Both loops: the call ends with CPU and memory reserved, or gives everything back and leaves. */
    method Reserve(me: CallerId, cpuTurns: seq<Gap>, memoryTurns: seq<Gap>, last: seq<Step>) returns (outcome: Outcome)
      requires Valid() && me in callers && callers[me].SlotTaken?
      modifies this
      ensures Valid() && Grew(old(history), history, me) && outcome != NoSlot
      ensures outcome == Allocated ==> me in callers && callers[me] == MemoryTaken(old(callers)[me].job, old(callers)[me].req)
      ensures outcome != Allocated ==> me !in callers
      ensures cpuTurns == [] && memoryTurns == [] && last == [] ==>
                var req := old(callers)[me].req;
                && outcome == (if Plus64(old(usedCpu), req.cpu) > limits.cpu then CpuShort
                               else if Plus64(old(usedMemory), req.memory) > limits.memory then MemoryShort
                               else Allocated)
                && View() == if outcome == Allocated then
                               Move(old(View()), me, callers[me]).(usedCpu := Plus64(old(usedCpu), req.cpu),
                                                                   usedMemory := Plus64(old(usedMemory), req.memory))
                             else
                               old(View()).(permits := old(permits) + 1, callers := old(callers) - {me})
    {
      var ok := ReserveCpu(me, cpuTurns);
      if !ok {
        return CpuShort;
      }
      ghost var before := history;
      ok := ReserveMemory(me, memoryTurns, last);
      GrewOn(old(history), before, history, me);
      assert cpuTurns == [] && memoryTurns == [] && last == [] && !ok ==> callers == old(callers) - {me};
      assert cpuTurns == [] && memoryTurns == [] && ok ==> callers == old(callers)[me := callers[me]];
      return if ok then Allocated else MemoryShort;
    }

    /** The last operation of `try_allocate`: the insert into the map of allocations. */
    method Enter(me: CallerId, last: seq<Step>)
      requires Valid() && me in callers && callers[me].MemoryTaken?
      modifies this
      ensures Valid() && old(history) <= history && Record(me) in history[|old(history)|..]
      ensures me !in callers
      ensures var p := old(callers)[me]; p.job in allocations && allocations[p.job] == p.req
      ensures last == [] ==> View() == RecordAt(old(View()), me)
    {
      Interfere(me, last);
      Perform(Record(me));
      assert history[|history| - 1] == Record(me);
    }

    /**
     `try_allocate` with other callers' steps between any two of its own operations.
     Whatever they do, the call is an interleaving of the protocol: it fails for want of a
     slot exactly when no permit was free, it leaves nothing of its own behind when refused,
     and its record when not. Run alone it decides by what was free when it was called.
     */
    method TryAllocate(me: CallerId, job: JobId, req: Request,
                       cpuTurns: seq<Gap>, memoryTurns: seq<Gap>, last: seq<Step>)
      returns (outcome: Outcome)
      requires Valid() && me !in callers
      modifies this
      ensures Valid() && old(history) <= history
      ensures me !in callers
      ensures outcome == NoSlot <==> old(permits) == 0
      ensures outcome == NoSlot ==> View() == old(View())
      ensures outcome == Allocated <==> Record(me) in history[|old(history)|..]
      ensures outcome == Allocated ==> job in allocations && allocations[job] == req
      ensures cpuTurns == [] && memoryTurns == [] && last == [] ==>
                && outcome == Alone(limits, old(View()), req)
                && View() == if outcome == Allocated then Taken(old(View()), job, req) else old(View())
    {
      if permits == 0 {
        return NoSlot;
      }
      Advance(me, TakeSlot(me, job, req));
      ghost var before := history;
      outcome := Reserve(me, cpuTurns, memoryTurns, last);
      GrewOn(old(history), before, history, me);
      if outcome == Allocated {
        before := history;
        Enter(me, last);
        assert history[|old(history)|..] == before[|old(history)|..] + history[|before|..];
      }
      assert cpuTurns == [] && memoryTurns == [] && last == [] ==> callers == old(callers);
    }

    /** The tail of `release`: CPU, memory and slot go back one by one. */
    method PutBack(me: CallerId, req: Request, turn1: seq<Step>, turn2: seq<Step>, turn3: seq<Step>)
      requires Valid() && me in callers && callers[me] == Forgotten(req)
      modifies this
      ensures Valid() && old(history) <= history
      ensures me !in callers
      ensures turn1 == turn2 == turn3 == [] ==>
                View() == old(View()).(usedCpu := Minus64(old(usedCpu), req.cpu),
                                       usedMemory := Minus64(old(usedMemory), req.memory),
                                       permits := old(permits) + 1, callers := old(callers) - {me})
    {
      Interfere(me, turn1);
      Perform(ReturnCpu(me));
      Interfere(me, turn2);
      Perform(ReturnMemory(me));
      Interfere(me, turn3);
      Perform(GiveSlotBack(me));
      assert turn1 == turn2 == turn3 == [] ==> callers == old(callers) - {me};
    }

    /**
     `release`, interleaved likewise: it forgets the record and gives back exactly what the
     record says; an unknown job id changes nothing.
     */
    method Release(me: CallerId, job: JobId, turn1: seq<Step>, turn2: seq<Step>, turn3: seq<Step>)
      requires Valid() && me !in callers
      modifies this
      ensures Valid() && old(history) <= history
      ensures me !in callers
      ensures job !in old(allocations) ==> View() == old(View())
      ensures job in old(allocations) ==> Forget(me, job) in history[|old(history)|..]
      ensures job in old(allocations) && turn1 == turn2 == turn3 == [] ==>
                View() == old(View()).(
                  usedCpu := Minus64(old(usedCpu), old(allocations)[job].cpu),
                  usedMemory := Minus64(old(usedMemory), old(allocations)[job].memory),
                  permits := old(permits) + 1,
                  allocations := old(allocations) - {job})
    {
      if job in allocations {
        var req := allocations[job];
        Perform(Forget(me, job));
        assert history[|old(history)|] == Forget(me, job);
        PutBack(me, req, turn1, turn2, turn3);
        assert history[|old(history)|] == Forget(me, job);
        assert turn1 == turn2 == turn3 == [] ==> callers == old(callers);
      }
    }
  }
}
