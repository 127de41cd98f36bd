/**
 The two tracepoint programs of bpf/c/syscall_lat.c as a machine that takes one map
 operation at a time. Any number of threads run them concurrently, and the LRU maps
 may evict an entry between any two operations.

 An action carries everything the programs do not decide: which thread moves, what the
 clock says, whether the kernel finds memory. An action that is not enabled does nothing.

 A histogram entry has an identity, its index in the heap. A program that has looked an
 entry up keeps that identity; if the entry is evicted meanwhile, its increment still goes
 there, where no later lookup finds it.
 */
module SyscallKernel {
  import opened U64
  import opened Log2
  import opened Histogram

  const MAX_SYSCALL_NR: int := 512
  const SIGN: nat := 0x8000_0000_0000_0000
  const TGID_SHIFT: nat := 0x1_0000_0000

  datatype Key = Key(pid: nat, nr: int)

  /** A sys_enter event; serial numbers them in the order they fire. */
  datatype Enter = Never | Enter(id: int, ts: u64, serial: nat, stored: bool)

  /** A syscall_start value, with the serial of the event that wrote it as history. */
  datatype Start = Start(ts: u64, nr: int, serial: nat)

  /**
   A measured exit. thread, serial, now and before are history: before is the last
   sys_enter event of the thread when its exit looked the start up.
   */
  datatype Sample = Sample(key: Key, latency: nat, thread: nat, serial: nat, ts: u64, now: u64, before: Enter)

  datatype Record = Record(sample: Sample, entry: nat)

  /** Where a thread is inside the two programs. */
  datatype Pc =
    | Idle
    | Storing(enter: Enter)
    | Found(start: Start)
    | Timed(start: Start, now: u64)
    | LookingUp(sample: Sample)
    | Seeding(sample: Sample)
    | LookingAgain(sample: Sample)
    | Adding(sample: Sample, entry: nat)
  {
    /** The program has measured a latency it has not yet counted. */
    predicate Carries()
    {
      LookingUp? || Seeding? || LookingAgain? || Adding?
    }
  }

  datatype Action =
    | EnterFire(t: nat, id: int, ts: u64)
    | EnterStore(t: nat, ok: bool)
    | ExitLookup(t: nat)
    | ExitClock(t: nat, now: u64)
    | ExitDelete(t: nat)
    | LatLookup(t: nat)
    | LatSeed(t: nat, zeroFound: bool, inserted: bool)
    | LatRelookup(t: nat)
    | LatAdd(t: nat)
    | EvictStart(pidTgid: u64)
    | EvictLat(key: Key)

  /**
   The maps are start and lat, with the entries of lat in heap. Everything from owner on is
   history: owner is the key an entry was made for, measured the samples that passed the
   sign test, recorded those that were added, dropped those given up for want of an entry.
   */
  datatype State = State(
    threads: seq<u64>,
    pcs: seq<Pc>,
    start: map<u64, Start>,
    lat: map<Key, nat>,
    heap: seq<Buckets>,
    owner: seq<Key>,
    enters: seq<Enter>,
    inside: seq<bool>,
    serial: nat,
    measured: seq<Sample>,
    recorded: seq<Record>,
    dropped: seq<Sample>)

  function Init(threads: seq<u64>): State
  {
    State(threads, seq(|threads|, _ => Idle), map[], map[], [], [],
          seq(|threads|, _ => Never), seq(|threads|, _ => false), 0, [], [], [])
  }

  /** The index the bucket expression of raw_tp_sys_exit yields, clamp included. */
  function BucketOf(latency: nat): (i: nat)
    ensures i < HIST_BUCKETS
  {
    if FloorLog2(latency) >= HIST_BUCKETS then HIST_BUCKETS - 1 else FloorLog2(latency)
  }

  function Bump(b: Buckets, i: nat): Buckets
    requires i < HIST_BUCKETS
  {
    b[i := WrapAdd(b[i], 1)]
  }

  predicate Sized(s: State)
  {
    |s.pcs| == |s.threads| == |s.enters| == |s.inside|
  }

  function StepEnterFire(s: State, t: nat, id: int, ts: u64): State
    requires Sized(s) && t < |s.threads|
  {
    if !s.pcs[t].Idle? then s
    else
      var enter := Enter(id, ts, s.serial, false);
      s.(pcs := s.pcs[t := if id < 0 || id >= MAX_SYSCALL_NR then Idle else Storing(enter)],
         enters := s.enters[t := enter], inside := s.inside[t := true], serial := s.serial + 1)
  }

  function StepEnterStore(s: State, t: nat, ok: bool): State
    requires Sized(s) && t < |s.threads|
  {
    if !s.pcs[t].Storing? || s.pcs[t].enter.Never? then s
    else if !ok then s.(pcs := s.pcs[t := Idle])
    else
      var enter := s.pcs[t].enter;
      s.(pcs := s.pcs[t := Idle],
         start := s.start[s.threads[t] := Start(enter.ts, enter.id, enter.serial)],
         enters := s.enters[t := Enter(enter.id, enter.ts, enter.serial, true)])
  }

  function StepExitLookup(s: State, t: nat): State
    requires Sized(s) && t < |s.threads|
  {
    if !s.pcs[t].Idle? then s
    else
      s.(pcs := s.pcs[t := if s.threads[t] in s.start then Found(s.start[s.threads[t]]) else Idle],
         inside := s.inside[t := false])
  }

  function StepExitClock(s: State, t: nat, now: u64): State
    requires Sized(s) && t < |s.threads|
  {
    if s.pcs[t].Found? then s.(pcs := s.pcs[t := Timed(s.pcs[t].start, now)]) else s
  }

  /** The sample an exit measures at its delete, if the 64-bit difference passes the sign test. */
  function SampleOf(s: State, t: nat): (sample: Sample)
    requires Sized(s) && t < |s.threads| && s.pcs[t].Timed?
  {
    var start := s.pcs[t].start;
    Sample(Key(s.threads[t] / TGID_SHIFT, start.nr), WrapSub(s.pcs[t].now, start.ts), t,
           start.serial, start.ts, s.pcs[t].now, s.enters[t])
  }

  predicate PassesSignTest(delta: nat)
  {
    0 < delta < SIGN
  }

  function StepExitDelete(s: State, t: nat): State
    requires Sized(s) && t < |s.threads|
  {
    if !s.pcs[t].Timed? then s
    else
      var sample := SampleOf(s, t);
      if PassesSignTest(sample.latency) then
        s.(start := s.start - {s.threads[t]}, pcs := s.pcs[t := LookingUp(sample)], measured := s.measured + [sample])
      else
        s.(start := s.start - {s.threads[t]}, pcs := s.pcs[t := Idle])
  }

  function StepLatLookup(s: State, t: nat): State
    requires Sized(s) && t < |s.threads|
  {
    if !s.pcs[t].LookingUp? then s
    else
      var sample := s.pcs[t].sample;
      s.(pcs := s.pcs[t := if sample.key in s.lat then Adding(sample, s.lat[sample.key]) else Seeding(sample)])
  }

  /** The update with BPF_NOEXIST: it makes a zero entry unless the key has one already. */
  function StepLatSeed(s: State, t: nat, zeroFound: bool, inserted: bool): State
    requires Sized(s) && t < |s.threads|
  {
    if !s.pcs[t].Seeding? then s
    else if !zeroFound then s.(pcs := s.pcs[t := Idle], dropped := s.dropped + [s.pcs[t].sample])
    else if s.pcs[t].sample.key in s.lat || !inserted then s.(pcs := s.pcs[t := LookingAgain(s.pcs[t].sample)])
    else WithEntry(s.(pcs := s.pcs[t := LookingAgain(s.pcs[t].sample)]), s.pcs[t].sample.key)
  }

  function WithEntry(s: State, key: Key): State
  {
    s.(lat := s.lat[key := |s.heap|], heap := s.heap + [Empty()], owner := s.owner + [key])
  }

  function StepLatRelookup(s: State, t: nat): State
    requires Sized(s) && t < |s.threads|
  {
    if !s.pcs[t].LookingAgain? then s
    else
      var sample := s.pcs[t].sample;
      if sample.key in s.lat then s.(pcs := s.pcs[t := Adding(sample, s.lat[sample.key])])
      else s.(pcs := s.pcs[t := Idle], dropped := s.dropped + [sample])
  }

  function StepLatAdd(s: State, t: nat): State
    requires Sized(s) && t < |s.threads|
  {
    if !s.pcs[t].Adding? || s.pcs[t].entry >= |s.heap| then s
    else
      var e := s.pcs[t].entry;
      s.(pcs := s.pcs[t := Idle],
         heap := s.heap[e := Bump(s.heap[e], BucketOf(s.pcs[t].sample.latency))],
         recorded := s.recorded + [Record(s.pcs[t].sample, e)])
  }

  function StepThread(s: State, t: nat, a: Action): State
    requires Sized(s) && t < |s.threads|
  {
    match a
    case EnterFire(_, id, ts) => StepEnterFire(s, t, id, ts)
    case EnterStore(_, ok) => StepEnterStore(s, t, ok)
    case ExitLookup(_) => StepExitLookup(s, t)
    case ExitClock(_, now) => StepExitClock(s, t, now)
    case ExitDelete(_) => StepExitDelete(s, t)
    case LatLookup(_) => StepLatLookup(s, t)
    case LatSeed(_, zeroFound, inserted) => StepLatSeed(s, t, zeroFound, inserted)
    case LatRelookup(_) => StepLatRelookup(s, t)
    case LatAdd(_) => StepLatAdd(s, t)
    case EvictStart(_) => s
    case EvictLat(_) => s
  }

  function Step(s: State, a: Action): State
    requires Sized(s)
  {
    if a.EvictStart? then s.(start := s.start - {a.pidTgid})
    else if a.EvictLat? then s.(lat := s.lat - {a.key})
    else if a.t < |s.threads| then StepThread(s, a.t, a)
    else s
  }

  lemma StepSized(s: State, a: Action)
    requires Sized(s)
    ensures Sized(Step(s, a)) && Step(s, a).threads == s.threads
  {
  }
}
