/** Any sequence of allocations, mmaps and munmaps: what the shadow map holds
    afterwards, told from the history alone. */
module ShadowRuns {
  import opened Bits
  import opened ShadowMap
  import opened Matching

  datatype Op =
    | MemAlloc(gpuVa: u64, sameVa: bool)
    | MemCommit(gpuAddr: u64)
    | Mmap(ret: u64, length: u64, offset: u64)
    | Munmap(addr: u64)

  /** The method of `Tracer` that handles the operation does this to its state. */
  function Step(s: Shadow, op: Op): Shadow {
    match op
    case MemAlloc(gpuVa, sameVa) => RecordAlloc(s, gpuVa, sameVa)
    case MemCommit(gpuAddr) => RecordAlloc(s, gpuAddr, false)
    case Mmap(ret, length, offset) => RecordMmap(s, ret, length, offset)
    case Munmap(addr) => RecordMunmap(s, addr)
  }

  function Run(ops: seq<Op>, n: nat): Shadow
    requires n <= |ops|
  {
    if n == 0 then Shadow([], []) else Step(Run(ops, n - 1), ops[n - 1])
  }

  function AllocEvent(op: Op): Event {
    match op
    case MemAlloc(gpuVa, _) => Push(gpuVa)
    case MemCommit(gpuAddr) => Push(gpuAddr)
    case Mmap(_, _, offset) => Pop(offset)
    case Munmap(_) => Skip
  }

  function MapEvent(op: Op): Event {
    match op
    case Mmap(ret, _, _) => Push(ret)
    case Munmap(addr) => Pop(addr)
    case _ => Skip
  }

  function AllocEvents(ops: seq<Op>): (r: seq<Event>)
    ensures |r| == |ops|
  {
    seq(|ops|, i requires 0 <= i < |ops| => AllocEvent(ops[i]))
  }

  function MapEvents(ops: seq<Op>): (r: seq<Event>)
    ensures |r| == |ops|
  {
    seq(|ops|, i requires 0 <= i < |ops| => MapEvent(ops[i]))
  }

  function AllocationMade(op: Op): Allocation {
    match op
    case MemAlloc(gpuVa, sameVa) => Allocation(gpuVa, sameVa)
    case MemCommit(gpuAddr) => Allocation(gpuAddr, false)
    case _ => Allocation(0, false)
  }

  /** The record of the mmap at event `t`: its GPU address comes from the
      allocation it took. */
  function MappingMade(ops: seq<Op>, t: nat): Mapping
    requires t < |ops|
  {
    var taken := Taken(AllocEvents(ops), |ops|);
    match ops[t]
    case Mmap(ret, length, offset) =>
      if t !in taken || taken[t] >= |ops| then Mapping(length, ret, 0)
      else if AllocationMade(ops[taken[t]]).sameVa then Mapping(length, ret, ret)
      else Mapping(length, ret, offset)
    case _ => Mapping(0, 0, 0)
  }

  function Tagged<A>(s: seq<nat>, f: nat -> A): (r: seq<A>)
    ensures |r| == |s|
  {
    seq(|s|, i requires 0 <= i < |s| => f(s[i]))
  }

  function AllocationAt(ops: seq<Op>): nat -> Allocation {
    (t: nat) => if t < |ops| then AllocationMade(ops[t]) else Allocation(0, false)
  }

  function MappingAt(ops: seq<Op>): nat -> Mapping {
    (t: nat) => if t < |ops| then MappingMade(ops, t) else Mapping(0, 0, 0)
  }

  lemma {:induction false} FirstTagged<A>(s: seq<nat>, f: nat -> A, p: nat -> bool, q: A -> bool)
    requires forall i | 0 <= i < |s| :: p(s[i]) == q(f(s[i]))
    ensures First(Tagged(s, f), q) == First(s, p)
  {
    var r, k := Tagged(s, f), First(s, p);
    hide First;
    FirstIs(r, q, k);
  }

  lemma TaggedDrop<A>(s: seq<nat>, f: nat -> A, k: nat)
    ensures Tagged(Drop(s, k), f) == Drop(Tagged(s, f), k)
  {
  }

  lemma TaggedCons<A>(t: nat, s: seq<nat>, f: nat -> A)
    ensures Tagged([t] + s, f) == [f(t)] + Tagged(s, f)
  {
  }

  /** Pending allocations are exactly the allocation events no mmap has taken. */
  lemma {:induction false} PendingRefines(ops: seq<Op>, n: nat)
    requires n <= |ops|
    ensures Run(ops, n).pending == Tagged(Stack(AllocEvents(ops), n), AllocationAt(ops))
  {
    hide First, Drop, PushedAs, Tagged, AllocationAt, Stack;
    if n == 0 {
      NothingPending(ops);
    } else {
      PendingRefines(ops, n - 1);
      match ops[n - 1]
      case MemAlloc(_, _) => PendingPush(ops, n);
      case MemCommit(_) => PendingPush(ops, n);
      case Mmap(_, _, _) => PendingPop(ops, n);
      case Munmap(_) => PendingSkip(ops, n);
    }
  }

  lemma NothingPending(ops: seq<Op>)
    ensures Tagged(Stack(AllocEvents(ops), 0), AllocationAt(ops)) == []
  {
  }

  lemma PendingPush(ops: seq<Op>, n: nat)
    requires 0 < n <= |ops| && (ops[n - 1].MemAlloc? || ops[n - 1].MemCommit?)
    ensures Tagged(Stack(AllocEvents(ops), n), AllocationAt(ops))
         == [AllocationMade(ops[n - 1])] + Tagged(Stack(AllocEvents(ops), n - 1), AllocationAt(ops))
  {
    hide First, Drop, Tagged;
    TaggedCons(n - 1, Stack(AllocEvents(ops), n - 1), AllocationAt(ops));
  }

  lemma PendingPop(ops: seq<Op>, n: nat)
    requires 0 < n <= |ops| && ops[n - 1].Mmap?
    ensures var p := Tagged(Stack(AllocEvents(ops), n - 1), AllocationAt(ops));
      Tagged(Stack(AllocEvents(ops), n), AllocationAt(ops)) == Drop(p, First(p, HasVa(ops[n - 1].offset)))
  {
    hide First, Drop, Tagged, AllocationAt, PushedAs;
    var evs, offset := AllocEvents(ops), ops[n - 1].offset;
    PendingFirst(ops, n - 1, offset);
    TaggedDrop(Stack(evs, n - 1), AllocationAt(ops), First(Stack(evs, n - 1), PushedAs(evs, offset)));
  }

  lemma PendingSkip(ops: seq<Op>, n: nat)
    requires 0 < n <= |ops| && ops[n - 1].Munmap?
    ensures Stack(AllocEvents(ops), n) == Stack(AllocEvents(ops), n - 1)
  {
    hide First, Drop;
  }

  /** The search for a pending allocation finds the event the log matches. */
  lemma PendingFirst(ops: seq<Op>, n: nat, offset: u64)
    requires n <= |ops|
    ensures var evs, s := AllocEvents(ops), Stack(AllocEvents(ops), n);
      First(Tagged(s, AllocationAt(ops)), HasVa(offset)) == First(s, PushedAs(evs, offset))
  {
    var evs, s := AllocEvents(ops), Stack(AllocEvents(ops), n);
    StackRun(evs, n);
    hide Stack, First;
    forall i | 0 <= i < |s| ensures PushedAs(evs, offset)(s[i]) == HasVa(offset)(AllocationAt(ops)(s[i])) {
      AllocEventOf(ops[s[i]], evs[s[i]].key);
    }
    FirstTagged(s, AllocationAt(ops), PushedAs(evs, offset), HasVa(offset));
  }

  lemma LiveFirst(ops: seq<Op>, n: nat, addr: u64)
    requires n <= |ops|
    ensures var evs, s := MapEvents(ops), Stack(MapEvents(ops), n);
      First(Tagged(s, MappingAt(ops)), HasAddr(addr)) == First(s, PushedAs(evs, addr))
  {
    var evs, s := MapEvents(ops), Stack(MapEvents(ops), n);
    StackRun(evs, n);
    hide Stack, First, Taken;
    forall i | 0 <= i < |s| ensures PushedAs(evs, addr)(s[i]) == HasAddr(addr)(MappingAt(ops)(s[i])) {
      MapEventOf(ops, s[i]);
    }
    FirstTagged(s, MappingAt(ops), PushedAs(evs, addr), HasAddr(addr));
  }

  lemma AllocEventOf(op: Op, key: int)
    ensures AllocEvent(op) == Push(key) ==> AllocationMade(op).gpuVa == key
    ensures AllocEvent(op) == Pop(key) ==> op.Mmap? && op.offset == key
  {
  }

  lemma MapEventOf(ops: seq<Op>, t: nat)
    requires t < |ops| && MapEvent(ops[t]).Push?
    ensures ops[t].Mmap? && MapEvent(ops[t]).key == ops[t].ret == MappingMade(ops, t).addr
  {
    hide Taken;
  }

  /** Live mappings are exactly the mmaps no munmap has removed, each with the
      GPU address of the allocation it took. */
  lemma {:induction false} LiveRefines(ops: seq<Op>, n: nat)
    requires n <= |ops|
    ensures Run(ops, n).live == Tagged(Stack(MapEvents(ops), n), MappingAt(ops))
  {
    if n != 0 {
      LiveRefines(ops, n - 1);
      var evs, f := MapEvents(ops), MappingAt(ops);
      var s := Stack(evs, n - 1);
      hide First, Tagged, Taken, MappingMade;
      match ops[n - 1] {
        case Mmap(_, _, _) =>
          NewMapping(ops, n);
          TaggedCons(n - 1, s, f);
        case Munmap(addr) =>
          LiveFirst(ops, n - 1, addr);
          TaggedDrop(s, f, First(s, PushedAs(evs, addr)));
        case _ =>
      }
    }
  }

  lemma NewMapping(ops: seq<Op>, n: nat)
    requires 0 < n <= |ops| && ops[n - 1].Mmap?
    ensures Run(ops, n).live == [MappingMade(ops, n - 1)] + Run(ops, n - 1).live
  {
    PendingRefines(ops, n - 1);
    MappingFromPending(ops, n - 1, Run(ops, n - 1).pending);
  }

  lemma MappingFromPending(ops: seq<Op>, m: nat, p: seq<Allocation>)
    requires m < |ops| && ops[m].Mmap?
    requires p == Tagged(Stack(AllocEvents(ops), m), AllocationAt(ops))
    ensures var k := First(p, HasVa(ops[m].offset));
      MappingMade(ops, m) == Mapping(ops[m].length, ops[m].ret,
        if k == |p| then 0 else if p[k].sameVa then ops[m].ret else ops[m].offset)
  {
    PendingFirst(ops, m, ops[m].offset);
    TakenIs(AllocEvents(ops), m, |ops|);
    hide Stack, Taken, First;
  }

  /** Over every run, the allocations recorded are those pending plus those consumed. */
  lemma AllocationsConserved(ops: seq<Op>)
    ensures var evs, s := AllocEvents(ops), Run(ops, |ops|);
      Pushes(evs, |ops|) == |s.pending| + |Taken(evs, |ops|)|
  {
    PendingRefines(ops, |ops|);
    MatchingRun(AllocEvents(ops), |ops|);
  }

  lemma MappingsConserved(ops: seq<Op>)
    ensures var evs, s := MapEvents(ops), Run(ops, |ops|);
      Pushes(evs, |ops|) == |s.live| + |Taken(evs, |ops|)|
  {
    LiveRefines(ops, |ops|);
    MatchingRun(MapEvents(ops), |ops|);
  }

  /** An mmap consumes an earlier allocation at its offset... */
  lemma MmapConsumesEarlier(ops: seq<Op>, m: nat, a: nat)
    requires var t := Taken(AllocEvents(ops), |ops|); m in t && t[m] == a
    ensures a < m < |ops| && ops[m].Mmap? && AllocationMade(ops[a]).gpuVa == ops[m].offset
  {
    var evs := AllocEvents(ops);
    PopTookOne(evs, |ops|, m, a);
    AllocEventOf(ops[m], evs[m].key);
    AllocEventOf(ops[a], evs[a].key);
  }

  /** ...which no other mmap consumes and which is pending no longer... */
  lemma MmapConsumesOnce(ops: seq<Op>, m: nat, a: nat)
    requires var t := Taken(AllocEvents(ops), |ops|); m in t && t[m] == a
    ensures forall i | 0 <= i < |Stack(AllocEvents(ops), |ops|)| :: Stack(AllocEvents(ops), |ops|)[i] != a
    ensures var t := Taken(AllocEvents(ops), |ops|); forall m' | m' in t && t[m'] == a :: m' == m
  {
    PopTookOne(AllocEvents(ops), |ops|, m, a);
  }

  /** ...and which is the newest one: any later allocation at the offset, or any at all
      when the mmap is recorded as unknown, had been consumed before. */
  lemma MmapConsumesNewest(ops: seq<Op>, m: nat, b: nat)
    requires b < m < |ops| && ops[m].Mmap?
    requires AllocEvent(ops[b]) == Push(ops[m].offset)
    requires m in Taken(AllocEvents(ops), |ops|) ==> Taken(AllocEvents(ops), |ops|)[m] < b
    ensures b in Taken(AllocEvents(ops), m).Values
  {
    TakesNewest(AllocEvents(ops), m, |ops|, b);
  }

  /** munmap removes the mapping of one earlier mmap that returned its address... */
  lemma MunmapRemovesOne(ops: seq<Op>, u: nat, m: nat)
    requires var t := Taken(MapEvents(ops), |ops|); u in t && t[u] == m
    ensures m < u < |ops| && ops[u].Munmap? && ops[m].Mmap? && ops[m].ret == ops[u].addr
    ensures forall i | 0 <= i < |Stack(MapEvents(ops), |ops|)| :: Stack(MapEvents(ops), |ops|)[i] != m
    ensures var t := Taken(MapEvents(ops), |ops|); forall u' | u' in t && t[u'] == m :: u' == u
  {
    var evs := MapEvents(ops);
    PopTookOne(evs, |ops|, u, m);
    assert evs[u] == MapEvent(ops[u]) && evs[m] == MapEvent(ops[m]);
  }

  /** ...and that is the newest one still live. */
  lemma MunmapRemovesNewest(ops: seq<Op>, u: nat, b: nat)
    requires b < u < |ops| && ops[u].Munmap?
    requires MapEvent(ops[b]) == Push(ops[u].addr)
    requires u in Taken(MapEvents(ops), |ops|) ==> Taken(MapEvents(ops), |ops|)[u] < b
    ensures b in Taken(MapEvents(ops), u).Values
  {
    TakesNewest(MapEvents(ops), u, |ops|, b);
  }

  /** The tracer's methods, run one after the other on its two lists: the heap they leave
      is described by `Run`, so everything above holds of it. */
  method RunTracer(ops: seq<Op>) returns (tracer: Tracer)
    ensures tracer.Valid() && tracer.State() == Run(ops, |ops|)
  {
    hide Step;
    tracer := new Tracer();
    for n := 0 to |ops|
      invariant tracer.Valid() && fresh(tracer) && fresh(tracer.repr)
      invariant tracer.State() == Run(ops, n)
    {
      RunStep(tracer, ops[n]);
    }
  }

  method RunStep(tracer: Tracer, op: Op)
    requires tracer.Valid()
    modifies tracer`lists, tracer`repr, tracer.repr
    ensures tracer.Valid() && fresh(tracer.repr - old(tracer.repr))
    ensures tracer.State() == Step(old(tracer.State()), op)
  {
    match op
    case MemAlloc(gpuVa, sameVa) => tracer.PostMemAlloc(gpuVa, sameVa);
    case MemCommit(gpuAddr) => tracer.PostMemCommit(gpuAddr);
    case Mmap(ret, length, offset) => tracer.TrackMmap(ret, length, offset);
    case Munmap(addr) => tracer.Munmap(addr);
  }
}
