/** The map the tracer has of the driver's memory: its pool, and the shaders of as many
    chains as it makes. */
module DriverMaps {
  import opened Bits
  import opened Memory
  import opened ShadowMap
  import opened Translation
  import opened Pool
  import opened Decoder
  import opened Fetching
  import opened JobTraces

  // ----- one mapping more -----

  /** The mapping does not overlap the GPU range. */
  predicate OffRange(m: Mapping, start: u64, length: u64) {
    m.gpuVa + m.length <= start || start + length <= m.gpuVa
  }

  /** What the kernel gives out: whole pages, in the address space, that overlap nothing
      recorded and do not touch it on the GPU side. */
  predicate FreshRange(live: seq<Mapping>, m: Mapping) {
    && m.gpuVa % 0x1000 == 0 && 0 < m.gpuVa && m.gpuVa + m.length < WORD64
    && 0x1000 <= m.length && m.addr + m.length <= SPACE
    && forall j | 0 <= j < |live| ::
         OffRange(live[j], m.gpuVa, m.length) && !EndsAt(live[j], m.gpuVa) && !EndsAt(m, live[j].gpuVa)
  }

  lemma InSpaceMore(live: seq<Mapping>, m: Mapping)
    requires InSpace(live) && m.addr + m.length <= SPACE
    ensures InSpace([m] + live)
  {
  }

  /** The mmap of the pool, in a map whose other mappings are elsewhere. */
  lemma PoolAdded(live: seq<Mapping>, base: u32)
    requires InSpace(live) && 0 < base && base + POOL_SIZE <= SPACE
    requires forall j | 0 <= j < |live| :: OffRange(live[j], base, POOL_SIZE)
    ensures PoolMapped([Mapping(POOL_SIZE, base, base)] + live, base)
  {
    var m := Mapping(POOL_SIZE, base, base);
    InSpaceMore(live, m);
    hide InSpace;
    var l := [m] + live;
    forall j | 0 < j < |l| ensures OffRange(l[j], base, POOL_SIZE) { assert l[j] == live[j - 1]; }
    assert Apart(l, 0) && l[0] == m;
  }

  lemma ApartMore(live: seq<Mapping>, k: nat, m: Mapping)
    requires Apart(live, k) && OffRange(m, live[k].gpuVa, live[k].length)
    ensures Apart([m] + live, k + 1)
  {
    var l := [m] + live;
    assert l[k + 1] == live[k];
    forall j | 0 <= j < |l| && j != k + 1 ensures OffRange(l[j], live[k].gpuVa, live[k].length) {
      if j > 0 { assert l[j] == live[j - 1]; }
    }
  }

  /** A fresh range is found at its GPU address once it is recorded. */
  lemma FreshIsMapped(live: seq<Mapping>, m: Mapping)
    requires FreshRange(live, m) && m.gpuVa + 5 < WORD64
    ensures ShaderMapped([m] + live, m.gpuVa)
  {
    var l := [m] + live;
    forall j | 0 < j < |l| ensures OffRange(l[j], m.gpuVa, m.length) && !EndsAt(l[j], m.gpuVa) {
      assert l[j] == live[j - 1];
    }
    assert Apart(l, 0) && l[0] == m && !EndsAt(m, m.gpuVa);
  }

  /** Recording a fresh range leaves the pool found. */
  lemma PoolKept(live: seq<Mapping>, base: u32, m: Mapping)
    requires PoolMapped(live, base) && FreshRange(live, m)
    ensures PoolMapped([m] + live, base)
  {
    var k :| 0 <= k < |live| && live[k] == Mapping(POOL_SIZE, base, base) && Apart(live, k);
    InSpaceMore(live, m);
    hide InSpace;
    ApartMore(live, k, m);
    assert ([m] + live)[k + 1] == live[k];
  }

  /** And every shader that was. */
  lemma ShaderKept(live: seq<Mapping>, gpu: u64, m: Mapping)
    requires ShaderMapped(live, gpu) && FreshRange(live, m)
    ensures ShaderMapped([m] + live, gpu)
  {
    var k :| 0 <= k < |live| && live[k].gpuVa == gpu && live[k].length >= 0x1000 && Apart(live, k);
    ApartMore(live, k, m);
    var l := [m] + live;
    assert l[k + 1] == live[k];
    forall j | 0 <= j < |l| ensures !EndsAt(l[j], gpu) {
      if j > 0 { assert l[j] == live[j - 1]; }
    }
  }

  // ----- the calls of the driver -----

  /** Allocation and mmap of pages without SAME_VA. */
  function AfterImport(s: Shadow, m: Mapping): Shadow {
    RecordMmap(RecordAlloc(s, m.gpuVa, false), m.addr, m.length, m.gpuVa)
  }

  /** What one vertex/tiler chain asks the kernel for: a zero buffer, which is never
      mapped, and the pages of two shaders. */
  datatype ChainPages = ChainPages(zeroVa: u64, vertex: Mapping, fragment: Mapping)

  function AfterChain(s: Shadow, c: ChainPages): Shadow {
    AfterImport(AfterImport(RecordAlloc(s, c.zeroVa, false), c.vertex), c.fragment)
  }

  function AfterChains(s: Shadow, cs: seq<ChainPages>): Shadow {
    if cs == [] then s else AfterChain(AfterChains(s, cs[..|cs| - 1]), cs[|cs| - 1])
  }

  predicate FreshChain(live: seq<Mapping>, c: ChainPages) {
    FreshRange(live, c.vertex) && FreshRange([c.vertex] + live, c.fragment)
  }

  /** Each chain's pages are fresh when it is made. */
  predicate FreshChains(s: Shadow, cs: seq<ChainPages>) {
    cs == [] ||
    var before := cs[..|cs| - 1];
    FreshChains(s, before) && FreshChain(AfterChains(s, before).live, cs[|cs| - 1])
  }

  lemma ImportIs(s: Shadow, m: Mapping)
    ensures AfterImport(s, m) == Shadow(s.pending, [m] + s.live)
  {
    OffsetMapping(s, m.gpuVa, m.addr, m.length);
  }

  lemma ChainIs(s: Shadow, c: ChainPages)
    ensures AfterChain(s, c) == Shadow([Allocation(c.zeroVa, false)] + s.pending, [c.fragment] + ([c.vertex] + s.live))
  {
    hide AfterImport;
    ImportIs(RecordAlloc(s, c.zeroVa, false), c.vertex);
    ImportIs(AfterImport(RecordAlloc(s, c.zeroVa, false), c.vertex), c.fragment);
  }

  lemma {:induction false} ChainsMapped(s: Shadow, base: u32, cs: seq<ChainPages>)
    requires PoolMapped(s.live, base) && FreshChains(s, cs)
    ensures PoolMapped(AfterChains(s, cs).live, base)
    ensures forall i | 0 <= i < |cs| :: ShaderMapped(AfterChains(s, cs).live, cs[i].vertex.gpuVa)
  {
    hide PoolMapped, ShaderMapped, FreshRange, AfterChain;
    if cs != [] {
      var before, c := cs[..|cs| - 1], cs[|cs| - 1];
      ChainsMapped(s, base, before);
      var live := AfterChains(s, before).live;
      ChainIs(AfterChains(s, before), c);
      PoolKept(live, base, c.vertex);
      PoolKept([c.vertex] + live, base, c.fragment);
      assert c.vertex.gpuVa + 5 < WORD64 by { LongEnough(live, c.vertex); }
      FreshIsMapped(live, c.vertex);
      ShaderKept([c.vertex] + live, c.vertex.gpuVa, c.fragment);
      forall i | 0 <= i < |cs| ensures ShaderMapped(AfterChains(s, cs).live, cs[i].vertex.gpuVa) {
        if i < |before| {
          assert cs[i] == before[i];
          ShaderKept(live, cs[i].vertex.gpuVa, c.vertex);
          ShaderKept([c.vertex] + live, cs[i].vertex.gpuVa, c.fragment);
        }
      }
    }
  }

  lemma LongEnough(live: seq<Mapping>, m: Mapping)
    requires FreshRange(live, m)
    ensures m.gpuVa + 5 < WORD64
  {
  }

  /** The driver's calls, traced: the pool, then any number of chains.  Whatever was mapped
      before, such as the tracking handle, is elsewhere, and the kernel gives out fresh
      ranges.  The pool and the vertex shader of every chain are found. */
  lemma DriverMapsSuffice(s: Shadow, poolVa: u64, base: u32, cs: seq<ChainPages>)
    requires InSpace(s.live) && 0 < base && base + POOL_SIZE <= SPACE
    requires forall j | 0 <= j < |s.live| :: OffRange(s.live[j], base, POOL_SIZE)
    requires FreshChains(RecordMmap(RecordAlloc(s, poolVa, true), base, POOL_SIZE, poolVa), cs)
    ensures var live := AfterChains(RecordMmap(RecordAlloc(s, poolVa, true), base, POOL_SIZE, poolVa), cs).live;
      PoolMapped(live, base) && forall i | 0 <= i < |cs| :: ShaderMapped(live, cs[i].vertex.gpuVa)
  {
    hide PoolMapped, ShaderMapped, FreshChains, AfterChains;
    SameVaMapping(s, poolVa, base, POOL_SIZE);
    PoolAdded(s.live, base);
    ChainsMapped(RecordMmap(RecordAlloc(s, poolVa, true), base, POOL_SIZE, poolVa), base, cs);
  }
}
