/** When `fetch_mapped_gpu` answers, and whether the answer is right. */
module Translation {
  import opened Options
  import opened Bits
  import opened ShadowMap

  /** The mapping contains the byte range, in unbounded arithmetic. */
  predicate Contains(m: Mapping, gpuAddr: u64, sz: nat) {
    m.gpuVa <= gpuAddr && gpuAddr + sz <= m.gpuVa + m.length
  }

  /** Soundness: a non-NULL answer is base plus offset of a live mapping, and the
      whole range lies in it exactly when offset plus size does not wrap.  With a
      32-bit `size_t` it never does. */
  lemma FetchSound(live: seq<Mapping>, gpuAddr: u64, sz: u64, p: u64)
    requires Fetch(live, gpuAddr, sz) == Some(p)
    ensures exists m | m in live ::
      && m.gpuVa <= gpuAddr <= m.gpuVa + m.length
      && p == (m.addr + (gpuAddr - m.gpuVa)) % WORD64
      && (Contains(m, gpuAddr, sz) <==> gpuAddr - m.gpuVa + sz < WORD64)
      && (m.length < 0x1_0000_0000 && sz < 0x1_0000_0000 ==> Contains(m, gpuAddr, sz))
  {
    var m := live[First(live, InGpuRange(gpuAddr))];
    assert m in live && InGpuRange(gpuAddr)(m);
    WrapOnce(m.gpuVa, m.length);
    WrapOnce(gpuAddr - m.gpuVa, sz);
  }

  lemma WrapOnce(a: u64, b: u64)
    ensures (a + b) % WORD64 == if a + b < WORD64 then a + b else a + b - WORD64
  {
  }

  /** A size large enough to wrap gets past the bounds check. */
  lemma FetchOverflows()
    ensures Fetch([Mapping(0x1000, 0x5000, 0x9000)], 0x9001, WORD64 - 1) == Some(0x5001)
    ensures !Contains(Mapping(0x1000, 0x5000, 0x9000), 0x9001, WORD64 - 1)
  {
    var live := [Mapping(0x1000, 0x5000, 0x9000)];
    FirstIs(live, InGpuRange(0x9001), 0);
  }

  predicate EndsAt(m: Mapping, gpuAddr: u64) {
    m.gpuVa + m.length == gpuAddr
  }

  /** `live[k]` is the only mapping that holds the byte at `gpuAddr`. */
  predicate OnlyHolder(live: seq<Mapping>, k: nat, gpuAddr: u64) {
    && k < |live| && Contains(live[k], gpuAddr, 1)
    && forall j | 0 <= j < |live| && j != k :: !Contains(live[j], gpuAddr, 1)
  }

  /** Completeness: a nonempty range inside the one mapping that holds its start is
      translated exactly when no newer mapping ends where the range begins.  The
      inclusive upper bound of the lookup makes such a neighbour hide it. */
  lemma FetchComplete(live: seq<Mapping>, k: nat, gpuAddr: u64, sz: u64)
    requires OnlyHolder(live, k, gpuAddr) && gpuAddr != 0
    requires sz > 0 && Contains(live[k], gpuAddr, sz) && live[k].gpuVa + live[k].length < WORD64
    ensures Fetch(live, gpuAddr, sz)
         == if exists j | 0 <= j < k :: EndsAt(live[j], gpuAddr) then None
            else Some((live[k].addr + (gpuAddr - live[k].gpuVa)) % WORD64)
  {
    hide First;
    var p := InGpuRange(gpuAddr);
    forall j | 0 <= j < k ensures p(live[j]) <==> EndsAt(live[j], gpuAddr) {
      assert !Contains(live[j], gpuAddr, 1);
      WrapOnce(live[j].gpuVa, live[j].length);
    }
    WrapOnce(live[k].gpuVa, live[k].length);
    assert p(live[k]);
    if j :| 0 <= j < k && EndsAt(live[j], gpuAddr) {
      var f := First(live, p);
      assert f <= j && EndsAt(live[f], gpuAddr);
      WrapOnce(live[f].length, sz);
    } else {
      FirstIs(live, p, k);
      WrapOnce(gpuAddr - live[k].gpuVa, sz);
    }
  }

  /** Two adjacent pages, the lower one mapped last: the first byte of the upper
      one is not found, although exactly one mapping holds it. */
  lemma NeighbourHides()
    ensures var live := [Mapping(0x1000, 0x5000, 0x8000), Mapping(0x1000, 0x7000, 0x9000)];
      OnlyHolder(live, 1, 0x9000) && Fetch(live, 0x9000, 4) == None
  {
    var live := [Mapping(0x1000, 0x5000, 0x8000), Mapping(0x1000, 0x7000, 0x9000)];
    assert EndsAt(live[0], 0x9000);
    FetchComplete(live, 1, 0x9000, 4);
  }

  /** A gap of at least one byte on each side of mapping `k`. */
  predicate Isolated(live: seq<Mapping>, k: nat) {
    && k < |live| && live[k].gpuVa + live[k].length < WORD64
    && forall j | 0 <= j < |live| && j != k ::
         live[j].gpuVa + live[j].length < live[k].gpuVa || live[k].gpuVa + live[k].length < live[j].gpuVa
  }

  /** Every range inside an isolated mapping is translated, wherever the mapping
      stands in the list. */
  lemma FetchInside(live: seq<Mapping>, k: nat, gpuAddr: u64, sz: u64)
    requires Isolated(live, k) && gpuAddr != 0 && Contains(live[k], gpuAddr, sz)
    ensures Fetch(live, gpuAddr, sz) == Some((live[k].addr + (gpuAddr - live[k].gpuVa)) % WORD64)
  {
    var p := InGpuRange(gpuAddr);
    forall j | 0 <= j < k ensures !p(live[j]) { WrapOnce(live[j].gpuVa, live[j].length); }
    WrapOnce(live[k].gpuVa, live[k].length);
    FirstIs(live, p, k);
    WrapOnce(gpuAddr - live[k].gpuVa, sz);
  }

  /** No other mapping overlaps mapping `k`. */
  predicate Apart(live: seq<Mapping>, k: nat) {
    && k < |live| && live[k].gpuVa + live[k].length < WORD64
    && forall j | 0 <= j < |live| && j != k ::
         live[j].gpuVa + live[j].length <= live[k].gpuVa || live[k].gpuVa + live[k].length <= live[j].gpuVa
  }

  /** Without overlap every range that starts inside a mapping is translated, and one
      that starts with it is if no newer mapping ends there. */
  lemma FetchApart(live: seq<Mapping>, k: nat, gpuAddr: u64, sz: u64)
    requires Apart(live, k) && gpuAddr != 0 && Contains(live[k], gpuAddr, sz)
    requires gpuAddr < live[k].gpuVa + live[k].length
    requires gpuAddr == live[k].gpuVa ==> forall j | 0 <= j < k :: !EndsAt(live[j], gpuAddr)
    ensures Fetch(live, gpuAddr, sz) == Some((live[k].addr + (gpuAddr - live[k].gpuVa)) % WORD64)
  {
    var p := InGpuRange(gpuAddr);
    forall j | 0 <= j < k ensures !p(live[j]) { WrapOnce(live[j].gpuVa, live[j].length); }
    WrapOnce(live[k].gpuVa, live[k].length);
    FirstIs(live, p, k);
    WrapOnce(gpuAddr - live[k].gpuVa, sz);
  }

  /** MEM_ALLOC with SAME_VA followed by the mmap at its address records a mapping
      that translates addresses to themselves. */
  lemma SameVaMapping(s: Shadow, gpuVa: u64, ret: u64, length: u64)
    ensures RecordMmap(RecordAlloc(s, gpuVa, true), ret, length, gpuVa)
         == Shadow(s.pending, [Mapping(length, ret, ret)] + s.live)
  {
    var p := RecordAlloc(s, gpuVa, true).pending;
    FirstIs(p, HasVa(gpuVa), 0);
    assert Drop(p, 0) == s.pending;
  }

  /** Without SAME_VA, and also after MEM_COMMIT, the GPU side keeps the offset. */
  lemma OffsetMapping(s: Shadow, gpuVa: u64, ret: u64, length: u64)
    ensures RecordMmap(RecordAlloc(s, gpuVa, false), ret, length, gpuVa)
         == Shadow(s.pending, [Mapping(length, ret, gpuVa)] + s.live)
  {
    var p := RecordAlloc(s, gpuVa, false).pending;
    FirstIs(p, HasVa(gpuVa), 0);
    assert Drop(p, 0) == s.pending;
  }

  /** An mmap at whose offset no allocation is pending is recorded without a GPU address,
      so that it answers no lookup but those below its length. */
  lemma UnmatchedMapping(s: Shadow, ret: u64, length: u64, offset: u64, gpuAddr: u64)
    requires forall a | a in s.pending :: a.gpuVa != offset
    ensures RecordMmap(s, ret, length, offset) == Shadow(s.pending, [Mapping(length, ret, 0)] + s.live)
    ensures gpuAddr > length ==> First([Mapping(length, ret, 0)] + s.live, InGpuRange(gpuAddr)) > 0
  {
    FirstIs(s.pending, HasVa(offset), |s.pending|);
    RangeTests(Mapping(length, ret, 0), gpuAddr);
  }
}
