/** Decoding the atoms that the three chain functions submit. */
module AtomTraces {
  import opened Bits
  import opened Memory
  import opened Layouts
  import opened ShadowMap
  import opened Pool
  import opened Atoms
  import opened JobImages
  import opened Synthesiser
  import opened Decoder
  import opened Fetching
  import opened JobTraces
  import opened RoundTrip
  import opened Chains

  lemma HardwareAtoms()
    ensures BitAnd(TILER_REQ, MALI_JD_REQ_SOFT_JOB) == 0
    ensures BitAnd(FRAGMENT_REQ, MALI_JD_REQ_SOFT_JOB) == 0
    ensures BitAnd(REPLAY_REQ, MALI_JD_REQ_SOFT_JOB) != 0
  {
    hide BitAnd;
    Pow2Values();
    AndBit(TILER_REQ, 9);
    AndBit(FRAGMENT_REQ, 9);
    AndBit(REPLAY_REQ, 9);
  }

  // ----- a synthesised chain as a chain of links -----

  /** The three headers of the chain hold their links. */
  ghost predicate Linked(w: World, maps: seq<Mapping>, c: Chain3) {
    && Sane(w, maps) && c.first < c.vertex < c.tiler
    && Link(w, maps, c.first) == c.vertex && Link(w, maps, c.vertex) == c.tiler && Link(w, maps, c.tiler) == 0
  }

  lemma PacketLink(w: World, maps: seq<Mapping>, base: u32, p: u32, h: Header, ws: seq<u32>)
    requires PacketIn(w, maps, base, p, h, ws)
    ensures Sane(w, maps) && Link(w, maps, p) == h.next
  {
    hide Fetch, DecodeHeader, InSpace, PoolMapped, EncodeHeader, LeWords;
    FetchHeader(w, maps, base, p, h, ws);
  }

  lemma ChainLinked(w: World, w': World, maps: seq<Mapping>, base: u32, c: Chain3, s: Call)
    requires ChainIn(w, maps, base, c, s) && |w'.ram| == |w.ram|
    requires SameOutside(w.ram, w'.ram, s.vb + 0x400, s.vb + 0x400 + s.size)
    ensures Linked(w', maps, c)
  {
    hide ChainHeap, PacketIn, SameOutside, EncodeVertexTiler, EncodeSetValue, Present, Matches, PoolMapped, InSpace,
         LeWords;
    FirstIn(w, maps, base, c, s);
    VertexPacketIn(w, maps, base, c, s);
    TilerIn(w, maps, base, c, s);
    assert Matches(c, base, s);
    hide ChainIn;
    TilerTraps(base, c, s);
    var hs, lo, hi := LinkedHeaders(c.vertex, c.tiler), s.vb + 0x400, s.vb + 0x400 + s.size;
    PacketKept(w, w', maps, base, c.first, hs.first, EncodeSetValue(c.value), lo, hi);
    PacketKept(w, w', maps, base, c.vertex, hs.vertex, EncodeVertexTiler(c.vertexJob), lo, hi);
    PacketKept(w, w', maps, base, c.tiler, hs.tiler, EncodeVertexTiler(c.tilerJob), lo, hi);
    PacketLink(w', maps, base, c.first, hs.first, EncodeSetValue(c.value));
    PacketLink(w', maps, base, c.vertex, hs.vertex, EncodeVertexTiler(c.vertexJob));
    PacketLink(w', maps, base, c.tiler, hs.tiler, EncodeVertexTiler(c.tilerJob));
  }

  /** Rising block addresses make a synthesised chain acyclic. */
  lemma SynthesisedAcyclic(w: World, maps: seq<Mapping>, base: u32, c: Chain3, s: Call)
    requires ChainIn(w, maps, base, c, s)
    ensures Sane(w, maps) && Acyclic(LinksIn(w, maps), c.first)
  {
    hide ChainHeap, Present, Matches, PoolMapped, InSpace, Link;
    SameMemory(w.ram, s.vb + 0x400, s.vb + 0x400 + s.size);
    ChainLinked(w, w, maps, base, c, s);
    var f := LinksIn(w, maps);
    NoLinkAtZero(w, maps);
    forall n: nat ensures f(Orbit(f, c.first, n)) == 0 || Orbit(f, c.first, n) < f(Orbit(f, c.first, n)) {
      OrbitOfThree(f, c.first, c.vertex, c.tiler, n);
    }
    IncreasingIsAcyclic(f, c.first);
  }

  lemma OrbitOfThree(f: Links, p: u64, q: u64, r: u64, n: nat)
    requires f(0) == 0 && f(p) == q && f(q) == r && f(r) == 0
    ensures Orbit(f, p, n) == if n == 0 then p else if n == 1 then q else if n == 2 then r else 0
  {
    OrbitNext(f, p, 0);
    OrbitNext(f, p, 1);
    OrbitNext(f, p, 2);
    if n > 3 { StaysAtZero(f, p, 3, n); }
  }

  // ----- the fragment chain -----

  function FragmentEvents(f: Fragment, fbd: u32, tag: u32, m: Mfbd): seq<Event> {
    [FragmentJob(f, TileCoordX(f.minTileCoord), TileCoordY(f.minTileCoord),
       TileCoordX(f.maxTileCoord), TileCoordY(f.maxTileCoord)),
     FbdAt(fbd, tag, m)]
  }

  lemma FragmentIs(w: World, maps: seq<Mapping>, h: nat, payload: u64, f: Fragment, fbd: u32, tag: u32, m: Mfbd,
                   jitter: Jitter)
    requires Sane(w, maps) && h + HEADER_SIZE <= SPACE
    requires DecodeHeader(w.ram[h..h + HEADER_SIZE]).jobType == JOB_TYPE_FRAGMENT
    requires ReadsAs(Peek(w, maps, payload, 16), EncodeFragment(f))
    requires TraceFbd(w, maps, Lo(f.fbd)) == Traced([FbdAt(fbd, tag, m)], w, true)
    ensures TracePayload(w, maps, h, payload, jitter) == Traced(FragmentEvents(f, fbd, tag, m), w, true)
  {
    hide InSpace, DecodeHeader, Peek, GetWords, EncodeFragment, DecodeFragment, TraceFbd, TileCoordX, TileCoordY, Lo;
    SmallRecordsRoundTrip(SetValue(0, 0), f, AttributeBuffer(0, 0, 0), Replay(0, 0, 0, 0, 0, 0, 0, 0, 0, 0));
    assert FragmentEvents(f, fbd, tag, m)
        == [FragmentEvents(f, fbd, tag, m)[0]] + [FbdAt(fbd, tag, m)];
  }

  lemma TraceFragmentJob(w: World, maps: seq<Mapping>, base: u32, p: u32, h: Header, f: Fragment, fbd: u32,
                         tag: u32, m: Mfbd, jitter: Jitter)
    requires PacketIn(w, maps, base, p, h, EncodeFragment(f)) && h.jobType == JOB_TYPE_FRAGMENT
    requires m.Sized() && WordsIn(w, maps, base, fbd, EncodeMfbd(m)) && fbd % 0x400 == 0 && tag < 0x40
    requires Lo(f.fbd) == fbd + tag
    ensures Sane(w, maps)
         && TraceJob(w, maps, p, jitter) == (Traced([Job(p, h)] + FragmentEvents(f, fbd, tag, m), w, true), h.next)
  {
    hide PacketIn, WordsIn, Sane, EncodeFragment, EncodeMfbd, TraceFbd, TracePayload, TraceJob, DecodeHeader, Fetch,
         Peek, FragmentEvents, Lo;
    var ws := EncodeFragment(f);
    PacketEnd(w, maps, base, p, h, ws);
    FetchHeader(w, maps, base, p, h, ws);
    FetchPayload(w, maps, base, p, h, ws, p + HEADER_SIZE, 16);
    TraceFbdIs(w, maps, base, fbd, tag, m);
    FragmentIs(w, maps, p, p + HEADER_SIZE, f, fbd, tag, m, jitter);
    JobIs(w, maps, p, h, jitter, Traced(FragmentEvents(f, fbd, tag, m), w, true));
  }

  /** The record the fragment job was given. */
  function FragmentOf(fbd: u32): Fragment
    requires fbd + MFBD + FBD_FRAGMENT < WORD32
  {
    Fragment(MakeTileCoord(0, 0, 0), MakeTileCoord(29, 45, 0), fbd + MFBD + FBD_FRAGMENT)
  }

  lemma FragmentCoords(fbd: u32)
    requires fbd + MFBD + FBD_FRAGMENT < WORD32
    ensures var f := FragmentOf(fbd);
      && Lo(f.fbd) == fbd + 3
      && TileCoordX(f.minTileCoord) == 0 && TileCoordY(f.minTileCoord) == 0
      && TileCoordX(f.maxTileCoord) == 29 && TileCoordY(f.maxTileCoord) == 45
  {
    hide TileCoordX, TileCoordY, MakeTileCoord;
    AndNothing(X_COORDINATE_MASK);
    AndNothing(Y_COORDINATE_MASK);
    TileCoordRoundTrip(0, 0, 0);
    TileCoordRoundTrip(29, 45, 0);
  }

  lemma AndNothing(m: nat)
    ensures BitAnd(0, m) == 0
  {
  }

  /** The blocks of a fragment chain at `p`. */
  ghost predicate FragmentBlocks(h: Heap, p: u32, heapFree: u64, scratchpad: u64) {
    && p + 0x400 + 3 < WORD32 && p % 0x400 == 0 && p in h && p + 0x400 in h
    && h[p] == EncodeHeader(FragmentHeader()) + LeWords(EncodeFragment(FragmentOf(p + 0x400)))
    && h[p + 0x400] == LeWords(EncodeMfbd(MfbdImage(false, heapFree, scratchpad)))
  }

  /** Decoding a fragment chain visits its one job, prints the coordinates it was
      made with and its framebuffer descriptor, changes nothing, and ends. */
  lemma FragmentThenDecode(w: World, maps: seq<Mapping>, base: u32, h: Heap, p: u32, heapFree: u64, scratchpad: u64,
                           jitter: Jitter, steps: nat)
    requires Sane(w, maps) && PoolMapped(maps, base) && steps >= 1
    requires FragmentBlocks(h, p, heapFree, scratchpad) && base < p && p + 0x400 + 280 <= base + POOL_SIZE
    requires Holds(w.ram, h, base, base + POOL_SIZE)
    ensures var f := FragmentOf(p + 0x400);
      TraceAtom(w, maps, FRAGMENT_REQ, p, jitter, steps)
      == Walked([Job(p, FragmentHeader()), FragmentJob(f, 0, 0, 29, 45),
                 FbdAt(p + 0x400, 3, MfbdImage(false, heapFree, scratchpad))], [p], w, Ended)
  {
    hide InSpace, PoolMapped, At, LeWords, EncodeHeader, EncodeFragment, EncodeMfbd, MfbdImage, BitAnd, TraceJob,
         FragmentOf, TileCoordX, TileCoordY, Lo;
    var f, m := FragmentOf(p + 0x400), MfbdImage(false, heapFree, scratchpad);
    assert PacketIn(w, maps, base, p, FragmentHeader(), EncodeFragment(f))
        && WordsIn(w, maps, base, p + 0x400, EncodeMfbd(m));
    hide Holds, PacketIn, WordsIn, FragmentBlocks;
    FragmentCoords(p + 0x400);
    TraceFragmentJob(w, maps, base, p, FragmentHeader(), f, p + 0x400, 3, m, jitter);
    HardwareAtoms();
    WalkEnds(w, maps, p, jitter, steps,
             Traced([Job(p, FragmentHeader())] + FragmentEvents(f, p + 0x400, 3, m), w, true));
  }

  // ----- the replay atom -----

  /** Decoding a replay atom gives the record the synthesiser filled in. */
  lemma ReplayThenDecode(w: World, maps: seq<Mapping>, base: u32, h: Heap, p: u32, tilerJc: u32, fragmentJc: u32,
                         heapFree: u64, jitter: Jitter, steps: nat)
    requires Sane(w, maps) && PoolMapped(maps, base) && Holds(w.ram, h, base, base + POOL_SIZE)
    requires p in h && h[p] == LeWords(EncodeReplay(ReplayOf(tilerJc, fragmentJc, heapFree)))
    requires base < p && p + 48 <= base + POOL_SIZE
    ensures TraceAtom(w, maps, REPLAY_REQ, p, jitter, steps)
         == Walked([ReplayAtom(ReplayOf(tilerJc, fragmentJc, heapFree))], [], w, Ended)
  {
    hide InSpace, PoolMapped, At, LeWords, EncodeReplay, DecodeReplay, BitAnd, Peek, GetWords;
    var r := ReplayOf(tilerJc, fragmentJc, heapFree);
    assert WordsIn(w, maps, base, p, EncodeReplay(r));
    hide Holds, WordsIn, ReplayOf;
    PeekAll(w, maps, base, p, EncodeReplay(r), 48);
    SmallRecordsRoundTrip(SetValue(0, 0), Fragment(0, 0, 0), AttributeBuffer(0, 0, 0), r);
    HardwareAtoms();
    SoftJobsReplay(REPLAY_REQ);
  }

  // ----- the vertex/tiler atom -----

  /** A pool with the chain's blocks holds them. */
  lemma HeldIsPresent(m: Bytes, h: Heap, c: Chain3, s: Call, lo: nat, hi: nat)
    requires hi <= |m| && Holds(m, h, lo, hi) && WellPlaced(c)
    requires SubHeap(ChainHeap(c, LinkedHeaders(c.vertex, c.tiler)), h)
    ensures Present(m, c, s)
  {
    hide At, ChainHeap;
  }

  lemma HeldNow(m: Bytes, cbma: Cbma, c: Chain3, s: Call)
    requires cbma.Valid() && m == cbma.ram[..] && WellPlaced(c)
    requires cbma.blocks == ChainHeap(c, LinkedHeaders(c.vertex, c.tiler))
    ensures Present(m, c, s)
  {
    hide ChainHeap, Laid, At;
    HeldIsPresent(m, cbma.blocks, c, s, cbma.base, cbma.base + POOL_SIZE);
  }

  lemma MapsInSpace(maps: seq<Mapping>, base: u32)
    requires PoolMapped(maps, base)
    ensures InSpace(maps)
  {
  }

  /** `job_chain_vertex_tiler` run on the pool; decoding the atom it submitted then
      gives the chain it was asked for. */
  method VertexTilerThenDecode(synth: Synth, vertices: Bytes, mode: u32, vertexShader: Bytes, fragmentShader: Bytes,
                               scratchpad: u64, heapFree: u64, zeroBuffer: u32, vertexPages: Pages,
                               fragmentPages: Pages, vertexOrder: seq<nat>, tilerOrder: seq<nat>,
                               ghost maps: seq<Mapping>, ghost jitter: Jitter, ghost draws: nat, ghost steps: nat)
    returns (tiler: u32, ghost c: Chain3, ghost s: Call, ghost w: World)
    requires synth.Valid() && |vertices| < WORD32 && IsOrder(vertexOrder) && IsOrder(tilerOrder)
    requires MappedOutside(synth.cbma.base, vertexPages.cpu, |vertexShader|)
    requires MappedOutside(synth.cbma.base, fragmentPages.cpu, |fragmentShader|)
    requires ChainEnd(synth.cbma.cbmaBottom, |vertices|) <= synth.cbma.base + POOL_SIZE
    requires PoolMapped(maps, synth.cbma.base) && ShaderMapped(maps, vertexPages.gpu) && steps >= 3
    modifies synth`atomCount, synth.cbma`cbmaBottom, synth.cbma`blocks, synth.cbma`outside, synth.cbma.ram
    modifies synth.queue`atomQueueSize, synth.queue`batches, synth.queue.atomQueue
    ensures synth.Valid() && w == World(synth.cbma.ram[..], draws) && c.tiler == tiler
    ensures s == Call(Next(old(synth.cbma.cbmaBottom)), |vertices|, mode, scratchpad,
                      heapFree, zeroBuffer, vertexPages.gpu)
    ensures synth.queue.State()
         == Submit(old(synth.queue.State()), AtomOf(VertexTilerChain(c.first), old(synth.atomCount)))
    ensures Matches(c, synth.cbma.base, s) && Present(w.ram, c, s)
    ensures Sane(w, maps) && Points(c, s) && s.vb + 0x400 + Span(12, s.size / 12) <= |w.ram|
    ensures TraceAtom(w, maps, TILER_REQ, c.first, jitter, steps) == ChainTrace(w, c, s, jitter)
    ensures VerticesDone(w, ChainTrace(w, c, s, jitter).world, c.vertexJob, s.vb, s.size, jitter)
  {
    hide Matches, Present, VerticesDone, Laid, Holds, SameOutside, ChainHeap, ChainOf, MappedOutside, InSpace,
         PoolMapped, ShaderMapped, ChainTrace, Walk, IsOrder, Points, Span, SubHeap, BitAnd, Next, WellPlaced;
    ghost var bottom, h0 := synth.cbma.cbmaBottom, synth.cbma.blocks;
    tiler, c := synth.JobChainVertexTiler(vertices, mode, vertexShader, fragmentShader, scratchpad, heapFree,
                                          zeroBuffer, vertexPages, fragmentPages, vertexOrder, tilerOrder);
    w := World(synth.cbma.ram[..], draws);
    s := Call(Next(bottom), |vertices|, mode, scratchpad, heapFree, zeroBuffer, vertexPages.gpu);
    MapsInSpace(maps, synth.cbma.base);
    assert ResultOf(c, s, vertices, bottom, h0);
    HeldNow(w.ram, synth.cbma, c, s);
    ResultMatches(c, synth.cbma.base, s, vertices, bottom, h0);
    SynthesiseThenDecode(w, maps, synth.cbma.base, c, s, vertices, bottom, h0, jitter, steps);
    HardwareAtoms();
  }
}
