/** A process that synthesises chains and submits them, with the tracer in between
    decoding every JOB_SUBMIT: the two take turns on the same memory. */
module Sessions {
  import opened Bits
  import opened Memory
  import opened Layouts
  import opened ShadowMap
  import opened Pool
  import opened Atoms
  import opened JobImages
  import opened Synthesiser
  import opened Decoder
  import opened Walker
  import opened Fetching
  import opened JobTraces
  import opened RoundTrip
  import opened DriverMaps
  import opened Translation
  import opened Batches

  // ----- the batches of the queue -----

  /** Every atom submitted is that of the piece made with it. */
  ghost predicate AtomsFor(xs: seq<Piece>, atoms: seq<Atom>) {
    |xs| == |atoms| && forall i | 0 <= i < |xs| :: AtomFor(xs[i], atoms[i])
  }

  function Consecutive(lo: nat, n: nat): (ks: seq<nat>)
    ensures |ks| == n && forall j | 0 <= j < n :: ks[j] == lo + j
  {
    seq(n, j requires 0 <= j < n => lo + j)
  }

  /** A batch is a stretch of the submissions. */
  lemma {:induction false} BatchIsStretch(batches: seq<seq<Atom>>, j: nat)
    requires j < |batches|
    ensures var lo := |Concat(batches[..j])|;
      lo + |batches[j]| <= |Concat(batches)| && Concat(batches)[lo..lo + |batches[j]|] == batches[j]
  {
    var last := |batches| - 1;
    if j < last {
      BatchIsStretch(batches[..last], j);
      assert batches[..last][..j] == batches[..j] && batches[..last][j] == batches[j];
    }
  }

  lemma StretchFor(xs: seq<Piece>, q: Queue, atoms: seq<Atom>, j: nat)
    requires AtomsFor(xs, atoms) && Contents(q) == atoms && j < |q.batches|
    ensures BatchFor(xs, Consecutive(|Concat(q.batches[..j])|, |q.batches[j]|), q.batches[j])
  {
    hide AtomFor, Concat;
    BatchIsStretch(q.batches, j);
    var lo, b := |Concat(q.batches[..j])|, q.batches[j];
    forall i | 0 <= i < |b| ensures lo + i < |xs| && AtomFor(xs[lo + i], b[i]) {
      assert b[i] == Concat(q.batches)[lo..lo + |b|][i] == atoms[lo + i];
    }
  }

  lemma AtomsMore(xs: seq<Piece>, atoms: seq<Atom>, x: Piece, a: Atom)
    requires AtomsFor(xs, atoms) && AtomFor(x, a)
    ensures AtomsFor(xs + [x], atoms + [a])
  {
    hide AtomFor;
  }

  lemma RecordedMore(maps: seq<Mapping>, xs: seq<Piece>, x: Piece)
    requires AllRecorded(maps, xs) && Recorded(maps, x)
    ensures AllRecorded(maps, xs + [x])
  {
    hide Recorded;
  }

  lemma PoolHolds(w: World, cbma: Cbma, xs: seq<Piece>)
    requires cbma.Valid() && w.ram == cbma.ram[..] && Pieces(xs, cbma.blocks, cbma.base, cbma.cbmaBottom)
    ensures Holding(w, xs, cbma.blocks, cbma.base, cbma.cbmaBottom)
  {
    hide Laid, Holds, Pieces, SameOutside;
  }

  /** What a traced batch leaves is a pool the allocator can go on with. */
  lemma Adoptable(w: World, w': World, h: Heap, h': Heap, xs: seq<Piece>, base: u32, bottom: nat, outside: Bytes)
    requires Disturbing(w, w', h, h', xs, base) && Holding(w', xs, h', base, bottom)
    requires |outside| == |w.ram| == SPACE && SameOutside(outside, w.ram, base, base + POOL_SIZE)
    ensures |w'.ram| == SPACE && base + POOL_SIZE <= SPACE
    ensures Laid(h', base, bottom) && Holds(w'.ram, h', base, base + POOL_SIZE) && Pieces(xs, h', base, bottom)
    ensures SameOutside(outside, w'.ram, base, base + POOL_SIZE) && SameButVertices(h, h', xs)
  {
    hide Laid, Holds, Pieces, SameOutside, SameButVertices;
    OutsideTwice(outside, w.ram, w'.ram, base, base + POOL_SIZE);
  }

  // ----- the session -----

  class Session {
    const synth: Synth
    const walker: Walker
    /** How many batches have been decoded. */
    var traced: nat
    ghost var pieces: seq<Piece>
    ghost var submitted: seq<Atom>
    /** The calls that submitted them. */
    ghost var chains: seq<Chain>

    ghost predicate Valid()
      reads this, synth, synth.cbma, synth.cbma.ram, synth.queue, synth.queue.atomQueue
      reads walker, walker.ram, walker.tracer, walker.tracer.repr
    {
      && synth.Valid() && walker.Valid() && walker.ram == synth.cbma.ram
      && PoolMapped(walker.Maps(), synth.cbma.base) && AllRecorded(walker.Maps(), pieces)
      && Pieces(pieces, synth.cbma.blocks, synth.cbma.base, synth.cbma.cbmaBottom)
      && WellBatched(synth.queue.State()) && Contents(synth.queue.State()) == submitted && AtomsFor(pieces, submitted)
      && submitted == AtomsOf(chains) && synth.atomCount == |chains|
      && traced <= |synth.queue.batches| && walker.tracer.maliFd != 0
    }

    constructor (synth: Synth, walker: Walker)
      requires synth.Valid() && walker.Valid() && walker.ram == synth.cbma.ram
      requires PoolMapped(walker.Maps(), synth.cbma.base) && synth.queue.State() == Queue([], [])
      requires walker.tracer.maliFd != 0 && synth.atomCount == 0
      ensures Valid() && this.synth == synth && this.walker == walker
      ensures pieces == [] && submitted == [] && chains == [] && traced == 0
    {
      this.synth, this.walker := synth, walker;
      traced, pieces, submitted, chains := 0, [], [], [];
    }

    /** Of what has been submitted, up to 255 atoms that start with a vertex/tiler chain,
        every DATA dependency names the atom just before, and no other could be meant. */
    lemma DependenciesMet()
      requires Valid() && |chains| <= 255 && (chains == [] || chains[0].VertexTilerChain?)
      ensures DependsOnPrevious(submitted) && NamesOnlyPrevious(submitted)
    {
      hide PoolMapped, InSpace, AllRecorded, Pieces, Laid, Holds, SameOutside, AtomsFor, Contents, WellBatched;
      DependenciesUnambiguous(chains);
    }

    /** The decoder's turn: the next batch that has been sent, in whatever state earlier
        turns have left the vertices.  Afterwards the driver can go on. */
    method TraceNext() returns (ok: bool, ghost ks: seq<nat>)
      requires Valid() && traced < |synth.queue.batches|
      modifies this`traced, walker`log, walker`draws, synth.cbma.ram, synth.cbma`blocks
      ensures Valid() && ok && traced == old(traced) + 1 && pieces == old(pieces)
      ensures BatchFor(pieces, ks, synth.queue.batches[old(traced)])
      ensures |old(walker.Now()).ram| == SPACE && forall j | 0 <= j < |ks| :: Fits(pieces[ks[j]])
      ensures var r := BatchTrace(old(walker.Now()), pieces, ks, walker.jitter);
        walker.log == old(walker.log) + r.events && walker.Now() == r.world
      ensures SameButVertices(old(synth.cbma.blocks), synth.cbma.blocks, pieces)
    {
      hide PoolMapped, InSpace, AllRecorded, Pieces, Laid, Holds, SameOutside, AtomsFor, BatchFor, Contents, Concat,
           Fits, BatchTrace, TraceBatch, SameButVertices, Holding, Disturbing, WellBatched;
      ghost var q, w, h := synth.queue.State(), walker.Now(), synth.cbma.blocks;
      ghost var base, bottom := synth.cbma.base, synth.cbma.cbmaBottom;
      var atoms := synth.queue.batches[traced];
      StretchFor(pieces, q, submitted, traced);
      ks := Consecutive(|Concat(q.batches[..traced])|, |atoms|);
      PoolHolds(w, synth.cbma, pieces);
      ghost var h' := BatchTraced(w, walker.Maps(), base, bottom, h, pieces, ks, atoms, walker.jitter, 3);
      ok := walker.WalkBatch(atoms, 3);
      Adoptable(w, walker.Now(), h, h', pieces, base, bottom, synth.cbma.outside);
      synth.cbma.Adopt(h');
      traced := traced + 1;
    }

    /** MEM_ALLOC by the driver, seen by the tracer. */
    method AllocPages(gpuVa: u64)
      requires Valid()
      modifies walker.tracer`lists, walker.tracer`repr, walker.tracer.repr
      ensures Valid() && walker.Maps() == old(walker.Maps()) && fresh(walker.tracer.repr - old(walker.tracer.repr))
    {
      hide PoolMapped, InSpace, AllRecorded, Pieces, Laid, Holds, SameOutside, AtomsFor, Contents, WellBatched;
      walker.tracer.PostMemAlloc(gpuVa, false);
    }

    /** Allocation and mmap of pages without SAME_VA, seen by the tracer: everything that
        was found before is found still, and the pages are. */
    method ImportPages(gpu: u64, cpu: u32, length: u64)
      requires Valid() && FreshRange(walker.Maps(), Mapping(length, cpu, gpu))
      modifies walker.tracer`lists, walker.tracer`repr, walker.tracer.repr
      ensures Valid() && walker.Maps() == [Mapping(length, cpu, gpu)] + old(walker.Maps())
      ensures ShaderMapped(walker.Maps(), gpu) && fresh(walker.tracer.repr - old(walker.tracer.repr))
    {
      hide PoolMapped, InSpace, AllRecorded, Pieces, Laid, Holds, SameOutside, AtomsFor, Contents, WellBatched,
           ShaderMapped, FreshRange, RecordMmap, RecordAlloc;
      ghost var live, m, s := walker.Maps(), Mapping(length, cpu, gpu), walker.tracer.State();
      walker.tracer.PostMemAlloc(gpu, false);
      walker.tracer.MmapWrap(cpu, length, walker.tracer.maliFd, gpu);
      OffsetMapping(s, gpu, cpu, length);
      FreshSpace(live, m);
      InSpaceMore(live, m);
      PoolKept(live, synth.cbma.base, m);
      RecordedKept(live, m, pieces);
      FreshIsMapped(live, m);
    }

    /** `flush_job_queue`: what is queued is sent, and waits to be decoded. */
    method Flush()
      requires Valid()
      modifies synth.queue`atomQueueSize, synth.queue`batches
      ensures Valid() && synth.queue.State() == Atoms.Flush(old(synth.queue.State()))
    {
      hide PoolMapped, InSpace, AllRecorded, Pieces, Laid, Holds, SameOutside, AtomsFor, Concat;
      ghost var q := synth.queue.State();
      FlushKeeps(q);
      synth.queue.FlushJobQueue();
    }

    /** `job_chain_vertex_tiler`, at any time: before, between and after decodings.  The
        zero buffer and the pages of both shaders are allocated and mapped by the call. */
    method VertexTiler(vertices: Bytes, mode: u32, vertexShader: Bytes, fragmentShader: Bytes, scratchpad: u64,
                       heapFree: u64, zeroVa: u64, vertexPages: Pages, fragmentPages: Pages,
                       vertexOrder: seq<nat>, tilerOrder: seq<nat>) returns (tiler: u32, ghost x: Piece)
      requires Valid() && |vertices| < WORD32 && IsOrder(vertexOrder) && IsOrder(tilerOrder)
      requires |vertexShader| < WORD32 && |fragmentShader| < WORD32
      requires ChainEnd(synth.cbma.cbmaBottom, |vertices|) <= synth.cbma.base + POOL_SIZE
      requires Granted(walker.Maps(), synth.cbma.base, vertexPages, |vertexShader|, fragmentPages, |fragmentShader|)
      modifies this`pieces, this`submitted, this`chains, walker.tracer`lists, walker.tracer`repr, walker.tracer.repr
      modifies synth`atomCount, synth.cbma`cbmaBottom, synth.cbma`blocks, synth.cbma`outside, synth.cbma.ram
      modifies synth.queue`atomQueueSize, synth.queue`batches, synth.queue.atomQueue
      ensures Valid() && pieces == old(pieces) + [x]
      ensures walker.Maps() == [PagesOf(fragmentPages, |fragmentShader|)]
        + ([PagesOf(vertexPages, |vertexShader|)] + old(walker.Maps()))
      ensures PieceFor(x, tiler, vertices, mode, scratchpad, heapFree, Lo(zeroVa), vertexPages.gpu,
                       old(synth.cbma.cbmaBottom), old(synth.cbma.blocks))
      ensures x.VertexTilerPiece? && chains == old(chains) + [VertexTilerChain(x.c.first)]
    {
      hide Valid, MappedOutside, FreshRange, IsOrder, PieceFor, Next, ChainEnd, ShaderMapped, PagesLength;
      AllocPages(zeroVa);
      ImportPages(vertexPages.gpu, vertexPages.cpu, PagesLength(|vertexShader|));
      ghost var live := walker.Maps();
      ImportPages(fragmentPages.gpu, fragmentPages.cpu, PagesLength(|fragmentShader|));
      ShaderKept(live, vertexPages.gpu, PagesOf(fragmentPages, |fragmentShader|));
      tiler, x := MakeChain(vertices, mode, vertexShader, fragmentShader, scratchpad, heapFree, Lo(zeroVa),
                            vertexPages, fragmentPages, vertexOrder, tilerOrder);
    }

    /** The chain's part of `job_chain_vertex_tiler`, its shaders having been recorded. */
    method MakeChain(vertices: Bytes, mode: u32, vertexShader: Bytes, fragmentShader: Bytes, scratchpad: u64,
                     heapFree: u64, zeroBuffer: u32, vertexPages: Pages, fragmentPages: Pages,
                     vertexOrder: seq<nat>, tilerOrder: seq<nat>) returns (tiler: u32, ghost x: Piece)
      requires Valid() && |vertices| < WORD32 && IsOrder(vertexOrder) && IsOrder(tilerOrder)
      requires MappedOutside(synth.cbma.base, vertexPages.cpu, |vertexShader|)
      requires MappedOutside(synth.cbma.base, fragmentPages.cpu, |fragmentShader|)
      requires ChainEnd(synth.cbma.cbmaBottom, |vertices|) <= synth.cbma.base + POOL_SIZE
      requires ShaderMapped(walker.Maps(), vertexPages.gpu)
      modifies this`pieces, this`submitted, this`chains
      modifies synth`atomCount, synth.cbma`cbmaBottom, synth.cbma`blocks, synth.cbma`outside, synth.cbma.ram
      modifies synth.queue`atomQueueSize, synth.queue`batches, synth.queue.atomQueue
      ensures Valid() && pieces == old(pieces) + [x]
      ensures PieceFor(x, tiler, vertices, mode, scratchpad, heapFree, zeroBuffer, vertexPages.gpu,
                       old(synth.cbma.cbmaBottom), old(synth.cbma.blocks))
      ensures x.VertexTilerPiece? && chains == old(chains) + [VertexTilerChain(x.c.first)]
    {
      hide PoolMapped, InSpace, AllRecorded, Pieces, Laid, Holds, SameOutside, AtomsFor, Contents, ChainHeap,
           ChainOf, MappedOutside, ShaderMapped, IsOrder, SubHeap, PieceIn, Next, WellPlaced, Submit, WellBatched;
      ghost var bottom, h0, base, n := synth.cbma.cbmaBottom, synth.cbma.blocks, synth.cbma.base, synth.atomCount;
      ghost var q := synth.queue.State();
      ghost var c: Chain3;
      tiler, c := synth.JobChainVertexTiler(vertices, mode, vertexShader, fragmentShader, scratchpad, heapFree,
                                            zeroBuffer, vertexPages, fragmentPages, vertexOrder, tilerOrder);
      ghost var s := Call(Next(bottom), |vertices|, mode, scratchpad, heapFree, zeroBuffer, vertexPages.gpu);
      assert ResultOf(c, s, vertices, bottom, h0);
      x := VertexTilerPiece(c, s);
      OlderKept(c, s, vertices, base, bottom, h0);
      ChainIsPiece(c, s, vertices, base, bottom, h0);
      Joined(h0, bottom, q, x, VertexTilerChain(c.first), AtomOf(VertexTilerChain(c.first), n));
    }

    /** The invariant for one piece more.  `h0`, `bottom` and `q` are pool, bump position
        and queue before it was made. */
    ghost method Joined(h0: Heap, bottom: nat, q: Queue, x: Piece, c: Chain, a: Atom)
      requires synth.Valid() && walker.Valid() && walker.ram == synth.cbma.ram
      requires PoolMapped(walker.Maps(), synth.cbma.base) && AllRecorded(walker.Maps(), pieces)
      requires Pieces(pieces, h0, synth.cbma.base, bottom) && SubHeap(h0, synth.cbma.blocks)
      requires PieceIn(x, synth.cbma.blocks, synth.cbma.base) && bottom < x.Start()
      requires x.Finish() <= synth.cbma.cbmaBottom
      requires bottom <= synth.cbma.cbmaBottom
      requires Recorded(walker.Maps(), x) && AtomFor(x, a) && AtomsFor(pieces, submitted)
      requires WellBatched(q) && Contents(q) == submitted && synth.queue.State() == Submit(q, a)
      requires submitted == AtomsOf(chains) && synth.atomCount == |chains| + 1 && a == AtomOf(c, |chains|)
      requires traced <= |q.batches| && walker.tracer.maliFd != 0
      modifies this`pieces, this`submitted, this`chains
      ensures Valid() && pieces == old(pieces) + [x] && submitted == old(submitted) + [a]
      ensures chains == old(chains) + [c]
    {
      hide PoolMapped, InSpace, AllRecorded, Recorded, Pieces, PieceIn, Laid, Holds, SameOutside, AtomFor, AtomsFor,
           WellBatched, Contents, SubHeap, Submit, AtomOf, AtomsOf;
      AtomsSnoc(chains, c);
      PieceAdded(pieces, h0, synth.cbma.blocks, synth.cbma.base, bottom, x, synth.cbma.cbmaBottom);
      RecordedMore(walker.Maps(), pieces, x);
      AtomsMore(pieces, submitted, x, a);
      SubmitKeeps(q, a);
      MoreBatches(q, a);
      pieces, submitted, chains := pieces + [x], submitted + [a], chains + [c];
    }

    method Fragment(framebuffer: u64, heapFree: u64, scratchpad: u64) returns (p: u32)
      requires Valid() && Next(synth.cbma.cbmaBottom) + 0x400 + 280 <= synth.cbma.base + POOL_SIZE
      modifies this`pieces, this`submitted, this`chains
      modifies synth`atomCount, synth.cbma`cbmaBottom, synth.cbma`blocks, synth.cbma.ram
      modifies synth.queue`atomQueueSize, synth.queue`batches, synth.queue.atomQueue
      ensures Valid() && pieces == old(pieces) + [FragmentPiece(p, heapFree, scratchpad)]
      ensures chains == old(chains) + [FragmentChain(p, BitOr64(framebuffer, EXCLUSIVE))]
    {
      hide PoolMapped, InSpace, AllRecorded, Pieces, Laid, Holds, SameOutside, AtomsFor, Contents, SubHeap, PieceIn,
           Next, LeWords, EncodeHeader, EncodeFragment, EncodeMfbd, MfbdImage, MakeTileCoord, BitOr64, Submit,
           WellBatched;
      ghost var bottom, h0, q, n := synth.cbma.cbmaBottom, synth.cbma.blocks, synth.queue.State(), synth.atomCount;
      assert Laid(h0, synth.cbma.base, bottom);
      p := synth.JobChainFragment(framebuffer, heapFree, scratchpad);
      ghost var x := FragmentPiece(p, heapFree, scratchpad);
      FragmentMade(h0, synth.cbma.base, bottom, p, heapFree, scratchpad);
      ghost var c := FragmentChain(p, BitOr64(framebuffer, EXCLUSIVE));
      Joined(h0, bottom, q, x, c, AtomOf(c, n));
    }

    method Replay(tilerJc: u32, fragmentJc: u32, heapFree: u64, framebuffer: u64)
      requires Valid() && Next(synth.cbma.cbmaBottom) + 48 <= synth.cbma.base + POOL_SIZE
      modifies this`pieces, this`submitted, this`chains
      modifies synth`atomCount, synth.cbma`cbmaBottom, synth.cbma`blocks, synth.cbma.ram
      modifies synth.queue`atomQueueSize, synth.queue`batches, synth.queue.atomQueue
      ensures Valid() && Next(old(synth.cbma.cbmaBottom)) < WORD32
      ensures pieces == old(pieces) + [ReplayPiece(Next(old(synth.cbma.cbmaBottom)), tilerJc, fragmentJc, heapFree)]
      ensures chains == old(chains) + [ReplayChain(Next(old(synth.cbma.cbmaBottom)), BitOr64(framebuffer, EXCLUSIVE))]
    {
      hide PoolMapped, InSpace, AllRecorded, Pieces, Laid, Holds, SameOutside, AtomsFor, Contents, SubHeap, PieceIn,
           Next, LeWords, EncodeReplay, ReplayOf, BitOr64, Submit, WellBatched;
      ghost var bottom, h0, q, n := synth.cbma.cbmaBottom, synth.cbma.blocks, synth.queue.State(), synth.atomCount;
      assert Laid(h0, synth.cbma.base, bottom);
      synth.JobChainReplay(tilerJc, fragmentJc, heapFree, framebuffer);
      ghost var p: u32 := Next(bottom);
      ReplayMade(h0, synth.cbma.base, bottom, p, tilerJc, fragmentJc, heapFree);
      ghost var c := ReplayChain(p, BitOr64(framebuffer, EXCLUSIVE));
      Joined(h0, bottom, q, ReplayPiece(p, tilerJc, fragmentJc, heapFree), c, AtomOf(c, n));
    }
  }

  /** The piece is the chain the call asked for, made at bump position `bottom` in the
      pool `h0`. */
  ghost predicate PieceFor(x: Piece, tiler: u32, vertices: Bytes, mode: u32, scratchpad: u64, heapFree: u64,
                           zeroBuffer: u32, vertexGpu: u64, bottom: nat, h0: Heap) {
    && x.VertexTilerPiece? && x.c.tiler == tiler && Next(bottom) < WORD32 && |vertices| < WORD32
    && x.s == Call(Next(bottom), |vertices|, mode, scratchpad, heapFree, zeroBuffer, vertexGpu)
    && ResultOf(x.c, x.s, vertices, bottom, h0)
  }

  /** Bytes of the pages that hold `sz` bytes of shader. */
  function PagesLength(sz: u32): u64 {
    0x1000 * (1 + sz / 0x1000)
  }

  function PagesOf(pages: Pages, sz: u32): Mapping {
    Mapping(PagesLength(sz), pages.cpu, pages.gpu)
  }

  /** What the kernel grants one chain for its two shaders: pages off the pool, and fresh
      ones each time. */
  predicate Granted(live: seq<Mapping>, base: nat, v: Pages, vs: u32, f: Pages, fs: u32) {
    && MappedOutside(base, v.cpu, vs) && MappedOutside(base, f.cpu, fs)
    && FreshRange(live, PagesOf(v, vs)) && FreshRange([PagesOf(v, vs)] + live, PagesOf(f, fs))
  }

  lemma FreshSpace(live: seq<Mapping>, m: Mapping)
    requires FreshRange(live, m)
    ensures m.addr + m.length <= SPACE && m.gpuVa + 5 < WORD64
  {
  }

  lemma RecordedKept(live: seq<Mapping>, m: Mapping, xs: seq<Piece>)
    requires AllRecorded(live, xs) && FreshRange(live, m)
    ensures AllRecorded([m] + live, xs)
  {
    hide ShaderMapped, FreshRange;
    forall i | 0 <= i < |xs| ensures Recorded([m] + live, xs[i]) {
      assert Recorded(live, xs[i]);
      if xs[i].VertexTilerPiece? { ShaderKept(live, xs[i].s.vertexGpu, m); }
    }
  }

  lemma MoreBatches(q: Queue, a: Atom)
    ensures |q.batches| <= |Submit(q, a).batches|
  {
  }

  lemma FragmentMade(h0: Heap, base: nat, bottom: nat, p: u32, heapFree: u64, scratchpad: u64)
    requires Laid(h0, base, bottom) && bottom < p && p % 0x400 == 0 && base <= bottom
    requires p + 0x400 + 280 <= base + POOL_SIZE < SPACE
    ensures var h := h0[p + 0x400 := LeWords(EncodeMfbd(MfbdImage(false, heapFree, scratchpad)))]
        [p := EncodeHeader(FragmentHeader()) + LeWords(EncodeFragment(
                Fragment(MakeTileCoord(0, 0, 0), MakeTileCoord(29, 45, 0), p + 0x400 + MFBD + FBD_FRAGMENT)))];
      SubHeap(h0, h) && PieceIn(FragmentPiece(p, heapFree, scratchpad), h, base)
  {
    hide LeWords, EncodeHeader, EncodeFragment, EncodeMfbd, MfbdImage, MakeTileCoord;
    assert forall q | q in h0 :: q <= bottom;
  }

  lemma ReplayMade(h0: Heap, base: nat, bottom: nat, p: u32, tilerJc: u32, fragmentJc: u32, heapFree: u64)
    requires Laid(h0, base, bottom) && bottom < p && base <= bottom && p + 48 <= base + POOL_SIZE < SPACE
    ensures var h := h0[p := LeWords(EncodeReplay(ReplayOf(tilerJc, fragmentJc, heapFree)))];
      SubHeap(h0, h) && PieceIn(ReplayPiece(p, tilerJc, fragmentJc, heapFree), h, base)
  {
    hide LeWords, EncodeReplay, ReplayOf;
    assert forall q | q in h0 :: q <= bottom;
  }
}
