/** Any number of synthesised chains in the pool, and the tracing of any batch of
    their atoms. */
module Batches {
  import opened Bits
  import opened Memory
  import opened Layouts
  import opened ShadowMap
  import opened Pool
  import opened Atoms
  import opened JobImages
  import opened Synthesiser
  import opened Decoder
  import opened Fetching
  import opened JobTraces
  import opened RoundTrip
  import opened AtomTraces

  // ----- what the three chain functions put into the pool -----

  datatype Piece =
    | VertexTilerPiece(c: Chain3, s: Call)
    | FragmentPiece(p: u32, heapFree: u64, scratchpad: u64)
    | ReplayPiece(p: u32, tilerJc: u32, fragmentJc: u32, heapFree: u64)
  {
    function Start(): nat { if VertexTilerPiece? then s.vb else p }

    function Finish(): nat {
      if VertexTilerPiece? then c.tiler + 0x2040 else if FragmentPiece? then p + 0x400 + 280 else p + 48
    }

    /** The address of the vertices. */
    function Verts(): nat { if VertexTilerPiece? then s.vb + 0x400 else 0 }
  }

  /** The heap has the blocks of the chain, whatever its vertices are. */
  ghost predicate ChainBlocks(h: Heap, c: Chain3, s: Call)
    requires WellPlaced(c)
  {
    var own := ChainHeap(c, LinkedHeaders(c.vertex, c.tiler));
    && (forall p | p in own && Owns(c, s, p) :: p in h && h[p] == own[p])
    && s.vb + 0x400 < WORD32 && s.vb + 0x400 in h && |h[s.vb + 0x400]| == s.size
  }

  ghost predicate PieceIn(x: Piece, h: Heap, base: u32) {
    match x
    case VertexTilerPiece(c, s) => Matches(c, base, s) && ChainBlocks(h, c, s)
    case FragmentPiece(p, heapFree, scratchpad) =>
      base < p && p + 0x400 + 280 <= base + POOL_SIZE && FragmentBlocks(h, p, heapFree, scratchpad)
    case ReplayPiece(p, tilerJc, fragmentJc, heapFree) =>
      && base < p && p + 48 <= base + POOL_SIZE
      && p in h && h[p] == LeWords(EncodeReplay(ReplayOf(tilerJc, fragmentJc, heapFree)))
  }

  /** The pieces in the order in which they were made. */
  ghost predicate Pieces(xs: seq<Piece>, h: Heap, base: u32, bottom: nat) {
    && (forall i | 0 <= i < |xs| :: PieceIn(xs[i], h, base) && xs[i].Finish() <= bottom)
    && (forall i, j | 0 <= i < j < |xs| :: xs[i].Finish() < xs[j].Start())
  }

  /** The heaps have the same blocks with the same bytes, except for vertices. */
  ghost predicate SameButVertices(h: Heap, h': Heap, xs: seq<Piece>) {
    && h.Keys == h'.Keys && (forall p | p in h :: |h'[p]| == |h[p]|)
    && forall p | p in h && h'[p] != h[p] :: IsVerts(xs, p)
  }

  ghost predicate IsVerts(xs: seq<Piece>, p: u32) {
    exists i :: 0 <= i < |xs| && xs[i].VertexTilerPiece? && xs[i].Verts() == p
  }

  lemma SameTwice(a: Heap, b: Heap, c: Heap, xs: seq<Piece>)
    requires SameButVertices(a, b, xs) && SameButVertices(b, c, xs)
    ensures SameButVertices(a, c, xs)
  {
    hide IsVerts;
  }

  /** No piece has another's vertices among the blocks it is read by. */
  lemma OthersVerts(xs: seq<Piece>, h: Heap, base: u32, bottom: nat, i: nat, p: u32)
    requires Pieces(xs, h, base, bottom) && i < |xs| && xs[i].Start() <= p < xs[i].Finish() && IsVerts(xs, p)
    ensures xs[i].VertexTilerPiece? && xs[i].Verts() == p
  {
    hide PieceIn;
    var j :| 0 <= j < |xs| && xs[j].VertexTilerPiece? && xs[j].Verts() == p;
    VertsWithin(xs[j], h, base);
    PiecesApart(xs, h, base, bottom, i, j);
  }

  lemma PiecesApart(xs: seq<Piece>, h: Heap, base: u32, bottom: nat, i: nat, j: nat)
    requires Pieces(xs, h, base, bottom) && i < |xs| && j < |xs|
    ensures i == j || xs[i].Finish() < xs[j].Start() || xs[j].Finish() < xs[i].Start()
  {
    hide PieceIn;
  }

  lemma VertsWithin(x: Piece, h: Heap, base: u32)
    requires x.VertexTilerPiece? && PieceIn(x, h, base)
    ensures x.Start() < x.Verts() < x.Finish()
  {
    hide ChainHeap, LeWords, EncodeMfbd, MfbdImage, EncodeAttributeBuffer, PayloadOf, TaggedShader, ChainBlocks;
  }

  /** Disturbing vertices leaves every piece what it was. */
  lemma PiecesStay(xs: seq<Piece>, h: Heap, h': Heap, base: u32, bottom: nat)
    requires Pieces(xs, h, base, bottom) && SameButVertices(h, h', xs)
    ensures Pieces(xs, h', base, bottom)
  {
    forall i | 0 <= i < |xs| ensures PieceIn(xs[i], h', base) {
      PieceStays(xs, h, h', base, bottom, i);
    }
  }

  lemma PieceStays(xs: seq<Piece>, h: Heap, h': Heap, base: u32, bottom: nat, i: nat)
    requires Pieces(xs, h, base, bottom) && SameButVertices(h, h', xs) && i < |xs|
    ensures PieceIn(xs[i], h', base)
  {
    hide IsVerts, ChainBlocks, Matches, LeWords, EncodeReplay, ReplayOf, EncodeHeader, EncodeFragment, EncodeMfbd,
         MfbdImage, FragmentOf;
    var x := xs[i];
    assert PieceIn(x, h, base);
    forall p: u32 | x.Start() <= p < x.Finish() && p in h && (x.VertexTilerPiece? ==> p != x.Verts())
      ensures h'[p] == h[p]
    {
      if h'[p] != h[p] { OthersVerts(xs, h, base, bottom, i, p); }
    }
    match x
    case VertexTilerPiece(c, s) => ChainBlocksSame(h, h', c, s, base);
    case FragmentPiece(p, heapFree, scratchpad) => FragmentSame(h, h', p, heapFree, scratchpad);
    case ReplayPiece(p, _, _, _) =>
  }

  lemma ChainBlocksSame(h: Heap, h': Heap, c: Chain3, s: Call, base: u32)
    requires Matches(c, base, s) && ChainBlocks(h, c, s) && h.Keys == h'.Keys
    requires forall p | p in h :: |h'[p]| == |h[p]|
    requires forall p: u32 | s.vb <= p < c.tiler + 0x2040 && p in h && p != s.vb + 0x400 :: h'[p] == h[p]
    ensures ChainBlocks(h', c, s)
  {
    hide ChainHeap, LeWords, EncodeMfbd, MfbdImage, EncodeAttributeBuffer, PayloadOf, TaggedShader;
  }

  lemma FragmentSame(h: Heap, h': Heap, p: u32, heapFree: u64, scratchpad: u64)
    requires FragmentBlocks(h, p, heapFree, scratchpad) && h.Keys == h'.Keys
    requires h'[p] == h[p] && h'[p + 0x400] == h[p + 0x400]
    ensures FragmentBlocks(h', p, heapFree, scratchpad)
  {
    hide LeWords, EncodeHeader, EncodeFragment, EncodeMfbd, MfbdImage;
  }

  // ----- a piece more -----

  lemma PieceMore(x: Piece, h: Heap, h': Heap, base: u32)
    requires PieceIn(x, h, base) && SubHeap(h, h')
    ensures PieceIn(x, h', base)
  {
    hide ChainHeap, LeWords, EncodeHeader, EncodeFragment, EncodeMfbd, MfbdImage, EncodeReplay, ReplayOf, Matches;
  }

  /** A piece made above the bump position joins the others. */
  lemma PieceAdded(xs: seq<Piece>, h: Heap, h': Heap, base: u32, bottom: nat, x: Piece, bottom': nat)
    requires Pieces(xs, h, base, bottom) && SubHeap(h, h') && PieceIn(x, h', base)
    requires bottom < x.Start() && x.Finish() <= bottom' && bottom <= bottom'
    ensures Pieces(xs + [x], h', base, bottom')
  {
    hide PieceIn;
    var ys := xs + [x];
    forall i | 0 <= i < |ys| ensures PieceIn(ys[i], h', base) && ys[i].Finish() <= bottom' {
      if i < |xs| { PieceMore(xs[i], h, h', base); }
    }
  }

  /** What `job_chain_vertex_tiler` leaves is a piece. */
  lemma ChainIsPiece(c: Chain3, s: Call, vertices: Bytes, base: u32, bottom: nat, h0: Heap)
    requires ResultOf(c, s, vertices, bottom, h0)
    requires base <= bottom && ChainEnd(bottom, |vertices|) <= base + POOL_SIZE
    ensures WellPlaced(c) && PieceIn(VertexTilerPiece(c, s), ChainHeap(c, LinkedHeaders(c.vertex, c.tiler)), base)
    ensures bottom < s.vb && c.tiler + 0x2040 == ChainEnd(bottom, |vertices|)
  {
    hide LeWords, EncodeMfbd, MfbdImage, EncodeAttributeBuffer, PayloadOf, TaggedShader, IsOrder, ChainHeap,
         SlotsWithin, Matches;
    ResultMatches(c, base, s, vertices, bottom, h0);
    ChainAddresses(bottom, |vertices|);
    var v: u32 := s.vb + 0x400;
    assert v in c.h && c.h[v] == vertices && v < c.first;
    ChainHeapBelow(c, LinkedHeaders(c.vertex, c.tiler), v);
  }

  // ----- tracing one atom -----

  /** The atom a piece is submitted as. */
  predicate AtomFor(x: Piece, a: Atom) {
    match x
    case VertexTilerPiece(c, _) => a.coreReq == TILER_REQ && a.jc == c.first
    case FragmentPiece(p, _, _) => a.coreReq == FRAGMENT_REQ && a.jc == p
    case ReplayPiece(p, _, _, _) => a.coreReq == REPLAY_REQ && a.jc == p
  }

  /** The vertices of the piece lie in memory. */
  predicate Fits(x: Piece) {
    x.VertexTilerPiece? ==>
      x.s.Fbd() < WORD32 && x.c.vertexJob.attributes + 0x400 + Span(12, x.s.size / 12) <= SPACE
  }

  /** What tracing the piece's atom prints, visits and changes. */
  function PieceTrace(w: World, x: Piece, jitter: Jitter): (r: Walked)
    requires |w.ram| == SPACE && Fits(x)
    ensures |r.world.ram| == SPACE && r.ending == Ended
  {
    match x
    case VertexTilerPiece(c, s) => ChainTrace(w, c, s, jitter)
    case FragmentPiece(p, heapFree, scratchpad) =>
      Walked([Job(p, FragmentHeader()),
          FragmentJob(Fragment(MakeTileCoord(0, 0, 0), MakeTileCoord(29, 45, 0), p + 0x403),
                                                    0, 0, 29, 45),
              FbdAt((p + 0x400) % WORD32, 3, MfbdImage(false, heapFree, scratchpad))], [p], w, Ended)
    case ReplayPiece(_, tilerJc, fragmentJc, heapFree) =>
      Walked([ReplayAtom(ReplayOf(tilerJc, fragmentJc, heapFree))], [], w, Ended)
  }

  /** Everything the tracer has to have recorded for the piece. */
  ghost predicate Recorded(maps: seq<Mapping>, x: Piece) {
    x.VertexTilerPiece? ==> ShaderMapped(maps, x.s.vertexGpu)
  }

  /** Memory holds a pool with the pieces. */
  ghost predicate Holding(w: World, xs: seq<Piece>, h: Heap, base: u32, bottom: nat) {
    && |w.ram| == SPACE && base <= bottom <= base + POOL_SIZE <= SPACE
    && Pieces(xs, h, base, bottom) && Laid(h, base, bottom) && Holds(w.ram, h, base, base + POOL_SIZE)
  }

  /** Only vertices and the number of draws differ. */
  ghost predicate Disturbing(w: World, w': World, h: Heap, h': Heap, xs: seq<Piece>, base: u32) {
    && |w.ram| == |w'.ram| && SameOutside(w.ram, w'.ram, base, base + POOL_SIZE) && SameButVertices(h, h', xs)
  }

  lemma NoDisturbing(w: World, h: Heap, xs: seq<Piece>, base: u32)
    ensures Disturbing(w, w, h, h, xs, base)
  {
  }

  lemma ChainPresent(w: World, h: Heap, base: u32, c: Chain3, s: Call)
    requires |w.ram| == SPACE && base + POOL_SIZE <= SPACE && Holds(w.ram, h, base, base + POOL_SIZE)
    requires WellPlaced(c) && ChainBlocks(h, c, s)
    ensures Present(w.ram, c, s)
  {
    hide At, ChainHeap;
  }

  /** Rewriting the vertices of one piece. */
  lemma VertsRewritten(w: World, w': World, h: Heap, xs: seq<Piece>, i: nat, base: u32, bottom: nat,
                       v: u32) returns (h': Heap)
    requires Holding(w, xs, h, base, bottom) && i < |xs| && xs[i].VertexTilerPiece? && v == xs[i].Verts()
    requires v in h && base <= v && v + |h[v]| <= base + POOL_SIZE
    requires |w.ram| == |w'.ram| && SameOutside(w.ram, w'.ram, v, v + |h[v]|)
    ensures Disturbing(w, w', h, h', xs, base) && Holding(w', xs, h', base, bottom)
  {
    hide SameOutside, Holds, Laid, Pieces;
    HoldsRewritten(w.ram, w'.ram, h, v, base, bottom, base + POOL_SIZE);
    h' := h[v := w'.ram[v..v + |h[v]|]];
    assert IsVerts(xs, v);
    OutsidePool(w.ram, w'.ram, v, v + |h[v]|, base, base + POOL_SIZE);
    assert SameButVertices(h, h', xs);
    PiecesStay(xs, h, h', base, bottom);
  }

  /** Tracing the atom of a vertex/tiler chain. */
  lemma ChainAtomTraced(w: World, maps: seq<Mapping>, base: u32, h: Heap, c: Chain3, s: Call, jitter: Jitter,
                        steps: nat)
    requires Sane(w, maps) && PoolMapped(maps, base) && ShaderMapped(maps, s.vertexGpu) && steps >= 3
    requires Matches(c, base, s) && ChainBlocks(h, c, s) && Holds(w.ram, h, base, base + POOL_SIZE)
    ensures Fits(VertexTilerPiece(c, s)) && base < s.vb && s.vb + 0x400 + s.size <= base + POOL_SIZE
    ensures var r := ChainTrace(w, c, s, jitter);
      && TraceAtom(w, maps, TILER_REQ, c.first, jitter, steps) == r
      && |r.world.ram| == |w.ram| && SameOutside(w.ram, r.world.ram, s.vb + 0x400, s.vb + 0x400 + s.size)
      && VerticesDone(w, r.world, c.vertexJob, s.vb, s.size, jitter)
  {
    hide VerticesDone, ChainHeap, Matches, PoolMapped, InSpace, ShaderMapped, ChainTrace, Walk, SameOutside, Span,
         BitAnd, Holds, Present, ChainBlocks;
    assert WellPlaced(c) && s.vb + 0x400 + s.size <= base + POOL_SIZE && base < s.vb by { ChainPlaced(c, s, base); }
    hide WellPlaced;
    assert base + POOL_SIZE <= SPACE by { PoolInSpace(maps, base); }
    ChainPresent(w, h, base, c, s);
    ChainTraced(w, maps, base, c, s, jitter, steps);
    HardwareAtoms();
  }

  lemma PoolInSpace(maps: seq<Mapping>, base: u32)
    requires PoolMapped(maps, base)
    ensures base + POOL_SIZE <= SPACE
  {
  }

  lemma ChainPieceTraced(w: World, maps: seq<Mapping>, base: u32, bottom: nat, h: Heap, xs: seq<Piece>, i: nat,
                         jitter: Jitter, steps: nat) returns (h': Heap)
    requires Sane(w, maps) && PoolMapped(maps, base) && Holding(w, xs, h, base, bottom) && steps >= 3
    requires i < |xs| && xs[i].VertexTilerPiece? && Recorded(maps, xs[i])
    ensures Fits(xs[i])
    ensures var r := PieceTrace(w, xs[i], jitter);
      && TraceAtom(w, maps, TILER_REQ, xs[i].c.first, jitter, steps) == r
      && VerticesDone(w, r.world, xs[i].c.vertexJob, xs[i].s.vb, xs[i].s.size, jitter)
      && Disturbing(w, r.world, h, h', xs, base) && Holding(r.world, xs, h', base, bottom)
  {
    hide VerticesDone, ChainHeap, Matches, PoolMapped, InSpace, ShaderMapped, ChainTrace, SameOutside, Span, Holds,
         Laid, TraceAtom, Disturbing;
    var c, s := xs[i].c, xs[i].s;
    assert PieceIn(xs[i], h, base);
    hide Pieces;
    ChainAtomTraced(w, maps, base, h, c, s, jitter, steps);
    h' := VertsRewritten(w, ChainTrace(w, c, s, jitter).world, h, xs, i, base, bottom, s.vb + 0x400);
  }

  lemma ChainPlaced(c: Chain3, s: Call, base: u32)
    requires Matches(c, base, s)
    ensures WellPlaced(c) && s.vb + 0x400 + s.size <= base + POOL_SIZE && base < s.vb
  {
    hide ChainHeap, LeWords, EncodeMfbd, MfbdImage, EncodeAttributeBuffer, PayloadOf, TaggedShader;
  }

  lemma OutsidePool(m: Bytes, m': Bytes, lo: nat, hi: nat, base: nat, top: nat)
    requires |m| == |m'| && SameOutside(m, m', lo, hi) && base <= lo && hi <= top
    ensures SameOutside(m, m', base, top)
  {
  }

  /** The atom's address lies in the recorded pool. */
  lemma PoolJc(maps: seq<Mapping>, base: u32, jc: u64)
    requires PoolMapped(maps, base) && base <= jc < base + POOL_SIZE
    ensures JcMapped(maps, jc)
  {
    var k :| 0 <= k < |maps| && maps[k] == Mapping(POOL_SIZE, base, base);
    assert InCpuRange(jc % WORD32)(maps[k]);
    hide First;
  }

  lemma PieceStartsInPool(x: Piece, h: Heap, base: u32, a: Atom)
    requires PieceIn(x, h, base) && AtomFor(x, a)
    ensures base <= a.jc < base + POOL_SIZE
  {
    hide ChainHeap, LeWords, EncodeMfbd, MfbdImage, EncodeAttributeBuffer, EncodeReplay, PayloadOf, TaggedShader,
         ChainBlocks, FragmentBlocks;
  }

  lemma FragmentPieceTraced(w: World, maps: seq<Mapping>, base: u32, h: Heap, x: Piece, jitter: Jitter, steps: nat)
    requires Sane(w, maps) && PoolMapped(maps, base) && Holds(w.ram, h, base, base + POOL_SIZE) && steps >= 1
    requires x.FragmentPiece? && PieceIn(x, h, base)
    ensures TraceAtom(w, maps, FRAGMENT_REQ, x.p, jitter, steps) == PieceTrace(w, x, jitter)
  {
    hide InSpace, PoolMapped, Holds, TraceAtom, LeWords, EncodeHeader, EncodeFragment, EncodeMfbd, MfbdImage,
         MakeTileCoord;
    FragmentThenDecode(w, maps, base, h, x.p, x.heapFree, x.scratchpad, jitter, steps);
  }

  lemma ReplayPieceTraced(w: World, maps: seq<Mapping>, base: u32, h: Heap, x: Piece, jitter: Jitter, steps: nat)
    requires Sane(w, maps) && PoolMapped(maps, base) && Holds(w.ram, h, base, base + POOL_SIZE)
    requires x.ReplayPiece? && PieceIn(x, h, base)
    ensures TraceAtom(w, maps, REPLAY_REQ, x.p, jitter, steps) == PieceTrace(w, x, jitter)
  {
    hide InSpace, PoolMapped, Holds, TraceAtom, LeWords, EncodeReplay, ReplayOf;
    ReplayThenDecode(w, maps, base, h, x.p, x.tilerJc, x.fragmentJc, x.heapFree, jitter, steps);
  }

  /** The vertices of a piece that has been traced are disturbed float by float, and
      nothing else is. */
  ghost predicate PieceDone(w: World, w': World, x: Piece, jitter: Jitter) {
    if x.VertexTilerPiece? then VerticesDone(w, w', x.c.vertexJob, x.s.vb, x.s.size, jitter) else w' == w
  }

  /** Tracing the atom of any piece, in any memory that holds the pool with the pieces. */
  lemma PieceTraced(w: World, maps: seq<Mapping>, base: u32, bottom: nat, h: Heap, xs: seq<Piece>, i: nat, a: Atom,
                    jitter: Jitter, steps: nat) returns (h': Heap)
    requires Sane(w, maps) && PoolMapped(maps, base) && Holding(w, xs, h, base, bottom) && steps >= 3
    requires i < |xs| && AtomFor(xs[i], a) && Recorded(maps, xs[i])
    ensures Fits(xs[i])
    ensures var r := PieceTrace(w, xs[i], jitter);
      && TraceOne(w, maps, a, jitter, steps) == r
      && PieceDone(w, r.world, xs[i], jitter)
      && Disturbing(w, r.world, h, h', xs, base) && Holding(r.world, xs, h', base, bottom)
  {
    hide VerticesDone, PoolMapped, InSpace, Holds, Laid, TraceAtom, Disturbing, JcMapped, PieceIn, Span, SameOutside;
    assert PieceIn(xs[i], h, base);
    PieceStartsInPool(xs[i], h, base, a);
    PoolJc(maps, base, a.jc);
    hide Pieces;
    if xs[i].VertexTilerPiece? {
      hide Holding, Recorded, PieceTrace;
      h' := ChainPieceTraced(w, maps, base, bottom, h, xs, i, jitter, steps);
    } else {
      h' := h;
      NoDisturbing(w, h, xs, base);
      if xs[i].FragmentPiece? {
        FragmentPieceTraced(w, maps, base, h, xs[i], jitter, steps);
      } else {
        ReplayPieceTraced(w, maps, base, h, xs[i], jitter, steps);
      }
      assert PieceTrace(w, xs[i], jitter).world == w;
    }
  }

  // ----- tracing a batch -----

  /** The atoms of a batch are those of the pieces `xs[ks[0]]`, `xs[ks[1]]` and so on. */
  ghost predicate BatchFor(xs: seq<Piece>, ks: seq<nat>, atoms: seq<Atom>) {
    |ks| == |atoms| && forall j | 0 <= j < |ks| :: ks[j] < |xs| && AtomFor(xs[ks[j]], atoms[j])
  }

  ghost predicate AllRecorded(maps: seq<Mapping>, xs: seq<Piece>) {
    forall i | 0 <= i < |xs| :: Recorded(maps, xs[i])
  }

  /** Each piece traced in the memory the one before left. */
  ghost function BatchTrace(w: World, xs: seq<Piece>, ks: seq<nat>, jitter: Jitter): (r: Walked)
    requires |w.ram| == SPACE && forall j | 0 <= j < |ks| :: ks[j] < |xs| && Fits(xs[ks[j]])
    ensures |r.world.ram| == SPACE && r.ending == Ended
    decreases |ks|
  {
    if ks == [] then Walked([], [], w, Ended)
    else
      var r := PieceTrace(w, xs[ks[0]], jitter);
      var rest := BatchTrace(r.world, xs, ks[1..], jitter);
      Walked(r.events + rest.events, r.visited + rest.visited, rest.world, Ended)
  }

  lemma DisturbingTwice(a: World, b: World, c: World, h: Heap, h': Heap, h'': Heap, xs: seq<Piece>, base: u32)
    requires Disturbing(a, b, h, h', xs, base) && Disturbing(b, c, h', h'', xs, base)
    ensures Disturbing(a, c, h, h'', xs, base)
  {
    hide SameOutside, SameButVertices;
    OutsideTwice(a.ram, b.ram, c.ram, base, base + POOL_SIZE);
    SameTwice(h, h', h'', xs);
  }

  /** Any batch of atoms, whatever has been traced before: each chain is decoded as it
      was asked for, nothing but vertices changes, and the pool holds the pieces
      afterwards, so that the next batch can be synthesised and traced the same way. */
  lemma {:induction false} BatchTraced(w: World, maps: seq<Mapping>, base: u32, bottom: nat, h: Heap, xs: seq<Piece>,
                                       ks: seq<nat>, atoms: seq<Atom>, jitter: Jitter, steps: nat) returns (h': Heap)
    requires Sane(w, maps) && PoolMapped(maps, base) && AllRecorded(maps, xs) && steps >= 3
    requires Holding(w, xs, h, base, bottom) && BatchFor(xs, ks, atoms)
    ensures forall j | 0 <= j < |ks| :: Fits(xs[ks[j]])
    ensures var r := BatchTrace(w, xs, ks, jitter);
      && TraceBatch(w, maps, atoms, jitter, steps) == r
      && Disturbing(w, r.world, h, h', xs, base) && Holding(r.world, xs, h', base, bottom)
    decreases |ks|
  {
    hide PoolMapped, InSpace, Holding, Disturbing, Fits, AtomFor, Recorded, PieceTrace, TraceOne;
    if ks == [] {
      h' := h;
      NoDisturbing(w, h, xs, base);
    } else {
      var i := ks[0];
      assert AtomFor(xs[i], atoms[0]) && Recorded(maps, xs[i]);
      var h1 := PieceTraced(w, maps, base, bottom, h, xs, i, atoms[0], jitter, steps);
      var r := PieceTrace(w, xs[i], jitter);
      BatchRest(xs, ks, atoms);
      h' := BatchTraced(r.world, maps, base, bottom, h1, xs, ks[1..], atoms[1..], jitter, steps);
      DisturbingTwice(w, r.world, BatchTrace(r.world, xs, ks[1..], jitter).world, h, h1, h', xs, base);
      forall j | 0 <= j < |ks| ensures Fits(xs[ks[j]]) {
        if j > 0 { assert ks[j] == ks[1..][j - 1]; }
      }
    }
  }

  lemma BatchRest(xs: seq<Piece>, ks: seq<nat>, atoms: seq<Atom>)
    requires BatchFor(xs, ks, atoms) && ks != []
    ensures BatchFor(xs, ks[1..], atoms[1..])
  {
    hide AtomFor;
  }
}
