/** Decoding what the synthesiser wrote. */
module RoundTrip {
  import opened Bits
  import opened Memory
  import opened Layouts
  import opened ShadowMap
  import opened Pool
  import opened JobImages
  import opened Synthesiser
  import opened Decoder
  import opened Fetching
  import opened JobTraces

  // ----- the chain in memory -----

  /** The arguments of `job_chain_vertex_tiler` that reach the GPU's memory, with
      the address `vb` of the attribute buffer. */
  datatype Call = Call(vb: u32, size: u32, mode: u32, scratchpad: u64, heapFree: u64, zeroBuffer: u32, vertexGpu: u64)
  {
    function Fbd(): nat { Next(vb + 0x400 + size) }
    function Mfbd(): (m: Mfbd)
      ensures m.Sized()
    {
      MfbdImage(true, heapFree, scratchpad)
    }
  }

  /** The chain is the one the call synthesised, and lies in the pool at `base`. */
  ghost predicate Matches(c: Chain3, base: u32, s: Call) {
    && WellPlaced(c) && base < s.vb && s.vb % 0x400 == 0
    && c.first == s.Fbd() + 0x400 && c.tiler + 0x2040 <= base + POOL_SIZE
    && s.vb in c.h && c.h[s.vb] == LeWords(EncodeAttributeBuffer(AttributeBuffer(s.vb + 0x400 + 1, 12, s.size)))
    && s.Fbd() in c.h && c.h[s.Fbd()] == LeWords(EncodeMfbd(s.Mfbd()))
    && c.value == SetValue((s.scratchpad + SV_OFFSET) % WORD64, 3)
    && c.vertexJob == PayloadOf(false, s.mode, s.zeroBuffer, s.vb, s.Fbd() + MFBD, c.vertexSlots)
    && c.tilerJob == PayloadOf(true, s.mode, s.zeroBuffer, s.vb, s.Fbd() + MFBD, c.tilerSlots)
    && c.vertexShader == TaggedShader(s.vertexGpu, false)
  }

  /** Addresses of the chain's own blocks but for the vertices, which nothing reads
      but the decoder when it disturbs them. */
  predicate Owns(c: Chain3, s: Call, p: u32) {
    s.vb <= p < c.tiler + 0x2040 && p != s.vb + 0x400
  }

  /** Memory holds the blocks of the chain. */
  ghost predicate Present(m: Bytes, c: Chain3, s: Call)
    requires WellPlaced(c)
  {
    var h := ChainHeap(c, LinkedHeaders(c.vertex, c.tiler));
    forall p | p in h && Owns(c, s, p) :: At(m, p, h[p])
  }

  ghost predicate ChainIn(w: World, maps: seq<Mapping>, base: u32, c: Chain3, s: Call) {
    && Sane(w, maps) && PoolMapped(maps, base) && Matches(c, base, s) && Present(w.ram, c, s)
  }

  lemma FirstIn(w: World, maps: seq<Mapping>, base: u32, c: Chain3, s: Call)
    requires ChainIn(w, maps, base, c, s)
    ensures PacketIn(w, maps, base, c.first, LinkedHeaders(c.vertex, c.tiler).first, EncodeSetValue(c.value))
  {
    hide ChainHeap, At, LeWords, EncodeHeader, EncodeSetValue, PoolMapped, InSpace, PayloadOf, EncodeMfbd,
         EncodeAttributeBuffer, MfbdImage, TaggedShader;
    var hs := LinkedHeaders(c.vertex, c.tiler);
    ChainHeapSet(c, hs, hs.first);
  }

  lemma TilerIn(w: World, maps: seq<Mapping>, base: u32, c: Chain3, s: Call)
    requires ChainIn(w, maps, base, c, s)
    ensures c.tilerJob.Sized()
      && PacketIn(w, maps, base, c.tiler, LinkedHeaders(c.vertex, c.tiler).tiler, EncodeVertexTiler(c.tilerJob))
  {
    hide ChainHeap, At, LeWords, EncodeHeader, EncodeVertexTiler, PoolMapped, InSpace, PayloadOf, EncodeMfbd,
         EncodeAttributeBuffer, MfbdImage, TaggedShader;
    var hs := LinkedHeaders(c.vertex, c.tiler);
    ChainHeapTiler(c, hs, hs.tiler);
  }

  lemma VertexPacketIn(w: World, maps: seq<Mapping>, base: u32, c: Chain3, s: Call)
    requires ChainIn(w, maps, base, c, s)
    ensures c.vertexJob.Sized()
      && PacketIn(w, maps, base, c.vertex, LinkedHeaders(c.vertex, c.tiler).vertex, EncodeVertexTiler(c.vertexJob))
  {
    hide ChainHeap, At, LeWords, EncodeHeader, EncodeVertexTiler, PoolMapped, InSpace, PayloadOf, EncodeMfbd,
         EncodeAttributeBuffer, MfbdImage, TaggedShader;
    var hs := LinkedHeaders(c.vertex, c.tiler);
    ChainHeapVertex(c, hs, hs.vertex);
  }

  lemma SlotSize(shader: u64, writeBuffer: u32, j: nat)
    requires j < 7
    ensures |SlotContents(false, shader, writeBuffer)[j]| <= 16
  {
    hide SlotContents;
  }

  lemma SlotIn(w: World, maps: seq<Mapping>, base: u32, c: Chain3, s: Call, j: nat)
    requires ChainIn(w, maps, base, c, s) && j < 7
    ensures c.vertex + 0x400 <= c.vertexSlots[j] && c.vertexSlots[j] + 0x40 <= base + POOL_SIZE
    ensures WordsIn(w, maps, base, c.vertexSlots[j], SlotContents(false, c.vertexShader, c.vertex + 0x2000)[j])
  {
    hide ChainHeap, At, LeWords, SlotContents, PoolMapped, InSpace, PayloadOf, EncodeMfbd, EncodeAttributeBuffer,
         MfbdImage, TaggedShader;
    var ws := SlotContents(false, c.vertexShader, c.vertex + 0x2000)[j];
    assert |ws| <= 16 by { SlotSize(c.vertexShader, c.vertex + 0x2000, j); }
    assert WellPlaced(c) && c.vertex + 0x3FF < c.vertexSlots[j] < c.vertex + 0x1C01;
    assert base < c.vertex && c.vertex + 0x2400 <= base + POOL_SIZE;
    hide Sane, Matches, WellPlaced;
    ChainHeapSlot(c, LinkedHeaders(c.vertex, c.tiler), j);
  }

  lemma StartIn(w: World, maps: seq<Mapping>, base: u32, c: Chain3, s: Call)
    requires ChainIn(w, maps, base, c, s)
    ensures VertsIn(w, maps, base, s.vb, s.size) && s.vb + 0x400 + s.size < s.Fbd() && s.Fbd() % 0x400 == 0
    ensures WordsIn(w, maps, base, s.Fbd(), EncodeMfbd(s.Mfbd()))
  {
    hide ChainHeap, At, LeWords, PoolMapped, InSpace, PayloadOf, EncodeMfbd, EncodeAttributeBuffer, MfbdImage,
         TaggedShader;
    var hs := LinkedHeaders(c.vertex, c.tiler);
    ChainHeapBelow(c, hs, s.vb);
    ChainHeapBelow(c, hs, s.Fbd());
  }

  /** The pointers of the vertex job, and what lies below its packet. */
  ghost predicate Points(c: Chain3, s: Call) {
    && s.Fbd() + MFBD < WORD32 && |c.vertexSlots| == 7
    && c.vertexJob.attributes == s.vb && c.vertexJob.fbd == s.Fbd() + MFBD
    && c.vertexJob.attributeMeta == c.vertexSlots[ATTRIBUTE_META] && c.vertexJob.shader == c.vertexSlots[SHADER_META]
    && c.vertexJob.unknown1 == c.vertexSlots[UNKNOWN1] && c.vertexJob.unknown5 == c.vertexSlots[UNKNOWN5]
    && c.vertexJob.null1 == 0 && c.vertexJob.null2 == 0 && c.vertexJob.null4 == 0
    && c.vertex == s.Fbd() + 0x800 && c.vertex + 0x2400 < WORD32 && c.vertexShader == TaggedShader(s.vertexGpu, false)
  }

  lemma ChainPoints(base: u32, c: Chain3, s: Call)
    requires Matches(c, base, s)
    ensures Points(c, s) && base < c.vertex
  {
    hide ChainHeap, SlotContents, EncodeMfbd, EncodeAttributeBuffer, MfbdImage, TaggedShader, LeWords;
  }

  lemma VertexJobIn(w: World, maps: seq<Mapping>, base: u32, c: Chain3, s: Call)
    requires ChainIn(w, maps, base, c, s)
    ensures VertexIn(w, maps, base, c.vertex, LinkedHeaders(c.vertex, c.tiler).vertex, c.vertexJob,
                     s.Fbd(), s.vertexGpu, s.size, s.Mfbd())
  {
    hide ChainHeap, PacketIn, WordsIn, VertsIn, SlotContents, EncodeVertexTiler, EncodeMfbd, EncodeShaderMeta,
         EncodeAttributeBuffer, PoolMapped, InSpace, Present, MfbdImage, TaggedShader, LeWords, Next, Matches;
    assert Matches(c, base, s);
    VertexPacketIn(w, maps, base, c, s);
    StartIn(w, maps, base, c, s);
    SlotIn(w, maps, base, c, s, ATTRIBUTE_META);
    SlotIn(w, maps, base, c, s, SHADER_META);
    SlotIn(w, maps, base, c, s, UNKNOWN1);
    SlotIn(w, maps, base, c, s, UNKNOWN5);
    hide ChainIn;
    ChainPoints(base, c, s);
    SlotsAre(c.vertexShader, c.vertex + 0x2000);
  }

  lemma SlotsAre(shader: u64, writeBuffer: u32)
    ensures SlotContents(false, shader, writeBuffer)[ATTRIBUTE_META] == [ATTRIBUTE_ZERO, 0, 0, 0]
    ensures SlotContents(false, shader, writeBuffer)[SHADER_META] == EncodeShaderMeta(ShaderMetaOf(false, shader))
  {
    hide EncodeShaderMeta, WriteBufferWord;
  }

  // ----- the walk -----

  /** Three jobs in a row. */
  lemma WalkThree(w: World, maps: seq<Mapping>, p: u64, q: u64, r: u64, t: Traced, u: Traced, v: Traced,
                  jitter: Jitter, steps: nat)
    requires Sane(w, maps) && TraceJob(w, maps, p, jitter) == (t, q) && t.ok && q != 0 && steps >= 3
    requires Sane(t.world, maps) && TraceJob(t.world, maps, q, jitter) == (u, r) && u.ok && r != 0
    requires Sane(u.world, maps) && TraceJob(u.world, maps, r, jitter) == (v, 0) && v.ok
    ensures Walk(w, maps, p, jitter, steps) == Walked(t.events + u.events + v.events, [p, q, r], v.world, Ended)
  {
    hide TraceJob, Sane, Walk;
    WalkOn(w, maps, p, jitter, steps, t, q);
    WalkOn(t.world, maps, q, jitter, steps - 1, u, r);
    WalkEnds(u.world, maps, r, jitter, steps - 2, v);
    assert t.events + (u.events + v.events) == t.events + u.events + v.events;
    assert [p] + ([q] + [r]) == [p, q, r];
  }

  /** The pages whose use marks a job as sabotaged. */
  predicate Trapped(shader: u32) {
    0x5AB0_0000 <= shader < 0x5AC0_0000
  }

  /** The trace of a vertex job: the full path unless its shader descriptor
      happens to lie in the trap megabyte. */
  function VertexTrace(w: World, p: u32, h: Header, vt: VertexTiler, fbd: u32, gpu: u64, size: u32, m: Mfbd,
                       jitter: Jitter): (t: Traced)
    requires vt.attributes + 0x400 + Span(12, size / 12) <= |w.ram|
    ensures |t.world.ram| == |w.ram| && t.ok
  {
    if Trapped(vt.shader) then Traced([Job(p, h), Sabotaged], w, true)
    else Traced(VertexEvents(p, h, vt, fbd, gpu, size, m), Disturbed(w, vt.attributes, size, jitter), true)
  }

  /** The vertices of the chain after its trace: each float of each of them jittered, and
      nothing else changed, unless the job was taken for sabotaged. */
  ghost predicate VerticesDone(w: World, w': World, vt: VertexTiler, vb: u32, size: u32, jitter: Jitter) {
    if Trapped(vt.shader) then w' == w else Jittered(w, w', vb + 0x400, 12, size / 12, jitter)
  }

  lemma VertexTraced(w: World, maps: seq<Mapping>, base: u32, p: u32, h: Header, vt: VertexTiler, fbd: u32,
                     gpu: u64, size: u32, m: Mfbd, jitter: Jitter)
    requires VertexIn(w, maps, base, p, h, vt, fbd, gpu, size, m) && ShaderMapped(maps, gpu)
    ensures Sane(w, maps) && vt.attributes + 0x400 + Span(12, size / 12) <= |w.ram|
    ensures TraceJob(w, maps, p, jitter) == (VertexTrace(w, p, h, vt, fbd, gpu, size, m, jitter), h.next)
    ensures SameOutside(w.ram, VertexTrace(w, p, h, vt, fbd, gpu, size, m, jitter).world.ram,
                        vt.attributes + 0x400, vt.attributes + 0x400 + size)
    ensures VerticesDone(w, VertexTrace(w, p, h, vt, fbd, gpu, size, m, jitter).world, vt, vt.attributes, size, jitter)
  {
    assert PacketIn(w, maps, base, p, h, EncodeVertexTiler(vt)) && h.jobType == JOB_TYPE_VERTEX && vt.Sized();
    assert VertsIn(w, maps, base, vt.attributes, size);
    hide VertexIn, Jittered, PacketIn, WordsIn, VertsIn, EncodeVertexTiler, EncodeMfbd, EncodeShaderMeta, InSpace,
         ShaderMapped, Span, SameOutside, Disturbed, TraceJob, VertexEvents, TaggedShader;
    VertsTraced(w, maps, base, vt.attributes, size, jitter);
    if Trapped(vt.shader) {
      TraceSabotaged(w, maps, base, p, h, vt, jitter);
      SameMemory(w.ram, vt.attributes + 0x400, vt.attributes + 0x400 + size);
    } else {
      TraceVertex(w, maps, base, p, h, vt, fbd, gpu, size, m, jitter);
    }
  }

  lemma SameMemory(m: Bytes, lo: nat, hi: nat)
    ensures SameOutside(m, m, lo, hi)
  {
  }

  /** What the decoder makes of a synthesised chain. */
  function ChainTrace(w: World, c: Chain3, s: Call, jitter: Jitter): (r: Walked)
    requires s.Fbd() < WORD32 && c.vertexJob.attributes + 0x400 + Span(12, s.size / 12) <= |w.ram|
  {
    var vertex := SecondTrace(w, c, s, jitter);
    Walked(FirstTrace(w, c).events + vertex.events + ThirdTrace(w, c).events,
           [c.first, c.vertex, c.tiler], vertex.world, Ended)
  }

  function FirstTrace(w: World, c: Chain3): Traced {
    Traced([Job(c.first, LinkedHeaders(c.vertex, c.tiler).first), SetValueJob(c.value)], w, true)
  }

  function SecondTrace(w: World, c: Chain3, s: Call, jitter: Jitter): (t: Traced)
    requires s.Fbd() < WORD32 && c.vertexJob.attributes + 0x400 + Span(12, s.size / 12) <= |w.ram|
    ensures |t.world.ram| == |w.ram| && t.ok
  {
    VertexTrace(w, c.vertex, LinkedHeaders(c.vertex, c.tiler).vertex, c.vertexJob, s.Fbd(), s.vertexGpu, s.size,
                s.Mfbd(), jitter)
  }

  function ThirdTrace(w: World, c: Chain3): Traced {
    Traced([Job(c.tiler, LinkedHeaders(c.vertex, c.tiler).tiler), Sabotaged], w, true)
  }

  /** The traces of the three jobs, each made in the memory the one before left. */
  lemma JobsTraced(w: World, maps: seq<Mapping>, base: u32, c: Chain3, s: Call, jitter: Jitter)
    requires ChainIn(w, maps, base, c, s) && ShaderMapped(maps, s.vertexGpu)
    ensures Points(c, s) && s.vb + 0x400 + Span(12, s.size / 12) <= |w.ram| && 0 < c.vertex < c.tiler
    ensures Sane(w, maps) && TraceJob(w, maps, c.first, jitter) == (FirstTrace(w, c), c.vertex)
    ensures TraceJob(w, maps, c.vertex, jitter) == (SecondTrace(w, c, s, jitter), c.tiler)
    ensures var w' := SecondTrace(w, c, s, jitter).world;
      && SameOutside(w.ram, w'.ram, s.vb + 0x400, s.vb + 0x400 + s.size)
      && VerticesDone(w, w', c.vertexJob, s.vb, s.size, jitter)
      && TraceJob(w', maps, c.tiler, jitter) == (ThirdTrace(w', c), 0)
  {
    hide VerticesDone, ChainHeap, PacketIn, WordsIn, EncodeVertexTiler, Present, MfbdImage, TaggedShader, LeWords, Next,
         PayloadOf, Matches, PoolMapped, InSpace, ShaderMapped, Span, SameOutside, TraceJob, VertexTrace;
    assert Matches(c, base, s) && Sane(w, maps);
    ChainPoints(base, c, s);
    VertexJobIn(w, maps, base, c, s);
    FirstIn(w, maps, base, c, s);
    TilerIn(w, maps, base, c, s);
    hide ChainIn, VertexIn;
    var hs := LinkedHeaders(c.vertex, c.tiler);
    VertexTraced(w, maps, base, c.vertex, hs.vertex, c.vertexJob, s.Fbd(), s.vertexGpu, s.size, s.Mfbd(), jitter);
    var u := SecondTrace(w, c, s, jitter);
    TraceSet(w, maps, base, c.first, hs.first, c.value, jitter);
    TilerTraps(base, c, s);
    PacketKept(w, u.world, maps, base, c.tiler, hs.tiler, EncodeVertexTiler(c.tilerJob), s.vb + 0x400,
               s.vb + 0x400 + s.size);
    TraceSabotaged(u.world, maps, base, c.tiler, hs.tiler, c.tilerJob, jitter);
  }

  /** Decoding a synthesised chain visits exactly its three jobs, in order, and ends. */
  lemma ChainTraced(w: World, maps: seq<Mapping>, base: u32, c: Chain3, s: Call, jitter: Jitter, steps: nat)
    requires ChainIn(w, maps, base, c, s) && ShaderMapped(maps, s.vertexGpu) && steps >= 3
    ensures Points(c, s) && s.vb + 0x400 + Span(12, s.size / 12) <= |w.ram| == |ChainTrace(w, c, s, jitter).world.ram|
    ensures Walk(w, maps, c.first, jitter, steps) == ChainTrace(w, c, s, jitter)
    ensures SameOutside(w.ram, ChainTrace(w, c, s, jitter).world.ram, s.vb + 0x400, s.vb + 0x400 + s.size)
    ensures VerticesDone(w, ChainTrace(w, c, s, jitter).world, c.vertexJob, s.vb, s.size, jitter)
  {
    hide VerticesDone, ChainIn, ShaderMapped, InSpace, SecondTrace, Span, SameOutside, TraceJob, Walk;
    JobsTraced(w, maps, base, c, s, jitter);
    var u := SecondTrace(w, c, s, jitter);
    WalkThree(w, maps, c.first, c.vertex, c.tiler, FirstTrace(w, c), u, ThirdTrace(u.world, c), jitter, steps);
  }

  lemma TilerTraps(base: u32, c: Chain3, s: Call)
    requires Matches(c, base, s)
    ensures Trapped(c.tilerJob.shader) && s.vb + 0x400 + s.size < s.Fbd() < c.first < c.vertex < c.tiler
  {
    hide ChainHeap, SlotContents, EncodeMfbd, EncodeAttributeBuffer, MfbdImage, TaggedShader, LeWords;
  }

  /** With the pool outside the trap megabyte the vertex job takes the full path:
      everything of it is printed. */
  lemma FullPathOutsideTrap(w: World, base: u32, c: Chain3, s: Call, jitter: Jitter)
    requires Matches(c, base, s) && (base + POOL_SIZE <= 0x5AB0_0000 || 0x5AC0_0000 <= base)
    requires s.vb + 0x400 + Span(12, s.size / 12) <= |w.ram|
    ensures Points(c, s)
    ensures ChainTrace(w, c, s, jitter)
         == Walked([Job(c.first, LinkedHeaders(c.vertex, c.tiler).first), SetValueJob(c.value)]
                   + VertexEvents(c.vertex, LinkedHeaders(c.vertex, c.tiler).vertex, c.vertexJob, s.Fbd(), s.vertexGpu,
                                  s.size, s.Mfbd())
                   + [Job(c.tiler, LinkedHeaders(c.vertex, c.tiler).tiler), Sabotaged],
                   [c.first, c.vertex, c.tiler], Disturbed(w, s.vb, s.size, jitter), Ended)
  {
    hide ChainHeap, SlotContents, EncodeMfbd, EncodeAttributeBuffer, MfbdImage, TaggedShader, LeWords, PayloadOf,
         Next, VertexEvents, Disturbed, Span;
    assert WellPlaced(c) && base < c.vertexSlots[SHADER_META] < base + POOL_SIZE;
    hide WellPlaced;
    ChainPoints(base, c, s);
  }

  // ----- what the synthesiser promises is what the decoder needs -----

  /** Every block of `a` is in `b`, with the same bytes. */
  ghost predicate SubHeap(a: Heap, b: Heap) {
    forall p | p in a :: p in b && b[p] == a[p]
  }

  /** The chain is the result of the call `s` on `vertices` at bump position
      `bottom`, with the pool holding `h0`. */
  ghost predicate ResultOf(c: Chain3, s: Call, vertices: Bytes, bottom: nat, h0: Heap) {
    && s.vb == Next(bottom) && s.size == |vertices|
    && exists fragmentGpu, vertexOrder, tilerOrder | IsOrder(vertexOrder) && IsOrder(tilerOrder) ::
         IsChain(c, bottom, h0, vertices, s.mode, s.scratchpad, s.heapFree, s.zeroBuffer, s.vertexGpu, fragmentGpu,
                 vertexOrder, tilerOrder)
  }

  lemma ResultMatches(c: Chain3, base: u32, s: Call, vertices: Bytes, bottom: nat, h0: Heap)
    requires ResultOf(c, s, vertices, bottom, h0)
    requires base <= bottom && ChainEnd(bottom, |vertices|) <= base + POOL_SIZE
    ensures Matches(c, base, s)
  {
    hide LeWords, EncodeMfbd, MfbdImage, EncodeAttributeBuffer, PayloadOf, TaggedShader, IsOrder;
    ChainAddresses(bottom, |vertices|);
    StartBlocks(h0, s.vb, s.Fbd(), vertices, s.heapFree, s.scratchpad);
  }

  lemma StartBlocks(h0: Heap, vb: u32, fbd: u32, vertices: Bytes, heapFree: u64, scratchpad: u64)
    requires vb + 0x400 + |vertices| < fbd
    ensures var h := ChainStart(h0, vb, fbd, vertices, heapFree, scratchpad);
      && vb in h && h[vb] == LeWords(EncodeAttributeBuffer(AttributeBuffer(vb + 0x400 + 1, 12, |vertices|)))
      && fbd in h && h[fbd] == LeWords(EncodeMfbd(MfbdImage(true, heapFree, scratchpad)))
  {
    hide LeWords, EncodeMfbd, MfbdImage, EncodeAttributeBuffer;
  }

  /** A new chain leaves everything already in the pool as it was. */
  lemma OlderKept(c: Chain3, s: Call, vertices: Bytes, base: u32, bottom: nat, h0: Heap)
    requires ResultOf(c, s, vertices, bottom, h0) && Laid(h0, base, bottom)
    requires base <= bottom && ChainEnd(bottom, |vertices|) <= base + POOL_SIZE
    ensures WellPlaced(c) && SubHeap(h0, ChainHeap(c, LinkedHeaders(c.vertex, c.tiler)))
  {
    hide LeWords, EncodeMfbd, MfbdImage, EncodeAttributeBuffer, PayloadOf, TaggedShader, IsOrder, ChainHeap,
         SlotsWithin;
    ChainAddresses(bottom, |vertices|);
    assert WellPlaced(c) && bottom < s.vb < s.Fbd() < c.first;
    forall p | p in h0
      ensures var h := ChainHeap(c, LinkedHeaders(c.vertex, c.tiler)); p in h && h[p] == h0[p]
    {
      assert p <= bottom;
      ChainHeapBelow(c, LinkedHeaders(c.vertex, c.tiler), p);
    }
  }

  /** Synthesis, then decoding.  Whatever the arguments, and whatever has happened to the
      rest of memory since, as long as the chain's own blocks are there: the walk from
      its first job visits its three jobs in order with the fields written, disturbs
      nothing but its vertices, and ends. */
  lemma SynthesiseThenDecode(w: World, maps: seq<Mapping>, base: u32, c: Chain3, s: Call, vertices: Bytes,
                             bottom: nat, h0: Heap, jitter: Jitter, steps: nat)
    requires ResultOf(c, s, vertices, bottom, h0) && base <= bottom
    requires ChainEnd(bottom, |vertices|) <= base + POOL_SIZE <= SPACE
    requires Sane(w, maps) && PoolMapped(maps, base) && ShaderMapped(maps, s.vertexGpu) && steps >= 3
    requires WellPlaced(c) && Present(w.ram, c, s)
    ensures Points(c, s) && s.vb + 0x400 + Span(12, s.size / 12) <= |w.ram| == |ChainTrace(w, c, s, jitter).world.ram|
    ensures Walk(w, maps, c.first, jitter, steps) == ChainTrace(w, c, s, jitter)
    ensures SameOutside(w.ram, ChainTrace(w, c, s, jitter).world.ram, s.vb + 0x400, s.vb + 0x400 + s.size)
    ensures VerticesDone(w, ChainTrace(w, c, s, jitter).world, c.vertexJob, s.vb, s.size, jitter)
  {
    hide VerticesDone, ChainHeap, Present, Matches, PoolMapped, InSpace, ShaderMapped, ChainTrace, Walk, SameOutside,
         Span, Points, ResultOf, WellPlaced, Next, ChainEnd;
    ResultMatches(c, base, s, vertices, bottom, h0);
    ChainTraced(w, maps, base, c, s, jitter, steps);
  }
}
