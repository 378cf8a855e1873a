/** Synthesised chains keep their vertices clear of everything that is read of them,
    so the theorems about chains in general hold of them. */
module ClearChains {
  import opened Options
  import opened Bits
  import opened Memory
  import opened Layouts
  import opened ShadowMap
  import opened Translation
  import opened Pool
  import opened JobImages
  import opened Synthesiser
  import opened Decoder
  import opened Fetching
  import opened JobTraces
  import opened RoundTrip
  import opened Chains
  import opened Plans
  import opened ChainWalks
  import opened AtomTraces

  /** The plan reads nothing from `lo` up to `hi` and rewrites nothing else. */
  ghost predicate ClearOf(p: Plan, lo: nat, hi: nat) {
    && (forall k | 0 <= k < |p.seen| :: p.seen[k].End() <= lo || hi <= p.seen[k].at)
    && (forall k | 0 <= k < |p.rewritten| :: lo <= p.rewritten[k].at && p.rewritten[k].End() <= hi)
  }

  lemma ClearMiss(p: Plan, q: Plan, lo: nat, hi: nat)
    requires ClearOf(p, lo, hi) && ClearOf(q, lo, hi)
    ensures AllMiss(p.seen, q.rewritten)
  {
  }

  lemma SetPlan(w: World, maps: seq<Mapping>, base: u32, p: u32, h: Header, s: SetValue, lo: nat, hi: nat)
    requires PacketIn(w, maps, base, p, h, EncodeSetValue(s)) && h.jobType == JOB_TYPE_SET_VALUE && hi <= p
    ensures Sane(w, maps) && ClearOf(PlanJob(w, maps, p), lo, hi) && PlanJob(w, maps, p).ok
  {
    hide PacketIn, InSpace, Fetch, GetWords, EncodeSetValue, DecodeHeader, Peek;
    FetchHeader(w, maps, base, p, h, EncodeSetValue(s));
    PacketEnd(w, maps, base, p, h, EncodeSetValue(s));
    FetchPayload(w, maps, base, p, h, EncodeSetValue(s), p + HEADER_SIZE, 16);
  }

  lemma SabotagedPlan(w: World, maps: seq<Mapping>, base: u32, p: u32, h: Header, v: VertexTiler, lo: nat, hi: nat)
    requires v.Sized() && PacketIn(w, maps, base, p, h, EncodeVertexTiler(v)) && hi <= p
    requires h.jobType == JOB_TYPE_VERTEX || h.jobType == JOB_TYPE_TILER
    requires Trapped(v.shader)
    ensures Sane(w, maps) && ClearOf(PlanJob(w, maps, p), lo, hi) && PlanJob(w, maps, p).ok
  {
    hide PacketIn, InSpace, Fetch, GetWords, EncodeVertexTiler, DecodeVertexTiler, DecodeHeader, Peek, BitAnd,
         PlanShaded;
    SabotageIff(v.shader);
    PacketEnd(w, maps, base, p, h, EncodeVertexTiler(v));
    FetchHeader(w, maps, base, p, h, EncodeVertexTiler(v));
    FetchPayload(w, maps, base, p, h, EncodeVertexTiler(v), p + HEADER_SIZE, 4 * VT_WORDS);
    VertexTilerRoundTrip(v);
  }

  /** The attribute of a synthesised vertex job. */
  lemma AttributePlan(w: World, maps: seq<Mapping>, base: u32, vb: u32, size: u32)
    requires VertsIn(w, maps, base, vb, size)
    ensures Sane(w, maps)
    ensures PlanAttribute(w, maps, vb)
         == Plan([Range(vb, 16)], [Range(vb + 0x400, Span(12, size / 12))], true)
    ensures Span(12, size / 12) <= size
  {
    hide PoolMapped, InSpace, Fetch, GetWords, EncodeAttributeBuffer, DecodeAttributeBuffer, LeWords, At, BitAnd,
         HighMask, Peek, Span;
    var verts: u32 := vb + 0x400;
    var a := AttributeBuffer(verts + 1, 12, size);
    assert PoolMapped(maps, base) && base < vb && base + POOL_SIZE <= SPACE by { PoolInside(w, maps, base, vb, size); }
    PeekWords(w, maps, base, vb, EncodeAttributeBuffer(a), 16);
    SmallRecordsRoundTrip(SetValue(0, 0), Fragment(0, 0, 0), a, Replay(0, 0, 0, 0, 0, 0, 0, 0, 0, 0));
    assert ClearLow(verts + 1, 2) == verts by { VertexTag(verts); }
    PoolFetch(maps, base, verts, size);
    PackedSpan(size / 12);
    assert 12 * (size / 12) <= size;
  }

  lemma PoolInside(w: World, maps: seq<Mapping>, base: u32, vb: u32, size: u32)
    requires VertsIn(w, maps, base, vb, size)
    ensures PoolMapped(maps, base) && base < vb && base + POOL_SIZE <= SPACE
  {
    hide LeWords, EncodeAttributeBuffer, At;
  }

  /** The metadata word at `at`, whose address translates to itself, is `meta`. */
  ghost predicate WordOfList(w: World, maps: seq<Mapping>, at: u64, meta: u64)
    requires Sane(w, maps)
  {
    && Fetch(maps, at, 8) == Some(at) && at + 8 <= SPACE
    && QuadOf(Get32(w.ram[at..at + 8], 0), Get32(w.ram[at..at + 8], 4)) == meta
  }

  lemma ListWord(w: World, maps: seq<Mapping>, base: u32, p: u32, ws: seq<u32>, k: nat)
    requires WordsIn(w, maps, base, p, ws) && k + 1 < |ws|
    ensures Sane(w, maps) && WordOfList(w, maps, p + 4 * k, QuadOf(ws[k], ws[k + 1]))
  {
    hide PoolMapped, InSpace, LeWords, Fetch, Get32, Peek;
    assert PoolMapped(maps, base) && base + POOL_SIZE <= SPACE by { WordsEnd(w, maps, base, p, ws); }
    ReadQuad(w.ram, p, ws, k);
    PoolFetch(maps, base, p + 4 * k, 8);
  }

  lemma WordsEnd(w: World, maps: seq<Mapping>, base: u32, p: u32, ws: seq<u32>)
    requires WordsIn(w, maps, base, p, ws)
    ensures PoolMapped(maps, base) && base + POOL_SIZE <= SPACE
  {
    hide LeWords, At;
  }

  lemma ListPlan(w: World, maps: seq<Mapping>, attributes: u32, at: u64, meta: u64, a: Plan)
    requires Sane(w, maps) && meta != 0 && meta % 0x100 == 0 && at + 16 <= SPACE
    requires WordOfList(w, maps, at, meta) && WordOfList(w, maps, at + 8, 0)
    requires PlanAttribute(w, maps, attributes) == a && a.ok
    ensures PlanAttributes(w, maps, attributes, at)
         == Plan([Range(at, 8)] + a.seen + [Range(at + 8, 8)], a.rewritten, true)
  {
    hide InSpace, Fetch, Get32, QuadOf, BitAnd, PlanAttribute;
    MetaSplit(meta);
    assert PlanAttributes(w, maps, attributes, at + 8) == Plan([Range(at + 8, 8)], [], true);
    assert a.rewritten + [] == a.rewritten;
  }

  lemma AttributesPlan(w: World, maps: seq<Mapping>, base: u32, meta: u32, vb: u32, size: u32)
    requires VertsIn(w, maps, base, vb, size) && WordsIn(w, maps, base, meta, [ATTRIBUTE_ZERO, 0, 0, 0])
    requires vb + 0x400 + size <= meta
    ensures Sane(w, maps)
    ensures var p := PlanAttributes(w, maps, vb, meta); p.ok && ClearOf(p, vb + 0x400, vb + 0x400 + size)
  {
    hide VertsIn, WordsIn, InSpace, PlanAttribute, PlanAttributes, WordOfList, Span;
    var ws := [ATTRIBUTE_ZERO, 0, 0, 0];
    AttributePlan(w, maps, base, vb, size);
    ListWord(w, maps, base, meta, ws, 0);
    ListWord(w, maps, base, meta, ws, 2);
    QuadSmall(ATTRIBUTE_ZERO);
    QuadSmall(0);
    assert meta + 16 <= SPACE by { assert WordOfList(w, maps, meta + 8, 0); ListEndsInSpace(w, maps, meta + 8); }
    ListPlan(w, maps, vb, meta, ATTRIBUTE_ZERO, PlanAttribute(w, maps, vb));
  }

  lemma ListEndsInSpace(w: World, maps: seq<Mapping>, at: u64)
    requires Sane(w, maps) && WordOfList(w, maps, at, 0)
    ensures at + 8 <= SPACE
  {
  }

  lemma VertexTailOk(maps: seq<Mapping>, base: u32, vt: VertexTiler, fbd: u32)
    requires PoolMapped(maps, base) && vt.fbd == fbd + MFBD && fbd % 0x400 == 0
    requires base < fbd && fbd + 280 <= base + POOL_SIZE
    requires base < vt.unknown1 <= base + POOL_SIZE - 0x10 && base < vt.unknown5 <= base + POOL_SIZE - 0x20
    ensures TailOk(maps, JOB_TYPE_VERTEX, vt)
  {
    hide PoolMapped, Fetch, TraceAddresses, PrintedAddresses, BitAnd, HighMask;
    VertexAddresses(maps, base, vt);
    FbdUntagged(fbd, MFBD);
    PoolFetch(maps, base, fbd, 280);
  }

  /** The parts of a live vertex job's plan. */
  lemma LivePlan(w: World, maps: seq<Mapping>, p: u32, h: Header, vt: VertexTiler, s: u64)
    requires Sane(w, maps) && vt.Sized() && h.jobType == JOB_TYPE_VERTEX && !IsSabotaged(vt)
    requires Fetch(maps, p, HEADER_SIZE) == Some(p) && HeaderAt(w, p, h)
    requires Fetch(maps, p + HEADER_SIZE, 4 * VT_WORDS) == Some(p + HEADER_SIZE) && PayloadAt(w, p + HEADER_SIZE, vt)
    requires WordOfList(w, maps, vt.shader, s) && Fetch(maps, ClearLow(s, 4), 0x340).Some?
    ensures var a := PlanAttributes(w, maps, vt.attributes, vt.attributeMeta);
      PlanJob(w, maps, p)
      == Plan([Range(p, HEADER_SIZE)] + ([Range(p + HEADER_SIZE, 4 * VT_WORDS)] + ([Range(vt.shader, 8)] + a.seen)),
              a.rewritten, a.ok && TailOk(maps, JOB_TYPE_VERTEX, vt))
  {
    hide InSpace, Fetch, GetWords, EncodeVertexTiler, DecodeVertexTiler, DecodeHeader, IsSabotaged, ClearLow, Get32,
         QuadOf, PlanAttributes, TailOk;
    VertexTilerRoundTrip(vt);
  }

  /** The vertex job of a synthesised chain, live or not. */
  lemma VertexPlan(w: World, maps: seq<Mapping>, base: u32, p: u32, h: Header, vt: VertexTiler, fbd: u32, gpu: u64,
                   size: u32, m: Mfbd)
    requires VertexIn(w, maps, base, p, h, vt, fbd, gpu, size, m) && ShaderMapped(maps, gpu)
    ensures Sane(w, maps)
    ensures PlanJob(w, maps, p).ok && ClearOf(PlanJob(w, maps, p), vt.attributes + 0x400, vt.attributes + 0x400 + size)
  {
    hide InSpace, PoolMapped, ShaderMapped, PacketIn, WordsIn, VertsIn, EncodeVertexTiler, EncodeMfbd,
         EncodeShaderMeta, TaggedShader, PlanJob, PlanAttributes, WordOfList, Fetch, ClearLow, IsSabotaged, TailOk,
         HeaderAt, PayloadAt, Trapped;
    var lo, hi := vt.attributes + 0x400, vt.attributes + 0x400 + size;
    AttributesPlan(w, maps, base, vt.attributeMeta, vt.attributes, size);
    if Trapped(vt.shader) {
      SabotagedPlan(w, maps, base, p, h, vt, lo, hi);
    } else {
      assert !IsSabotaged(vt) by { NotTrapped(vt); }
      PacketParts(w, maps, base, p, h, vt);
      FetchHeader(w, maps, base, p, h, EncodeVertexTiler(vt));
      ShaderWord(w, maps, base, vt.shader, gpu);
      assert PoolMapped(maps, base) && base < fbd && fbd + 280 <= base + POOL_SIZE
          by { MfbdEnd(w, maps, base, fbd, m); }
      VertexTailOk(maps, base, vt, fbd);
      LivePlan(w, maps, p, h, vt, gpu + 5);
    }
  }

  lemma NotTrapped(vt: VertexTiler)
    requires !Trapped(vt.shader)
    ensures !IsSabotaged(vt)
  {
    SabotageIff(vt.shader);
  }

  lemma MfbdEnd(w: World, maps: seq<Mapping>, base: u32, fbd: u32, m: Mfbd)
    requires m.Sized() && WordsIn(w, maps, base, fbd, EncodeMfbd(m))
    ensures PoolMapped(maps, base) && base < fbd && fbd + 280 <= base + POOL_SIZE
  {
    hide LeWords, At, EncodeMfbd;
  }

  lemma ShaderWord(w: World, maps: seq<Mapping>, base: u32, p: u32, gpu: u64)
    requires WordsIn(w, maps, base, p, EncodeShaderMeta(ShaderMetaOf(false, TaggedShader(gpu, false))))
    requires ShaderMapped(maps, gpu)
    ensures Sane(w, maps) && gpu + 5 < WORD64 && WordOfList(w, maps, p, gpu + 5)
    ensures Fetch(maps, ClearLow(gpu + 5, 4), 0x340).Some?
  {
    hide WordsIn, Fetch, Apart, WordOfList, Lo, Hi, QuadOf, BitAnd, ClearLow, TaggedShader, InSpace;
    ShaderFetch(maps, gpu);
    ShaderTag(gpu);
    var s := TaggedShader(gpu, false);
    QuadRoundTrip(s);
    ListWord(w, maps, base, p, EncodeShaderMeta(ShaderMetaOf(false, s)), 0);
  }

  /** No synthesised chain has vertices where the decoder reads it, and none kills the decoder. */
  lemma SynthesisedClear(w: World, maps: seq<Mapping>, base: u32, c: Chain3, s: Call)
    requires ChainIn(w, maps, base, c, s) && ShaderMapped(maps, s.vertexGpu)
    ensures Sane(w, maps) && KeepsClear(w, maps, c.first) && Survivable(w, maps, c.first)
    ensures Acyclic(LinksIn(w, maps), c.first)
  {
    hide ChainHeap, PacketIn, Present, Matches, PoolMapped, ShaderMapped, InSpace, PlanJob, Link, ClearOf,
         EncodeVertexTiler, EncodeSetValue, PayloadOf, VertexIn, LeWords, TaggedShader, MfbdImage, SameOutside,
         Acyclic;
    var hs, lo, hi := LinkedHeaders(c.vertex, c.tiler), s.vb + 0x400, s.vb + 0x400 + s.size;
    assert Matches(c, base, s) && Sane(w, maps);
    FirstIn(w, maps, base, c, s);
    TilerIn(w, maps, base, c, s);
    VertexJobIn(w, maps, base, c, s);
    TilerTraps(base, c, s);
    ChainPoints(base, c, s);
    SameMemory(w.ram, lo, hi);
    ChainLinked(w, w, maps, base, c, s);
    SynthesisedAcyclic(w, maps, base, c, s);
    hide ChainIn;
    SetPlan(w, maps, base, c.first, hs.first, c.value, lo, hi);
    SabotagedPlan(w, maps, base, c.tiler, hs.tiler, c.tilerJob, lo, hi);
    VertexPlan(w, maps, base, c.vertex, hs.vertex, c.vertexJob, s.Fbd(), s.vertexGpu, s.size, s.Mfbd());
    ThreeClear(w, maps, c, lo, hi);
  }

  lemma NoPlan(w: World, maps: seq<Mapping>, lo: nat, hi: nat)
    requires Sane(w, maps)
    ensures PlanJob(w, maps, 0).ok && ClearOf(PlanJob(w, maps, 0), lo, hi)
  {
  }

  lemma ThreeClear(w: World, maps: seq<Mapping>, c: Chain3, lo: nat, hi: nat)
    requires Linked(w, maps, c)
    requires PlanJob(w, maps, c.first).ok && ClearOf(PlanJob(w, maps, c.first), lo, hi)
    requires PlanJob(w, maps, c.vertex).ok && ClearOf(PlanJob(w, maps, c.vertex), lo, hi)
    requires PlanJob(w, maps, c.tiler).ok && ClearOf(PlanJob(w, maps, c.tiler), lo, hi)
    ensures KeepsClear(w, maps, c.first) && Survivable(w, maps, c.first)
  {
    hide PlanJob, ClearOf, Link, InSpace, AllMiss;
    NoLinkAtZero(w, maps);
    NoPlan(w, maps, lo, hi);
    forall n: nat
      ensures PlanJob(w, maps, JobAt(w, maps, c.first, n)).ok
      ensures ClearOf(PlanJob(w, maps, JobAt(w, maps, c.first, n)), lo, hi)
    {
      OrbitOfThree(LinksIn(w, maps), c.first, c.vertex, c.tiler, n);
    }
    forall n: nat, m: nat | n <= m
      ensures AllMiss(PlanJob(w, maps, JobAt(w, maps, c.first, m)).seen,
                      PlanJob(w, maps, JobAt(w, maps, c.first, n)).rewritten)
    {
      ClearMiss(PlanJob(w, maps, JobAt(w, maps, c.first, m)), PlanJob(w, maps, JobAt(w, maps, c.first, n)), lo, hi);
    }
  }
}
