/** Tracing single jobs whose records lie in the mapped pool. */
module JobTraces {
  import opened Options
  import opened Bits
  import opened Memory
  import opened Layouts
  import opened ShadowMap
  import opened Translation
  import opened Pool
  import opened JobImages
  import opened Synthesiser
  import opened Decoder
  import opened Fetching

  // ----- tracing jobs -----

  /** The pages of the vertex shader are recorded at their GPU address; no other
      mapping overlaps them or ends where they begin. */
  ghost predicate ShaderMapped(maps: seq<Mapping>, gpu: u64) {
    && gpu % 0x1000 == 0 && 0 < gpu && gpu + 5 < WORD64
    && (forall j | 0 <= j < |maps| :: !EndsAt(maps[j], gpu))
    && exists k | 0 <= k < |maps| :: maps[k].gpuVa == gpu && maps[k].length >= 0x1000 && Apart(maps, k)
  }

  lemma ShaderFetch(maps: seq<Mapping>, gpu: u64)
    requires ShaderMapped(maps, gpu)
    ensures Fetch(maps, gpu, 0x340).Some?
  {
    var k :| 0 <= k < |maps| && maps[k].gpuVa == gpu && maps[k].length >= 0x1000 && Apart(maps, k);
    FetchApart(maps, k, gpu, 0x340);
  }

  /** These bytes were fetched, and are the words `ws`. */
  ghost predicate ReadsAs(b: Option<Bytes>, ws: seq<u32>) {
    b.Some? && |b.value| == 4 * |ws| && GetWords(b.value) == ws
  }

  /** A record in the pool, fetched and decoded. */
  lemma PeekWords(w: World, maps: seq<Mapping>, base: u32, p: u32, ws: seq<u32>, sz: u32)
    requires Sane(w, maps) && PoolMapped(maps, base) && base < p < base + POOL_SIZE && p + sz <= base + POOL_SIZE
    requires At(w.ram, p, LeWords(ws)) && sz == 4 * |ws|
    ensures Fetch(maps, p, sz) == Some(p) && p + sz <= SPACE
    ensures Peek(w, maps, p, sz) == Some(w.ram[p..p + sz]) && ReadsAs(Peek(w, maps, p, sz), ws)
  {
    hide Fetch, PoolMapped, LeWords, GetWords, Peek;
    ReadWords(w.ram, p, ws);
    PoolFetch(maps, base, p, sz);
    PoolPeek(w, maps, base, p, sz);
  }

  /** A packet of header and payload words stands at `p` in the mapped pool. */
  ghost predicate PacketIn(w: World, maps: seq<Mapping>, base: u32, p: u32, h: Header, ws: seq<u32>) {
    && Sane(w, maps) && PoolMapped(maps, base) && base < p && p + HEADER_SIZE + 4 * |ws| <= base + POOL_SIZE
    && At(w.ram, p, EncodeHeader(h) + LeWords(ws))
  }

  lemma FetchHeader(w: World, maps: seq<Mapping>, base: u32, p: u32, h: Header, ws: seq<u32>)
    requires PacketIn(w, maps, base, p, h, ws)
    ensures Sane(w, maps) && Fetch(maps, p, HEADER_SIZE) == Some(p) && p + HEADER_SIZE <= SPACE
    ensures DecodeHeader(w.ram[p..p + HEADER_SIZE]) == h
  {
    hide Fetch, PoolMapped, EncodeHeader, LeWords, DecodeHeader, At;
    TwoSlices(w.ram, p, EncodeHeader(h), LeWords(ws));
    HeaderIn(w.ram, p, h);
    PoolFetch(maps, base, p, HEADER_SIZE);
  }

  lemma FetchPayload(w: World, maps: seq<Mapping>, base: u32, p: u32, h: Header, ws: seq<u32>, q: u32, sz: u32)
    requires PacketIn(w, maps, base, p, h, ws) && sz == 4 * |ws| && sz > 0 && q == p + HEADER_SIZE
    ensures Sane(w, maps) && Fetch(maps, q, sz) == Some(q) && q + sz <= SPACE
    ensures Peek(w, maps, q, sz) == Some(w.ram[q..q + sz]) && ReadsAs(Peek(w, maps, q, sz), ws)
  {
    hide Fetch, PoolMapped, EncodeHeader, LeWords, GetWords, Peek, At;
    TwoSlices(w.ram, p, EncodeHeader(h), LeWords(ws));
    PeekWords(w, maps, base, q, ws, sz);
  }

  lemma HeaderIn(m: Bytes, p: nat, h: Header)
    requires At(m, p, EncodeHeader(h))
    ensures p + HEADER_SIZE <= |m| && DecodeHeader(m[p..p + HEADER_SIZE]) == h
  {
    hide EncodeHeader, DecodeHeader;
    ReadHeader(m, p, h);
  }

  /** A job whose descriptor translates to itself. */
  lemma JobIs(w: World, maps: seq<Mapping>, chain: u32, header: Header, jitter: Jitter, t: Traced)
    requires Sane(w, maps) && Fetch(maps, chain, HEADER_SIZE) == Some(chain) && chain + HEADER_SIZE <= SPACE
    requires DecodeHeader(w.ram[chain..chain + HEADER_SIZE]) == header
    requires TracePayload(w, maps, chain, chain + HEADER_SIZE, jitter) == t
    ensures TraceJob(w, maps, chain, jitter)
         == (Traced([Job(chain, header)] + t.events, t.world, t.ok),
             DecodeHeader(t.world.ram[chain..chain + HEADER_SIZE]).next)
  {
    hide Fetch, DecodeHeader, TracePayload, Sane;
  }

  lemma SetPayload(w: World, maps: seq<Mapping>, h: nat, payload: u64, s: SetValue, jitter: Jitter)
    requires Sane(w, maps) && h + HEADER_SIZE <= SPACE
    requires DecodeHeader(w.ram[h..h + HEADER_SIZE]).jobType == JOB_TYPE_SET_VALUE
    requires ReadsAs(Peek(w, maps, payload, 16), EncodeSetValue(s))
    ensures TracePayload(w, maps, h, payload, jitter) == Traced([SetValueJob(s)], w, true)
  {
    hide Fetch, DecodeHeader, Peek, GetWords, EncodeSetValue, DecodeSetValue, Sane;
    SmallRecordsRoundTrip(s, Fragment(0, 0, 0), AttributeBuffer(0, 0, 0), Replay(0, 0, 0, 0, 0, 0, 0, 0, 0, 0));
  }

  lemma JobPayload(w: World, maps: seq<Mapping>, h: nat, payload: u64, v: nat, jitter: Jitter)
    requires Sane(w, maps) && h + HEADER_SIZE <= SPACE && v + 4 * VT_WORDS <= SPACE
    requires var ty := DecodeHeader(w.ram[h..h + HEADER_SIZE]).jobType; ty == JOB_TYPE_TILER || ty == JOB_TYPE_VERTEX
    requires Fetch(maps, payload, 4 * VT_WORDS) == Some(v)
    ensures TracePayload(w, maps, h, payload, jitter) == TraceVertexTiler(w, maps, h, v, jitter)
  {
    hide Fetch, DecodeHeader, GetWords, TraceVertexTiler, Sane;
  }

  /** A sabotaged job is left alone. */
  lemma SabotagedJob(w: World, maps: seq<Mapping>, h: nat, v: nat, vt: VertexTiler, jitter: Jitter)
    requires Sane(w, maps) && h + HEADER_SIZE <= SPACE && v + 4 * VT_WORDS <= SPACE
    requires vt.Sized() && PayloadAt(w, v, vt) && IsSabotaged(vt)
    ensures TraceVertexTiler(w, maps, h, v, jitter) == Traced([Sabotaged], w, true)
  {
    hide DecodeHeader, GetWords, EncodeVertexTiler, DecodeVertexTiler, Sane, IsSabotaged, Peek, Fetch;
    VertexTilerRoundTrip(vt);
  }

  /** A SET_VALUE job is decoded as written, and the walk goes on at its link. */
  lemma TraceSet(w: World, maps: seq<Mapping>, base: u32, p: u32, h: Header, s: SetValue, jitter: Jitter)
    requires PacketIn(w, maps, base, p, h, EncodeSetValue(s)) && h.jobType == JOB_TYPE_SET_VALUE
    ensures Sane(w, maps) && TraceJob(w, maps, p, jitter) == (Traced([Job(p, h), SetValueJob(s)], w, true), h.next)
  {
    hide PacketIn, Sane, Fetch, GetWords, Peek, TraceJob, TracePayload, EncodeSetValue, DecodeHeader;
    var q := p + HEADER_SIZE;
    FetchHeader(w, maps, base, p, h, EncodeSetValue(s));
    PacketEnd(w, maps, base, p, h, EncodeSetValue(s));
    FetchPayload(w, maps, base, p, h, EncodeSetValue(s), q, 16);
    SetPayload(w, maps, p, q, s, jitter);
    JobIs(w, maps, p, h, jitter, Traced([SetValueJob(s)], w, true));
    assert [Job(p, h)] + [SetValueJob(s)] == [Job(p, h), SetValueJob(s)];
  }

  lemma PacketEnd(w: World, maps: seq<Mapping>, base: u32, p: u32, h: Header, ws: seq<u32>)
    requires PacketIn(w, maps, base, p, h, ws)
    ensures p + HEADER_SIZE + 4 * |ws| <= SPACE && |w.ram| == SPACE && InSpace(maps)
  {
    hide EncodeHeader, LeWords, InSpace, Apart;
  }

  /** A job whose shader pointer traps is recognised as sabotaged. */
  lemma TraceSabotaged(w: World, maps: seq<Mapping>, base: u32, p: u32, h: Header, v: VertexTiler, jitter: Jitter)
    requires v.Sized() && PacketIn(w, maps, base, p, h, EncodeVertexTiler(v))
    requires h.jobType == JOB_TYPE_VERTEX || h.jobType == JOB_TYPE_TILER
    requires 0x5AB0_0000 <= v.shader < 0x5AC0_0000
    ensures Sane(w, maps) && TraceJob(w, maps, p, jitter) == (Traced([Job(p, h), Sabotaged], w, true), h.next)
  {
    SabotageIff(v.shader);
    hide PacketIn, Sane, Fetch, GetWords, Peek, TraceJob, TracePayload, TraceVertexTiler, EncodeVertexTiler,
         DecodeHeader, BitAnd;
    var ws := EncodeVertexTiler(v);
    PacketEnd(w, maps, base, p, h, ws);
    var q := p + HEADER_SIZE;
    FetchHeader(w, maps, base, p, h, ws);
    FetchPayload(w, maps, base, p, h, ws, q, 4 * VT_WORDS);
    SabotagedJob(w, maps, p, q, v, jitter);
    JobPayload(w, maps, p, q, q, jitter);
    JobIs(w, maps, p, h, jitter, Traced([Sabotaged], w, true));
    assert [Job(p, h)] + [Sabotaged] == [Job(p, h), Sabotaged];
  }

  /** The sabotage test asks for the megabyte at 0x5AB00000. */
  lemma SabotageIff(shader: u32)
    ensures BitAnd(shader, 0xFFF0_0000) == 0x5AB0_0000 <==> 0x5AB0_0000 <= shader < 0x5AC0_0000
  {
    Pow2Values();
    assert HighMask(32, 20) == 0xFFF0_0000;
    hide BitAnd, HighMask, Pow2;
    AndHigh(shader, 32, 20);
    Megabyte(shader);
  }

  lemma Megabyte(x: u32)
    ensures x - x % 0x10_0000 == 0x5AB0_0000 <==> 0x5AB0_0000 <= x < 0x5AC0_0000
  {
  }

  // ----- the vertex job -----

  /** The words `ws` stand at `p` in the mapped pool. */
  ghost predicate WordsIn(w: World, maps: seq<Mapping>, base: u32, p: u32, ws: seq<u32>) {
    && Sane(w, maps) && PoolMapped(maps, base) && base < p < base + POOL_SIZE && p + 4 * |ws| <= base + POOL_SIZE
    && At(w.ram, p, LeWords(ws))
  }

  lemma WordsKept(w: World, w': World, maps: seq<Mapping>, base: u32, p: u32, ws: seq<u32>, lo: nat, hi: nat)
    requires WordsIn(w, maps, base, p, ws) && |w'.ram| == |w.ram| && SameOutside(w.ram, w'.ram, lo, hi)
    requires p + 4 * |ws| <= lo || hi <= p
    ensures WordsIn(w', maps, base, p, ws)
  {
    hide PoolMapped, LeWords;
    AtSame(w.ram, w'.ram, p, LeWords(ws));
  }

  lemma PeekAll(w: World, maps: seq<Mapping>, base: u32, p: u32, ws: seq<u32>, sz: u32)
    requires WordsIn(w, maps, base, p, ws) && sz == 4 * |ws|
    ensures Sane(w, maps) && p + sz <= SPACE
    ensures ReadsAs(Peek(w, maps, p, sz), ws)
  {
    hide PoolMapped, LeWords, GetWords, Peek, At;
    PeekWords(w, maps, base, p, ws, sz);
  }

  lemma PeekPair(w: World, maps: seq<Mapping>, base: u32, p: u32, ws: seq<u32>, k: nat)
    requires WordsIn(w, maps, base, p, ws) && k + 1 < |ws|
    ensures Sane(w, maps)
    ensures var b := Peek(w, maps, p + 4 * k, 8);
      b.Some? && Get32(b.value, 0) == ws[k] && Get32(b.value, 4) == ws[k + 1]
  {
    hide PoolMapped, LeWords, Peek;
    ReadQuad(w.ram, p, ws, k);
    PoolPeek(w, maps, base, p + 4 * k, 8);
  }

  lemma MetaSplit(meta: u64)
    ensures BitAnd(meta, 0xFF) == meta % 0x100
    ensures BitAnd(meta, 0xFFFF_FFFF_FFFF_FF00) == meta - meta % 0x100
  {
    Pow2Values();
    assert HighMask(64, 8) == 0xFFFF_FFFF_FFFF_FF00;
    hide BitAnd, HighMask, Pow2;
    AndLow(meta, 8);
    AndHigh(meta, 64, 8);
  }

  /** A framebuffer descriptor is found behind its tag. */
  lemma TraceFbdIs(w: World, maps: seq<Mapping>, base: u32, p: u32, tag: u32, m: Mfbd)
    requires m.Sized() && WordsIn(w, maps, base, p, EncodeMfbd(m)) && p % 0x400 == 0 && tag < 0x40
    ensures Sane(w, maps) && p + tag < WORD32 && TraceFbd(w, maps, p + tag) == Traced([FbdAt(p, tag, m)], w, true)
  {
    hide WordsIn, Sane, GetWords, Peek, EncodeMfbd, DecodeMfbd, ClearLow, Pow2;
    PeekAll(w, maps, base, p, EncodeMfbd(m), 280);
    MfbdRoundTrip(m);
    FbdUntagged(p, tag);
  }

  lemma FbdUntagged(p: u32, tag: u32)
    requires p % 0x400 == 0 && tag < 0x40
    ensures p + tag < WORD32 && ClearLow(p + tag, 6) == p
  {
    Pow2Values();
    assert p % 0x40 == 0 && p + tag < WORD32;
    hide ClearLow, BitOr, Pow2;
    TagRoundTrip(p, tag, 6);
  }

  /** The data of the synthesised attribute: disturbed within its `size` bytes. */
  lemma TraceVerticesIs(w: World, maps: seq<Mapping>, base: u32, p: u32, size: u32, event: Event, jitter: Jitter)
    requires Sane(w, maps) && PoolMapped(maps, base) && base < p < base + POOL_SIZE && p + size <= base + POOL_SIZE
    ensures p + Span(12, size / 12) <= SPACE
    ensures TraceVertices(w, maps, p, size, 3, size / 12, event, jitter)
         == Traced([event], JitterVertices(w, p, 12, size / 12, jitter), true)
    ensures SameOutside(w.ram, JitterVertices(w, p, 12, size / 12, jitter).ram, p, p + size)
    ensures Jittered(w, JitterVertices(w, p, 12, size / 12, jitter), p, 12, size / 12, jitter)
  {
    var count := size / 12;
    PackedSpan(count);
    assert 12 * count <= size;
    assert base + POOL_SIZE <= SPACE;
    hide PoolMapped, Fetch, Span, JitterVertices, SameOutside, Sane, Jittered;
    PoolFetch(maps, base, p, size);
    assert |w.ram| == SPACE by { assert Sane(w, maps); }
    VerticesJittered(w, p, 12, count, jitter);
    JitterFrame(w, p, 12, count, jitter, p, p + size);
  }

  lemma VertexTag(verts: u32)
    requires verts % 0x400 == 0
    ensures ClearLow(verts + 1, 2) == verts
  {
    Pow2Values();
    assert verts % 4 == 0;
    hide ClearLow, BitOr, Pow2;
    TagRoundTrip(verts, 1, 2);
  }

  lemma AttributeIs(w: World, maps: seq<Mapping>, address: u64, raw: u64, size: u32, jitter: Jitter)
    requires Sane(w, maps) && raw + 1 < WORD64 && ClearLow(raw + 1, 2) == raw
    requires ReadsAs(Peek(w, maps, address, 16), EncodeAttributeBuffer(AttributeBuffer(raw + 1, 12, size)))
    ensures TraceAttribute(w, maps, address, jitter)
         == TraceVertices(w, maps, raw, size, 3, size / 12, Vertices(3, raw, 1, size / 12), jitter)
  {
    hide Sane, GetWords, Peek, EncodeAttributeBuffer, DecodeAttributeBuffer, ClearLow, TraceVertices;
    SmallRecordsRoundTrip(SetValue(0, 0), Fragment(0, 0, 0), AttributeBuffer(raw + 1, 12, size),
                          Replay(0, 0, 0, 0, 0, 0, 0, 0, 0, 0));
  }

  lemma TraceAttributeIs(w: World, maps: seq<Mapping>, base: u32, vb: u32, verts: u32, size: u32, jitter: Jitter)
    requires verts % 0x400 == 0 && verts + 1 < WORD32
    requires WordsIn(w, maps, base, vb, EncodeAttributeBuffer(AttributeBuffer(verts + 1, 12, size)))
    requires base < verts < base + POOL_SIZE && verts + size <= base + POOL_SIZE
    ensures Sane(w, maps) && verts + Span(12, size / 12) <= SPACE
    ensures TraceAttribute(w, maps, vb, jitter)
         == Traced([Vertices(3, verts, 1, size / 12)], JitterVertices(w, verts, 12, size / 12, jitter), true)
    ensures SameOutside(w.ram, JitterVertices(w, verts, 12, size / 12, jitter).ram, verts, verts + size)
    ensures Jittered(w, JitterVertices(w, verts, 12, size / 12, jitter), verts, 12, size / 12, jitter)
  {
    assert PoolMapped(maps, base);
    hide Jittered, WordsIn, Sane, PoolMapped, GetWords, Peek, EncodeAttributeBuffer, ClearLow, Pow2, TraceAttribute,
         TraceVertices, JitterVertices, Span, SameOutside;
    PeekAll(w, maps, base, vb, EncodeAttributeBuffer(AttributeBuffer(verts + 1, 12, size)), 16);
    VertexTag(verts);
    AttributeIs(w, maps, vb, verts, size, jitter);
    TraceVerticesIs(w, maps, base, verts, size, Vertices(3, verts, 1, size / 12), jitter);
  }

  ghost predicate MetaAt(w: World, maps: seq<Mapping>, at: u64, meta: u64)
    requires Sane(w, maps)
  {
    var b := Peek(w, maps, at, 8);
    b.Some? && QuadOf(Get32(b.value, 0), Get32(b.value, 4)) == meta
  }

  lemma MetaWord(w: World, maps: seq<Mapping>, base: u32, p: u32, ws: seq<u32>, k: nat)
    requires WordsIn(w, maps, base, p, ws) && k + 1 < |ws|
    ensures Sane(w, maps) && p + 4 * k + 8 <= SPACE && MetaAt(w, maps, p + 4 * k, QuadOf(ws[k], ws[k + 1]))
  {
    hide PoolMapped, LeWords, Peek, Get32;
    PeekPair(w, maps, base, p, ws, k);
  }

  lemma ListStep(w: World, maps: seq<Mapping>, v: nat, at: u64, meta: u64, a: Traced, jitter: Jitter)
    requires Sane(w, maps) && meta != 0 && meta % 0x100 == 0 && v + 4 * VT_WORDS <= SPACE
    requires MetaAt(w, maps, at, meta)
    requires TraceAttribute(w, maps, AttributesIn(w, v), jitter) == a && a.ok && at + 8 < WORD64
    ensures var rest := TraceAttributes(a.world, maps, v, at + 8, jitter);
      TraceAttributes(w, maps, v, at, jitter)
      == Traced([Attribute(0, meta)] + a.events + rest.events, rest.world, rest.ok)
  {
    hide Sane, Peek, Get32, QuadOf, TraceAttribute, BitAnd, AttributesIn;
    MetaSplit(meta);
  }

  lemma ListEnd(w: World, maps: seq<Mapping>, v: nat, at: u64, jitter: Jitter)
    requires Sane(w, maps) && v + 4 * VT_WORDS <= SPACE
    requires MetaAt(w, maps, at, 0)
    ensures TraceAttributes(w, maps, v, at, jitter) == Traced([], w, true)
  {
    hide Sane, Peek, Get32, QuadOf, TraceAttribute, BitAnd, AttributesIn;
  }

  lemma ListOfOne(w: World, maps: seq<Mapping>, v: nat, at: u64, meta: u64, a: Traced, jitter: Jitter)
    requires Sane(w, maps) && meta != 0 && meta % 0x100 == 0 && MetaAt(w, maps, at, meta) && at + 8 < WORD64
    requires v + 4 * VT_WORDS <= SPACE && TraceAttribute(w, maps, AttributesIn(w, v), jitter) == a && a.ok
    requires MetaAt(a.world, maps, at + 8, 0)
    ensures TraceAttributes(w, maps, v, at, jitter) == Traced([Attribute(0, meta)] + a.events, a.world, true)
  {
    hide InSpace, TraceAttribute, TraceAttributes, MetaAt, AttributesIn;
    ListStep(w, maps, v, at, meta, a, jitter);
    ListEnd(a.world, maps, v, at + 8, jitter);
    assert [Attribute(0, meta)] + a.events + [] == [Attribute(0, meta)] + a.events;
  }

  /** A word, and zero after it. */
  lemma QuadSmall(word: u32)
    ensures QuadOf(word, 0) == word
  {
  }

  lemma OneWord(w: World, maps: seq<Mapping>, base: u32, meta: u32, ws: seq<u32>, word: u32)
    requires WordsIn(w, maps, base, meta, ws) && |ws| == 4 && ws[0] == word && ws[1] == ws[2] == ws[3] == 0
    ensures Sane(w, maps) && MetaAt(w, maps, meta, word) && MetaAt(w, maps, meta + 8, 0)
  {
    hide WordsIn, InSpace, MetaAt, QuadOf;
    MetaWord(w, maps, base, meta, ws, 0);
    MetaWord(w, maps, base, meta, ws, 2);
    QuadSmall(word);
    QuadSmall(0);
  }

  /** The metadata list of a synthesised vertex job holds exactly attribute 0: the
      word after it is still zero. */
  lemma OneAttribute(w: World, maps: seq<Mapping>, base: u32, meta: u32, word: u32, v: nat, lo: nat, hi: nat,
                     w': World, event: Event, jitter: Jitter)
    requires word != 0 && word % 0x100 == 0 && WordsIn(w, maps, base, meta, [word, 0, 0, 0]) && hi <= meta
    requires |w'.ram| == |w.ram| && SameOutside(w.ram, w'.ram, lo, hi) && Sane(w, maps)
    requires v + 4 * VT_WORDS <= SPACE
    requires TraceAttribute(w, maps, AttributesIn(w, v), jitter) == Traced([event], w', true)
    ensures TraceAttributes(w, maps, v, meta, jitter) == Traced([Attribute(0, word), event], w', true)
  {
    var a := Traced([event], w', true);
    hide WordsIn, Sane, SameOutside, TraceAttribute, TraceAttributes, MetaAt, AttributesIn;
    assert MetaAt(w, maps, meta, word) by { OneWord(w, maps, base, meta, [word, 0, 0, 0], word); }
    WordsKept(w, w', maps, base, meta, [word, 0, 0, 0], lo, hi);
    assert Sane(w', maps) && MetaAt(w', maps, meta + 8, 0) by { OneWord(w', maps, base, meta, [word, 0, 0, 0], word); }
    ListOfOne(w, maps, v, meta, word, a, jitter);
    assert [Attribute(0, word)] + a.events == [Attribute(0, word), event];
  }

  /** Address and flags of a synthesised vertex shader come apart again. */
  lemma ShaderTag(gpu: u64)
    requires gpu % 0x1000 == 0 && gpu + 5 < WORD64
    ensures TaggedShader(gpu, false) == gpu + 5 && ClearLow(gpu + 5, 4) == gpu && BitAnd(gpu + 5, 15) == 5
  {
    Pow2Values();
    assert SHADER == 1 && SHADER_VERTEX == 4 && BitOr(1, 4) == 5;
    assert gpu % 16 == 0;
    hide BitAnd, BitOr, ClearLow, Pow2;
    OrTag(gpu, 1, 4);
    OrTagged(gpu, 1, 4, 4);
    TagRoundTrip(gpu, 5, 4);
    AndLow(gpu + 5, 4);
    TagSplit(gpu, 5, 16);
  }

  ghost predicate PayloadAt(w: World, v: nat, vt: VertexTiler)
    requires vt.Sized()
  {
    v + 4 * VT_WORDS <= |w.ram| && GetWords(w.ram[v..v + 4 * VT_WORDS]) == EncodeVertexTiler(vt)
  }

  ghost predicate HeaderAt(w: World, p: nat, h: Header) {
    p + HEADER_SIZE <= |w.ram| && DecodeHeader(w.ram[p..p + HEADER_SIZE]) == h
  }

  /** The full path of a vertex job, part by part. */
  lemma VertexJobIs(w: World, maps: seq<Mapping>, p: nat, h: Header, h': Header, vt: VertexTiler, s: u64, a: Traced,
                    tail: Traced, jitter: Jitter)
    requires Sane(w, maps) && vt.Sized() && !IsSabotaged(vt) && h.jobType == JOB_TYPE_VERTEX == h'.jobType
    requires PayloadAt(w, p + HEADER_SIZE, vt) && HeaderAt(w, p, h)
    requires MetaAt(w, maps, vt.shader, s) && Fetch(maps, ClearLow(s, 4), 0x340).Some?
    requires TraceAttributes(w, maps, p + HEADER_SIZE, vt.attributeMeta, jitter) == a && a.ok
    requires PayloadAt(a.world, p + HEADER_SIZE, vt) && HeaderAt(a.world, p, h')
    requires TraceTail(a.world, maps, JOB_TYPE_VERTEX, vt) == tail
    ensures TraceVertexTiler(w, maps, p, p + HEADER_SIZE, jitter)
         == Traced([Shader(true, ClearLow(s, 4), BitAnd(s, 15))] + a.events + tail.events, a.world, tail.ok)
  {
    hide InSpace, GetWords, EncodeVertexTiler, DecodeVertexTiler, DecodeHeader, IsSabotaged, Fetch, Peek, ClearLow,
         BitAnd, TraceAttributes, TraceTail, Get32, QuadOf;
    VertexTilerRoundTrip(vt);
    var shader := [Shader(true, ClearLow(s, 4), BitAnd(s, 15))];
    assert shader + (a.events + tail.events) == shader + a.events + tail.events;
  }

  lemma IsMulti(fbd: u32)
    requires fbd % 0x400 == 0
    ensures fbd + MFBD < WORD32 && BitAnd(fbd + MFBD, 1) == 1
  {
    Pow2Values();
    AndLow(fbd + MFBD, 1);
  }

  /** The entries printed of a vertex job's address array. */
  function Printed(a: seq<u32>): seq<Event>
    requires |a| == 14
  {
    [AddressWord(0, a[0]), AddressWord(1, a[1]), AddressWord(4, a[4]), AddressWord(5, a[5]),
     AddressWord(7, a[7]), AddressWord(8, a[8]), AddressWord(9, a[9]), AddressWord(13, a[13])]
  }

  lemma AddressesEnd(maps: seq<Mapping>, addresses: seq<u32>, jobType: u7)
    ensures TraceAddresses(maps, addresses, jobType, |addresses|) == ([], true)
  {
  }

  /** The next entry that is not passed over. */
  function Following(k: nat, jobType: u7): nat
    decreases 14 - k
  {
    if k < 14 && Skipped(k, jobType) then Following(k + 1, jobType) else k
  }

  lemma {:induction false} SkipEntries(maps: seq<Mapping>, addresses: seq<u32>, jobType: u7, k: nat)
    requires |addresses| == 14
    ensures TraceAddresses(maps, addresses, jobType, k)
         == TraceAddresses(maps, addresses, jobType, Following(k, jobType))
    decreases 14 - k
  {
    if k < 14 && Skipped(k, jobType) { SkipEntries(maps, addresses, jobType, k + 1); }
  }

  lemma NextAddress(maps: seq<Mapping>, addresses: seq<u32>, jobType: u7, k: nat,
                    rest: seq<Event>) returns (es: seq<Event>)
    requires |addresses| == 14 && k < 14 && !Skipped(k, jobType) && Readable(maps, k, addresses[k], jobType)
    requires TraceAddresses(maps, addresses, jobType, Following(k + 1, jobType)) == (rest, true)
    ensures es == [AddressWord(k, addresses[k])] + rest && TraceAddresses(maps, addresses, jobType, k) == (es, true)
  {
    SkipEntries(maps, addresses, jobType, k + 1);
    es := [AddressWord(k, addresses[k])] + rest;
  }

  lemma AddressesPrinted(maps: seq<Mapping>, a: seq<u32>)
    requires |a| == 14 && Readable(maps, 1, a[1], JOB_TYPE_VERTEX) && Readable(maps, 8, a[8], JOB_TYPE_VERTEX)
    ensures TraceAddresses(maps, a, JOB_TYPE_VERTEX, 0) == (Printed(a), true)
  {
    hide TraceAddresses, Fetch;
    var es: seq<Event> := [];
    assert TraceAddresses(maps, a, JOB_TYPE_VERTEX, 14) == (es, true) by { AddressesEnd(maps, a, JOB_TYPE_VERTEX); }
    es := NextAddress(maps, a, JOB_TYPE_VERTEX, 13, es);
    es := NextAddress(maps, a, JOB_TYPE_VERTEX, 9, es);
    es := NextAddress(maps, a, JOB_TYPE_VERTEX, 8, es);
    es := NextAddress(maps, a, JOB_TYPE_VERTEX, 7, es);
    es := NextAddress(maps, a, JOB_TYPE_VERTEX, 5, es);
    es := NextAddress(maps, a, JOB_TYPE_VERTEX, 4, es);
    es := NextAddress(maps, a, JOB_TYPE_VERTEX, 1, es);
    es := NextAddress(maps, a, JOB_TYPE_VERTEX, 0, es);
    assert es == Printed(a);
  }

  function PrintedAddresses(v: VertexTiler): seq<Event> {
    Printed(v.Addresses())
  }

  /** Pointers into the pool can be dereferenced. */
  lemma VertexAddresses(maps: seq<Mapping>, base: u32, v: VertexTiler)
    requires PoolMapped(maps, base)
    requires base < v.unknown1 <= base + POOL_SIZE - 0x10 && base < v.unknown5 <= base + POOL_SIZE - 0x20
    ensures TraceAddresses(maps, v.Addresses(), JOB_TYPE_VERTEX, 0) == (PrintedAddresses(v), true)
  {
    hide PoolMapped, Fetch, TraceAddresses, Printed;
    PoolFetch(maps, base, v.unknown1, 0x10);
    PoolFetch(maps, base, v.unknown5, 0x20);
    AddressesPrinted(maps, v.Addresses());
  }

  /** The drawing mode put into `block1[2]` is the byte the decoder reads at offset 8
      exactly if it fits a byte. */
  lemma ModeReadBack(mode: u32)
    ensures Block1(true, mode)[2] % 0x100 == mode % 0x100
    ensures Block1(true, mode)[2] % 0x100 == mode <==> mode < 0x100
  {
    hide BitOr;
    ModeWordLow(mode, 0x1400_0000, 0x03_0000);
    assert ModeWord(true, mode) == BitOr(0x1400_0000, BitOr(0x03_0000, mode));
    hide ModeWord;
    assert Block1(true, mode)[2] == ModeWord(true, mode);
  }

  lemma ModeWordLow(mode: u32, a: u32, b: u32)
    requires a % 0x100 == 0 && b % 0x100 == 0
    ensures BitOr(a, BitOr(b, mode)) % 0x100 == mode % 0x100
  {
    hide BitAnd, BitOr;
    OrLow(b, mode, 8);
    OrLow(a, BitOr(b, mode), 8);
    Pow2Values();
  }

  /** Low bits that are zero in one operand are those of the other. */
  lemma OrLow(x: nat, y: nat, k: nat)
    requires x % Pow2(k) == 0
    ensures BitOr(x, y) % Pow2(k) == y % Pow2(k)
  {
    AndOverOr(x, y, Pow2(k) - 1);
    AndLow(x, k);
    AndLow(y, k);
    AndLow(BitOr(x, y), k);
  }

  lemma OrZeros()
    ensures BitOr(BitOr(0, 0), 0) == 0
  {
  }

  /** The part after the attributes. */
  lemma TailIs(w: World, maps: seq<Mapping>, vt: VertexTiler, event: Event)
    requires Sane(w, maps) && vt.Sized() && vt.null1 == 0 && vt.null2 == 0 && vt.null4 == 0
    requires BitAnd(vt.fbd, 1) == 1 && TraceFbd(w, maps, vt.fbd) == Traced([event], w, true)
    requires TraceAddresses(maps, vt.Addresses(), JOB_TYPE_VERTEX, 0) == (PrintedAddresses(vt), true)
    ensures TraceTail(w, maps, JOB_TYPE_VERTEX, vt) == Traced([FbdKind(true), event] + PrintedAddresses(vt), w, true)
  {
    OrZeros();
    hide Sane, TraceFbd, TraceAddresses, PrintedAddresses, BitAnd, BitOr;
    assert [] + [] + [FbdKind(true)] + [event] == [FbdKind(true), event];
  }

  /** Everything the decoder reads of a synthesised vertex job is in the pool, above
      its `size` bytes of vertices. */
  ghost predicate VertexIn(w: World, maps: seq<Mapping>, base: u32, p: u32, h: Header, vt: VertexTiler,
                           fbd: u32, gpu: u64, size: u32, m: Mfbd) {
    && vt.Sized() && h.jobType == JOB_TYPE_VERTEX && PacketIn(w, maps, base, p, h, EncodeVertexTiler(vt))
    && VertsIn(w, maps, base, vt.attributes, size) && vt.attributes + 0x400 + size <= p
    && WordsIn(w, maps, base, vt.attributeMeta, [ATTRIBUTE_ZERO, 0, 0, 0])
    && vt.attributes + 0x400 + size <= vt.attributeMeta
    && WordsIn(w, maps, base, vt.shader, EncodeShaderMeta(ShaderMetaOf(false, TaggedShader(gpu, false))))
    && vt.attributes + 0x400 + size <= vt.shader
    && vt.fbd == fbd + MFBD && fbd % 0x400 == 0 && vt.attributes + 0x400 + size <= fbd
    && m.Sized() && WordsIn(w, maps, base, fbd, EncodeMfbd(m))
    && vt.null1 == 0 && vt.null2 == 0 && vt.null4 == 0
    && base < vt.unknown1 <= base + POOL_SIZE - 0x10 && base < vt.unknown5 <= base + POOL_SIZE - 0x20
  }

  ghost predicate VertsIn(w: World, maps: seq<Mapping>, base: u32, vb: u32, size: u32) {
    && vb % 0x400 == 0 && vb + 0x400 + 1 < WORD32 && vb + 0x400 < base + POOL_SIZE
    && vb + 0x400 + size <= base + POOL_SIZE
    && WordsIn(w, maps, base, vb, EncodeAttributeBuffer(AttributeBuffer(vb + 0x400 + 1, 12, size)))
  }

  /** Memory after the decoder has disturbed the vertices. */
  function Disturbed(w: World, vb: u32, size: u32, jitter: Jitter): (w': World)
    requires vb + 0x400 + Span(12, size / 12) <= |w.ram|
    ensures |w'.ram| == |w.ram|
  {
    JitterVertices(w, vb + 0x400, 12, size / 12, jitter)
  }

  lemma VertsTraced(w: World, maps: seq<Mapping>, base: u32, vb: u32, size: u32, jitter: Jitter)
    requires VertsIn(w, maps, base, vb, size)
    ensures Sane(w, maps) && vb + 0x400 + Span(12, size / 12) <= |w.ram|
    ensures var w' := Disturbed(w, vb, size, jitter);
      && SameOutside(w.ram, w'.ram, vb + 0x400, vb + 0x400 + size)
      && Jittered(w, w', vb + 0x400, 12, size / 12, jitter)
      && TraceAttribute(w, maps, vb, jitter) == Traced([Vertices(3, vb + 0x400, 1, size / 12)], w', true)
  {
    hide Jittered, PoolMapped, InSpace, EncodeAttributeBuffer, TraceAttribute, JitterVertices, Span, SameOutside, At,
         LeWords;
    TraceAttributeIs(w, maps, base, vb, vb + 0x400, size, jitter);
  }

  lemma PacketKept(w: World, w': World, maps: seq<Mapping>, base: u32, p: u32, h: Header, ws: seq<u32>, lo: nat,
                   hi: nat)
    requires PacketIn(w, maps, base, p, h, ws) && |w'.ram| == |w.ram| && SameOutside(w.ram, w'.ram, lo, hi)
    requires hi <= p
    ensures PacketIn(w', maps, base, p, h, ws)
  {
    hide PoolMapped, LeWords, EncodeHeader;
    AtSame(w.ram, w'.ram, p, EncodeHeader(h) + LeWords(ws));
  }

  lemma PacketParts(w: World, maps: seq<Mapping>, base: u32, p: u32, h: Header, vt: VertexTiler)
    requires vt.Sized() && PacketIn(w, maps, base, p, h, EncodeVertexTiler(vt))
    ensures |w.ram| == SPACE && PayloadAt(w, p + HEADER_SIZE, vt) && HeaderAt(w, p, h)
    ensures Fetch(maps, p + HEADER_SIZE, 4 * VT_WORDS) == Some(p + HEADER_SIZE)
  {
    hide PacketIn, InSpace, EncodeVertexTiler, GetWords, DecodeHeader, Fetch;
    PacketEnd(w, maps, base, p, h, EncodeVertexTiler(vt));
    FetchHeader(w, maps, base, p, h, EncodeVertexTiler(vt));
    FetchPayload(w, maps, base, p, h, EncodeVertexTiler(vt), p + HEADER_SIZE, 4 * VT_WORDS);
  }

  lemma ShaderTraced(w: World, maps: seq<Mapping>, base: u32, p: u32, gpu: u64)
    requires WordsIn(w, maps, base, p, EncodeShaderMeta(ShaderMetaOf(false, TaggedShader(gpu, false))))
    requires ShaderMapped(maps, gpu)
    ensures Sane(w, maps) && gpu + 5 < WORD64 && MetaAt(w, maps, p, gpu + 5)
    ensures ClearLow(gpu + 5, 4) == gpu && BitAnd(gpu + 5, 15) == 5 && Fetch(maps, gpu, 0x340).Some?
  {
    hide WordsIn, Fetch, Isolated, MetaAt, Lo, Hi, QuadOf, BitAnd, ClearLow, TaggedShader, InSpace;
    ShaderFetch(maps, gpu);
    ShaderTag(gpu);
    var s := TaggedShader(gpu, false);
    QuadRoundTrip(s);
    MetaWord(w, maps, base, p, EncodeShaderMeta(ShaderMetaOf(false, s)), 0);
  }

  /** What is printed of a synthesised vertex job. */
  function VertexEvents(p: u32, h: Header, vt: VertexTiler, fbd: u32, gpu: u64, size: u32, m: Mfbd): seq<Event> {
    [Job(p, h), Shader(true, gpu, 5), Attribute(0, ATTRIBUTE_ZERO), Vertices(3, vt.attributes + 0x400, 1, size / 12),
     FbdKind(true), FbdAt(fbd, 1, m)] + PrintedAddresses(vt)
  }

  lemma AttributesRead(w: World, v: nat, vt: VertexTiler)
    requires vt.Sized() && PayloadAt(w, v, vt)
    ensures v + 4 * VT_WORDS <= |w.ram| && AttributesIn(w, v) == vt.attributes
  {
    hide GetWords, EncodeVertexTiler, DecodeVertexTiler;
    VertexTilerRoundTrip(vt);
  }

  lemma AttributesTraced(w: World, maps: seq<Mapping>, base: u32, meta: u32, v: nat, vb: u32, size: u32, jitter: Jitter)
    requires VertsIn(w, maps, base, vb, size) && v + 4 * VT_WORDS <= |w.ram| == SPACE && AttributesIn(w, v) == vb
    requires WordsIn(w, maps, base, meta, [ATTRIBUTE_ZERO, 0, 0, 0]) && vb + 0x400 + size <= meta
    ensures Sane(w, maps) && vb + 0x400 + Span(12, size / 12) <= |w.ram|
    ensures TraceAttributes(w, maps, v, meta, jitter)
         == Traced([Attribute(0, ATTRIBUTE_ZERO), Vertices(3, vb + 0x400, 1, size / 12)],
             Disturbed(w, vb, size, jitter), true)
  {
    hide VertsIn, WordsIn, InSpace, Disturbed, Span, SameOutside, TraceAttribute, TraceAttributes, AttributesIn,
         Jittered;
    VertsTraced(w, maps, base, vb, size, jitter);
    OneAttribute(w, maps, base, meta, ATTRIBUTE_ZERO, v, vb + 0x400, vb + 0x400 + size, Disturbed(w, vb, size, jitter),
                 Vertices(3, vb + 0x400, 1, size / 12), jitter);
  }

  /** Nothing that is read after the attributes was disturbed. */
  lemma VertexKept(w: World, w': World, maps: seq<Mapping>, base: u32, p: u32, h: Header, vt: VertexTiler, fbd: u32,
                   gpu: u64, size: u32, m: Mfbd)
    requires VertexIn(w, maps, base, p, h, vt, fbd, gpu, size, m)
    requires |w'.ram| == |w.ram| && SameOutside(w.ram, w'.ram, vt.attributes + 0x400, vt.attributes + 0x400 + size)
    ensures PacketIn(w', maps, base, p, h, EncodeVertexTiler(vt)) && WordsIn(w', maps, base, fbd, EncodeMfbd(m))
  {
    hide PacketIn, WordsIn, SameOutside, EncodeVertexTiler, EncodeMfbd, EncodeShaderMeta, VertsIn;
    PacketKept(w, w', maps, base, p, h, EncodeVertexTiler(vt), vt.attributes + 0x400, vt.attributes + 0x400 + size);
    WordsKept(w, w', maps, base, fbd, EncodeMfbd(m), vt.attributes + 0x400, vt.attributes + 0x400 + size);
  }

  lemma VertexTail(w: World, maps: seq<Mapping>, base: u32, vt: VertexTiler, event: Event)
    requires vt.Sized() && PoolMapped(maps, base) && vt.null1 == 0 && vt.null2 == 0 && vt.null4 == 0
    requires base < vt.unknown1 <= base + POOL_SIZE - 0x10 && base < vt.unknown5 <= base + POOL_SIZE - 0x20
    requires Sane(w, maps) && BitAnd(vt.fbd, 1) == 1 && TraceFbd(w, maps, vt.fbd) == Traced([event], w, true)
    ensures TraceTail(w, maps, JOB_TYPE_VERTEX, vt) == Traced([FbdKind(true), event] + PrintedAddresses(vt), w, true)
  {
    hide PoolMapped, Sane, TraceFbd, TraceTail, PrintedAddresses, TraceAddresses, BitAnd;
    VertexAddresses(maps, base, vt);
    TailIs(w, maps, vt, event);
  }

  lemma TailTraced(w: World, maps: seq<Mapping>, base: u32, vt: VertexTiler, fbd: u32, m: Mfbd)
    requires vt.Sized() && m.Sized() && WordsIn(w, maps, base, fbd, EncodeMfbd(m)) && fbd % 0x400 == 0
    requires vt.fbd == fbd + MFBD && vt.null1 == 0 && vt.null2 == 0 && vt.null4 == 0
    requires base < vt.unknown1 <= base + POOL_SIZE - 0x10 && base < vt.unknown5 <= base + POOL_SIZE - 0x20
    ensures Sane(w, maps) && TraceTail(w, maps, JOB_TYPE_VERTEX, vt)
         == Traced([FbdKind(true), FbdAt(fbd, 1, m)] + PrintedAddresses(vt), w, true)
  {
    hide EncodeMfbd, LeWords, At, PoolMapped, TraceFbd, TraceTail, PrintedAddresses, BitAnd, InSpace;
    var event := FbdAt(fbd, 1, m);
    assert PoolMapped(maps, base) && Sane(w, maps);
    hide WordsIn, Sane;
    assert TraceFbd(w, maps, vt.fbd) == Traced([event], w, true) by { TraceFbdIs(w, maps, base, fbd, MFBD, m); }
    assert BitAnd(vt.fbd, 1) == 1 by { IsMulti(fbd); }
    VertexTail(w, maps, base, vt, event);
  }

  lemma VertexPayload(w: World, w': World, maps: seq<Mapping>, base: u32, p: u32, h: Header, vt: VertexTiler,
                      fbd: u32, gpu: u64, size: u32, m: Mfbd, a: Traced, jitter: Jitter)
    requires VertexIn(w, maps, base, p, h, vt, fbd, gpu, size, m) && ShaderMapped(maps, gpu) && !IsSabotaged(vt)
    requires Sane(w, maps) && p + HEADER_SIZE + 4 * VT_WORDS <= SPACE
    requires TraceAttributes(w, maps, p + HEADER_SIZE, vt.attributeMeta, jitter) == a && a.ok
    requires a.world == w'
    requires |w'.ram| == |w.ram| && SameOutside(w.ram, w'.ram, vt.attributes + 0x400, vt.attributes + 0x400 + size)
    ensures p + HEADER_SIZE + 4 * VT_WORDS <= SPACE
    ensures TraceVertexTiler(w, maps, p, p + HEADER_SIZE, jitter)
         == Traced([Shader(true, gpu, 5)] + a.events
                   + ([FbdKind(true), FbdAt(fbd, 1, m)] + PrintedAddresses(vt)), w', true)
  {
    assert vt.Sized() && PoolMapped(maps, base);
    VertexKept(w, w', maps, base, p, h, vt, fbd, gpu, size, m);
    hide PacketIn, WordsIn, InSpace, PoolMapped, ShaderMapped, EncodeVertexTiler, EncodeMfbd, EncodeShaderMeta,
         VertsIn, SameOutside, PrintedAddresses, TraceVertexTiler, TraceAttributes, TraceTail, TraceFbd, BitAnd,
         IsSabotaged, PayloadAt, HeaderAt, Fetch, MetaAt, ClearLow, TaggedShader;
    TailTraced(w', maps, base, vt, fbd, m);
    PacketParts(w, maps, base, p, h, vt);
    PacketParts(w', maps, base, p, h, vt);
    ShaderTraced(w, maps, base, vt.shader, gpu);
    assert p + HEADER_SIZE + 4 * VT_WORDS <= SPACE by { PacketEnd(w, maps, base, p, h, EncodeVertexTiler(vt)); }
    VertexJobIs(w, maps, p, h, h, vt, gpu + 5, a, TraceTail(w', maps, JOB_TYPE_VERTEX, vt), jitter);
  }

  /** Tracing a vertex or tiler job is tracing its payload, with the header before and the link after it. */
  lemma AroundPayload(w: World, maps: seq<Mapping>, base: u32, p: u32, h: Header, vt: VertexTiler, t: Traced,
                      jitter: Jitter)
    requires vt.Sized() && PacketIn(w, maps, base, p, h, EncodeVertexTiler(vt))
    requires PacketIn(t.world, maps, base, p, h, EncodeVertexTiler(vt))
    requires h.jobType == JOB_TYPE_VERTEX || h.jobType == JOB_TYPE_TILER
    requires Sane(w, maps) && p + HEADER_SIZE + 4 * VT_WORDS <= SPACE
    requires TraceVertexTiler(w, maps, p, p + HEADER_SIZE, jitter) == t
    ensures TraceJob(w, maps, p, jitter) == (Traced([Job(p, h)] + t.events, t.world, t.ok), h.next)
  {
    hide PacketIn, InSpace, Fetch, GetWords, Peek, TraceJob, TracePayload, TraceVertexTiler, EncodeVertexTiler,
         DecodeHeader;
    var ws := EncodeVertexTiler(vt);
    FetchHeader(w, maps, base, p, h, ws);
    FetchHeader(t.world, maps, base, p, h, ws);
    FetchPayload(w, maps, base, p, h, ws, p + HEADER_SIZE, 4 * VT_WORDS);
    JobPayload(w, maps, p, p + HEADER_SIZE, p + HEADER_SIZE, jitter);
    JobIs(w, maps, p, h, jitter, t);
  }

  /** The vertices are disturbed, the packet is not. */
  lemma VertexSetup(w: World, maps: seq<Mapping>, base: u32, p: u32, h: Header, vt: VertexTiler, fbd: u32, gpu: u64,
                    size: u32, m: Mfbd, jitter: Jitter)
    requires VertexIn(w, maps, base, p, h, vt, fbd, gpu, size, m)
    ensures Sane(w, maps) && vt.attributes + 0x400 + Span(12, size / 12) <= |w.ram|
    ensures p + HEADER_SIZE + 4 * VT_WORDS <= SPACE
    ensures var w' := Disturbed(w, vt.attributes, size, jitter);
      && SameOutside(w.ram, w'.ram, vt.attributes + 0x400, vt.attributes + 0x400 + size)
      && PacketIn(w', maps, base, p, h, EncodeVertexTiler(vt))
      && Jittered(w, w', vt.attributes + 0x400, 12, size / 12, jitter)
      && TraceAttributes(w, maps, p + HEADER_SIZE, vt.attributeMeta, jitter)
         == Traced([Attribute(0, ATTRIBUTE_ZERO), Vertices(3, vt.attributes + 0x400, 1, size / 12)], w', true)
  {
    hide PacketIn, WordsIn, InSpace, VertsIn, Span, SameOutside, Disturbed, TraceAttribute, TraceAttributes,
         Jittered, EncodeVertexTiler, EncodeMfbd, EncodeShaderMeta, TaggedShader, AttributesIn, PayloadAt, HeaderAt;
    var vb := vt.attributes;
    VertsTraced(w, maps, base, vb, size, jitter);
    VertexKept(w, Disturbed(w, vb, size, jitter), maps, base, p, h, vt, fbd, gpu, size, m);
    PacketParts(w, maps, base, p, h, vt);
    AttributesRead(w, p + HEADER_SIZE, vt);
    AttributesTraced(w, maps, base, vt.attributeMeta, p + HEADER_SIZE, vb, size, jitter);
  }

  lemma JoinEvents(p: u32, h: Header, vt: VertexTiler, fbd: u32, gpu: u64, size: u32, m: Mfbd)
    ensures [Job(p, h)] + ([Shader(true, gpu, 5)]
              + [Attribute(0, ATTRIBUTE_ZERO), Vertices(3, vt.attributes + 0x400, 1, size / 12)]
              + ([FbdKind(true), FbdAt(fbd, 1, m)] + PrintedAddresses(vt)))
         == VertexEvents(p, h, vt, fbd, gpu, size, m)
  {
    hide PrintedAddresses;
  }

  /** The vertex job takes the full path, disturbs its vertices and leads on to its link. */
  lemma TraceVertex(w: World, maps: seq<Mapping>, base: u32, p: u32, h: Header, vt: VertexTiler, fbd: u32, gpu: u64,
                    size: u32, m: Mfbd, jitter: Jitter)
    requires VertexIn(w, maps, base, p, h, vt, fbd, gpu, size, m) && ShaderMapped(maps, gpu)
    requires !(0x5AB0_0000 <= vt.shader < 0x5AC0_0000)
    ensures Sane(w, maps) && vt.attributes + 0x400 + Span(12, size / 12) <= |w.ram|
    ensures var w' := Disturbed(w, vt.attributes, size, jitter);
      && SameOutside(w.ram, w'.ram, vt.attributes + 0x400, vt.attributes + 0x400 + size)
      && Jittered(w, w', vt.attributes + 0x400, 12, size / 12, jitter)
      && TraceJob(w, maps, p, jitter) == (Traced(VertexEvents(p, h, vt, fbd, gpu, size, m), w', true), h.next)
  {
    assert PacketIn(w, maps, base, p, h, EncodeVertexTiler(vt)) && h.jobType == JOB_TYPE_VERTEX && vt.Sized();
    assert !IsSabotaged(vt) by { SabotageIff(vt.shader); }
    hide VertexIn, PacketIn, Sane, ShaderMapped, Span, SameOutside, Disturbed, Jittered, IsSabotaged, EncodeVertexTiler,
         PrintedAddresses, TraceVertexTiler, TraceAttributes, TraceJob, VertexEvents;
    VertexSetup(w, maps, base, p, h, vt, fbd, gpu, size, m, jitter);
    var a := TraceAttributes(w, maps, p + HEADER_SIZE, vt.attributeMeta, jitter);
    VertexPayload(w, a.world, maps, base, p, h, vt, fbd, gpu, size, m, a, jitter);
    AroundPayload(w, maps, base, p, h, vt, TraceVertexTiler(w, maps, p, p + HEADER_SIZE, jitter), jitter);
    JoinEvents(p, h, vt, fbd, gpu, size, m);
  }
}
