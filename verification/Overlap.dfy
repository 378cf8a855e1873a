/** A chain whose vertex data overlaps its own header: one job that links to none, and
    a walk that never ends.  The job's attribute has one vertex of twelve bytes, which
    are the two dependency fields and the link of its header.  Its three words are zero;
    the decoder adds a random 0.125 to the second, and 0.125 as a word is 0x3E000000,
    the address of the job. */
module Overlap {
  import opened Bits
  import opened Memory
  import opened Layouts
  import opened ShadowMap
  import opened Translation
  import opened Pool
  import opened JobImages
  import opened Decoder
  import opened Fetching
  import opened JobTraces
  import opened Chains
  import opened Plans
  import opened ChainWalks

  const SELF: u32 := 0x3E00_0000
  const BASE: u32 := 0x3DFF_F000
  /** Offset of the two dependency fields in a header; the link follows them. */
  const DEPENDENCIES: nat := 20

  /** Random numbers 0, 128, 0, 0 and so on, over 1024: the sum is taken where it is
      0.0 + 0.125, and elsewhere leaves the vertex as it is. */
  function Draws(): Jitter {
    (n: nat, v: u32) => if n == 1 then SELF else v
  }

  function OnePool(): seq<Mapping> {
    [Mapping(POOL_SIZE, BASE, BASE)]
  }

  function SelfHeader(next: u64): Header {
    Header(0, 0, 0, false, JOB_TYPE_VERTEX, 0, 0, 0, 0, next)
  }

  function SelfPayload(): (vt: VertexTiler)
    ensures vt.Sized()
  {
    VertexTiler(Words(11), 0, 0, 0, 0, 0, SELF + 0x400, SELF + 0x800, SELF + 0xC00, 0, 0, 0, 0, SELF + 0x1000, 0,
                Words(36))
  }

  const SHADER_WORDS: seq<u32> := [SELF, 0]
  const META_WORDS: seq<u32> := [0x100, 0, 0, 0]

  function SelfBuffer(): AttributeBuffer {
    AttributeBuffer(SELF + DEPENDENCIES + 1, 12, 12)
  }

  /** Memory with the job and its records; the link is `next`. */
  ghost predicate SelfIn(w: World, next: u64) {
    && PacketIn(w, OnePool(), BASE, SELF, SelfHeader(next), EncodeVertexTiler(SelfPayload()))
    && WordsIn(w, OnePool(), BASE, SELF + 0x400, SHADER_WORDS)
    && WordsIn(w, OnePool(), BASE, SELF + 0x800, EncodeAttributeBuffer(SelfBuffer()))
    && WordsIn(w, OnePool(), BASE, SELF + 0xC00, META_WORDS)
  }

  lemma PoolIsMapped()
    ensures PoolMapped(OnePool(), BASE)
  {
    var l := OnePool();
    assert l[0] == Mapping(POOL_SIZE, BASE, BASE) && Apart(l, 0);
  }

  // ----- the three words -----

  lemma WordIn(m: Bytes, p: nat, b: Bytes, at: nat)
    requires At(m, p, b) && at + 4 <= |b|
    ensures Get32(m, p + at) == Get32(b, at)
  {
    AtIndex(m, p, b, at);
    AtIndex(m, p, b, at + 1);
    AtIndex(m, p, b, at + 2);
    AtIndex(m, p, b, at + 3);
  }

  lemma HeaderWords(m: Bytes, p: nat, next: u64, r: Bytes)
    requires At(m, p, EncodeHeader(SelfHeader(next)) + r)
    ensures p + HEADER_SIZE <= |m|
    ensures Get32(m, p + 20) == 0 && Get32(m, p + 24) == Lo(next) && Get32(m, p + 28) == Hi(next)
  {
    var b := EncodeHeader(SelfHeader(next)) + r;
    WordIn(m, p, b, 20);
    WordIn(m, p, b, 24);
    WordIn(m, p, b, 28);
    assert b[20] == b[21] == b[22] == b[23] == 0;
    Le32Sum(Lo(next));
    Le32Sum(Hi(next));
  }

  /** Storing the low word of a link whose high word is zero sets the link. */
  lemma LinkStored(h: Header, r: Bytes, next: u32)
    requires Hi(h.next) == 0
    ensures Splice(EncodeHeader(h) + r, 24, Le32(next)) == EncodeHeader(h.(next := next)) + r
  {
    assert Lo(next) == next && Hi(next) == 0;
    hide Le32, Le16, Lo, Hi;
  }

  /** The low word of the link overwritten. */
  lemma LinkPut(w: World, draws: nat)
    requires SelfIn(w, 0)
    ensures |w.ram| == SPACE
    ensures var m := Put(w.ram, SELF + 24, Le32(SELF));
      SelfIn(World(m, draws), SELF) && SameOutside(w.ram, m, SELF + DEPENDENCIES, SELF + HEADER_SIZE)
  {
    hide PoolMapped, InSpace, EncodeHeader, EncodeVertexTiler, EncodeAttributeBuffer, LeWords, Le32, SelfPayload,
         SelfBuffer;
    var r := LeWords(EncodeVertexTiler(SelfPayload()));
    var m := Put(w.ram, SELF + 24, Le32(SELF));
    var w' := World(m, draws);
    PutSplice(w.ram, SELF, EncodeHeader(SelfHeader(0)) + r, 24, Le32(SELF));
    LinkStored(SelfHeader(0), r, SELF);
    assert At(m, SELF, EncodeHeader(SelfHeader(SELF)) + r);
    hide At;
    WordsKept(w, w', OnePool(), BASE, SELF + 0x400, SHADER_WORDS, SELF + 24, SELF + 28);
    WordsKept(w, w', OnePool(), BASE, SELF + 0x800, EncodeAttributeBuffer(SelfBuffer()), SELF + 24, SELF + 28);
    WordsKept(w, w', OnePool(), BASE, SELF + 0xC00, META_WORDS, SELF + 24, SELF + 28);
  }

  /** The state of the loop: before its first round, and ever after. */
  ghost predicate Looping(w: World, next: u64) {
    SelfIn(w, next) && ((next == 0 && w.draws == 0) || (next == SELF && w.draws >= 3))
  }

  /** The vertices disturbed: the link is now the job itself, and stays that. */
  lemma SelfDisturbed(w: World, next: u64)
    requires Looping(w, next)
    ensures |w.ram| == SPACE
    ensures var w' := JitterVertex(w, SELF + DEPENDENCIES, Draws());
      Looping(w', SELF) && SameOutside(w.ram, w'.ram, SELF + DEPENDENCIES, SELF + HEADER_SIZE)
  {
    var r := LeWords(EncodeVertexTiler(SelfPayload()));
    assert At(w.ram, SELF, EncodeHeader(SelfHeader(next)) + r) && |w.ram| == SPACE;
    hide SelfIn, EncodeHeader, EncodeVertexTiler, LeWords, Get32, Le32, SelfPayload, Put, JitterWord;
    var p := SELF + DEPENDENCIES;
    HeaderWords(w.ram, SELF, next, r);
    WordStays(w, p, Draws());
    var w1 := World(w.ram, w.draws + 1);
    if next == 0 {
      LinkPut(w, 2);
      LinkPut(w, 3);
      var w2 := World(Put(w.ram, SELF + 24, Le32(SELF)), 2);
      FirstDraw(w1);
      WordStays(w2, p + 8, Draws());
    } else {
      WordStays(w1, p + 4, Draws());
      WordStays(World(w.ram, w.draws + 2), p + 8, Draws());
      SameSelf(w, w.draws + 3);
      assert SameOutside(w.ram, w.ram, SELF + DEPENDENCIES, SELF + HEADER_SIZE);
    }
  }

  lemma FirstDraw(w: World)
    requires |w.ram| == SPACE && w.draws == 1
    ensures JitterWord(w, SELF + 24, Draws()) == World(Put(w.ram, SELF + 24, Le32(SELF)), 2)
  {
    hide Put, Le32, Get32;
  }

  lemma SameSelf(w: World, draws: nat)
    requires SelfIn(w, SELF)
    ensures SelfIn(World(w.ram, draws), SELF)
  {
    hide PoolMapped, EncodeHeader, EncodeVertexTiler, LeWords, EncodeAttributeBuffer, SelfPayload, SelfBuffer, At;
  }

  // ----- one round -----

  /** The attribute is the job's own header. */
  lemma SelfAttribute(w: World, next: u64)
    requires Looping(w, next)
    ensures Sane(w, OnePool()) && SELF + DEPENDENCIES + 12 <= |w.ram|
    ensures TraceAttribute(w, OnePool(), SELF + 0x800, Draws())
         == Traced([Vertices(3, SELF + DEPENDENCIES, 1, 1)], JitterVertex(w, SELF + DEPENDENCIES, Draws()), true)
  {
    hide PoolMapped, InSpace, EncodeHeader, EncodeVertexTiler, EncodeAttributeBuffer, LeWords, At, SelfPayload,
         GetWords, Peek, PacketIn, TraceAttribute, Fetch, JitterVertex, BitAnd, HighMask;
    var raw := SELF + DEPENDENCIES;
    assert Sane(w, OnePool()) && WordsIn(w, OnePool(), BASE, SELF + 0x800, EncodeAttributeBuffer(SelfBuffer()));
    hide WordsIn, SelfIn;
    PoolIsMapped();
    PeekAll(w, OnePool(), BASE, SELF + 0x800, EncodeAttributeBuffer(SelfBuffer()), 16);
    assert ClearLow(raw + 1, 2) == raw by { SelfTag(raw); }
    AttributeIs(w, OnePool(), SELF + 0x800, raw, 12, Draws());
    PoolFetch(OnePool(), BASE, raw, 12);
  }

  lemma SelfTag(raw: u64)
    requires raw % 4 == 0 && raw + 1 < WORD64
    ensures ClearLow(raw + 1, 2) == raw
  {
    Pow2Values();
    hide ClearLow, BitOr, Pow2;
    TagRoundTrip(raw, 1, 2);
  }

  /** The metadata list has that attribute only. */
  lemma SelfAttributes(w: World, next: u64)
    requires Looping(w, next)
    ensures Sane(w, OnePool()) && |w.ram| == SPACE
    ensures TraceAttributes(w, OnePool(), SELF + HEADER_SIZE, SELF + 0xC00, Draws())
         == Traced([Attribute(0, 0x100), Vertices(3, SELF + DEPENDENCIES, 1, 1)],
                   JitterVertex(w, SELF + DEPENDENCIES, Draws()), true)
  {
    hide PoolMapped, InSpace, EncodeHeader, EncodeVertexTiler, EncodeAttributeBuffer, LeWords, At, SelfPayload,
         PacketIn, TraceAttribute, TraceAttributes, JitterVertex, SameOutside, AttributesIn, PayloadAt, HeaderAt;
    assert Sane(w, OnePool()) && WordsIn(w, OnePool(), BASE, SELF + 0xC00, META_WORDS) && |w.ram| == SPACE;
    hide WordsIn;
    PacketParts(w, OnePool(), BASE, SELF, SelfHeader(next), SelfPayload());
    AttributesRead(w, SELF + HEADER_SIZE, SelfPayload());
    SelfPointers();
    hide SelfIn;
    SelfDisturbed(w, next);
    SelfAttribute(w, next);
    OneAttribute(w, OnePool(), BASE, SELF + 0xC00, 0x100, SELF + HEADER_SIZE, SELF + DEPENDENCIES, SELF + HEADER_SIZE,
                 JitterVertex(w, SELF + DEPENDENCIES, Draws()), Vertices(3, SELF + DEPENDENCIES, 1, 1), Draws());
  }

  /** Nothing of the rest kills the decoder: every pointer is 0 or into the pool. */
  lemma SelfTail(w: World)
    requires Sane(w, OnePool())
    ensures TraceTail(w, OnePool(), JOB_TYPE_VERTEX, SelfPayload()).ok
  {
    hide InSpace, Fetch, PoolMapped, TraceTail, TraceAddresses, BitAnd, HighMask;
    var vt := SelfPayload();
    PoolIsMapped();
    TailPlanned(w, OnePool(), JOB_TYPE_VERTEX, vt);
    assert ClearLow(vt.fbd, 6) == SELF + 0x1000 by { FbdUntagged(SELF + 0x1000, 0); }
    PoolFetch(OnePool(), BASE, SELF + 0x1000, 280);
    AddressesPrinted(OnePool(), vt.Addresses());
  }

  lemma SelfShader(w: World, next: u64)
    requires Looping(w, next)
    ensures Sane(w, OnePool()) && MetaAt(w, OnePool(), SELF + 0x400, SELF)
    ensures Fetch(OnePool(), ClearLow(SELF, 4), 0x340).Some? && !IsSabotaged(SelfPayload())
  {
    hide InSpace, Fetch, PoolMapped, EncodeHeader, EncodeVertexTiler, EncodeAttributeBuffer, LeWords, At, PacketIn,
         Peek, Get32, BitAnd, HighMask;
    assert WordsIn(w, OnePool(), BASE, SELF + 0x400, SHADER_WORDS);
    hide WordsIn, SelfIn;
    PoolIsMapped();
    MetaWord(w, OnePool(), BASE, SELF + 0x400, SHADER_WORDS, 0);
    QuadSmall(SELF);
    assert ClearLow(SELF, 4) == SELF by { Aligned(SELF); }
    PoolFetch(OnePool(), BASE, SELF, 0x340);
    SabotageIff(SELF + 0x400);
  }

  lemma Aligned(p: u64)
    requires p % 16 == 0
    ensures ClearLow(p, 4) == p
  {
    Pow2Values();
    hide ClearLow, BitOr, Pow2;
    TagRoundTrip(p, 0, 4);
  }

  /** One round of the walk: the job is left by a link to itself. */
  lemma SelfRound(w: World, next: u64)
    requires Looping(w, next)
    ensures Sane(w, OnePool())
    ensures var (t, link) := TraceJob(w, OnePool(), SELF, Draws());
      t.ok && link == SELF && Looping(t.world, SELF)
  {
    hide PoolMapped, InSpace, EncodeVertexTiler, LeWords, At, TraceAttributes, TraceTail, TraceVertexTiler,
         TracePayload, TraceJob, JitterVertex, SameOutside, IsSabotaged, MetaAt, Fetch, ClearLow, BitAnd, PayloadAt,
         HeaderAt, DecodeHeader, WordsIn, PacketIn, SelfPayload;
    var maps, h, h', vt := OnePool(), SelfHeader(next), SelfHeader(SELF), SelfPayload();
    SelfDisturbed(w, next);
    var w' := JitterVertex(w, SELF + DEPENDENCIES, Draws());
    SelfAttributes(w, next);
    SelfShader(w, next);
    assert Sane(w', maps);
    SelfTail(w');
    PacketParts(w, maps, BASE, SELF, h, vt);
    PacketParts(w', maps, BASE, SELF, h', vt);
    assert vt.shader == SELF + 0x400 && vt.attributes == SELF + 0x800 && vt.attributeMeta == SELF + 0xC00 by {
      SelfPointers();
    }
    var a := TraceAttributes(w, maps, SELF + HEADER_SIZE, SELF + 0xC00, Draws());
    VertexJobIs(w, maps, SELF, h, h', vt, SELF, a, TraceTail(w', maps, JOB_TYPE_VERTEX, vt), Draws());
    SelfLeft(w, w', h, h');
  }

  lemma SelfPointers()
    ensures SelfPayload().shader == SELF + 0x400 && SelfPayload().attributes == SELF + 0x800
    ensures SelfPayload().attributeMeta == SELF + 0xC00
  {
  }

  /** Around the payload: the header before, the link after. */
  lemma SelfLeft(w: World, w': World, h: Header, h': Header)
    requires PacketIn(w, OnePool(), BASE, SELF, h, EncodeVertexTiler(SelfPayload())) && h.jobType == JOB_TYPE_VERTEX
    requires PacketIn(w', OnePool(), BASE, SELF, h', EncodeVertexTiler(SelfPayload()))
    requires Sane(w, OnePool()) && SELF + HEADER_SIZE + 4 * VT_WORDS <= SPACE
    requires TraceVertexTiler(w, OnePool(), SELF, SELF + HEADER_SIZE, Draws()).world == w'
    ensures var (t, link) := TraceJob(w, OnePool(), SELF, Draws());
      && t.ok == TraceVertexTiler(w, OnePool(), SELF, SELF + HEADER_SIZE, Draws()).ok
      && t.world == w' && link == h'.next
  {
    hide PacketIn, InSpace, Fetch, GetWords, Peek, TraceJob, TracePayload, TraceVertexTiler, EncodeVertexTiler,
         DecodeHeader;
    var maps, ws := OnePool(), EncodeVertexTiler(SelfPayload());
    FetchHeader(w, maps, BASE, SELF, h, ws);
    FetchHeader(w', maps, BASE, SELF, h', ws);
    FetchPayload(w, maps, BASE, SELF, h, ws, SELF + HEADER_SIZE, 4 * VT_WORDS);
    JobPayload(w, maps, SELF, SELF + HEADER_SIZE, SELF + HEADER_SIZE, Draws());
    JobIs(w, maps, SELF, h, Draws(), TraceVertexTiler(w, maps, SELF, SELF + HEADER_SIZE, Draws()));
  }

  lemma {:induction false} NeverEnds(w: World, next: u64, steps: nat)
    requires Looping(w, next)
    ensures Sane(w, OnePool()) && Walk(w, OnePool(), SELF, Draws(), steps).ending == Unfinished
    decreases steps
  {
    hide TraceJob, InSpace, SelfIn;
    SelfRound(w, next);
    if steps > 0 {
      NeverEnds(TraceJob(w, OnePool(), SELF, Draws()).0.world, SELF, steps - 1);
    }
  }

  // ----- such a memory exists -----

  lemma SelfMemory() returns (w: World)
    ensures Looping(w, 0)
  {
    hide EncodeHeader, EncodeVertexTiler, EncodeAttributeBuffer, LeWords, At, SelfPayload, Put, PoolMapped;
    var packet := EncodeHeader(SelfHeader(0)) + LeWords(EncodeVertexTiler(SelfPayload()));
    var shader, meta := LeWords(SHADER_WORDS), LeWords(META_WORDS);
    var buffer := LeWords(EncodeAttributeBuffer(SelfBuffer()));
    var m1 := Put(Zeros(SPACE), SELF, packet);
    var m2 := Put(m1, SELF + 0x400, shader);
    PutKeeps(m1, SELF, packet, SELF + 0x400, shader);
    var m3 := Put(m2, SELF + 0x800, buffer);
    PutKeeps(m2, SELF, packet, SELF + 0x800, buffer);
    PutKeeps(m2, SELF + 0x400, shader, SELF + 0x800, buffer);
    var m4 := Put(m3, SELF + 0xC00, meta);
    PutKeeps(m3, SELF, packet, SELF + 0xC00, meta);
    PutKeeps(m3, SELF + 0x400, shader, SELF + 0xC00, meta);
    PutKeeps(m3, SELF + 0x800, buffer, SELF + 0xC00, meta);
    w := World(m4, 0);
    PoolIsMapped();
  }

  /** The chain from the job links to no other job, in the memory the walk starts from. */
  lemma SelfLinksNowhere(w: World)
    requires Looping(w, 0)
    ensures Sane(w, OnePool()) && LinksIn(w, OnePool())(SELF) == 0 && Acyclic(LinksIn(w, OnePool()), SELF)
  {
    hide PoolMapped, InSpace, EncodeVertexTiler, LeWords, At, Fetch, DecodeHeader, EncodeHeader, WordsIn;
    FetchHeader(w, OnePool(), BASE, SELF, SelfHeader(0), EncodeVertexTiler(SelfPayload()));
    var f := LinksIn(w, OnePool());
    NoLinkAtZero(w, OnePool());
    assert Orbit(f, SELF, 1) == f(SELF);
    EndsIsAcyclic(f, SELF, 1);
  }

  /** The input: a chain of one job, acyclic and without anything that would kill the
      decoder, and yet whatever the number of steps the walk has not ended.  What fails
      is only that its vertices keep clear of its header. */
  lemma OverlapNeverEnds() returns (w: World, maps: seq<Mapping>, a: u64, jitter: Jitter)
    ensures Sane(w, maps) && a != 0 && Acyclic(LinksIn(w, maps), a) && LinksIn(w, maps)(a) == 0
    ensures forall steps: nat :: Walk(w, maps, a, jitter, steps).ending == Unfinished
    ensures !KeepsClear(w, maps, a)
  {
    hide Looping, Walk, InSpace, KeepsClear, LinksIn;
    w := SelfMemory();
    maps, a, jitter := OnePool(), SELF, Draws();
    SelfLinksNowhere(w);
    forall steps: nat ensures Walk(w, maps, a, jitter, steps).ending == Unfinished { NeverEnds(w, 0, steps); }
    if KeepsClear(w, maps, a) { WalkEndsIff(w, maps, a, jitter); }
  }
}
