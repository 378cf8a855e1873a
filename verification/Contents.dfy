/** The bytes of a synthesised chain, by address and offset: what each word of it is, and
    what stands behind each pointer. */
module Contents {
  import opened Bits
  import opened Memory
  import opened Layouts
  import opened Pool
  import opened JobImages
  import opened Synthesiser
  import opened Fetching
  import opened RoundTrip
  import opened AtomTraces

  // ----- words at offsets -----

  /** The words `ws` stand in memory from address `a` on. */
  ghost predicate Stand(m: Bytes, a: nat, ws: seq<u32>) {
    a + 4 * |ws| <= |m| && forall k | 0 <= k < |ws| :: Get32(m, a + 4 * k) == ws[k]
  }

  lemma Standing(m: Bytes, a: nat, ws: seq<u32>)
    requires At(m, a, LeWords(ws))
    ensures Stand(m, a, ws)
  {
    hide At, LeWords, Get32;
    assert a + 4 * |ws| <= |m| by { InBounds(m, a, LeWords(ws)); }
    forall k | 0 <= k < |ws| ensures Get32(m, a + 4 * k) == ws[k] { WordAt(m, a, ws, k); }
  }

  lemma InBounds(m: Bytes, a: nat, bs: Bytes)
    requires At(m, a, bs)
    ensures a + |bs| <= |m|
  {
  }

  /** A job header: state, type with the width bit below it, barrier bits, index, the two
      dependencies and the link, at their offsets. */
  ghost predicate HeaderStands(m: Bytes, a: nat, wide: bool, jobType: u7, index: u16, dependency1: u16,
                               dependency2: u16, next: u64)
  {
    && a + 32 <= |m| && (forall i | a <= i < a + 16 :: m[i] == 0)
    && m[a + 16] == 2 * jobType + (if wide then 1 else 0) && m[a + 17] == 0
    && Get16(m, a + 18) == index && Get16(m, a + 20) == dependency1 && Get16(m, a + 22) == dependency2
    && Get64(m, a + 24) == next
  }

  lemma HeaderStanding(m: Bytes, a: nat, h: Header)
    requires At(m, a, EncodeHeader(h))
    requires h.exceptionStatus == h.firstIncompleteTask == h.faultPointer == h.barrier == 0
    ensures HeaderStands(m, a, h.is64, h.jobType, h.index, h.dependency1, h.dependency2, h.next)
  {
    var b := EncodeHeader(h);
    forall i | 0 <= i < 32 ensures m[a + i] == b[i] { AtIndex(m, a, b, i); }
    HeaderAtOffsets(h);
  }

  lemma HeaderAtOffsets(h: Header)
    requires h.exceptionStatus == h.firstIncompleteTask == h.faultPointer == h.barrier == 0
    ensures var b := EncodeHeader(h);
      && (forall i | 0 <= i < 16 :: b[i] == 0) && b[16] == 2 * h.jobType + (if h.is64 then 1 else 0) && b[17] == 0
      && Get16(b, 18) == h.index && Get16(b, 20) == h.dependency1 && Get16(b, 22) == h.dependency2
      && Get64(b, 24) == h.next
  {
    var b := EncodeHeader(h);
    var front := b[..24];
    assert b == front + Le64(h.next) + [];
    FieldAt64(front, h.next, []);
    hide Get64;
    ZeroWord();
  }

  lemma ZeroWord()
    ensures Le32(0) == [0, 0, 0, 0] && Le64(0) == [0, 0, 0, 0, 0, 0, 0, 0]
  {
  }

  // ----- the framebuffer descriptor -----

  /** The seventy words of the descriptor. */
  function DescriptorWords(tiler: bool, heapFree: u64, scratchpad: u64): (ws: seq<u32>)
    ensures |ws| == 70
  {
    var out: u64, next: u64 := (scratchpad + 0x4000) % WORD64, (scratchpad + 0x4200) % WORD64;
    var heap := BitOr64(heapFree, 0x800_0000);
    [0, 0x1F, Lo(scratchpad), Hi(scratchpad)]
    + [0, 0, 0, 0, 0x02D8_01C2, 0, 0x02D8_01C2, if tiler then 0x0400_1080 else 0x0100_1080,
       if tiler then 0xFF else 0xC021_0000, if tiler then 0x3F80_0000 else 0]
    + [0x1600, 0xF0, Lo(out), Hi(out), Lo(next), Hi(next), Lo(heapFree), Hi(heapFree), Lo(heap), Hi(heap)]
    + [0, 0, 0, 0, 0, 0, 0, 0]
    + [0, 0]
    + [0, 0, 0x0003_0005, 0, 0x5ABA_5ABA, 0, Lo(out), Hi(out), 3, 0, 0, 0, 0, 0, 0, 0, 0x5ABA_5DBA, 0, 0, 0, 0, 0]
    + [0, 0, if tiler then 0 else 0xFFFF_F8C0, 0]
    + [0, 0, 0, 0, 0, 0, 0, 0, 0, 0]
  }

  lemma DescriptorIs(tiler: bool, heapFree: u64, scratchpad: u64)
    ensures EncodeMfbd(MfbdImage(tiler, heapFree, scratchpad)) == DescriptorWords(tiler, heapFree, scratchpad)
  {
    hide BitOr64, Block3;
    var m := MfbdImage(tiler, heapFree, scratchpad);
    DescriptorBlocks(m.block2a);
    assert m.block3 == Block3(m.block2a) + Words(4);
    assert Hi(0x1F_0000_0000) == 0x1F && Lo(0x1F_0000_0000) == 0;
  }

  lemma DescriptorBlocks(out: u64)
    ensures Block3(out) + Words(4)
         == [0, 0, 0x0003_0005, 0, 0x5ABA_5ABA, 0, Lo(out), Hi(out), 3, 0, 0, 0, 0, 0, 0, 0, 0x5ABA_5DBA, 0,
             0, 0, 0, 0]
    ensures Words(8) == [0, 0, 0, 0, 0, 0, 0, 0] && Words(10) == [0, 0, 0, 0, 0, 0, 0, 0, 0, 0]
  {
    hide Lo, Hi;
  }

  // ----- single fields -----

  /** The word that goes with the write buffer: a type in the top byte, the address, and
      a tag. */
  lemma WriteBufferIs(tiler: bool, w: u32)
    requires w % 0x400 == 0
    ensures WriteBufferWord(tiler, w) == (if tiler then 0xDB else 0x7A) * 0x100_0000_0000_0000 + w + 1
  {
    Pow2Values();
    var top := (if tiler then 0xDB else 0x7A) * 0x100_0000_0000_0000;
    assert top % 0x1_0000_0000 == 0 && (top + w) % 2 == 0;
    hide BitOr, Pow2;
    OrTag(top, w, 32);
    OrTag(top + w, 1, 1);
  }

  /** Bits of the mode above its low sixteen may fall on bits that are set anyway; below
      them it is added. */
  lemma ModeWordIs(mode: u32)
    ensures ModeWord(true, mode) == BitOr(0x1403_0000, mode) && ModeWord(false, mode) == 0x1400_0000
    ensures mode < 0x1_0000 ==> ModeWord(true, mode) == 0x1403_0000 + mode
  {
    Pow2Values();
    assert BitOr(0x1400_0000, 0x3_0000) == 0x1403_0000 by { OrTag(0x1400_0000, 0x3_0000, 20); }
    OrAssociative(0x1400_0000, 0x3_0000, mode);
    OrSymmetric(0x1400_0000, 0);
    hide BitOr, Pow2;
    if mode < 0x1_0000 { OrTag(0x1403_0000, mode, 16); }
  }

  lemma {:induction false} OrAssociative(x: nat, y: nat, z: nat)
    ensures BitOr(BitOr(x, y), z) == BitOr(x, BitOr(y, z))
    decreases x + y + z
  {
    if x != 0 && y != 0 {
      OrAssociative(x / 2, y / 2, z / 2);
      OrStep(x, y);
      OrStep(y, z);
      OrUnfold(x, BitOr(y, z));
      OrUnfold(BitOr(x, y), z);
    }
  }

  /** A shader's address with the flags of its kind. */
  lemma ShaderWordIs(gpu: u64, fragment: bool)
    requires gpu % 16 == 0 && gpu + 9 < WORD64
    ensures TaggedShader(gpu, fragment) == gpu + if fragment then 9 else 5
  {
    Pow2Values();
    var kind := if fragment then SHADER_FRAGMENT else SHADER_VERTEX;
    assert BitOr(1, 4) == 5 && BitOr(1, 8) == 9;
    hide BitOr, Pow2;
    OrTag(gpu, 1, 4);
    OrTagged(gpu, 1, kind, 4);
  }

  /** The framebuffer of an atom, marked for exclusive use in its lowest bit. */
  lemma ExclusiveIs(framebuffer: u64)
    ensures BitOr64(framebuffer, EXCLUSIVE) == framebuffer - framebuffer % 2 + 1
  {
    Pow2Values();
    var x := framebuffer - framebuffer % 2;
    hide Pow2;
    if framebuffer % 2 == 0 {
      OrTag(framebuffer, 1, 1);
    } else {
      OrTag(x, 1, 1);
      OrTagged(x, 1, 1, 1);
    }
  }

  // ----- the chain in memory -----

  lemma HeldBlock(m: Bytes, base: u32, c: Chain3, s: Call, p: u32)
    requires Matches(c, base, s) && Present(m, c, s) && Owns(c, s, p)
    requires p in ChainHeap(c, LinkedHeaders(c.vertex, c.tiler))
    ensures At(m, p, ChainHeap(c, LinkedHeaders(c.vertex, c.tiler))[p])
  {
    hide ChainHeap, At, LeWords, PayloadOf, MfbdImage, EncodeMfbd, EncodeAttributeBuffer, TaggedShader;
  }

  lemma PlacesOf(base: u32, c: Chain3, s: Call)
    requires Matches(c, base, s)
    ensures s.vb < s.Fbd() < c.first < c.vertex < c.tiler && WellPlaced(c) && s.vb + 0x401 < WORD32
    ensures s.vb + 0x400 < s.Fbd() && |c.vertexSlots| == 7 == |c.tilerSlots| && s.Fbd() + 1 < WORD32
    ensures forall j | 0 <= j < 7 :: c.vertex < c.vertexSlots[j] < c.tiler < c.tilerSlots[j] < c.tiler + 0x2040
    ensures c.vertex % 0x400 == 0 && c.tiler % 0x400 == 0 && c.tiler + 0x2040 < WORD32
    ensures c.vertexJob.Sized() && c.tilerJob.Sized()
  {
    hide ChainHeap, LeWords, PayloadOf, MfbdImage, EncodeMfbd, EncodeAttributeBuffer, TaggedShader;
  }

  lemma PartsOf(base: u32, c: Chain3, s: Call)
    requires Matches(c, base, s)
    ensures c.value == SetValue((s.scratchpad + SV_OFFSET) % WORD64, 3)
    ensures s.vb in c.h && c.h[s.vb] == LeWords(EncodeAttributeBuffer(AttributeBuffer(s.vb + 0x401, 12, s.size)))
    ensures s.Fbd() in c.h && c.h[s.Fbd()] == LeWords(EncodeMfbd(s.Mfbd()))
    ensures s.Fbd() + MFBD < WORD32 && |c.vertexSlots| == 7 && |c.tilerSlots| == 7
    ensures c.vertexJob == PayloadOf(false, s.mode, s.zeroBuffer, s.vb, s.Fbd() + MFBD, c.vertexSlots)
    ensures c.tilerJob == PayloadOf(true, s.mode, s.zeroBuffer, s.vb, s.Fbd() + MFBD, c.tilerSlots)
    ensures c.vertexShader == TaggedShader(s.vertexGpu, false)
  {
    hide ChainHeap, LeWords, PayloadOf, MfbdImage, EncodeMfbd, EncodeAttributeBuffer, TaggedShader;
  }

  /** The first packet and the records below it. */
  lemma StartHeld(m: Bytes, base: u32, c: Chain3, s: Call)
    requires Matches(c, base, s) && Present(m, c, s)
    ensures At(m, c.first, SetPacket(LinkedHeaders(c.vertex, c.tiler).first, c.value))
    ensures s.vb + 0x401 < WORD32
      && At(m, s.vb, LeWords(EncodeAttributeBuffer(AttributeBuffer(s.vb + 0x401, 12, s.size))))
    ensures At(m, s.Fbd(), LeWords(EncodeMfbd(s.Mfbd())))
  {
    hide Matches, Present, WellPlaced, ChainHeap, At, LeWords, EncodeAttributeBuffer, EncodeMfbd, MfbdImage,
         PayloadOf, SetPacket, TaggedShader, Next;
    PlacesOf(base, c, s);
    PartsOf(base, c, s);
    var hs := LinkedHeaders(c.vertex, c.tiler);
    ChainHeapSet(c, hs, hs.first);
    ChainHeapBelow(c, hs, s.vb);
    ChainHeapBelow(c, hs, s.Fbd());
    HeldBlock(m, base, c, s, c.first);
    HeldBlock(m, base, c, s, s.vb);
    HeldBlock(m, base, c, s, s.Fbd());
  }

  /** The packets of the other two jobs. */
  lemma JobsHeld(m: Bytes, base: u32, c: Chain3, s: Call)
    requires Matches(c, base, s) && Present(m, c, s)
    ensures c.vertexJob.Sized() && c.tilerJob.Sized()
    ensures At(m, c.vertex, Packet(LinkedHeaders(c.vertex, c.tiler).vertex, c.vertexJob))
    ensures At(m, c.tiler, Packet(LinkedHeaders(c.vertex, c.tiler).tiler, c.tilerJob))
  {
    hide Matches, Present, WellPlaced, ChainHeap, At, Packet;
    PlacesOf(base, c, s);
    var hs := LinkedHeaders(c.vertex, c.tiler);
    ChainHeapVertex(c, hs, hs.vertex);
    ChainHeapTiler(c, hs, hs.tiler);
    HeldBlock(m, base, c, s, c.vertex);
    HeldBlock(m, base, c, s, c.tiler);
  }

  /** The seven blocks of a job hold these words. */
  ghost predicate SlotsStand(m: Bytes, at: seq<u32>, cs: seq<seq<u32>>) {
    |at| == 7 && |cs| == 7 && forall j | 0 <= j < 7 :: Stand(m, at[j], cs[j])
  }

  lemma VertexSlotStands(m: Bytes, base: u32, c: Chain3, s: Call)
    requires Matches(c, base, s) && Present(m, c, s)
    ensures c.vertex + 0x2000 < WORD32
    ensures SlotsStand(m, c.vertexSlots, SlotContents(false, c.vertexShader, c.vertex + 0x2000))
  {
    hide Matches, Present, WellPlaced, ChainHeap, SlotContents, Stand, LeWords;
    PlacesOf(base, c, s);
    forall j | 0 <= j < 7
      ensures Stand(m, c.vertexSlots[j], SlotContents(false, c.vertexShader, c.vertex + 0x2000)[j])
    {
      ChainHeapSlot(c, LinkedHeaders(c.vertex, c.tiler), j);
      HeldBlock(m, base, c, s, c.vertexSlots[j]);
      Standing(m, c.vertexSlots[j], SlotContents(false, c.vertexShader, c.vertex + 0x2000)[j]);
    }
  }

  lemma TilerSlotStands(m: Bytes, base: u32, c: Chain3, s: Call)
    requires Matches(c, base, s) && Present(m, c, s)
    ensures c.tiler + 0x2000 < WORD32
    ensures SlotsStand(m, c.tilerSlots, SlotContents(true, c.tilerShader, c.tiler + 0x2000))
  {
    hide Matches, Present, WellPlaced, ChainHeap, SlotContents, Stand, LeWords;
    PlacesOf(base, c, s);
    forall j | 0 <= j < 7
      ensures Stand(m, c.tilerSlots[j], SlotContents(true, c.tilerShader, c.tiler + 0x2000)[j])
    {
      ChainHeapTilerSlot(c, LinkedHeaders(c.vertex, c.tiler), j);
      HeldBlock(m, base, c, s, c.tilerSlots[j]);
      Standing(m, c.tilerSlots[j], SlotContents(true, c.tilerShader, c.tiler + 0x2000)[j]);
    }
  }

  /** A packet in memory: header, and the words of its payload. */
  lemma PacketStands(m: Bytes, p: u32, h: Header, ws: seq<u32>)
    requires At(m, p, EncodeHeader(h) + LeWords(ws))
    requires h.exceptionStatus == h.firstIncompleteTask == h.faultPointer == h.barrier == 0
    ensures HeaderStands(m, p, h.is64, h.jobType, h.index, h.dependency1, h.dependency2, h.next)
    ensures Stand(m, p + 0x20, ws)
  {
    hide At, EncodeHeader, LeWords, HeaderStands, Stand;
    TwoSlices(m, p, EncodeHeader(h), LeWords(ws));
    HeaderStanding(m, p, h);
    Standing(m, p + 0x20, ws);
  }

  /** The three parts of a vertex or tiler payload. */
  lemma PartsStand(m: Bytes, q: nat, v: VertexTiler)
    requires v.Sized() && Stand(m, q, EncodeVertexTiler(v))
    ensures Stand(m, q, v.block1) && Stand(m, q + 0x2C, v.Addresses()) && Stand(m, q + 0x64, v.block2)
  {
    hide Get32;
    var ws := EncodeVertexTiler(v);
    forall k | 0 <= k < 11 ensures Get32(m, q + 4 * k) == v.block1[k] { assert ws[k] == v.block1[k]; }
    forall k | 0 <= k < 14 ensures Get32(m, q + 0x2C + 4 * k) == v.Addresses()[k] {
      assert ws[11 + k] == v.Addresses()[k];
      assert Get32(m, q + 4 * (11 + k)) == ws[11 + k];
    }
    forall k | 0 <= k < 36 ensures Get32(m, q + 0x64 + 4 * k) == v.block2[k] {
      assert ws[25 + k] == v.block2[k];
      assert Get32(m, q + 4 * (25 + k)) == ws[25 + k];
    }
  }

  /** The first record of a chain: a 64-bit job of type 2, third in number, that writes
      `3` above the scratchpad and is linked to the vertex job. */
  lemma SetImage(m: Bytes, base: u32, c: Chain3, s: Call)
    requires Matches(c, base, s) && Present(m, c, s)
    ensures HeaderStands(m, c.first, true, 2, 3, 0, 0, c.vertex)
    ensures var out: u64 := (s.scratchpad + 0x4000) % WORD64; Stand(m, c.first + 0x20, [Lo(out), Hi(out), 3, 0])
  {
    hide Matches, Present, Stand, HeaderStands, LeWords, EncodeHeader, At, SetPacket, Next, EncodeMfbd, MfbdImage,
         EncodeAttributeBuffer, PayloadOf, TaggedShader;
    StartHeld(m, base, c, s);
    PartsOf(base, c, s);
    var out: u64 := (s.scratchpad + 0x4000) % WORD64;
    SetStands(m, c.first, LinkedHeaders(c.vertex, c.tiler).first, out);
  }

  lemma SetStands(m: Bytes, p: u32, h: Header, out: u64)
    requires At(m, p, SetPacket(h, SetValue(out, 3)))
    requires h.exceptionStatus == h.firstIncompleteTask == h.faultPointer == h.barrier == 0
    ensures HeaderStands(m, p, h.is64, h.jobType, h.index, h.dependency1, h.dependency2, h.next)
    ensures Stand(m, p + 0x20, [Lo(out), Hi(out), 3, 0])
  {
    hide Stand, HeaderStands, LeWords, EncodeHeader, At;
    PacketStands(m, p, h, EncodeSetValue(SetValue(out, 3)));
  }

  /** The attribute buffer at `vb`: its vertices are the next unit, tagged with 1. */
  function BufferWords(vb: u32, size: u32): seq<u32>
    requires vb + 0x401 < WORD32
  {
    [vb + 0x401, 0, 12, size]
  }

  lemma BufferStands(m: Bytes, p: nat, vb: u32, size: u32)
    requires vb + 0x401 < WORD32 && At(m, p, LeWords(EncodeAttributeBuffer(AttributeBuffer(vb + 0x401, 12, size))))
    ensures Stand(m, p, BufferWords(vb, size))
  {
    var ws := EncodeAttributeBuffer(AttributeBuffer(vb + 0x401, 12, size));
    assert ws == BufferWords(vb, size);
    hide At, LeWords, Stand;
    Standing(m, p, ws);
  }

  lemma DescriptorStands(m: Bytes, p: nat, tiler: bool, heapFree: u64, scratchpad: u64)
    requires At(m, p, LeWords(EncodeMfbd(MfbdImage(tiler, heapFree, scratchpad))))
    ensures Stand(m, p, DescriptorWords(tiler, heapFree, scratchpad))
  {
    hide At, LeWords, Stand, EncodeMfbd, MfbdImage, DescriptorWords;
    DescriptorIs(tiler, heapFree, scratchpad);
    Standing(m, p, EncodeMfbd(MfbdImage(tiler, heapFree, scratchpad)));
  }

  /** The attribute buffer, whose pointer carries the tag 1, and the descriptor. */
  lemma StartImage(m: Bytes, base: u32, c: Chain3, s: Call)
    requires Matches(c, base, s) && Present(m, c, s)
    ensures s.vb + 0x401 < WORD32 && Stand(m, s.vb, BufferWords(s.vb, s.size))
    ensures Stand(m, s.Fbd(), DescriptorWords(true, s.heapFree, s.scratchpad))
  {
    hide Matches, Present, Stand, LeWords, EncodeAttributeBuffer, EncodeMfbd, MfbdImage, DescriptorWords, At,
         SetPacket, Next, BufferWords;
    StartHeld(m, base, c, s);
    BufferStands(m, s.vb, s.vb, s.size);
    DescriptorStands(m, s.Fbd(), true, s.heapFree, s.scratchpad);
  }

  // ----- the two jobs with payloads -----

  lemma Aligned(x: nat)
    requires x % 0x1000 == 0
    ensures x % 16 == 0
  {
    ModUnique(x, 16, 256 * (x / 0x1000), 0);
  }

  /** The eleven words a payload starts with. */
  function FirstWords(mode: u32, other: u32): seq<u32> {
    [3, 0x2800_0000, mode, 0, 0, other, 0, 0, 5, 0, 0]
  }

  function ShaderWords(tagged: u64, tiler: bool): seq<u32> {
    [Lo(tagged), Hi(tagged), 0, if tiler then 0x7_0000 else 0x5_0001, if tiler then 0x2_0602 else 0x42_0002, 0]
  }

  /** The words that name the write buffer at `w`. */
  function BufferPair(w: u32, kind: u8): seq<u32>
    requires w + 1 < WORD32
  {
    [w + 1, kind * 0x100_0000, 0x10, 0x40, 0, 0, 0, 0]
  }

  const MAGIC: seq<u32> := [0x5A5A_1001, 0x5A5A_5A5A, 0x5A5A_3000, 0x5A5A_5A5A]
  const FLOATS: seq<u32> := [0x4320_0000, 0x42F0_0000, 0x3F00_0000, 0, 0x4320_0000, 0x42F0_0000, 0x3F00_0000, 0]
  const META: seq<u32> := [0x2DEA_2200, 0, 0, 0]
  const SIX_POINTERS: seq<u32> :=
    [0x17E4_9000, 0, 0x17E4_9000, 0, 0x17E4_9000, 0, 0x17E4_9000, 0, 0x179A_2200, 0, 0x17E4_9000, 0, 0x17E4_9000, 0,
     0, 0]
  const TILER_FLOATS: seq<u32> :=
    [0xFF80_0000, 0xFF80_0000, 0x7F80_0000, 0x7F80_0000, 0, 0x3F80_0000, 0, 0x00EF_013F, 0, 0x1F, 0x0202_0000, 1,
     0, 0, 0, 0]

  lemma BufferHalves(kind: u8, w: u32)
    requires w + 1 < WORD32
    ensures kind * 0x100_0000_0000_0000 + w + 1 < WORD64
    ensures Lo(kind * 0x100_0000_0000_0000 + w + 1) == w + 1
    ensures Hi(kind * 0x100_0000_0000_0000 + w + 1) == kind * 0x100_0000
  {
  }

  lemma ContentsAre(tiler: bool, shader: u64, w: u32)
    requires w % 0x400 == 0 && w + 1 < WORD32
    ensures var cs := SlotContents(tiler, shader, w);
      && cs[UNKNOWN1] == MAGIC && cs[SHADER_META] == ShaderWords(shader, tiler) && cs[ATTRIBUTE_META] == META
      && cs[UNKNOWN2] == (if tiler then Words(8) else FLOATS)
      && cs[UNKNOWN5] == BufferPair(w, if tiler then 0xDB else 0x7A) && cs[UNKNOWN6] == SIX_POINTERS
      && cs[LAST_SLOT] == if tiler then TILER_FLOATS else Words(16)
  {
    WriteBufferIs(tiler, w);
    BufferHalves(if tiler then 0xDB else 0x7A, w);
    hide WriteBufferWord;
  }

  /** What the address array of the vertex job leads to: entry 0 is the zero buffer, 6 the
      attribute buffer, 12 the descriptor with its tag; 1, 4, 5, 7, 8 and 9 lead to blocks
      of the pool, which name the shader and the write buffer `w`. */
  ghost predicate VertexLeads(m: Bytes, a: seq<u32>, zeroBuffer: u32, vb: u32, fbd: u32, shader: u64, w: u32) {
    && |a| == 14 && w + 1 < WORD32
    && a[0] == zeroBuffer && a[2] == a[3] == 0 && a[6] == vb && a[10] == a[11] == 0
    && a[12] == fbd && a[13] == 0xDEAD_FA00
    && Stand(m, a[1], MAGIC) && Stand(m, a[4], FLOATS) && Stand(m, a[5], ShaderWords(shader, false))
    && Stand(m, a[7], META) && Stand(m, a[8], BufferPair(w, 0x7A)) && Stand(m, a[9], SIX_POINTERS)
  }

  /** And that of the tiler job: everything but the zero buffer, the block of entry 10 and
      the descriptor is an address that traps. */
  ghost predicate TilerLeads(m: Bytes, a: seq<u32>, zeroBuffer: u32, fbd: u32) {
    && |a| == 14
    && a[0] == zeroBuffer && a[1] == 0x5AB0_2A00 && a[2] == a[3] == 0 && a[4] == 0x5AB0_3A00 && a[5] == 0x5AB0_0A05
    && a[6] == 0x5AB0_4A00 && a[7] == 0x5AB0_5A00 && a[8] == 0x5AB0_6A00 && a[9] == 0x5AB0_7A00
    && Stand(m, a[10], TILER_FLOATS) && a[11] == 0 && a[12] == fbd && a[13] == 0x5AB0_DA00
  }

  /** The tiler job's own blocks, all but the last of which nothing points to. */
  ghost predicate TilerBlocks(m: Bytes, at: seq<u32>, shader: u64, w: u32) {
    && |at| == 7 && w + 1 < WORD32
    && Stand(m, at[UNKNOWN1], MAGIC) && Stand(m, at[UNKNOWN2], Words(8))
    && Stand(m, at[SHADER_META], ShaderWords(shader, true)) && Stand(m, at[ATTRIBUTE_META], META)
    && Stand(m, at[UNKNOWN5], BufferPair(w, 0xDB)) && Stand(m, at[UNKNOWN6], SIX_POINTERS)
  }

  lemma VertexPayloadIs(m: Bytes, mode: u32, zeroBuffer: u32, vb: u32, fbd: u32, at: seq<u32>, shader: u64, w: u32)
    requires w % 0x400 == 0 && w + 1 < WORD32 && SlotsStand(m, at, SlotContents(false, shader, w))
    ensures var v := PayloadOf(false, mode, zeroBuffer, vb, fbd, at);
      && v.block1 == FirstWords(0x1400_0000, 0) && v.block2 == VERTEX_BLOCK2
      && VertexLeads(m, v.Addresses(), zeroBuffer, vb, fbd, shader, w)
  {
    hide Stand, SlotContents, ModeWord, ShaderWords, BufferPair, BitOr, BitOr32;
    ContentsAre(false, shader, w);
    ModeWordIs(mode);
  }

  /** The mode is or-ed into `block1[2]`. */
  lemma TilerPayloadIs(m: Bytes, mode: u32, zeroBuffer: u32, vb: u32, fbd: u32, at: seq<u32>, shader: u64, w: u32)
    requires w % 0x400 == 0 && w + 1 < WORD32 && SlotsStand(m, at, SlotContents(true, shader, w))
    ensures var v := PayloadOf(true, mode, zeroBuffer, vb, fbd, at);
      && v.block1 == FirstWords(BitOr32(0x1403_0000, mode), 3) && v.block2 == TILER_BLOCK2
      && TilerLeads(m, v.Addresses(), zeroBuffer, fbd) && TilerBlocks(m, at, shader, w)
  {
    hide Stand, SlotContents, ModeWord, ShaderWords, BufferPair, BitOr;
    ContentsAre(true, shader, w);
    ModeWordIs(mode);
  }

  /** Header and payload of a job in memory, part by part. */
  lemma JobStands(m: Bytes, p: u32, h: Header, v: VertexTiler)
    requires v.Sized() && At(m, p, Packet(h, v))
    requires h.exceptionStatus == h.firstIncompleteTask == h.faultPointer == h.barrier == 0
    ensures HeaderStands(m, p, h.is64, h.jobType, h.index, h.dependency1, h.dependency2, h.next)
    ensures Stand(m, p + 0x20, v.block1) && Stand(m, p + 0x4C, v.Addresses()) && Stand(m, p + 0x84, v.block2)
  {
    hide At, HeaderStands, Stand, EncodeHeader, EncodeVertexTiler, LeWords;
    PacketStands(m, p, h, EncodeVertexTiler(v));
    PartsStand(m, p + 0x20, v);
  }

  /** The vertex job in memory: a 32-bit job of type 5, first in number, that waits for the
      third and is linked to the tiler job; its payload, and what that points to. */
  lemma VertexImage(m: Bytes, base: u32, c: Chain3, s: Call) returns (a: seq<u32>)
    requires Matches(c, base, s) && Present(m, c, s)
    ensures HeaderStands(m, c.vertex, false, 5, 1, 0, 3, c.tiler)
    ensures Stand(m, c.vertex + 0x20, FirstWords(0x1400_0000, 0))
    ensures Stand(m, c.vertex + 0x4C, a) && Stand(m, c.vertex + 0x84, VERTEX_BLOCK2)
    ensures s.Fbd() + 1 < WORD32 && c.vertex + 0x2000 < WORD32
    ensures VertexLeads(m, a, s.zeroBuffer, s.vb, s.Fbd() + 1, TaggedShader(s.vertexGpu, false), c.vertex + 0x2000)
  {
    hide Matches, Present, HeaderStands, Stand, EncodeHeader, EncodeVertexTiler, LeWords, At, VertexLeads, Packet,
         PayloadOf, SlotsStand, SlotContents, MfbdImage, EncodeMfbd, EncodeAttributeBuffer, TaggedShader, Next,
         WellPlaced;
    JobsHeld(m, base, c, s);
    VertexSlotStands(m, base, c, s);
    PartsOf(base, c, s);
    PlacesOf(base, c, s);
    VertexPayloadIs(m, s.mode, s.zeroBuffer, s.vb, s.Fbd() + 1, c.vertexSlots, c.vertexShader, c.vertex + 0x2000);
    JobStands(m, c.vertex, LinkedHeaders(c.vertex, c.tiler).vertex, c.vertexJob);
    a := c.vertexJob.Addresses();
  }

  /** The tiler job: type 7, second in number, waiting for the first, linked to none. */
  lemma TilerImage(m: Bytes, base: u32, c: Chain3, s: Call) returns (a: seq<u32>)
    requires Matches(c, base, s) && Present(m, c, s)
    ensures HeaderStands(m, c.tiler, false, 7, 2, 1, 0, 0)
    ensures Stand(m, c.tiler + 0x20, FirstWords(BitOr32(0x1403_0000, s.mode), 3))
    ensures Stand(m, c.tiler + 0x4C, a) && Stand(m, c.tiler + 0x84, TILER_BLOCK2)
    ensures s.Fbd() + 1 < WORD32 && TilerLeads(m, a, s.zeroBuffer, s.Fbd() + 1)
    ensures c.tiler + 0x2000 < WORD32 && TilerBlocks(m, c.tilerSlots, c.tilerShader, c.tiler + 0x2000)
  {
    hide Matches, Present, HeaderStands, Stand, EncodeHeader, EncodeVertexTiler, LeWords, At, TilerLeads, Packet,
         TilerBlocks, PayloadOf, SlotsStand, SlotContents, MfbdImage, EncodeMfbd, EncodeAttributeBuffer, TaggedShader,
         Next, WellPlaced, BitOr32;
    JobsHeld(m, base, c, s);
    TilerSlotStands(m, base, c, s);
    PartsOf(base, c, s);
    PlacesOf(base, c, s);
    TilerPayloadIs(m, s.mode, s.zeroBuffer, s.vb, s.Fbd() + 1, c.tilerSlots, c.tilerShader, c.tiler + 0x2000);
    JobStands(m, c.tiler, LinkedHeaders(c.vertex, c.tiler).tiler, c.tilerJob);
    a := c.tilerJob.Addresses();
  }

  // ----- the other two chains -----

  lemma Coordinates()
    ensures MakeTileCoord(0, 0, 0) == 0 && MakeTileCoord(29, 45, 0) == 0x2D_001D
  {
    hide BitOr, Pow2, MakeTileCoord;
    Pow2Values();
    MakeTileCoordIs(0, 0, 0, 0x1_0000);
    MakeTileCoordIs(29, 45, 0, 0x1_0000);
    OrSymmetric(29, 0x2D_0000);
    OrTag(0x2D_0000, 29, 16);
    OrNothing(0x2D_001D);
    OrNothing(0);
  }

  lemma OrNothing(x: nat)
    ensures BitOr(x, 0) == x
  {
    OrSymmetric(x, 0);
  }

  /** A fragment job in memory: type 9, the only one, from tile (0, 0) to tile (29, 45), with
      the descriptor behind it, tagged for multiple targets and for fragments. */
  lemma FragmentImage(m: Bytes, h: Heap, p: u32, heapFree: u64, scratchpad: u64)
    requires FragmentBlocks(h, p, heapFree, scratchpad) && At(m, p, h[p]) && At(m, p + 0x400, h[p + 0x400])
    ensures p + 0x403 < WORD32 && HeaderStands(m, p, false, 9, 1, 0, 0, 0)
    ensures Stand(m, p + 0x20, [0, 0x2D_001D, p + 0x403, 0])
    ensures Stand(m, p + 0x400, DescriptorWords(false, heapFree, scratchpad))
  {
    hide At, EncodeHeader, LeWords, HeaderStands, Stand, EncodeMfbd, MfbdImage, DescriptorWords, MakeTileCoord;
    var f := FragmentOf(p + 0x400);
    Coordinates();
    assert EncodeFragment(f) == [0, 0x2D_001D, p + 0x403, 0];
    PacketStands(m, p, FragmentHeader(), EncodeFragment(f));
    DescriptorStands(m, p + 0x400, false, heapFree, scratchpad);
  }

  /** The record of a replay in memory. */
  lemma ReplayImage(m: Bytes, p: u32, tilerJc: u32, fragmentJc: u32, heapFree: u64)
    requires At(m, p, LeWords(EncodeReplay(ReplayOf(tilerJc, fragmentJc, heapFree))))
    ensures Stand(m, p, [tilerJc, 0, fragmentJc, 0, Lo(heapFree), Hi(heapFree), 0, 0x1_0000, 0x44, 1, 0, 0])
  {
    var ws := EncodeReplay(ReplayOf(tilerJc, fragmentJc, heapFree));
    assert ws == [tilerJc, 0, fragmentJc, 0, Lo(heapFree), Hi(heapFree), 0, 0x1_0000, 0x44, 1, 0, 0];
    hide At, LeWords, Stand, ReplayOf;
    Standing(m, p, ws);
  }
}
