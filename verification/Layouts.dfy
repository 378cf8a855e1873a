/** Packed records shared by the synthesiser, the decoder and the GPU, as byte
    strings, with the decoding of each that undoes its encoding. */
module Layouts {
  import opened Bits
  import opened Memory

  // ----- job descriptor header, 32 bytes -----

  const HEADER_SIZE: nat := 32

  const JOB_TYPE_SET_VALUE := 2
  const JOB_TYPE_VERTEX := 5
  const JOB_TYPE_TILER := 7
  const JOB_TYPE_FRAGMENT := 9

  type u7 = x: int | 0 <= x < 0x80

  /** `barrier` is the byte of the barrier bit and the seven reserved bits; the
      two members of the `next_job` union are both 64 bits wide. */
  datatype Header = Header(
    exceptionStatus: u32, firstIncompleteTask: u32, faultPointer: u64,
    is64: bool, jobType: u7, barrier: u8,
    index: u16, dependency1: u16, dependency2: u16, next: u64)

  function EncodeHeader(h: Header): (b: Bytes)
    ensures |b| == HEADER_SIZE
  {
    Le32(h.exceptionStatus) + Le32(h.firstIncompleteTask) + Le64(h.faultPointer)
    + [(if h.is64 then 1 else 0) + 2 * h.jobType, h.barrier]
    + Le16(h.index) + Le16(h.dependency1) + Le16(h.dependency2) + Le64(h.next)
  }

  function DecodeHeader(b: Bytes): Header
    requires |b| == HEADER_SIZE
  {
    Header(Get32(b, 0), Get32(b, 4), Get64(b, 8), b[16] % 2 == 1, b[16] / 2, b[17],
           Get16(b, 18), Get16(b, 20), Get16(b, 22), Get64(b, 24))
  }

  lemma FieldAt32(pre: Bytes, v: u32, post: Bytes)
    ensures Get32(pre + Le32(v) + post, |pre|) == v
  {
    var b := pre + Le32(v) + post;
    forall j | 0 <= j < 4 ensures b[|pre| + j] == Le32(v)[j] {}
    Le32Sum(v);
  }

  lemma FieldAt64(pre: Bytes, v: u64, post: Bytes)
    ensures Get64(pre + Le64(v) + post, |pre|) == v
  {
    FieldAt32(pre, Lo(v), Le32(Hi(v)) + post);
    FieldAt32(pre + Le32(Lo(v)), Hi(v), post);
    assert pre + Le64(v) + post == pre + Le32(Lo(v)) + (Le32(Hi(v)) + post);
    assert pre + Le64(v) + post == pre + Le32(Lo(v)) + Le32(Hi(v)) + post;
  }

  lemma HeaderRoundTrip(h: Header)
    ensures DecodeHeader(EncodeHeader(h)) == h
  {
    hide Le32, Le64, Le16, Get32, Get64;
    var b := EncodeHeader(h);
    var mid := [(if h.is64 then 1 else 0) + 2 * h.jobType, h.barrier]
      + Le16(h.index) + Le16(h.dependency1) + Le16(h.dependency2);
    var s, t, f, n := Le32(h.exceptionStatus), Le32(h.firstIncompleteTask), Le64(h.faultPointer), Le64(h.next);
    assert b == s + t + f + mid + n;
    assert b == [] + s + (t + f + mid + n);
    assert b == s + t + (f + mid + n);
    assert b == (s + t) + f + (mid + n);
    assert b == (s + t + f + mid) + n + [];
    FieldAt32([], h.exceptionStatus, t + f + mid + n);
    FieldAt32(s, h.firstIncompleteTask, f + mid + n);
    FieldAt64(s + t, h.faultPointer, mid + n);
    FieldAt64(s + t + f + mid, h.next, []);
    assert forall i | 0 <= i < 8 :: b[16 + i] == mid[i];
    HeaderMiddle(h, b);
  }

  lemma HeaderMiddle(h: Header, b: Bytes)
    requires |b| == HEADER_SIZE && b[16] == (if h.is64 then 1 else 0) + 2 * h.jobType && b[17] == h.barrier
    requires b[18] == Le16(h.index)[0] && b[19] == Le16(h.index)[1]
    requires b[20] == Le16(h.dependency1)[0] && b[21] == Le16(h.dependency1)[1]
    requires b[22] == Le16(h.dependency2)[0] && b[23] == Le16(h.dependency2)[1]
    ensures (b[16] % 2 == 1) == h.is64 && b[16] / 2 == h.jobType
    ensures Get16(b, 18) == h.index && Get16(b, 20) == h.dependency1 && Get16(b, 22) == h.dependency2
  {
  }

  // ----- records made of 32-bit words -----

  lemma QuadRoundTrip(q: u64)
    ensures QuadOf(Lo(q), Hi(q)) == q
  {
  }

  datatype SetValue = SetValue(out: u64, unknown: u64)

  function EncodeSetValue(s: SetValue): (ws: seq<u32>)
    ensures |ws| == 4
  {
    [Lo(s.out), Hi(s.out), Lo(s.unknown), Hi(s.unknown)]
  }

  function DecodeSetValue(ws: seq<u32>): SetValue
    requires |ws| == 4
  {
    SetValue(QuadOf(ws[0], ws[1]), QuadOf(ws[2], ws[3]))
  }

  datatype Fragment = Fragment(minTileCoord: u32, maxTileCoord: u32, fbd: u64)

  function EncodeFragment(f: Fragment): (ws: seq<u32>)
    ensures |ws| == 4
  {
    [f.minTileCoord, f.maxTileCoord, Lo(f.fbd), Hi(f.fbd)]
  }

  function DecodeFragment(ws: seq<u32>): Fragment
    requires |ws| == 4
  {
    Fragment(ws[0], ws[1], QuadOf(ws[2], ws[3]))
  }

  const VT_WORDS: nat := 61

  /** `payload_vertex_tiler32`; the arrays have 11 and 36 words. */
  datatype VertexTiler = VertexTiler(
    block1: seq<u32>,
    zeroes: u32, unknown1: u32, null1: u32, null2: u32, unknown2: u32,
    shader: u32, attributes: u32, attributeMeta: u32, unknown5: u32, unknown6: u32,
    nullForVertex: u32, null4: u32, fbd: u32, unknown7: u32,
    block2: seq<u32>)
  {
    predicate Sized() { |block1| == 11 && |block2| == 36 }

    /** The fourteen words from `zeroes` on, which the decoder walks as an array. */
    function Addresses(): seq<u32> {
      [zeroes, unknown1, null1, null2, unknown2, shader, attributes, attributeMeta,
       unknown5, unknown6, nullForVertex, null4, fbd, unknown7]
    }
  }

  function EncodeVertexTiler(v: VertexTiler): (ws: seq<u32>)
    requires v.Sized()
    ensures |ws| == VT_WORDS
  {
    v.block1 + v.Addresses() + v.block2
  }

  function DecodeVertexTiler(ws: seq<u32>): (v: VertexTiler)
    requires |ws| == VT_WORDS
    ensures v.Sized()
  {
    VertexTiler(ws[..11],
      ws[11], ws[12], ws[13], ws[14], ws[15], ws[16], ws[17], ws[18], ws[19], ws[20],
      ws[21], ws[22], ws[23], ws[24], ws[25..])
  }

  datatype ShaderMeta = ShaderMeta(shader: u64, unknown1: u64, unknown2: u64)

  function EncodeShaderMeta(s: ShaderMeta): (ws: seq<u32>)
    ensures |ws| == 6
  {
    [Lo(s.shader), Hi(s.shader), Lo(s.unknown1), Hi(s.unknown1), Lo(s.unknown2), Hi(s.unknown2)]
  }

  /** `size_t` is 32 bits wide. */
  datatype AttributeBuffer = AttributeBuffer(elements: u64, elementSize: u32, totalSize: u32)

  function EncodeAttributeBuffer(a: AttributeBuffer): (ws: seq<u32>)
    ensures |ws| == 4
  {
    [Lo(a.elements), Hi(a.elements), a.elementSize, a.totalSize]
  }

  function DecodeAttributeBuffer(ws: seq<u32>): AttributeBuffer
    requires |ws| == 4
  {
    AttributeBuffer(QuadOf(ws[0], ws[1]), ws[2], ws[3])
  }

  const MFBD_WORDS: nat := 70

  /** `tentative_mfbd`; `block2` has two members, the arrays 10, 8, 22 and 10 words. */
  datatype Mfbd = Mfbd(
    blah: u64, ugaT: u64, block1: seq<u32>, unknown1: u32, flags: u32,
    block2a: u64, block2b: u64, heapFreeAddress: u64, unknown2: u64,
    weights: seq<u32>, unknownGpuAddressN: u64, block3: seq<u32>,
    unknownGpuAddress: u64, unknown3: u64, block4: seq<u32>)
  {
    predicate Sized() { |block1| == 10 && |weights| == 8 && |block3| == 22 && |block4| == 10 }
  }

  function EncodeMfbd(m: Mfbd): (ws: seq<u32>)
    requires m.Sized()
    ensures |ws| == MFBD_WORDS
  {
    [Lo(m.blah), Hi(m.blah), Lo(m.ugaT), Hi(m.ugaT)] + m.block1
    + [m.unknown1, m.flags, Lo(m.block2a), Hi(m.block2a), Lo(m.block2b), Hi(m.block2b),
       Lo(m.heapFreeAddress), Hi(m.heapFreeAddress), Lo(m.unknown2), Hi(m.unknown2)]
    + m.weights + [Lo(m.unknownGpuAddressN), Hi(m.unknownGpuAddressN)] + m.block3
    + [Lo(m.unknownGpuAddress), Hi(m.unknownGpuAddress), Lo(m.unknown3), Hi(m.unknown3)] + m.block4
  }

  function DecodeMfbd(ws: seq<u32>): (m: Mfbd)
    requires |ws| == MFBD_WORDS
    ensures m.Sized()
  {
    Mfbd(QuadOf(ws[0], ws[1]), QuadOf(ws[2], ws[3]), ws[4..14], ws[14], ws[15],
         QuadOf(ws[16], ws[17]), QuadOf(ws[18], ws[19]), QuadOf(ws[20], ws[21]), QuadOf(ws[22], ws[23]),
         ws[24..32], QuadOf(ws[32], ws[33]), ws[34..56],
         QuadOf(ws[56], ws[57]), QuadOf(ws[58], ws[59]), ws[60..])
  }

  const REPLAY_WORDS: nat := 12

  /** `mali_jd_replay_payload`, which ends in four bytes of its own padding and
      four of the compiler's. */
  datatype Replay = Replay(
    tilerJcList: u64, fragmentJc: u64, tilerHeapFree: u64,
    fragmentHierarchyMask: u16, tilerHierarchyMask: u16, hierarchyDefaultWeight: u32,
    tilerCoreReq: u32, fragmentCoreReq: u32, padding: u32, tail: u32)

  function EncodeReplay(r: Replay): (ws: seq<u32>)
    ensures |ws| == REPLAY_WORDS
  {
    [Lo(r.tilerJcList), Hi(r.tilerJcList), Lo(r.fragmentJc), Hi(r.fragmentJc), Lo(r.tilerHeapFree), Hi(r.tilerHeapFree),
     r.fragmentHierarchyMask + 0x1_0000 * r.tilerHierarchyMask, r.hierarchyDefaultWeight,
     r.tilerCoreReq, r.fragmentCoreReq, r.padding, r.tail]
  }

  function DecodeReplay(ws: seq<u32>): Replay
    requires |ws| == REPLAY_WORDS
  {
    Replay(QuadOf(ws[0], ws[1]), QuadOf(ws[2], ws[3]), QuadOf(ws[4], ws[5]),
           ws[6] % 0x1_0000, ws[6] / 0x1_0000, ws[7], ws[8], ws[9], ws[10], ws[11])
  }

  /** Decoding undoes encoding for every record. */
  lemma SmallRecordsRoundTrip(s: SetValue, f: Fragment, a: AttributeBuffer, r: Replay)
    ensures DecodeSetValue(EncodeSetValue(s)) == s
    ensures DecodeFragment(EncodeFragment(f)) == f
    ensures DecodeAttributeBuffer(EncodeAttributeBuffer(a)) == a
    ensures DecodeReplay(EncodeReplay(r)) == r
  {
    QuadRoundTrip(s.out);
    QuadRoundTrip(s.unknown);
    QuadRoundTrip(f.fbd);
    QuadRoundTrip(a.elements);
    QuadRoundTrip(r.tilerJcList);
    QuadRoundTrip(r.fragmentJc);
    QuadRoundTrip(r.tilerHeapFree);
  }

  lemma VertexTilerRoundTrip(v: VertexTiler)
    requires v.Sized()
    ensures DecodeVertexTiler(EncodeVertexTiler(v)) == v
  {
    var ws := EncodeVertexTiler(v);
    assert ws[..11] == v.block1 && ws[25..] == v.block2;
    assert ws[11..25] == v.Addresses();
    assert forall i | 0 <= i < 14 :: ws[11 + i] == ws[11..25][i];
  }

  lemma MfbdRoundTrip(m: Mfbd)
    requires m.Sized()
    ensures DecodeMfbd(EncodeMfbd(m)) == m
  {
    var ws := EncodeMfbd(m);
    assert ws[4..14] == m.block1 && ws[24..32] == m.weights && ws[34..56] == m.block3 && ws[60..] == m.block4;
    QuadRoundTrip(m.blah);
    QuadRoundTrip(m.ugaT);
    QuadRoundTrip(m.block2a);
    QuadRoundTrip(m.block2b);
    QuadRoundTrip(m.heapFreeAddress);
    QuadRoundTrip(m.unknown2);
    QuadRoundTrip(m.unknownGpuAddressN);
    QuadRoundTrip(m.unknownGpuAddress);
    QuadRoundTrip(m.unknown3);
  }

  // ----- tags in pointers and packed fields -----

  const MFBD: u32 := 1
  const FBD_TILER: u32 := 0
  const FBD_FRAGMENT: u32 := 2
  const SHADER: u64 := 1
  const SHADER_VERTEX: u64 := 4
  const SHADER_FRAGMENT: u64 := 8
  const X_COORDINATE_MASK: u32 := 0x0000_0FFF
  const Y_COORDINATE_MASK: u32 := 0x0FFF_0000

  /** `x & ~((1 << k) - 1)`, with the mask sign-extended to the width of `x`. */
  function ClearLow(x: u64, k: nat): u64
    requires k <= 64
  {
    BitAnd(x, HighMask(64, k))
  }

  function MakeTileCoord(x: u32, y: u32, flag: u32): u32 {
    BitOr32(BitOr32(x, (y * 0x1_0000) % 0x1_0000_0000), flag)
  }

  function TileCoordX(c: u32): u32 { BitAnd(c, X_COORDINATE_MASK) }

  function TileCoordY(c: u32): nat { BitAnd(c, Y_COORDINATE_MASK) / 0x1_0000 }

  /** Clearing the tag bits of a tagged aligned pointer gives the pointer, and
      what was cleared is the tag. */
  lemma TagRoundTrip(p: u64, tag: nat, k: nat)
    requires k <= 64 && p % Pow2(k) == 0 && tag < Pow2(k)
    ensures BitOr(p, tag) == p + tag
    ensures p + tag < 0x1_0000_0000_0000_0000 ==> ClearLow(p + tag, k) == p && (p + tag) - ClearLow(p + tag, k) == tag
  {
    Pow2Values();
    OrTag(p, tag, k);
    if p + tag < Pow2(64) {
      AndHigh(p + tag, 64, k);
      TagSplit(p, tag, Pow2(k));
    }
  }

  /** A tile coordinate holds X below 0x1000 and Y below 0x1000 and any flag that
      avoids both fields; each field is read back exactly. */
  lemma TileCoordRoundTrip(x: u32, y: u32, flag: u32)
    requires x < 0x1000 && y < 0x1000
    requires BitAnd(flag, X_COORDINATE_MASK) == 0 && BitAnd(flag, Y_COORDINATE_MASK) == 0
    ensures TileCoordX(MakeTileCoord(x, y, flag)) == x
    ensures TileCoordY(MakeTileCoord(x, y, flag)) == y
  {
    Pow2Values();
    var s := 0x1_0000;
    MakeTileCoordIs(x, y, flag, s);
    LowOfTwo(x, y, flag, 12, 0xFFF, 16, s);
    HighOfTwo(x, y, flag, 12, 0xFFF, 16, s);
  }

  lemma MakeTileCoordIs(x: u32, y: u32, flag: u32, s: nat)
    requires y < 0x1000 && s == 0x1_0000
    ensures MakeTileCoord(x, y, flag) == BitOr(BitOr(x, y * s), flag)
  {
    var y16 := y * s;
    assert y16 % 0x1_0000_0000 == y16;
  }

  lemma Unflagged(c: nat, flag: nat, mask: nat)
    requires BitAnd(flag, mask) == 0
    ensures BitAnd(BitOr(c, flag), mask) == BitAnd(c, mask)
  {
    AndOverOr(c, flag, mask);
    OrSymmetric(BitAnd(c, mask), 0);
  }

  lemma LowField(x: nat, y: nat, k: nat, s: nat, mask: nat)
    requires s == Pow2(k) && mask < s && BitAnd(x, mask) == x
    ensures BitAnd(BitOr(x, y * s), mask) == x
  {
    ShlMul(y, k);
    AndLowShl(mask, y, k);
    Unflagged(x, Shl(y, k), mask);
  }

  lemma HighField(x: nat, y: nat, k: nat, s: nat, field: nat)
    requires s == Pow2(k) && x < s && BitAnd(y, field) == y
    ensures BitAnd(BitOr(x, y * s), field * s) == y * s
  {
    ShlMul(y, k);
    ShlMul(field, k);
    AndShl(BitOr(x, Shl(y, k)), field, k);
    ShrOrShl(x, y, k);
  }

  lemma LowOfTwo(x: nat, y: nat, flag: nat, j: nat, low: nat, k: nat, s: nat)
    requires low == Pow2(j) - 1 && s == Pow2(k) && low < s && x <= low && BitAnd(flag, low) == 0
    ensures BitAnd(BitOr(BitOr(x, y * s), flag), low) == x
  {
    AndSmall(x, j);
    LowField(x, y, k, s, low);
    Unflagged(BitOr(x, y * s), flag, low);
  }

  lemma HighOfTwo(x: nat, y: nat, flag: nat, j: nat, low: nat, k: nat, s: nat)
    requires low == Pow2(j) - 1 && s == Pow2(k) && x < s && y <= low && BitAnd(flag, low * s) == 0
    ensures BitAnd(BitOr(BitOr(x, y * s), flag), low * s) == y * s
  {
    AndSmall(y, j);
    HighField(x, y, k, s, low);
    Unflagged(BitOr(x, y * s), flag, low * s);
  }
}
