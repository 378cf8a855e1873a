/** What a synthesised vertex or tiler job consists of: the packet and the seven
    blocks its payload points to. */
module JobImages {
  import opened Bits
  import opened Memory
  import opened Layouts
  import opened Pool

  function Words(n: nat): (ws: seq<u32>)
    ensures |ws| == n
  {
    seq(n, _ => 0)
  }

  function Pair(q: u64): (ws: seq<u32>)
    ensures |ws| == 2
  {
    [Lo(q), Hi(q)]
  }

  function SetValueHeader(): Header {
    Header(0, 0, 0, true, JOB_TYPE_SET_VALUE, 0, 0, 0, 0, 0)
  }

  function FragmentHeader(): Header {
    Header(0, 0, 0, false, JOB_TYPE_FRAGMENT, 0, 1, 0, 0, 0)
  }

  function VertexTilerHeader(tiler: bool): Header {
    Header(0, 0, 0, false, if tiler then JOB_TYPE_TILER else JOB_TYPE_VERTEX, 0, 0, 0, 0, 0)
  }

  // ----- the seven blocks allocated by the payload's initialiser -----

  const UNKNOWN1: nat := 0
  const UNKNOWN2: nat := 1
  const SHADER_META: nat := 2
  const ATTRIBUTE_META: nat := 3
  const UNKNOWN5: nat := 4
  const UNKNOWN6: nat := 5
  /** `nullForVertex` of a tiler job, the overwritten `unknown7` of a vertex job. */
  const LAST_SLOT: nat := 6

  /** Sizes in words of the blocks asked for. */
  function SlotWords(): (s: seq<nat>)
    ensures |s| == 7
  {
    [4, 8, 6, 4, 8, 16, 16]
  }

  /** The order in which the compiler evaluates the seven `galloc` calls. */
  ghost predicate IsOrder(order: seq<nat>) {
    && |order| == 7
    && (forall i | 0 <= i < 7 :: order[i] < 7)
    && (forall i, j | 0 <= i < j < 7 :: order[i] != order[j])
    && (forall j | 0 <= j < 7 :: j in order)
  }

  /** Seven distinct block addresses strictly between `lo` and `hi`. */
  ghost predicate SlotsWithin(at: seq<u32>, lo: int, hi: int) {
    && |at| == 7
    && (forall j | 0 <= j < 7 :: lo < at[j] < hi && at[j] % 0x400 == 0)
    && (forall i, j | 0 <= i < j < 7 :: at[i] != at[j])
  }

  lemma Position(order: seq<nat>, j: nat) returns (i: nat)
    requires IsOrder(order) && j < 7
    ensures i < 7 && order[i] == j
  {
    assert j in order;
    i :| 0 <= i < |order| && order[i] == j;
  }

  /** Whatever the order, the blocks are the next seven 1 KiB units. */
  lemma SlotsPlaced(order: seq<nat>, at: seq<u32>, first: nat)
    requires IsOrder(order) && |at| == 7 && first % 0x400 == 0
    requires forall i | 0 <= i < 7 :: at[order[i]] == first + 0x400 * i
    ensures SlotsWithin(at, first - 1, first + 0x1801)
  {
    forall j | 0 <= j < 7 ensures first - 1 < at[j] < first + 0x1801 && at[j] % 0x400 == 0 {
      var i := Position(order, j);
      assert at[order[i]] == first + 0x400 * i;
    }
    forall j, j' | 0 <= j < j' < 7 ensures at[j] != at[j'] {
      var i := Position(order, j);
      var i' := Position(order, j');
      assert at[order[i]] == first + 0x400 * i && at[order[i']] == first + 0x400 * i';
    }
  }

  /** A pool with contents `cs` in the slots. */
  ghost function SlotHeap(h: Heap, at: seq<u32>, cs: seq<seq<u32>>): Heap
    requires |at| == 7 && |cs| == 7
  {
    h[at[0] := LeWords(cs[0])][at[1] := LeWords(cs[1])][at[2] := LeWords(cs[2])][at[3] := LeWords(cs[3])]
     [at[4] := LeWords(cs[4])][at[5] := LeWords(cs[5])][at[6] := LeWords(cs[6])]
  }

  lemma SlotHeapStore(h: Heap, at: seq<u32>, lo: int, hi: int, cs: seq<seq<u32>>, j: nat, ws: seq<u32>)
    requires SlotsWithin(at, lo, hi) && |cs| == 7 && j < 7
    ensures SlotHeap(h, at, cs)[at[j] := LeWords(ws)] == SlotHeap(h, at, cs[j := ws])
    ensures at[j] in SlotHeap(h, at, cs) && SlotHeap(h, at, cs)[at[j]] == LeWords(cs[j])
  {
    hide LeWords;
  }

  lemma SlotHeapOther(h: Heap, at: seq<u32>, lo: int, hi: int, cs: seq<seq<u32>>, p: u32, bs: Bytes)
    requires SlotsWithin(at, lo, hi) && |cs| == 7 && p !in at
    ensures SlotHeap(h, at, cs)[p := bs] == SlotHeap(h[p := bs], at, cs)
    ensures p in h ==> p in SlotHeap(h, at, cs) && SlotHeap(h, at, cs)[p] == h[p]
  {
    hide LeWords;
  }

  lemma SlotHeapIs(h: Heap, at: seq<u32>, lo: int, hi: int, cs: seq<seq<u32>>, h': Heap)
    requires SlotsWithin(at, lo, hi) && |cs| == 7
    requires forall j | 0 <= j < 7 :: at[j] in h' && h'[at[j]] == LeWords(cs[j])
    requires forall p | p in h && p !in at :: p in h' && h'[p] == h[p]
    requires forall p | p in h' :: p in h || p in at
    ensures h' == SlotHeap(h, at, cs)
  {
    hide LeWords;
    var r := SlotHeap(h, at, cs);
    assert r.Keys == h'.Keys by {
      forall p | p in h' ensures p in r { SlotKey(h, at, cs, p); }
      forall p | p in r ensures p in h' { SlotKey(h, at, cs, p); }
    }
    forall p | p in h' ensures h'[p] == r[p] {
      if p in at {
        var j :| 0 <= j < 7 && at[j] == p;
        SlotHeapStore(h, at, lo, hi, cs, j, cs[j]);
      } else {
        SlotHeapOther(h, at, lo, hi, cs, p, h[p]);
      }
    }
  }

  lemma SlotKey(h: Heap, at: seq<u32>, cs: seq<seq<u32>>, p: u32)
    requires |at| == 7 && |cs| == 7
    ensures p in SlotHeap(h, at, cs) <==> p in h || p in at
  {
  }

  /** The first `k` calls returned successive units, now zeroed blocks. */
  ghost predicate SlotsSoFar(order: seq<nat>, at: seq<u32>, first: nat, h: Heap, h': Heap, k: nat)
    requires IsOrder(order) && k <= 7
  {
    && |at| == 7
    && (forall i | 0 <= i < k :: at[order[i]] == first + 0x400 * i)
    && (forall i | 0 <= i < k :: (at[order[i]] in h' && h'[at[order[i]]] == Zeros(4 * SlotWords()[order[i]])))
    && (forall p | p in h :: p in h' && h'[p] == h[p])
    && (forall p | p in h' :: p in h || exists i | 0 <= i < k :: p == at[order[i]])
  }

  lemma NoSlots(order: seq<nat>, at: seq<u32>, first: nat, h: Heap)
    requires IsOrder(order) && |at| == 7
    ensures SlotsSoFar(order, at, first, h, h, 0)
  {
  }

  lemma SlotsStep(order: seq<nat>, at: seq<u32>, first: nat, h: Heap, h': Heap, k: nat, p: u32)
    requires IsOrder(order) && k < 7 && |at| == 7 && SlotsSoFar(order, at, first, h, h', k)
    requires p == first + 0x400 * k && p !in h'
    ensures SlotsSoFar(order, at[order[k] := p], first, h, h'[p := Zeros(4 * SlotWords()[order[k]])], k + 1)
  {
    hide SlotWords, Zeros;
    var at', h'' := at[order[k] := p], h'[p := Zeros(4 * SlotWords()[order[k]])];
    forall i | 0 <= i < k ensures at'[order[i]] == at[order[i]] && order[i] != order[k] {}
    forall i | 0 <= i < k + 1
      ensures at'[order[i]] == first + 0x400 * i
      ensures at'[order[i]] in h'' && h''[at'[order[i]]] == Zeros(4 * SlotWords()[order[i]])
    {
      if i < k { assert at'[order[i]] == at[order[i]] && at[order[i]] in h'; }
    }
    forall q | q in h'' ensures q in h || exists i | 0 <= i < k + 1 :: q == at'[order[i]] {
      if q == p {
        assert q == at'[order[k]];
      } else if q !in h {
        var i :| 0 <= i < k && q == at[order[i]];
        assert q == at'[order[i]];
      }
    }
  }

  /** After all seven calls the pool has exactly the seven zeroed blocks more. */
  lemma SlotsAllocated(order: seq<nat>, at: seq<u32>, first: nat, h: Heap, h': Heap)
    requires IsOrder(order) && first % 0x400 == 0 && SlotsSoFar(order, at, first, h, h', 7)
    ensures |at| == 7 && SlotsWithin(at, first - 1, first + 0x1801) && h' == SlotHeap(h, at, EmptySlots())
    ensures forall i | 0 <= i < 7 :: at[order[i]] == first + 0x400 * i
  {
    hide LeWords, EmptySlots, SlotWords;
    SlotsPlaced(order, at, first);
    forall j | 0 <= j < 7 ensures at[j] in h' && h'[at[j]] == LeWords(EmptySlots()[j]) {
      var i := Position(order, j);
      assert at[order[i]] in h';
      EmptySlot(j);
    }
    forall p | p in h' ensures p in h || p in at {}
    SlotHeapIs(h, at, first - 1, first + 0x1801, EmptySlots(), h');
  }

  lemma EmptySlot(j: nat)
    requires j < 7
    ensures LeWords(EmptySlots()[j]) == Zeros(4 * SlotWords()[j])
  {
    ZeroWords(SlotWords()[j]);
    assert EmptySlots()[j] == Words(SlotWords()[j]);
  }

  // ----- their contents -----

  function EmptySlots(): (cs: seq<seq<u32>>)
    ensures |cs| == 7 && forall j | 0 <= j < 7 :: |cs[j]| == SlotWords()[j]
  {
    [Words(4), Words(8), Words(6), Words(4), Words(8), Words(16), Words(16)]
  }

  const VIEWPORT: seq<u32> := [0x4320_0000, 0x42F0_0000, 0x3F00_0000, 0, 0x4320_0000, 0x42F0_0000, 0x3F00_0000, 0]
  const SIX: seq<u32> :=
    [0x17E4_9000, 0, 0x17E4_9000, 0, 0x17E4_9000, 0, 0x17E4_9000, 0, 0x179A_2200, 0, 0x17E4_9000, 0, 0x17E4_9000, 0]
  const TILER_TAIL: seq<u32> :=
    [0xFF80_0000, 0xFF80_0000, 0x7F80_0000, 0x7F80_0000, 0, 0x3F80_0000, 0, 0x00EF_013F, 0, 0x1F, 0x0202_0000, 1]
  const ATTRIBUTE_ZERO: u32 := 0x2DEA_2200

  function ShaderMetaOf(tiler: bool, shader: u64): ShaderMeta {
    if tiler then ShaderMeta(shader, 0x0007_0000_0000_0000, 0x0000_0000_0002_0602)
    else ShaderMeta(shader, 0x0005_0001_0000_0000, 0x0000_0000_0042_0002)
  }

  function WriteBufferWord(tiler: bool, writeBuffer: u32): u64 {
    BitOr64(BitOr64((if tiler then 0xDB else 0x7A) * 0x100_0000_0000_0000, writeBuffer), 1)
  }

  function SlotContents(tiler: bool, shader: u64, writeBuffer: u32): (cs: seq<seq<u32>>)
    ensures |cs| == 7 && forall j | 0 <= j < 7 :: |cs[j]| == SlotWords()[j]
  {
    [Pair(0x5A5A_5A5A_5A5A_1001) + Pair(0x5A5A_5A5A_5A5A_3000),
     if tiler then Words(8) else VIEWPORT,
     EncodeShaderMeta(ShaderMetaOf(tiler, shader)),
     [ATTRIBUTE_ZERO, 0, 0, 0],
     Pair(WriteBufferWord(tiler, writeBuffer)) + Pair(0x40_0000_0010) + Words(4),
     SIX + Words(2),
     if tiler then TILER_TAIL + Words(4) else Words(16)]
  }

  // ----- the payload -----

  const TILER_BLOCK2: seq<u32> := [
    0x0000_0001, 0x0000_0000, 0x0007_0000, 0x0002_0602,
    0x0000_0000, 0x0000_0000, 0x0000_0000, 0x3712_FFFF,
    0x44F0_FFFF, 0x0007_FF00, 0x0007_FF00, 0x0000_0000,
    0x0000_0000, 0x0000_0000, 0x0000_0000, 0x0000_0200,
    0x0000_0000, 0xF012_2122, 0x0000_0000, 0x0000_0000,
    0x0000_0000, 0xF012_2122, 0x0000_0000, 0xFF80_0000,
    0xFF80_0000, 0x7F80_0000, 0x7F80_0000, 0x0000_0000,
    0x3F80_0000, 0x0000_0000, 0xEF01_3F00, 0x0000_0000,
    0x0000_001F, 0x0202_0000, 0x0000_0001, 0x0000_0000]

  const VERTEX_BLOCK2: seq<u32> := [
    0x0000_0000, 0x0000_000C, 0x0000_0030, 0x2DEA_2200,
    0x0000_0000, 0x0000_0000, 0x0000_0000, 0xCAFE_DA01,
    0x5700_0000, 0x0000_0010, 0x0000_0040, 0x17E4_9000,
    0x0000_0000, 0x17E4_9000, 0x0000_0000, 0x17E4_9000,
    0x0000_0000, 0x17E4_9000, 0x0000_0000, 0x179A_2200,
    0x0000_0000, 0x17E4_9000, 0x0000_0000, 0x17E4_9000,
    0x0000_0000, 0x0000_0000, 0x0000_0000, 0x4320_0000,
    0x42F0_0000, 0x3F00_0000, 0x0000_0000, 0x4320_0000,
    0x42F0_0000, 0x3F00_0000, 0x0000_0000, 0x0000_0000]

  function ModeWord(tiler: bool, mode: u32): u32 {
    BitOr32(0x1400_0000, if tiler then BitOr32(0x03_0000, mode) else 0)
  }

  function Block1(tiler: bool, mode: u32): (ws: seq<u32>)
    ensures |ws| == 11
  {
    [3, 0x2800_0000, ModeWord(tiler, mode), 0, 0, if tiler then 3 else 0, 0, 0, 5, 0, 0]
  }

  /** The payload as copied into the packet.  In a tiler job most pointers have
      been replaced by addresses that trap. */
  function PayloadOf(tiler: bool, mode: u32, zeroes: u32, attributes: u32, fbd: u32, at: seq<u32>): (v: VertexTiler)
    requires |at| == 7
    ensures v.Sized()
  {
    if tiler then
      VertexTiler(Block1(true, mode), zeroes, 0x5AB0_2A00, 0, 0, 0x5AB0_3A00, 0x5AB0_0A05, 0x5AB0_4A00, 0x5AB0_5A00,
                  0x5AB0_6A00, 0x5AB0_7A00, at[LAST_SLOT], 0, fbd, 0x5AB0_DA00, TILER_BLOCK2)
    else
      VertexTiler(Block1(false, mode), zeroes, at[UNKNOWN1], 0, 0, at[UNKNOWN2], at[SHADER_META], attributes,
                  at[ATTRIBUTE_META], at[UNKNOWN5], at[UNKNOWN6], 0, 0, fbd, 0xDEAD_FA00, VERTEX_BLOCK2)
  }

  function Packet(h: Header, v: VertexTiler): (b: Bytes)
    requires v.Sized()
    ensures |b| == 276
  {
    EncodeHeader(h) + LeWords(EncodeVertexTiler(v))
  }

  /** The pool with a complete job added: packet, slots and write buffer. */
  ghost function JobHeap(h: Heap, tiler: bool, packet: u32, at: seq<u32>, writeBuffer: u32,
                         header: Header, v: VertexTiler, shader: u64): Heap
    requires |at| == 7 && v.Sized()
  {
    SlotHeap(h[packet := Packet(header, v)][writeBuffer := Zeros(64)], at, SlotContents(tiler, shader, writeBuffer))
  }

  /** Rewriting the packet of a job in place. */
  lemma JobHeapHeader(h: Heap, tiler: bool, p: u32, at: seq<u32>, w: u32, lo: int, hi: int, header: Header,
                      header': Header, v: VertexTiler, shader: u64)
    requires v.Sized() && SlotsWithin(at, lo, hi) && p != w && p !in at
    ensures JobHeap(h, tiler, p, at, w, header, v, shader)[p := Packet(header', v)]
         == JobHeap(h, tiler, p, at, w, header', v, shader)
    ensures p in JobHeap(h, tiler, p, at, w, header, v, shader)
      && JobHeap(h, tiler, p, at, w, header, v, shader)[p] == Packet(header, v)
  {
    hide SlotHeap, SlotsWithin, Packet, SlotContents;
    SlotHeapOther(h[p := Packet(header, v)][w := Zeros(64)], at, lo, hi, SlotContents(tiler, shader, w), p,
                  Packet(header', v));
    assert h[p := Packet(header, v)][w := Zeros(64)][p := Packet(header', v)]
        == h[p := Packet(header', v)][w := Zeros(64)];
  }

  /** Writing a block that is not part of the job. */
  lemma JobHeapOther(h: Heap, tiler: bool, p: u32, at: seq<u32>, w: u32, lo: int, hi: int, header: Header,
                     v: VertexTiler, shader: u64, q: u32, bs: Bytes)
    requires v.Sized() && SlotsWithin(at, lo, hi) && q != p && q != w && q !in at
    ensures JobHeap(h, tiler, p, at, w, header, v, shader)[q := bs]
         == JobHeap(h[q := bs], tiler, p, at, w, header, v, shader)
    ensures q in h ==>
      q in JobHeap(h, tiler, p, at, w, header, v, shader) && JobHeap(h, tiler, p, at, w, header, v, shader)[q] == h[q]
  {
    hide SlotHeap, SlotsWithin, Packet, SlotContents;
    var h2 := h[p := Packet(header, v)][w := Zeros(64)];
    SlotHeapOther(h2, at, lo, hi, SlotContents(tiler, shader, w), q, bs);
    assert h2[q := bs] == h[q := bs][p := Packet(header, v)][w := Zeros(64)];
  }

  // ----- a whole SET_VALUE, VERTEX, TILER chain -----

  function SetPacket(h: Header, s: SetValue): (b: Bytes)
    ensures |b| == 48
  {
    EncodeHeader(h) + LeWords(EncodeSetValue(s))
  }

  /** Everything a chain consists of but the three headers.  `h` is the pool with
      the vertices, their attribute buffer and the framebuffer descriptor. */
  datatype Chain3 = Chain3(
    h: Heap, first: u32, vertex: u32, tiler: u32, vertexSlots: seq<u32>, tilerSlots: seq<u32>,
    value: SetValue, vertexJob: VertexTiler, tilerJob: VertexTiler, vertexShader: u64, tilerShader: u64)

  datatype Headers = Headers(first: Header, vertex: Header, tiler: Header)

  ghost predicate WellPlaced(c: Chain3) {
    && c.vertexJob.Sized() && c.tilerJob.Sized()
    && c.first + 0x400 == c.vertex && c.vertex + 0x2400 == c.tiler && c.tiler + 0x2040 < WORD32
    && SlotsWithin(c.vertexSlots, c.vertex + 0x3FF, c.vertex + 0x1C01)
    && SlotsWithin(c.tilerSlots, c.tiler + 0x3FF, c.tiler + 0x1C01)
  }

  ghost function ChainHeap(c: Chain3, hs: Headers): Heap
    requires WellPlaced(c)
  {
    JobHeap(JobHeap(c.h[c.first := SetPacket(hs.first, c.value)],
                    false, c.vertex, c.vertexSlots, c.vertex + 0x2000, hs.vertex, c.vertexJob, c.vertexShader),
            true, c.tiler, c.tilerSlots, c.tiler + 0x2000, hs.tiler, c.tilerJob, c.tilerShader)
  }

  lemma ChainHeapSet(c: Chain3, hs: Headers, first: Header)
    requires WellPlaced(c)
    ensures ChainHeap(c, hs)[c.first := SetPacket(first, c.value)] == ChainHeap(c, hs.(first := first))
    ensures c.first in ChainHeap(c, hs) && ChainHeap(c, hs)[c.first] == SetPacket(hs.first, c.value)
  {
    hide JobHeap, SetPacket;
    var h1, b := c.h[c.first := SetPacket(hs.first, c.value)], SetPacket(first, c.value);
    var j1 := JobHeap(h1, false, c.vertex, c.vertexSlots, c.vertex + 0x2000, hs.vertex, c.vertexJob, c.vertexShader);
    JobHeapOther(j1, true, c.tiler, c.tilerSlots, c.tiler + 0x2000, c.tiler + 0x3FF, c.tiler + 0x1C01,
                 hs.tiler, c.tilerJob, c.tilerShader, c.first, b);
    JobHeapOther(h1, false, c.vertex, c.vertexSlots, c.vertex + 0x2000, c.vertex + 0x3FF, c.vertex + 0x1C01,
                 hs.vertex, c.vertexJob, c.vertexShader, c.first, b);
    assert h1[c.first := b] == c.h[c.first := b];
  }

  lemma ChainHeapVertex(c: Chain3, hs: Headers, vertex: Header)
    requires WellPlaced(c)
    ensures ChainHeap(c, hs)[c.vertex := Packet(vertex, c.vertexJob)] == ChainHeap(c, hs.(vertex := vertex))
    ensures c.vertex in ChainHeap(c, hs) && ChainHeap(c, hs)[c.vertex] == Packet(hs.vertex, c.vertexJob)
  {
    hide JobHeap, SetPacket, Packet;
    var h1 := c.h[c.first := SetPacket(hs.first, c.value)];
    var j1 := JobHeap(h1, false, c.vertex, c.vertexSlots, c.vertex + 0x2000, hs.vertex, c.vertexJob, c.vertexShader);
    JobHeapHeader(h1, false, c.vertex, c.vertexSlots, c.vertex + 0x2000, c.vertex + 0x3FF, c.vertex + 0x1C01,
                  hs.vertex, vertex, c.vertexJob, c.vertexShader);
    JobHeapOther(j1, true, c.tiler, c.tilerSlots, c.tiler + 0x2000, c.tiler + 0x3FF, c.tiler + 0x1C01,
                 hs.tiler, c.tilerJob, c.tilerShader, c.vertex, Packet(vertex, c.vertexJob));
  }

  lemma ChainHeapTiler(c: Chain3, hs: Headers, tiler: Header)
    requires WellPlaced(c)
    ensures ChainHeap(c, hs)[c.tiler := Packet(tiler, c.tilerJob)] == ChainHeap(c, hs.(tiler := tiler))
    ensures c.tiler in ChainHeap(c, hs) && ChainHeap(c, hs)[c.tiler] == Packet(hs.tiler, c.tilerJob)
  {
    hide JobHeap, SetPacket, Packet;
    var h1 := c.h[c.first := SetPacket(hs.first, c.value)];
    var j1 := JobHeap(h1, false, c.vertex, c.vertexSlots, c.vertex + 0x2000, hs.vertex, c.vertexJob, c.vertexShader);
    JobHeapHeader(j1, true, c.tiler, c.tilerSlots, c.tiler + 0x2000, c.tiler + 0x3FF, c.tiler + 0x1C01,
                  hs.tiler, tiler, c.tilerJob, c.tilerShader);
  }

  lemma JobHeapSlot(h: Heap, tiler: bool, p: u32, at: seq<u32>, w: u32, lo: int, hi: int, header: Header,
                    v: VertexTiler, shader: u64, j: nat)
    requires v.Sized() && SlotsWithin(at, lo, hi) && j < 7
    ensures var r := JobHeap(h, tiler, p, at, w, header, v, shader);
      at[j] in r && r[at[j]] == LeWords(SlotContents(tiler, shader, w)[j])
  {
    hide SlotHeap, SlotsWithin, Packet, SlotContents;
    var cs := SlotContents(tiler, shader, w);
    SlotHeapStore(h[p := Packet(header, v)][w := Zeros(64)], at, lo, hi, cs, j, cs[j]);
  }

  /** The vertex job's slots, and what was in the pool before the chain. */
  lemma ChainHeapSlot(c: Chain3, hs: Headers, j: nat)
    requires WellPlaced(c) && j < 7
    ensures c.vertexSlots[j] in ChainHeap(c, hs)
    ensures ChainHeap(c, hs)[c.vertexSlots[j]] == LeWords(SlotContents(false, c.vertexShader, c.vertex + 0x2000)[j])
  {
    hide JobHeap, SetPacket, Packet, SlotContents, LeWords;
    var q := c.vertexSlots[j];
    assert c.vertex < q < c.tiler && q !in c.tilerSlots;
    hide SlotsWithin;
    var h1 := c.h[c.first := SetPacket(hs.first, c.value)];
    var j1 := JobHeap(h1, false, c.vertex, c.vertexSlots, c.vertex + 0x2000, hs.vertex, c.vertexJob, c.vertexShader);
    JobHeapSlot(h1, false, c.vertex, c.vertexSlots, c.vertex + 0x2000, c.vertex + 0x3FF, c.vertex + 0x1C01,
                hs.vertex, c.vertexJob, c.vertexShader, j);
    JobHeapOther(j1, true, c.tiler, c.tilerSlots, c.tiler + 0x2000, c.tiler + 0x3FF, c.tiler + 0x1C01,
                 hs.tiler, c.tilerJob, c.tilerShader, q, []);
  }

  lemma ChainHeapTilerSlot(c: Chain3, hs: Headers, j: nat)
    requires WellPlaced(c) && j < 7
    ensures c.tilerSlots[j] in ChainHeap(c, hs)
    ensures ChainHeap(c, hs)[c.tilerSlots[j]] == LeWords(SlotContents(true, c.tilerShader, c.tiler + 0x2000)[j])
  {
    hide JobHeap, SetPacket, Packet, SlotContents, LeWords;
    var h1 := c.h[c.first := SetPacket(hs.first, c.value)];
    var j1 := JobHeap(h1, false, c.vertex, c.vertexSlots, c.vertex + 0x2000, hs.vertex, c.vertexJob, c.vertexShader);
    JobHeapSlot(j1, true, c.tiler, c.tilerSlots, c.tiler + 0x2000, c.tiler + 0x3FF, c.tiler + 0x1C01,
                hs.tiler, c.tilerJob, c.tilerShader, j);
  }

  lemma ChainHeapBelow(c: Chain3, hs: Headers, q: u32)
    requires WellPlaced(c) && q in c.h && q < c.first
    ensures q in ChainHeap(c, hs) && ChainHeap(c, hs)[q] == c.h[q]
  {
    hide JobHeap, SetPacket, Packet;
    assert q !in c.tilerSlots && q !in c.vertexSlots;
    hide SlotsWithin;
    var h1 := c.h[c.first := SetPacket(hs.first, c.value)];
    var j1 := JobHeap(h1, false, c.vertex, c.vertexSlots, c.vertex + 0x2000, hs.vertex, c.vertexJob, c.vertexShader);
    JobHeapOther(h1, false, c.vertex, c.vertexSlots, c.vertex + 0x2000, c.vertex + 0x3FF, c.vertex + 0x1C01,
                 hs.vertex, c.vertexJob, c.vertexShader, q, []);
    JobHeapOther(j1, true, c.tiler, c.tilerSlots, c.tiler + 0x2000, c.tiler + 0x3FF, c.tiler + 0x1C01,
                 hs.tiler, c.tilerJob, c.tilerShader, q, []);
  }

  // ----- stores to one field of a packet's header -----

  lemma StoreNext(h: Header, r: Bytes, v: u64)
    ensures Splice(EncodeHeader(h) + r, 24, Le64(v)) == EncodeHeader(h.(next := v)) + r
  {
    hide Le32, Le64, Le16;
  }

  lemma StoreIndex(h: Header, r: Bytes, v: u16)
    ensures Splice(EncodeHeader(h) + r, 18, Le16(v)) == EncodeHeader(h.(index := v)) + r
  {
    hide Le32, Le64, Le16;
  }

  lemma StoreDependency1(h: Header, r: Bytes, v: u16)
    ensures Splice(EncodeHeader(h) + r, 20, Le16(v)) == EncodeHeader(h.(dependency1 := v)) + r
  {
    hide Le32, Le64, Le16;
  }

  lemma StoreDependency2(h: Header, r: Bytes, v: u16)
    ensures Splice(EncodeHeader(h) + r, 22, Le16(v)) == EncodeHeader(h.(dependency2 := v)) + r
  {
    hide Le32, Le64, Le16;
  }
}
