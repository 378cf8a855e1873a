/** Synthesis of job chains into pool memory. */
module Synthesiser {
  import opened Bits
  import opened Memory
  import opened Layouts
  import opened Pool
  import opened Atoms
  import opened JobImages

  const SV_OFFSET: u64 := 0x4000
  const EXCLUSIVE: u64 := 1  // MALI_EXT_RES_ACCESS_EXCLUSIVE

  // ----- contents of the synthesised records -----

  function Block3(block2a: u64): (ws: seq<u32>)
    ensures |ws| == 18
  {
    [0, 0, 0x0003_0005, 0, 0x5ABA_5ABA, 0, Lo(block2a), Hi(block2a), 3, 0, 0, 0, 0, 0, 0, 0, 0x5ABA_5DBA, 0]
  }

  function MfbdImage(tiler: bool, heapFree: u64, scratchpad: u64): (m: Mfbd)
    ensures m.Sized()
  {
    var b2a: u64 := (scratchpad + SV_OFFSET) % WORD64;
    var b2b: u64 := (scratchpad + SV_OFFSET + 0x200) % WORD64;
    Mfbd(0x1F_0000_0000, scratchpad,
         [0, 0, 0, 0, 0x02D8_01C2, 0, 0x02D8_01C2,
          if tiler then 0x0400_1080 else 0x0100_1080,
          if tiler then 0x0000_00FF else 0xC021_0000,
          if tiler then 0x3F80_0000 else 0],
         0x1600, 0xF0, b2a, b2b, heapFree, BitOr64(heapFree, 0x800_0000),
         Words(8), 0, Block3(b2a) + Words(4), 0, if tiler then 0 else 0xFFFF_F8C0, Words(10))
  }

  class Synth {
    const cbma: Cbma
    const queue: JobQueue
    var atomCount: nat

    ghost predicate Valid()
      reads this, cbma, cbma.ram, queue
    {
      cbma.Valid() && queue.Valid()
    }

    constructor (cbma: Cbma, queue: JobQueue)
      requires cbma.Valid() && queue.Valid()
      ensures this.cbma == cbma && this.queue == queue && atomCount == 0 && Valid()
    {
      this.cbma := cbma;
      this.queue := queue;
      atomCount := 0;
    }

    method SetValueHelper(out: u64) returns (p: u32)
      requires Valid() && Next(cbma.cbmaBottom) + 48 <= cbma.base + POOL_SIZE
      modifies cbma`cbmaBottom, cbma`blocks, cbma.ram
      ensures Valid() && p == Next(old(cbma.cbmaBottom)) && cbma.cbmaBottom == p + 48 && p !in old(cbma.blocks)
      ensures cbma.blocks == old(cbma.blocks)[p :=
        EncodeHeader(SetValueHeader()) + LeWords(EncodeSetValue(SetValue(out, 3)))]
    {
      ghost var h0 := cbma.blocks;
      p := cbma.Galloc(48);
      cbma.StorePacket(p, EncodeHeader(SetValueHeader()), LeWords(EncodeSetValue(SetValue(out, 3))), h0);
    }

    method MakeMfbd(tiler: bool, heapFree: u64, scratchpad: u64) returns (tagged: u64)
      requires Valid() && Next(cbma.cbmaBottom) + 280 <= cbma.base + POOL_SIZE
      modifies cbma`cbmaBottom, cbma`blocks, cbma.ram
      ensures Valid() && Next(old(cbma.cbmaBottom)) !in old(cbma.blocks)
      ensures var p := Next(old(cbma.cbmaBottom));
        && cbma.cbmaBottom == p + 280
        && tagged == p + MFBD + (if tiler then FBD_TILER else FBD_FRAGMENT)
        && cbma.blocks == old(cbma.blocks)[p := LeWords(EncodeMfbd(MfbdImage(tiler, heapFree, scratchpad)))]
    {
      ghost var h0 := cbma.blocks;
      var p := cbma.Galloc(280);
      ZeroMfbd();
      FillMfbd(p, tiler, heapFree, scratchpad, h0);
      tagged := BitOr64(BitOr64(p, MFBD), if tiler then FBD_TILER else FBD_FRAGMENT);
      FbdTag(p, tiler);
    }

    /** The stores of `make_mfbd`, in its order. */
    method FillMfbd(p: u32, tiler: bool, heapFree: u64, scratchpad: u64, ghost h0: Heap)
      requires Filled(p, h0, ZERO_MFBD)
      modifies cbma`blocks, cbma.ram
      ensures Filled(p, h0, MfbdImage(tiler, heapFree, scratchpad))
    {
      hide Filled, Splice, EncodeMfbd, Block3, BitOr64, Words;
      ghost var m := ZERO_MFBD;
      var b2a: u64 := (scratchpad + SV_OFFSET) % WORD64;
      var b2b: u64 := (scratchpad + SV_OFFSET + 0x200) % WORD64;
      var u2 := BitOr64(heapFree, 0x800_0000);
      var t7: u32, t8: u32 := if tiler then 0x0400_1080 else 0x0100_1080, if tiler then 0x0000_00FF else 0xC021_0000;
      var t9: u32 := if tiler then 0x3F80_0000 else 0;
      StoreBlock2a(m, b2a);
      m := MfbdField(p, 16, Pair(b2a), h0, m, m.(block2a := b2a));
      StoreBlock2b(m, b2b);
      m := MfbdField(p, 18, Pair(b2b), h0, m, m.(block2b := b2b));
      StoreUgaT(m, scratchpad);
      m := MfbdField(p, 2, Pair(scratchpad), h0, m, m.(ugaT := scratchpad));
      StoreUnknown2(m, u2);
      m := MfbdField(p, 22, Pair(u2), h0, m, m.(unknown2 := u2));
      StoreFlags(m, 0xF0);
      m := MfbdField(p, 15, [0xF0], h0, m, m.(flags := 0xF0));
      StoreHeapFree(m, heapFree);
      m := MfbdField(p, 20, Pair(heapFree), h0, m, m.(heapFreeAddress := heapFree));
      StoreBlah(m, 0x1F_0000_0000);
      m := MfbdField(p, 0, Pair(0x1F_0000_0000), h0, m, m.(blah := 0x1F_0000_0000));
      StoreUnknown1(m, 0x1600);
      m := MfbdField(p, 14, [0x1600], h0, m, m.(unknown1 := 0x1600));
      if !tiler {
        StoreUnknown3(m, 0xFFFF_F8C0);
        m := MfbdField(p, 58, Pair(0xFFFF_F8C0), h0, m, m.(unknown3 := 0xFFFF_F8C0));
      }
      StoreBlock1(m, 4, 0x02D8_01C2);
      m := MfbdField(p, 8, [0x02D8_01C2], h0, m, m.(block1 := m.block1[4 := 0x02D8_01C2]));
      StoreBlock1(m, 6, 0x02D8_01C2);
      m := MfbdField(p, 10, [0x02D8_01C2], h0, m, m.(block1 := m.block1[6 := 0x02D8_01C2]));
      StoreBlock1(m, 7, t7);
      m := MfbdField(p, 11, [t7], h0, m, m.(block1 := m.block1[7 := t7]));
      StoreBlock1(m, 8, t8);
      m := MfbdField(p, 12, [t8], h0, m, m.(block1 := m.block1[8 := t8]));
      StoreBlock1(m, 9, t9);
      m := MfbdField(p, 13, [t9], h0, m, m.(block1 := m.block1[9 := t9]));
      StoreBlock3(m, Block3(b2a));
      m := MfbdField(p, 34, Block3(b2a), h0, m, m.(block3 := Block3(b2a) + m.block3[18..]));
      MfbdIs(m, tiler, heapFree, scratchpad);
    }

    /** The pool is valid and holds `h0` with the record `m` at `p`. */
    ghost predicate Filled(p: u32, h0: Heap, m: Mfbd)
      reads this, cbma, cbma.ram, queue
    {
      Valid() && m.Sized() && cbma.blocks == h0[p := LeWords(EncodeMfbd(m))]
    }

    method MfbdField(p: u32, k: nat, ws: seq<u32>, ghost h0: Heap, ghost m: Mfbd, ghost m': Mfbd)
      returns (ghost r: Mfbd)
      requires Filled(p, h0, m) && m.Sized() && m'.Sized()
      requires k + |ws| <= MFBD_WORDS && Splice(EncodeMfbd(m), k, ws) == EncodeMfbd(m')
      modifies cbma`blocks, cbma.ram
      ensures Filled(p, h0, m') && r == m'
    {
      hide Laid, Holds, SameOutside, Splice, LeWords, EncodeMfbd;
      ghost var ws' := cbma.Field(p, k, ws, h0, EncodeMfbd(m));
      r := m';
    }

    method UploadVertices(vertices: Bytes) returns (vb: u32)
      requires Valid() && |vertices| < WORD32
      requires Next(cbma.cbmaBottom) + 0x400 + |vertices| <= cbma.base + POOL_SIZE
      modifies cbma`cbmaBottom, cbma`blocks, cbma.ram
      ensures Valid() && vb == Next(old(cbma.cbmaBottom)) && cbma.cbmaBottom == vb + 0x400 + |vertices|
      ensures cbma.blocks == old(cbma.blocks)[vb + 0x400 := vertices][vb :=
        LeWords(EncodeAttributeBuffer(AttributeBuffer(vb + 0x400 + 1, 12, |vertices|)))]
    {
      hide Laid, Holds, SameOutside, Splice, LeWords;
      ghost var h0 := cbma.blocks;
      vb := cbma.Galloc(16);
      var verts := cbma.Galloc(|vertices|);
      cbma.Store(verts, 0, vertices);
      WholeBlock(vertices);
      ZeroWords(4);
      ghost var h := h0[verts := vertices];
      assert cbma.blocks == h[vb := LeWords(Words(4))];
      FillAttributeBuffer(vb, verts, |vertices|, h);
    }

    method FillAttributeBuffer(vb: u32, verts: u32, sz: u32, ghost h: Heap)
      requires Valid() && cbma.blocks == h[vb := LeWords(Words(4))] && verts % 0x400 == 0
      modifies cbma`blocks, cbma.ram
      ensures Valid() && cbma.blocks == h[vb := LeWords(EncodeAttributeBuffer(AttributeBuffer(verts + 1, 12, sz)))]
    {
      hide Laid, Holds, SameOutside, LeWords, Splice;
      AttributeWords(verts, sz);
      ghost var ws := cbma.Field(vb, 0, [verts, 0], h, Words(4));
      ws := cbma.Field(vb, 2, [12], h, ws);
      ws := cbma.Field(vb, 3, [sz], h, ws);
      var lo := cbma.LoadWord(vb, 0, ws);
      var hi := cbma.LoadWord(vb, 1, ws);
      ws := cbma.Field(vb, 0, Pair(BitOr64(QuadOf(lo, hi), 1)), h, ws);
    }

    /** The seven `galloc` calls of the payload initialiser, in whichever order
        the compiler chose. */
    method GallocSlots(order: seq<nat>) returns (at: seq<u32>)
      requires Valid() && IsOrder(order)
      requires Next(cbma.cbmaBottom) + 0x1800 + 64 <= cbma.base + POOL_SIZE
      modifies cbma`cbmaBottom, cbma`blocks, cbma.ram
      ensures Valid() && SlotsWithin(at, Next(old(cbma.cbmaBottom)) - 1, Next(old(cbma.cbmaBottom)) + 0x1801)
      ensures forall i | 0 <= i < 7 :: at[order[i]] == Next(old(cbma.cbmaBottom)) + 0x400 * i
      ensures Next(cbma.cbmaBottom) == Next(old(cbma.cbmaBottom)) + 0x1C00
      ensures cbma.blocks == SlotHeap(old(cbma.blocks), at, EmptySlots())
    {
      hide Laid, Holds, SameOutside, LeWords, Next, SlotsWithin, SlotsSoFar;
      ghost var first := Next(cbma.cbmaBottom);
      ghost var h := cbma.blocks;
      at := [0, 0, 0, 0, 0, 0, 0];
      NoSlots(order, at, first, h);
      for k := 0 to 7
        invariant Valid() && Next(cbma.cbmaBottom) == first + 0x400 * k
        invariant |at| == 7 && SlotsSoFar(order, at, first, h, cbma.blocks, k)
      {
        ghost var was := cbma.blocks;
        var sz := 4 * SlotWords()[order[k]];
        var p := cbma.Galloc(sz);
        NextUnit(p, sz);
        SlotsStep(order, at, first, h, was, k, p);
        at := at[order[k] := p];
      }
      SlotsAllocated(order, at, first, h, cbma.blocks);
    }

    /** The pool is valid and holds `h` with the words `cs` in the slots. */
    ghost predicate SlotsHold(at: seq<u32>, h: Heap, cs: seq<seq<u32>>)
      reads this, cbma, cbma.ram, queue
    {
      Valid() && |at| == 7 && |cs| == 7 && cbma.blocks == SlotHeap(h, at, cs)
    }

    /** A store through one of the payload's pointers. */
    method SlotField(at: seq<u32>, j: nat, k: nat, arr: seq<u32>, ghost lo: int, ghost hi: int, ghost h: Heap,
                     ghost cs: seq<seq<u32>>)
      returns (ghost cs': seq<seq<u32>>)
      requires SlotsHold(at, h, cs) && SlotsWithin(at, lo, hi) && |cs| == 7
      requires j < 7 && k + |arr| <= |cs[j]|
      modifies cbma`blocks, cbma.ram
      ensures SlotsHold(at, h, cs') && cs' == cs[j := Splice(cs[j], k, arr)]
    {
      hide Laid, Holds, SameOutside, Splice, LeWords, SlotHeap;
      SlotHeapStore(h, at, lo, hi, cs, j, cs[j]);
      SlotHeapStore(h, at, lo, hi, cs, j, Splice(cs[j], k, arr));
      cbma.StoreWords(at[j], k, arr, cs[j]);
      cs' := cs[j := Splice(cs[j], k, arr)];
    }

    /** `import_shader`, given the addresses the kernel returned for its pages. */
    method ImportShader(shader: Bytes, fragment: bool, gpu: u64, cpu: u32) returns (tagged: u64)
      requires Valid() && MappedOutside(cbma.base, cpu, |shader|)
      modifies cbma`outside, cbma.ram
      ensures Valid() && cbma.outside == Put(old(cbma.outside), cpu, shader)
      ensures tagged == TaggedShader(gpu, fragment)
    {
      hide Laid, Holds, SameOutside;
      cbma.StoreOutside(cpu, shader);
      tagged := BitOr64(BitOr64(gpu, SHADER), if fragment then SHADER_FRAGMENT else SHADER_VERTEX);
    }

    /** The stores of `vertex_tiler_helper` into the slots, in its order. */
    method FillSlots(tiler: bool, at: seq<u32>, shader: u64, ghost lo: int, ghost hi: int, ghost h: Heap)
      returns (ghost cs: seq<seq<u32>>)
      requires SlotsHold(at, h, EmptySlots()) && SlotsWithin(at, lo, hi)
      modifies cbma`blocks, cbma.ram
      ensures |cs| == 7 && SlotsHold(at, h, cs) && cs[UNKNOWN5] == Words(8)
      ensures forall writeBuffer ::
        cs[UNKNOWN5 := SlotContents(tiler, shader, writeBuffer)[UNKNOWN5]] == SlotContents(tiler, shader, writeBuffer)
    {
      hide SlotsHold, SlotsWithin, Splice;
      var meta := ShaderMetaOf(tiler, shader);
      cs := EmptySlots();
      cs := SlotField(at, SHADER_META, 0, Pair(shader), lo, hi, h, cs);
      if !tiler {
        cs := SlotField(at, UNKNOWN2, 0, VIEWPORT, lo, hi, h, cs);
      }
      cs := SlotField(at, SHADER_META, 2, Pair(meta.unknown1), lo, hi, h, cs);
      cs := SlotField(at, SHADER_META, 4, Pair(meta.unknown2), lo, hi, h, cs);
      cs := SlotField(at, ATTRIBUTE_META, 0, [ATTRIBUTE_ZERO], lo, hi, h, cs);
      cs := SlotField(at, UNKNOWN6, 0, SIX, lo, hi, h, cs);
      if tiler {
        cs := SlotField(at, LAST_SLOT, 0, TILER_TAIL, lo, hi, h, cs);
      }
      cs := SlotField(at, UNKNOWN1, 0, Pair(0x5A5A_5A5A_5A5A_1001), lo, hi, h, cs);
      cs := SlotField(at, UNKNOWN1, 2, Pair(0x5A5A_5A5A_5A5A_3000), lo, hi, h, cs);
      SlotsFilled(tiler, shader, cs);
    }

    /** `vertex_tiler_helper`.  `at` are the slot addresses, in field order. */
    method VertexTilerHelper(tiler: bool, fbd: u32, vertexBuffer: u32, zeroBuffer: u32, mode: u32, shader: Bytes,
                             gpu: u64, cpu: u32, order: seq<nat>)
      returns (p: u32, ghost at: seq<u32>)
      requires Valid() && IsOrder(order) && MappedOutside(cbma.base, cpu, |shader|)
      requires Next(cbma.cbmaBottom) + 0x2040 <= cbma.base + POOL_SIZE
      modifies cbma`cbmaBottom, cbma`blocks, cbma`outside, cbma.ram
      ensures Valid() && p == Next(old(cbma.cbmaBottom)) && cbma.cbmaBottom == p + 0x2040
      ensures cbma.outside == Put(old(cbma.outside), cpu, shader)
      ensures |at| == 7 && SlotsWithin(at, p + 0x3FF, p + 0x1C01)
      ensures forall i | 0 <= i < 7 :: at[order[i]] == p + 0x400 * (i + 1)
      ensures cbma.blocks == JobHeap(old(cbma.blocks), tiler, p, at, p + 0x2000, VertexTilerHeader(tiler),
        PayloadOf(tiler, mode, zeroBuffer, vertexBuffer, fbd, at), TaggedShader(gpu, tiler))
    {
      hide Laid, Holds, SameOutside, SlotsHold, SlotHeap, SlotContents, LeWords, Packet, EmptySlots, PayloadOf;
      ghost var h0 := cbma.blocks;
      var slots;
      p, slots := AllocJob(order);
      at := slots;
      ghost var lo, hi := p + 0x3FF, p + 0x1C01;
      var tagged := ImportJobShader(shader, tiler, gpu, cpu, slots, h0[p := Zeros(276)], EmptySlots());
      ghost var cs := FillSlots(tiler, slots, tagged, lo, hi, h0[p := Zeros(276)]);
      var writeBuffer := AllocWriteBuffer(p, slots, lo, hi, h0[p := Zeros(276)], cs);
      ghost var h: Heap := h0[p := Zeros(276)][writeBuffer := Zeros(64)];
      FillWriteBuffer(tiler, slots, tagged, writeBuffer, lo, hi, h, cs);
      var v := PayloadOf(tiler, mode, zeroBuffer, vertexBuffer, fbd, slots);
      WritePacket(p, VertexTilerHeader(tiler), v, at, lo, hi, h, SlotContents(tiler, tagged, writeBuffer));
      TwoUpdates(h0, p, Zeros(276), Packet(VertexTilerHeader(tiler), v), writeBuffer, Zeros(64));
      JobHeld(at, h0, p, writeBuffer, tiler, VertexTilerHeader(tiler), v, tagged);
    }

    lemma JobHeld(at: seq<u32>, h0: Heap, p: u32, writeBuffer: u32, tiler: bool, header: Header, v: VertexTiler,
                  shader: u64)
      requires v.Sized()
      requires SlotsHold(at, h0[p := Packet(header, v)][writeBuffer := Zeros(64)],
                         SlotContents(tiler, shader, writeBuffer))
      ensures Valid() && cbma.blocks == JobHeap(h0, tiler, p, at, writeBuffer, header, v, shader)
    {
      hide Laid, Holds, SameOutside, SlotContents, Packet, SlotHeap;
    }

    /** The packet and the seven slots. */
    method AllocJob(order: seq<nat>) returns (p: u32, at: seq<u32>)
      requires Valid() && IsOrder(order) && Next(cbma.cbmaBottom) + 0x2040 <= cbma.base + POOL_SIZE
      modifies cbma`cbmaBottom, cbma`blocks, cbma.ram
      ensures p == Next(old(cbma.cbmaBottom)) && Next(cbma.cbmaBottom) == p + 0x2000
      ensures SlotsWithin(at, p + 0x3FF, p + 0x1C01) && forall i | 0 <= i < 7 :: at[order[i]] == p + 0x400 * (i + 1)
      ensures SlotsHold(at, old(cbma.blocks)[p := Zeros(276)], EmptySlots())
    {
      hide Laid, Holds, SameOutside, SlotHeap, EmptySlots;
      p := cbma.Galloc(276);
      NextUnit(p, 276);
      at := GallocSlots(order);
    }

    /** Importing the shader does not touch the pool. */
    method ImportJobShader(shader: Bytes, tiler: bool, gpu: u64, cpu: u32, at: seq<u32>, ghost h: Heap,
                           ghost cs: seq<seq<u32>>)
      returns (tagged: u64)
      requires SlotsHold(at, h, cs) && MappedOutside(cbma.base, cpu, |shader|)
      modifies cbma`outside, cbma.ram
      ensures SlotsHold(at, h, cs) && tagged == TaggedShader(gpu, tiler)
      ensures |old(cbma.outside)| == SPACE && cbma.outside == Put(old(cbma.outside), cpu, shader)
    {
      hide Laid, Holds, SlotHeap;
      tagged := ImportShader(shader, tiler, gpu, cpu);
    }

    method AllocWriteBuffer(p: u32, at: seq<u32>, ghost lo: int, ghost hi: int, ghost h: Heap, ghost cs: seq<seq<u32>>)
      returns (w: u32)
      requires SlotsHold(at, h, cs) && SlotsWithin(at, lo, hi) && hi <= p + 0x2000
      requires Next(cbma.cbmaBottom) == p + 0x2000 && p + 0x2040 <= cbma.base + POOL_SIZE
      modifies cbma`cbmaBottom, cbma`blocks, cbma.ram
      ensures w == p + 0x2000 && cbma.cbmaBottom == w + 64 && SlotsHold(at, h[w := Zeros(64)], cs)
    {
      hide Laid, Holds, SameOutside, SlotHeap;
      w := cbma.Galloc(64);
      SlotHeapOther(h, at, lo, hi, cs, w, Zeros(64));
    }

    /** The two words of the write-buffer block. */
    method FillWriteBuffer(tiler: bool, at: seq<u32>, shader: u64, writeBuffer: u32, ghost lo: int, ghost hi: int,
                           ghost h: Heap, ghost cs: seq<seq<u32>>)
      requires SlotsHold(at, h, cs) && SlotsWithin(at, lo, hi) && |cs| == 7 && cs[UNKNOWN5] == Words(8)
      modifies cbma`blocks, cbma.ram
      ensures SlotsHold(at, h, cs[UNKNOWN5 := SlotContents(tiler, shader, writeBuffer)[UNKNOWN5]])
    {
      hide SlotsHold, SlotsWithin, WriteBufferWord;
      var q := WriteBufferWord(tiler, writeBuffer);
      ghost var cs' := SlotField(at, UNKNOWN5, 0, Pair(q), lo, hi, h, cs);
      cs' := SlotField(at, UNKNOWN5, 2, Pair(0x40_0000_0010), lo, hi, h, cs');
      assert cs'[UNKNOWN5] == Pair(q) + Pair(0x40_0000_0010) + Words(4);
      assert cs' == cs[UNKNOWN5 := cs'[UNKNOWN5]];
    }

    /** The final copies of header and payload into the packet. */
    method WritePacket(p: u32, header: Header, v: VertexTiler, ghost at: seq<u32>, ghost lo: int, ghost hi: int,
                       ghost h: Heap, ghost cs: seq<seq<u32>>)
      requires SlotsHold(at, h, cs) && SlotsWithin(at, lo, hi) && |cs| == 7 && v.Sized()
      requires p in h && h[p] == Zeros(276) && p !in at
      modifies cbma`blocks, cbma.ram
      ensures SlotsHold(at, h[p := Packet(header, v)], cs)
    {
      hide Laid, Holds, SameOutside, SlotHeap, LeWords, EncodeHeader, EncodeVertexTiler;
      SlotHeapOther(h, at, lo, hi, cs, p, Packet(header, v));
      cbma.StorePacket(p, EncodeHeader(header), LeWords(EncodeVertexTiler(v)), cbma.blocks);
    }

    /** The pool is valid and holds a chain with the given headers. */
    ghost predicate ChainHeld(c: Chain3, hs: Headers)
      reads this, cbma, cbma.ram, queue
    {
      Valid() && WellPlaced(c) && cbma.blocks == ChainHeap(c, hs)
    }

    /** A store to one header field of the chain. */
    method Poke(p: u32, at: nat, bs: Bytes, ghost c: Chain3, ghost hs: Headers, ghost hs': Headers)
      requires ChainHeld(c, hs) && WellPlaced(c) && p in ChainHeap(c, hs) && at + |bs| <= |ChainHeap(c, hs)[p]|
      requires ChainHeap(c, hs)[p := Splice(ChainHeap(c, hs)[p], at, bs)] == ChainHeap(c, hs')
      modifies cbma`blocks, cbma.ram
      ensures ChainHeld(c, hs')
    {
      hide Laid, Holds, SameOutside, Splice, ChainHeap, WellPlaced;
      cbma.Store(p, at, bs);
    }

    /** Linking the three jobs and numbering them. */
    method LinkChain(first: u32, vertex: u32, tiler: u32, ghost c: Chain3)
      requires ChainHeld(c, FreshHeaders()) && first == c.first && vertex == c.vertex && tiler == c.tiler
      modifies cbma`blocks, cbma.ram
      ensures ChainHeld(c, LinkedHeaders(vertex, tiler))
    {
      assert WellPlaced(c) && c.vertexJob.Sized() && c.tilerJob.Sized();
      hide ChainHeld, WellPlaced, ChainHeap, Splice, EncodeHeader, Le64, Le16, EncodeSetValue, EncodeVertexTiler,
           LeWords;
      ghost var hs := FreshHeaders();
      ghost var sr, vr, tr := LeWords(EncodeSetValue(c.value)), LeWords(EncodeVertexTiler(c.vertexJob)),
        LeWords(EncodeVertexTiler(c.tilerJob));

      ghost var hs1 := hs.(first := hs.first.(next := vertex));
      StoreNext(hs.first, sr, vertex);
      ChainHeapSet(c, hs, hs1.first);
      Poke(first, 24, Le64(vertex), c, hs, hs1);

      ghost var hs2 := hs1.(vertex := hs1.vertex.(next := tiler));
      StoreNext(hs1.vertex, vr, tiler);
      ChainHeapVertex(c, hs1, hs2.vertex);
      Poke(vertex, 24, Le64(tiler), c, hs1, hs2);

      ghost var hs3 := hs2.(first := hs2.first.(index := 3));
      StoreIndex(hs2.first, sr, 3);
      ChainHeapSet(c, hs2, hs3.first);
      Poke(first, 18, Le16(3), c, hs2, hs3);

      ghost var hs4 := hs3.(vertex := hs3.vertex.(index := 1));
      StoreIndex(hs3.vertex, vr, 1);
      ChainHeapVertex(c, hs3, hs4.vertex);
      Poke(vertex, 18, Le16(1), c, hs3, hs4);

      ghost var hs5 := hs4.(tiler := hs4.tiler.(index := 2));
      StoreIndex(hs4.tiler, tr, 2);
      ChainHeapTiler(c, hs4, hs5.tiler);
      Poke(tiler, 18, Le16(2), c, hs4, hs5);

      ghost var hs6 := hs5.(vertex := hs5.vertex.(dependency2 := 3));
      StoreDependency2(hs5.vertex, vr, 3);
      ChainHeapVertex(c, hs5, hs6.vertex);
      Poke(vertex, 22, Le16(3), c, hs5, hs6);

      ghost var hs7 := hs6.(tiler := hs6.tiler.(dependency1 := 1));
      StoreDependency1(hs6.tiler, tr, 1);
      ChainHeapTiler(c, hs6, hs7.tiler);
      Poke(tiler, 20, Le16(1), c, hs6, hs7);
    }

    /** `job_chain_vertex_tiler`.  The kernel's answers are parameters: the GPU
        address of the zero buffer, and GPU and CPU addresses of the two shaders. */
    method JobChainVertexTiler(vertices: Bytes, mode: u32, vertexShader: Bytes, fragmentShader: Bytes,
                               scratchpad: u64, heapFree: u64, zeroBuffer: u32, vertexPages: Pages,
                               fragmentPages: Pages, vertexOrder: seq<nat>, tilerOrder: seq<nat>)
      returns (tiler: u32, ghost c: Chain3)
      requires Valid() && |vertices| < WORD32 && IsOrder(vertexOrder) && IsOrder(tilerOrder)
      requires MappedOutside(cbma.base, vertexPages.cpu, |vertexShader|)
      requires MappedOutside(cbma.base, fragmentPages.cpu, |fragmentShader|)
      requires ChainEnd(cbma.cbmaBottom, |vertices|) <= cbma.base + POOL_SIZE
      modifies this`atomCount, cbma`cbmaBottom, cbma`blocks, cbma`outside, cbma.ram
      modifies queue`atomQueueSize, queue`batches, queue.atomQueue
      ensures Valid() && cbma.cbmaBottom == ChainEnd(old(cbma.cbmaBottom), |vertices|)
      ensures cbma.outside
           == Put(Put(old(cbma.outside), vertexPages.cpu, vertexShader), fragmentPages.cpu, fragmentShader)
      ensures c.tiler == tiler
      ensures IsChain(c, old(cbma.cbmaBottom), old(cbma.blocks), vertices, mode, scratchpad, heapFree,
                                          zeroBuffer, vertexPages.gpu, fragmentPages.gpu, vertexOrder, tilerOrder)
      ensures cbma.blocks == ChainHeap(c, LinkedHeaders(c.vertex, c.tiler))
      ensures atomCount == old(atomCount) + 1
      ensures queue.State() == Submit(old(queue.State()), AtomOf(VertexTilerChain(c.first), old(atomCount)))
    {
      hide Laid, Holds, SameOutside, ChainHeap, ChainOf, MappedOutside;
      var first, vertex;
      first, vertex, tiler, c := BuildChain(vertices, mode, vertexShader, fragmentShader, scratchpad, heapFree,
        zeroBuffer, vertexPages, fragmentPages, vertexOrder, tilerOrder);
      LinkChain(first, vertex, tiler, c);
      var atom := AtomOf(VertexTilerChain(first), atomCount);
      atomCount := atomCount + 1;
      queue.SubmitJob(atom);
    }

    /** The allocations and stores of `job_chain_vertex_tiler` before it links the jobs. */
    method BuildChain(vertices: Bytes, mode: u32, vertexShader: Bytes, fragmentShader: Bytes, scratchpad: u64,
                      heapFree: u64, zeroBuffer: u32, vertexPages: Pages, fragmentPages: Pages,
                      vertexOrder: seq<nat>, tilerOrder: seq<nat>)
      returns (first: u32, vertex: u32, tiler: u32, ghost c: Chain3)
      requires Valid() && |vertices| < WORD32 && IsOrder(vertexOrder) && IsOrder(tilerOrder)
      requires MappedOutside(cbma.base, vertexPages.cpu, |vertexShader|)
      requires MappedOutside(cbma.base, fragmentPages.cpu, |fragmentShader|)
      requires ChainEnd(cbma.cbmaBottom, |vertices|) <= cbma.base + POOL_SIZE
      modifies cbma`cbmaBottom, cbma`blocks, cbma`outside, cbma.ram
      ensures cbma.cbmaBottom == ChainEnd(old(cbma.cbmaBottom), |vertices|)
      ensures |old(cbma.outside)| == SPACE && cbma.outside
           == Put(Put(old(cbma.outside), vertexPages.cpu, vertexShader), fragmentPages.cpu, fragmentShader)
      ensures c.first == first && c.vertex == vertex && c.tiler == tiler
      ensures IsChain(c, old(cbma.cbmaBottom), old(cbma.blocks), vertices, mode, scratchpad, heapFree,
                      zeroBuffer, vertexPages.gpu, fragmentPages.gpu, vertexOrder, tilerOrder)
      ensures ChainHeld(c, FreshHeaders())
    {
      hide Laid, Holds, SameOutside, JobHeap, LeWords, EncodeMfbd, PayloadOf, EncodeHeader, MappedOutside,
           SlotsWithin, Next, ChainEnd, ChainStart, TaggedShader, IsOrder, SetPacket;
      ghost var h0, b0 := cbma.blocks, cbma.cbmaBottom;
      ChainAddresses(b0, |vertices|);
      var vertexBuffer, fbd;
      vertexBuffer, fbd, first := StartChain(vertices, heapFree, scratchpad);
      ghost var vat, tat;
      vertex, vat := VertexTilerHelper(false, fbd, vertexBuffer, zeroBuffer, mode,
        vertexShader, vertexPages.gpu, vertexPages.cpu, vertexOrder);
      tiler, tat := VertexTilerHelper(true, fbd, vertexBuffer, zeroBuffer, mode,
        fragmentShader, fragmentPages.gpu, fragmentPages.cpu, tilerOrder);
      c := ChainOf(b0, h0, vertices, mode, scratchpad, heapFree, zeroBuffer,
                   vertexPages.gpu, fragmentPages.gpu, vat, tat);
    }

    /** The vertices, the framebuffer descriptor and the SET_VALUE job. */
    method StartChain(vertices: Bytes, heapFree: u64, scratchpad: u64)
      returns (vertexBuffer: u32, fbd: u32, first: u32)
      requires Valid() && |vertices| < WORD32
      requires ChainEnd(cbma.cbmaBottom, |vertices|) <= cbma.base + POOL_SIZE
      modifies cbma`cbmaBottom, cbma`blocks, cbma.ram
      ensures Valid() && vertexBuffer == Next(old(cbma.cbmaBottom))
      ensures fbd == Next(vertexBuffer + 0x400 + |vertices|) + MFBD && first == fbd - MFBD + 0x400
      ensures cbma.cbmaBottom == first + 48
      ensures cbma.blocks == ChainStart(old(cbma.blocks), vertexBuffer, fbd - MFBD, vertices, heapFree, scratchpad)
        [first := SetPacket(SetValueHeader(), SetValue((scratchpad + SV_OFFSET) % WORD64, 3))]
    {
      hide Laid, Holds, SameOutside, LeWords, EncodeMfbd, EncodeHeader, Next, ChainEnd, MfbdImage,
           EncodeAttributeBuffer, EncodeSetValue;
      ChainAddresses(cbma.cbmaBottom, |vertices|);
      vertexBuffer := UploadVertices(vertices);
      var vertexFbd := MakeMfbd(true, heapFree, scratchpad);
      fbd := vertexFbd % WORD32;
      first := SetValueHelper((scratchpad + SV_OFFSET) % WORD64);
    }

    method JobChainFragment(framebuffer: u64, heapFree: u64, scratchpad: u64) returns (p: u32)
      requires Valid() && Next(cbma.cbmaBottom) + 0x400 + 280 <= cbma.base + POOL_SIZE
      modifies this`atomCount, cbma`cbmaBottom, cbma`blocks, cbma.ram
      modifies queue`atomQueueSize, queue`batches, queue.atomQueue
      ensures Valid() && p == Next(old(cbma.cbmaBottom)) && cbma.cbmaBottom == p + 0x400 + 280
      ensures cbma.blocks == old(cbma.blocks)
        [p + 0x400 := LeWords(EncodeMfbd(MfbdImage(false, heapFree, scratchpad)))]
        [p := EncodeHeader(FragmentHeader()) + LeWords(EncodeFragment(
                Fragment(MakeTileCoord(0, 0, 0), MakeTileCoord(29, 45, 0), p + 0x400 + MFBD + FBD_FRAGMENT)))]
      ensures atomCount == old(atomCount) + 1
      ensures queue.State()
           == Submit(old(queue.State()), AtomOf(FragmentChain(p, BitOr64(framebuffer, EXCLUSIVE)), old(atomCount)))
    {
      hide Laid, Holds, SameOutside, LeWords, EncodeMfbd, EncodeFragment, EncodeHeader, MakeTileCoord, Splice;
      ghost var h0 := cbma.blocks;
      p := cbma.Galloc(48);
      NextUnit(p, 48);
      var fbd := MakeMfbd(false, heapFree, scratchpad);
      var payload := Fragment(MakeTileCoord(0, 0, 0), MakeTileCoord(29, 45, 0), fbd);
      cbma.StorePacket(p, EncodeHeader(FragmentHeader()), LeWords(EncodeFragment(payload)), cbma.blocks);
      var atom := AtomOf(FragmentChain(p, BitOr64(framebuffer, EXCLUSIVE)), atomCount);
      atomCount := atomCount + 1;
      queue.SubmitJob(atom);
    }

    method JobChainReplay(tilerJc: u32, fragmentJc: u32, heapFree: u64, framebuffer: u64)
      requires Valid() && Next(cbma.cbmaBottom) + 48 <= cbma.base + POOL_SIZE
      modifies this`atomCount, cbma`cbmaBottom, cbma`blocks, cbma.ram
      modifies queue`atomQueueSize, queue`batches, queue.atomQueue
      ensures Valid() && cbma.cbmaBottom == Next(old(cbma.cbmaBottom)) + 48
      ensures cbma.blocks == old(cbma.blocks)[Next(old(cbma.cbmaBottom)) :=
        LeWords(EncodeReplay(ReplayOf(tilerJc, fragmentJc, heapFree)))]
      ensures atomCount == old(atomCount) + 1
      ensures queue.State() == Submit(old(queue.State()),
        AtomOf(ReplayChain(Next(old(cbma.cbmaBottom)), BitOr64(framebuffer, EXCLUSIVE)), old(atomCount)))
    {
      hide Laid, Holds, SameOutside, LeWords, Splice;
      ghost var h0 := cbma.blocks;
      var p := cbma.Galloc(48);
      ZeroWords(12);
      ReplayWords(tilerJc, fragmentJc, heapFree);
      ghost var ws := cbma.Field(p, 0, [tilerJc, 0], h0, Words(12));
      ws := cbma.Field(p, 2, [fragmentJc, 0], h0, ws);
      ws := cbma.Field(p, 4, Pair(heapFree), h0, ws);
      ws := cbma.Field(p, 6, [0], h0, ws);  // both 16-bit hierarchy masks
      ws := cbma.Field(p, 7, [0x1_0000], h0, ws);
      ws := cbma.Field(p, 8, [TILER_CORE_REQ], h0, ws);
      ws := cbma.Field(p, 9, [MALI_JD_REQ_FS], h0, ws);
      var atom := AtomOf(ReplayChain(p, BitOr64(framebuffer, EXCLUSIVE)), atomCount);
      atomCount := atomCount + 1;
      queue.SubmitJob(atom);
    }
  }

  const TILER_CORE_REQ: u32 := 0x44  // T | COHERENT_GROUP

  function ReplayOf(tilerJc: u32, fragmentJc: u32, heapFree: u64): Replay {
    Replay(tilerJc, fragmentJc, heapFree, 0, 0, 0x1_0000, TILER_CORE_REQ, MALI_JD_REQ_FS, 0, 0)
  }

  lemma ReplayWords(tilerJc: u32, fragmentJc: u32, heapFree: u64)
    ensures Splice(Splice(Splice(Splice(Splice(Splice(Splice(Words(12),
        0, [tilerJc, 0]), 2, [fragmentJc, 0]), 4, Pair(heapFree)), 6, [0]),
        7, [0x1_0000]), 8, [TILER_CORE_REQ]), 9, [MALI_JD_REQ_FS])
      == EncodeReplay(ReplayOf(tilerJc, fragmentJc, heapFree))
  {
  }

  /** Where the kernel put the pages of an allocation. */
  datatype Pages = Pages(gpu: u64, cpu: u32)

  /** Bump position after a vertex/tiler chain. */
  function ChainEnd(bottom: nat, vertexSize: nat): nat {
    Next(Next(bottom) + 0x400 + vertexSize) + 0x400 + 0x400 + 0x2400 + 0x2040
  }

  /** Every block of a chain after the vertices takes one unit. */
  lemma ChainAddresses(bottom: nat, vertexSize: nat)
    ensures var f := Next(Next(bottom) + 0x400 + vertexSize);
      && Next(f + 280) == f + 0x400
      && Next(f + 0x400 + 48) == f + 0x800
      && Next(f + 0x800 + 0x2040) == f + 0x2C00
      && ChainEnd(bottom, vertexSize) == f + 0x4C40
  {
    var f := Next(Next(bottom) + 0x400 + vertexSize);
    NextUnit(f, 280);
    NextUnit(f + 0x400, 48);
    NextUnit(f + 0x2800, 64);
  }

  /** The pool with vertices, attribute buffer and framebuffer descriptor. */
  ghost function ChainStart(h0: Heap, vb: u32, fbd: u32, vertices: Bytes, heapFree: u64, scratchpad: u64): Heap
    requires vb + 0x400 + |vertices| < WORD32
  {
    h0[vb + 0x400 := vertices]
      [vb := LeWords(EncodeAttributeBuffer(AttributeBuffer(vb + 0x400 + 1, 12, |vertices|)))]
      [fbd := LeWords(EncodeMfbd(MfbdImage(true, heapFree, scratchpad)))]
  }

  /** What the chain is, by the arguments of the call and the pool before it. */
  ghost function ChainOf(bottom: nat, h0: Heap, vertices: Bytes, mode: u32, scratchpad: u64, heapFree: u64,
                         zeroBuffer: u32, vertexGpu: u64, fragmentGpu: u64,
                         vertexSlots: seq<u32>, tilerSlots: seq<u32>): Chain3
    requires |vertexSlots| == 7 && |tilerSlots| == 7 && ChainEnd(bottom, |vertices|) < WORD32
  {
    var vb: u32 := Next(bottom);
    var fbd: u32 := Next(vb + 0x400 + |vertices|);
    Chain3(ChainStart(h0, vb, fbd, vertices, heapFree, scratchpad), fbd + 0x400, fbd + 0x800, fbd + 0x2C00,
           vertexSlots, tilerSlots,
           SetValue((scratchpad + SV_OFFSET) % WORD64, 3),
           PayloadOf(false, mode, zeroBuffer, vb, fbd + MFBD, vertexSlots),
           PayloadOf(true, mode, zeroBuffer, vb, fbd + MFBD, tilerSlots),
           TaggedShader(vertexGpu, false), TaggedShader(fragmentGpu, true))
  }

  ghost predicate IsChain(c: Chain3, bottom: nat, h0: Heap, vertices: Bytes, mode: u32, scratchpad: u64,
                          heapFree: u64, zeroBuffer: u32, vertexGpu: u64, fragmentGpu: u64, vertexOrder: seq<nat>,
                          tilerOrder: seq<nat>)
    requires IsOrder(vertexOrder) && IsOrder(tilerOrder)
  {
    && WellPlaced(c) && ChainEnd(bottom, |vertices|) < WORD32
    && c == ChainOf(bottom, h0, vertices, mode, scratchpad, heapFree, zeroBuffer, vertexGpu, fragmentGpu,
                    c.vertexSlots, c.tilerSlots)
    && (forall i | 0 <= i < 7 :: c.vertexSlots[vertexOrder[i]] == c.vertex + 0x400 * (i + 1))
    && (forall i | 0 <= i < 7 :: c.tilerSlots[tilerOrder[i]] == c.tiler + 0x400 * (i + 1))
  }

  function FreshHeaders(): Headers {
    Headers(SetValueHeader(), VertexTilerHeader(false), VertexTilerHeader(true))
  }

  /** SET_VALUE is job 3, VERTEX job 1 waiting for 3, TILER job 2 waiting for 1. */
  function LinkedHeaders(vertex: u32, tiler: u32): Headers {
    Headers(SetValueHeader().(next := vertex, index := 3),
            VertexTilerHeader(false).(next := tiler, index := 1, dependency2 := 3),
            VertexTilerHeader(true).(index := 2, dependency1 := 1))
  }

  lemma TwoUpdates(h: Heap, p: u32, b: Bytes, b': Bytes, q: u32, c: Bytes)
    requires p != q
    ensures h[p := b][q := c][p := b'] == h[p := b'][q := c]
  {
  }

  /** The kernel's pages for a buffer of `sz` bytes lie in the address space, off the pool. */
  predicate MappedOutside(base: nat, cpu: u32, sz: nat) {
    var len := 0x1000 * (1 + sz / 0x1000);
    cpu + len <= SPACE && (cpu + len <= base || base + POOL_SIZE <= cpu)
  }

  function TaggedShader(gpu: u64, fragment: bool): u64 {
    BitOr64(BitOr64(gpu, SHADER), if fragment then SHADER_FRAGMENT else SHADER_VERTEX)
  }

  lemma SlotsFilled(tiler: bool, shader: u64, cs: seq<seq<u32>>)
    requires var e, meta := EmptySlots(), ShaderMetaOf(tiler, shader);
      cs == [Splice(Splice(e[0], 0, Pair(0x5A5A_5A5A_5A5A_1001)), 2, Pair(0x5A5A_5A5A_5A5A_3000)),
             if tiler then e[1] else Splice(e[1], 0, VIEWPORT),
             Splice(Splice(Splice(e[2], 0, Pair(shader)), 2, Pair(meta.unknown1)), 4, Pair(meta.unknown2)),
             Splice(e[3], 0, [ATTRIBUTE_ZERO]),
             e[4],
             Splice(e[5], 0, SIX),
             if tiler then Splice(e[6], 0, TILER_TAIL) else e[6]]
    ensures forall writeBuffer ::
      cs[UNKNOWN5 := SlotContents(tiler, shader, writeBuffer)[UNKNOWN5]] == SlotContents(tiler, shader, writeBuffer)
  {
    forall writeBuffer
      ensures cs[UNKNOWN5 := SlotContents(tiler, shader, writeBuffer)[UNKNOWN5]]
           == SlotContents(tiler, shader, writeBuffer)
    {
      var r := SlotContents(tiler, shader, writeBuffer);
      assert cs[0] == r[0];
      assert cs[1] == r[1];
      assert cs[2] == r[2];
      assert cs[3] == r[3];
      assert cs[5] == r[5];
      assert cs[6] == r[6];
    }
  }

  /** `elements`, `element_size` and `total_size` stored, then bit 0 of `elements` set. */
  lemma AttributeWords(verts: u32, sz: u32)
    requires verts % 0x400 == 0
    ensures Splice(Splice(Splice(Words(4), 0, [verts, 0]), 2, [12]), 3, [sz]) == [verts, 0, 12, sz]
    ensures BitOr64(QuadOf(verts, 0), 1) == verts + 1
    ensures Splice([verts, 0, 12, sz], 0, Pair(verts + 1)) == EncodeAttributeBuffer(AttributeBuffer(verts + 1, 12, sz))
  {
    Pow2Values();
    OrTag(verts, 1, 10);
  }

  lemma WholeBlock(bs: Bytes)
    ensures Splice(Zeros(|bs|), 0, bs) == bs
  {
  }

  lemma MfbdIs(m: Mfbd, tiler: bool, heapFree: u64, scratchpad: u64)
    requires var b2a: u64 := (scratchpad + SV_OFFSET) % WORD64;
      var b2b: u64 := (scratchpad + SV_OFFSET + 0x200) % WORD64;
      && m.block1 == Words(10)[4 := 0x02D8_01C2][6 := 0x02D8_01C2]
           [7 := if tiler then 0x0400_1080 else 0x0100_1080]
           [8 := if tiler then 0x0000_00FF else 0xC021_0000]
           [9 := if tiler then 0x3F80_0000 else 0]
      && m.block3 == Block3(b2a) + Words(22)[18..]
      && m == Mfbd(0x1F_0000_0000, scratchpad, m.block1, 0x1600, 0xF0, b2a, b2b, heapFree,
                   BitOr64(heapFree, 0x800_0000), Words(8), 0, m.block3, 0,
                   if tiler then 0 else 0xFFFF_F8C0, Words(10))
    ensures m == MfbdImage(tiler, heapFree, scratchpad)
  {
  }

  // ----- a store to one field of an mfbd changes that field only -----

  lemma StoreBlah(m: Mfbd, q: u64)
    requires m.Sized()
    ensures Splice(EncodeMfbd(m), 0, Pair(q)) == EncodeMfbd(m.(blah := q))
  {
    hide Splice, Lo, Hi;
    var l, r := Splice(EncodeMfbd(m), 0, Pair(q)), EncodeMfbd(m.(blah := q));
    forall i | 0 <= i < MFBD_WORDS ensures l[i] == r[i] {}
  }

  lemma StoreUgaT(m: Mfbd, q: u64)
    requires m.Sized()
    ensures Splice(EncodeMfbd(m), 2, Pair(q)) == EncodeMfbd(m.(ugaT := q))
  {
    hide Splice, Lo, Hi;
    var l, r := Splice(EncodeMfbd(m), 2, Pair(q)), EncodeMfbd(m.(ugaT := q));
    forall i | 0 <= i < MFBD_WORDS ensures l[i] == r[i] {}
  }

  lemma StoreBlock1(m: Mfbd, k: nat, v: u32)
    requires m.Sized() && k < 10
    ensures Splice(EncodeMfbd(m), 4 + k, [v]) == EncodeMfbd(m.(block1 := m.block1[k := v]))
  {
    hide Splice, Lo, Hi;
    var l, r := Splice(EncodeMfbd(m), 4 + k, [v]), EncodeMfbd(m.(block1 := m.block1[k := v]));
    forall i | 0 <= i < MFBD_WORDS ensures l[i] == r[i] {}
  }

  lemma StoreUnknown1(m: Mfbd, v: u32)
    requires m.Sized()
    ensures Splice(EncodeMfbd(m), 14, [v]) == EncodeMfbd(m.(unknown1 := v))
  {
    hide Splice, Lo, Hi;
    var l, r := Splice(EncodeMfbd(m), 14, [v]), EncodeMfbd(m.(unknown1 := v));
    forall i | 0 <= i < MFBD_WORDS ensures l[i] == r[i] {}
  }

  lemma StoreFlags(m: Mfbd, v: u32)
    requires m.Sized()
    ensures Splice(EncodeMfbd(m), 15, [v]) == EncodeMfbd(m.(flags := v))
  {
    hide Splice, Lo, Hi;
    var l, r := Splice(EncodeMfbd(m), 15, [v]), EncodeMfbd(m.(flags := v));
    forall i | 0 <= i < MFBD_WORDS ensures l[i] == r[i] {}
  }

  lemma StoreBlock2a(m: Mfbd, q: u64)
    requires m.Sized()
    ensures Splice(EncodeMfbd(m), 16, Pair(q)) == EncodeMfbd(m.(block2a := q))
  {
    hide Splice, Lo, Hi;
    var l, r := Splice(EncodeMfbd(m), 16, Pair(q)), EncodeMfbd(m.(block2a := q));
    forall i | 0 <= i < MFBD_WORDS ensures l[i] == r[i] {}
  }

  lemma StoreBlock2b(m: Mfbd, q: u64)
    requires m.Sized()
    ensures Splice(EncodeMfbd(m), 18, Pair(q)) == EncodeMfbd(m.(block2b := q))
  {
    hide Splice, Lo, Hi;
    var l, r := Splice(EncodeMfbd(m), 18, Pair(q)), EncodeMfbd(m.(block2b := q));
    forall i | 0 <= i < MFBD_WORDS ensures l[i] == r[i] {}
  }

  lemma StoreHeapFree(m: Mfbd, q: u64)
    requires m.Sized()
    ensures Splice(EncodeMfbd(m), 20, Pair(q)) == EncodeMfbd(m.(heapFreeAddress := q))
  {
    hide Splice, Lo, Hi;
    var l, r := Splice(EncodeMfbd(m), 20, Pair(q)), EncodeMfbd(m.(heapFreeAddress := q));
    forall i | 0 <= i < MFBD_WORDS ensures l[i] == r[i] {}
  }

  lemma StoreUnknown2(m: Mfbd, q: u64)
    requires m.Sized()
    ensures Splice(EncodeMfbd(m), 22, Pair(q)) == EncodeMfbd(m.(unknown2 := q))
  {
    hide Splice, Lo, Hi;
    var l, r := Splice(EncodeMfbd(m), 22, Pair(q)), EncodeMfbd(m.(unknown2 := q));
    forall i | 0 <= i < MFBD_WORDS ensures l[i] == r[i] {}
  }

  lemma StoreBlock3(m: Mfbd, ws: seq<u32>)
    requires m.Sized() && |ws| == 18
    ensures Splice(EncodeMfbd(m), 34, ws) == EncodeMfbd(m.(block3 := ws + m.block3[18..]))
  {
    hide Splice, Lo, Hi;
    var l, r := Splice(EncodeMfbd(m), 34, ws), EncodeMfbd(m.(block3 := ws + m.block3[18..]));
    forall i | 0 <= i < MFBD_WORDS ensures l[i] == r[i] {}
  }

  lemma StoreUnknown3(m: Mfbd, q: u64)
    requires m.Sized()
    ensures Splice(EncodeMfbd(m), 58, Pair(q)) == EncodeMfbd(m.(unknown3 := q))
  {
    hide Splice, Lo, Hi;
    var l, r := Splice(EncodeMfbd(m), 58, Pair(q)), EncodeMfbd(m.(unknown3 := q));
    forall i | 0 <= i < MFBD_WORDS ensures l[i] == r[i] {}
  }

  const ZERO_MFBD: Mfbd :=
    Mfbd(0, 0, Words(10), 0, 0, 0, 0, 0, 0, Words(8), 0, Words(22), 0, 0, Words(10))

  lemma ZeroMfbd()
    ensures LeWords(EncodeMfbd(ZERO_MFBD)) == Zeros(280)
  {
    ZeroWords(70);
    assert EncodeMfbd(ZERO_MFBD) == Words(70);
  }

  /** The tags only fill low bits of the aligned pointer. */
  lemma FbdTag(p: u32, tiler: bool)
    requires p % 0x400 == 0
    ensures BitOr(BitOr(p, MFBD), if tiler then FBD_TILER else FBD_FRAGMENT)
         == p + MFBD + (if tiler then FBD_TILER else FBD_FRAGMENT)
  {
    Pow2Values();
    OrTag(p, MFBD, 10);
    OrTagged(p, MFBD, if tiler then FBD_TILER else FBD_FRAGMENT, 10);
  }
}
