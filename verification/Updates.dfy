/** How far the decoder's updates of an attribute reach. */
module Updates {
  import opened Options
  import opened Bits
  import opened Memory
  import opened Layouts
  import opened ShadowMap
  import opened Translation
  import opened Pool
  import opened Decoder
  import opened Fetching

  /** The buffer descriptor at `address`, if it is mapped. */
  function BufferAt(w: World, maps: seq<Mapping>, address: u64): Option<AttributeBuffer>
    requires Sane(w, maps)
  {
    match Peek(w, maps, address, 16)
    case None => None
    case Some(b) => Some(DecodeAttributeBuffer(GetWords(b)))
  }

  function DataAt(maps: seq<Mapping>, vb: AttributeBuffer): Option<u64> {
    Fetch(maps, ClearLow(vb.elements, 2), vb.totalSize)
  }

  /** Tracing the attribute at `address`, if it has elements of this size and its data
      is mapped, survives and changes nothing outside the `total_size` bytes of the data. */
  ghost predicate Inside(w: World, maps: seq<Mapping>, address: u64, jitter: Jitter, element: u32)
    requires Sane(w, maps)
  {
    var vb := BufferAt(w, maps, address);
    vb.Some? && vb.value.elementSize == element && DataAt(maps, vb.value).Some? ==>
      var p, t := DataAt(maps, vb.value).value, TraceAttribute(w, maps, address, jitter);
      t.ok && SameOutside(w.ram, t.world.ram, p, p + vb.value.totalSize)
  }

  lemma AttributeVertices(w: World, maps: seq<Mapping>, address: u64, vb: AttributeBuffer, jitter: Jitter)
    requires Sane(w, maps) && BufferAt(w, maps, address) == Some(vb) && vb.elementSize != 0
    ensures var raw := ClearLow(vb.elements, 2);
      && raw <= vb.elements
      && TraceAttribute(w, maps, address, jitter)
         == TraceVertices(w, maps, raw, vb.totalSize, vb.elementSize / 4, VertexCount(vb),
                          Vertices(vb.elementSize / 4, raw, vb.elements - raw, VertexCount(vb)), jitter)
  {
    hide InSpace, Peek, GetWords, DecodeAttributeBuffer, TraceVertices, BitAnd, HighMask;
  }

  // ----- elements with room for three floats -----

  lemma {:induction false} SpanBound(stride: nat, element: nat, count: nat)
    requires stride <= element && 12 <= element
    ensures Span(stride, count) <= count * element
  {
    if count > 1 {
      SpanBound(stride, element, count - 1);
      assert count * element == (count - 1) * element + element;
    }
  }

  lemma CountBound(vb: AttributeBuffer)
    requires vb.elementSize != 0
    ensures VertexCount(vb) * vb.elementSize <= vb.totalSize
  {
    DivideBound(vb.totalSize, vb.elementSize);
  }

  lemma DivideBound(a: nat, b: nat)
    requires b > 0
    ensures a / b * b <= a
  {
  }

  lemma SpanInside(vb: AttributeBuffer)
    requires vb.elementSize >= 12
    ensures Span(4 * (vb.elementSize / 4), VertexCount(vb)) <= vb.totalSize
  {
    hide Span, VertexCount;
    SpanBound(4 * (vb.elementSize / 4), vb.elementSize, VertexCount(vb));
    CountBound(vb);
  }

  lemma WideInside(w: World, maps: seq<Mapping>, address: u64, jitter: Jitter, element: u32)
    requires Sane(w, maps) && element >= 12
    ensures Inside(w, maps, address, jitter, element)
  {
    hide InSpace, Fetch, BufferAt, TraceAttribute, JitterVertices, SameOutside, Span, VertexCount, BitAnd, HighMask;
    var b := BufferAt(w, maps, address);
    if b.Some? && b.value.elementSize == element && DataAt(maps, b.value).Some? {
      var vb, p := b.value, DataAt(maps, b.value).value;
      AttributeVertices(w, maps, address, vb, jitter);
      SpanInside(vb);
      FetchedInSpace(maps, ClearLow(vb.elements, 2), vb.totalSize);
      JitterFrame(w, p, 4 * (vb.elementSize / 4), VertexCount(vb), jitter, p, p + vb.totalSize);
    }
  }

  /** The vertex pointer without its two tag bits. */
  function Aligned(elements: u64): u64 {
    elements - elements % 4
  }

  /** What becomes of an attribute whose elements have that room: the decoder survives, all
      the elements that fit are printed and counted, every float of each is jittered, and
      nothing else changes. */
  lemma AttributeJittered(w: World, maps: seq<Mapping>, address: u64, vb: AttributeBuffer, p: u64, n: nat,
                          jitter: Jitter)
    requires Sane(w, maps) && BufferAt(w, maps, address) == Some(vb) && DataAt(maps, vb) == Some(p)
    requires vb.elementSize >= 12 && JustFit(vb, n)
    ensures var t := TraceAttribute(w, maps, address, jitter);
      && t.ok && Jittered(w, t.world, p, 4 * (vb.elementSize / 4), n, jitter)
      && t.events == [Vertices(vb.elementSize / 4, Aligned(vb.elements), vb.elements % 4, n)]
  {
    hide InSpace, Fetch, BufferAt, TraceAttribute, JitterVertices, SameOutside, Span, VertexCount, BitAnd, HighMask,
         Jittered, JustFit;
    AttributeVertices(w, maps, address, vb, jitter);
    CountIs(vb, n);
    RawOf(vb.elements);
    SpanInside(vb);
    FetchedInSpace(maps, ClearLow(vb.elements, 2), vb.totalSize);
    VerticesJittered(w, p, 4 * (vb.elementSize / 4), n, jitter);
  }

  /** So many elements of the given size fit into the data, and no more. */
  predicate JustFit(vb: AttributeBuffer, n: nat) {
    n * vb.elementSize <= vb.totalSize < n * vb.elementSize + vb.elementSize
  }

  lemma CountIs(vb: AttributeBuffer, n: nat)
    requires vb.elementSize > 0 && JustFit(vb, n)
    ensures VertexCount(vb) == n
  {
    QuotientIs(vb.totalSize, vb.elementSize, n);
  }

  lemma QuotientIs(t: nat, e: nat, n: nat)
    requires e > 0 && n * e <= t < n * e + e
    ensures t / e == n
  {
    ModUnique(t, e, n, t - n * e);
    var q := t / e;
    assert q * e == n * e;
    MulMonotone(q + 1, n, e);
    MulMonotone(n + 1, q, e);
  }

  lemma RawOf(elements: u64)
    ensures ClearLow(elements, 2) == Aligned(elements) && elements - Aligned(elements) == elements % 4
  {
    Pow2Values();
    hide BitAnd, HighMask, Pow2;
    AndHigh(elements, 64, 2);
  }

  /** The last byte touched, if anything is. */
  lemma {:induction false} SpanIs(stride: nat, count: nat)
    requires count > 0
    ensures Span(stride, count) == stride * (count - 1) + 12
  {
    if count > 1 {
      SpanIs(stride, count - 1);
      assert stride * (count - 1) == stride * (count - 2) + stride;
    }
  }

  /** Exactly when the decoder survives an attribute: its buffer is not mapped at all, or
      its elements have a size, and there are none or their data is mapped and the last
      of them ends in the address space. */
  lemma AttributeSurvives(w: World, maps: seq<Mapping>, address: u64, jitter: Jitter)
    requires Sane(w, maps)
    ensures TraceAttribute(w, maps, address, jitter).ok <==>
      var b := BufferAt(w, maps, address);
      b.Some? ==>
        && b.value.elementSize > 0
        && (b.value.totalSize >= b.value.elementSize ==>
              && DataAt(maps, b.value).Some?
              && DataAt(maps, b.value).value
                 + 4 * (b.value.elementSize / 4) * (b.value.totalSize / b.value.elementSize - 1) + 12 <= SPACE)
  {
    hide InSpace, Fetch, TraceAttribute, JitterVertices, Span, BitAnd, HighMask, Peek, GetWords, DecodeAttributeBuffer;
    var b := BufferAt(w, maps, address);
    if b == None || b.value.elementSize == 0 {
      NoElements(w, maps, address, jitter);
    } else {
      var vb := b.value;
      AttributeVertices(w, maps, address, vb, jitter);
      AnyElements(vb);
      if VertexCount(vb) > 0 {
        SpanIs(4 * (vb.elementSize / 4), VertexCount(vb));
      } else {
        NoSpan(4 * (vb.elementSize / 4));
        if DataAt(maps, vb).Some? { FetchedInSpace(maps, ClearLow(vb.elements, 2), vb.totalSize); }
      }
    }
  }

  lemma NoSpan(stride: nat)
    ensures Span(stride, 0) == 0
  {
  }

  lemma AnyElements(vb: AttributeBuffer)
    requires vb.elementSize > 0
    ensures VertexCount(vb) > 0 <==> vb.totalSize >= vb.elementSize
  {
    SmallQuotient(vb.totalSize, vb.elementSize);
  }

  lemma SmallQuotient(t: nat, e: nat)
    requires e > 0
    ensures t / e > 0 <==> t >= e
  {
  }

  lemma NoElements(w: World, maps: seq<Mapping>, address: u64, jitter: Jitter)
    requires Sane(w, maps)
    requires var b := BufferAt(w, maps, address); b.Some? ==> b.value.elementSize == 0
    ensures TraceAttribute(w, maps, address, jitter).ok <==> BufferAt(w, maps, address) == None
  {
    hide InSpace, Peek, GetWords, DecodeAttributeBuffer, BitAnd, HighMask;
  }

  // ----- smaller elements -----

  const BASE: u32 := 0x1000_0000
  const DATA: u32 := 0x1000_1000

  function OnePool(): seq<Mapping> {
    [Mapping(POOL_SIZE, BASE, BASE)]
  }

  lemma PoolIsMapped()
    ensures PoolMapped(OnePool(), BASE)
  {
    var l := OnePool();
    assert l[0] == Mapping(POOL_SIZE, BASE, BASE) && Apart(l, 0);
  }

  /** The third word drawn gets its highest byte set. */
  function ThirdDraw(): Jitter {
    (n: nat, v: u32) => if n == 2 then 0x100_0000 else v
  }

  /** One element of `element` bytes, at `DATA`. */
  function Narrow(element: u32): AttributeBuffer {
    AttributeBuffer(DATA, element, element)
  }

  ghost predicate NarrowIn(w: World, element: u32) {
    && |w.ram| == SPACE && w.draws == 0
    && At(w.ram, BASE + 0x400, LeWords(EncodeAttributeBuffer(Narrow(element))))
    && w.ram[DATA + 11] == 0
  }

  lemma NarrowMemory(element: u32) returns (w: World)
    ensures NarrowIn(w, element)
  {
    hide EncodeAttributeBuffer, LeWords, At;
    w := World(Put(Zeros(SPACE), BASE + 0x400, LeWords(EncodeAttributeBuffer(Narrow(element)))), 0);
  }

  lemma NarrowBuffer(w: World, element: u32)
    requires NarrowIn(w, element)
    ensures Sane(w, OnePool()) && BufferAt(w, OnePool(), BASE + 0x400) == Some(Narrow(element))
  {
    hide PoolMapped, Fetch, GetWords, EncodeAttributeBuffer, DecodeAttributeBuffer, LeWords, Peek;
    PoolIsMapped();
    ReadWords(w.ram, BASE + 0x400, EncodeAttributeBuffer(Narrow(element)));
    PoolPeek(w, OnePool(), BASE, BASE + 0x400, 16);
    SmallRecordsRoundTrip(SetValue(0, 0), Fragment(0, 0, 0), Narrow(element), Replay(0, 0, 0, 0, 0, 0, 0, 0, 0, 0));
  }

  lemma DataAligned()
    ensures ClearLow(DATA, 2) == DATA
  {
    Pow2Values();
    hide ClearLow, BitOr, Pow2;
    TagRoundTrip(DATA, 0, 2);
  }

  /** Three words are drawn for the one vertex; the third ends twelve bytes in. */
  lemma TwelfthByte(w: World)
    requires |w.ram| == SPACE && w.draws == 0 && w.ram[DATA + 11] == 0
    ensures |JitterVertex(w, DATA, ThirdDraw()).ram| == SPACE
    ensures JitterVertex(w, DATA, ThirdDraw()).ram[DATA + 11] == 1
  {
    var w2 := World(w.ram, 2);
    WordStays(w, DATA, ThirdDraw());
    WordStays(World(w.ram, 1), DATA + 4, ThirdDraw());
    assert JitterVertex(w, DATA, ThirdDraw()) == JitterWord(w2, DATA + 8, ThirdDraw());
    var m := Put(w.ram, DATA + 8, Le32(0x100_0000));
    assert JitterWord(w2, DATA + 8, ThirdDraw()).ram == m;
    AtIndex(m, DATA + 8, Le32(0x100_0000), 3);
  }

  /** The input: one element of fewer than twelve bytes, whose vertex is disturbed
      twelve bytes far. */
  lemma NarrowOverruns(element: u32) returns (w: World)
    requires 0 < element < 12
    ensures Sane(w, OnePool()) && !Inside(w, OnePool(), BASE + 0x400, ThirdDraw(), element)
    ensures TraceAttribute(w, OnePool(), BASE + 0x400, ThirdDraw()).ok
  {
    hide InSpace, Fetch, BufferAt, DataAt, TraceAttribute, JitterVertex, BitAnd, HighMask;
    w := NarrowMemory(element);
    NarrowBuffer(w, element);
    AttributeVertices(w, OnePool(), BASE + 0x400, Narrow(element), ThirdDraw());
    OneElement(element);
    NarrowData(element);
    TwelfthByte(w);
    assert DATA + element <= DATA + 11;
  }

  lemma OneElement(element: u32)
    requires element > 0
    ensures VertexCount(Narrow(element)) == 1
  {
  }

  lemma NarrowData(element: u32)
    requires element < 12
    ensures DataAt(OnePool(), Narrow(element)) == Some(DATA) && Fetch(OnePool(), DATA, element) == Some(DATA)
    ensures ClearLow(Narrow(element).elements, 2) == DATA
  {
    hide Fetch, PoolMapped, ClearLow;
    DataAligned();
    PoolIsMapped();
    PoolFetch(OnePool(), BASE, DATA, element);
  }

  /** An element of no size at all kills the decoder, which divides by it. */
  lemma ZeroDies(jitter: Jitter) returns (w: World)
    ensures Sane(w, OnePool()) && !Inside(w, OnePool(), BASE + 0x400, jitter, 0)
    ensures !TraceAttribute(w, OnePool(), BASE + 0x400, jitter).ok
  {
    hide InSpace, Fetch, DataAt, BitAnd, HighMask, Peek, GetWords, DecodeAttributeBuffer;
    w := NarrowMemory(0);
    NarrowBuffer(w, 0);
    NarrowData(0);
  }

  ghost predicate AlwaysInside(element: u32) {
    forall w: World, maps: seq<Mapping>, address: u64, jitter: Jitter | Sane(w, maps) ::
      Inside(w, maps, address, jitter, element)
  }

  /** Tracing attributes with elements of a given size survives and stays inside their
      data, in every memory and whatever is drawn, exactly if an element has room for
      three floats. */
  lemma UpdatesStayInside(element: u32)
    ensures AlwaysInside(element) <==> element >= 12
  {
    hide Inside, InSpace, TraceAttribute, ThirdDraw;
    if element >= 12 {
      forall w: World, maps: seq<Mapping>, address: u64, jitter: Jitter | Sane(w, maps)
        ensures Inside(w, maps, address, jitter, element)
      {
        WideInside(w, maps, address, jitter, element);
      }
    } else if element > 0 {
      var w := NarrowOverruns(element);
    } else {
      var w := ZeroDies(ThirdDraw());
    }
  }
}
