/** What the decoder sees of records that lie in the mapped pool, and how far its
    disturbing of vertices reaches. */
module Fetching {
  import opened Options
  import opened Bits
  import opened Memory
  import opened Layouts
  import opened ShadowMap
  import opened Translation
  import opened Pool
  import opened Decoder

  // ----- reading records back -----

  lemma TwoSlices(m: Bytes, p: nat, a: Bytes, b: Bytes)
    requires At(m, p, a + b)
    ensures At(m, p, a) && At(m, p + |a|, b)
  {
    assert m[p..p + |a|] == (a + b)[..|a|];
    assert m[p + |a|..p + |a| + |b|] == (a + b)[|a|..];
  }

  lemma ReadHeader(m: Bytes, p: nat, h: Header)
    requires At(m, p, EncodeHeader(h))
    ensures DecodeHeader(m[p..p + HEADER_SIZE]) == h
  {
    hide EncodeHeader, DecodeHeader;
    HeaderRoundTrip(h);
  }

  lemma ReadWords(m: Bytes, p: nat, ws: seq<u32>)
    requires At(m, p, LeWords(ws))
    ensures GetWords(m[p..p + 4 * |ws|]) == ws
  {
    hide LeWords, GetWords;
    WordsRoundTrip(ws);
  }

  lemma ReadQuad(m: Bytes, p: nat, ws: seq<u32>, k: nat)
    requires At(m, p, LeWords(ws)) && k + 1 < |ws|
    ensures var b := m[p + 4 * k..p + 4 * k + 8]; Get32(b, 0) == ws[k] && Get32(b, 4) == ws[k + 1]
  {
    WordAt(m, p, ws, k);
    WordAt(m, p, ws, k + 1);
  }

  // ----- translation inside the pool -----

  /** The pool's mapping is recorded with the same address on both sides, and no
      other mapping overlaps it. */
  ghost predicate PoolMapped(maps: seq<Mapping>, base: u32) {
    && 0 < base && base + POOL_SIZE <= SPACE && InSpace(maps)
    && exists k | 0 <= k < |maps| :: maps[k] == Mapping(POOL_SIZE, base, base) && Apart(maps, k)
  }

  /** Every range that starts inside the pool translates to itself. */
  lemma PoolFetch(maps: seq<Mapping>, base: u32, a: u64, sz: u32)
    requires PoolMapped(maps, base) && base < a < base + POOL_SIZE && a + sz <= base + POOL_SIZE
    ensures Fetch(maps, a, sz) == Some(a)
  {
    var k :| 0 <= k < |maps| && maps[k] == Mapping(POOL_SIZE, base, base) && Apart(maps, k);
    assert maps[k] in maps;
    FetchApart(maps, k, a, sz);
  }

  lemma PoolPeek(w: World, maps: seq<Mapping>, base: u32, a: u64, sz: u32)
    requires Sane(w, maps) && PoolMapped(maps, base) && base < a < base + POOL_SIZE && a + sz <= base + POOL_SIZE
    ensures a + sz <= SPACE && Peek(w, maps, a, sz) == Some(w.ram[a..a + sz])
  {
    hide Fetch, PoolMapped;
    PoolFetch(maps, base, a, sz);
    FetchedInSpace(maps, a, sz);
  }

  /** What `init_cbma` and the tracer agree on: any block `galloc` places in the
      pool is found at its own address. */
  lemma SameVaIdentity(s: Shadow, allocVa: u64, base: u32, bottom: u32, sz: u32)
    requires var s' := RecordMmap(RecordAlloc(s, allocVa, true), base, POOL_SIZE, allocVa);
      InSpace(s'.live) && Apart(s'.live, 0)
    requires 0 < base <= bottom && Next(bottom) < base + POOL_SIZE < WORD32
    requires Next(bottom) + sz <= base + POOL_SIZE
    ensures var s' := RecordMmap(RecordAlloc(s, allocVa, true), base, POOL_SIZE, allocVa);
      var (p, _) := Galloc(bottom, sz);
      PoolMapped(s'.live, base) && Fetch(s'.live, p, sz) == Some(p)
  {
    SameVaMapping(s, allocVa, base, POOL_SIZE);
    hide Fetch, RecordMmap, Galloc, Next;
    var s' := RecordMmap(RecordAlloc(s, allocVa, true), base, POOL_SIZE, allocVa);
    assert s'.live[0] == Mapping(POOL_SIZE, base, base) && s'.live[0] in s'.live;
    GallocIsNext(bottom, sz);
    PoolFetch(s'.live, base, Next(bottom), sz);
  }

  // ----- the vertices are disturbed, nothing else -----

  lemma OutsideTwice(a: Bytes, b: Bytes, c: Bytes, lo: nat, hi: nat)
    requires |a| == |b| == |c| && SameOutside(a, b, lo, hi) && SameOutside(b, c, lo, hi)
    ensures SameOutside(a, c, lo, hi)
  {
  }

  lemma JitterWordFrame(w: World, p: nat, jitter: Jitter, lo: nat, hi: nat)
    requires lo <= p && p + 4 <= hi <= |w.ram|
    ensures SameOutside(w.ram, JitterWord(w, p, jitter).ram, lo, hi)
  {
  }

  lemma BytesBack(m: Bytes, p: nat)
    requires p + 4 <= |m|
    ensures Le32(Get32(m, p)) == m[p..p + 4]
  {
    FourBytes(m[p], m[p + 1], m[p + 2], m[p + 3]);
  }

  lemma FourBytes(b0: u8, b1: u8, b2: u8, b3: u8)
    ensures Le32(b0 + 0x100 * b1 + 0x1_0000 * b2 + 0x100_0000 * b3) == [b0, b1, b2, b3]
  {
    var v := b0 + 0x100 * b1 + 0x1_0000 * b2 + 0x100_0000 * b3;
    assert v / 0x100 == b1 + 0x100 * b2 + 0x1_0000 * b3;
    assert v / 0x1_0000 == b2 + 0x100 * b3;
    assert v / 0x100_0000 == b3;
  }

  /** A word that keeps its value. */
  lemma WordStays(w: World, p: nat, jitter: Jitter)
    requires p + 4 <= |w.ram| && jitter(w.draws, Get32(w.ram, p)) == Get32(w.ram, p)
    ensures JitterWord(w, p, jitter) == World(w.ram, w.draws + 1)
  {
    BytesBack(w.ram, p);
    hide Le32, Get32;
    var m := Put(w.ram, p, Le32(Get32(w.ram, p)));
    forall i | 0 <= i < |m| ensures m[i] == w.ram[i] {
      if p <= i < p + 4 { assert m[i] == m[p..p + 4][i - p]; }
    }
    assert m == w.ram;
  }

  lemma JitterVertexFrame(w: World, p: nat, jitter: Jitter, lo: nat, hi: nat)
    requires lo <= p && p + 12 <= hi <= |w.ram|
    ensures SameOutside(w.ram, JitterVertex(w, p, jitter).ram, lo, hi)
  {
    var w1 := JitterWord(w, p, jitter);
    var w2 := JitterWord(w1, p + 4, jitter);
    var w3 := JitterWord(w2, p + 8, jitter);
    JitterWordFrame(w, p, jitter, lo, hi);
    JitterWordFrame(w1, p + 4, jitter, lo, hi);
    JitterWordFrame(w2, p + 8, jitter, lo, hi);
    hide SameOutside, JitterWord;
    OutsideTwice(w.ram, w1.ram, w2.ram, lo, hi);
    OutsideTwice(w.ram, w2.ram, w3.ram, lo, hi);
  }

  lemma {:induction false} JitterFrame(w: World, p: nat, stride: nat, count: nat, jitter: Jitter, lo: nat, hi: nat)
    requires lo <= p && p + Span(stride, count) <= hi <= |w.ram|
    ensures SameOutside(w.ram, JitterVertices(w, p, stride, count, jitter).ram, lo, hi)
    decreases count
  {
    hide JitterVertex;
    if count == 1 {
      JitterVertexFrame(w, p, jitter, lo, hi);
    } else if count > 1 {
      SpanCovers(stride, count - 1);
      hide SameOutside, Span;
      JitterFrame(JitterVertex(w, p, jitter), p + stride, stride, count - 1, jitter, lo, hi);
      JitterMore(w, p, stride, count, jitter, lo, hi);
    }
  }

  lemma JitterMore(w: World, p: nat, stride: nat, count: nat, jitter: Jitter, lo: nat, hi: nat)
    requires lo <= p && p + Span(stride, count) <= hi <= |w.ram| && count > 1 && Span(stride, count) >= 12
    requires SameOutside(JitterVertex(w, p, jitter).ram,
                         JitterVertices(JitterVertex(w, p, jitter), p + stride, stride, count - 1, jitter).ram, lo, hi)
    ensures SameOutside(w.ram, JitterVertices(w, p, stride, count, jitter).ram, lo, hi)
  {
    hide SameOutside, JitterVertex;
    JitterVertexFrame(w, p, jitter, lo, hi);
    OutsideTwice(w.ram, JitterVertex(w, p, jitter).ram, JitterVertices(w, p, stride, count, jitter).ram, lo, hi);
  }

  // ----- each vertex is disturbed -----

  /** The three floats of the vertex at `a` have been jittered with the random numbers
      from the `n`-th on. */
  ghost predicate VertexJittered(m: Bytes, m': Bytes, a: nat, n: nat, jitter: Jitter) {
    && a + 12 <= |m| == |m'|
    && Get32(m', a) == jitter(n, Get32(m, a))
    && Get32(m', a + 4) == jitter(n + 1, Get32(m, a + 4))
    && Get32(m', a + 8) == jitter(n + 2, Get32(m, a + 8))
  }

  /** The byte at `a` belongs to the floats of one of the vertices. */
  ghost predicate InVertex(p: nat, stride: nat, count: nat, a: int) {
    exists i | 0 <= i < count :: p + stride * i <= a < p + stride * i + 12
  }

  /** Every float of every vertex has been jittered, once and with a random number of its
      own, and no other byte has changed. */
  ghost predicate Jittered(w: World, w': World, p: nat, stride: nat, count: nat, jitter: Jitter) {
    && |w'.ram| == |w.ram| && w'.draws == w.draws + 3 * count
    && (forall i | 0 <= i < count :: VertexJittered(w.ram, w'.ram, p + stride * i, w.draws + 3 * i, jitter))
    && forall a | 0 <= a < |w.ram| && !InVertex(p, stride, count, a) :: w'.ram[a] == w.ram[a]
  }

  lemma WordElsewhere(m: Bytes, m': Bytes, a: nat)
    requires a + 4 <= |m| == |m'| && forall i | a <= i < a + 4 :: m'[i] == m[i]
    ensures Get32(m', a) == Get32(m, a)
  {
  }

  lemma JitteredWord(w: World, p: nat, jitter: Jitter)
    requires p + 4 <= |w.ram|
    ensures var w' := JitterWord(w, p, jitter);
      && Get32(w'.ram, p) == jitter(w.draws, Get32(w.ram, p)) && w'.draws == w.draws + 1
      && forall i | 0 <= i < |w.ram| && !(p <= i < p + 4) :: w'.ram[i] == w.ram[i]
  {
    var v := jitter(w.draws, Get32(w.ram, p));
    var m := Put(w.ram, p, Le32(v));
    Le32Sum(v);
    forall k | 0 <= k < 4 ensures m[p + k] == Le32(v)[k] { AtIndex(m, p, Le32(v), k); }
  }

  lemma JitteredVertex(w: World, p: nat, jitter: Jitter)
    requires p + 12 <= |w.ram|
    ensures var w' := JitterVertex(w, p, jitter);
      && VertexJittered(w.ram, w'.ram, p, w.draws, jitter) && w'.draws == w.draws + 3
      && forall i | 0 <= i < |w.ram| && !(p <= i < p + 12) :: w'.ram[i] == w.ram[i]
  {
    hide JitterWord, Get32;
    var w1 := JitterWord(w, p, jitter);
    var w2 := JitterWord(w1, p + 4, jitter);
    var w3 := JitterWord(w2, p + 8, jitter);
    JitteredWord(w, p, jitter);
    JitteredWord(w1, p + 4, jitter);
    JitteredWord(w2, p + 8, jitter);
    WordElsewhere(w.ram, w1.ram, p + 4);
    WordElsewhere(w.ram, w1.ram, p + 8);
    WordElsewhere(w1.ram, w2.ram, p + 8);
    WordElsewhere(w1.ram, w2.ram, p);
    WordElsewhere(w2.ram, w3.ram, p);
    WordElsewhere(w2.ram, w3.ram, p + 4);
  }

  /** Vertices that do not overlap are all jittered, each in its turn. */
  lemma {:induction false} VerticesJittered(w: World, p: nat, stride: nat, count: nat, jitter: Jitter)
    requires stride >= 12 && p + Span(stride, count) <= |w.ram|
    ensures Jittered(w, JitterVertices(w, p, stride, count, jitter), p, stride, count, jitter)
    decreases count
  {
    hide JitterVertex, VertexJittered, InVertex;
    if count == 1 {
      JitteredVertex(w, p, jitter);
      OneVertex(p, stride);
    } else if count > 1 {
      SpanCovers(stride, count - 1);
      JitteredVertex(w, p, jitter);
      var w1 := JitterVertex(w, p, jitter);
      VerticesJittered(w1, p + stride, stride, count - 1, jitter);
      VertexMore(w, w1, JitterVertices(w1, p + stride, stride, count - 1, jitter), p, stride, count, jitter);
    }
  }

  lemma OneVertex(p: nat, stride: nat)
    ensures forall a :: InVertex(p, stride, 1, a) <==> p <= a < p + 12
  {
    forall a | p <= a < p + 12 ensures InVertex(p, stride, 1, a) { assert p + stride * 0 <= a < p + stride * 0 + 12; }
  }

  /** A vertex in front of others that are already jittered. */
  lemma VertexMore(w: World, w1: World, w': World, p: nat, stride: nat, count: nat, jitter: Jitter)
    requires stride >= 12 && count > 1 && p + 12 <= |w.ram| == |w1.ram|
    requires VertexJittered(w.ram, w1.ram, p, w.draws, jitter) && w1.draws == w.draws + 3
    requires forall i | 0 <= i < |w.ram| && !(p <= i < p + 12) :: w1.ram[i] == w.ram[i]
    requires Jittered(w1, w', p + stride, stride, count - 1, jitter)
    ensures Jittered(w, w', p, stride, count, jitter)
  {
    hide Get32;
    forall a | 0 <= a < |w.ram| && !InVertex(p, stride, count, a) ensures w'.ram[a] == w.ram[a] {
      assert !(p + stride * 0 <= a < p + stride * 0 + 12);
      LaterVertex(p, stride, count, a);
    }
    forall i | 0 <= i < count
      ensures VertexJittered(w.ram, w'.ram, p + stride * i, w.draws + 3 * i, jitter)
    {
      if i == 0 {
        forall a | p <= a < p + 12 ensures w'.ram[a] == w1.ram[a] { NotLater(p, stride, count, a); }
        FloatsKept(w1.ram, w'.ram, p);
      } else {
        NextVertex(p, stride, i);
        assert VertexJittered(w1.ram, w'.ram, (p + stride) + stride * (i - 1), w1.draws + 3 * (i - 1), jitter);
        FloatsKept(w.ram, w1.ram, p + stride * i);
      }
    }
  }

  lemma FloatsKept(m: Bytes, m': Bytes, a: nat)
    requires a + 12 <= |m| == |m'| && forall i | a <= i < a + 12 :: m'[i] == m[i]
    ensures Get32(m', a) == Get32(m, a) && Get32(m', a + 4) == Get32(m, a + 4) && Get32(m', a + 8) == Get32(m, a + 8)
  {
  }

  lemma NextVertex(p: nat, stride: nat, i: nat)
    requires i > 0
    ensures (p + stride) + stride * (i - 1) == p + stride * i >= p + stride
  {
    assert stride * i == stride * (i - 1) + stride;
  }

  lemma LaterVertex(p: nat, stride: nat, count: nat, a: int)
    requires count > 0 && !InVertex(p, stride, count, a)
    ensures !InVertex(p + stride, stride, count - 1, a)
  {
    forall i | 0 <= i < count - 1 ensures !((p + stride) + stride * i <= a < (p + stride) + stride * i + 12) {
      NextVertex(p, stride, i + 1);
      assert !(p + stride * (i + 1) <= a < p + stride * (i + 1) + 12);
    }
  }

  lemma NotLater(p: nat, stride: nat, count: nat, a: int)
    requires count > 0 && stride >= 12 && a < p + 12
    ensures !InVertex(p + stride, stride, count - 1, a)
  {
    forall i | 0 <= i < count - 1 ensures !((p + stride) + stride * i <= a) {
      NextVertex(p, stride, i + 1);
    }
  }

  lemma VertexDraws(w: World, p: nat, jitter: Jitter)
    requires p + 12 <= |w.ram|
    ensures JitterVertex(w, p, jitter).draws == w.draws + 3
  {
    hide Le32, Get32;
  }

  /** The number of random numbers drawn, whatever the stride. */
  lemma {:induction false} DrawsCounted(w: World, p: nat, stride: nat, count: nat, jitter: Jitter)
    requires p + Span(stride, count) <= |w.ram|
    ensures JitterVertices(w, p, stride, count, jitter).draws == w.draws + 3 * count
    decreases count
  {
    hide JitterVertex;
    if count > 0 {
      SpanCovers(stride, count);
      VertexDraws(w, p, jitter);
    }
    if count > 1 {
      SpanCovers(stride, count - 1);
      DrawsCounted(JitterVertex(w, p, jitter), p + stride, stride, count - 1, jitter);
    }
  }

  /** Three-component vertices of `sz` bytes in all stay within `sz` bytes. */
  lemma {:induction false} PackedSpan(count: nat)
    ensures Span(12, count) == 12 * count
  {
    if count > 1 { PackedSpan(count - 1); }
  }
}
