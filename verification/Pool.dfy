/** The bump allocator and the pool it hands out.  `blocks` is the pool's
    contents as a map from block address to the bytes of the block. */
module Pool {
  import opened Bits
  import opened Memory

  /** 1024 pages of 4 KiB. */
  const POOL_SIZE: nat := 0x40_0000

  // ----- galloc as arithmetic -----

  /** `galloc` on 32-bit words: the block and the new bump position. */
  function Galloc(bottom: u32, sz: u32): (u32, u32) {
    var b0: u32 := BitAnd(bottom, 0xFFFF_FC00);
    var b1: u32 := (b0 + 0x400) % WORD32;
    var b2: u32 := (b1 + sz) % WORD32;
    ((b2 - sz) % WORD32, b2)
  }

  /** Start of the first 1 KiB unit above the one `bottom` is in. */
  function Next(bottom: nat): (r: nat)
    ensures r % 0x400 == 0 && bottom < r <= bottom + 0x400
  {
    bottom - bottom % 0x400 + 0x400
  }

  lemma NextUnit(p: nat, sz: nat)
    requires p % 0x400 == 0 && sz < 0x400
    ensures Next(p + sz) == p + 0x400
  {
  }

  /** Below the top of the address space every block is aligned, starts above the
      previous bump position and ends at the new one; `galloc` wraps otherwise. */
  lemma GallocIsNext(bottom: u32, sz: u32)
    ensures Next(bottom) + sz < WORD32 ==> Galloc(bottom, sz) == (Next(bottom), Next(bottom) + sz)
    ensures Next(bottom) + sz >= WORD32 ==> Galloc(bottom, sz).1 == Next(bottom) + sz - WORD32
  {
    hide BitAnd;
    AlignDown(bottom);
    var n := Next(bottom);
    assert BitAnd(bottom, 0xFFFF_FC00) + 0x400 == n;
    hide Next;
    GallocWraps(bottom, n, sz);
  }

  lemma GallocWraps(bottom: u32, n: nat, sz: nat)
    requires BitAnd(bottom, 0xFFFF_FC00) + 0x400 == n <= WORD32 && sz < WORD32
    ensures n + sz < WORD32 ==> Galloc(bottom, sz) == (n, n + sz)
    ensures n + sz >= WORD32 ==> Galloc(bottom, sz).1 == n + sz - WORD32
  {
    hide BitAnd;
    Wrap(n);
    var b1 := n % WORD32;
    Wrap(b1 + sz);
    var b2 := (b1 + sz) % WORD32;
    Wrap(b2 - sz + WORD32);
  }

  lemma Wrap(x: int)
    ensures 0 <= x < WORD32 ==> x % WORD32 == x
    ensures WORD32 <= x < 2 * WORD32 ==> x % WORD32 == x - WORD32
  {
  }

  lemma AlignDown(x: u32)
    ensures BitAnd(x, 0xFFFF_FC00) == x - x % 0x400
  {
    Pow2Values();
    assert HighMask(32, 10) == 0xFFFF_FC00;
    AndHigh(x, 32, 10);
  }

  /** Blocks returned by successive calls, as long as none wraps. */
  function Blocks(bottom: u32, sizes: seq<u32>): seq<u32>
    decreases |sizes|
  {
    if sizes == [] then []
    else
      var (p, b) := Galloc(bottom, sizes[0]);
      [p] + Blocks(b, sizes[1..])
  }

  function Bump(bottom: u32, sizes: seq<u32>): u32
    decreases |sizes|
  {
    if sizes == [] then bottom else Bump(Galloc(bottom, sizes[0]).1, sizes[1..])
  }

  predicate NoWrap(bottom: u32, sizes: seq<u32>)
    decreases |sizes|
  {
    sizes == [] || (Next(bottom) + sizes[0] < WORD32 && NoWrap(Galloc(bottom, sizes[0]).1, sizes[1..]))
  }

  function Sum(sizes: seq<u32>): nat {
    if sizes == [] then 0 else sizes[0] + Sum(sizes[1..])
  }

  /** Over any sequence of calls: aligned, above the start, increasing and
      disjoint; all below the final bump position, which is bounded. */
  lemma {:induction false} BlocksDisjoint(bottom: u32, sizes: seq<u32>)
    requires NoWrap(bottom, sizes)
    ensures var ps, end := Blocks(bottom, sizes), Bump(bottom, sizes);
      && |ps| == |sizes| && bottom <= end <= bottom + 0x400 * |sizes| + Sum(sizes)
      && (forall i | 0 <= i < |ps| :: ps[i] % 0x400 == 0 && bottom < ps[i] && ps[i] + sizes[i] <= end)
      && (forall i, j | 0 <= i < j < |ps| :: ps[i] + sizes[i] < ps[j])
    decreases |sizes|
  {
    if sizes != [] {
      GallocIsNext(bottom, sizes[0]);
      hide Galloc, Next;
      var (p, b) := Galloc(bottom, sizes[0]);
      var rest := sizes[1..];
      BlocksDisjoint(b, rest);
      var qs, end := Blocks(b, rest), Bump(b, rest);
      assert Blocks(bottom, sizes) == [p] + qs && Bump(bottom, sizes) == end && sizes == [sizes[0]] + rest;
      BlockInFront(p, sizes[0], qs, rest, bottom, end);
    }
  }

  /** A block below others. */
  lemma BlockInFront(p: u32, sz: u32, qs: seq<u32>, rest: seq<u32>, bottom: u32, end: u32)
    requires |qs| == |rest| && p % 0x400 == 0 && bottom < p && p + sz <= end
    requires forall i | 0 <= i < |qs| :: qs[i] % 0x400 == 0 && p + sz < qs[i] && qs[i] + rest[i] <= end
    requires forall i, j | 0 <= i < j < |qs| :: qs[i] + rest[i] < qs[j]
    ensures var ps, sizes := [p] + qs, [sz] + rest;
      && (forall i | 0 <= i < |ps| :: ps[i] % 0x400 == 0 && bottom < ps[i] && ps[i] + sizes[i] <= end)
      && (forall i, j | 0 <= i < j < |ps| :: ps[i] + sizes[i] < ps[j])
  {
    var ps, sizes := [p] + qs, [sz] + rest;
    forall i | 0 <= i < |ps|
      ensures ps[i] % 0x400 == 0 && bottom < ps[i] && ps[i] + sizes[i] <= end && (i > 0 ==> p + sz < ps[i])
    {
      if i > 0 { assert ps[i] == qs[i - 1] && sizes[i] == rest[i - 1]; }
    }
    forall i, j | 0 <= i < j < |ps| ensures ps[i] + sizes[i] < ps[j] {
      if i > 0 { assert qs[i - 1] + rest[i - 1] < qs[j - 1]; }
    }
  }

  /** Requests that fit with one unit of slack each stay inside the pool. */
  lemma {:induction false} Capacity(base: u32, sizes: seq<u32>)
    requires base + POOL_SIZE <= WORD32 - 1
    requires 0x400 * |sizes| + Sum(sizes) <= POOL_SIZE
    ensures NoWrap(base, sizes) && Bump(base, sizes) <= base + POOL_SIZE
  {
    CapacityFrom(base, sizes, base + POOL_SIZE);
    BlocksDisjoint(base, sizes);
  }

  lemma {:induction false} CapacityFrom(bottom: u32, sizes: seq<u32>, top: u32)
    requires bottom + 0x400 * |sizes| + Sum(sizes) <= top
    ensures NoWrap(bottom, sizes)
    decreases |sizes|
  {
    if sizes != [] {
      GallocIsNext(bottom, sizes[0]);
      CapacityFrom(Galloc(bottom, sizes[0]).1, sizes[1..], top);
    }
  }

  // ----- the pool's contents -----

  function Zeros(n: nat): (b: Bytes)
    ensures |b| == n
  {
    seq(n, _ => 0)
  }

  function Splice<T>(s: seq<T>, at: nat, t: seq<T>): (r: seq<T>)
    requires at + |t| <= |s|
    ensures |r| == |s|
    ensures forall i | 0 <= i < |s| :: r[i] == if at <= i < at + |t| then t[i - at] else s[i]
  {
    s[..at] + t + s[at + |t|..]
  }

  type Heap = map<u32, Bytes>

  predicate InBlock(h: Heap, i: int) {
    exists p | p in h :: p <= i < p + |h[p]|
  }

  /** Blocks are aligned, within bounds, and end before the next one starts. */
  ghost predicate Laid(h: Heap, lo: nat, hi: nat) {
    && (forall p | p in h :: p % 0x400 == 0 && lo < p && p + |h[p]| <= hi)
    && (forall p, q | p in h && q in h && p < q :: p + |h[p]| < q)
  }

  /** Memory holds the blocks; every other byte of the pool is zero. */
  ghost predicate Holds(m: Bytes, h: Heap, lo: nat, hi: nat)
    requires hi <= |m|
  {
    && (forall p | p in h :: At(m, p, h[p]))
    && (forall i | lo <= i < hi && !InBlock(h, i) :: m[i] == 0)
  }

  lemma NewBlock(m: Bytes, h: Heap, lo: nat, bottom: nat, p: u32, sz: nat, hi: nat)
    requires hi <= |m| && Laid(h, lo, bottom) && Holds(m, h, lo, hi)
    requires lo <= bottom < p && p % 0x400 == 0 && p + sz <= hi
    ensures Laid(h[p := Zeros(sz)], lo, p + sz) && Holds(m, h[p := Zeros(sz)], lo, hi) && p !in h
  {
    var h' := h[p := Zeros(sz)];
    forall i | p <= i < p + sz ensures m[i] == 0 { assert !InBlock(h, i); }
    assert m[p..p + sz] == Zeros(sz);
    forall i | InBlock(h, i) ensures InBlock(h', i) {
      var q: u32 :| q in h && q <= i < q + |h[q]|;
      assert q in h' && h'[q] == h[q];
    }
  }

  lemma BlockStore(m: Bytes, h: Heap, lo: nat, bottom: nat, hi: nat, p: u32, at: nat, bs: Bytes)
    requires bottom <= hi <= |m| && Laid(h, lo, bottom) && Holds(m, h, lo, hi)
    requires p in h && at + |bs| <= |h[p]|
    ensures var h', m' := h[p := Splice(h[p], at, bs)], Put(m, p + at, bs);
      Laid(h', lo, bottom) && Holds(m', h', lo, hi)
  {
    var h': Heap, m' := h[p := Splice(h[p], at, bs)], Put(m, p + at, bs);
    SameShape(h, h', lo, bottom);
    PutSplice(m, p, h[p], at, bs);
    forall q | q in h && q != p ensures At(m', q, h[q]) {
      StoreElsewhere(m, h, lo, bottom, p, at, bs, q);
    }
    StoreZeros(m, h, h', m', lo, hi, p);
  }

  lemma PutSplice(m: Bytes, p: nat, b: Bytes, at: nat, bs: Bytes)
    requires At(m, p, b) && at + |bs| <= |b|
    ensures At(Put(m, p + at, bs), p, Splice(b, at, bs))
  {
    var m', r := Put(m, p + at, bs), Splice(b, at, bs);
    forall j | 0 <= j < |b| ensures m'[p + j] == r[j] {
      AtIndex(m, p, b, j);
      if at <= j < at + |bs| { AtIndex(m', p + at, bs, j - at); }
    }
    assert m'[p..p + |b|] == r;
  }

  lemma StoreZeros(m: Bytes, h: Heap, h': Heap, m': Bytes, lo: nat, hi: nat, p: u32)
    requires p in h && |m'| == |m| && hi <= |m| && SameOutside(m, m', p, p + |h[p]|)
    requires forall i | lo <= i < hi && !InBlock(h, i) :: m[i] == 0
    requires forall i :: InBlock(h, i) <==> InBlock(h', i)
    ensures forall i | lo <= i < hi && !InBlock(h', i) :: m'[i] == 0
  {
    forall i | lo <= i < hi && !InBlock(h', i) ensures m'[i] == 0 {
      assert !InBlock(h, i);
      assert !(p <= i < p + |h[p]|);
    }
  }

  lemma StoreElsewhere(m: Bytes, h: Heap, lo: nat, bottom: nat, p: u32, at: nat, bs: Bytes, q: u32)
    requires bottom <= |m| && Laid(h, lo, bottom) && p in h && q in h && p != q && At(m, q, h[q])
    requires at + |bs| <= |h[p]|
    ensures At(Put(m, p + at, bs), q, h[q])
  {
    assert q < p || p + |h[p]| < q;
    AtSame(m, Put(m, p + at, bs), q, h[q]);
  }

  lemma SameShape(h: Heap, h': Heap, lo: nat, hi: nat)
    requires h.Keys == h'.Keys && forall p | p in h :: |h'[p]| == |h[p]|
    ensures Laid(h, lo, hi) ==> Laid(h', lo, hi)
    ensures forall i :: InBlock(h, i) <==> InBlock(h', i)
  {
  }

  /** Rewriting bytes of one block in memory rewrites the block. */
  lemma HoldsRewritten(m: Bytes, m': Bytes, h: Heap, p: u32, lo: nat, bottom: nat, hi: nat)
    requires bottom <= hi <= |m| == |m'| && Laid(h, lo, bottom) && Holds(m, h, lo, hi)
    requires p in h && SameOutside(m, m', p, p + |h[p]|)
    ensures p + |h[p]| <= |m'|
    ensures var h' := h[p := m'[p..p + |h[p]|]]; Laid(h', lo, bottom) && Holds(m', h', lo, hi)
  {
    var h': Heap := h[p := m'[p..p + |h[p]|]];
    SameShape(h, h', lo, bottom);
    OthersStay(m, m', h, p, lo, bottom, hi);
    hide Laid;
    StoreZeros(m, h, h', m', lo, hi, p);
  }

  lemma OthersStay(m: Bytes, m': Bytes, h: Heap, p: u32, lo: nat, bottom: nat, hi: nat)
    requires bottom <= hi <= |m| == |m'| && Laid(h, lo, bottom) && Holds(m, h, lo, hi)
    requires p in h && SameOutside(m, m', p, p + |h[p]|)
    ensures forall q | q in h && q != p :: At(m', q, h[q])
  {
    forall q | q in h && q != p ensures At(m', q, h[q]) {
      assert q < p ==> q + |h[q]| < p;
      assert p < q ==> p + |h[p]| < q;
      AtSame(m, m', q, h[q]);
    }
  }

  method Memcpy(ram: array<u8>, dst: nat, bs: Bytes)
    requires dst + |bs| <= ram.Length
    modifies ram
    ensures ram[..] == Put(old(ram[..]), dst, bs)
  {
    ghost var m := ram[..];
    for i := 0 to |bs|
      invariant forall j | 0 <= j < ram.Length :: ram[j] == if dst <= j < dst + i then bs[j - dst] else m[j]
    {
      ram[dst + i] := bs[i];
    }
  }

  class Cbma {
    /** The process's whole memory; the pool is the part from `base` on. */
    const ram: array<u8>
    ghost var base: nat
    var cbmaBottom: u32
    var cbmaTop: u32
    ghost var blocks: Heap
    /** The memory around the pool; its bytes inside the pool mean nothing. */
    ghost var outside: Bytes

    ghost predicate Valid()
      reads this, ram
    {
      && ram.Length == SPACE
      && base <= cbmaBottom <= base + POOL_SIZE < SPACE
      && Laid(blocks, base, cbmaBottom)
      && Holds(ram[..], blocks, base, base + POOL_SIZE)
      && |outside| == SPACE && SameOutside(outside, ram[..], base, base + POOL_SIZE)
    }

    /** `init_cbma`, given the address mmap returned for the SAME_VA pages. */
    constructor (ram: array<u8>, pages: u32)
      requires ram.Length == SPACE && pages + POOL_SIZE < SPACE
      modifies ram
      ensures this.ram == ram && Valid() && base == pages && cbmaBottom == pages && blocks == map[]
      ensures outside == old(ram[..])
    {
      for i := pages to pages + POOL_SIZE
        invariant forall j | pages <= j < i :: ram[j] == 0
        invariant forall j | 0 <= j < SPACE && !(pages <= j < pages + POOL_SIZE) :: ram[j] == old(ram[j])
      {
        ram[i] := 0;
      }
      this.ram := ram;
      base, cbmaBottom, cbmaTop, blocks, outside := pages, pages, pages, map[], old(ram[..]);
    }

    method Galloc(sz: u32) returns (p: u32)
      requires Valid() && Next(cbmaBottom) + sz <= base + POOL_SIZE
      modifies this`cbmaBottom, this`blocks
      ensures Valid() && p == Next(old(cbmaBottom)) && cbmaBottom == p + sz
      ensures p !in old(blocks) && blocks == old(blocks)[p := Zeros(sz)]
    {
      hide Laid, Holds, SameOutside, BitAnd, Next;
      GallocIsNext(cbmaBottom, sz);
      NewBlock(ram[..], blocks, base, cbmaBottom, Next(cbmaBottom), sz, base + POOL_SIZE);
      cbmaBottom := BitAnd(cbmaBottom, 0xFFFF_FC00);
      cbmaBottom := (cbmaBottom + 0x400) % WORD32;
      cbmaBottom := (cbmaBottom + sz) % WORD32;
      p := (cbmaBottom - sz) % WORD32;
      blocks := blocks[p := Zeros(sz)];
    }

    /** A `memcpy` or field store through a pointer into block `p`. */
    method Store(p: u32, at: nat, bs: Bytes)
      requires Valid() && p in blocks && at + |bs| <= |blocks[p]|
      modifies ram, this`blocks
      ensures Valid() && blocks == old(blocks)[p := Splice(old(blocks)[p], at, bs)]
    {
      ghost var m := ram[..];
      BlockStore(m, blocks, base, cbmaBottom, base + POOL_SIZE, p, at, bs);
      Memcpy(ram, p + at, bs);
      blocks := blocks[p := Splice(blocks[p], at, bs)];
    }

    /** Words stored through a pointer into a block of words `ws`. */
    method StoreWords(p: u32, k: nat, arr: seq<u32>, ghost ws: seq<u32>)
      requires Valid() && p in blocks && blocks[p] == LeWords(ws) && k + |arr| <= |ws|
      modifies ram, this`blocks
      ensures Valid() && blocks == old(blocks)[p := LeWords(Splice(ws, k, arr))]
    {
      SpliceWords(ws, k, arr);
      Store(p, 4 * k, LeWords(arr));
    }

    /** The same for a block of a pool that is otherwise `h0`. */
    method Field(p: u32, k: nat, arr: seq<u32>, ghost h0: Heap, ghost ws: seq<u32>) returns (ghost ws': seq<u32>)
      requires Valid() && blocks == h0[p := LeWords(ws)] && k + |arr| <= |ws|
      modifies ram, this`blocks
      ensures Valid() && ws' == Splice(ws, k, arr) && blocks == h0[p := LeWords(ws')]
    {
      hide Laid, Holds, SameOutside, Splice, LeWords;
      StoreWords(p, k, arr, ws);
      ws' := Splice(ws, k, arr);
    }

    /** A job header and its payload copied into a fresh packet. */
    method StorePacket(p: u32, header: Bytes, payload: Bytes, ghost h0: Heap)
      requires Valid() && blocks == h0[p := Zeros(|header| + |payload|)]
      modifies ram, this`blocks
      ensures Valid() && blocks == h0[p := header + payload]
    {
      hide Laid, Holds, SameOutside, Splice;
      Store(p, 0, header);
      Store(p, |header|, payload);
      TwoParts(header, payload);
    }

    /** A word read back through a pointer into a block of words. */
    method LoadWord(p: u32, k: nat, ghost ws: seq<u32>) returns (w: u32)
      requires Valid() && p in blocks && blocks[p] == LeWords(ws) && k < |ws|
      ensures w == ws[k]
    {
      hide Laid, LeWords, SameOutside;
      WordAt(ram[..], p, ws, k);
      var a := p + 4 * k;
      w := Get32(ram[a..a + 4], 0);
    }

    /** Bytes of blocks have been rewritten by someone else, who kept to the blocks. */
    ghost method Adopt(h: Heap)
      requires ram.Length == SPACE && base <= cbmaBottom <= base + POOL_SIZE < SPACE
      requires Laid(h, base, cbmaBottom) && Holds(ram[..], h, base, base + POOL_SIZE)
      requires |outside| == SPACE && SameOutside(outside, ram[..], base, base + POOL_SIZE)
      modifies this`blocks
      ensures Valid() && blocks == h
    {
      blocks := h;
    }

    /** A `memcpy` to memory outside the pool. */
    method StoreOutside(dst: nat, bs: Bytes)
      requires Valid() && dst + |bs| <= SPACE
      requires dst + |bs| <= base || base + POOL_SIZE <= dst
      modifies ram, this`outside
      ensures Valid() && outside == Put(old(outside), dst, bs)
    {
      HoldsElsewhere(ram[..], Put(ram[..], dst, bs), blocks, base, cbmaBottom, base + POOL_SIZE);
      PutBoth(outside, ram[..], base, base + POOL_SIZE, dst, bs);
      Memcpy(ram, dst, bs);
      outside := Put(outside, dst, bs);
    }
  }

  lemma PutBoth(o: Bytes, m: Bytes, lo: nat, hi: nat, dst: nat, bs: Bytes)
    requires |o| == |m| && SameOutside(o, m, lo, hi) && dst + |bs| <= |m|
    ensures SameOutside(Put(o, dst, bs), Put(m, dst, bs), lo, hi)
  {
    var o', m' := Put(o, dst, bs), Put(m, dst, bs);
    forall i | 0 <= i < |m| && !(lo <= i < hi) ensures m'[i] == o'[i] {
      if dst <= i < dst + |bs| {
        AtIndex(o', dst, bs, i - dst);
        AtIndex(m', dst, bs, i - dst);
      }
    }
  }

  lemma TwoParts(h: Bytes, w: Bytes)
    ensures Splice(Splice(Zeros(|h| + |w|), 0, h), |h|, w) == h + w
  {
  }

  lemma SpliceWords(ws: seq<u32>, k: nat, arr: seq<u32>)
    requires k + |arr| <= |ws|
    ensures Splice(LeWords(ws), 4 * k, LeWords(arr)) == LeWords(Splice(ws, k, arr))
  {
    var l, r := Splice(LeWords(ws), 4 * k, LeWords(arr)), LeWords(Splice(ws, k, arr));
    forall i | 0 <= i < |l| ensures l[i] == r[i] {
      if 4 * k <= i < 4 * (k + |arr|) {
        assert (i - 4 * k) / 4 == i / 4 - k && (i - 4 * k) % 4 == i % 4;
      }
    }
  }

  lemma ZeroWords(n: nat)
    ensures LeWords(seq(n, _ => 0)) == Zeros(4 * n)
  {
  }

  /** Memory that agrees on the pool still holds its blocks. */
  lemma HoldsElsewhere(m: Bytes, m': Bytes, h: Heap, lo: nat, bottom: nat, hi: nat)
    requires bottom <= hi <= |m| == |m'| && Laid(h, lo, bottom) && Holds(m, h, lo, hi) && Same(m, m', lo, hi)
    ensures Holds(m', h, lo, hi)
  {
    forall p | p in h ensures At(m', p, h[p]) { AtSame(m, m', p, h[p]); }
  }
}
