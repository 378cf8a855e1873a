/** The process's memory as a string of bytes, little-endian fields in it, and
    stores to it. */
module Memory {
  import opened Bits

  type Bytes = seq<u8>

  /** Size of the 32-bit address space; a CPU pointer is an index below it. */
  const SPACE: nat := 0x1_0000_0000

  // ----- little-endian fields -----

  function Le16(v: u16): (b: Bytes)
    ensures |b| == 2
  {
    [v % 0x100, v / 0x100]
  }

  function Le32(v: u32): (b: Bytes)
    ensures |b| == 4
  {
    [v % 0x100, v / 0x100 % 0x100, v / 0x1_0000 % 0x100, v / 0x100_0000]
  }

  function Lo(v: u64): u32 { v % 0x1_0000_0000 }

  function Hi(v: u64): u32 { v / 0x1_0000_0000 }

  function Le64(v: u64): (b: Bytes)
    ensures |b| == 8
  {
    Le32(Lo(v)) + Le32(Hi(v))
  }

  function Get16(b: Bytes, at: nat): u16
    requires at + 2 <= |b|
  {
    var b0: int, b1: int := b[at], b[at + 1];
    b0 + 0x100 * b1
  }

  function Get32(b: Bytes, at: nat): u32
    requires at + 4 <= |b|
  {
    var b0: int, b1: int, b2: int, b3: int := b[at], b[at + 1], b[at + 2], b[at + 3];
    b0 + 0x100 * b1 + 0x1_0000 * b2 + 0x100_0000 * b3
  }

  function QuadOf(lo: u32, hi: u32): u64 {
    var l: int, h: int := lo, hi;
    l + 0x1_0000_0000 * h
  }

  function Get64(b: Bytes, at: nat): u64
    requires at + 8 <= |b|
  {
    QuadOf(Get32(b, at), Get32(b, at + 4))
  }

  lemma Le32Sum(v: u32)
    ensures Get32(Le32(v), 0) == v
  {
    var q1, q2 := v / 0x100, v / 0x1_0000;
    assert q1 / 0x100 == q2 && q2 / 0x100 == v / 0x100_0000;
  }

  /** The words of an array, laid out one after the other. */
  function LeWords(ws: seq<u32>): (b: Bytes)
    ensures |b| == 4 * |ws|
  {
    seq(4 * |ws|, i requires 0 <= i < 4 * |ws| => Le32(ws[i / 4])[i % 4])
  }

  function GetWords(b: Bytes): (ws: seq<u32>)
    requires |b| % 4 == 0
    ensures |ws| == |b| / 4
  {
    seq(|b| / 4, i requires 0 <= i < |b| / 4 => Get32(b, 4 * i))
  }

  lemma WordOf(ws: seq<u32>, k: nat)
    requires k < |ws|
    ensures Get32(LeWords(ws), 4 * k) == ws[k]
  {
    var b := LeWords(ws);
    var w := Le32(ws[k]);
    assert b[4 * k] == w[0];
    assert b[4 * k + 1] == w[1] by { assert (4 * k + 1) / 4 == k && (4 * k + 1) % 4 == 1; }
    assert b[4 * k + 2] == w[2] by { assert (4 * k + 2) / 4 == k && (4 * k + 2) % 4 == 2; }
    assert b[4 * k + 3] == w[3] by { assert (4 * k + 3) / 4 == k && (4 * k + 3) % 4 == 3; }
    Le32Sum(ws[k]);
  }

  lemma WordsRoundTrip(ws: seq<u32>)
    ensures GetWords(LeWords(ws)) == ws
  {
    forall k | 0 <= k < |ws| ensures GetWords(LeWords(ws))[k] == ws[k] { WordOf(ws, k); }
  }

  /** Reading a word back out of memory that holds the array at `a`. */
  lemma WordAt(m: Bytes, a: nat, ws: seq<u32>, k: nat)
    requires At(m, a, LeWords(ws)) && k < |ws|
    ensures Get32(m, a + 4 * k) == ws[k]
  {
    var b := LeWords(ws);
    WordOf(ws, k);
    AtIndex(m, a, b, 4 * k);
    AtIndex(m, a, b, 4 * k + 1);
    AtIndex(m, a, b, 4 * k + 2);
    AtIndex(m, a, b, 4 * k + 3);
  }

  // ----- stores -----

  /** The bytes `bs` stand in memory from address `a` on. */
  predicate At(m: Bytes, a: nat, bs: Bytes) {
    a + |bs| <= |m| && m[a..a + |bs|] == bs
  }

  lemma AtIndex(m: Bytes, a: nat, bs: Bytes, k: nat)
    requires At(m, a, bs) && k < |bs|
    ensures m[a + k] == bs[k]
  {
    assert m[a..a + |bs|][k] == m[a + k];
  }

  /** Two memories agree on the addresses from `lo` up to `hi`. */
  predicate Same(m: Bytes, m': Bytes, lo: nat, hi: nat)
    requires |m| == |m'|
  {
    forall i | lo <= i < hi && i < |m| :: m'[i] == m[i]
  }

  /** They agree everywhere else. */
  predicate SameOutside(m: Bytes, m': Bytes, lo: nat, hi: nat)
    requires |m| == |m'|
  {
    forall i | 0 <= i < |m| && !(lo <= i < hi) :: m'[i] == m[i]
  }

  lemma AtSame(m: Bytes, m': Bytes, a: nat, bs: Bytes)
    requires |m| == |m'| && Same(m, m', a, a + |bs|)
    ensures At(m, a, bs) ==> At(m', a, bs)
  {
    if At(m, a, bs) {
      assert m'[a..a + |bs|] == m[a..a + |bs|];
    }
  }

  function Put(m: Bytes, a: nat, bs: Bytes): (r: Bytes)
    requires a + |bs| <= |m|
    ensures |r| == |m| && At(r, a, bs) && SameOutside(m, r, a, a + |bs|)
  {
    var r := m[..a] + bs + m[a + |bs|..];
    assert r[a..a + |bs|] == bs;
    r
  }

  lemma PutKeeps(m: Bytes, p: nat, b: Bytes, q: nat, b': Bytes)
    requires At(m, p, b) && q + |b'| <= |m| && (p + |b| <= q || q + |b'| <= p)
    ensures At(Put(m, q, b'), p, b)
  {
    AtSame(m, Put(m, q, b'), p, b);
  }
}
