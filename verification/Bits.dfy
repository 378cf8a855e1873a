/** Fixed-width machine words as subset types of `int`, and the C operators
    `&`, `|` and `~` on them, written out bit by bit.  Addition, truncation and
    shifts are ordinary arithmetic modulo a power of two. */
module Bits {

  type u8 = x: int | 0 <= x < 0x100
  type u16 = x: int | 0 <= x < 0x1_0000
  type u32 = x: int | 0 <= x < 0x1_0000_0000
  type u64 = x: int | 0 <= x < 0x1_0000_0000_0000_0000

  const WORD32: nat := 0x1_0000_0000
  const WORD64: nat := 0x1_0000_0000_0000_0000

  function Pow2(n: nat): (r: nat)
    ensures r >= 1
  {
    if n == 0 then 1 else 2 * Pow2(n - 1)
  }

  function BitAnd(x: nat, y: nat): (r: nat)
    ensures r <= x && r <= y
    decreases x
  {
    if x == 0 then 0
    else (if x % 2 == 1 && y % 2 == 1 then 1 else 0) + 2 * BitAnd(x / 2, y / 2)
  }

  function BitOr(x: nat, y: nat): (r: nat)
    ensures x <= r && y <= r <= x + y
    decreases x
  {
    if x == 0 then y
    else (if x % 2 == 1 || y % 2 == 1 then 1 else 0) + 2 * BitOr(x / 2, y / 2)
  }

  /** The powers of two the masks and tags are built from. */
  lemma Pow2Values()
    ensures Pow2(0) == 1 && Pow2(1) == 2 && Pow2(2) == 4 && Pow2(4) == 0x10 && Pow2(6) == 0x40
    ensures Pow2(8) == 0x100 && Pow2(9) == 0x200 && Pow2(10) == 0x400 && Pow2(12) == 0x1000
    ensures Pow2(16) == 0x1_0000 && Pow2(20) == 0x10_0000 && Pow2(28) == 0x1000_0000
    ensures Pow2(32) == 0x1_0000_0000 && Pow2(64) == 0x1_0000_0000_0000_0000
  {
    Pow2Sum(32, 32);
  }

  lemma {:induction false} Pow2Sum(a: nat, b: nat)
    ensures Pow2(a + b) == Pow2(a) * Pow2(b)
  {
    if b != 0 {
      Pow2Sum(a, b - 1);
      assert Pow2(a) * (2 * Pow2(b - 1)) == 2 * (Pow2(a) * Pow2(b - 1));
    }
  }

  function BitOr32(x: u32, y: u32): u32 {
    Pow2Values();
    OrBound(x, y, 32);
    BitOr(x, y)
  }

  function BitOr64(x: u64, y: u64): u64 {
    Pow2Values();
    OrBound(x, y, 64);
    BitOr(x, y)
  }

  /** `~((1 << k) - 1)` in a `w`-bit word. */
  function HighMask(w: nat, k: nat): nat
    requires k <= w
  {
    Pow2Monotone(k, w);
    Pow2(w) - Pow2(k)
  }

  lemma {:induction false} Pow2Monotone(k: nat, w: nat)
    requires k <= w
    ensures Pow2(k) <= Pow2(w)
  {
    if k < w { Pow2Monotone(k, w - 1); }
  }

  lemma {:induction false} OrBound(x: nat, y: nat, w: nat)
    requires x < Pow2(w) && y < Pow2(w)
    ensures BitOr(x, y) < Pow2(w)
  {
    if w != 0 && x != 0 { OrBound(x / 2, y / 2, w - 1); }
  }

  /** Splitting off the lowest bit of a remainder by a power of two. */
  lemma ModHalves(x: nat, p: nat)
    requires p >= 1
    ensures x % (2 * p) == 2 * ((x / 2) % p) + x % 2
  {
    var h := x / 2;
    var q, r := h / p, h % p;
    assert h == q * p + r;
    assert x == q * (2 * p) + (2 * r + x % 2);
    ModUnique(x, 2 * p, q, 2 * r + x % 2);
  }

  lemma ModUnique(x: nat, d: nat, q: int, r: int)
    requires 0 <= r < d && x == q * d + r
    ensures x % d == r
  {
    var q', r' := x / d, x % d;
    assert x == q' * d + r';
    MulMonotone(q + 1, q', d);
    MulMonotone(q' + 1, q, d);
  }

  lemma MulMonotone(a: int, b: int, d: nat)
    ensures a <= b ==> a * d <= b * d
  {
  }

  /** Masking with the `k` low bits is the remainder by `2^k`. */
  lemma {:induction false} AndLow(x: nat, k: nat)
    ensures BitAnd(x, Pow2(k) - 1) == x % Pow2(k)
  {
    if k == 0 {
      AndZero(x);
    } else if x != 0 {
      assert (Pow2(k) - 1) / 2 == Pow2(k - 1) - 1 && (Pow2(k) - 1) % 2 == 1;
      AndLow(x / 2, k - 1);
      ModHalves(x, Pow2(k - 1));
    }
  }

  lemma {:induction false} AndZero(x: nat)
    ensures BitAnd(x, 0) == 0
  {
  }

  /** Masking with the complement of the `k` low bits rounds down to a multiple of `2^k`. */
  lemma {:induction false} AndHigh(x: nat, w: nat, k: nat)
    requires k <= w && x < Pow2(w)
    ensures BitAnd(x, HighMask(w, k)) == x - x % Pow2(k)
  {
    if k == 0 {
      assert HighMask(w, 0) == Pow2(w) - 1;
      AndLow(x, w);
      SmallMod(x, Pow2(w));
    } else {
      var p, m := Pow2(k - 1), HighMask(w - 1, k - 1);
      assert Pow2(k) == 2 * p;
      assert BitAnd(x / 2, m) == x / 2 - (x / 2) % p by { AndHigh(x / 2, w - 1, k - 1); }
      assert HighMask(w, k) == 2 * m by { HighMaskHalf(w, k); }
      AndEven(x, m);
      ModHalves(x, p);
    }
  }

  lemma SmallMod(x: nat, d: nat)
    requires x < d
    ensures x % d == x
  {
  }

  lemma AndEven(x: nat, m: nat)
    ensures BitAnd(x, 2 * m) == 2 * BitAnd(x / 2, m)
  {
  }

  lemma HighMaskHalf(w: nat, k: nat)
    requires 0 < k <= w
    ensures HighMask(w, k) == 2 * HighMask(w - 1, k - 1)
  {
  }

  /** Or-ing a tag into the zero low bits of an aligned value adds it. */
  lemma {:induction false} OrTag(p: nat, tag: nat, k: nat)
    requires p % Pow2(k) == 0 && tag < Pow2(k)
    ensures BitOr(p, tag) == p + tag
  {
    if k != 0 && p != 0 {
      ModHalves(p, Pow2(k - 1));
      assert tag / 2 < Pow2(k - 1);
      OrTag(p / 2, tag / 2, k - 1);
    }
  }

  /** The low tag bits do not disturb the remaining bits. */
  lemma TagSplit(p: nat, tag: nat, d: nat)
    requires tag < d && p % d == 0
    ensures (p + tag) % d == tag && (p + tag) - (p + tag) % d == p
  {
    ModUnique(p + tag, d, p / d, tag);
  }

  lemma AndStep(x: nat, y: nat)
    ensures BitAnd(x, y) % 2 == (if x % 2 == 1 && y % 2 == 1 then 1 else 0)
    ensures BitAnd(x, y) / 2 == BitAnd(x / 2, y / 2)
  {
  }

  lemma OrStep(x: nat, y: nat)
    ensures BitOr(x, y) % 2 == (if x % 2 == 1 || y % 2 == 1 then 1 else 0)
    ensures BitOr(x, y) / 2 == BitOr(x / 2, y / 2)
  {
    if x != 0 {
      hide BitOr;
      OrUnfold(x, y);
      HalvesOf(if x % 2 == 1 || y % 2 == 1 then 1 else 0, BitOr(x / 2, y / 2));
    }
  }

  lemma OrUnfold(x: nat, y: nat)
    requires x != 0
    ensures BitOr(x, y) == (if x % 2 == 1 || y % 2 == 1 then 1 else 0) + 2 * BitOr(x / 2, y / 2)
  {
  }

  lemma HalvesOf(bit: nat, r: nat)
    requires bit < 2
    ensures (bit + 2 * r) % 2 == bit && (bit + 2 * r) / 2 == r
  {
  }

  /** `&` distributes over `|`. */
  lemma {:induction false} AndOverOr(x: nat, y: nat, m: nat)
    ensures BitAnd(BitOr(x, y), m) == BitOr(BitAnd(x, m), BitAnd(y, m))
    decreases x + y
  {
    if x != 0 || y != 0 {
      AndOverOr(x / 2, y / 2, m / 2);
      OrStep(x, y);
      AndStep(x, m);
      AndStep(y, m);
      AndStep(BitOr(x, y), m);
      OrStep(BitAnd(x, m), BitAnd(y, m));
    }
  }

  function Shl(x: nat, k: nat): nat {
    if k == 0 then x else 2 * Shl(x, k - 1)
  }

  function Shr(x: nat, k: nat): nat {
    if k == 0 then x else Shr(x / 2, k - 1)
  }

  /** A mask `f << k` sees what is above bit `k`, and puts it back there. */
  lemma {:induction false} AndShl(x: nat, f: nat, k: nat)
    ensures BitAnd(x, Shl(f, k)) == Shl(BitAnd(Shr(x, k), f), k)
  {
    if k != 0 {
      AndShl(x / 2, f, k - 1);
      AndEven(x, Shl(f, k - 1));
    }
  }

  /** Joining a field below bit `k` with one above it loses neither. */
  lemma {:induction false} ShrOrShl(x: nat, y: nat, k: nat)
    requires x < Pow2(k)
    ensures Shr(BitOr(x, Shl(y, k)), k) == y
  {
    if k != 0 {
      ShrOrShl(x / 2, y, k - 1);
      OrStep(x, Shl(y, k));
    }
  }

  /** A mask of low bits does not see a value shifted above it. */
  lemma {:induction false} AndLowShl(f: nat, y: nat, k: nat)
    requires f < Pow2(k)
    ensures BitAnd(Shl(y, k), f) == 0
  {
    if k != 0 {
      AndLowShl(f / 2, y, k - 1);
      AndStep(Shl(y, k), f);
    }
  }

  /** A one-bit mask tests that bit. */
  lemma {:induction false} AndBit(x: nat, k: nat)
    ensures BitAnd(x, Pow2(k)) == if Shr(x, k) % 2 == 1 then Pow2(k) else 0
  {
    if k == 0 {
      AndLow(x, 1);
    } else {
      AndEven(x, Pow2(k - 1));
      AndBit(x / 2, k - 1);
    }
  }

  lemma {:induction false} ShrDivides(x: nat, k: nat)
    ensures Shr(x, k) == x / Pow2(k)
  {
    if k != 0 {
      ShrDivides(x / 2, k - 1);
      HalfDivides(x, Pow2(k - 1));
    }
  }

  lemma HalfDivides(x: nat, p: nat)
    requires p >= 1
    ensures x / 2 / p == x / (2 * p)
  {
    var q := x / 2 / p;
    assert x / 2 == q * p + x / 2 % p;
    assert x == q * (2 * p) + (2 * (x / 2 % p) + x % 2);
    var r := 2 * (x / 2 % p) + x % 2;
    ModUnique(x, 2 * p, q, r);
    assert x / (2 * p) * (2 * p) == q * (2 * p);
    MulMonotone(q + 1, x / (2 * p), 2 * p);
    MulMonotone(x / (2 * p) + 1, q, 2 * p);
  }

  lemma {:induction false} OrSymmetric(x: nat, y: nat)
    ensures BitOr(x, y) == BitOr(y, x)
    decreases x
  {
    if x != 0 && y != 0 { OrSymmetric(x / 2, y / 2); }
  }

  lemma {:induction false} ShlMul(x: nat, k: nat)
    ensures Shl(x, k) == x * Pow2(k)
  {
    if k != 0 {
      ShlMul(x, k - 1);
      assert x * (2 * Pow2(k - 1)) == 2 * (x * Pow2(k - 1));
    }
  }

  /** A mask of low bits keeps a value that has no others. */
  lemma AndSmall(x: nat, k: nat)
    requires x < Pow2(k)
    ensures BitAnd(x, Pow2(k) - 1) == x
  {
    AndLow(x, k);
    SmallMod(x, Pow2(k));
  }

  /** A second tag joins the first, whatever the aligned value above them. */
  lemma {:induction false} OrTagged(p: nat, a: nat, b: nat, k: nat)
    requires p % Pow2(k) == 0 && a < Pow2(k) && b < Pow2(k)
    ensures BitOr(p + a, b) == p + BitOr(a, b)
  {
    if k == 0 {
      OrSymmetric(p, 0);
    } else {
      ModHalves(p, Pow2(k - 1));
      OrTagged(p / 2, a / 2, b / 2, k - 1);
      OrStep(p + a, b);
      OrStep(a, b);
    }
  }
}
