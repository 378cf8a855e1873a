/** The hex dump, and a reader that gets the bytes back out of it. */
module Hexdump {
  import opened Bits
  import opened Memory
  import opened Options

  const HEXDUMP_COL_LEN: nat := 4
  const HEXDUMP_ROW_LEN: nat := 16
  const NULL_MESSAGE := "NULL pointer dereference(hexdump)\n"

  // ----- numbers as digits -----

  type Nibble = x: int | 0 <= x < 16

  function Digit(v: Nibble, upper: bool): char {
    if v < 10 then ('0' as int + v) as char
    else if upper then ('A' as int + (v - 10)) as char
    else ('a' as int + (v - 10)) as char
  }

  predicate IsDigit(c: char) {
    '0' <= c <= '9' || 'a' <= c <= 'f' || 'A' <= c <= 'F'
  }

  function DigitValue(c: char): Nibble
    requires IsDigit(c)
  {
    if '0' <= c <= '9' then c as int - '0' as int
    else if 'a' <= c <= 'f' then c as int - 'a' as int + 10
    else c as int - 'A' as int + 10
  }

  lemma DigitBack(v: Nibble, upper: bool)
    ensures IsDigit(Digit(v, upper)) && DigitValue(Digit(v, upper)) == v && Digit(v, upper) != ' '
  {
  }

  /** Digits as printed: letters are either all capitals or all small. */
  predicate DigitOf(c: char, upper: bool) {
    '0' <= c <= '9' || if upper then 'A' <= c <= 'F' else 'a' <= c <= 'f'
  }

  predicate DigitsOf(s: string, upper: bool) {
    forall i | 0 <= i < |s| :: DigitOf(s[i], upper)
  }

  lemma DigitIs(v: Nibble, upper: bool)
    ensures DigitOf(Digit(v, upper), upper) && IsDigit(Digit(v, upper))
  {
  }

  /** No digits to spare: a number that starts with 0 is 0. */
  predicate Shortest(s: string) {
    s != "" && (s[0] == '0' ==> |s| == 1)
  }

  /** `n` hexadecimal digits of `v`. */
  function Hex(v: nat, n: nat, upper: bool): (s: string)
    ensures |s| == n
  {
    if n == 0 then "" else Hex(v / 16, n - 1, upper) + [Digit(v % 16, upper)]
  }

  predicate AllDigits(s: string) {
    forall i | 0 <= i < |s| :: IsDigit(s[i])
  }

  function HexValue(s: string): nat
    requires AllDigits(s)
  {
    if s == "" then 0 else HexValue(s[..|s| - 1]) * 16 + DigitValue(s[|s| - 1])
  }

  function Pow16(n: nat): nat {
    if n == 0 then 1 else 16 * Pow16(n - 1)
  }

  lemma {:induction false} HexBack(v: nat, n: nat, upper: bool)
    requires v < Pow16(n)
    ensures AllDigits(Hex(v, n, upper)) && HexValue(Hex(v, n, upper)) == v
  {
    if n > 0 {
      HexBack(v / 16, n - 1, upper);
      DigitBack(v % 16, upper);
      var s := Hex(v, n, upper);
      assert s[..|s| - 1] == Hex(v / 16, n - 1, upper);
    }
  }

  function Decimal(v: nat): (s: string)
    ensures |s| > 0
  {
    if v < 10 then [Digit(v, false)] else Decimal(v / 10) + [Digit(v % 10, false)]
  }

  predicate AllDecimal(s: string) {
    forall i | 0 <= i < |s| :: '0' <= s[i] <= '9'
  }

  function DecimalValue(s: string): nat
    requires AllDecimal(s)
  {
    if s == "" then 0 else DecimalValue(s[..|s| - 1]) * 10 + (s[|s| - 1] as int - '0' as int)
  }

  lemma {:induction false} DecimalBack(v: nat)
    ensures AllDecimal(Decimal(v)) && DecimalValue(Decimal(v)) == v
  {
    var s := Decimal(v);
    if v >= 10 {
      DecimalBack(v / 10);
      assert s[..|s| - 1] == Decimal(v / 10);
    } else {
      assert s[..|s| - 1] == "";
    }
  }

  lemma {:induction false} DecimalShortest(v: nat)
    ensures Shortest(Decimal(v)) && (v > 0 ==> Decimal(v)[0] != '0')
  {
    if v >= 10 { DecimalShortest(v / 10); }
  }

  // ----- the text of a dump -----

  /** `isprint` of the current locale. */
  type Printable = u8 -> bool

  function Shown(b: u8, printable: Printable): char {
    if printable(b) && b < 0xA0 then b as char else '.'
  }

  /** One byte in column `j`; every fourth column is set off by a blank. */
  function Cell(b: u8, j: nat): string {
    (if j % HEXDUMP_COL_LEN == 0 then " " else "") + " " + Hex(b, 2, false)
  }

  /** The cells of `bs` from column `j` on. */
  function Cells(bs: Bytes, j: nat): string
    decreases |bs| - j
  {
    if j >= |bs| then "" else Cell(bs[j], j) + Cells(bs, j + 1)
  }

  /** Cells after the last byte have no blank set off. */
  function Pads(n: nat): (s: string)
    ensures |s| == 3 * n
    ensures forall i | 0 <= i < |s| :: s[i] == ' '
  {
    if n == 0 then "" else Pads(n - 1) + "   "
  }

  function Alpha(bs: Bytes, printable: Printable): (s: string)
    requires |bs| <= HEXDUMP_ROW_LEN
    ensures |s| == HEXDUMP_ROW_LEN
  {
    seq(HEXDUMP_ROW_LEN, i requires 0 <= i < HEXDUMP_ROW_LEN => if i < |bs| then Shown(bs[i], printable) else '.')
  }

  function Row(bs: Bytes, offset: nat, indent: string, printable: Printable): string
    requires |bs| <= HEXDUMP_ROW_LEN
  {
    indent + Hex(offset, 8, true) + Cells(bs, 0) + Pads(HEXDUMP_ROW_LEN - |bs|) + "\t|" + Alpha(bs, printable) + "|\n"
  }

  function RowCount(n: nat): nat { (n + 15) / 16 }

  /** The bytes of row `k`. */
  function Chunk(data: Bytes, k: nat): (bs: Bytes)
    requires k < RowCount(|data|)
    ensures 0 < |bs| <= HEXDUMP_ROW_LEN
  {
    data[16 * k..if 16 * k + 16 <= |data| then 16 * k + 16 else |data|]
  }

  /** The first `k` rows. */
  function Rows(data: Bytes, k: nat, indent: string, printable: Printable): string
    requires k <= RowCount(|data|)
  {
    if k == 0 then ""
    else Rows(data, k - 1, indent, printable) + Row(Chunk(data, k - 1), 16 * (k - 1), indent, printable)
  }

  function Dump(data: Bytes, indent: string, printable: Printable): string {
    Rows(data, RowCount(|data|), indent, printable)
  }

  // ----- printing it -----

  /** The row being printed: all of it but the end. */
  function RowStart(bs: Bytes, offset: nat, indent: string): string {
    indent + Hex(offset, 8, true) + Cells(bs, 0)
  }

  lemma {:induction false} CellsSnoc(bs: Bytes, b: u8, j: nat)
    requires j <= |bs|
    ensures Cells(bs + [b], j) == Cells(bs, j) + Cell(b, |bs|)
    decreases |bs| - j
  {
    if j < |bs| {
      CellsSnoc(bs, b, j + 1);
      assert (bs + [b])[j] == bs[j];
    } else {
      assert Cells(bs + [b], j + 1) == "";
    }
  }

  lemma ColumnOf(k: nat, c: nat)
    requires c < 16
    ensures (16 * k + c) % 16 == c && (16 * k + c) % 4 == c % 4
  {
    ModUnique(16 * k + c, 16, k, c);
    ModUnique(16 * k + c, 4, 4 * k + c / 4, c % 4);
  }

  /** What the buffer of printable characters holds after the bytes `bs` of a row. */
  predicate Letters(alpha: seq<char>, bs: Bytes, printable: Printable) {
    |bs| <= |alpha| == HEXDUMP_ROW_LEN && forall i | 0 <= i < |bs| :: alpha[i] == Shown(bs[i], printable)
  }

  /** All that is printed for the byte at `i`, with `alpha` the letters of its row. */
  function ByteText(b: u8, i: nat, indent: string, alpha: string): string {
    (if i % HEXDUMP_ROW_LEN == 0 then indent + Hex(i, 8, true) else "") + Cell(b, i)
    + (if i % HEXDUMP_ROW_LEN == HEXDUMP_ROW_LEN - 1 then "\t|" + alpha + "|\n" else "")
  }

  /** One round of the dump's loop. */
  method PrintByte(b: u8, i: nat, indent: string, printable: Printable, alpha: array<char>) returns (s: string)
    requires alpha.Length == HEXDUMP_ROW_LEN
    modifies alpha
    ensures alpha[..] == old(alpha[..])[i % HEXDUMP_ROW_LEN := Shown(b, printable)]
    ensures s == ByteText(b, i, indent, alpha[..])
  {
    s := "";
    if i % HEXDUMP_ROW_LEN == 0 {
      s := s + indent + Hex(i, 8, true);
    }
    if i % HEXDUMP_COL_LEN == 0 {
      s := s + " ";
    }
    s := s + " " + Hex(b, 2, false);
    alpha[i % HEXDUMP_ROW_LEN] := if printable(b) && b < 0xA0 then b as char else '.';
    if i % HEXDUMP_ROW_LEN == HEXDUMP_ROW_LEN - 1 {
      s := s + "\t|" + alpha[..] + "|\n";
    }
  }

  /** The rest of a last row that is not full. */
  method PrintPads(start: nat, alpha: array<char>) returns (s: string)
    requires alpha.Length == HEXDUMP_ROW_LEN && start < HEXDUMP_ROW_LEN
    modifies alpha
    ensures forall j | 0 <= j < HEXDUMP_ROW_LEN :: alpha[j] == if j < start then old(alpha[j]) else '.'
    ensures s == Pads(HEXDUMP_ROW_LEN - start) + "\t|" + alpha[..] + "|\n"
  {
    s := "";
    for i := start to HEXDUMP_ROW_LEN
      invariant forall j | 0 <= j < HEXDUMP_ROW_LEN :: alpha[j] == if start <= j < i then '.' else old(alpha[j])
      invariant s == Pads(i - start) + if i == HEXDUMP_ROW_LEN then "\t|" + alpha[..] + "|\n" else ""
    {
      s := s + "   ";
      alpha[i] := '.';
      if i == HEXDUMP_ROW_LEN - 1 {
        s := s + "\t|" + alpha[..] + "|\n";
      }
    }
  }

  /** What has been printed when `c` bytes of row `k` have. */
  function Printed(data: Bytes, k: nat, c: nat, indent: string, printable: Printable): string
    requires k <= RowCount(|data|) && 16 * k + c <= |data|
  {
    Rows(data, k, indent, printable) + if c == 0 then "" else RowStart(data[16 * k..16 * k + c], 16 * k, indent)
  }

  /** A row is started with its offset, and grows by a cell for each byte. */
  lemma RowGrows(bs: Bytes, b: u8, offset: nat, indent: string)
    ensures RowStart(bs + [b], offset, indent)
         == (if bs == [] then indent + Hex(offset, 8, true) else RowStart(bs, offset, indent)) + Cell(b, |bs|)
  {
    hide Hex, Cell;
    CellsSnoc(bs, b, 0);
    if bs == [] { assert Cells(bs, 0) == ""; }
  }

  lemma ByteTextAt(b: u8, k: nat, c: nat, indent: string, alpha: string)
    requires c < 16
    ensures ByteText(b, 16 * k + c, indent, alpha)
         == (if c == 0 then indent + Hex(16 * k, 8, true) else "") + Cell(b, c)
             + (if c == 15 then "\t|" + alpha + "|\n" else "")
  {
    hide Hex;
    ColumnOf(k, c);
  }

  lemma PrintedByte(data: Bytes, k: nat, c: nat, indent: string, printable: Printable, alpha: string)
    requires 16 * k + c < |data| && c < 16 && Letters(alpha, data[16 * k..16 * k + c + 1], printable)
    ensures Printed(data, k, c, indent, printable) + ByteText(data[16 * k + c], 16 * k + c, indent, alpha)
         == if c < 15 then Printed(data, k, c + 1, indent, printable) else Printed(data, k + 1, 0, indent, printable)
  {
    hide Hex, Rows, Cell, RowStart, ByteText, Letters;
    var bs, b := data[16 * k..16 * k + c], data[16 * k + c];
    assert bs + [b] == data[16 * k..16 * k + c + 1];
    RowGrows(bs, b, 16 * k, indent);
    ByteTextAt(b, k, c, indent, alpha);
    if c == 15 {
      RowDone(data, k, indent, printable, alpha);
    }
  }

  lemma LettersByte(alpha: string, alpha': string, data: Bytes, k: nat, c: nat, printable: Printable)
    requires 16 * k + c < |data| && c < 16 && Letters(alpha, data[16 * k..16 * k + c], printable)
    requires alpha' == alpha[c := Shown(data[16 * k + c], printable)]
    ensures Letters(alpha', data[16 * k..16 * k + c + 1], printable) && Letters(alpha', [], printable)
  {
    hide Shown;
  }

  lemma NothingPrinted(data: Bytes, indent: string, printable: Printable, alpha: string)
    requires |alpha| == HEXDUMP_ROW_LEN
    ensures Printed(data, 0, 0, indent, printable) == "" && Letters(alpha, data[..0], printable)
  {
  }

  /** The dump is complete after the pads of the last row, if it has any. */
  lemma AllPrinted(data: Bytes, k: nat, c: nat, indent: string, printable: Printable, alpha: string)
    requires 16 * k + c == |data| && c < 16
    requires c > 0 ==> Letters(alpha, data[16 * k..], printable)
    requires c > 0 ==> forall j | c <= j < HEXDUMP_ROW_LEN :: alpha[j] == '.'
    ensures Dump(data, indent, printable) == Printed(data, k, c, indent, printable)
      + (if c == 0 then "" else Pads(HEXDUMP_ROW_LEN - c) + "\t|" + alpha + "|\n")
  {
    hide RowStart, Rows, Pads, Letters;
    RowsNeeded(|data|, k, c);
    if c > 0 {
      assert data[16 * k..16 * k + c] == data[16 * k..];
      LastRow(data, k, c, indent, printable, alpha);
    }
  }

  lemma RowsNeeded(n: nat, k: nat, c: nat)
    requires n == 16 * k + c && c < 16
    ensures RowCount(n) == if c == 0 then k else k + 1
  {
  }

  lemma LastRow(data: Bytes, k: nat, c: nat, indent: string, printable: Printable, alpha: string)
    requires 16 * k + c == |data| && 0 < c < 16 && RowCount(|data|) == k + 1
    requires Letters(alpha, data[16 * k..], printable) && forall j | c <= j < HEXDUMP_ROW_LEN :: alpha[j] == '.'
    ensures Rows(data, k + 1, indent, printable)
         == Rows(data, k, indent, printable) + RowStart(data[16 * k..], 16 * k, indent)
            + (Pads(HEXDUMP_ROW_LEN - c) + "\t|" + alpha + "|\n")
  {
    hide Hex, Cells, Shown, Pads;
    var bs := Chunk(data, k);
    assert bs == data[16 * k..];
    assert alpha == Alpha(bs, printable);
    RowEnd(bs, 16 * k, indent, printable);
  }

  lemma RowEnd(bs: Bytes, offset: nat, indent: string, printable: Printable)
    requires |bs| <= HEXDUMP_ROW_LEN
    ensures Row(bs, offset, indent, printable)
         == RowStart(bs, offset, indent) + (Pads(HEXDUMP_ROW_LEN - |bs|) + "\t|" + Alpha(bs, printable) + "|\n")
  {
    hide Hex, Cells, Pads, Alpha;
  }

  /** A full row. */
  lemma RowDone(data: Bytes, k: nat, indent: string, printable: Printable, alpha: string)
    requires 16 * k + 16 <= |data| && Letters(alpha, data[16 * k..16 * k + 16], printable)
    ensures Rows(data, k, indent, printable) + RowStart(data[16 * k..16 * k + 16], 16 * k, indent)
         + ("\t|" + alpha + "|\n")
         == Rows(data, k + 1, indent, printable)
  {
    hide Hex, Cells, Shown;
    assert Chunk(data, k) == data[16 * k..16 * k + 16];
    assert alpha == Alpha(Chunk(data, k), printable);
  }

  /** `panwrap_log_hexdump`.  `indent` is all that stands on a line before the offset;
      `None` is a NULL pointer. */
  method HexdumpTo(data: Option<Bytes>, indent: string, printable: Printable) returns (out: string)
    ensures out == match data case None => NULL_MESSAGE case Some(buf) => Dump(buf, indent, printable)
  {
    hide Printed, Letters, ByteText, Rows, Shown, Dump;
    if data == None {
      return NULL_MESSAGE;
    }
    var buf := data.value;
    var alpha := new char[HEXDUMP_ROW_LEN](_ => '.');
    var i: nat := 0;
    ghost var k: nat, c: nat := 0, 0;
    out := "";
    NothingPrinted(buf, indent, printable, alpha[..]);
    while i < |buf|
      invariant i == 16 * k + c <= |buf| && c < 16
      invariant Letters(alpha[..], buf[16 * k..i], printable)
      invariant out == Printed(buf, k, c, indent, printable)
    {
      ColumnOf(k, c);
      ghost var was := alpha[..];
      var s := PrintByte(buf[i], i, indent, printable, alpha);
      out := out + s;
      LettersByte(was, alpha[..], buf, k, c, printable);
      PrintedByte(buf, k, c, indent, printable, alpha[..]);
      i := i + 1;
      if c < 15 {
        c := c + 1;
      } else {
        k, c := k + 1, 0;
        assert buf[16 * k..i] == [];
      }
    }
    ColumnOf(k, c);
    assert buf[16 * k..i] == buf[16 * k..];
    if i % HEXDUMP_ROW_LEN != 0 {
      ghost var was := alpha[..];
      var s := PrintPads(i % HEXDUMP_ROW_LEN, alpha);
      out := out + s;
      LettersKept(was, alpha[..], buf[16 * k..], printable);
    }
    AllPrinted(buf, k, c, indent, printable, alpha[..]);
  }

  lemma LettersKept(alpha: string, alpha': string, bs: Bytes, printable: Printable)
    requires Letters(alpha, bs, printable) && |alpha'| == |alpha| && forall j | 0 <= j < |bs| :: alpha'[j] == alpha[j]
    ensures Letters(alpha', bs, printable)
  {
    hide Shown;
  }
}
