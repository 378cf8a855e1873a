/** Getting the bytes back out of a hex dump, trimmed or not. */
module HexdumpReader {
  import opened Bits
  import opened Memory
  import opened Options
  import opened Pool
  import opened Hexdump

  // ----- the reader -----

  datatype RowData = RowData(offset: nat, bytes: Bytes, letters: string)

  /** The rows of a dump, and how many zeros its last line says were left out, if it has
      such a line. */
  datatype Reading = Reading(rows: seq<RowData>, zeros: Option<nat>)

  /** `n` blanks at the start of the text. */
  predicate Blanks(t: string, n: nat) {
    n <= |t| && forall i | 0 <= i < n :: t[i] == ' '
  }

  /** The digits of a byte, in small letters. */
  predicate TwoDigits(c: char, d: char) {
    IsDigit(c) && IsDigit(d) && DigitOf(c, false) && DigitOf(d, false)
  }

  /** The bytes in the cells from column `j` on, and the text after the cells. */
  function ReadCells(t: string, j: nat): (r: Option<(Bytes, string)>)
    ensures r.Some? ==> |r.value.1| <= |t|
    decreases HEXDUMP_ROW_LEN - j
  {
    if j >= HEXDUMP_ROW_LEN then Some(([], t))
    else
      var gap := if j % HEXDUMP_COL_LEN == 0 then 1 else 0;
      if |t| >= gap + 3 && Blanks(t, gap + 1) && TwoDigits(t[gap + 1], t[gap + 2]) then
        match ReadCells(t[gap + 3..], j + 1)
        case None => None
        case Some((bs, rest)) => Some(([DigitValue(t[gap + 1]) * 16 + DigitValue(t[gap + 2])] + bs, rest))
      else if Blanks(t, 3 * (HEXDUMP_ROW_LEN - j)) then Some(([], t[3 * (HEXDUMP_ROW_LEN - j)..]))
      else None
  }

  /** The text at the start, and what follows it. */
  function After(t: string, start: string): (r: Option<string>)
    ensures r.Some? ==> |r.value| + |start| == |t|
  {
    if |start| <= |t| && t[..|start|] == start then Some(t[|start|..]) else None
  }

  /** The letters at the end of a row, in their frame. */
  function ReadLetters(t: string): (r: Option<(string, string)>)
    ensures r.Some? ==> |r.value.1| < |t|
  {
    match After(t, "\t|")
    case None => None
    case Some(u) =>
      if |u| < HEXDUMP_ROW_LEN then None
      else
        match After(u[HEXDUMP_ROW_LEN..], "|\n")
        case None => None
        case Some(rest) => Some((u[..HEXDUMP_ROW_LEN], rest))
  }

  function ReadRow(t: string): (r: Option<(RowData, string)>)
    ensures r.Some? ==> |r.value.1| < |t|
  {
    if |t| < 8 || !DigitsOf(t[..8], true) then None
    else
      match ReadCells(t[8..], 0)
      case None => None
      case Some((bs, more)) =>
        match ReadLetters(more)
        case None => None
        case Some((letters, rest)) => Some((RowData(HexValue(t[..8]), bs, letters), rest))
  }

  /** Rows up to the end of the text or to the line that replaces zeros.  Every line
      starts with the indent. */
  function ReadDump(t: string, indent: string): Option<Reading>
    decreases |t|
  {
    if t == "" then Some(Reading([], None))
    else
      match After(t, indent)
      case None => None
      case Some(u) =>
        if u != "" && u[0] == '<' then ReadTrailer(u)
        else
          match ReadRow(u)
          case None => None
          case Some((row, rest)) =>
            match ReadDump(rest, indent)
            case None => None
            case Some(more) => Some(Reading([row] + more.rows, more.zeros))
  }

  const BEFORE_COUNT := "<0 repeating "
  const AFTER_COUNT := " times>\n"

  function ReadTrailer(t: string): Option<Reading> {
    var a, b := |BEFORE_COUNT|, |AFTER_COUNT|;
    if |t| < a + b || t[..a] != BEFORE_COUNT || t[|t| - b..] != AFTER_COUNT then None
    else
      var count := t[a..|t| - b];
      if AllDecimal(count) && Shortest(count) then Some(Reading([], Some(DecimalValue(count)))) else None
  }

  function Flatten(rows: seq<RowData>): Bytes {
    if rows == [] then [] else rows[0].bytes + Flatten(rows[1..])
  }

  // ----- reading what was printed -----

  /** The rows from row `k` on. */
  function RowsOf(data: Bytes, k: nat, printable: Printable): (rs: seq<RowData>)
    requires k <= RowCount(|data|)
    ensures |rs| == RowCount(|data|) - k
    decreases RowCount(|data|) - k
  {
    if k == RowCount(|data|) then []
    else [RowData(16 * k, Chunk(data, k), Alpha(Chunk(data, k), printable))] + RowsOf(data, k + 1, printable)
  }

  /** A letter shows its byte if that can be printed and is below 0xA0, and is a dot
      otherwise, and where there is no byte. */
  predicate LettersShow(letters: string, bytes: Bytes, printable: Printable) {
    && |letters| == 16 && |bytes| <= 16
    && (forall i | 0 <= i < |bytes| && printable(bytes[i]) && bytes[i] < 0xA0 :: letters[i] as int == bytes[i])
    && (forall i | 0 <= i < |bytes| && !(printable(bytes[i]) && bytes[i] < 0xA0) :: letters[i] == '.')
    && (forall i | |bytes| <= i < 16 :: letters[i] == '.')
  }

  function RowsFrom(data: Bytes, k: nat, indent: string, printable: Printable): string
    requires k <= RowCount(|data|)
    decreases RowCount(|data|) - k
  {
    if k == RowCount(|data|) then ""
    else Row(Chunk(data, k), 16 * k, indent, printable) + RowsFrom(data, k + 1, indent, printable)
  }

  lemma {:induction false} DumpIsRows(data: Bytes, k: nat, indent: string, printable: Printable)
    requires k <= RowCount(|data|)
    ensures Dump(data, indent, printable) == Rows(data, k, indent, printable) + RowsFrom(data, k, indent, printable)
    decreases RowCount(|data|) - k
  {
    hide Row, RowCount, Chunk;
    if k < RowCount(|data|) {
      DumpIsRows(data, k + 1, indent, printable);
    }
  }

  lemma AlphaShows(bs: Bytes, printable: Printable)
    requires |bs| <= HEXDUMP_ROW_LEN
    ensures LettersShow(Alpha(bs, printable), bs, printable)
  {
  }

  /** Every row is at a multiple of 16, holds 16 bytes or, the last one, what is left, and
      shows them, and together they hold each byte once and in order. */
  lemma {:induction false} RowsAre(data: Bytes, k: nat, printable: Printable)
    requires k <= RowCount(|data|)
    ensures var rs := RowsOf(data, k, printable);
      && (forall i | 0 <= i < |rs| :: rs[i].offset == 16 * (k + i) && 0 < |rs[i].bytes| <= 16)
      && (forall i | 0 <= i < |rs| :: LettersShow(rs[i].letters, rs[i].bytes, printable))
      && (forall i | 0 <= i < |rs| - 1 :: |rs[i].bytes| == 16)
      && (16 * k <= |data| ==> Flatten(rs) == data[16 * k..])
    decreases RowCount(|data|) - k
  {
    hide LettersShow, Alpha;
    if k < RowCount(|data|) {
      RowsAre(data, k + 1, printable);
      AlphaShows(Chunk(data, k), printable);
      var rs, more := RowsOf(data, k, printable), RowsOf(data, k + 1, printable);
      forall i | 0 <= i < |rs|
        ensures rs[i].offset == 16 * (k + i) && 0 < |rs[i].bytes| <= 16
        ensures LettersShow(rs[i].letters, rs[i].bytes, printable)
      {
        if i > 0 { assert rs[i] == more[i - 1]; }
      }
      assert rs[1..] == more;
      if 16 * (k + 1) <= |data| {
        assert Chunk(data, k) + data[16 * (k + 1)..] == data[16 * k..];
      }
    }
  }

  lemma {:induction false} HexIs(v: nat, n: nat, upper: bool)
    ensures DigitsOf(Hex(v, n, upper), upper)
  {
    if n > 0 {
      HexIs(v / 16, n - 1, upper);
      DigitIs(v % 16, upper);
    }
  }

  lemma ByteBack(b: u8)
    ensures var s := Hex(b, 2, false);
      IsDigit(s[0]) && IsDigit(s[1]) && DigitValue(s[0]) * 16 + DigitValue(s[1]) == b
  {
    DigitBack(b / 16, false);
    DigitBack(b % 16, false);
    assert Hex(b, 2, false) == Hex(b / 16, 1, false) + [Digit(b % 16, false)];
    assert Hex(b / 16, 1, false) == Hex(b / 16 / 16, 0, false) + [Digit(b / 16 % 16, false)];
  }

  lemma ByteDigits(b: u8)
    ensures var s := Hex(b, 2, false);
      && DigitOf(s[0], false) && DigitOf(s[1], false) && IsDigit(s[0]) && IsDigit(s[1])
      && DigitValue(s[0]) * 16 + DigitValue(s[1]) == b
  {
    ByteBack(b);
    HexIs(b, 2, false);
  }

  /** A cell is its blanks and its digits. */
  lemma CellIs(b: u8, j: nat, u: string)
    ensures var s, gap := Hex(b, 2, false), if j % HEXDUMP_COL_LEN == 0 then 1 else 0;
      var t := Cell(b, j) + u;
      && |t| >= gap + 3 && Blanks(t, gap + 1) && t[gap + 1] == s[0] && t[gap + 2] == s[1] && t[gap + 3..] == u
  {
    hide Hex;
  }

  lemma CellBack(b: u8, j: nat, u: string, bs: Bytes, tail: string)
    requires j < HEXDUMP_ROW_LEN && ReadCells(u, j + 1) == Some((bs, tail))
    ensures ReadCells(Cell(b, j) + u, j) == Some(([b] + bs, tail))
  {
    hide Hex, DigitValue, IsDigit, DigitOf, Cell, Blanks;
    ByteDigits(b);
    CellIs(b, j, u);
  }

  lemma PadsBack(j: nat, tail: string)
    requires j <= HEXDUMP_ROW_LEN
    ensures ReadCells(Pads(HEXDUMP_ROW_LEN - j) + tail, j) == Some(([], tail))
  {
    var t := Pads(HEXDUMP_ROW_LEN - j) + tail;
    if j < HEXDUMP_ROW_LEN {
      assert t[1] == t[2] == ' ';
      var gap := if j % HEXDUMP_COL_LEN == 0 then 1 else 0;
      assert t[gap + 1] == ' ';
      assert t[3 * (HEXDUMP_ROW_LEN - j)..] == tail;
    } else {
      assert t == tail;
    }
  }

  lemma {:induction false} CellsBack(bs: Bytes, j: nat, tail: string)
    requires j <= |bs| <= HEXDUMP_ROW_LEN
    ensures ReadCells(Cells(bs, j) + Pads(HEXDUMP_ROW_LEN - |bs|) + tail, j) == Some((bs[j..], tail))
    decreases |bs| - j
  {
    hide Cell, Pads, ReadCells;
    var pads := Pads(HEXDUMP_ROW_LEN - |bs|);
    if j < |bs| {
      CellsBack(bs, j + 1, tail);
      CellBack(bs[j], j, Cells(bs, j + 1) + pads + tail, bs[j + 1..], tail);
      assert Cells(bs, j) + pads + tail == Cell(bs[j], j) + (Cells(bs, j + 1) + pads + tail);
      assert bs[j..] == [bs[j]] + bs[j + 1..];
    } else {
      PadsBack(j, tail);
      assert Cells(bs, j) + pads + tail == pads + tail;
    }
  }

  lemma Pow16Eight()
    ensures Pow16(8) == WORD32
  {
  }

  lemma LettersBack(alpha: string, tail: string)
    requires |alpha| == HEXDUMP_ROW_LEN
    ensures ReadLetters("\t|" + alpha + "|\n" + tail) == Some((alpha, tail))
  {
    var t := "\t|" + alpha + "|\n" + tail;
    assert t[..2] == "\t|" && t[2..] == alpha + "|\n" + tail;
    assert t[2..][..16] == alpha && t[2..][16..] == "|\n" + tail;
    assert t[2..][16..][..2] == "|\n" && t[2..][16..][2..] == tail;
  }

  /** A row without its indent. */
  function BareRow(bs: Bytes, offset: nat, printable: Printable): string
    requires |bs| <= HEXDUMP_ROW_LEN
  {
    Hex(offset, 8, true) + Cells(bs, 0) + Pads(HEXDUMP_ROW_LEN - |bs|) + "\t|" + Alpha(bs, printable) + "|\n"
  }

  lemma RowIs(bs: Bytes, offset: nat, indent: string, printable: Printable)
    requires |bs| <= HEXDUMP_ROW_LEN
    ensures Row(bs, offset, indent, printable) == indent + BareRow(bs, offset, printable)
  {
    hide Hex, Cells, Pads, Alpha;
  }

  lemma RowBack(bs: Bytes, offset: u32, printable: Printable, tail: string)
    requires |bs| <= HEXDUMP_ROW_LEN
    ensures ReadRow(BareRow(bs, offset, printable) + tail) == Some((RowData(offset, bs, Alpha(bs, printable)), tail))
    ensures BareRow(bs, offset, printable)[0] != '<'
  {
    hide Hex, Cells, Pads, Alpha, ReadCells, ReadLetters, HexValue, Pow16;
    Pow16Eight();
    HexBack(offset, 8, true);
    HexIs(offset, 8, true);
    var h, end := Hex(offset, 8, true), "\t|" + Alpha(bs, printable) + "|\n" + tail;
    var cells := Cells(bs, 0) + Pads(HEXDUMP_ROW_LEN - |bs|) + end;
    var t := BareRow(bs, offset, printable) + tail;
    assert t == h + cells;
    assert t[..8] == h && t[8..] == cells;
    CellsBack(bs, 0, end);
    assert bs[0..] == bs;
    LettersBack(Alpha(bs, printable), tail);
    assert BareRow(bs, offset, printable)[0] == h[0] && DigitOf(h[0], true);
  }

  lemma AfterBack(start: string, t: string)
    ensures After(start + t, start) == Some(t)
  {
    assert (start + t)[..|start|] == start && (start + t)[|start|..] == t;
  }

  lemma LineBack(bs: Bytes, offset: u32, indent: string, printable: Printable, tail: string, more: Reading)
    requires |bs| <= HEXDUMP_ROW_LEN && ReadDump(tail, indent) == Some(more)
    ensures ReadDump(Row(bs, offset, indent, printable) + tail, indent)
         == Some(Reading([RowData(offset, bs, Alpha(bs, printable))] + more.rows, more.zeros))
  {
    hide BareRow, Row, ReadRow, ReadTrailer, After, Alpha;
    RowIs(bs, offset, indent, printable);
    RowBack(bs, offset, printable, tail);
    var u := BareRow(bs, offset, printable) + tail;
    assert Row(bs, offset, indent, printable) + tail == indent + u;
    AfterBack(indent, u);
    assert u[0] == BareRow(bs, offset, printable)[0];
  }

  /** Reading rows that are followed by `tail`. */
  lemma {:induction false} RowsBack(data: Bytes, k: nat, indent: string, printable: Printable, tail: string,
                                    zeros: Option<nat>)
    requires |data| < WORD32 && k <= RowCount(|data|)
    requires ReadDump(tail, indent) == Some(Reading([], zeros))
    ensures ReadDump(RowsFrom(data, k, indent, printable) + tail, indent)
         == Some(Reading(RowsOf(data, k, printable), zeros))
    decreases RowCount(|data|) - k
  {
    hide Row, ReadRow, ReadTrailer, Chunk, ReadDump, Alpha;
    if k == RowCount(|data|) {
      assert RowsFrom(data, k, indent, printable) + tail == tail;
    } else {
      RowsBack(data, k + 1, indent, printable, tail, zeros);
      var more := RowsFrom(data, k + 1, indent, printable) + tail;
      LineBack(Chunk(data, k), 16 * k, indent, printable, more, Reading(RowsOf(data, k + 1, printable), zeros));
      assert RowsFrom(data, k, indent, printable) + tail == Row(Chunk(data, k), 16 * k, indent, printable) + more;
    }
  }

  /** A dump is read back as its rows, and the rows are the input. */
  lemma DumpBack(data: Bytes, indent: string, printable: Printable)
    requires |data| < WORD32
    ensures ReadDump(Dump(data, indent, printable), indent) == Some(Reading(RowsOf(data, 0, printable), None))
    ensures Flatten(RowsOf(data, 0, printable)) == data
  {
    hide ReadDump, RowsOf, RowsFrom, Row;
    DumpIsRows(data, 0, indent, printable);
    assert ReadDump("", indent) == Some(Reading([], None)) by { EmptyBack(indent); }
    RowsBack(data, 0, indent, printable, "", None);
    assert Dump(data, indent, printable) == RowsFrom(data, 0, indent, printable) + "";
    RowsAre(data, 0, printable);
    assert data[0..] == data;
  }

  lemma EmptyBack(indent: string)
    ensures ReadDump("", indent) == Some(Reading([], None))
  {
  }

  // ----- the trimmed dump -----

  /** Bytes up to the last one that is not zero. */
  function TrimSize(data: Bytes): (n: nat)
    ensures n <= |data|
  {
    if data == [] then 0 else if data[|data| - 1] != 0 then |data| else TrimSize(data[..|data| - 1])
  }

  lemma {:induction false} TrimIs(data: Bytes, n: nat)
    requires n <= |data| && (forall i | n <= i < |data| :: data[i] == 0) && (n > 0 ==> data[n - 1] != 0)
    ensures TrimSize(data) == n
  {
    if n < |data| { TrimIs(data[..|data| - 1], n); }
  }

  /** How many bytes are dumped: an input of zeros only is dumped whole. */
  function DumpedSize(data: Bytes, trimming: bool): (n: nat)
    ensures n <= |data|
  {
    if !trimming || TrimSize(data) == 0 then |data| else TrimSize(data)
  }

  function Trailer(indent: string, zeros: nat): string {
    indent + BEFORE_COUNT + Decimal(zeros) + AFTER_COUNT
  }

  function TrimmedDump(data: Bytes, indent: string, printable: Printable, trimming: bool): string {
    var n := DumpedSize(data, trimming);
    Dump(data[..n], indent, printable)
    + if trimming && TrimSize(data) > 0 then Trailer(indent, |data| - n) else ""
  }

  /** `panwrap_log_hexdump_trimmed`, with `size_t` and `off_t` of 32 bits. */
  method HexdumpTrimmed(data: Option<Bytes>, indent: string, printable: Printable, enabled: bool) returns (out: string)
    requires data.Some? ==> |data.value| <= 0x8000_0000
    ensures out == match data case None => NULL_MESSAGE case Some(d) => TrimmedDump(d, indent, printable, enabled)
  {
    hide Dump, Decimal;
    var trimming := false;
    var trimSize: nat := if data.Some? then |data.value| else 0;
    if enabled {
      if data == None {
        return NULL_MESSAGE;
      }
      var d := data.value;
      var trimOffset: int := |d| - 1;
      while trimOffset != -1
        invariant -1 <= trimOffset < |d| && forall i | trimOffset < i < |d| :: d[i] == 0
      {
        if d[trimOffset] != 0 {
          break;
        }
        trimOffset := trimOffset - 1;
      }
      TrimIs(d, trimOffset + 1);
      if trimOffset >= 0 {
        trimming := true;
        trimSize := trimOffset + 1;
      }
    }
    if data == None {
      out := HexdumpTo(None, indent, printable);
      return;
    }
    out := HexdumpTo(Some(data.value[..trimSize]), indent, printable);
    if trimming {
      out := out + (indent + BEFORE_COUNT + Decimal(|data.value| - trimSize) + AFTER_COUNT);
    }
  }

  /** What is left out is zeros, as many as the last line says; the last byte dumped is
      not zero if anything was trimmed; and zeros alone are dumped whole. */
  lemma {:induction false} TrimmedIsAll(data: Bytes, trimming: bool)
    ensures var n := DumpedSize(data, trimming);
      && data[..n] + Zeros(|data| - n) == data
      && (n < |data| ==> n > 0 && data[n - 1] != 0)
      && ((forall i | 0 <= i < |data| :: data[i] == 0) ==> n == |data|)
  {
    TrimStops(data);
    var n := DumpedSize(data, trimming);
    assert data[n..] == Zeros(|data| - n);
  }

  lemma {:induction false} TrimStops(data: Bytes)
    ensures var n := TrimSize(data);
      (forall i | n <= i < |data| :: data[i] == 0) && (n > 0 ==> data[n - 1] != 0)
  {
    if data != [] && data[|data| - 1] == 0 { TrimStops(data[..|data| - 1]); }
  }

  lemma Middle(a: string, b: string, c: string)
    ensures var s := a + b + c; s[..|a|] == a && s[|a|..|s| - |c|] == b && s[|s| - |c|..] == c
  {
  }

  lemma CountBack(zeros: nat)
    ensures ReadTrailer(BEFORE_COUNT + Decimal(zeros) + AFTER_COUNT) == Some(Reading([], Some(zeros)))
  {
    hide Decimal, DecimalValue, AllDecimal, Shortest;
    DecimalBack(zeros);
    DecimalShortest(zeros);
    Middle(BEFORE_COUNT, Decimal(zeros), AFTER_COUNT);
  }

  lemma TrailerRead(indent: string, u: string)
    requires u != "" && u[0] == '<'
    ensures ReadDump(indent + u, indent) == ReadTrailer(u)
  {
    hide ReadRow, ReadTrailer, After;
    AfterBack(indent, u);
  }

  lemma Joined(a: string, b: string, c: string, d: string)
    ensures a + b + c + d == a + (b + c + d)
  {
  }

  lemma TrailerBack(indent: string, zeros: nat)
    ensures ReadDump(Trailer(indent, zeros), indent) == Some(Reading([], Some(zeros)))
  {
    hide Decimal, ReadDump, ReadTrailer;
    CountBack(zeros);
    var u := BEFORE_COUNT + Decimal(zeros) + AFTER_COUNT;
    Joined(indent, BEFORE_COUNT, Decimal(zeros), AFTER_COUNT);
    assert u[0] == BEFORE_COUNT[0];
    TrailerRead(indent, u);
  }

  /** Nothing is lost: the reader gets the whole input back from a trimmed dump.  The line
      for the zeros is there exactly if trimming is on and some byte is not zero, even if
      it has none to tell of. */
  lemma TrimmedBack(data: Bytes, indent: string, printable: Printable, trimming: bool)
    requires |data| < WORD32
    ensures var r := ReadDump(TrimmedDump(data, indent, printable, trimming), indent);
      && r.Some? && Flatten(r.value.rows) + Zeros(if r.value.zeros == None then 0 else r.value.zeros.value) == data
      && (r.value.zeros == None <==> !trimming || forall i | 0 <= i < |data| :: data[i] == 0)
  {
    hide ReadDump, RowsOf, RowsFrom, Row, Trailer, Dump, Rows, Flatten, TrimSize;
    var n := DumpedSize(data, trimming);
    var kept, trimmed := data[..n], trimming && TrimSize(data) > 0;
    EmptyBack(indent);
    TrailerBack(indent, |data| - n);
    TrimmedIsAll(data, trimming);
    TrimStops(data);
    RowsBack(kept, 0, indent, printable, if trimmed then Trailer(indent, |data| - n) else "",
             if trimmed then Some(|data| - n) else None);
    DumpBack(kept, indent, printable);
    FromStart(kept, indent, printable);
  }

  lemma FromStart(data: Bytes, indent: string, printable: Printable)
    ensures Dump(data, indent, printable) == RowsFrom(data, 0, indent, printable)
  {
    DumpIsRows(data, 0, indent, printable);
  }
}
