/** Printing a word of flags by name. */
module Flags {

  import opened Hexdump

  type Word = bv64

  datatype FlagInfo = FlagInfo(flag: Word, name: string)

  /** The bits of `flag` are all set in `flags`. */
  predicate Includes(flags: Word, flag: Word) {
    flags & flag == flag
  }

  predicate Disjoint(a: Word, b: Word) {
    a & b == 0
  }

  function Join(a: Word, b: Word): Word {
    a | b
  }

  function Without(flags: Word, flag: Word): Word {
    flags & !flag
  }

  /** The entries printed from `k` on, in order, and what is then left of `flags`. */
  function Decoded(table: seq<FlagInfo>, flags: Word, k: nat): (r: (seq<nat>, Word))
    requires k <= |table|
    decreases |table| - k
  {
    if k == |table| then ([], flags)
    else if !Includes(flags, table[k].flag) then Decoded(table, flags, k + 1)
    else
      var rest := Decoded(table, Without(flags, table[k].flag), k + 1);
      ([k] + rest.0, rest.1)
  }

  ghost predicate Indices(table: seq<FlagInfo>, ks: seq<nat>) {
    forall i | 0 <= i < |ks| :: ks[i] < |table|
  }

  /** The bits of the printed entries together. */
  ghost function Union(table: seq<FlagInfo>, ks: seq<nat>): Word
    requires Indices(table, ks)
  {
    if ks == [] then 0 else Join(table[ks[0]].flag, Union(table, ks[1..]))
  }

  // ----- on single words -----

  /** One entry taken out of the word. */
  lemma TakeOut(flags: Word, flag: Word, rest: Word, printed: Word)
    requires Includes(flags, flag) && Join(printed, rest) == Without(flags, flag) && Disjoint(printed, rest)
    ensures Join(Join(flag, printed), rest) == flags && Disjoint(Join(flag, printed), rest)
    ensures Disjoint(flag, printed) && Disjoint(flag, rest)
  {
    hide Join, Disjoint, Includes, Without;
    TakenJoin(flags, flag, rest, printed);
    TakenApart(flags, flag, rest, printed);
    TakenDisjoint(flags, flag, rest, printed);
  }

  lemma TakenJoin(flags: Word, flag: Word, rest: Word, printed: Word)
    requires Includes(flags, flag) && Join(printed, rest) == Without(flags, flag)
    ensures Join(Join(flag, printed), rest) == flags
  {
    assert flag | (printed | rest) == flag | (flags & !flag);
  }

  lemma TakenDisjoint(flags: Word, flag: Word, rest: Word, printed: Word)
    requires Includes(flags, flag) && Join(printed, rest) == Without(flags, flag)
    ensures Disjoint(flag, printed) && Disjoint(flag, rest)
  {
    assert flag & (printed | rest) == 0;
  }

  lemma TakenApart(flags: Word, flag: Word, rest: Word, printed: Word)
    requires Includes(flags, flag) && Join(printed, rest) == Without(flags, flag) && Disjoint(printed, rest)
    ensures Disjoint(Join(flag, printed), rest)
  {
    assert flag & (printed | rest) == 0;
  }

  lemma StillIncludes(x: Word, y: Word, f: Word)
    ensures Includes(x, f) ==> Includes(Join(y, x), f)
    ensures Includes(Join(f, y), f)
  {
  }

  lemma PartDisjoint(f: Word, part: Word, whole: Word)
    requires Disjoint(f, whole) && Includes(whole, part)
    ensures Disjoint(f, part)
  {
  }

  lemma NothingTaken(flags: Word, f: Word, g: Word)
    ensures g != 0 ==> !Includes(Without(flags, g), g)
    ensures !Includes(flags, f) ==> !Includes(Without(flags, g), f)
    ensures Join(0, flags) == flags && Disjoint(0, flags)
  {
  }

  // ----- on tables -----

  /** The printed masks and the residual partition the word: together they are the
      word, and no bit is in two of them, whether or not the table's masks overlap. */
  lemma {:induction false} DecodedPartitions(table: seq<FlagInfo>, flags: Word, k: nat)
    requires k <= |table|
    ensures var (ks, rest) := Decoded(table, flags, k);
      && Indices(table, ks) && (forall i | 0 <= i < |ks| :: k <= ks[i])
      && (forall i, j | 0 <= i < j < |ks| :: ks[i] < ks[j])
      && Join(Union(table, ks), rest) == flags && Disjoint(Union(table, ks), rest)
      && (forall i | 0 <= i < |ks| :: Disjoint(table[ks[i]].flag, rest))
      && (forall i, j | 0 <= i < j < |ks| :: Disjoint(table[ks[i]].flag, table[ks[j]].flag))
    decreases |table| - k
  {
    hide Includes, Join, Disjoint, Without;
    NothingTaken(flags, 0, 0);
    if k < |table| {
      var f := table[k].flag;
      if !Includes(flags, f) {
        DecodedPartitions(table, flags, k + 1);
      } else {
        DecodedPartitions(table, Without(flags, f), k + 1);
        var (ks, rest) := Decoded(table, Without(flags, f), k + 1);
        TakeOut(flags, f, rest, Union(table, ks));
        DisjointParts(table, ks, f);
        Prepended(table, ks, rest, k);
      }
    }
  }

  /** A printed entry put in front of the later ones. */
  lemma Prepended(table: seq<FlagInfo>, ks: seq<nat>, rest: Word, k: nat)
    requires k < |table| && Indices(table, ks) && forall j | 0 <= j < |ks| :: Disjoint(table[k].flag, table[ks[j]].flag)
    requires Disjoint(table[k].flag, rest) && forall i | 0 <= i < |ks| :: Disjoint(table[ks[i]].flag, rest)
    requires forall i, j | 0 <= i < j < |ks| :: Disjoint(table[ks[i]].flag, table[ks[j]].flag)
    ensures var all := [k] + ks;
      && Indices(table, all) && Union(table, all) == Join(table[k].flag, Union(table, ks))
      && (forall i | 0 <= i < |all| :: Disjoint(table[all[i]].flag, rest))
      && (forall i, j | 0 <= i < j < |all| :: Disjoint(table[all[i]].flag, table[all[j]].flag))
  {
    hide Join, Disjoint;
    var all := [k] + ks;
    assert all[1..] == ks;
    forall i | 0 <= i < |all| ensures Disjoint(table[all[i]].flag, rest) {
      if i > 0 { assert all[i] == ks[i - 1]; }
    }
    forall i, j | 0 <= i < j < |all| ensures Disjoint(table[all[i]].flag, table[all[j]].flag) {
      assert all[j] == ks[j - 1];
      if i > 0 { assert all[i] == ks[i - 1]; }
    }
  }

  lemma {:induction false} DisjointParts(table: seq<FlagInfo>, ks: seq<nat>, f: Word)
    requires Indices(table, ks) && Disjoint(f, Union(table, ks))
    ensures forall j | 0 <= j < |ks| :: Disjoint(f, table[ks[j]].flag)
  {
    hide Includes, Join, Disjoint;
    forall j | 0 <= j < |ks| ensures Disjoint(f, table[ks[j]].flag) {
      InUnion(table, ks, j);
      PartDisjoint(f, table[ks[j]].flag, Union(table, ks));
    }
  }

  lemma {:induction false} InUnion(table: seq<FlagInfo>, ks: seq<nat>, j: nat)
    requires Indices(table, ks) && j < |ks|
    ensures Includes(Union(table, ks), table[ks[j]].flag)
  {
    hide Includes, Join;
    StillIncludes(Union(table, ks[1..]), table[ks[0]].flag, table[ks[j]].flag);
    StillIncludes(0, Union(table, ks[1..]), table[ks[0]].flag);
    if j > 0 { InUnion(table, ks[1..], j - 1); }
  }

  function Considered(flags: Word, flag: Word): Word {
    if Includes(flags, flag) then Without(flags, flag) else flags
  }

  /** No flag of the table is left in the residual in full. */
  lemma {:induction false} NothingLeft(table: seq<FlagInfo>, flags: Word, k: nat, j: nat)
    requires k <= j < |table| && table[j].flag != 0
    ensures !Includes(Decoded(table, flags, k).1, table[j].flag)
    decreases |table| - k
  {
    hide Includes, Without;
    var f := table[k].flag;
    if k < j {
      NothingLeft(table, Considered(flags, f), k + 1, j);
    } else {
      NothingTaken(flags, f, f);
      RestShrinks(table, Considered(flags, f), k + 1, f);
    }
  }

  lemma {:induction false} RestShrinks(table: seq<FlagInfo>, flags: Word, k: nat, f: Word)
    requires k <= |table| && !Includes(flags, f)
    ensures !Includes(Decoded(table, flags, k).1, f)
    decreases |table| - k
  {
    hide Includes, Without;
    if k < |table| {
      NothingTaken(flags, f, table[k].flag);
      RestShrinks(table, Considered(flags, table[k].flag), k + 1, f);
    }
  }

  /** What is left of the word before entry `j` is considered. */
  function LeftBefore(table: seq<FlagInfo>, flags: Word, j: nat): Word
    requires j <= |table|
  {
    if j == 0 then flags else Considered(LeftBefore(table, flags, j - 1), table[j - 1].flag)
  }

  lemma DecodedLater(table: seq<FlagInfo>, flags: Word, k: nat, j: nat)
    requires j < k <= |table|
    ensures j !in Decoded(table, flags, k).0
  {
    hide Includes, Without, Disjoint, Join, Decoded, Union;
    DecodedPartitions(table, flags, k);
  }

  lemma DecodedFirst(table: seq<FlagInfo>, flags: Word, k: nat, j: nat)
    requires k < |table|
    ensures j in Decoded(table, flags, k).0
       <==> (j == k && Includes(flags, table[k].flag)) || j in Decoded(table, Considered(flags, table[k].flag), k + 1).0
  {
    hide Includes, Without;
  }

  /** An entry is printed exactly if all its bits are set and none was taken by an
      entry before it. */
  lemma {:induction false} PrintedIff(table: seq<FlagInfo>, flags: Word, k: nat, j: nat)
    requires k <= |table| && k <= j < |table|
    ensures j in Decoded(table, LeftBefore(table, flags, k), k).0
            <==> Includes(LeftBefore(table, flags, j), table[j].flag)
    decreases |table| - k
  {
    hide Includes, Without, Disjoint, Join;
    var left, next := LeftBefore(table, flags, k), LeftBefore(table, flags, k + 1);
    DecodedLater(table, next, k + 1, k);
    DecodedFirst(table, left, k, j);
    if k < j { PrintedIff(table, flags, k + 1, j); }
  }

  // ----- the text -----

  function HexNumber(v: nat): string {
    if v < 16 then [Digit(v, false)] else HexNumber(v / 16) + [Digit(v % 16, false)]
  }

  function Listing(table: seq<FlagInfo>, ks: seq<nat>, first: bool): string
    requires forall i | 0 <= i < |ks| :: ks[i] < |table|
  {
    if ks == [] then "" else (if first then " (" else " | ") + table[ks[0]].name + Listing(table, ks[1..], false)
  }

  function Closing(found: bool, rest: Word): string {
    if found then (if rest != 0 then " | 0x" + HexNumber(rest as nat) else "") + ")" else ""
  }

  /** What is printed from entry `k` on. */
  function Text(table: seq<FlagInfo>, flags: Word, k: nat, found: bool): string
    requires k <= |table|
    decreases |table| - k
  {
    if k == |table| then Closing(found, flags)
    else if !Includes(flags, table[k].flag) then Text(table, flags, k + 1, found)
    else (if found then " | " else " (") + table[k].name + Text(table, Without(flags, table[k].flag), k + 1, true)
  }

  /** The text lists exactly the decoded entries, and the residual if there is one. */
  lemma {:induction false} TextIs(table: seq<FlagInfo>, flags: Word, k: nat, found: bool)
    requires k <= |table|
    ensures var (ks, rest) := Decoded(table, flags, k);
      && (forall i | 0 <= i < |ks| :: ks[i] < |table|)
      && Text(table, flags, k, found) == Listing(table, ks, !found) + Closing(found || ks != [], rest)
    decreases |table| - k
  {
    hide Includes, Without, Closing;
    if k < |table| {
      var f := table[k].flag;
      if !Includes(flags, f) {
        TextIs(table, flags, k + 1, found);
      } else {
        TextIs(table, Without(flags, f), k + 1, true);
        var ks := Decoded(table, Without(flags, f), k + 1).0;
        assert ([k] + ks)[1..] == ks;
      }
    }
  }

  lemma TextStep(table: seq<FlagInfo>, flags: Word, k: nat, found: bool)
    requires k < |table|
    ensures Text(table, flags, k, found)
         == if !Includes(flags, table[k].flag) then Text(table, flags, k + 1, found)
            else (if found then " | " else " (") + table[k].name
                 + Text(table, Without(flags, table[k].flag), k + 1, true)
  {
    hide Includes, Without, Closing;
  }

  /** `panwrap_log_decoded_flags`. */
  method LogDecodedFlags(table: seq<FlagInfo>, word: Word) returns (out: string)
    ensures out == "0x" + HexNumber(word as nat) + Text(table, word, 0, false)
  {
    hide Text, Includes, Without, HexNumber;
    var flags := word;
    var found := false;
    out := "0x" + HexNumber(flags as nat);
    ghost var goal := out + Text(table, word, 0, false);
    for i := 0 to |table|
      invariant out + Text(table, flags, i, found) == goal
    {
      TextStep(table, flags, i, found);
      ghost var before := out;
      if !Includes(flags, table[i].flag) {
        continue;
      }
      var separator := if found then " | " else " (";
      found := true;
      out := out + separator + table[i].name;
      flags := Without(flags, table[i].flag);
      assert before + (separator + table[i].name + Text(table, flags, i + 1, true))
          == out + Text(table, flags, i + 1, true);
    }
    assert Text(table, flags, |table|, found) == Closing(found, flags) by { TextEnd(table, flags, found); }
    if found {
      if flags != 0 {
        out := out + (" | 0x" + HexNumber(flags as nat));
      }
      out := out + ")";
    }
  }

  lemma TextEnd(table: seq<FlagInfo>, flags: Word, found: bool)
    ensures Text(table, flags, |table|, found) == Closing(found, flags)
  {
  }
}
