/** Getting the word, the names and the residual back out of printed flags. */
module FlagsReader {
  import opened Options
  import opened Hexdump
  import opened Flags

  // ----- the reader -----

  /** The first characters of `s` up to a blank or a closing parenthesis. */
  function Token(s: string): (t: string)
    ensures |t| <= |s| && s[..|t|] == t
  {
    if s == "" || s[0] == ' ' || s[0] == ')' then "" else [s[0]] + Token(s[1..])
  }

  /** Items separated by " | " up to a closing parenthesis. */
  function ReadItems(s: string): Option<seq<string>>
    decreases |s|
  {
    var t := Token(s);
    var rest := s[|t|..];
    if rest == ")" then Some([t])
    else if |rest| >= 3 && rest[..3] == " | " then
      match ReadItems(rest[3..])
      case None => None
      case Some(more) => Some([t] + more)
    else None
  }

  predicate IsNumber(t: string) {
    |t| > 2 && t[..2] == "0x" && AllDigits(t[2..]) && DigitsOf(t[2..], false) && Shortest(t[2..])
  }

  function Number(t: string): nat
    requires IsNumber(t)
  {
    HexValue(t[2..])
  }

  datatype FlagsRead = FlagsRead(word: nat, names: seq<string>, rest: nat)

  /** A last item that is a number is the residual. */
  function SplitItems(word: nat, items: seq<string>): FlagsRead {
    if items != [] && IsNumber(items[|items| - 1]) then
      FlagsRead(word, items[..|items| - 1], Number(items[|items| - 1]))
    else FlagsRead(word, items, 0)
  }

  function ReadFlags(s: string): Option<FlagsRead> {
    var t := Token(s);
    if !IsNumber(t) then None
    else
      var rest := s[|t|..];
      if rest == "" then Some(FlagsRead(Number(t), [], Number(t)))
      else if |rest| >= 2 && rest[..2] == " (" then
        match ReadItems(rest[2..])
        case None => None
        case Some(items) => Some(SplitItems(Number(t), items))
      else None
  }

  // ----- numbers -----

  lemma {:induction false} NumberBack(v: nat)
    ensures AllDigits(HexNumber(v)) && HexNumber(v) != "" && HexValue(HexNumber(v)) == v
    ensures DigitsOf(HexNumber(v), false) && Shortest(HexNumber(v)) && (v > 0 ==> HexNumber(v)[0] != '0')
  {
    var s := HexNumber(v);
    DigitIs(v % 16, false);
    if v < 16 {
      DigitBack(v, false);
      assert s[..|s| - 1] == "";
    } else {
      NumberBack(v / 16);
      DigitBack(v % 16, false);
      assert s[..|s| - 1] == HexNumber(v / 16);
    }
  }

  predicate Plain(t: string) {
    forall i | 0 <= i < |t| :: t[i] != ' ' && t[i] != ')'
  }

  lemma {:induction false} TokenBack(t: string, rest: string)
    requires Plain(t) && (rest == "" || rest[0] == ' ' || rest[0] == ')')
    ensures Token(t + rest) == t && (t + rest)[|t|..] == rest
  {
    if t != "" {
      TokenBack(t[1..], rest);
      assert (t + rest)[1..] == t[1..] + rest;
    } else {
      assert t + rest == rest;
    }
  }

  lemma HexItem(v: nat)
    ensures IsNumber("0x" + HexNumber(v)) && Number("0x" + HexNumber(v)) == v && Plain("0x" + HexNumber(v))
  {
    hide HexNumber, HexValue, DigitOf, Shortest;
    NumberBack(v);
    var t := "0x" + HexNumber(v);
    assert t[2..] == HexNumber(v);
    forall i | 0 <= i < |t| ensures t[i] != ' ' && t[i] != ')' {
      if i >= 2 { assert IsDigit(t[2..][i - 2]); }
    }
  }

  // ----- the items of a listing -----

  /** A table's names are identifiers. */
  predicate IsName(n: string) {
    n != "" && Plain(n) && n[0] != '0'
  }

  /** The items as text. */
  function Items(items: seq<string>): string
    requires items != []
  {
    if |items| == 1 then items[0] + ")" else items[0] + " | " + Items(items[1..])
  }

  lemma {:induction false} ItemsBack(items: seq<string>)
    requires items != [] && forall i | 0 <= i < |items| :: Plain(items[i])
    ensures ReadItems(Items(items)) == Some(items)
  {
    hide Plain, Token;
    if |items| == 1 {
      TokenBack(items[0], ")");
      assert items == [items[0]];
    } else {
      var more := items[1..];
      forall i | 0 <= i < |more| ensures Plain(more[i]) { assert more[i] == items[i + 1]; }
      ItemsBack(more);
      ItemBack(items[0], Items(more), more);
      assert Items(items) == items[0] + (" | " + Items(more));
      assert [items[0]] + more == items;
    }
  }

  lemma ItemBack(t: string, s: string, more: seq<string>)
    requires Plain(t) && ReadItems(s) == Some(more)
    ensures ReadItems(t + (" | " + s)) == Some([t] + more)
  {
    hide Plain, Token;
    TokenBack(t, " | " + s);
    assert (" | " + s)[..3] == " | " && (" | " + s)[3..] == s;
  }

  function Names(table: seq<FlagInfo>, ks: seq<nat>): (ns: seq<string>)
    requires Indices(table, ks)
    ensures |ns| == |ks|
  {
    seq(|ks|, i requires 0 <= i < |ks| => table[ks[i]].name)
  }

  /** What stands in the parentheses. */
  function Listed(table: seq<FlagInfo>, ks: seq<nat>, rest: Word): seq<string>
    requires Indices(table, ks)
  {
    Names(table, ks) + if rest != 0 then ["0x" + HexNumber(rest as nat)] else []
  }

  lemma {:induction false} ItemsAfter(table: seq<FlagInfo>, ks: seq<nat>, tail: seq<string>, close: string, first: bool)
    requires ks != [] && Indices(table, ks)
    requires close == if tail == [] then ")" else " | " + Items(tail)
    ensures Listing(table, ks, first) + close == (if first then " (" else " | ") + Items(Names(table, ks) + tail)
  {
    var name, more, pre := table[ks[0]].name, ks[1..], if first then " (" else " | ";
    var rest := Names(table, more) + tail;
    assert Names(table, ks) + tail == [name] + rest && (more == [] ==> Listing(table, more, false) == "");
    assert Listing(table, ks, first) == pre + name + Listing(table, more, false);
    hide Items, Names, Listing;
    ItemsCons(name, rest);
    Regroup(pre, name, Listing(table, more, false), close);
    if more == [] {
      assert rest == tail;
      assert Listing(table, more, false) + close == close;
    } else {
      ItemsAfter(table, more, tail, close, false);
    }
  }

  lemma Regroup(pre: string, name: string, rest: string, close: string)
    ensures pre + name + rest + close == pre + (name + (rest + close))
  {
  }

  lemma ItemsCons(name: string, rest: seq<string>)
    ensures Items([name] + rest) == name + if rest == [] then ")" else " | " + Items(rest)
  {
    assert ([name] + rest)[1..] == rest;
  }

  lemma ListingIs(table: seq<FlagInfo>, ks: seq<nat>, rest: Word)
    requires ks != [] && Indices(table, ks)
    ensures Listing(table, ks, true) + Closing(true, rest) == " (" + Items(Listed(table, ks, rest))
  {
    hide HexNumber, Listing, Names;
    var tail := if rest != 0 then ["0x" + HexNumber(rest as nat)] else [];
    ItemsAfter(table, ks, tail, Closing(true, rest), true);
  }

  /** The printed text tells the word, the names of the entries decoded and the residual. */
  lemma TextBack(table: seq<FlagInfo>, word: Word)
    requires forall i | 0 <= i < |table| :: IsName(table[i].name)
    ensures var (ks, rest) := Decoded(table, word, 0);
      && Indices(table, ks)
      && ReadFlags("0x" + HexNumber(word as nat) + Text(table, word, 0, false))
         == Some(FlagsRead(word as nat, Names(table, ks), rest as nat))
  {
    hide HexNumber, Text, Decoded, Number, IsNumber, Includes, Without, Listing, Closing;
    var (ks, rest) := Decoded(table, word, 0);
    DecodedPartitions(table, word, 0);
    TextIs(table, word, 0, false);
    HexItem(word as nat);
    var t, text := "0x" + HexNumber(word as nat), Text(table, word, 0, false);
    if ks == [] {
      NothingDecoded(table, word);
      TokenBack(t, "");
      assert t + text == t + "";
      assert Names(table, ks) == [];
    } else {
      ListingIs(table, ks, rest);
      var items := Listed(table, ks, rest);
      TokenBack(t, " (" + Items(items));
      assert (" (" + Items(items))[2..] == Items(items) && (" (" + Items(items))[..2] == " (";
      ListedBack(table, ks, rest, word as nat);
    }
  }

  /** With no entry decoded the residual is the word. */
  lemma NothingDecoded(table: seq<FlagInfo>, word: Word)
    requires Decoded(table, word, 0).0 == []
    ensures Decoded(table, word, 0).1 == word && Text(table, word, 0, false) == ""
  {
    hide Includes, Without, Decoded, Text;
    DecodedPartitions(table, word, 0);
    TextIs(table, word, 0, false);
    NothingTaken(Decoded(table, word, 0).1, 0, 0);
  }

  lemma ListedBack(table: seq<FlagInfo>, ks: seq<nat>, rest: Word, word: nat)
    requires Indices(table, ks) && ks != [] && forall i | 0 <= i < |table| :: IsName(table[i].name)
    ensures ReadItems(Items(Listed(table, ks, rest))) == Some(Listed(table, ks, rest))
    ensures SplitItems(word, Listed(table, ks, rest)) == FlagsRead(word, Names(table, ks), rest as nat)
  {
    hide HexNumber, Plain, HexValue, Number, ReadItems;
    var items, names := Listed(table, ks, rest), Names(table, ks);
    HexItem(rest as nat);
    hide IsNumber;
    forall i | 0 <= i < |items| ensures Plain(items[i]) {
      assert i < |ks| ==> items[i] == table[ks[i]].name;
    }
    ItemsBack(items);
    if rest != 0 {
      assert items[..|items| - 1] == names;
    } else {
      assert items == names && items[|items| - 1] == table[ks[|ks| - 1]].name;
      NameIsNoNumber(items[|items| - 1]);
    }
  }

  lemma NameIsNoNumber(n: string)
    requires IsName(n)
    ensures !IsNumber(n)
  {
    assert |n| > 2 ==> n[..2][0] == n[0];
  }

  /** With names that differ, the names read tell which entries were decoded. */
  lemma NamesTell(table: seq<FlagInfo>, ks: seq<nat>, k: nat)
    requires Indices(table, ks) && k < |table|
    requires forall i, j | 0 <= i < j < |table| :: table[i].name != table[j].name
    ensures table[k].name in Names(table, ks) <==> k in ks
  {
    var ns := Names(table, ks);
    if k in ks {
      var i :| 0 <= i < |ks| && ks[i] == k;
      assert ns[i] == table[k].name;
    }
    if table[k].name in ns {
      var i :| 0 <= i < |ns| && ns[i] == table[k].name;
      assert ks[i] == k;
    }
  }
}
