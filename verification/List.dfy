/** The intrusive circular doubly-linked list.  A `ListNode` is a `struct list`
    member; `container` is what `container_of` recovers from it, and a list
    head is a node whose container nobody reads.

    `Lists` is the abstract view of every list in the heap at once: each head
    is mapped to the entries its next-chain spells.  A node that has been
    initialised or deleted and is in no list is a head of its own empty list. */
module List {

  class ListNode<T> {
    var next: ListNode?<T>
    var prev: ListNode?<T>
    const container: T

    /** `malloc`: the links are not initialised. */
    constructor (container: T)
      ensures this.container == container
    {
      this.container := container;
    }
  }

  type Lists<!T> = map<ListNode<T>, seq<ListNode<T>>>

  /** The head followed by the entries: the nodes in next-chain order. */
  ghost function Cycle<T>(w: Lists<T>, head: ListNode<T>): seq<ListNode<T>>
    requires head in w
  {
    [head] + w[head]
  }

  /** No node occurs twice, in one list or in two. */
  ghost predicate Separate<T>(w: Lists<T>) {
    forall g, h, i, j ::
      g in w && h in w && 0 <= i < |Cycle(w, g)| && 0 <= j < |Cycle(w, h)| && Cycle(w, g)[i] == Cycle(w, h)[j]
      ==> g == h && i == j
  }

  function After<T>(c: seq<T>, i: nat): T
    requires i < |c|
  {
    if i + 1 < |c| then c[i + 1] else c[0]
  }

  function Before<T>(c: seq<T>, i: nat): T
    requires i < |c|
  {
    if i > 0 then c[i - 1] else c[|c| - 1]
  }

  /** The next-chain visits the nodes of `c` in order and returns to the first;
      the prev-chain is its mirror image. */
  ghost predicate Ring<T>(c: seq<ListNode<T>>)
    reads c
  {
    && |c| > 0
    && (forall i {:trigger After(c, i)} {:trigger Before(c, i)} | 0 <= i < |c| ::
          c[i].next == After(c, i) && c[i].prev == Before(c, i))
  }

  /** All nodes of all lists are in `r`. */
  ghost predicate Within<T>(w: Lists<T>, r: set<ListNode<T>>) {
    forall h, n | h in w && n in Cycle(w, h) :: n in r
  }

  ghost predicate WellFormed<T>(w: Lists<T>, r: set<ListNode<T>>)
    reads r
  {
    && Separate(w)
    && Within(w, r)
    && forall h | h in w :: Ring(Cycle(w, h))
  }

  ghost predicate Absent<T>(w: Lists<T>, n: ListNode<T>) {
    forall h | h in w :: n !in Cycle(w, h)
  }

  /** A node that may be added: in no list, or alone in its own. */
  ghost predicate Loose<T>(w: Lists<T>, n: ListNode<T>) {
    Absent(w, n) || (n in w && w[n] == [])
  }

  ghost function Added<T>(w: Lists<T>, entry: ListNode<T>, head: ListNode<T>): Lists<T>
    requires head in w
  {
    (w - {entry})[head := [entry] + w[head]]
  }

  ghost function Without<T>(s: seq<T>, x: T): seq<T>
  {
    if s == [] then [] else if s[0] == x then s[1..] else [s[0]] + Without(s[1..], x)
  }

  ghost function Deleted<T>(w: Lists<T>, entry: ListNode<T>, head: ListNode<T>): Lists<T>
    requires head in w
  {
    if entry == head then w else w[head := Without(w[head], entry)][entry := []]
  }

  ghost predicate Distinct<T>(s: seq<T>) {
    forall i, j | 0 <= i < j < |s| :: s[i] != s[j]
  }

  lemma {:induction false} WithoutAt<T>(s: seq<T>, k: nat)
    requires k < |s| && Distinct(s)
    ensures Without(s, s[k]) == s[..k] + s[k + 1..]
  {
    if k != 0 {
      var t := s[1..];
      WithoutAt(t, k - 1);
      assert t[k - 1] == s[k];
      DropFirst(s, k);
    }
  }

  lemma DropFirst<T>(s: seq<T>, k: nat)
    requires 0 < k < |s|
    ensures s[..k] + s[k + 1..] == [s[0]] + (s[1..][..k - 1] + s[1..][k..])
  {
  }

  /** A loose node is in no other list. */
  lemma LooseElsewhere<T>(w: Lists<T>, n: ListNode<T>, h: ListNode<T>)
    requires Separate(w) && Loose(w, n) && h in w && h != n
    ensures n !in Cycle(w, h)
  {
    if n in w {
      assert Cycle(w, n)[0] == n;
    }
  }

  method ListInit<T>(list: ListNode<T>, ghost w: Lists<T>, ghost r: set<ListNode<T>>)
    requires WellFormed(w, r) && Loose(w, list)
    modifies list
    ensures WellFormed(w[list := []], r + {list})
  {
    list.prev := list;
    list.next := list;
    ghost var w' := w[list := []];
    forall h | h in w' ensures Ring(Cycle(w', h)) && (h != list ==> list !in Cycle(w', h)) {
      if h != list {
        LooseElsewhere(w, list, h);
        assert Cycle(w', h) == Cycle(w, h);
      }
    }
  }

  /** Links `entry` between two neighbours of a ring, which are the same node
      when the ring has only one. */
  method LinkBetween<T>(entry: ListNode<T>, prev: ListNode<T>, next: ListNode<T>, ghost c: seq<ListNode<T>>)
    requires Ring(c) && Distinct(c) && entry !in c
    requires prev == c[0] && next == After(c, 0)
    modifies entry, prev, next
    ensures Ring([prev, entry] + c[1..])
  {
    next.prev := entry;
    entry.next := next;
    entry.prev := prev;
    prev.next := entry;
    ghost var c' := [prev, entry] + c[1..];
    forall i | 0 <= i < |c'| ensures c'[i].next == After(c', i) && c'[i].prev == Before(c', i) {
      if i >= 2 {
        ghost var k := i - 1;
        assert c'[i] == c[k] && c[k].next == old(c[k].next) == After(c, k) && After(c, k) == After(c', i);
        assert old(c[k].prev) == Before(c, k);
      } else if i == 0 && |c| > 1 {
        assert old(c[0].prev) == Before(c, 0) && Before(c', 0) == c[|c| - 1];
      }
    }
  }

  lemma AddedSeparate<T>(w: Lists<T>, entry: ListNode<T>, head: ListNode<T>)
    requires Separate(w) && head in w && Loose(w, entry) && entry != head
    ensures Separate(Added(w, entry, head))
    ensures forall h | h in Added(w, entry, head) && h != head ::
              h in w && Cycle(Added(w, entry, head), h) == Cycle(w, h)
  {
    var w' := Added(w, entry, head);
    forall h, i | h in w' && 0 <= i < |Cycle(w', h)|
      ensures h in w
      ensures if h == head && i == 1 then Cycle(w', h)[i] == entry
              else var k := if h == head && i > 1 then i - 1 else i;
                   k < |Cycle(w, h)| && Cycle(w', h)[i] == Cycle(w, h)[k] && Cycle(w, h)[k] != entry
    {
      LooseElsewhere(w, entry, h);
    }
  }

  method ListAdd<T>(entry: ListNode<T>, head: ListNode<T>, ghost w: Lists<T>, ghost r: set<ListNode<T>>)
    requires WellFormed(w, r) && head in w && Loose(w, entry) && entry != head
    modifies entry, head, head.next
    ensures WellFormed(Added(w, entry, head), r + {entry})
  {
    ghost var c := Cycle(w, head);
    LooseElsewhere(w, entry, head);
    assert Ring(c) && head == c[0];
    assert head.next == After(c, 0);
    LinkBetween(entry, head, head.next, c);
    AddedSeparate(w, entry, head);
    assert [c[0], entry] + c[1..] == Cycle(Added(w, entry, head), head);
    forall h | h in Added(w, entry, head) && h != head ensures Ring(Cycle(w, h)) {
      LooseElsewhere(w, entry, h);
      assert forall n | n in Cycle(w, h) :: n !in c;
      assert old(Ring(Cycle(w, h)));
    }
  }

  /** Links the neighbours of `c[k]` to each other. */
  method UnlinkBetween<T>(prev: ListNode<T>, next: ListNode<T>, ghost c: seq<ListNode<T>>, ghost k: nat)
    requires Ring(c) && Distinct(c) && k < |c|
    requires prev == Before(c, k) && next == After(c, k)
    modifies prev, next
    ensures k > 0 ==> Ring(c[..k] + c[k + 1..])
    ensures |c| == 1 ==> Ring(c)
  {
    next.prev := prev;
    prev.next := next;
    if k > 0 {
      ghost var c' := c[..k] + c[k + 1..];
      forall i | 0 <= i < |c'| ensures c'[i].next == After(c', i) && c'[i].prev == Before(c', i) {
        ghost var j := if i < k then i else i + 1;
        assert c'[i] == c[j] && old(c[j].next) == After(c, j) && old(c[j].prev) == Before(c, j);
      }
    }
  }

  /** Where each node of the lists after a deletion was before it. */
  lemma DeletedSeparate<T>(w: Lists<T>, head: ListNode<T>, k: nat)
    requires Separate(w) && head in w && 0 < k < |Cycle(w, head)|
    ensures Separate(Deleted(w, Cycle(w, head)[k], head))
    ensures Cycle(w, head)[k] !in w
    ensures Distinct(w[head]) && Distinct(Cycle(w, head))
    ensures Cycle(Deleted(w, Cycle(w, head)[k], head), head) == Cycle(w, head)[..k] + Cycle(w, head)[k + 1..]
  {
    var c := Cycle(w, head);
    var entry := c[k];
    var w' := Deleted(w, entry, head);
    forall h | h in w ensures h != entry {
      assert Cycle(w, h)[0] == h;
    }
    forall i | 0 <= i < |w[head]| ensures w[head][i] == c[i + 1] {}
    WithoutAt(w[head], k - 1);
    assert entry == w[head][k - 1];
    assert Cycle(w', head) == c[..k] + c[k + 1..];
    DeletedOrigin(w, w', head, k);
  }

  lemma DeletedOrigin<T>(w: Lists<T>, w': Lists<T>, head: ListNode<T>, k: nat)
    requires Separate(w) && head in w && 0 < k < |Cycle(w, head)| && Cycle(w, head)[k] !in w
    requires w'.Keys == w.Keys + {Cycle(w, head)[k]} && w'[Cycle(w, head)[k]] == []
    requires Cycle(w', head) == Cycle(w, head)[..k] + Cycle(w, head)[k + 1..]
    requires forall h | h in w && h != head :: w'[h] == w[h]
    ensures Separate(w')
  {
    hide Without, Deleted;
    var entry := Cycle(w, head)[k];
    forall h, i | h in w' && 0 <= i < |Cycle(w', h)|
      ensures if h == entry then i == 0 && Cycle(w', h)[i] == entry
              else var j := if h == head && i >= k then i + 1 else i;
                   h in w && j < |Cycle(w, h)| && Cycle(w', h)[i] == Cycle(w, h)[j] && Cycle(w, h)[j] != entry
    {
    }
  }

  /** A node of one list is in no other. */
  lemma ElsewhereDisjoint<T>(w: Lists<T>, head: ListNode<T>)
    requires Separate(w) && head in w
    ensures Distinct(Cycle(w, head))
    ensures forall h, n | h in w && h != head && n in Cycle(w, h) :: n !in Cycle(w, head)
  {
  }

  /** Takes `c[k]` out of its ring and makes it a ring of its own. */
  method Unlink<T>(entry: ListNode<T>, ghost c: seq<ListNode<T>>, ghost k: nat)
    requires Ring(c) && Distinct(c) && k < |c| && entry == c[k] && (k == 0 ==> |c| == 1)
    modifies entry, entry.prev, entry.next
    ensures Ring([entry])
    ensures k > 0 ==> Ring(c[..k] + c[k + 1..])
  {
    assert entry.prev == Before(c, k) && entry.next == After(c, k);
    UnlinkBetween(entry.prev, entry.next, c, k);
    ListSelfLink(entry);
  }

  /** Removes `entry` from whatever list it is in; the caller does not say which. */
  method ListDel<T>(entry: ListNode<T>, ghost head: ListNode<T>, ghost w: Lists<T>, ghost r: set<ListNode<T>>)
    requires WellFormed(w, r) && head in w
    requires entry in w[head] || (entry == head && w[head] == [])
    modifies entry, entry.prev, entry.next
    ensures WellFormed(Deleted(w, entry, head), r)
  {
    ghost var c := Cycle(w, head);
    assert Ring(c);
    ElsewhereDisjoint(w, head);
    ghost var k := 0;
    if entry in w[head] {
      ghost var i :| 0 <= i < |w[head]| && w[head][i] == entry;
      k := i + 1;
    }
    assert entry.prev == Before(c, k) && entry.next == After(c, k);
    assert entry.prev in c && entry.next in c;
    Unlink(entry, c, k);
    forall h | h in w && h != head ensures Ring(Cycle(w, h)) {
      assert old(Ring(Cycle(w, h)));
    }
    if k > 0 {
      DeletedRings(w, r, head, k);
    } else {
      assert c == [entry];
    }
  }

  lemma DeletedRings<T>(w: Lists<T>, r: set<ListNode<T>>, head: ListNode<T>, k: nat)
    requires Separate(w) && Within(w, r) && head in w && 0 < k < |Cycle(w, head)|
    requires Ring(Cycle(w, head)[..k] + Cycle(w, head)[k + 1..]) && Ring([Cycle(w, head)[k]])
    requires forall h | h in w && h != head :: Ring(Cycle(w, h))
    ensures WellFormed(Deleted(w, Cycle(w, head)[k], head), r)
  {
    var entry := Cycle(w, head)[k];
    var w' := Deleted(w, entry, head);
    DeletedSeparate(w, head, k);
    assert entry != head;
    forall h | h in w' ensures Ring(Cycle(w', h)) {
      if h == entry {
        assert Cycle(w', h) == [entry];
      } else if h != head {
        assert Cycle(w', h) == Cycle(w, h);
      }
    }
  }

  /** Deleting an entry that is linked to itself leaves it so, and every list as it was. */
  method ListDelSelfLinked<T>(entry: ListNode<T>, ghost w: Lists<T>, ghost r: set<ListNode<T>>)
    requires WellFormed(w, r) && entry in w && w[entry] == []
    modifies entry
    ensures WellFormed(w, r) && entry.next == entry && entry.prev == entry
    ensures entry.next == old(entry.next) && entry.prev == old(entry.prev)
  {
    assert Cycle(w, entry) == [entry];
    assert Ring(Cycle(w, entry));
    assert entry.next == After(Cycle(w, entry), 0) && entry.prev == Before(Cycle(w, entry), 0);
    ListDel(entry, entry, w, r);
    assert Ring(Cycle(w, entry));
    assert entry.next == After(Cycle(w, entry), 0) && entry.prev == Before(Cycle(w, entry), 0);
  }

  /** `list_init` on a node whose list is not needed any more. */
  method ListSelfLink<T>(list: ListNode<T>)
    modifies list
    ensures Ring([list])
  {
    list.prev := list;
    list.next := list;
  }

  method ListIsEmpty<T>(head: ListNode<T>, ghost w: Lists<T>, ghost r: set<ListNode<T>>)
    returns (empty: bool)
    requires WellFormed(w, r) && head in w
    ensures empty == (w[head] == [])
  {
    assert Ring(Cycle(w, head)) && Cycle(w, head)[0] == head;
    assert head.next == After(Cycle(w, head), 0);
    if w[head] != [] {
      assert Cycle(w, head)[1] != Cycle(w, head)[0];
    }
    empty := head.next == head;
  }

  /** Deleting undoes adding: every list is as before and the entry is alone. */
  lemma AddThenDelete<T>(w: Lists<T>, entry: ListNode<T>, head: ListNode<T>)
    requires Separate(w) && head in w && Loose(w, entry) && entry != head
    ensures Deleted(Added(w, entry, head), entry, head) == w[entry := []]
  {
    assert Without([entry] + w[head], entry) == w[head];
  }

  /** Lists after `free` of a node that was alone. */
  ghost function Freed<T>(w: Lists<T>, n: ListNode<T>): Lists<T> {
    w - {n}
  }

  lemma FreedWellFormed<T>(w: Lists<T>, r: set<ListNode<T>>, n: ListNode<T>)
    requires WellFormed(w, r)
    ensures WellFormed(Freed(w, n), r)
  {
    var w' := Freed(w, n);
    forall h | h in w' ensures Cycle(w', h) == Cycle(w, h) && Ring(Cycle(w', h)) {
      assert Ring(Cycle(w, h));
    }
  }
}
