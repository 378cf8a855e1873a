/** The tracer's shadow of the kernel's memory state: the GPU allocations not
    yet mapped and the live CPU mappings, kept in two intrusive lists, and the
    translation of GPU addresses through them. */
module ShadowMap {
  import opened Options
  import opened Bits
  import opened List

  datatype Allocation = Allocation(gpuVa: u64, sameVa: bool)

  /** `length` and `addr` are a `size_t` and a pointer of any width up to 64 bits. */
  datatype Mapping = Mapping(length: u64, addr: u64, gpuVa: u64)

  datatype Entry = Head | Allocated(allocation: Allocation) | Mapped(mapping: Mapping)

  /** Both lists, newest element first. */
  datatype Shadow = Shadow(pending: seq<Allocation>, live: seq<Mapping>)

  // ----- first match in a list -----

  function First<T>(s: seq<T>, p: T -> bool): (k: nat)
    ensures k <= |s|
    ensures forall j | 0 <= j < k :: !p(s[j])
    ensures k < |s| ==> p(s[k])
  {
    if s == [] || p(s[0]) then 0
    else
      var k := First(s[1..], p);
      assert forall j | 1 <= j < k + 1 :: s[j] == s[1..][j - 1];
      k + 1
  }

  lemma {:induction false} FirstIs<T>(s: seq<T>, p: T -> bool, k: nat)
    requires k <= |s| && (forall j | 0 <= j < k :: !p(s[j])) && (k < |s| ==> p(s[k]))
    ensures First(s, p) == k
  {
  }

  ghost predicate NoneBefore<T>(s: seq<T>, p: T -> bool, k: nat) {
    k <= |s| && forall j | 0 <= j < k :: !p(s[j])
  }

  lemma NoneStep<T>(s: seq<T>, p: T -> bool, k: nat)
    requires NoneBefore(s, p, k) && k < |s|
    ensures if p(s[k]) then First(s, p) == k else NoneBefore(s, p, k + 1)
  {
    if p(s[k]) { FirstIs(s, p, k); }
  }

  function Drop<T>(s: seq<T>, k: nat): seq<T> {
    if k < |s| then s[..k] + s[k + 1..] else s
  }

  // ----- what each wrapper does to the shadow state -----

  function RecordAlloc(s: Shadow, gpuVa: u64, sameVa: bool): Shadow {
    s.(pending := [Allocation(gpuVa, sameVa)] + s.pending)
  }

  function HasVa(va: u64): Allocation -> bool {
    (a: Allocation) => a.gpuVa == va
  }

  function HasAddr(addr: u64): Mapping -> bool {
    (m: Mapping) => m.addr == addr
  }

  /** The newest pending allocation at `offset` is consumed; without one the
      mapping is recorded with GPU address 0. */
  function RecordMmap(s: Shadow, ret: u64, length: u64, offset: u64): Shadow {
    var k := First(s.pending, HasVa(offset));
    var gpuVa := if k == |s.pending| then 0 else if s.pending[k].sameVa then ret else offset;
    Shadow(Drop(s.pending, k), [Mapping(length, ret, gpuVa)] + s.live)
  }

  lemma RecordMmapIs(s: Shadow, ret: u64, length: u64, offset: u64, found: bool, sameVa: bool)
    requires var k := First(s.pending, HasVa(offset));
      found == (k < |s.pending|) && (found ==> sameVa == s.pending[k].sameVa)
    ensures var gpuVa: u64 := if !found then 0 else if sameVa then ret else offset;
      RecordMmap(s, ret, length, offset)
      == Shadow(Drop(s.pending, First(s.pending, HasVa(offset))), [Mapping(length, ret, gpuVa)] + s.live)
  {
  }

  function RecordMunmap(s: Shadow, addr: u64): Shadow {
    s.(live := Drop(s.live, First(s.live, HasAddr(addr))))
  }

  // ----- address translation -----

  /** The source's range test: the upper end is inclusive and may wrap. */
  predicate Covers(start: u64, length: u64, addr: u64) {
    start <= addr <= (start + length) % WORD64
  }

  function InGpuRange(addr: u64): Mapping -> bool {
    (m: Mapping) => Covers(m.gpuVa, m.length, addr)
  }

  function InCpuRange(addr: u64): Mapping -> bool {
    (m: Mapping) => Covers(m.addr, m.length, addr)
  }

  /** From `start` to `start + length`, both included.  A range whose end does not fit 64
      bits holds nothing. */
  predicate Spans(start: u64, length: u64, addr: u64) {
    start + length < WORD64 && start <= addr <= start + length
  }

  lemma RangeTests(m: Mapping, addr: u64)
    ensures InGpuRange(addr)(m) <==> Spans(m.gpuVa, m.length, addr)
    ensures InCpuRange(addr)(m) <==> Spans(m.addr, m.length, addr)
  {
    EndOf(m.gpuVa, m.length);
    EndOf(m.addr, m.length);
  }

  lemma EndOf(start: u64, length: u64)
    ensures (start + length) % WORD64 == if start + length < WORD64 then start + length else start + length - WORD64
  {
  }

  /** The lookup on the CPU side: the first, that is the newest, mapping that spans the
      address, if there is one. */
  lemma CpuLookup(live: seq<Mapping>, addr: u64)
    ensures var k := First(live, InCpuRange(addr));
      && (k < |live| <==> exists m :: m in live && Spans(m.addr, m.length, addr))
      && (k < |live| ==> Spans(live[k].addr, live[k].length, addr))
      && forall j | 0 <= j < k :: !Spans(live[j].addr, live[j].length, addr)
  {
    hide Spans;
    forall m | m in live ensures InCpuRange(addr)(m) <==> Spans(m.addr, m.length, addr) { RangeTests(m, addr); }
    var k := First(live, InCpuRange(addr));
    hide First;
    if k < |live| { assert live[k] in live; }
  }

  /** And on the GPU side. */
  lemma GpuLookup(live: seq<Mapping>, addr: u64)
    ensures var k := First(live, InGpuRange(addr));
      && (k < |live| <==> exists m :: m in live && Spans(m.gpuVa, m.length, addr))
      && (k < |live| ==> Spans(live[k].gpuVa, live[k].length, addr))
      && forall j | 0 <= j < k :: !Spans(live[j].gpuVa, live[j].length, addr)
  {
    hide Spans;
    forall m | m in live ensures InGpuRange(addr)(m) <==> Spans(m.gpuVa, m.length, addr) { RangeTests(m, addr); }
    var k := First(live, InGpuRange(addr));
    hide First;
    if k < |live| { assert live[k] in live; }
  }

  /** `None` is NULL. */
  function Fetch(live: seq<Mapping>, gpuAddr: u64, sz: u64): Option<u64> {
    var k := First(live, InGpuRange(gpuAddr));
    if gpuAddr == 0 || k == |live| then None
    else if (gpuAddr - live[k].gpuVa + sz) % WORD64 > live[k].length then None
    else Some((live[k].addr + (gpuAddr - live[k].gpuVa)) % WORD64)
  }

  // ----- `container_of` along a list -----

  function AllocationOf(n: ListNode<Entry>): Allocation {
    if n.container.Allocated? then n.container.allocation else Allocation(0, false)
  }

  function MappingOf(n: ListNode<Entry>): Mapping {
    if n.container.Mapped? then n.container.mapping else Mapping(0, 0, 0)
  }

  function Allocations(s: seq<ListNode<Entry>>): (r: seq<Allocation>)
    ensures |r| == |s|
  {
    seq(|s|, i requires 0 <= i < |s| => AllocationOf(s[i]))
  }

  function Mappings(s: seq<ListNode<Entry>>): (r: seq<Mapping>)
    ensures |r| == |s|
  {
    seq(|s|, i requires 0 <= i < |s| => MappingOf(s[i]))
  }

  lemma ContainersCons(n: ListNode<Entry>, s: seq<ListNode<Entry>>)
    ensures Allocations([n] + s) == [AllocationOf(n)] + Allocations(s)
    ensures Mappings([n] + s) == [MappingOf(n)] + Mappings(s)
  {
  }

  lemma ContainersDrop(s: seq<ListNode<Entry>>, k: nat)
    ensures Allocations(Drop(s, k)) == Drop(Allocations(s), k)
    ensures Mappings(Drop(s, k)) == Drop(Mappings(s), k)
  {
  }

  /** The two lists `a` and `m` hold allocations and mappings. */
  ghost predicate Typed(w: Lists<Entry>, a: ListNode<Entry>, m: ListNode<Entry>) {
    && a != m && w.Keys == {a, m}
    && (forall n | n in w[a] :: n.container.Allocated?)
    && (forall n | n in w[m] :: n.container.Mapped?)
  }

  ghost function StateOf(w: Lists<Entry>, a: ListNode<Entry>, m: ListNode<Entry>): Shadow
    requires a in w && m in w
  {
    Shadow(Allocations(w[a]), Mappings(w[m]))
  }

  lemma RecordLists(w: Lists<Entry>, a: ListNode<Entry>, m: ListNode<Entry>, n: ListNode<Entry>, head: ListNode<Entry>)
    requires Typed(w, a, m) && head in w && Absent(w, n)
    requires if head == a then n.container.Allocated? else n.container.Mapped?
    ensures var w' := Added(w, n, head);
      && w' == w[head := [n] + w[head]] && Typed(w', a, m)
      && StateOf(w', a, m) == if head == a then StateOf(w, a, m).(pending := [AllocationOf(n)] + Allocations(w[a]))
                              else StateOf(w, a, m).(live := [MappingOf(n)] + Mappings(w[m]))
  {
    forall h | h in w ensures h != n { assert Cycle(w, h)[0] == h; }
    ContainersCons(n, w[head]);
  }

  /** Deleting and freeing the `k`-th entry of a list drops it from that list only. */
  lemma ForgetLists(w: Lists<Entry>, a: ListNode<Entry>, m: ListNode<Entry>, head: ListNode<Entry>, k: nat)
    requires Typed(w, a, m) && Separate(w) && head in w && k < |w[head]|
    ensures var w' := Freed(Deleted(w, w[head][k], head), w[head][k]);
      && w' == w[head := Drop(w[head], k)] && Typed(w', a, m)
      && StateOf(w', a, m) == if head == a then StateOf(w, a, m).(pending := Drop(Allocations(w[a]), k))
                              else StateOf(w, a, m).(live := Drop(Mappings(w[m]), k))
  {
    hide Allocations, Mappings, Separate;
    assert Cycle(w, head)[k + 1] == w[head][k];
    DeletedSeparate(w, head, k + 1);
    WithoutAt(w[head], k);
    ContainersDrop(w[head], k);
    var w' := w[head := Drop(w[head], k)];
    forall h, n | h in w' && n in Cycle(w', h) ensures n in Cycle(w, h) {}
  }

  lemma EmptyLists(w: Lists<Entry>, a: ListNode<Entry>, m: ListNode<Entry>)
    requires a != m && w.Keys == {a, m} && w[a] == [] && w[m] == []
    ensures Typed(w, a, m) && StateOf(w, a, m) == Shadow([], [])
  {
    assert Cycle(w, a) == [a] && Cycle(w, m) == [m];
  }

  predicate StandsAt(s: string, t: string, i: int) {
    0 <= i && i + |t| <= |s| && s[i..i + |t|] == t
  }

  ghost predicate Occurs(s: string, t: string) {
    exists i :: StandsAt(s, t, i)
  }

  /** `strstr` as a test. */
  method Strstr(s: string, t: string) returns (found: bool)
    ensures found == Occurs(s, t)
  {
    var i := 0;
    while i + |t| <= |s|
      invariant 0 <= i && forall j | 0 <= j < i :: !StandsAt(s, t, j)
    {
      if s[i..i + |t|] == t {
        assert StandsAt(s, t, i);
        return true;
      }
      i := i + 1;
    }
    return false;
  }

  class Tracer {
    const allocations: ListNode<Entry>
    const mmaps: ListNode<Entry>
    var maliFd: int
    /** The two lists; everything that is in them. */
    ghost var lists: Lists<Entry>
    ghost var repr: set<ListNode<Entry>>

    ghost predicate Valid()
      reads this, repr
    {
      Typed(lists, allocations, mmaps) && WellFormed(lists, repr)
    }

    ghost function State(): Shadow
      reads this
      requires allocations in lists && mmaps in lists
    {
      StateOf(lists, allocations, mmaps)
    }

    constructor ()
      ensures Valid() && fresh(repr)
      ensures State() == Shadow([], []) && maliFd == 0
    {
      var a := new ListNode<Entry>(Head);
      var m := new ListNode<Entry>(Head);
      ghost var none: Lists<Entry> := map[];
      ListInit(a, none, {});
      ListInit(m, none[a := []], {a});
      allocations := a;
      mmaps := m;
      maliFd := 0;
      lists, repr := none[a := []][m := []], {a, m};
      EmptyLists(none[a := []][m := []], a, m);
    }

    /** `list_add` of a freshly allocated entry. */
    method Record(entry: Entry, head: ListNode<Entry>)
      requires Valid() && head in lists
      requires if head == allocations then entry.Allocated? else entry.Mapped?
      modifies this`lists, this`repr, repr
      ensures Valid() && fresh(repr - old(repr))
      ensures head == allocations ==>
        State() == old(State()).(pending := [entry.allocation] + old(State().pending))
      ensures head == mmaps ==>
        State() == old(State()).(live := [entry.mapping] + old(State().live))
    {
      var node := new ListNode<Entry>(entry);
      assert Ring(Cycle(lists, head));
      assert head == Cycle(lists, head)[0];
      assert head.next == After(Cycle(lists, head), 0);
      ListAdd(node, head, lists, repr);
      RecordLists(lists, allocations, mmaps, node, head);
      lists, repr := Added(lists, node, head), repr + {node};
    }

    /** `list_del` and `free` of the entry at position `k` of a list. */
    method Forget(node: ListNode<Entry>, ghost head: ListNode<Entry>, ghost k: nat)
      requires Valid() && head in lists && k < |lists[head]| && lists[head][k] == node
      modifies this`lists, this`repr, repr
      ensures Valid() && repr == old(repr)
      ensures head == allocations ==> State() == old(State()).(pending := Drop(old(State().pending), k))
      ensures head == mmaps ==> State() == old(State()).(live := Drop(old(State().live), k))
    {
      ghost var c := Cycle(lists, head);
      assert c[k + 1] == node && Ring(c);
      assert node.prev == Before(c, k + 1) && node.next == After(c, k + 1);
      assert node.prev in c && node.next in c;
      ListDel(node, head, lists, repr);
      FreedWellFormed(Deleted(lists, node, head), repr, node);
      ForgetLists(lists, allocations, mmaps, head, k);
      lists := Freed(Deleted(lists, node, head), node);
    }

    /** The cursor of `list_for_each_entry` after `i` steps. */
    ghost predicate Cursor(pos: ListNode?<Entry>, head: ListNode<Entry>, i: nat)
      reads this
    {
      head in lists && i <= |lists[head]| && pos == if i < |lists[head]| then lists[head][i] else head
    }

    lemma CursorSteps(head: ListNode<Entry>, i: nat)
      requires Valid() && head in lists && i <= |lists[head]|
      ensures Cursor(Cycle(lists, head)[i].next, head, i)
      ensures i < |lists[head]| ==> lists[head][i] == Cycle(lists, head)[i + 1] != head
    {
      var c := Cycle(lists, head);
      assert Ring(c) && c[0] == head;
      assert c[i].next == After(c, i);
    }

    method FindMappedMem(addr: u64) returns (found: ListNode?<Entry>)
      requires Valid()
      ensures var k := First(State().live, HasAddr(addr));
        if k == |State().live| then found == null else found == lists[mmaps][k]
    {
      ghost var s, p := Mappings(lists[mmaps]), HasAddr(addr);
      ghost var i := 0;
      CursorSteps(mmaps, 0);
      var pos := mmaps.next;
      while pos != mmaps
        invariant Cursor(pos, mmaps, i) && NoneBefore(s, p, i)
        decreases |s| - i
      {
        CursorSteps(mmaps, i);
        CursorSteps(mmaps, i + 1);
        assert s[i] == MappingOf(pos);
        NoneStep(s, p, i);
        if MappingOf(pos).addr == addr {
          return pos;
        }
        pos := pos.next;
        i := i + 1;
      }
      CursorSteps(mmaps, i);
      FirstIs(s, p, i);
      return null;
    }

    method FindMappedMemContaining(addr: u64) returns (found: ListNode?<Entry>)
      requires Valid()
      ensures var k := First(State().live, InCpuRange(addr));
        if k == |State().live| then found == null else found == lists[mmaps][k]
      ensures found == null <==> forall m | m in State().live :: !Spans(m.addr, m.length, addr)
      ensures found != null ==>
        found.container.Mapped? && Spans(MappingOf(found).addr, MappingOf(found).length, addr)
    {
      ghost var s, p := Mappings(lists[mmaps]), InCpuRange(addr);
      CpuLookup(s, addr);
      ghost var i := 0;
      CursorSteps(mmaps, 0);
      var pos := mmaps.next;
      while pos != mmaps
        invariant Cursor(pos, mmaps, i) && NoneBefore(s, p, i)
        decreases |s| - i
      {
        CursorSteps(mmaps, i);
        CursorSteps(mmaps, i + 1);
        assert s[i] == MappingOf(pos);
        NoneStep(s, p, i);
        if Covers(MappingOf(pos).addr, MappingOf(pos).length, addr) {
          return pos;
        }
        pos := pos.next;
        i := i + 1;
      }
      CursorSteps(mmaps, i);
      FirstIs(s, p, i);
      return null;
    }

    method FindGpuMappedMem(addr: u64) returns (found: ListNode?<Entry>)
      requires Valid()
      ensures var k := First(State().live, InGpuRange(addr));
        if k == |State().live| then found == null else found == lists[mmaps][k]
      ensures found == null <==> forall m | m in State().live :: !Spans(m.gpuVa, m.length, addr)
      ensures found != null ==>
        found.container.Mapped? && Spans(MappingOf(found).gpuVa, MappingOf(found).length, addr)
    {
      ghost var s, p := Mappings(lists[mmaps]), InGpuRange(addr);
      GpuLookup(s, addr);
      ghost var i := 0;
      CursorSteps(mmaps, 0);
      var pos := mmaps.next;
      while pos != mmaps
        invariant Cursor(pos, mmaps, i) && NoneBefore(s, p, i)
        decreases |s| - i
      {
        CursorSteps(mmaps, i);
        CursorSteps(mmaps, i + 1);
        assert s[i] == MappingOf(pos);
        NoneStep(s, p, i);
        if Covers(MappingOf(pos).gpuVa, MappingOf(pos).length, addr) {
          return pos;
        }
        pos := pos.next;
        i := i + 1;
      }
      CursorSteps(mmaps, i);
      FirstIs(s, p, i);
      return null;
    }

    method FetchMappedGpu(gpuAddr: u64, sz: u64) returns (r: Option<u64>)
      requires Valid()
      ensures r == Fetch(State().live, gpuAddr, sz)
    {
      if gpuAddr == 0 {
        return None;
      }
      var mem := FindGpuMappedMem(gpuAddr);
      if mem == null {
        return None;
      }
      var m := MappingOf(mem);
      if (gpuAddr - m.gpuVa + sz) % WORD64 > m.length {
        return None;
      }
      return Some((m.addr + (gpuAddr - m.gpuVa)) % WORD64);
    }

    /** After the MEM_ALLOC ioctl. */
    method PostMemAlloc(gpuVa: u64, sameVa: bool)
      requires Valid()
      modifies this`lists, this`repr, repr
      ensures Valid() && fresh(repr - old(repr))
      ensures State() == RecordAlloc(old(State()), gpuVa, sameVa)
    {
      Record(Allocated(Allocation(gpuVa, sameVa)), allocations);
    }

    /** After the MEM_COMMIT ioctl. */
    method PostMemCommit(gpuAddr: u64)
      requires Valid()
      modifies this`lists, this`repr, repr
      ensures Valid() && fresh(repr - old(repr))
      ensures State() == RecordAlloc(old(State()), gpuAddr, false)
    {
      Record(Allocated(Allocation(gpuAddr, false)), allocations);
    }

    /** The mmap wrapper; `ret` is what the kernel returned, unchecked. */
    method MmapWrap(ret: u64, length: u64, fd: int, offset: u64)
      requires Valid()
      modifies this`lists, this`repr, repr
      ensures Valid() && fresh(repr - old(repr))
      ensures State() == if maliFd == 0 || fd != maliFd then old(State())
                         else RecordMmap(old(State()), ret, length, offset)
    {
      if maliFd == 0 || fd != maliFd {
        return;
      }
      TrackMmap(ret, length, offset);
    }

    method TrackMmap(ret: u64, length: u64, offset: u64)
      requires Valid()
      modifies this`lists, this`repr, repr
      ensures Valid() && fresh(repr - old(repr))
      ensures State() == RecordMmap(old(State()), ret, length, offset)
    {
      ghost var s0 := State();
      var found, sameVa := ConsumePending(offset);
      var gpuVa := if !found then 0 else if sameVa then ret else offset;
      RecordMmapIs(s0, ret, length, offset, found, sameVa);
      Record(Mapped(Mapping(length, ret, gpuVa)), mmaps);
    }

    /** Takes the newest pending allocation at `offset`, if any, off the list. */
    method ConsumePending(offset: u64) returns (found: bool, sameVa: bool)
      requires Valid()
      modifies this`lists, this`repr, repr
      ensures Valid() && repr == old(repr)
      ensures var s := old(State()); var k := First(s.pending, HasVa(offset));
        && State() == s.(pending := Drop(s.pending, k))
        && found == (k < |s.pending|)
        && (found ==> sameVa == s.pending[k].sameVa)
    {
      var pos := FindPending(offset);
      if pos == null {
        return false, false;
      }
      sameVa := AllocationOf(pos).sameVa;
      found := true;
      Forget(pos, allocations, First(State().pending, HasVa(offset)));
    }

    /** The search loop of the mmap wrapper. */
    method FindPending(offset: u64) returns (found: ListNode?<Entry>)
      requires Valid()
      ensures var k := First(State().pending, HasVa(offset));
        if k == |State().pending| then found == null else found == lists[allocations][k]
    {
      ghost var s, p := Allocations(lists[allocations]), HasVa(offset);
      ghost var i := 0;
      CursorSteps(allocations, 0);
      var pos := allocations.next;
      while pos != allocations
        invariant Cursor(pos, allocations, i) && NoneBefore(s, p, i)
        decreases |s| - i
      {
        CursorSteps(allocations, i);
        CursorSteps(allocations, i + 1);
        assert s[i] == AllocationOf(pos);
        NoneStep(s, p, i);
        if AllocationOf(pos).gpuVa == offset {
          return pos;
        }
        pos := pos.next;
        i := i + 1;
      }
      CursorSteps(allocations, i);
      FirstIs(s, p, i);
      return null;
    }

    method Munmap(addr: u64)
      requires Valid()
      modifies this`lists, this`repr, repr
      ensures Valid() && repr == old(repr)
      ensures State() == RecordMunmap(old(State()), addr)
    {
      var mem := FindMappedMem(addr);
      if mem == null {
        return;
      }
      Forget(mem, mmaps, First(State().live, HasAddr(addr)));
    }

    /** After `open` of `path` returned `ret`; how many lines are logged. */
    method OpenWrap(path: string, ret: int) returns (lines: nat)
      modifies this`maliFd
      ensures maliFd == if ret != -1 && path == "/dev/mali0" then ret else old(maliFd)
      ensures lines == if ret != -1 && (path == "/dev/mali0" || Occurs(path, "/dev/")) then 1 else 0
    {
      lines := 0;
      if ret != -1 {
        if path == "/dev/mali0" {
          lines := 1;
          maliFd := ret;
        } else {
          var found := Strstr(path, "/dev/");
          lines := if found then 1 else 0;
        }
      }
    }

    method Close(fd: int)
      modifies this`maliFd
      ensures maliFd == if fd > 0 && fd == old(maliFd) then 0 else old(maliFd)
    {
      if fd > 0 && fd == maliFd {
        maliFd := 0;
      }
    }
  }
}
