/** Attribute lists of any length: which attributes are traced, and in what order. */
module AttributeLists {
  import opened Bits
  import opened Memory
  import opened Layouts
  import opened ShadowMap
  import opened Decoder
  import opened Plans
  import opened JobTraces

  /** The metadata words from `s` on, up to the zero word that ends them. */
  ghost predicate IsList(w: World, maps: seq<Mapping>, s: u64, metas: seq<u64>)
    requires Sane(w, maps)
  {
    && s + 8 * |metas| < WORD64
    && (forall i | 0 <= i < |metas| :: metas[i] != 0 && MetaAt(w, maps, s + 8 * i, metas[i]))
    && MetaAt(w, maps, s + 8 * |metas|, 0)
  }

  /** The buffer descriptor that a metadata word names. */
  function BufferOf(first: u32, meta: u64): u64 {
    first + 16 * (meta % 0x100)
  }

  function FlagsOf(meta: u64): u64 {
    meta - meta % 0x100
  }

  /** Attribute after attribute, each in the memory the one before left, as long as the
      decoder survives: the low byte of a word is the attribute's number, the rest its
      flags, and its buffer is the one of that number in the array, 16 bytes each. */
  function ListTrace(w: World, maps: seq<Mapping>, first: u32, metas: seq<u64>, jitter: Jitter): (t: Traced)
    requires Sane(w, maps)
    ensures |t.world.ram| == SPACE
    decreases |metas|
  {
    if metas == [] then Traced([], w, true)
    else
      var event := Attribute(metas[0] % 0x100, FlagsOf(metas[0]));
      var a := TraceAttribute(w, maps, BufferOf(first, metas[0]), jitter);
      if !a.ok then Traced([event] + a.events, a.world, false)
      else
        var rest := ListTrace(a.world, maps, first, metas[1..], jitter);
        Traced([event] + a.events + rest.events, rest.world, rest.ok)
  }

  /** What has to stay as it is for the list to be walked as it stands in `w`: nothing the
      plan rewrites is read of the list, of the buffers or of the payload at `v`. */
  ghost predicate ListSafe(w: World, w': World, maps: seq<Mapping>, v: nat, s: u64)
    requires Sane(w, maps) && v + 4 * VT_WORDS <= SPACE
  {
    var p := PlanAttributes(w, maps, AttributesIn(w, v), s);
    && Agree(w.ram, w'.ram, p.seen) && AllMiss(p.seen, p.rewritten)
    && Agree(w.ram, w'.ram, [Range(v, 4 * VT_WORDS)]) && AllMiss([Range(v, 4 * VT_WORDS)], p.rewritten)
  }

  /** One word read in any memory that agrees on it. */
  lemma WordRead(w: World, w': World, maps: seq<Mapping>, v: nat, s: u64, meta: u64)
    requires Sane(w, maps) && Sane(w', maps) && v + 4 * VT_WORDS <= SPACE
    requires ListSafe(w, w', maps, v, s) && MetaAt(w, maps, s, meta)
    ensures MetaAt(w', maps, s, meta)
  {
    hide InSpace, Agree, AllMiss, PlanAttributes, Fetch, Get32, QuadOf;
    var q := Fetch(maps, s, 8).value;
    FetchedInSpace(maps, s, 8);
    MetaRead(w, w', maps, AttributesIn(w, v), s, q);
  }

  /** After one attribute the rest of the list is as safe. */
  lemma RestSafe(w: World, w': World, maps: seq<Mapping>, v: nat, s: u64, meta: u64, jitter: Jitter)
    requires Sane(w, maps) && Sane(w', maps) && v + 4 * VT_WORDS <= SPACE
    requires ListSafe(w, w', maps, v, s) && MetaAt(w, maps, s, meta) && meta != 0
    ensures AttributesIn(w', v) == AttributesIn(w, v)
    ensures var t := TraceAttribute(w', maps, BufferOf(AttributesIn(w, v), meta), jitter);
      t.ok ==> s + 8 < WORD64 && ListSafe(w, t.world, maps, v, s + 8)
  {
    hide InSpace, Agree, AllMiss, ChangedOnly, PlanAttribute, TraceAttribute, Get32, QuadOf, BitAnd, Fetch,
         AttributesIn;
    var q, first, vs := Fetch(maps, s, 8).value, AttributesIn(w, v), [Range(v, 4 * VT_WORDS)];
    SameArray(w, w', v);
    FetchedInSpace(maps, s, 8);
    MetaSplit(meta);
    var address := BufferOf(first, meta);
    var a, t := PlanAttribute(w, maps, address), TraceAttribute(w', maps, address, jitter);
    ListParts(w, w', maps, first, s, q);
    AttributePlanned(w, w', maps, address, jitter);
    if a.ok {
      var rest := PlanAttributes(w, maps, first, s + 8);
      assert vs + [] == vs;
      MissParts(vs, [], a.rewritten, rest.rewritten);
      StillAgree(w.ram, w'.ram, t.world.ram, rest.seen, a.rewritten);
      StillAgree(w.ram, w'.ram, t.world.ram, vs, a.rewritten);
    }
  }

  lemma ListTail(w: World, maps: seq<Mapping>, s: u64, metas: seq<u64>)
    requires Sane(w, maps) && IsList(w, maps, s, metas) && metas != []
    ensures MetaAt(w, maps, s, metas[0]) && metas[0] != 0 && s + 8 < WORD64 && IsList(w, maps, s + 8, metas[1..])
  {
    hide MetaAt, InSpace;
    assert MetaAt(w, maps, s + 8 * 0, metas[0]);
    var more := metas[1..];
    forall i | 0 <= i < |more| ensures more[i] != 0 && MetaAt(w, maps, s + 8 + 8 * i, more[i]) {
      assert MetaAt(w, maps, s + 8 * (i + 1), metas[i + 1]);
    }
  }

  /** One round of the loop, in arithmetic. */
  lemma ListRound(w: World, maps: seq<Mapping>, v: nat, s: u64, meta: u64, jitter: Jitter)
    requires Sane(w, maps) && v + 4 * VT_WORDS <= SPACE && meta != 0 && MetaAt(w, maps, s, meta) && s + 8 < WORD64
    ensures var a := TraceAttribute(w, maps, BufferOf(AttributesIn(w, v), meta), jitter);
      var event := Attribute(meta % 0x100, FlagsOf(meta));
      TraceAttributes(w, maps, v, s, jitter)
      == if !a.ok then Traced([event] + a.events, a.world, false)
         else
           var rest := TraceAttributes(a.world, maps, v, s + 8, jitter);
           Traced([event] + a.events + rest.events, rest.world, rest.ok)
  {
    hide InSpace, Peek, Get32, QuadOf, TraceAttribute, BitAnd, AttributesIn;
    MetaSplit(meta);
  }

  /** The walk over the metadata of a job traces exactly the attributes of the list in
      memory, in its order, in any memory `w'` that agrees with `w` on what is read. */
  lemma {:induction false} ListTraced(w: World, w': World, maps: seq<Mapping>, v: nat, s: u64, metas: seq<u64>,
                                      jitter: Jitter)
    requires Sane(w, maps) && Sane(w', maps) && v + 4 * VT_WORDS <= SPACE
    requires ListSafe(w, w', maps, v, s) && IsList(w, maps, s, metas)
    ensures TraceAttributes(w', maps, v, s, jitter) == ListTrace(w', maps, AttributesIn(w, v), metas, jitter)
    decreases |metas|
  {
    hide InSpace, IsList, ListSafe, MetaAt, TraceAttribute, TraceAttributes, AttributesIn;
    if metas == [] {
      assert MetaAt(w, maps, s, 0) by { NoList(w, maps, s); }
      WordRead(w, w', maps, v, s, 0);
      ListEnd(w', maps, v, s, jitter);
    } else {
      var meta := metas[0];
      ListTail(w, maps, s, metas);
      WordRead(w, w', maps, v, s, meta);
      RestSafe(w, w', maps, v, s, meta, jitter);
      ListRound(w', maps, v, s, meta, jitter);
      var a := TraceAttribute(w', maps, BufferOf(AttributesIn(w, v), meta), jitter);
      if a.ok { ListTraced(w, a.world, maps, v, s + 8, metas[1..], jitter); }
    }
  }

  lemma NoList(w: World, maps: seq<Mapping>, s: u64)
    requires Sane(w, maps) && IsList(w, maps, s, [])
    ensures MetaAt(w, maps, s, 0)
  {
  }
}
