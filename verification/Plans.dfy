/** What tracing a chain reads and rewrites, told from the memory it starts from. */
module Plans {
  import opened Options
  import opened Bits
  import opened Memory
  import opened Layouts
  import opened ShadowMap
  import opened Decoder
  import opened Fetching
  import opened Chains

  // ----- ranges of memory -----

  datatype Range = Range(at: nat, size: nat) {
    function End(): nat { at + size }
  }

  predicate InRanges(rs: seq<Range>, i: int) {
    exists k :: 0 <= k < |rs| && rs[k].at <= i < rs[k].End()
  }

  predicate Misses(r: Range, s: Range) {
    r.End() <= s.at || s.End() <= r.at
  }

  predicate AllMiss(rs: seq<Range>, ws: seq<Range>) {
    forall j, k | 0 <= j < |rs| && 0 <= k < |ws| :: Misses(rs[j], ws[k])
  }

  /** Two memories agree on the ranges. */
  ghost predicate Agree(m: Bytes, m': Bytes, rs: seq<Range>) {
    |m| == |m'| && forall k | 0 <= k < |rs| :: Same(m, m', rs[k].at, rs[k].End())
  }

  /** Only bytes in the ranges differ. */
  ghost predicate ChangedOnly(m: Bytes, m': Bytes, ws: seq<Range>) {
    |m| == |m'| && forall i | 0 <= i < |m| && m'[i] != m[i] :: InRanges(ws, i)
  }

  lemma NothingChanged(m: Bytes, ws: seq<Range>)
    ensures ChangedOnly(m, m, ws)
  {
  }

  lemma ChangedTwice(a: Bytes, b: Bytes, c: Bytes, ws: seq<Range>, ws': seq<Range>)
    requires ChangedOnly(a, b, ws) && ChangedOnly(b, c, ws')
    ensures ChangedOnly(a, c, ws + ws')
  {
    forall i | 0 <= i < |a| && c[i] != a[i] ensures InRanges(ws + ws', i) {
      if b[i] != a[i] {
        var k :| 0 <= k < |ws| && ws[k].at <= i < ws[k].End();
        assert (ws + ws')[k] == ws[k];
      } else {
        var k :| 0 <= k < |ws'| && ws'[k].at <= i < ws'[k].End();
        assert (ws + ws')[|ws| + k] == ws'[k];
      }
    }
  }

  lemma OutsideIsChanged(a: Bytes, b: Bytes, r: Range)
    requires |a| == |b| && SameOutside(a, b, r.at, r.End())
    ensures ChangedOnly(a, b, [r])
  {
    forall i | 0 <= i < |a| && b[i] != a[i] ensures InRanges([r], i) { assert [r][0] == r; }
  }

  lemma MissedByte(rs: seq<Range>, ws: seq<Range>, k: nat, i: nat)
    requires AllMiss(rs, ws) && k < |rs| && rs[k].at <= i < rs[k].End()
    ensures !InRanges(ws, i)
  {
    forall j | 0 <= j < |ws| ensures !(ws[j].at <= i < ws[j].End()) { assert Misses(rs[k], ws[j]); }
  }

  /** Agreement survives changes that miss it. */
  lemma StillAgree(m: Bytes, m': Bytes, m'': Bytes, rs: seq<Range>, ws: seq<Range>)
    requires Agree(m, m', rs) && ChangedOnly(m', m'', ws) && AllMiss(rs, ws)
    ensures Agree(m, m'', rs)
  {
    hide InRanges, AllMiss;
    forall k | 0 <= k < |rs| ensures Same(m, m'', rs[k].at, rs[k].End()) {
      assert Same(m, m', rs[k].at, rs[k].End());
      forall i: nat | rs[k].at <= i < rs[k].End() && i < |m| ensures m''[i] == m'[i] {
        MissedByte(rs, ws, k, i);
      }
    }
  }

  lemma AgreeSlice(m: Bytes, m': Bytes, rs: seq<Range>, k: nat)
    requires Agree(m, m', rs) && k < |rs| && rs[k].End() <= |m|
    ensures m'[rs[k].at..rs[k].End()] == m[rs[k].at..rs[k].End()]
  {
    assert Same(m, m', rs[k].at, rs[k].End());
  }

  lemma AgreeParts(m: Bytes, m': Bytes, rs: seq<Range>, rs': seq<Range>)
    requires Agree(m, m', rs + rs')
    ensures Agree(m, m', rs) && Agree(m, m', rs')
  {
    forall k | 0 <= k < |rs| ensures Same(m, m', rs[k].at, rs[k].End()) { assert (rs + rs')[k] == rs[k]; }
    forall k | 0 <= k < |rs'| ensures Same(m, m', rs'[k].at, rs'[k].End()) { assert (rs + rs')[|rs| + k] == rs'[k]; }
  }

  lemma MissParts(rs: seq<Range>, rs': seq<Range>, ws: seq<Range>, ws': seq<Range>)
    requires AllMiss(rs + rs', ws + ws')
    ensures AllMiss(rs, ws) && AllMiss(rs', ws) && AllMiss(rs, ws') && AllMiss(rs', ws')
  {
    var r, w := rs + rs', ws + ws';
    forall j, k | 0 <= j < |rs| && 0 <= k < |ws| ensures Misses(rs[j], ws[k]) { assert r[j] == rs[j] && w[k] == ws[k]; }
    forall j, k | 0 <= j < |rs'| && 0 <= k < |ws| ensures Misses(rs'[j], ws[k]) {
      assert r[|rs| + j] == rs'[j] && w[k] == ws[k];
    }
    forall j, k | 0 <= j < |rs| && 0 <= k < |ws'| ensures Misses(rs[j], ws'[k]) {
      assert r[j] == rs[j] && w[|ws| + k] == ws'[k];
    }
    forall j, k | 0 <= j < |rs'| && 0 <= k < |ws'| ensures Misses(rs'[j], ws'[k]) {
      assert r[|rs| + j] == rs'[j] && w[|ws| + k] == ws'[k];
    }
  }

  // ----- plans -----

  /** What decides the decoder's way, what it rewrites, and whether it survives. */
  datatype Plan = Plan(seen: seq<Range>, rewritten: seq<Range>, ok: bool)

  function PlanAttribute(w: World, maps: seq<Mapping>, address: u64): Plan
    requires Sane(w, maps)
  {
    match Fetch(maps, address, 16)
    case None => Plan([], [], true)
    case Some(q) =>
      FetchedInSpace(maps, address, 16);
      var vb := DecodeAttributeBuffer(GetWords(w.ram[q..q + 16]));
      if vb.elementSize == 0 then Plan([Range(q, 16)], [], false)
      else PlanVertices(maps, Range(q, 16), ClearLow(vb.elements, 2), vb.totalSize, vb.elementSize / 4, VertexCount(vb))
  }

  function PlanVertices(maps: seq<Mapping>, read: Range, raw: u64, size: u32, components: nat, count: nat): Plan {
    match Fetch(maps, raw, size)
    case None => Plan([read], [], count == 0)
    case Some(p) =>
      if p + Span(4 * components, count) > SPACE then Plan([read], [], false)
      else Plan([read], [Range(p, Span(4 * components, count))], true)
  }

  function PlanAttributes(w: World, maps: seq<Mapping>, attributes: u32, s: u64): Plan
    requires Sane(w, maps)
    decreases WORD64 - s
  {
    match Fetch(maps, s, 8)
    case None => Plan([], [], false)
    case Some(q) =>
      FetchedInSpace(maps, s, 8);
      var b := w.ram[q..q + 8];
      var meta := QuadOf(Get32(b, 0), Get32(b, 4));
      if meta == 0 then Plan([Range(q, 8)], [], true)
      else
        var a := PlanAttribute(w, maps, attributes + BitAnd(meta, 0xFF) * 16);
        if !a.ok then Plan([Range(q, 8)] + a.seen, a.rewritten, false)
        else
          var rest := PlanAttributes(w, maps, attributes, s + 8);
          Plan([Range(q, 8)] + a.seen + rest.seen, a.rewritten + rest.rewritten, rest.ok)
  }

  /** `w'` is another memory that agrees on what is read. */
  lemma VerticesPlanned(w': World, maps: seq<Mapping>, read: Range, raw: u64, size: u32, components: nat,
                        count: nat, event: Event, jitter: Jitter)
    requires Sane(w', maps)
    ensures var p, t := PlanVertices(maps, read, raw, size, components, count),
                        TraceVertices(w', maps, raw, size, components, count, event, jitter);
      t.ok == p.ok && ChangedOnly(w'.ram, t.world.ram, p.rewritten) && p.seen == [read]
  {
    hide Fetch, InSpace, ChangedOnly, SameOutside, JitterVertices, Span;
    NothingChanged(w'.ram, []);
    match Fetch(maps, raw, size)
    case None =>
    case Some(p) =>
      var n := Span(4 * components, count);
      if p + n <= SPACE {
        JitterFrame(w', p, 4 * components, count, jitter, p, p + n);
        OutsideIsChanged(w'.ram, JitterVertices(w', p, 4 * components, count, jitter).ram, Range(p, n));
      }
  }

  lemma AttributePlanned(w: World, w': World, maps: seq<Mapping>, address: u64, jitter: Jitter)
    requires Sane(w, maps) && Sane(w', maps) && Agree(w.ram, w'.ram, PlanAttribute(w, maps, address).seen)
    ensures var p, t := PlanAttribute(w, maps, address), TraceAttribute(w', maps, address, jitter);
      t.ok == p.ok && ChangedOnly(w'.ram, t.world.ram, p.rewritten)
  {
    hide Fetch, InSpace, Agree, ChangedOnly, PlanVertices, TraceVertices, GetWords, DecodeAttributeBuffer, BitAnd,
         HighMask;
    NothingChanged(w'.ram, []);
    var q := Fetch(maps, address, 16);
    if q.Some? {
      FetchedInSpace(maps, address, 16);
      AttributeRead(w, w', maps, address, q.value);
      var vb := DecodeAttributeBuffer(GetWords(w.ram[q.value..q.value + 16]));
      if vb.elementSize != 0 {
        var raw := ClearLow(vb.elements, 2);
        VerticesPlanned(w', maps, Range(q.value, 16), raw, vb.totalSize, vb.elementSize / 4, VertexCount(vb),
                        Vertices(vb.elementSize / 4, raw, vb.elements - raw, VertexCount(vb)), jitter);
      }
    }
  }

  lemma AttributeRead(w: World, w': World, maps: seq<Mapping>, address: u64, q: u64)
    requires Sane(w, maps) && Sane(w', maps) && Agree(w.ram, w'.ram, PlanAttribute(w, maps, address).seen)
    requires Fetch(maps, address, 16) == Some(q)
    ensures q + 16 <= SPACE && w'.ram[q..q + 16] == w.ram[q..q + 16]
  {
    hide Fetch, InSpace, GetWords, DecodeAttributeBuffer, ClearLow, Agree;
    FetchedInSpace(maps, address, 16);
    var rs := PlanAttribute(w, maps, address).seen;
    assert rs[0] == Range(q, 16);
    AgreeSlice(w.ram, w'.ram, rs, 0);
  }

  /** The metadata list, in a memory that agrees on all that is read of it and on the
      payload at `v`, which has the address of the attribute array. */
  lemma {:induction false} AttributesPlanned(w: World, w': World, maps: seq<Mapping>, v: nat, s: u64, jitter: Jitter)
    requires Sane(w, maps) && Sane(w', maps) && v + 4 * VT_WORDS <= SPACE
    requires var p := PlanAttributes(w, maps, AttributesIn(w, v), s);
      && Agree(w.ram, w'.ram, p.seen) && AllMiss(p.seen, p.rewritten)
      && Agree(w.ram, w'.ram, [Range(v, 4 * VT_WORDS)]) && AllMiss([Range(v, 4 * VT_WORDS)], p.rewritten)
    ensures var p, t := PlanAttributes(w, maps, AttributesIn(w, v), s), TraceAttributes(w', maps, v, s, jitter);
      t.ok == p.ok && ChangedOnly(w'.ram, t.world.ram, p.rewritten)
    decreases WORD64 - s
  {
    hide InSpace, Agree, AllMiss, ChangedOnly, PlanAttribute, TraceAttribute, Get32, QuadOf, BitAnd, Fetch,
        AttributesIn;
    NothingChanged(w'.ram, []);
    var q, attributes, vs := Fetch(maps, s, 8), AttributesIn(w, v), [Range(v, 4 * VT_WORDS)];
    SameArray(w, w', v);
    if q.Some? {
      FetchedInSpace(maps, s, 8);
      MetaRead(w, w', maps, attributes, s, q.value);
      var b := w.ram[q.value..q.value + 8];
      var meta := QuadOf(Get32(b, 0), Get32(b, 4));
      if meta != 0 {
        var address: u64 := attributes + BitAnd(meta, 0xFF) * 16;
        var a, t := PlanAttribute(w, maps, address), TraceAttribute(w', maps, address, jitter);
        ListParts(w, w', maps, attributes, s, q.value);
        AttributePlanned(w, w', maps, address, jitter);
        if a.ok {
          var rest := PlanAttributes(w, maps, attributes, s + 8);
          assert vs + [] == vs;
          MissParts(vs, [], a.rewritten, rest.rewritten);
          StillAgree(w.ram, w'.ram, t.world.ram, rest.seen, a.rewritten);
          StillAgree(w.ram, w'.ram, t.world.ram, vs, a.rewritten);
          AttributesPlanned(w, t.world, maps, v, s + 8, jitter);
          ChangedTwice(w'.ram, t.world.ram, TraceAttributes(t.world, maps, v, s + 8, jitter).world.ram,
                       a.rewritten, rest.rewritten);
        }
      }
    }
  }

  /** Agreement on the payload is agreement on the array's address. */
  lemma SameArray(w: World, w': World, v: nat)
    requires v + 4 * VT_WORDS <= |w.ram| == |w'.ram| && Agree(w.ram, w'.ram, [Range(v, 4 * VT_WORDS)])
    ensures AttributesIn(w', v) == AttributesIn(w, v)
  {
    hide Agree, DecodeVertexTiler, GetWords;
    AgreeSlice(w.ram, w'.ram, [Range(v, 4 * VT_WORDS)], 0);
  }

  lemma MetaRead(w: World, w': World, maps: seq<Mapping>, attributes: u32, s: u64, q: u64)
    requires Sane(w, maps) && Sane(w', maps) && Agree(w.ram, w'.ram, PlanAttributes(w, maps, attributes, s).seen)
    requires Fetch(maps, s, 8) == Some(q)
    ensures q + 8 <= SPACE && w'.ram[q..q + 8] == w.ram[q..q + 8]
  {
    hide Fetch, InSpace, PlanAttribute, Agree, Get32, QuadOf, BitAnd;
    FetchedInSpace(maps, s, 8);
    var rs := PlanAttributes(w, maps, attributes, s).seen;
    assert rs[0] == Range(q, 8);
    AgreeSlice(w.ram, w'.ram, rs, 0);
  }

  ghost predicate RestApart(w: World, w': World, rest: Plan, a: Plan) {
    Agree(w.ram, w'.ram, rest.seen) && AllMiss(rest.seen, a.rewritten) && AllMiss(rest.seen, rest.rewritten)
  }

  /** The parts of a list that does not end at `s`. */
  lemma ListParts(w: World, w': World, maps: seq<Mapping>, attributes: u32, s: u64, q: u64)
    requires Sane(w, maps) && Sane(w', maps) && Fetch(maps, s, 8) == Some(q) && q + 8 <= SPACE
    requires var p := PlanAttributes(w, maps, attributes, s);
             Agree(w.ram, w'.ram, p.seen) && AllMiss(p.seen, p.rewritten)
    requires var b := w.ram[q..q + 8]; QuadOf(Get32(b, 0), Get32(b, 4)) != 0
    ensures var b := w.ram[q..q + 8];
      var a := PlanAttribute(w, maps, attributes + BitAnd(QuadOf(Get32(b, 0), Get32(b, 4)), 0xFF) * 16);
      && Agree(w.ram, w'.ram, a.seen)
      && (a.ok ==> s + 8 < WORD64 && RestApart(w, w', PlanAttributes(w, maps, attributes, s + 8), a))
  {
    hide InSpace, Agree, AllMiss, PlanAttribute, Get32, QuadOf, BitAnd, Fetch;
    FetchedInSpace(maps, s, 8);
    var b := w.ram[q..q + 8];
    var a := PlanAttribute(w, maps, attributes + BitAnd(QuadOf(Get32(b, 0), Get32(b, 4)), 0xFF) * 16);
    if a.ok {
      var rest := PlanAttributes(w, maps, attributes, s + 8);
      AgreeParts(w.ram, w'.ram, [Range(q, 8)] + a.seen, rest.seen);
      AgreeParts(w.ram, w'.ram, [Range(q, 8)], a.seen);
      MissParts([Range(q, 8)] + a.seen, rest.seen, a.rewritten, rest.rewritten);
    } else {
      AgreeParts(w.ram, w'.ram, [Range(q, 8)], a.seen);
    }
  }

  // ----- plans of jobs -----

  /** The part after the attributes survives. */
  predicate TailOk(maps: seq<Mapping>, jobType: u7, vt: VertexTiler) {
    Fetch(maps, ClearLow(vt.fbd, 6), 280).Some? && TraceAddresses(maps, vt.Addresses(), jobType, 0).1
  }

  function PlanShaded(w: World, maps: seq<Mapping>, h: nat, vt: VertexTiler, s: u64): Plan
    requires Sane(w, maps) && h + HEADER_SIZE <= SPACE
  {
    if Fetch(maps, ClearLow(s, 4), 0x340).None? then Plan([], [], false)
    else
      var a := PlanAttributes(w, maps, vt.attributes, vt.attributeMeta);
      Plan(a.seen, a.rewritten, a.ok && TailOk(maps, TypeIn(w, h), vt))
  }

  function PlanVertexTiler(w: World, maps: seq<Mapping>, h: nat, v: nat): Plan
    requires Sane(w, maps) && h + HEADER_SIZE <= SPACE && v + 4 * VT_WORDS <= SPACE
  {
    var vt := PayloadIn(w, v);
    if IsSabotaged(vt) then Plan([], [], true)
    else
      match Fetch(maps, vt.shader, 8)
      case None => Plan([], [], false)
      case Some(q) =>
        FetchedInSpace(maps, vt.shader, 8);
        var b := w.ram[q..q + 8];
        var p := PlanShaded(w, maps, h, vt, QuadOf(Get32(b, 0), Get32(b, 4)));
        Plan([Range(q, 8)] + p.seen, p.rewritten, p.ok)
  }

  function PlanPayload(w: World, maps: seq<Mapping>, h: nat, payload: u64): Plan
    requires Sane(w, maps) && h + HEADER_SIZE <= SPACE
  {
    var jobType := TypeIn(w, h);
    if jobType == JOB_TYPE_SET_VALUE then Plan([], [], Fetch(maps, payload, 16).Some?)
    else if jobType == JOB_TYPE_VERTEX || jobType == JOB_TYPE_TILER then
      match Fetch(maps, payload, 4 * VT_WORDS)
      case None => Plan([], [], false)
      case Some(v) =>
        FetchedInSpace(maps, payload, 4 * VT_WORDS);
        var p := PlanVertexTiler(w, maps, h, v);
        Plan([Range(v, 4 * VT_WORDS)] + p.seen, p.rewritten, p.ok)
    else if jobType == JOB_TYPE_FRAGMENT then
      match Fetch(maps, payload, 16)
      case None => Plan([], [], false)
      case Some(q) => Plan([Range(q, 16)], [], TraceFragment(w, maps, payload).ok)
    else Plan([], [], true)
  }

  /** The whole of a job: header, payload, shader word, metadata words and attribute
      buffers are read, the spans of its vertices are rewritten. */
  function PlanJob(w: World, maps: seq<Mapping>, chain: u64): Plan
    requires Sane(w, maps)
  {
    match Fetch(maps, chain, HEADER_SIZE)
    case None => Plan([], [], true)
    case Some(h) =>
      FetchedInSpace(maps, chain, HEADER_SIZE);
      var p := PlanPayload(w, maps, h, (chain + HEADER_SIZE) % WORD64);
      Plan([Range(h, HEADER_SIZE)] + p.seen, p.rewritten, p.ok)
  }

  lemma TailPlanned(w: World, maps: seq<Mapping>, jobType: u7, vt: VertexTiler)
    requires Sane(w, maps) && vt.Sized()
    ensures TraceTail(w, maps, jobType, vt).ok == TailOk(maps, jobType, vt)
  {
    hide Fetch, InSpace, TraceAddresses, DecodeMfbd, GetWords, Modes, BitAnd, HighMask;
  }

  /** Attributes and the rest of a job; its header and payload are not rewritten. */
  lemma BodyPlanned(w: World, w': World, maps: seq<Mapping>, h: nat, v: nat, jitter: Jitter)
    requires Sane(w, maps) && Sane(w', maps) && h + HEADER_SIZE <= SPACE && v + 4 * VT_WORDS <= SPACE
    requires var vt := PayloadIn(w, v); var a := PlanAttributes(w, maps, vt.attributes, vt.attributeMeta);
      var rs := [Range(h, HEADER_SIZE), Range(v, 4 * VT_WORDS)];
      && Agree(w.ram, w'.ram, a.seen) && AllMiss(a.seen, a.rewritten)
      && Agree(w.ram, w'.ram, rs) && AllMiss(rs, a.rewritten)
    ensures var vt := PayloadIn(w, v); var a := PlanAttributes(w, maps, vt.attributes, vt.attributeMeta);
      var t := TraceBody(w', maps, h, v, vt, jitter);
      t.ok == (a.ok && TailOk(maps, TypeIn(w, h), vt)) && ChangedOnly(w'.ram, t.world.ram, a.rewritten)
  {
    hide InSpace, Agree, AllMiss, ChangedOnly, PlanAttributes, TraceAttributes, TraceTail, DecodeHeader,
         DecodeVertexTiler, GetWords, TailOk;
    var vt := PayloadIn(w, v);
    var a, t := PlanAttributes(w, maps, vt.attributes, vt.attributeMeta),
                TraceAttributes(w', maps, v, vt.attributeMeta, jitter);
    var hs, vs := [Range(h, HEADER_SIZE)], [Range(v, 4 * VT_WORDS)];
    var rs := [Range(h, HEADER_SIZE), Range(v, 4 * VT_WORDS)];
    assert rs == hs + vs && a.rewritten + [] == a.rewritten;
    AgreeParts(w.ram, w'.ram, hs, vs);
    MissParts(hs, vs, a.rewritten, []);
    AttributesPlanned(w, w', maps, v, vt.attributeMeta, jitter);
    if a.ok {
      StillAgree(w.ram, w'.ram, t.world.ram, rs, a.rewritten);
      SameRecords(w, t.world, h, v);
      TailPlanned(t.world, maps, TypeIn(w, h), vt);
    }
  }

  lemma SameRecords(w: World, w': World, h: nat, v: nat)
    requires h + HEADER_SIZE <= |w.ram| && v + 4 * VT_WORDS <= |w.ram|
    requires Agree(w.ram, w'.ram, [Range(h, HEADER_SIZE), Range(v, 4 * VT_WORDS)])
    ensures |w.ram| == |w'.ram| && TypeIn(w', h) == TypeIn(w, h) && PayloadIn(w', v) == PayloadIn(w, v)
    ensures w'.ram[h..h + HEADER_SIZE] == w.ram[h..h + HEADER_SIZE]
  {
    hide Agree, DecodeHeader, DecodeVertexTiler, GetWords;
    assert |w.ram| == |w'.ram| by { SameSize(w.ram, w'.ram, [Range(h, HEADER_SIZE), Range(v, 4 * VT_WORDS)]); }
    AgreeSlice(w.ram, w'.ram, [Range(h, HEADER_SIZE), Range(v, 4 * VT_WORDS)], 0);
    AgreeSlice(w.ram, w'.ram, [Range(h, HEADER_SIZE), Range(v, 4 * VT_WORDS)], 1);
  }

  lemma SameSize(m: Bytes, m': Bytes, rs: seq<Range>)
    requires Agree(m, m', rs)
    ensures |m| == |m'|
  {
  }

  /** Agreement on the ranges, which the rewritten ones miss. */
  ghost predicate Safe(w: World, w': World, rs: seq<Range>, ws: seq<Range>) {
    Agree(w.ram, w'.ram, rs) && AllMiss(rs, ws)
  }

  lemma SafeParts(w: World, w': World, rs: seq<Range>, rs': seq<Range>, ws: seq<Range>)
    requires Safe(w, w', rs + rs', ws)
    ensures Safe(w, w', rs, ws) && Safe(w, w', rs', ws)
  {
    hide Agree, AllMiss;
    AgreeParts(w.ram, w'.ram, rs, rs');
    assert ws + [] == ws;
    MissParts(rs, rs', ws, []);
  }

  /** The outcome of a trace is what the plan says. */
  ghost predicate AsPlanned(w: World, t: Traced, p: Plan) {
    t.ok == p.ok && ChangedOnly(w.ram, t.world.ram, p.rewritten)
  }

  lemma ShadedPlanned(w: World, w': World, maps: seq<Mapping>, h: nat, v: nat, s: u64, jitter: Jitter)
    requires Sane(w, maps) && Sane(w', maps) && h + HEADER_SIZE <= SPACE && v + 4 * VT_WORDS <= SPACE
    requires var p := PlanShaded(w, maps, h, PayloadIn(w, v), s);
      && Safe(w, w', p.seen, p.rewritten) && Safe(w, w', [Range(h, HEADER_SIZE), Range(v, 4 * VT_WORDS)], p.rewritten)
    ensures AsPlanned(w', TraceShaded(w', maps, h, v, PayloadIn(w, v), s, jitter),
                      PlanShaded(w, maps, h, PayloadIn(w, v), s))
  {
    hide InSpace, Agree, AllMiss, ChangedOnly, PlanAttributes, TraceBody, DecodeHeader, PayloadIn, Fetch, ClearLow,
         BitAnd, TailOk;
    NothingChanged(w'.ram, []);
    if Fetch(maps, ClearLow(s, 4), 0x340).Some? { BodyPlanned(w, w', maps, h, v, jitter); }
  }

  lemma VertexTilerPlanned(w: World, w': World, maps: seq<Mapping>, h: nat, v: nat, jitter: Jitter)
    requires Sane(w, maps) && Sane(w', maps) && h + HEADER_SIZE <= SPACE && v + 4 * VT_WORDS <= SPACE
    requires var p := PlanVertexTiler(w, maps, h, v);
      && Safe(w, w', p.seen, p.rewritten) && Safe(w, w', [Range(h, HEADER_SIZE), Range(v, 4 * VT_WORDS)], p.rewritten)
    ensures AsPlanned(w', TraceVertexTiler(w', maps, h, v, jitter), PlanVertexTiler(w, maps, h, v))
  {
    hide InSpace, Agree, AllMiss, ChangedOnly, PlanShaded, TraceShaded, DecodeHeader, PayloadIn, Fetch, IsSabotaged,
         Get32, QuadOf;
    NothingChanged(w'.ram, []);
    SameRecords(w, w', h, v);
    var vt := PayloadIn(w, v);
    if !IsSabotaged(vt) && Fetch(maps, vt.shader, 8).Some? {
      FetchedInSpace(maps, vt.shader, 8);
      var q := Fetch(maps, vt.shader, 8).value;
      var b := w.ram[q..q + 8];
      var s := QuadOf(Get32(b, 0), Get32(b, 4));
      var p := PlanShaded(w, maps, h, vt, s);
      SafeParts(w, w', [Range(q, 8)], p.seen, p.rewritten);
      AgreeSlice(w.ram, w'.ram, [Range(q, 8)], 0);
      ShadedPlanned(w, w', maps, h, v, s, jitter);
    }
  }

  /** A payload, with its header at `h`. */
  lemma PayloadPlanned(w: World, w': World, maps: seq<Mapping>, h: nat, payload: u64, jitter: Jitter)
    requires Sane(w, maps) && Sane(w', maps) && h + HEADER_SIZE <= SPACE
    requires var p := PlanPayload(w, maps, h, payload); Safe(w, w', [Range(h, HEADER_SIZE)] + p.seen, p.rewritten)
    ensures AsPlanned(w', TracePayload(w', maps, h, payload, jitter), PlanPayload(w, maps, h, payload))
  {
    hide InSpace, Agree, AllMiss, ChangedOnly, PlanVertexTiler, TraceVertexTiler, DecodeHeader, GetWords, Fetch,
         DecodeSetValue, TraceFragment;
    NothingChanged(w'.ram, []);
    var p := PlanPayload(w, maps, h, payload);
    SafeParts(w, w', [Range(h, HEADER_SIZE)], p.seen, p.rewritten);
    AgreeSlice(w.ram, w'.ram, [Range(h, HEADER_SIZE)], 0);
    var jobType := TypeIn(w, h);
    if jobType == JOB_TYPE_VERTEX || jobType == JOB_TYPE_TILER {
      LivePlanned(w, w', maps, h, payload, jitter);
    } else if jobType == JOB_TYPE_FRAGMENT {
      FragmentPlanned(w, w', maps, h, payload);
    }
  }

  lemma LivePlanned(w: World, w': World, maps: seq<Mapping>, h: nat, payload: u64, jitter: Jitter)
    requires Sane(w, maps) && Sane(w', maps) && h + HEADER_SIZE <= SPACE && TypeIn(w, h) == TypeIn(w', h)
    requires TypeIn(w, h) == JOB_TYPE_VERTEX || TypeIn(w, h) == JOB_TYPE_TILER
    requires var p := PlanPayload(w, maps, h, payload); Safe(w, w', [Range(h, HEADER_SIZE)] + p.seen, p.rewritten)
    ensures AsPlanned(w', TracePayload(w', maps, h, payload, jitter), PlanPayload(w, maps, h, payload))
  {
    hide InSpace, Agree, AllMiss, ChangedOnly, PlanVertexTiler, TraceVertexTiler, DecodeHeader, Fetch;
    NothingChanged(w'.ram, []);
    if Fetch(maps, payload, 4 * VT_WORDS).Some? {
      FetchedInSpace(maps, payload, 4 * VT_WORDS);
      var v := Fetch(maps, payload, 4 * VT_WORDS).value;
      var p, hs, vs := PlanVertexTiler(w, maps, h, v), [Range(h, HEADER_SIZE)], [Range(v, 4 * VT_WORDS)];
      assert hs + (vs + p.seen) == (hs + vs) + p.seen;
      assert hs + vs == [Range(h, HEADER_SIZE), Range(v, 4 * VT_WORDS)];
      SafeParts(w, w', hs + vs, p.seen, p.rewritten);
      VertexTilerPlanned(w, w', maps, h, v, jitter);
    }
  }

  lemma FragmentPlanned(w: World, w': World, maps: seq<Mapping>, h: nat, payload: u64)
    requires Sane(w, maps) && Sane(w', maps) && h + HEADER_SIZE <= SPACE && TypeIn(w, h) == JOB_TYPE_FRAGMENT
    requires Agree(w.ram, w'.ram, PlanPayload(w, maps, h, payload).seen)
    ensures TraceFragment(w', maps, payload).ok == PlanPayload(w, maps, h, payload).ok
    ensures TraceFragment(w', maps, payload).world == w'
  {
    hide InSpace, Agree, DecodeHeader, GetWords, Fetch, BitAnd, HighMask, DecodeMfbd;
    if Fetch(maps, payload, 16).Some? {
      FetchedInSpace(maps, payload, 16);
      var q := Fetch(maps, payload, 16).value;
      AgreeSlice(w.ram, w'.ram, [Range(q, 16)], 0);
    }
  }

  /** Tracing a job in any memory that agrees with `w` on all that is read of it goes
      as planned, and the link it is left by is the one in `w`. */
  lemma JobPlanned(w: World, w': World, maps: seq<Mapping>, a: u64, jitter: Jitter)
    requires Sane(w, maps) && Sane(w', maps)
    requires var p := PlanJob(w, maps, a); Safe(w, w', p.seen, p.rewritten)
    ensures AsPlanned(w', TraceJob(w', maps, a, jitter).0, PlanJob(w, maps, a))
    ensures TraceJob(w', maps, a, jitter).1 == Link(w, maps, a)
  {
    hide InSpace, Agree, AllMiss, ChangedOnly, PlanPayload, TracePayload, DecodeHeader, Fetch;
    NothingChanged(w'.ram, []);
    if Fetch(maps, a, HEADER_SIZE).Some? {
      FetchedInSpace(maps, a, HEADER_SIZE);
      var h := Fetch(maps, a, HEADER_SIZE).value;
      var payload: u64 := (a + HEADER_SIZE) % WORD64;
      PayloadPlanned(w, w', maps, h, payload, jitter);
      var p, t := PlanPayload(w, maps, h, payload), TracePayload(w', maps, h, payload, jitter);
      SafeParts(w, w', [Range(h, HEADER_SIZE)], p.seen, p.rewritten);
      StillAgree(w.ram, w'.ram, t.world.ram, [Range(h, HEADER_SIZE)], p.rewritten);
      AgreeSlice(w.ram, t.world.ram, [Range(h, HEADER_SIZE)], 0);
    }
  }
}
