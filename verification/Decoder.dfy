/** The job-chain decoder: what it reads through the shadow map, what it prints,
    and the one thing it changes, the vertices it disturbs for show. */
module Decoder {
  import opened Options
  import opened Bits
  import opened Memory
  import opened Layouts
  import opened ShadowMap
  import opened Atoms

  /** What is printed, without opaque dumps.  Addresses are as printed. */
  datatype Event =
    | Unmapped(chain: u64)
    | Job(chain: u64, header: Header)
    | SetValueJob(value: SetValue)
    | Sabotaged
    | Shader(vertex: bool, code: u64, flags: u64)
    | Attribute(number: u64, flags: u64)
    | Vertices(components: nat, raw: u64, flags: u64, count: nat)
    | DrawingMode(mode: u8)
    | NullTripped
    | FbdKind(multiple: bool)
    | FbdAt(pointer: u32, tag: u32, mfbd: Mfbd)
    | AddressWord(index: nat, address: u32)
    | FragmentJob(fragment: Fragment, minX: u32, minY: nat, maxX: u32, maxY: nat)
    | OtherPayload(payload: u64)
    | ReplayAtom(replay: Replay)
    | UnknownSoftJob
    | JcUnmapped(jc: u64)

  /** The memory, and how many random numbers have been drawn. */
  datatype World = World(ram: Bytes, draws: nat)

  /** The float sum of a vertex word and the `n`-th random number, as a word. */
  type Jitter = (nat, u32) -> u32

  /** `ok` is false when the decoder has divided by zero or gone through NULL. */
  datatype Traced = Traced(events: seq<Event>, world: World, ok: bool)

  /** Every recorded mapping lies in the address space. */
  predicate InSpace(maps: seq<Mapping>) {
    forall m | m in maps :: m.addr + m.length <= SPACE
  }

  predicate Sane(w: World, maps: seq<Mapping>) {
    |w.ram| == SPACE && InSpace(maps)
  }

  /** A fetched range can be dereferenced, and does not reach the top of the
      64-bit GPU address space. */
  lemma FetchedInSpace(maps: seq<Mapping>, gpuAddr: u64, sz: u32)
    requires InSpace(maps) && Fetch(maps, gpuAddr, sz).Some?
    ensures Fetch(maps, gpuAddr, sz).value + sz <= SPACE
    ensures gpuAddr + sz < WORD64
  {
    var m := maps[First(maps, InGpuRange(gpuAddr))];
    assert m in maps && InGpuRange(gpuAddr)(m);
    FoundInside(m, gpuAddr, sz);
  }

  /** 32-bit lengths leave no room for the sums of the lookup to wrap. */
  lemma FoundInside(m: Mapping, gpuAddr: u64, sz: u32)
    requires m.addr + m.length <= SPACE && Covers(m.gpuVa, m.length, gpuAddr)
    requires (gpuAddr - m.gpuVa + sz) % WORD64 <= m.length
    ensures (m.addr + (gpuAddr - m.gpuVa)) % WORD64 + sz <= SPACE
    ensures gpuAddr + sz < WORD64
  {
    var offset: nat := gpuAddr - m.gpuVa;
    assert m.gpuVa + m.length < WORD64;
    assert (offset + sz) % WORD64 == offset + sz;
    assert (m.addr + offset) % WORD64 == m.addr + offset;
  }

  /** The bytes behind a fetched pointer; `None` is NULL. */
  function Peek(w: World, maps: seq<Mapping>, gpuAddr: u64, sz: u32): (r: Option<Bytes>)
    requires Sane(w, maps)
    ensures r.Some? ==> |r.value| == sz && gpuAddr + sz < WORD64
  {
    match Fetch(maps, gpuAddr, sz)
    case None => None
    case Some(p) =>
      FetchedInSpace(maps, gpuAddr, sz);
      Some(w.ram[p..p + sz])
  }

  // ----- one attribute -----

  /** One vertex word at CPU address `p` replaced. */
  function JitterWord(w: World, p: nat, jitter: Jitter): (r: World)
    requires p + 4 <= |w.ram|
    ensures |r.ram| == |w.ram|
  {
    World(Put(w.ram, p, Le32(jitter(w.draws, Get32(w.ram, p)))), w.draws + 1)
  }

  /** The first three words of one vertex. */
  function JitterVertex(w: World, p: nat, jitter: Jitter): (r: World)
    requires p + 12 <= |w.ram|
    ensures |r.ram| == |w.ram|
  {
    JitterWord(JitterWord(JitterWord(w, p, jitter), p + 4, jitter), p + 8, jitter)
  }

  /** Bytes from the first to the end of the last of `count` vertices. */
  function Span(stride: nat, count: nat): nat {
    if count == 0 then 0 else if count == 1 then 12 else stride + Span(stride, count - 1)
  }

  /** `count` vertices from `p` on, each `stride` bytes after the last: the first
      three words of each are replaced, whatever the stride. */
  function JitterVertices(w: World, p: nat, stride: nat, count: nat, jitter: Jitter): (r: World)
    requires p + Span(stride, count) <= |w.ram|
    ensures |r.ram| == |w.ram|
    decreases count
  {
    if count == 0 then w
    else if count == 1 then JitterVertex(w, p, jitter)
    else
      SpanCovers(stride, count);
      JitterVertices(JitterVertex(w, p, jitter), p + stride, stride, count - 1, jitter)
  }

  lemma {:induction false} SpanCovers(stride: nat, count: nat)
    ensures count > 0 ==> Span(stride, count) >= 12
  {
    if count > 1 { SpanCovers(stride, count - 1); }
  }

  /** The attribute's data, once its buffer descriptor has been read. */
  function TraceVertices(w: World, maps: seq<Mapping>, raw: u64, size: u32, components: nat, count: nat,
                         event: Event, jitter: Jitter): (t: Traced)
    requires Sane(w, maps)
    ensures |t.world.ram| == SPACE
  {
    match Fetch(maps, raw, size)
    case None => Traced([event], w, count == 0)
    case Some(p) =>
      if p + Span(4 * components, count) > SPACE then Traced([event], w, false)
      else Traced([event], JitterVertices(w, p, 4 * components, count, jitter), true)
  }

  function VertexCount(vb: AttributeBuffer): nat
    requires vb.elementSize != 0
  {
    vb.totalSize / vb.elementSize
  }

  function TraceAttribute(w: World, maps: seq<Mapping>, address: u64, jitter: Jitter): (t: Traced)
    requires Sane(w, maps)
    ensures |t.world.ram| == SPACE
  {
    match Peek(w, maps, address, 16)
    case None => Traced([], w, true)
    case Some(b) =>
      var vb := DecodeAttributeBuffer(GetWords(b));
      if vb.elementSize == 0 then Traced([], w, false)
      else
        var raw := ClearLow(vb.elements, 2);
        var components, count := vb.elementSize / 4, VertexCount(vb);
        TraceVertices(w, maps, raw, vb.totalSize, components, count,
                      Vertices(components, raw, vb.elements - raw, count), jitter)
  }

  // ----- the attribute list of a job -----

  /** The attribute array's address, as the payload at CPU address `v` has it. */
  function AttributesIn(w: World, v: nat): u32
    requires v + 4 * VT_WORDS <= |w.ram|
  {
    PayloadIn(w, v).attributes
  }

  /** The list from `s` on.  The array's address is read again for each attribute, from
      the payload at `v`, which may have been disturbed meanwhile. */
  function TraceAttributes(w: World, maps: seq<Mapping>, v: nat, s: u64, jitter: Jitter): (t: Traced)
    requires Sane(w, maps) && v + 4 * VT_WORDS <= SPACE
    ensures |t.world.ram| == SPACE
    decreases WORD64 - s
  {
    match Peek(w, maps, s, 8)
    case None => Traced([], w, false)
    case Some(b) =>
      var meta := QuadOf(Get32(b, 0), Get32(b, 4));
      if meta == 0 then Traced([], w, true)
      else
        var number := BitAnd(meta, 0xFF);
        var event := Attribute(number, BitAnd(meta, 0xFFFF_FFFF_FFFF_FF00));
        var a := TraceAttribute(w, maps, AttributesIn(w, v) + number * 16, jitter);
        if !a.ok then Traced([event] + a.events, a.world, false)
        else
          var rest := TraceAttributes(a.world, maps, v, s + 8, jitter);
          Traced([event] + a.events + rest.events, rest.world, rest.ok)
  }

  // ----- the rest of a vertex or tiler job -----

  function TraceFbd(w: World, maps: seq<Mapping>, fbd: u32): Traced
    requires Sane(w, maps)
  {
    var pointer := ClearLow(fbd, 6);
    match Peek(w, maps, pointer, 280)
    case None => Traced([], w, false)
    case Some(b) => Traced([FbdAt(pointer, fbd - pointer, DecodeMfbd(GetWords(b)))], w, true)
  }

  /** Entries of the address array that the loop passes over. */
  predicate Skipped(k: nat, jobType: u7) {
    k == 2 || k == 3 || k == 6 || (k == 10 && jobType == JOB_TYPE_VERTEX) || k == 11 || k == 12
  }

  /** Bytes read through entry `k` without a check for NULL; 0 if none are. */
  function Dereferenced(k: nat, jobType: u7): u32 {
    if k == 1 then 0x10 else if k == 8 then 0x20 else if k == 4 && jobType == JOB_TYPE_TILER then 0x40 else 0
  }

  predicate Readable(maps: seq<Mapping>, k: nat, address: u32, jobType: u7) {
    address == 0 || Dereferenced(k, jobType) == 0 || Fetch(maps, address, Dereferenced(k, jobType)).Some?
  }

  /** The loop over the address array, from entry `k` on. */
  function TraceAddresses(maps: seq<Mapping>, addresses: seq<u32>, jobType: u7, k: nat): (r: (seq<Event>, bool))
    decreases |addresses| - k
  {
    if k >= |addresses| then ([], true)
    else if Skipped(k, jobType) then TraceAddresses(maps, addresses, jobType, k + 1)
    else if !Readable(maps, k, addresses[k], jobType) then ([AddressWord(k, addresses[k])], false)
    else
      var rest := TraceAddresses(maps, addresses, jobType, k + 1);
      ([AddressWord(k, addresses[k])] + rest.0, rest.1)
  }

  /** Drawing mode, null words and kind of framebuffer descriptor.  The mode is the
      byte at offset 8 of `block1`. */
  function Modes(jobType: u7, v: VertexTiler): seq<Event>
    requires v.Sized()
  {
    (if jobType == JOB_TYPE_TILER then [DrawingMode(v.block1[2] % 0x100)] else [])
    + (if BitOr(BitOr(v.null1, v.null2), v.null4) != 0 then [NullTripped] else [])
    + [FbdKind(BitAnd(v.fbd, 1) != 0)]
  }

  function TraceTail(w: World, maps: seq<Mapping>, jobType: u7, v: VertexTiler): Traced
    requires Sane(w, maps) && v.Sized()
  {
    var fbd := TraceFbd(w, maps, v.fbd);
    var events := Modes(jobType, v) + fbd.events;
    if !fbd.ok then Traced(events, w, false)
    else
      var addresses := TraceAddresses(maps, v.Addresses(), jobType, 0);
      Traced(events + addresses.0, w, addresses.1)
  }

  predicate IsSabotaged(v: VertexTiler) {
    BitAnd(v.shader, 0xFFF0_0000) == 0x5AB0_0000
  }

  function TypeIn(w: World, h: nat): u7
    requires h + HEADER_SIZE <= |w.ram|
  {
    DecodeHeader(w.ram[h..h + HEADER_SIZE]).jobType
  }

  function PayloadIn(w: World, v: nat): (vt: VertexTiler)
    requires v + 4 * VT_WORDS <= |w.ram|
    ensures vt.Sized()
  {
    DecodeVertexTiler(GetWords(w.ram[v..v + 4 * VT_WORDS]))
  }

  /** Attributes, and what comes after them.  Header and payload are read again after
      the vertices have been disturbed. */
  function TraceBody(w: World, maps: seq<Mapping>, h: nat, v: nat, vt: VertexTiler, jitter: Jitter): (t: Traced)
    requires Sane(w, maps) && h + HEADER_SIZE <= SPACE && v + 4 * VT_WORDS <= SPACE
    ensures |t.world.ram| == SPACE
  {
    var a := TraceAttributes(w, maps, v, vt.attributeMeta, jitter);
    if !a.ok then a
    else
      var tail := TraceTail(a.world, maps, TypeIn(a.world, h), PayloadIn(a.world, v));
      Traced(a.events + tail.events, a.world, tail.ok)
  }

  /** A job that is not sabotaged, with tagged shader pointer `s`. */
  function TraceShaded(w: World, maps: seq<Mapping>, h: nat, v: nat, vt: VertexTiler, s: u64,
                       jitter: Jitter): (t: Traced)
    requires Sane(w, maps) && h + HEADER_SIZE <= SPACE && v + 4 * VT_WORDS <= SPACE
    ensures |t.world.ram| == SPACE
  {
    var shader := [Shader(TypeIn(w, h) == JOB_TYPE_VERTEX, ClearLow(s, 4), BitAnd(s, 15))];
    if Fetch(maps, ClearLow(s, 4), 0x340).None? then Traced(shader, w, false)
    else
      var body := TraceBody(w, maps, h, v, vt, jitter);
      Traced(shader + body.events, body.world, body.ok)
  }

  /** `h` and `v` are the CPU pointers to header and payload. */
  function TraceVertexTiler(w: World, maps: seq<Mapping>, h: nat, v: nat, jitter: Jitter): (t: Traced)
    requires Sane(w, maps) && h + HEADER_SIZE <= SPACE && v + 4 * VT_WORDS <= SPACE
    ensures |t.world.ram| == SPACE
  {
    var vt := PayloadIn(w, v);
    if IsSabotaged(vt) then Traced([Sabotaged], w, true)
    else
      match Peek(w, maps, vt.shader, 8)
      case None => Traced([], w, false)
      case Some(b) =>
        TraceShaded(w, maps, h, v, vt, QuadOf(Get32(b, 0), Get32(b, 4)), jitter)
  }

  // ----- one job -----

  function TraceFragment(w: World, maps: seq<Mapping>, payload: u64): Traced
    requires Sane(w, maps)
  {
    match Peek(w, maps, payload, 16)
    case None => Traced([], w, false)
    case Some(b) =>
      var f := DecodeFragment(GetWords(b));
      var fbd := TraceFbd(w, maps, Lo(f.fbd));
      Traced([FragmentJob(f, TileCoordX(f.minTileCoord), TileCoordY(f.minTileCoord),
                          TileCoordX(f.maxTileCoord), TileCoordY(f.maxTileCoord))] + fbd.events, w, fbd.ok)
  }

  function TracePayload(w: World, maps: seq<Mapping>, h: nat, payload: u64, jitter: Jitter): (t: Traced)
    requires Sane(w, maps) && h + HEADER_SIZE <= SPACE
    ensures |t.world.ram| == SPACE
  {
    var jobType := DecodeHeader(w.ram[h..h + HEADER_SIZE]).jobType;
    if jobType == JOB_TYPE_SET_VALUE then
      match Peek(w, maps, payload, 16)
      case None => Traced([], w, false)
      case Some(b) => Traced([SetValueJob(DecodeSetValue(GetWords(b)))], w, true)
    else if jobType == JOB_TYPE_VERTEX || jobType == JOB_TYPE_TILER then
      match Fetch(maps, payload, 4 * VT_WORDS)
      case None => Traced([], w, false)
      case Some(v) =>
        FetchedInSpace(maps, payload, 4 * VT_WORDS);
        TraceVertexTiler(w, maps, h, v, jitter)
    else if jobType == JOB_TYPE_FRAGMENT then
      TraceFragment(w, maps, payload)
    else Traced([OtherPayload(payload)], w, true)
  }

  /** Everything about one call of the chain walk but its recursion: the trace,
      and the link it then follows (0: none). */
  function TraceJob(w: World, maps: seq<Mapping>, chain: u64, jitter: Jitter): (r: (Traced, u64))
    requires Sane(w, maps)
    ensures |r.0.world.ram| == SPACE
  {
    match Fetch(maps, chain, HEADER_SIZE)
    case None => (Traced([Unmapped(chain)], w, true), 0)
    case Some(h) =>
      FetchedInSpace(maps, chain, HEADER_SIZE);
      var header := DecodeHeader(w.ram[h..h + HEADER_SIZE]);
      var t := TracePayload(w, maps, h, (chain + HEADER_SIZE) % WORD64, jitter);
      (Traced([Job(chain, header)] + t.events, t.world, t.ok),
       DecodeHeader(t.world.ram[h..h + HEADER_SIZE]).next)
  }

  // ----- the walk -----

  datatype Ending = Ended | Died | Unfinished

  datatype Walked = Walked(events: seq<Event>, visited: seq<u64>, world: World, ending: Ending)

  /** At most `steps` jobs of the walk from `chain`. */
  function Walk(w: World, maps: seq<Mapping>, chain: u64, jitter: Jitter, steps: nat): (r: Walked)
    requires Sane(w, maps)
    ensures |r.world.ram| == SPACE
    decreases steps
  {
    if steps == 0 then Walked([], [], w, Unfinished)
    else
      var (t, next) := TraceJob(w, maps, chain, jitter);
      if !t.ok then Walked(t.events, [chain], t.world, Died)
      else if next == 0 then Walked(t.events, [chain], t.world, Ended)
      else
        var r := Walk(t.world, maps, next, jitter, steps - 1);
        Walked(t.events + r.events, [chain] + r.visited, r.world, r.ending)
  }

  lemma WalkOn(w: World, maps: seq<Mapping>, chain: u64, jitter: Jitter, steps: nat, t: Traced, next: u64)
    requires Sane(w, maps) && TraceJob(w, maps, chain, jitter) == (t, next) && t.ok && next != 0 && steps > 0
    ensures |t.world.ram| == SPACE
    ensures var r := Walk(t.world, maps, next, jitter, steps - 1);
      Walk(w, maps, chain, jitter, steps) == Walked(t.events + r.events, [chain] + r.visited, r.world, r.ending)
  {
    hide TraceJob, InSpace;
  }

  lemma WalkEnds(w: World, maps: seq<Mapping>, chain: u64, jitter: Jitter, steps: nat, t: Traced)
    requires Sane(w, maps) && TraceJob(w, maps, chain, jitter) == (t, 0) && t.ok && steps > 0
    ensures Walk(w, maps, chain, jitter, steps) == Walked(t.events, [chain], t.world, Ended)
  {
    hide TraceJob, InSpace;
  }

  // ----- atoms -----

  /** An atom: a soft job's replay payload, or a chain of jobs. */
  function TraceAtom(w: World, maps: seq<Mapping>, coreReq: u32, jc: u64, jitter: Jitter, steps: nat): (r: Walked)
    requires Sane(w, maps)
    ensures |r.world.ram| == SPACE
  {
    if BitAnd(coreReq, MALI_JD_REQ_SOFT_JOB) != 0 then
      if BitAnd(coreReq, MALI_JD_REQ_SOFT_REPLAY) != 0 then
        match Peek(w, maps, jc, 4 * REPLAY_WORDS)
        case None => Walked([], [], w, Died)
        case Some(b) => Walked([ReplayAtom(DecodeReplay(GetWords(b)))], [], w, Ended)
      else Walked([UnknownSoftJob], [], w, Ended)
    else Walk(w, maps, jc, jitter, steps)
  }

  /** Some mapping holds the CPU address; the atom's `jc` is taken for one. */
  predicate JcMapped(maps: seq<Mapping>, jc: u64) {
    First(maps, InCpuRange(jc % WORD32)) < |maps|
  }

  function TraceOne(w: World, maps: seq<Mapping>, a: Atom, jitter: Jitter, steps: nat): (r: Walked)
    requires Sane(w, maps)
    ensures |r.world.ram| == SPACE
  {
    if JcMapped(maps, a.jc) then TraceAtom(w, maps, a.coreReq, a.jc, jitter, steps)
    else Walked([JcUnmapped(a.jc)], [], w, Ended)
  }

  /** The atoms of a JOB_SUBMIT, in order.  The process may die on the way. */
  function TraceBatch(w: World, maps: seq<Mapping>, atoms: seq<Atom>, jitter: Jitter, steps: nat): (r: Walked)
    requires Sane(w, maps)
    ensures |r.world.ram| == SPACE
    decreases |atoms|
  {
    if atoms == [] then Walked([], [], w, Ended)
    else
      var r := TraceOne(w, maps, atoms[0], jitter, steps);
      if r.ending != Ended then r
      else
        var rest := TraceBatch(r.world, maps, atoms[1..], jitter, steps);
        Walked(r.events + rest.events, r.visited + rest.visited, rest.world, rest.ending)
  }

  /** Every soft job is taken for a replay: the test looks for any bit of
      SOFT_REPLAY, and SOFT_JOB is one of them. */
  lemma SoftJobsReplay(coreReq: u32)
    ensures BitAnd(coreReq, MALI_JD_REQ_SOFT_JOB) != 0 ==> BitAnd(coreReq, MALI_JD_REQ_SOFT_REPLAY) != 0
  {
    hide BitAnd, BitOr;
    Pow2Values();
    OrTag(MALI_JD_REQ_SOFT_JOB, 0x4, 9);
    AndGrows(coreReq, MALI_JD_REQ_SOFT_JOB, 0x4);
  }

  /** A mask with more bits sees at least as much. */
  lemma {:induction false} AndGrows(x: nat, m: nat, n: nat)
    ensures BitAnd(x, m) <= BitAnd(x, BitOr(m, n))
    decreases x
  {
    if x != 0 {
      AndGrows(x / 2, m / 2, n / 2);
      OrStep(m, n);
      AndStep(x, m);
      AndStep(x, BitOr(m, n));
    }
  }
}
