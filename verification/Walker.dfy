/** The decoder as it runs: cursors over the process's memory, addresses looked up
    through the tracer's lists, vertices disturbed in place. */
module Walker {
  import opened Options
  import opened Bits
  import opened Memory
  import opened Layouts
  import opened ShadowMap
  import opened Pool
  import opened Atoms
  import opened Decoder
  import opened Fetching

  /** One unfolding of the metadata list. */
  lemma AttributesStep(w: World, maps: seq<Mapping>, v: nat, s: u64, jitter: Jitter)
    requires Sane(w, maps) && v + 4 * VT_WORDS <= SPACE
    ensures var b, t := Peek(w, maps, s, 8), TraceAttributes(w, maps, v, s, jitter);
      match b
      case None => t == Traced([], w, false)
      case Some(b) =>
        var meta := QuadOf(Get32(b, 0), Get32(b, 4));
        if meta == 0 then t == Traced([], w, true)
        else
          var event := Attribute(BitAnd(meta, 0xFF), BitAnd(meta, 0xFFFF_FFFF_FFFF_FF00));
          var a := TraceAttribute(w, maps, AttributesIn(w, v) + BitAnd(meta, 0xFF) * 16, jitter);
          if !a.ok then t == Traced([event] + a.events, a.world, false)
          else
            var rest := TraceAttributes(a.world, maps, v, s + 8, jitter);
            t == Traced([event] + a.events + rest.events, rest.world, rest.ok)
  {
    hide AttributesIn, BitAnd, Peek, TraceAttribute, Get32, QuadOf, InSpace;
  }

  lemma EventsJoined(l: seq<Event>, e: Event, xs: seq<Event>, rest: seq<Event>)
    ensures l + [e] + xs + rest == l + ([e] + xs + rest)
  {
  }

  lemma BatchStep(w: World, maps: seq<Mapping>, atoms: seq<Atom>, i: nat, jitter: Jitter, steps: nat)
    requires Sane(w, maps) && i < |atoms|
    ensures var r := TraceOne(w, maps, atoms[i], jitter, steps);
      TraceBatch(w, maps, atoms[i..], jitter, steps)
      == if r.ending != Ended then r
         else
           var rest := TraceBatch(r.world, maps, atoms[i + 1..], jitter, steps);
           Walked(r.events + rest.events, r.visited + rest.visited, rest.world, rest.ending)
  {
    hide InSpace, TraceOne;
    assert atoms[i..][0] == atoms[i] && atoms[i..][1..] == atoms[i + 1..];
  }

  lemma BatchDone(w: World, maps: seq<Mapping>, atoms: seq<Atom>, jitter: Jitter, steps: nat)
    requires Sane(w, maps)
    ensures TraceBatch(w, maps, atoms[|atoms|..], jitter, steps) == Walked([], [], w, Ended)
  {
  }

  class Walker {
    const ram: array<u8>
    const tracer: Tracer
    const jitter: Jitter
    var draws: nat
    var log: seq<Event>

    ghost predicate Valid()
      reads this, ram, tracer, tracer.repr
    {
      ram.Length == SPACE && tracer.Valid() && InSpace(Maps())
    }

    ghost function Maps(): seq<Mapping>
      reads tracer
    {
      if tracer.allocations in tracer.lists && tracer.mmaps in tracer.lists then tracer.State().live else []
    }

    ghost function Now(): World
      reads this, ram
    {
      World(ram[..], draws)
    }

    constructor (ram: array<u8>, tracer: Tracer, jitter: Jitter)
      requires ram.Length == SPACE && tracer.Valid() && InSpace(tracer.State().live)
      ensures Valid() && this.ram == ram && this.tracer == tracer && this.jitter == jitter && log == [] && draws == 0
    {
      this.ram, this.tracer, this.jitter := ram, tracer, jitter;
      log, draws := [], 0;
    }

    /** What the calls since state `w` and log `l` have done is what `t` says. */
    ghost predicate Did(l: seq<Event>, t: Traced)
      reads this, ram
    {
      log == l + t.events && Now() == t.world
    }

    method Log(e: Event)
      modifies this`log
      ensures log == old(log) + [e]
    {
      log := log + [e];
    }

    /** `fetch_mapped_gpu` and a read of the bytes behind it. */
    method Read(gpuAddr: u64, sz: u32) returns (b: Option<Bytes>)
      requires Valid()
      ensures Sane(Now(), Maps()) && b == Peek(Now(), Maps(), gpuAddr, sz)
    {
      hide First, InSpace;
      var p := tracer.FetchMappedGpu(gpuAddr, sz);
      if p == None {
        return None;
      }
      FetchedInSpace(Maps(), gpuAddr, sz);
      return Some(ram[p.value..p.value + sz]);
    }

    method JitterWordAt(p: nat)
      requires ram.Length == SPACE && p + 4 <= SPACE
      modifies ram, this`draws
      ensures Now() == JitterWord(old(Now()), p, jitter)
    {
      var v := jitter(draws, Get32(ram[p..p + 4], 0));
      assert Get32(ram[p..p + 4], 0) == Get32(ram[..], p);
      Memcpy(ram, p, Le32(v));
      draws := draws + 1;
    }

    method JitterVertexAt(p: nat)
      requires ram.Length == SPACE && p + 12 <= SPACE
      modifies ram, this`draws
      ensures Now() == JitterVertex(old(Now()), p, jitter)
    {
      hide JitterWord;
      JitterWordAt(p);
      JitterWordAt(p + 4);
      JitterWordAt(p + 8);
    }

    /** The loop over the vertices of an attribute. */
    method JitterAll(start: nat, stride: nat, count: nat)
      requires ram.Length == SPACE && start + Span(stride, count) <= SPACE
      modifies ram, this`draws
      ensures Now() == JitterVertices(old(Now()), start, stride, count, jitter)
      ensures stride >= 12 ==> Jittered(old(Now()), Now(), start, stride, count, jitter)
    {
      hide JitterVertex, Jittered;
      if stride >= 12 { VerticesJittered(Now(), start, stride, count, jitter); }
      var p: nat, i: nat := start, 0;
      while i < count
        invariant i <= count && (i < count ==> p + Span(stride, count - i) <= SPACE)
        invariant Rest(p, stride, count - i) == JitterVertices(old(Now()), start, stride, count, jitter)
      {
        SpanCovers(stride, count - i);
        JitterVertexAt(p);
        p, i := p + stride, i + 1;
      }
    }

    /** Memory after the remaining `n` vertices. */
    ghost function Rest(p: nat, stride: nat, n: nat): World
      requires ram.Length == SPACE && (n > 0 ==> p + Span(stride, n) <= SPACE)
      reads this, ram
    {
      if n == 0 then Now() else JitterVertices(Now(), p, stride, n, jitter)
    }

    method WalkAttribute(address: u64) returns (ok: bool)
      requires Valid()
      modifies this`log, this`draws, ram
      ensures Valid() && Sane(old(Now()), Maps())
      ensures Did(old(log), TraceAttribute(old(Now()), Maps(), address, jitter))
      ensures ok == TraceAttribute(old(Now()), Maps(), address, jitter).ok
    {
      hide First, InSpace, BitAnd, HighMask, GetWords, DecodeAttributeBuffer, JitterVertices, Span, Peek, Fetch;
      var b := Read(address, 16);
      if b == None {
        return true;
      }
      var vb := DecodeAttributeBuffer(GetWords(b.value));
      if vb.elementSize == 0 {
        return false;
      }
      var vertexCount := vb.totalSize / vb.elementSize;
      var componentCount := vb.elementSize / 4;
      var raw := ClearLow(vb.elements, 2);
      var flags := vb.elements - raw;
      var v := tracer.FetchMappedGpu(raw, vb.totalSize);
      Log(Vertices(componentCount, raw, flags, vertexCount));
      if v == None {
        return vertexCount == 0;
      }
      if v.value + Span(4 * componentCount, vertexCount) > SPACE {
        return false;
      }
      JitterAll(v.value, 4 * componentCount, vertexCount);
      return true;
    }

    /** The loop over the attribute metadata. */
    method WalkAttributes(v: nat, start: u64) returns (ok: bool)
      requires Valid() && v + 4 * VT_WORDS <= SPACE
      modifies this`log, this`draws, ram
      ensures Valid() && Sane(old(Now()), Maps())
      ensures Did(old(log), TraceAttributes(old(Now()), Maps(), v, start, jitter))
      ensures ok == TraceAttributes(old(Now()), Maps(), v, start, jitter).ok
    {
      hide InSpace, TraceAttributes;
      ghost var goal := TraceAttributes(Now(), Maps(), v, start, jitter);
      var s, more := start, true;
      ok := true;
      while more
        invariant Valid()
        invariant if more then Onward(old(log), TraceAttributes(Now(), Maps(), v, s, jitter), goal)
                  else Did(old(log), goal) && ok == goal.ok
        decreases more, WORD64 - s
      {
        more, ok := WalkNext(v, s);
        if more {
          s := s + 8;
        }
      }
    }

    /** One round of that loop. */
    method WalkNext(v: nat, s: u64) returns (more: bool, ok: bool)
      requires Valid() && v + 4 * VT_WORDS <= SPACE
      modifies this`log, this`draws, ram
      ensures Valid() && Sane(old(Now()), Maps())
      ensures var goal := TraceAttributes(old(Now()), Maps(), v, s, jitter);
        if more then s + 8 < WORD64 && Onward(old(log), TraceAttributes(Now(), Maps(), v, s + 8, jitter), goal)
        else Did(old(log), goal) && ok == goal.ok
    {
      hide First, InSpace, BitAnd, Peek, PayloadIn, TraceAttribute, TraceAttributes, Get32, QuadOf;
      var b := Read(s, 8);
      AttributesStep(Now(), Maps(), v, s, jitter);
      if b == None {
        return false, false;
      }
      var meta := QuadOf(Get32(b.value, 0), Get32(b.value, 4));
      if meta == 0 {
        return false, true;
      }
      var number := BitAnd(meta, 0xFF);
      Log(Attribute(number, BitAnd(meta, 0xFFFF_FFFF_FFFF_FF00)));
      var again := ReadPayload(v);
      ghost var l := log;
      var went := WalkAttribute(again.attributes + number * 16);
      EventsJoined(old(log), l[|l| - 1], log[|l|..],
                   if went then TraceAttributes(Now(), Maps(), v, s + 8, jitter).events else []);
      return went, went;
    }

    method WalkFbd(fbd: u32) returns (ok: bool)
      requires Valid()
      modifies this`log
      ensures Valid() && Sane(Now(), Maps())
      ensures Did(old(log), TraceFbd(Now(), Maps(), fbd)) && ok == TraceFbd(Now(), Maps(), fbd).ok
    {
      hide First, InSpace, BitAnd, HighMask, Peek, GetWords, DecodeMfbd;
      var pointer := ClearLow(fbd, 6);
      var b := Read(pointer, 280);
      if b == None {
        return false;
      }
      Log(FbdAt(pointer, fbd - pointer, DecodeMfbd(GetWords(b.value))));
      return true;
    }

    /** The loop over the fourteen address words. */
    method WalkAddresses(addresses: seq<u32>, jobType: u7) returns (ok: bool)
      requires Valid() && |addresses| == 14
      modifies this`log
      ensures Valid() && log == old(log) + TraceAddresses(Maps(), addresses, jobType, 0).0
      ensures ok == TraceAddresses(Maps(), addresses, jobType, 0).1
    {
      hide Readable, InSpace;
      ghost var goal := TraceAddresses(Maps(), addresses, jobType, 0);
      for k := 0 to 14
        invariant Valid()
        invariant var rest := TraceAddresses(Maps(), addresses, jobType, k);
          log + rest.0 == old(log) + goal.0 && rest.1 == goal.1
      {
        if k == 2 || k == 3 || k == 6 || (k == 10 && jobType == JOB_TYPE_VERTEX) || k == 11 || k == 12 {
          continue;
        }
        var went := WalkAddress(k, addresses[k], jobType);
        if !went {
          return false;
        }
      }
      return true;
    }

    method WalkAddress(k: nat, address: u32, jobType: u7) returns (ok: bool)
      requires Valid()
      modifies this`log
      ensures Valid() && log == old(log) + [AddressWord(k, address)] && ok == Readable(Maps(), k, address, jobType)
    {
      hide Fetch, InSpace;
      Log(AddressWord(k, address));
      if address == 0 {
        return true;
      }
      if k == 1 || k == 8 || (k == 4 && jobType == JOB_TYPE_TILER) {
        var buf := tracer.FetchMappedGpu(address, if k == 1 then 0x10 else if k == 8 then 0x20 else 0x40);
        if buf == None {
          return false;
        }
      }
      return true;
    }

    method WalkModes(jobType: u7, v: VertexTiler)
      requires v.Sized()
      modifies this`log
      ensures log == old(log) + Modes(jobType, v)
    {
      hide BitAnd, BitOr;
      if jobType == JOB_TYPE_TILER {
        Log(DrawingMode(v.block1[2] % 0x100));
      }
      if BitOr(BitOr(v.null1, v.null2), v.null4) != 0 {
        Log(NullTripped);
      }
      Log(FbdKind(BitAnd(v.fbd, 1) != 0));
    }

    /** The end of a vertex or tiler job, from the drawing mode on. */
    method WalkTail(jobType: u7, v: VertexTiler) returns (ok: bool)
      requires Valid() && v.Sized()
      modifies this`log
      ensures Valid() && Sane(Now(), Maps())
      ensures Did(old(log), TraceTail(Now(), Maps(), jobType, v)) && ok == TraceTail(Now(), Maps(), jobType, v).ok
    {
      hide InSpace, Modes, TraceFbd, TraceAddresses;
      WalkModes(jobType, v);
      ok := WalkFbd(v.fbd);
      if ok {
        ok := WalkAddresses(v.Addresses(), jobType);
      }
    }

    /** A job that is not sabotaged. */
    method WalkShaded(h: nat, v: nat, vt: VertexTiler, s: u64) returns (ok: bool)
      requires Valid() && h + HEADER_SIZE <= SPACE && v + 4 * VT_WORDS <= SPACE
      modifies this`log, this`draws, ram
      ensures Valid() && Sane(old(Now()), Maps())
      ensures Did(old(log), TraceShaded(old(Now()), Maps(), h, v, vt, s, jitter))
      ensures ok == TraceShaded(old(Now()), Maps(), h, v, vt, s, jitter).ok
    {
      hide InSpace, BitAnd, ClearLow, Fetch, TypeIn, TraceBody;
      var jobType := ReadType(h);
      Log(Shader(jobType == JOB_TYPE_VERTEX, ClearLow(s, 4), BitAnd(s, 15)));
      var shader := tracer.FetchMappedGpu(ClearLow(s, 4), 0x340);
      if shader == None {
        return false;
      }
      ok := WalkBody(h, v, vt);
    }

    method WalkBody(h: nat, v: nat, vt: VertexTiler) returns (ok: bool)
      requires Valid() && h + HEADER_SIZE <= SPACE && v + 4 * VT_WORDS <= SPACE
      modifies this`log, this`draws, ram
      ensures Valid() && Sane(old(Now()), Maps())
      ensures Did(old(log), TraceBody(old(Now()), Maps(), h, v, vt, jitter))
      ensures ok == TraceBody(old(Now()), Maps(), h, v, vt, jitter).ok
    {
      hide InSpace, TypeIn, PayloadIn, TraceAttributes, TraceTail;
      ok := WalkAttributes(v, vt.attributeMeta);
      if ok {
        var jobType := ReadType(h);
        var again := ReadPayload(v);
        ok := WalkTail(jobType, again);
      }
    }

    method ReadType(h: nat) returns (jobType: u7)
      requires ram.Length == SPACE && h + HEADER_SIZE <= SPACE
      ensures jobType == TypeIn(Now(), h)
    {
      hide DecodeHeader;
      jobType := DecodeHeader(ram[h..h + HEADER_SIZE]).jobType;
    }

    method ReadPayload(v: nat) returns (vt: VertexTiler)
      requires ram.Length == SPACE && v + 4 * VT_WORDS <= SPACE
      ensures vt == PayloadIn(Now(), v) && vt.Sized()
    {
      hide DecodeVertexTiler, GetWords;
      vt := DecodeVertexTiler(GetWords(ram[v..v + 4 * VT_WORDS]));
    }

    method WalkVertexTiler(h: nat, v: nat) returns (ok: bool)
      requires Valid() && h + HEADER_SIZE <= SPACE && v + 4 * VT_WORDS <= SPACE
      modifies this`log, this`draws, ram
      ensures Valid() && Sane(old(Now()), Maps())
      ensures Did(old(log), TraceVertexTiler(old(Now()), Maps(), h, v, jitter))
      ensures ok == TraceVertexTiler(old(Now()), Maps(), h, v, jitter).ok
    {
      hide InSpace, BitAnd, Peek, PayloadIn, TraceShaded, Get32, QuadOf;
      var vt := ReadPayload(v);
      if BitAnd(vt.shader, 0xFFF0_0000) == 0x5AB0_0000 {
        Log(Sabotaged);
        return true;
      }
      var b := Read(vt.shader, 8);
      if b == None {
        return false;
      }
      ok := WalkShaded(h, v, vt, QuadOf(Get32(b.value, 0), Get32(b.value, 4)));
    }

    method WalkFragment(payload: u64) returns (ok: bool)
      requires Valid()
      modifies this`log
      ensures Valid() && Sane(Now(), Maps())
      ensures Did(old(log), TraceFragment(Now(), Maps(), payload)) && ok == TraceFragment(Now(), Maps(), payload).ok
    {
      hide InSpace, BitAnd, Peek, GetWords, TraceFbd;
      var b := Read(payload, 16);
      if b == None {
        return false;
      }
      var f := DecodeFragment(GetWords(b.value));
      Log(FragmentJob(f, TileCoordX(f.minTileCoord), TileCoordY(f.minTileCoord),
                      TileCoordX(f.maxTileCoord), TileCoordY(f.maxTileCoord)));
      ok := WalkFbd(Lo(f.fbd));
    }

    /** The switch over the job's type. */
    method WalkPayload(h: nat, payload: u64) returns (ok: bool)
      requires Valid() && h + HEADER_SIZE <= SPACE
      modifies this`log, this`draws, ram
      ensures Valid() && Sane(old(Now()), Maps())
      ensures Did(old(log), TracePayload(old(Now()), Maps(), h, payload, jitter))
      ensures ok == TracePayload(old(Now()), Maps(), h, payload, jitter).ok
    {
      hide InSpace, Peek, Fetch, GetWords, DecodeHeader, TraceVertexTiler, TraceFragment;
      var jobType := DecodeHeader(ram[h..h + HEADER_SIZE]).jobType;
      if jobType == JOB_TYPE_SET_VALUE {
        var b := Read(payload, 16);
        if b == None {
          return false;
        }
        Log(SetValueJob(DecodeSetValue(GetWords(b.value))));
        ok := true;
      } else if jobType == JOB_TYPE_VERTEX || jobType == JOB_TYPE_TILER {
        var v := tracer.FetchMappedGpu(payload, 4 * VT_WORDS);
        if v == None {
          return false;
        }
        FetchedInSpace(Maps(), payload, 4 * VT_WORDS);
        ok := WalkVertexTiler(h, v.value);
      } else if jobType == JOB_TYPE_FRAGMENT {
        ok := WalkFragment(payload);
      } else {
        Log(OtherPayload(payload));
        ok := true;
      }
    }

    /** One job of the chain: its descriptor, its payload, and the link to follow. */
    method WalkJob(chain: u64) returns (ok: bool, next: u64)
      requires Valid()
      modifies this`log, this`draws, ram
      ensures Valid() && Sane(old(Now()), Maps())
      ensures Did(old(log), TraceJob(old(Now()), Maps(), chain, jitter).0)
      ensures (ok, next)
           == (TraceJob(old(Now()), Maps(), chain, jitter).0.ok, TraceJob(old(Now()), Maps(), chain, jitter).1)
    {
      hide InSpace, Fetch, DecodeHeader, TracePayload;
      var h := tracer.FetchMappedGpu(chain, HEADER_SIZE);
      if h == None {
        Log(Unmapped(chain));
        return true, 0;
      }
      FetchedInSpace(Maps(), chain, HEADER_SIZE);
      Log(Job(chain, DecodeHeader(ram[h.value..h.value + HEADER_SIZE])));
      ok := WalkPayload(h.value, (chain + HEADER_SIZE) % WORD64);
      next := DecodeHeader(ram[h.value..h.value + HEADER_SIZE]).next;
    }

    /** The recursion of the chain walk, on any chain whose walk comes to an end. */
    method WalkChain(chain: u64, ghost steps: nat) returns (ok: bool)
      requires Valid() && Walk(Now(), Maps(), chain, jitter, steps).ending != Unfinished
      modifies this`log, this`draws, ram
      ensures Valid() && Sane(old(Now()), Maps())
      ensures var r := Walk(old(Now()), Maps(), chain, jitter, steps);
        log == old(log) + r.events && Now() == r.world && ok == r.ending.Ended?
      decreases steps
    {
      hide InSpace, TraceJob;
      var next;
      ok, next := WalkJob(chain);
      if ok && next != 0 {
        ok := WalkChain(next, steps - 1);
      }
    }

    /** An atom about to be submitted. */
    method WalkAtom(coreReq: u32, jc: u64, ghost steps: nat) returns (ok: bool)
      requires Valid() && TraceAtom(Now(), Maps(), coreReq, jc, jitter, steps).ending != Unfinished
      modifies this`log, this`draws, ram
      ensures Valid() && Sane(old(Now()), Maps())
      ensures var r := TraceAtom(old(Now()), Maps(), coreReq, jc, jitter, steps);
        log == old(log) + r.events && Now() == r.world && ok == r.ending.Ended?
    {
      hide InSpace, BitAnd, Walk, Peek, GetWords, DecodeReplay;
      if BitAnd(coreReq, MALI_JD_REQ_SOFT_JOB) != 0 {
        if BitAnd(coreReq, MALI_JD_REQ_SOFT_REPLAY) != 0 {
          var payload := Read(jc, 4 * REPLAY_WORDS);
          if payload == None {
            return false;
          }
          Log(ReplayAtom(DecodeReplay(GetWords(payload.value))));
        } else {
          Log(UnknownSoftJob);
        }
        ok := true;
      } else {
        ok := WalkChain(jc, steps);
      }
    }

    /** The loop over the atoms of a JOB_SUBMIT. */
    method WalkBatch(atoms: seq<Atom>, ghost steps: nat) returns (ok: bool)
      requires Valid() && TraceBatch(Now(), Maps(), atoms, jitter, steps).ending != Unfinished
      modifies this`log, this`draws, ram
      ensures Valid() && Sane(old(Now()), Maps())
      ensures var r := TraceBatch(old(Now()), Maps(), atoms, jitter, steps);
        log == old(log) + r.events && Now() == r.world && ok == r.ending.Ended?
    {
      hide InSpace, TraceOne, TraceBatch;
      ghost var goal := TraceBatch(Now(), Maps(), atoms, jitter, steps);
      ok := true;
      for i := 0 to |atoms|
        invariant Valid()
        invariant Ahead(old(log), TraceBatch(Now(), Maps(), atoms[i..], jitter, steps), goal)
      {
        BatchStep(Now(), Maps(), atoms, i, jitter, steps);
        ok := WalkOne(atoms[i], steps);
        if !ok {
          return;
        }
      }
      BatchDone(Now(), Maps(), atoms, jitter, steps);
    }

    /** One atom, if its address is in a known mapping. */
    method WalkOne(a: Atom, ghost steps: nat) returns (ok: bool)
      requires Valid() && TraceOne(Now(), Maps(), a, jitter, steps).ending != Unfinished
      modifies this`log, this`draws, ram
      ensures Valid() && Sane(old(Now()), Maps())
      ensures var r := TraceOne(old(Now()), Maps(), a, jitter, steps);
        log == old(log) + r.events && Now() == r.world && ok == r.ending.Ended?
    {
      hide InSpace, TraceAtom;
      var mem := tracer.FindMappedMemContaining(a.jc % WORD32);
      if mem == null {
        Log(JcUnmapped(a.jc));
        return true;
      }
      ok := WalkAtom(a.coreReq, a.jc, steps);
    }

    ghost predicate Ahead(l: seq<Event>, rest: Walked, goal: Walked)
      reads this
    {
      log + rest.events == l + goal.events && rest.world == goal.world && rest.ending == goal.ending
    }

    /** What has been done, followed by `rest`, is `goal`. */
    ghost predicate Onward(l: seq<Event>, rest: Traced, goal: Traced)
      reads this
    {
      log + rest.events == l + goal.events && rest.world == goal.world && rest.ok == goal.ok
    }
  }
}
