/** What is printed of any vertex or tiler job, and exactly when the decoder survives it. */
module LiveJobs {
  import opened Options
  import opened Bits
  import opened Memory
  import opened Layouts
  import opened ShadowMap
  import opened Decoder

  predicate IsLive(jobType: u7) {
    jobType == JOB_TYPE_VERTEX || jobType == JOB_TYPE_TILER
  }

  // ----- the address array -----

  /** The entries that are printed: those of a tiler job include `nullForVertex`. */
  function Entries(jobType: u7): seq<nat> {
    if jobType == JOB_TYPE_VERTEX then [0, 1, 4, 5, 7, 8, 9, 13] else [0, 1, 4, 5, 7, 8, 9, 10, 13]
  }

  function EntryEvents(a: seq<u32>, ks: seq<nat>): (r: seq<Event>)
    requires forall i | 0 <= i < |ks| :: ks[i] < |a|
    ensures |r| == |ks|
  {
    seq(|ks|, i requires 0 <= i < |ks| => AddressWord(ks[i], a[ks[i]]))
  }

  /** `NULL` is not looked up; other addresses have to be mapped over `sz` bytes. */
  predicate NullOrMapped(maps: seq<Mapping>, address: u32, sz: u32) {
    address != 0 ==> Fetch(maps, address, sz).Some?
  }

  /** The entries that are read through are 1, 8 and, in a tiler job, 4. */
  predicate EntryReadable(maps: seq<Mapping>, a: seq<u32>, jobType: u7, k: nat)
    requires k < |a|
  {
    && (k == 1 ==> NullOrMapped(maps, a[1], 16))
    && (k == 4 && jobType == JOB_TYPE_TILER ==> NullOrMapped(maps, a[4], 64))
    && (k == 8 ==> NullOrMapped(maps, a[8], 32))
  }

  /** `ks[..n]` can be read through and `ks[n]`, if there is one, cannot. */
  ghost predicate ReadableTo(maps: seq<Mapping>, a: seq<u32>, jobType: u7, ks: seq<nat>, n: nat)
    requires forall i | 0 <= i < |ks| :: ks[i] < |a|
  {
    && n <= |ks| && (forall i | 0 <= i < n :: EntryReadable(maps, a, jobType, ks[i]))
    && (n < |ks| ==> !EntryReadable(maps, a, jobType, ks[n]))
  }

  /** The entries not passed over, from `k` on. */
  function EntriesFrom(jobType: u7, k: nat): (r: seq<nat>)
    ensures forall i | 0 <= i < |r| :: k <= r[i] < 14
    decreases 14 - k
  {
    if k >= 14 then [] else (if Skipped(k, jobType) then [] else [k]) + EntriesFrom(jobType, k + 1)
  }

  lemma EntriesStep(jobType: u7, k: nat)
    requires k < 14
    ensures EntriesFrom(jobType, k)
         == if Skipped(k, jobType) then EntriesFrom(jobType, k + 1) else [k] + EntriesFrom(jobType, k + 1)
  {
    hide Skipped;
    assert [] + EntriesFrom(jobType, k + 1) == EntriesFrom(jobType, k + 1);
  }

  lemma EntriesEnd(jobType: u7)
    ensures EntriesFrom(jobType, 14) == []
  {
  }

  lemma EntriesFrom10(jobType: u7)
    ensures EntriesFrom(jobType, 10) == if jobType == JOB_TYPE_VERTEX then [13] else [10, 13]
  {
    hide EntriesFrom;
    EntriesEnd(jobType);
    EntriesStep(jobType, 13);
    EntriesStep(jobType, 12);
    EntriesStep(jobType, 11);
    EntriesStep(jobType, 10);
  }

  lemma EntriesFrom7(jobType: u7)
    ensures EntriesFrom(jobType, 7) == [7, 8, 9] + EntriesFrom(jobType, 10)
  {
    hide EntriesFrom;
    EntriesStep(jobType, 9);
    EntriesStep(jobType, 8);
    EntriesStep(jobType, 7);
  }

  lemma EntriesFrom4(jobType: u7)
    ensures EntriesFrom(jobType, 4) == [4, 5] + EntriesFrom(jobType, 7)
  {
    hide EntriesFrom;
    EntriesStep(jobType, 6);
    EntriesStep(jobType, 5);
    EntriesStep(jobType, 4);
  }

  lemma EntriesFrom0(jobType: u7)
    ensures EntriesFrom(jobType, 0) == [0, 1] + EntriesFrom(jobType, 4)
  {
    hide EntriesFrom;
    EntriesStep(jobType, 3);
    EntriesStep(jobType, 2);
    EntriesStep(jobType, 1);
    EntriesStep(jobType, 0);
  }

  /** The skipped entries are those the list leaves out. */
  lemma EntriesAre(jobType: u7)
    ensures EntriesFrom(jobType, 0) == Entries(jobType)
  {
    EntriesFrom10(jobType);
    EntriesFrom7(jobType);
    EntriesFrom4(jobType);
    EntriesFrom0(jobType);
    hide EntriesFrom;
  }

  lemma ReadableIs(maps: seq<Mapping>, a: seq<u32>, jobType: u7, k: nat)
    requires k < |a|
    ensures Readable(maps, k, a[k], jobType) <==> EntryReadable(maps, a, jobType, k)
  {
    hide Fetch;
  }

  lemma {:induction false} AddressesFrom(maps: seq<Mapping>, a: seq<u32>, jobType: u7, k: nat) returns (n: nat)
    requires |a| == 14 && k <= 14
    ensures var ks := EntriesFrom(jobType, k);
      && ReadableTo(maps, a, jobType, ks, n)
      && TraceAddresses(maps, a, jobType, k)
         == (EntryEvents(a, if n < |ks| then ks[..n + 1] else ks), n == |ks|)
    decreases 14 - k
  {
    hide Readable, EntryReadable, EntriesFrom, Skipped;
    if k == 14 {
      EntriesEnd(jobType);
      n := 0;
      assert EntryEvents(a, []) == [];
    } else {
      EntriesStep(jobType, k);
      ReadableIs(maps, a, jobType, k);
      if Skipped(k, jobType) {
        n := AddressesFrom(maps, a, jobType, k + 1);
      } else if !Readable(maps, k, a[k], jobType) {
        n := 0;
        assert ([k] + EntriesFrom(jobType, k + 1))[..1] == [k];
        assert EntryEvents(a, [k]) == [AddressWord(k, a[k])];
      } else {
        var rest := EntriesFrom(jobType, k + 1);
        var n' := AddressesFrom(maps, a, jobType, k + 1);
        n := n' + 1;
        EntriesCons(a, k, if n' < |rest| then rest[..n' + 1] else rest);
        assert n' < |rest| ==> ([k] + rest)[..n + 1] == [k] + rest[..n' + 1];
      }
    }
  }

  lemma EntriesCons(a: seq<u32>, k: nat, ks: seq<nat>)
    requires k < |a| && forall i | 0 <= i < |ks| :: ks[i] < |a|
    ensures EntryEvents(a, [k] + ks) == [AddressWord(k, a[k])] + EntryEvents(a, ks)
  {
  }

  /** The entries printed of the address array of a vertex or tiler job are those of the
      list, in order, up to the first that is not NULL and cannot be read through; the
      decoder survives if there is none. */
  lemma AddressesTraced(maps: seq<Mapping>, a: seq<u32>, jobType: u7) returns (n: nat)
    requires |a| == 14 && IsLive(jobType)
    ensures var ks := Entries(jobType);
      && ReadableTo(maps, a, jobType, ks, n)
      && TraceAddresses(maps, a, jobType, 0) == (EntryEvents(a, if n < |ks| then ks[..n + 1] else ks), n == |ks|)
    ensures TraceAddresses(maps, a, jobType, 0).1 <==>
      && NullOrMapped(maps, a[1], 16) && NullOrMapped(maps, a[8], 32)
      && (jobType == JOB_TYPE_TILER ==> NullOrMapped(maps, a[4], 64))
  {
    hide TraceAddresses, EntriesFrom, NullOrMapped;
    n := AddressesFrom(maps, a, jobType, 0);
    EntriesAre(jobType);
    var ks := Entries(jobType);
    assert ks[1] == 1 && ks[2] == 4 && ks[5] == 8;
    if n == |ks| {
      assert EntryReadable(maps, a, jobType, ks[1]) && EntryReadable(maps, a, jobType, ks[2])
          && EntryReadable(maps, a, jobType, ks[5]);
    }
  }

  /** All entries that are printed. */
  function Printout(a: seq<u32>, jobType: u7): seq<Event>
    requires |a| == 14
  {
    EntryEvents(a, Entries(jobType))
  }

  // ----- mode, null words, descriptor -----

  lemma ModeByte(w: World, v: nat)
    requires v + 4 * VT_WORDS <= |w.ram|
    ensures PayloadIn(w, v).block1[2] % 0x100 == w.ram[v + 8]
  {
    var b := w.ram[v..v + 4 * VT_WORDS];
    assert PayloadIn(w, v).block1[2] == Get32(b, 8) by { BlockWord(b); }
    LowByte(b, 8);
  }

  lemma BlockWord(b: Bytes)
    requires |b| == 4 * VT_WORDS
    ensures DecodeVertexTiler(GetWords(b)).block1[2] == Get32(b, 8)
  {
    hide Get32;
  }

  lemma LowByte(b: Bytes, at: nat)
    requires at + 4 <= |b|
    ensures Get32(b, at) % 0x100 == b[at]
  {
  }

  lemma AnyNull(x: u32, y: u32, z: u32)
    ensures BitOr(BitOr(x, y), z) != 0 <==> x != 0 || y != 0 || z != 0
  {
    hide BitOr;
  }

  lemma LowBit(x: u32)
    ensures BitAnd(x, 1) != 0 <==> x % 2 == 1
  {
    Pow2Values();
    AndLow(x, 1);
  }

  /** What is printed between attributes and framebuffer descriptor: for a tiler job its
      drawing mode, the ninth byte of the payload; a warning if any of the three null words
      is not zero; and whether the descriptor is a multi-target one. */
  lemma ModesPrinted(w: World, v: nat, jobType: u7)
    requires v + 4 * VT_WORDS <= |w.ram|
    ensures var vt := PayloadIn(w, v);
      Modes(jobType, vt)
      == (if jobType == JOB_TYPE_TILER then [DrawingMode(w.ram[v + 8])] else [])
         + (if vt.null1 != 0 || vt.null2 != 0 || vt.null4 != 0 then [NullTripped] else [])
         + [FbdKind(vt.fbd % 2 == 1)]
  {
    ModeByte(w, v);
    var vt := PayloadIn(w, v);
    AnyNull(vt.null1, vt.null2, vt.null4);
    LowBit(vt.fbd);
    hide PayloadIn, BitOr, BitAnd;
  }

  lemma Untagged(x: u64, k: nat, d: nat)
    requires k <= 64 && d == Pow2(k)
    ensures ClearLow(x, k) == x - x % d
  {
    Pow2Values();
    hide BitAnd, HighMask, Pow2;
    AndHigh(x, 64, k);
  }

  /** The framebuffer descriptor is looked up, and read in full, at the address without
      the six tag bits; if that is not mapped the decoder dies. */
  lemma FbdTraced(w: World, maps: seq<Mapping>, fbd: u32)
    requires Sane(w, maps)
    ensures var b := Peek(w, maps, fbd - fbd % 64, 280);
      TraceFbd(w, maps, fbd)
      == if b == None then Traced([], w, false)
         else Traced([FbdAt(fbd - fbd % 64, fbd % 64, DecodeMfbd(GetWords(b.value)))], w, true)
  {
    Pow2Values();
    hide Peek, DecodeMfbd, GetWords, InSpace, ClearLow, Pow2;
    Untagged(fbd, 6, 64);
  }

  // ----- the whole job -----

  /** The words behind the tagged shader pointer and the shader code can be read. */
  ghost predicate ShaderReadable(w: World, maps: seq<Mapping>, shader: u32)
    requires Sane(w, maps)
  {
    var b := Peek(w, maps, shader, 8);
    b.Some? && var s := Get64(b.value, 0); Fetch(maps, s - s % 16, 0x340).Some?
  }

  /** What follows the attributes can be read. */
  ghost predicate TailReadable(maps: seq<Mapping>, jobType: u7, vt: VertexTiler) {
    && Fetch(maps, vt.fbd - vt.fbd % 64, 280).Some?
    && NullOrMapped(maps, vt.unknown1, 16) && NullOrMapped(maps, vt.unknown5, 32)
    && (jobType == JOB_TYPE_TILER ==> NullOrMapped(maps, vt.unknown2, 64))
  }

  lemma TailSurvives(w: World, maps: seq<Mapping>, jobType: u7, vt: VertexTiler)
    requires Sane(w, maps) && vt.Sized() && IsLive(jobType)
    ensures TraceTail(w, maps, jobType, vt).ok <==> TailReadable(maps, jobType, vt)
    ensures TraceTail(w, maps, jobType, vt).world == w
    ensures TailReadable(maps, jobType, vt) ==>
      TraceTail(w, maps, jobType, vt).events
      == Modes(jobType, vt) + TraceFbd(w, maps, vt.fbd).events + Printout(vt.Addresses(), jobType)
  {
    hide InSpace, Fetch, Modes, TraceAddresses, NullOrMapped, DecodeMfbd, GetWords, EntryEvents;
    FbdTraced(w, maps, vt.fbd);
    var n := AddressesTraced(maps, vt.Addresses(), jobType);
    hide TraceFbd, ReadableTo;
  }

  /** A vertex or tiler job, in any memory: when it is taken for sabotaged, and otherwise
      exactly when the decoder survives it and what it prints, in order: the shader's
      address and flags, by job type; the attributes, which may disturb vertices; and, as
      it then is, the payload. */
  lemma LiveJobTraced(w: World, maps: seq<Mapping>, h: nat, v: nat, jitter: Jitter)
    requires Sane(w, maps) && h + HEADER_SIZE <= SPACE && v + 4 * VT_WORDS <= SPACE
    requires !IsSabotaged(PayloadIn(w, v))
    ensures var vt, t := PayloadIn(w, v), TraceVertexTiler(w, maps, h, v, jitter);
      var a := TraceAttributes(w, maps, v, vt.attributeMeta, jitter);
      var jobType', vt' := TypeIn(a.world, h), PayloadIn(a.world, v);
      && (t.ok ==> ShaderReadable(w, maps, vt.shader) && a.ok && t.world == a.world)
      && (ShaderReadable(w, maps, vt.shader) && a.ok && IsLive(jobType') ==>
            && (t.ok <==> TailReadable(maps, jobType', vt'))
            && (t.ok ==>
                  var s := Get64(Peek(w, maps, vt.shader, 8).value, 0);
                  t.events == [Shader(TypeIn(w, h) == JOB_TYPE_VERTEX, s - s % 16, s % 16)] + a.events
                    + (Modes(jobType', vt') + TraceFbd(a.world, maps, vt'.fbd).events
                       + Printout(vt'.Addresses(), jobType'))))
  {
    hide InSpace, Fetch, Peek, Get32, QuadOf, ClearLow, BitAnd, TypeIn, PayloadIn, TraceAttributes, TraceTail,
         IsSabotaged, TailReadable, Printout, Modes, TraceFbd;
    var vt := PayloadIn(w, v);
    var a := TraceAttributes(w, maps, v, vt.attributeMeta, jitter);
    var b := Peek(w, maps, vt.shader, 8);
    if b.Some? {
      ShaderWord(Get64(b.value, 0));
    }
    if a.ok && IsLive(TypeIn(a.world, h)) {
      TailSurvives(a.world, maps, TypeIn(a.world, h), PayloadIn(a.world, v));
    }
  }

  lemma ShaderWord(s: u64)
    ensures ClearLow(s, 4) == s - s % 16 && BitAnd(s, 15) == s % 16
  {
    Pow2Values();
    hide BitAnd, ClearLow, Pow2;
    Untagged(s, 4, 16);
    AndLow(s, 4);
  }

  // ----- the other jobs -----

  /** Any other type of job: its payload's address is printed, nothing changes. */
  lemma OtherJob(w: World, maps: seq<Mapping>, chain: u64, h: u64, jitter: Jitter)
    requires Sane(w, maps) && Fetch(maps, chain, HEADER_SIZE) == Some(h)
    requires h + HEADER_SIZE <= SPACE
    requires TypeIn(w, h) !in {JOB_TYPE_SET_VALUE, JOB_TYPE_VERTEX, JOB_TYPE_TILER, JOB_TYPE_FRAGMENT}
    ensures var header := DecodeHeader(w.ram[h..h + HEADER_SIZE]);
      TraceJob(w, maps, chain, jitter)
      == (Traced([Job(chain, header), OtherPayload((chain + HEADER_SIZE) % WORD64)], w, true), header.next)
  {
    hide InSpace, Fetch, DecodeHeader;
    var header := DecodeHeader(w.ram[h..h + HEADER_SIZE]);
    var payload: u64 := (chain + HEADER_SIZE) % WORD64;
    assert [Job(chain, header)] + [OtherPayload(payload)] == [Job(chain, header), OtherPayload(payload)];
  }

  /** A job that is not mapped is reported, and ends the walk. */
  lemma UnmappedEnds(w: World, maps: seq<Mapping>, chain: u64, jitter: Jitter, steps: nat)
    requires Sane(w, maps) && Fetch(maps, chain, HEADER_SIZE) == None && steps > 0
    ensures Walk(w, maps, chain, jitter, steps) == Walked([Unmapped(chain)], [chain], w, Ended)
  {
    hide InSpace, Fetch;
  }

  /** A payload, or the record of a replay, that is not mapped kills the decoder. */
  lemma NullPayload(w: World, maps: seq<Mapping>, h: nat, payload: u64, coreReq: u32, jitter: Jitter, steps: nat)
    requires Sane(w, maps) && h + HEADER_SIZE <= SPACE
    ensures TypeIn(w, h) in {JOB_TYPE_SET_VALUE, JOB_TYPE_FRAGMENT} && Fetch(maps, payload, 16) == None ==>
      TracePayload(w, maps, h, payload, jitter) == Traced([], w, false)
    ensures IsLive(TypeIn(w, h)) && Fetch(maps, payload, 4 * VT_WORDS) == None ==>
      TracePayload(w, maps, h, payload, jitter) == Traced([], w, false)
    ensures BitAnd(coreReq, 0x200) != 0 && Fetch(maps, payload, 4 * REPLAY_WORDS) == None ==>
      TraceAtom(w, maps, coreReq, payload, jitter, steps) == Walked([], [], w, Died)
  {
    SoftJobsReplay(coreReq);
    hide InSpace, Fetch, DecodeHeader, TraceVertexTiler, BitAnd;
  }
}
