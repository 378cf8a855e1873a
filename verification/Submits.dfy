/** The atoms of a JOB_SUBMIT: which are traced, which only reported, and in what order. */
module Submits {
  import opened Bits
  import opened ShadowMap
  import opened Atoms
  import opened Decoder

  /** The address lies in some mapping, or just behind its last byte. */
  ghost predicate Spanned(maps: seq<Mapping>, addr: u64) {
    exists m :: m in maps && m.addr <= addr <= m.addr + m.length
  }

  lemma JcMappedIff(maps: seq<Mapping>, jc: u64)
    requires InSpace(maps)
    ensures JcMapped(maps, jc) <==> Spanned(maps, jc % WORD32)
  {
    CpuLookup(maps, jc % WORD32);
    hide First;
    if m :| m in maps && m.addr <= jc % WORD32 <= m.addr + m.length {
      assert Spans(m.addr, m.length, jc % WORD32);
    }
  }

  /** What is traced first, and, if the process is still alive, what is traced then. */
  ghost function Continued(r: Walked, rest: Walked): Walked {
    if r.ending != Ended then r
    else Walked(r.events + rest.events, r.visited + rest.visited, rest.world, rest.ending)
  }

  /** A batch is traced from front to back. */
  lemma {:induction false} BatchSplit(w: World, maps: seq<Mapping>, xs: seq<Atom>, ys: seq<Atom>, jitter: Jitter,
                                      steps: nat)
    requires Sane(w, maps)
    ensures var r := TraceBatch(w, maps, xs, jitter, steps);
      TraceBatch(w, maps, xs + ys, jitter, steps) == Continued(r, TraceBatch(r.world, maps, ys, jitter, steps))
    decreases |xs|
  {
    hide TraceOne, InSpace;
    if xs == [] {
      assert xs + ys == ys;
      var rest := TraceBatch(w, maps, ys, jitter, steps);
      assert [] + rest.events == rest.events && [] + rest.visited == rest.visited;
    } else {
      var r := TraceOne(w, maps, xs[0], jitter, steps);
      assert (xs + ys)[0] == xs[0] && (xs + ys)[1..] == xs[1..] + ys;
      if r.ending == Ended {
        BatchSplit(r.world, maps, xs[1..], ys, jitter, steps);
      }
    }
  }

  /** An atom whose address no mapping spans is reported, and nothing else comes of it:
      the batch goes on in the memory the atoms before it left. */
  lemma UnmappedReported(w: World, maps: seq<Mapping>, before: seq<Atom>, a: Atom, after: seq<Atom>, jitter: Jitter,
                         steps: nat)
    requires Sane(w, maps) && !Spanned(maps, a.jc % WORD32)
    ensures var r := TraceBatch(w, maps, before, jitter, steps);
      TraceBatch(w, maps, before + [a] + after, jitter, steps)
      == Continued(r, Continued(Walked([JcUnmapped(a.jc)], [], r.world, Ended),
                                TraceBatch(r.world, maps, after, jitter, steps)))
  {
    var r := TraceBatch(w, maps, before, jitter, steps);
    UnmappedOne(r.world, maps, a, jitter, steps);
    hide TraceOne, TraceBatch, InSpace, Spanned;
    AtomBetween(w, maps, before, a, after, jitter, steps);
  }

  lemma UnmappedOne(w: World, maps: seq<Mapping>, a: Atom, jitter: Jitter, steps: nat)
    requires Sane(w, maps) && !Spanned(maps, a.jc % WORD32)
    ensures TraceOne(w, maps, a, jitter, steps) == Walked([JcUnmapped(a.jc)], [], w, Ended)
  {
    hide Spanned, InSpace, JcMapped, TraceAtom;
    JcMappedIff(maps, a.jc);
  }

  lemma MappedOne(w: World, maps: seq<Mapping>, a: Atom, jitter: Jitter, steps: nat)
    requires Sane(w, maps) && Spanned(maps, a.jc % WORD32)
    ensures TraceOne(w, maps, a, jitter, steps) == TraceAtom(w, maps, a.coreReq, a.jc, jitter, steps)
  {
    hide Spanned, InSpace, JcMapped, TraceAtom;
    JcMappedIff(maps, a.jc);
  }

  /** One atom after some and before others. */
  lemma AtomBetween(w: World, maps: seq<Mapping>, before: seq<Atom>, a: Atom, after: seq<Atom>, jitter: Jitter,
                    steps: nat)
    requires Sane(w, maps)
    ensures var r := TraceBatch(w, maps, before, jitter, steps);
      var t := TraceOne(r.world, maps, a, jitter, steps);
      TraceBatch(w, maps, before + [a] + after, jitter, steps)
      == Continued(r, Continued(t, TraceBatch(t.world, maps, after, jitter, steps)))
  {
    hide TraceOne, InSpace;
    assert before + [a] + after == before + ([a] + after);
    BatchSplit(w, maps, before, [a] + after, jitter, steps);
    assert ([a] + after)[0] == a && ([a] + after)[1..] == after;
  }

  /** And an atom whose address is spanned is traced in that memory. */
  lemma MappedTraced(w: World, maps: seq<Mapping>, before: seq<Atom>, a: Atom, after: seq<Atom>, jitter: Jitter,
                     steps: nat)
    requires Sane(w, maps) && Spanned(maps, a.jc % WORD32)
    ensures var r := TraceBatch(w, maps, before, jitter, steps);
      var t := TraceAtom(r.world, maps, a.coreReq, a.jc, jitter, steps);
      TraceBatch(w, maps, before + [a] + after, jitter, steps)
      == Continued(r, Continued(t, TraceBatch(t.world, maps, after, jitter, steps)))
  {
    var r := TraceBatch(w, maps, before, jitter, steps);
    MappedOne(r.world, maps, a, jitter, steps);
    hide TraceOne, TraceAtom, TraceBatch, InSpace, Spanned;
    AtomBetween(w, maps, before, a, after, jitter, steps);
  }
}
