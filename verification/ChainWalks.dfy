/** When the chain walk ends and which jobs it visits, by the memory it starts from. */
module ChainWalks {
  import opened Bits
  import opened Memory
  import opened Layouts
  import opened ShadowMap
  import opened Decoder
  import opened Chains
  import opened Plans

  // ----- conditions on the starting memory -----

  /** The `n`-th job of the chain from `a`, with the links of `w`. */
  ghost function JobAt(w: World, maps: seq<Mapping>, a: u64, n: nat): u64
    requires Sane(w, maps)
  {
    Orbit(LinksIn(w, maps), a, n)
  }

  /** The vertices of each job of the chain lie clear of everything that is read of the
      job and of those after it: headers, payloads, shader words, metadata words and
      attribute buffers. */
  ghost predicate KeepsClear(w: World, maps: seq<Mapping>, a: u64)
    requires Sane(w, maps)
  {
    forall n: nat, m: nat | n <= m ::
      AllMiss(PlanJob(w, maps, JobAt(w, maps, a, m)).seen, PlanJob(w, maps, JobAt(w, maps, a, n)).rewritten)
  }

  /** No job of the chain kills the decoder. */
  ghost predicate Survivable(w: World, maps: seq<Mapping>, a: u64)
    requires Sane(w, maps)
  {
    forall n: nat :: PlanJob(w, maps, JobAt(w, maps, a, n)).ok
  }

  /** The job at `a` is no vertex or tiler job, or is sabotaged, or is not mapped. */
  predicate Inert(w: World, maps: seq<Mapping>, a: u64)
    requires Sane(w, maps)
  {
    match Fetch(maps, a, HEADER_SIZE)
    case None => true
    case Some(h) =>
      FetchedInSpace(maps, a, HEADER_SIZE);
      || (TypeIn(w, h) != JOB_TYPE_VERTEX && TypeIn(w, h) != JOB_TYPE_TILER)
      || match Fetch(maps, (a + HEADER_SIZE) % WORD64, 4 * VT_WORDS)
         case None => true
         case Some(v) =>
           FetchedInSpace(maps, (a + HEADER_SIZE) % WORD64, 4 * VT_WORDS);
           IsSabotaged(PayloadIn(w, v))
  }

  lemma InertPlan(w: World, maps: seq<Mapping>, a: u64)
    requires Sane(w, maps) && Inert(w, maps, a)
    ensures PlanJob(w, maps, a).rewritten == []
  {
    hide Fetch, DecodeHeader, PayloadIn, IsSabotaged, PlanShaded, InSpace;
  }

  /** A chain without live vertex or tiler jobs keeps clear. */
  lemma InertKeepsClear(w: World, maps: seq<Mapping>, a: u64)
    requires Sane(w, maps) && forall n: nat :: Inert(w, maps, JobAt(w, maps, a, n))
    ensures KeepsClear(w, maps, a)
  {
    hide Inert, PlanJob, JobAt, InSpace;
    forall n: nat, m: nat | n <= m
      ensures AllMiss(PlanJob(w, maps, JobAt(w, maps, a, m)).seen, PlanJob(w, maps, JobAt(w, maps, a, n)).rewritten)
    {
      InertPlan(w, maps, JobAt(w, maps, a, n));
    }
  }

  // ----- every memory on the way -----

  /** `w'` agrees with `w` on all that is read of the chain's jobs from the `i`-th on. */
  ghost predicate AgreesFrom(w: World, w': World, maps: seq<Mapping>, a: u64, i: nat)
    requires Sane(w, maps)
  {
    |w'.ram| == SPACE && forall n: nat | i <= n :: Agree(w.ram, w'.ram, PlanJob(w, maps, JobAt(w, maps, a, n)).seen)
  }

  lemma AgreesWithItself(w: World, maps: seq<Mapping>, a: u64)
    requires Sane(w, maps)
    ensures AgreesFrom(w, w, maps, a, 0)
  {
    hide PlanJob, LinksIn;
  }

  lemma AgreesLater(w: World, w': World, maps: seq<Mapping>, a: u64, i: nat, j: nat)
    requires Sane(w, maps) && AgreesFrom(w, w', maps, a, i) && i <= j
    ensures Sane(w', maps) && AgreesFrom(w, w', maps, a, j)
  {
    hide PlanJob, JobAt, Agree;
  }

  /** Tracing the `i`-th job, in a memory that agrees from there on. */
  lemma JobKeeps(w: World, w': World, maps: seq<Mapping>, a: u64, i: nat, jitter: Jitter)
    requires Sane(w, maps) && KeepsClear(w, maps, a) && AgreesFrom(w, w', maps, a, i)
    ensures Sane(w', maps)
    ensures var (t, next) := TraceJob(w', maps, JobAt(w, maps, a, i), jitter);
      && AgreesFrom(w, t.world, maps, a, i + 1) && next == JobAt(w, maps, a, i + 1)
      && t.ok == PlanJob(w, maps, JobAt(w, maps, a, i)).ok
  {
    hide PlanJob, TraceJob, Agree, AllMiss, InSpace, ChangedOnly, Link;
    var x := JobAt(w, maps, a, i);
    var p := PlanJob(w, maps, x);
    assert Sane(w', maps);
    assert Safe(w, w', p.seen, p.rewritten);
    JobPlanned(w, w', maps, x, jitter);
    var t := TraceJob(w', maps, x, jitter).0;
    forall n: nat | i + 1 <= n ensures Agree(w.ram, t.world.ram, PlanJob(w, maps, JobAt(w, maps, a, n)).seen) {
      StillAgree(w.ram, w'.ram, t.world.ram, PlanJob(w, maps, JobAt(w, maps, a, n)).seen, p.rewritten);
    }
    OrbitNext(LinksIn(w, maps), a, i);
  }

  /** And any number of them: what is read of the jobs still to come stays as it was. */
  lemma {:induction false} WalkKeeps(w: World, w': World, maps: seq<Mapping>, a: u64, i: nat, jitter: Jitter, k: nat)
    requires Sane(w, maps) && KeepsClear(w, maps, a) && AgreesFrom(w, w', maps, a, i)
    ensures Sane(w', maps)
    ensures var r := Walk(w', maps, JobAt(w, maps, a, i), jitter, k);
      AgreesFrom(w, r.world, maps, a, i + |r.visited|)
    decreases k
  {
    hide KeepsClear, TraceJob, InSpace, JobAt, PlanJob, AgreesFrom;
    AgreesLater(w, w', maps, a, i, i);
    if k > 0 {
      JobKeeps(w, w', maps, a, i, jitter);
      var (t, next) := TraceJob(w', maps, JobAt(w, maps, a, i), jitter);
      if t.ok && next != 0 {
        WalkKeeps(w, t.world, maps, a, i + 1, jitter, k - 1);
      }
    }
  }

  lemma AgreedLink(w: World, w': World, maps: seq<Mapping>, x: u64)
    requires Sane(w, maps) && Sane(w', maps) && Agree(w.ram, w'.ram, PlanJob(w, maps, x).seen)
    ensures Link(w', maps, x) == Link(w, maps, x)
  {
    hide Fetch, Agree, InSpace, PlanPayload, DecodeHeader;
    if Fetch(maps, x, HEADER_SIZE).Some? {
      FetchedInSpace(maps, x, HEADER_SIZE);
      AgreeSlice(w.ram, w'.ram, PlanJob(w, maps, x).seen, 0);
    }
  }

  /** Vertices that keep clear keep the links of all jobs still to come, however far the
      walk has got and whatever the decoder drew. */
  lemma ClearKeepsLinks(w: World, maps: seq<Mapping>, a: u64, jitter: Jitter, k: nat, n: nat)
    requires Sane(w, maps) && KeepsClear(w, maps, a) && |Walk(w, maps, a, jitter, k).visited| <= n
    ensures Link(Walk(w, maps, a, jitter, k).world, maps, JobAt(w, maps, a, n)) == Link(w, maps, JobAt(w, maps, a, n))
  {
    hide KeepsClear, Walk, InSpace, LinksIn, PlanJob, Link, Agree;
    AgreesWithItself(w, maps, a);
    assert JobAt(w, maps, a, 0) == a;
    WalkKeeps(w, w, maps, a, 0, jitter, k);
    AgreedLink(w, Walk(w, maps, a, jitter, k).world, maps, JobAt(w, maps, a, n));
  }

  // ----- who survives -----

  lemma {:induction false} Survives(w: World, w': World, maps: seq<Mapping>, a: u64, i: nat, jitter: Jitter, k: nat)
    requires Sane(w, maps) && KeepsClear(w, maps, a) && AgreesFrom(w, w', maps, a, i) && Survivable(w, maps, a)
    ensures Sane(w', maps) && Walk(w', maps, JobAt(w, maps, a, i), jitter, k).ending != Died
    decreases k
  {
    hide KeepsClear, TraceJob, InSpace, JobAt, PlanJob, AgreesFrom;
    AgreesLater(w, w', maps, a, i, i);
    if k > 0 {
      JobKeeps(w, w', maps, a, i, jitter);
      var (t, next) := TraceJob(w', maps, JobAt(w, maps, a, i), jitter);
      assert t.ok;
      if next != 0 { Survives(w, t.world, maps, a, i + 1, jitter, k - 1); }
    }
  }

  /** A job that kills the decoder is not walked past. */
  lemma {:induction false} Dies(w: World, w': World, maps: seq<Mapping>, a: u64, i: nat, d: nat, jitter: Jitter, k: nat)
    requires Sane(w, maps) && KeepsClear(w, maps, a) && AgreesFrom(w, w', maps, a, i)
    requires !PlanJob(w, maps, JobAt(w, maps, a, i + d)).ok
    ensures Sane(w', maps) && Walk(w', maps, JobAt(w, maps, a, i), jitter, k).ending != Ended
    decreases k
  {
    hide KeepsClear, TraceJob, InSpace, JobAt, PlanJob, AgreesFrom;
    AgreesLater(w, w', maps, a, i, i);
    if k > 0 {
      JobKeeps(w, w', maps, a, i, jitter);
      var (t, next) := TraceJob(w', maps, JobAt(w, maps, a, i), jitter);
      if t.ok {
        assert d > 0;
        if next == 0 { NoJobAfterEnd(w, maps, a, i + 1, i + d); }
        assert next != 0;
        Dies(w, t.world, maps, a, i + 1, d - 1, jitter, k - 1);
      }
    }
  }

  /** Address 0 is no job, and kills nobody. */
  lemma NoJobAfterEnd(w: World, maps: seq<Mapping>, a: u64, m: nat, n: nat)
    requires Sane(w, maps) && JobAt(w, maps, a, m) == 0 && m <= n
    ensures PlanJob(w, maps, JobAt(w, maps, a, n)).ok
  {
    NoLinkAtZero(w, maps);
    StaysAtZero(LinksIn(w, maps), a, m, n);
  }

  /** Whether a job kills the decoder is what a trace of it in the starting memory says. */
  lemma PlanOk(w: World, maps: seq<Mapping>, a: u64, n: nat, jitter: Jitter)
    requires Sane(w, maps) && KeepsClear(w, maps, a)
    ensures PlanJob(w, maps, JobAt(w, maps, a, n)).ok == TraceJob(w, maps, JobAt(w, maps, a, n), jitter).0.ok
  {
    hide KeepsClear, AgreesFrom, PlanJob, TraceJob, JobAt;
    AgreesWithItself(w, maps, a);
    AgreesLater(w, w, maps, a, 0, n);
    JobKeeps(w, w, maps, a, n, jitter);
  }

  // ----- the walk -----

  /** The rest of the walk, from the `i`-th job on. */
  lemma {:induction false} WalkFollowsFrom(w: World, w': World, maps: seq<Mapping>, a: u64, i: nat,
                                           jitter: Jitter, k: nat)
    requires Sane(w, maps) && KeepsClear(w, maps, a) && AgreesFrom(w, w', maps, a, i)
    ensures Sane(w', maps)
    ensures Follows(Walk(w', maps, JobAt(w, maps, a, i), jitter, k), LinksIn(w, maps), JobAt(w, maps, a, i), k)
    decreases k
  {
    hide KeepsClear, TraceJob, InSpace, PlanJob, AgreesFrom, Walk, Follows, LinksIn;
    AgreesLater(w, w', maps, a, i, i);
    var x, f := JobAt(w, maps, a, i), LinksIn(w, maps);
    var r := Walk(w', maps, x, jitter, k);
    if k == 0 {
      FollowsNone(w', maps, f, x, jitter);
    } else {
      JobKeeps(w, w', maps, a, i, jitter);
      var (t, next) := TraceJob(w', maps, x, jitter);
      OrbitNext(f, a, i);
      if !t.ok {
        WalkDies(w', maps, x, jitter, k);
        FollowsOne(r, f, x, k);
      } else if next != 0 {
        WalkOn(w', maps, x, jitter, k, t, next);
        WalkFollowsFrom(w, t.world, maps, a, i + 1, jitter, k - 1);
        FollowsOn(r, Walk(t.world, maps, next, jitter, k - 1), f, x, k - 1);
      } else {
        WalkEnds(w', maps, x, jitter, k, t);
        FollowsOne(r, f, x, k);
      }
    }
  }

  lemma FollowsNone(w: World, maps: seq<Mapping>, f: Links, a: u64, jitter: Jitter)
    requires Sane(w, maps)
    ensures Follows(Walk(w, maps, a, jitter, 0), f, a, 0)
  {
  }

  /** The walk visits the jobs of the chain in order, until a link is 0 or the decoder dies. */
  lemma WalkFollows(w: World, maps: seq<Mapping>, a: u64, jitter: Jitter, steps: nat)
    requires Sane(w, maps) && KeepsClear(w, maps, a)
    ensures Follows(Walk(w, maps, a, jitter, steps), LinksIn(w, maps), a, steps)
  {
    hide KeepsClear, AgreesFrom, Follows, Walk, LinksIn;
    AgreesWithItself(w, maps, a);
    assert JobAt(w, maps, a, 0) == a;
    WalkFollowsFrom(w, w, maps, a, 0, jitter, steps);
  }

  /** Termination: the walk ends exactly when no job of the chain comes twice and none
      kills the decoder.  On an acyclic chain it stops in any case, in as many steps as
      there are addresses. */
  lemma WalkEndsIff(w: World, maps: seq<Mapping>, a: u64, jitter: Jitter)
    requires Sane(w, maps) && a != 0 && KeepsClear(w, maps, a)
    ensures (exists steps: nat :: Walk(w, maps, a, jitter, steps).ending == Ended)
       <==> Acyclic(LinksIn(w, maps), a) && Survivable(w, maps, a)
    ensures Acyclic(LinksIn(w, maps), a) ==> Walk(w, maps, a, jitter, WORD64).ending != Unfinished
  {
    hide KeepsClear, Walk, LinksIn, AgreesFrom, Acyclic, PlanJob, Follows;
    NoLinkAtZero(w, maps);
    AgreesWithItself(w, maps, a);
    assert JobAt(w, maps, a, 0) == a;
    hide JobAt;
    if steps: nat :| Walk(w, maps, a, jitter, steps).ending == Ended {
      WalkFollows(w, maps, a, jitter, steps);
      FollowsCovers(Walk(w, maps, a, jitter, steps), LinksIn(w, maps), a, steps);
      forall n: nat ensures PlanJob(w, maps, JobAt(w, maps, a, n)).ok {
        if !PlanJob(w, maps, JobAt(w, maps, a, n)).ok { Dies(w, w, maps, a, 0, n, jitter, steps); }
      }
    }
    if Acyclic(LinksIn(w, maps), a) {
      WalkFollows(w, maps, a, jitter, WORD64);
      FollowsStops(Walk(w, maps, a, jitter, WORD64), LinksIn(w, maps), a);
      if Survivable(w, maps, a) {
        Survives(w, w, maps, a, 0, jitter, WORD64);
        assert Walk(w, maps, a, jitter, WORD64).ending == Ended;
      }
    }
  }

  /** Coverage: a walk that ends has visited each job of the chain once, and nothing else. */
  lemma WalkCovers(w: World, maps: seq<Mapping>, a: u64, jitter: Jitter, steps: nat)
    requires Sane(w, maps) && a != 0 && KeepsClear(w, maps, a)
    requires Walk(w, maps, a, jitter, steps).ending == Ended
    ensures var v := Walk(w, maps, a, jitter, steps).visited;
      && (forall i, j | 0 <= i < j < |v| :: v[i] != v[j])
      && (forall x: u64 :: x in v <==> IsJob(LinksIn(w, maps), a, x))
  {
    hide KeepsClear, Walk, LinksIn, IsJob, Acyclic, Follows;
    NoLinkAtZero(w, maps);
    WalkFollows(w, maps, a, jitter, steps);
    FollowsCovers(Walk(w, maps, a, jitter, steps), LinksIn(w, maps), a, steps);
  }
}
