/** Chains of any shape: when the walk ends, and which jobs it visits. */
module Chains {
  import opened Bits
  import opened Layouts
  import opened ShadowMap
  import opened Decoder

  // ----- following links -----

  type Links = u64 -> u64

  /** The `n`-th job from `a`. */
  function Orbit(f: Links, a: u64, n: nat): u64
    decreases n
  {
    if n == 0 then a else Orbit(f, f(a), n - 1)
  }

  lemma {:induction false} OrbitNext(f: Links, a: u64, n: nat)
    ensures Orbit(f, a, n + 1) == f(Orbit(f, a, n))
    decreases n
  {
    if n > 0 { OrbitNext(f, f(a), n - 1); }
  }

  lemma {:induction false} OrbitSum(f: Links, a: u64, m: nat, n: nat)
    ensures Orbit(f, a, m + n) == Orbit(f, Orbit(f, a, m), n)
    decreases m
  {
    if m > 0 { OrbitSum(f, f(a), m - 1, n); }
  }

  lemma {:induction false} StuckAtZero(f: Links, n: nat)
    requires f(0) == 0
    ensures Orbit(f, 0, n) == 0
  {
    if n > 0 { StuckAtZero(f, n - 1); }
  }

  lemma StaysAtZero(f: Links, a: u64, n: nat, m: nat)
    requires f(0) == 0 && Orbit(f, a, n) == 0 && n <= m
    ensures Orbit(f, a, m) == 0
  {
    OrbitSum(f, a, n, m - n);
    StuckAtZero(f, m - n);
  }

  /** No job other than the end of the chain comes twice. */
  ghost predicate Acyclic(f: Links, a: u64) {
    forall i: nat, j: nat | i < j && Orbit(f, a, i) != 0 :: Orbit(f, a, i) != Orbit(f, a, j)
  }

  /** A job that came twice would keep coming. */
  lemma {:induction false} Repeats(f: Links, a: u64, p: nat, k: nat)
    requires Orbit(f, a, p) == a
    ensures Orbit(f, a, k * p) == a
  {
    if k > 0 {
      Repeats(f, a, p, k - 1);
      assert k * p == (k - 1) * p + p;
      OrbitSum(f, a, (k - 1) * p, p);
    }
  }

  lemma EndsIsAcyclic(f: Links, a: u64, n: nat)
    requires f(0) == 0 && Orbit(f, a, n) == 0
    ensures Acyclic(f, a)
  {
    forall i: nat, j: nat | i < j && Orbit(f, a, i) != 0 ensures Orbit(f, a, i) != Orbit(f, a, j) {
      if Orbit(f, a, i) == Orbit(f, a, j) {
        var b, p := Orbit(f, a, i), j - i;
        OrbitSum(f, a, i, p);
        Repeats(f, b, p, n);
        Multiple(n, p);
        OrbitSum(f, a, i, n * p);
        StaysAtZero(f, a, n, i + n * p);
      }
    }
  }

  lemma Multiple(n: nat, p: nat)
    requires p >= 1
    ensures n * p >= n
  {
  }

  /** The first `n` jobs. */
  ghost function Seen(f: Links, a: u64, n: nat): set<u64> {
    if n == 0 then {} else Seen(f, a, n - 1) + {Orbit(f, a, n - 1)}
  }

  lemma {:induction false} SeenIs(f: Links, a: u64, n: nat, x: u64)
    ensures x in Seen(f, a, n) <==> exists i: nat | i < n :: Orbit(f, a, i) == x
  {
    if n > 0 {
      SeenIs(f, a, n - 1, x);
      var last: nat := n - 1;
      assert x == Orbit(f, a, last) ==> exists i: nat | i < n :: Orbit(f, a, i) == x;
      if i: nat :| i < n && Orbit(f, a, i) == x { assert i < n - 1 || i == n - 1; }
    }
  }

  lemma {:induction false} SeenSize(f: Links, a: u64, n: nat)
    requires Acyclic(f, a) && forall i: nat | i < n :: Orbit(f, a, i) != 0
    ensures |Seen(f, a, n)| == n
  {
    if n > 0 {
      SeenSize(f, a, n - 1);
      SeenIs(f, a, n - 1, Orbit(f, a, n - 1));
    }
  }

  /** A set of positive numbers below `bound` has fewer than `bound` members. */
  lemma {:induction false} Pigeonhole(s: set<u64>, bound: nat)
    requires forall x | x in s :: 0 < x < bound
    ensures bound == 0 || |s| < bound
  {
    if bound > 1 {
      var t := s - {bound - 1};
      Pigeonhole(t, bound - 1);
      assert s <= t + {bound - 1};
    } else {
      assert s == {};
    }
  }

  /** An acyclic chain ends within the number of addresses there are. */
  lemma AcyclicEnds(f: Links, a: u64) returns (n: nat)
    requires Acyclic(f, a)
    ensures n < WORD64 && Orbit(f, a, n) == 0
  {
    if forall i: nat | i < WORD64 :: Orbit(f, a, i) != 0 {
      SeenSize(f, a, WORD64);
      forall x | x in Seen(f, a, WORD64) ensures 0 < x < WORD64 { SeenIs(f, a, WORD64, x); }
      Pigeonhole(Seen(f, a, WORD64), WORD64);
      assert false;
    }
    n :| n < WORD64 && Orbit(f, a, n) == 0;
  }

  /** Links that lead to higher addresses make no cycle. */
  lemma IncreasingIsAcyclic(f: Links, a: u64)
    requires f(0) == 0 && forall n: nat :: f(Orbit(f, a, n)) == 0 || Orbit(f, a, n) < f(Orbit(f, a, n))
    ensures Acyclic(f, a)
  {
    forall i: nat, j: nat | i < j && Orbit(f, a, i) != 0 ensures Orbit(f, a, i) != Orbit(f, a, j) {
      Rises(f, a, i, j - i);
    }
  }

  lemma {:induction false} Rises(f: Links, a: u64, i: nat, d: nat)
    requires f(0) == 0 && forall n: nat :: f(Orbit(f, a, n)) == 0 || Orbit(f, a, n) < f(Orbit(f, a, n))
    ensures Orbit(f, a, i + d) == 0 || Orbit(f, a, i + d) >= Orbit(f, a, i) + d
    decreases d
  {
    if d > 0 {
      Rises(f, a, i, d - 1);
      OrbitNext(f, a, i + d - 1);
    }
  }

  // ----- links in memory -----

  /** The link in the header at `a`; 0 if `a` is not mapped. */
  function Link(w: World, maps: seq<Mapping>, a: u64): u64
    requires Sane(w, maps)
  {
    match Fetch(maps, a, HEADER_SIZE)
    case None => 0
    case Some(h) =>
      FetchedInSpace(maps, a, HEADER_SIZE);
      DecodeHeader(w.ram[h..h + HEADER_SIZE]).next
  }

  /** The links of the memory the walk starts from. */
  ghost function LinksIn(w: World, maps: seq<Mapping>): Links
    requires Sane(w, maps)
  {
    (a: u64) => if Sane(w, maps) then Link(w, maps, a) else 0
  }

  lemma NoLinkAtZero(w: World, maps: seq<Mapping>)
    requires Sane(w, maps)
    ensures LinksIn(w, maps)(0) == 0
  {
  }

  /** The first `n` jobs, in order. */
  function Jobs(f: Links, a: u64, n: nat): (s: seq<u64>)
    ensures |s| == n
    ensures forall i | 0 <= i < n :: s[i] == Orbit(f, a, i)
    decreases n
  {
    if n == 0 then [] else [a] + Jobs(f, f(a), n - 1)
  }

  /** The walk visited the jobs of the chain in order, and stopped at the first whose
      link is 0, at one that killed the decoder, or for want of steps. */
  ghost predicate Follows(r: Walked, f: Links, a: u64, steps: nat) {
    && r.visited == Jobs(f, a, |r.visited|) && |r.visited| <= steps
    && (forall i | 0 < i < |r.visited| :: Orbit(f, a, i) != 0)
    && (r.ending == Unfinished ==> |r.visited| == steps && (steps > 0 ==> Orbit(f, a, steps) != 0))
    && (r.ending == Ended ==> 0 < |r.visited| && Orbit(f, a, |r.visited|) == 0)
    && (r.ending == Died ==> 0 < |r.visited|)
  }

  lemma FollowsOn(r: Walked, q: Walked, f: Links, a: u64, steps: nat)
    requires r.visited == [a] + q.visited && r.ending == q.ending && f(a) != 0
    requires Follows(q, f, f(a), steps)
    ensures Follows(r, f, a, steps + 1)
  {
    var n := |r.visited|;
    assert r.visited == Jobs(f, a, n);
    forall i | 0 < i < n ensures Orbit(f, a, i) != 0 {
      assert Orbit(f, a, i) == Orbit(f, f(a), i - 1);
    }
    assert Orbit(f, a, n) == Orbit(f, f(a), n - 1) && Orbit(f, a, steps + 1) == Orbit(f, f(a), steps);
  }

  lemma FollowsOne(r: Walked, f: Links, a: u64, steps: nat)
    requires r.visited == [a] && steps > 0 && (r.ending == Died || (r.ending == Ended && f(a) == 0))
    ensures Follows(r, f, a, steps)
  {
    assert Orbit(f, a, 1) == f(a);
  }

  lemma WalkDies(w: World, maps: seq<Mapping>, a: u64, jitter: Jitter, steps: nat)
    requires Sane(w, maps) && !TraceJob(w, maps, a, jitter).0.ok && steps > 0
    ensures var t := TraceJob(w, maps, a, jitter).0;
      Walk(w, maps, a, jitter, steps) == Walked(t.events, [a], t.world, Died)
  {
    hide TraceJob, InSpace;
  }

  lemma {:induction false} JobsDistinct(f: Links, a: u64, n: nat)
    requires Acyclic(f, a) && forall i | 0 < i < n :: Orbit(f, a, i) != 0
    requires a != 0
    ensures forall i, j | 0 <= i < j < n :: Jobs(f, a, n)[i] != Jobs(f, a, n)[j]
  {
    forall i, j | 0 <= i < j < n ensures Jobs(f, a, n)[i] != Jobs(f, a, n)[j] {
      assert Orbit(f, a, i) != 0;
    }
  }

  /** The jobs of a chain. */
  ghost predicate IsJob(f: Links, a: u64, x: u64) {
    x != 0 && exists n: nat :: Orbit(f, a, n) == x
  }

  /** A walk that follows an acyclic chain has stopped after as many steps as there are
      addresses. */
  lemma FollowsStops(r: Walked, f: Links, a: u64)
    requires Follows(r, f, a, WORD64) && f(0) == 0 && Acyclic(f, a)
    ensures r.ending != Unfinished
  {
    var n := AcyclicEnds(f, a);
    StaysAtZero(f, a, n, WORD64);
  }

  /** One that has ended has visited each job of the chain once, and nothing else. */
  lemma FollowsCovers(r: Walked, f: Links, a: u64, steps: nat)
    requires Follows(r, f, a, steps) && r.ending == Ended && f(0) == 0 && a != 0
    ensures Acyclic(f, a) && forall i, j | 0 <= i < j < |r.visited| :: r.visited[i] != r.visited[j]
    ensures forall x: u64 :: x in r.visited <==> IsJob(f, a, x)
  {
    var v := r.visited;
    EndsIsAcyclic(f, a, |v|);
    JobsDistinct(f, a, |v|);
    forall x: u64 ensures x in v <==> IsJob(f, a, x) {
      if x in v {
        var i :| 0 <= i < |v| && v[i] == x;
        assert x == Orbit(f, a, i) != 0;
      }
      if IsJob(f, a, x) { JobBeforeEnd(f, a, |v|, x); }
    }
  }

  lemma JobBeforeEnd(f: Links, a: u64, n: nat, x: u64)
    requires f(0) == 0 && Orbit(f, a, n) == 0 && IsJob(f, a, x)
    ensures x in Jobs(f, a, n)
  {
    var k: nat :| Orbit(f, a, k) == x;
    if k >= n {
      StaysAtZero(f, a, n, k);
    } else {
      assert Jobs(f, a, n)[k] == x;
    }
  }
}
