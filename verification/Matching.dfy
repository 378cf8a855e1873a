/** A log of events in which each `Pop` takes the newest `Push` with its key
    that no earlier `Pop` took.  Pending allocations consumed by mmap, and
    mappings removed by munmap, both behave this way. */
module Matching {
  import opened ShadowMap

  datatype Event = Push(key: int) | Pop(key: int) | Skip

  function PushedAs(evs: seq<Event>, key: int): nat -> bool {
    (t: nat) => t < |evs| && evs[t].Push? && evs[t].key == key
  }

  /** The event numbers still on the stack after the first `n` events, newest first. */
  function Stack(evs: seq<Event>, n: nat): seq<nat>
    requires n <= |evs|
  {
    if n == 0 then []
    else
      var s := Stack(evs, n - 1);
      match evs[n - 1]
      case Push(_) => [n - 1] + s
      case Pop(key) => Drop(s, First(s, PushedAs(evs, key)))
      case Skip => s
  }

  /** Which push each successful pop took. */
  function Taken(evs: seq<Event>, n: nat): map<nat, nat>
    requires n <= |evs|
  {
    if n == 0 then map[]
    else
      var s, t := Stack(evs, n - 1), Taken(evs, n - 1);
      if !evs[n - 1].Pop? then t
      else
        var k := First(s, PushedAs(evs, evs[n - 1].key));
        if k < |s| then t[n - 1 := s[k]] else t
  }

  /** Position on the stack of the push that event `n` takes, or the stack's size. */
  function Hit(evs: seq<Event>, s: seq<nat>, n: nat): (k: nat)
    requires n < |evs|
    ensures k <= |s| && (k < |s| ==> evs[n].Pop? && PushedAs(evs, evs[n].key)(s[k]))
  {
    if evs[n].Pop? then First(s, PushedAs(evs, evs[n].key)) else |s|
  }

  function NextStack(evs: seq<Event>, s: seq<nat>, n: nat): seq<nat>
    requires n < |evs|
  {
    if evs[n].Push? then [n] + s else Drop(s, Hit(evs, s, n))
  }

  function NextTaken(evs: seq<Event>, s: seq<nat>, t: map<nat, nat>, n: nat): map<nat, nat>
    requires n < |evs|
  {
    var k := Hit(evs, s, n);
    if k < |s| then t[n := s[k]] else t
  }

  lemma Unroll(evs: seq<Event>, n: nat)
    requires n < |evs|
    ensures Stack(evs, n + 1) == NextStack(evs, Stack(evs, n), n)
    ensures Taken(evs, n + 1) == NextTaken(evs, Stack(evs, n), Taken(evs, n), n)
  {
  }

  function Pushes(evs: seq<Event>, n: nat): nat
    requires n <= |evs|
  {
    if n == 0 then 0 else Pushes(evs, n - 1) + if evs[n - 1].Push? then 1 else 0
  }

  // ----- what holds of the stack `s` and the takings `t` after `n` events -----

  /** The stack holds earlier pushes, the newest first. */
  ghost predicate IsStack(evs: seq<Event>, s: seq<nat>, n: nat) {
    && n <= |evs| && Descending(s)
    && forall i | 0 <= i < |s| :: s[i] < n && evs[s[i]].Push?
  }

  predicate Descending(s: seq<nat>) {
    forall i, j | 0 <= i < j < |s| :: s[i] > s[j]
  }

  /** Each pop took an earlier push with its key. */
  ghost predicate TakesEarlier(evs: seq<Event>, t: map<nat, nat>, n: nat) {
    n <= |evs| && forall m | m in t :: m < n && evs[m].Pop? && t[m] < m && PushedAs(evs, evs[m].key)(t[m])
  }

  /** No push is taken twice, and none that was taken is still on the stack. */
  ghost predicate TakenApart(t: map<nat, nat>, s: seq<nat>) {
    && (forall m, i | m in t && 0 <= i < |s| :: t[m] != s[i])
    && (forall m, m' | m in t && m' in t && t[m] == t[m'] :: m == m')
  }

  /** Every push is on the stack or was taken. */
  ghost predicate Conserved(evs: seq<Event>, s: seq<nat>, t: map<nat, nat>, n: nat) {
    n <= |evs| && forall b | 0 <= b < n && evs[b].Push? :: b in s || b in t.Values
  }

  lemma DropAt(s: seq<nat>, k: nat)
    ensures forall i | 0 <= i < |Drop(s, k)| :: Drop(s, k)[i] == s[if i < k then i else i + 1]
    ensures |Drop(s, k)| == if k < |s| then |s| - 1 else |s|
  {
  }

  lemma StackPush(evs: seq<Event>, s: seq<nat>, n: nat)
    requires n < |evs| && evs[n].Push? && IsStack(evs, s, n)
    ensures IsStack(evs, [n] + s, n + 1)
  {
  }

  lemma StackDrop(evs: seq<Event>, s: seq<nat>, n: nat, k: nat)
    requires n < |evs| && IsStack(evs, s, n)
    ensures IsStack(evs, Drop(s, k), n + 1)
  {
    DropAt(s, k);
    hide Drop;
  }

  lemma StackStep(evs: seq<Event>, s: seq<nat>, n: nat)
    requires n < |evs| && IsStack(evs, s, n)
    ensures IsStack(evs, NextStack(evs, s, n), n + 1)
  {
    hide IsStack, Hit, Drop;
    if evs[n].Push? {
      StackPush(evs, s, n);
    } else {
      StackDrop(evs, s, n, Hit(evs, s, n));
    }
  }

  lemma EarlierStep(evs: seq<Event>, s: seq<nat>, t: map<nat, nat>, n: nat)
    requires n < |evs| && IsStack(evs, s, n) && TakesEarlier(evs, t, n)
    ensures TakesEarlier(evs, NextTaken(evs, s, t, n), n + 1)
  {
    hide Hit, Drop;
  }

  lemma ApartPush(t: map<nat, nat>, s: seq<nat>, n: nat)
    requires TakenApart(t, s) && forall m | m in t :: t[m] < n
    ensures TakenApart(t, [n] + s)
  {
  }

  lemma ApartTake(t: map<nat, nat>, s: seq<nat>, k: nat, n: nat)
    requires TakenApart(t, s) && Descending(s) && n !in t && k <= |s|
    ensures TakenApart(if k < |s| then t[n := s[k]] else t, Drop(s, k))
  {
    DropAt(s, k);
    hide Drop;
  }

  lemma ApartStep(evs: seq<Event>, s: seq<nat>, t: map<nat, nat>, n: nat)
    requires n < |evs| && IsStack(evs, s, n) && TakesEarlier(evs, t, n) && TakenApart(t, s)
    ensures TakenApart(NextTaken(evs, s, t, n), NextStack(evs, s, n))
  {
    assert n !in t;
    assert forall m | m in t :: t[m] < n;
    hide Hit, Drop, PushedAs, TakenApart, TakesEarlier;
    if evs[n].Push? {
      ApartPush(t, s, n);
    } else {
      ApartTake(t, s, Hit(evs, s, n), n);
    }
  }

  lemma ConservedStep(evs: seq<Event>, s: seq<nat>, t: map<nat, nat>, n: nat)
    requires n < |evs| && TakesEarlier(evs, t, n) && Conserved(evs, s, t, n)
    ensures Conserved(evs, NextStack(evs, s, n), NextTaken(evs, s, t, n), n + 1)
  {
    forall b | 0 <= b <= n && evs[b].Push? ensures b in NextStack(evs, s, n) || b in NextTaken(evs, s, t, n).Values {
      if b == n {
        assert NextStack(evs, s, n)[0] == b;
      } else {
        StillThere(evs, s, t, n, b);
      }
    }
  }

  lemma StillThere(evs: seq<Event>, s: seq<nat>, t: map<nat, nat>, n: nat, b: nat)
    requires n < |evs| && n !in t && (b in s || b in t.Values)
    ensures b in NextStack(evs, s, n) || b in NextTaken(evs, s, t, n).Values
  {
    hide Hit, Drop, PushedAs;
    var s', t', k := NextStack(evs, s, n), NextTaken(evs, s, t, n), Hit(evs, s, n);
    DropAt(s, k);
    if b in t.Values {
      var m :| m in t && t[m] == b;
      assert m in t' && t'[m] == b;
    } else {
      var i :| 0 <= i < |s| && s[i] == b;
      if k == i {
        assert n in t' && t'[n] == b;
      } else {
        assert s'[if evs[n].Push? then i + 1 else if i < k then i else i - 1] == b;
      }
    }
  }

  lemma CountStep(evs: seq<Event>, s: seq<nat>, t: map<nat, nat>, n: nat)
    requires n < |evs| && TakesEarlier(evs, t, n)
    ensures |NextStack(evs, s, n)| + |NextTaken(evs, s, t, n)|
         == |s| + |t| + if evs[n].Push? then 1 else 0
  {
    assert n !in t;
    hide Hit, Drop, PushedAs, TakesEarlier;
    DropAt(s, Hit(evs, s, n));
  }

  /** All of the above, and the counts add up. */
  ghost predicate Matched(evs: seq<Event>, s: seq<nat>, t: map<nat, nat>, n: nat) {
    && n <= |evs|
    && IsStack(evs, s, n) && TakesEarlier(evs, t, n) && TakenApart(t, s) && Conserved(evs, s, t, n)
    && Pushes(evs, n) == |s| + |t|
  }

  lemma MatchedStep(evs: seq<Event>, s: seq<nat>, t: map<nat, nat>, n: nat)
    requires n < |evs| && Matched(evs, s, t, n)
    ensures Matched(evs, NextStack(evs, s, n), NextTaken(evs, s, t, n), n + 1)
  {
    hide IsStack, TakesEarlier, TakenApart, Conserved, NextStack, NextTaken;
    StackStep(evs, s, n);
    EarlierStep(evs, s, t, n);
    ApartStep(evs, s, t, n);
    ConservedStep(evs, s, t, n);
    CountStep(evs, s, t, n);
  }

  /** After any number of events. */
  lemma {:induction false} MatchingRun(evs: seq<Event>, n: nat)
    requires n <= |evs|
    ensures Matched(evs, Stack(evs, n), Taken(evs, n), n)
  {
    hide Matched, First, Drop, PushedAs;
    if n == 0 {
      MatchedNone(evs);
    } else {
      hide Stack, Taken;
      MatchingRun(evs, n - 1);
      MatchedStep(evs, Stack(evs, n - 1), Taken(evs, n - 1), n - 1);
      Unroll(evs, n - 1);
    }
  }

  lemma MatchedNone(evs: seq<Event>)
    ensures Matched(evs, [], map[], 0)
  {
  }

  lemma StackRun(evs: seq<Event>, n: nat)
    requires n <= |evs|
    ensures IsStack(evs, Stack(evs, n), n)
  {
    hide IsStack, TakesEarlier, TakenApart, Conserved;
    MatchingRun(evs, n);
  }

  /** The same for one pop. */
  lemma PopTookOne(evs: seq<Event>, n: nat, m: nat, a: nat)
    requires n <= |evs| && m in Taken(evs, n) && Taken(evs, n)[m] == a
    ensures a < m < n && evs[m].Pop? && evs[a] == Push(evs[m].key)
    ensures forall i | 0 <= i < |Stack(evs, n)| :: Stack(evs, n)[i] != a
    ensures forall m' | m' in Taken(evs, n) && Taken(evs, n)[m'] == a :: m' == m
  {
    MatchingRun(evs, n);
    hide Stack, Taken, Conserved, IsStack;
  }

  /** What a pop takes is settled when it happens. */
  lemma TakenIs(evs: seq<Event>, m: nat, n: nat)
    requires m < n <= |evs| && evs[m].Pop?
    ensures var s, t := Stack(evs, m), Taken(evs, n);
      var k := First(s, PushedAs(evs, evs[m].key));
      if k < |s| then m in t && t[m] == s[k] && s[k] < m else m !in t
  {
    TakenStable(evs, m, n);
    MatchingRun(evs, m);
    hide Conserved, TakenApart;
    Unroll(evs, m);
  }

  lemma {:induction false} TakenStable(evs: seq<Event>, m: nat, n: nat)
    requires m < n <= |evs|
    ensures m in Taken(evs, n) <==> m in Taken(evs, m + 1)
    ensures m in Taken(evs, n) ==> Taken(evs, n)[m] == Taken(evs, m + 1)[m]
  {
    if m + 1 < n {
      TakenStable(evs, m, n - 1);
      Unroll(evs, n - 1);
      hide Stack, Taken, Hit;
    }
  }

  /** A pop takes the newest candidate: every later push with the key, or every
      one if it takes none, had already been taken. */
  lemma TakesNewest(evs: seq<Event>, m: nat, n: nat, b: nat)
    requires m < n <= |evs| && evs[m].Pop?
    requires b < m && PushedAs(evs, evs[m].key)(b)
    requires m in Taken(evs, n) ==> Taken(evs, n)[m] < b
    ensures b in Taken(evs, m).Values
  {
    TakenIs(evs, m, n);
    MatchingRun(evs, m);
    hide Stack, Taken, TakenApart, TakesEarlier;
    NewerThanFirst(Stack(evs, m), PushedAs(evs, evs[m].key), b);
  }

  lemma NewerThanFirst(s: seq<nat>, p: nat -> bool, b: nat)
    requires Descending(s) && p(b)
    requires var k := First(s, p); k < |s| ==> s[k] < b
    ensures b !in s
  {
    var k := First(s, p);
    hide First;
    forall i | 0 <= i < |s| ensures s[i] != b {
      if i < k {
        assert !p(s[i]);
      } else if i > k {
        assert s[k] > s[i];
      }
    }
  }
}
