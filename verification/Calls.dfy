/** What each kind of intercepted call does, step by step: when it holds the lock, when
    it stops the clock, and that every line of the log shows the time of the freeze. */
module Calls {
  import opened Options
  import opened FrozenClock
  import opened Threads

  // ----- what has been done so far -----

  /** Whether the lock is held and the clock stands still after some steps, how many of
      them went to the kernel, logged a line and took the lock, and the last of them. */
  datatype Tally = Tally(held: bool, still: bool, works: nat, logs: nat, locks: nat, last: Option<Action>)

  const NOTHING: Tally := Tally(false, false, 0, 0, 0, None)

  function Counted(y: Tally, a: Action): Tally {
    var y' := y.(last := Some(a));
    match a
    case Lock => y'.(held := true, locks := y.locks + 1)
    case Unlock => y'.(held := false)
    case Freeze => y'.(still := true)
    case Unfreeze => y'.(still := false)
    case Log => y'.(logs := y.logs + 1)
    case Work => y'.(works := y.works + 1)
  }

  function TallyOf(acts: seq<Action>): Tally {
    if acts == [] then NOTHING else Counted(TallyOf(acts[..|acts| - 1]), acts[|acts| - 1])
  }

  /** What a call of this kind may do after the steps counted in `y`:
      - it logs under the lock, with the clock stopped exactly if its kind stops it;
      - it goes to the kernel once, with the clock running, under the lock exactly if
        its kind stops the clock, and otherwise before (open) or after (close) holding it;
      - it stops the clock only right after the call into the kernel, or, in an ioctl
        that has still to go there, right after taking the lock;
      - a call that stops the clock lets go of the lock right after starting it again. */
  predicate May(c: Call, y: Tally, a: Action) {
    match a
    case Log =>
      && y.held && y.still == c.Freezes()
      && (c.Ioctl? ==> (y.works > 0 <==> y.logs >= c.before))
      && (c.Mmap? || c.Munmap? ==> y.works > 0)
    case Work =>
      && y.works == 0 && !y.still && y.held == c.Freezes()
      && (c.Open? ==> y.last == None) && (c.Close? ==> y.last == Some(Unlock))
      && (c.Ioctl? ==> y.last == Some(Unfreeze) && y.logs == c.before)
      && (c.Mmap? || c.Munmap? ==> y.last == Some(Lock))
    case Freeze =>
      y.held && c.Freezes() && (y.last == Some(Work) || (c.Ioctl? && y.last == Some(Lock) && y.works == 0))
    case Unfreeze => y.held && y.still
    case Lock => y.locks == 0 && !c.Untraced?
    case Unlock => y.held && (c.Freezes() ==> y.last == Some(Unfreeze) && y.works > 0)
  }

  ghost predicate Allowed(c: Call, p: seq<Action>) {
    forall i | 0 <= i < |p| :: May(c, TallyOf(p[..i]), p[i])
  }

  /** A call carried out in full. */
  ghost predicate Complete(c: Call, p: seq<Action>) {
    var y := TallyOf(p);
    && Allowed(c, p) && !y.held && !y.still
    && y.works == 1 && y.logs == c.Lines() && y.locks == if c.Untraced? then 0 else 1
  }

  // ----- the programs -----

  lemma After(acts: seq<Action>, a: Action)
    ensures TallyOf(acts + [a]) == Counted(TallyOf(acts), a)
  {
    assert (acts + [a])[..|acts|] == acts;
  }

  /** A step more. */
  lemma Then(c: Call, acts: seq<Action>, a: Action) returns (r: seq<Action>)
    requires Allowed(c, acts) && May(c, TallyOf(acts), a)
    ensures r == acts + [a] && Allowed(c, r) && TallyOf(r) == Counted(TallyOf(acts), a)
  {
    After(acts, a);
    hide May, TallyOf;
    r := acts + [a];
    forall i | 0 <= i < |r| ensures May(c, TallyOf(r[..i]), r[i]) {
      if i < |acts| {
        assert r[..i] == acts[..i];
      } else {
        assert r[..i] == acts;
      }
    }
  }

  /** Lines logged one after the other, `n` of them. */
  lemma {:induction false} ThenLogs(c: Call, acts: seq<Action>, n: nat) returns (r: seq<Action>)
    requires Allowed(c, acts) && (n > 0 ==> TallyOf(acts).held && TallyOf(acts).still == c.Freezes())
    requires c.Ioctl? && n > 0 ==>
      var y := TallyOf(acts); if y.works > 0 then y.logs >= c.before else y.logs + n <= c.before
    requires c.Mmap? || c.Munmap? ==> TallyOf(acts).works > 0
    ensures r == acts + Logs(n) && Allowed(c, r)
    ensures var y := TallyOf(acts);
      TallyOf(r) == if n == 0 then y else y.(logs := y.logs + n, last := Some(Log))
  {
    hide TallyOf, Allowed;
    if n == 0 {
      r := acts;
      assert r == acts + Logs(0);
    } else {
      var r' := ThenLogs(c, acts, n - 1);
      r := Then(c, r', Log);
      LogsEnd(n);
    }
  }

  lemma {:induction false} LogsEnd(n: nat)
    requires n > 0
    ensures Logs(n) == Logs(n - 1) + [Log]
  {
  }

  /** Every program does what its kind of call may do, and all of it. */
  lemma ProgramComplete(c: Call)
    ensures Complete(c, Program(c))
  {
    hide Logs, TallyOf, Allowed, Complete;
    match c
    case Open(n) => OpenComplete(n);
    case Close(n) => CloseComplete(n);
    case Ioctl(n, m) => IoctlComplete(n, m);
    case Mmap(n) => MapComplete(c, n);
    case Munmap(n) => MapComplete(c, n);
    case Untraced => WorkComplete();
  }

  lemma Nothing(c: Call)
    ensures Allowed(c, []) && TallyOf([]) == NOTHING
  {
  }

  lemma WorkComplete()
    ensures Complete(Untraced, Program(Untraced))
  {
    hide TallyOf, Allowed;
    Nothing(Untraced);
    var r := Then(Untraced, [], Work);
    assert r == [Work];
  }

  lemma OpenComplete(n: nat)
    ensures Complete(Open(n), Program(Open(n)))
  {
    hide Logs, TallyOf, Allowed;
    var c := Open(n);
    Nothing(c);
    var r := Then(c, [], Work);
    r := Then(c, r, Lock);
    r := ThenLogs(c, r, n);
    r := Then(c, r, Unlock);
    assert r == Program(c);
  }

  lemma CloseComplete(n: nat)
    ensures Complete(Close(n), Program(Close(n)))
  {
    hide Logs, TallyOf, Allowed;
    var c := Close(n);
    Nothing(c);
    var r := Then(c, [], Lock);
    r := ThenLogs(c, r, n);
    r := Then(c, r, Unlock);
    r := Then(c, r, Work);
    assert r == Program(c);
  }

  lemma MapComplete(c: Call, n: nat)
    requires c == Mmap(n) || c == Munmap(n)
    ensures Complete(c, Program(c))
  {
    hide Logs, TallyOf, Allowed;
    Nothing(c);
    var r := Then(c, [], Lock);
    r := Then(c, r, Work);
    r := Then(c, r, Freeze);
    r := ThenLogs(c, r, n);
    r := Then(c, r, Unfreeze);
    r := Then(c, r, Unlock);
    assert r == Program(c);
  }

  lemma IoctlToKernel(n: nat, m: nat) returns (r: seq<Action>)
    ensures r == [Lock, Freeze] + Logs(n) + [Unfreeze, Work] && Allowed(Ioctl(n, m), r)
    ensures TallyOf(r) == Tally(true, false, 1, n, 1, Some(Work))
  {
    hide Logs, TallyOf, Allowed;
    var c := Ioctl(n, m);
    Nothing(c);
    r := Then(c, [], Lock);
    r := Then(c, r, Freeze);
    r := ThenLogs(c, r, n);
    r := Then(c, r, Unfreeze);
    r := Then(c, r, Work);
  }

  lemma IoctlComplete(n: nat, m: nat)
    ensures Complete(Ioctl(n, m), Program(Ioctl(n, m)))
  {
    hide Logs, TallyOf, Allowed;
    var c := Ioctl(n, m);
    var r := IoctlToKernel(n, m);
    r := Then(c, r, Freeze);
    r := ThenLogs(c, r, m);
    r := Then(c, r, Unfreeze);
    r := Then(c, r, Unlock);
    assert r == Program(c);
  }

  // ----- calls in a run -----

  /** The record of the thread's call is right. */
  ghost predicate TrackedAt(s: System, t: Thread) {
    var y := TallyOf(Done(s, t));
    && Done(s, t) + Todo(s, t) == (if t in s.calls then Program(s.calls[t]) else [])
    && (y.held <==> s.holder == Some(t))
    && (y.still <==> s.holder == Some(t) && s.clock.frozen)
  }

  ghost predicate Tracked(s: System) {
    forall t: Thread :: TrackedAt(s, t)
  }

  lemma NotHolding(s: System, t: Thread)
    requires Orderly(s) && Todo(s, t) == []
    ensures s.holder != Some(t)
  {
    assert Disciplined(Todo(s, t), s.holder == Some(t), s.holder == Some(t) && s.clock.frozen);
  }

  lemma BeginTracked(s: System, t: Thread, c: Call)
    requires Orderly(s) && Tracked(s) && Todo(s, t) == []
    ensures Tracked(Begin(s, t, c))
  {
    NotHolding(s, t);
    Nothing(c);
    hide Program, TallyOf, Orderly;
    var s' := Begin(s, t, c);
    forall u: Thread ensures TrackedAt(s', u) {
      assert TrackedAt(s, u);
      if u != t {
        assert Done(s', u) == Done(s, u) && Todo(s', u) == Todo(s, u);
      } else {
        assert Done(s', t) == [] && Todo(s', t) == Program(c);
      }
    }
  }

  lemma TookStep(s: System, t: Thread, now: int)
    requires Enabled(s, t)
    ensures var s', a := Act(s, t, now), Todo(s, t)[0];
      && Done(s', t) == Done(s, t) + [a] && Todo(s', t) == Todo(s, t)[1..]
      && Done(s', t) + Todo(s', t) == Done(s, t) + Todo(s, t) && s'.calls == s.calls
      && forall u: Thread | u != t :: Done(s', u) == Done(s, u) && Todo(s', u) == Todo(s, u)
  {
  }

  lemma ActTracked(s: System, t: Thread, now: int)
    requires Orderly(s) && Tracked(s) && Enabled(s, t)
    ensures Tracked(Act(s, t, now))
  {
    NextAction(s, t);
    TookStep(s, t, now);
    After(Done(s, t), Todo(s, t)[0]);
    hide Program, Orderly, TallyOf, Done, Todo;
    var s' := Act(s, t, now);
    assert TrackedAt(s, t);
    forall u: Thread ensures TrackedAt(s', u) {
      assert TrackedAt(s, u);
    }
  }

  lemma {:induction false} AlwaysTracked(run: seq<System>, start: int, n: nat)
    requires IsRun(run, start) && n < |run|
    ensures Tracked(run[n])
  {
    hide Tracked, Orderly, Accounted, Program;
    if n == 0 {
      assert Tracked(run[0]) by { StartTracked(run[0], start); }
    } else {
      var s, s' := run[n - 1], run[n];
      AlwaysTracked(run, start, n - 1);
      Reachable(run, start, n - 1);
      assert Step(s, s');
      if t: Thread, c: Call :| Todo(s, t) == [] && s' == Begin(s, t, c) {
        BeginTracked(s, t, c);
      } else {
        var t: Thread, now: int :| Enabled(s, t) && s.now <= now && s' == Act(s, t, now);
        ActTracked(s, t, now);
      }
    }
  }

  lemma StartTracked(s: System, start: int)
    requires Init(s, start)
    ensures Tracked(s)
  {
  }

  /** In every reachable state each thread has done what its kind of call may do, and
      all of it when it is through with the call; what it does next it may do. */
  lemma CallsFollowed(run: seq<System>, start: int, n: nat, t: Thread)
    requires IsRun(run, start) && n < |run| && t in run[n].calls
    ensures var s := run[n];
      && Allowed(s.calls[t], Done(s, t))
      && if Todo(s, t) == [] then Complete(s.calls[t], Done(s, t))
         else May(s.calls[t], TallyOf(Done(s, t)), Todo(s, t)[0])
  {
    hide Program, May;
    var s := run[n];
    AlwaysTracked(run, start, n);
    assert TrackedAt(s, t);
    var c, d := s.calls[t], Done(s, t);
    var p := Program(c);
    assert p == d + Todo(s, t);
    ProgramComplete(c);
    forall i | 0 <= i < |d| ensures May(c, TallyOf(d[..i]), d[i]) {
      assert p[..i] == d[..i] && p[i] == d[i];
    }
    if Todo(s, t) != [] {
      assert p[..|d|] == d && p[|d|] == Todo(s, t)[0];
    } else {
      assert p == d;
    }
  }

  // ----- what the lines show -----

  /** The clock has stood still since entry `j` of the record, and the lines logged since
      carry the time of that entry. */
  ghost predicate StillSince(h: seq<Entry>, j: nat, start: int, stamp: int) {
    && j < |h| && h[j].Froze? && stamp == h[j].at - start - FrozenBy(h[..j], h[j].at)
    && forall i | j < i < |h| :: h[i].Logged? && h[i].stamp == stamp
  }

  /** While the clock stands still, everything logged carries its stamp. */
  ghost predicate Stopped(s: System, start: int) {
    s.clock.frozen ==> exists j :: StillSince(s.history, j, start, s.clock.stamp)
  }

  lemma StillLonger(h: seq<Entry>, j: nat, start: int, stamp: int, at: int)
    requires StillSince(h, j, start, stamp)
    ensures j < |h| && StillSince(h + [Logged(at, stamp)], j, start, stamp)
  {
    assert (h + [Logged(at, stamp)])[..j] == h[..j];
  }

  lemma JustStopped(h: seq<Entry>, start: int, at: int, stamp: int)
    requires stamp == at - start - FrozenBy(h, at)
    ensures StillSince(h + [Froze(at)], |h|, start, stamp)
  {
    assert (h + [Froze(at)])[..|h|] == h;
  }

  lemma ActStopped(s: System, t: Thread, now: int, start: int)
    requires Orderly(s) && Accounted(s, start) && Stopped(s, start) && Enabled(s, t) && s.now <= now
    ensures Stopped(Act(s, t, now), start)
  {
    NextAction(s, t);
    hide Orderly, StillSince;
    match Todo(s, t)[0]
    case Freeze =>
      FrozenLater(s.history, s.now, now);
      JustStopped(s.history, start, now, now - start - s.clock.total);
    case Log =>
      if s.clock.frozen {
        var j :| StillSince(s.history, j, start, s.clock.stamp);
        StillLonger(s.history, j, start, s.clock.stamp, now);
      }
    case _ =>
  }

  lemma {:induction false} AlwaysStopped(run: seq<System>, start: int, n: nat)
    requires IsRun(run, start) && n < |run|
    ensures Stopped(run[n], start)
  {
    hide Orderly, Accounted, Program, StillSince;
    if n > 0 {
      var s, s' := run[n - 1], run[n];
      AlwaysStopped(run, start, n - 1);
      Reachable(run, start, n - 1);
      assert Step(s, s');
      if t: Thread, c: Call :| Todo(s, t) == [] && s' == Begin(s, t, c) {
      } else {
        var t: Thread, now: int :| Enabled(s, t) && s.now <= now && s' == Act(s, t, now);
        ActStopped(s, t, now, start);
      }
    }
  }

  /** The law the clock exists for.  A line logged by an ioctl, mmap or munmap is logged
      with the clock stopped, by the same call, and carries the time at which it was
      stopped, as do all lines since; a line of any other call is logged with it running. */
  lemma LinesShowFreeze(run: seq<System>, start: int, n: nat, t: Thread, now: int)
    returns (j: nat)
    requires IsRun(run, start) && n < |run| && Enabled(run[n], t) && Todo(run[n], t)[0] == Log && run[n].now <= now
    ensures var s := run[n];
      && t in s.calls && s.holder == Some(t) && (s.clock.frozen <==> s.calls[t].Freezes())
      && TallyOf(Done(s, t)).still == s.calls[t].Freezes()
    ensures run[n].calls[t].Freezes() ==>
      var h := Act(run[n], t, now).history;
      j < |h| - 1 && StillSince(h, j, start, h[|h| - 1].stamp)
  {
    hide Program, StillSince, Accounted, TallyOf;
    var s := run[n];
    AlwaysTracked(run, start, n);
    assert TrackedAt(s, t);
    CallsFollowed(run, start, n, t);
    Reachable(run, start, n);
    NextAction(s, t);
    AlwaysStopped(run, start, n);
    j := 0;
    if s.clock.frozen {
      j :| StillSince(s.history, j, start, s.clock.stamp);
      StillLonger(s.history, j, start, s.clock.stamp, now);
    }
  }

  /** Under the lock of a call that stops the clock, the clock runs only between lock and
      freeze or kernel, between unfreeze and kernel, between kernel and freeze, and
      between unfreeze and letting go of the lock. */
  lemma RunsAroundKernel(run: seq<System>, start: int, n: nat, t: Thread)
    requires IsRun(run, start) && n < |run| && run[n].holder == Some(t) && !run[n].clock.frozen
    ensures var s := run[n];
      && t in s.calls && Todo(s, t) != []
      && var y := TallyOf(Done(s, t));
         s.calls[t].Freezes() ==>
           match Todo(s, t)[0]
           case Freeze => y.last == Some(Work) || (s.calls[t].Ioctl? && y.last == Some(Lock) && y.works == 0)
           case Work => y.works == 0 && y.last == Some(if s.calls[t].Ioctl? then Unfreeze else Lock)
           case Unlock => y.works > 0 && y.last == Some(Unfreeze)
           case _ => false
  {
    var s := run[n];
    AlwaysTracked(run, start, n);
    Reachable(run, start, n);
    HolderBusy(s, t);
    CallsFollowed(run, start, n, t);
    assert TrackedAt(s, t);
    hide Program, TallyOf, Done, Todo, IsRun, Orderly, Accounted, Complete, Allowed;
  }

  lemma HolderBusy(s: System, t: Thread)
    requires Orderly(s) && Tracked(s) && s.holder == Some(t)
    ensures t in s.calls && Todo(s, t) != [] && (Todo(s, t)[0].Lock? ==> false)
  {
    assert TrackedAt(s, t);
    Nothing(Untraced);
    assert Done(s, t) != [];
    assert Disciplined(Todo(s, t), true, s.clock.frozen);
  }
}
