/** Threads inside the intercepted libc calls: the lock, the frozen clock and the
    log, over every interleaving. */
module Threads {
  import opened Options
  import opened FrozenClock

  // ----- the calls, as sequences of steps -----

  /** `Work` is a call into the kernel. */
  datatype Action = Lock | Unlock | Freeze | Unfreeze | Log | Work

  /** An intercepted call.  `before` and `after` are numbers of lines logged;
      calls on other files go straight to the kernel. */
  datatype Call =
    | Open(lines: nat)
    | Close(lines: nat)
    | Ioctl(before: nat, after: nat)
    | Mmap(lines: nat)
    | Munmap(lines: nat)
    | Untraced
  {
    /** The calls that stop the clock while they log. */
    predicate Freezes() { Ioctl? || Mmap? || Munmap? }

    function Lines(): nat {
      if Ioctl? then before + after else if Untraced? then 0 else lines
    }
  }

  function Logs(n: nat): (r: seq<Action>)
    ensures |r| == n && forall i | 0 <= i < n :: r[i] == Log
  {
    if n == 0 then [] else [Log] + Logs(n - 1)
  }

  function Program(c: Call): seq<Action> {
    match c
    case Open(n) => [Work, Lock] + Logs(n) + [Unlock]
    case Close(n) => [Lock] + Logs(n) + [Unlock, Work]
    case Ioctl(n, m) => [Lock, Freeze] + Logs(n) + [Unfreeze, Work, Freeze] + Logs(m) + [Unfreeze, Unlock]
    case Mmap(n) => [Lock, Work, Freeze] + Logs(n) + [Unfreeze, Unlock]
    case Munmap(n) => [Lock, Work, Freeze] + Logs(n) + [Unfreeze, Unlock]
    case Untraced => [Work]
  }

  // ----- the system -----

  type Thread = nat

  /** `history` is the record of the run, `calls` has the last call of each thread and
      `done` the steps it has taken in it; they are kept for the statements below only. */
  datatype System = System(clock: Clock, holder: Option<Thread>, todo: map<Thread, seq<Action>>,
                           now: int, history: seq<Entry>, calls: map<Thread, Call>, done: map<Thread, seq<Action>>)

  function Todo(s: System, t: Thread): seq<Action> {
    if t in s.todo then s.todo[t] else []
  }

  function Done(s: System, t: Thread): seq<Action> {
    if t in s.done then s.done[t] else []
  }

  ghost predicate Init(s: System, start: int) {
    s == System(Clock(false, start, 0, 0, 0), None, map[], start, [], map[], map[])
  }

  predicate Enabled(s: System, t: Thread) {
    Todo(s, t) != [] && (Todo(s, t)[0].Lock? ==> s.holder == None)
  }

  /** Thread `t` takes its next step at time `now`. */
  function Act(s: System, t: Thread, now: int): System
    requires Enabled(s, t)
  {
    var s1 := s.(todo := s.todo[t := Todo(s, t)[1..]], now := now, done := s.done[t := Done(s, t) + [Todo(s, t)[0]]]);
    match Todo(s, t)[0]
    case Lock => s1.(holder := Some(t))
    case Unlock => s1.(holder := None)
    case Freeze => s1.(clock := Frozen(s.clock, now), history := s.history + [Froze(now)])
    case Unfreeze =>
      s1.(clock := Thawed(s.clock, now), history := if s.clock.frozen then s.history + [Unfroze(now)] else s.history)
    case Log => s1.(history := s.history + [Logged(now, Stamp(s.clock, now))])
    case Work => s1
  }

  /** A thread that is in no call starts one. */
  function Begin(s: System, t: Thread, c: Call): System {
    s.(todo := s.todo[t := Program(c)], calls := s.calls[t := c], done := s.done[t := []])
  }

  ghost predicate Step(s: System, s': System) {
    || (exists t: Thread, c: Call :: Todo(s, t) == [] && s' == Begin(s, t, c))
    || (exists t: Thread, now: int :: Enabled(s, t) && s.now <= now && s' == Act(s, t, now))
  }

  ghost predicate IsRun(run: seq<System>, start: int) {
    && |run| > 0 && Init(run[0], start)
    && forall i | 0 <= i < |run| - 1 :: Step(run[i], run[i + 1])
  }

  // ----- what a thread still has to do -----

  /** The rest of a call, by whether its thread holds the lock and has frozen time. */
  predicate Disciplined(acts: seq<Action>, held: bool, frozen: bool) {
    if acts == [] then !held && !frozen
    else
      match acts[0]
      case Lock => !held && Disciplined(acts[1..], true, frozen)
      case Unlock => held && !frozen && Disciplined(acts[1..], false, frozen)
      case Freeze => held && !frozen && Disciplined(acts[1..], held, true)
      case Unfreeze => held && frozen && Disciplined(acts[1..], held, false)
      case Log => held && Disciplined(acts[1..], held, frozen)
      case Work => !frozen && Disciplined(acts[1..], held, frozen)
  }

  lemma {:induction false} LogsDisciplined(n: nat, rest: seq<Action>, frozen: bool)
    requires Disciplined(rest, true, frozen)
    ensures Disciplined(Logs(n) + rest, true, frozen)
  {
    if n == 0 {
      assert Logs(0) + rest == rest;
    } else {
      LogsDisciplined(n - 1, rest, frozen);
      assert (Logs(n) + rest)[1..] == Logs(n - 1) + rest;
    }
  }

  /** Every intercepted call keeps the discipline. */
  lemma ProgramDisciplined(c: Call)
    ensures Disciplined(Program(c), false, false)
  {
    hide Disciplined, Logs;
    match c
    case Open(n) => Opening(n);
    case Close(n) => Closing(n);
    case Ioctl(n, m) => Calling(n, m);
    case Mmap(n) => Worked(n);
    case Munmap(n) => Worked(n);
    case Untraced => assert Disciplined([Work], false, false) by { JustWork(); }
  }

  lemma JustWork()
    ensures Disciplined([Work], false, false)
  {
  }

  lemma Opening(n: nat)
    ensures Disciplined([Work, Lock] + Logs(n) + [Unlock], false, false)
  {
    var p := [Work, Lock] + Logs(n) + [Unlock];
    LogsDisciplined(n, [Unlock], false);
    assert p[1..] == [Lock] + (Logs(n) + [Unlock]);
    assert p[1..][1..] == Logs(n) + [Unlock];
  }

  lemma Closing(n: nat)
    ensures Disciplined([Lock] + Logs(n) + [Unlock, Work], false, false)
  {
    LogsDisciplined(n, [Unlock, Work], false);
    assert ([Lock] + Logs(n) + [Unlock, Work])[1..] == Logs(n) + [Unlock, Work];
  }

  lemma Calling(n: nat, m: nat)
    ensures Disciplined([Lock, Freeze] + Logs(n) + [Unfreeze, Work, Freeze] + Logs(m) + [Unfreeze, Unlock],
                        false, false)
  {
    hide Logs, Disciplined;
    var kernel := [Unfreeze, Work, Freeze] + (Logs(m) + [Unfreeze, Unlock]);
    Kernel(m);
    LogsDisciplined(n, kernel, true);
    Freezing(Logs(n) + kernel);
    assert [Lock, Freeze] + Logs(n) + [Unfreeze, Work, Freeze] + Logs(m) + [Unfreeze, Unlock]
        == [Lock, Freeze] + (Logs(n) + kernel);
  }

  lemma Freezing(rest: seq<Action>)
    requires Disciplined(rest, true, true)
    ensures Disciplined([Lock, Freeze] + rest, false, false)
  {
    assert ([Lock, Freeze] + rest)[1..] == [Freeze] + rest;
    assert ([Freeze] + rest)[1..] == rest;
  }

  lemma Kernel(m: nat)
    ensures Disciplined([Unfreeze, Work, Freeze] + (Logs(m) + [Unfreeze, Unlock]), true, true)
  {
    var last := Logs(m) + [Unfreeze, Unlock];
    var p := [Unfreeze, Work, Freeze] + last;
    Thawing(m);
    assert p[1..] == [Work, Freeze] + last;
    assert p[1..][1..] == [Freeze] + last;
    assert p[1..][1..][1..] == last;
  }

  lemma Thawing(n: nat)
    ensures Disciplined(Logs(n) + [Unfreeze, Unlock], true, true)
  {
    LogsDisciplined(n, [Unfreeze, Unlock], true);
  }

  lemma Worked(n: nat)
    ensures Disciplined([Lock, Work, Freeze] + Logs(n) + [Unfreeze, Unlock], false, false)
  {
    var p, last := [Lock, Work, Freeze] + Logs(n) + [Unfreeze, Unlock], Logs(n) + [Unfreeze, Unlock];
    Thawing(n);
    assert p[1..] == [Work, Freeze] + last;
    assert p[1..][1..] == [Freeze] + last;
    assert p[1..][1..][1..] == last;
  }

  // ----- what every reachable state keeps -----

  ghost predicate Orderly(s: System) {
    && (forall t: Thread :: Disciplined(Todo(s, t), s.holder == Some(t), s.holder == Some(t) && s.clock.frozen))
    && (s.clock.frozen ==> s.holder != None)
  }

  /** The clock agrees with the record. */
  ghost predicate Accounted(s: System, start: int) {
    && s.clock.start == start && start <= s.now
    && s.clock.frozen == StandsStill(s.history) && Alternate(s.history) && Timely(s.history, s.now)
    && s.clock.total + (if s.clock.frozen then s.now - s.clock.freezeAt else 0) == FrozenBy(s.history, s.now)
    && (s.clock.frozen ==> s.clock.freezeAt <= s.now && s.clock.stamp == s.clock.freezeAt - start - s.clock.total)
    && LogsTrue(s.history, start) && LogsRise(s.history, Stamp(s.clock, s.now))
  }

  /** The record is in order of time and ends by `now`. */
  predicate Timely(h: seq<Entry>, now: int) {
    h == [] || (h[|h| - 1].at <= now && Timely(h[..|h| - 1], h[|h| - 1].at))
  }

  /** Every line logged shows elapsed time less the time frozen until then. */
  predicate LogsTrue(h: seq<Entry>, start: int) {
    h == [] ||
    (LogsTrue(h[..|h| - 1], start)
     && (h[|h| - 1].Logged? ==> h[|h| - 1].stamp == h[|h| - 1].at - start - FrozenBy(h[..|h| - 1], h[|h| - 1].at)))
  }

  /** Timestamps do not decrease, and none is above `top`. */
  predicate LogsRise(h: seq<Entry>, top: int) {
    h == [] ||
    if h[|h| - 1].Logged? then h[|h| - 1].stamp <= top && LogsRise(h[..|h| - 1], h[|h| - 1].stamp)
    else LogsRise(h[..|h| - 1], top)
  }

  lemma {:induction false} RiseMore(h: seq<Entry>, top: int, top': int)
    requires LogsRise(h, top) && top <= top'
    ensures LogsRise(h, top')
  {
    if h != [] && !h[|h| - 1].Logged? { RiseMore(h[..|h| - 1], top, top'); }
  }

  // ----- one step -----

  lemma BeginOrderly(s: System, t: Thread, c: Call)
    requires Orderly(s) && Todo(s, t) == []
    ensures Orderly(Begin(s, t, c))
  {
    hide Program;
    var s' := Begin(s, t, c);
    assert Disciplined(Todo(s, t), s.holder == Some(t), s.holder == Some(t) && s.clock.frozen);
    ProgramDisciplined(c);
    forall u: Thread
      ensures Disciplined(Todo(s', u), s'.holder == Some(u), s'.holder == Some(u) && s'.clock.frozen)
    {
      assert u != t ==> Todo(s', u) == Todo(s, u);
    }
  }

  lemma ActOrderly(s: System, t: Thread, now: int)
    requires Orderly(s) && Enabled(s, t)
    ensures Orderly(Act(s, t, now))
  {
    var s' := Act(s, t, now);
    assert Disciplined(Todo(s, t), s.holder == Some(t), s.holder == Some(t) && s.clock.frozen);
    assert Todo(s', t) == Todo(s, t)[1..];
    forall u: Thread
      ensures Disciplined(Todo(s', u), s'.holder == Some(u), s'.holder == Some(u) && s'.clock.frozen)
    {
      assert Disciplined(Todo(s, u), s.holder == Some(u), s.holder == Some(u) && s.clock.frozen);
      assert u != t ==> Todo(s', u) == Todo(s, u);
    }
  }

  /** What thread `t` may do next, by who holds the lock and whether time is frozen. */
  lemma NextAction(s: System, t: Thread)
    requires Orderly(s) && Enabled(s, t)
    ensures match Todo(s, t)[0]
      case Lock => s.holder == None && !s.clock.frozen
      case Unlock => s.holder == Some(t) && !s.clock.frozen
      case Freeze => s.holder == Some(t) && !s.clock.frozen
      case Unfreeze => s.holder == Some(t) && s.clock.frozen
      case Log => s.holder == Some(t)
      case Work => s.holder == Some(t) ==> !s.clock.frozen
  {
    assert Disciplined(Todo(s, t), s.holder == Some(t), s.holder == Some(t) && s.clock.frozen);
  }

  lemma {:induction false} FrozenLater(h: seq<Entry>, now: int, later: int)
    ensures FrozenBy(h, later) == FrozenBy(h, now) + (if StandsStill(h) then later - now else 0)
  {
    if h != [] && h[|h| - 1].Logged? { FrozenLater(h[..|h| - 1], now, later); }
  }

  lemma Appended(h: seq<Entry>, e: Entry)
    ensures (h + [e])[..|h + [e]| - 1] == h && (h + [e])[|h + [e]| - 1] == e
  {
  }

  /** Letting time pass. */
  lemma WaitAccounted(s: System, start: int, now: int)
    requires Accounted(s, start) && s.now <= now
    ensures Accounted(s.(now := now), start)
  {
    FrozenLater(s.history, s.now, now);
    RiseMore(s.history, Stamp(s.clock, s.now), Stamp(s.clock, now));
  }

  lemma FreezeAccounted(s: System, start: int)
    requires Accounted(s, start) && !s.clock.frozen
    ensures Accounted(s.(clock := Frozen(s.clock, s.now), history := s.history + [Froze(s.now)]), start)
  {
    Appended(s.history, Froze(s.now));
  }

  lemma UnfreezeAccounted(s: System, start: int)
    requires Accounted(s, start) && s.clock.frozen
    ensures Accounted(s.(clock := Thawed(s.clock, s.now), history := s.history + [Unfroze(s.now)]), start)
  {
    Appended(s.history, Unfroze(s.now));
  }

  lemma LogAccounted(s: System, start: int)
    requires Accounted(s, start)
    ensures Accounted(s.(history := s.history + [Logged(s.now, Stamp(s.clock, s.now))]), start)
  {
    Appended(s.history, Logged(s.now, Stamp(s.clock, s.now)));
  }

  lemma ActAccounted(s: System, t: Thread, now: int, start: int)
    requires Orderly(s) && Accounted(s, start) && Enabled(s, t) && s.now <= now
    ensures Accounted(Act(s, t, now), start)
  {
    NextAction(s, t);
    hide Orderly, Frozen, Thawed, Stamp;
    var w := s.(now := now);
    WaitAccounted(s, start, now);
    match Todo(s, t)[0]
    case Freeze => FreezeAccounted(w, start);
    case Unfreeze => UnfreezeAccounted(w, start);
    case Log => LogAccounted(w, start);
    case Lock =>
    case Unlock =>
    case Work =>
  }

  // ----- every run -----

  lemma {:induction false} Reachable(run: seq<System>, start: int, n: nat)
    requires IsRun(run, start) && n < |run|
    ensures Orderly(run[n]) && Accounted(run[n], start)
  {
    hide Orderly, Accounted, Program;
    if n == 0 {
      InitialState(run[0], start);
    } else {
      var s, s' := run[n - 1], run[n];
      Reachable(run, start, n - 1);
      assert Step(s, s');
      if t: Thread, c: Call :| Todo(s, t) == [] && s' == Begin(s, t, c) {
        BeginOrderly(s, t, c);
        BeginAccounted(s, t, c, start);
      } else {
        var t: Thread, now: int :| Enabled(s, t) && s.now <= now && s' == Act(s, t, now);
        ActOrderly(s, t, now);
        ActAccounted(s, t, now, start);
      }
    }
  }

  lemma InitialState(s: System, start: int)
    requires Init(s, start)
    ensures Orderly(s) && Accounted(s, start)
  {
  }

  lemma BeginAccounted(s: System, t: Thread, c: Call, start: int)
    requires Accounted(s, start)
    ensures Accounted(Begin(s, t, c), start)
  {
    hide Program;
  }

  /** Time is frozen only while some thread holds the lock. */
  lemma FrozenOnlyLocked(run: seq<System>, start: int, n: nat)
    requires IsRun(run, start) && n < |run|
    ensures run[n].clock.frozen ==> run[n].holder != None
  {
    Reachable(run, start, n);
  }

  /** The lock is held by at most one thread at a time and released by its holder;
      freezing, unfreezing and logging are its holder's; a freeze starts from running
      time; and no thread calls the kernel with time frozen by itself. */
  lemma StepsInOrder(run: seq<System>, start: int, n: nat, t: Thread)
    requires IsRun(run, start) && n < |run| && Enabled(run[n], t)
    ensures var s := run[n];
      match Todo(s, t)[0]
      case Lock => s.holder == None && !s.clock.frozen
      case Unlock => s.holder == Some(t) && !s.clock.frozen
      case Freeze => s.holder == Some(t) && !s.clock.frozen
      case Unfreeze => s.holder == Some(t) && s.clock.frozen
      case Log => s.holder == Some(t)
      case Work => s.holder == Some(t) ==> !s.clock.frozen
  {
    Reachable(run, start, n);
    NextAction(run[n], t);
  }

  /** Exact accounting: freezes and unfreezes alternate, and whenever time runs the
      clock's total is the sum of all intervals in which it did not. */
  lemma TotalIsFrozenTime(run: seq<System>, start: int, n: nat)
    requires IsRun(run, start) && n < |run|
    ensures Alternate(run[n].history)
    ensures !run[n].clock.frozen ==> run[n].clock.total == FrozenBy(run[n].history, run[n].now)
  {
    Reachable(run, start, n);
  }

  /** Every line ever logged carries elapsed time minus frozen time up to that point. */
  lemma StampsExact(run: seq<System>, start: int, n: nat, k: nat)
    requires IsRun(run, start) && n < |run| && k < |run[n].history| && run[n].history[k].Logged?
    ensures var h := run[n].history; h[k].stamp == h[k].at - start - FrozenBy(h[..k], h[k].at)
  {
    Reachable(run, start, n);
    StampTrue(run[n].history, start, k);
  }

  lemma {:induction false} StampTrue(h: seq<Entry>, start: int, k: nat)
    requires LogsTrue(h, start) && k < |h| && h[k].Logged?
    ensures h[k].stamp == h[k].at - start - FrozenBy(h[..k], h[k].at)
  {
    if k < |h| - 1 {
      StampTrue(h[..|h| - 1], start, k);
      assert h[..|h| - 1][..k] == h[..k];
    }
  }

  /** Timestamps never decrease. */
  lemma StampsRise(run: seq<System>, start: int, n: nat, i: nat, j: nat)
    requires IsRun(run, start) && n < |run| && i <= j < |run[n].history|
    requires run[n].history[i].Logged? && run[n].history[j].Logged?
    ensures run[n].history[i].stamp <= run[n].history[j].stamp
  {
    Reachable(run, start, n);
    RiseBelow(run[n].history, Stamp(run[n].clock, run[n].now), i, j);
  }

  lemma {:induction false} RiseBelow(h: seq<Entry>, top: int, i: nat, j: nat)
    requires LogsRise(h, top) && i <= j < |h| && h[i].Logged? && h[j].Logged?
    ensures h[i].stamp <= h[j].stamp <= top
  {
    var before := h[..|h| - 1];
    if j < |h| - 1 {
      RiseBelow(before, if h[|h| - 1].Logged? then h[|h| - 1].stamp else top, i, j);
    } else if i < j {
      RiseBelow(before, h[j].stamp, i, i);
    }
  }

  /** No deadlock: as long as any call is unfinished, some thread can step. */
  lemma SomeoneCanStep(run: seq<System>, start: int, n: nat, t: Thread)
    requires IsRun(run, start) && n < |run| && Todo(run[n], t) != []
    ensures exists u: Thread :: Enabled(run[n], u)
  {
    Reachable(run, start, n);
    var s := run[n];
    if s.holder.Some? {
      var u := s.holder.value;
      assert Disciplined(Todo(s, u), true, s.clock.frozen);
      assert Enabled(s, u);
    } else {
      assert Enabled(s, t);
    }
  }
}
