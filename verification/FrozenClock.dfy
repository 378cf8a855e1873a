/** The frozen clock: timestamps from which the time spent in the tracer is taken out. */
module FrozenClock {

  // ----- timespec arithmetic -----

  const BILLION: int := 1_000_000_000

  datatype Timespec = Timespec(sec: int, nsec: int) {
    predicate Normal() { 0 <= nsec < BILLION }
    function Nanos(): int { sec * BILLION + nsec }
  }

  /** Fits a signed 32-bit `tv_nsec`. */
  predicate Fits(nsec: int) {
    -0x8000_0000 <= nsec < 0x8000_0000
  }

  /** Exact and normal again; `between` is `tv_nsec` before it is brought back into range. */
  method TimespecAdd(tp: Timespec, value: Timespec) returns (r: Timespec, ghost between: int)
    requires tp.Normal() && value.Normal()
    ensures r.Normal() && r.Nanos() == tp.Nanos() + value.Nanos()
    ensures between == tp.nsec + value.nsec && Fits(between) && Fits(r.nsec)
  {
    r := tp;
    r := r.(sec := r.sec + value.sec);
    r := r.(nsec := r.nsec + value.nsec);
    between := r.nsec;
    if r.nsec >= BILLION {
      r := r.(sec := r.sec + 1);
      r := r.(nsec := r.nsec - BILLION);
    }
  }

  method TimespecSubtract(tp: Timespec, value: Timespec) returns (r: Timespec, ghost between: int)
    requires tp.Normal() && value.Normal()
    ensures r.Normal() && r.Nanos() == tp.Nanos() - value.Nanos()
    ensures between == tp.nsec - value.nsec && Fits(between) && Fits(r.nsec)
  {
    r := tp;
    r := r.(sec := r.sec - value.sec);
    r := r.(nsec := r.nsec - value.nsec);
    between := r.nsec;
    if r.nsec < 0 {
      r := r.(sec := r.sec - 1);
      r := r.(nsec := BILLION + r.nsec);
    }
  }

  // ----- the clock, in nanoseconds -----

  /** `stamp` is the timestamp shown while frozen. */
  datatype Clock = Clock(frozen: bool, start: int, total: int, freezeAt: int, stamp: int)

  function Frozen(c: Clock, now: int): Clock {
    c.(frozen := true, freezeAt := now, stamp := now - c.start - c.total)
  }

  function Thawed(c: Clock, now: int): Clock {
    if c.frozen then c.(frozen := false, total := c.total + (now - c.freezeAt)) else c
  }

  function Stamp(c: Clock, now: int): int {
    if c.frozen then c.stamp else now - c.start - c.total
  }

  /** The globals of the timestamp code.  `now` is what the monotonic clock shows. */
  class Timestamps {
    const enableTimestamps: bool
    var timeIsFrozen: bool
    var startTime: Timespec
    var totalTimeFrozen: Timespec
    var startFreezeTime: Timespec
    var frozenTimestamp: Timespec

    predicate Valid()
      reads this
    {
      startTime.Normal() && totalTimeFrozen.Normal() && startFreezeTime.Normal() && frozenTimestamp.Normal()
    }

    function State(): Clock
      reads this
    {
      Clock(timeIsFrozen, startTime.Nanos(), totalTimeFrozen.Nanos(), startFreezeTime.Nanos(), frozenTimestamp.Nanos())
    }

    constructor (enable: bool, now: Timespec)
      requires now.Normal()
      ensures Valid() && enableTimestamps == enable
      ensures State() == Clock(false, if enable then now.Nanos() else 0, 0, 0, 0)
    {
      enableTimestamps := enable;
      timeIsFrozen := false;
      startTime := if enable then now else Timespec(0, 0);
      totalTimeFrozen, startFreezeTime, frozenTimestamp := Timespec(0, 0), Timespec(0, 0), Timespec(0, 0);
    }

    method FreezeTime(now: Timespec)
      requires Valid() && now.Normal()
      modifies this
      ensures Valid() && State() == if enableTimestamps then Frozen(old(State()), now.Nanos()) else old(State())
    {
      if !enableTimestamps {
        return;
      }
      ghost var between;
      startFreezeTime := now;
      timeIsFrozen := true;
      frozenTimestamp := startFreezeTime;
      frozenTimestamp, between := TimespecSubtract(frozenTimestamp, startTime);
      frozenTimestamp, between := TimespecSubtract(frozenTimestamp, totalTimeFrozen);
    }

    method UnfreezeTime(now: Timespec)
      requires Valid() && now.Normal()
      modifies this
      ensures Valid() && State() == if enableTimestamps then Thawed(old(State()), now.Nanos()) else old(State())
    {
      if !enableTimestamps || !timeIsFrozen {
        return;
      }
      ghost var between;
      timeIsFrozen := false;
      var timeSpentFrozen := now;
      timeSpentFrozen, between := TimespecSubtract(timeSpentFrozen, startFreezeTime);
      totalTimeFrozen, between := TimespecAdd(totalTimeFrozen, timeSpentFrozen);
    }

    method TimestampGet(now: Timespec) returns (tp: Timespec)
      requires Valid() && now.Normal()
      ensures tp.Normal() && tp.Nanos() == Stamp(State(), now.Nanos())
    {
      if timeIsFrozen {
        tp := frozenTimestamp;
        return;
      }
      ghost var between;
      tp := now;
      tp, between := TimespecSubtract(tp, startTime);
      tp, between := TimespecSubtract(tp, totalTimeFrozen);
    }
  }

  // ----- what a run of the clock leaves behind -----

  datatype Entry = Froze(at: int) | Unfroze(at: int) | Logged(at: int, stamp: int)

  /** Time frozen by `now`, from the record of freezes and unfreezes alone. */
  function FrozenBy(h: seq<Entry>, now: int): int {
    if h == [] then 0
    else
      var before := h[..|h| - 1];
      match h[|h| - 1]
      case Froze(at) => FrozenBy(before, at) + (now - at)
      case Unfroze(at) => FrozenBy(before, at)
      case Logged(at, _) => FrozenBy(before, now)
  }

  /** Time stands still after a freeze until the next unfreeze. */
  function StandsStill(h: seq<Entry>): bool {
    if h == [] then false
    else
      match h[|h| - 1]
      case Froze(_) => true
      case Unfroze(_) => false
      case Logged(_, _) => StandsStill(h[..|h| - 1])
  }

  /** Freezes and unfreezes alternate, starting with a freeze. */
  predicate Alternate(h: seq<Entry>) {
    h == [] ||
    var before := h[..|h| - 1];
    Alternate(before) &&
    match h[|h| - 1]
    case Froze(_) => !StandsStill(before)
    case Unfroze(_) => StandsStill(before)
    case Logged(_, _) => true
  }
}
