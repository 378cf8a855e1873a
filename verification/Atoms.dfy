/** Atoms, the queue that batches them into JOB_SUBMIT ioctls, and the
    dependencies the three job chains put between them. */
module Atoms {
  import opened Bits

  const ATOM_QUEUE_MAX: nat := 16

  const MALI_JD_DEP_TYPE_INVALID: u8 := 0
  const MALI_JD_DEP_TYPE_DATA: u8 := 1
  const MALI_JD_PRIO_MEDIUM: u8 := 0
  const MALI_JD_PRIO_LOW: u8 := 2
  const MALI_JD_REQ_FS: u32 := 0x1
  const MALI_JD_REQ_SOFT_JOB: u32 := 0x200
  const MALI_JD_REQ_SOFT_REPLAY: u32 := 0x204  // SOFT_JOB | 0x4
  const TILER_REQ: u32 := 0x4E                 // CS | T | CF | COHERENT_GROUP
  const FRAGMENT_REQ: u32 := 0x101             // EXTERNAL_RESOURCES | FS
  const REPLAY_REQ: u32 := 0x304               // EXTERNAL_RESOURCES | SOFT_REPLAY

  datatype Dependency = Dependency(atomId: u8, kind: u8)

  const NO_DEPENDENCY: Dependency := Dependency(0, MALI_JD_DEP_TYPE_INVALID)

  /** `extRes` is the array `ext_res_list` points to; its length is `nr_ext_res`. */
  datatype Atom = Atom(jc: u64, extRes: seq<u64>, coreReq: u32,
                       preDep0: Dependency, preDep1: Dependency,
                       atomNumber: u8, prio: u8, deviceNr: u8)

  // ----- the queue -----

  datatype Queue = Queue(batches: seq<seq<Atom>>, queued: seq<Atom>)

  function Flush(q: Queue): Queue {
    if q.queued == [] then q else Queue(q.batches + [q.queued], [])
  }

  function Submit(q: Queue, a: Atom): Queue {
    var q' := q.(queued := q.queued + [a]);
    if |q'.queued| == ATOM_QUEUE_MAX then Flush(q') else q'
  }

  datatype QueueOp = DoSubmit(atom: Atom) | DoFlush

  function RunQueue(ops: seq<QueueOp>, n: nat): Queue
    requires n <= |ops|
  {
    if n == 0 then Queue([], [])
    else
      var q := RunQueue(ops, n - 1);
      match ops[n - 1]
      case DoSubmit(a) => Submit(q, a)
      case DoFlush => Flush(q)
  }

  function Submitted(ops: seq<QueueOp>, n: nat): seq<Atom>
    requires n <= |ops|
  {
    if n == 0 then []
    else Submitted(ops, n - 1) + match ops[n - 1] { case DoSubmit(a) => [a] case DoFlush => [] }
  }

  function Concat(batches: seq<seq<Atom>>): seq<Atom> {
    if batches == [] then [] else Concat(batches[..|batches| - 1]) + batches[|batches| - 1]
  }

  /** Everything handed to the queue: sent to the kernel, then waiting. */
  function Contents(q: Queue): seq<Atom> {
    Concat(q.batches) + q.queued
  }

  predicate WellBatched(q: Queue) {
    && |q.queued| < ATOM_QUEUE_MAX
    && forall b | b in q.batches :: 1 <= |b| <= ATOM_QUEUE_MAX
  }

  /** Exactly once and in order, over any interleaving of submissions and flushes. */
  lemma {:induction false} QueueRun(ops: seq<QueueOp>, n: nat)
    requires n <= |ops|
    ensures var q := RunQueue(ops, n); WellBatched(q) && Contents(q) == Submitted(ops, n)
  {
    if n != 0 {
      QueueRun(ops, n - 1);
      var q := RunQueue(ops, n - 1);
      match ops[n - 1] {
        case DoSubmit(a) =>
          SubmitKeeps(q, a);
          assert Contents(Submit(q, a)) == Submitted(ops, n - 1) + [a];
        case DoFlush =>
          FlushKeeps(q);
      }
    }
  }

  lemma FlushKeeps(q: Queue)
    requires |q.queued| <= ATOM_QUEUE_MAX && forall b | b in q.batches :: 1 <= |b| <= ATOM_QUEUE_MAX
    ensures WellBatched(Flush(q)) && Contents(Flush(q)) == Contents(q)
  {
    ConcatOne(q.batches, q.queued);
  }

  lemma SubmitKeeps(q: Queue, a: Atom)
    requires WellBatched(q)
    ensures WellBatched(Submit(q, a)) && Contents(Submit(q, a)) == Contents(q) + [a]
  {
    var q' := q.(queued := q.queued + [a]);
    assert Contents(q') == Contents(q) + [a];
    FlushKeeps(q');
  }

  lemma ConcatOne(batches: seq<seq<Atom>>, b: seq<Atom>)
    ensures Concat(batches + [b]) + [] == Concat(batches) + b
  {
    var bs := batches + [b];
    assert bs[..|bs| - 1] == batches;
  }

  /** After a final flush nothing is left in the queue. */
  lemma FlushedRun(ops: seq<QueueOp>)
    ensures var all := ops + [DoFlush]; var q := RunQueue(all, |all|);
      q.queued == [] && Concat(q.batches) == Submitted(all, |all|)
  {
    var all := ops + [DoFlush];
    QueueRun(all, |all|);
    var q := RunQueue(all, |all|);
    assert Concat(q.batches) + q.queued == Concat(q.batches);
  }

  // ----- when a batch is sent -----

  /** Submissions since the last flush. */
  function SinceFlush(ops: seq<QueueOp>, n: nat): nat
    requires n <= |ops|
  {
    if n == 0 || ops[n - 1].DoFlush? then 0 else SinceFlush(ops, n - 1) + 1
  }

  /** A submission sends a batch exactly if it is the 16th, 32nd, ... since the last
      flush, and then of 16; a flush sends what does not make up 16, if there is any;
      and nothing else is ever sent. */
  lemma {:induction false} SentWhen(ops: seq<QueueOp>, n: nat)
    requires n < |ops|
    ensures var q, q', waiting := RunQueue(ops, n), RunQueue(ops, n + 1), SinceFlush(ops, n) % 16;
      && |q.queued| == waiting && |q'.queued| == SinceFlush(ops, n + 1) % 16
      && var sent := if ops[n].DoFlush? then waiting else if waiting == 15 then 16 else 0;
         if sent == 0 then q'.batches == q.batches
         else |q'.batches| == |q.batches| + 1 && q'.batches[..|q.batches|] == q.batches
              && |q'.batches[|q.batches|]| == sent
  {
    if n > 0 {
      SentWhen(ops, n - 1);
    }
  }

  lemma QueuedCount(ops: seq<QueueOp>, n: nat)
    requires n <= |ops|
    ensures |RunQueue(ops, n).queued| == SinceFlush(ops, n) % 16
  {
    if n > 0 { SentWhen(ops, n - 1); }
  }

  /** Every batch was sent by one of the calls, and a batch shorter than 16 by a flush. */
  lemma {:induction false} ShortBatchFlushed(ops: seq<QueueOp>, n: nat, j: nat) returns (i: nat)
    requires n <= |ops| && j < |RunQueue(ops, n).batches|
    ensures i < n && |RunQueue(ops, i).batches| == j
    ensures RunQueue(ops, i + 1).batches == RunQueue(ops, n).batches[..j + 1]
    ensures |RunQueue(ops, n).batches[j]| < 16 ==> ops[i].DoFlush?
  {
    SentWhen(ops, n - 1);
    var before, after := RunQueue(ops, n - 1).batches, RunQueue(ops, n).batches;
    if j < |before| {
      i := ShortBatchFlushed(ops, n - 1, j);
      assert after[..|before|] == before;
    } else {
      i := n - 1;
    }
  }

  /** Without a flush every batch has 16 atoms, and the queue the rest. */
  lemma {:induction false} UnflushedRun(ops: seq<QueueOp>, n: nat)
    requires n <= |ops| && forall i | 0 <= i < n :: ops[i].DoSubmit?
    ensures var q := RunQueue(ops, n);
      && |q.queued| == n % 16 && |q.batches| == n / 16
      && forall j | 0 <= j < |q.batches| :: |q.batches[j]| == 16
  {
    if n > 0 {
      UnflushedRun(ops, n - 1);
      SinceStart(ops, n - 1);
      SentWhen(ops, n - 1);
      var q, q' := RunQueue(ops, n - 1), RunQueue(ops, n);
      forall j | 0 <= j < |q'.batches| ensures |q'.batches[j]| == 16 {
        if j < |q.batches| { assert q'.batches[j] == q'.batches[..|q.batches|][j]; }
      }
    }
  }

  lemma {:induction false} SinceStart(ops: seq<QueueOp>, n: nat)
    requires n <= |ops| && forall i | 0 <= i < n :: ops[i].DoSubmit?
    ensures SinceFlush(ops, n) == n
  {
    if n > 0 { SinceStart(ops, n - 1); }
  }

  class JobQueue {
    const atomQueue: array<Atom>
    var atomQueueSize: nat
    /** The atoms of every JOB_SUBMIT so far. */
    var batches: seq<seq<Atom>>

    ghost predicate Valid()
      reads this
    {
      atomQueue.Length == ATOM_QUEUE_MAX && atomQueueSize < ATOM_QUEUE_MAX
    }

    ghost function State(): Queue
      reads this, atomQueue
      requires Valid()
    {
      Queue(batches, atomQueue[..atomQueueSize])
    }

    constructor ()
      ensures Valid() && State() == Queue([], []) && fresh(atomQueue)
    {
      atomQueue := new Atom[ATOM_QUEUE_MAX](_ => Atom(0, [], 0, NO_DEPENDENCY, NO_DEPENDENCY, 0, 0, 0));
      atomQueueSize := 0;
      batches := [];
    }

    method FlushJobQueue()
      requires atomQueue.Length == ATOM_QUEUE_MAX && atomQueueSize <= ATOM_QUEUE_MAX
      modifies this`atomQueueSize, this`batches
      ensures Valid() && State() == Flush(Queue(old(batches), old(atomQueue[..atomQueueSize])))
    {
      if atomQueueSize != 0 {
        batches := batches + [atomQueue[..atomQueueSize]];
        atomQueueSize := 0;
      }
    }

    method SubmitJob(atom: Atom)
      requires Valid()
      modifies this`atomQueueSize, this`batches, atomQueue
      ensures Valid() && State() == Submit(old(State()), atom)
    {
      atomQueue[atomQueueSize] := atom;
      atomQueueSize := atomQueueSize + 1;
      assert atomQueue[..atomQueueSize] == old(State().queued) + [atom];
      if atomQueueSize == ATOM_QUEUE_MAX {
        FlushJobQueue();
      }
    }
  }

  // ----- atom numbers and dependencies -----

  /** The calls that submit, with what they put in the atom. */
  datatype Chain =
    | VertexTilerChain(jc: u32)
    | FragmentChain(jc: u32, resource: u64)
    | ReplayChain(jc: u32, resource: u64)

  /** The atom a chain submits when `count` atoms were numbered before. */
  function AtomOf(c: Chain, count: nat): Atom {
    var number: u8 := (count + 1) % 0x100;
    var last := Dependency(count % 0x100, MALI_JD_DEP_TYPE_DATA);
    match c
    case VertexTilerChain(jc) =>
      Atom(jc, [], TILER_REQ, NO_DEPENDENCY, NO_DEPENDENCY, number, MALI_JD_PRIO_MEDIUM, 0)
    case FragmentChain(jc, resource) =>
      Atom(jc, [resource], FRAGMENT_REQ, last, NO_DEPENDENCY, number, MALI_JD_PRIO_MEDIUM, 0)
    case ReplayChain(jc, resource) =>
      Atom(jc, [resource], REPLAY_REQ, last, NO_DEPENDENCY, number, MALI_JD_PRIO_LOW, 0)
  }

  function AtomsOf(cs: seq<Chain>): (r: seq<Atom>)
    ensures |r| == |cs|
  {
    seq(|cs|, i requires 0 <= i < |cs| => AtomOf(cs[i], i))
  }

  lemma AtomsSnoc(cs: seq<Chain>, c: Chain)
    ensures AtomsOf(cs + [c]) == AtomsOf(cs) + [AtomOf(c, |cs|)]
  {
    hide AtomOf;
  }

  const MALI_JD_REQ_EXTERNAL_RESOURCES: u32 := 0x100

  /** An atom names external resources, one of them, exactly if its requirements ask for
      it, and exactly those atoms wait for another; soft jobs have low priority, all
      others medium; the job chain is the one given. */
  lemma AtomsConsistent(c: Chain, count: nat)
    ensures var a := AtomOf(c, count);
      && a.jc == c.jc && a.deviceNr == 0 && a.preDep1.kind == MALI_JD_DEP_TYPE_INVALID
      && (BitAnd(a.coreReq, MALI_JD_REQ_EXTERNAL_RESOURCES) != 0 <==> a.extRes != [])
      && (a.extRes != [] ==> !c.VertexTilerChain? && a.extRes == [c.resource])
      && (a.preDep0.kind == MALI_JD_DEP_TYPE_DATA <==> a.extRes != [])
      && (c.VertexTilerChain? <==> a.extRes == [])
      && (BitAnd(a.coreReq, MALI_JD_REQ_SOFT_JOB) != 0 <==> c.ReplayChain?)
      && (a.prio == MALI_JD_PRIO_LOW <==> c.ReplayChain?) && (a.prio == MALI_JD_PRIO_MEDIUM <==> !c.ReplayChain?)
      && (BitAnd(a.coreReq, MALI_JD_REQ_FS) != 0 <==> c.FragmentChain?)
  {
    RequirementBits(TILER_REQ);
    RequirementBits(FRAGMENT_REQ);
    RequirementBits(REPLAY_REQ);
    hide BitAnd;
  }

  /** The bits of `coreReq` that are tested. */
  lemma RequirementBits(coreReq: u32)
    ensures BitAnd(coreReq, MALI_JD_REQ_EXTERNAL_RESOURCES) != 0 <==> coreReq / 0x100 % 2 == 1
    ensures BitAnd(coreReq, MALI_JD_REQ_SOFT_JOB) != 0 <==> coreReq / 0x200 % 2 == 1
    ensures BitAnd(coreReq, MALI_JD_REQ_FS) != 0 <==> coreReq % 2 == 1
  {
    hide BitAnd;
    Pow2Values();
    AndBit(coreReq, 8);
    AndBit(coreReq, 9);
    AndBit(coreReq, 0);
    ShrDivides(coreReq, 8);
    ShrDivides(coreReq, 9);
    hide Shr, Pow2;
  }

  ghost predicate NumbersDistinct(atoms: seq<Atom>) {
    forall i, j | 0 <= i < j < |atoms| :: atoms[i].atomNumber != atoms[j].atomNumber
  }

  ghost predicate NumbersIncrease(atoms: seq<Atom>) {
    forall i, j | 0 <= i < j < |atoms| :: 0 < atoms[i].atomNumber < atoms[j].atomNumber
  }

  /** Every DATA dependency of submission `i` carries the number of submission `i - 1`. */
  ghost predicate DependsOnPrevious(atoms: seq<Atom>) {
    forall i | 0 <= i < |atoms| :: IndependentOrOn(atoms, i)
  }

  ghost predicate IndependentOrOn(atoms: seq<Atom>, i: nat)
    requires i < |atoms|
  {
    && atoms[i].preDep1 == NO_DEPENDENCY
    && (atoms[i].preDep0 == NO_DEPENDENCY
        || (i > 0 && atoms[i].preDep0 == Dependency(atoms[i - 1].atomNumber, MALI_JD_DEP_TYPE_DATA)))
  }

  /** No other submission of the run could be meant. */
  ghost predicate NamesOnlyPrevious(atoms: seq<Atom>) {
    forall i, j | 0 <= i < |atoms| && 0 <= j < |atoms| && atoms[i].preDep0 != NO_DEPENDENCY
      && atoms[j].atomNumber == atoms[i].preDep0.atomId :: j == i - 1
  }

  /** The 8-bit atom number is unique up to 256 submissions and no further, and
      increases, away from 0, up to 255. */
  lemma NumbersRun(cs: seq<Chain>)
    ensures NumbersDistinct(AtomsOf(cs)) <==> |cs| <= 256
    ensures |cs| >= 2 ==> (NumbersIncrease(AtomsOf(cs)) <==> |cs| <= 255)
  {
    var a := AtomsOf(cs);
    forall i | 0 <= i < |a| ensures a[i].atomNumber == (i + 1) % 0x100 {}
    if |cs| > 255 {
      assert a[255].atomNumber == 0 && a[0].atomNumber == 1;
    }
    if |cs| > 256 {
      assert a[256].atomNumber == 1;
    }
  }

  /** Each DATA dependency names the submission just before it exactly when the
      run starts with a vertex/tiler chain (or is empty). */
  lemma DependenciesRun(cs: seq<Chain>)
    ensures DependsOnPrevious(AtomsOf(cs)) <==> cs == [] || cs[0].VertexTilerChain?
  {
    var a := AtomsOf(cs);
    forall i | 0 <= i < |a|
      ensures a[i] == AtomOf(cs[i], i) && a[i].atomNumber == (i + 1) % 0x100 && a[i].preDep1 == NO_DEPENDENCY
      ensures cs[i].VertexTilerChain? ==> a[i].preDep0 == NO_DEPENDENCY
      ensures !cs[i].VertexTilerChain? ==> a[i].preDep0 == Dependency(i % 0x100, MALI_JD_DEP_TYPE_DATA)
    {
    }
    forall i | 0 <= i < |a| ensures IndependentOrOn(a, i) <==> i > 0 || cs[0].VertexTilerChain? {
      if i > 0 {
        var k := i - 1;
        assert a[k].atomNumber == (k + 1) % 0x100;
      }
    }
    if cs != [] {
      assert IndependentOrOn(a, 0) <==> cs[0].VertexTilerChain?;
    }
  }

  /** Up to 255 submissions, starting with a vertex/tiler chain, the name is also
      unambiguous, so the dependency graph is a chain in submission order. */
  lemma DependenciesUnambiguous(cs: seq<Chain>)
    requires |cs| <= 255 && (cs == [] || cs[0].VertexTilerChain?)
    ensures DependsOnPrevious(AtomsOf(cs)) && NamesOnlyPrevious(AtomsOf(cs))
  {
    DependenciesRun(cs);
    NumbersRun(cs);
    var a := AtomsOf(cs);
    forall i, j | 0 <= i < |a| && 0 <= j < |a| && a[i].preDep0 != NO_DEPENDENCY
      && a[j].atomNumber == a[i].preDep0.atomId
      ensures j == i - 1
    {
      assert a[i - 1].atomNumber == a[j].atomNumber;
    }
  }

  /** The batch that submission `i` travels in. */
  function BatchOf(batches: seq<seq<Atom>>, i: nat): nat {
    if batches == [] then 0
    else
      var init := batches[..|batches| - 1];
      if i < |Concat(init)| then BatchOf(init, i) else |init|
  }

  /** An earlier submission is never in a later batch, so a dependency is met
      within its own batch or by one submitted before. */
  lemma {:induction false} BatchesKeepOrder(batches: seq<seq<Atom>>, i: nat, j: nat)
    requires i <= j < |Concat(batches)|
    ensures BatchOf(batches, i) <= BatchOf(batches, j) < |batches|
  {
    var init := batches[..|batches| - 1];
    if j < |Concat(init)| {
      BatchesKeepOrder(init, i, j);
    } else if i < |Concat(init)| {
      BatchesKeepOrder(init, i, i);
    }
  }

  // ----- cache maintenance -----

  datatype Sync = Sync(handle: u64, userAddr: u32, size: nat)

  /** The request `sync_gpu` makes: whole pages on the GPU side, and the CPU side moved
      back by as much. */
  function SyncOf(cpu: u32, gpu: u64, bytes: u32): Sync {
    Sync(BitAnd(gpu, 0xFFFF_FFFF_FFFF_F000), (cpu - BitAnd(gpu, 0xFFF)) % WORD32, BitAnd(gpu, 0xFFF) + bytes)
  }

  /** The request starts on the page of `gpu`, ends where the caller's range does, and
      pairs each GPU address with the CPU address it is mapped at, as long as the page
      is not below address 0. */
  lemma SyncCovers(cpu: u32, gpu: u64, bytes: u32)
    ensures var s := SyncOf(cpu, gpu, bytes);
      && s.handle % 0x1000 == 0 && s.handle <= gpu < s.handle + 0x1000
      && s.handle + s.size == gpu + bytes
      && (s.userAddr - s.handle == cpu - gpu <==> cpu >= gpu % 0x1000)
  {
    Pow2Values();
    assert HighMask(64, 12) == 0xFFFF_FFFF_FFFF_F000;
    hide BitAnd, HighMask, Pow2;
    AndLow(gpu, 12);
    AndHigh(gpu, 64, 12);
    PageOf(gpu);
    WrapBelow(cpu - gpu % 0x1000);
  }

  lemma PageOf(x: u64)
    ensures (x - x % 0x1000) % 0x1000 == 0 && 0 <= x % 0x1000 < 0x1000
  {
  }

  lemma WrapBelow(x: int)
    requires -0x1000 < x < WORD32
    ensures x % WORD32 == if x >= 0 then x else x + WORD32
  {
  }
}
