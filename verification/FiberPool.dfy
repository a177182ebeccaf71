/** The fiber pool of lib/oversip/fiber_pool.rb. Blocks are numbers; a block that was started ends, or
    dies by an exception and takes its fiber along. */
module FiberPool {

  type Fiber = nat
  type Block = nat

  /** Idle fibers, busy ones in hash order (dead ones stay among them), waiting blocks, the next fresh
      fiber, and the logs of blocks spawned and started. */
  datatype Pool = Pool(idle: seq<Fiber>, busy: seq<Fiber>, dead: set<Fiber>, queue: seq<Block>, next: Fiber,
                       spawned: seq<Block>, started: seq<Block>)

  datatype Event = Spawn(block: Block) | Ends(fiber: Fiber) | Dies(fiber: Fiber)

  function Range(from: nat, count: nat): (r: seq<nat>)
    ensures |r| == count && forall i :: 0 <= i < count ==> r[i] == from + i
  {
    seq(count, i requires 0 <= i < count => from + i)
  }

  function Fresh(count: nat): Pool { Pool(Range(0, count), [], {}, [], count, [], []) }

  function Alive(busy: seq<Fiber>, dead: set<Fiber>): (r: seq<Fiber>)
    ensures |r| <= |busy|
  {
    if busy == [] then []
    else (if busy[0] in dead then [] else [busy[0]]) + Alive(busy[1..], dead)
  }

  function Without(busy: seq<Fiber>, f: Fiber): seq<Fiber> {
    if busy == [] then [] else if busy[0] == f then busy[1..] else [busy[0]] + Without(busy[1..], f)
  }

  /** Dead fibers are replaced by new ones at the end of the idle list. */
  function Resurrected(p: Pool): Pool {
    var live := Alive(p.busy, p.dead);
    var n := |p.busy| - |live|;
    p.(idle := p.idle + Range(p.next, n), busy := live, dead := {}, next := p.next + n)
  }

  function Started(p: Pool, b: Block): Pool { p.(started := p.started + [b]) }

  function Spawned(p: Pool, b: Block): Pool {
    var q := Resurrected(p).(spawned := p.spawned + [b]);
    if q.idle != [] then
      Started(q.(idle := q.idle[1..], busy := q.busy + [q.idle[0]]), b)
    else q.(queue := q.queue + [b])
  }

  predicate Running(p: Pool, f: Fiber) { f in p.busy && f !in p.dead }

  function Ended(p: Pool, f: Fiber): Pool {
    if p.queue != [] then Started(p.(queue := p.queue[1..]), p.queue[0])
    else p.(busy := Without(p.busy, f), idle := [f] + p.idle)
  }

  /** Events of fibers that are not running a block do not happen. */
  function Step(p: Pool, e: Event): Pool {
    match e
    case Spawn(b) => Spawned(p, b)
    case Ends(f) => if Running(p, f) then Ended(p, f) else p
    case Dies(f) => if Running(p, f) then p.(dead := p.dead + {f}) else p
  }

  function Run(p: Pool, es: seq<Event>): Pool
    decreases |es|
  {
    if es == [] then p else Run(Step(p, es[0]), es[1..])
  }

  // ---- Conservation ----

  lemma {:induction false} WithoutCounts(busy: seq<Fiber>, f: Fiber)
    requires f in busy
    ensures multiset(Without(busy, f)) + multiset{f} == multiset(busy)
    decreases |busy|
  {
    assert busy == [busy[0]] + busy[1..];
    if busy[0] != f {
      WithoutCounts(busy[1..], f);
    }
  }

  lemma {:induction false} AliveCounts(busy: seq<Fiber>, dead: set<Fiber>, f: Fiber)
    ensures multiset(Alive(busy, dead))[f] == if f in dead then 0 else multiset(busy)[f]
    decreases |busy|
  {
    if busy != [] {
      AliveCounts(busy[1..], dead, f);
      assert busy == [busy[0]] + busy[1..];
    }
  }

  /** Every fiber is in one place, and there are count of them. */
  ghost predicate Conserved(p: Pool, count: nat) {
    && |p.idle| + |p.busy| == count
    && (forall f: nat :: multiset(p.idle)[f] + multiset(p.busy)[f] <= (if f < p.next then 1 else 0))
    && multiset(p.spawned) == multiset(p.started) + multiset(p.queue)
  }

  lemma CountConcat(a: seq<Fiber>, b: seq<Fiber>, f: Fiber)
    ensures multiset(a + b)[f] == multiset(a)[f] + multiset(b)[f]
  {}

  lemma ResurrectedCount(p: Pool, f: Fiber)
    ensures var q := Resurrected(p); var n := |p.busy| - |q.busy|;
      multiset(q.idle)[f] + multiset(q.busy)[f]
      == multiset(p.idle)[f] + (if p.next <= f < p.next + n then 1 else 0) + (if f in p.dead then 0 else multiset(p.busy)[f])
  {
    hide Alive, Range;
    var n := |p.busy| - |Alive(p.busy, p.dead)|;
    AliveCounts(p.busy, p.dead, f);
    RangeCount(p.next, n, f);
    CountConcat(p.idle, Range(p.next, n), f);
  }

  lemma ResurrectedConserves(p: Pool, count: nat)
    requires Conserved(p, count)
    ensures Conserved(Resurrected(p), count)
  {
    var q := Resurrected(p);
    forall f: nat ensures multiset(q.idle)[f] + multiset(q.busy)[f] <= if f < q.next then 1 else 0 {
      ResurrectedCount(p, f);
    }
  }

  lemma {:induction false} RangeCount(from: nat, n: nat, f: nat)
    ensures multiset(Range(from, n))[f] == if from <= f < from + n then 1 else 0
    decreases n
  {
    if n > 0 {
      RangeCount(from, n - 1, f);
      assert Range(from, n) == Range(from, n - 1) + [from + n - 1];
    }
  }

  lemma StepConserves(p: Pool, e: Event, count: nat)
    requires Conserved(p, count)
    ensures Conserved(Step(p, e), count)
  {
    match e
    case Spawn(b) =>
      ResurrectedConserves(p, count);
      SpawnConserves(p, b, count);
    case Ends(f) =>
      if Running(p, f) { EndConserves(p, f, count); }
    case Dies(f) =>
  }

  lemma HeadMoves(idle: seq<Fiber>, busy: seq<Fiber>, f: Fiber)
    requires idle != []
    ensures multiset(idle[1..])[f] + multiset(busy + [idle[0]])[f] == multiset(idle)[f] + multiset(busy)[f]
  {
    assert idle == [idle[0]] + idle[1..];
  }

  lemma BlocksConserved(spawned: seq<Block>, started: seq<Block>, queue: seq<Block>, b: Block)
    requires multiset(spawned) == multiset(started) + multiset(queue)
    ensures multiset(spawned + [b]) == multiset(started + [b]) + multiset(queue)
    ensures multiset(spawned + [b]) == multiset(started) + multiset(queue + [b])
  {}

  lemma SpawnConserves(p: Pool, b: Block, count: nat)
    requires Conserved(Resurrected(p), count)
    ensures Conserved(Spawned(p, b), count)
  {
    hide Resurrected;
    var q, r := Resurrected(p), Spawned(p, b);
    ResurrectedKeepsBlocks(p);
    BlocksConserved(q.spawned, q.started, q.queue, b);
    if q.idle != [] {
      forall f: nat ensures multiset(r.idle)[f] + multiset(r.busy)[f] <= if f < r.next then 1 else 0 {
        HeadMoves(q.idle, q.busy, f);
      }
    }
  }

  lemma ResurrectedKeepsBlocks(p: Pool)
    ensures var q := Resurrected(p); q.spawned == p.spawned && q.started == p.started && q.queue == p.queue
  {}

  lemma EndConserves(p: Pool, f: Fiber, count: nat)
    requires Conserved(p, count) && Running(p, f)
    ensures Conserved(Ended(p, f), count)
  {
    var r := Ended(p, f);
    if p.queue != [] {
      assert p.queue == [p.queue[0]] + p.queue[1..];
    } else {
      WithoutCounts(p.busy, f);
      assert |multiset(p.busy)| == |p.busy| && |multiset(r.busy)| == |r.busy|;
      forall g ensures multiset(r.idle)[g] + multiset(r.busy)[g] == multiset(p.idle)[g] + multiset(p.busy)[g] {
        assert (multiset(r.busy) + multiset{f})[g] == multiset(p.busy)[g];
      }
    }
  }

  lemma {:induction false} FibersAndBlocksConserved(count: nat, p: Pool, es: seq<Event>)
    requires Conserved(p, count)
    ensures Conserved(Run(p, es), count)
    decreases |es|
  {
    if es != [] {
      StepConserves(p, es[0], count);
      FibersAndBlocksConserved(count, Step(p, es[0]), es[1..]);
    }
  }

  lemma FreshConserved(count: nat)
    ensures Conserved(Fresh(count), count)
  {
    forall f: nat ensures multiset(Range(0, count))[f] <= if f < count then 1 else 0 { RangeCount(0, count, f); }
  }

  /** Whatever happens to a pool of count fibers, deaths included: their number never changes, none is idle and
      busy at once, and every block spawned has started once or waits once. */
  lemma PoolConserves(count: nat, es: seq<Event>)
    ensures var p := Run(Fresh(count), es);
      && |p.idle| + |p.busy| == count
      && (forall f :: f in p.idle ==> f !in p.busy)
      && multiset(p.spawned) == multiset(p.started) + multiset(p.queue)
  {
    FreshConserved(count);
    FibersAndBlocksConserved(count, Fresh(count), es);
    var p := Run(Fresh(count), es);
    forall f | f in p.idle ensures f !in p.busy {
      assert multiset(p.idle)[f] + multiset(p.busy)[f] <= 1;
    }
  }

  // ---- Order ----

  /** Blocks started in the order they were spawned, and waiting only while no fiber is idle. */
  predicate InOrder(p: Pool) {
    p.spawned == p.started + p.queue && (p.queue != [] ==> p.idle == []) && p.dead <= (set f | f in p.busy)
  }

  /** A spawn at which a dead fiber is replaced while blocks wait: the new block goes first. */
  predicate Overtakes(p: Pool, e: Event) { e.Spawn? && p.queue != [] && p.dead != {} }

  predicate SomeOvertakes(p: Pool, es: seq<Event>)
    decreases |es|
  {
    es != [] && (Overtakes(p, es[0]) || SomeOvertakes(Step(p, es[0]), es[1..]))
  }

  lemma {:induction false} AliveShorter(busy: seq<Fiber>, dead: set<Fiber>)
    ensures (exists f :: f in busy && f in dead) <==> |Alive(busy, dead)| < |busy|
    decreases |busy|
  {
    if busy != [] {
      AliveShorter(busy[1..], dead);
      assert busy == [busy[0]] + busy[1..];
      if f :| f in busy && f in dead && busy[0] !in dead {
        assert f in busy[1..];
      }
    }
  }

  lemma {:induction false} WithoutKeeps(busy: seq<Fiber>, f: Fiber, g: Fiber)
    requires g in busy && g != f
    ensures g in Without(busy, f)
    decreases |busy|
  {
    if busy[0] != f && busy[0] != g { WithoutKeeps(busy[1..], f, g); }
  }

  lemma {:induction false} NobodyDead(busy: seq<Fiber>)
    ensures Alive(busy, {}) == busy
  {
    if busy != [] { NobodyDead(busy[1..]); }
  }

  lemma StepInOrder(p: Pool, e: Event)
    requires InOrder(p) && !Overtakes(p, e)
    ensures InOrder(Step(p, e))
  {
    match e
    case Spawn(b) =>
      var q := Resurrected(p);
      if p.queue != [] { NobodyDead(p.busy); assert q.idle == []; }
      assert p.started + p.queue + [b] == p.started + (p.queue + [b]);
      if p.queue == [] { assert p.started + p.queue == p.started; }
    case Ends(f) =>
      if Running(p, f) {
        if p.queue != [] {
          assert p.started + [p.queue[0]] + p.queue[1..] == p.started + p.queue;
        } else {
          forall g | g in p.dead ensures g in Without(p.busy, f) { WithoutKeeps(p.busy, f, g); }
        }
      }
    case Dies(f) =>
  }

  /** Once a block was started out of its turn, what was started is no prefix of what was spawned any more. */
  predicate StartedPrefix(p: Pool) { p.started <= p.spawned }

  lemma OvertakenIsSeen(p: Pool, e: Event)
    requires InOrder(p) && Overtakes(p, e) && e.block !in p.queue
    ensures !StartedPrefix(Step(p, e))
  {
    var q := Resurrected(p);
    var d :| d in p.dead;
    AliveShorter(p.busy, p.dead);
    assert q.idle != [];
    var r := Spawned(p, e.block);
    assert r.started == p.started + [e.block] && r.spawned == p.started + p.queue + [e.block];
    assert r.started[|p.started|] != r.spawned[|p.started|];
  }

  lemma LogsGrow(p: Pool, e: Event)
    ensures var q := Step(p, e);
      p.spawned <= q.spawned && p.started <= q.started
      && |q.started| + |q.queue| - |q.spawned| == |p.started| + |p.queue| - |p.spawned|
  {}

  lemma PrefixBack(a: seq<Block>, a': seq<Block>, b: seq<Block>, b': seq<Block>)
    requires a <= a' && b <= b' && |a| <= |b|
    ensures a' <= b' ==> a <= b
  {
    if a' <= b' {
      assert forall i :: 0 <= i < |a| ==> a[i] == a'[i] == b'[i] == b[i];
    }
  }

  lemma {:induction false} NeverRepaired(p: Pool, es: seq<Event>)
    requires !StartedPrefix(p) && |p.started| + |p.queue| == |p.spawned|
    ensures !StartedPrefix(Run(p, es))
    decreases |es|
  {
    if es != [] {
      var q := Step(p, es[0]);
      LogsGrow(p, es[0]);
      PrefixBack(p.started, q.started, p.spawned, q.spawned);
      NeverRepaired(q, es[1..]);
    }
  }

  predicate NewBlocks(p: Pool, es: seq<Event>)
    decreases |es|
  {
    es != [] ==> (es[0].Spawn? ==> es[0].block !in p.spawned) && NewBlocks(Step(p, es[0]), es[1..])
  }

  /** Blocks start in spawn order exactly in the runs where no dead fiber is replaced while others wait. */
  lemma {:induction false} SpawnOrderIff(p: Pool, es: seq<Event>)
    requires InOrder(p) && NewBlocks(p, es)
    ensures StartedPrefix(Run(p, es)) <==> !SomeOvertakes(p, es)
    ensures !SomeOvertakes(p, es) ==> InOrder(Run(p, es))
    decreases |es|
  {
    if es != [] {
      if Overtakes(p, es[0]) {
        assert forall b :: b in p.queue ==> b in p.spawned;
        OvertakenIsSeen(p, es[0]);
        LogsGrow(p, es[0]);
        NeverRepaired(Step(p, es[0]), es[1..]);
      } else {
        StepInOrder(p, es[0]);
        SpawnOrderIff(Step(p, es[0]), es[1..]);
      }
    }
  }

  /** While no fiber dies: spawn order, and nothing waits beside an idle fiber. */
  lemma {:induction false} NoDeathsInOrder(p: Pool, es: seq<Event>)
    requires InOrder(p) && p.dead == {} && forall e :: e in es ==> !e.Dies?
    ensures InOrder(Run(p, es)) && Run(p, es).dead == {}
    decreases |es|
  {
    if es != [] {
      assert es[0] in es;
      StepInOrder(p, es[0]);
      NoDeathsInOrder(Step(p, es[0]), es[1..]);
    }
  }

  lemma FreshInOrder(count: nat)
    ensures InOrder(Fresh(count))
  {}

  /** A pool of count fibers starts the blocks in spawn order exactly in the runs in which no dead fiber is
      replaced while blocks wait; and then none waits beside an idle fiber. */
  lemma PoolOrderIff(count: nat, es: seq<Event>)
    requires NewBlocks(Fresh(count), es)
    ensures var p := Run(Fresh(count), es);
      && (StartedPrefix(p) <==> !SomeOvertakes(Fresh(count), es))
      && (!SomeOvertakes(Fresh(count), es) ==> p.spawned == p.started + p.queue && (p.queue != [] ==> p.idle == []))
  {
    hide Run, SomeOvertakes, NewBlocks, StartedPrefix;
    FreshInOrder(count);
    SpawnOrderIff(Fresh(count), es);
  }

  /** While no fiber dies, every block starts in its turn, and one waits only when no fiber is idle. */
  lemma PoolWithoutDeaths(count: nat, es: seq<Event>)
    requires forall e :: e in es ==> !e.Dies?
    ensures var p := Run(Fresh(count), es);
      p.spawned == p.started + p.queue && (p.queue != [] ==> p.idle == [])
  {
    hide Run;
    FreshInOrder(count);
    NoDeathsInOrder(Fresh(count), es);
  }

  /** With no block waiting, the fiber that finished last runs the next block, whatever else died meanwhile: the
      others keep their places, replacements come behind them. */
  lemma LastIdleFirst(p: Pool, f: Fiber, b: Block)
    requires Running(p, f) && p.queue == []
    ensures var u := Run(p, [Ends(f), Spawn(b)]);
      Running(u, f) && u.started == p.started + [b] && u.queue == [] && p.idle <= u.idle
  {
    hide Without, Alive;
    var q := Ended(p, f);
    var es := [Ends(f), Spawn(b)];
    assert es[1..] == [Spawn(b)] && es[1..][1..] == [];
    assert Run(p, es) == Run(q, [Spawn(b)]) == Run(Spawned(q, b), []);
    var r := Resurrected(q);
    assert r.idle == [f] + (p.idle + r.idle[|q.idle|..]);
    assert r.idle[1..] == p.idle + r.idle[|q.idle|..];
  }

  lemma RunOne(p: Pool, e: Event, es: seq<Event>)
    ensures Run(p, [e] + es) == Run(Step(p, e), es)
  {
    assert ([e] + es)[1..] == es;
  }

  const OneBusy := Pool([], [0], {}, [2], 1, [1, 2], [1])

  lemma TwoSpawned()
    ensures Run(Fresh(1), [Spawn(1)] + ([Spawn(2)] + [])) == OneBusy
  {
    hide Run, Alive;
    NobodyDead([]);
    NobodyDead([0]);
    var p0 := Fresh(1);
    var p1 := Pool([], [0], {}, [], 1, [1], [1]);
    assert Step(p0, Spawn(1)) == p1 by { assert Resurrected(p0) == p0; }
    assert Step(p1, Spawn(2)) == OneBusy by { assert Resurrected(p1) == p1; }
    RunOne(p0, Spawn(1), [Spawn(2)] + []);
    RunOne(p1, Spawn(2), []);
    RunNone(OneBusy);
  }

  lemma DeathAndSpawn()
    ensures Run(OneBusy, [Dies(0)] + ([Spawn(3)] + [])) == Pool([], [1], {}, [2], 2, [1, 2, 3], [1, 3])
  {
    hide Run, Alive;
    var p3 := OneBusy.(dead := {0});
    assert Step(OneBusy, Dies(0)) == p3;
    OneDead();
    var p4 := Pool([], [1], {}, [2], 2, [1, 2, 3], [1, 3]);
    assert Step(p3, Spawn(3)) == p4 by { assert Resurrected(p3) == p3.(idle := [1], busy := [], dead := {}, next := 2); }
    RunOne(OneBusy, Dies(0), [Spawn(3)] + []);
    RunOne(p3, Spawn(3), []);
    RunNone(p4);
  }

  /** One fiber, one block waiting, the fiber dies: the third block overtakes the second. */
  lemma DeathOvertakes()
    ensures var p := Run(Run(Fresh(1), [Spawn(1)] + ([Spawn(2)] + [])), [Dies(0)] + ([Spawn(3)] + []));
      p.spawned == [1, 2, 3] && p.started == [1, 3] && p.queue == [2]
  {
    hide Run;
    TwoSpawned();
    DeathAndSpawn();
  }

  lemma OneDead()
    ensures Alive([0], {0}) == []
  {
    assert Alive([0][1..], {0}) == [];
  }

  lemma RunNone(p: Pool)
    ensures Run(p, []) == p
  {}

  // ---- The pool object ----

  lemma AliveStep(values: seq<Fiber>, i: nat, dead: set<Fiber>, live: seq<Fiber>)
    requires i < |values|
    ensures live + Alive(values[i..], dead)
         == (if values[i] in dead then live else live + [values[i]]) + Alive(values[i + 1..], dead)
  {
    assert values[i..][1..] == values[i + 1..];
  }

  lemma AliveNone(values: seq<Fiber>, dead: set<Fiber>)
    ensures Alive(values[|values|..], dead) == []
  {}

  lemma RangeStep(idle: seq<Fiber>, first: nat, n: nat)
    ensures idle + Range(first, n) + [first + n] == idle + Range(first, n + 1)
  {}

  class FiberPool {
    var fibers: seq<Fiber>
    var busyFibers: seq<Fiber>
    var queue: seq<Block>
    /** Which busy fibers are no longer `alive?`. */
    var dead: set<Fiber>
    var nextFiber: Fiber
    ghost var spawned: seq<Block>
    ghost var started: seq<Block>

    ghost function View(): Pool
      reads this
    {
      Pool(fibers, busyFibers, dead, queue, nextFiber, spawned, started)
    }

    constructor (count: nat)
      ensures View() == Fresh(count)
    {
      fibers, busyFibers, queue, dead, nextFiber := [], [], [], {}, 0;
      spawned, started := [], [];
      new;
      for i := 0 to count
        invariant View() == Fresh(i)
      {
        AddFiber();
        assert Range(0, i) + [i] == Range(0, i + 1);
      }
    }

    method AddFiber()
      modifies this`fibers, this`nextFiber
      ensures fibers == old(fibers) + [old(nextFiber)] && nextFiber == old(nextFiber) + 1
    {
      fibers := fibers + [nextFiber];
      nextFiber := nextFiber + 1;
    }

    /** `@busy_fibers.values.reject(&:alive?).each`: a fresh fiber for every dead one. */
    method Resurrect()
      modifies this`fibers, this`busyFibers, this`dead, this`nextFiber
      ensures View() == Resurrected(old(View()))
    {
      hide Alive;
      var values, live, i := busyFibers, [], 0;
      ghost var first, idle := nextFiber, fibers;
      while i < |values|
        invariant 0 <= i <= |values| && |live| <= i
        invariant live + Alive(values[i..], dead) == Alive(values, dead)
        invariant fibers == idle + Range(first, i - |live|) && nextFiber == first + (i - |live|)
        invariant dead == old(dead)
      {
        AliveStep(values, i, dead, live);
        if values[i] in dead {
          RangeStep(idle, first, i - |live|);
          AddFiber();
        } else {
          live := live + [values[i]];
        }
        i := i + 1;
      }
      AliveNone(values, dead);
      assert live + [] == live;
      busyFibers, dead := live, {};
    }

    /** Returns whether a fiber was resumed with the block; else the block waits. */
    method Spawn(block: Block) returns (resumed: bool)
      modifies this
      ensures View() == Step(old(View()), Event.Spawn(block))
      ensures resumed <==> queue == old(queue)
    {
      Resurrect();
      spawned := spawned + [block];
      if fibers != [] {
        var fiber := fibers[0];
        fibers, busyFibers := fibers[1..], busyFibers + [fiber];
        started := started + [block];
        resumed := true;
      } else {
        queue := queue + [block];
        resumed := false;
      }
    }

    /** The fiber loop after `block.call` returned. */
    method BlockEnds(f: Fiber)
      requires f in busyFibers && f !in dead
      modifies this
      ensures View() == Step(old(View()), Ends(f))
    {
      if queue != [] {
        var block := queue[0];
        queue := queue[1..];
        started := started + [block];
      } else {
        busyFibers := Without(busyFibers, f);
        fibers := [f] + fibers;
      }
    }

    /** An exception left the block: the fiber is not resumed again. */
    method FiberDies(f: Fiber)
      requires f in busyFibers && f !in dead
      modifies this`dead
      ensures View() == Step(old(View()), Dies(f))
    {
      dead := dead + {f};
    }
  }
}
