/** Whole runs of the queue: any number of calls of either thread, interleaved in any way. A log
    records what callers saw, so that the promises of the interface can be stated. */
module QueueRuns {
  import opened Allocation
  import opened Bits
  import opened Blocks
  import opened Options
  import opened QueueSteps
  import opened QueueInvariant
  import opened QueueProducer
  import opened QueueConsumer

  /** The address a `peek` returned, and the value found there. */
  datatype Shown<T> = Shown(block: nat, slot: nat, value: T)

  datatype Log<T> = Log(
    enqueued: seq<T>,          // arguments of the enqueue calls that took effect, in order
    dequeued: seq<T>,          // values read from memory and removed, in order
    wasEmpty: bool,            // the queue was empty at some instant since the last consumer call began
    callPeak: nat,             // the greatest length since the last producer call began
    peak: nat,                 // the greatest length ever
    shown: Option<Shown<T>>)   // the last peek, until an element is removed

  /** `ring` and `live` locate the blocks; no step of the queue depends on them or on the log. */
  datatype System<T> = System(q: Queue<T>, ring: seq<nat>, live: nat, log: Log<T>)

  function Holds<T>(s: System<T>): seq<T> {
    Contents(s.q.blocks, s.ring, s.live)
  }

  function Address<T>(q: Queue<T>, block: nat, slot: nat): Option<Shown<T>> {
    if block < |q.blocks| && slot < |q.blocks[block].data|
    then Some(Shown(block, slot, q.blocks[block].data[slot].value)) else None
  }

  function Record<T>(s: System<T>, q': Queue<T>, length: nat, a: Action<T>): Log<T> {
    var log := s.log;
    var starts := (a.TryDequeue? || a.Show? || a.ConsumerSize?) && s.q.consumer.CIdle?;
    var calls := (a.Enqueue? || a.TryEnqueue? || a.ProducerSize?) && s.q.producer.PIdle?;
    var appends := a.Producer? && (s.q.producer.PStoreTail? || s.q.producer.PStoreTailBlock?);
    var removes := a.Consumer? && s.q.consumer.CStoreFront?;
    Log(
      if appends then log.enqueued + [s.q.producer.x] else log.enqueued,
      if removes then log.dequeued + [s.q.consumer.value] else log.dequeued,
      length == 0 || (log.wasEmpty && !starts),
      if calls then length else Max(log.callPeak, length),
      Max(log.peak, length),
      if removes then None
      else if a.Consumer? && !s.q.consumer.CIdle? && q'.consumer.CIdle? && q'.consumer.result.Showed? then
        Address(q', q'.consumer.result.block, q'.consumer.result.slot)
      else log.shown)
  }

  function Next<T>(s: System<T>, a: Action<T>): Outcome<System<T>> {
    match Act(s.q, a)
    case Fault(why) => Fault(why)
    case Ok(q') =>
      var ring', live' := NextRing(s.q, s.ring, s.live, a), NextLive(s.q, s.live, a);
      Ok(System(q', ring', live', Record(s, q', |Contents(q'.blocks, ring', live')|, a)))
  }

  function Run<T>(s: System<T>, acts: seq<Action<T>>): Outcome<System<T>> {
    if acts == [] then Ok(s) else
    match Run(s, acts[..|acts| - 1])
    case Fault(why) => Fault(why)
    case Ok(s') => Next(s', acts[|acts| - 1])
  }

  function Start<T>(types: Types, size: nat, maxBlockSize: nat, unset: T): System<T>
    requires maxBlockSize >= 2
  {
    var q := Init(types, size, maxBlockSize, unset);
    System(q, seq(|q.blocks|, i => i), 0, Log([], [], true, 0, 0, None))
  }

  // ----- What the log says in every reachable state ----------------------------------------------

  /** The dequeued values followed by the contents are the enqueued values. */
  ghost predicate History<T>(s: System<T>) {
    s.log.enqueued == s.log.dequeued + Holds(s)
  }

  /** If the front block is still the tail block when the consumer goes to look, it was so when the
      consumer found the front block empty. */
  ghost predicate EmptySeen<T>(s: System<T>) {
    && (s.q.consumer.CReadTailBlock? && s.live == 0 ==> s.log.wasEmpty)
    && (s.q.consumer == CIdle(Empty) ==> s.log.wasEmpty)
  }

  /** The slot the next removal empties. */
  ghost predicate IsHead<T>(q: Queue<T>, ring: seq<nat>, live: nat, block: nat, slot: nat)
    requires Linked(q.blocks, q.frontBlock, q.tailBlock, ring, live) && Healthy(q)
  {
    var fb := q.blocks[q.frontBlock];
    if Len(fb) > 0 then block == q.frontBlock && slot == fb.front
    else live > 0 && block == ring[1] && slot == q.blocks[ring[1]].front
  }

  ghost predicate PeekValid<T>(s: System<T>)
    requires Linked(s.q.blocks, s.q.frontBlock, s.q.tailBlock, s.ring, s.live) && Healthy(s.q)
  {
    s.log.shown.Some? ==>
      var at := s.log.shown.value;
      && IsHead(s.q, s.ring, s.live, at.block, at.slot)
      && |Holds(s)| > 0 && Holds(s)[0] == at.value
      && (!s.q.consumer.CIdle? ==> !s.log.wasEmpty)
      && s.q.consumer != CIdle(Empty)
  }

  ghost predicate Inv<T>(s: System<T>) {
    Core(s.q, s.ring, s.live) && History(s) && EmptySeen(s) && PeekValid(s)
  }

  ghost predicate NextOk<T>(s: System<T>, a: Action<T>) {
    Next(s, a).Ok? && Inv(Next(s, a).state)
  }

  predicate ByProducer<T>(a: Action<T>) {
    a.Producer? || a.Enqueue? || a.TryEnqueue? || a.ProducerSize?
  }

  /** No step of the producer moves the head. */
  lemma ProducerFrame<T>(q: Queue<T>, a: Action<T>)
    requires Act(q, a).Ok? && ByProducer(a)
    ensures var q' := Act(q, a).state;
      && q'.consumer == q.consumer && q'.frontBlock == q.frontBlock
      && |q'.blocks| >= |q.blocks|
      && forall id :: 0 <= id < |q.blocks| ==> q'.blocks[id].front == q.blocks[id].front
  {
    hide After, FreshBlock, GrownSize, Count;
  }

  lemma FrontKeepsElements<T>(q: Queue<T>, ring: seq<nat>, live: nat, a: Action<T>)
    requires Core(q, ring, live) && Act(q, a).Ok? && ByProducer(a)
    requires Healthy(Act(q, a).state) && q.frontBlock < |Act(q, a).state.blocks|
    ensures var b, c := q.blocks[q.frontBlock], Act(q, a).state.blocks[q.frontBlock];
      (Len(b) > 0 ==> Len(c) > 0) && (live > 0 ==> Len(c) == Len(b))
  {
    hide Filled, ConsumerKnows, Contents, After, Linked, CellsOk;
    hide FreshBlock, GrownSize, Count, Healthy, Sound;
    BlocksExist(q, ring, live);
    if a.Producer? && q.producer.PStoreTail? {
      if q.consumer.CStoreFront? {
        HoleIsBehind(q, ring, live);
      }
      PublishedOk(q.blocks[q.tailBlock], IsHole(q, q.tailBlock));
    }
  }

  lemma HeadUnmoved<T>(s: System<T>, a: Action<T>)
    requires Inv(s) && ByProducer(a) && StepOk(s.q, s.ring, s.live, a) && s.log.shown.Some?
    ensures var at, ring', live' := s.log.shown.value, NextRing(s.q, s.ring, s.live, a), NextLive(s.q, s.live, a);
      var q' := Act(s.q, a).state;
      && Linked(q'.blocks, q'.frontBlock, q'.tailBlock, ring', live') && Healthy(q')
      && IsHead(q', ring', live', at.block, at.slot)
  {
    hide Linked, Healthy, Filled, ProducerKnows, ConsumerKnows, Act, Contents, Sound, CellsOk, History, EmptySeen;
    var q, q' := s.q, Act(s.q, a).state;
    var ring', live' := NextRing(s.q, s.ring, s.live, a), NextLive(s.q, s.live, a);
    BlocksExist(q, s.ring, s.live);
    BlocksExist(q', ring', live');
    ProducerFrame(q, a);
    FrontKeepsElements(q, s.ring, s.live, a);
  }

  lemma ProducerKeeps<T>(s: System<T>, a: Action<T>)
    requires Inv(s) && ByProducer(a)
    ensures NextOk(s, a)
  {
    hide Linked, Healthy, Filled, ProducerKnows, ConsumerKnows, Act, Contents, IsHead;
    EveryStep(s.q, s.ring, s.live, a);
    ProducerFrame(s.q, a);
    if s.log.shown.Some? {
      HeadUnmoved(s, a);
    }
    var c := Holds(s);
    if a.Producer? && (s.q.producer.PStoreTail? || s.q.producer.PStoreTailBlock?) {
      Associate(s.log.dequeued, c, [s.q.producer.x]);
    }
  }

  /** The head slot holds the first value of the contents. */
  lemma HeadValue<T>(q: Queue<T>, ring: seq<nat>, live: nat, block: nat, slot: nat)
    requires Core(q, ring, live) && IsHead(q, ring, live, block, slot)
    ensures Valid(q, block) && slot < |q.blocks[block].data|
    ensures var c := Contents(q.blocks, ring, live); |c| > 0 && c[0] == q.blocks[block].data[slot].value
  {
    hide Linked, Healthy, Filled, ProducerKnows, ConsumerKnows, Contents, Sound, CellsOk, Items;
    BlocksExist(q, ring, live);
    ContentsSplit(q.blocks, ring, live);
    if Len(q.blocks[q.frontBlock]) > 0 {
      HeadItem(q.blocks[q.frontBlock]);
    } else {
      NextNotEmpty(q, ring, live);
      HeadItem(q.blocks[ring[1]]);
      assert ring[1..live + 1][0] == ring[1];
    }
  }

  /** Nothing but a store to `front` moves the head. */
  lemma HeadFollowed<T>(s: System<T>)
    requires Inv(s) && StepOk(s.q, s.ring, s.live, Consumer) && s.log.shown.Some? && !s.q.consumer.CStoreFront?
    ensures var at := s.log.shown.value;
      var ring', live' := NextRing(s.q, s.ring, s.live, Consumer), NextLive(s.q, s.live, Consumer);
      var q' := Act(s.q, Consumer).state;
      && Linked(q'.blocks, q'.frontBlock, q'.tailBlock, ring', live') && Healthy(q')
      && IsHead(q', ring', live', at.block, at.slot)
  {
    hide Linked, Healthy, Filled, ProducerKnows, Contents, Sound, CellsOk, History, EmptySeen, Count, After;
    var q, q' := s.q, Act(s.q, Consumer).state;
    var ring', live' := NextRing(q, s.ring, s.live, Consumer), NextLive(q, s.live, Consumer);
    BlocksExist(q, s.ring, s.live);
    BlocksExist(q', ring', live');
    if q.consumer.CStoreFrontBlock? {
      NextNotEmpty(q, s.ring, s.live);
    }
  }

  /** How the consumer comes to return an address. */
  lemma ShowsWhat<T>(q: Queue<T>)
    requires Act(q, Consumer).Ok? && Valid(q, q.frontBlock) && !q.consumer.CIdle?
    requires Act(q, Consumer).state.consumer.CIdle? && Act(q, Consumer).state.consumer.result.Showed?
    ensures !q.consumer.CStoreFrontBlock?
    ensures var q', f := Act(q, Consumer).state, q.frontBlock;
      && q'.frontBlock == f
      && if q.consumer.CReadNextTail? then
           q'.blocks == q.blocks && q.consumer.next < |q.blocks|
           && q'.consumer.result == Showed(q.consumer.next, q.blocks[q.consumer.next].front)
         else
           && |q'.blocks| == |q.blocks| && q'.blocks[f] == q.blocks[f].(localTail := q'.blocks[f].localTail)
           && (q.blocks[f].front != q.blocks[f].localTail || q.blocks[f].front != q.blocks[f].tail)
           && q'.consumer.result == Showed(f, q.blocks[f].front)
  {
    hide Count, After;
  }

  /** What `peek` returns is the address of the head. */
  lemma PeekShowsHead<T>(q: Queue<T>, ring: seq<nat>, live: nat)
    requires Core(q, ring, live) && !q.consumer.CIdle? && StepOk(q, ring, live, Consumer)
    requires Act(q, Consumer).state.consumer.CIdle? && Act(q, Consumer).state.consumer.result.Showed?
    ensures var q' := Act(q, Consumer).state;
      && NextRing(q, ring, live, Consumer) == ring && NextLive(q, live, Consumer) == live
      && IsHead(q', ring, live, q'.consumer.result.block, q'.consumer.result.slot)
  {
    hide Linked, Healthy, Filled, ProducerKnows, Contents, Sound, CellsOk, Act;
    var q' := Act(q, Consumer).state;
    BlocksExist(q, ring, live);
    SeenIff(q.blocks[q.frontBlock]);
    ShowsWhat(q);
    BlocksExist(q', ring, live);
  }

  lemma LooksEmpty<T>(q: Queue<T>)
    requires Act(q, Consumer).Ok? && Valid(q, q.frontBlock)
    ensures var q', fb := Act(q, Consumer).state, q.blocks[q.frontBlock];
      && (q'.consumer.CReadTailBlock? ==> q.consumer.CReadTail? && fb.front == fb.tail)
      && (q'.consumer == CIdle(Empty) ==>
            q.consumer == CIdle(Empty) || (q.consumer.CReadTailBlock? && q.frontBlock == q.tailBlock))
      && (q.consumer.CIdle? ==> q' == q)
  {
    hide After, Count;
  }

  lemma EmptyBlockEmptyQueue<T>(q: Queue<T>, ring: seq<nat>, live: nat)
    requires Core(q, ring, live) && live == 0 && Valid(q, q.frontBlock) && Len(q.blocks[q.frontBlock]) == 0
    ensures Contents(q.blocks, ring, live) == []
  {
    hide Linked, Healthy, Filled, ProducerKnows, ConsumerKnows, Contents, Sound, CellsOk, Items;
    BlocksExist(q, ring, live);
    ContentsSplit(q.blocks, ring, live);
    assert ring[1..1] == [];
  }

  /** When the consumer finds the front block empty while it is still the tail block, the whole queue
      is empty; and only that can make it return false. */
  lemma EmptyWitness<T>(q: Queue<T>, ring: seq<nat>, live: nat)
    requires Core(q, ring, live) && StepOk(q, ring, live, Consumer)
    ensures var q' := Act(q, Consumer).state;
      && (q'.consumer.CReadTailBlock? ==>
            q.consumer.CReadTail? && (live == 0 ==> Contents(q.blocks, ring, live) == []))
      && (q'.consumer == CIdle(Empty) ==> q.consumer == CIdle(Empty) || (q.consumer.CReadTailBlock? && live == 0))
      && (q.consumer.CIdle? ==> q'.consumer.CIdle?)
  {
    hide Linked, Healthy, Filled, ProducerKnows, ConsumerKnows, Contents, Sound, CellsOk, Act;
    BlocksExist(q, ring, live);
    LooksEmpty(q);
    if q.consumer.CReadTail? && live == 0 && q.blocks[q.frontBlock].front == q.blocks[q.frontBlock].tail {
      EmptyBlockEmptyQueue(q, ring, live);
    }
  }

  lemma CallStarts<T>(q: Queue<T>, a: Action<T>)
    requires a.TryDequeue? || a.Show? || a.ConsumerSize?
    ensures Act(q, a).Ok?
    ensures var q' := Act(q, a).state; q' == q.(consumer := q'.consumer)
    ensures var c := Act(q, a).state.consumer;
      if q.consumer.CIdle? then c.CLook? || c.CSize? else c == q.consumer
  {
  }

  lemma HeadSame<T>(q: Queue<T>, q': Queue<T>, ring: seq<nat>, live: nat, block: nat, slot: nat)
    requires Core(q, ring, live) && Core(q', ring, live) && IsHead(q, ring, live, block, slot)
    requires q'.blocks == q.blocks && q'.frontBlock == q.frontBlock
    ensures IsHead(q', ring, live, block, slot)
  {
    hide Linked, Healthy, Filled, ProducerKnows, ConsumerKnows;
    BlocksExist(q, ring, live);
  }

  lemma ConsumerStartKeeps<T>(s: System<T>, a: Action<T>)
    requires Inv(s) && (a.TryDequeue? || a.Show? || a.ConsumerSize?)
    ensures NextOk(s, a)
  {
    hide Linked, Healthy, Filled, ProducerKnows, ConsumerKnows, Contents, Act, IsHead;
    EveryStep(s.q, s.ring, s.live, a);
    CallStarts(s.q, a);
    if s.log.shown.Some? {
      HeadSame(s.q, Act(s.q, a).state, s.ring, s.live, s.log.shown.value.block, s.log.shown.value.slot);
    }
  }

  lemma ConsumerKeeps<T>(s: System<T>)
    requires Inv(s)
    ensures NextOk(s, Consumer)
  {
    hide Linked, Healthy, Filled, ProducerKnows, ConsumerKnows, Contents, Act, IsHead;
    var q, ring, live := s.q, s.ring, s.live;
    EveryStep(q, ring, live, Consumer);
    var q' := Act(q, Consumer).state;
    EmptyWitness(q, ring, live);
    if q.consumer.CStoreFront? {
      StoreFront(q, ring, live);
      var c := Holds(s);
      assert c == [c[0]] + c[1..];
      Associate(s.log.dequeued, [c[0]], c[1..]);
    } else {
      if s.log.shown.Some? {
        HeadFollowed(s);
      }
      if !q.consumer.CIdle? && q'.consumer.CIdle? && q'.consumer.result.Showed? {
        PeekShowsHead(q, ring, live);
        HeadValue(q', ring, live, q'.consumer.result.block, q'.consumer.result.slot);
      }
    }
  }

  lemma NextKeeps<T>(s: System<T>, a: Action<T>)
    requires Inv(s)
    ensures NextOk(s, a)
  {
    hide Inv, NextOk;
    match a
    case Consumer => ConsumerKeeps(s);
    case TryDequeue => ConsumerStartKeeps(s, a);
    case Show => ConsumerStartKeeps(s, a);
    case ConsumerSize => ConsumerStartKeeps(s, a);
    case Producer(_) => ProducerKeeps(s, a);
    case Enqueue(_) => ProducerKeeps(s, a);
    case TryEnqueue(_) => ProducerKeeps(s, a);
    case ProducerSize => ProducerKeeps(s, a);
  }

  // ----- The constructor establishes the invariant -----------------------------------------------

  lemma DoubleIsPow2(n: nat)
    requires IsPow2(n)
    ensures IsPow2(2 * n)
  {
    var k: nat :| n == Pow2(k);
    assert 2 * n == Pow2(k + 1);
  }

  /** Lines 114-123. A single block holds more than `size` slots and at most twice as many; it is taken
      exactly if twice `MAX_BLOCK_SIZE` is enough for that. Otherwise the blocks but one have room for
      `size` elements, and with one block fewer they would not. */
  lemma InitialSizes(size: nat, maxBlockSize: nat)
    requires WellSized(size, maxBlockSize)
    ensures var s, count := InitialBlockSize(size, maxBlockSize), InitialBlockCount(size, maxBlockSize);
      && IsPow2(s) && 2 <= s <= 2 * maxBlockSize && count >= 1
      && (count > 1 <==> size >= 2 * maxBlockSize)
      && (count == 1 ==> size < s <= 2 * size)
      && (count > 1 ==> s == maxBlockSize && (count - 2) * (s - 1) < size <= (count - 1) * (s - 1))
  {
    hide LeastPow2;
    LeastPow2IsLeast(size + 1, 0);
    DoubleIsPow2(maxBlockSize);
    RoundingBounds(size, 2 * maxBlockSize);
    assert Increment(size) == size + 1;
    if LeastPow2(size + 1) > maxBlockSize * 2 {
      DivideUp(size, maxBlockSize - 1, InitialBlockCount(size, maxBlockSize));
    }
  }

  lemma EmptyBlockOk<T>(types: Types, size: nat, unset: T, next: nat)
    requires size >= 2 && IsPow2(size) && BlockCells(types, size) == size
    ensures var b := MakeBlock(types, size, unset).(next := next);
      Sound(b) && CellsOk(b, false, false) && Len(b) == 0 && Items(b) == []
  {
  }

  lemma StartOk<T>(types: Types, size: nat, maxBlockSize: nat, unset: T)
    requires Constructible(types, size, maxBlockSize)
    ensures Inv(Start(types, size, maxBlockSize, unset))
  {
    hide InitialBlockSize, InitialBlockCount, MakeBlock, Sound, CellsOk, LeastPow2, Items;
    InitialSizes(size, maxBlockSize);
    var sys := Start(types, size, maxBlockSize, unset);
    var q, ring := sys.q, sys.ring;
    forall id | 0 <= id < |q.blocks|
      ensures Indexed(q.blocks[id]) && Sound(q.blocks[id]) && CellsOk(q.blocks[id], false, false)
      ensures Len(q.blocks[id]) == 0 && Items(q.blocks[id]) == []
    {
      EmptyBlockOk(types, InitialBlockSize(size, maxBlockSize), unset, Wrap(id, |q.blocks|));
    }
    forall id: nat | id < |q.blocks| ensures id in ring {
      assert ring[id] == id;
    }
    assert Healthy(q);
    assert Linked(q.blocks, 0, 0, ring, 0);
    assert Holds(sys) == [] by {
      ContentsSplit(q.blocks, ring, 0);
      assert ring[1..1] == [];
    }
  }

  // ----- Theorems over every run -----------------------------------------------------------------

  lemma AfterNext<T>(s: System<T>, a: Action<T>)
    requires Inv(s)
    ensures Next(s, a).Ok? && Inv(Next(s, a).state)
  {
    hide Inv, Next;
    NextKeeps(s, a);
  }

  lemma {:induction false} RunKeeps<T>(s: System<T>, acts: seq<Action<T>>)
    requires Inv(s)
    ensures Run(s, acts).Ok? && Inv(Run(s, acts).state)
  {
    hide Inv, Next;
    if acts == [] {
    } else {
      RunKeeps(s, acts[..|acts| - 1]);
      AfterNext(Run(s, acts[..|acts| - 1]).state, acts[|acts| - 1]);
    }
  }

  /** On every run of a queue built for at least one element, no assertion fails, no pointer goes
      astray, no object is constructed over a live one and none is destroyed twice. */
  lemma NeverFaults<T>(types: Types, size: nat, maxBlockSize: nat, unset: T, acts: seq<Action<T>>)
    requires Constructible(types, size, maxBlockSize)
    ensures Run(Start(types, size, maxBlockSize, unset), acts).Ok?
    ensures Inv(Run(Start(types, size, maxBlockSize, unset), acts).state)
  {
    hide Inv, Start;
    StartOk(types, size, maxBlockSize, unset);
    RunKeeps(Start(types, size, maxBlockSize, unset), acts);
  }

  /** First in, first out, under every interleaving: what has been dequeued is a prefix of what has
      been enqueued, and the rest is what the queue holds. */
  lemma Fifo<T>(types: Types, size: nat, maxBlockSize: nat, unset: T, acts: seq<Action<T>>)
    requires Constructible(types, size, maxBlockSize)
    ensures Run(Start(types, size, maxBlockSize, unset), acts).Ok?
    ensures var s := Run(Start(types, size, maxBlockSize, unset), acts).state;
      && s.log.dequeued <= s.log.enqueued
      && Holds(s) == s.log.enqueued[|s.log.dequeued|..]
  {
    hide Start, Run, Core, EmptySeen, PeekValid, Contents;
    NeverFaults(types, size, maxBlockSize, unset, acts);
  }

  predicate ConsumerCall<T>(s: System<T>, a: Action<T>) {
    (a.TryDequeue? || a.Show? || a.ConsumerSize?) && s.q.consumer.CIdle?
  }

  /** `acts` begins with a consumer call, and no other consumer call begins in it. */
  ghost predicate OneCall<T>(s: System<T>, acts: seq<Action<T>>) {
    && |acts| > 0 && ConsumerCall(s, acts[0])
    && forall k :: 1 <= k < |acts| && Run(s, acts[..k]).Ok? ==> !ConsumerCall(Run(s, acts[..k]).state, acts[k])
  }

  ghost predicate EmptyAfter<T>(s: System<T>, acts: seq<Action<T>>, k: nat)
  {
    k <= |acts| && Run(s, acts[..k]).Ok? && Holds(Run(s, acts[..k]).state) == []
  }

  lemma WasEmptyStep<T>(s: System<T>, a: Action<T>)
    requires Next(s, a).Ok? && Next(s, a).state.log.wasEmpty
    ensures Holds(Next(s, a).state) == [] || (s.log.wasEmpty && !ConsumerCall(s, a))
  {
    hide Act, Contents, Address;
  }

  lemma OneCallPrefix<T>(s: System<T>, acts: seq<Action<T>>)
    requires OneCall(s, acts) && |acts| > 1
    ensures OneCall(s, acts[..|acts| - 1])
  {
    hide Run, ConsumerCall;
    var before := acts[..|acts| - 1];
    assert forall k :: 0 <= k <= |before| ==> before[..k] == acts[..k];
  }

  lemma {:induction false} WasEmptyIsAnInstant<T>(s: System<T>, acts: seq<Action<T>>)
    requires OneCall(s, acts) && Run(s, acts).Ok? && Run(s, acts).state.log.wasEmpty
    ensures exists k: nat :: 1 <= k <= |acts| && EmptyAfter(s, acts, k)
  {
    hide Next, Holds, ConsumerCall;
    var n := |acts|;
    var before := acts[..n - 1];
    WasEmptyStep(Run(s, before).state, acts[n - 1]);
    if Holds(Run(s, acts).state) == [] {
      assert acts[..n] == acts;
      assert EmptyAfter(s, acts, n);
    } else {
      assert n > 1;
      OneCallPrefix(s, acts);
      WasEmptyIsAnInstant(s, before);
      var k: nat :| 1 <= k <= |before| && EmptyAfter(s, before, k);
      assert before[..k] == acts[..k];
      assert EmptyAfter(s, acts, k);
    }
  }

  /** A `try_dequeue` or `pop` that returns false, or a `peek` that returns null, is right: the queue
      was empty at some instant during the call, although the answer rests on two loads made at
      different times. */
  lemma EmptyAnswerIsTrue<T>(s: System<T>, acts: seq<Action<T>>)
    requires Inv(s) && OneCall(s, acts)
    requires Run(s, acts).Ok? && Run(s, acts).state.q.consumer == CIdle(Empty)
    ensures exists k: nat :: 1 <= k <= |acts| && EmptyAfter(s, acts, k)
  {
    RunKeeps(s, acts);
    WasEmptyIsAnInstant(s, acts);
  }

  lemma HeadAlive<T>(q: Queue<T>, ring: seq<nat>, live: nat, block: nat, slot: nat)
    requires Core(q, ring, live) && IsHead(q, ring, live, block, slot) && !q.consumer.CStoreFront?
    ensures Valid(q, block) && slot <= q.blocks[block].sizeMask && q.blocks[block].data[slot].alive
  {
    hide Filled, ProducerKnows, ConsumerKnows, Linked;
    BlocksExist(q, ring, live);
    if Len(q.blocks[q.frontBlock]) == 0 {
      NextNotEmpty(q, ring, live);
    }
  }

  /** `peek` does not change the queue, and the element it shows is the one that the next removal
      returns, whatever the producer does in between: the next call that removes cannot find the
      queue empty, takes exactly the slot shown, and that slot holds a live object until then. */
  lemma PeekAgrees<T>(s: System<T>)
    requires Inv(s) && s.log.shown.Some?
    ensures s.q.consumer != CIdle(Empty)
    ensures Next(s, Consumer).Ok? && Next(s, Consumer).state.q.consumer != CIdle(Empty)
    ensures s.q.consumer.CStoreFront? ==> s.q.consumer.value == s.log.shown.value.value
    ensures s.q.consumer.CTake? ==>
      s.log.shown.value.block == s.q.frontBlock && s.q.frontBlock < |s.q.blocks|
      && s.log.shown.value.slot == s.q.blocks[s.q.frontBlock].front
    ensures !s.q.consumer.CStoreFront? ==>
      var at := s.log.shown.value;
      && at.block < |s.q.blocks| && at.slot < |s.q.blocks[at.block].data|
      && s.q.blocks[at.block].data[at.slot] == Cell(at.value, true)
  {
    hide Linked, Filled, ProducerKnows, Contents, Act, History;
    NextKeeps(s, Consumer);
    EveryStep(s.q, s.ring, s.live, Consumer);
    EmptyWitness(s.q, s.ring, s.live);
    BlocksExist(s.q, s.ring, s.live);
    HeadValue(s.q, s.ring, s.live, s.log.shown.value.block, s.log.shown.value.slot);
    if s.q.consumer.CStoreFront? {
      StoreFront(s.q, s.ring, s.live);
    } else {
      HeadAlive(s.q, s.ring, s.live, s.log.shown.value.block, s.log.shown.value.slot);
    }
  }

  /** The step in which a `peek` returns. */
  predicate Reshown<T>(s: System<T>, a: Action<T>) {
    && a.Consumer? && !s.q.consumer.CIdle? && Act(s.q, a).Ok?
    && Act(s.q, a).state.consumer.CIdle? && Act(s.q, a).state.consumer.result.Showed?
  }

  /** No step takes anything back from the log, or removes while the last peek still counts. */
  lemma LogStep<T>(s: System<T>, a: Action<T>)
    requires Next(s, a).Ok?
    ensures var s' := Next(s, a).state;
      && s.log.enqueued <= s'.log.enqueued && s.log.dequeued <= s'.log.dequeued
      && (s'.log.dequeued == s.log.dequeued && s.log.shown.Some? ==> s'.log.shown.Some? || Reshown(s, a))
  {
    hide Act, Contents, Address;
  }

  lemma ShownAgain<T>(s: System<T>, a: Action<T>)
    requires Inv(s) && Reshown(s, a) && Next(s, a).Ok? && !s.q.consumer.CStoreFront?
    ensures Next(s, a).state.log.shown.Some?
  {
    hide Linked, Healthy, Filled, ProducerKnows, ConsumerKnows, Contents, Act, IsHead, History, EmptySeen;
    EveryStep(s.q, s.ring, s.live, Consumer);
    PeekShowsHead(s.q, s.ring, s.live);
    var q' := Act(s.q, a).state;
    HeadValue(q', s.ring, s.live, q'.consumer.result.block, q'.consumer.result.slot);
  }

  lemma StillShown<T>(s: System<T>, a: Action<T>)
    requires Inv(s) && s.log.shown.Some? && Next(s, a).Ok?
    ensures var s' := Next(s, a).state;
      |s.log.dequeued| <= |s'.log.dequeued| && (|s'.log.dequeued| == |s.log.dequeued| ==> s'.log.shown.Some?)
  {
    LogStep(s, a);
    if Next(s, a).state.log.dequeued == s.log.dequeued && Reshown(s, a) && !s.q.consumer.CStoreFront? {
      ShownAgain(s, a);
    }
  }

  lemma {:induction false} LogsGrow<T>(s: System<T>, acts: seq<Action<T>>)
    requires Run(s, acts).Ok?
    ensures s.log.enqueued <= Run(s, acts).state.log.enqueued && s.log.dequeued <= Run(s, acts).state.log.dequeued
  {
    hide Next;
    if acts == [] {
    } else {
      LogsGrow(s, acts[..|acts| - 1]);
      LogStep(Run(s, acts[..|acts| - 1]).state, acts[|acts| - 1]);
    }
  }

  /** In a good state the log says what comes next. */
  lemma ShownIsNext<T>(s: System<T>)
    requires Inv(s)
    ensures s.log.dequeued <= s.log.enqueued
    ensures s.log.shown.Some? ==>
      && |s.log.dequeued| < |s.log.enqueued| && s.log.enqueued[|s.log.dequeued|] == s.log.shown.value.value
      && s.q.consumer != CIdle(Empty)
  {
    hide Linked, Healthy, Filled, ProducerKnows, ConsumerKnows, Contents, IsHead, EmptySeen;
  }

  /** `peek` tells the future: whatever both threads do after it, the next value dequeued is the one
      it showed, and until then no call of the consumer finds the queue empty. */
  lemma {:induction false} PeekShowsNextRemoved<T>(s: System<T>, acts: seq<Action<T>>)
    requires Inv(s) && s.log.shown.Some?
    ensures Run(s, acts).Ok?
    ensures var s', n := Run(s, acts).state, |s.log.dequeued|;
      && Inv(s') && n <= |s'.log.dequeued|
      && (|s'.log.dequeued| > n ==> s'.log.dequeued[n] == s.log.shown.value.value)
      && (|s'.log.dequeued| == n ==> s'.log.shown.Some? && s'.q.consumer != CIdle(Empty))
  {
    hide Inv, Next;
    RunKeeps(s, acts);
    LogsGrow(s, acts);
    ShownIsNext(s);
    ShownIsNext(Run(s, acts).state);
    if acts == [] {
    } else {
      var before := acts[..|acts| - 1];
      PeekShowsNextRemoved(s, before);
      LogsGrow(s, before);
      LogStep(Run(s, before).state, acts[|acts| - 1]);
      if |Run(s, before).state.log.dequeued| == |s.log.dequeued| {
        StillShown(Run(s, before).state, acts[|acts| - 1]);
      }
    }
  }

  lemma TookStep<T>(s: System<T>, a: Action<T>)
    requires Next(s, a).Ok?
    ensures var s' := Next(s, a).state;
      s'.q.consumer.CIdle? && s'.q.consumer.result.Took? ==>
        if s.q.consumer.CIdle? then s'.log.dequeued == s.log.dequeued && s'.q.consumer == s.q.consumer
        else s'.log.dequeued == s.log.dequeued + [s'.q.consumer.result.value]
  {
    hide Contents, Address, After, Count, FreshBlock, GrownSize, Constructed, MakeBlock;
  }

  /** What a caller got is what the log says was dequeued last. */
  lemma {:induction false} TookIsLastDequeued<T>(types: Types, size: nat, maxBlockSize: nat, unset: T,
                                                 acts: seq<Action<T>>)
    requires maxBlockSize >= 2
    ensures var o := Run(Start(types, size, maxBlockSize, unset), acts);
      o.Ok? && o.state.q.consumer.CIdle? && o.state.q.consumer.result.Took? ==>
        && |o.state.log.dequeued| > 0
        && o.state.log.dequeued[|o.state.log.dequeued| - 1] == o.state.q.consumer.result.value
  {
    hide Next;
    if acts != [] && Run(Start(types, size, maxBlockSize, unset), acts).Ok? {
      var before := acts[..|acts| - 1];
      TookIsLastDequeued(types, size, maxBlockSize, unset, before);
      TookStep(Run(Start(types, size, maxBlockSize, unset), before).state, acts[|acts| - 1]);
    }
  }
}
