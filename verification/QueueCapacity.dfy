/** What the constructor promises: `size` elements always fit without allocating, and the blocks,
    which are never freed, stay within a bound that depends only on the greatest length reached. */
module QueueCapacity {
  import opened Allocation
  import opened Bits
  import opened Blocks
  import opened QueueSteps
  import opened QueueInvariant
  import opened QueueProducer
  import opened QueueConsumer
  import opened QueueRuns

  function MaskOf<T>(blocks: seq<Block<T>>, id: nat): nat {
    if id < |blocks| then blocks[id].sizeMask else 0
  }

  /** The sum of `sizeMask` over the listed blocks: `max_capacity`. */
  function Masks<T>(blocks: seq<Block<T>>, ids: seq<nat>): nat {
    if ids == [] then 0 else MaskOf(blocks, ids[0]) + Masks(blocks, ids[1..])
  }

  function Capacity<T>(s: System<T>): nat {
    Masks(s.q.blocks, s.ring)
  }

  lemma {:induction false} MasksConcat<T>(blocks: seq<Block<T>>, a: seq<nat>, b: seq<nat>)
    ensures Masks(blocks, a + b) == Masks(blocks, a) + Masks(blocks, b)
  {
    if a == [] {
      assert a + b == b;
    } else {
      assert (a + b)[1..] == a[1..] + b;
      MasksConcat(blocks, a[1..], b);
    }
  }

  lemma {:induction false} MasksFrame<T>(blocks: seq<Block<T>>, blocks': seq<Block<T>>, ids: seq<nat>)
    requires forall i :: 0 <= i < |ids| ==> MaskOf(blocks, ids[i]) == MaskOf(blocks', ids[i])
    ensures Masks(blocks, ids) == Masks(blocks', ids)
  {
    if ids == [] {
    } else {
      MasksFrame(blocks, blocks', ids[1..]);
    }
  }

  lemma {:induction false} MaskWithin<T>(blocks: seq<Block<T>>, ids: seq<nat>, i: nat)
    requires i < |ids|
    ensures MaskOf(blocks, ids[i]) <= Masks(blocks, ids)
  {
    if i == 0 {
    } else {
      MaskWithin(blocks, ids[1..], i - 1);
    }
  }

  /** Full blocks hold as many elements as their masks say. */
  lemma {:induction false} FullLength<T>(blocks: seq<Block<T>>, ids: seq<nat>)
    requires forall i :: 0 <= i < |ids| ==> ids[i] < |blocks| && Indexed(blocks[ids[i]]) && IsFull(blocks[ids[i]])
    ensures |Flat(blocks, ids)| == Masks(blocks, ids)
  {
    if ids == [] {
    } else {
      FullLength(blocks, ids[1..]);
    }
  }

  // ----- The invariant ----------------------------------------------------------------------------

  /** Twice `MAX_BLOCK_SIZE` less one: the most one block can hold. */
  function Most(maxBlockSize: nat): nat
    requires maxBlockSize >= 2
  {
    2 * maxBlockSize - 1
  }

  ghost predicate Sizes<T>(q: Queue<T>) {
    && q.maxBlockSize >= 2
    && q.largestBlockSize <= 2 * q.maxBlockSize
    && (forall id :: 0 <= id < |q.blocks| ==> q.blocks[id].sizeMask < q.largestBlockSize)
    && (q.producer.PLink? ==> q.producer.made.sizeMask + 1 == q.largestBlockSize)
  }

  /** Whichever block the consumer is in, the others have `size` slots between them. */
  ghost predicate Fits<T>(s: System<T>, size: nat) {
    && (|s.ring| == 1 ==> MaskOf(s.q.blocks, s.ring[0]) >= size)
    && (|s.ring| > 1 ==>
          forall i :: 0 <= i < |s.ring| ==> Capacity(s) - MaskOf(s.q.blocks, s.ring[i]) >= size)
  }

  /** When the producer has found the tail block full and the block after it is the front block, all
      blocks but the front block are full, and were so when it found the tail block full. */
  ghost predicate FullSeen<T>(s: System<T>, size: nat)
    requires s.q.maxBlockSize >= 2
  {
    && (s.q.producer.PReadNext? && s.live + 1 == |s.ring| ==>
          s.log.callPeak >= size && s.log.peak + Most(s.q.maxBlockSize) >= Capacity(s))
    && (s.q.producer.PAlloc? || s.q.producer.PLink? ==>
          s.log.peak + Most(s.q.maxBlockSize) >= Capacity(s))
    && (s.q.producer == PIdle(Full) ==> s.log.callPeak >= size)
  }

  ghost predicate CapacityInv<T>(s: System<T>, size: nat, initial: nat) {
    && Inv(s)
    && Sizes(s.q)
    && Fits(s, size)
    && FullSeen(s, size)
    && Capacity(s) <= Max(initial, s.log.peak + 2 * Most(s.q.maxBlockSize))
  }

  lemma WholeRingFull<T>(q: Queue<T>, ring: seq<nat>, live: nat)
    requires Core(q, ring, live) && live + 1 == |ring|
    requires q.tailBlock < |q.blocks| && Indexed(q.blocks[q.tailBlock]) && IsFull(q.blocks[q.tailBlock])
    ensures |Contents(q.blocks, ring, live)| + MaskOf(q.blocks, ring[0]) >= Masks(q.blocks, ring)
    ensures live == 0 ==> |Contents(q.blocks, ring, live)| == MaskOf(q.blocks, ring[0])
  {
    hide Linked, Healthy, ProducerKnows, ConsumerKnows, Contents, Sound, CellsOk, Items;
    BlocksExist(q, ring, live);
    ContentsSplit(q.blocks, ring, live);
    assert ring[1..live + 1] == ring[1..];
    if live == 0 {
      assert ring[1..] == [];
    }
    FullLength(q.blocks, ring[1..]);
  }

  /** Block sizes never change, and only linking a new block adds one. */
  lemma SizesFrame<T>(q: Queue<T>, a: Action<T>)
    requires Act(q, a).Ok?
    ensures var q' := Act(q, a).state;
      && q'.maxBlockSize == q.maxBlockSize
      && |q'.blocks| == |q.blocks| + (if a.Producer? && q.producer.PLink? then 1 else 0)
      && forall id :: 0 <= id < |q.blocks| ==> q'.blocks[id].sizeMask == q.blocks[id].sizeMask
  {
    hide After, Count, FreshBlock, GrownSize;
  }

  ghost predicate ProducerWent<T>(q: Queue<T>, p: Producer<T>, a: Action<T>)
    requires Valid(q, q.tailBlock)
  {
    var tb := q.blocks[q.tailBlock];
    match p
    case PReadNext(_, _) => a.Producer? && q.producer.PReadFront? && After(tb.tail, tb.sizeMask) == tb.front
    case PAlloc(_) => a.Producer? && q.producer.PReadNext? && tb.next == q.frontBlock
    case PLink(_, _) => a.Producer? && q.producer.PAlloc?
    case PIdle(Full) => a.Producer? && q.producer.PReadNext? && tb.next == q.frontBlock && !q.producer.canAlloc
    case _ => true
  }

  /** How the producer gets to the program counters that `FullSeen` speaks of. */
  lemma ProducerMoves<T>(q: Queue<T>, a: Action<T>)
    requires Act(q, a).Ok? && Valid(q, q.tailBlock)
    ensures Act(q, a).state.producer == q.producer || ProducerWent(q, Act(q, a).state.producer, a)
  {
    hide After, Count, FreshBlock, GrownSize;
  }

  // ----- Every step keeps it ----------------------------------------------------------------------

  predicate Links<T>(s: System<T>, a: Action<T>) {
    a.Producer? && s.q.producer.PLink?
  }

  lemma MadeLinked<T>(s: System<T>, a: Action<T>)
    requires Links(s, a) && Act(s.q, a).Ok?
    ensures var q' := Act(s.q, a).state;
      |q'.blocks| == |s.q.blocks| + 1 && q'.blocks[|s.q.blocks|] == s.q.producer.made
      && q'.largestBlockSize == s.q.largestBlockSize && q'.producer.PStoreTailBlock?
  {
  }

  /** A step leaves the sizes of the blocks that are there alone. */
  lemma MasksKept<T>(s: System<T>, a: Action<T>)
    requires Inv(s) && Act(s.q, a).Ok?
    ensures s.live < |s.ring| && Masks(Act(s.q, a).state.blocks, s.ring) == Masks(s.q.blocks, s.ring)
    ensures Links(s, a) ==> MaskOf(Act(s.q, a).state.blocks, |s.q.blocks|) == s.q.producer.made.sizeMask
  {
    hide Healthy, Filled, ProducerKnows, ConsumerKnows, Contents, History, EmptySeen, PeekValid, Linked, Act, Masks;
    BlocksExist(s.q, s.ring, s.live);
    SizesFrame(s.q, a);
    MasksFrame(s.q.blocks, Act(s.q, a).state.blocks, s.ring);
    if Links(s, a) {
      MadeLinked(s, a);
    }
  }

  lemma MasksInserted<T>(blocks: seq<Block<T>>, ring: seq<nat>, i: nat, n: nat)
    requires i <= |ring|
    ensures Masks(blocks, ring[..i] + [n] + ring[i..]) == Masks(blocks, ring) + MaskOf(blocks, n)
  {
    hide MaskOf;
    MasksConcat(blocks, ring[..i] + [n], ring[i..]);
    MasksConcat(blocks, ring[..i], [n]);
    MasksConcat(blocks, ring[..i], ring[i..]);
    assert ring == ring[..i] + ring[i..];
    assert Masks(blocks, [n]) == MaskOf(blocks, n) + Masks(blocks, []);
  }

  lemma MasksRotated<T>(blocks: seq<Block<T>>, ring: seq<nat>)
    requires ring != []
    ensures Masks(blocks, ring[1..] + [ring[0]]) == Masks(blocks, ring)
  {
    hide MaskOf;
    MasksConcat(blocks, ring[1..], [ring[0]]);
    assert Masks(blocks, [ring[0]]) == MaskOf(blocks, ring[0]) + Masks(blocks, []);
  }

  lemma CapacityNext<T>(s: System<T>, a: Action<T>)
    requires Inv(s) && Next(s, a).Ok? && Inv(Next(s, a).state)
    ensures var s' := Next(s, a).state;
      Capacity(s') == Capacity(s) + if Links(s, a) then s.q.producer.made.sizeMask else 0
  {
    hide Inv, Contents, Record, Act, Masks, MaskOf;
    var s', ring := Next(s, a).state, s.ring;
    MasksKept(s, a);
    if Links(s, a) {
      MasksInserted(s'.q.blocks, ring, s.live + 1, |s.q.blocks|);
    } else if a.Consumer? && s.q.consumer.CStoreFrontBlock? {
      MasksRotated(s'.q.blocks, ring);
    }
  }

  lemma SizesNext<T>(q: Queue<T>, a: Action<T>)
    requires Sizes(q) && Act(q, a).Ok?
    ensures Sizes(Act(q, a).state)
    ensures q.largestBlockSize <= Act(q, a).state.largestBlockSize
  {
    hide After, Count;
    SizesFrame(q, a);
  }

  lemma FitsSame<T>(s: System<T>, s': System<T>, size: nat)
    requires Fits(s, size) && s'.ring == s.ring && s.ring != [] && Capacity(s') == Capacity(s)
    requires forall i :: 0 <= i < |s.ring| ==> MaskOf(s'.q.blocks, s.ring[i]) == MaskOf(s.q.blocks, s.ring[i])
    ensures Fits(s', size)
  {
    hide MaskOf, Capacity;
  }

  lemma FitsRotated<T>(s: System<T>, s': System<T>, size: nat)
    requires Fits(s, size) && s.ring != [] && s'.ring == s.ring[1..] + [s.ring[0]] && Capacity(s') == Capacity(s)
    requires forall i :: 0 <= i < |s.ring| ==> MaskOf(s'.q.blocks, s.ring[i]) == MaskOf(s.q.blocks, s.ring[i])
    ensures Fits(s', size)
  {
    hide MaskOf, Capacity;
    RotatedAt(s.ring, s'.ring);
  }

  lemma FitsWithNew<T>(s: System<T>, s': System<T>, size: nat)
    requires Fits(s, size) && s.live < |s.ring|
    requires s'.ring == s.ring[..s.live + 1] + [|s.q.blocks|] + s.ring[s.live + 1..]
    requires forall i :: 0 <= i < |s.ring| ==> MaskOf(s'.q.blocks, s.ring[i]) == MaskOf(s.q.blocks, s.ring[i])
    requires Capacity(s') == Capacity(s) + MaskOf(s'.q.blocks, |s.q.blocks|)
    requires MaskOf(s'.q.blocks, |s.q.blocks|) >= MaskOf(s.q.blocks, s.ring[0])
    ensures Fits(s', size)
  {
    hide MaskOf;
    if |s.ring| == 1 {
      assert s.ring[1..] == [];
    }
    assert |s.ring| > 1 ==> Capacity(s) - MaskOf(s.q.blocks, s.ring[0]) >= size;
    hide Masks;
    forall i | 0 <= i < |s'.ring| ensures Capacity(s') - MaskOf(s'.q.blocks, s'.ring[i]) >= size {
      InsertedAt(s.ring, s'.ring, s.live, |s.q.blocks|);
      if i != s.live + 1 {
        var j := if i <= s.live then i else i - 1;
        assert s'.ring[i] == s.ring[j];
        assert |s.ring| > 1 ==> Capacity(s) - MaskOf(s.q.blocks, s.ring[j]) >= size;
      }
    }
  }

  lemma FitsNext<T>(s: System<T>, a: Action<T>, size: nat)
    requires Inv(s) && Next(s, a).Ok? && Inv(Next(s, a).state) && Sizes(s.q) && Fits(s, size)
    ensures Fits(Next(s, a).state, size)
  {
    hide Healthy, Filled, ProducerKnows, ConsumerKnows, Contents, History, EmptySeen, PeekValid, Record, Linked, Act;
    hide Fits, Capacity;
    var s', ring, live := Next(s, a).state, s.ring, s.live;
    BlocksExist(s.q, ring, live);
    CapacityNext(s, a);
    SizesFrame(s.q, a);
    if Links(s, a) {
      MadeLinked(s, a);
      FitsWithNew(s, s', size);
    } else if a.Consumer? && s.q.consumer.CStoreFrontBlock? {
      FitsRotated(s, s', size);
    } else {
      FitsSame(s, s', size);
    }
  }

  lemma RingLength<T>(s: System<T>)
    requires Inv(s)
    ensures s.live < |s.ring|
  {
    hide Healthy, Filled, ProducerKnows, ConsumerKnows, History, EmptySeen, PeekValid;
  }

  /** While the producer stays where it is, the tail block gets no nearer the end of the ring. */
  lemma RingStill<T>(s: System<T>, a: Action<T>)
    requires s.live < |s.ring| && Next(s, a).Ok?
    requires a.Producer? ==> !s.q.producer.PLink? && !s.q.producer.PStoreTailBlock?
    ensures |Next(s, a).state.ring| - Next(s, a).state.live >= |s.ring| - s.live
  {
    hide Contents, Act, Record;
  }

  lemma PeakGrows<T>(s: System<T>, a: Action<T>)
    requires Next(s, a).Ok?
    ensures Next(s, a).state.log.peak >= s.log.peak
  {
    hide Contents, Act, Address;
  }

  lemma ProducerStays<T>(q: Queue<T>, a: Action<T>)
    requires Act(q, a).Ok? && Act(q, a).state.producer == q.producer
    ensures a.Producer? ==> !q.producer.PLink? && !q.producer.PStoreTailBlock?
  {
    hide After, Count, FreshBlock, GrownSize;
  }

  /** Beginning a call and linking a block move the producer. */
  lemma CallsMove<T>(q: Queue<T>, a: Action<T>)
    requires Act(q, a).Ok? && Act(q, a).state.producer == q.producer
    ensures !(a.Producer? && q.producer.PLink?)
    ensures !((a.Enqueue? || a.TryEnqueue? || a.ProducerSize?) && q.producer.PIdle?)
  {
    hide After, Count, FreshBlock, GrownSize;
  }

  /** While a call is going on, its log only grows. */
  lemma CallContinues<T>(s: System<T>, a: Action<T>)
    requires Next(s, a).Ok? && Next(s, a).state.q.producer == s.q.producer
    ensures Next(s, a).state.log.callPeak >= s.log.callPeak && !Links(s, a)
  {
    hide Act, Contents, Address;
    CallsMove(s.q, a);
  }

  lemma FullSeenStill<T>(s: System<T>, a: Action<T>, size: nat)
    requires Inv(s) && Next(s, a).Ok? && Sizes(s.q) && FullSeen(s, size)
    requires Sizes(Next(s, a).state.q) && Next(s, a).state.q.producer == s.q.producer
    requires Capacity(Next(s, a).state) == Capacity(s) + if Links(s, a) then s.q.producer.made.sizeMask else 0
    ensures FullSeen(Next(s, a).state, size)
  {
    hide Core, Contents, History, EmptySeen, PeekValid, Act, Capacity, Address;
    SizesFrame(s.q, a);
    CallContinues(s, a);
    RingLength(s);
    ProducerStays(s.q, a);
    RingStill(s, a);
    PeakGrows(s, a);
  }

  lemma PeaksGrow<T>(s: System<T>, a: Action<T>)
    requires Next(s, a).Ok? && a.Producer?
    ensures var s' := Next(s, a).state;
      && s'.log.callPeak == Max(s.log.callPeak, |Holds(s')|) && s'.log.peak == Max(s.log.peak, |Holds(s')|)
  {
    hide Contents, Act, Address;
  }

  /** The instant the producer reads `front` and finds its block full, with no block ahead. */
  lemma FullAtReadFront<T>(s: System<T>, size: nat)
    requires Inv(s) && Sizes(s.q) && Fits(s, size) && s.live + 1 == |s.ring|
    requires s.q.tailBlock < |s.q.blocks| && Indexed(s.q.blocks[s.q.tailBlock]) && IsFull(s.q.blocks[s.q.tailBlock])
    ensures |Holds(s)| >= size
    ensures |Holds(s)| + s.q.largestBlockSize > Capacity(s)
    ensures |Holds(s)| + Most(s.q.maxBlockSize) >= Capacity(s)
  {
    hide Healthy, Filled, ProducerKnows, ConsumerKnows, Contents, History, EmptySeen, PeekValid, Linked, IsFull;
    BlocksExist(s.q, s.ring, s.live);
    WholeRingFull(s.q, s.ring, s.live);
    assert |s.ring| > 1 ==> Capacity(s) - MaskOf(s.q.blocks, s.ring[0]) >= size;
  }

  lemma FullWhenMoved<T>(s: System<T>, a: Action<T>, size: nat)
    requires Inv(s) && Next(s, a).Ok? && Sizes(s.q) && Fits(s, size) && s.live + 1 == |s.ring|
    requires Next(s, a).state.q.producer.PReadNext? && Next(s, a).state.q.producer != s.q.producer
    ensures |Holds(Next(s, a).state)| >= size
    ensures |Holds(Next(s, a).state)| + s.q.largestBlockSize > Capacity(s)
    ensures |Holds(Next(s, a).state)| + Most(s.q.maxBlockSize) >= Capacity(s)
  {
    hide Healthy, Filled, ProducerKnows, ConsumerKnows, Contents, History, EmptySeen, PeekValid, Linked, Act;
    hide After, Fits, Capacity, Record, Sizes;
    BlocksExist(s.q, s.ring, s.live);
    ProducerMoves(s.q, a);
    EveryStep(s.q, s.ring, s.live, a);
    RoomTest(s.q.blocks[s.q.tailBlock]);
    FullAtReadFront(s, size);
  }

  lemma FullSeenMoved<T>(s: System<T>, a: Action<T>, size: nat)
    requires Inv(s) && Next(s, a).Ok? && Sizes(s.q) && Fits(s, size) && FullSeen(s, size)
    requires Sizes(Next(s, a).state.q) && Next(s, a).state.q.producer != s.q.producer
    requires Capacity(Next(s, a).state) == Capacity(s) + if Links(s, a) then s.q.producer.made.sizeMask else 0
    ensures FullSeen(Next(s, a).state, size)
  {
    hide Healthy, Filled, ProducerKnows, ConsumerKnows, Contents, History, EmptySeen, PeekValid, Linked, Act;
    hide After, Fits, Capacity, Record;
    var s', q, ring, live := Next(s, a).state, s.q, s.ring, s.live;
    BlocksExist(q, ring, live);
    SizesFrame(q, a);
    ProducerMoves(q, a);
    if a.Producer? {
      PeaksGrow(s, a);
    }
    if s'.q.producer.PReadNext? && live + 1 == |ring| {
      FullWhenMoved(s, a, size);
    }
  }

  lemma KeepsSizes<T>(s: System<T>, a: Action<T>)
    requires Sizes(s.q) && Next(s, a).Ok?
    ensures Sizes(Next(s, a).state.q)
  {
    hide Act, Sizes, Record, Contents;
    SizesNext(s.q, a);
  }

  lemma FullSeenNext<T>(s: System<T>, a: Action<T>, size: nat)
    requires Inv(s) && Next(s, a).Ok? && Inv(Next(s, a).state)
    requires Sizes(s.q) && Fits(s, size) && FullSeen(s, size)
    ensures Sizes(Next(s, a).state.q) && FullSeen(Next(s, a).state, size)
  {
    hide Inv, Next, Sizes, Fits, FullSeen, Capacity;
    KeepsSizes(s, a);
    CapacityNext(s, a);
    if Next(s, a).state.q.producer == s.q.producer {
      FullSeenStill(s, a, size);
    } else {
      FullSeenMoved(s, a, size);
    }
  }

  lemma CapacityBound<T>(s: System<T>, a: Action<T>, size: nat, initial: nat)
    requires CapacityInv(s, size, initial) && Next(s, a).Ok? && Inv(Next(s, a).state)
    ensures var s' := Next(s, a).state;
      s'.q.maxBlockSize == s.q.maxBlockSize && Capacity(s') <= Max(initial, s'.log.peak + 2 * Most(s.q.maxBlockSize))
  {
    hide Inv, Fits, Act, Contents, Capacity;
    SizesFrame(s.q, a);
    CapacityNext(s, a);
  }

  lemma CapacityStep<T>(s: System<T>, a: Action<T>, size: nat, initial: nat)
    requires CapacityInv(s, size, initial)
    ensures Next(s, a).Ok? && CapacityInv(Next(s, a).state, size, initial)
  {
    hide Inv, Sizes, Fits, FullSeen, Next, Capacity;
    NextKeeps(s, a);
    KeepsSizes(s, a);
    FitsNext(s, a, size);
    FullSeenNext(s, a, size);
    CapacityBound(s, a, size, initial);
  }

  lemma {:induction false} UniformMasks<T>(blocks: seq<Block<T>>, ids: seq<nat>, mask: nat)
    requires forall i :: 0 <= i < |ids| ==> ids[i] < |blocks| && blocks[ids[i]].sizeMask == mask
    ensures Masks(blocks, ids) == |ids| * mask
  {
    if ids == [] {
    } else {
      UniformMasks(blocks, ids[1..], mask);
      DistributeSub(|ids|, 1, mask);
    }
  }

  lemma StartBlocks<T>(types: Types, size: nat, maxBlockSize: nat, unset: T)
    requires maxBlockSize >= 2
    ensures var s := Start(types, size, maxBlockSize, unset);
      && |s.ring| == |s.q.blocks| == InitialBlockCount(size, maxBlockSize)
      && forall i :: 0 <= i < |s.ring| ==>
           s.ring[i] == i && s.q.blocks[i].sizeMask == Decrement(InitialBlockSize(size, maxBlockSize))
  {
    hide InitialBlockSize, InitialBlockCount;
    var s := Start(types, size, maxBlockSize, unset);
    forall i | 0 <= i < |s.ring|
      ensures s.ring[i] == i && s.q.blocks[i].sizeMask == Decrement(InitialBlockSize(size, maxBlockSize))
    {
      var b := MakeBlock(types, InitialBlockSize(size, maxBlockSize), unset).(next := Wrap(i, |s.ring|));
      assert s.q.blocks[i] == b;
    }
  }

  lemma StartCapacity<T>(types: Types, size: nat, maxBlockSize: nat, unset: T)
    requires Constructible(types, size, maxBlockSize)
    ensures var s := Start(types, size, maxBlockSize, unset); CapacityInv(s, size, Capacity(s))
  {
    hide Inv, InitialBlockSize, InitialBlockCount;
    StartOk(types, size, maxBlockSize, unset);
    InitialSizes(size, maxBlockSize);
    var s := Start(types, size, maxBlockSize, unset);
    var mask := InitialBlockSize(size, maxBlockSize) - 1;
    StartBlocks(types, size, maxBlockSize, unset);
    UniformMasks(s.q.blocks, s.ring, mask);
    DistributeSub(|s.ring|, 1, mask);
    assert Fits(s, size);
    assert Sizes(s.q);
  }

  /** Room for `size` elements whichever block the consumer is in, and not much more: with a single block
      less than twice `size`; with several, which are taken only if one is not enough, less than `size`
      and two blocks more, which is again less than twice `size`. */
  ghost predicate JustEnough<T>(s: System<T>, size: nat, maxBlockSize: nat) {
    && size <= Capacity(s) < 2 * size
    && (|s.q.blocks| == 1 <==> size < 2 * maxBlockSize)
    && (|s.q.blocks| > 1 ==> size + (maxBlockSize - 1) <= Capacity(s) < size + 2 * (maxBlockSize - 1))
  }

  /** What the constructor allocates. */
  lemma InitialCapacity<T>(types: Types, size: nat, maxBlockSize: nat, unset: T)
    requires WellSized(size, maxBlockSize)
    ensures JustEnough(Start(types, size, maxBlockSize, unset), size, maxBlockSize)
  {
    hide InitialBlockSize, InitialBlockCount;
    InitialSizes(size, maxBlockSize);
    var s := Start(types, size, maxBlockSize, unset);
    var mask, count := InitialBlockSize(size, maxBlockSize) - 1, InitialBlockCount(size, maxBlockSize);
    StartBlocks(types, size, maxBlockSize, unset);
    UniformMasks(s.q.blocks, s.ring, mask);
    DistributeSub(count, 1, mask);
    if count > 1 {
      DistributeSub(count, 2, mask);
    }
  }

  // ----- Theorems over every run -----------------------------------------------------------------

  lemma StepCapacity<T>(s: System<T>, a: Action<T>, size: nat, initial: nat)
    requires CapacityInv(s, size, initial)
    ensures Next(s, a).Ok? && CapacityInv(Next(s, a).state, size, initial)
  {
    hide CapacityInv, Next;
    CapacityStep(s, a, size, initial);
  }

  lemma {:induction false} RunCapacity<T>(types: Types, size: nat, maxBlockSize: nat, unset: T, acts: seq<Action<T>>)
    requires Constructible(types, size, maxBlockSize)
    ensures var first := Start(types, size, maxBlockSize, unset);
      Run(first, acts).Ok? && CapacityInv(Run(first, acts).state, size, Capacity(first))
  {
    hide CapacityInv, Next, Start, Capacity;
    var first := Start(types, size, maxBlockSize, unset);
    if acts == [] {
      StartCapacity(types, size, maxBlockSize, unset);
    } else {
      var before, a := acts[..|acts| - 1], acts[|acts| - 1];
      RunCapacity(types, size, maxBlockSize, unset, before);
      StepCapacity(Run(first, before).state, a, size, Capacity(first));
    }
  }

  /** The constructor's promise, on every run and in both layouts: a `try_enqueue` that returns false
      was made while at least `size` elements were in the queue at some instant of the call. */
  lemma TryEnqueueFailsOnlyWhenFull<T>(types: Types, size: nat, maxBlockSize: nat, unset: T, acts: seq<Action<T>>)
    requires Constructible(types, size, maxBlockSize)
    ensures Run(Start(types, size, maxBlockSize, unset), acts).Ok?
    ensures var s := Run(Start(types, size, maxBlockSize, unset), acts).state;
      s.q.producer == PIdle(Full) ==> s.log.callPeak >= size
  {
    hide Start, Run, Inv;
    RunCapacity(types, size, maxBlockSize, unset, acts);
  }

  /** At no instant of the run did the queue hold more than `limit` elements. */
  ghost predicate NeverMoreThan<T>(s: System<T>, acts: seq<Action<T>>, limit: nat) {
    forall k: nat :: k <= |acts| && Run(s, acts[..k]).Ok? ==> |Holds(Run(s, acts[..k]).state)| <= limit
  }

  lemma PeakStep<T>(s: System<T>, a: Action<T>)
    requires Next(s, a).Ok?
    ensures Next(s, a).state.log.peak == Max(s.log.peak, |Holds(Next(s, a).state)|)
  {
    hide Act, Contents, Address;
  }

  lemma {:induction false} PeakBelow<T>(s: System<T>, acts: seq<Action<T>>, limit: nat)
    requires NeverMoreThan(s, acts, limit) && s.log.peak <= limit && Run(s, acts).Ok?
    ensures Run(s, acts).state.log.peak <= limit
  {
    hide Next, Holds;
    if acts == [] {
    } else {
      var before := acts[..|acts| - 1];
      assert forall k: nat :: k <= |before| ==> before[..k] == acts[..k];
      PeakBelow(s, before, limit);
      PeakStep(Run(s, before).state, acts[|acts| - 1]);
      assert acts[..|acts|] == acts;
    }
  }

  lemma {:induction false} MaxBlockSizeFixed<T>(types: Types, size: nat, maxBlockSize: nat, unset: T,
                                                acts: seq<Action<T>>)
    requires maxBlockSize >= 2
    ensures var o := Run(Start(types, size, maxBlockSize, unset), acts);
      o.Ok? ==> o.state.q.maxBlockSize == maxBlockSize
  {
    hide Act, Record, Contents;
    if acts == [] {
    } else {
      var before := acts[..|acts| - 1];
      MaxBlockSizeFixed(types, size, maxBlockSize, unset, before);
      if Run(Start(types, size, maxBlockSize, unset), acts).Ok? {
        SizesFrame(Run(Start(types, size, maxBlockSize, unset), before).state.q, acts[|acts| - 1]);
      }
    }
  }

  /** Blocks are never removed, yet if the queue never held more than `limit` elements, all blocks
      together have room for no more than the larger of the initial capacity, which is less than twice
      the `size` asked for, and `limit` plus two blocks of the greatest size. Every block is a power of
      two of at most `2 * MAX_BLOCK_SIZE`. */
  lemma MemoryBound<T>(types: Types, size: nat, maxBlockSize: nat, unset: T, acts: seq<Action<T>>, limit: nat)
    requires Constructible(types, size, maxBlockSize)
    requires NeverMoreThan(Start(types, size, maxBlockSize, unset), acts, limit)
    ensures Run(Start(types, size, maxBlockSize, unset), acts).Ok?
    ensures var first := Start(types, size, maxBlockSize, unset);
      var s := Run(first, acts).state;
      && Capacity(s) <= Max(Capacity(first), limit + 2 * (2 * maxBlockSize - 1))
                     <= Max(2 * size, limit + 2 * (2 * maxBlockSize - 1))
      && forall id :: 0 <= id < |s.q.blocks| ==>
           IsPow2(s.q.blocks[id].sizeMask + 1) && s.q.blocks[id].sizeMask + 1 <= 2 * maxBlockSize
  {
    RunCapacity(types, size, maxBlockSize, unset, acts);
    PeakBelow(Start(types, size, maxBlockSize, unset), acts, limit);
    InitialCapacity(types, size, maxBlockSize, unset);
    hide Start, Run, Capacity, NeverMoreThan;
    MaxBlockSizeFixed(types, size, maxBlockSize, unset, acts);
  }

  // ----- The same, as an instant of the call -------------------------------------------------------

  predicate ProducerCall<T>(s: System<T>, a: Action<T>) {
    (a.Enqueue? || a.TryEnqueue? || a.ProducerSize?) && s.q.producer.PIdle?
  }

  /** `acts` begins with a producer call, and no other producer call begins in it. */
  ghost predicate OneProducerCall<T>(s: System<T>, acts: seq<Action<T>>) {
    && |acts| > 0 && ProducerCall(s, acts[0])
    && forall k :: 1 <= k < |acts| && Run(s, acts[..k]).Ok? ==> !ProducerCall(Run(s, acts[..k]).state, acts[k])
  }

  ghost predicate LengthAfter<T>(s: System<T>, acts: seq<Action<T>>, k: nat, n: nat) {
    k <= |acts| && Run(s, acts[..k]).Ok? && |Holds(Run(s, acts[..k]).state)| >= n
  }

  lemma CallPeakStep<T>(s: System<T>, a: Action<T>, n: nat)
    requires Next(s, a).Ok? && Next(s, a).state.log.callPeak >= n
    ensures |Holds(Next(s, a).state)| >= n || (s.log.callPeak >= n && !ProducerCall(s, a))
  {
    hide Act, Contents, Address;
  }

  lemma OneProducerCallPrefix<T>(s: System<T>, acts: seq<Action<T>>)
    requires OneProducerCall(s, acts) && |acts| > 1
    ensures OneProducerCall(s, acts[..|acts| - 1])
  {
    hide Run, ProducerCall;
    var before := acts[..|acts| - 1];
    assert forall k :: 0 <= k <= |before| ==> before[..k] == acts[..k];
  }

  lemma {:induction false} CallPeakIsAnInstant<T>(s: System<T>, acts: seq<Action<T>>, n: nat)
    requires OneProducerCall(s, acts) && Run(s, acts).Ok? && Run(s, acts).state.log.callPeak >= n
    ensures exists k: nat :: 1 <= k <= |acts| && LengthAfter(s, acts, k, n)
  {
    hide Next, Holds, ProducerCall;
    var before := acts[..|acts| - 1];
    CallPeakStep(Run(s, before).state, acts[|acts| - 1], n);
    if |Holds(Run(s, acts).state)| >= n {
      assert acts[..|acts|] == acts;
      assert LengthAfter(s, acts, |acts|, n);
    } else {
      assert |acts| > 1;
      OneProducerCallPrefix(s, acts);
      CallPeakIsAnInstant(s, before, n);
      var k: nat :| 1 <= k <= |before| && LengthAfter(s, before, k, n);
      assert before[..k] == acts[..k];
      assert LengthAfter(s, acts, k, n);
    }
  }

  lemma {:induction false} RunOn<T>(s: System<T>, a: seq<Action<T>>, b: seq<Action<T>>)
    requires Run(s, a).Ok?
    ensures Run(s, a + b) == Run(Run(s, a).state, b)
  {
    hide Next;
    if b == [] {
      assert a + b == a;
    } else {
      var b' := b[..|b| - 1];
      assert (a + b)[..|a + b| - 1] == a + b';
      RunOn(s, a, b');
    }
  }

  /** A `try_enqueue` that returns false is right: at least `size` elements were in the queue at some
      instant during the call, although the answer rests on two loads made at different times. */
  lemma FullAnswerIsTrue<T>(types: Types, size: nat, maxBlockSize: nat, unset: T, past: seq<Action<T>>,
                            acts: seq<Action<T>>)
    requires Constructible(types, size, maxBlockSize)
    requires var first := Start(types, size, maxBlockSize, unset);
      && Run(first, past).Ok? && OneProducerCall(Run(first, past).state, acts)
      && Run(Run(first, past).state, acts).Ok? && Run(Run(first, past).state, acts).state.q.producer == PIdle(Full)
    ensures var s := Run(Start(types, size, maxBlockSize, unset), past).state;
      exists k: nat :: 1 <= k <= |acts| && LengthAfter(s, acts, k, size)
  {
    hide Start, OneProducerCall, Inv;
    var first := Start(types, size, maxBlockSize, unset);
    RunOn(first, past, acts);
    RunCapacity(types, size, maxBlockSize, unset, past + acts);
    CallPeakIsAnInstant(Run(first, past).state, acts, size);
  }
}
