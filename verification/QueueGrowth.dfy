/** Blocks are never freed, but because each new one is at most twice as large as the largest before it, the
    memory stays proportional to the greatest length the queue has had, however large `MAX_BLOCK_SIZE` is. */
module QueueGrowth {
  import opened Allocation
  import opened Bits
  import opened Blocks
  import opened QueueSteps
  import opened QueueInvariant
  import opened QueueProducer
  import opened QueueConsumer
  import opened QueueRuns
  import opened QueueCapacity

  /** Whichever block the consumer is in, the others have room for half a block of the largest size. Between
      its allocation and its link the largest block is not there yet. */
  ghost predicate Doubling<T>(s: System<T>) {
    var n := s.q.largestBlockSize;
    && n >= 2
    && if s.q.producer.PLink? then 2 * (Capacity(s) + 1) >= n
       else Capacity(s) + 1 >= n && Fits(s, n / 2 - 1)
  }

  /** While a block is being added, the length that makes it necessary has been reached. */
  ghost predicate Needed<T>(s: System<T>) {
    var n, peak := s.q.largestBlockSize, s.log.peak;
    && ((s.q.producer.PReadNext? && s.live + 1 == |s.ring|) || s.q.producer.PAlloc? ==>
          n <= 2 * peak + 3 && Capacity(s) <= 3 * peak + 2)
    && (s.q.producer.PLink? ==> n <= 4 * peak + 6 && Capacity(s) <= 3 * peak + 2)
  }

  ghost predicate GrowthInv<T>(s: System<T>, size: nat, initial: nat) {
    && CapacityInv(s, size, initial)
    && Doubling(s) && Needed(s)
    && Capacity(s) <= Max(initial, 7 * (s.log.peak + 1))
  }

  /** Only an allocation makes the largest size larger, and at most doubles it. */
  lemma LargestNext<T>(q: Queue<T>, a: Action<T>)
    requires Act(q, a).Ok?
    ensures var q' := Act(q, a).state;
      && q.largestBlockSize <= q'.largestBlockSize <= 2 * q.largestBlockSize
      && (q'.producer.PLink? ==>
            || (a.Producer? && q.producer.PAlloc?)
            || (q'.producer == q.producer && q'.largestBlockSize == q.largestBlockSize))
      && (!q'.producer.PLink? ==> q'.largestBlockSize == q.largestBlockSize)
  {
    hide After, Count, FreshBlock, BlockCells;
  }

  lemma FitsNewBlock<T>(s: System<T>, s': System<T>, n: nat)
    requires s.live < |s.ring|
    requires s'.ring == s.ring[..s.live + 1] + [|s.q.blocks|] + s.ring[s.live + 1..]
    requires forall i :: 0 <= i < |s.ring| ==> MaskOf(s'.q.blocks, s.ring[i]) == MaskOf(s.q.blocks, s.ring[i])
    requires Capacity(s') == Capacity(s) + MaskOf(s'.q.blocks, |s.q.blocks|)
    requires Capacity(s) >= n && MaskOf(s'.q.blocks, |s.q.blocks|) >= n
    ensures Fits(s', n)
  {
    hide MaskOf, Masks;
    forall i | 0 <= i < |s'.ring| ensures Capacity(s') - MaskOf(s'.q.blocks, s'.ring[i]) >= n {
      InsertedAt(s.ring, s'.ring, s.live, |s.q.blocks|);
      if i != s.live + 1 {
        var j := if i <= s.live then i else i - 1;
        assert s'.ring[i] == s.ring[j];
        MaskWithin(s.q.blocks, s.ring, j);
      }
    }
  }

  lemma DoublingLinked<T>(s: System<T>, a: Action<T>)
    requires Inv(s) && Next(s, a).Ok? && Sizes(s.q) && Doubling(s) && Links(s, a)
    requires Capacity(Next(s, a).state) == Capacity(s) + s.q.producer.made.sizeMask
    ensures Doubling(Next(s, a).state)
  {
    hide Healthy, Filled, ProducerKnows, ConsumerKnows, Contents, History, EmptySeen, PeekValid, Record, Linked, Act;
    hide Fits, Capacity;
    var s' := Next(s, a).state;
    BlocksExist(s.q, s.ring, s.live);
    SizesFrame(s.q, a);
    MadeLinked(s, a);
    FitsNewBlock(s, s', s.q.largestBlockSize / 2 - 1);
  }

  lemma StillLinking<T>(q: Queue<T>, a: Action<T>)
    requires q.producer.PLink? && !a.Producer? && Act(q, a).Ok?
    ensures Act(q, a).state.producer == q.producer
  {
    hide After, Count;
  }

  lemma DoublingNext<T>(s: System<T>, a: Action<T>)
    requires Inv(s) && Next(s, a).Ok? && Inv(Next(s, a).state) && Sizes(s.q) && Doubling(s)
    ensures Doubling(Next(s, a).state)
  {
    hide Inv, Act, Record, Contents, Fits, Capacity, Sizes;
    CapacityNext(s, a);
    LargestNext(s.q, a);
    if Links(s, a) {
      DoublingLinked(s, a);
    } else if !s.q.producer.PLink? {
      FitsNext(s, a, s.q.largestBlockSize / 2 - 1);
    } else {
      StillLinking(s.q, a);
    }
  }

  lemma SameLargest<T>(q: Queue<T>, a: Action<T>)
    requires Act(q, a).Ok? && Act(q, a).state.producer == q.producer
    ensures Act(q, a).state.largestBlockSize == q.largestBlockSize
  {
    hide After, Count, FreshBlock, BlockCells;
  }

  lemma NeededStill<T>(s: System<T>, a: Action<T>)
    requires Inv(s) && Next(s, a).Ok? && Needed(s) && Next(s, a).state.q.producer == s.q.producer
    requires Capacity(Next(s, a).state) == Capacity(s) + if Links(s, a) then s.q.producer.made.sizeMask else 0
    ensures Needed(Next(s, a).state)
  {
    hide Inv, Contents, Act, Capacity, Record;
    LargestNext(s.q, a);
    RingLength(s);
    ProducerStays(s.q, a);
    RingStill(s, a);
    PeakGrows(s, a);
    SameLargest(s.q, a);
  }

  lemma NeededMoved<T>(s: System<T>, a: Action<T>)
    requires Inv(s) && Next(s, a).Ok? && Sizes(s.q) && Doubling(s) && Needed(s)
    requires Next(s, a).state.q.producer != s.q.producer
    requires Capacity(Next(s, a).state) == Capacity(s) + if Links(s, a) then s.q.producer.made.sizeMask else 0
    ensures Needed(Next(s, a).state)
  {
    hide Healthy, Filled, ProducerKnows, ConsumerKnows, Contents, History, EmptySeen, PeekValid, Linked, Act;
    hide After, Fits, Capacity, Record, Sizes;
    var s' := Next(s, a).state;
    BlocksExist(s.q, s.ring, s.live);
    ProducerMoves(s.q, a);
    LargestNext(s.q, a);
    if a.Producer? {
      PeaksGrow(s, a);
    }
    if s'.q.producer.PReadNext? && s.live + 1 == |s.ring| {
      FullWhenMoved(s, a, s.q.largestBlockSize / 2 - 1);
    }
  }

  lemma MadeIsLargest<T>(q: Queue<T>)
    requires Sizes(q) && q.producer.PLink?
    ensures q.producer.made.sizeMask + 1 == q.largestBlockSize
  {
  }

  lemma GrowthStep<T>(s: System<T>, a: Action<T>, size: nat, initial: nat)
    requires GrowthInv(s, size, initial)
    ensures Next(s, a).Ok? && GrowthInv(Next(s, a).state, size, initial)
  {
    hide Inv, Sizes, Fits, FullSeen, Next, Capacity, Doubling;
    StepCapacity(s, a, size, initial);
    CapacityNext(s, a);
    PeakGrows(s, a);
    DoublingNext(s, a);
    if Next(s, a).state.q.producer == s.q.producer {
      NeededStill(s, a);
    } else {
      NeededMoved(s, a);
    }
    if Links(s, a) {
      MadeIsLargest(s.q);
    }
  }

  lemma StartGrowth<T>(types: Types, size: nat, maxBlockSize: nat, unset: T)
    requires Constructible(types, size, maxBlockSize)
    ensures var s := Start(types, size, maxBlockSize, unset); GrowthInv(s, size, Capacity(s))
  {
    hide Inv, InitialBlockSize, InitialBlockCount;
    StartCapacity(types, size, maxBlockSize, unset);
    InitialSizes(size, maxBlockSize);
    var s := Start(types, size, maxBlockSize, unset);
    var mask := InitialBlockSize(size, maxBlockSize) - 1;
    StartBlocks(types, size, maxBlockSize, unset);
    UniformMasks(s.q.blocks, s.ring, mask);
    DistributeSub(|s.ring|, 1, mask);
    MulAtLeast(|s.ring|, mask);
    if |s.ring| > 1 {
      MulAtLeast(|s.ring| - 1, mask);
    }
  }

  lemma StepGrowth<T>(s: System<T>, a: Action<T>, size: nat, initial: nat)
    requires GrowthInv(s, size, initial)
    ensures Next(s, a).Ok? && GrowthInv(Next(s, a).state, size, initial)
  {
    hide GrowthInv, Next;
    GrowthStep(s, a, size, initial);
  }

  lemma {:induction false} RunGrowth<T>(types: Types, size: nat, maxBlockSize: nat, unset: T, acts: seq<Action<T>>)
    requires Constructible(types, size, maxBlockSize)
    ensures var first := Start(types, size, maxBlockSize, unset);
      Run(first, acts).Ok? && GrowthInv(Run(first, acts).state, size, Capacity(first))
  {
    hide GrowthInv, Next, Start, Capacity;
    var first := Start(types, size, maxBlockSize, unset);
    if acts == [] {
      StartGrowth(types, size, maxBlockSize, unset);
    } else {
      var before, a := acts[..|acts| - 1], acts[|acts| - 1];
      RunGrowth(types, size, maxBlockSize, unset, before);
      StepGrowth(Run(first, before).state, a, size, Capacity(first));
    }
  }

  /** If the queue never held more than `limit` elements, all blocks together have room for no more than
      twice the `size` it was constructed for, or seven times `limit + 1`: memory is proportional to the
      greatest length, and `MAX_BLOCK_SIZE` does not come into it. */
  lemma MemoryIsProportional<T>(types: Types, size: nat, maxBlockSize: nat, unset: T, acts: seq<Action<T>>, limit: nat)
    requires Constructible(types, size, maxBlockSize)
    requires NeverMoreThan(Start(types, size, maxBlockSize, unset), acts, limit)
    ensures Run(Start(types, size, maxBlockSize, unset), acts).Ok?
    ensures Capacity(Run(Start(types, size, maxBlockSize, unset), acts).state) <= Max(2 * size, 7 * (limit + 1))
  {
    RunGrowth(types, size, maxBlockSize, unset, acts);
    PeakBelow(Start(types, size, maxBlockSize, unset), acts, limit);
    hide Start, Run, NeverMoreThan, CapacityInv, Doubling, Needed;
    InitialCapacity(types, size, maxBlockSize, unset);
  }
}
