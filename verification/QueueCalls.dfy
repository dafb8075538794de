/** One call at a time: what the steps of the step system do while only one of the two threads is in a
    call. `QueueHeap` uses it to follow its own code. */
module QueueCalls {
  import opened Allocation
  import opened Bits
  import B = Blocks
  import opened BlockHeap
  import opened QueueSteps
  import opened QueueInvariant
  import QueueProducer
  import QueueConsumer
  import opened QueueRuns
  import opened QueueCapacity
  import opened QueueSize
  import Lifetime = QueueLifetime

  // ----- A run of the step system ------------------------------------------------------------------

  /** `w` is where the run `acts` of a newly constructed queue has got to. */
  ghost predicate Logged<T>(types: Types, size: nat, maxBlockSize: nat, unset: T, acts: seq<Action<T>>, w: Watched<T>) {
    && Constructible(types, size, maxBlockSize)
    && WatchRun(StartWatched(types, size, maxBlockSize, unset), acts) == Ok(w)
    && WatchInv(w)
    && CapacityInv(w.s, size, Capacity(Start(types, size, maxBlockSize, unset)))
  }

  lemma StartLogged<T>(types: Types, size: nat, maxBlockSize: nat, unset: T)
    requires Constructible(types, size, maxBlockSize)
    ensures Logged(types, size, maxBlockSize, unset, [], StartWatched(types, size, maxBlockSize, unset))
  {
    hide WatchInv, CapacityInv;
    StartWatchedOk(types, size, maxBlockSize, unset);
    StartCapacity(types, size, maxBlockSize, unset);
  }

  lemma RunOneMore<T>(w: Watched<T>, acts: seq<Action<T>>, a: Action<T>)
    requires WatchRun(w, acts).Ok?
    ensures WatchRun(w, acts + [a]) == Watch(WatchRun(w, acts).state, a)
  {
    hide Watch;
    assert (acts + [a])[..|acts|] == acts;
  }

  lemma StepContents<T>(w: Watched<T>, a: Action<T>)
    requires WatchInv(w) && Watch(w, a).Ok?
    ensures Holds(Watch(w, a).state.s) == NextContents(w.s.q, Holds(w.s), a)
  {
    hide Core, History, EmptySeen, PeekValid, Act, ConsumerWalk, ProducerWalk, Contents, Record;
    QueueConsumer.EveryStep(w.s.q, w.s.ring, w.s.live, a);
  }

  lemma StepLogged<T>(types: Types, size: nat, maxBlockSize: nat, unset: T, acts: seq<Action<T>>, w: Watched<T>,
                      a: Action<T>)
    requires Logged(types, size, maxBlockSize, unset, acts, w)
    ensures Watch(w, a).Ok? && Logged(types, size, maxBlockSize, unset, acts + [a], Watch(w, a).state)
    ensures var w' := Watch(w, a).state;
      && Act(w.s.q, a) == Ok(w'.s.q)
      && Holds(w'.s) == NextContents(w.s.q, Holds(w.s), a)
      && w'.s.log == Record(w.s, w'.s.q, |Holds(w'.s)|, a)
  {
    hide WatchInv, CapacityInv, Capacity, Start, WatchRun, Inv;
    StepWatched(w, a);
    StepCapacity(w.s, a, size, Capacity(Start(types, size, maxBlockSize, unset)));
    StepContents(w, a);
    RunOneMore(StartWatched(types, size, maxBlockSize, unset), acts, a);
  }

  lemma LoggedInv<T>(types: Types, size: nat, maxBlockSize: nat, unset: T, acts: seq<Action<T>>, w: Watched<T>)
    requires Logged(types, size, maxBlockSize, unset, acts, w)
    ensures WatchInv(w)
  {
    hide WatchInv, CapacityInv, WatchRun, StartWatched;
  }

  lemma StartCount(size: nat, maxBlockSize: nat)
    requires maxBlockSize >= 2
    ensures InitialBlockCount(size, maxBlockSize) >= 1
  {
    DivideUp(size, maxBlockSize - 1, BlockCountFor(size, maxBlockSize));
  }

  lemma StartsEmpty<T>(types: Types, size: nat, maxBlockSize: nat, unset: T)
    requires Constructible(types, size, maxBlockSize)
    ensures Holds(Start(types, size, maxBlockSize, unset)) == []
    ensures JustEnough(Start(types, size, maxBlockSize, unset), size, maxBlockSize)
  {
    InitialCapacity(types, size, maxBlockSize, unset);
    hide JustEnough;
    hide Init, Core, EmptySeen, PeekValid;
    StartOk(types, size, maxBlockSize, unset);
  }

  // ----- Consumer calls ----------------------------------------------------------------------------

  /** A consumer call between its steps: it began with the queue as it is now. */
  ghost predicate Looking<T>(w: Watched<T>) {
    w.s.q.producer.PIdle? && (w.s.log.wasEmpty <==> Holds(w.s) == [])
  }

  predicate IsConsumerCall<T>(a: Action<T>) {
    a.TryDequeue? || a.Show? || a.ConsumerSize?
  }

  lemma Untouched<T>(q: Queue<T>, c: seq<T>, a: Action<T>)
    requires if a.Consumer? then !q.consumer.CStoreFront? else IsConsumerCall(a)
    ensures NextContents(q, c, a) == c
    ensures Act(q, a).Ok? ==> Act(q, a).state.producer == q.producer
  {
    hide BitAnd, Count, B.After;
  }

  /** Only the store to `front` is more than looking. */
  lemma LooksOn<T>(w: Watched<T>, a: Action<T>)
    requires WatchInv(w) && Watch(w, a).Ok? && w.s.q.producer.PIdle?
    requires if a.Consumer? then Looking(w) && !w.s.q.consumer.CStoreFront?
             else IsConsumerCall(a) && w.s.q.consumer.CIdle?
    ensures var w' := Watch(w, a).state;
      && Looking(w') && Holds(w'.s) == Holds(w.s)
      && w'.s.q.blocks == Act(w.s.q, a).state.blocks && w'.s.q.producer == w.s.q.producer
      && (!w.s.q.consumer.CStoreFrontBlock? ==> w'.s.ring == w.s.ring)
      && w'.consumerEntry == (if a.ConsumerSize? then |Holds(w.s)| else w.consumerEntry)
  {
    hide WatchInv, B.After, Contents, NextContents, Address, Act;
    StepContents(w, a);
    Untouched(w.s.q, Holds(w.s), a);
  }

  /** The store to `front` removes the head, which was read before. */
  lemma HeadRemoved<T>(w: Watched<T>, x: T)
    requires WatchInv(w) && w.s.q.consumer == CStoreFront(x)
    ensures [x] + NextContents(w.s.q, Holds(w.s), Consumer) == Holds(w.s)
  {
    hide Linked, Healthy, Filled, ProducerKnows, History, EmptySeen, PeekValid, ConsumerWalk, ProducerWalk, Contents;
    QueueConsumer.StoreFront(w.s.q, w.s.ring, w.s.live);
    var c := Holds(w.s);
    assert c == [c[0]] + c[1..];
  }

  // ----- The consumer's steps, one by one ----------------------------------------------------------

  ghost predicate SamePointers<T>(q: Queue<T>, q': Queue<T>) {
    && q'.frontBlock == q.frontBlock && q'.tailBlock == q.tailBlock && q'.largestBlockSize == q.largestBlockSize
    && q'.maxBlockSize == q.maxBlockSize && q'.types == q.types && q'.unset == q.unset
  }

  lemma AtLook<T>(q: Queue<T>, q': Queue<T>, op: Op)
    requires Act(q, Consumer) == Ok(q') && q.consumer == CLook(op)
    ensures var f := q.frontBlock;
      && f < |q.blocks|
      && q' == q.(consumer := if q.blocks[f].front != q.blocks[f].localTail then Found(q, op, f, q.blocks[f].front)
                              else CReadTail(op))
  {
  }

  lemma AtReadTail<T>(q: Queue<T>, q': Queue<T>, op: Op)
    requires Act(q, Consumer) == Ok(q') && (q.consumer == CReadTail(op) || q.consumer == CReReadTail(op))
    ensures var f := q.frontBlock;
      && SamePointers(q, q') && f < |q.blocks|
      && q'.blocks == q.blocks[f := q.blocks[f].(localTail := q.blocks[f].tail)]
      && q'.consumer == if q.blocks[f].front != q.blocks[f].tail then Found(q, op, f, q.blocks[f].front)
                        else if q.consumer.CReadTail? then CReadTailBlock(op) else CReadNext(op)
  {
  }

  lemma AtReadTailBlock<T>(q: Queue<T>, q': Queue<T>, op: Op)
    requires Act(q, Consumer) == Ok(q') && q.consumer == CReadTailBlock(op)
    ensures q' == q.(consumer := if q.frontBlock != q.tailBlock then CReReadTail(op) else CIdle(Empty))
  {
  }

  lemma AtReadNext<T>(q: Queue<T>, q': Queue<T>, op: Op)
    requires Act(q, Consumer) == Ok(q') && q.consumer == CReadNext(op)
    ensures q.frontBlock < |q.blocks| && q' == q.(consumer := CReadNextTail(op, q.blocks[q.frontBlock].next))
  {
  }

  lemma AtReadNextTail<T>(q: Queue<T>, q': Queue<T>, op: Op)
    requires Act(q, Consumer) == Ok(q') && q.consumer.CReadNextTail? && q.consumer.op == op
    ensures var n := q.consumer.next;
      && n < |q.blocks| && q.blocks[n].front != q.blocks[n].tail && SamePointers(q, q')
      && if op.Peek? then q'.blocks == q.blocks && q'.consumer == CIdle(Showed(n, q.blocks[n].front))
         else q'.blocks == q.blocks[n := q.blocks[n].(localTail := q.blocks[n].tail)]
              && q'.consumer == CStoreFrontBlock(n)
  {
  }

  lemma AtStoreFrontBlock<T>(q: Queue<T>, q': Queue<T>)
    requires Act(q, Consumer) == Ok(q') && q.consumer.CStoreFrontBlock?
    ensures q' == q.(frontBlock := q.consumer.next, consumer := CTake)
  {
  }

  lemma AtTake<T>(q: Queue<T>, q': Queue<T>)
    requires Act(q, Consumer) == Ok(q') && q.consumer.CTake?
    ensures var f := q.frontBlock;
      && f < |q.blocks| && q.blocks[f].front < |q.blocks[f].data| && q.blocks[f].data[q.blocks[f].front].alive
      && q' == q.(blocks := q.blocks[f := B.Destroyed(q.blocks[f])],
                  consumer := CStoreFront(q.blocks[f].data[q.blocks[f].front].value))
  {
  }

  lemma AtStoreFront<T>(q: Queue<T>, q': Queue<T>)
    requires Act(q, Consumer) == Ok(q') && q.consumer.CStoreFront?
    ensures var f := q.frontBlock;
      && f < |q.blocks|
      && q' == q.(blocks := q.blocks[f := B.Released(q.blocks[f])], consumer := CIdle(Took(q.consumer.value)))
  {
  }

  lemma AtSize<T>(q: Queue<T>, q': Queue<T>)
    requires Act(q, Consumer) == Ok(q') && q.consumer.CSize?
    ensures var c := q.consumer;
      && c.block < |q.blocks|
      && q' == q.(consumer := CSizeNext(c.start, c.block, c.sum + Count(q.blocks[c.block])))
  {
    hide Count;
  }

  lemma AtSizeNext<T>(q: Queue<T>, q': Queue<T>)
    requires Act(q, Consumer) == Ok(q') && q.consumer.CSizeNext?
    ensures var c := q.consumer;
      && c.block < |q.blocks|
      && q' == q.(consumer := if q.blocks[c.block].next == c.start then CIdle(DequeueResult.Counted(c.sum))
                              else CSize(c.start, q.blocks[c.block].next, c.sum))
  {
  }

  // ----- Producer calls ----------------------------------------------------------------------------

  /** A producer call between its steps. */
  ghost predicate Adding<T>(w: Watched<T>) {
    w.s.q.consumer.CIdle? && w.s.log.callPeak == |Holds(w.s)|
  }

  predicate IsEnqueue<T>(a: Action<T>) {
    a.Enqueue? || a.TryEnqueue?
  }

  predicate Publishes<T>(q: Queue<T>) {
    q.producer.PStoreTail? || q.producer.PStoreTailBlock?
  }

  lemma NothingPublished<T>(q: Queue<T>, c: seq<T>, a: Action<T>)
    requires if a.Producer? then !Publishes(q) else IsEnqueue(a)
    ensures NextContents(q, c, a) == c
    ensures Act(q, a).Ok? ==> Act(q, a).state.consumer == q.consumer
  {
    hide BitAnd, Count, B.After, FreshBlock, GrownSize;
  }

  lemma AddsNothing<T>(w: Watched<T>, a: Action<T>)
    requires WatchInv(w) && Watch(w, a).Ok? && w.s.q.consumer.CIdle?
    requires if a.Producer? then Adding(w) && !Publishes(w.s.q) else IsEnqueue(a) && w.s.q.producer.PIdle?
    ensures var w' := Watch(w, a).state; Adding(w') && Holds(w'.s) == Holds(w.s)
  {
    hide WatchInv, B.After, Contents, NextContents, Address, Act;
    StepContents(w, a);
    NothingPublished(w.s.q, Holds(w.s), a);
  }

  // ----- The producer's steps, one by one ----------------------------------------------------------

  lemma AtCheck<T>(q: Queue<T>, q': Queue<T>)
    requires Act(q, Producer(true)) == Ok(q') && q.producer.PCheck?
    ensures var t, p := q.tailBlock, q.producer;
      && t < |q.blocks|
      && q' == q.(producer := if B.After(q.blocks[t].tail, q.blocks[t].sizeMask) != q.blocks[t].localFront
                              then PConstruct(p.x) else PReadFront(p.x, p.canAlloc))
  {
  }

  lemma AtReadFront<T>(q: Queue<T>, q': Queue<T>)
    requires Act(q, Producer(true)) == Ok(q') && q.producer.PReadFront?
    ensures var t, p := q.tailBlock, q.producer;
      && t < |q.blocks|
      && q' == q.(blocks := q.blocks[t := q.blocks[t].(localFront := q.blocks[t].front)],
                  producer := if B.After(q.blocks[t].tail, q.blocks[t].sizeMask) != q.blocks[t].front
                              then PConstruct(p.x) else PReadNext(p.x, p.canAlloc))
  {
  }

  lemma AtConstruct<T>(q: Queue<T>, q': Queue<T>)
    requires Act(q, Producer(true)) == Ok(q') && q.producer.PConstruct?
    ensures var t := q.tailBlock;
      && t < |q.blocks| && q.blocks[t].tail < |q.blocks[t].data| && !q.blocks[t].data[q.blocks[t].tail].alive
      && q' == q.(blocks := q.blocks[t := B.Constructed(q.blocks[t], q.producer.x)],
                  producer := PStoreTail(q.producer.x))
  {
  }

  lemma AtStoreTail<T>(q: Queue<T>, q': Queue<T>)
    requires Act(q, Producer(true)) == Ok(q') && q.producer.PStoreTail?
    ensures q.tailBlock < |q.blocks|
    ensures q' == q.(blocks := q.blocks[q.tailBlock := B.Published(q.blocks[q.tailBlock])], producer := PIdle(Accepted))
  {
  }

  lemma AtNext<T>(q: Queue<T>, q': Queue<T>)
    requires Act(q, Producer(true)) == Ok(q') && q.producer.PReadNext?
    ensures var t, p := q.tailBlock, q.producer;
      && t < |q.blocks|
      && q' == q.(producer := if q.blocks[t].next != q.frontBlock then PReadNextFront(p.x, q.blocks[t].next)
                              else if p.canAlloc then PAlloc(p.x) else PIdle(Full))
  {
  }

  lemma AtReadNextFront<T>(q: Queue<T>, q': Queue<T>)
    requires Act(q, Producer(true)) == Ok(q') && q.producer.PReadNextFront?
    ensures var n := q.producer.spare;
      && n < |q.blocks| && q.blocks[n].front == q.blocks[n].tail
      && q' == q.(blocks := q.blocks[n := q.blocks[n].(localFront := q.blocks[n].front)],
                  producer := PConstructNext(q.producer.x, n))
  {
  }

  lemma AtConstructNext<T>(q: Queue<T>, q': Queue<T>)
    requires Act(q, Producer(true)) == Ok(q') && q.producer.PConstructNext?
    ensures var n := q.producer.spare;
      && n < |q.blocks| && q.blocks[n].tail < |q.blocks[n].data| && !q.blocks[n].data[q.blocks[n].tail].alive
      && q' == q.(blocks := q.blocks[n := B.Constructed(q.blocks[n], q.producer.x)],
                  producer := PStoreNextTail(q.producer.x, n))
  {
  }

  lemma AtStoreNextTail<T>(q: Queue<T>, q': Queue<T>)
    requires Act(q, Producer(true)) == Ok(q') && q.producer.PStoreNextTail?
    ensures var n := q.producer.spare;
      && n < |q.blocks|
      && q' == q.(blocks := q.blocks[n := B.Published(q.blocks[n])], producer := PStoreTailBlock(q.producer.x, n))
  {
  }

  lemma AtAlloc<T>(q: Queue<T>, q': Queue<T>, memory: bool)
    requires Act(q, Producer(memory)) == Ok(q') && q.producer.PAlloc?
    ensures q.tailBlock < |q.blocks|
    ensures !memory ==> q' == q.(producer := PIdle(NoMemory))
    ensures memory ==>
      && BlockCells(q.types, GrownSize(q)) >= 1
      && q' == q.(largestBlockSize := GrownSize(q),
                  producer := PLink(q.producer.x, FreshBlock(q, q.producer.x, q.blocks[q.tailBlock].next)))
  {
    hide GrownSize, FreshBlock, BlockCells;
  }

  lemma AtLink<T>(q: Queue<T>, q': Queue<T>)
    requires Act(q, Producer(true)) == Ok(q') && q.producer.PLink?
    ensures var t := q.tailBlock;
      && t < |q.blocks|
      && q' == q.(blocks := q.blocks[t := q.blocks[t].(next := |q.blocks|)] + [q.producer.made],
                  producer := PStoreTailBlock(q.producer.x, |q.blocks|))
  {
  }

  lemma AtStoreTailBlock<T>(q: Queue<T>, q': Queue<T>)
    requires Act(q, Producer(true)) == Ok(q') && q.producer.PStoreTailBlock?
    ensures q' == q.(tailBlock := q.producer.spare, producer := PIdle(Accepted))
  {
  }

  // ----- Between the steps -------------------------------------------------------------------------

  /** The head of the queue is at `front` of the front block as soon as that shows an element. */
  lemma FrontHead<T>(w: Watched<T>)
    requires WatchInv(w) && w.s.q.frontBlock < |w.s.q.blocks|
    requires var b := w.s.q.blocks[w.s.q.frontBlock]; b.front != b.localTail
    ensures var b := w.s.q.blocks[w.s.q.frontBlock];
      b.front < |b.data| && |Holds(w.s)| > 0 && Holds(w.s)[0] == b.data[b.front].value
  {
    hide Linked, Healthy, Filled, ProducerKnows, ConsumerKnows, Contents, B.CellsOk, ConsumerWalk, ProducerWalk;
    hide History, EmptySeen, PeekValid;
    QueueProducer.BlocksExist(w.s.q, w.s.ring, w.s.live);
    HeadValue(w.s.q, w.s.ring, w.s.live, w.s.q.frontBlock, w.s.q.blocks[w.s.q.frontBlock].front);
  }

  /** Or else at `front` of the next block. */
  lemma NextHead<T>(w: Watched<T>)
    requires WatchInv(w) && w.s.q.consumer.CReadNextTail?
    ensures w.s.q.consumer.next < |w.s.q.blocks|
    ensures var b := w.s.q.blocks[w.s.q.consumer.next];
      b.front < |b.data| && |Holds(w.s)| > 0 && Holds(w.s)[0] == b.data[b.front].value
  {
    hide Linked, Healthy, Filled, ProducerKnows, Contents, B.Sound, B.CellsOk, ConsumerWalk, ProducerWalk;
    hide History, EmptySeen, PeekValid;
    QueueProducer.BlocksExist(w.s.q, w.s.ring, w.s.live);
    HeadValue(w.s.q, w.s.ring, w.s.live, w.s.q.consumer.next, w.s.q.blocks[w.s.q.consumer.next].front);
  }

  lemma NotEmptyRing<T>(w: Watched<T>)
    requires WatchInv(w)
    ensures |w.s.ring| > 0
  {
    hide Healthy, Filled, ProducerKnows, ConsumerKnows, ConsumerWalk, ProducerWalk, History, EmptySeen, PeekValid;
  }

  lemma NextInRing<T>(w: Watched<T>, p: nat)
    requires WatchInv(w) && p < |w.s.ring|
    ensures |w.s.ring| == |w.s.q.blocks| && w.s.ring[p] < |w.s.q.blocks|
    ensures var next, front := w.s.q.blocks[w.s.ring[p]].next, w.s.q.frontBlock;
      if p + 1 == |w.s.ring| then next == front else next == w.s.ring[p + 1] && next != front
    ensures w.s.ring[0] == w.s.q.frontBlock
  {
    hide Healthy, Filled, ProducerKnows, ConsumerKnows, ConsumerWalk, ProducerWalk, History, EmptySeen, PeekValid;
    WalkNext(w.s.q, w.s.ring, w.s.live, p);
  }

  lemma NarrowBlock<T>(w: Watched<T>, p: nat)
    requires WatchInv(w) && p < |w.s.ring|
    ensures var id := w.s.ring[p]; id < |w.s.q.blocks| && w.s.q.blocks[id].front < WORD
  {
    hide Linked, Healthy, Filled, ProducerKnows, ConsumerKnows, B.CellsOk, ConsumerWalk, ProducerWalk;
    hide History, EmptySeen, PeekValid;
    SoundBlock(w.s.q, w.s.ring, w.s.live, w.s.ring[p]);
  }

  /** Alone, the consumer's count is exact. */
  lemma ExactCount<T>(w: Watched<T>)
    requires WatchInv(w) && w.s.q.producer.PIdle? && w.s.q.consumer.CSizeNext? && w.consumerEntry == |Holds(w.s)|
    requires Act(w.s.q, Consumer).Ok? && Act(w.s.q, Consumer).state.consumer.CIdle?
    ensures var c := Act(w.s.q, Consumer).state.consumer; c.result.Counted? && c.result.length == |Holds(w.s)|
  {
    hide WatchInv, Act, Holds;
    ConsumerReturns(w);
  }

  lemma MasksUpTo<T>(blocks: seq<B.Block<T>>, ring: seq<nat>, p: nat)
    requires p < |ring|
    ensures Masks(blocks, ring[..p + 1]) == Masks(blocks, ring[..p]) + MaskOf(blocks, ring[p])
    ensures p + 1 == |ring| ==> ring[..p + 1] == ring
  {
    assert ring[..p + 1] == ring[..p] + [ring[p]];
    MasksConcat(blocks, ring[..p], [ring[p]]);
    assert Masks(blocks, [ring[p]]) == MaskOf(blocks, ring[p]) + Masks(blocks, []);
  }

  lemma NoMasks<T>(blocks: seq<B.Block<T>>, ring: seq<nat>)
    ensures Masks(blocks, ring[..0]) == 0
  {
  }

  /** At rest, every block is in order, and all that is in any block is what the queue holds. */
  lemma AtRest<T>(w: Watched<T>)
    requires WatchInv(w) && w.s.q.producer.PIdle? && w.s.q.consumer.CIdle?
    ensures Flat(w.s.q.blocks, w.s.ring) == Holds(w.s)
    ensures forall id :: 0 <= id < |w.s.q.blocks| ==> SoundAtRest(w.s.q.blocks[id])
  {
    hide Linked, Filled, ProducerKnows, ConsumerKnows, ConsumerWalk, ProducerWalk, History, EmptySeen, PeekValid;
    hide Contents, Flat, B.CellsOk;
    Lifetime.WholeRingIsContents(w.s.q, w.s.ring, w.s.live);
    assert forall id :: IsHole(w.s.q, id) == IsExtra(w.s.q, id) == false;
  }

  lemma WholeCircle<T>(w: Watched<T>)
    requires WatchInv(w)
    ensures Circle(w.s.q.blocks, w.s.ring) && w.s.ring[0] == w.s.q.frontBlock
  {
    hide Healthy, Filled, ProducerKnows, ConsumerKnows, ConsumerWalk, ProducerWalk, History, EmptySeen, PeekValid;
  }
}
