/** `ReaderWriterQueue` as a transition system: one producer thread, one consumer thread, and one
    step for every load or store of a variable that the other thread writes.

    A thread's own variables cannot change under its feet, so it reads them in the step that uses
    them. Every load and store is taken to be sequentially consistent. */
module QueueSteps {
  import opened Allocation
  import opened Bits
  import opened Blocks

  datatype EnqueueResult = NotCalled | Accepted | Full | NoMemory | Counted(length: nat)

  datatype DequeueResult<T> =
    | NotCalled
    | Empty                          // try_dequeue or pop returned false, peek returned nullptr
    | Took(value: T)                 // try_dequeue returned true, pop returned true
    | Showed(block: nat, slot: nat)  // peek returned this address
    | Counted(length: nat)

  datatype Op = Dequeue | Peek

  /** Where the producer is in `inner_enqueue` or `size_approx`. */
  datatype Producer<T> =
    | PIdle(result: EnqueueResult)
    | PCheck(x: T, canAlloc: bool)        // lines 552-557, the test against localFront
    | PReadFront(x: T, canAlloc: bool)    // line 557, the test against front
    | PConstruct(x: T)                    // lines 560-565
    | PStoreTail(x: T)                    // line 568
    | PReadNext(x: T, canAlloc: bool)     // line 572
    | PReadNextFront(x: T, spare: nat)    // lines 581-589
    | PConstructNext(x: T, spare: nat)    // lines 591-596
    | PStoreNextTail(x: T, spare: nat)    // line 598
    | PAlloc(x: T)                        // lines 605-621
    | PLink(x: T, made: Block<T>)         // line 622
    | PStoreTailBlock(x: T, spare: nat)   // lines 601 and 631
    | PSizeStart                          // line 496
    | PSize(start: nat, block: nat, sum: nat)  // lines 500-504

  /** Where the consumer is in `try_dequeue`, `pop`, `peek` or `size_approx`. */
  datatype Consumer<T> =
    | CIdle(result: DequeueResult<T>)
    | CLook(op: Op)                       // lines 308-312, the test against localTail
    | CReadTail(op: Op)                   // line 312, the test against tail
    | CReadTailBlock(op: Op)              // line 326
    | CReReadTail(op: Op)                 // lines 329-334
    | CReadNext(op: Op)                   // line 340
    | CReadNextTail(op: Op, next: nat)    // lines 345-351
    | CStoreFrontBlock(next: nat)         // line 356
    | CTake                               // lines 317-319 and 360-363
    | CStoreFront(value: T)               // lines 324 and 368
    | CSize(start: nat, block: nat, sum: nat)      // lines 500-502
    | CSizeNext(start: nat, block: nat, sum: nat)  // lines 503-504

  datatype Queue<T> = Queue(
    blocks: seq<Block<T>>,
    frontBlock: nat,
    tailBlock: nat,
    largestBlockSize: nat,
    maxBlockSize: nat,
    types: Types,           // the layouts of `Block` and `T`
    unset: T,               // the bit pattern of fresh memory
    producer: Producer<T>,
    consumer: Consumer<T>)

  datatype Outcome<S> = Ok(state: S) | Fault(why: Failure)

  datatype Action<T> =
    | Enqueue(x: T)
    | TryEnqueue(x: T)
    | ProducerSize
    | TryDequeue            // `pop` takes the same steps and drops the value
    | Show
    | ConsumerSize
    | Producer(memory: bool)  // whether malloc succeeds if this step calls it
    | Consumer

  // ----- The producer ---------------------------------------------------------------------------

  predicate Exists<T>(q: Queue<T>, id: nat) {
    id < |q.blocks|
  }

  /** `make_block`. For size 0 the mask wraps; there are cells only where there is memory. */
  function MakeBlock<T>(types: Types, size: nat, unset: T): Block<T> {
    Block(0, 0, 0, 0, 0, Decrement(size), seq(BlockCells(types, size), _ => Cell(unset, false)))
  }

  function SetBlock<T>(q: Queue<T>, id: nat, b: Block<T>): Queue<T>
    requires id < |q.blocks|
  {
    q.(blocks := q.blocks[id := b])
  }

  function GrownSize<T>(q: Queue<T>): nat {
    if q.largestBlockSize >= q.maxBlockSize then q.largestBlockSize else q.largestBlockSize * 2
  }

  /** The block allocated at lines 606-621, before anyone else can reach it. */
  function FreshBlock<T>(q: Queue<T>, x: T, next: nat): Block<T>
    requires BlockCells(q.types, GrownSize(q)) >= 1
  {
    Constructed(MakeBlock(q.types, GrownSize(q), q.unset), x).(tail := 1, localTail := 1, next := next)
  }

  /** `(blockTail - blockFront) & sizeMask` on line 502. */
  function Count<T>(b: Block<T>): nat {
    if b.front < WORD then BitAnd(WrapSub(b.tail, b.front), b.sizeMask) else 0
  }

  function ProducerStep<T>(q: Queue<T>, memory: bool): Outcome<Queue<T>> {
    if !Exists(q, q.tailBlock) then Fault(BadPointer) else
    var tb := q.blocks[q.tailBlock];
    match q.producer
    case PIdle(_) => Ok(q)
    case PCheck(x, canAlloc) =>
      Ok(q.(producer := if After(tb.tail, tb.sizeMask) != tb.localFront then PConstruct(x)
                        else PReadFront(x, canAlloc)))
    case PReadFront(x, canAlloc) =>
      Ok(SetBlock(q, q.tailBlock, tb.(localFront := tb.front))
         .(producer := if After(tb.tail, tb.sizeMask) != tb.front then PConstruct(x)
                       else PReadNext(x, canAlloc)))
    case PConstruct(x) =>
      if tb.tail >= |tb.data| then Fault(BadPointer) else
      if tb.data[tb.tail].alive then Fault(ConstructedTwice) else
      Ok(SetBlock(q, q.tailBlock, Constructed(tb, x)).(producer := PStoreTail(x)))
    case PStoreTail(x) =>
      Ok(SetBlock(q, q.tailBlock, Published(tb)).(producer := PIdle(Accepted)))
    case PReadNext(x, canAlloc) =>
      Ok(q.(producer := if tb.next != q.frontBlock then PReadNextFront(x, tb.next)
                        else if canAlloc then PAlloc(x)
                        else PIdle(Full)))
    case PReadNextFront(x, spare) =>
      if !Exists(q, spare) then Fault(BadPointer) else
      if q.blocks[spare].front != q.blocks[spare].tail then Fault(AssertFailed) else
      Ok(SetBlock(q, spare, q.blocks[spare].(localFront := q.blocks[spare].front))
         .(producer := PConstructNext(x, spare)))
    case PConstructNext(x, spare) =>
      if !Exists(q, spare) || q.blocks[spare].tail >= |q.blocks[spare].data| then Fault(BadPointer) else
      if q.blocks[spare].data[q.blocks[spare].tail].alive then Fault(ConstructedTwice) else
      Ok(SetBlock(q, spare, Constructed(q.blocks[spare], x)).(producer := PStoreNextTail(x, spare)))
    case PStoreNextTail(x, spare) =>
      if !Exists(q, spare) then Fault(BadPointer) else
      Ok(SetBlock(q, spare, Published(q.blocks[spare])).(producer := PStoreTailBlock(x, spare)))
    case PAlloc(x) =>
      if !memory then Ok(q.(producer := PIdle(NoMemory))) else
      if BlockCells(q.types, GrownSize(q)) == 0 then Fault(BadPointer) else
      Ok(q.(largestBlockSize := GrownSize(q), producer := PLink(x, FreshBlock(q, x, tb.next))))
    case PLink(x, made) =>
      Ok(q.(blocks := q.blocks[q.tailBlock := tb.(next := |q.blocks|)] + [made],
            producer := PStoreTailBlock(x, |q.blocks|)))
    case PStoreTailBlock(x, spare) =>
      Ok(q.(tailBlock := spare, producer := PIdle(Accepted)))
    case PSizeStart =>
      Ok(q.(producer := PSize(q.frontBlock, q.frontBlock, 0)))
    case PSize(start, block, sum) =>
      if !Exists(q, block) then Fault(BadPointer) else
      var total := sum + Count(q.blocks[block]);
      Ok(q.(producer := if q.blocks[block].next == start then PIdle(EnqueueResult.Counted(total))
                        else PSize(start, q.blocks[block].next, total)))
  }

  // ----- The consumer ---------------------------------------------------------------------------

  /** The front block has an element: go and take it, or for `peek` return its address. */
  function Found<T>(q: Queue<T>, op: Op, id: nat, slot: nat): Consumer<T> {
    if op.Peek? then CIdle(Showed(id, slot)) else CTake
  }

  function ConsumerStep<T>(q: Queue<T>): Outcome<Queue<T>> {
    if !Exists(q, q.frontBlock) then Fault(BadPointer) else
    var fb := q.blocks[q.frontBlock];
    match q.consumer
    case CIdle(_) => Ok(q)
    case CLook(op) =>
      Ok(q.(consumer := if fb.front != fb.localTail then Found(q, op, q.frontBlock, fb.front)
                        else CReadTail(op)))
    case CReadTail(op) =>
      Ok(SetBlock(q, q.frontBlock, fb.(localTail := fb.tail))
         .(consumer := if fb.front != fb.tail then Found(q, op, q.frontBlock, fb.front)
                       else CReadTailBlock(op)))
    case CReadTailBlock(op) =>
      Ok(q.(consumer := if q.frontBlock != q.tailBlock then CReReadTail(op) else CIdle(Empty)))
    case CReReadTail(op) =>
      Ok(SetBlock(q, q.frontBlock, fb.(localTail := fb.tail))
         .(consumer := if fb.front != fb.tail then Found(q, op, q.frontBlock, fb.front)
                       else CReadNext(op)))
    case CReadNext(op) =>
      Ok(q.(consumer := CReadNextTail(op, fb.next)))
    case CReadNextTail(op, next) =>
      if !Exists(q, next) then Fault(BadPointer) else
      var nb := q.blocks[next];
      if nb.front == nb.tail then Fault(AssertFailed) else
      if op.Peek? then Ok(q.(consumer := CIdle(Showed(next, nb.front)))) else
      Ok(SetBlock(q, next, nb.(localTail := nb.tail)).(consumer := CStoreFrontBlock(next)))
    case CStoreFrontBlock(next) =>
      Ok(q.(frontBlock := next, consumer := CTake))
    case CTake =>
      if fb.front >= |fb.data| then Fault(BadPointer) else
      if !fb.data[fb.front].alive then Fault(DestroyedTwice) else
      Ok(SetBlock(q, q.frontBlock, Destroyed(fb)).(consumer := CStoreFront(fb.data[fb.front].value)))
    case CStoreFront(value) =>
      Ok(SetBlock(q, q.frontBlock, Released(fb)).(consumer := CIdle(Took(value))))
    case CSize(start, block, sum) =>
      if !Exists(q, block) then Fault(BadPointer) else
      Ok(q.(consumer := CSizeNext(start, block, sum + Count(q.blocks[block]))))
    case CSizeNext(start, block, sum) =>
      if !Exists(q, block) then Fault(BadPointer) else
      Ok(q.(consumer := if q.blocks[block].next == start then CIdle(DequeueResult.Counted(sum))
                        else CSize(start, q.blocks[block].next, sum)))
  }

  // ----- One step of the whole ------------------------------------------------------------------

  /** A call starts only when its thread has returned from the one before. */
  function Act<T>(q: Queue<T>, a: Action<T>): Outcome<Queue<T>> {
    match a
    case Enqueue(x) => Ok(if q.producer.PIdle? then q.(producer := PCheck(x, true)) else q)
    case TryEnqueue(x) => Ok(if q.producer.PIdle? then q.(producer := PCheck(x, false)) else q)
    case ProducerSize => Ok(if q.producer.PIdle? then q.(producer := PSizeStart) else q)
    case TryDequeue => Ok(if q.consumer.CIdle? then q.(consumer := CLook(Dequeue)) else q)
    case Show => Ok(if q.consumer.CIdle? then q.(consumer := CLook(Peek)) else q)
    case ConsumerSize =>
      Ok(if q.consumer.CIdle? then q.(consumer := CSize(q.frontBlock, q.frontBlock, 0)) else q)
    case Producer(memory) => ProducerStep(q, memory)
    case Consumer => ConsumerStep(q)
  }

  // ----- The constructor ------------------------------------------------------------------------

  /** Lines 116-124. */
  function InitialBlockSize(size: nat, maxBlockSize: nat): nat {
    var s := RoundedUp(Increment(size));
    if s > maxBlockSize * 2 then maxBlockSize else s
  }

  function BlockCountFor(size: nat, maxBlockSize: nat): nat
    requires maxBlockSize >= 2
  {
    (size + maxBlockSize * 2 - 3) / (maxBlockSize - 1)
  }

  function InitialBlockCount(size: nat, maxBlockSize: nat): nat
    requires maxBlockSize >= 2
  {
    if RoundedUp(Increment(size)) > maxBlockSize * 2 then BlockCountFor(size, maxBlockSize) else 1
  }

  /** The greatest size that a block of the queue can ever have. */
  function GreatestBlockSize(size: nat, maxBlockSize: nat): nat {
    Max(InitialBlockSize(size, maxBlockSize), maxBlockSize)
  }

  /** `MAX_BLOCK_SIZE` as the constructor's assertions demand it, twice that within a signed word, and a
      size that is neither 0 nor too large to be rounded up. */
  ghost predicate WellSized(size: nat, maxBlockSize: nat) {
    1 <= size < WORD / 2 && IsPow2(maxBlockSize) && 2 <= maxBlockSize <= WORD / 4
  }

  /** The arguments for which the constructor keeps its promises: the memory that is computed for a
      block does not wrap either. */
  ghost predicate Constructible(types: Types, size: nat, maxBlockSize: nat) {
    WellSized(size, maxBlockSize) && RoomFor(types, GreatestBlockSize(size, maxBlockSize))
  }

  /** `count` new blocks linked in a circle. */
  function RingOf<T>(types: Types, count: nat, size: nat, unset: T): seq<Block<T>> {
    seq(count, i requires 0 <= i < count => MakeBlock(types, size, unset).(next := if i + 1 == count then 0 else i + 1))
  }

  /** What the constructor leaves behind (lines 101-161). */
  function Init<T>(types: Types, size: nat, maxBlockSize: nat, unset: T): Queue<T>
    requires maxBlockSize >= 2
  {
    var s, count := InitialBlockSize(size, maxBlockSize), InitialBlockCount(size, maxBlockSize);
    Queue(RingOf(types, count, s, unset), 0, 0, s, maxBlockSize, types, unset,
          PIdle(EnqueueResult.NotCalled), CIdle(DequeueResult.NotCalled))
  }
}
