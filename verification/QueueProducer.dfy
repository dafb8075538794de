/** Every step of the producer keeps the protocol invariant. */
module QueueProducer {
  import opened Allocation
  import opened Bits
  import opened Blocks
  import opened QueueSteps
  import opened QueueInvariant

  /** The front and tail blocks, and the spare block ahead of the tail, are there. */
  lemma BlocksExist<T>(q: Queue<T>, ring: seq<nat>, live: nat)
    requires Linked(q.blocks, q.frontBlock, q.tailBlock, ring, live) && Healthy(q)
    ensures live < |ring| == |q.blocks| && ring[0] == q.frontBlock && ring[live] == q.tailBlock
    ensures Valid(q, q.tailBlock) && Valid(q, q.frontBlock)
    ensures Sound(q.blocks[q.tailBlock]) && Sound(q.blocks[q.frontBlock])
    ensures CellsOk(q.blocks[q.tailBlock], IsHole(q, q.tailBlock), IsExtra(q, q.tailBlock))
    ensures CellsOk(q.blocks[q.frontBlock], IsHole(q, q.frontBlock), IsExtra(q, q.frontBlock))
    ensures forall i :: 0 <= i < |ring| ==> Valid(q, ring[i])
    ensures live == 0 <==> q.tailBlock == q.frontBlock
    ensures forall i :: 0 < i < |ring| ==> ring[i] != q.frontBlock
    ensures forall i :: 0 <= i < |ring| && i != live ==> ring[i] != q.tailBlock
    ensures q.blocks[q.tailBlock].next == ring[Wrap(live, |ring|)]
  {
  }

  /** Steps that only move the program counter. */
  lemma OnlyCounterMoves<T>(q: Queue<T>, q': Queue<T>, ring: seq<nat>, live: nat)
    requires Core(q, ring, live)
    requires q' == q.(producer := q'.producer, largestBlockSize := q'.largestBlockSize)
    requires IsPow2(q'.largestBlockSize) && q'.largestBlockSize >= 2 && RoomFor(q.types, q'.largestBlockSize)
    requires forall id :: 0 <= id < |q.blocks| ==> IsExtra(q, id) == IsExtra(q', id)
    requires !q.producer.PStoreTailBlock? && !q'.producer.PStoreTailBlock?
    ensures Linked(q'.blocks, q'.frontBlock, q'.tailBlock, ring, live) && Healthy(q')
    ensures Filled(q', ring, live) && ConsumerKnows(q', ring, live)
    ensures ProducerKnows(q', ring, live) ==> Core(q', ring, live)
  {
    assert forall id :: 0 <= id < |q.blocks| ==> IsHole(q, id) == IsHole(q', id);
    assert Healthy(q');
  }

  lemma ReplacedHealthyByProducer<T>(q: Queue<T>, q': Queue<T>, id: nat)
    requires Healthy(q) && Replaces(q, q', id) && q' == q.(blocks := q'.blocks, producer := q'.producer)
    requires Sound(q'.blocks[id]) && CellsOk(q'.blocks[id], IsHole(q', id), IsExtra(q', id))
    requires forall other :: 0 <= other < |q.blocks| && other != id ==> IsExtra(q, other) == IsExtra(q', other)
    ensures Healthy(q')
  {
    assert forall other :: 0 <= other < |q.blocks| ==> IsHole(q, other) == IsHole(q', other);
    ReplacedHealthy(q, q', id);
  }

  lemma KeepsConsumer<T>(q: Queue<T>, q': Queue<T>, id: nat, ring: seq<nat>, live: nat)
    requires Linked(q.blocks, q.frontBlock, q.tailBlock, ring, live) && Healthy(q)
    requires Linked(q'.blocks, q'.frontBlock, q'.tailBlock, ring, live) && Healthy(q')
    requires ConsumerKnows(q, ring, live) && Replaces(q, q', id)
    requires q' == q.(blocks := q'.blocks, producer := q'.producer)
    requires q'.blocks[id].front == q.blocks[id].front && q'.blocks[id].localTail == q.blocks[id].localTail
    requires id == q.frontBlock && live > 0 ==> Len(q'.blocks[id]) == Len(q.blocks[id])
    requires id == q.frontBlock && q.consumer.CStoreFront? ==>
      q'.blocks[id].data[q.blocks[id].front].value == q.blocks[id].data[q.blocks[id].front].value
    ensures ConsumerKnows(q', ring, live)
  {
    hide Linked, Healthy, CellsOk, Sound;
    BlocksExist(q, ring, live);
    BlocksExist(q', ring, live);
  }

  /** A write of the producer to one block disturbs nothing the consumer relies on. */
  lemma ProducerWrites<T>(q: Queue<T>, q': Queue<T>, id: nat, ring: seq<nat>, live: nat)
    requires Core(q, ring, live) && Replaces(q, q', id) && q' == q.(blocks := q'.blocks, producer := q'.producer)
    requires Valid(q, id)
    requires Sound(q'.blocks[id]) && CellsOk(q'.blocks[id], IsHole(q', id), IsExtra(q', id))
    requires forall other :: 0 <= other < |q.blocks| && other != id ==> IsExtra(q, other) == IsExtra(q', other)
    requires q'.blocks[id].front == q.blocks[id].front && q'.blocks[id].localTail == q.blocks[id].localTail
    requires id == q.frontBlock && live > 0 ==> Len(q'.blocks[id]) == Len(q.blocks[id])
    requires id == q.frontBlock && q.consumer.CStoreFront? ==>
      q'.blocks[id].data[q.blocks[id].front].value == q.blocks[id].data[q.blocks[id].front].value
    ensures Linked(q'.blocks, q'.frontBlock, q'.tailBlock, ring, live) && Healthy(q')
    ensures ConsumerKnows(q', ring, live)
    ensures Filled(q', ring, live) && ProducerKnows(q', ring, live) ==> Core(q', ring, live)
  {
    hide Filled, ProducerKnows, Sound, CellsOk;
    ReplacedLinked(q, q', id, ring, live);
    ReplacedHealthyByProducer(q, q', id);
    BlocksExist(q, ring, live);
    KeepsConsumer(q, q', id, ring, live);
  }

  /** A write that leaves all lengths alone. */
  lemma SameLengths<T>(q: Queue<T>, q': Queue<T>, id: nat, ring: seq<nat>, live: nat)
    requires Core(q, ring, live) && Replaces(q, q', id) && Valid(q, id)
    requires Linked(q'.blocks, q'.frontBlock, q'.tailBlock, ring, live) && Healthy(q')
    requires Len(q'.blocks[id]) == Len(q.blocks[id])
    requires q.producer.PStoreTailBlock? == q'.producer.PStoreTailBlock?
    ensures Filled(q', ring, live)
    ensures TailFull(q, ring, live) ==> TailFull(q', ring, live)
  {
    hide ProducerKnows, ConsumerKnows, CellsOk, Linked, Healthy, Sound;
    BlocksExist(q, ring, live);
    BlocksExist(q', ring, live);
    assert forall i :: 0 <= i < |ring| ==> Len(q'.blocks[ring[i]]) == Len(q.blocks[ring[i]]);
  }

  // ----- inner_enqueue, first half: room in the tail block ----------------------------------------

  lemma Check<T>(q: Queue<T>, ring: seq<nat>, live: nat, memory: bool)
    requires Core(q, ring, live) && q.producer.PCheck?
    ensures StepOk(q, ring, live, Producer(memory))
  {
    hide Healthy, Linked, Filled, ConsumerKnows, Contents;
    BlocksExist(q, ring, live);
    OnlyCounterMoves(q, Act(q, Producer(memory)).state, ring, live);
  }

  /** `CellsOk` looks at `front`, `tail` and the cells only. */
  lemma SameCells<T>(b: Block<T>, c: Block<T>, hole: bool, extra: bool)
    requires Indexed(b) && CellsOk(b, hole, extra)
    requires c == b.(localFront := c.localFront, localTail := c.localTail) && Indexed(c)
    ensures CellsOk(c, hole, extra)
  {
  }

  lemma ReadFront<T>(q: Queue<T>, ring: seq<nat>, live: nat, memory: bool)
    requires Core(q, ring, live) && q.producer.PReadFront?
    ensures StepOk(q, ring, live, Producer(memory))
  {
    hide Healthy, Linked, Filled, ConsumerKnows, Contents, Sound, CellsOk;
    BlocksExist(q, ring, live);
    var q' := Act(q, Producer(memory)).state;
    var b, id := q.blocks[q.tailBlock], q.tailBlock;
    RefreshedOk(b);
    RoomTest(b);
    SameCells(b, q'.blocks[id], IsHole(q, id), IsExtra(q, id));
    ProducerWrites(q, q', id, ring, live);
    SameLengths(q, q', id, ring, live);
    ReplacedContents(q, q', id, ring, live);
  }

  lemma HoleIsBehind<T>(q: Queue<T>, ring: seq<nat>, live: nat)
    requires Core(q, ring, live) && q.consumer.CStoreFront?
    ensures Valid(q, q.frontBlock) && Len(q.blocks[q.frontBlock]) > 0
    ensures q.blocks[q.frontBlock].front != q.blocks[q.frontBlock].tail
  {
    hide Linked, Healthy, Filled, ProducerKnows, CellsOk;
    BlocksExist(q, ring, live);
  }

  lemma Construct<T>(q: Queue<T>, ring: seq<nat>, live: nat, memory: bool)
    requires Core(q, ring, live) && q.producer.PConstruct?
    ensures StepOk(q, ring, live, Producer(memory))
  {
    hide Healthy, Linked, Filled, ConsumerKnows, Contents, Sound, CellsOk;
    BlocksExist(q, ring, live);
    var b, id := q.blocks[q.tailBlock], q.tailBlock;
    ConstructedOk(b, q.producer.x, IsHole(q, id));
    var q' := Act(q, Producer(memory)).state;
    if q.consumer.CStoreFront? {
      HoleIsBehind(q, ring, live);
    }
    ProducerWrites(q, q', id, ring, live);
    SameLengths(q, q', id, ring, live);
    ReplacedContents(q, q', id, ring, live);
  }

  lemma GrownTailContents<T>(q: Queue<T>, q': Queue<T>, ring: seq<nat>, live: nat)
    requires Linked(q.blocks, q.frontBlock, q.tailBlock, ring, live) && Healthy(q)
    requires Linked(q'.blocks, q'.frontBlock, q'.tailBlock, ring, live) && Healthy(q')
    requires Replaces(q, q', q.tailBlock) && q.producer.PStoreTail?
    requires Items(q'.blocks[q.tailBlock]) == Items(q.blocks[q.tailBlock]) + [q.producer.x]
    ensures Contents(q'.blocks, ring, live) == Contents(q.blocks, ring, live) + [q.producer.x]
  {
    hide Linked, Healthy, Contents, Items;
    BlocksExist(q, ring, live);
    BlocksExist(q', ring, live);
    ContentsSplit(q.blocks, ring, live);
    ContentsSplit(q'.blocks, ring, live);
    FlatFrame(q.blocks, q'.blocks, ring[..live]);
    Associate(Flat(q.blocks, ring[..live]), Items(q.blocks[q.tailBlock]), [q.producer.x]);
  }

  lemma GrownTail<T>(q: Queue<T>, q': Queue<T>, ring: seq<nat>, live: nat)
    requires Core(q, ring, live) && Replaces(q, q', q.tailBlock) && q.producer.PStoreTail? && q'.producer.PIdle?
    requires Linked(q'.blocks, q'.frontBlock, q'.tailBlock, ring, live) && Healthy(q')
    requires Len(q'.blocks[q.tailBlock]) == Len(q.blocks[q.tailBlock]) + 1
    requires Items(q'.blocks[q.tailBlock]) == Items(q.blocks[q.tailBlock]) + [q.producer.x]
    ensures Filled(q', ring, live)
    ensures Contents(q'.blocks, ring, live) == Contents(q.blocks, ring, live) + [q.producer.x]
  {
    hide ProducerKnows, ConsumerKnows, CellsOk, Contents, Sound;
    GrownTailContents(q, q', ring, live);
  }

  lemma StoreTail<T>(q: Queue<T>, ring: seq<nat>, live: nat, memory: bool)
    requires Core(q, ring, live) && q.producer.PStoreTail?
    ensures StepOk(q, ring, live, Producer(memory))
  {
    hide Healthy, Linked, Filled, ConsumerKnows, Contents, Sound, CellsOk;
    BlocksExist(q, ring, live);
    var b, id := q.blocks[q.tailBlock], q.tailBlock;
    if q.consumer.CStoreFront? {
      HoleIsBehind(q, ring, live);
    }
    PublishedOk(b, IsHole(q, id));
    var q' := Act(q, Producer(memory)).state;
    ProducerWrites(q, q', id, ring, live);
    GrownTail(q, q', ring, live);
  }

  // ----- inner_enqueue, second half: on to the next block -----------------------------------------

  /** A step that changes no block and moves no block pointer. */
  lemma StaysPut<T>(q: Queue<T>, q': Queue<T>, ring: seq<nat>, live: nat, a: Action<T>)
    requires Act(q, a) == Ok(q') && Core(q', ring, live) && q'.blocks == q.blocks && live < |ring|
    requires a.Producer? ==>
      !q.producer.PLink? && !q.producer.PStoreTailBlock? && !q.producer.PStoreTail?
    requires !a.Consumer?
    ensures StepOk(q, ring, live, a)
  {
    hide Core, Act, Contents;
  }

  lemma ReadNextKnows<T>(q: Queue<T>, q': Queue<T>, ring: seq<nat>, live: nat)
    requires Linked(q.blocks, q.frontBlock, q.tailBlock, ring, live) && Healthy(q) && ProducerKnows(q, ring, live)
    requires Linked(q'.blocks, q'.frontBlock, q'.tailBlock, ring, live) && Healthy(q')
    requires q.producer.PReadNext? && q' == q.(producer := q'.producer)
    requires var x, next := q.producer.x, q.blocks[q.tailBlock].next;
      q'.producer == if next != q.frontBlock then PReadNextFront(x, next)
                     else if q.producer.canAlloc then PAlloc(x) else PIdle(Full)
    ensures ProducerKnows(q', ring, live)
  {
    hide Healthy, Linked, Sound, CellsOk;
    BlocksExist(q, ring, live);
  }

  lemma ReadNextAct<T>(q: Queue<T>, memory: bool)
    requires Valid(q, q.tailBlock) && q.producer.PReadNext?
    ensures var x, next := q.producer.x, q.blocks[q.tailBlock].next;
      Act(q, Producer(memory)) == Ok(q.(producer := if next != q.frontBlock then PReadNextFront(x, next)
                                                    else if q.producer.canAlloc then PAlloc(x) else PIdle(Full)))
  {
  }

  lemma ReadNext<T>(q: Queue<T>, ring: seq<nat>, live: nat, memory: bool)
    requires Core(q, ring, live) && q.producer.PReadNext?
    ensures StepOk(q, ring, live, Producer(memory))
  {
    hide Healthy, Linked, Filled, ProducerKnows, ConsumerKnows, Contents, Sound, CellsOk, Act, StepOk;
    BlocksExist(q, ring, live);
    ReadNextAct(q, memory);
    var q' := Act(q, Producer(memory)).state;
    OnlyCounterMoves(q, q', ring, live);
    ReadNextKnows(q, q', ring, live);
    StaysPut(q, q', ring, live, Producer(memory));
  }

  lemma SpareExists<T>(q: Queue<T>, ring: seq<nat>, live: nat, spare: nat)
    requires Core(q, ring, live) && Spare(q, ring, live, spare)
    ensures Valid(q, spare) && Sound(q.blocks[spare])
    ensures CellsOk(q.blocks[spare], IsHole(q, spare), IsExtra(q, spare))
    ensures spare != q.frontBlock && spare != q.tailBlock && !IsHole(q, spare)
    ensures !q.producer.PStoreTailBlock? ==> Len(q.blocks[spare]) == 0
    ensures forall i :: 0 <= i <= live && i < |ring| ==> ring[i] != spare
  {
    hide ProducerKnows, ConsumerKnows, CellsOk;
    BlocksExist(q, ring, live);
  }

  lemma EmptyHasRoom<T>(b: Block<T>)
    requires Sound(b) && b.front == b.tail == b.localFront
    ensures Room(b)
  {
    AfterIs(b);
  }

  lemma ReadNextFront<T>(q: Queue<T>, ring: seq<nat>, live: nat, memory: bool)
    requires Core(q, ring, live) && q.producer.PReadNextFront?
    ensures StepOk(q, ring, live, Producer(memory))
  {
    hide Healthy, Linked, Filled, ConsumerKnows, Contents, CellsOk, Sound;
    BlocksExist(q, ring, live);
    var id := q.producer.spare;
    SpareExists(q, ring, live, id);
    var b := q.blocks[id];
    var q' := Act(q, Producer(memory)).state;
    RefreshedOk(b);
    EmptyHasRoom(q'.blocks[id]);
    SameCells(b, q'.blocks[id], IsHole(q, id), IsExtra(q, id));
    ProducerWrites(q, q', id, ring, live);
    SameLengths(q, q', id, ring, live);
    ReplacedContents(q, q', id, ring, live);
  }

  lemma ConstructNext<T>(q: Queue<T>, ring: seq<nat>, live: nat, memory: bool)
    requires Core(q, ring, live) && q.producer.PConstructNext?
    ensures StepOk(q, ring, live, Producer(memory))
  {
    hide Healthy, Linked, Filled, ConsumerKnows, Contents, CellsOk, Sound;
    BlocksExist(q, ring, live);
    var id := q.producer.spare;
    SpareExists(q, ring, live, id);
    ConstructedOk(q.blocks[id], q.producer.x, false);
    var q' := Act(q, Producer(memory)).state;
    ProducerWrites(q, q', id, ring, live);
    SameLengths(q, q', id, ring, live);
    ReplacedContents(q, q', id, ring, live);
  }

  lemma OthersKept<T>(q: Queue<T>, q': Queue<T>, ring: seq<nat>, live: nat, k: nat)
    requires Linked(q.blocks, q.frontBlock, q.tailBlock, ring, live) && k < |ring| && Replaces(q, q', ring[k])
    ensures forall i :: 0 <= i < |ring| && i != k ==> ring[i] < |q.blocks| && q'.blocks[ring[i]] == q.blocks[ring[i]]
  {
  }

  lemma SpareFilled<T>(q: Queue<T>, q': Queue<T>, ring: seq<nat>, live: nat)
    requires Core(q, ring, live) && q.producer.PStoreNextTail? && Replaces(q, q', q.producer.spare)
    requires Linked(q'.blocks, q'.frontBlock, q'.tailBlock, ring, live) && Healthy(q')
    requires q'.producer == PStoreTailBlock(q.producer.x, q.producer.spare)
    requires Len(q'.blocks[q.producer.spare]) == 1
    ensures Filled(q', ring, live)
    ensures Spare(q', ring, live, q.producer.spare)
  {
    hide ConsumerKnows, CellsOk, Sound, Linked, Healthy;
    SpareExists(q, ring, live, q.producer.spare);
    BlocksExist(q, ring, live);
    BlocksExist(q', ring, live);
    OthersKept(q, q', ring, live, live + 1);
  }

  lemma StoreNextTail<T>(q: Queue<T>, ring: seq<nat>, live: nat, memory: bool)
    requires Core(q, ring, live) && q.producer.PStoreNextTail?
    ensures StepOk(q, ring, live, Producer(memory))
  {
    hide Healthy, Linked, Filled, ConsumerKnows, Contents, CellsOk, Sound;
    BlocksExist(q, ring, live);
    var id := q.producer.spare;
    SpareExists(q, ring, live, id);
    var b := q.blocks[id];
    PublishedOk(b, false);
    var q' := Act(q, Producer(memory)).state;
    assert Items(q'.blocks[id]) == [q.producer.x];
    ProducerWrites(q, q', id, ring, live);
    SpareFilled(q, q', ring, live);
    ReplacedContents(q, q', id, ring, live);
  }

  lemma MovedTailContents<T>(q: Queue<T>, ring: seq<nat>, live: nat)
    requires Core(q, ring, live) && q.producer.PStoreTailBlock?
    ensures Contents(q.blocks, ring, live + 1) == Contents(q.blocks, ring, live) + [q.producer.x]
  {
    hide Healthy, Linked, Filled, ConsumerKnows, CellsOk, Sound, Items, Flat;
    BlocksExist(q, ring, live);
    SpareExists(q, ring, live, q.producer.spare);
    ContentsSplit(q.blocks, ring, live + 1);
  }

  lemma StoreTailBlockAct<T>(q: Queue<T>, memory: bool)
    requires Valid(q, q.tailBlock) && q.producer.PStoreTailBlock?
    ensures Act(q, Producer(memory)) == Ok(q.(tailBlock := q.producer.spare, producer := PIdle(Accepted)))
  {
  }

  lemma MovedTailLinked<T>(q: Queue<T>, q': Queue<T>, ring: seq<nat>, live: nat)
    requires Core(q, ring, live) && q.producer.PStoreTailBlock?
    requires q' == q.(tailBlock := q.producer.spare, producer := q'.producer)
    ensures Linked(q'.blocks, q'.frontBlock, q'.tailBlock, ring, live + 1)
  {
    hide CellsOk, Sound, Filled, ConsumerKnows;
  }

  lemma SpareKnown<T>(q: Queue<T>, ring: seq<nat>, live: nat)
    requires Core(q, ring, live) && q.producer.PStoreTailBlock?
    ensures Spare(q, ring, live, q.producer.spare)
  {
    hide Filled, ConsumerKnows, Linked, Healthy;
  }

  lemma MovedTailFilled<T>(q: Queue<T>, q': Queue<T>, ring: seq<nat>, live: nat)
    requires Core(q, ring, live) && q.producer.PStoreTailBlock? && q'.producer.PIdle?
    requires q' == q.(tailBlock := q.producer.spare, producer := q'.producer)
    requires Linked(q'.blocks, q'.frontBlock, q'.tailBlock, ring, live + 1) && Healthy(q')
    ensures Filled(q', ring, live + 1)
  {
    hide Healthy, Linked, ConsumerKnows, CellsOk, Sound, ProducerKnows;
    SpareKnown(q, ring, live);
    BlocksExist(q, ring, live);
    BlocksExist(q', ring, live + 1);
    assert Len(q.blocks[ring[live + 1]]) == 1;
    assert forall i :: 0 < i < live + 1 ==> IsFull(q.blocks[ring[i]]);
  }

  lemma MovedTailConsumer<T>(q: Queue<T>, q': Queue<T>, ring: seq<nat>, live: nat)
    requires Core(q, ring, live)
    requires q' == q.(tailBlock := q'.tailBlock, producer := q'.producer)
    requires Linked(q'.blocks, q'.frontBlock, q'.tailBlock, ring, live + 1) && Healthy(q')
    ensures ConsumerKnows(q', ring, live + 1)
  {
    hide Linked, Healthy, CellsOk, Sound, Filled, ProducerKnows;
    BlocksExist(q, ring, live);
    BlocksExist(q', ring, live + 1);
  }

  lemma MovedTail<T>(q: Queue<T>, q': Queue<T>, ring: seq<nat>, live: nat)
    requires Core(q, ring, live) && q.producer.PStoreTailBlock? && q'.producer.PIdle?
    requires q' == q.(tailBlock := q.producer.spare, producer := q'.producer)
    ensures Linked(q'.blocks, q'.frontBlock, q'.tailBlock, ring, live + 1) && Healthy(q')
    ensures Filled(q', ring, live + 1) && ConsumerKnows(q', ring, live + 1)
  {
    hide CellsOk, Sound;
    assert forall id :: 0 <= id < |q.blocks| ==> IsHole(q, id) == IsHole(q', id) && IsExtra(q, id) == IsExtra(q', id);
    MovedTailLinked(q, q', ring, live);
    MovedTailFilled(q, q', ring, live);
    MovedTailConsumer(q, q', ring, live);
  }

  lemma StoreTailBlock<T>(q: Queue<T>, ring: seq<nat>, live: nat, memory: bool)
    requires Core(q, ring, live) && q.producer.PStoreTailBlock?
    ensures StepOk(q, ring, live, Producer(memory))
  {
    hide Healthy, Linked, Filled, ConsumerKnows, CellsOk, Sound, Act, Contents;
    BlocksExist(q, ring, live);
    var q' := q.(tailBlock := q.producer.spare, producer := PIdle(Accepted));
    StoreTailBlockAct(q, memory);
    MovedTail(q, q', ring, live);
    MovedTailContents(q, ring, live);
  }

  // ----- inner_enqueue, second half: a new block ---------------------------------------------------

  lemma FreshBlockOk<T>(q: Queue<T>, x: T, next: nat)
    requires IsPow2(q.largestBlockSize) && q.largestBlockSize >= 2 && IsPow2(q.maxBlockSize)
    requires RoomFor(q.types, q.largestBlockSize) && RoomFor(q.types, q.maxBlockSize)
    ensures IsPow2(GrownSize(q)) && GrownSize(q) >= 2 && RoomFor(q.types, GrownSize(q))
    ensures BlockCells(q.types, GrownSize(q)) == GrownSize(q)
    ensures var b := FreshBlock(q, x, next);
      Sound(b) && CellsOk(b, false, false) && Items(b) == [x] && b.next == next
  {
    hide BlockCells;
    if q.largestBlockSize < q.maxBlockSize {
      DoubledPow2(q.largestBlockSize, q.maxBlockSize);
    }
    hide GrownSize, IsPow2;
    var b := FreshBlock(q, x, next);
    assert Items(b) == [x];
  }

  lemma Alloc<T>(q: Queue<T>, ring: seq<nat>, live: nat, memory: bool)
    requires Core(q, ring, live) && q.producer.PAlloc?
    ensures StepOk(q, ring, live, Producer(memory))
  {
    hide Healthy, Linked, Filled, ConsumerKnows, Contents, CellsOk, Sound;
    hide GrownSize, FreshBlock, IsPow2, RoomFor, BlockCells;
    BlocksExist(q, ring, live);
    FreshBlockOk(q, q.producer.x, q.blocks[q.tailBlock].next);
    OnlyCounterMoves(q, Act(q, Producer(memory)).state, ring, live);
  }

  lemma MadeOk<T>(q: Queue<T>, ring: seq<nat>, live: nat)
    requires Core(q, ring, live) && q.producer.PLink?
    ensures var made := q.producer.made;
      && TailFull(q, ring, live) && q.tailBlock < |q.blocks|
      && made.next == q.blocks[q.tailBlock].next
      && Sound(made) && CellsOk(made, false, false) && Items(made) == [q.producer.x]
  {
    hide Filled, ConsumerKnows;
  }

  ghost predicate Inserts<T>(q: Queue<T>, q': Queue<T>, ring: seq<nat>, ring': seq<nat>, live: nat) {
    && q.producer.PLink? && q.tailBlock < |q.blocks| && live < |ring|
    && q' == q.(blocks := q.blocks[q.tailBlock := q.blocks[q.tailBlock].(next := |q.blocks|)] + [q.producer.made],
                producer := PStoreTailBlock(q.producer.x, |q.blocks|))
    && ring' == ring[..live + 1] + [|q.blocks|] + ring[live + 1..]
  }

  lemma InsertedHealthy<T>(q: Queue<T>, q': Queue<T>, ring: seq<nat>, live: nat)
    requires Healthy(q) && q.producer.PLink? && q.tailBlock < |q.blocks| && q.frontBlock < |q.blocks|
    requires Sound(q.producer.made) && CellsOk(q.producer.made, false, false)
    requires q'.blocks == q.blocks[q.tailBlock := q.blocks[q.tailBlock].(next := |q.blocks|)] + [q.producer.made]
    requires q' == q.(blocks := q'.blocks, producer := PStoreTailBlock(q.producer.x, |q.blocks|))
    ensures Healthy(q')
  {
    forall id | 0 <= id < |q'.blocks|
      ensures Sound(q'.blocks[id]) && CellsOk(q'.blocks[id], IsHole(q', id), IsExtra(q', id))
    {
      if id < |q.blocks| {
        assert CellsOk(q.blocks[id], IsHole(q, id), IsExtra(q, id));
      }
    }
  }

  lemma InsertedAt(ring: seq<nat>, ring': seq<nat>, live: nat, made: nat)
    requires live < |ring| && ring' == ring[..live + 1] + [made] + ring[live + 1..]
    ensures |ring'| == |ring| + 1
    ensures forall i :: 0 <= i < |ring'| ==>
      ring'[i] == if i <= live then ring[i] else if i == live + 1 then made else ring[i - 1]
  {
  }

  lemma InsertedDistinct(ring: seq<nat>, ring': seq<nat>, live: nat, made: nat)
    requires live < |ring| && ring' == ring[..live + 1] + [made] + ring[live + 1..]
    requires forall i :: 0 <= i < |ring| ==> ring[i] < made
    requires forall i, j :: 0 <= i < j < |ring| ==> ring[i] != ring[j]
    ensures forall i :: 0 <= i < |ring'| ==> ring'[i] <= made
    ensures forall i, j :: 0 <= i < j < |ring'| ==> ring'[i] != ring'[j]
  {
    InsertedAt(ring, ring', live, made);
  }

  lemma InsertedCovers(ring: seq<nat>, ring': seq<nat>, live: nat, made: nat, id: nat)
    requires live < |ring| && ring' == ring[..live + 1] + [made] + ring[live + 1..]
    requires id in ring || id == made
    ensures id in ring'
  {
    InsertedAt(ring, ring', live, made);
    if id == made {
      assert ring'[live + 1] == id;
    } else {
      var i :| 0 <= i < |ring| && ring[i] == id;
      assert ring'[if i <= live then i else i + 1] == id;
    }
  }

  lemma LinkedAt<T>(q: Queue<T>, ring: seq<nat>, live: nat, i: nat)
    requires Linked(q.blocks, q.frontBlock, q.tailBlock, ring, live) && i < |ring|
    ensures |ring| == |q.blocks| && ring[i] < |q.blocks| && q.blocks[ring[i]].next == ring[Wrap(i, |ring|)]
    ensures live < |ring| && ring[live] == q.tailBlock && (i != live ==> ring[i] != q.tailBlock)
  {
  }

  lemma InsertedNext<T>(q: Queue<T>, q': Queue<T>, ring: seq<nat>, ring': seq<nat>, live: nat, i: nat)
    requires Linked(q.blocks, q.frontBlock, q.tailBlock, ring, live) && Inserts(q, q', ring, ring', live)
    requires q.producer.made.next == q.blocks[q.tailBlock].next
    requires i < |ring'|
    ensures ring'[i] < |q'.blocks| && q'.blocks[ring'[i]].next == ring'[Wrap(i, |ring'|)]
  {
    hide Linked;
    InsertedAt(ring, ring', live, |q.blocks|);
    LinkedAt(q, ring, live, if i <= live then i else i - 1);
    if i == live {
    } else if i == live + 1 {
    } else {
      var j := if i < live then i else i - 1;
      assert ring'[i] == ring[j] != q.tailBlock;
    }
  }

  lemma InsertedLinked<T>(q: Queue<T>, q': Queue<T>, ring: seq<nat>, ring': seq<nat>, live: nat)
    requires Linked(q.blocks, q.frontBlock, q.tailBlock, ring, live) && Inserts(q, q', ring, ring', live)
    requires q.producer.made.next == q.blocks[q.tailBlock].next
    ensures Linked(q'.blocks, q'.frontBlock, q'.tailBlock, ring', live)
  {
    InsertedAt(ring, ring', live, |q.blocks|);
    InsertedDistinct(ring, ring', live, |q.blocks|);
    forall id: nat | id < |q'.blocks| ensures id in ring' {
      InsertedCovers(ring, ring', live, |q.blocks|, id);
    }
    forall i | 0 <= i < |ring'| ensures q'.blocks[ring'[i]].next == ring'[Wrap(i, |ring'|)] {
      InsertedNext(q, q', ring, ring', live, i);
    }
  }

  lemma Inserted<T>(q: Queue<T>, q': Queue<T>, ring: seq<nat>, ring': seq<nat>, live: nat)
    requires Linked(q.blocks, q.frontBlock, q.tailBlock, ring, live) && Healthy(q) && Inserts(q, q', ring, ring', live)
    requires var made := q.producer.made;
      Sound(made) && CellsOk(made, false, false) && made.next == q.blocks[q.tailBlock].next
    ensures Linked(q'.blocks, q'.frontBlock, q'.tailBlock, ring', live) && Healthy(q')
  {
    hide Sound, CellsOk;
    InsertedLinked(q, q', ring, ring', live);
    InsertedHealthy(q, q', ring, live);
  }

  lemma InsertedFilled<T>(q: Queue<T>, q': Queue<T>, ring: seq<nat>, ring': seq<nat>, live: nat)
    requires Core(q, ring, live) && Inserts(q, q', ring, ring', live)
    requires Linked(q'.blocks, q'.frontBlock, q'.tailBlock, ring', live) && Healthy(q')
    requires Items(q.producer.made) == [q.producer.x]
    ensures Filled(q', ring', live)
  {
    hide Healthy, Linked, Sound, CellsOk, ConsumerKnows, ProducerKnows, Items;
    BlocksExist(q, ring, live);
    BlocksExist(q', ring', live);
    InsertedAt(ring, ring', live, |q.blocks|);
    assert ring'[live + 1] == |q.blocks|;
    assert |Items(q'.blocks[|q.blocks|])| == 1;
    assert forall i :: 0 <= i < |ring| ==> Len(q'.blocks[ring[i]]) == Len(q.blocks[ring[i]]);
  }

  lemma InsertedConsumer<T>(q: Queue<T>, q': Queue<T>, ring: seq<nat>, ring': seq<nat>, live: nat)
    requires Core(q, ring, live) && Inserts(q, q', ring, ring', live)
    requires Linked(q'.blocks, q'.frontBlock, q'.tailBlock, ring', live) && Healthy(q')
    ensures ConsumerKnows(q', ring', live)
  {
    hide Healthy, Linked, Sound, CellsOk, ProducerKnows, Filled;
    BlocksExist(q, ring, live);
    BlocksExist(q', ring', live);
    InsertedAt(ring, ring', live, |q.blocks|);
  }

  lemma InsertedSpare<T>(q: Queue<T>, q': Queue<T>, ring: seq<nat>, ring': seq<nat>, live: nat)
    requires Core(q, ring, live) && Inserts(q, q', ring, ring', live)
    requires Linked(q'.blocks, q'.frontBlock, q'.tailBlock, ring', live) && Healthy(q')
    requires TailFull(q, ring, live) && Items(q.producer.made) == [q.producer.x]
    ensures ProducerKnows(q', ring', live)
  {
    hide Healthy, Linked, Sound, CellsOk, ConsumerKnows, Filled;
    BlocksExist(q, ring, live);
    BlocksExist(q', ring', live);
    InsertedAt(ring, ring', live, |q.blocks|);
  }

  lemma InsertedKnows<T>(q: Queue<T>, q': Queue<T>, ring: seq<nat>, ring': seq<nat>, live: nat)
    requires Core(q, ring, live) && Inserts(q, q', ring, ring', live)
    requires Linked(q'.blocks, q'.frontBlock, q'.tailBlock, ring', live) && Healthy(q')
    requires TailFull(q, ring, live) && Items(q.producer.made) == [q.producer.x]
    ensures Filled(q', ring', live) && ProducerKnows(q', ring', live) && ConsumerKnows(q', ring', live)
  {
    hide Sound, CellsOk;
    InsertedFilled(q, q', ring, ring', live);
    InsertedConsumer(q, q', ring, ring', live);
    InsertedSpare(q, q', ring, ring', live);
  }

  lemma InsertedContents<T>(q: Queue<T>, q': Queue<T>, ring: seq<nat>, ring': seq<nat>, live: nat)
    requires Linked(q.blocks, q.frontBlock, q.tailBlock, ring, live) && Healthy(q) && Inserts(q, q', ring, ring', live)
    requires ring'[..live + 1] == ring[..live + 1]
    ensures Contents(q'.blocks, ring', live) == Contents(q.blocks, ring, live)
  {
    hide CellsOk;
    BlocksExist(q, ring, live);
    var t := q.blocks[q.tailBlock];
    assert Items(t) == Items(t.(next := |q.blocks|));
    FlatFrame(q.blocks, q'.blocks, ring[..live + 1]);
  }

  lemma Link<T>(q: Queue<T>, ring: seq<nat>, live: nat, memory: bool)
    requires Core(q, ring, live) && q.producer.PLink?
    ensures StepOk(q, ring, live, Producer(memory))
  {
    hide Healthy, Linked, Filled, ConsumerKnows, Contents, CellsOk, Sound, ProducerKnows;
    BlocksExist(q, ring, live);
    MadeOk(q, ring, live);
    var q' := Act(q, Producer(memory)).state;
    var ring' := NextRing(q, ring, live, Producer(memory));
    Inserted(q, q', ring, ring', live);
    InsertedKnows(q, q', ring, ring', live);
    assert ring'[..live + 1] == ring[..live + 1];
    InsertedContents(q, q', ring, ring', live);
  }

  // ----- size_approx, and starting a call ----------------------------------------------------------

  /** Following `next` from any block leads to a block. */
  lemma NextExists<T>(q: Queue<T>, ring: seq<nat>, live: nat, id: nat)
    requires Linked(q.blocks, q.frontBlock, q.tailBlock, ring, live) && Healthy(q) && id < |q.blocks|
    ensures Valid(q, id) && q.blocks[id].next < |q.blocks|
  {
    assert id in ring;
    var i :| 0 <= i < |ring| && ring[i] == id;
    assert q.blocks[ring[i]].next == ring[Wrap(i, |ring|)];
  }

  lemma SizeKnows<T>(q: Queue<T>, ring: seq<nat>, live: nat)
    requires Core(q, ring, live) && q.producer.PSize?
    ensures q.producer.start < |q.blocks| && q.producer.block < |q.blocks|
    ensures Valid(q, q.producer.block) && q.blocks[q.producer.block].next < |q.blocks|
  {
    hide Healthy, Linked, Filled, ConsumerKnows, Sound, CellsOk;
    NextExists(q, ring, live, q.producer.block);
  }

  lemma SizeAct<T>(q: Queue<T>, memory: bool)
    requires Valid(q, q.tailBlock) && Valid(q, q.frontBlock)
    requires q.producer.PSizeStart? || q.producer.PIdle? || (q.producer.PSize? && Valid(q, q.producer.block))
    ensures Act(q, Producer(memory)).Ok?
    ensures var q', p := Act(q, Producer(memory)).state, Act(q, Producer(memory)).state.producer;
      && q' == q.(producer := p)
      && match q.producer
         case PSizeStart => p == PSize(q.frontBlock, q.frontBlock, 0)
         case PSize(start, block, _) => p.PIdle? || (p.PSize? && p.start == start && p.block == q.blocks[block].next)
         case _ => p == q.producer
  {
    hide Count;
  }

  lemma SizeKnowsStill<T>(q: Queue<T>, q': Queue<T>, ring: seq<nat>, live: nat)
    requires Linked(q'.blocks, q'.frontBlock, q'.tailBlock, ring, live) && Healthy(q')
    requires q' == q.(producer := q'.producer)
    requires q'.producer.PIdle? ||
      (q'.producer.PSize? && q'.producer.start < |q.blocks| && q'.producer.block < |q.blocks|)
    ensures ProducerKnows(q', ring, live)
  {
    hide Linked, Healthy;
  }

  lemma SizeSteps<T>(q: Queue<T>, ring: seq<nat>, live: nat, memory: bool)
    requires Core(q, ring, live) && (q.producer.PSizeStart? || q.producer.PSize? || q.producer.PIdle?)
    ensures StepOk(q, ring, live, Producer(memory))
  {
    hide Healthy, Linked, Filled, ProducerKnows, ConsumerKnows, Contents, Sound, CellsOk, Count, StepOk, Act;
    BlocksExist(q, ring, live);
    if q.producer.PSize? {
      SizeKnows(q, ring, live);
    }
    SizeAct(q, memory);
    var q' := Act(q, Producer(memory)).state;
    OnlyCounterMoves(q, q', ring, live);
    SizeKnowsStill(q, q', ring, live);
    StaysPut(q, q', ring, live, Producer(memory));
  }

  lemma SizeStepAct<T>(q: Queue<T>, memory: bool)
    requires Valid(q, q.tailBlock) && q.producer.PSize? && Valid(q, q.producer.block)
    ensures var p := q.producer;
      var total, next := p.sum + Count(q.blocks[p.block]), q.blocks[p.block].next;
      Act(q, Producer(memory)) == Ok(q.(producer := if next == p.start then PIdle(EnqueueResult.Counted(total))
                                                    else PSize(p.start, next, total)))
  {
    hide Count;
  }

  lemma Starts<T>(q: Queue<T>, ring: seq<nat>, live: nat, a: Action<T>)
    requires Core(q, ring, live) && (a.Enqueue? || a.TryEnqueue? || a.ProducerSize?)
    ensures StepOk(q, ring, live, a)
  {
    hide Healthy, Linked, Filled, ConsumerKnows, Contents, Sound, CellsOk;
    BlocksExist(q, ring, live);
    if q.producer.PIdle? {
      OnlyCounterMoves(q, Act(q, a).state, ring, live);
    }
  }

  lemma ProducerSteps<T>(q: Queue<T>, ring: seq<nat>, live: nat, memory: bool)
    requires Core(q, ring, live)
    ensures StepOk(q, ring, live, Producer(memory))
  {
    hide StepOk, Core;
    match q.producer
    case PIdle(_) => SizeSteps(q, ring, live, memory);
    case PCheck(_, _) => Check(q, ring, live, memory);
    case PReadFront(_, _) => ReadFront(q, ring, live, memory);
    case PConstruct(_) => Construct(q, ring, live, memory);
    case PStoreTail(_) => StoreTail(q, ring, live, memory);
    case PReadNext(_, _) => ReadNext(q, ring, live, memory);
    case PReadNextFront(_, _) => ReadNextFront(q, ring, live, memory);
    case PConstructNext(_, _) => ConstructNext(q, ring, live, memory);
    case PStoreNextTail(_, _) => StoreNextTail(q, ring, live, memory);
    case PAlloc(_) => Alloc(q, ring, live, memory);
    case PLink(_, _) => Link(q, ring, live, memory);
    case PStoreTailBlock(_, _) => StoreTailBlock(q, ring, live, memory);
    case PSizeStart => SizeSteps(q, ring, live, memory);
    case PSize(_, _, _) => SizeSteps(q, ring, live, memory);
  }
}
