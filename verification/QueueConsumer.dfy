/** Every step of the consumer keeps the protocol invariant. */
module QueueConsumer {
  import opened Bits
  import opened Blocks
  import opened QueueSteps
  import opened QueueInvariant
  import opened QueueProducer

  /** Steps that only move the program counter. */
  lemma Moves<T>(q: Queue<T>, q': Queue<T>, ring: seq<nat>, live: nat)
    requires Core(q, ring, live) && q' == q.(consumer := q'.consumer)
    requires !q.consumer.CStoreFront? && !q'.consumer.CStoreFront?
    ensures Linked(q'.blocks, q'.frontBlock, q'.tailBlock, ring, live) && Healthy(q')
    ensures Filled(q', ring, live) && ProducerKnows(q', ring, live)
    ensures ConsumerKnows(q', ring, live) ==> Core(q', ring, live)
  {
    assert forall id :: 0 <= id < |q.blocks| ==> IsHole(q, id) == IsHole(q', id) && IsExtra(q, id) == IsExtra(q', id);
    assert Healthy(q');
  }

  ghost predicate SameForProducer<T>(b: Block<T>, c: Block<T>) {
    && b.tail == c.tail && b.localFront == c.localFront && b.next == c.next && b.sizeMask == c.sizeMask
    && |b.data| == |c.data|
    && forall k :: 0 <= k < |b.data| ==> b.data[k].value == c.data[k].value
  }

  lemma ReplacedHealthyByConsumer<T>(q: Queue<T>, q': Queue<T>, id: nat)
    requires Healthy(q) && Replaces(q, q', id) && q' == q.(blocks := q'.blocks, consumer := q'.consumer)
    requires Sound(q'.blocks[id]) && CellsOk(q'.blocks[id], IsHole(q', id), IsExtra(q', id))
    requires forall other :: 0 <= other < |q.blocks| && other != id ==> IsHole(q, other) == IsHole(q', other)
    ensures Healthy(q')
  {
    assert forall other :: 0 <= other < |q.blocks| ==> IsExtra(q, other) == IsExtra(q', other);
    ReplacedHealthy(q, q', id);
  }

  lemma KeepsFilled<T>(q: Queue<T>, q': Queue<T>, id: nat, ring: seq<nat>, live: nat)
    requires Linked(q.blocks, q.frontBlock, q.tailBlock, ring, live) && Healthy(q) && Filled(q, ring, live)
    requires Linked(q'.blocks, q'.frontBlock, q'.tailBlock, ring, live) && Healthy(q')
    requires Replaces(q, q', id) && q' == q.(blocks := q'.blocks, consumer := q'.consumer) && Valid(q, id)
    requires id != q.frontBlock ==> Items(q'.blocks[id]) == Items(q.blocks[id])
    ensures Filled(q', ring, live)
  {
    hide CellsOk, Linked, Healthy, Sound;
    BlocksExist(q, ring, live);
    BlocksExist(q', ring, live);
    assert forall i :: 0 < i < |ring| ==> |Items(q'.blocks[ring[i]])| == |Items(q.blocks[ring[i]])|;
  }

  lemma KeepsProducer<T>(q: Queue<T>, q': Queue<T>, id: nat, ring: seq<nat>, live: nat)
    requires Linked(q.blocks, q.frontBlock, q.tailBlock, ring, live) && Healthy(q)
    requires Linked(q'.blocks, q'.frontBlock, q'.tailBlock, ring, live) && Healthy(q')
    requires ProducerKnows(q, ring, live) && Replaces(q, q', id) && Valid(q, id)
    requires q' == q.(blocks := q'.blocks, consumer := q'.consumer)
    requires SameForProducer(q.blocks[id], q'.blocks[id])
    requires id != q.frontBlock ==> Items(q'.blocks[id]) == Items(q.blocks[id])
    ensures ProducerKnows(q', ring, live)
  {
    hide CellsOk, Linked, Healthy, Sound, Items, After;
    BlocksExist(q, ring, live);
    BlocksExist(q', ring, live);
    if q.producer.PConstruct? || q.producer.PStoreTail? {
      assert Room(q'.blocks[q.tailBlock]);
    } else {
      assert |Items(q'.blocks[q.tailBlock])| == |Items(q.blocks[q.tailBlock])| || live == 0;
      assert TailFull(q, ring, live) ==> TailFull(q', ring, live);
      if live + 1 < |ring| {
        assert Items(q'.blocks[ring[live + 1]]) == Items(q.blocks[ring[live + 1]]);
      }
    }
  }

  /** A write of the consumer to one block, either to its shadow of `tail` or, in the front block, to
      the slot at `front` or to `front` itself, disturbs nothing the producer relies on. */
  lemma ConsumerWrites<T>(q: Queue<T>, q': Queue<T>, id: nat, ring: seq<nat>, live: nat)
    requires Core(q, ring, live) && Replaces(q, q', id) && q' == q.(blocks := q'.blocks, consumer := q'.consumer)
    requires Valid(q, id)
    requires Sound(q'.blocks[id]) && CellsOk(q'.blocks[id], IsHole(q', id), IsExtra(q', id))
    requires forall other :: 0 <= other < |q.blocks| && other != id ==> IsHole(q, other) == IsHole(q', other)
    requires SameForProducer(q.blocks[id], q'.blocks[id])
    requires id != q.frontBlock ==> Items(q'.blocks[id]) == Items(q.blocks[id])
    ensures Linked(q'.blocks, q'.frontBlock, q'.tailBlock, ring, live) && Healthy(q')
    ensures Filled(q', ring, live) && ProducerKnows(q', ring, live)
    ensures ConsumerKnows(q', ring, live) ==> Core(q', ring, live)
  {
    hide Filled, ProducerKnows, Sound, CellsOk, ConsumerKnows, Items;
    ReplacedLinked(q, q', id, ring, live);
    ReplacedHealthyByConsumer(q, q', id);
    BlocksExist(q, ring, live);
    KeepsFilled(q, q', id, ring, live);
    KeepsProducer(q, q', id, ring, live);
  }

  // ----- try_dequeue: the front block -------------------------------------------------------------

  lemma SeenIff<T>(b: Block<T>)
    requires Sound(b)
    ensures Indexed(b)
    ensures b.front != b.localTail <==> Seen(b)
    ensures b.front != b.tail <==> Seen(b.(localTail := b.tail))
    ensures b.front != b.tail <==> Len(b) > 0
    ensures Seen(b) ==> Len(b) > 0
  {
  }

  lemma Look<T>(q: Queue<T>, ring: seq<nat>, live: nat)
    requires Core(q, ring, live) && q.consumer.CLook?
    ensures StepOk(q, ring, live, Consumer)
  {
    hide Healthy, Linked, Filled, ProducerKnows, Contents, CellsOk, Sound;
    BlocksExist(q, ring, live);
    SeenIff(q.blocks[q.frontBlock]);
    Moves(q, Act(q, Consumer).state, ring, live);
  }

  /** Refreshing `localTail`, in `try_dequeue` and `peek` alike. */
  lemma Refreshes<T>(q: Queue<T>, q': Queue<T>, id: nat, ring: seq<nat>, live: nat)
    requires Core(q, ring, live) && Valid(q, id)
    requires q' == SetBlock(q, id, q.blocks[id].(localTail := q.blocks[id].tail)).(consumer := q'.consumer)
    requires !q.consumer.CStoreFront? && !q'.consumer.CStoreFront?
    ensures Linked(q'.blocks, q'.frontBlock, q'.tailBlock, ring, live) && Healthy(q')
    ensures ConsumerKnows(q', ring, live) ==> Core(q', ring, live)
    ensures Contents(q'.blocks, ring, live) == Contents(q.blocks, ring, live)
    ensures Sound(q.blocks[id])
  {
    hide Linked, Filled, ProducerKnows, ConsumerKnows, Contents, CellsOk, Sound, Items;
    var b := q.blocks[id];
    assert Sound(b) && CellsOk(b, IsHole(q, id), IsExtra(q, id));
    RefreshedOk(b);
    SameCells(b, q'.blocks[id], IsHole(q, id), IsExtra(q, id));
    ConsumerWrites(q, q', id, ring, live);
    ReplacedContents(q, q', id, ring, live);
  }

  lemma ReadTail<T>(q: Queue<T>, ring: seq<nat>, live: nat)
    requires Core(q, ring, live) && q.consumer.CReadTail?
    ensures StepOk(q, ring, live, Consumer)
  {
    hide Healthy, Linked, Filled, ProducerKnows, Contents, CellsOk, Sound;
    BlocksExist(q, ring, live);
    SeenIff(q.blocks[q.frontBlock]);
    Refreshes(q, Act(q, Consumer).state, q.frontBlock, ring, live);
  }

  lemma ReadTailBlock<T>(q: Queue<T>, ring: seq<nat>, live: nat)
    requires Core(q, ring, live) && q.consumer.CReadTailBlock?
    ensures StepOk(q, ring, live, Consumer)
  {
    hide Healthy, Linked, Filled, ProducerKnows, Contents, CellsOk, Sound;
    BlocksExist(q, ring, live);
    Moves(q, Act(q, Consumer).state, ring, live);
  }

  lemma ReReadTail<T>(q: Queue<T>, ring: seq<nat>, live: nat)
    requires Core(q, ring, live) && q.consumer.CReReadTail?
    ensures StepOk(q, ring, live, Consumer)
  {
    hide Healthy, Linked, Filled, ProducerKnows, Contents, CellsOk, Sound;
    BlocksExist(q, ring, live);
    SeenIff(q.blocks[q.frontBlock]);
    Refreshes(q, Act(q, Consumer).state, q.frontBlock, ring, live);
  }

  lemma Take<T>(q: Queue<T>, ring: seq<nat>, live: nat)
    requires Core(q, ring, live) && q.consumer.CTake?
    ensures StepOk(q, ring, live, Consumer)
  {
    hide Healthy, Linked, Filled, ProducerKnows, Contents, CellsOk, Sound;
    BlocksExist(q, ring, live);
    var id, b := q.frontBlock, q.blocks[q.frontBlock];
    SeenIff(b);
    DestroyedOk(b, IsExtra(q, id));
    var q' := Act(q, Consumer).state;
    ConsumerWrites(q, q', id, ring, live);
    ReplacedContents(q, q', id, ring, live);
  }

  lemma HeadItem<T>(b: Block<T>)
    requires Indexed(b) && Len(b) > 0
    ensures Items(b)[0] == b.data[b.front].value
  {
  }

  lemma TailOfConcat<T>(a: seq<T>, b: seq<T>)
    requires |a| > 0
    ensures (a + b)[1..] == a[1..] + b && (a + b)[0] == a[0]
  {
  }

  lemma HeadRemoved<T>(q: Queue<T>, q': Queue<T>, ring: seq<nat>, live: nat)
    requires Linked(q.blocks, q.frontBlock, q.tailBlock, ring, live) && Healthy(q)
    requires Linked(q'.blocks, q'.frontBlock, q'.tailBlock, ring, live) && Healthy(q')
    requires Replaces(q, q', q.frontBlock) && Len(q.blocks[q.frontBlock]) > 0
    requires Items(q'.blocks[q.frontBlock]) == Items(q.blocks[q.frontBlock])[1..]
    ensures var c, b := Contents(q.blocks, ring, live), q.blocks[q.frontBlock];
      |c| > 0 && c[0] == b.data[b.front].value && Contents(q'.blocks, ring, live) == c[1..]
  {
    hide Linked, Healthy, Contents, Items;
    BlocksExist(q, ring, live);
    BlocksExist(q', ring, live);
    HeadItem(q.blocks[q.frontBlock]);
    ContentsSplit(q.blocks, ring, live);
    ContentsSplit(q'.blocks, ring, live);
    FlatFrame(q.blocks, q'.blocks, ring[1..live + 1]);
    TailOfConcat(Items(q.blocks[q.frontBlock]), Flat(q.blocks, ring[1..live + 1]));
  }

  lemma StoreFront<T>(q: Queue<T>, ring: seq<nat>, live: nat)
    requires Core(q, ring, live) && q.consumer.CStoreFront?
    ensures StepOk(q, ring, live, Consumer)
    ensures |Contents(q.blocks, ring, live)| > 0 && Contents(q.blocks, ring, live)[0] == q.consumer.value
  {
    hide Healthy, Linked, Filled, ProducerKnows, Contents, CellsOk, Sound;
    BlocksExist(q, ring, live);
    var id, b := q.frontBlock, q.blocks[q.frontBlock];
    SeenIff(b);
    ReleasedOk(b, IsExtra(q, id));
    var q' := Act(q, Consumer).state;
    ConsumerWrites(q, q', id, ring, live);
    HeadRemoved(q, q', ring, live);
  }

  // ----- try_dequeue: on to the next block ---------------------------------------------------------

  lemma FrontNext<T>(q: Queue<T>, ring: seq<nat>, live: nat)
    requires Linked(q.blocks, q.frontBlock, q.tailBlock, ring, live) && live > 0
    ensures |ring| > 1 && q.frontBlock < |q.blocks| && q.blocks[q.frontBlock].next == ring[1]
  {
    assert q.blocks[ring[0]].next == ring[Wrap(0, |ring|)];
  }

  lemma ReadNextBlock<T>(q: Queue<T>, ring: seq<nat>, live: nat)
    requires Core(q, ring, live) && q.consumer.CReadNext?
    ensures StepOk(q, ring, live, Consumer)
  {
    hide Healthy, Linked, Filled, ProducerKnows, Contents, CellsOk, Sound;
    BlocksExist(q, ring, live);
    FrontNext(q, ring, live);
    Moves(q, Act(q, Consumer).state, ring, live);
  }

  /** The block after an exhausted front block has an element: `assert(nextBlockFront !=
      nextBlockTail)`. */
  lemma NextNotEmpty<T>(q: Queue<T>, ring: seq<nat>, live: nat)
    requires Core(q, ring, live) && live > 0
    ensures |ring| > 1 && ring[1] != q.frontBlock && Valid(q, ring[1])
    ensures Sound(q.blocks[ring[1]]) && Len(q.blocks[ring[1]]) > 0
  {
    hide ProducerKnows, ConsumerKnows, CellsOk;
    BlocksExist(q, ring, live);
  }

  lemma ReadNextTail<T>(q: Queue<T>, ring: seq<nat>, live: nat)
    requires Core(q, ring, live) && q.consumer.CReadNextTail?
    ensures StepOk(q, ring, live, Consumer)
  {
    hide Healthy, Linked, Filled, ProducerKnows, Contents, CellsOk, Sound;
    BlocksExist(q, ring, live);
    NextNotEmpty(q, ring, live);
    SeenIff(q.blocks[ring[1]]);
    var q' := Act(q, Consumer).state;
    if q.consumer.op.Peek? {
      Moves(q, q', ring, live);
    } else {
      Refreshes(q, q', ring[1], ring, live);
    }
  }

  lemma RotatedAt(ring: seq<nat>, ring': seq<nat>)
    requires |ring| > 0 && ring' == ring[1..] + [ring[0]]
    ensures |ring'| == |ring|
    ensures forall i :: 0 <= i < |ring| ==> ring'[i] == ring[Wrap(i, |ring|)]
  {
  }

  lemma RotatedDistinct(ring: seq<nat>, ring': seq<nat>)
    requires |ring| > 0 && ring' == ring[1..] + [ring[0]]
    requires forall i, j :: 0 <= i < j < |ring| ==> ring[i] != ring[j]
    ensures forall i, j :: 0 <= i < j < |ring| ==> ring'[i] != ring'[j]
  {
    RotatedAt(ring, ring');
  }

  lemma RotatedNext<T>(blocks: seq<Block<T>>, front: nat, tail: nat, ring: seq<nat>, ring': seq<nat>, live: nat, i: nat)
    requires Linked(blocks, front, tail, ring, live) && ring' == ring[1..] + [ring[0]] && i < |ring|
    ensures ring'[i] < |blocks| && blocks[ring'[i]].next == ring'[Wrap(i, |ring'|)]
  {
    RotatedAt(ring, ring');
    var j := Wrap(i, |ring|);
    assert ring'[i] == ring[j];
    assert blocks[ring[j]].next == ring[Wrap(j, |ring|)];
  }

  lemma RotatedCovers(ring: seq<nat>, ring': seq<nat>, id: nat)
    requires |ring| > 0 && ring' == ring[1..] + [ring[0]] && id in ring
    ensures id in ring'
  {
    var i :| 0 <= i < |ring| && ring[i] == id;
    assert ring'[if i == 0 then |ring| - 1 else i - 1] == id;
  }

  lemma RotatedLinked<T>(blocks: seq<Block<T>>, front: nat, tail: nat, ring: seq<nat>, ring': seq<nat>, live: nat)
    requires Linked(blocks, front, tail, ring, live) && live > 0 && ring' == ring[1..] + [ring[0]]
    ensures Linked(blocks, ring[1], tail, ring', live - 1)
  {
    RotatedAt(ring, ring');
    RotatedDistinct(ring, ring');
    forall id: nat | id < |blocks| ensures id in ring' {
      RotatedCovers(ring, ring', id);
    }
    forall i | 0 <= i < |ring'| ensures blocks[ring'[i]].next == ring'[Wrap(i, |ring'|)] {
      RotatedNext(blocks, front, tail, ring, ring', live, i);
    }
  }

  lemma Rotated<T>(q: Queue<T>, q': Queue<T>, ring: seq<nat>, ring': seq<nat>, live: nat)
    requires Linked(q.blocks, q.frontBlock, q.tailBlock, ring, live) && Healthy(q)
    requires q.consumer.CStoreFrontBlock? && live > 0 && ring[1] == q.consumer.next
    requires q' == q.(frontBlock := q.consumer.next, consumer := CTake) && ring' == ring[1..] + [ring[0]]
    ensures Linked(q'.blocks, q'.frontBlock, q'.tailBlock, ring', live - 1) && Healthy(q')
  {
    RotatedAt(ring, ring');
    assert forall id :: 0 <= id < |q.blocks| ==> IsHole(q, id) == IsHole(q', id) && IsExtra(q, id) == IsExtra(q', id);
    assert Healthy(q');
    RotatedLinked(q.blocks, q.frontBlock, q.tailBlock, ring, ring', live);
  }

  lemma RotatedFilled<T>(q: Queue<T>, q': Queue<T>, ring: seq<nat>, ring': seq<nat>, live: nat)
    requires Core(q, ring, live) && q.consumer.CStoreFrontBlock?
    requires q' == q.(frontBlock := q.consumer.next, consumer := CTake) && ring' == ring[1..] + [ring[0]]
    requires live > 0 && Linked(q'.blocks, q'.frontBlock, q'.tailBlock, ring', live - 1) && Healthy(q')
    ensures Filled(q', ring', live - 1) && ConsumerKnows(q', ring', live - 1)
  {
    hide Healthy, Linked, ProducerKnows, CellsOk, Sound;
    BlocksExist(q, ring, live);
    BlocksExist(q', ring', live - 1);
    RotatedAt(ring, ring');
    if q.producer.PStoreTailBlock? {
      SpareKnown(q, ring, live);
    }
  }

  lemma RotatedProducer<T>(q: Queue<T>, q': Queue<T>, ring: seq<nat>, ring': seq<nat>, live: nat)
    requires Core(q, ring, live) && q.consumer.CStoreFrontBlock?
    requires q' == q.(frontBlock := q.consumer.next, consumer := CTake) && ring' == ring[1..] + [ring[0]]
    requires live > 0 && Linked(q'.blocks, q'.frontBlock, q'.tailBlock, ring', live - 1) && Healthy(q')
    ensures ProducerKnows(q', ring', live - 1)
  {
    hide Healthy, Linked, ConsumerKnows, CellsOk, Sound, Filled;
    BlocksExist(q, ring, live);
    BlocksExist(q', ring', live - 1);
    RotatedAt(ring, ring');
  }

  /** The front block is exhausted, so leaving it behind loses nothing. */
  lemma RotatedContents<T>(q: Queue<T>, ring: seq<nat>, ring': seq<nat>, live: nat)
    requires Core(q, ring, live) && q.consumer.CStoreFrontBlock? && live > 0
    requires ring' == ring[1..] + [ring[0]]
    ensures Contents(q.blocks, ring', live - 1) == Contents(q.blocks, ring, live)
  {
    hide Filled, ProducerKnows, CellsOk, Sound, Linked, Healthy;
    BlocksExist(q, ring, live);
    assert ItemsOf(q.blocks, ring[0]) == [];
    assert ring'[..live] == ring[1..live + 1];
    ContentsSplit(q.blocks, ring, live);
  }

  lemma StoreFrontBlock<T>(q: Queue<T>, ring: seq<nat>, live: nat)
    requires Core(q, ring, live) && q.consumer.CStoreFrontBlock?
    ensures StepOk(q, ring, live, Consumer)
  {
    hide Healthy, Linked, Filled, ProducerKnows, Contents, CellsOk, Sound;
    BlocksExist(q, ring, live);
    var q' := Act(q, Consumer).state;
    var ring' := ring[1..] + [ring[0]];
    Rotated(q, q', ring, ring', live);
    RotatedFilled(q, q', ring, ring', live);
    RotatedProducer(q, q', ring, ring', live);
    RotatedContents(q, ring, ring', live);
  }

  // ----- size_approx, and starting a call ----------------------------------------------------------

  lemma SizeReads<T>(q: Queue<T>, ring: seq<nat>, live: nat)
    requires Core(q, ring, live) && q.consumer.CSize?
    ensures StepOk(q, ring, live, Consumer)
  {
    hide Healthy, Linked, Filled, ProducerKnows, Contents, Sound, CellsOk, Count, After;
    BlocksExist(q, ring, live);
    var id := q.consumer.block;
    NextExists(q, ring, live, id);
    var q' := q.(consumer := CSizeNext(q.consumer.start, id, q.consumer.sum + Count(q.blocks[id])));
    Moves(q, q', ring, live);
    assert Act(q, Consumer) == Ok(q');
  }

  lemma SizeMoves<T>(q: Queue<T>, ring: seq<nat>, live: nat)
    requires Core(q, ring, live) && (q.consumer.CSizeNext? || q.consumer.CIdle?)
    ensures StepOk(q, ring, live, Consumer)
  {
    hide Healthy, Linked, Filled, ProducerKnows, Contents, Sound, CellsOk, BitAnd, Count, After, Released, Destroyed;
    BlocksExist(q, ring, live);
    if q.consumer.CSizeNext? {
      var start, id, sum := q.consumer.start, q.consumer.block, q.consumer.sum;
      NextExists(q, ring, live, id);
      var next := q.blocks[id].next;
      var q' := q.(consumer := if next == start then CIdle(DequeueResult.Counted(sum)) else CSize(start, next, sum));
      Moves(q, q', ring, live);
      assert Act(q, Consumer) == Ok(q');
    }
  }

  lemma ConsumerStarts<T>(q: Queue<T>, ring: seq<nat>, live: nat, a: Action<T>)
    requires Core(q, ring, live) && (a.TryDequeue? || a.Show? || a.ConsumerSize?)
    ensures StepOk(q, ring, live, a)
  {
    hide Healthy, Linked, Filled, ProducerKnows, Contents, Sound, CellsOk;
    BlocksExist(q, ring, live);
    if q.consumer.CIdle? {
      Moves(q, Act(q, a).state, ring, live);
    }
  }

  lemma ConsumerSteps<T>(q: Queue<T>, ring: seq<nat>, live: nat)
    requires Core(q, ring, live)
    ensures StepOk(q, ring, live, Consumer)
  {
    hide StepOk, Core;
    match q.consumer
    case CIdle(_) => SizeMoves(q, ring, live);
    case CLook(_) => Look(q, ring, live);
    case CReadTail(_) => ReadTail(q, ring, live);
    case CReadTailBlock(_) => ReadTailBlock(q, ring, live);
    case CReReadTail(_) => ReReadTail(q, ring, live);
    case CReadNext(_) => ReadNextBlock(q, ring, live);
    case CReadNextTail(_, _) => ReadNextTail(q, ring, live);
    case CStoreFrontBlock(_) => StoreFrontBlock(q, ring, live);
    case CTake => Take(q, ring, live);
    case CStoreFront(_) => StoreFront(q, ring, live);
    case CSize(_, _, _) => SizeReads(q, ring, live);
    case CSizeNext(_, _, _) => SizeMoves(q, ring, live);
  }

  /** Every step of either thread keeps the invariant, fails no assertion, and changes the contents
      only as `NextContents` says. */
  lemma EveryStep<T>(q: Queue<T>, ring: seq<nat>, live: nat, a: Action<T>)
    requires Core(q, ring, live)
    ensures StepOk(q, ring, live, a)
  {
    hide StepOk, Core;
    match a
    case Producer(memory) => ProducerSteps(q, ring, live, memory);
    case Consumer => ConsumerSteps(q, ring, live);
    case Enqueue(_) => Starts(q, ring, live, a);
    case TryEnqueue(_) => Starts(q, ring, live, a);
    case ProducerSize => Starts(q, ring, live, a);
    case TryDequeue => ConsumerStarts(q, ring, live, a);
    case Show => ConsumerStarts(q, ring, live, a);
    case ConsumerSize => ConsumerStarts(q, ring, live, a);
  }
}
