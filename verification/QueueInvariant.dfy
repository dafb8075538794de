/** The protocol invariant of the block ring, and the proof that every step of either thread keeps
    it, runs into no failed assertion and changes the abstract contents by at most one append or one
    removal of the head. */
module QueueInvariant {
  import opened Allocation
  import opened Bits
  import opened Blocks
  import opened QueueSteps

  // ----- The abstract queue ---------------------------------------------------------------------

  function ItemsOf<T>(blocks: seq<Block<T>>, id: nat): seq<T> {
    if id < |blocks| && Indexed(blocks[id]) then Items(blocks[id]) else []
  }

  /** The contents of the listed blocks, one block after the other. */
  function Flat<T>(blocks: seq<Block<T>>, ids: seq<nat>): seq<T> {
    if ids == [] then [] else ItemsOf(blocks, ids[0]) + Flat(blocks, ids[1..])
  }

  /** `ring` lists the blocks in the order of their `next` pointers from `frontBlock` on, and
      `ring[live]` is `tailBlock`. The queue is what these blocks hold, up to `tailBlock`. */
  function Contents<T>(blocks: seq<Block<T>>, ring: seq<nat>, live: nat): seq<T> {
    if live < |ring| then Flat(blocks, ring[..live + 1]) else []
  }

  lemma Associate<T>(a: seq<T>, b: seq<T>, c: seq<T>)
    ensures a + (b + c) == (a + b) + c
  {
  }

  lemma {:induction false} FlatConcat<T>(blocks: seq<Block<T>>, a: seq<nat>, b: seq<nat>)
    ensures Flat(blocks, a + b) == Flat(blocks, a) + Flat(blocks, b)
  {
    hide ItemsOf;
    if a == [] {
      assert a + b == b;
    } else {
      var head, rest := ItemsOf(blocks, a[0]), Flat(blocks, a[1..]);
      assert (a + b)[1..] == a[1..] + b;
      FlatConcat(blocks, a[1..], b);
      Associate(head, rest, Flat(blocks, b));
    }
  }

  lemma {:induction false} FlatFrame<T>(blocks: seq<Block<T>>, blocks': seq<Block<T>>, ids: seq<nat>)
    requires forall i :: 0 <= i < |ids| ==> ItemsOf(blocks, ids[i]) == ItemsOf(blocks', ids[i])
    ensures Flat(blocks, ids) == Flat(blocks', ids)
  {
    if ids == [] {
    } else {
      FlatFrame(blocks, blocks', ids[1..]);
    }
  }

  predicate Valid<T>(q: Queue<T>, id: nat) {
    id < |q.blocks| && Indexed(q.blocks[id])
  }

  // ----- The ring -------------------------------------------------------------------------------

  /** Following `next`, `ring` visits every block once and comes back. */
  ghost predicate Circle<T>(blocks: seq<Block<T>>, ring: seq<nat>) {
    && 0 < |ring| == |blocks|
    && (forall i :: 0 <= i < |ring| ==> ring[i] < |blocks|)
    && (forall i, j :: 0 <= i < j < |ring| ==> ring[i] != ring[j])
    && (forall i :: 0 <= i < |ring| ==> blocks[ring[i]].next == ring[Wrap(i, |ring|)])
    && (forall id: nat :: id < |blocks| ==> id in ring)
  }

  /** The circle begins at `frontBlock` and comes to `tailBlock` after `live` steps. */
  ghost predicate Linked<T>(blocks: seq<Block<T>>, front: nat, tail: nat, ring: seq<nat>, live: nat) {
    && Circle(blocks, ring)
    && live < |ring| && ring[0] == front && ring[live] == tail
  }

  // ----- The blocks -----------------------------------------------------------------------------

  predicate IsHole<T>(q: Queue<T>, id: nat) {
    q.consumer.CStoreFront? && id == q.frontBlock
  }

  predicate IsExtra<T>(q: Queue<T>, id: nat) {
    || (q.producer.PStoreTail? && id == q.tailBlock)
    || (q.producer.PStoreNextTail? && id == q.producer.spare)
  }

  ghost predicate Healthy<T>(q: Queue<T>) {
    forall id :: 0 <= id < |q.blocks| ==>
      Sound(q.blocks[id]) && CellsOk(q.blocks[id], IsHole(q, id), IsExtra(q, id))
  }

  ghost predicate IsFull<T>(b: Block<T>)
    requires Indexed(b)
  {
    Len(b) == b.sizeMask
  }

  /** Blocks strictly between `frontBlock` and `tailBlock` are full, a `tailBlock` other than
      `frontBlock` is not empty, and the blocks outside are empty, but for the element on its way
      into the block that is about to become `tailBlock`. */
  ghost predicate Filled<T>(q: Queue<T>, ring: seq<nat>, live: nat)
    requires Linked(q.blocks, q.frontBlock, q.tailBlock, ring, live) && Healthy(q)
  {
    && (forall i :: 0 < i < live ==> IsFull(q.blocks[ring[i]]))
    && (live > 0 ==> Len(q.blocks[ring[live]]) > 0)
    && (forall i :: live < i < |ring| ==>
          Len(q.blocks[ring[i]]) == if q.producer.PStoreTailBlock? && i == live + 1 then 1 else 0)
  }

  // ----- What each thread knows -----------------------------------------------------------------

  ghost predicate Room<T>(b: Block<T>) {
    After(b.tail, b.sizeMask) != b.localFront
  }

  /** The producer found its block full; the consumer can make room in it only by reaching it. */
  ghost predicate TailFull<T>(q: Queue<T>, ring: seq<nat>, live: nat)
    requires Linked(q.blocks, q.frontBlock, q.tailBlock, ring, live) && Healthy(q)
  {
    live > 0 ==> IsFull(q.blocks[q.tailBlock])
  }

  ghost predicate Spare<T>(q: Queue<T>, ring: seq<nat>, live: nat, id: nat)
    requires Linked(q.blocks, q.frontBlock, q.tailBlock, ring, live) && Healthy(q)
  {
    && live + 1 < |ring| && ring[live + 1] == id
    && TailFull(q, ring, live)
  }

  ghost predicate ProducerKnows<T>(q: Queue<T>, ring: seq<nat>, live: nat)
    requires Linked(q.blocks, q.frontBlock, q.tailBlock, ring, live) && Healthy(q)
  {
    var tb := q.blocks[q.tailBlock];
    match q.producer
    case PConstruct(x) => Room(tb)
    case PStoreTail(x) => Room(tb) && tb.data[tb.tail].value == x
    case PReadNext(x, _) => TailFull(q, ring, live)
    case PReadNextFront(x, spare) => Spare(q, ring, live, spare)
    case PConstructNext(x, spare) => Spare(q, ring, live, spare) && Room(q.blocks[spare])
    case PStoreNextTail(x, spare) =>
      && Spare(q, ring, live, spare) && Room(q.blocks[spare])
      && q.blocks[spare].data[q.blocks[spare].tail].value == x
    case PAlloc(x) => TailFull(q, ring, live)
    case PLink(x, made) =>
      && TailFull(q, ring, live)
      && made.next == tb.next && Sound(made) && CellsOk(made, false, false) && Items(made) == [x]
    case PStoreTailBlock(x, spare) => Spare(q, ring, live, spare) && Items(q.blocks[spare]) == [x]
    case PSize(start, block, _) => start < |q.blocks| && block < |q.blocks|
    case _ => true
  }

  /** Once the consumer has seen another `tailBlock`, the producer never returns to the front block:
      an empty front block then stays empty and its `next` stays what it is. */
  ghost predicate FrontSpent<T>(q: Queue<T>, ring: seq<nat>, live: nat)
    requires Linked(q.blocks, q.frontBlock, q.tailBlock, ring, live) && Healthy(q)
  {
    live > 0 && Len(q.blocks[q.frontBlock]) == 0
  }

  ghost predicate Seen<T>(b: Block<T>)
    requires Indexed(b)
  {
    Gap(b.front, b.localTail, b.sizeMask) > 0
  }

  ghost predicate ConsumerKnows<T>(q: Queue<T>, ring: seq<nat>, live: nat)
    requires Linked(q.blocks, q.frontBlock, q.tailBlock, ring, live) && Healthy(q)
  {
    var fb := q.blocks[q.frontBlock];
    match q.consumer
    case CReReadTail(_) => live > 0
    case CReadNext(_) => FrontSpent(q, ring, live)
    case CReadNextTail(_, next) => FrontSpent(q, ring, live) && ring[1] == next
    case CStoreFrontBlock(next) => FrontSpent(q, ring, live) && ring[1] == next && Seen(q.blocks[next])
    case CTake => Seen(fb)
    case CStoreFront(value) => Seen(fb) && fb.data[fb.front].value == value
    case CSize(start, block, _) => start < |q.blocks| && block < |q.blocks|
    case CSizeNext(start, block, _) => start < |q.blocks| && block < |q.blocks|
    case _ => true
  }

  ghost predicate Core<T>(q: Queue<T>, ring: seq<nat>, live: nat) {
    && Linked(q.blocks, q.frontBlock, q.tailBlock, ring, live)
    && Healthy(q)
    && Filled(q, ring, live)
    && ProducerKnows(q, ring, live)
    && ConsumerKnows(q, ring, live)
    && IsPow2(q.maxBlockSize) && IsPow2(q.largestBlockSize)
    && q.largestBlockSize >= 2
    && RoomFor(q.types, q.largestBlockSize) && RoomFor(q.types, q.maxBlockSize)
  }

  // ----- How the ring moves ---------------------------------------------------------------------

  function NextRing<T>(q: Queue<T>, ring: seq<nat>, live: nat, a: Action<T>): seq<nat> {
    if live >= |ring| then ring
    else if a.Producer? && q.producer.PLink? then ring[..live + 1] + [|q.blocks|] + ring[live + 1..]
    else if a.Consumer? && q.consumer.CStoreFrontBlock? then ring[1..] + [ring[0]]
    else ring
  }

  function NextLive<T>(q: Queue<T>, live: nat, a: Action<T>): nat {
    if a.Producer? && q.producer.PStoreTailBlock? then live + 1
    else if a.Consumer? && q.consumer.CStoreFrontBlock? && live > 0 then live - 1
    else live
  }

  /** Only a store to `tail`, or to `tailBlock` when moving to another block, appends; only a store to
      `front` removes. */
  function NextContents<T>(q: Queue<T>, c: seq<T>, a: Action<T>): seq<T> {
    if a.Producer? && q.producer.PStoreTail? then c + [q.producer.x]
    else if a.Producer? && q.producer.PStoreTailBlock? then c + [q.producer.x]
    else if a.Consumer? && q.consumer.CStoreFront? && |c| > 0 then c[1..]
    else c
  }

  ghost predicate StepOk<T>(q: Queue<T>, ring: seq<nat>, live: nat, a: Action<T>) {
    var ring', live' := NextRing(q, ring, live, a), NextLive(q, live, a);
    && Act(q, a).Ok?
    && var q' := Act(q, a).state;
    && Core(q', ring', live')
    && Contents(q'.blocks, ring', live') == NextContents(q, Contents(q.blocks, ring, live), a)
  }

  // ----- Frame lemmas ---------------------------------------------------------------------------

  /** Replacing one block, with its links kept. */
  ghost predicate Replaces<T>(q: Queue<T>, q': Queue<T>, id: nat) {
    && id < |q.blocks| && |q'.blocks| == |q.blocks|
    && q'.blocks == q.blocks[id := q'.blocks[id]]
    && q'.blocks[id].next == q.blocks[id].next && q'.blocks[id].sizeMask == q.blocks[id].sizeMask
    && q'.frontBlock == q.frontBlock && q'.tailBlock == q.tailBlock
  }

  lemma ReplacedLinked<T>(q: Queue<T>, q': Queue<T>, id: nat, ring: seq<nat>, live: nat)
    requires Linked(q.blocks, q.frontBlock, q.tailBlock, ring, live) && Replaces(q, q', id)
    ensures Linked(q'.blocks, q'.frontBlock, q'.tailBlock, ring, live)
  {
  }

  lemma ReplacedHealthy<T>(q: Queue<T>, q': Queue<T>, id: nat)
    requires Healthy(q) && Replaces(q, q', id)
    requires Sound(q'.blocks[id]) && CellsOk(q'.blocks[id], IsHole(q', id), IsExtra(q', id))
    requires forall other :: 0 <= other < |q.blocks| && other != id ==>
      IsHole(q, other) == IsHole(q', other) && IsExtra(q, other) == IsExtra(q', other)
    ensures Healthy(q')
  {
  }

  /** Contents change only by what happens to the first or to the last live block. */
  lemma ContentsSplit<T>(blocks: seq<Block<T>>, ring: seq<nat>, live: nat)
    requires live < |ring|
    ensures Contents(blocks, ring, live) == ItemsOf(blocks, ring[0]) + Flat(blocks, ring[1..live + 1])
    ensures Contents(blocks, ring, live) == Flat(blocks, ring[..live]) + ItemsOf(blocks, ring[live])
  {
    var ids := ring[..live + 1];
    assert ids[1..] == ring[1..live + 1];
    assert ids == ring[..live] + [ring[live]];
    FlatConcat(blocks, ring[..live], [ring[live]]);
    assert Flat(blocks, [ring[live]]) == ItemsOf(blocks, ring[live]);
  }

  lemma ReplacedContents<T>(q: Queue<T>, q': Queue<T>, id: nat, ring: seq<nat>, live: nat)
    requires Linked(q.blocks, q.frontBlock, q.tailBlock, ring, live) && Replaces(q, q', id)
    requires Indexed(q.blocks[id]) && Indexed(q'.blocks[id])
    requires forall i :: 0 <= i <= live && ring[i] == id ==> Items(q.blocks[id]) == Items(q'.blocks[id])
    ensures Contents(q'.blocks, ring, live) == Contents(q.blocks, ring, live)
  {
    FlatFrame(q.blocks, q'.blocks, ring[..live + 1]);
  }
}
