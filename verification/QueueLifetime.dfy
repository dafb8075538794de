/** The destructor after any run, and with it the life of every element: constructed once by an
    enqueue, destroyed once, by a removal or by the destructor. */
module QueueLifetime {
  import opened Allocation
  import opened Bits
  import opened Blocks
  import opened QueueSteps
  import opened QueueInvariant
  import opened QueueProducer
  import opened QueueRuns

  /** Nobody uses the queue any more. */
  predicate Resting<T>(q: Queue<T>) {
    q.producer.PIdle? && q.consumer.CIdle?
  }

  /** The blocks the destructor frees, in order (lines 211-227), if it is let run for `steps` rounds. */
  function Visited<T>(blocks: seq<Block<T>>, first: nat, block: nat, steps: nat): seq<nat>
    decreases steps
  {
    if steps == 0 || block >= |blocks| then []
    else [block] + if blocks[block].next == first then [] else Visited(blocks, first, blocks[block].next, steps - 1)
  }

  lemma LinkAt<T>(q: Queue<T>, ring: seq<nat>, live: nat, i: nat)
    requires Linked(q.blocks, q.frontBlock, q.tailBlock, ring, live) && i < |ring|
    ensures ring[i] < |q.blocks|
    ensures i + 1 < |ring| ==> q.blocks[ring[i]].next == ring[i + 1] != q.frontBlock
    ensures i + 1 == |ring| ==> q.blocks[ring[i]].next == q.frontBlock
  {
  }

  lemma {:induction false} VisitsRing<T>(q: Queue<T>, ring: seq<nat>, live: nat, i: nat, steps: nat)
    requires Linked(q.blocks, q.frontBlock, q.tailBlock, ring, live) && i < |ring| && steps >= |ring| - i
    ensures Visited(q.blocks, q.frontBlock, ring[i], steps) == ring[i..]
    decreases |ring| - i
  {
    hide Linked;
    LinkAt(q, ring, live, i);
    if i + 1 < |ring| {
      VisitsRing(q, ring, live, i + 1, steps - 1);
      assert ring[i..] == [ring[i]] + ring[i + 1..];
    }
  }

  lemma {:induction false} EmptyTail<T>(blocks: seq<Block<T>>, ids: seq<nat>)
    requires forall i :: 0 <= i < |ids| ==> |ItemsOf(blocks, ids[i])| == 0
    ensures Flat(blocks, ids) == []
  {
    hide ItemsOf;
    if ids == [] {
    } else {
      EmptyTail(blocks, ids[1..]);
    }
  }

  /** At rest, all that is in any block is what the queue holds. */
  lemma WholeRingIsContents<T>(q: Queue<T>, ring: seq<nat>, live: nat)
    requires Core(q, ring, live) && Resting(q)
    ensures Flat(q.blocks, ring) == Contents(q.blocks, ring, live)
  {
    hide Linked, Healthy, ProducerKnows, ConsumerKnows, Sound, CellsOk, Items, Flat;
    BlocksExist(q, ring, live);
    assert ring == ring[..live + 1] + ring[live + 1..];
    FlatConcat(q.blocks, ring[..live + 1], ring[live + 1..]);
    EmptyTail(q.blocks, ring[live + 1..]);
  }

  /** Exactly the slots from `front` up to `tail`, which the destructor walks over, hold objects. */
  ghost predicate OnlyItemsAlive<T>(b: Block<T>) {
    && Indexed(b)
    && forall k :: 0 <= k <= b.sizeMask ==> (b.data[k].alive <==> Gap(b.front, k, b.sizeMask) < Len(b))
  }

  lemma RestingBlocks<T>(q: Queue<T>)
    requires Healthy(q) && Resting(q)
    ensures forall id :: 0 <= id < |q.blocks| ==> OnlyItemsAlive(q.blocks[id])
  {
  }

  /** Whatever was done with the queue before, the destructor stops by itself after freeing each
      block once; the objects alive are the elements it walks over; and together with the dequeued
      values they are the values enqueued, in order. As no run constructs over a live object or
      destroys a dead one (`NeverFaults`), every element is destroyed exactly once. */
  lemma EveryElementDestroyedOnce<T>(types: Types, size: nat, maxBlockSize: nat, unset: T, acts: seq<Action<T>>,
                                     steps: nat)
    requires Constructible(types, size, maxBlockSize)
    requires var o := Run(Start(types, size, maxBlockSize, unset), acts);
      o.Ok? ==> Resting(o.state.q) && steps >= |o.state.q.blocks|
    ensures Run(Start(types, size, maxBlockSize, unset), acts).Ok?
    ensures var s := Run(Start(types, size, maxBlockSize, unset), acts).state;
      var freed := Visited(s.q.blocks, s.q.frontBlock, s.q.frontBlock, steps);
      && |freed| == |s.q.blocks|
      && (forall id: nat :: id < |s.q.blocks| ==> id in freed)
      && (forall i, j :: 0 <= i < j < |freed| ==> freed[i] != freed[j])
      && s.log.enqueued == s.log.dequeued + Flat(s.q.blocks, freed)
      && (forall id :: 0 <= id < |s.q.blocks| ==> OnlyItemsAlive(s.q.blocks[id]))
  {
    hide Start, Run, OnlyItemsAlive, Healthy, Filled, ProducerKnows, ConsumerKnows, Flat, Visited, EmptySeen, PeekValid;
    NeverFaults(types, size, maxBlockSize, unset, acts);
    var s := Run(Start(types, size, maxBlockSize, unset), acts).state;
    VisitsRing(s.q, s.ring, s.live, 0, steps);
    assert s.ring[0..] == s.ring;
    WholeRingIsContents(s.q, s.ring, s.live);
    RestingBlocks(s.q);
  }
}
