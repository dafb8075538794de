/** `size_approx` walks the ring and reads each block at a different instant. What it returns still
    lies between the length at one end of the call and the length at the other. */
module QueueSize {
  import opened Allocation
  import opened Bits
  import opened Blocks
  import opened QueueSteps
  import opened QueueInvariant
  import opened QueueProducer
  import opened QueueConsumer
  import opened QueueRuns
  import opened QueueCapacity

  /** A run together with the lengths at which the current size calls began, and the ring as the
      producer's walk found it. */
  datatype Watched<T> = Watched(s: System<T>, consumerEntry: nat, producerEntry: nat, walk: seq<nat>)

  function Watch<T>(w: Watched<T>, a: Action<T>): Outcome<Watched<T>> {
    match Next(w.s, a)
    case Fault(why) => Fault(why)
    case Ok(s') => Ok(Watched(s',
      if a.ConsumerSize? && w.s.q.consumer.CIdle? then |Holds(w.s)| else w.consumerEntry,
      if a.ProducerSize? && w.s.q.producer.PIdle? then |Holds(w.s)| else w.producerEntry,
      if a.Producer? && w.s.q.producer.PSizeStart? then w.s.ring else w.walk))
  }

  // ----- Sums of lengths --------------------------------------------------------------------------

  function Sum<T>(blocks: seq<Block<T>>, ids: seq<nat>): nat {
    |Flat(blocks, ids)|
  }

  lemma SumConcat<T>(blocks: seq<Block<T>>, a: seq<nat>, b: seq<nat>)
    ensures Sum(blocks, a + b) == Sum(blocks, a) + Sum(blocks, b)
  {
    FlatConcat(blocks, a, b);
  }

  lemma SumSplit<T>(blocks: seq<Block<T>>, ids: seq<nat>, p: nat)
    requires p < |ids|
    ensures Sum(blocks, ids[p..]) == |ItemsOf(blocks, ids[p])| + Sum(blocks, ids[p + 1..])
    ensures Sum(blocks, ids[..p + 1]) == Sum(blocks, ids[..p]) + |ItemsOf(blocks, ids[p])|
  {
    hide ItemsOf;
    assert ids[p..][1..] == ids[p + 1..];
    assert ids[..p + 1] == ids[..p] + [ids[p]];
    SumConcat(blocks, ids[..p], [ids[p]]);
    assert Flat(blocks, [ids[p]]) == ItemsOf(blocks, ids[p]);
  }

  lemma {:induction false} SumMonotone<T>(blocks: seq<Block<T>>, blocks': seq<Block<T>>, ids: seq<nat>)
    requires forall i :: 0 <= i < |ids| ==> |ItemsOf(blocks, ids[i])| <= |ItemsOf(blocks', ids[i])|
    ensures Sum(blocks, ids) <= Sum(blocks', ids)
  {
    if ids == [] {
    } else {
      SumMonotone(blocks, blocks', ids[1..]);
    }
  }

  lemma {:induction false} SumZero<T>(blocks: seq<Block<T>>, ids: seq<nat>)
    requires forall i :: 0 <= i < |ids| ==> |ItemsOf(blocks, ids[i])| == 0
    ensures Sum(blocks, ids) == 0
  {
    if ids == [] {
    } else {
      SumZero(blocks, ids[1..]);
    }
  }

  function InFlight<T>(q: Queue<T>): nat {
    if q.producer.PStoreTailBlock? then 1 else 0
  }

  lemma SpareInRing<T>(q: Queue<T>, ring: seq<nat>, live: nat)
    requires Core(q, ring, live) && q.producer.PStoreTailBlock?
    ensures live + 1 < |ring|
  {
    hide Healthy, Linked, Filled, ConsumerKnows;
    SpareKnown(q, ring, live);
  }

  /** All blocks together hold the queue, and at most one element not yet published. */
  lemma SumOfRing<T>(q: Queue<T>, ring: seq<nat>, live: nat)
    requires Core(q, ring, live)
    ensures Sum(q.blocks, ring) == |Contents(q.blocks, ring, live)| + InFlight(q)
  {
    hide Healthy, Linked, ProducerKnows, ConsumerKnows, Sound, CellsOk, Items;
    BlocksExist(q, ring, live);
    assert ring == ring[..live + 1] + ring[live + 1..];
    SumConcat(q.blocks, ring[..live + 1], ring[live + 1..]);
    if q.producer.PStoreTailBlock? {
      SpareInRing(q, ring, live);
      SumSplit(q.blocks, ring, live + 1);
      assert |ItemsOf(q.blocks, ring[live + 1])| == 1;
      SumZero(q.blocks, ring[live + 2..]);
    } else {
      SumZero(q.blocks, ring[live + 1..]);
    }
  }

  /** One turn of the walk adds exactly the length of the block it looks at. */
  lemma CountIsLength<T>(b: Block<T>)
    requires Sound(b) && b.sizeMask < WORD
    ensures Count(b) == Len(b)
  {
    MaskedDifference(b.front, b.tail, b.sizeMask);
  }

  ghost predicate Narrow<T>(q: Queue<T>) {
    forall id :: 0 <= id < |q.blocks| ==> q.blocks[id].sizeMask < WORD
  }

  // ----- The consumer's walk ----------------------------------------------------------------------

  /** After `p` blocks: what has been counted and what is still ahead cover the length at entry, and
      nothing has been counted that is not there. */
  ghost predicate Bracketed<T>(blocks: seq<Block<T>>, ids: seq<nat>, p: nat, sum: nat, entry: nat) {
    p <= |ids| && sum + Sum(blocks, ids[p..]) >= entry && sum <= Sum(blocks, ids[..p])
  }

  ghost predicate WalkAt<T>(blocks: seq<Block<T>>, ring: seq<nat>, block: nat, past: nat, sum: nat, entry: nat) {
    exists p: nat :: p < |ring| && ring[p] == block && Bracketed(blocks, ring, p + past, sum, entry)
  }

  ghost predicate ConsumerWalk<T>(q: Queue<T>, ring: seq<nat>, entry: nat) {
    match q.consumer
    case CSize(start, block, sum) =>
      |ring| > 0 && start == ring[0] && WalkAt(q.blocks, ring, block, 0, sum, entry)
    case CSizeNext(start, block, sum) =>
      |ring| > 0 && start == ring[0] && WalkAt(q.blocks, ring, block, 1, sum, entry)
    case _ => true
  }

  lemma IndexedItems<T>(blocks: seq<Block<T>>, id: nat)
    requires id < |blocks| && Sound(blocks[id])
    ensures Indexed(blocks[id]) && |ItemsOf(blocks, id)| == Len(blocks[id])
  {
  }

  lemma LengthGrows<T>(q: Queue<T>, ring: seq<nat>, live: nat, a: Action<T>, id: nat)
    requires Core(q, ring, live) && ByProducer(a) && Act(q, a).Ok? && id < |q.blocks|
    requires Healthy(Act(q, a).state) && id < |Act(q, a).state.blocks|
    ensures |ItemsOf(q.blocks, id)| <= |ItemsOf(Act(q, a).state.blocks, id)|
  {
    hide Filled, ConsumerKnows, Contents, After, Linked, CellsOk, Items, FreshBlock, GrownSize, Count, Sound;
    BlocksExist(q, ring, live);
    assert Sound(q.blocks[id]) && Sound(Act(q, a).state.blocks[id]);
    IndexedItems(q.blocks, id);
    IndexedItems(Act(q, a).state.blocks, id);
    hide Healthy;
    if a.Producer? && q.producer.PStoreTail? {
      if q.consumer.CStoreFront? {
        HoleIsBehind(q, ring, live);
      }
      PublishedOk(q.blocks[q.tailBlock], IsHole(q, q.tailBlock));
    } else if a.Producer? && q.producer.PStoreNextTail? {
      SpareExists(q, ring, live, q.producer.spare);
      PublishedOk(q.blocks[q.producer.spare], false);
    }
  }

  /** The producer only makes blocks longer. */
  lemma LengthsGrow<T>(q: Queue<T>, ring: seq<nat>, live: nat, a: Action<T>)
    requires Core(q, ring, live) && ByProducer(a) && StepOk(q, ring, live, a)
    ensures var q' := Act(q, a).state;
      && |q'.blocks| >= |q.blocks|
      && forall id :: 0 <= id < |q.blocks| ==> |ItemsOf(q.blocks, id)| <= |ItemsOf(q'.blocks, id)|
  {
    hide Healthy, Linked, Filled, ProducerKnows, ConsumerKnows, Contents, Items, CellsOk;
    var q' := Act(q, a).state;
    ProducerFrame(q, a);
    forall id | 0 <= id < |q.blocks| ensures |ItemsOf(q.blocks, id)| <= |ItemsOf(q'.blocks, id)| {
      LengthGrows(q, ring, live, a, id);
    }
  }

  lemma BracketGrows<T>(blocks: seq<Block<T>>, blocks': seq<Block<T>>, ids: seq<nat>, k: nat, sum: nat, entry: nat)
    requires Bracketed(blocks, ids, k, sum, entry)
    requires forall i :: 0 <= i < |ids| ==> |ItemsOf(blocks, ids[i])| <= |ItemsOf(blocks', ids[i])|
    ensures Bracketed(blocks', ids, k, sum, entry)
  {
    hide ItemsOf;
    SumMonotone(blocks, blocks', ids[..k]);
    SumMonotone(blocks, blocks', ids[k..]);
  }

  /** A block linked in ahead of the walk or behind it does not upset the bracket. */
  lemma BracketInserted<T>(blocks: seq<Block<T>>, ids: seq<nat>, ids': seq<nat>, at: nat, made: nat,
                           k: nat, k': nat, sum: nat, entry: nat)
    requires Bracketed(blocks, ids, k, sum, entry)
    requires at <= |ids| && ids' == ids[..at] + [made] + ids[at..]
    requires (k <= at && k' == k) || (k >= at && k' == k + 1)
    ensures Bracketed(blocks, ids', k', sum, entry)
  {
    hide ItemsOf, Flat;
    if k' == k {
      assert ids'[..k] == ids[..k];
      assert ids'[k..] == ids[k..at] + ([made] + ids[at..]);
      assert ids[k..] == ids[k..at] + ids[at..];
      SumConcat(blocks, ids[k..at], [made] + ids[at..]);
      SumConcat(blocks, [made], ids[at..]);
      SumConcat(blocks, ids[k..at], ids[at..]);
    } else {
      assert ids'[k'..] == ids[k..];
      assert ids'[..k'] == (ids[..at] + [made]) + ids[at..k];
      assert ids[..k] == ids[..at] + ids[at..k];
      SumConcat(blocks, ids[..at] + [made], ids[at..k]);
      SumConcat(blocks, ids[..at], [made]);
      SumConcat(blocks, ids[..at], ids[at..k]);
    }
  }

  lemma WalkGrows<T>(blocks: seq<Block<T>>, blocks': seq<Block<T>>, ring: seq<nat>, block: nat, past: nat, sum: nat,
                     entry: nat)
    requires WalkAt(blocks, ring, block, past, sum, entry)
    requires forall i :: 0 <= i < |ring| ==> |ItemsOf(blocks, ring[i])| <= |ItemsOf(blocks', ring[i])|
    ensures WalkAt(blocks', ring, block, past, sum, entry)
  {
    hide ItemsOf, Bracketed;
    var p: nat :| p < |ring| && ring[p] == block && Bracketed(blocks, ring, p + past, sum, entry);
    BracketGrows(blocks, blocks', ring, p + past, sum, entry);
  }

  lemma WalkInserted<T>(blocks: seq<Block<T>>, ring: seq<nat>, ring': seq<nat>, live: nat, made: nat,
                        block: nat, past: nat, sum: nat, entry: nat)
    requires WalkAt(blocks, ring, block, past, sum, entry) && past <= 1
    requires live < |ring| && ring' == ring[..live + 1] + [made] + ring[live + 1..]
    ensures WalkAt(blocks, ring', block, past, sum, entry)
  {
    hide Bracketed;
    var p: nat :| p < |ring| && ring[p] == block && Bracketed(blocks, ring, p + past, sum, entry);
    var p' := if p <= live then p else p + 1;
    InsertedAt(ring, ring', live, made);
    BracketInserted(blocks, ring, ring', live + 1, made, p + past, p' + past, sum, entry);
    assert ring'[p'] == block;
  }

  lemma WalkSurvives<T>(q: Queue<T>, ring: seq<nat>, live: nat, a: Action<T>, block: nat, past: nat, sum: nat,
                        entry: nat)
    requires Core(q, ring, live) && ByProducer(a) && StepOk(q, ring, live, a)
    requires past <= 1 && WalkAt(q.blocks, ring, block, past, sum, entry)
    ensures WalkAt(Act(q, a).state.blocks, NextRing(q, ring, live, a), block, past, sum, entry)
  {
    hide Healthy, Linked, Filled, ProducerKnows, ConsumerKnows, Contents, Act, WalkAt;
    BlocksExist(q, ring, live);
    LengthsGrow(q, ring, live, a);
    WalkGrows(q.blocks, Act(q, a).state.blocks, ring, block, past, sum, entry);
    if a.Producer? && q.producer.PLink? {
      WalkInserted(Act(q, a).state.blocks, ring, NextRing(q, ring, live, a), live, |q.blocks|, block, past, sum, entry);
    }
  }

  lemma ConsumerWalkSurvives<T>(q: Queue<T>, ring: seq<nat>, live: nat, a: Action<T>, entry: nat)
    requires Core(q, ring, live) && ByProducer(a) && StepOk(q, ring, live, a)
    requires ConsumerWalk(q, ring, entry)
    ensures ConsumerWalk(Act(q, a).state, NextRing(q, ring, live, a), entry)
  {
    hide Healthy, Linked, Filled, ProducerKnows, ConsumerKnows, Contents, Act, WalkAt;
    var q', ring' := Act(q, a).state, NextRing(q, ring, live, a);
    BlocksExist(q, ring, live);
    BlocksExist(q', ring', NextLive(q, live, a));
    ProducerFrame(q, a);
    match q.consumer
    case CSize(_, block, sum) => WalkSurvives(q, ring, live, a, block, 0, sum, entry);
    case CSizeNext(_, block, sum) => WalkSurvives(q, ring, live, a, block, 1, sum, entry);
    case _ =>
  }

  lemma SoundBlock<T>(q: Queue<T>, ring: seq<nat>, live: nat, id: nat)
    requires Linked(q.blocks, q.frontBlock, q.tailBlock, ring, live) && Healthy(q) && id in ring
    ensures id < |q.blocks| && Sound(q.blocks[id])
  {
    hide CellsOk, Sound;
    BlocksExist(q, ring, live);
  }

  lemma WalkCounts<T>(q: Queue<T>, ring: seq<nat>, live: nat, entry: nat)
    requires Core(q, ring, live) && Narrow(q) && q.consumer.CSize? && ConsumerWalk(q, ring, entry)
    requires Act(q, Consumer).Ok?
    ensures ConsumerWalk(Act(q, Consumer).state, ring, entry)
  {
    hide Healthy, Linked, Filled, ProducerKnows, ConsumerKnows, Contents, Sound, CellsOk, After, Count, Items, Flat;
    BlocksExist(q, ring, live);
    var block, sum := q.consumer.block, q.consumer.sum;
    var p: nat :| p < |ring| && ring[p] == block && Bracketed(q.blocks, ring, p, sum, entry);
    SoundBlock(q, ring, live, block);
    CountIsLength(q.blocks[block]);
    IndexedItems(q.blocks, block);
    SumSplit(q.blocks, ring, p);
    assert Bracketed(q.blocks, ring, p + 1, sum + Count(q.blocks[block]), entry);
    assert WalkAt(Act(q, Consumer).state.blocks, ring, block, 1, sum + Count(q.blocks[block]), entry);
  }

  /** Where the walk goes from `ring[p]`. */
  lemma WalkNext<T>(q: Queue<T>, ring: seq<nat>, live: nat, p: nat)
    requires Linked(q.blocks, q.frontBlock, q.tailBlock, ring, live) && p < |ring|
    ensures ring[p] < |q.blocks| && q.blocks[ring[p]].next == ring[Wrap(p, |ring|)]
    ensures ring[Wrap(p, |ring|)] == ring[0] <==> p + 1 == |ring|
  {
  }

  lemma SumEmpty<T>(blocks: seq<Block<T>>, ids: seq<nat>)
    requires |ids| == 0
    ensures Sum(blocks, ids) == 0
  {
  }

  lemma WalkTurns<T>(q: Queue<T>, ring: seq<nat>, live: nat, entry: nat)
    requires Core(q, ring, live) && q.consumer.CSizeNext? && ConsumerWalk(q, ring, entry)
    requires Act(q, Consumer).Ok?
    ensures ConsumerWalk(Act(q, Consumer).state, ring, entry)
    ensures var c := Act(q, Consumer).state.consumer;
      c.CIdle? ==> c.result.Counted? && entry <= c.result.length <= Sum(q.blocks, ring)
  {
    hide Healthy, Linked, Filled, ProducerKnows, ConsumerKnows, Contents, Sound, CellsOk, After, Count, Items, Flat;
    BlocksExist(q, ring, live);
    var block, sum := q.consumer.block, q.consumer.sum;
    var p: nat :| p < |ring| && ring[p] == block && Bracketed(q.blocks, ring, p + 1, sum, entry);
    WalkNext(q, ring, live, p);
    SoundBlock(q, ring, live, block);
    if p + 1 == |ring| {
      assert ring[..p + 1] == ring;
      SumEmpty(q.blocks, ring[p + 1..]);
    } else {
      assert WalkAt(Act(q, Consumer).state.blocks, ring, ring[p + 1], 0, sum, entry);
    }
  }

  // ----- The producer's walk ----------------------------------------------------------------------

  function Turn(walk: seq<nat>, r: nat): seq<nat>
    requires r <= |walk|
  {
    walk[r..] + walk[..r]
  }

  /** The ring as it was when the walk began, `r` blocks further on. */
  ghost predicate Turned(walk: seq<nat>, ring: seq<nat>) {
    exists r: nat :: r <= |walk| && ring == Turn(walk, r)
  }

  lemma TurnedOnce(walk: seq<nat>, ring: seq<nat>, ring': seq<nat>)
    requires Turned(walk, ring) && |ring| > 0 && ring' == ring[1..] + [ring[0]]
    ensures Turned(walk, ring')
  {
    var r: nat :| r <= |walk| && ring == Turn(walk, r);
    var r' := if r < |walk| then r + 1 else 1;
    assert ring' == Turn(walk, r');
  }

  lemma SumTurned<T>(blocks: seq<Block<T>>, walk: seq<nat>, ring: seq<nat>)
    requires Turned(walk, ring)
    ensures Sum(blocks, walk) == Sum(blocks, ring)
  {
    var r: nat :| r <= |walk| && ring == Turn(walk, r);
    assert walk == walk[..r] + walk[r..];
    SumConcat(blocks, walk[..r], walk[r..]);
    SumConcat(blocks, walk[r..], walk[..r]);
  }

  /** What has been counted is no less than what is there now, and with what is still ahead no more
      than the length at entry. */
  ghost predicate BracketedAbove<T>(blocks: seq<Block<T>>, ids: seq<nat>, p: nat, sum: nat, entry: nat) {
    p <= |ids| && sum + Sum(blocks, ids[p..]) <= entry && sum >= Sum(blocks, ids[..p])
  }

  ghost predicate ProducerWalkAt<T>(blocks: seq<Block<T>>, walk: seq<nat>, block: nat, sum: nat, entry: nat) {
    exists p: nat :: p < |walk| && walk[p] == block && BracketedAbove(blocks, walk, p, sum, entry)
  }

  ghost predicate ProducerWalk<T>(q: Queue<T>, ring: seq<nat>, live: nat, walk: seq<nat>, entry: nat) {
    match q.producer
    case PSizeStart => |Contents(q.blocks, ring, live)| <= entry
    case PSize(start, block, sum) =>
      && Circle(q.blocks, walk) && Turned(walk, ring) && start == walk[0]
      && ProducerWalkAt(q.blocks, walk, block, sum, entry)
    case _ => true
  }

  lemma ConsumerFrame<T>(q: Queue<T>, a: Action<T>)
    requires Act(q, a).Ok? && !ByProducer(a)
    ensures var q' := Act(q, a).state;
      && |q'.blocks| == |q.blocks| && q'.producer == q.producer
      && forall id :: 0 <= id < |q.blocks| ==> q'.blocks[id].next == q.blocks[id].next
  {
    hide After, Count;
  }

  lemma LengthShrinks<T>(q: Queue<T>, ring: seq<nat>, live: nat, a: Action<T>, id: nat)
    requires Core(q, ring, live) && !ByProducer(a) && Act(q, a).Ok? && id < |q.blocks|
    requires Healthy(Act(q, a).state) && id < |Act(q, a).state.blocks|
    ensures |ItemsOf(Act(q, a).state.blocks, id)| <= |ItemsOf(q.blocks, id)|
  {
    hide Filled, ProducerKnows, Contents, After, Linked, CellsOk, Items, Count, Sound;
    BlocksExist(q, ring, live);
    assert Sound(q.blocks[id]) && Sound(Act(q, a).state.blocks[id]);
    IndexedItems(q.blocks, id);
    IndexedItems(Act(q, a).state.blocks, id);
    hide Healthy;
    if a.Consumer? && q.consumer.CStoreFront? {
      SeenIff(q.blocks[q.frontBlock]);
      ReleasedOk(q.blocks[q.frontBlock], IsExtra(q, q.frontBlock));
    }
  }

  /** The consumer only makes blocks shorter, and leaves `next` alone. */
  lemma LengthsShrink<T>(q: Queue<T>, ring: seq<nat>, live: nat, a: Action<T>)
    requires Core(q, ring, live) && !ByProducer(a) && StepOk(q, ring, live, a)
    ensures var q' := Act(q, a).state;
      && |q'.blocks| == |q.blocks| && q'.producer == q.producer
      && forall id :: 0 <= id < |q.blocks| ==>
           q'.blocks[id].next == q.blocks[id].next && |ItemsOf(q'.blocks, id)| <= |ItemsOf(q.blocks, id)|
  {
    hide Healthy, Linked, Filled, ProducerKnows, ConsumerKnows, Contents, Items, CellsOk;
    var q' := Act(q, a).state;
    ConsumerFrame(q, a);
    forall id | 0 <= id < |q.blocks| ensures |ItemsOf(q'.blocks, id)| <= |ItemsOf(q.blocks, id)| {
      LengthShrinks(q, ring, live, a, id);
    }
  }

  lemma CircleKept<T>(blocks: seq<Block<T>>, blocks': seq<Block<T>>, walk: seq<nat>)
    requires Circle(blocks, walk) && |blocks'| == |blocks|
    requires forall id :: 0 <= id < |blocks| ==> blocks'[id].next == blocks[id].next
    ensures Circle(blocks', walk)
  {
  }

  lemma WalkKept<T>(blocks: seq<Block<T>>, blocks': seq<Block<T>>, walk: seq<nat>, block: nat, sum: nat, entry: nat)
    requires Circle(blocks, walk) && |blocks'| == |blocks|
    requires forall id :: 0 <= id < |blocks| ==> |ItemsOf(blocks', id)| <= |ItemsOf(blocks, id)|
    requires ProducerWalkAt(blocks, walk, block, sum, entry)
    ensures ProducerWalkAt(blocks', walk, block, sum, entry)
  {
    hide ItemsOf;
    var p: nat :| p < |walk| && walk[p] == block && BracketedAbove(blocks, walk, p, sum, entry);
    assert forall i :: 0 <= i < |walk| ==> walk[i] < |blocks|;
    SumMonotone(blocks', blocks, walk[..p]);
    SumMonotone(blocks', blocks, walk[p..]);
    assert BracketedAbove(blocks', walk, p, sum, entry);
  }

  lemma ProducerWalkSurvives<T>(q: Queue<T>, ring: seq<nat>, live: nat, a: Action<T>, walk: seq<nat>, entry: nat)
    requires Core(q, ring, live) && !ByProducer(a) && StepOk(q, ring, live, a)
    requires ProducerWalk(q, ring, live, walk, entry)
    ensures ProducerWalk(Act(q, a).state, NextRing(q, ring, live, a), NextLive(q, live, a), walk, entry)
  {
    hide Healthy, Linked, Filled, ProducerKnows, ConsumerKnows, Contents, Act, Circle, Turned, ProducerWalkAt;
    var q', ring' := Act(q, a).state, NextRing(q, ring, live, a);
    LengthsShrink(q, ring, live, a);
    if q.producer.PSize? {
      CircleKept(q.blocks, q'.blocks, walk);
      WalkKept(q.blocks, q'.blocks, walk, q.producer.block, q.producer.sum, entry);
      if ring' != ring {
        TurnedOnce(walk, ring, ring');
      }
    }
  }

  lemma RingTurned<T>(blocks: seq<Block<T>>, front: nat, tail: nat, ring: seq<nat>, live: nat)
    requires Linked(blocks, front, tail, ring, live)
    ensures Circle(blocks, ring) && Turned(ring, ring)
  {
    assert ring == Turn(ring, 0);
  }

  lemma WalkBegins<T>(q: Queue<T>, ring: seq<nat>, live: nat, entry: nat, memory: bool)
    requires Core(q, ring, live) && q.producer.PSizeStart? && |Contents(q.blocks, ring, live)| <= entry
    requires Act(q, Producer(memory)).Ok?
    ensures ProducerWalk(Act(q, Producer(memory)).state, ring, live, ring, entry)
  {
    hide Healthy, Linked, Filled, ProducerKnows, ConsumerKnows, Contents, Circle, Turned, Sound, CellsOk, Items, Flat;
    BlocksExist(q, ring, live);
    RingTurned(q.blocks, q.frontBlock, q.tailBlock, ring, live);
    SumOfRing(q, ring, live);
    SumEmpty(q.blocks, ring[..0]);
    assert ring[0..] == ring;
    assert BracketedAbove(q.blocks, ring, 0, 0, entry);
    assert Act(q, Producer(memory)).state == q.(producer := PSize(q.frontBlock, q.frontBlock, 0));
  }

  lemma OneCounted<T>(blocks: seq<Block<T>>, walk: seq<nat>, p: nat, sum: nat, entry: nat)
    requires p < |walk| && BracketedAbove(blocks, walk, p, sum, entry)
    ensures BracketedAbove(blocks, walk, p + 1, sum + |ItemsOf(blocks, walk[p])|, entry)
  {
    SumSplit(blocks, walk, p);
  }

  lemma AllCounted<T>(blocks: seq<Block<T>>, walk: seq<nat>, sum: nat, entry: nat)
    requires BracketedAbove(blocks, walk, |walk|, sum, entry)
    ensures Sum(blocks, walk) <= sum <= entry
  {
    assert walk[..|walk|] == walk;
    assert walk[|walk|..] == [];
  }

  lemma InRing<T>(q: Queue<T>, ring: seq<nat>, live: nat, id: nat)
    requires Linked(q.blocks, q.frontBlock, q.tailBlock, ring, live) && id < |q.blocks|
    ensures id in ring
  {
  }

  lemma CountInRing<T>(q: Queue<T>, ring: seq<nat>, live: nat, id: nat)
    requires Linked(q.blocks, q.frontBlock, q.tailBlock, ring, live) && Healthy(q) && Narrow(q) && id < |q.blocks|
    ensures Valid(q, id) && Count(q.blocks[id]) == |ItemsOf(q.blocks, id)|
  {
    hide Healthy, Linked, Count, Sound;
    InRing(q, ring, live, id);
    SoundBlock(q, ring, live, id);
    CountIsLength(q.blocks[id]);
    IndexedItems(q.blocks, id);
  }

  /** Where the walk goes from `walk[p]`. */
  lemma CircleNext<T>(blocks: seq<Block<T>>, walk: seq<nat>, p: nat)
    requires Circle(blocks, walk) && p < |walk|
    ensures walk[p] < |blocks| && blocks[walk[p]].next == walk[Wrap(p, |walk|)]
    ensures walk[Wrap(p, |walk|)] == walk[0] <==> p + 1 == |walk|
  {
  }

  lemma WalkAdvances<T>(q: Queue<T>, ring: seq<nat>, live: nat, walk: seq<nat>, entry: nat, memory: bool)
    requires Core(q, ring, live) && Narrow(q) && q.producer.PSize? && ProducerWalk(q, ring, live, walk, entry)
    requires Act(q, Producer(memory)).Ok?
    ensures ProducerWalk(Act(q, Producer(memory)).state, ring, live, walk, entry)
    ensures var p := Act(q, Producer(memory)).state.producer;
      p.PIdle? ==> p.result.Counted? && |Contents(q.blocks, ring, live)| <= p.result.length <= entry
  {
    hide Healthy, Linked, Filled, ProducerKnows, ConsumerKnows, Contents, Turned, Sound, CellsOk;
    hide After, Count, ItemsOf, Flat, Circle, BracketedAbove;
    BlocksExist(q, ring, live);
    var block, sum := q.producer.block, q.producer.sum;
    var p: nat :| p < |walk| && walk[p] == block && BracketedAbove(q.blocks, walk, p, sum, entry);
    CircleNext(q.blocks, walk, p);
    CountInRing(q, ring, live, block);
    var total := sum + Count(q.blocks[block]);
    OneCounted(q.blocks, walk, p, sum, entry);
    SizeStepAct(q, memory);
    hide Act;
    if p + 1 == |walk| {
      AllCounted(q.blocks, walk, total, entry);
      SumTurned(q.blocks, walk, ring);
      SumOfRing(q, ring, live);
    } else {
      assert ProducerWalkAt(q.blocks, walk, walk[p + 1], total, entry);
    }
  }

  // ----- Every run ---------------------------------------------------------------------------------

  ghost predicate WatchInv<T>(w: Watched<T>) {
    var s := w.s;
    && Inv(s) && Sizes(s.q) && 2 * s.q.maxBlockSize <= WORD
    && ConsumerWalk(s.q, s.ring, w.consumerEntry)
    && ProducerWalk(s.q, s.ring, s.live, w.walk, w.producerEntry)
  }

  lemma NotWalking<T>(q: Queue<T>, ring: seq<nat>, live: nat, a: Action<T>, entry: nat)
    requires Core(q, ring, live) && !ByProducer(a) && Act(q, a).Ok? && ConsumerWalk(q, ring, entry)
    requires a.Consumer? ==> !q.consumer.CSize? && !q.consumer.CSizeNext?
    ensures ConsumerWalk(Act(q, a).state, NextRing(q, ring, live, a),
              if a.ConsumerSize? && q.consumer.CIdle? then |Contents(q.blocks, ring, live)| else entry)
  {
    hide Healthy, Linked, Filled, ProducerKnows, ConsumerKnows, Contents, After, Count, Flat;
    if a.ConsumerSize? && q.consumer.CIdle? {
      BlocksExist(q, ring, live);
      SumOfRing(q, ring, live);
      SumEmpty(q.blocks, ring[..0]);
      assert ring[0..] == ring;
      assert Bracketed(q.blocks, ring, 0 + 0, 0, |Contents(q.blocks, ring, live)|);
    }
  }

  lemma ConsumerWalkKept<T>(w: Watched<T>, a: Action<T>)
    requires WatchInv(w) && Watch(w, a).Ok? && StepOk(w.s.q, w.s.ring, w.s.live, a)
    ensures ConsumerWalk(Watch(w, a).state.s.q, Watch(w, a).state.s.ring, Watch(w, a).state.consumerEntry)
  {
    hide Core, History, EmptySeen, PeekValid, Act, Record, ConsumerWalk, ProducerWalk;
    var s := w.s;
    if ByProducer(a) {
      ConsumerWalkSurvives(s.q, s.ring, s.live, a, w.consumerEntry);
    } else if a.Consumer? && s.q.consumer.CSize? {
      WalkCounts(s.q, s.ring, s.live, w.consumerEntry);
    } else if a.Consumer? && s.q.consumer.CSizeNext? {
      WalkTurns(s.q, s.ring, s.live, w.consumerEntry);
    } else {
      NotWalking(s.q, s.ring, s.live, a, w.consumerEntry);
    }
  }

  lemma PSizeStartEntry<T>(q: Queue<T>, ring: seq<nat>, live: nat, walk: seq<nat>, entry: nat)
    requires q.producer.PSizeStart? && ProducerWalk(q, ring, live, walk, entry)
    ensures |Contents(q.blocks, ring, live)| <= entry
  {
  }

  lemma ProducerNotWalking<T>(q: Queue<T>, ring: seq<nat>, live: nat, a: Action<T>, walk: seq<nat>, entry: nat)
    requires ByProducer(a) && Act(q, a).Ok? && ProducerWalk(q, ring, live, walk, entry)
    requires a.Producer? ==> !q.producer.PSize? && !q.producer.PSizeStart?
    ensures ProducerWalk(Act(q, a).state, NextRing(q, ring, live, a), NextLive(q, live, a), walk,
              if a.ProducerSize? && q.producer.PIdle? then |Contents(q.blocks, ring, live)| else entry)
  {
    hide Contents, After, Count, Flat, Circle, Turned, ProducerWalkAt, FreshBlock, GrownSize;
  }

  lemma ProducerWalkKept<T>(w: Watched<T>, a: Action<T>)
    requires WatchInv(w) && Watch(w, a).Ok? && StepOk(w.s.q, w.s.ring, w.s.live, a)
    ensures var w' := Watch(w, a).state; ProducerWalk(w'.s.q, w'.s.ring, w'.s.live, w'.walk, w'.producerEntry)
  {
    hide Core, History, EmptySeen, PeekValid, Act, Record, ConsumerWalk, ProducerWalk;
    var s := w.s;
    if !ByProducer(a) {
      ProducerWalkSurvives(s.q, s.ring, s.live, a, w.walk, w.producerEntry);
    } else if a.Producer? && s.q.producer.PSizeStart? {
      PSizeStartEntry(s.q, s.ring, s.live, w.walk, w.producerEntry);
      WalkBegins(s.q, s.ring, s.live, w.producerEntry, a.memory);
    } else if a.Producer? && s.q.producer.PSize? {
      WalkAdvances(s.q, s.ring, s.live, w.walk, w.producerEntry, a.memory);
    } else {
      ProducerNotWalking(s.q, s.ring, s.live, a, w.walk, w.producerEntry);
    }
  }

  lemma WatchKeeps<T>(w: Watched<T>, a: Action<T>)
    requires WatchInv(w)
    ensures Watch(w, a).Ok? && WatchInv(Watch(w, a).state)
  {
    hide Core, History, EmptySeen, PeekValid, Act, Record, ConsumerWalk, ProducerWalk, Holds;
    var s := w.s;
    NextKeeps(s, a);
    SizesNext(s.q, a);
    SizesFrame(s.q, a);
    EveryStep(s.q, s.ring, s.live, a);
    ConsumerWalkKept(w, a);
    ProducerWalkKept(w, a);
  }

  function WatchRun<T>(w: Watched<T>, acts: seq<Action<T>>): Outcome<Watched<T>> {
    if acts == [] then Ok(w) else
    match WatchRun(w, acts[..|acts| - 1])
    case Fault(why) => Fault(why)
    case Ok(w') => Watch(w', acts[|acts| - 1])
  }

  function StartWatched<T>(types: Types, size: nat, maxBlockSize: nat, unset: T): Watched<T>
    requires maxBlockSize >= 2
  {
    Watched(Start(types, size, maxBlockSize, unset), 0, 0, [])
  }

  lemma StartWatchedOk<T>(types: Types, size: nat, maxBlockSize: nat, unset: T)
    requires Constructible(types, size, maxBlockSize)
    ensures WatchInv(StartWatched(types, size, maxBlockSize, unset))
  {
    hide Inv, InitialBlockSize, InitialBlockCount;
    StartCapacity(types, size, maxBlockSize, unset);
  }

  lemma StepWatched<T>(w: Watched<T>, a: Action<T>)
    requires WatchInv(w)
    ensures Watch(w, a).Ok? && WatchInv(Watch(w, a).state)
  {
    hide WatchInv, Watch;
    WatchKeeps(w, a);
  }

  lemma {:induction false} WatchRunKeeps<T>(w: Watched<T>, acts: seq<Action<T>>)
    requires WatchInv(w)
    ensures WatchRun(w, acts).Ok? && WatchInv(WatchRun(w, acts).state)
  {
    hide WatchInv, Watch;
    if acts == [] {
    } else {
      WatchRunKeeps(w, acts[..|acts| - 1]);
      StepWatched(WatchRun(w, acts[..|acts| - 1]).state, acts[|acts| - 1]);
    }
  }

  lemma ConsumerReturns<T>(w: Watched<T>)
    requires WatchInv(w) && w.s.q.consumer.CSizeNext?
    ensures Act(w.s.q, Consumer).Ok?
    ensures var c := Act(w.s.q, Consumer).state.consumer; c.CIdle? ==>
      c.result.Counted? && w.consumerEntry <= c.result.length <= |Holds(w.s)| + InFlight(w.s.q)
  {
    hide Core, History, EmptySeen, PeekValid, Act, ConsumerWalk, ProducerWalk, Sum;
    EveryStep(w.s.q, w.s.ring, w.s.live, Consumer);
    WalkTurns(w.s.q, w.s.ring, w.s.live, w.consumerEntry);
    SumOfRing(w.s.q, w.s.ring, w.s.live);
  }

  /** `size_approx` from the consumer returns at least the length at entry, and at most the length at
      return and one more if an element is then on its way into a new tail block. */
  lemma ConsumerSizeBracket<T>(types: Types, size: nat, maxBlockSize: nat, unset: T, acts: seq<Action<T>>)
    requires Constructible(types, size, maxBlockSize)
    ensures WatchRun(StartWatched(types, size, maxBlockSize, unset), acts).Ok?
    ensures var w := WatchRun(StartWatched(types, size, maxBlockSize, unset), acts).state;
      w.s.q.consumer.CSizeNext? ==>
        && Act(w.s.q, Consumer).Ok?
        && var c := Act(w.s.q, Consumer).state.consumer;
        && (c.CIdle? ==>
              c.result.Counted? && w.consumerEntry <= c.result.length <= |Holds(w.s)| + InFlight(w.s.q))
  {
    hide WatchInv, StartWatched, WatchRun;
    StartWatchedOk(types, size, maxBlockSize, unset);
    WatchRunKeeps(StartWatched(types, size, maxBlockSize, unset), acts);
    var w := WatchRun(StartWatched(types, size, maxBlockSize, unset), acts).state;
    if w.s.q.consumer.CSizeNext? {
      ConsumerReturns(w);
    }
  }

  lemma ProducerReturns<T>(w: Watched<T>)
    requires WatchInv(w) && w.s.q.producer.PSize?
    ensures Act(w.s.q, Producer(true)).Ok?
    ensures var p := Act(w.s.q, Producer(true)).state.producer; p.PIdle? ==>
      p.result.Counted? && |Holds(w.s)| <= p.result.length <= w.producerEntry
  {
    hide Core, History, EmptySeen, PeekValid, Act, ConsumerWalk, ProducerWalk;
    EveryStep(w.s.q, w.s.ring, w.s.live, Producer(true));
    WalkAdvances(w.s.q, w.s.ring, w.s.live, w.walk, w.producerEntry, true);
  }

  /** `size_approx` from the producer lies between the length at return and the length at entry. */
  lemma ProducerSizeBracket<T>(types: Types, size: nat, maxBlockSize: nat, unset: T, acts: seq<Action<T>>)
    requires Constructible(types, size, maxBlockSize)
    ensures WatchRun(StartWatched(types, size, maxBlockSize, unset), acts).Ok?
    ensures var w := WatchRun(StartWatched(types, size, maxBlockSize, unset), acts).state;
      w.s.q.producer.PSize? ==>
        && Act(w.s.q, Producer(true)).Ok?
        && var p := Act(w.s.q, Producer(true)).state.producer;
        && (p.PIdle? ==> p.result.Counted? && |Holds(w.s)| <= p.result.length <= w.producerEntry)
  {
    hide WatchInv, StartWatched, WatchRun;
    StartWatchedOk(types, size, maxBlockSize, unset);
    WatchRunKeeps(StartWatched(types, size, maxBlockSize, unset), acts);
    var w := WatchRun(StartWatched(types, size, maxBlockSize, unset), acts).state;
    if w.s.q.producer.PSize? {
      ProducerReturns(w);
    }
  }
}
