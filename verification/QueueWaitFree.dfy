/** Every call is wait-free: an enqueue, a dequeue or a peek returns within a fixed number of its own
    steps, `size_approx` within a number bounded by that of the blocks, whatever the other thread does
    or does not do. */
module QueueWaitFree {
  import B = Blocks
  import opened QueueSteps
  import opened QueueInvariant
  import P = QueueProducer
  import C = QueueConsumer
  import opened QueueRuns
  import opened QueueSize

  /** How many of its own steps the producer is from returning; `malloc` counts as one. */
  function EnqueueRank<T>(p: Producer<T>): nat {
    match p
    case PCheck(_, _) => 7
    case PReadFront(_, _) => 6
    case PReadNext(_, _) => 5
    case PReadNextFront(_, _) => 4
    case PConstructNext(_, _) => 3
    case PAlloc(_) => 3
    case PStoreNextTail(_, _) => 2
    case PLink(_, _) => 2
    case PConstruct(_) => 2
    case PStoreTail(_) => 1
    case PStoreTailBlock(_, _) => 1
    case _ => 0
  }

  function DequeueRank<T>(c: Consumer<T>): nat {
    match c
    case CLook(_) => 9
    case CReadTail(_) => 8
    case CReadTailBlock(_) => 7
    case CReReadTail(_) => 6
    case CReadNext(_) => 5
    case CReadNextTail(_, _) => 4
    case CStoreFrontBlock(_) => 3
    case CTake => 2
    case CStoreFront(_) => 1
    case _ => 0
  }

  /** The producer is inside an enqueue in every state along `acts`. */
  ghost predicate InsideEnqueue<T>(q: Queue<T>, acts: seq<Action<T>>)
    decreases |acts|
  {
    && EnqueueRank(q.producer) > 0
    && (acts != [] ==> Act(q, acts[0]).Ok? && InsideEnqueue(Act(q, acts[0]).state, acts[1..]))
  }

  ghost predicate InsideDequeue<T>(q: Queue<T>, acts: seq<Action<T>>)
    decreases |acts|
  {
    && DequeueRank(q.consumer) > 0
    && (acts != [] ==> Act(q, acts[0]).Ok? && InsideDequeue(Act(q, acts[0]).state, acts[1..]))
  }

  function ProducerSteps<T>(acts: seq<Action<T>>): nat {
    if acts == [] then 0 else (if acts[0].Producer? then 1 else 0) + ProducerSteps(acts[1..])
  }

  function ConsumerSteps<T>(acts: seq<Action<T>>): nat {
    if acts == [] then 0 else (if acts[0].Consumer? then 1 else 0) + ConsumerSteps(acts[1..])
  }

  /** Every step of the producer brings it nearer its return; no other step moves it away. */
  lemma EnqueueRankFalls<T>(q: Queue<T>, a: Action<T>)
    requires EnqueueRank(q.producer) > 0 && Act(q, a).Ok?
    ensures var p := Act(q, a).state.producer;
      if a.Producer? then EnqueueRank(p) < EnqueueRank(q.producer) else p == q.producer
  {
    hide B.After, Count, FreshBlock, GrownSize;
  }

  lemma DequeueRankFalls<T>(q: Queue<T>, a: Action<T>)
    requires DequeueRank(q.consumer) > 0 && Act(q, a).Ok?
    ensures var c := Act(q, a).state.consumer;
      if a.Consumer? then DequeueRank(c) < DequeueRank(q.consumer) else c == q.consumer
  {
    hide B.After, Count, FreshBlock, GrownSize;
  }

  /** An enqueue returns with its seventh step at the latest. */
  lemma {:induction false} EnqueueIsWaitFree<T>(q: Queue<T>, acts: seq<Action<T>>)
    requires InsideEnqueue(q, acts)
    ensures ProducerSteps(acts) < EnqueueRank(q.producer) <= 7
    decreases |acts|
  {
    hide Act;
    if acts == [] {
    } else {
      EnqueueRankFalls(q, acts[0]);
      EnqueueIsWaitFree(Act(q, acts[0]).state, acts[1..]);
    }
  }

  /** A dequeue, pop or peek returns with its ninth step at the latest. */
  lemma {:induction false} DequeueIsWaitFree<T>(q: Queue<T>, acts: seq<Action<T>>)
    requires InsideDequeue(q, acts)
    ensures ConsumerSteps(acts) < DequeueRank(q.consumer) <= 9
    decreases |acts|
  {
    hide Act;
    if acts == [] {
    } else {
      DequeueRankFalls(q, acts[0]);
      DequeueIsWaitFree(Act(q, acts[0]).state, acts[1..]);
    }
  }

  // ----- size_approx ------------------------------------------------------------------------------

  /** Where `acts` lead. */
  function Reached<T>(q: Queue<T>, acts: seq<Action<T>>): Outcome<Queue<T>>
    decreases |acts|
  {
    if acts == [] then Ok(q) else
    match Act(q, acts[0])
    case Fault(why) => Fault(why)
    case Ok(q') => Reached(q', acts[1..])
  }

  predicate ConsumerCounts<T>(q: Queue<T>) {
    q.consumer.CSize? || q.consumer.CSizeNext?
  }

  predicate ProducerCounts<T>(q: Queue<T>) {
    q.producer.PSizeStart? || q.producer.PSize?
  }

  /** The consumer is inside `size_approx` in every state along `acts`. */
  ghost predicate InsideConsumerSize<T>(q: Queue<T>, acts: seq<Action<T>>)
    decreases |acts|
  {
    && ConsumerCounts(q)
    && (acts != [] ==> Act(q, acts[0]).Ok? && InsideConsumerSize(Act(q, acts[0]).state, acts[1..]))
  }

  ghost predicate InsideProducerSize<T>(q: Queue<T>, acts: seq<Action<T>>)
    decreases |acts|
  {
    && ProducerCounts(q)
    && (acts != [] ==> Act(q, acts[0]).Ok? && InsideProducerSize(Act(q, acts[0]).state, acts[1..]))
  }

  /** The consumer's walk has come to `ring[p]`. */
  ghost predicate WalkedTo<T>(q: Queue<T>, ring: seq<nat>, p: nat) {
    ConsumerCounts(q) && p < |ring| && q.consumer.block == ring[p] && q.consumer.start == q.frontBlock
  }

  /** Two steps for each block passed. */
  function Walked<T>(q: Queue<T>, p: nat): nat {
    2 * p + if q.consumer.CSizeNext? then 1 else 0
  }

  /** A block that the producer links in behind the walk moves it on by one, but takes it no step. */
  lemma WalkPushedOn<T>(q: Queue<T>, ring: seq<nat>, live: nat, a: Action<T>, p: nat) returns (p': nat)
    requires Core(q, ring, live) && StepOk(q, ring, live, a) && ByProducer(a) && WalkedTo(q, ring, p)
    ensures WalkedTo(Act(q, a).state, NextRing(q, ring, live, a), p')
    ensures Walked(Act(q, a).state, p') >= Walked(q, p)
  {
    hide Healthy, Linked, Filled, ProducerKnows, ConsumerKnows, Contents, Act;
    P.BlocksExist(q, ring, live);
    ProducerFrame(q, a);
    p' := p;
    if a.Producer? && q.producer.PLink? {
      P.InsertedAt(ring, NextRing(q, ring, live, a), live, |q.blocks|);
      p' := if p <= live then p else p + 1;
    }
  }

  lemma WalkGoesOn<T>(q: Queue<T>, ring: seq<nat>, live: nat, a: Action<T>, p: nat) returns (p': nat)
    requires Core(q, ring, live) && Act(q, a).Ok? && !ByProducer(a) && WalkedTo(q, ring, p)
    requires ConsumerCounts(Act(q, a).state)
    ensures NextRing(q, ring, live, a) == ring && WalkedTo(Act(q, a).state, ring, p')
    ensures Walked(Act(q, a).state, p') == Walked(q, p) + if a.Consumer? then 1 else 0
  {
    hide Healthy, Linked, Filled, ProducerKnows, ConsumerKnows, Contents, Count, B.After;
    P.BlocksExist(q, ring, live);
    WalkNext(q, ring, live, p);
    p' := if a.Consumer? && q.consumer.CSizeNext? then p + 1 else p;
  }

  lemma WalkInside<T>(q: Queue<T>, ring: seq<nat>, live: nat, p: nat)
    requires Core(q, ring, live) && WalkedTo(q, ring, p)
    ensures Walked(q, p) < 2 * |q.blocks|
  {
    hide Healthy, Filled, ProducerKnows, ConsumerKnows;
  }

  lemma Kept<T>(q: Queue<T>, ring: seq<nat>, live: nat, a: Action<T>)
    requires StepOk(q, ring, live, a)
    ensures Act(q, a).Ok? && Core(Act(q, a).state, NextRing(q, ring, live, a), NextLive(q, live, a))
  {
    hide Core, Act, Contents;
  }

  lemma {:induction false} WalkBounded<T>(q: Queue<T>, ring: seq<nat>, live: nat, acts: seq<Action<T>>, p: nat)
    requires Core(q, ring, live) && InsideConsumerSize(q, acts) && WalkedTo(q, ring, p)
    ensures Reached(q, acts).Ok? && Walked(q, p) + ConsumerSteps(acts) < 2 * |Reached(q, acts).state.blocks|
    decreases |acts|
  {
    hide Core, Act, NextRing, NextLive, WalkedTo, Walked;
    if acts == [] {
      WalkInside(q, ring, live, p);
    } else {
      var a := acts[0];
      C.EveryStep(q, ring, live, a);
      Kept(q, ring, live, a);
      var p': nat;
      if ByProducer(a) {
        p' := WalkPushedOn(q, ring, live, a, p);
      } else {
        p' := WalkGoesOn(q, ring, live, a, p);
      }
      WalkBounded(Act(q, a).state, NextRing(q, ring, live, a), NextLive(q, live, a), acts[1..], p');
    }
  }

  /** `size_approx` called by the consumer returns with its step number twice the number of blocks that
      there are by then at the latest, although the producer may link in new ones under way. */
  lemma ConsumerSizeIsWaitFree<T>(q: Queue<T>, ring: seq<nat>, live: nat, acts: seq<Action<T>>)
    requires Core(q, ring, live) && q.consumer == CSize(q.frontBlock, q.frontBlock, 0)
    requires InsideConsumerSize(q, acts)
    ensures Reached(q, acts).Ok? && ConsumerSteps(acts) < 2 * |Reached(q, acts).state.blocks|
  {
    hide Healthy, Filled, ProducerKnows, ConsumerKnows, Circle;
    assert |ring| > 0 && WalkedTo(q, ring, 0);
    WalkBounded(q, ring, live, acts, 0);
  }

  /** The producer's walk has come to `walk[p]`. */
  ghost predicate CountedTo<T>(q: Queue<T>, walk: seq<nat>, p: nat) {
    && q.producer.PSize? && Circle(q.blocks, walk) && p < |walk|
    && q.producer.block == walk[p] && q.producer.start == walk[0]
  }

  lemma CountGoesOn<T>(q: Queue<T>, ring: seq<nat>, live: nat, a: Action<T>, walk: seq<nat>, p: nat)
    requires Core(q, ring, live) && Act(q, a).Ok? && CountedTo(q, walk, p) && ProducerCounts(Act(q, a).state)
    ensures CountedTo(Act(q, a).state, walk, p + if a.Producer? then 1 else 0)
  {
    hide Healthy, Linked, Filled, ProducerKnows, ConsumerKnows, Contents, Count;
    P.BlocksExist(q, ring, live);
    if a.Producer? {
      P.SizeKnows(q, ring, live);
      P.SizeStepAct(q, a.memory);
    } else if !ByProducer(a) {
      hide Act, Circle;
      ConsumerFrame(q, a);
      CircleKept(q.blocks, Act(q, a).state.blocks, walk);
    }
  }

  lemma CountInside<T>(q: Queue<T>, walk: seq<nat>, p: nat)
    requires CountedTo(q, walk, p)
    ensures p < |walk|
  {
  }

  lemma {:induction false} CountBounded<T>(q: Queue<T>, ring: seq<nat>, live: nat, acts: seq<Action<T>>,
                                           walk: seq<nat>, p: nat)
    requires Core(q, ring, live) && InsideProducerSize(q, acts) && CountedTo(q, walk, p)
    ensures p + ProducerSteps(acts) < |walk|
    decreases |acts|
  {
    hide Core, Act, NextRing, NextLive, Circle, CountedTo, ProducerCounts, StepOk;
    if acts == [] {
      CountInside(q, walk, p);
    } else {
      var a := acts[0];
      C.EveryStep(q, ring, live, a);
      Kept(q, ring, live, a);
      CountGoesOn(q, ring, live, a, walk, p);
      CountBounded(Act(q, a).state, NextRing(q, ring, live, a), NextLive(q, live, a), acts[1..], walk,
                   p + if a.Producer? then 1 else 0);
    }
  }

  lemma CountBegins<T>(q: Queue<T>, ring: seq<nat>, live: nat, a: Action<T>)
    requires Core(q, ring, live) && Act(q, a).Ok? && q.producer.PSizeStart?
    ensures |ring| == |q.blocks| == |Act(q, a).state.blocks|
    ensures a.Producer? ==> CountedTo(Act(q, a).state, ring, 0)
    ensures !a.Producer? ==> Act(q, a).state.producer == q.producer
  {
    hide Healthy, Filled, ProducerKnows, ConsumerKnows, Contents, Count, B.After;
  }

  /** Called by the producer it returns with a step number one more than that of the blocks at the
      latest: only the producer could link in new ones. */
  lemma {:induction false} ProducerSizeIsWaitFree<T>(q: Queue<T>, ring: seq<nat>, live: nat, acts: seq<Action<T>>)
    requires Core(q, ring, live) && q.producer.PSizeStart? && InsideProducerSize(q, acts)
    ensures ProducerSteps(acts) <= |q.blocks|
    decreases |acts|
  {
    hide Core, Act, NextRing, NextLive, Circle;
    if acts == [] {
    } else {
      var a := acts[0];
      C.EveryStep(q, ring, live, a);
      Kept(q, ring, live, a);
      CountBegins(q, ring, live, a);
      var q', ring', live' := Act(q, a).state, NextRing(q, ring, live, a), NextLive(q, live, a);
      if a.Producer? {
        CountBounded(q', ring', live', acts[1..], ring, 0);
      } else {
        ProducerSizeIsWaitFree(q', ring', live', acts[1..]);
      }
    }
  }
}
