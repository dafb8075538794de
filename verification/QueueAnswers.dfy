/** One call of the queue from its beginning to its answer, whatever the other thread does meanwhile: the
    answer says what the call has done. */
module QueueAnswers {
  import opened Allocation
  import opened Blocks
  import opened Options
  import opened QueueSteps
  import opened QueueInvariant
  import opened QueueRuns
  import opened QueueCapacity

  // ----- Calls of the producer --------------------------------------------------------------------

  predicate BeginsProducerCall<T>(a: Action<T>) {
    a.Enqueue? || a.TryEnqueue? || a.ProducerSize?
  }

  function Enqueues<T>(x: T, canAlloc: bool): Action<T> {
    if canAlloc then Enqueue(x) else TryEnqueue(x)
  }

  /** `acts` begins an enqueue, and no other call of the producer. */
  ghost predicate OneEnqueue<T>(x: T, canAlloc: bool, acts: seq<Action<T>>) {
    && acts != [] && acts[0] == Enqueues(x, canAlloc)
    && forall k :: 1 <= k < |acts| ==> !BeginsProducerCall(acts[k])
  }

  /** Where the producer can be in a call that asked to enqueue `x`: only `enqueue` allocates, and only
      `try_enqueue` says that the queue is full. */
  ghost predicate Intends<T>(p: Producer<T>, x: T, canAlloc: bool) {
    match p
    case PIdle(result) =>
      result.Accepted? || (result.Full? && !canAlloc) || (result.NoMemory? && canAlloc)
    case PCheck(y, c) => y == x && c == canAlloc
    case PReadFront(y, c) => y == x && c == canAlloc
    case PReadNext(y, c) => y == x && c == canAlloc
    case PAlloc(y) => y == x && canAlloc
    case PLink(y, _) => y == x && canAlloc
    case PConstruct(y) => y == x
    case PStoreTail(y) => y == x
    case PReadNextFront(y, _) => y == x
    case PConstructNext(y, _) => y == x
    case PStoreNextTail(y, _) => y == x
    case PStoreTailBlock(y, _) => y == x
    case _ => false
  }

  /** The log and the blocks at that point, `e` having been enqueued before and `n` blocks been there. */
  ghost predicate Enqueuing<T>(s: System<T>, e: seq<T>, n: nat, x: T, canAlloc: bool) {
    && Intends(s.q.producer, x, canAlloc)
    && s.log.enqueued == e + (if s.q.producer == PIdle(Accepted) then [x] else [])
    && (!canAlloc ==> |s.q.blocks| == n)
  }

  /** In `s` malloc is about to fail. */
  predicate MallocFails<T>(s: System<T>, a: Action<T>) {
    a == Producer(false) && s.q.producer.PAlloc?
  }

  /** Along `acts` it has failed. */
  ghost predicate MallocFailed<T>(s: System<T>, acts: seq<Action<T>>) {
    exists k :: 0 <= k < |acts| && Run(s, acts[..k]).Ok? && MallocFails(Run(s, acts[..k]).state, acts[k])
  }

  predicate NoMemoryLeft<T>(s: System<T>) {
    s.q.producer == PIdle(NoMemory)
  }

  lemma EnqueuingBegins<T>(s: System<T>, x: T, canAlloc: bool)
    requires s.q.producer.PIdle? && Next(s, Enqueues(x, canAlloc)).Ok?
    ensures var s' := Next(s, Enqueues(x, canAlloc)).state;
      Enqueuing(s', s.log.enqueued, |s.q.blocks|, x, canAlloc) && !NoMemoryLeft(s')
  {
    hide Contents, Address;
  }

  /** What a step of the producer does to its intention. */
  lemma IntendsStep<T>(q: Queue<T>, x: T, canAlloc: bool, memory: bool)
    requires Intends(q.producer, x, canAlloc) && Act(q, Producer(memory)).Ok?
    ensures var q' := Act(q, Producer(memory)).state;
      && Intends(q'.producer, x, canAlloc)
      && (q'.producer == PIdle(Accepted) <==>
            q.producer.PStoreTail? || q.producer.PStoreTailBlock? || q.producer == PIdle(Accepted))
      && (q'.producer == PIdle(NoMemory) && q.producer != PIdle(NoMemory) ==> q.producer.PAlloc? && !memory)
  {
    hide After, Count, FreshBlock, GrownSize, BlockCells;
  }

  /** Nothing else touches it. */
  lemma ProducerUntouched<T>(q: Queue<T>, a: Action<T>)
    requires !a.Producer? && !BeginsProducerCall(a) && Act(q, a).Ok?
    ensures Act(q, a).state.producer == q.producer
  {
    hide After, Count;
  }

  lemma EnqueuingStep<T>(s: System<T>, a: Action<T>, e: seq<T>, n: nat, x: T, canAlloc: bool)
    requires Enqueuing(s, e, n, x, canAlloc) && !BeginsProducerCall(a) && Next(s, a).Ok?
    ensures var s' := Next(s, a).state;
      && Enqueuing(s', e, n, x, canAlloc)
      && (NoMemoryLeft(s') && !NoMemoryLeft(s) ==> MallocFails(s, a))
  {
    hide Act, Contents, Address;
    SizesFrame(s.q, a);
    if a.Producer? {
      IntendsStep(s.q, x, canAlloc, a.memory);
    } else {
      ProducerUntouched(s.q, a);
    }
  }

  lemma MallocFailedStill<T>(s: System<T>, acts: seq<Action<T>>, a: Action<T>)
    requires Run(s, acts).Ok?
    ensures MallocFailed(s, acts) || MallocFails(Run(s, acts).state, a) ==> MallocFailed(s, acts + [a])
  {
    hide Run, MallocFails;
    var more := acts + [a];
    assert forall k :: 0 <= k <= |acts| ==> more[..k] == acts[..k];
    if MallocFailed(s, acts) {
      var k :| 0 <= k < |acts| && Run(s, acts[..k]).Ok? && MallocFails(Run(s, acts[..k]).state, acts[k]);
      assert more[k] == acts[k];
    } else if MallocFails(Run(s, acts).state, a) {
      assert acts[..|acts|] == acts;
      assert more[|acts|] == a;
    }
  }

  lemma {:induction false} EnqueueGoesOn<T>(s: System<T>, x: T, canAlloc: bool, acts: seq<Action<T>>)
    requires s.q.producer.PIdle? && OneEnqueue(x, canAlloc, acts) && Run(s, acts).Ok?
    ensures var s' := Run(s, acts).state;
      && Enqueuing(s', s.log.enqueued, |s.q.blocks|, x, canAlloc)
      && (NoMemoryLeft(s') ==> MallocFailed(s, acts))
    decreases |acts|
  {
    hide Next, Enqueuing, NoMemoryLeft, MallocFailed, MallocFails;
    var before, a := acts[..|acts| - 1], acts[|acts| - 1];
    assert acts == before + [a];
    if |acts| == 1 {
      assert before == [];
      EnqueuingBegins(s, x, canAlloc);
    } else {
      EnqueueGoesOn(s, x, canAlloc, before);
      var was := Run(s, before).state;
      EnqueuingStep(was, a, s.log.enqueued, |s.q.blocks|, x, canAlloc);
      MallocFailedStill(s, before, a);
    }
  }

  /** An enqueue, begun after any run and interleaved in any way. When it has returned, it has enqueued its
      element if it says so, and nothing if not. `enqueue` is refused only if malloc failed in this very
      call; `try_enqueue` allocates nothing, and is refused only if at least `size` elements were in the
      queue at some instant of the call. */
  lemma EnqueueAnswers<T>(types: Types, size: nat, maxBlockSize: nat, unset: T, past: seq<Action<T>>,
                          x: T, canAlloc: bool, acts: seq<Action<T>>)
    requires Constructible(types, size, maxBlockSize)
    ensures Run(Start(types, size, maxBlockSize, unset), past).Ok?
    ensures var s := Run(Start(types, size, maxBlockSize, unset), past).state;
      s.q.producer.PIdle? && OneEnqueue(x, canAlloc, acts) ==>
        && Run(s, acts).Ok?
        && var s' := Run(s, acts).state;
        && (s'.q.producer.PIdle? ==>
              var result := s'.q.producer.result;
              && s'.log.enqueued == s.log.enqueued + (if result.Accepted? then [x] else [])
              && (!result.Accepted? ==>
                    if canAlloc then result.NoMemory? && MallocFailed(s, acts)
                    else result.Full? && s'.log.callPeak >= size))
        && (!canAlloc ==> |s'.q.blocks| == |s.q.blocks|)
  {
    hide Start, Run, Inv, MallocFailed;
    NeverFaults(types, size, maxBlockSize, unset, past);
    var first := Start(types, size, maxBlockSize, unset);
    var s := Run(first, past).state;
    if s.q.producer.PIdle? && OneEnqueue(x, canAlloc, acts) {
      RunKeeps(s, acts);
      RunOn(first, past, acts);
      TryEnqueueFailsOnlyWhenFull(types, size, maxBlockSize, unset, past + acts);
      EnqueueGoesOn(s, x, canAlloc, acts);
    }
  }

  /** `acts` begins a `size_approx` of the producer, and no other call of it. */
  ghost predicate OneSizeCall<T>(acts: seq<Action<T>>) {
    && acts != [] && acts[0] == ProducerSize
    && forall k :: 1 <= k < |acts| ==> !BeginsProducerCall(acts[k])
  }

  ghost predicate Counting<T>(s: System<T>, e: seq<T>) {
    && s.log.enqueued == e
    && (s.q.producer.PSizeStart? || s.q.producer.PSize? || (s.q.producer.PIdle? && s.q.producer.result.Counted?))
  }

  lemma CountingStep<T>(s: System<T>, a: Action<T>, e: seq<T>)
    requires Counting(s, e) && !BeginsProducerCall(a) && Next(s, a).Ok?
    ensures Counting(Next(s, a).state, e)
  {
    hide Contents, Address, After, Count;
  }

  lemma CountingBegins<T>(s: System<T>)
    requires s.q.producer.PIdle?
    ensures Next(s, ProducerSize).Ok? && Counting(Next(s, ProducerSize).state, s.log.enqueued)
  {
    hide Contents, Address;
  }

  lemma {:induction false} CountGoesOn<T>(s: System<T>, acts: seq<Action<T>>)
    requires s.q.producer.PIdle? && OneSizeCall(acts) && Run(s, acts).Ok?
    ensures Counting(Run(s, acts).state, s.log.enqueued)
    decreases |acts|
  {
    hide Next, Counting;
    var before, a := acts[..|acts| - 1], acts[|acts| - 1];
    assert acts == before + [a];
    if |acts| == 1 {
      assert before == [];
      CountingBegins(s);
    } else {
      CountGoesOn(s, before);
      CountingStep(Run(s, before).state, a, s.log.enqueued);
    }
  }

  /** `size_approx` of the producer answers with a number, whose worth `QueueSize` gives, and enqueues
      nothing. */
  lemma ProducerSizeAnswers<T>(types: Types, size: nat, maxBlockSize: nat, unset: T, past: seq<Action<T>>,
                               acts: seq<Action<T>>)
    requires Constructible(types, size, maxBlockSize)
    ensures Run(Start(types, size, maxBlockSize, unset), past).Ok?
    ensures var s := Run(Start(types, size, maxBlockSize, unset), past).state;
      s.q.producer.PIdle? && OneSizeCall(acts) ==>
        && Run(s, acts).Ok?
        && var s' := Run(s, acts).state;
        && s'.log.enqueued == s.log.enqueued
        && (s'.q.producer.PIdle? ==> s'.q.producer.result.Counted?)
  {
    hide Start, Run, Inv;
    NeverFaults(types, size, maxBlockSize, unset, past);
    var s := Run(Start(types, size, maxBlockSize, unset), past).state;
    if s.q.producer.PIdle? && OneSizeCall(acts) {
      RunKeeps(s, acts);
      CountGoesOn(s, acts);
    }
  }

  // ----- Calls of the consumer --------------------------------------------------------------------

  predicate BeginsConsumerCall<T>(a: Action<T>) {
    a.TryDequeue? || a.Show? || a.ConsumerSize?
  }

  /** `acts` begins with `call`, and no other call of the consumer. */
  ghost predicate OneConsumerCall<T>(call: Action<T>, acts: seq<Action<T>>) {
    && acts != [] && acts[0] == call && BeginsConsumerCall(call)
    && forall k :: 1 <= k < |acts| ==> !BeginsConsumerCall(acts[k])
  }

  predicate Looks<T>(op: Op, call: Action<T>) {
    if op.Dequeue? then call.TryDequeue? else call.Show?
  }

  /** Where the consumer can be in `call`, and how it can answer it. */
  predicate Answers<T>(c: Consumer<T>, call: Action<T>) {
    match c
    case CIdle(result) =>
      (match result
       case NotCalled => false
       case Empty => call.TryDequeue? || call.Show?
       case Took(_) => call.TryDequeue?
       case Showed(_, _) => call.Show?
       case Counted(_) => call.ConsumerSize?)
    case CLook(op) => Looks(op, call)
    case CReadTail(op) => Looks(op, call)
    case CReadTailBlock(op) => Looks(op, call)
    case CReReadTail(op) => Looks(op, call)
    case CReadNext(op) => Looks(op, call)
    case CReadNextTail(op, _) => Looks(op, call)
    case CStoreFrontBlock(_) => call.TryDequeue?
    case CTake => call.TryDequeue?
    case CStoreFront(_) => call.TryDequeue?
    case CSize(_, _, _) => call.ConsumerSize?
    case CSizeNext(_, _, _) => call.ConsumerSize?
  }

  /** What the answer delivers. */
  function Delivered<T>(c: Consumer<T>): seq<T> {
    if c.CIdle? && c.result.Took? then [c.result.value] else []
  }

  /** The log at that point, `d` having been dequeued before. */
  ghost predicate Dequeuing<T>(s: System<T>, d: seq<T>, call: Action<T>) {
    Answers(s.q.consumer, call) && s.log.dequeued == d + Delivered(s.q.consumer)
  }

  lemma DequeuingBegins<T>(s: System<T>, call: Action<T>)
    requires s.q.consumer.CIdle? && BeginsConsumerCall(call) && Next(s, call).Ok?
    ensures Dequeuing(Next(s, call).state, s.log.dequeued, call)
  {
    hide Contents, Address;
  }

  lemma AnswersStep<T>(q: Queue<T>, call: Action<T>)
    requires Answers(q.consumer, call) && Act(q, Consumer).Ok?
    ensures var c := Act(q, Consumer).state.consumer;
      && Answers(c, call)
      && Delivered(c) == if q.consumer.CStoreFront? then [q.consumer.value] else Delivered(q.consumer)
  {
    hide After, Count;
  }

  lemma ConsumerUntouched<T>(q: Queue<T>, a: Action<T>)
    requires !a.Consumer? && !BeginsConsumerCall(a) && Act(q, a).Ok?
    ensures Act(q, a).state.consumer == q.consumer
  {
    hide After, Count, FreshBlock, GrownSize, BlockCells;
  }

  lemma DequeuingStep<T>(s: System<T>, a: Action<T>, d: seq<T>, call: Action<T>)
    requires Dequeuing(s, d, call) && !BeginsConsumerCall(a) && Next(s, a).Ok?
    ensures Dequeuing(Next(s, a).state, d, call)
  {
    hide Act, Contents, Address, Answers;
    if a.Consumer? {
      AnswersStep(s.q, call);
    } else {
      ConsumerUntouched(s.q, a);
    }
  }

  lemma {:induction false} ConsumerCallGoesOn<T>(s: System<T>, call: Action<T>, acts: seq<Action<T>>)
    requires s.q.consumer.CIdle? && OneConsumerCall(call, acts) && Run(s, acts).Ok?
    ensures Dequeuing(Run(s, acts).state, s.log.dequeued, call)
    decreases |acts|
  {
    hide Next, Dequeuing, BeginsConsumerCall;
    var before, a := acts[..|acts| - 1], acts[|acts| - 1];
    assert acts == before + [a];
    if |acts| == 1 {
      assert before == [];
      DequeuingBegins(s, call);
    } else {
      ConsumerCallGoesOn(s, call, before);
      DequeuingStep(Run(s, before).state, a, s.log.dequeued, call);
    }
  }

  /** A call of the consumer, begun after any run and interleaved in any way. When it has returned, a
      dequeue has removed the value it delivers, the oldest not yet removed, and nothing if it delivers
      none; `peek` and `size_approx` have removed nothing. Each gives an answer of its own kind. */
  lemma ConsumerAnswers<T>(types: Types, size: nat, maxBlockSize: nat, unset: T, past: seq<Action<T>>,
                           call: Action<T>, acts: seq<Action<T>>)
    requires Constructible(types, size, maxBlockSize)
    ensures Run(Start(types, size, maxBlockSize, unset), past).Ok?
    ensures var s := Run(Start(types, size, maxBlockSize, unset), past).state;
      s.q.consumer.CIdle? && OneConsumerCall(call, acts) ==>
        && Run(s, acts).Ok?
        && var s' := Run(s, acts).state;
        && (s'.q.consumer.CIdle? ==>
              && Answers(s'.q.consumer, call)
              && s'.log.dequeued == s.log.dequeued + Delivered(s'.q.consumer)
              && s'.log.dequeued <= s'.log.enqueued)
  {
    hide Start, Run, Core, EmptySeen, PeekValid, Contents;
    NeverFaults(types, size, maxBlockSize, unset, past);
    var s := Run(Start(types, size, maxBlockSize, unset), past).state;
    if s.q.consumer.CIdle? && OneConsumerCall(call, acts) {
      RunKeeps(s, acts);
      ConsumerCallGoesOn(s, call, acts);
    }
  }
}
