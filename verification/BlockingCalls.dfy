/** One call of the blocking queue from its beginning to its answer, whatever the other thread does
    meanwhile; and what the queue inside sees of it all. */
module BlockingCalls {
  import opened Allocation
  import opened Options
  import opened QueueSteps
  import opened QueueRuns
  import opened QueueCapacity
  import Answers = QueueAnswers
  import opened BlockingQueue
  import Calls = SemaphoreCalls
  import Free = QueueWaitFree
  import Sem = Semaphore

  // ----- The queue inside -------------------------------------------------------------------------

  /** What a step does with the inner queue, if anything. */
  function InnerAction<T>(s: State<T>, a: BlockingAction<T>): Option<Action<T>> {
    match a
    case Enqueue(x, canAlloc) => if s.enqueuer.Ready? then Some(Answers.Enqueues(x, canAlloc)) else None
    case Produce(memory) => if s.enqueuer.Inner? then Some(Producer(memory)) else None
    case Dequeue(_) => None
    case Peek => if s.dequeuer.Ready? then Some(Show) else None
    case Consume(_) =>
      if s.dequeuer.Claimed? then Some(TryDequeue)
      else if s.dequeuer.Inner? || s.dequeuer.Peeking? then Some(Consumer)
      else None
  }

  lemma InnerStepIs<T>(s: State<T>, a: BlockingAction<T>)
    requires Step(s, a).Ok?
    ensures match InnerAction(s, a)
            case None => Step(s, a).state.queue == s.queue
            case Some(inner) => Next(s.queue, inner) == Outcome.Ok(Step(s, a).state.queue)
  {
    hide Next, Sem.Act, Sem.WaitStep;
  }

  /** What the inner queue goes through in any run is a run of the queue, whose theorems therefore hold of
      it. */
  lemma {:induction false} InnerRun<T>(types: Types, size: nat, maxBlockSize: nat, unset: T,
                                       acts: seq<BlockingAction<T>>) returns (inner: seq<Action<T>>)
    requires maxBlockSize >= 2 && BlockingRun(BlockingStart(types, size, maxBlockSize, unset), acts).Ok?
    ensures Run(QueueRuns.Start(types, size, maxBlockSize, unset), inner)
            == Outcome.Ok(BlockingRun(BlockingStart(types, size, maxBlockSize, unset), acts).state.queue)
  {
    hide Step, Next;
    if acts == [] {
      inner := [];
    } else {
      var before, a := acts[..|acts| - 1], acts[|acts| - 1];
      inner := InnerRun(types, size, maxBlockSize, unset, before);
      var s := BlockingRun(BlockingStart(types, size, maxBlockSize, unset), before).state;
      InnerStepIs(s, a);
      if InnerAction(s, a).Some? {
        var more := inner + [InnerAction(s, a).value];
        assert more[..|more| - 1] == inner;
        inner := more;
      }
    }
  }

  // ----- Enqueues ---------------------------------------------------------------------------------

  /** `acts` begins an enqueue, and no other. */
  ghost predicate OneEnqueue<T>(x: T, canAlloc: bool, acts: seq<BlockingAction<T>>) {
    && acts != [] && acts[0] == BlockingAction.Enqueue(x, canAlloc)
    && forall k :: 1 <= k < |acts| ==> !acts[k].Enqueue?
  }

  /** Where the producer is in a call that asked to enqueue `x`; see `QueueAnswers.Enqueuing`. */
  ghost predicate Enqueuing<T>(s: State<T>, e: seq<T>, n: nat, x: T, canAlloc: bool) {
    && Answers.Enqueuing(s.queue, e, n, x, canAlloc)
    && match s.enqueuer
       case Ready(accepted) => s.queue.q.producer.PIdle? && (accepted <==> s.queue.q.producer == PIdle(Accepted))
       case Inner => true
       case _ => s.queue.q.producer == PIdle(Accepted)
  }

  /** In `s` malloc is about to fail. */
  predicate MallocFails<T>(s: State<T>, a: BlockingAction<T>) {
    a == Produce(false) && s.enqueuer.Inner? && s.queue.q.producer.PAlloc?
  }

  /** Along `acts` it has failed. */
  ghost predicate MallocFailed<T>(s: State<T>, acts: seq<BlockingAction<T>>) {
    exists k :: 0 <= k < |acts|
      && BlockingRun(s, acts[..k]).Ok? && MallocFails(BlockingRun(s, acts[..k]).state, acts[k])
  }

  lemma EnqueuingBegins<T>(s: State<T>, x: T, canAlloc: bool)
    requires BlockingInv(s) && s.enqueuer.Ready? && Step(s, BlockingAction.Enqueue(x, canAlloc)).Ok?
    ensures var s' := Step(s, BlockingAction.Enqueue(x, canAlloc)).state;
      Enqueuing(s', s.queue.log.enqueued, |s.queue.q.blocks|, x, canAlloc) && !Answers.NoMemoryLeft(s'.queue)
  {
    hide QueueRuns.Inv, Sem.Inv, Balanced, Removing, Looking, Next, Answers.Enqueuing;
    Answers.EnqueuingBegins(s.queue, x, canAlloc);
  }

  /** The queue's half of a step: whatever happens to it leaves the call of the producer going on. */
  lemma InnerGoesOn<T>(s: State<T>, a: BlockingAction<T>, e: seq<T>, n: nat, x: T, canAlloc: bool)
    requires Answers.Enqueuing(s.queue, e, n, x, canAlloc) && !a.Enqueue? && Step(s, a).Ok?
    ensures var s' := Step(s, a).state;
      && Answers.Enqueuing(s'.queue, e, n, x, canAlloc)
      && (Answers.NoMemoryLeft(s'.queue) && !Answers.NoMemoryLeft(s.queue) ==> MallocFails(s, a))
  {
    hide Step, Next, Answers.Enqueuing;
    InnerStepIs(s, a);
    if InnerAction(s, a).Some? {
      Answers.EnqueuingStep(s.queue, InnerAction(s, a).value, e, n, x, canAlloc);
    }
  }

  lemma NextIs<T>(s: System<T>, a: Action<T>)
    requires Next(s, a).Ok?
    ensures Act(s.q, a) == Outcome.Ok(Next(s, a).state.q)
  {
    hide Act, Record;
  }

  /** How the outer program counter of the producer follows the inner one. */
  lemma EnqueuerFollows<T>(s: State<T>, a: BlockingAction<T>)
    requires BlockingInv(s) && !a.Enqueue? && Step(s, a).Ok?
    ensures var s' := Step(s, a).state;
      && (!a.Produce? ==> s'.enqueuer == s.enqueuer && s'.queue.q.producer == s.queue.q.producer)
      && (a.Produce? && s.enqueuer.Inner? ==>
            if !s'.queue.q.producer.PIdle? then s'.enqueuer.Inner?
            else if s'.queue.q.producer == PIdle(Accepted) then s'.enqueuer.Signalling?
            else s'.enqueuer == Enqueuer.Ready(false))
      && (a.Produce? && !s.enqueuer.Inner? ==> s'.queue == s.queue)
      && (a.Produce? && (s.enqueuer.Signalling? || s.enqueuer.Posting?) ==>
            s'.enqueuer.Posting? || s'.enqueuer == Enqueuer.Ready(true))
      && (a.Produce? && s.enqueuer.Ready? ==> s' == s)
  {
    hide QueueRuns.Inv, Sem.Inv, Balanced, Sem.Act, Sem.WaitStep, Removing, Looking, Next;
    InnerStepIs(s, a);
    if !a.Produce? && InnerAction(s, a).Some? {
      NextIs(s.queue, InnerAction(s, a).value);
      Answers.ProducerUntouched(s.queue.q, InnerAction(s, a).value);
    }
  }

  lemma EnqueuingStep<T>(s: State<T>, a: BlockingAction<T>, e: seq<T>, n: nat, x: T, canAlloc: bool)
    requires BlockingInv(s) && Enqueuing(s, e, n, x, canAlloc) && !a.Enqueue? && Step(s, a).Ok?
    ensures var s' := Step(s, a).state;
      && Enqueuing(s', e, n, x, canAlloc)
      && (Answers.NoMemoryLeft(s'.queue) && !Answers.NoMemoryLeft(s.queue) ==> MallocFails(s, a))
  {
    hide Step, BlockingInv, Answers.Enqueuing;
    InnerGoesOn(s, a, e, n, x, canAlloc);
    EnqueuerFollows(s, a);
  }

  lemma MallocFailedStill<T>(s: State<T>, acts: seq<BlockingAction<T>>, a: BlockingAction<T>)
    requires BlockingRun(s, acts).Ok?
    ensures MallocFailed(s, acts) || MallocFails(BlockingRun(s, acts).state, a) ==> MallocFailed(s, acts + [a])
  {
    hide BlockingRun, MallocFails;
    var more := acts + [a];
    assert forall k :: 0 <= k <= |acts| ==> more[..k] == acts[..k];
    if MallocFailed(s, acts) {
      var k :| 0 <= k < |acts|
        && BlockingRun(s, acts[..k]).Ok? && MallocFails(BlockingRun(s, acts[..k]).state, acts[k]);
      assert more[k] == acts[k];
    } else if MallocFails(BlockingRun(s, acts).state, a) {
      assert acts[..|acts|] == acts;
      assert more[|acts|] == a;
    }
  }

  lemma {:induction false} EnqueueGoesOn<T>(s: State<T>, x: T, canAlloc: bool, acts: seq<BlockingAction<T>>)
    requires BlockingInv(s) && s.enqueuer.Ready? && OneEnqueue(x, canAlloc, acts)
    ensures BlockingRun(s, acts).Ok? && BlockingInv(BlockingRun(s, acts).state)
    ensures var s' := BlockingRun(s, acts).state;
      && Enqueuing(s', s.queue.log.enqueued, |s.queue.q.blocks|, x, canAlloc)
      && (Answers.NoMemoryLeft(s'.queue) ==> MallocFailed(s, acts))
    decreases |acts|
  {
    hide BlockingInv, Step, Enqueuing, Answers.NoMemoryLeft, MallocFailed, MallocFails;
    var before, a := acts[..|acts| - 1], acts[|acts| - 1];
    assert acts == before + [a];
    if |acts| == 1 {
      assert before == [];
      AfterStep(s, a);
      EnqueuingBegins(s, x, canAlloc);
    } else {
      EnqueueGoesOn(s, x, canAlloc, before);
      var was := BlockingRun(s, before).state;
      AfterStep(was, a);
      EnqueuingStep(was, a, s.queue.log.enqueued, |s.queue.q.blocks|, x, canAlloc);
      MallocFailedStill(s, before, a);
    }
  }

  lemma {:induction false} RunOn<T>(s: State<T>, a: seq<BlockingAction<T>>, b: seq<BlockingAction<T>>)
    requires BlockingRun(s, a).Ok?
    ensures BlockingRun(s, a + b) == BlockingRun(BlockingRun(s, a).state, b)
  {
    hide Step;
    if b == [] {
      assert a + b == a;
    } else {
      assert (a + b)[..|a + b| - 1] == a + b[..|b| - 1];
      RunOn(s, a, b[..|b| - 1]);
    }
  }

  /** What the capacity promises holds in every state of the inner queue. */
  lemma FullMeans<T>(types: Types, size: nat, maxBlockSize: nat, unset: T, acts: seq<BlockingAction<T>>)
    requires Constructible(types, size, maxBlockSize)
    ensures BlockingRun(BlockingStart(types, size, maxBlockSize, unset), acts).Ok?
    ensures var s := BlockingRun(BlockingStart(types, size, maxBlockSize, unset), acts).state;
      s.queue.q.producer == PIdle(Full) ==> s.queue.log.callPeak >= size
  {
    hide BlockingStart, QueueRuns.Start, BlockingRun, Run, BlockingInv;
    NeverFails(types, size, maxBlockSize, unset, acts);
    var inner := InnerRun(types, size, maxBlockSize, unset, acts);
    TryEnqueueFailsOnlyWhenFull(types, size, maxBlockSize, unset, inner);
  }

  /** An enqueue, begun after any run and interleaved in any way. When it has returned, it has enqueued its
      element if it says so, and nothing if not. `enqueue` is refused only if malloc failed in this very
      call; `try_enqueue` allocates nothing, and is refused only if at least `size` elements were in the
      queue at some instant of the call. */
  lemma EnqueueAnswers<T>(types: Types, size: nat, maxBlockSize: nat, unset: T, past: seq<BlockingAction<T>>,
                          x: T, canAlloc: bool, acts: seq<BlockingAction<T>>)
    requires Constructible(types, size, maxBlockSize)
    ensures BlockingRun(BlockingStart(types, size, maxBlockSize, unset), past).Ok?
    ensures var s := BlockingRun(BlockingStart(types, size, maxBlockSize, unset), past).state;
      s.enqueuer.Ready? && OneEnqueue(x, canAlloc, acts) ==>
        && BlockingRun(s, acts).Ok?
        && var s' := BlockingRun(s, acts).state;
        && (s'.enqueuer.Ready? ==>
              && s'.queue.log.enqueued == s.queue.log.enqueued + (if s'.enqueuer.accepted then [x] else [])
              && (!s'.enqueuer.accepted ==>
                    if canAlloc then MallocFailed(s, acts) else s'.queue.log.callPeak >= size))
        && (!canAlloc ==> |s'.queue.q.blocks| == |s.queue.q.blocks|)
  {
    hide BlockingStart, BlockingRun, BlockingInv, MallocFailed;
    NeverFails(types, size, maxBlockSize, unset, past);
    var first := BlockingStart(types, size, maxBlockSize, unset);
    var s := BlockingRun(first, past).state;
    if s.enqueuer.Ready? && OneEnqueue(x, canAlloc, acts) {
      EnqueueGoesOn(s, x, canAlloc, acts);
      RunOn(first, past, acts);
      FullMeans(types, size, maxBlockSize, unset, past + acts);
    }
  }

  // ----- Dequeues ---------------------------------------------------------------------------------

  predicate BeginsConsumerCall<T>(a: BlockingAction<T>) {
    a.Dequeue? || a.Peek?
  }

  /** `acts` begins with `call`, and no other call of the consumer. */
  ghost predicate OneConsumerCall<T>(call: BlockingAction<T>, acts: seq<BlockingAction<T>>) {
    && acts != [] && acts[0] == call && BeginsConsumerCall(call)
    && forall k :: 1 <= k < |acts| ==> !BeginsConsumerCall(acts[k])
  }

  predicate WaitsForever<T>(call: BlockingAction<T>) {
    call.Dequeue? && call.patience.Forever?
  }

  /** The caller is ready to sleep for an element. */
  predicate Sleepy<T>(call: BlockingAction<T>) {
    call.Dequeue? && Calls.Patient(Sem.Asks(call.patience))
  }

  /** Where the consumer is in `call`, with `d` dequeued before it. */
  ghost predicate Dequeuing<T>(s: State<T>, d: seq<T>, call: BlockingAction<T>) {
    match s.dequeuer
    case Ready(got) =>
      && s.queue.log.dequeued == d + (if got.Some? then [got.value] else [])
      && (WaitsForever(call) ==> got.Some?)
      && (call.Peek? ==> got.None? && Answers.Dequeuing(s.queue, d, Show) && s.queue.q.consumer.CIdle?)
    case Waiting(forever) =>
      && s.queue.log.dequeued == d && call.Dequeue? && forever == call.patience.Forever?
      && Calls.Serves(s.sem.waiter, Sem.Asks(call.patience))
    case Claimed => s.queue.log.dequeued == d && call.Dequeue?
    case Inner => Answers.Dequeuing(s.queue, d, TryDequeue) && call.Dequeue?
    case Peeking => Answers.Dequeuing(s.queue, d, Show) && call.Peek?
  }

  /** The consumer has been refused an element, or is about to be. */
  predicate Refuses<T>(s: State<T>) {
    s.dequeuer == Dequeuer.Ready(None) || (s.dequeuer.Waiting? && Calls.GivesUp(s.sem.waiter))
  }

  /** In `s` a kernel wait is about to fail. */
  predicate KernelFails<T>(s: State<T>, a: BlockingAction<T>) {
    a == Consume(true) && s.dequeuer.Waiting? && s.sem.waiter.Sleep?
  }

  /** Along `acts` one has failed. */
  ghost predicate KernelFailed<T>(s: State<T>, acts: seq<BlockingAction<T>>) {
    exists k :: 0 <= k < |acts|
      && BlockingRun(s, acts[..k]).Ok? && KernelFails(BlockingRun(s, acts[..k]).state, acts[k])
  }

  lemma DequeuingBegins<T>(s: State<T>, call: BlockingAction<T>)
    requires BlockingInv(s) && s.dequeuer.Ready? && BeginsConsumerCall(call) && Step(s, call).Ok?
    ensures var s' := Step(s, call).state; Dequeuing(s', s.queue.log.dequeued, call) && !Refuses(s')
  {
    hide QueueRuns.Inv, Sem.Inv, Balanced, Adding, Next;
    if call.Peek? {
      Answers.DequeuingBegins(s.queue, Show);
    }
  }

  /** Steps of the producer. */
  lemma DequeuerUntouched<T>(s: State<T>, a: BlockingAction<T>)
    requires (a.Produce? || a.Enqueue?) && Step(s, a).Ok?
    ensures Step(s, a).state.dequeuer == s.dequeuer && Step(s, a).state.sem.waiter == s.sem.waiter
  {
    hide Next;
  }

  lemma OthersStep<T>(s: State<T>, a: BlockingAction<T>, d: seq<T>, call: BlockingAction<T>)
    requires Dequeuing(s, d, call) && (a.Produce? || a.Enqueue?) && Step(s, a).Ok?
    ensures var s' := Step(s, a).state; Dequeuing(s', d, call) && (Refuses(s') <==> Refuses(s))
  {
    hide Step, Next, Act, Answers.Answers, Calls.Serves, Calls.GivesUp;
    DequeuerUntouched(s, a);
    InnerStepIs(s, a);
    if InnerAction(s, a).Some? {
      NextIs(s.queue, InnerAction(s, a).value);
      OnlyConsumerRemoves(s.queue, InnerAction(s, a).value);
      Answers.ConsumerUntouched(s.queue.q, InnerAction(s, a).value);
    }
  }

  /** One step of waiting for the token. */
  lemma WaitingStep<T>(s: State<T>, d: seq<T>, call: BlockingAction<T>, kernelFails: bool)
    requires BlockingInv(s) && Dequeuing(s, d, call) && s.dequeuer.Waiting? && Step(s, Consume(kernelFails)).Ok?
    ensures var s' := Step(s, Consume(kernelFails)).state;
      && Dequeuing(s', d, call)
      && (Sleepy(call) && Refuses(s') && !Refuses(s) ==> KernelFails(s, Consume(kernelFails)))
  {
    hide QueueRuns.Inv, Sem.Inv, Balanced, Adding, Removing, Looking, Next, Sem.WaitStep, Calls.GivesUp, Calls.Serves;
    Calls.WaitStepServes(s.sem, kernelFails, call.patience);
    Calls.DeniedGivesUp(Sem.WaitStep(s.sem, kernelFails, call.patience.Forever?));
  }

  lemma ShowDelivers<T>(c: Consumer<T>)
    requires Answers.Answers(c, Show)
    ensures Answers.Delivered(c) == []
  {
  }

  /** One step once it is there, or of `peek`. */
  lemma TakingStep<T>(s: State<T>, d: seq<T>, call: BlockingAction<T>, kernelFails: bool)
    requires BlockingInv(s) && Dequeuing(s, d, call) && !s.dequeuer.Waiting? && Step(s, Consume(kernelFails)).Ok?
    ensures var s' := Step(s, Consume(kernelFails)).state;
      Dequeuing(s', d, call) && (call.Dequeue? && Refuses(s') ==> Refuses(s))
  {
    hide QueueRuns.Inv, Sem.Inv, Balanced, Adding, Next, Sem.WaitStep, Answers.Answers;
    match s.dequeuer
    case Ready(_) =>
    case Claimed =>
      hide Removing, Looking;
      Answers.DequeuingBegins(s.queue, TryDequeue);
    case Inner =>
      Answers.DequeuingStep(s.queue, Consumer, d, TryDequeue);
      NextIs(s.queue, Consumer);
      RemovingStep(s.queue.q);
    case Peeking =>
      hide Removing;
      Answers.DequeuingStep(s.queue, Consumer, d, Show);
      ShowDelivers(Next(s.queue, Consumer).state.q.consumer);
  }

  lemma DequeuingStep<T>(s: State<T>, a: BlockingAction<T>, d: seq<T>, call: BlockingAction<T>)
    requires BlockingInv(s) && Dequeuing(s, d, call) && !BeginsConsumerCall(a) && Step(s, a).Ok?
    ensures var s' := Step(s, a).state;
      Dequeuing(s', d, call) && (Sleepy(call) && Refuses(s') && !Refuses(s) ==> KernelFails(s, a))
  {
    hide Step, BlockingInv, Dequeuing, Refuses;
    if !a.Consume? {
      OthersStep(s, a, d, call);
    } else if s.dequeuer.Waiting? {
      WaitingStep(s, d, call, a.kernelFails);
    } else {
      TakingStep(s, d, call, a.kernelFails);
    }
  }

  lemma KernelFailedStill<T>(s: State<T>, acts: seq<BlockingAction<T>>, a: BlockingAction<T>)
    requires BlockingRun(s, acts).Ok?
    ensures KernelFailed(s, acts) || KernelFails(BlockingRun(s, acts).state, a) ==> KernelFailed(s, acts + [a])
  {
    hide BlockingRun, KernelFails;
    var more := acts + [a];
    assert forall k :: 0 <= k <= |acts| ==> more[..k] == acts[..k];
    if KernelFailed(s, acts) {
      var k :| 0 <= k < |acts|
        && BlockingRun(s, acts[..k]).Ok? && KernelFails(BlockingRun(s, acts[..k]).state, acts[k]);
      assert more[k] == acts[k];
    } else if KernelFails(BlockingRun(s, acts).state, a) {
      assert acts[..|acts|] == acts;
      assert more[|acts|] == a;
    }
  }

  lemma {:induction false} ConsumerCallGoesOn<T>(s: State<T>, call: BlockingAction<T>, acts: seq<BlockingAction<T>>)
    requires BlockingInv(s) && s.dequeuer.Ready? && OneConsumerCall(call, acts)
    ensures BlockingRun(s, acts).Ok? && BlockingInv(BlockingRun(s, acts).state)
    ensures var s' := BlockingRun(s, acts).state;
      Dequeuing(s', s.queue.log.dequeued, call) && (Sleepy(call) && Refuses(s') ==> KernelFailed(s, acts))
    decreases |acts|
  {
    hide BlockingInv, Step, Dequeuing, Refuses, KernelFailed, KernelFails, BeginsConsumerCall, Sleepy;
    var before, a := acts[..|acts| - 1], acts[|acts| - 1];
    assert acts == before + [a];
    if |acts| == 1 {
      assert before == [];
      AfterStep(s, a);
      DequeuingBegins(s, call);
    } else {
      ConsumerCallGoesOn(s, call, before);
      var was := BlockingRun(s, before).state;
      AfterStep(was, a);
      DequeuingStep(was, a, s.queue.log.dequeued, call);
      KernelFailedStill(s, before, a);
    }
  }

  lemma PrefixKept<T>(s: State<T>)
    requires BlockingInv(s)
    ensures s.queue.log.dequeued <= s.queue.log.enqueued
  {
    hide QueueInvariant.Core, EmptySeen, PeekValid, Aligned, Balanced, Sem.Inv, Holds;
  }

  /** A dequeue, begun after any run and interleaved in any way. When it has returned, it has removed the
      value it delivers, the oldest not yet removed, and nothing if it delivers none. `wait_dequeue`
      returns only with a value; `wait_dequeue_timed` with a timeout other than 0 returns without one
      only if a kernel wait of this very call failed or timed out; and a dequeue sleeps only as it was
      asked to. */
  lemma DequeueAnswers<T>(types: Types, size: nat, maxBlockSize: nat, unset: T, past: seq<BlockingAction<T>>,
                          patience: Sem.Patience, acts: seq<BlockingAction<T>>)
    requires Constructible(types, size, maxBlockSize)
    ensures BlockingRun(BlockingStart(types, size, maxBlockSize, unset), past).Ok?
    ensures var s := BlockingRun(BlockingStart(types, size, maxBlockSize, unset), past).state;
      s.dequeuer.Ready? && OneConsumerCall(BlockingAction.Dequeue(patience), acts) ==>
        && BlockingRun(s, acts).Ok?
        && var s' := BlockingRun(s, acts).state;
        && (s'.dequeuer.Waiting? ==> Calls.SleepsAsAsked(s'.sem.waiter, patience))
        && (s'.dequeuer.Ready? ==>
              var got := s'.dequeuer.got;
              && s'.queue.log.dequeued == s.queue.log.dequeued + (if got.Some? then [got.value] else [])
              && s'.queue.log.dequeued <= s'.queue.log.enqueued
              && (patience.Forever? ==> got.Some?)
              && (got.None? && patience.Within? && patience.timeout != 0 ==> KernelFailed(s, acts)))
  {
    hide BlockingStart, BlockingRun, KernelFailed, BlockingInv;
    NeverFails(types, size, maxBlockSize, unset, past);
    var s := BlockingRun(BlockingStart(types, size, maxBlockSize, unset), past).state;
    if s.dequeuer.Ready? && OneConsumerCall(BlockingAction.Dequeue(patience), acts) {
      ConsumerCallGoesOn(s, BlockingAction.Dequeue(patience), acts);
      PrefixKept(BlockingRun(s, acts).state);
      var w := BlockingRun(s, acts).state.sem.waiter;
      if Calls.Serves(w, Sem.Asks(patience)) {
        Calls.ServesPatience(w, patience);
      }
    }
  }

  /** `peek` removes nothing, and answers with an address or with nothing. */
  lemma PeekAnswers<T>(types: Types, size: nat, maxBlockSize: nat, unset: T, past: seq<BlockingAction<T>>,
                       acts: seq<BlockingAction<T>>)
    requires Constructible(types, size, maxBlockSize)
    ensures BlockingRun(BlockingStart(types, size, maxBlockSize, unset), past).Ok?
    ensures var s := BlockingRun(BlockingStart(types, size, maxBlockSize, unset), past).state;
      s.dequeuer.Ready? && OneConsumerCall(BlockingAction.Peek, acts) ==>
        && BlockingRun(s, acts).Ok?
        && var s' := BlockingRun(s, acts).state;
        && s'.queue.log.dequeued == s.queue.log.dequeued
        && (s'.dequeuer.Ready? ==>
              s'.queue.q.consumer.CIdle?
              && (s'.queue.q.consumer.result.Empty? || s'.queue.q.consumer.result.Showed?))
  {
    hide BlockingStart, BlockingRun, BlockingInv;
    NeverFails(types, size, maxBlockSize, unset, past);
    var s := BlockingRun(BlockingStart(types, size, maxBlockSize, unset), past).state;
    if s.dequeuer.Ready? && OneConsumerCall(BlockingAction.Peek, acts) {
      ConsumerCallGoesOn(s, BlockingAction.Peek, acts);
      ShowDelivers(BlockingRun(s, acts).state.queue.q.consumer);
    }
  }

  // ----- The calls that do not wait ---------------------------------------------------------------

  /** How many of its own steps an enqueue is from its answer. */
  function PutRank<T>(s: State<T>): nat {
    match s.enqueuer
    case Ready(_) => 0
    case Inner => Free.EnqueueRank(s.queue.q.producer) + 2
    case Signalling => 2
    case Posting => 1
  }

  /** The same for a `try_dequeue` or `pop`. */
  function TakeRank<T>(s: State<T>): nat {
    match s.dequeuer
    case Ready(_) => 0
    case Waiting(_) => Calls.CallRank(s.sem) + 10
    case Claimed => 10
    case Inner => Free.DequeueRank(s.queue.q.consumer)
    case Peeking => 0
  }

  /** Inside one: the thread asks of the semaphore no more than `tryWait`. */
  predicate Trying<T>(s: State<T>) {
    && !s.dequeuer.Ready? && !s.dequeuer.Peeking?
    && (s.dequeuer.Waiting? ==> !s.dequeuer.forever && Calls.Serves(s.sem.waiter, Sem.TryWait))
  }

  /** The producer has not returned in any state along `acts`. */
  ghost predicate InsidePut<T>(s: State<T>, acts: seq<BlockingAction<T>>)
    decreases |acts|
  {
    && !s.enqueuer.Ready?
    && (acts != [] ==> Step(s, acts[0]).Ok? && InsidePut(Step(s, acts[0]).state, acts[1..]))
  }

  ghost predicate InsideTake<T>(s: State<T>, acts: seq<BlockingAction<T>>)
    decreases |acts|
  {
    && !s.dequeuer.Ready?
    && (acts != [] ==> Step(s, acts[0]).Ok? && InsideTake(Step(s, acts[0]).state, acts[1..]))
  }

  function ProducerSteps<T>(acts: seq<BlockingAction<T>>): nat {
    if acts == [] then 0 else (if acts[0].Produce? then 1 else 0) + ProducerSteps(acts[1..])
  }

  function ConsumerSteps<T>(acts: seq<BlockingAction<T>>): nat {
    if acts == [] then 0 else (if acts[0].Consume? then 1 else 0) + ConsumerSteps(acts[1..])
  }

  lemma AddingIsRanked<T>(p: Producer<T>)
    ensures Adding(p) ==> 1 <= Free.EnqueueRank(p) <= 7
    ensures p.PIdle? ==> Free.EnqueueRank(p) == 0
  {
  }

  lemma RemovingIsRanked<T>(c: Consumer<T>)
    ensures Removing(c) ==> 1 <= Free.DequeueRank(c) <= 9
  {
  }

  lemma PutRankFalls<T>(s: State<T>, a: BlockingAction<T>)
    requires BlockingInv(s) && !s.enqueuer.Ready? && Step(s, a).Ok?
    ensures var s' := Step(s, a).state;
      if a.Produce? then PutRank(s') < PutRank(s) else PutRank(s') == PutRank(s)
  {
    hide QueueRuns.Inv, Sem.Inv, Balanced, Sem.Act, Sem.WaitStep, Removing, Looking, Next, Adding;
    if !a.Enqueue? {
      EnqueuerFollows(s, a);
      InnerStepIs(s, a);
      if a.Produce? && s.enqueuer.Inner? {
        AddingIsRanked(s.queue.q.producer);
        NextIs(s.queue, Producer(a.memory));
        Free.EnqueueRankFalls(s.queue.q, Producer(a.memory));
        AddingIsRanked(Step(s, a).state.queue.q.producer);
      }
    }
  }

  lemma TakeRankSame<T>(s: State<T>, a: BlockingAction<T>)
    requires BlockingInv(s) && Trying(s) && Step(s, a).Ok? && !a.Consume?
    ensures var s' := Step(s, a).state; Trying(s') && TakeRank(s') == TakeRank(s)
  {
    hide BlockingInv, Next;
    if a.Produce? || a.Enqueue? {
      InnerStepIs(s, a);
      DequeuerUntouched(s, a);
      hide Step;
      if InnerAction(s, a).Some? {
        NextIs(s.queue, InnerAction(s, a).value);
        Answers.ConsumerUntouched(s.queue.q, InnerAction(s, a).value);
      }
    }
  }

  lemma TakeRankFallsOwn<T>(s: State<T>, kernelFails: bool)
    requires BlockingInv(s) && Trying(s) && Step(s, Consume(kernelFails)).Ok?
    ensures var s' := Step(s, Consume(kernelFails)).state;
      (s'.dequeuer.Ready? || Trying(s')) && TakeRank(s') < TakeRank(s)
  {
    hide QueueRuns.Inv, Sem.Inv, Balanced, Adding, Looking, Next, Sem.WaitStep, Calls.CallRank, Calls.Serves, Removing;
    match s.dequeuer
    case Waiting(_) =>
      Calls.TryWaitFalls(s.sem, kernelFails);
    case Claimed =>
      NextIs(s.queue, TryDequeue);
      CallsBegin(s.queue.q);
    case Inner =>
      NextIs(s.queue, Consumer);
      RemovingIsRanked(s.queue.q.consumer);
      Free.DequeueRankFalls(s.queue.q, Consumer);
  }

  lemma TakeRankFalls<T>(s: State<T>, a: BlockingAction<T>)
    requires BlockingInv(s) && Trying(s) && Step(s, a).Ok?
    ensures var s' := Step(s, a).state;
      && (s'.dequeuer.Ready? || Trying(s'))
      && (if a.Consume? then TakeRank(s') < TakeRank(s) else TakeRank(s') == TakeRank(s))
  {
    hide BlockingInv, Step, TakeRank, Trying;
    if a.Consume? {
      TakeRankFallsOwn(s, a.kernelFails);
    } else {
      TakeRankSame(s, a);
    }
  }

  lemma PutRanked<T>(s: State<T>)
    requires !s.enqueuer.Ready?
    ensures PutRank(s) > 0
  {
  }

  lemma {:induction false} PutBounded<T>(s: State<T>, acts: seq<BlockingAction<T>>)
    requires BlockingInv(s) && InsidePut(s, acts)
    ensures ProducerSteps(acts) < PutRank(s)
    decreases |acts|
  {
    hide Step, BlockingInv, PutRank;
    if acts == [] {
      PutRanked(s);
    } else {
      PutRankFalls(s, acts[0]);
      AfterStep(s, acts[0]);
      PutBounded(Step(s, acts[0]).state, acts[1..]);
    }
  }

  lemma TakeRanked<T>(s: State<T>)
    requires BlockingInv(s) && Trying(s)
    ensures TakeRank(s) > 0
  {
    hide QueueRuns.Inv, Sem.Inv, Balanced, Adding, Looking, Calls.CallRank, Calls.Serves, Removing;
    RemovingIsRanked(s.queue.q.consumer);
  }

  lemma {:induction false} TakeBounded<T>(s: State<T>, acts: seq<BlockingAction<T>>)
    requires BlockingInv(s) && Trying(s) && InsideTake(s, acts)
    ensures ConsumerSteps(acts) < TakeRank(s)
    decreases |acts|
  {
    hide Step, BlockingInv, TakeRank, Trying;
    if acts == [] {
      TakeRanked(s);
    } else {
      TakeRankFalls(s, acts[0]);
      AfterStep(s, acts[0]);
      TakeBounded(Step(s, acts[0]).state, acts[1..]);
    }
  }

  /** An `enqueue` or `try_enqueue` returns with its ninth step at the latest, whatever the other thread does
      or does not do. */
  lemma EnqueueIsWaitFree<T>(s: State<T>, x: T, canAlloc: bool, acts: seq<BlockingAction<T>>)
    requires BlockingInv(s) && s.enqueuer.Ready? && Step(s, BlockingAction.Enqueue(x, canAlloc)).Ok?
    requires InsidePut(Step(s, BlockingAction.Enqueue(x, canAlloc)).state, acts)
    ensures ProducerSteps(acts) < 9
  {
    var s' := Step(s, BlockingAction.Enqueue(x, canAlloc)).state;
    AfterStep(s, BlockingAction.Enqueue(x, canAlloc));
    PutBounded(s', acts);
    hide QueueRuns.Inv, Sem.Inv, Balanced, Removing, Looking, Next, Adding;
    AddingIsRanked(s'.queue.q.producer);
  }

  /** A `try_dequeue` or `pop` returns with its twelfth step at the latest. */
  lemma TryDequeueIsWaitFree<T>(s: State<T>, acts: seq<BlockingAction<T>>)
    requires BlockingInv(s) && s.dequeuer.Ready? && Step(s, BlockingAction.Dequeue(Sem.Try)).Ok?
    requires InsideTake(Step(s, BlockingAction.Dequeue(Sem.Try)).state, acts)
    ensures ConsumerSteps(acts) < 12
  {
    hide QueueRuns.Inv, Sem.Inv, Balanced, Removing, Looking, Next, Adding;
    AfterStep(s, BlockingAction.Dequeue(Sem.Try));
    TakeBounded(Step(s, BlockingAction.Dequeue(Sem.Try)).state, acts);
  }
}
