/** `BlockingReaderWriterQueue`: the queue of `QueueSteps` behind the semaphore of `Semaphore`, with
    both still at the granularity of single loads and stores. */
module BlockingQueue {
  import opened Allocation
  import opened Bits
  import opened Blocks
  import opened Options
  import opened QueueSteps
  import opened QueueInvariant
  import opened QueueProducer
  import opened QueueConsumer
  import opened QueueRuns
  import Sem = Semaphore

  /** Where the producer is in `try_enqueue` or `enqueue` (lines 784-791 and 822-829). */
  datatype Enqueuer =
    | Ready(accepted: bool)
    | Inner        // inside inner.enqueue
    | Signalling   // about to do the fetch_add of sema->signal()
    | Posting      // about to post the kernel semaphore

  /** Where the consumer is in `try_dequeue`, `pop`, `wait_dequeue` or `wait_dequeue_timed` (lines
      861-903, 934-943), or in `peek` (lines 926-929). */
  datatype Dequeuer<T> =
    | Ready(got: Option<T>)
    | Waiting(forever: bool)   // inside sema->tryWait() or sema->wait()
    | Claimed                  // the semaphore said yes; about to call inner.try_dequeue
    | Inner                    // inside inner.try_dequeue or inner.pop
    | Peeking                  // inside inner.peek

  datatype State<T> = State(queue: System<T>, sem: Sem.State, enqueuer: Enqueuer, dequeuer: Dequeuer<T>)

  datatype Result<T> = Ok(state: State<T>) | Failed

  datatype BlockingAction<T> =
    | Enqueue(x: T, canAlloc: bool)
    | Produce(memory: bool)
    | Dequeue(patience: Sem.Patience)   // `pop` is a `try_dequeue` that drops the value
    | Peek
    | Consume(kernelFails: bool)

  function Lift<T>(o: Outcome<System<T>>, s: State<T>, e: Enqueuer, d: Dequeuer<T>): Result<T> {
    match o
    case Fault(_) => Failed
    case Ok(queue) => Result.Ok(s.(queue := queue, enqueuer := e, dequeuer := d))
  }

  function LiftSem<T>(o: Sem.Outcome, s: State<T>, e: Enqueuer, d: Dequeuer<T>): Result<T> {
    match o
    case AssertFailed => Failed
    case Ok(sem) => Result.Ok(s.(sem := sem, enqueuer := e, dequeuer := d))
  }

  function Produces<T>(s: State<T>, memory: bool): Result<T> {
    match s.enqueuer
    case Ready(_) => Result.Ok(s)
    case Inner =>
      var o := Next(s.queue, Producer(memory));
      Lift(o, s,
           if o.Fault? || !o.state.q.producer.PIdle? then Enqueuer.Inner
           else if o.state.q.producer.result.Accepted? then Signalling
           else Enqueuer.Ready(false), s.dequeuer)
    case Signalling =>
      var o := Sem.Act(s.sem, Sem.Signals(1));
      LiftSem(o, s, if o.Ok? && o.state.signaller.Post? then Posting else Enqueuer.Ready(true), s.dequeuer)
    case Posting =>
      LiftSem(Sem.Act(s.sem, Sem.Posts), s, Enqueuer.Ready(true), s.dequeuer)
  }

  function Consumes<T>(s: State<T>, kernelFails: bool): Result<T> {
    match s.dequeuer
    case Ready(_) => Result.Ok(s)
    case Waiting(forever) =>
      var o := Sem.WaitStep(s.sem, kernelFails, forever);
      LiftSem(o, s, s.enqueuer,
              if o.Ok? && o.state.waiter == Sem.Idle(Sem.Granted) then Claimed
              else if o.Ok? && o.state.waiter.Idle? then Dequeuer.Ready(None)
              else s.dequeuer)
    case Claimed => Lift(Next(s.queue, Action.TryDequeue), s, s.enqueuer, Dequeuer.Inner)
    case Inner =>
      var o := Next(s.queue, Consumer);
      if o.Ok? && o.state.q.consumer == CIdle(Empty) then Failed  // assert(success)
      else Lift(o, s, s.enqueuer,
                if o.Ok? && o.state.q.consumer.CIdle? && o.state.q.consumer.result.Took?
                then Dequeuer.Ready(Some(o.state.q.consumer.result.value)) else Dequeuer.Inner)
    case Peeking =>
      var o := Next(s.queue, Consumer);
      Lift(o, s, s.enqueuer, if o.Ok? && o.state.q.consumer.CIdle? then Dequeuer.Ready(None) else Peeking)
  }

  function Step<T>(s: State<T>, a: BlockingAction<T>): Result<T> {
    match a
    case Enqueue(x, canAlloc) =>
      if s.enqueuer.Ready? then
        Lift(Next(s.queue, if canAlloc then Action.Enqueue(x) else TryEnqueue(x)), s, Enqueuer.Inner, s.dequeuer)
      else Result.Ok(s)
    case Produce(memory) => Produces(s, memory)
    case Dequeue(patience) =>
      if s.dequeuer.Ready? then
        LiftSem(Sem.Act(s.sem, Sem.Begin(Sem.Asks(patience))), s, s.enqueuer, Waiting(patience.Forever?))
      else Result.Ok(s)
    case Peek =>
      if s.dequeuer.Ready? then Lift(Next(s.queue, Show), s, s.enqueuer, Peeking) else Result.Ok(s)
    case Consume(kernelFails) => Consumes(s, kernelFails)
  }

  // ----- The invariant ----------------------------------------------------------------------------

  predicate Adding<T>(p: Producer<T>) {
    !p.PIdle? && !p.PSizeStart? && !p.PSize?
  }

  predicate Removing<T>(c: Consumer<T>) {
    match c
    case CLook(op) => op.Dequeue?
    case CReadTail(op) => op.Dequeue?
    case CReadTailBlock(op) => op.Dequeue?
    case CReReadTail(op) => op.Dequeue?
    case CReadNext(op) => op.Dequeue?
    case CReadNextTail(op, _) => op.Dequeue?
    case CStoreFrontBlock(_) => true
    case CTake => true
    case CStoreFront(_) => true
    case _ => false
  }

  predicate Looking<T>(c: Consumer<T>) {
    match c
    case CLook(op) => op.Peek?
    case CReadTail(op) => op.Peek?
    case CReadTailBlock(op) => op.Peek?
    case CReReadTail(op) => op.Peek?
    case CReadNext(op) => op.Peek?
    case CReadNextTail(op, _) => op.Peek?
    case _ => false
  }

  /** Each thread is inside at most one of the two layers, where its outer program counter says. */
  predicate Aligned<T>(s: State<T>) {
    && (if s.enqueuer.Inner? then Adding(s.queue.q.producer) else s.queue.q.producer.PIdle?)
    && (s.sem.signaller.Post? <==> s.enqueuer.Posting?)
    && (s.dequeuer.Waiting? <==> !s.sem.waiter.Idle?)
    && (if s.dequeuer.Inner? then Removing(s.queue.q.consumer)
        else if s.dequeuer.Peeking? then Looking(s.queue.q.consumer)
        else s.queue.q.consumer.CIdle?)
  }

  function Unsignalled(e: Enqueuer): nat {
    if e.Signalling? then 1 else 0
  }

  function Unredeemed<T>(d: Dequeuer<T>): nat {
    if d.Claimed? || d.Inner? then 1 else 0
  }

  /** The elements in the inner queue are the unclaimed tokens, the enqueues not yet signalled and the
      claims not yet redeemed. */
  ghost predicate Balanced<T>(s: State<T>) {
    |Holds(s.queue)| == Sem.Tokens(s.sem) + Unsignalled(s.enqueuer) + Unredeemed(s.dequeuer)
  }

  ghost predicate BlockingInv<T>(s: State<T>) {
    && QueueRuns.Inv(s.queue)
    && Sem.Inv(s.sem)
    && Aligned(s)
    && Balanced(s)
    && (s.dequeuer.Inner? ==> !s.queue.log.wasEmpty)
  }

  // ----- The two layers, each by its own theorem ----------------------------------------------------

  /** What a step of the inner queue does, as seen from outside. */
  lemma InnerStep<T>(s: System<T>, a: Action<T>)
    requires QueueRuns.Inv(s)
    ensures Next(s, a).Ok? && QueueRuns.Inv(Next(s, a).state)
    ensures var s' := Next(s, a).state;
      && |Holds(s')| == |NextContents(s.q, Holds(s), a)|
      && (s'.log.wasEmpty <==> |Holds(s')| == 0 || (s.log.wasEmpty && !ConsumerCall(s, a)))
      && s'.q == Act(s.q, a).state && Act(s.q, a).Ok?
      && (s.q.consumer.CStoreFront? ==> |Holds(s)| > 0)
  {
    hide Core, History, EmptySeen, PeekValid, Act, Contents;
    NextKeeps(s, a);
    EveryStep(s.q, s.ring, s.live, a);
    if s.q.consumer.CStoreFront? {
      StoreFront(s.q, s.ring, s.live);
    }
  }

  /** `enqueue` returns true exactly at the step that appends. */
  lemma AddingStep<T>(q: Queue<T>, memory: bool)
    requires Act(q, Producer(memory)).Ok? && Adding(q.producer)
    ensures var q' := Act(q, Producer(memory)).state;
      && q'.consumer == q.consumer
      && (Adding(q'.producer) || q'.producer.PIdle?)
      && (q'.producer == PIdle(Accepted) <==> q.producer.PStoreTail? || q.producer.PStoreTailBlock?)
      && (q'.producer.PIdle? ==>
            q'.producer.result.Accepted? || q'.producer.result.Full? || q'.producer.result.NoMemory?)
  {
    hide After, Count, FreshBlock, GrownSize;
  }

  /** `try_dequeue` returns true exactly at the step that removes. */
  lemma RemovingStep<T>(q: Queue<T>)
    requires Act(q, Consumer).Ok? && Removing(q.consumer)
    ensures var q' := Act(q, Consumer).state;
      && q'.producer == q.producer
      && (Removing(q'.consumer) || q'.consumer == CIdle(Empty) || (q'.consumer.CIdle? && q'.consumer.result.Took?))
      && (q'.consumer.CIdle? && q'.consumer.result.Took? <==> q.consumer.CStoreFront?)
  {
    hide After, Count;
  }

  lemma LookingStep<T>(q: Queue<T>)
    requires Act(q, Consumer).Ok? && Looking(q.consumer)
    ensures var q' := Act(q, Consumer).state;
      q'.producer == q.producer && (Looking(q'.consumer) || q'.consumer.CIdle?)
  {
    hide After, Count;
  }

  ghost predicate StepFine<T>(s: State<T>, a: BlockingAction<T>) {
    Step(s, a).Ok? && BlockingInv(Step(s, a).state)
  }

  lemma ProduceKeeps<T>(s: State<T>, memory: bool)
    requires BlockingInv(s)
    ensures StepFine(s, Produce(memory))
  {
    hide QueueRuns.Inv, Act, Holds, Record;
    if s.enqueuer.Inner? {
      InnerStep(s.queue, Producer(memory));
      AddingStep(s.queue.q, memory);
    } else if s.enqueuer.Signalling? {
      Sem.StepKeeps(s.sem, Sem.Signals(1));
    } else if s.enqueuer.Posting? {
      Sem.StepKeeps(s.sem, Sem.Posts);
    }
  }

  lemma WaitKeeps<T>(s: State<T>, kernelFails: bool)
    requires BlockingInv(s) && s.dequeuer.Waiting?
    ensures StepFine(s, Consume(kernelFails))
  {
    hide QueueRuns.Inv, Holds, Removing, Looking, Adding;
    Sem.StepKeeps(s.sem, Sem.Waits(kernelFails));
  }

  lemma EmptyMeans<T>(s: System<T>)
    requires QueueRuns.Inv(s)
    ensures s.q.consumer == CIdle(Empty) ==> s.log.wasEmpty
  {
    hide Core, History, PeekValid;
  }

  lemma CallsBegin<T>(q: Queue<T>)
    requires q.consumer.CIdle?
    ensures Act(q, Action.TryDequeue) == Outcome.Ok(q.(consumer := CLook(Op.Dequeue)))
    ensures Act(q, Show) == Outcome.Ok(q.(consumer := CLook(Op.Peek)))
  {
  }

  lemma ConsumeKeeps<T>(s: State<T>, kernelFails: bool)
    requires BlockingInv(s)
    ensures StepFine(s, Consume(kernelFails))
  {
    hide QueueRuns.Inv, Act, Holds, Record;
    match s.dequeuer
    case Ready(_) =>
    case Waiting(_) => WaitKeeps(s, kernelFails);
    case Claimed =>
      InnerStep(s.queue, Action.TryDequeue);
      CallsBegin(s.queue.q);
    case Inner =>
      InnerStep(s.queue, Consumer);
      RemovingStep(s.queue.q);
      EmptyMeans(Next(s.queue, Consumer).state);
    case Peeking =>
      InnerStep(s.queue, Consumer);
      LookingStep(s.queue.q);
  }

  lemma EnqueueBegins<T>(q: Queue<T>, x: T)
    requires q.producer.PIdle?
    ensures Act(q, Action.Enqueue(x)) == Outcome.Ok(q.(producer := PCheck(x, true)))
    ensures Act(q, TryEnqueue(x)) == Outcome.Ok(q.(producer := PCheck(x, false)))
  {
  }

  lemma StepKeeps<T>(s: State<T>, a: BlockingAction<T>)
    requires BlockingInv(s)
    ensures StepFine(s, a)
  {
    hide QueueRuns.Inv, Act, Holds, Record;
    match a
    case Produce(memory) => ProduceKeeps(s, memory);
    case Consume(kernelFails) => ConsumeKeeps(s, kernelFails);
    case Enqueue(x, canAlloc) =>
      if s.enqueuer.Ready? {
        InnerStep(s.queue, if canAlloc then Action.Enqueue(x) else TryEnqueue(x));
        EnqueueBegins(s.queue.q, x);
      }
    case Dequeue(patience) => Sem.StepKeeps(s.sem, Sem.Begin(Sem.Asks(patience)));
    case Peek =>
      if s.dequeuer.Ready? {
        InnerStep(s.queue, Show);
        CallsBegin(s.queue.q);
      }
  }

  // ----- Every run --------------------------------------------------------------------------------

  function BlockingRun<T>(s: State<T>, acts: seq<BlockingAction<T>>): Result<T> {
    if acts == [] then Result.Ok(s) else
    match BlockingRun(s, acts[..|acts| - 1])
    case Failed => Failed
    case Ok(s') => Step(s', acts[|acts| - 1])
  }

  function BlockingStart<T>(types: Types, size: nat, maxBlockSize: nat, unset: T): State<T>
    requires maxBlockSize >= 2
  {
    State(QueueRuns.Start(types, size, maxBlockSize, unset), Sem.Start(0), Enqueuer.Ready(false), Dequeuer.Ready(None))
  }

  lemma StartFine<T>(types: Types, size: nat, maxBlockSize: nat, unset: T)
    requires Constructible(types, size, maxBlockSize)
    ensures BlockingInv(BlockingStart(types, size, maxBlockSize, unset))
  {
    hide Core, InitialBlockSize, InitialBlockCount, Contents;
    StartOk(types, size, maxBlockSize, unset);
  }

  lemma AfterStep<T>(s: State<T>, a: BlockingAction<T>)
    requires BlockingInv(s)
    ensures Step(s, a).Ok? && BlockingInv(Step(s, a).state)
  {
    hide BlockingInv, Step;
    StepKeeps(s, a);
  }

  /** On every run, timed-out waits included, neither layer fails and `assert(success)` after the
      semaphore has been acquired never fails: the elements always cover the claims. */
  lemma {:induction false} NeverFails<T>(types: Types, size: nat, maxBlockSize: nat, unset: T,
                                         acts: seq<BlockingAction<T>>)
    requires Constructible(types, size, maxBlockSize)
    ensures BlockingRun(BlockingStart(types, size, maxBlockSize, unset), acts).Ok?
    ensures BlockingInv(BlockingRun(BlockingStart(types, size, maxBlockSize, unset), acts).state)
  {
    hide BlockingInv, BlockingStart, Step;
    if acts == [] {
      StartFine(types, size, maxBlockSize, unset);
    } else {
      var before := acts[..|acts| - 1];
      NeverFails(types, size, maxBlockSize, unset, before);
      AfterStep(BlockingRun(BlockingStart(types, size, maxBlockSize, unset), before).state, acts[|acts| - 1]);
    }
  }

  /** Conservation, and what `size_approx`, the count of the semaphore, is worth: it never exceeds the true
      length, and falls short of it by at most two. With both threads between calls it is exact. */
  lemma LengthIsTokens<T>(types: Types, size: nat, maxBlockSize: nat, unset: T, acts: seq<BlockingAction<T>>)
    requires Constructible(types, size, maxBlockSize)
    ensures BlockingRun(BlockingStart(types, size, maxBlockSize, unset), acts).Ok?
    ensures var s := BlockingRun(BlockingStart(types, size, maxBlockSize, unset), acts).state;
      && |Holds(s.queue)| == Sem.Tokens(s.sem) + Unsignalled(s.enqueuer) + Unredeemed(s.dequeuer)
      && Sem.AvailableApprox(s.sem) <= |Holds(s.queue)| <= Sem.AvailableApprox(s.sem) + 2
      && (s.enqueuer.Ready? && s.dequeuer.Ready? ==> Sem.AvailableApprox(s.sem) == |Holds(s.queue)|)
  {
    hide BlockingStart, BlockingRun, QueueRuns.Inv, Holds;
    NeverFails(types, size, maxBlockSize, unset, acts);
  }

  /** What a call returned is what was dequeued last. */
  ghost predicate Delivered<T>(s: State<T>) {
    s.dequeuer.Ready? && s.dequeuer.got.Some? ==>
      var dequeued := s.queue.log.dequeued;
      |dequeued| > 0 && dequeued[|dequeued| - 1] == s.dequeuer.got.value
  }

  lemma OnlyConsumerRemoves<T>(s: System<T>, a: Action<T>)
    requires Next(s, a).Ok?
    ensures !a.Consumer? ==> Next(s, a).state.log.dequeued == s.log.dequeued
    ensures Next(s, a).state.q == Act(s.q, a).state
  {
    hide Act, Contents, Address;
  }

  lemma NotIdle<T>(c: Consumer<T>)
    ensures Removing(c) ==> !c.CIdle?
  {
  }

  lemma StepDelivers<T>(s: State<T>, a: BlockingAction<T>)
    requires BlockingInv(s) && Delivered(s) && Step(s, a).Ok?
    ensures Delivered(Step(s, a).state)
  {
    hide QueueRuns.Inv, Sem.Inv, Balanced, Sem.Act, Next, Removing, Looking, Adding;
    match a
    case Produce(memory) =>
      if s.enqueuer.Inner? {
        OnlyConsumerRemoves(s.queue, Producer(memory));
      }
    case Enqueue(x, canAlloc) =>
      if s.enqueuer.Ready? {
        OnlyConsumerRemoves(s.queue, if canAlloc then Action.Enqueue(x) else TryEnqueue(x));
      }
    case Consume(_) =>
      if s.dequeuer.Inner? {
        NotIdle(s.queue.q.consumer);
        TookStep(s.queue, Consumer);
      }
    case _ =>
  }

  lemma {:induction false} EveryRunDelivers<T>(types: Types, size: nat, maxBlockSize: nat, unset: T,
                                               acts: seq<BlockingAction<T>>)
    requires Constructible(types, size, maxBlockSize)
    ensures BlockingRun(BlockingStart(types, size, maxBlockSize, unset), acts).Ok?
    ensures Delivered(BlockingRun(BlockingStart(types, size, maxBlockSize, unset), acts).state)
  {
    hide BlockingInv, Step;
    NeverFails(types, size, maxBlockSize, unset, acts);
    if acts == [] {
    } else {
      var before := acts[..|acts| - 1];
      NeverFails(types, size, maxBlockSize, unset, before);
      EveryRunDelivers(types, size, maxBlockSize, unset, before);
      StepDelivers(BlockingRun(BlockingStart(types, size, maxBlockSize, unset), before).state, acts[|acts| - 1]);
    }
  }

  /** First in, first out: what the blocking operations return is what was dequeued, in order, and that
      is a prefix of what was enqueued. */
  lemma BlockingFifo<T>(types: Types, size: nat, maxBlockSize: nat, unset: T, acts: seq<BlockingAction<T>>)
    requires Constructible(types, size, maxBlockSize)
    ensures BlockingRun(BlockingStart(types, size, maxBlockSize, unset), acts).Ok?
    ensures var s := BlockingRun(BlockingStart(types, size, maxBlockSize, unset), acts).state;
      && s.queue.log.enqueued == s.queue.log.dequeued + Holds(s.queue)
      && (s.dequeuer.Ready? && s.dequeuer.got.Some? ==>
            var dequeued := s.queue.log.dequeued;
            |dequeued| > 0 && dequeued[|dequeued| - 1] == s.dequeuer.got.value)
  {
    hide BlockingStart, BlockingRun, Core, Aligned, Balanced, Holds, EmptySeen, PeekValid;
    NeverFails(types, size, maxBlockSize, unset, acts);
    EveryRunDelivers(types, size, maxBlockSize, unset, acts);
  }

  lemma RefusedStep<T>(s: State<T>, kernelFails: bool)
    requires BlockingInv(s) && s.dequeuer.Waiting? && Step(s, Consume(kernelFails)).Ok?
    ensures var s' := Step(s, Consume(kernelFails)).state;
      s'.queue == s.queue && (s'.dequeuer.Ready? ==> |Holds(s.queue)| == Unsignalled(s.enqueuer))
  {
    hide QueueRuns.Inv, Holds, Removing, Looking, Adding;
    Sem.DeniedMeans(s.sem, kernelFails);
  }

  /** A `try_dequeue`, `pop` or `wait_dequeue_timed` that comes back with nothing is right: at the step
      in which it was refused, the only element that can have been in the queue is one whose enqueue
      had not signalled it yet. */
  lemma RefusalIsTrue<T>(types: Types, size: nat, maxBlockSize: nat, unset: T, acts: seq<BlockingAction<T>>,
                         kernelFails: bool)
    requires Constructible(types, size, maxBlockSize)
    ensures BlockingRun(BlockingStart(types, size, maxBlockSize, unset), acts).Ok?
    ensures var s := BlockingRun(BlockingStart(types, size, maxBlockSize, unset), acts).state;
      s.dequeuer.Waiting? ==>
        var r := Step(s, Consume(kernelFails));
        r.Ok? && (r.state.dequeuer.Ready? ==> |Holds(s.queue)| == Unsignalled(s.enqueuer) == |Holds(r.state.queue)|)
  {
    hide BlockingStart, BlockingRun, BlockingInv;
    NeverFails(types, size, maxBlockSize, unset, acts);
    var s := BlockingRun(BlockingStart(types, size, maxBlockSize, unset), acts).state;
    StepKeeps(s, Consume(kernelFails));
    if s.dequeuer.Waiting? {
      RefusedStep(s, kernelFails);
    }
  }

  /** A consumer that sleeps in `wait_dequeue` while an element is in the queue is about to be woken:
      the kernel semaphore is posted, or the producer is on its way to signal it. */
  lemma SleeperIsWoken<T>(types: Types, size: nat, maxBlockSize: nat, unset: T, acts: seq<BlockingAction<T>>)
    requires Constructible(types, size, maxBlockSize)
    ensures BlockingRun(BlockingStart(types, size, maxBlockSize, unset), acts).Ok?
    ensures var s := BlockingRun(BlockingStart(types, size, maxBlockSize, unset), acts).state;
      s.sem.waiter.Sleep? && |Holds(s.queue)| > 0 ==>
        s.sem.kernel == 1 || s.enqueuer.Posting? || s.enqueuer.Signalling?
  {
    hide BlockingStart, BlockingRun, QueueRuns.Inv, Holds;
    NeverFails(types, size, maxBlockSize, unset, acts);
  }
}
