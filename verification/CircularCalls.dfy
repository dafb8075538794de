/** One call of the circular buffer from its beginning to its answer, whatever the other thread does
    meanwhile: what the answer says, and what the caller's patience means. */
module CircularCalls {
  import opened Allocation
  import opened Options
  import opened CircularBuffer
  import opened SemaphoreCalls
  import Sem = Semaphore

  // ----- Enqueues ---------------------------------------------------------------------------------

  /** `acts` begins an enqueue, and no other. */
  ghost predicate OneEnqueue<T>(x: T, patience: Sem.Patience, acts: seq<Action<T>>) {
    && acts != [] && acts[0] == Enqueue(x, patience)
    && forall k :: 1 <= k < |acts| ==> !acts[k].Enqueue?
  }

  /** Where the producer is in a call that asked to put in `x`, with `p` put in before it. */
  ghost predicate Putting<T>(s: System<T>, p: seq<T>, x: T, patience: Sem.Patience) {
    match s.b.enqueuer
    case Ready(accepted) => s.put == p + (if accepted then [x] else []) && (patience.Forever? ==> accepted)
    case Acquiring(y, forever) =>
      s.put == p && y == x && forever == patience.Forever? && Serves(s.b.slots.waiter, Sem.Asks(patience))
    case Filling(y) => s.put == p && y == x
    case _ => s.put == p + [x]
  }

  /** The producer has been refused a slot, or is about to be. */
  predicate RefusesPut<T>(b: Buffer<T>) {
    b.enqueuer == Enqueuer.Ready(false) || (b.enqueuer.Acquiring? && GivesUp(b.slots.waiter))
  }

  /** In `s` a kernel wait for a slot is about to fail. */
  predicate SlotsFail<T>(s: System<T>, a: Action<T>) {
    a == Produce(true) && s.b.enqueuer.Acquiring? && s.b.slots.waiter.Sleep?
  }

  /** Along `acts` one has failed. */
  ghost predicate SlotsFailed<T>(s: System<T>, acts: seq<Action<T>>) {
    exists k :: 0 <= k < |acts| && Run(s, acts[..k]).Some? && SlotsFail(Run(s, acts[..k]).value, acts[k])
  }

  lemma PuttingBegins<T>(s: System<T>, x: T, patience: Sem.Patience)
    requires Inv(s) && s.b.enqueuer.Ready? && Next(s, Enqueue(x, patience)).Some?
    ensures var s' := Next(s, Enqueue(x, patience)).value;
      Putting(s', s.put, x, patience) && !RefusesPut(s'.b)
  {
    hide Cells, Shape, Counters, Sem.Inv;
  }

  lemma SlotsUntouched<T>(b: Buffer<T>, a: Action<T>)
    requires a.Consume? && Act(b, a).Ok?
    ensures Act(b, a).state.slots.waiter == b.slots.waiter && Act(b, a).state.enqueuer == b.enqueuer
  {
    hide Sem.WaitStep;
  }

  lemma PuttingStep<T>(s: System<T>, a: Action<T>, p: seq<T>, x: T, patience: Sem.Patience)
    requires Inv(s) && Putting(s, p, x, patience) && !a.Enqueue? && Next(s, a).Some?
    ensures var s' := Next(s, a).value;
      && Putting(s', p, x, patience)
      && (Patient(Sem.Asks(patience)) && RefusesPut(s'.b) && !RefusesPut(s.b) ==> SlotsFail(s, a))
  {
    hide Cells, Shape, Counters, Sem.Inv, Sem.WaitStep, GivesUp, Serves;
    match a
    case Produce(kernelFails) =>
      if s.b.enqueuer.Acquiring? {
        hide Sem.Act;
        WaitStepServes(s.b.slots, kernelFails, patience);
        DeniedGivesUp(Sem.WaitStep(s.b.slots, kernelFails, patience.Forever?));
      }
    case Consume(_) => SlotsUntouched(s.b, a);
    case Dequeue(_) =>
  }

  lemma SlotsFailedStill<T>(s: System<T>, acts: seq<Action<T>>, a: Action<T>)
    requires Run(s, acts).Some?
    ensures SlotsFailed(s, acts) || SlotsFail(Run(s, acts).value, a) ==> SlotsFailed(s, acts + [a])
  {
    hide Run, SlotsFail;
    var more := acts + [a];
    assert forall k :: 0 <= k <= |acts| ==> more[..k] == acts[..k];
    if SlotsFailed(s, acts) {
      var k :| 0 <= k < |acts| && Run(s, acts[..k]).Some? && SlotsFail(Run(s, acts[..k]).value, acts[k]);
      assert more[k] == acts[k];
    } else if SlotsFail(Run(s, acts).value, a) {
      assert acts[..|acts|] == acts;
      assert more[|acts|] == a;
    }
  }

  lemma {:induction false} Enqueueing<T>(s: System<T>, x: T, patience: Sem.Patience, acts: seq<Action<T>>)
    requires Inv(s) && s.b.enqueuer.Ready? && OneEnqueue(x, patience, acts)
    ensures Run(s, acts).Some? && Inv(Run(s, acts).value)
    ensures var s' := Run(s, acts).value;
      && Putting(s', s.put, x, patience)
      && (Patient(Sem.Asks(patience)) && RefusesPut(s'.b) ==> SlotsFailed(s, acts))
    decreases |acts|
  {
    hide Inv, Next, Putting, RefusesPut, SlotsFailed, SlotsFail;
    var before, a := acts[..|acts| - 1], acts[|acts| - 1];
    assert acts == before + [a];
    if |acts| == 1 {
      assert before == [];
      AfterStep(s, a);
      PuttingBegins(s, x, patience);
    } else {
      Enqueueing(s, x, patience, before);
      var was := Run(s, before).value;
      AfterStep(was, a);
      PuttingStep(was, a, s.put, x, patience);
      SlotsFailedStill(s, before, a);
    }
  }

  // ----- Dequeues ---------------------------------------------------------------------------------

  /** `acts` begins a dequeue, and no other. */
  ghost predicate OneDequeue<T>(patience: Sem.Patience, acts: seq<Action<T>>) {
    && acts != [] && acts[0] == Dequeue(patience)
    && forall k :: 1 <= k < |acts| ==> !acts[k].Dequeue?
  }

  /** Where the consumer is in a call, with `t` taken out before it. */
  ghost predicate Taking<T>(s: System<T>, t: seq<T>, patience: Sem.Patience) {
    match s.b.dequeuer
    case Ready(got) => s.taken == t + (if got.Some? then [got.value] else []) && (patience.Forever? ==> got.Some?)
    case Acquiring(forever) =>
      s.taken == t && forever == patience.Forever? && Serves(s.b.items.waiter, Sem.Asks(patience))
    case Emptying => s.taken == t
    case Signalling(x) => s.taken == t + [x]
    case Posting(x) => s.taken == t + [x]
  }

  /** The consumer has been refused an item, or is about to be. */
  predicate RefusesTake<T>(b: Buffer<T>) {
    b.dequeuer == Dequeuer.Ready(None) || (b.dequeuer.Acquiring? && GivesUp(b.items.waiter))
  }

  /** In `s` a kernel wait for an item is about to fail. */
  predicate ItemsFail<T>(s: System<T>, a: Action<T>) {
    a == Consume(true) && s.b.dequeuer.Acquiring? && s.b.items.waiter.Sleep?
  }

  /** Along `acts` one has failed. */
  ghost predicate ItemsFailed<T>(s: System<T>, acts: seq<Action<T>>) {
    exists k :: 0 <= k < |acts| && Run(s, acts[..k]).Some? && ItemsFail(Run(s, acts[..k]).value, acts[k])
  }

  lemma TakingBegins<T>(s: System<T>, patience: Sem.Patience)
    requires Inv(s) && s.b.dequeuer.Ready? && Next(s, Dequeue(patience)).Some?
    ensures var s' := Next(s, Dequeue(patience)).value;
      Taking(s', s.taken, patience) && !RefusesTake(s'.b)
  {
    hide Cells, Shape, Counters, Sem.Inv;
  }

  lemma ItemsUntouched<T>(b: Buffer<T>, a: Action<T>)
    requires a.Produce? && Act(b, a).Ok?
    ensures Act(b, a).state.items.waiter == b.items.waiter && Act(b, a).state.dequeuer == b.dequeuer
  {
    hide Sem.WaitStep;
  }

  lemma TakingStep<T>(s: System<T>, a: Action<T>, t: seq<T>, patience: Sem.Patience)
    requires Inv(s) && Taking(s, t, patience) && !a.Dequeue? && Next(s, a).Some?
    ensures var s' := Next(s, a).value;
      && Taking(s', t, patience)
      && (Patient(Sem.Asks(patience)) && RefusesTake(s'.b) && !RefusesTake(s.b) ==> ItemsFail(s, a))
  {
    hide Cells, Shape, Counters, Sem.Inv, Sem.WaitStep, GivesUp, Serves;
    match a
    case Consume(kernelFails) =>
      if s.b.dequeuer.Acquiring? {
        hide Sem.Act;
        WaitStepServes(s.b.items, kernelFails, patience);
        DeniedGivesUp(Sem.WaitStep(s.b.items, kernelFails, patience.Forever?));
      }
    case Produce(_) => ItemsUntouched(s.b, a);
    case Enqueue(_, _) =>
  }

  lemma ItemsFailedStill<T>(s: System<T>, acts: seq<Action<T>>, a: Action<T>)
    requires Run(s, acts).Some?
    ensures ItemsFailed(s, acts) || ItemsFail(Run(s, acts).value, a) ==> ItemsFailed(s, acts + [a])
  {
    hide Run, ItemsFail;
    var more := acts + [a];
    assert forall k :: 0 <= k <= |acts| ==> more[..k] == acts[..k];
    if ItemsFailed(s, acts) {
      var k :| 0 <= k < |acts| && Run(s, acts[..k]).Some? && ItemsFail(Run(s, acts[..k]).value, acts[k]);
      assert more[k] == acts[k];
    } else if ItemsFail(Run(s, acts).value, a) {
      assert acts[..|acts|] == acts;
      assert more[|acts|] == a;
    }
  }

  lemma {:induction false} Dequeueing<T>(s: System<T>, patience: Sem.Patience, acts: seq<Action<T>>)
    requires Inv(s) && s.b.dequeuer.Ready? && OneDequeue(patience, acts)
    ensures Run(s, acts).Some? && Inv(Run(s, acts).value)
    ensures var s' := Run(s, acts).value;
      && Taking(s', s.taken, patience)
      && (Patient(Sem.Asks(patience)) && RefusesTake(s'.b) ==> ItemsFailed(s, acts))
    decreases |acts|
  {
    hide Inv, Next, Taking, RefusesTake, ItemsFailed, ItemsFail;
    var before, a := acts[..|acts| - 1], acts[|acts| - 1];
    assert acts == before + [a];
    if |acts| == 1 {
      assert before == [];
      AfterStep(s, a);
      TakingBegins(s, patience);
    } else {
      Dequeueing(s, patience, before);
      var was := Run(s, before).value;
      AfterStep(was, a);
      TakingStep(was, a, s.taken, patience);
      ItemsFailedStill(s, before, a);
    }
  }

  // ----- The answers ------------------------------------------------------------------------------

  /** An enqueue, begun after any run and interleaved in any way: when it has returned, it has put in its
      item if it says so, and nothing if not. One that waits for ever says yes; one with a timeout other
      than 0 says no only if a kernel wait of this call failed; and it sleeps only as it was asked to. */
  lemma EnqueueAnswers<T>(element: CppType, capacity: nat, unset: T, memory: bool, past: seq<Action<T>>,
                          x: T, patience: Sem.Patience, acts: seq<Action<T>>)
    requires Constructible(element, capacity, memory)
    ensures Run(Start(element, capacity, unset, memory), past).Some?
    ensures var s := Run(Start(element, capacity, unset, memory), past).value;
      s.b.enqueuer.Ready? && OneEnqueue(x, patience, acts) ==>
        && Run(s, acts).Some?
        && var s' := Run(s, acts).value;
        && (s'.b.enqueuer.Acquiring? ==> SleepsAsAsked(s'.b.slots.waiter, patience))
        && (s'.b.enqueuer.Ready? ==>
              && s'.put == s.put + (if s'.b.enqueuer.accepted then [x] else [])
              && (patience.Forever? ==> s'.b.enqueuer.accepted)
              && (!s'.b.enqueuer.accepted && patience.Within? && patience.timeout != 0 ==> SlotsFailed(s, acts)))
  {
    hide Start, Run, Inv, SlotsFailed, Constructible;
    NeverFaults(element, capacity, unset, memory, past);
    var s := Run(Start(element, capacity, unset, memory), past).value;
    if s.b.enqueuer.Ready? && OneEnqueue(x, patience, acts) {
      Enqueueing(s, x, patience, acts);
      var w := Run(s, acts).value.b.slots.waiter;
      if Serves(w, Sem.Asks(patience)) {
        ServesPatience(w, patience);
      }
    }
  }

  /** A dequeue likewise: when it has returned, it has taken out the item it delivers, the oldest there
      was, and nothing if it delivers none. */
  lemma DequeueAnswers<T>(element: CppType, capacity: nat, unset: T, memory: bool, past: seq<Action<T>>,
                          patience: Sem.Patience, acts: seq<Action<T>>)
    requires Constructible(element, capacity, memory)
    ensures Run(Start(element, capacity, unset, memory), past).Some?
    ensures var s := Run(Start(element, capacity, unset, memory), past).value;
      s.b.dequeuer.Ready? && OneDequeue(patience, acts) ==>
        && Run(s, acts).Some?
        && var s' := Run(s, acts).value;
        && (s'.b.dequeuer.Acquiring? ==> SleepsAsAsked(s'.b.items.waiter, patience))
        && (s'.b.dequeuer.Ready? ==>
              var got := s'.b.dequeuer.got;
              && s'.taken == s.taken + (if got.Some? then [got.value] else [])
              && s'.taken <= s'.put
              && (patience.Forever? ==> got.Some?)
              && (got.None? && patience.Within? && patience.timeout != 0 ==> ItemsFailed(s, acts)))
  {
    hide Start, Run, ItemsFailed, Constructible, Cells, Shape, Balanced, Sem.Inv;
    NeverFaults(element, capacity, unset, memory, past);
    var s := Run(Start(element, capacity, unset, memory), past).value;
    if s.b.dequeuer.Ready? && OneDequeue(patience, acts) {
      Dequeueing(s, patience, acts);
      var w := Run(s, acts).value.b.items.waiter;
      if Serves(w, Sem.Asks(patience)) {
        ServesPatience(w, patience);
      }
    }
  }

  // ----- The calls that do not wait ---------------------------------------------------------------

  /** How many of its own steps a `try_enqueue` is from its answer. */
  function PutRank<T>(b: Buffer<T>): nat {
    match b.enqueuer
    case Ready(_) => 0
    case Acquiring(_, _) => CallRank(b.slots) + 3
    case Filling(_) => 3
    case Signalling => 2
    case Posting => 1
  }

  function TakeRank<T>(b: Buffer<T>): nat {
    match b.dequeuer
    case Ready(_) => 0
    case Acquiring(_) => CallRank(b.items) + 3
    case Emptying => 3
    case Signalling(_) => 2
    case Posting(_) => 1
  }

  /** Inside a `try_` call: the thread asks of its semaphore no more than `tryWait`. */
  predicate TryingPut<T>(b: Buffer<T>) {
    && !b.enqueuer.Ready?
    && (b.enqueuer.Acquiring? ==>
          !b.enqueuer.forever && !b.slots.waiter.Idle? && Serves(b.slots.waiter, Sem.TryWait))
  }

  predicate TryingTake<T>(b: Buffer<T>) {
    && !b.dequeuer.Ready?
    && (b.dequeuer.Acquiring? ==>
          !b.dequeuer.forever && !b.items.waiter.Idle? && Serves(b.items.waiter, Sem.TryWait))
  }

  lemma TryRankSame(s: Sem.State, s': Sem.State)
    requires Serves(s.waiter, Sem.TryWait) && s'.waiter == s.waiter
    ensures CallRank(s') == CallRank(s)
  {
  }

  lemma PutRankFalls<T>(b: Buffer<T>, a: Action<T>)
    requires TryingPut(b) && Act(b, a).Ok?
    ensures var b' := Act(b, a).state;
      && (b'.enqueuer.Ready? || TryingPut(b'))
      && (if a.Produce? then PutRank(b') < PutRank(b) else PutRank(b') == PutRank(b))
  {
    hide Sem.WaitStep, CallRank, Serves;
    match a
    case Produce(kernelFails) =>
      if b.enqueuer.Acquiring? {
        TryWaitFalls(b.slots, kernelFails);
      }
    case Consume(_) =>
      SlotsUntouched(b, a);
      if b.enqueuer.Acquiring? {
        TryRankSame(b.slots, Act(b, a).state.slots);
      }
    case Enqueue(_, _) =>
    case Dequeue(_) =>
  }

  lemma TakeRankFalls<T>(b: Buffer<T>, a: Action<T>)
    requires TryingTake(b) && Act(b, a).Ok?
    ensures var b' := Act(b, a).state;
      && (b'.dequeuer.Ready? || TryingTake(b'))
      && (if a.Consume? then TakeRank(b') < TakeRank(b) else TakeRank(b') == TakeRank(b))
  {
    hide Sem.WaitStep, CallRank, Serves;
    match a
    case Consume(kernelFails) =>
      if b.dequeuer.Acquiring? {
        TryWaitFalls(b.items, kernelFails);
      }
    case Produce(_) =>
      ItemsUntouched(b, a);
      if b.dequeuer.Acquiring? {
        TryRankSame(b.items, Act(b, a).state.items);
      }
    case Enqueue(_, _) =>
    case Dequeue(_) =>
  }

  /** The producer has not returned in any state along `acts`. */
  ghost predicate InsidePut<T>(b: Buffer<T>, acts: seq<Action<T>>)
    decreases |acts|
  {
    && !b.enqueuer.Ready?
    && (acts != [] ==> Act(b, acts[0]).Ok? && InsidePut(Act(b, acts[0]).state, acts[1..]))
  }

  ghost predicate InsideTake<T>(b: Buffer<T>, acts: seq<Action<T>>)
    decreases |acts|
  {
    && !b.dequeuer.Ready?
    && (acts != [] ==> Act(b, acts[0]).Ok? && InsideTake(Act(b, acts[0]).state, acts[1..]))
  }

  function ProducerSteps<T>(acts: seq<Action<T>>): nat {
    if acts == [] then 0 else (if acts[0].Produce? then 1 else 0) + ProducerSteps(acts[1..])
  }

  function ConsumerSteps<T>(acts: seq<Action<T>>): nat {
    if acts == [] then 0 else (if acts[0].Consume? then 1 else 0) + ConsumerSteps(acts[1..])
  }

  lemma {:induction false} PutBounded<T>(b: Buffer<T>, acts: seq<Action<T>>)
    requires TryingPut(b) && InsidePut(b, acts)
    ensures ProducerSteps(acts) < PutRank(b)
    decreases |acts|
  {
    hide Act, CallRank, Serves;
    if acts == [] {
    } else {
      PutRankFalls(b, acts[0]);
      PutBounded(Act(b, acts[0]).state, acts[1..]);
    }
  }

  lemma {:induction false} TakeBounded<T>(b: Buffer<T>, acts: seq<Action<T>>)
    requires TryingTake(b) && InsideTake(b, acts)
    ensures ConsumerSteps(acts) < TakeRank(b)
    decreases |acts|
  {
    hide Act, CallRank, Serves;
    if acts == [] {
    } else {
      TakeRankFalls(b, acts[0]);
      TakeBounded(Act(b, acts[0]).state, acts[1..]);
    }
  }

  /** A `try_enqueue` returns with its fifth step at the latest, whatever the other thread does or does not
      do. */
  lemma TryEnqueueIsWaitFree<T>(s: System<T>, x: T, acts: seq<Action<T>>)
    requires Inv(s) && s.b.enqueuer.Ready? && Act(s.b, Enqueue(x, Sem.Try)).Ok?
    requires InsidePut(Act(s.b, Enqueue(x, Sem.Try)).state, acts)
    ensures ProducerSteps(acts) < 5
  {
    hide Cells, Shape, Counters, Balanced, Sem.Inv;
    PutBounded(Act(s.b, Enqueue(x, Sem.Try)).state, acts);
  }

  /** The same for `try_dequeue`. */
  lemma TryDequeueIsWaitFree<T>(s: System<T>, acts: seq<Action<T>>)
    requires Inv(s) && s.b.dequeuer.Ready? && Act(s.b, Dequeue(Sem.Try)).Ok?
    requires InsideTake(Act(s.b, Dequeue(Sem.Try)).state, acts)
    ensures ConsumerSteps(acts) < 5
  {
    hide Cells, Shape, Counters, Balanced, Sem.Inv;
    TakeBounded(Act(s.b, Dequeue(Sem.Try)).state, acts);
  }
}
