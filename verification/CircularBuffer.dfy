/** `BlockingReaderWriterCircularBuffer`: a ring of cells between two semaphores. The producer waits on
    `slots_` and signals `items`; the consumer waits on `items` and signals `slots_`. */
module CircularBuffer {
  import opened Allocation
  import opened Bits
  import opened Blocks
  import opened Options
  import Sem = Semaphore

  /** Where the producer is in `try_enqueue`, `wait_enqueue` or `wait_enqueue_timed`. */
  datatype Enqueuer<T> =
    | Ready(accepted: bool)
    | Acquiring(x: T, forever: bool)   // inside slots_->tryWait() or slots_->wait()
    | Filling(x: T)                    // lines 253-254
    | Signalling                       // line 255, the fetch_add
    | Posting                          // line 255, the kernel post

  /** Where the consumer is in `try_dequeue`, `wait_dequeue` or `wait_dequeue_timed`. */
  datatype Dequeuer<T> =
    | Ready(got: Option<T>)
    | Acquiring(forever: bool)         // inside items->tryWait() or items->wait()
    | Emptying                         // lines 261-264
    | Signalling(value: T)             // line 265, the fetch_add
    | Posting(value: T)                // line 265, the kernel post

  datatype Buffer<T> = Buffer(
    maxcap: nat, mask: nat, cells: seq<Cell<T>>,
    slots: Sem.State, items: Sem.State,
    nextSlot: nat, nextItem: nat,
    enqueuer: Enqueuer<T>, dequeuer: Dequeuer<T>)

  datatype Result<T> = Ok(state: Buffer<T>) | Fault(why: Failure)

  datatype Action<T> =
    | Enqueue(x: T, patience: Sem.Patience)
    | Dequeue(patience: Sem.Patience)
    | Produce(kernelFails: bool)
    | Consume(kernelFails: bool)

  function Produces<T>(b: Buffer<T>, kernelFails: bool): Result<T> {
    match b.enqueuer
    case Ready(_) => Result.Ok(b)
    case Acquiring(x, forever) =>
      (match Sem.WaitStep(b.slots, kernelFails, forever)
       case AssertFailed => Fault(Failure.AssertFailed)
       case Ok(slots) => Result.Ok(b.(slots := slots,
         enqueuer := if slots.waiter == Sem.Idle(Sem.Granted) then Filling(x)
                     else if slots.waiter.Idle? then Enqueuer.Ready(false) else b.enqueuer)))
    case Filling(x) =>
      var i := BitAnd(b.nextSlot, b.mask);
      if i >= |b.cells| then Fault(BadPointer) else
      if b.cells[i].alive then Fault(ConstructedTwice) else
      Result.Ok(b.(cells := b.cells[i := Cell(x, true)], nextSlot := Increment(b.nextSlot),
                   enqueuer := Enqueuer.Signalling))
    case Signalling =>
      (match Sem.Act(b.items, Sem.Signals(1))
       case AssertFailed => Fault(Failure.AssertFailed)
       case Ok(items) => Result.Ok(b.(items := items,
         enqueuer := if items.signaller.Post? then Enqueuer.Posting else Enqueuer.Ready(true))))
    case Posting =>
      (match Sem.Act(b.items, Sem.Posts)
       case AssertFailed => Fault(Failure.AssertFailed)
       case Ok(items) => Result.Ok(b.(items := items, enqueuer := Enqueuer.Ready(true))))
  }

  function Consumes<T>(b: Buffer<T>, kernelFails: bool): Result<T> {
    match b.dequeuer
    case Ready(_) => Result.Ok(b)
    case Acquiring(forever) =>
      (match Sem.WaitStep(b.items, kernelFails, forever)
       case AssertFailed => Fault(Failure.AssertFailed)
       case Ok(items) => Result.Ok(b.(items := items,
         dequeuer := if items.waiter == Sem.Idle(Sem.Granted) then Emptying
                     else if items.waiter.Idle? then Dequeuer.Ready(None) else b.dequeuer)))
    case Emptying =>
      var i := BitAnd(b.nextItem, b.mask);
      if i >= |b.cells| then Fault(BadPointer) else
      if !b.cells[i].alive then Fault(DestroyedTwice) else
      Result.Ok(b.(cells := b.cells[i := b.cells[i].(alive := false)], nextItem := Increment(b.nextItem),
                   dequeuer := Dequeuer.Signalling(b.cells[i].value)))
    case Signalling(got) =>
      (match Sem.Act(b.slots, Sem.Signals(1))
       case AssertFailed => Fault(Failure.AssertFailed)
       case Ok(slots) => Result.Ok(b.(slots := slots,
         dequeuer := if slots.signaller.Post? then Dequeuer.Posting(got) else Dequeuer.Ready(Some(got)))))
    case Posting(got) =>
      (match Sem.Act(b.slots, Sem.Posts)
       case AssertFailed => Fault(Failure.AssertFailed)
       case Ok(slots) => Result.Ok(b.(slots := slots, dequeuer := Dequeuer.Ready(Some(got)))))
  }

  function Act<T>(b: Buffer<T>, a: Action<T>): Result<T> {
    match a
    case Enqueue(x, patience) =>
      if !b.enqueuer.Ready? then Result.Ok(b) else
      (match Sem.Act(b.slots, Sem.Begin(Sem.Asks(patience)))
       case AssertFailed => Fault(Failure.AssertFailed)
       case Ok(slots) => Result.Ok(b.(slots := slots, enqueuer := Enqueuer.Acquiring(x, patience.Forever?))))
    case Dequeue(patience) =>
      if !b.dequeuer.Ready? then Result.Ok(b) else
      (match Sem.Act(b.items, Sem.Begin(Sem.Asks(patience)))
       case AssertFailed => Fault(Failure.AssertFailed)
       case Ok(items) => Result.Ok(b.(items := items, dequeuer := Dequeuer.Acquiring(patience.Forever?))))
    case Produce(kernelFails) => Produces(b, kernelFails)
    case Consume(kernelFails) => Consumes(b, kernelFails)
  }

  /** Lines 41-47. A capacity of 0 wraps. */
  function MaskFor(capacity: nat): nat {
    if capacity == 0 then WORD - 1 else LeastPow2(capacity) - 1
  }

  /** What the constructor leaves behind (lines 34-51); `memory` says whether malloc succeeds, which line
      49 does not ask. The cells are those for which there is memory. A capacity of 0 has a mask of
      2^64 - 1 over no cells at all, and no cell is ever touched because `slots_` has no token. */
  function Init<T>(element: CppType, capacity: nat, unset: T, memory: bool): Buffer<T> {
    Buffer(capacity, MaskFor(capacity),
           seq(RingCells(element, Increment(MaskFor(capacity)), memory), _ => Cell(unset, false)),
           Sem.Start(capacity), Sem.Start(0), 0, 0, Enqueuer.Ready(false), Dequeuer.Ready(None))
  }

  // ----- The invariant ----------------------------------------------------------------------------

  /** The buffer with the values put in and the values taken out so far. */
  datatype System<T> = System(b: Buffer<T>, put: seq<T>, taken: seq<T>)

  function Size<T>(b: Buffer<T>): nat { b.mask + 1 }

  /** Room for `maxcap` items in a power-of-two number of cells that divides 2^64. */
  ghost predicate Shape<T>(b: Buffer<T>) {
    && IsPow2(b.mask + 1) && b.mask < WORD
    && b.maxcap <= b.mask + 1
    && (b.maxcap > 0 ==> |b.cells| == b.mask + 1)
  }

  /** The wrapped counters still name the right cells: the j-th item ever put goes to cell `j` modulo
      the number of cells. */
  ghost predicate Counters<T>(s: System<T>) {
    && s.b.nextSlot == |s.put| % WORD && s.b.nextItem == |s.taken| % WORD
    && s.taken <= s.put && |s.put| - |s.taken| <= s.b.maxcap
  }

  /** Exactly the items put and not yet taken are alive, each in its own cell. */
  ghost predicate Cells<T>(s: System<T>)
    requires Shape(s.b) && Counters(s)
  {
    s.b.maxcap > 0 ==>
      var front := |s.taken| % Size(s.b);
      var length := |s.put| - |s.taken|;
      && (forall c :: 0 <= c <= s.b.mask ==> (s.b.cells[c].alive <==> Gap(front, c, s.b.mask) < length))
      && (forall c :: 0 <= c <= s.b.mask && Gap(front, c, s.b.mask) < length ==>
            s.b.cells[c].value == s.put[|s.taken| + Gap(front, c, s.b.mask)])
  }

  /** Slots claimed by the producer and not yet filled. */
  function Reserved<T>(b: Buffer<T>): nat { if b.enqueuer.Filling? then 1 else 0 }

  /** Cells filled whose item has not been signalled. */
  function Unannounced<T>(b: Buffer<T>): nat { if b.enqueuer.Signalling? then 1 else 0 }

  /** Items claimed by the consumer and not yet taken. */
  function Promised<T>(b: Buffer<T>): nat { if b.dequeuer.Emptying? then 1 else 0 }

  /** Cells emptied whose slot has not been given back. */
  function Unreturned<T>(b: Buffer<T>): nat { if b.dequeuer.Signalling? then 1 else 0 }

  ghost predicate Balanced<T>(s: System<T>) {
    && |s.put| - |s.taken| == Sem.Tokens(s.b.items) + Unannounced(s.b) + Promised(s.b)
    && s.b.maxcap - (|s.put| - |s.taken|) == Sem.Tokens(s.b.slots) + Reserved(s.b) + Unreturned(s.b)
  }

  predicate Aligned<T>(b: Buffer<T>) {
    && (b.enqueuer.Acquiring? <==> !b.slots.waiter.Idle?)
    && (b.dequeuer.Acquiring? <==> !b.items.waiter.Idle?)
    && (b.enqueuer.Posting? <==> b.items.signaller.Post?)
    && (b.dequeuer.Posting? <==> b.slots.signaller.Post?)
  }

  ghost predicate Inv<T>(s: System<T>) {
    && Shape(s.b) && Counters(s) && Cells(s) && Balanced(s) && Aligned(s.b)
    && Sem.Inv(s.b.slots) && Sem.Inv(s.b.items)
    && (s.b.dequeuer.Signalling? || s.b.dequeuer.Posting? ==>
          |s.taken| > 0 && s.taken[|s.taken| - 1] == s.b.dequeuer.value)
  }

  function Next<T>(s: System<T>, a: Action<T>): Option<System<T>> {
    match Act(s.b, a)
    case Fault(_) => None
    case Ok(b') =>
      Some(System(b',
        if a.Produce? && s.b.enqueuer.Filling? then s.put + [s.b.enqueuer.x] else s.put,
        if a.Consume? && s.b.dequeuer.Emptying? && b'.dequeuer.Signalling? then s.taken + [b'.dequeuer.value]
        else s.taken))
  }

  // ----- Arithmetic of the wrapped indices --------------------------------------------------------

  lemma ModSuccessor(j: nat, n: nat)
    requires n >= 1
    ensures (j + 1) % n == if j % n == n - 1 then 0 else j % n + 1
  {
    var q, r := j / n, j % n;
    assert j == q * n + r;
    if r == n - 1 {
      DistributeSub(q + 1, 1, n);
      ModUnique(j + 1, n, q + 1, 0);
    } else {
      ModUnique(j + 1, n, q, r + 1);
    }
  }

  lemma {:induction false} ModAdd(j: nat, k: nat, n: nat)
    requires k < n
    ensures (j + k) % n == Slot(j % n, k, n - 1)
    decreases k
  {
    if k == 0 {
    } else {
      ModAdd(j, k - 1, n);
      ModSuccessor(j + k - 1, n);
    }
  }

  lemma Regroup(a: nat, q: nat, b: nat, n: nat)
    ensures (a * q + b) * n == a * (q * n) + b * n
  {
  }

  lemma ModOfMod(j: nat, q: nat, n: nat)
    requires n >= 1 && q >= 1 && WORD == q * n
    ensures (j % WORD) % n == j % n
  {
    var a, r := j / WORD, j % WORD;
    assert j == a * WORD + r;
    var b, t := r / n, r % n;
    assert r == b * n + t;
    Regroup(a, q, b, n);
    ModUnique(j, n, a * q + b, t);
  }

  /** `i & mask` of a counter that has wrapped modulo 2^64 is the remainder of the true count. */
  lemma WrappedIndex(j: nat, mask: nat)
    requires IsPow2(mask + 1) && mask < WORD
    ensures BitAnd(j % WORD, mask) == j % (mask + 1)
  {
    var k: nat :| mask + 1 == Pow2(k);
    MaskIsMod(j % WORD, k);
    var q := WordOverMask(mask, k);
    ModOfMod(j, q, mask + 1);
  }

  lemma WrapIncrement(j: nat)
    ensures Increment(j % WORD) == (j + 1) % WORD
  {
    ModSuccessor(j, WORD);
  }

  // ----- Every step keeps the invariant -------------------------------------------------------------

  ghost predicate StepOk<T>(s: System<T>, a: Action<T>) {
    Next(s, a).Some? && Inv(Next(s, a).value)
  }

  lemma GapFull(front: nat, k: nat, mask: nat)
    requires front <= mask && k <= mask
    ensures forall c :: 0 <= c <= mask && Gap(front, c, mask) == k ==> c == Slot(front, k, mask)
  {
  }

  lemma FillCells<T>(s: System<T>, x: T, b': Buffer<T>)
    requires Shape(s.b) && Counters(s) && Cells(s) && |s.put| - |s.taken| < s.b.maxcap
    requires b' == s.b.(cells := b'.cells, nextSlot := Increment(s.b.nextSlot), enqueuer := b'.enqueuer)
    requires b'.cells == s.b.cells[|s.put| % Size(s.b) := Cell(x, true)]
    ensures !s.b.cells[|s.put| % Size(s.b)].alive
    ensures var s' := System(b', s.put + [x], s.taken); Shape(b') && Counters(s') && Cells(s')
  {
    var front, length, mask := |s.taken| % Size(s.b), |s.put| - |s.taken|, s.b.mask;
    ModAdd(|s.taken|, length, Size(s.b));
    GapFull(front, length, mask);
    WrapIncrement(|s.put|);
  }

  lemma TokensNonNegative<T>(s: System<T>)
    requires Inv(s)
    ensures Sem.Tokens(s.b.slots) >= 0 && Sem.Tokens(s.b.items) >= 0
  {
  }

  lemma IndexInRange(j: nat, n: nat)
    requires n >= 1
    ensures 0 <= j % n < n
  {
  }

  lemma FillAct<T>(b: Buffer<T>, i: nat, kernelFails: bool)
    requires b.enqueuer.Filling? && i == BitAnd(b.nextSlot, b.mask) && i < |b.cells| && !b.cells[i].alive
    ensures Act(b, Produce(kernelFails)) == Result.Ok(b.(
      cells := b.cells[i := Cell(b.enqueuer.x, true)], nextSlot := Increment(b.nextSlot),
      enqueuer := Enqueuer.Signalling))
  {
  }

  /** The cell that a claimed slot leads to. */
  lemma FillIndex<T>(s: System<T>)
    requires Inv(s) && s.b.enqueuer.Filling?
    ensures |s.put| - |s.taken| < s.b.maxcap
    ensures BitAnd(s.b.nextSlot, s.b.mask) == |s.put| % Size(s.b) < |s.b.cells|
  {
    TokensNonNegative(s);
    hide Sem.Inv, Cells;
    WrappedIndex(|s.put|, s.b.mask);
    IndexInRange(|s.put|, Size(s.b));
  }

  lemma FillKeeps<T>(s: System<T>, kernelFails: bool)
    requires Inv(s) && s.b.enqueuer.Filling?
    ensures StepOk(s, Produce(kernelFails))
  {
    FillIndex(s);
    hide Sem.Inv, Cells, Shape, Counters;
    var b' := s.b.(cells := s.b.cells[|s.put| % Size(s.b) := Cell(s.b.enqueuer.x, true)],
                   nextSlot := Increment(s.b.nextSlot), enqueuer := Enqueuer.Signalling);
    FillCells(s, s.b.enqueuer.x, b');
    FillAct(s.b, |s.put| % Size(s.b), kernelFails);
    hide Act;
    assert Act(s.b, Produce(kernelFails)) == Result.Ok(b');
  }

  lemma TakenCounters<T>(s: System<T>, b': Buffer<T>)
    requires Shape(s.b) && Counters(s) && |s.put| > |s.taken|
    requires b' == s.b.(cells := b'.cells, nextItem := Increment(s.b.nextItem), dequeuer := b'.dequeuer)
    requires |b'.cells| == |s.b.cells|
    ensures Shape(b') && Counters(System(b', s.put, s.taken + [s.put[|s.taken|]]))
    ensures s.b.maxcap > 0 && |s.b.cells| == s.b.mask + 1
    ensures s.taken <= s.put
  {
    WrapIncrement(|s.taken|);
  }

  lemma FrontMoves(taken: nat, mask: nat)
    ensures var front, front' := taken % (mask + 1), (taken + 1) % (mask + 1);
      && 0 <= front <= mask && 0 <= front' <= mask
      && (forall c :: 0 <= c <= mask && c != front ==> Gap(front', c, mask) == Gap(front, c, mask) - 1)
      && Gap(front', front, mask) == mask && Gap(front, front, mask) == 0
  {
    ModSuccessor(taken, mask + 1);
  }

  lemma EmptyCells<T>(s: System<T>, b': Buffer<T>)
    requires Shape(s.b) && Counters(s) && Cells(s) && |s.put| > |s.taken|
    requires var i := |s.taken| % Size(s.b);
      b'.cells == s.b.cells[i := s.b.cells[i].(alive := false)]
    requires b' == s.b.(cells := b'.cells, nextItem := Increment(s.b.nextItem), dequeuer := b'.dequeuer)
    ensures s.b.cells[|s.taken| % Size(s.b)] == Cell(s.put[|s.taken|], true)
    ensures var s' := System(b', s.put, s.taken + [s.put[|s.taken|]]); Shape(b') && Counters(s') && Cells(s')
  {
    TakenCounters(s, b');
    hide Shape, Counters;
    IndexInRange(|s.taken|, Size(s.b));
    FrontMoves(|s.taken|, s.b.mask);
  }

  lemma EmptyAct<T>(b: Buffer<T>, i: nat, kernelFails: bool)
    requires b.dequeuer.Emptying? && i == BitAnd(b.nextItem, b.mask) && i < |b.cells| && b.cells[i].alive
    ensures Act(b, Consume(kernelFails)) == Result.Ok(b.(
      cells := b.cells[i := b.cells[i].(alive := false)], nextItem := Increment(b.nextItem),
      dequeuer := Dequeuer.Signalling(b.cells[i].value)))
  {
  }

  lemma EmptyKeeps<T>(s: System<T>, kernelFails: bool)
    requires Inv(s) && s.b.dequeuer.Emptying?
    ensures StepOk(s, Consume(kernelFails))
  {
    TokensNonNegative(s);
    hide Sem.Inv, Cells;
    WrappedIndex(|s.taken|, s.b.mask);
    IndexInRange(|s.taken|, Size(s.b));
    var i := |s.taken| % Size(s.b);
    var b' := s.b.(cells := s.b.cells[i := s.b.cells[i].(alive := false)],
                   nextItem := Increment(s.b.nextItem), dequeuer := Dequeuer.Signalling(s.b.cells[i].value));
    EmptyCells(s, b');
    EmptyAct(s.b, i, kernelFails);
    hide Shape, Counters, Act;
    assert Act(s.b, Consume(kernelFails)) == Result.Ok(b');
  }

  /** Steps that touch only a semaphore leave cells and counters alone. */
  lemma SameCells<T>(s: System<T>, b': Buffer<T>)
    requires Shape(s.b) && Counters(s) && Cells(s)
    requires b' == s.b.(slots := b'.slots, items := b'.items, enqueuer := b'.enqueuer, dequeuer := b'.dequeuer)
    ensures var s' := System(b', s.put, s.taken); Shape(b') && Counters(s') && Cells(s')
  {
    assert Shape(b');
  }

  lemma WaitStepOk(s: Sem.State, kernelFails: bool, forever: bool)
    requires Sem.Inv(s) && !s.waiter.Idle?
    ensures var o := Sem.WaitStep(s, kernelFails, forever);
      && o.Ok? && Sem.Inv(o.state)
      && o.state.signaller == s.signaller
      && Sem.Tokens(o.state) == Sem.Tokens(s) - (if o.state.waiter == Sem.Idle(Sem.Granted) then 1 else 0)
  {
  }

  lemma AcquireSlotKeeps<T>(s: System<T>, kernelFails: bool)
    requires Inv(s) && s.b.enqueuer.Acquiring?
    ensures StepOk(s, Produce(kernelFails))
  {
    hide Sem.Inv, Cells, Shape, Counters, Sem.WaitStep;
    WaitStepOk(s.b.slots, kernelFails, s.b.enqueuer.forever);
    SameCells(s, Act(s.b, Produce(kernelFails)).state);
  }

  lemma AcquireItemKeeps<T>(s: System<T>, kernelFails: bool)
    requires Inv(s) && s.b.dequeuer.Acquiring?
    ensures StepOk(s, Consume(kernelFails))
  {
    hide Sem.Inv, Cells, Shape, Counters, Sem.WaitStep;
    WaitStepOk(s.b.items, kernelFails, s.b.dequeuer.forever);
    SameCells(s, Act(s.b, Consume(kernelFails)).state);
  }

  lemma SignalOk(s: Sem.State)
    requires Sem.Inv(s) && s.signaller.Quiet?
    ensures var o := Sem.Act(s, Sem.Signals(1));
      o.Ok? && Sem.Inv(o.state) && Sem.Tokens(o.state) == Sem.Tokens(s) + 1 && o.state.waiter == s.waiter
  {
    Sem.StepKeeps(s, Sem.Signals(1));
  }

  lemma PostOk(s: Sem.State)
    requires Sem.Inv(s) && s.signaller.Post?
    ensures var o := Sem.Act(s, Sem.Posts);
      && o.Ok? && Sem.Inv(o.state) && Sem.Tokens(o.state) == Sem.Tokens(s) && o.state.waiter == s.waiter
      && o.state.signaller.Quiet?
  {
    Sem.StepKeeps(s, Sem.Posts);
  }

  lemma AnnounceKeeps<T>(s: System<T>, kernelFails: bool)
    requires Inv(s) && (s.b.enqueuer.Signalling? || s.b.enqueuer.Posting?)
    ensures StepOk(s, Produce(kernelFails))
  {
    hide Sem.Inv, Cells, Shape, Counters, Sem.WaitStep, Sem.Act;
    if s.b.enqueuer.Signalling? {
      SignalOk(s.b.items);
    } else {
      PostOk(s.b.items);
    }
    SameCells(s, Act(s.b, Produce(kernelFails)).state);
  }

  lemma ReturnKeeps<T>(s: System<T>, kernelFails: bool)
    requires Inv(s) && (s.b.dequeuer.Signalling? || s.b.dequeuer.Posting?)
    ensures StepOk(s, Consume(kernelFails))
  {
    hide Sem.Inv, Cells, Shape, Counters, Sem.WaitStep, Sem.Act;
    if s.b.dequeuer.Signalling? {
      SignalOk(s.b.slots);
    } else {
      PostOk(s.b.slots);
    }
    SameCells(s, Act(s.b, Consume(kernelFails)).state);
  }

  lemma IdleKeeps<T>(s: System<T>, kernelFails: bool)
    requires Inv(s)
    ensures s.b.enqueuer.Ready? ==> Next(s, Produce(kernelFails)) == Some(s)
    ensures s.b.dequeuer.Ready? ==> Next(s, Consume(kernelFails)) == Some(s)
  {
  }

  lemma ProduceKeeps<T>(s: System<T>, kernelFails: bool)
    requires Inv(s)
    ensures StepOk(s, Produce(kernelFails))
  {
    hide Inv, Next;
    match s.b.enqueuer
    case Ready(_) => IdleKeeps(s, kernelFails);
    case Acquiring(_, _) => AcquireSlotKeeps(s, kernelFails);
    case Filling(_) => FillKeeps(s, kernelFails);
    case Signalling => AnnounceKeeps(s, kernelFails);
    case Posting => AnnounceKeeps(s, kernelFails);
  }

  lemma BeginOk(s: Sem.State, request: Sem.Request)
    requires Sem.Inv(s) && s.waiter.Idle?
    ensures var o := Sem.Act(s, Sem.Begin(request));
      && o.Ok? && Sem.Inv(o.state) && Sem.Tokens(o.state) == Sem.Tokens(s) && !o.state.waiter.Idle?
      && o.state.signaller == s.signaller
  {
    Sem.StepKeeps(s, Sem.Begin(request));
  }

  lemma ConsumeKeeps<T>(s: System<T>, kernelFails: bool)
    requires Inv(s)
    ensures StepOk(s, Consume(kernelFails))
  {
    hide Inv, Next;
    match s.b.dequeuer
    case Ready(_) => IdleKeeps(s, kernelFails);
    case Acquiring(_) => AcquireItemKeeps(s, kernelFails);
    case Emptying => EmptyKeeps(s, kernelFails);
    case Signalling(_) => ReturnKeeps(s, kernelFails);
    case Posting(_) => ReturnKeeps(s, kernelFails);
  }

  lemma BeginKeeps<T>(s: System<T>, a: Action<T>)
    requires Inv(s) && (a.Enqueue? || a.Dequeue?)
    ensures StepOk(s, a)
  {
    hide Sem.Inv, Cells, Shape, Counters, Sem.Act;
    if a.Enqueue? && s.b.enqueuer.Ready? {
      BeginOk(s.b.slots, Sem.Asks(a.patience));
    } else if a.Dequeue? && s.b.dequeuer.Ready? {
      BeginOk(s.b.items, Sem.Asks(a.patience));
    }
    SameCells(s, Act(s.b, a).state);
  }

  lemma StepKeeps<T>(s: System<T>, a: Action<T>)
    requires Inv(s)
    ensures StepOk(s, a)
  {
    match a
    case Produce(kernelFails) => ProduceKeeps(s, kernelFails);
    case Consume(kernelFails) => ConsumeKeeps(s, kernelFails);
    case Enqueue(_, _) => BeginKeeps(s, a);
    case Dequeue(_) => BeginKeeps(s, a);
  }

  // ----- Every run --------------------------------------------------------------------------------

  function Run<T>(s: System<T>, acts: seq<Action<T>>): Option<System<T>> {
    if acts == [] then Some(s) else
    match Run(s, acts[..|acts| - 1])
    case None => None
    case Some(s') => Next(s', acts[|acts| - 1])
  }

  function Start<T>(element: CppType, capacity: nat, unset: T, memory: bool): System<T> {
    System(Init(element, capacity, unset, memory), [], [])
  }

  /** The arguments for which the constructor keeps its promises: nothing is put into a buffer of
      capacity 0; for any other, the capacity fits a signed word, and the memory that is asked for has
      not wrapped and was not refused. */
  predicate Constructible(element: CppType, capacity: nat, memory: bool) {
    capacity == 0 || (memory && capacity < WORD / 2 && RingSize(element, LeastPow2(capacity)) < WORD)
  }

  lemma RoundedCapacity(capacity: nat)
    requires 1 <= capacity < WORD / 2
    ensures IsPow2(LeastPow2(capacity)) && capacity <= LeastPow2(capacity) <= WORD / 2
    ensures Increment(MaskFor(capacity)) == LeastPow2(capacity)
  {
    hide LeastPow2;
    WordIsPow2();
    assert Pow2(WORD_BITS) == 2 * Pow2(WORD_BITS - 1);
    LeastPow2IsLeast(capacity, WORD_BITS - 1);
  }

  lemma StartOk<T>(element: CppType, capacity: nat, unset: T, memory: bool)
    requires Constructible(element, capacity, memory)
    ensures Inv(Start(element, capacity, unset, memory))
  {
    hide LeastPow2, RingCells, RingSize;
    if capacity == 0 {
      WordIsPow2();
    } else {
      RoundedCapacity(capacity);
      RingCellsExactly(element, LeastPow2(capacity), memory);
    }
  }

  lemma AfterStep<T>(s: System<T>, a: Action<T>)
    requires Inv(s)
    ensures Next(s, a).Some? && Inv(Next(s, a).value)
  {
    hide Inv, Next;
    StepKeeps(s, a);
  }

  /** On every run of a buffer that could be constructed, zero capacity included, no assertion fails, the
      producer never constructs into a cell that the consumer has not finished with, and the consumer
      never takes from a cell that has not been filled. */
  lemma {:induction false} NeverFaults<T>(element: CppType, capacity: nat, unset: T, memory: bool, acts: seq<Action<T>>)
    requires Constructible(element, capacity, memory)
    ensures Run(Start(element, capacity, unset, memory), acts).Some?
    ensures Inv(Run(Start(element, capacity, unset, memory), acts).value)
  {
    hide Inv, Next, Start, Constructible;
    if acts == [] {
      StartOk(element, capacity, unset, memory);
    } else {
      var before := acts[..|acts| - 1];
      NeverFaults(element, capacity, unset, memory, before);
      AfterStep(Run(Start(element, capacity, unset, memory), before).value, acts[|acts| - 1]);
    }
  }

  lemma {:induction false} CapacityFixed<T>(element: CppType, capacity: nat, unset: T, memory: bool,
                                            acts: seq<Action<T>>)
    ensures var o := Run(Start(element, capacity, unset, memory), acts); o.Some? ==> o.value.b.maxcap == capacity
  {
    hide Sem.Act, Sem.WaitStep, BitAnd;
    if acts == [] {
    } else {
      CapacityFixed(element, capacity, unset, memory, acts[..|acts| - 1]);
    }
  }

  lemma RefusedWait(s: Sem.State, kernelFails: bool, forever: bool)
    requires Sem.Inv(s) && !s.waiter.Idle?
    ensures var o := Sem.WaitStep(s, kernelFails, forever);
      && o.Ok? && (o.state.waiter.Idle? ==> o.state.waiter == Sem.Idle(Sem.Granted) || Sem.Tokens(s) == 0)
  {
    Sem.DeniedMeans(s, kernelFails);
  }

  lemma RefusedStep<T>(s: System<T>, kernelFails: bool)
    requires Inv(s)
    ensures s.b.dequeuer.Acquiring? ==>
      var r := Act(s.b, Consume(kernelFails));
      r.Ok? && (r.state.dequeuer.Ready? ==>
        r.state.dequeuer == Dequeuer.Ready(None) && |s.put| - |s.taken| == Unannounced(s.b))
    ensures s.b.enqueuer.Acquiring? ==>
      var r := Act(s.b, Produce(kernelFails));
      r.Ok? && (r.state.enqueuer.Ready? ==>
        r.state.enqueuer == Enqueuer.Ready(false) && s.b.maxcap - (|s.put| - |s.taken|) == Unreturned(s.b))
  {
    hide Cells, Shape, Counters, Sem.WaitStep, Sem.Inv;
    if s.b.dequeuer.Acquiring? {
      RefusedWait(s.b.items, kernelFails, s.b.dequeuer.forever);
    }
    if s.b.enqueuer.Acquiring? {
      RefusedWait(s.b.slots, kernelFails, s.b.enqueuer.forever);
    }
  }

  /** A refusal is right, and is answered as one: when a dequeue is refused, every item in the buffer is
      one not yet announced; when an enqueue is refused, every free slot is one not yet given back. */
  lemma RefusalIsTrue<T>(element: CppType, capacity: nat, unset: T, memory: bool, acts: seq<Action<T>>,
                         kernelFails: bool)
    requires Constructible(element, capacity, memory)
    ensures Run(Start(element, capacity, unset, memory), acts).Some?
    ensures var s := Run(Start(element, capacity, unset, memory), acts).value;
      && (s.b.dequeuer.Acquiring? ==>
            var r := Act(s.b, Consume(kernelFails));
            r.Ok? && (r.state.dequeuer.Ready? ==>
              r.state.dequeuer == Dequeuer.Ready(None) && |s.put| - |s.taken| == Unannounced(s.b)))
      && (s.b.enqueuer.Acquiring? ==>
            var r := Act(s.b, Produce(kernelFails));
            r.Ok? && (r.state.enqueuer.Ready? ==>
              r.state.enqueuer == Enqueuer.Ready(false) && capacity - (|s.put| - |s.taken|) == Unreturned(s.b)))
  {
    hide Start, Run, Inv, Constructible;
    NeverFaults(element, capacity, unset, memory, acts);
    CapacityFixed(element, capacity, unset, memory, acts);
    var s := Run(Start(element, capacity, unset, memory), acts).value;
    RefusedStep(s, kernelFails);
  }

  /** Conservation: free slots, items, and operations that hold one or the other always add up to the
      capacity; items come out in the order in which they went in. */
  lemma Conservation<T>(element: CppType, capacity: nat, unset: T, memory: bool, acts: seq<Action<T>>)
    requires Constructible(element, capacity, memory)
    ensures Run(Start(element, capacity, unset, memory), acts).Some?
    ensures var s := Run(Start(element, capacity, unset, memory), acts).value;
      && Sem.Tokens(s.b.slots) + Reserved(s.b) + Unannounced(s.b)
         + Sem.Tokens(s.b.items) + Promised(s.b) + Unreturned(s.b) == capacity
      && s.taken <= s.put && |s.put| - |s.taken| <= capacity
  {
    hide Start, Run, Cells, Shape, Sem.Inv, Constructible;
    NeverFaults(element, capacity, unset, memory, acts);
    CapacityFixed(element, capacity, unset, memory, acts);
  }

  /** What `size_approx`, the count of `items`, is worth while both threads run: it never exceeds the
      number of items, and falls short of it by at most two: one not yet announced, and one that the
      consumer has claimed or is about to. */
  lemma SizeApproxBracket<T>(element: CppType, capacity: nat, unset: T, memory: bool, acts: seq<Action<T>>)
    requires Constructible(element, capacity, memory)
    ensures Run(Start(element, capacity, unset, memory), acts).Some?
    ensures var s := Run(Start(element, capacity, unset, memory), acts).value;
      var length, approx := |s.put| - |s.taken|, Sem.AvailableApprox(s.b.items);
      && approx <= length <= approx + 2
      && (length == approx + 2 ==> s.b.enqueuer.Signalling? && (s.b.dequeuer.Emptying? || s.b.dequeuer.Acquiring?))
      && (s.b.enqueuer.Ready? && s.b.dequeuer.Ready? ==> approx == length)
  {
    hide Start, Run, Cells, Shape, Counters, Constructible;
    NeverFaults(element, capacity, unset, memory, acts);
  }

  /** `(nextItem + i) & mask` on line 69. */
  function DestroyedCell<T>(b: Buffer<T>, i: nat): nat {
    BitAnd((b.nextItem + i) % WORD, b.mask)
  }

  lemma DestroyedCellIs<T>(s: System<T>, i: nat)
    requires Shape(s.b) && Counters(s) && i <= s.b.mask
    ensures DestroyedCell(s.b, i) == Slot(|s.taken| % Size(s.b), i, s.b.mask)
  {
    WrappedIndex(s.b.nextItem + i, s.b.mask);
    WrappedIndex(|s.taken|, s.b.mask);
    var k: nat :| s.b.mask + 1 == Pow2(k);
    MaskIsMod(s.b.nextItem, k);
    ModAdd(s.b.nextItem, i, Size(s.b));
  }

  lemma QuiescentCells<T>(s: System<T>)
    requires Inv(s) && s.b.maxcap > 0 && s.b.enqueuer.Ready? && s.b.dequeuer.Ready?
    ensures s.b.items.count == |s.put| - |s.taken| && |s.b.cells| == s.b.mask + 1
    ensures forall i :: 0 <= i < s.b.items.count ==>
      DestroyedCell(s.b, i) <= s.b.mask && s.b.cells[DestroyedCell(s.b, i)] == Cell(s.put[|s.taken| + i], true)
    ensures forall c :: 0 <= c <= s.b.mask && s.b.cells[c].alive ==>
      exists i :: 0 <= i < s.b.items.count && DestroyedCell(s.b, i) == c
    ensures forall i, j :: 0 <= i < j < s.b.items.count ==> DestroyedCell(s.b, i) != DestroyedCell(s.b, j)
  {
    hide Sem.Inv, DestroyedCell;
    var front := |s.taken| % Size(s.b);
    forall i | 0 <= i < s.b.items.count ensures DestroyedCell(s.b, i) == Slot(front, i, s.b.mask) {
      DestroyedCellIs(s, i);
    }
    forall c | 0 <= c <= s.b.mask && s.b.cells[c].alive
      ensures exists i :: 0 <= i < s.b.items.count && DestroyedCell(s.b, i) == c
    {
      assert DestroyedCell(s.b, Gap(front, c, s.b.mask)) == c;
    }
  }

  /** When both threads have returned, `size_approx` is exact, and the destructor's loop over
      `items->availableApprox()` cells from `nextItem` on destroys each remaining item and nothing
      else: these cells are alive, hold the items in order, and all others are dead. */
  lemma QuiescentDestruction<T>(element: CppType, capacity: nat, unset: T, memory: bool, acts: seq<Action<T>>)
    requires capacity >= 1 && Constructible(element, capacity, memory)
    ensures Run(Start(element, capacity, unset, memory), acts).Some?
    ensures var s := Run(Start(element, capacity, unset, memory), acts).value;
      s.b.enqueuer.Ready? && s.b.dequeuer.Ready? ==>
        && s.b.items.count == |s.put| - |s.taken| && |s.b.cells| == s.b.mask + 1
        && (forall i :: 0 <= i < s.b.items.count ==>
              DestroyedCell(s.b, i) <= s.b.mask
              && s.b.cells[DestroyedCell(s.b, i)] == Cell(s.put[|s.taken| + i], true))
        && (forall c :: 0 <= c <= s.b.mask && s.b.cells[c].alive ==>
              exists i :: 0 <= i < s.b.items.count && DestroyedCell(s.b, i) == c)
        && (forall i, j :: 0 <= i < j < s.b.items.count ==> DestroyedCell(s.b, i) != DestroyedCell(s.b, j))
  {
    hide Start, Run, Constructible;
    NeverFaults(element, capacity, unset, memory, acts);
    CapacityFixed(element, capacity, unset, memory, acts);
    var s := Run(Start(element, capacity, unset, memory), acts).value;
    if s.b.enqueuer.Ready? && s.b.dequeuer.Ready? {
      QuiescentCells(s);
    }
  }
}
