/** For which arguments the circular buffer is safe. The constructor's rounded capacity times the size
    of an element may wrap, and the answer of malloc is not looked at; in both cases there are fewer
    cells than `mask` says. */
module CircularSafeSizes {
  import opened Allocation
  import opened Bits
  import opened Blocks
  import opened Options
  import opened CircularBuffer
  import Sem = Semaphore

  // ----- Particular runs --------------------------------------------------------------------------

  /** The actions `acts`, one after the other. */
  function After<T>(b: Buffer<T>, acts: seq<Action<T>>): Result<T>
    decreases |acts|
  {
    if acts == [] then Result.Ok(b) else
    match Act(b, acts[0])
    case Fault(why) => Fault(why)
    case Ok(b') => After(b', acts[1..])
  }

  lemma OneMore<T>(first: System<T>, acts: seq<Action<T>>, a: Action<T>)
    requires Run(first, acts).Some?
    ensures Run(first, acts + [a]) == Next(Run(first, acts).value, a)
  {
    hide Next;
    assert (acts + [a])[..|acts + [a]| - 1] == acts;
  }

  lemma {:induction false} NeverBack<T>(first: System<T>, acts: seq<Action<T>>, more: seq<Action<T>>)
    requires Run(first, acts).None?
    ensures Run(first, acts + more).None?
  {
    hide Next;
    if more == [] {
      assert acts + more == acts;
    } else {
      NeverBack(first, acts, more[..|more| - 1]);
      assert (acts + more)[..|acts + more| - 1] == acts + more[..|more| - 1];
    }
  }

  lemma {:induction false} RunOn<T>(first: System<T>, acts: seq<Action<T>>, more: seq<Action<T>>)
    requires Run(first, acts).Some?
    ensures var o := After(Run(first, acts).value.b, more);
      if o.Ok? then Run(first, acts + more).Some? && Run(first, acts + more).value.b == o.state
      else Run(first, acts + more).None?
    decreases |more|
  {
    hide Run, Act;
    if more == [] {
      assert acts + more == acts;
    } else {
      OneMore(first, acts, more[0]);
      assert (acts + [more[0]]) + more[1..] == acts + more;
      if Act(Run(first, acts).value.b, more[0]).Ok? {
        RunOn(first, acts + [more[0]], more[1..]);
      } else {
        NeverBack(first, acts + [more[0]], more[1..]);
      }
    }
  }

  // ----- One item in, one item out ----------------------------------------------------------------

  /** No thread is in a call of the semaphore. */
  predicate Rests(s: Sem.State, tokens: nat) {
    s.count == tokens && s.waiter.Idle? && s.signaller.Quiet?
  }

  /** An empty buffer between calls, with `k` items put in and taken out so far. */
  ghost predicate Empty<T>(b: Buffer<T>, capacity: nat, mask: nat, cells: nat, k: nat) {
    && b.enqueuer.Ready? && b.dequeuer.Ready? && b.mask == mask && |b.cells| == cells
    && Rests(b.slots, capacity) && Rests(b.items, 0)
    && b.nextSlot == k == b.nextItem
    && (forall c :: 0 <= c < cells ==> !b.cells[c].alive)
  }

  lemma SmallIndex(k: nat, mask: nat)
    requires IsPow2(mask + 1) && mask < WORD && k <= mask
    ensures BitAnd(k, mask) == k
  {
    WrappedIndex(k, mask);
    ModUnique(k, WORD, 0, k);
    ModUnique(k, mask + 1, 0, k);
  }

  function TryEnqueue<T>(u: T, steps: nat): seq<Action<T>> {
    [Enqueue(u, Sem.Try)] + seq(steps, _ => Produce(false))
  }

  function TryDequeue<T>(steps: nat): seq<Action<T>> {
    [Dequeue(Sem.Try)] + seq(steps, _ => Consume(false))
  }

  lemma AfterOne<T>(b: Buffer<T>, b': Buffer<T>, a: Action<T>, n: nat)
    requires n >= 1 && Act(b, a) == Result.Ok(b')
    ensures After(b, seq(n, _ => a)) == After(b', seq(n - 1, _ => a))
  {
    hide Act;
    assert seq(n, _ => a)[1..] == seq(n - 1, _ => a);
  }

  lemma AfterFault<T>(b: Buffer<T>, a: Action<T>, n: nat)
    requires n >= 1 && Act(b, a).Fault?
    ensures After(b, seq(n, _ => a)) == Act(b, a)
  {
    hide Act;
  }

  /** `try_enqueue` with a slot free comes to line 254. */
  lemma Reserves<T>(b: Buffer<T>, capacity: nat, mask: nat, cells: nat, k: nat, u: T, n: nat)
    requires Empty(b, capacity, mask, cells, k) && capacity >= 1 && n >= 2
    ensures var b' := b.(slots := b.slots.(count := capacity - 1, waiter := Sem.Idle(Sem.Granted)),
                         enqueuer := Filling(u));
      After(b, TryEnqueue(u, n)) == After(b', seq(n - 2, _ => Produce(false)))
  {
    var b1 := b.(slots := b.slots.(waiter := Sem.Look(Sem.TryWait)), enqueuer := Enqueuer.Acquiring(u, false));
    assert Act(b, Enqueue(u, Sem.Try)) == Result.Ok(b1);
    assert TryEnqueue(u, n)[1..] == seq(n, _ => Produce(false));
    var b2 := b1.(slots := b.slots.(waiter := Sem.Claim));
    assert Act(b1, Produce(false)) == Result.Ok(b2);
    AfterOne(b1, b2, Produce(false), n);
    var b3 := b1.(slots := b.slots.(count := capacity - 1, waiter := Sem.Idle(Sem.Granted)), enqueuer := Filling(u));
    assert Act(b2, Produce(false)) == Result.Ok(b3);
    AfterOne(b2, b3, Produce(false), n - 1);
  }

  lemma AfterNothing<T>(b: Buffer<T>, a: Action<T>)
    ensures After(b, seq(0, _ => a)) == Result.Ok(b)
  {
  }

  lemma PutsIn<T>(b: Buffer<T>, capacity: nat, mask: nat, cells: nat, k: nat, u: T)
    requires Empty(b, capacity, mask, cells, k) && capacity >= 1
    requires IsPow2(mask + 1) && mask < WORD && k < cells && k <= mask
    ensures After(b, TryEnqueue(u, 4)) == Result.Ok(b.(
      slots := b.slots.(count := capacity - 1, waiter := Sem.Idle(Sem.Granted)), items := b.items.(count := 1),
      cells := b.cells[k := Cell(u, true)], nextSlot := Increment(k), enqueuer := Enqueuer.Ready(true)))
  {
    hide After, BitAnd, IsPow2, TryEnqueue;
    SmallIndex(k, mask);
    Reserves(b, capacity, mask, cells, k, u, 4);
    var b1 := b.(slots := b.slots.(count := capacity - 1, waiter := Sem.Idle(Sem.Granted)), enqueuer := Filling(u));
    var b2 := b1.(cells := b.cells[k := Cell(u, true)], nextSlot := Increment(k), enqueuer := Enqueuer.Signalling);
    assert Act(b1, Produce(false)) == Result.Ok(b2);
    AfterOne(b1, b2, Produce(false), 2);
    var b3 := b2.(items := b.items.(count := 1), enqueuer := Enqueuer.Ready(true));
    assert Act(b2, Produce(false)) == Result.Ok(b3);
    AfterOne(b2, b3, Produce(false), 1);
    AfterNothing(b3, Produce(false));
  }

  lemma AfterBegun<T>(b: Buffer<T>, b': Buffer<T>)
    requires Act(b, Dequeue(Sem.Try)) == Result.Ok(b')
    ensures After(b, TryDequeue(4)) == After(b', seq(4, _ => Consume(false)))
  {
    hide Act;
    assert TryDequeue<T>(4)[1..] == seq(4, _ => Consume(false));
  }

  lemma TakesOut<T>(b: Buffer<T>, capacity: nat, mask: nat, cells: nat, k: nat, u: T)
    requires b.enqueuer.Ready? && b.dequeuer.Ready? && b.mask == mask && k < |b.cells| == cells && capacity >= 1
    requires Rests(b.slots, capacity - 1) && Rests(b.items, 1) && b.nextItem == k && b.nextSlot == k + 1
    requires forall c :: 0 <= c < cells ==> b.cells[c].alive == (c == k)
    requires IsPow2(mask + 1) && mask < WORD && k < mask
    ensures var o := After(b, TryDequeue(4)); o.Ok? && Empty(o.state, capacity, mask, cells, k + 1)
  {
    hide After, BitAnd, IsPow2;
    SmallIndex(k, mask);
    var b0 := b.(items := b.items.(waiter := Sem.Look(Sem.TryWait)), dequeuer := Dequeuer.Acquiring(false));
    AfterBegun(b, b0);
    var b1 := b0.(items := b.items.(waiter := Sem.Claim));
    assert Act(b0, Consume(false)) == Result.Ok(b1);
    AfterOne(b0, b1, Consume(false), 4);
    var b2 := b0.(items := b.items.(count := 0, waiter := Sem.Idle(Sem.Granted)), dequeuer := Emptying);
    assert Act(b1, Consume(false)) == Result.Ok(b2);
    AfterOne(b1, b2, Consume(false), 3);
    var b3 := b2.(cells := b.cells[k := b.cells[k].(alive := false)], nextItem := k + 1,
                  dequeuer := Dequeuer.Signalling(b.cells[k].value));
    assert Act(b2, Consume(false)) == Result.Ok(b3);
    AfterOne(b2, b3, Consume(false), 2);
    var b4 := b3.(slots := b.slots.(count := capacity), dequeuer := Dequeuer.Ready(Some(b.cells[k].value)));
    assert Act(b3, Consume(false)) == Result.Ok(b4);
    AfterOne(b3, b4, Consume(false), 1);
    AfterNothing(b4, Consume(false));
  }

  /** Where memory ends, the next `try_enqueue` constructs its item beyond it. */
  lemma PutsBeyond<T>(b: Buffer<T>, capacity: nat, mask: nat, cells: nat, u: T)
    requires Empty(b, capacity, mask, cells, cells) && capacity >= 1
    requires IsPow2(mask + 1) && mask < WORD && cells <= mask
    ensures After(b, TryEnqueue(u, 3)) == Fault(BadPointer)
  {
    hide After, BitAnd, IsPow2, TryEnqueue;
    SmallIndex(cells, mask);
    Reserves(b, capacity, mask, cells, cells, u, 3);
    var b1 := b.(slots := b.slots.(count := capacity - 1, waiter := Sem.Idle(Sem.Granted)), enqueuer := Filling(u));
    AfterFault(b1, Produce(false), 1);
  }

  // ----- Until memory ends ------------------------------------------------------------------------

  lemma {:induction false} RunsOut<T>(first: System<T>, acts: seq<Action<T>>, capacity: nat, mask: nat, cells: nat,
                                      k: nat, u: T)
      returns (acts': seq<Action<T>>)
    requires Run(first, acts).Some? && Empty(Run(first, acts).value.b, capacity, mask, cells, k)
    requires capacity >= 1 && IsPow2(mask + 1) && mask < WORD && k <= cells <= mask
    ensures Run(first, acts').None?
    decreases cells - k
  {
    hide Run, After, TryEnqueue, TryDequeue, IsPow2, BitAnd;
    var b := Run(first, acts).value.b;
    if k == cells {
      PutsBeyond(b, capacity, mask, cells, u);
      RunOn(first, acts, TryEnqueue(u, 3));
      acts' := acts + TryEnqueue(u, 3);
    } else {
      PutsIn(b, capacity, mask, cells, k, u);
      RunOn(first, acts, TryEnqueue(u, 4));
      acts' := acts + TryEnqueue(u, 4);
      var b1 := Run(first, acts').value.b;
      TakesOut(b1, capacity, mask, cells, k, u);
      RunOn(first, acts', TryDequeue(4));
      acts' := RunsOut(first, acts' + TryDequeue(4), capacity, mask, cells, k + 1, u);
    }
  }

  lemma RunNothing<T>(s: System<T>)
    ensures Run(s, []) == Some(s)
  {
  }

  /** With too few cells behind the mask, items going in and out come to one that is not there. */
  lemma MissingCellFaults<T>(element: CppType, capacity: nat, unset: T, memory: bool) returns (acts: seq<Action<T>>)
    requires 1 <= capacity < WORD / 2 && !Constructible(element, capacity, memory)
    ensures Run(Start(element, capacity, unset, memory), acts).None?
  {
    hide LeastPow2, RingCells, RingSize, IsPow2, Run;
    RoundedCapacity(capacity);
    RingCellsExactly(element, LeastPow2(capacity), memory);
    var first := Start(element, capacity, unset, memory);
    assert Run(first, []) == Some(first) by { RunNothing(first); }
    acts := RunsOut(first, [], capacity, MaskFor(capacity), RingCells(element, LeastPow2(capacity), memory), 0, unset);
  }

  // ----- Exactly ----------------------------------------------------------------------------------

  /** A `size_t` read as the signed number that the semaphore is given. */
  function AsSigned(x: nat): int {
    if x < WORD / 2 then x else x - WORD
  }

  /** Lines 34-51, with the assertion of the semaphore's constructor (atomicops.h, line 713). */
  function Make<T>(element: CppType, capacity: nat, unset: T, memory: bool): Result<T> {
    if AsSigned(capacity) < 0 then Fault(Failure.AssertFailed)
    else Result.Ok(Init(element, capacity, unset, memory))
  }

  /** The buffer can be made, and is safe on every run, exactly if its capacity is 0, or below 2^63 with
      a memory size that does not wrap and that malloc delivered. */
  lemma SafeExactly<T>(element: CppType, capacity: nat, unset: T, memory: bool)
    requires capacity < WORD
    ensures
      && Make(element, capacity, unset, memory).Ok?
      && (forall acts: seq<Action<T>> :: Run(Start(element, capacity, unset, memory), acts).Some?)
      <==>
      capacity == 0
      || (memory && capacity < WORD / 2
          && LeastPow2(capacity) * element.size + element.alignment - 1 < WORD)
  {
    hide Run, Start, Init, LeastPow2;
    if Constructible(element, capacity, memory) {
      forall acts: seq<Action<T>> ensures Run(Start(element, capacity, unset, memory), acts).Some? {
        NeverFaults(element, capacity, unset, memory, acts);
      }
    } else if capacity < WORD / 2 {
      var acts := MissingCellFaults(element, capacity, unset, memory);
      assert Run(Start(element, capacity, unset, memory), acts).None?;
    }
  }

  lemma QuarterIsPow2()
    ensures LeastPow2(WORD / 4) == WORD / 4 && IsPow2(WORD / 4)
  {
    WordIsPow2();
    assert Pow2(WORD_BITS) == 4 * Pow2(WORD_BITS - 2);
    assert Pow2(WORD_BITS - 2) == 2 * Pow2(WORD_BITS - 3);
    LeastPow2Unique(WORD / 4, WORD_BITS - 2);
  }

  /** For instance: with items of 8 bytes and a capacity of 2^62, malloc is asked for 7 bytes, delivers
      them, and the first `try_enqueue` writes beyond them. */
  lemma WrappedSizeFaults<T>(unset: T)
    ensures RingSize(Layout(8, 8), LeastPow2(WORD / 4)) % WORD == 7
    ensures After(Start(Layout(8, 8), WORD / 4, unset, true).b, TryEnqueue(unset, 3)) == Fault(BadPointer)
    ensures Run(Start(Layout(8, 8), WORD / 4, unset, true), TryEnqueue(unset, 3)).None?
  {
    var capacity := WORD / 4;
    QuarterIsPow2();
    hide LeastPow2, IsPow2, Run, After, TryEnqueue;
    assert RingSize(Layout(8, 8), capacity) == 2 * WORD + 7;
    var first := Start(Layout(8, 8), capacity, unset, true);
    RunNothing(first);
    PutsBeyond(first.b, capacity, MaskFor(capacity), 0, unset);
    RunOn(first, [], TryEnqueue(unset, 3));
    assert [] + TryEnqueue(unset, 3) == TryEnqueue(unset, 3);
  }
}
