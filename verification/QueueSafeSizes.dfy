/** For which arguments the queue is safe. Three kinds are not: size 0 (see `QueueZeroSize`); sizes from
    2^63 up, for which `size + 1` cannot be rounded up in a `size_t`, so that the block size becomes 0
    and the mask 2^64 - 1; and sizes or a `MAX_BLOCK_SIZE` for which the memory computed for a block
    wraps, so that malloc is asked for less than the block will use. */
module QueueSafeSizes {
  import opened Allocation
  import opened Bits
  import opened Blocks
  import opened QueueSteps
  import opened QueueInvariant
  import opened QueueProducer
  import opened QueueRuns
  import opened QueueTraces
  import opened QueueZeroSize

  // ----- From 2^63 up -----------------------------------------------------------------------------

  lemma HugeInit<T>(types: Types, size: nat, max: nat, u: T)
    requires WORD / 2 <= size < WORD && max >= 2
    ensures Init(types, size, max, u) == Queue([Block(0, 0, 0, 0, 0, WORD - 1, [])], 0, 0, 0, max, types, u,
              PIdle(EnqueueResult.NotCalled), CIdle(DequeueResult.NotCalled))
  {
    hide BlockCells;
    var blocks := Init(types, size, max, u).blocks;
    assert |blocks| == 1;
    assert blocks[0] == MakeBlock(types, 0, u).(next := 0);
    assert blocks[0].data == [];
  }

  /** The first enqueue runs into it. */
  lemma HugeSizeFaults<T>(types: Types, size: nat, max: nat, u: T) returns (acts: seq<Action<T>>)
    requires WORD / 2 <= size < WORD && max >= 2
    ensures Run(Start(types, size, max, u), acts) == Fault(BadPointer)
  {
    hide Init, Run, Record;
    HugeInit(types, size, max, u);
    var first := Start(types, size, max, u);
    assert BitAnd(1, WORD - 1) == 1;
    assert Run(first, []) == Ok(first) by { RunNothing(first); }
    acts := Then(first, [], Enqueue(u));
    acts := Then(first, acts, Producer(true));
    acts := Then(first, acts, Producer(true));
  }

  // ----- Memory sizes that wrap -------------------------------------------------------------------

  /** A block of `n` slots into which `t` elements have been put, and from which none has been taken. */
  ghost predicate Holding<T>(b: Block<T>, types: Types, n: nat, t: nat) {
    && b.front == 0 == b.localFront && b.tail == t && b.sizeMask + 1 == n && |b.data| == BlockCells(types, n)
    && forall i :: t <= i < |b.data| ==> !b.data[i].alive
  }

  /** The tail block is such a block, and if blocks still grow, no other block is free. */
  ghost predicate Filling<T>(q: Queue<T>, types: Types, max: nat, n: nat, t: nat) {
    && q.types == types && q.maxBlockSize == max && q.largestBlockSize == n
    && q.producer.PIdle? && q.tailBlock < |q.blocks|
    && (n < max ==> q.blocks[q.tailBlock].next == q.frontBlock)
    && Holding(q.blocks[q.tailBlock], types, n, t)
  }

  /** A producer call begins. */
  lemma Called<T>(q: Queue<T>, u: T)
    requires q.producer.PIdle?
    ensures Act(q, Enqueue(u)) == Ok(q.(producer := PCheck(u, true)))
  {
  }

  lemma FillStep<T>(q: Queue<T>, types: Types, max: nat, n: nat, t: nat, u: T)
    requires Filling(q, types, max, n, t) && IsPow2(n) && t + 1 < n && t < BlockCells(types, n)
    ensures var o := Iterate(q.(producer := PCheck(u, true)), Producer(true), 3);
      o.Ok? && Filling(o.state, types, max, n, t + 1)
  {
    hide BlockCells, IsPow2, BitAnd;
    MaskedSuccessor(t, n - 1);
    var id := q.tailBlock;
    var b := q.blocks[id];
    var q1 := q.(producer := PConstruct(u));
    assert Act(q.(producer := PCheck(u, true)), Producer(true)) == Ok(q1);
    var c := Constructed(b, u);
    var q2 := SetBlock(q1, id, c).(producer := PStoreTail(u));
    assert Act(q1, Producer(true)) == Ok(q2);
    var q3 := SetBlock(q2, id, Published(c)).(producer := PIdle(Accepted));
    assert Act(q2, Producer(true)) == Ok(q3);
    assert Filling(q3, types, max, n, t + 1);
  }

  /** Where memory ends, the next enqueue constructs its element beyond it. */
  lemma FillFaults<T>(q: Queue<T>, types: Types, max: nat, n: nat, t: nat, u: T)
    requires Filling(q, types, max, n, t) && IsPow2(n) && t + 1 < n && t == BlockCells(types, n)
    ensures Act(q.(producer := PCheck(u, true)), Producer(true)) == Ok(q.(producer := PConstruct(u)))
    ensures Act(q.(producer := PConstruct(u)), Producer(true)) == Fault(BadPointer)
  {
    hide BlockCells, IsPow2, BitAnd;
    MaskedSuccessor(t, n - 1);
  }

  /** With its block full and blocks still growing, the producer goes to allocate a larger one. */
  lemma AllocStep<T>(q: Queue<T>, types: Types, max: nat, n: nat, u: T)
    requires n >= 1 && Filling(q, types, max, n, n - 1) && IsPow2(n) && n < max
    ensures Iterate(q.(producer := PCheck(u, true)), Producer(true), 3) == Ok(q.(producer := PAlloc(u)))
  {
    hide BlockCells, IsPow2, BitAnd;
    MaskedSuccessor(n - 1, n - 1);
    var q0 := q.(producer := PCheck(u, true));
    var q1 := q.(producer := PReadFront(u, true));
    assert Act(q0, Producer(true)) == Ok(q1);
    var q2 := q.(producer := PReadNext(u, true));
    assert SetBlock(q1, q.tailBlock, q.blocks[q.tailBlock]).blocks == q.blocks;
    assert Act(q1, Producer(true)) == Ok(q2);
    assert Act(q2, Producer(true)) == Ok(q.(producer := PAlloc(u)));
  }

  lemma GrowStep<T>(q: Queue<T>, types: Types, max: nat, n: nat, u: T)
    requires n >= 1 && Filling(q, types, max, n, n - 1) && n < max && BlockCells(types, 2 * n) >= 1
    ensures var o := Iterate(q.(producer := PAlloc(u)), Producer(true), 3);
      o.Ok? && Filling(o.state, types, max, 2 * n, 1)
  {
    hide BlockCells;
    var q0 := q.(producer := PAlloc(u));
    var b := q.blocks[q.tailBlock];
    var made := FreshBlock(q, u, b.next);
    var q1 := q.(largestBlockSize := 2 * n, producer := PLink(u, made));
    assert Act(q0, Producer(true)) == Ok(q1);
    var q2 := q1.(blocks := q.blocks[q.tailBlock := b.(next := |q.blocks|)] + [made],
                  producer := PStoreTailBlock(u, |q.blocks|));
    assert Act(q1, Producer(true)) == Ok(q2);
    var q3 := q2.(tailBlock := |q.blocks|, producer := PIdle(Accepted));
    assert Act(q2, Producer(true)) == Ok(q3);
    assert q3.blocks[|q.blocks|] == made;
    assert Filling(q3, types, max, 2 * n, 1);
  }

  /** Or finds no room in the new block for the first element. */
  lemma GrowFaults<T>(q: Queue<T>, types: Types, max: nat, n: nat, u: T)
    requires n >= 1 && Filling(q, types, max, n, n - 1) && n < max && BlockCells(types, 2 * n) == 0
    ensures Act(q.(producer := PAlloc(u)), Producer(true)) == Fault(BadPointer)
  {
    hide BlockCells;
  }

  lemma FillingIdle<T>(q: Queue<T>, types: Types, max: nat, n: nat, t: nat)
    requires Filling(q, types, max, n, t)
    ensures q.producer.PIdle?
  {
  }

  /** If a size that blocks will come to have wraps, enqueues alone run out of memory. */
  lemma {:induction false} RunsOut<T>(first: System<T>, acts: seq<Action<T>>, types: Types, max: nat, n: nat, t: nat,
                                      u: T)
      returns (acts': seq<Action<T>>)
    requires Run(first, acts).Ok? && Filling(Run(first, acts).state.q, types, max, n, t)
    requires IsPow2(n) && IsPow2(max) && t < n && t <= BlockCells(types, n)
    requires MallocSize(types, Max(n, max)) >= WORD
    ensures Run(first, acts') == Fault(BadPointer)
    decreases Max(n, max) - n, n - t
  {
    hide Run, Filling, BlockCells, MallocSize, IsPow2, Iterate, Act;
    var q := Run(first, acts).state.q;
    FillingIdle(q, types, max, n, t);
    Called(q, u);
    if t + 1 < n {
      if t < BlockCells(types, n) {
        FillStep(q, types, max, n, t, u);
        acts' := Call(first, acts, Enqueue(u), Producer(true), 3);
        acts' := RunsOut(first, acts', types, max, n, t + 1, u);
      } else {
        FillFaults(q, types, max, n, t, u);
        acts' := Then(first, acts, Enqueue(u));
        acts' := Then(first, acts', Producer(true));
        acts' := Then(first, acts', Producer(true));
      }
    } else {
      WrappedBlock(types, n);
      AllocStep(q, types, max, n, u);
      acts' := Call(first, acts, Enqueue(u), Producer(true), 3);
      if BlockCells(types, 2 * n) == 0 {
        GrowFaults(q, types, max, n, u);
        acts' := Then(first, acts', Producer(true));
      } else {
        GrowStep(q, types, max, n, u);
        DoubledPow2(n, max);
        acts' := Repeat(first, acts', Producer(true), 3);
        acts' := RunsOut(first, acts', types, max, 2 * n, 1, u);
      }
    }
  }

  lemma StartFilling<T>(types: Types, size: nat, max: nat, u: T)
    requires WellSized(size, max)
    ensures Filling(Init(types, size, max, u), types, max, InitialBlockSize(size, max), 0)
  {
    hide BlockCells, InitialBlockSize, InitialBlockCount;
    InitialSizes(size, max);
    var s, count := InitialBlockSize(size, max), InitialBlockCount(size, max);
    var q := Init(types, size, max, u);
    assert q.blocks[0] == MakeBlock(types, s, u).(next := if 1 == count then 0 else 1);
  }

  lemma WrappedSizeFaults<T>(types: Types, size: nat, max: nat, u: T) returns (acts: seq<Action<T>>)
    requires WellSized(size, max) && MallocSize(types, GreatestBlockSize(size, max)) >= WORD
    ensures Run(Start(types, size, max, u), acts) == Fault(BadPointer)
  {
    hide Run, Init, Filling, MallocSize, InitialBlockSize, InitialBlockCount, BlockCells;
    InitialSizes(size, max);
    StartFilling(types, size, max, u);
    var first := Start(types, size, max, u);
    RunNothing(first);
    acts := RunsOut(first, [], types, max, InitialBlockSize(size, max), 0, u);
  }

  // ----- Exactly ----------------------------------------------------------------------------------

  lemma ZeroSizeRunsOut<T>(types: Types, max: nat, u: T) returns (acts: seq<Action<T>>)
    requires max >= 2 && BlockCells(types, 2) == 0
    ensures Run(Start(types, 0, max, u), acts) == Fault(BadPointer)
  {
    hide Run, BlockCells, Iterate, Act, Init;
    ZeroInit(types, u, max);
    var first := Start(types, 0, max, u);
    RunNothing(first);
    var q := first.q;
    assert Filling(q, types, max, 1, 0);
    assert IsPow2(1) by { assert Pow2(0) == 1; }
    Called(q, u);
    AllocStep(q, types, max, 1, u);
    GrowFaults(q, types, max, 1, u);
    acts := Call(first, [], Enqueue(u), Producer(true), 3);
    acts := Then(first, acts, Producer(true));
  }

  /** With size 0, too, a wrapped size is met by the first enqueue. */
  lemma ZeroSizeUnsafe<T>(types: Types, max: nat, u: T) returns (acts: seq<Action<T>>)
    requires max >= 2
    ensures Run(Start(types, 0, max, u), acts).Fault?
  {
    hide Run, Start, BlockCells, MallocSize;
    WrappedBlock(types, 2);
    if BlockCells(types, 2) == 2 {
      acts := ZeroSizeFaults(types, max, u);
    } else {
      acts := ZeroSizeRunsOut(types, max, u);
    }
  }

  lemma GreatestIsPositive(size: nat, max: nat)
    requires max >= 1
    ensures GreatestBlockSize(size, max) >= 1
  {
  }

  /** The queue is safe on every run exactly when it is constructed for at least one element, for fewer
      than 2^63, and the memory for the largest block it can come to have fits a `size_t`. */
  lemma SafeExactly<T>(types: Types, size: nat, max: nat, u: T)
    requires size < WORD && IsPow2(max) && 2 <= max <= WORD / 4
    ensures (forall acts: seq<Action<T>> :: Run(Start(types, size, max, u), acts).Ok?)
            <==> 1 <= size < WORD / 2 && MallocSize(types, GreatestBlockSize(size, max)) < WORD
  {
    hide Run, Start, MallocSize, GreatestBlockSize, RoomFor;
    if size == 0 {
      var acts := ZeroSizeUnsafe(types, max, u);
      assert !Run(Start(types, size, max, u), acts).Ok?;
    } else if size >= WORD / 2 {
      var acts := HugeSizeFaults(types, size, max, u);
      assert !Run(Start(types, size, max, u), acts).Ok?;
    } else if MallocSize(types, GreatestBlockSize(size, max)) >= WORD {
      var acts := WrappedSizeFaults(types, size, max, u);
      assert !Run(Start(types, size, max, u), acts).Ok?;
    } else {
      GreatestIsPositive(size, max);
      RoomExactly(types, GreatestBlockSize(size, max));
      forall acts: seq<Action<T>> ensures Run(Start(types, size, max, u), acts).Ok? {
        NeverFaults(types, size, max, u, acts);
      }
    }
  }
}
