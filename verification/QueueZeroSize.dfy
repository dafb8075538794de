/** A queue constructed with `size == 0` breaks. Its only block has one slot, so `sizeMask` is 0 and
    storing `tail` in it leaves `tail == front`: an element put there when the block is used again
    looks like no element, and the consumer's assertion fails. */
module QueueZeroSize {
  import opened Allocation
  import opened Bits
  import opened Blocks
  import opened QueueSteps
  import opened QueueInvariant
  import opened QueueRuns
  import opened QueueTraces

  /** The one-slot block, block 0. */
  function One<T>(u: T, next: nat, alive: bool): Block<T> {
    Block(0, 0, 0, 0, next, 0, [Cell(u, alive)])
  }

  /** The two-slot block allocated by the first `enqueue`, block 1. */
  function Two<T>(u: T, front: nat, localTail: nat, tail: nat, localFront: nat, first: bool, second: bool): Block<T> {
    Block(front, localTail, tail, localFront, 0, 1, [Cell(u, first), Cell(u, second)])
  }

  function At<T>(types: Types, u: T, max: nat, one: bool, two: Block<T>, front: nat, tail: nat,
                 c: Consumer<T>): Queue<T> {
    Queue([One(u, 1, one), two], front, tail, 2, max, types, u, PIdle(Accepted), c)
  }

  /** The first element has gone into a new block. */
  function FirstIn<T>(types: Types, u: T, max: nat, c: Consumer<T>): Queue<T> {
    At(types, u, max, false, Two(u, 0, 1, 1, 0, true, false), 0, 1, c)
  }

  /** It has been taken. */
  function FirstOut<T>(types: Types, u: T, max: nat, c: Consumer<T>): Queue<T> {
    At(types, u, max, false, Two(u, 1, 1, 1, 0, false, false), 1, 1, c)
  }

  /** The second has gone into the same block, which is now full. */
  function SecondIn<T>(types: Types, u: T, max: nat, c: Consumer<T>): Queue<T> {
    At(types, u, max, false, Two(u, 1, 1, 0, 1, false, true), 1, 1, c)
  }

  /** The third has gone into the one-slot block. */
  function ThirdIn<T>(types: Types, u: T, max: nat, c: Consumer<T>): Queue<T> {
    At(types, u, max, true, Two(u, 1, 1, 0, 1, false, true), 1, 0, c)
  }

  /** The second has been taken. */
  function SecondOut<T>(types: Types, u: T, max: nat, c: Consumer<T>): Queue<T> {
    At(types, u, max, true, Two(u, 0, 0, 0, 1, false, false), 1, 0, c)
  }

  lemma Small()
    ensures BitAnd(1, 0) == 0 && BitAnd(2, 1) == 0 && BitAnd(1, 1) == 1
  {
    assert BitAnd(1, 1) == 2 * BitAnd(0, 0) + 1;
    assert BitAnd(2, 1) == 2 * BitAnd(1, 0) + 0;
  }

  lemma ZeroInit<T>(types: Types, u: T, max: nat)
    requires max >= 2
    ensures BlockCells(types, 1) == 1
    ensures Init(types, 0, max, u) == Queue([One(u, 0, false)], 0, 0, 1, max, types, u,
              PIdle(EnqueueResult.NotCalled), CIdle(DequeueResult.NotCalled))
  {
    WrappedBlock(types, 1);
    hide BlockCells;
    var blocks := Init(types, 0, max, u).blocks;
    assert |blocks| == 1;
    assert blocks[0] == MakeBlock(types, 1, u).(next := 0);
    assert blocks[0].data == [Cell(u, false)];
  }

  lemma FirstEnqueue<T>(types: Types, u: T, max: nat)
    requires max >= 2 && BlockCells(types, 2) == 2
    ensures var q := Init(types, 0, max, u).(producer := PCheck(u, true));
      Iterate(q, Producer(true), 6) == Ok(FirstIn(types, u, max, CIdle(DequeueResult.NotCalled)))
  {
    hide BlockCells;
    Small();
    ZeroInit(types, u, max);
    var q := Init(types, 0, max, u).(producer := PCheck(u, true));
    var q1 := Act(q, Producer(true)).state;
    assert q1 == q.(producer := PReadFront(u, true));
    var q2 := Act(q1, Producer(true)).state;
    assert q2 == q.(producer := PReadNext(u, true));
    var q3 := Act(q2, Producer(true)).state;
    assert q3 == q.(producer := PAlloc(u));
    var q4 := Act(q3, Producer(true)).state;
    assert q4.producer.made == Two(u, 0, 1, 1, 0, true, false);
    var q5 := Act(q4, Producer(true)).state;
    assert q5.blocks == [One(u, 1, false), Two(u, 0, 1, 1, 0, true, false)];
  }

  lemma FirstDequeueLooks<T>(types: Types, u: T, max: nat)
    ensures var q := FirstIn(types, u, max, CLook(Dequeue));
      Iterate(q, Consumer, 5) == Ok(q.(consumer := CReadNextTail(Dequeue, 1)))
  {
    var q := FirstIn(types, u, max, CLook(Dequeue));
    var q1 := Act(q, Consumer).state;
    assert q1 == q.(consumer := CReadTail(Dequeue));
    var q2 := Act(q1, Consumer).state;
    assert q2 == q.(consumer := CReadTailBlock(Dequeue));
    var q3 := Act(q2, Consumer).state;
    assert q3 == q.(consumer := CReReadTail(Dequeue));
    var q4 := Act(q3, Consumer).state;
    assert q4 == q.(consumer := CReadNext(Dequeue));
    var q5 := Act(q4, Consumer).state;
    assert q5 == q.(consumer := CReadNextTail(Dequeue, 1));
  }

  lemma FirstDequeueTakes<T>(types: Types, u: T, max: nat)
    ensures var q := FirstIn(types, u, max, CReadNextTail(Dequeue, 1));
      Iterate(q, Consumer, 4) == Ok(FirstOut(types, u, max, CIdle(Took(u))))
  {
    Small();
    var q := FirstIn(types, u, max, CReadNextTail(Dequeue, 1));
    var q1 := Act(q, Consumer).state;
    assert q1.blocks == q.blocks && q1.consumer == CStoreFrontBlock(1);
    var q2 := Act(q1, Consumer).state;
    assert q2 == q.(frontBlock := 1, consumer := CTake);
    var q3 := Act(q2, Consumer).state;
    assert q3.blocks[1] == Two(u, 0, 1, 1, 0, false, false) && q3.consumer == CStoreFront(u);
    var q4 := Act(q3, Consumer).state;
    assert q4.blocks == [One(u, 1, false), Two(u, 1, 1, 1, 0, false, false)];
  }

  lemma FirstDequeue<T>(types: Types, u: T, max: nat)
    ensures var q := FirstIn(types, u, max, CLook(Dequeue));
      Iterate(q, Consumer, 9) == Ok(FirstOut(types, u, max, CIdle(Took(u))))
  {
    hide Iterate;
    FirstDequeueLooks(types, u, max);
    FirstDequeueTakes(types, u, max);
    IterateAdd(FirstIn(types, u, max, CLook(Dequeue)), Consumer, 5, 4);
  }

  lemma SecondEnqueue<T>(types: Types, u: T, max: nat)
    ensures var q := FirstOut(types, u, max, CIdle(Took(u))).(producer := PCheck(u, true));
      Iterate(q, Producer(true), 4) == Ok(SecondIn(types, u, max, CIdle(Took(u))))
  {
    Small();
    var q := FirstOut(types, u, max, CIdle(Took(u))).(producer := PCheck(u, true));
    var q1 := Act(q, Producer(true)).state;
    assert q1 == q.(producer := PReadFront(u, true));
    var q2 := Act(q1, Producer(true)).state;
    assert q2.blocks[1] == Two(u, 1, 1, 1, 1, false, false) && q2.producer == PConstruct(u);
    var q3 := Act(q2, Producer(true)).state;
    assert q3.blocks[1] == Two(u, 1, 1, 1, 1, false, true) && q3.producer == PStoreTail(u);
    var q4 := Act(q3, Producer(true)).state;
    assert q4.blocks == [One(u, 1, false), Two(u, 1, 1, 0, 1, false, true)];
  }

  lemma ThirdEnqueueLooks<T>(types: Types, u: T, max: nat)
    ensures var q := SecondIn(types, u, max, CIdle(Took(u))).(producer := PCheck(u, true));
      Iterate(q, Producer(true), 3) == Ok(q.(producer := PReadNextFront(u, 0)))
  {
    Small();
    var q := SecondIn(types, u, max, CIdle(Took(u))).(producer := PCheck(u, true));
    var q1 := Act(q, Producer(true)).state;
    assert q1 == q.(producer := PReadFront(u, true));
    var q2 := Act(q1, Producer(true)).state;
    assert q2 == q.(producer := PReadNext(u, true));
    var q3 := Act(q2, Producer(true)).state;
    assert q3 == q.(producer := PReadNextFront(u, 0));
  }

  lemma ThirdEnqueueConstructs<T>(types: Types, u: T, max: nat)
    ensures var q := SecondIn(types, u, max, CIdle(Took(u))).(producer := PReadNextFront(u, 0));
      Iterate(q, Producer(true), 2)
      == Ok(ThirdIn(types, u, max, CIdle(Took(u))).(tailBlock := 1, producer := PStoreNextTail(u, 0)))
  {
    var q := SecondIn(types, u, max, CIdle(Took(u))).(producer := PReadNextFront(u, 0));
    var q1 := Act(q, Producer(true)).state;
    assert q1 == q.(producer := PConstructNext(u, 0));
    var q2 := Act(q1, Producer(true)).state;
    assert q2.blocks[0] == One(u, 1, true);
    assert q2.blocks == [One(u, 1, true), Two(u, 1, 1, 0, 1, false, true)];
  }

  lemma ThirdEnqueueStores<T>(types: Types, u: T, max: nat)
    ensures var q := ThirdIn(types, u, max, CIdle(Took(u))).(tailBlock := 1, producer := PStoreNextTail(u, 0));
      Iterate(q, Producer(true), 2) == Ok(ThirdIn(types, u, max, CIdle(Took(u))))
  {
    Small();
    var q := ThirdIn(types, u, max, CIdle(Took(u))).(tailBlock := 1, producer := PStoreNextTail(u, 0));
    var q1 := Act(q, Producer(true)).state;
    assert q1.blocks == [One(u, 1, true), Two(u, 1, 1, 0, 1, false, true)] && q1.producer == PStoreTailBlock(u, 0);
  }

  /** The third element goes into the one-slot block, whose `tail` wraps back to its `front`. */
  lemma ThirdEnqueue<T>(types: Types, u: T, max: nat)
    ensures var q := SecondIn(types, u, max, CIdle(Took(u))).(producer := PCheck(u, true));
      Iterate(q, Producer(true), 7) == Ok(ThirdIn(types, u, max, CIdle(Took(u))))
  {
    hide Iterate;
    ThirdEnqueueLooks(types, u, max);
    ThirdEnqueueConstructs(types, u, max);
    ThirdEnqueueStores(types, u, max);
    IterateAdd(SecondIn(types, u, max, CIdle(Took(u))).(producer := PReadNextFront(u, 0)),
               Producer(true), 2, 2);
    IterateAdd(SecondIn(types, u, max, CIdle(Took(u))).(producer := PCheck(u, true)),
               Producer(true), 3, 4);
  }

  lemma SecondDequeue<T>(types: Types, u: T, max: nat)
    ensures var q := ThirdIn(types, u, max, CLook(Dequeue));
      Iterate(q, Consumer, 4) == Ok(SecondOut(types, u, max, CIdle(Took(u))))
  {
    Small();
    var q := ThirdIn(types, u, max, CLook(Dequeue));
    var q1 := Act(q, Consumer).state;
    assert q1 == q.(consumer := CReadTail(Dequeue));
    var q2 := Act(q1, Consumer).state;
    assert q2.blocks[1] == Two(u, 1, 0, 0, 1, false, true) && q2.consumer == CTake;
    var q3 := Act(q2, Consumer).state;
    assert q3.blocks[1] == Two(u, 1, 0, 0, 1, false, false) && q3.consumer == CStoreFront(u);
    var q4 := Act(q3, Consumer).state;
    assert q4.blocks == [One(u, 1, true), Two(u, 0, 0, 0, 1, false, false)];
  }

  /** The last element is enqueued and not dequeued, but the consumer finds no element where the
      design says there must be one. */
  lemma ThirdDequeue<T>(types: Types, u: T, max: nat)
    ensures var q := SecondOut(types, u, max, CLook(Dequeue));
      && Iterate(q, Consumer, 5) == Ok(q.(consumer := CReadNextTail(Dequeue, 0)))
      && Act(q.(consumer := CReadNextTail(Dequeue, 0)), Consumer) == Fault(AssertFailed)
  {
    var q := SecondOut(types, u, max, CLook(Dequeue));
    var q1 := Act(q, Consumer).state;
    assert q1 == q.(consumer := CReadTail(Dequeue));
    var q2 := Act(q1, Consumer).state;
    assert q2 == q.(consumer := CReadTailBlock(Dequeue));
    var q3 := Act(q2, Consumer).state;
    assert q3 == q.(consumer := CReReadTail(Dequeue));
    var q4 := Act(q3, Consumer).state;
    assert q4 == q.(consumer := CReadNext(Dequeue));
    var q5 := Act(q4, Consumer).state;
    assert q5 == q.(consumer := CReadNextTail(Dequeue, 0));
  }

  lemma HalfWay<T>(types: Types, max: nat, u: T) returns (acts: seq<Action<T>>)
    requires max >= 2 && BlockCells(types, 2) == 2
    ensures Run(Start(types, 0, max, u), acts).Ok?
    ensures Run(Start(types, 0, max, u), acts).state.q == SecondIn(types, u, max, CIdle(Took(u)))
  {
    hide Iterate, ProducerStep, ConsumerStep, Init, BlockCells;
    var first := Start(types, 0, max, u);
    acts := [];
    assert Run(first, []) == Ok(first);
    hide Run;
    ZeroInit(types, u, max);
    FirstEnqueue(types, u, max);
    FirstDequeue(types, u, max);
    SecondEnqueue(types, u, max);
    acts := Call(first, acts, Enqueue(u), Producer(true), 6);
    acts := Call(first, acts, TryDequeue, Consumer, 9);
    acts := Call(first, acts, Enqueue(u), Producer(true), 4);
  }

  /** With `size` 0 there is a run that fails the assertion on line 351. */
  lemma ZeroSizeFaults<T>(types: Types, max: nat, u: T) returns (acts: seq<Action<T>>)
    requires max >= 2 && BlockCells(types, 2) == 2
    ensures Run(Start(types, 0, max, u), acts) == Fault(AssertFailed)
  {
    hide Iterate, ProducerStep, ConsumerStep, Init, Run, Start, BlockCells;
    var first := Start(types, 0, max, u);
    acts := HalfWay(types, max, u);
    ThirdEnqueue(types, u, max);
    SecondDequeue(types, u, max);
    ThirdDequeue(types, u, max);
    acts := Call(first, acts, Enqueue(u), Producer(true), 7);
    acts := Call(first, acts, TryDequeue, Consumer, 4);
    acts := Call(first, acts, TryDequeue, Consumer, 5);
    acts := Then(first, acts, Consumer);
  }
}
