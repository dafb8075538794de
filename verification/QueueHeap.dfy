/** `ReaderWriterQueue` as an object. Here one thread makes every call and each call runs to its end;
    the life of the object is then proved to be a run of `QueueSteps`, access by access, whose theorems
    therefore hold of it. */
module QueueHeap {
  import opened Allocation
  import opened Bits
  import B = Blocks
  import opened BlockHeap
  import opened Options
  import opened QueueSteps
  import opened QueueInvariant
  import opened QueueRuns
  import opened QueueCapacity
  import opened QueueSize
  import opened QueueCalls

  class ReaderWriterQueue<T> {
    var frontBlock: Block<T>
    var tailBlock: Block<T>
    var largestBlockSize: nat
    const maxBlockSize: nat
    const types: Types
    const unset: T

    /** The size asked of the constructor, the blocks by id, and the life of the object so far: `w` is
        where the run `acts` of the step system has got to. */
    ghost const promised: nat
    ghost var heap: seq<Block<T>>
    ghost var w: Watched<T>
    ghost var acts: seq<Action<T>>

    ghost predicate Pointers(q: Queue<T>)
      reads this
    {
      && q.frontBlock < |heap| && frontBlock == heap[q.frontBlock]
      && q.tailBlock < |heap| && tailBlock == heap[q.tailBlock]
      && largestBlockSize == q.largestBlockSize && maxBlockSize == q.maxBlockSize
      && types == q.types && unset == q.unset
    }

    ghost predicate Valid()
      reads this, heap, Datas(heap)
    {
      && Represents(heap, w.s.q.blocks) && Pointers(w.s.q)
      && Logged(types, promised, maxBlockSize, unset, acts, w)
    }

    /** No call is under way. */
    ghost predicate Ready()
      reads this, heap, Datas(heap)
    {
      Valid() && w.s.q.producer.PIdle? && w.s.q.consumer.CIdle?
    }

    ghost function Contents(): seq<T>
      reads this
    {
      Holds(w.s)
    }

    /** The queue object is none of the objects it is made of. */
    lemma Apart()
      ensures (this as object) !in heap && (this as object) !in Datas(heap)
    {
    }

    /** Lines 101-161. Whatever the size, the object is the start of a run of the step system; the queue is
        in order, and may be used, if the arguments are such that no run goes wrong: see
        `QueueSafeSizes`. */
    constructor (types: Types, size: nat, maxBlockSize: nat, unset: T)
      requires size < WORD && IsPow2(maxBlockSize) && 2 <= maxBlockSize <= WORD / 4
      ensures Represents(heap, w.s.q.blocks) && Pointers(w.s.q)
      ensures w == StartWatched(types, size, maxBlockSize, unset) && acts == []
      ensures promised == size && this.maxBlockSize == maxBlockSize && this.types == types && this.unset == unset
      ensures Constructible(types, size, maxBlockSize) ==>
        Ready() && Contents() == [] && JustEnough(w.s, size, maxBlockSize)
      ensures forall i :: 0 <= i < |heap| ==> fresh(heap[i]) && fresh(heap[i].data)
    {
      hide Logged, Holds, Block.Is, LeastPow2, RingOf, Constructible, JustEnough;
      StartCount(size, maxBlockSize);
      var s := CeilToPow2(Increment(size));
      var count := 1;
      if s > maxBlockSize * 2 {
        count, s := (size + maxBlockSize * 2 - 3) / (maxBlockSize - 1), maxBlockSize;
      }
      var first: Block<T>;
      ghost var blocks: seq<Block<T>>;
      first, blocks := MakeRing(types, count, s, unset);
      frontBlock, tailBlock, largestBlockSize := first, first, s;
      this.maxBlockSize, this.types, this.unset, promised := maxBlockSize, types, unset, size;
      heap, w, acts := blocks, StartWatched(types, size, maxBlockSize, unset), [];
      new;
      if Constructible(types, size, maxBlockSize) {
        StartLogged(types, size, maxBlockSize, unset);
        StartsEmpty(types, size, maxBlockSize, unset);
      }
      Apart();
    }

    /** One step of the step system, for the access just made. */
    ghost method Step(a: Action<T>)
      requires Logged(types, promised, maxBlockSize, unset, acts, w)
      modifies `w, `acts
      ensures Watch(old(w), a) == Ok(w) && Act(old(w.s.q), a) == Ok(w.s.q) && acts == old(acts) + [a]
      ensures Logged(types, promised, maxBlockSize, unset, acts, w)
      ensures Contents() == NextContents(old(w.s.q), old(Contents()), a)
    {
      hide Logged;
      StepLogged(types, promised, maxBlockSize, unset, acts, w, a);
      w, acts := Watch(w, a).state, acts + [a];
    }

    /** The same for the steps of a consumer call that only look. */
    ghost method Look(a: Action<T>)
      requires Logged(types, promised, maxBlockSize, unset, acts, w) && w.s.q.producer.PIdle?
      requires if a.Consumer? then Looking(w) && !w.s.q.consumer.CStoreFront?
               else IsConsumerCall(a) && w.s.q.consumer.CIdle?
      modifies `w, `acts
      ensures Act(old(w.s.q), a) == Ok(w.s.q) && acts == old(acts) + [a]
      ensures Logged(types, promised, maxBlockSize, unset, acts, w)
      ensures Looking(w) && Contents() == old(Contents())
      ensures !old(w.s.q.consumer).CStoreFrontBlock? ==> w.s.ring == old(w.s.ring)
      ensures w.consumerEntry == if a.ConsumerSize? then |Contents()| else old(w.consumerEntry)
    {
      hide WatchInv, CapacityInv, WatchRun, Watch, Looking, Holds, Logged, Act;
      StepLogged(types, promised, maxBlockSize, unset, acts, w, a);
      LoggedInv(types, promised, maxBlockSize, unset, acts, w);
      LooksOn(w, a);
      Step(a);
    }

    /** The same for the step that removes the head. */
    ghost method Remove(x: T)
      requires Logged(types, promised, maxBlockSize, unset, acts, w) && w.s.q.consumer == CStoreFront(x)
      modifies `w, `acts
      ensures Act(old(w.s.q), Consumer) == Ok(w.s.q) && acts == old(acts) + [Consumer]
      ensures Logged(types, promised, maxBlockSize, unset, acts, w)
      ensures [x] + Contents() == old(Contents())
    {
      hide Logged, Holds, Act, NextContents;
      LoggedInv(types, promised, maxBlockSize, unset, acts, w);
      HeadRemoved(w, x);
      Step(Consumer);
    }

    /** Lines 312 and 329-333: `localTail = tail`, and whether there is an element now. */
    method RefreshTail(ghost op: Op) returns (found: bool)
      requires Valid() && Looking(w) && (w.s.q.consumer == CReadTail(op) || w.s.q.consumer == CReReadTail(op))
      modifies `w, `acts, frontBlock`localTail
      ensures old(acts) <= acts
      ensures Valid() && Looking(w) && Contents() == old(Contents()) && w.s.q.frontBlock == old(w.s.q.frontBlock)
      ensures found ==> w.s.q.consumer == Found(w.s.q, op, w.s.q.frontBlock, w.s.q.blocks[w.s.q.frontBlock].front)
      ensures found ==> frontBlock.front != frontBlock.localTail
      ensures !found ==> w.s.q.consumer == if old(w.s.q.consumer).CReadTail? then CReadTailBlock(op) else CReadNext(op)
    {
      hide Logged, Holds, Act, Block.Is, Block.View, Distinct;
      ghost var q, id := w.s.q, w.s.q.frontBlock;
      BlockAt(heap, q.blocks, id);
      CopyTail(frontBlock, heap, q.blocks, id);
      Look(Consumer);
      AtReadTail(q, w.s.q, op);
      BlockAt(heap, w.s.q.blocks, id);
      found := frontBlock.front != frontBlock.localTail;
    }

    /** Line 326. */
    method OtherBlock(ghost op: Op) returns (more: bool)
      requires Valid() && Looking(w) && w.s.q.consumer == CReadTailBlock(op)
      modifies `w, `acts
      ensures old(acts) <= acts
      ensures Valid() && Looking(w) && Contents() == old(Contents()) && w.s.q.frontBlock == old(w.s.q.frontBlock)
      ensures w.s.q.consumer == if more then CReReadTail(op) else CIdle(Empty)
    {
      hide Logged, Holds, Act, Block.Is, Block.View, Distinct;
      ghost var q := w.s.q;
      BlockAt(heap, q.blocks, q.frontBlock);
      Look(Consumer);
      AtReadTailBlock(q, w.s.q, op);
      more := frontBlock != tailBlock;
    }

    /** Lines 308-338 and 391-410: is there an element in the front block, or, if not, another block? */
    method LookInFront(ghost op: Op) returns (found: bool, more: bool)
      requires Valid() && Looking(w) && w.s.q.consumer == CLook(op)
      modifies `w, `acts, frontBlock`localTail
      ensures old(acts) <= acts
      ensures Valid() && Looking(w) && Contents() == old(Contents()) && w.s.q.frontBlock == old(w.s.q.frontBlock)
      ensures found ==> w.s.q.consumer == Found(w.s.q, op, w.s.q.frontBlock, w.s.q.blocks[w.s.q.frontBlock].front)
      ensures found ==> frontBlock.front != frontBlock.localTail
      ensures !found ==> w.s.q.consumer == if more then CReadNext(op) else CIdle(Empty)
    {
      hide Logged, Holds, Act, Block.Is, Block.View, Distinct;
      ghost var q := w.s.q;
      BlockAt(heap, q.blocks, q.frontBlock);
      Look(Consumer);
      AtLook(q, w.s.q, op);
      if frontBlock.front != frontBlock.localTail {
        return true, false;
      }
      found := RefreshTail(op);
      if found {
        return true, false;
      }
      more := OtherBlock(op);
      if more {
        found := RefreshTail(op);  // "the front block isn't empty after all"
      }
    }

    /** Lines 345-356. */
    method EnterNext(nextBlock: Block<T>)
      requires Valid() && Looking(w) && w.s.q.consumer.CReadNextTail? && w.s.q.consumer.op == Dequeue
      requires w.s.q.consumer.next < |heap| && heap[w.s.q.consumer.next] == nextBlock
      modifies this, nextBlock`localTail
      ensures old(acts) <= acts
      ensures Valid() && Looking(w) && Contents() == old(Contents()) && heap == old(heap)
      ensures w.s.q.consumer == CTake
    {
      hide Logged, Holds, Act, Block.Is, Block.View, Distinct;
      ghost var q, id := w.s.q, w.s.q.consumer.next;
      CopyTail(nextBlock, heap, q.blocks, id);
      Look(Consumer);
      AtReadNextTail(q, w.s.q, Dequeue);
      BlockAt(heap, w.s.q.blocks, id);
      assert nextBlock.front != nextBlock.localTail;  // line 351
      q := w.s.q;
      Apart();
      frontBlock := nextBlock;
      Look(Consumer);
      AtStoreFrontBlock(q, w.s.q);
    }

    /** Lines 340-356: leave the empty front block for the next one. */
    method AdvanceFront()
      requires Valid() && Looking(w) && w.s.q.consumer == CReadNext(Dequeue)
      modifies this, heap
      ensures old(acts) <= acts
      ensures Valid() && Looking(w) && Contents() == old(Contents()) && heap == old(heap)
      ensures w.s.q.consumer == CTake
    {
      hide Logged, Holds, Act, Block.Is, Block.View, Distinct;
      ghost var q := w.s.q;
      BlockAt(heap, q.blocks, q.frontBlock);
      var nextBlock := Follow(frontBlock, heap, q.blocks, q.frontBlock);
      Look(Consumer);
      AtReadNext(q, w.s.q, Dequeue);
      EnterNext(nextBlock);
    }

    /** Lines 321-324. */
    method GiveBack(ghost x: T)
      requires Valid() && Looking(w) && w.s.q.consumer == CStoreFront(x)
      modifies `w, `acts, frontBlock`front
      ensures old(acts) <= acts
      ensures Ready() && [x] + Contents() == old(Contents())
    {
      hide Logged, Holds, Act, Block.Is, Block.View, Distinct;
      ghost var q := w.s.q;
      StoreFront(frontBlock, heap, q.blocks, q.frontBlock);
      Remove(x);
      AtStoreFront(q, w.s.q);
    }

    /** Lines 317-324 and 360-368: take the element at `front`, then give its slot back. */
    method TakeFront() returns (x: T)
      requires Valid() && Looking(w) && w.s.q.consumer == CTake
      modifies `w, `acts, frontBlock`front, frontBlock.data
      ensures old(acts) <= acts
      ensures Ready() && [x] + Contents() == old(Contents())
    {
      hide Logged, Holds, Act, Block.Is, Block.View, Distinct;
      ghost var q := w.s.q;
      Look(Consumer);
      AtTake(q, w.s.q);
      x := MoveOut(frontBlock, heap, q.blocks, q.frontBlock);
      GiveBack(x);
    }

    /** A consumer call begins. */
    ghost method StartCall(a: Action<T>)
      requires Ready() && IsConsumerCall(a)
      modifies `w, `acts
      ensures Valid() && Looking(w) && Contents() == old(Contents()) && acts == old(acts) + [a]
      ensures w.s.q == old(w.s.q).(consumer := match a case TryDequeue => CLook(Dequeue) case Show => CLook(Op.Peek)
                                               case _ => CSize(w.s.q.frontBlock, w.s.q.frontBlock, 0))
      ensures a.ConsumerSize? ==> w.consumerEntry == |Contents()|
    {
      hide Logged, Holds, Block.Is, Block.View, Distinct;
      Look(a);
    }

    /** The answer of a call that found nothing is right. */
    lemma NothingThere()
      requires Valid() && Looking(w) && w.s.q.consumer == CIdle(Empty)
      ensures Contents() == []
    {
      hide WatchRun, CapacityInv, Core, History, PeekValid;
    }

    /** `try_dequeue`. */
    method TryDequeue() returns (r: Option<T>)
      requires Ready()
      modifies this, heap, Datas(heap)
      ensures old(acts) + [Action.TryDequeue] <= acts
      ensures Ready() && heap == old(heap)
      ensures r.None? ==> old(Contents()) == [] == Contents()
      ensures r.Some? ==> old(Contents()) == [r.value] + Contents()
    {
      hide Logged, Holds, Act, Block.Is, Block.View, Distinct;
      StartCall(Action.TryDequeue);
      var found, more := LookInFront(Dequeue);
      if !found && more {
        AdvanceFront();
        found := true;
      }
      if !found {
        NothingThere();
        return None;
      }
      var x := TakeFront();
      return Some(x);
    }

    /** `pop` takes the same steps and drops the value. */
    method Pop() returns (ok: bool)
      requires Ready()
      modifies this, heap, Datas(heap)
      ensures old(acts) + [Action.TryDequeue] <= acts
      ensures Ready() && heap == old(heap)
      ensures ok <==> old(Contents()) != []
      ensures Contents() == if ok then old(Contents())[1..] else []
    {
      hide Ready, Contents, Datas;
      var r := TryDequeue();
      ok := r.Some?;
    }

    lemma HeadNext()
      requires Valid() && w.s.q.consumer.CReadNextTail?
      ensures w.s.q.consumer.next < |w.s.q.blocks|
      ensures var b := w.s.q.blocks[w.s.q.consumer.next];
        b.front < |b.data| && Contents() != [] && Contents()[0] == b.data[b.front].value
    {
      hide Logged, Holds, Represents;
      LoggedInv(types, promised, maxBlockSize, unset, acts, w);
      NextHead(w);
    }

    /** Lines 413-417. */
    method PeekAt(nextBlock: Block<T>) returns (r: Option<T>)
      requires Valid() && Looking(w) && w.s.q.consumer.CReadNextTail? && w.s.q.consumer.op == Op.Peek
      requires w.s.q.consumer.next < |heap| && heap[w.s.q.consumer.next] == nextBlock
      modifies `w, `acts
      ensures old(acts) <= acts
      ensures Ready() && Contents() == old(Contents()) != []
      ensures r == Some(Contents()[0])
    {
      hide Logged, Holds, Act, Block.Is, Block.View, Distinct;
      ghost var q := w.s.q;
      BlockAt(heap, q.blocks, q.consumer.next);
      HeadNext();
      r := Some(nextBlock.data[nextBlock.front].value);
      Look(Consumer);
      AtReadNextTail(q, w.s.q, Op.Peek);
      assert nextBlock.front != nextBlock.tail;  // line 416
    }

    /** Line 411. */
    method PeekNext() returns (r: Option<T>)
      requires Valid() && Looking(w) && w.s.q.consumer == CReadNext(Op.Peek)
      modifies `w, `acts
      ensures old(acts) <= acts
      ensures Ready() && Contents() == old(Contents()) != []
      ensures r == Some(Contents()[0])
    {
      hide Logged, Holds, Act, Block.Is, Block.View, Distinct;
      ghost var q := w.s.q;
      BlockAt(heap, q.blocks, q.frontBlock);
      var nextBlock := Follow(frontBlock, heap, q.blocks, q.frontBlock);
      Look(Consumer);
      AtReadNext(q, w.s.q, Op.Peek);
      r := PeekAt(nextBlock);
    }

    /** `peek`: the address it returns holds the head of the queue. */
    method Peek() returns (r: Option<T>)
      requires Ready()
      modifies `w, `acts, heap
      ensures old(acts) + [Action.Show] <= acts
      ensures Ready() && heap == old(heap) && Contents() == old(Contents())
      ensures r.None? <==> Contents() == []
      ensures r.Some? ==> Contents() != [] && r.value == Contents()[0]
    {
      hide Logged, Holds, Act, Block.Is, Block.View, Distinct;
      StartCall(Action.Show);
      var found, more := LookInFront(Op.Peek);
      LoggedInv(types, promised, maxBlockSize, unset, acts, w);
      if found {
        BlockAt(heap, w.s.q.blocks, w.s.q.frontBlock);
        FrontHead(w);
        return Some(frontBlock.data[frontBlock.front].value);
      } else if more {
        r := PeekNext();
      } else {
        NothingThere();
        return None;
      }
    }

    // ----- The producer ---------------------------------------------------------------------------

    /** One step of a producer call that does not yet publish the element. */
    ghost method Prepare(a: Action<T>)
      requires Logged(types, promised, maxBlockSize, unset, acts, w) && w.s.q.consumer.CIdle?
      requires if a.Producer? then Adding(w) && !Publishes(w.s.q) else IsEnqueue(a) && w.s.q.producer.PIdle?
      modifies `w, `acts
      ensures Act(old(w.s.q), a) == Ok(w.s.q) && acts == old(acts) + [a]
      ensures Logged(types, promised, maxBlockSize, unset, acts, w)
      ensures Adding(w) && Contents() == old(Contents())
    {
      hide WatchInv, CapacityInv, WatchRun, Watch, Adding, Holds, Logged, Act;
      StepLogged(types, promised, maxBlockSize, unset, acts, w, a);
      LoggedInv(types, promised, maxBlockSize, unset, acts, w);
      AddsNothing(w, a);
      Step(a);
    }

    /** The step that publishes it. */
    ghost method Append(memory: bool)
      requires Logged(types, promised, maxBlockSize, unset, acts, w) && Publishes(w.s.q)
      modifies `w, `acts
      ensures Act(old(w.s.q), Producer(memory)) == Ok(w.s.q) && acts == old(acts) + [Producer(memory)]
      ensures Logged(types, promised, maxBlockSize, unset, acts, w)
      ensures Contents() == old(Contents()) + [old(w.s.q.producer.x)]
    {
      hide Logged, Holds, Act;
      Step(Producer(memory));
    }

    /** Line 568. */
    method Publish(ghost x: T)
      requires Valid() && Adding(w) && w.s.q.producer == PStoreTail(x)
      modifies `w, `acts, tailBlock`tail
      ensures old(acts) <= acts
      ensures Ready() && Contents() == old(Contents()) + [x]
    {
      hide Logged, Holds, Act, Block.Is, Block.View, Distinct;
      ghost var q := w.s.q;
      StoreTail(tailBlock, heap, q.blocks, q.tailBlock);
      Append(true);
      AtStoreTail(q, w.s.q);
    }

    /** Lines 559-568: there is room in the tail block. */
    method PutInTail(x: T)
      requires Valid() && Adding(w) && w.s.q.producer == PConstruct(x)
      modifies `w, `acts, tailBlock`tail, tailBlock.data
      ensures old(acts) <= acts
      ensures Ready() && Contents() == old(Contents()) + [x]
    {
      hide Logged, Holds, Act, Block.Is, Block.View, Distinct;
      ghost var q := w.s.q;
      Prepare(Producer(true));
      AtConstruct(q, w.s.q);
      ConstructAt(tailBlock, x, heap, q.blocks, q.tailBlock);
      Publish(x);
    }

    /** Lines 552-557: is there room in the tail block? */
    method LookInTail(x: T, ghost canAlloc: bool) returns (room: bool)
      requires Valid() && Adding(w) && w.s.q.producer == PCheck(x, canAlloc)
      modifies `w, `acts, tailBlock`localFront
      ensures old(acts) <= acts
      ensures Valid() && Adding(w) && Contents() == old(Contents()) && w.s.q.tailBlock == old(w.s.q.tailBlock)
      ensures w.s.q.producer == if room then PConstruct(x) else PReadNext(x, canAlloc)
    {
      hide Logged, Holds, Act, Block.Is, Block.View, Distinct, BitAnd;
      ghost var q := w.s.q;
      BlockAt(heap, q.blocks, q.tailBlock);
      Prepare(Producer(true));
      AtCheck(q, w.s.q);
      if BitAnd(tailBlock.tail + 1, tailBlock.sizeMask) != tailBlock.localFront {
        return true;
      }
      q := w.s.q;
      CopyFront(tailBlock, heap, q.blocks, q.tailBlock);
      Prepare(Producer(true));
      AtReadFront(q, w.s.q);
      BlockAt(heap, w.s.q.blocks, w.s.q.tailBlock);
      room := BitAnd(tailBlock.tail + 1, tailBlock.sizeMask) != tailBlock.localFront;
    }

    /** Line 572: is the block ahead free? */
    method LookAhead(x: T, canAlloc: bool) returns (free: bool)
      requires Valid() && Adding(w) && w.s.q.producer == PReadNext(x, canAlloc)
      modifies `w, `acts
      ensures old(acts) <= acts
      ensures Valid() && Adding(w) && Contents() == old(Contents())
      ensures w.s.q.tailBlock == old(w.s.q.tailBlock) && w.s.q.tailBlock < |w.s.q.blocks|
      ensures w.s.q.producer == if free then PReadNextFront(x, w.s.q.blocks[w.s.q.tailBlock].next)
                                else if canAlloc then PAlloc(x) else PIdle(Full)
    {
      hide Logged, Holds, Act, Block.Is, Block.View;
      ghost var q := w.s.q;
      BlockAt(heap, q.blocks, q.tailBlock);
      BlockAt(heap, q.blocks, q.frontBlock);
      Prepare(Producer(true));
      AtNext(q, w.s.q);
      free := tailBlock.next != frontBlock;
    }

    /** Lines 601 and 631. */
    method MoveTail(block: Block<T>, ghost x: T)
      requires Represents(heap, w.s.q.blocks) && w.s.q.frontBlock < |heap| && frontBlock == heap[w.s.q.frontBlock]
      requires largestBlockSize == w.s.q.largestBlockSize && maxBlockSize == w.s.q.maxBlockSize
      requires types == w.s.q.types && unset == w.s.q.unset
      requires Logged(types, promised, maxBlockSize, unset, acts, w) && w.s.q.consumer.CIdle?
      requires w.s.q.producer.PStoreTailBlock? && w.s.q.producer.x == x
      requires w.s.q.producer.spare < |heap| && heap[w.s.q.producer.spare] == block
      modifies `w, `acts, `tailBlock
      ensures old(acts) <= acts
      ensures Ready() && Contents() == old(Contents()) + [x] && tailBlock == block
    {
      hide Logged, Holds, Act, Block.Is, Block.View, Distinct;
      ghost var q := w.s.q;
      Apart();
      tailBlock := block;
      Append(true);
      AtStoreTailBlock(q, w.s.q);
    }

    /** Lines 591-598. */
    method FillNext(tailBlockNext: Block<T>, x: T)
      requires Valid() && Adding(w) && w.s.q.producer.PConstructNext? && w.s.q.producer.x == x
      requires w.s.q.producer.spare < |heap| && heap[w.s.q.producer.spare] == tailBlockNext
      modifies this, tailBlockNext`tail, tailBlockNext.data
      ensures old(acts) <= acts
      ensures Ready() && Contents() == old(Contents()) + [x] && heap == old(heap)
    {
      hide Logged, Holds, Act, Block.Is, Block.View, Distinct;
      ghost var q, id := w.s.q, w.s.q.producer.spare;
      Prepare(Producer(true));
      AtConstructNext(q, w.s.q);
      ConstructAt(tailBlockNext, x, heap, q.blocks, id);
      q := w.s.q;
      StoreTail(tailBlockNext, heap, q.blocks, id);
      Prepare(Producer(true));
      AtStoreNextTail(q, w.s.q);
      MoveTail(tailBlockNext, x);
    }

    /** Lines 580-601: put the element into the free block ahead and move there. */
    method PutInNext(x: T)
      requires Valid() && Adding(w) && w.s.q.tailBlock < |w.s.q.blocks|
      requires w.s.q.producer == PReadNextFront(x, w.s.q.blocks[w.s.q.tailBlock].next)
      modifies this, heap, Datas(heap)
      ensures old(acts) <= acts
      ensures Ready() && Contents() == old(Contents()) + [x] && heap == old(heap)
    {
      hide Logged, Holds, Act, Block.Is, Block.View, Distinct;
      ghost var q := w.s.q;
      var tailBlockNext := Follow(tailBlock, heap, q.blocks, q.tailBlock);
      ghost var id := q.producer.spare;
      CopyFront(tailBlockNext, heap, q.blocks, id);
      Prepare(Producer(true));
      AtReadNextFront(q, w.s.q);
      BlockAt(heap, w.s.q.blocks, id);
      assert tailBlockNext.localFront == tailBlockNext.tail;  // line 588
      FillNext(tailBlockNext, x);
    }

    /** Lines 622-631. */
    method LinkNew(newBlock: Block<T>, ghost x: T)
      requires Valid() && Adding(w) && w.s.q.producer.PLink? && w.s.q.producer.x == x
      requires newBlock.Is(w.s.q.producer.made, heap)
      requires forall i :: 0 <= i < |heap| ==> heap[i] != newBlock && heap[i].data != newBlock.data
      modifies this, tailBlock`next
      ensures old(acts) <= acts
      ensures Ready() && Contents() == old(Contents()) + [x] && heap == old(heap) + [newBlock] && tailBlock == newBlock
    {
      hide Logged, Holds, Act, Block.Is, Block.View, Distinct;
      ghost var q := w.s.q;
      BlockAt(heap, q.blocks, q.tailBlock);
      LinkBehind(tailBlock, newBlock, heap, q.blocks, q.tailBlock, q.producer.made);
      ghost var heap' := heap + [newBlock];
      assert (this as object) !in heap' && (this as object) !in Datas(heap');
      Prepare(Producer(true));
      AtLink(q, w.s.q);
      heap := heap';
      MoveTail(newBlock, x);
    }

    /** Lines 606-631: malloc has succeeded. `next` is what follows the tail block. */
    method PutInMade(x: T, next: Block<T>)
      requires Valid() && Adding(w) && w.s.q.producer == PAlloc(x)
      requires var t := w.s.q.tailBlock;
        t < |w.s.q.blocks| && w.s.q.blocks[t].next < |heap| && next == heap[w.s.q.blocks[t].next]
      modifies this, tailBlock`next
      ensures old(acts) <= acts
      ensures Ready() && Contents() == old(Contents()) + [x]
      ensures heap == old(heap) + [tailBlock] && fresh(tailBlock) && fresh(tailBlock.data)
    {
      hide Logged, Holds, Act, Block.Is, Block.View, Distinct, BlockCells;
      ghost var q := w.s.q;
      Prepare(Producer(true));
      AtAlloc(q, w.s.q, true);
      var newBlockSize := if largestBlockSize >= maxBlockSize then largestBlockSize else largestBlockSize * 2;
      var newBlock := MakeFirst(types, newBlockSize, unset, x, next, heap, q.blocks[q.tailBlock].next);
      Apart();
      largestBlockSize := newBlockSize;
      LinkNew(newBlock, x);
    }

    /** Lines 605-631: no block is free, make a new one and move there. */
    method PutInNew(x: T, memory: bool) returns (ok: bool)
      requires Valid() && Adding(w) && w.s.q.producer == PAlloc(x)
      modifies this, tailBlock`next
      ensures old(acts) <= acts
      ensures Ready() && ok == memory && (!ok ==> Adding(w))
      ensures Contents() == if ok then old(Contents()) + [x] else old(Contents())
      ensures if ok then heap == old(heap) + [tailBlock] && fresh(tailBlock) && fresh(tailBlock.data)
              else heap == old(heap)
    {
      hide Logged, Holds, Act, Block.Is, Block.View, Distinct;
      ghost var q := w.s.q;
      if !memory {
        Prepare(Producer(false));
        AtAlloc(q, w.s.q, false);
        return false;
      }
      BlockAt(heap, q.blocks, q.tailBlock);
      var next := Follow(tailBlock, heap, q.blocks, q.tailBlock);
      PutInMade(x, next);
      return true;
    }

    /** `inner_enqueue`. `memory` says whether malloc succeeds if it is called. */
    method InnerEnqueue(x: T, canAlloc: bool, memory: bool) returns (ok: bool)
      requires Valid() && Adding(w) && w.s.q.producer == PCheck(x, canAlloc)
      modifies this, heap, Datas(heap)
      ensures old(acts) <= acts
      ensures Ready() && Contents() == if ok then old(Contents()) + [x] else old(Contents())
      ensures heap == old(heap) ||
        (heap == old(heap) + [tailBlock] && canAlloc && fresh(tailBlock) && fresh(tailBlock.data))
      ensures !ok ==> Adding(w) && if canAlloc then !memory else w.s.q.producer == PIdle(Full)
    {
      hide Logged, Holds, Act, Block.Is, Block.View, Distinct;
      var room := LookInTail(x, canAlloc);
      if room {
        PutInTail(x);
        return true;
      }
      var free := LookAhead(x, canAlloc);
      if free {
        PutInNext(x);
        return true;
      } else if canAlloc {
        ok := PutInNew(x, memory);
      } else {
        return false;
      }
    }

    method Enqueue(x: T, memory: bool) returns (ok: bool)
      requires Ready()
      modifies this, heap, Datas(heap)
      ensures old(acts) + [Action.Enqueue(x)] <= acts
      ensures Ready()
      ensures heap == old(heap) || (heap == old(heap) + [tailBlock] && fresh(tailBlock) && fresh(tailBlock.data))
      ensures Contents() == if ok then old(Contents()) + [x] else old(Contents())
      ensures !ok ==> !memory
    {
      hide Logged, Holds, Block.Is, Block.View, Distinct;
      Prepare(Action.Enqueue(x));
      ok := InnerEnqueue(x, true, memory);
    }

    lemma FullMeans()
      requires Valid() && Adding(w) && w.s.q.producer == PIdle(Full)
      ensures |Contents()| >= promised
    {
      hide WatchRun, WatchInv, Inv, Sizes, Fits, Represents, Holds, Capacity;
    }

    /** Allocates nothing, and refuses only when the promised number of elements is in the queue. */
    method TryEnqueue(x: T) returns (ok: bool)
      requires Ready()
      modifies this, heap, Datas(heap)
      ensures old(acts) + [Action.TryEnqueue(x)] <= acts
      ensures Ready() && heap == old(heap)
      ensures Contents() == if ok then old(Contents()) + [x] else old(Contents())
      ensures !ok ==> |Contents()| >= promised
    {
      hide Logged, Holds, Block.Is, Block.View, Distinct;
      Prepare(Action.TryEnqueue(x));
      ok := InnerEnqueue(x, false, false);
      if !ok {
        FullMeans();
      }
    }

    // ----- Walks round the ring ---------------------------------------------------------------------

    lemma RingAt(p: nat)
      requires Valid() && p < |w.s.ring|
      ensures |w.s.ring| == |heap| && w.s.ring[p] < |heap| && w.s.ring[0] == w.s.q.frontBlock
      ensures w.s.q.blocks[w.s.ring[p]].front < WORD
      ensures var next := w.s.q.blocks[w.s.ring[p]].next;
        if p + 1 == |w.s.ring| then next == w.s.q.frontBlock else next == w.s.ring[p + 1] && next != w.s.q.frontBlock
    {
      hide Logged, Block.Is, Block.View, Distinct;
      LoggedInv(types, promised, maxBlockSize, unset, acts, w);
      NextInRing(w, p);
      NarrowBlock(w, p);
    }

    lemma RingIsThere()
      requires Valid()
      ensures |w.s.ring| > 0
    {
      hide Logged, Block.Is, Block.View, Distinct;
      LoggedInv(types, promised, maxBlockSize, unset, acts, w);
      NotEmptyRing(w);
    }

    /** Lines 500-502. */
    method CountBlock(block: Block<T>, ghost sum: nat, ghost p: nat) returns (count: nat)
      requires Valid() && Looking(w) && p < |w.s.ring| && w.s.ring[p] < |heap| && block == heap[w.s.ring[p]]
      requires w.s.q.consumer == CSize(w.s.q.frontBlock, w.s.ring[p], sum)
      modifies `w, `acts
      ensures old(acts) <= acts
      ensures Valid() && Looking(w) && Contents() == old(Contents()) && w.s.ring == old(w.s.ring)
      ensures w.consumerEntry == old(w.consumerEntry)
      ensures w.s.q.consumer == CSizeNext(w.s.q.frontBlock, w.s.ring[p], sum + count)
    {
      hide Logged, Holds, Act, Block.Is, Block.View, Distinct, BitAnd;
      ghost var q := w.s.q;
      BlockAt(heap, q.blocks, w.s.ring[p]);
      RingAt(p);
      count := BitAnd(WrapSub(block.tail, block.front), block.sizeMask);
      Look(Consumer);
      AtSize(q, w.s.q);
    }

    lemma CountIsExact()
      requires Valid() && Looking(w) && w.s.q.consumer.CSizeNext? && w.consumerEntry == |Contents()|
      ensures Act(w.s.q, Consumer).Ok?
      ensures var c := Act(w.s.q, Consumer).state.consumer;
        c.CIdle? ==> c.result.Counted? && c.result.length == |Contents()|
    {
      hide Logged, Holds, Act, Represents;
      StepLogged(types, promised, maxBlockSize, unset, acts, w, Consumer);
      LoggedInv(types, promised, maxBlockSize, unset, acts, w);
      if Act(w.s.q, Consumer).state.consumer.CIdle? {
        ExactCount(w);
      }
    }

    /** Lines 503-504. */
    method TurnBlock(block: Block<T>, ghost sum: nat, ghost p: nat) returns (next: Block<T>)
      requires Valid() && Looking(w) && p < |w.s.ring| && w.s.ring[p] < |heap| && block == heap[w.s.ring[p]]
      requires w.s.q.consumer == CSizeNext(w.s.q.frontBlock, w.s.ring[p], sum) && w.consumerEntry == |Contents()|
      modifies `w, `acts
      ensures old(acts) <= acts
      ensures Valid() && Looking(w) && Contents() == old(Contents()) && w.s.ring == old(w.s.ring)
      ensures w.consumerEntry == old(w.consumerEntry)
      ensures next == frontBlock <==> p + 1 == |w.s.ring|
      ensures p + 1 == |w.s.ring| ==> w.s.q.consumer == CIdle(DequeueResult.Counted(sum)) && sum == |Contents()|
      ensures p + 1 < |w.s.ring| ==>
        && w.s.ring[p + 1] < |heap| && next == heap[w.s.ring[p + 1]]
        && w.s.q.consumer == CSize(w.s.q.frontBlock, w.s.ring[p + 1], sum)
    {
      hide Logged, Holds, Act, Block.Is, Block.View, Distinct;
      ghost var q := w.s.q;
      RingAt(p);
      next := Follow(block, heap, q.blocks, w.s.ring[p]);
      BlockAt(heap, q.blocks, q.frontBlock);
      CountIsExact();
      Look(Consumer);
      AtSizeNext(q, w.s.q);
    }

    /** Lines 493-506, called by the consumer. With no other thread at work the count is exact. */
    method SizeApprox() returns (result: nat)
      requires Ready()
      modifies `w, `acts
      ensures old(acts) + [Action.ConsumerSize] <= acts
      ensures Ready() && heap == old(heap) && result == |Contents()| && Contents() == old(Contents())
    {
      hide Logged, Holds, Act, Block.Is, Block.View, Distinct, BitAnd;
      StartCall(Action.ConsumerSize);
      var block := frontBlock;
      result := 0;
      ghost var p := 0;
      RingIsThere();
      RingAt(0);
      while true
        invariant Valid() && Looking(w) && heap == old(heap) && Contents() == old(Contents())
        invariant old(acts) + [Action.ConsumerSize] <= acts
        invariant 0 <= p < |w.s.ring| && w.s.ring[p] < |heap| && block == heap[w.s.ring[p]]
        invariant w.s.q.consumer == CSize(w.s.q.frontBlock, w.s.ring[p], result)
        invariant w.consumerEntry == |Contents()|
        decreases |w.s.ring| - p
      {
        var count := CountBlock(block, result, p);
        result := result + count;
        block := TurnBlock(block, result, p);
        if block == frontBlock {
          break;
        }
        p := p + 1;
      }
    }

    /** Lines 517-527: the slots of all blocks, those that stay free in each left out. */
    method MaxCapacity() returns (result: nat)
      requires Ready()
      ensures result == Capacity(w.s)
    {
      hide Logged, Holds, Block.Is, Block.View, Masks;
      var block := frontBlock;
      result := 0;
      ghost var p, blocks, ring := 0, w.s.q.blocks, w.s.ring;
      RingIsThere();
      RingAt(0);
      NoMasks(blocks, ring);
      while true
        invariant 0 <= p < |ring| && ring[p] < |heap| && block == heap[ring[p]] && result == Masks(blocks, ring[..p])
        decreases |ring| - p
      {
        RingAt(p);
        BlockAt(heap, blocks, ring[p]);
        BlockAt(heap, blocks, w.s.q.frontBlock);
        MasksUpTo(blocks, ring, p);
        result := result + block.sizeMask;
        block := Follow(block, heap, blocks, ring[p]);
        if block == frontBlock {
          break;
        }
        p := p + 1;
      }
    }

    /** The destructor, lines 204-228. It destroys what the queue holds, in order, and frees every
        block once. */
    method Destruct() returns (destroyed: seq<T>, ghost freed: seq<Block<T>>)
      requires Ready()
      modifies Datas(heap)
      ensures destroyed == old(Contents())
      ensures |freed| == |heap| && Distinct(freed)
      ensures forall id :: 0 <= id < |heap| ==> heap[id] in freed && AllDead(heap[id])
    {
      hide Logged, Holds, Block.Is, Block.View, AllDead, SoundAtRest;
      LoggedInv(types, promised, maxBlockSize, unset, acts, w);
      AtRest(w);
      WholeCircle(w);
      destroyed, freed := DestroyRing(frontBlock, heap, w.s.q.blocks, w.s.ring);
    }
  }
}
