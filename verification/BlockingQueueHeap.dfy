/** `BlockingReaderWriterQueue` as an object: the queue of `QueueHeap` and the tokens of a semaphore.
    Here one thread makes every call; `BlockingQueue` is about two. */
module BlockingQueueHeap {
  import opened Allocation
  import opened Bits
  import opened Options
  import opened BlockHeap
  import opened QueueSteps
  import opened QueueRuns
  import opened QueueSize
  import opened QueueCalls
  import opened QueueHeap

  class BlockingReaderWriterQueue<T> {
    const inner: ReaderWriterQueue<T>
    var sema: nat  // the tokens of the semaphore

    ghost predicate Valid()
      reads this, inner, inner.heap, Datas(inner.heap)
    {
      inner.Ready() && sema == |inner.Contents()|
    }

    ghost function Contents(): seq<T>
      reads inner
    {
      inner.Contents()
    }

    /** Lines 765-767. */
    constructor (types: Types, size: nat, maxBlockSize: nat, unset: T)
      requires size < WORD && IsPow2(maxBlockSize) && 2 <= maxBlockSize <= WORD / 4
      ensures inner.w == StartWatched(types, size, maxBlockSize, unset) && inner.promised == size && sema == 0
      ensures Constructible(types, size, maxBlockSize) ==> Valid() && Contents() == []
    {
      hide ReaderWriterQueue.Ready, Logged, Represents, Holds, Constructible;
      inner := new ReaderWriterQueue(types, size, maxBlockSize, unset);
      sema := 0;
      new;
      assert (this as object) !in inner.heap && (this as object) !in Datas(inner.heap);
    }

    /** Lines 784-791. */
    method TryEnqueue(element: T) returns (ok: bool)
      requires Valid()
      modifies this, inner, inner.heap, Datas(inner.heap)
      ensures Valid()
      ensures Contents() == if ok then old(Contents()) + [element] else old(Contents())
      ensures !ok ==> |Contents()| >= inner.promised
    {
      hide ReaderWriterQueue.Ready, Logged, Represents, Holds;
      ok := inner.TryEnqueue(element);
      if ok {
        sema := sema + 1;
      }
    }

    /** Lines 822-829. */
    method Enqueue(element: T, memory: bool) returns (ok: bool)
      requires Valid()
      modifies this, inner, inner.heap, Datas(inner.heap)
      ensures Valid()
      ensures Contents() == if ok then old(Contents()) + [element] else old(Contents())
      ensures !ok ==> !memory
    {
      hide ReaderWriterQueue.Ready, Logged, Represents, Holds;
      ok := inner.Enqueue(element, memory);
      assert (this as object) !in inner.heap && (this as object) !in Datas(inner.heap);
      if ok {
        sema := sema + 1;
      }
    }

    /** Lines 861-870. A token promises an element, so the inner call succeeds. */
    method TryDequeue() returns (r: Option<T>)
      requires Valid()
      modifies this, inner, inner.heap, Datas(inner.heap)
      ensures Valid()
      ensures r.None? ==> old(Contents()) == [] == Contents()
      ensures r.Some? ==> old(Contents()) == [r.value] + Contents()
    {
      hide ReaderWriterQueue.Ready, Logged, Represents, Holds;
      if sema == 0 {
        return None;
      }
      sema := sema - 1;
      r := inner.TryDequeue();
      assert r.Some?;  // line 865
    }

    /** Lines 934-943. */
    method Pop() returns (ok: bool)
      requires Valid()
      modifies this, inner, inner.heap, Datas(inner.heap)
      ensures Valid()
      ensures ok <==> old(Contents()) != []
      ensures Contents() == if ok then old(Contents())[1..] else []
    {
      hide ReaderWriterQueue.Ready, Logged, Represents, Holds;
      if sema == 0 {
        return false;
      }
      sema := sema - 1;
      ok := inner.Pop();
      assert ok;  // line 938
    }

    /** Lines 926-929. */
    method Peek() returns (r: Option<T>)
      requires Valid()
      modifies inner`w, inner`acts, inner.heap
      ensures Valid() && Contents() == old(Contents())
      ensures r.None? <==> Contents() == []
      ensures r.Some? ==> Contents() != [] && r.value == Contents()[0]
    {
      hide ReaderWriterQueue.Ready, Logged, Represents, Holds;
      r := inner.Peek();
    }

    /** Lines 947-950. */
    method SizeApprox() returns (n: nat)
      requires Valid()
      ensures n == |Contents()|
    {
      n := sema;
    }
  }
}
