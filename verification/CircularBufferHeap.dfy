/** `BlockingReaderWriterCircularBuffer` as an object over an array. Here one thread makes every call,
    and a semaphore is the number of its tokens: `SemaphoreHeap` shows that a call takes or gives one.
    `CircularBuffer` is about two threads. */
module CircularBufferHeap {
  import opened Allocation
  import opened Bits
  import opened Blocks
  import opened Options
  import opened CircularBuffer
  import Sem = Semaphore

  /** The first `i` items from `nextItem` on are destroyed, the others still there. */
  ghost predicate Emptied<T>(s: System<T>, cells: seq<Cell<T>>, i: nat)
    requires Shape(s.b)
  {
    if s.b.maxcap == 0 then cells == [] == s.b.cells
    else
      var front, length := |s.taken| % Size(s.b), |s.put| - |s.taken|;
      && |cells| == |s.b.cells| == s.b.mask + 1
      && (forall c :: 0 <= c <= s.b.mask ==> cells[c].value == s.b.cells[c].value)
      && (forall c :: 0 <= c <= s.b.mask ==> (cells[c].alive <==> i <= Gap(front, c, s.b.mask) < length))
  }

  lemma NothingEmptied<T>(s: System<T>)
    requires Shape(s.b) && Counters(s) && Cells(s) && (s.b.maxcap == 0 ==> |s.b.cells| == 0)
    ensures Emptied(s, s.b.cells, 0)
  {
  }

  lemma EmptyOne<T>(s: System<T>, cells: seq<Cell<T>>, i: nat)
    requires Shape(s.b) && Counters(s) && Cells(s)
    requires Emptied(s, cells, i) && i < |s.put| - |s.taken|
    ensures var c := BitAnd((s.b.nextItem + i) % WORD, s.b.mask);
      && c < |cells| && cells[c] == Cell(s.put[|s.taken| + i], true)
      && Emptied(s, cells[c := cells[c].(alive := false)], i + 1)
  {
    DestroyedCellIs(s, i);
    GapFull(|s.taken| % Size(s.b), i, s.b.mask);
  }

  lemma AllEmptied<T>(s: System<T>, cells: seq<Cell<T>>)
    requires Shape(s.b) && Counters(s) && Emptied(s, cells, |s.put| - |s.taken|)
    ensures forall c :: 0 <= c < |cells| ==> !cells[c].alive
  {
  }

  lemma NothingAlive<T>(s: System<T>)
    requires Shape(s.b) && Counters(s) && s.put == s.taken
    requires forall c :: 0 <= c < |s.b.cells| ==> !s.b.cells[c].alive
    ensures Cells(s)
  {
  }

  lemma SameSlots<T>(s: System<T>, s': System<T>)
    requires Shape(s.b) && Counters(s) && Cells(s)
    requires s' == s.(b := s.b.(slots := s'.b.slots, items := s'.b.items))
    ensures Shape(s'.b) && Counters(s') && Cells(s')
  {
    assert Shape(s'.b);
  }

  class BlockingReaderWriterCircularBuffer<T> {
    const maxcap: nat
    const mask: nat
    const data: array<Cell<T>>
    var slots: nat      // slots_
    var items: nat
    var nextSlot: nat
    var nextItem: nat

    /** Everything put in and everything taken out so far. */
    ghost var put: seq<T>
    ghost var taken: seq<T>

    /** The buffer and its history as `CircularBuffer` sees them. */
    ghost function View(): System<T>
      reads this, data
    {
      System(Buffer(maxcap, mask, data[..], Sem.Start(slots), Sem.Start(items), nextSlot, nextItem,
                    Enqueuer.Ready(false), Dequeuer.Ready(None)), put, taken)
    }

    ghost predicate Valid()
      reads this, data
    {
      && Shape(View().b) && Counters(View()) && Cells(View())
      && items == |put| - |taken| && slots + items == maxcap
      && (maxcap == 0 ==> data.Length == 0)
    }

    ghost function Contents(): seq<T>
      reads this
    {
      if |taken| <= |put| then put[|taken|..] else []
    }

    /** Lines 34-51, with the assertion of the semaphore's constructor. The object is the start of a run of
        the step system; it is in order, and may be used, if the arguments are such that no run goes wrong:
        see `CircularSafeSizes`. */
    constructor (element: CppType, capacity: nat, unset: T, memory: bool)
      requires capacity < WORD / 2
      ensures View() == Start(element, capacity, unset, memory) && fresh(data)
      ensures Constructible(element, capacity, memory) ==> Valid() && Contents() == []
    {
      hide LeastPow2, Cells, RingCells, RingSize;
      var rounded := CeilToPow2(capacity);
      maxcap := capacity;
      mask := Decrement(rounded);
      data := new Cell<T>[RingCells(element, rounded, memory)](_ => Cell(unset, false));
      slots, items, nextSlot, nextItem := capacity, 0, 0, 0;
      put, taken := [], [];
      new;
      if capacity == 0 {
        WordIsPow2();
      } else {
        RoundedCapacity(capacity);
        RingCellsExactly(element, rounded, memory);
      }
      assert data[..] == Start(element, capacity, unset, memory).b.cells;
      if Constructible(element, capacity, memory) {
        assert Shape(View().b);
        NothingAlive(View());
      }
    }

    /** Line 253 and on: the caller has been granted a slot. */
    method InnerEnqueue(item: T)
      requires Shape(View().b) && Counters(View()) && Cells(View())
      requires items == |put| - |taken| && slots + items + 1 == maxcap
      modifies this, data
      ensures Valid() && put == old(put) + [item] && taken == old(taken)
    {
      hide Cells;
      WrappedIndex(|put|, mask);
      IndexInRange(|put|, mask + 1);
      var i := nextSlot;
      nextSlot := Increment(nextSlot);
      ghost var before := old(View());
      ghost var cells := before.b.cells[|put| % Size(before.b) := Cell(item, true)];
      FillCells(before, item, before.b.(cells := cells, nextSlot := nextSlot));
      assert !data[BitAnd(i, mask)].alive;  // raw memory
      data[BitAnd(i, mask)] := Cell(item, true);
      items := items + 1;
      put := put + [item];
      assert data[..] == cells;
      SameSlots(System(before.b.(cells := cells, nextSlot := nextSlot), put, taken), View());
    }

    /** Lines 261-266: the caller has been granted an item. */
    method InnerDequeue() returns (item: T)
      requires Shape(View().b) && Counters(View()) && Cells(View())
      requires items + 1 == |put| - |taken| && slots + items + 1 == maxcap
      modifies this, data
      ensures Valid() && put == old(put) && taken == old(taken) + [item]
    {
      hide Cells;
      WrappedIndex(|taken|, mask);
      IndexInRange(|taken|, mask + 1);
      var i := nextItem;
      nextItem := Increment(nextItem);
      ghost var before := old(View());
      ghost var c := |taken| % Size(before.b);
      ghost var cells := before.b.cells[c := before.b.cells[c].(alive := false)];
      EmptyCells(before, before.b.(cells := cells, nextItem := nextItem));
      assert data[BitAnd(i, mask)].alive;  // an object
      item := data[BitAnd(i, mask)].value;
      data[BitAnd(i, mask)] := data[BitAnd(i, mask)].(alive := false);
      slots := slots + 1;
      taken := taken + [item];
      assert data[..] == cells;
      SameSlots(System(before.b.(cells := cells, nextItem := nextItem), put, taken), View());
    }

    method TryEnqueue(item: T) returns (ok: bool)
      requires Valid()
      modifies this, data
      ensures Valid()
      ensures ok <==> |old(Contents())| < maxcap
      ensures Contents() == if ok then old(Contents()) + [item] else old(Contents())
    {
      hide Cells, Shape, Counters;
      if slots == 0 { return false; }
      slots := slots - 1;
      SameSlots(old(View()), View());
      InnerEnqueue(item);
      return true;
    }

    method TryDequeue() returns (r: Option<T>)
      requires Valid()
      modifies this, data
      ensures Valid()
      ensures r.None? ==> old(Contents()) == [] == Contents()
      ensures r.Some? ==> old(Contents()) == [r.value] + Contents()
    {
      hide Cells, Shape;
      if items == 0 { return None; }
      items := items - 1;
      SameSlots(old(View()), View());
      var item := InnerDequeue();
      return Some(item);
    }

    method SizeApprox() returns (n: nat)
      requires Valid()
      ensures n == |Contents()| <= maxcap
    {
      n := items;
    }

    /** The destructor, lines 66-71: it destroys what the buffer holds, in order, and nothing is left. */
    method Destruct() returns (destroyed: seq<T>)
      requires Valid()
      modifies data
      ensures destroyed == old(Contents())
      ensures forall c :: 0 <= c < data.Length ==> !data[c].alive
    {
      hide Shape, Counters, Cells, Emptied, DestroyedCell;
      ghost var s := View();
      var i := 0;
      destroyed := [];
      NothingEmptied(s);
      while i != items
        invariant 0 <= i <= items && destroyed == put[|taken|..|taken| + i] && Emptied(s, data[..], i)
      {
        EmptyOne(s, data[..], i);
        var at := BitAnd((nextItem + i) % WORD, mask);
        assert data[at].alive;  // not destroyed before
        destroyed := destroyed + [data[at].value];
        data[at] := data[at].(alive := false);
        i := i + 1;
      }
      AllEmptied(s, data[..]);
    }
  }
}
