/** The blocks of the queue on the heap: each with its array of cells, linked in a circle. `heap` lists
    the blocks by id, so that they can be compared with those of the step system; every write of the
    source is one method here. */
module BlockHeap {
  import opened Allocation
  import opened Bits
  import B = Blocks
  import opened QueueSteps
  import opened QueueInvariant

  class Block<T> {
    var front: nat
    var localTail: nat
    var tail: nat
    var localFront: nat
    var next: Block?<T>
    const sizeMask: nat
    const data: array<B.Cell<T>>

    /** The block as a value, its link aside. */
    ghost function View(): B.Block<T>
      reads `front, `localTail, `tail, `localFront, data
    {
      B.Block(front, localTail, tail, localFront, 0, sizeMask, data[..])
    }

    /** `make_block`. */
    constructor (types: Types, size: nat, unset: T)
      ensures fresh(data) && next == null && View() == MakeBlock(types, size, unset)
    {
      front, localTail, tail, localFront, next := 0, 0, 0, 0, null;
      sizeMask := Decrement(size);
      data := new B.Cell<T>[BlockCells(types, size)](_ => B.Cell(unset, false));
      new;
      assert data[..] == seq(BlockCells(types, size), _ => B.Cell(unset, false));
    }

    /** The block is what the step system says, and so is its link, `heap` being all blocks by id. */
    ghost predicate Is(b: B.Block<T>, heap: seq<Block<T>>)
      reads this, data
    {
      View() == b.(next := 0) && b.next < |heap| && next == heap[b.next]
    }
  }

  ghost function Datas<T>(heap: seq<Block<T>>): set<array<B.Cell<T>>> {
    set b | b in heap :: b.data
  }

  ghost predicate Distinct<T>(heap: seq<Block<T>>) {
    forall i, j :: 0 <= i < j < |heap| ==> heap[i] != heap[j] && heap[i].data != heap[j].data
  }

  ghost predicate Represents<T>(heap: seq<Block<T>>, blocks: seq<B.Block<T>>)
    reads heap, Datas(heap)
  {
    && |heap| == |blocks| && Distinct(heap)
    && forall id :: 0 <= id < |heap| ==> heap[id].Is(blocks[id], heap)
  }

  lemma BlockAt<T>(heap: seq<Block<T>>, blocks: seq<B.Block<T>>, id: nat)
    requires Represents(heap, blocks) && id < |heap|
    ensures |heap| == |blocks| && heap[id].Is(blocks[id], heap)
    ensures var b, c := heap[id], blocks[id];
      && b.front == c.front && b.localTail == c.localTail && b.tail == c.tail && b.localFront == c.localFront
      && b.sizeMask == c.sizeMask && b.data[..] == c.data && c.next < |heap| && b.next == heap[c.next]
    ensures forall i :: 0 <= i < |heap| && heap[i] == heap[id] ==> i == id
  {
  }

  /** Following a link. */
  method Follow<T>(b: Block<T>, ghost heap: seq<Block<T>>, ghost blocks: seq<B.Block<T>>, ghost id: nat)
    returns (n: Block<T>)
    requires Represents(heap, blocks) && id < |heap| && heap[id] == b
    ensures blocks[id].next < |heap| && n == heap[blocks[id].next]
  {
    hide Block.View;
    assert heap[id].Is(blocks[id], heap);
    n := b.next;
  }

  // ----- The writes, one by one --------------------------------------------------------------------

  /** `result = std::move(*element); element->~T();`. The object must be alive. */
  method MoveOut<T>(b: Block<T>, ghost heap: seq<Block<T>>, ghost blocks: seq<B.Block<T>>, ghost id: nat) returns (x: T)
    requires Represents(heap, blocks) && id < |heap| && heap[id] == b
    requires blocks[id].front < |blocks[id].data| && blocks[id].data[blocks[id].front].alive
    modifies b.data
    ensures Represents(heap, blocks[id := B.Destroyed(blocks[id])])
    ensures x == blocks[id].data[blocks[id].front].value
  {
    assert b.Is(blocks[id], heap);
    x := b.data[b.front].value;
    b.data[b.front] := b.data[b.front].(alive := false);
  }

  method StoreFront<T>(b: Block<T>, ghost heap: seq<Block<T>>, ghost blocks: seq<B.Block<T>>, ghost id: nat)
    requires Represents(heap, blocks) && id < |heap| && heap[id] == b
    modifies b`front
    ensures Represents(heap, blocks[id := B.Released(blocks[id])])
  {
    hide B.After;
    assert b.Is(blocks[id], heap);
    b.front := B.After(b.front, b.sizeMask);
  }

  /** `new (location) T(element)`. The memory must be raw. */
  method ConstructAt<T>(b: Block<T>, x: T, ghost heap: seq<Block<T>>, ghost blocks: seq<B.Block<T>>, ghost id: nat)
    requires Represents(heap, blocks) && id < |heap| && heap[id] == b
    requires blocks[id].tail < |blocks[id].data| && !blocks[id].data[blocks[id].tail].alive
    modifies b.data
    ensures Represents(heap, blocks[id := B.Constructed(blocks[id], x)])
  {
    assert b.Is(blocks[id], heap);
    b.data[b.tail] := B.Cell(x, true);
  }

  method StoreTail<T>(b: Block<T>, ghost heap: seq<Block<T>>, ghost blocks: seq<B.Block<T>>, ghost id: nat)
    requires Represents(heap, blocks) && id < |heap| && heap[id] == b
    modifies b`tail
    ensures Represents(heap, blocks[id := B.Published(blocks[id])])
  {
    hide B.After;
    assert b.Is(blocks[id], heap);
    b.tail := B.After(b.tail, b.sizeMask);
  }

  /** `localTail = tail`. */
  method CopyTail<T>(b: Block<T>, ghost heap: seq<Block<T>>, ghost blocks: seq<B.Block<T>>, ghost id: nat)
    requires Represents(heap, blocks) && id < |heap| && heap[id] == b
    modifies b`localTail
    ensures Represents(heap, blocks[id := blocks[id].(localTail := blocks[id].tail)])
  {
    assert b.Is(blocks[id], heap);
    b.localTail := b.tail;
  }

  /** `localFront = front`. */
  method CopyFront<T>(b: Block<T>, ghost heap: seq<Block<T>>, ghost blocks: seq<B.Block<T>>, ghost id: nat)
    requires Represents(heap, blocks) && id < |heap| && heap[id] == b
    modifies b`localFront
    ensures Represents(heap, blocks[id := blocks[id].(localFront := blocks[id].front)])
  {
    assert b.Is(blocks[id], heap);
    b.localFront := b.front;
  }

  /** Lines 606-621: a new block with its first element in place and its link set. */
  method MakeFirst<T>(types: Types, size: nat, unset: T, x: T, next: Block<T>, ghost heap: seq<Block<T>>,
                      ghost nextId: nat)
    returns (newBlock: Block<T>)
    requires BlockCells(types, size) >= 1 && nextId < |heap| && heap[nextId] == next
    ensures fresh(newBlock) && fresh(newBlock.data)
    ensures newBlock.Is(
      B.Constructed(MakeBlock(types, size, unset), x).(tail := 1, localTail := 1, next := nextId), heap)
  {
    newBlock := new Block(types, size, unset);
    newBlock.data[0] := B.Cell(x, true);
    assert newBlock.front == 0;  // line 618
    newBlock.tail, newBlock.localTail := 1, 1;
    newBlock.next := next;
  }

  method SetNext<T>(b: Block<T>, newBlock: Block<T>, ghost c: B.Block<T>, ghost heap: seq<Block<T>>, ghost n: nat)
    requires b.Is(c, heap) && n < |heap| && heap[n] == newBlock
    modifies b`next
    ensures b.Is(c.(next := n), heap)
  {
    b.next := newBlock;
  }

  lemma InLarger<T>(heap: seq<Block<T>>, blocks: seq<B.Block<T>>, newBlock: Block<T>, made: B.Block<T>)
    requires Represents(heap, blocks) && newBlock.Is(made, heap)
    ensures forall i :: 0 <= i < |heap| ==> heap[i].Is(blocks[i], heap + [newBlock])
    ensures newBlock.Is(made, heap + [newBlock])
  {
    hide Block.View;
  }

  lemma Extended<T>(heap: seq<Block<T>>, blocks: seq<B.Block<T>>, newBlock: Block<T>, made: B.Block<T>)
    requires |heap| == |blocks| && Distinct(heap) && newBlock.Is(made, heap + [newBlock])
    requires forall i :: 0 <= i < |heap| ==> heap[i].Is(blocks[i], heap + [newBlock])
    requires forall i :: 0 <= i < |heap| ==> heap[i] != newBlock && heap[i].data != newBlock.data
    ensures Represents(heap + [newBlock], blocks + [made])
  {
    hide Block.Is;
  }

  /** Line 622: the tail block's link. */
  method LinkBehind<T>(b: Block<T>, newBlock: Block<T>, ghost heap: seq<Block<T>>, ghost blocks: seq<B.Block<T>>,
                       ghost id: nat, ghost made: B.Block<T>)
    requires Represents(heap, blocks) && id < |heap| && heap[id] == b && newBlock.Is(made, heap)
    requires forall i :: 0 <= i < |heap| ==> heap[i] != newBlock && heap[i].data != newBlock.data
    modifies b`next
    ensures Represents(heap + [newBlock], blocks[id := blocks[id].(next := |blocks|)] + [made])
  {
    hide Block.Is;
    ghost var n := |heap|;
    ghost var heap' := heap + [newBlock];
    InLarger(heap, blocks, newBlock, made);
    SetNext(b, newBlock, blocks[id], heap', n);
    assert forall i :: 0 <= i < n && i != id ==> heap[i].Is(blocks[i], heap');
    Extended(heap, blocks[id := blocks[id].(next := n)], newBlock, made);
  }

  // ----- The constructor's loop --------------------------------------------------------------------

  method FirstOfRing<T>(types: Types, size: nat, unset: T) returns (block: Block<T>)
    ensures Represents([block], RingOf(types, 1, size, unset)) && fresh(block) && fresh(block.data)
  {
    hide MakeBlock;
    block := new Block(types, size, unset);
    block.next := block;
    assert block.Is(MakeBlock(types, size, unset).(next := 0), [block]);
  }

  method NewLinked<T>(types: Types, size: nat, unset: T, first: Block<T>, ghost heap: seq<Block<T>>)
    returns (block: Block<T>)
    requires |heap| > 0 && heap[0] == first
    ensures fresh(block) && fresh(block.data) && block.Is(MakeBlock(types, size, unset).(next := 0), heap)
  {
    hide MakeBlock;
    block := new Block(types, size, unset);
    block.next := first;
  }

  lemma RingGrows<T>(types: Types, i: nat, size: nat, unset: T)
    requires i >= 1
    ensures |RingOf(types, i, size, unset)| == i
    ensures var ring := RingOf(types, i, size, unset);
      RingOf(types, i + 1, size, unset)
        == ring[i - 1 := ring[i - 1].(next := i)] + [MakeBlock(types, size, unset).(next := 0)]
  {
    hide MakeBlock;
  }

  method AddToRing<T>(types: Types, last: Block<T>, first: Block<T>, i: nat, size: nat, unset: T,
                      ghost heap: seq<Block<T>>)
    returns (block: Block<T>)
    requires i >= 1 && Represents(heap, RingOf(types, i, size, unset)) && |heap| == i && heap[0] == first
    requires heap[i - 1] == last
    modifies last`next
    ensures fresh(block) && fresh(block.data) && Represents(heap + [block], RingOf(types, i + 1, size, unset))
  {
    hide MakeBlock, Distinct;
    ghost var made := MakeBlock(types, size, unset).(next := 0);
    block := NewLinked(types, size, unset, first, heap);
    LinkBehind(last, block, heap, RingOf(types, i, size, unset), i - 1, made);
    RingGrows(types, i, size, unset);
  }

  /** Lines 126-143: link `count` new blocks in a circle. */
  method MakeRing<T>(types: Types, count: nat, size: nat, unset: T)
    returns (firstBlock: Block<T>, ghost heap: seq<Block<T>>)
    requires count >= 1
    ensures |heap| == count && heap[0] == firstBlock && Represents(heap, RingOf(types, count, size, unset))
    ensures forall k :: 0 <= k < count ==> fresh(heap[k]) && fresh(heap[k].data)
  {
    hide Block.Is, Block.View, MakeBlock, RingOf;
    firstBlock := FirstOfRing(types, size, unset);
    var lastBlock := firstBlock;
    heap := [firstBlock];
    var i := 1;
    while i != count
      invariant 1 <= i <= count && |heap| == i && heap[0] == firstBlock && heap[i - 1] == lastBlock
      invariant Represents(heap, RingOf(types, i, size, unset))
      invariant forall k :: 0 <= k < i ==> fresh(heap[k]) && fresh(heap[k].data)
    {
      var block := AddToRing(types, lastBlock, firstBlock, i, size, unset, heap);
      heap := heap + [block];
      lastBlock := block;
      i := i + 1;
    }
  }

  // ----- The destructor's loops --------------------------------------------------------------------

  ghost predicate AllDead<T>(b: Block<T>)
    reads b.data
  {
    forall k :: 0 <= k < b.data.Length ==> !b.data[k].alive
  }

  ghost predicate SoundAtRest<T>(b: B.Block<T>) {
    B.Indexed(b) && B.Sound(b) && B.CellsOk(b, false, false)
  }

  /** The first `n` elements are destroyed, the others still alive. */
  ghost predicate Walked<T>(view: B.Block<T>, cells: seq<B.Cell<T>>, n: nat)
    requires B.Indexed(view)
  {
    && |cells| == view.sizeMask + 1
    && (forall k :: 0 <= k <= view.sizeMask ==> cells[k].value == view.data[k].value)
    && (forall k :: 0 <= k <= view.sizeMask ==>
          (cells[k].alive <==> n <= B.Gap(view.front, k, view.sizeMask) < B.Len(view)))
  }

  lemma WalkStep<T>(view: B.Block<T>, cells: seq<B.Cell<T>>, n: nat)
    requires B.Sound(view) && Walked(view, cells, n) && n < B.Len(view)
    ensures var i := B.Slot(view.front, n, view.sizeMask);
      && cells[i].alive && cells[i].value == B.Items(view)[n]
      && Walked(view, cells[i := cells[i].(alive := false)], n + 1)
      && BitAnd(i + 1, view.sizeMask) == B.Slot(view.front, n + 1, view.sizeMask)
  {
    MaskedSuccessor(B.Slot(view.front, n, view.sizeMask), view.sizeMask);
  }

  /** Lines 215-219. */
  method DestroyElements<T>(block: Block<T>) returns (values: seq<T>)
    requires SoundAtRest(block.View())
    modifies block.data
    ensures values == old(B.Items(block.View()))
    ensures AllDead(block)
  {
    ghost var view, n := block.View(), 0;
    var i := block.front;
    values := [];
    assert Walked(view, block.data[..], 0);
    while i != block.tail
      invariant n <= B.Len(view) && i == B.Slot(view.front, n, view.sizeMask)
      invariant Walked(view, block.data[..], n) && values == B.Items(view)[..n]
      decreases B.Len(view) - n
    {
      hide Walked, B.Sound, B.Items;
      WalkStep(view, block.data[..], n);
      assert block.data[i].alive;  // not destroyed before
      values := values + [block.data[i].value];
      block.data[i] := block.data[i].(alive := false);
      i := BitAnd(i + 1, block.sizeMask);
      n := n + 1;
    }
  }

  lemma LinkAside<T>(b: B.Block<T>)
    requires SoundAtRest(b)
    ensures SoundAtRest(b.(next := 0)) && B.Items(b.(next := 0)) == B.Items(b)
  {
    assert B.Items(b.(next := 0)) == B.Items(b);
  }

  /** Lines 212-226. */
  method DestroyBlock<T>(block: Block<T>, ghost heap: seq<Block<T>>, ghost b: B.Block<T>)
    returns (values: seq<T>, nextBlock: Block<T>)
    requires block.Is(b, heap) && SoundAtRest(b)
    modifies block.data
    ensures values == B.Items(b) && AllDead(block) && nextBlock == heap[b.next]
  {
    hide B.Items, AllDead;
    LinkAside(b);
    nextBlock := block.next;
    values := DestroyElements(block);
  }

  /** The blocks visited so far hold no object any more. */
  ghost predicate Gone<T>(heap: seq<Block<T>>, ring: seq<nat>, freed: seq<Block<T>>)
    reads Datas(heap)
  {
    && |freed| <= |ring|
    && forall i :: 0 <= i < |freed| ==> ring[i] < |heap| && freed[i] == heap[ring[i]] && AllDead(heap[ring[i]])
  }

  /** The others are untouched. */
  ghost predicate Left<T>(heap: seq<Block<T>>, blocks: seq<B.Block<T>>, ring: seq<nat>, p: nat)
    reads heap, Datas(heap)
  {
    forall i :: p <= i < |ring| ==> ring[i] < |heap| == |blocks| && heap[ring[i]].Is(blocks[ring[i]], heap)
  }

  lemma NothingYet<T>(blocks: seq<B.Block<T>>, ring: seq<nat>)
    ensures Flat(blocks, ring[..0]) == []
  {
  }

  lemma NoneGone<T>(heap: seq<Block<T>>, blocks: seq<B.Block<T>>, ring: seq<nat>)
    requires Represents(heap, blocks) && Circle(blocks, ring)
    ensures Gone(heap, ring, []) && Left(heap, blocks, ring, 0)
  {
    hide Block.Is;
  }

  lemma FlatUpTo<T>(blocks: seq<B.Block<T>>, ring: seq<nat>, p: nat)
    requires p < |ring|
    ensures Flat(blocks, ring[..p + 1]) == Flat(blocks, ring[..p]) + ItemsOf(blocks, ring[p])
    ensures p + 1 == |ring| ==> ring[..p + 1] == ring
  {
    hide ItemsOf;
    assert ring[..p + 1] == ring[..p] + [ring[p]];
    FlatConcat(blocks, ring[..p], [ring[p]]);
    assert Flat(blocks, [ring[p]]) == ItemsOf(blocks, ring[p]) + Flat(blocks, []);
  }

  lemma ItemsAtRest<T>(blocks: seq<B.Block<T>>, id: nat)
    requires id < |blocks| && SoundAtRest(blocks[id])
    ensures ItemsOf(blocks, id) == B.Items(blocks[id])
  {
    hide B.Items;
  }

  lemma CircleAt<T>(heap: seq<Block<T>>, blocks: seq<B.Block<T>>, ring: seq<nat>, p: nat)
    requires Circle(blocks, ring) && |heap| == |blocks| && Distinct(heap) && p < |ring|
    ensures ring[p] < |blocks|
    ensures var next := blocks[ring[p]].next;
      && next < |heap| && (heap[next] == heap[ring[0]] <==> p + 1 == |ring|)
      && (p + 1 < |ring| ==> next == ring[p + 1])
  {
  }

  method DestroyNext<T>(block: Block<T>, ghost heap: seq<Block<T>>, ghost blocks: seq<B.Block<T>>, ghost ring: seq<nat>,
                        ghost freed: seq<Block<T>>)
    returns (values: seq<T>, nextBlock: Block<T>)
    requires Circle(blocks, ring) && |heap| == |blocks| && Distinct(heap) && |freed| < |ring|
    requires Gone(heap, ring, freed) && Left(heap, blocks, ring, |freed|)
    requires ring[|freed|] < |heap| && block == heap[ring[|freed|]] && SoundAtRest(blocks[ring[|freed|]])
    requires blocks[ring[|freed|]].next < |heap|
    modifies block.data
    ensures values == B.Items(blocks[ring[|freed|]]) && nextBlock == heap[blocks[ring[|freed|]].next]
    ensures Gone(heap, ring, freed + [block]) && Left(heap, blocks, ring, |freed| + 1)
  {
    hide Block.Is, Block.View, AllDead, SoundAtRest;
    ghost var p := |freed|;
    assert forall i :: 0 <= i < |ring| && i != p ==> heap[ring[i]] != block && heap[ring[i]].data != block.data;
    values, nextBlock := DestroyBlock(block, heap, blocks[ring[p]]);
  }

  lemma AllGone<T>(heap: seq<Block<T>>, blocks: seq<B.Block<T>>, ring: seq<nat>, freed: seq<Block<T>>)
    requires Circle(blocks, ring) && |heap| == |blocks| && Distinct(heap) && Gone(heap, ring, freed)
    requires |freed| == |ring|
    ensures Distinct(freed)
    ensures forall id :: 0 <= id < |heap| ==> heap[id] in freed && AllDead(heap[id])
  {
    hide AllDead;
    forall id | 0 <= id < |heap| ensures heap[id] in freed && AllDead(heap[id]) {
      var k: nat := id;
      assert k in ring;
      var i :| 0 <= i < |ring| && ring[i] == k;
      assert freed[i] == heap[id];
    }
  }

  /** Lines 210-227. */
  method DestroyRing<T>(first: Block<T>, ghost heap: seq<Block<T>>, ghost blocks: seq<B.Block<T>>, ghost ring: seq<nat>)
    returns (destroyed: seq<T>, ghost freed: seq<Block<T>>)
    requires Represents(heap, blocks) && Circle(blocks, ring) && heap[ring[0]] == first
    requires forall id :: 0 <= id < |blocks| ==> SoundAtRest(blocks[id])
    modifies Datas(heap)
    ensures destroyed == Flat(blocks, ring)
    ensures |freed| == |heap| && Distinct(freed)
    ensures forall id :: 0 <= id < |heap| ==> heap[id] in freed && AllDead(heap[id])
  {
    hide Block.Is, Block.View, AllDead, SoundAtRest, Flat, ItemsOf, Gone, Left;
    NoneGone(heap, blocks, ring);
    var block := first;
    destroyed, freed := [], [];
    NothingYet(blocks, ring);
    while true
      invariant |freed| < |ring| && block == heap[ring[|freed|]]
      invariant destroyed == Flat(blocks, ring[..|freed|])
      invariant Gone(heap, ring, freed) && Left(heap, blocks, ring, |freed|)
      decreases |ring| - |freed|
    {
      ghost var p := |freed|;
      FlatUpTo(blocks, ring, p);
      ItemsAtRest(blocks, ring[p]);
      CircleAt(heap, blocks, ring, p);
      var values, nextBlock := DestroyNext(block, heap, blocks, ring, freed);
      destroyed, freed := destroyed + values, freed + [block];
      block := nextBlock;
      if block == first {
        break;
      }
    }
    AllGone(heap, blocks, ring, freed);
  }
}
