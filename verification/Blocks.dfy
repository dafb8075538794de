/** One block of the queue: a circular buffer of `sizeMask + 1` slots, one of them always wasted. */
module Blocks {
  import opened Bits

  /** A slot of raw memory. `alive` says whether an object is constructed there; `value` is the bit
      pattern the memory holds, which outlives the object. */
  datatype Cell<T> = Cell(value: T, alive: bool)

  /** `front` and `localTail` are written by the consumer only, `tail`, `localFront` and `next` by
      the producer only. `next` is the id of a block. */
  datatype Block<T> = Block(
    front: nat, localTail: nat, tail: nat, localFront: nat,
    next: nat, sizeMask: nat, data: seq<Cell<T>>)

  /** `(i + 1) & mask`. */
  function After(i: nat, mask: nat): nat {
    BitAnd(i + 1, mask)
  }

  /** The number of slots from `i` up to, not including, `j`, going round. */
  function Gap(i: nat, j: nat, mask: nat): (d: nat)
    requires i <= mask && j <= mask
    ensures d <= mask
  {
    if i <= j then j - i else j + mask + 1 - i
  }

  /** The slot `k` places after `i`. */
  function Slot(i: nat, k: nat, mask: nat): (j: nat)
    requires i <= mask && k <= mask
    ensures j <= mask && Gap(i, j, mask) == k
  {
    if i + k <= mask then i + k else i + k - mask - 1
  }

  predicate Indexed<T>(b: Block<T>) {
    && b.front <= b.sizeMask && b.tail <= b.sizeMask
    && b.localFront <= b.sizeMask && b.localTail <= b.sizeMask
    && |b.data| == b.sizeMask + 1
  }

  /** The shadow copies lag behind what they copy, never run ahead: `localFront`, `front`,
      `localTail`, `tail` come in this cyclic order. */
  ghost predicate Sound<T>(b: Block<T>) {
    && Indexed(b)
    && b.sizeMask >= 1 && IsPow2(b.sizeMask + 1)
    && Gap(b.localFront, b.front, b.sizeMask) + Gap(b.front, b.tail, b.sizeMask)
       == Gap(b.localFront, b.tail, b.sizeMask)
    && Gap(b.front, b.localTail, b.sizeMask) <= Gap(b.front, b.tail, b.sizeMask)
  }

  function Len<T>(b: Block<T>): nat
    requires Indexed(b)
  {
    Gap(b.front, b.tail, b.sizeMask)
  }

  /** The values from `front` up to `tail`. */
  function Items<T>(b: Block<T>): (s: seq<T>)
    requires Indexed(b)
    ensures |s| == Len(b)
  {
    seq(Len(b), k requires 0 <= k < Len(b) => b.data[Slot(b.front, k, b.sizeMask)].value)
  }

  /** Exactly the slots from `front` up to `tail` hold objects, except that the consumer may already
      have destroyed the one at `front` (`hole`) and the producer may already have constructed the
      one at `tail` (`extra`). */
  predicate CellsOk<T>(b: Block<T>, hole: bool, extra: bool)
    requires Indexed(b)
  {
    forall k :: 0 <= k <= b.sizeMask ==>
      (b.data[k].alive <==>
       || (Gap(b.front, k, b.sizeMask) < Len(b) && !(hole && k == b.front))
       || (extra && k == b.tail))
  }

  lemma AfterIs<T>(b: Block<T>)
    requires Sound(b)
    ensures After(b.front, b.sizeMask) == if b.front == b.sizeMask then 0 else b.front + 1
    ensures After(b.tail, b.sizeMask) == if b.tail == b.sizeMask then 0 else b.tail + 1
  {
    MaskedSuccessor(b.front, b.sizeMask);
    MaskedSuccessor(b.tail, b.sizeMask);
  }

  // ----- What can go wrong ------------------------------------------------------------------------

  datatype Failure = AssertFailed | BadPointer | ConstructedTwice | DestroyedTwice

  // ----- What the four writes do to one block ---------------------------------------------------

  /** Constructing at `tail`: not visible yet. */
  function Constructed<T>(b: Block<T>, x: T): Block<T>
    requires b.tail < |b.data|
  {
    b.(data := b.data[b.tail := Cell(x, true)])
  }

  /** Storing `tail`: publishes the slot constructed last. */
  function Published<T>(b: Block<T>): Block<T> {
    b.(tail := After(b.tail, b.sizeMask))
  }

  /** Moving the value out of the slot at `front` and destroying the object. */
  function Destroyed<T>(b: Block<T>): Block<T>
    requires b.front < |b.data|
  {
    b.(data := b.data[b.front := b.data[b.front].(alive := false)])
  }

  /** Storing `front`: gives the slot back to the producer. */
  function Released<T>(b: Block<T>): Block<T> {
    b.(front := After(b.front, b.sizeMask))
  }

  lemma ConstructedOk<T>(b: Block<T>, x: T, hole: bool)
    requires Sound(b) && CellsOk(b, hole, false)
    ensures !b.data[b.tail].alive
    ensures var c := Constructed(b, x);
      Sound(c) && CellsOk(c, hole, true) && Items(c) == Items(b) && Len(c) == Len(b) && c.data[c.tail].value == x
  {
    var c := Constructed(b, x);
    assert Items(c) == Items(b);
  }

  lemma PublishedOk<T>(b: Block<T>, hole: bool)
    requires Sound(b) && CellsOk(b, hole, true) && After(b.tail, b.sizeMask) != b.localFront
    requires hole ==> Len(b) > 0
    ensures var c := Published(b);
      && Sound(c) && CellsOk(c, hole, false) && Len(c) == Len(b) + 1
      && Items(c) == Items(b) + [b.data[b.tail].value]
  {
    AfterIs(b);
    var c := Published(b);
    assert Len(c) == Len(b) + 1;
    assert Items(c) == Items(b) + [b.data[b.tail].value];
  }

  lemma DestroyedOk<T>(b: Block<T>, extra: bool)
    requires Sound(b) && CellsOk(b, false, extra) && Len(b) > 0
    ensures b.data[b.front].alive
    ensures var c := Destroyed(b);
      Sound(c) && CellsOk(c, true, extra) && Items(c) == Items(b) && Len(c) == Len(b)
  {
    var c := Destroyed(b);
    assert Items(c) == Items(b);
  }

  lemma ReleasedItems<T>(b: Block<T>, c: Block<T>)
    requires Indexed(b) && Indexed(c) && c == b.(front := c.front) && Len(b) > 0
    requires c.front == if b.front == b.sizeMask then 0 else b.front + 1
    ensures Items(c) == Items(b)[1..]
  {
    assert Items(c) == Items(b)[1..];
  }

  lemma ReleasedOk<T>(b: Block<T>, extra: bool)
    requires Sound(b) && CellsOk(b, true, extra) && Len(b) > 0 && Gap(b.front, b.localTail, b.sizeMask) > 0
    ensures var c := Released(b);
      Sound(c) && CellsOk(c, false, extra) && Len(c) == Len(b) - 1 && Items(c) == Items(b)[1..]
  {
    AfterIs(b);
    var c := Released(b);
    assert Len(c) == Len(b) - 1;
    ReleasedItems(b, c);
  }

  /** Refreshing a shadow copy. */
  lemma RefreshedOk<T>(b: Block<T>)
    requires Sound(b)
    ensures Sound(b.(localTail := b.tail)) && Sound(b.(localFront := b.front))
    ensures Items(b.(localTail := b.tail)) == Items(b) == Items(b.(localFront := b.front))
  {
    assert Items(b.(localTail := b.tail)) == Items(b);
    assert Items(b.(localFront := b.front)) == Items(b);
  }

  /** The room test of the producer is exact once `localFront` is up to date, and safe before. */
  lemma RoomTest<T>(b: Block<T>)
    requires Sound(b)
    ensures After(b.tail, b.sizeMask) <= b.sizeMask
    ensures After(b.tail, b.sizeMask) == b.front <==> Len(b) == b.sizeMask
    ensures After(b.tail, b.sizeMask) == b.front ==> After(b.tail, b.sizeMask) == b.localFront
  {
    AfterIs(b);
  }
}
