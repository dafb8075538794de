/** Where `make_block` and the circular buffer put their elements inside the memory they ask for, and
    how many cells that memory has: fewer than they count on if the size they compute has wrapped. */
module Allocation {
  import opened Bits

  // ----- Types ------------------------------------------------------------------------------------

  /** Size and alignment of a C++ type. */
  datatype Layout = Layout(size: nat, alignment: nat)

  /** No type is empty, and a single object with its padding fits into memory. */
  type CppType = l: Layout | l.size >= 1 && l.alignment >= 1 && l.size + l.alignment <= WORD witness Layout(8, 8)

  datatype Layouts = Layouts(block: CppType, element: CppType)

  /** `Block` and `T`: there is memory for a block of one element. */
  type Types = t: Layouts |
      t.block.size + t.block.alignment + t.element.size + t.element.alignment <= WORD
    witness Layouts(Layout(256, 64), Layout(8, 8))

  // ----- Arithmetic -------------------------------------------------------------------------------

  lemma ProductMonotone(m: nat, n: nat, s: nat)
    requires m <= n
    ensures m * s <= n * s
  {
    DistributeSub(n, m, s);
  }

  lemma OneLess(n: nat, s: nat)
    requires n >= 1
    ensures (n - 1) * s == n * s - s
  {
  }

  lemma Distribute(p: nat, i: nat, q: nat, a: nat)
    ensures p * a + i * (q * a) == (p + i * q) * a
  {
    assert i * (q * a) == (i * q) * a;
  }

  lemma SumAligned(d: nat, s: nat, a: nat, i: nat)
    requires a >= 1 && d % a == 0 && s % a == 0
    ensures (d + i * s) % a == 0
  {
    var p, q := d / a, s / a;
    assert d == p * a && s == q * a;
    Distribute(p, i, q, a);
    ModUnique(d + i * s, a, p + i * q, 0);
  }

  lemma WrapsBelow(size: nat)
    ensures size < WORD ==> size % WORD == size
    ensures size >= WORD ==> size % WORD + WORD <= size
  {
    if size >= WORD {
      var q := size / WORD;
      assert size == q * WORD + size % WORD;
      MulAtLeast(q, WORD);
    } else {
      ModUnique(size, WORD, 0, size);
    }
  }

  // ----- Cells ------------------------------------------------------------------------------------

  /** How many of `n` cells of `size` bytes there are in `bytes` bytes. */
  function CellsIn(bytes: nat, size: nat, n: nat): (cells: nat)
    requires size >= 1
    ensures cells <= n
  {
    if n <= bytes / size then n else bytes / size
  }

  lemma CellsInMeans(bytes: nat, size: nat, n: nat, i: nat)
    requires size >= 1 && i < n
    ensures i < CellsIn(bytes, size, n) <==> (i + 1) * size <= bytes
  {
    var q := bytes / size;
    assert bytes == q * size + bytes % size;
    if i < q {
      ProductMonotone(i + 1, q, size);
    } else {
      ProductMonotone(q, i, size);
      DistributeSub(i + 1, 1, size);
    }
  }

  lemma AllCells(bytes: nat, size: nat, n: nat)
    requires size >= 1
    ensures CellsIn(bytes, size, n) == n <==> n * size <= bytes
    ensures n >= 1 && (n - 1) * size > bytes ==> CellsIn(bytes, size, n) + 1 < n
  {
    if n >= 1 {
      CellsInMeans(bytes, size, n, n - 1);
      if n >= 2 {
        CellsInMeans(bytes, size, n, n - 2);
      }
    }
  }

  // ----- One block of the queue -------------------------------------------------------------------

  lemma UpIsAligned(address: nat, alignment: nat)
    requires alignment >= 1
    ensures var up := (alignment - address % alignment) % alignment;
      up < alignment && (address + up) % alignment == 0
  {
    var q, r := address / alignment, address % alignment;
    assert address == q * alignment + r;
    if r == 0 {
      ModUnique(alignment, alignment, 1, 0);
      ModUnique(address, alignment, q, 0);
    } else {
      ModUnique(alignment - r, alignment, 0, alignment - r);
      assert address + (alignment - r) == (q + 1) * alignment;
      ModUnique(address + (alignment - r), alignment, q + 1, 0);
    }
  }

  /** `align_for`: the next address at or after `address` that is a multiple of `alignment`. */
  function AlignFor(address: nat, alignment: nat): (aligned: nat)
    requires alignment >= 1
    ensures address <= aligned < address + alignment
    ensures aligned % alignment == 0
  {
    var up := (alignment - address % alignment) % alignment;
    UpIsAligned(address, alignment);
    address + up
  }

  /** The argument of `malloc` on line 733, before it wraps. */
  function MallocSize(t: Types, capacity: nat): nat {
    (t.block.size + t.block.alignment - 1) + (capacity * t.element.size + t.element.alignment - 1)
  }

  /** What malloc is asked for: `size` on lines 731-732 is a `size_t`. */
  function Requested(t: Types, capacity: nat): nat {
    MallocSize(t, capacity) % WORD
  }

  function Header(t: Types, raw: nat): nat {
    AlignFor(raw, t.block.alignment)
  }

  function Data(t: Types, raw: nat): nat {
    AlignFor(Header(t, raw) + t.block.size, t.element.alignment)
  }

  /** `block->data + i * sizeof(T)`. */
  function Element(t: Types, raw: nat, i: nat): nat {
    Data(t, raw) + i * t.element.size
  }

  lemma ElementBefore(t: Types, raw: nat, i: nat, n: nat)
    requires i < n
    ensures Element(t, raw, 0) == Data(t, raw)
    ensures Element(t, raw, i) + t.element.size <= Element(t, raw, n) == Data(t, raw) + n * t.element.size
    ensures i + 1 == n ==> Element(t, raw, i) + t.element.size == Element(t, raw, n)
  {
    hide Data;
    ProductMonotone(i + 1, n, t.element.size);
    DistributeSub(i + 1, 1, t.element.size);
  }

  /** Wherever `malloc` puts the memory, header and elements are aligned, lie inside it, and overlap
      neither each other nor among themselves. In C++ the size of a type is a multiple of its
      alignment. */
  lemma BlockFits(t: Types, raw: nat, capacity: nat, i: nat)
    requires i < capacity && t.element.size % t.element.alignment == 0
    ensures raw <= Header(t, raw) && Header(t, raw) % t.block.alignment == 0
    ensures Header(t, raw) + t.block.size <= Element(t, raw, 0)
    ensures Element(t, raw, i) % t.element.alignment == 0
    ensures Element(t, raw, i) + t.element.size <= raw + MallocSize(t, capacity)
    ensures forall j :: 0 <= j < i ==> Element(t, raw, j) + t.element.size <= Element(t, raw, i)
  {
    hide AlignFor;
    SumAligned(Data(t, raw), t.element.size, t.element.alignment, i);
    hide Element;
    ElementBefore(t, raw, i, capacity);
    forall j | 0 <= j < i ensures Element(t, raw, j) + t.element.size <= Element(t, raw, i) {
      ElementBefore(t, raw, j, i);
    }
  }

  /** Element `i` ends within the memory that malloc returned at `raw`. */
  predicate InMemory(t: Types, raw: nat, capacity: nat, i: nat) {
    Element(t, raw, i) + t.element.size <= raw + Requested(t, capacity)
  }

  /** Wherever malloc puts the memory, the last element is inside it if and only if the sum does not
      wrap. */
  lemma FitsExactly(t: Types, raw: nat, capacity: nat)
    requires capacity >= 1
    ensures InMemory(t, raw, capacity, capacity - 1) <==> MallocSize(t, capacity) < WORD
  {
    hide AlignFor, Element;
    WrapsBelow(MallocSize(t, capacity));
    ElementBefore(t, raw, capacity - 1, capacity);
  }

  /** The elements for which there is memory behind the header, were no byte lost to alignment. */
  function BlockCells(t: Types, capacity: nat): (cells: nat)
    ensures cells <= capacity
  {
    if Requested(t, capacity) < t.block.size then 0
    else CellsIn(Requested(t, capacity) - t.block.size, t.element.size, capacity)
  }

  /** No address has room for more of them. */
  lemma NoMoreCells(t: Types, raw: nat, capacity: nat, i: nat)
    requires i < capacity && InMemory(t, raw, capacity, i)
    ensures i < BlockCells(t, capacity)
  {
    hide AlignFor, Requested, CellsIn;
    DistributeSub(i + 1, 1, t.element.size);
    CellsInMeans(Requested(t, capacity) - t.block.size, t.element.size, capacity, i);
  }

  /** Every block of up to `capacity` elements has a cell for each. */
  ghost predicate RoomFor(t: Types, capacity: nat) {
    forall n: nat :: n <= capacity ==> BlockCells(t, n) == n
  }

  /** If the sum wraps, the last cell but one is missing as well. */
  lemma WrappedBlock(t: Types, capacity: nat)
    requires capacity >= 1
    ensures MallocSize(t, capacity) < WORD ==> BlockCells(t, capacity) == capacity
    ensures MallocSize(t, capacity) >= WORD ==> BlockCells(t, capacity) + 1 < capacity
  {
    hide CellsIn;
    WrapsBelow(MallocSize(t, capacity));
    OneLess(capacity, t.element.size);
    if Requested(t, capacity) >= t.block.size {
      AllCells(Requested(t, capacity) - t.block.size, t.element.size, capacity);
    }
  }

  lemma SmallerBlock(t: Types, n: nat, capacity: nat)
    requires n <= capacity
    ensures MallocSize(t, n) <= MallocSize(t, capacity)
  {
    ProductMonotone(n, capacity, t.element.size);
  }

  lemma RoomExactly(t: Types, capacity: nat)
    requires capacity >= 1
    ensures RoomFor(t, capacity) <==> MallocSize(t, capacity) < WORD
  {
    hide BlockCells, MallocSize;
    WrappedBlock(t, capacity);
    if MallocSize(t, capacity) < WORD {
      forall n: nat | n <= capacity ensures BlockCells(t, n) == n {
        if n >= 1 {
          SmallerBlock(t, n, capacity);
          WrappedBlock(t, n);
        }
      }
    }
  }

  // ----- The cells of the circular buffer ---------------------------------------------------------

  /** The argument of `malloc` in the constructor of the circular buffer, before it wraps. */
  function RingSize(t: CppType, capacity: nat): nat {
    capacity * t.size + t.alignment - 1
  }

  /** The cells for which there is memory: none if malloc returned null, which is not looked at. */
  function RingCells(t: CppType, capacity: nat, memory: bool): (cells: nat)
    ensures cells <= capacity
  {
    if memory then CellsIn(RingSize(t, capacity) % WORD, t.size, capacity) else 0
  }

  /** Wherever malloc puts the memory, the cell with number `capacity - 1` is inside it if and only if the
      size does not wrap. */
  lemma RingFitsExactly(t: CppType, raw: nat, capacity: nat)
    requires capacity >= 1
    ensures AlignFor(raw, t.alignment) + capacity * t.size <= raw + RingSize(t, capacity) % WORD
            <==> RingSize(t, capacity) < WORD
  {
    hide AlignFor;
    WrapsBelow(RingSize(t, capacity));
  }

  /** No address has room for more cells than `RingCells` says. */
  lemma NoMoreRingCells(t: CppType, raw: nat, capacity: nat, i: nat)
    requires i < capacity
    requires AlignFor(raw, t.alignment) + (i + 1) * t.size <= raw + RingSize(t, capacity) % WORD
    ensures i < RingCells(t, capacity, true)
  {
    hide AlignFor, RingSize;
    CellsInMeans(RingSize(t, capacity) % WORD, t.size, capacity, i);
  }

  lemma RingCellsExactly(t: CppType, capacity: nat, memory: bool)
    requires capacity >= 1
    ensures RingCells(t, capacity, memory) == capacity <==> memory && RingSize(t, capacity) < WORD
  {
    hide CellsIn;
    WrapsBelow(RingSize(t, capacity));
    AllCells(RingSize(t, capacity) % WORD, t.size, capacity);
  }
}
