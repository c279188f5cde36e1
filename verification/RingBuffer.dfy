/// The ring buffer behind the Chase-Lev deque: a power-of-two number of cells
/// addressed by an unbounded index through a bit mask.
module RingBuffer {

  /// The capacities the mask works for.
  predicate IsPowerOfTwo(n: nat) {
    n == 1 || (n > 0 && n % 2 == 0 && IsPowerOfTwo(n / 2))
  }

  lemma DoublePower(p: nat)
    requires IsPowerOfTwo(p)
    ensures IsPowerOfTwo(2 * p)
  {
    assert (2 * p) / 2 == p;
  }

  lemma {:induction false} PowersMultiply(a: nat, b: nat)
    requires IsPowerOfTwo(a) && IsPowerOfTwo(b)
    ensures IsPowerOfTwo(a * b)
    decreases a
  {
    if a != 1 {
      var half := a / 2;
      PowersMultiply(half, b);
      DoublePower(half * b);
      Twice(a, half, b);
    }
  }

  lemma Twice(a: nat, half: nat, b: nat)
    requires a == 2 * half
    ensures a * b == 2 * (half * b)
  {
  }

  /// Doubling a power of two below another one does not pass it.
  lemma {:induction false} DoubleFits(c: nat, limit: nat)
    requires IsPowerOfTwo(c) && IsPowerOfTwo(limit) && c < limit
    ensures 2 * c <= limit
    decreases c
  {
    if c != 1 {
      DoubleFits(c / 2, limit / 2);
    }
  }

  /// Bitwise conjunction of two unsigned integers, bit by bit from the lowest.
  function BitAnd(a: nat, b: nat): nat
    decreases a
  {
    if a == 0 || b == 0 then 0 else (a % 2) * (b % 2) + 2 * BitAnd(a / 2, b / 2)
  }

  lemma DoubleModulus(i: nat, c: nat)
    requires c > 0
    ensures i % (2 * c) == i % 2 + 2 * ((i / 2) % c)
  {
    var q, s := (i / 2) / c, (i / 2) % c;
    assert i / 2 == c * q + s;
    assert i == (2 * c) * q + (2 * s + i % 2);
    RemainderUnique(i, 2 * c, q, 2 * s + i % 2);
  }

  lemma RemainderUnique(i: int, c: nat, q: int, r: int)
    requires c > 0 && 0 <= r < c && i == c * q + r
    ensures i % c == r
  {
    var d := q - i / c;
    assert i == c * (i / c) + i % c;
    assert c * d == i % c - r;
    SmallMultiple(c, d);
  }

  /// The only multiple of c strictly between -c and c is zero.
  lemma SmallMultiple(c: nat, d: int)
    requires 0 - c < c * d < c
    ensures d == 0
  {
  }

  lemma RemaindersDiffer(i: nat, j: nat, c: nat)
    requires 0 < c && i < j < i + c
    ensures i % c != j % c
  {
    if i % c == j % c {
      assert c * (j / c - i / c) == j - i;
      SmallMultiple(c, j / c - i / c);
    }
  }

  /// Masking with capacity - 1 is the remainder modulo a power-of-two capacity.
  lemma {:induction false} MaskIsRemainder(i: nat, capacity: nat)
    requires IsPowerOfTwo(capacity)
    ensures BitAnd(i, capacity - 1) == i % capacity
    decreases i, capacity
  {
    if i == 0 || capacity == 1 {
    } else {
      var c := capacity / 2;
      assert capacity - 1 == 2 * (c - 1) + 1;
      assert (capacity - 1) / 2 == c - 1;
      MaskIsRemainder(i / 2, c);
      DoubleModulus(i, c);
    }
  }

  /// The cell that index i falls into.
  function Slot(i: nat, capacity: nat): (cell: nat)
    requires IsPowerOfTwo(capacity)
    ensures cell < capacity
  {
    MaskIsRemainder(i, capacity);
    BitAnd(i, capacity - 1)
  }

  /// Two indices less than one capacity apart never share a cell.
  lemma SlotsDiffer(i: nat, j: nat, capacity: nat)
    requires IsPowerOfTwo(capacity)
    requires i < j < i + capacity
    ensures Slot(i, capacity) != Slot(j, capacity)
  {
    MaskIsRemainder(i, capacity);
    MaskIsRemainder(j, capacity);
    RemaindersDiffer(i, j, capacity);
  }

  datatype Buffer<T> = Buffer(capacity: nat, cells: seq<T>) {
    predicate Valid() {
      IsPowerOfTwo(capacity) && |cells| == capacity
    }

    function Load(i: nat): T
      requires Valid()
    {
      cells[Slot(i, capacity)]
    }

    /// A store is seen at its own index and at no other index of the same
    /// window of `capacity` consecutive indices.
    function Store(i: nat, x: T): (b: Buffer<T>)
      requires Valid()
      ensures b.Valid() && b.capacity == capacity && b.Load(i) == x
      ensures forall j: nat | j != i && j < i + capacity && i < j + capacity :: b.Load(j) == Load(j)
    {
      var b := Buffer(capacity, cells[Slot(i, capacity) := x]);
      assert forall j: nat | j != i && j < i + capacity && i < j + capacity :: b.Load(j) == Load(j) by {
        forall j: nat | j != i && j < i + capacity && i < j + capacity
          ensures b.Load(j) == Load(j)
        {
          if i < j { SlotsDiffer(i, j, capacity); } else { SlotsDiffer(j, i, capacity); }
        }
      }
      b
    }

    /// The values at indices lo, lo + 1, ..., hi - 1.
    function Window(lo: nat, hi: nat): (w: seq<T>)
      requires Valid() && lo <= hi
      ensures |w| == hi - lo
      ensures forall k | 0 <= k < hi - lo :: w[k] == Load(lo + k)
    {
      seq(hi - lo, k requires 0 <= k < hi - lo => Load(lo + k))
    }

    lemma WindowEnds(lo: nat, hi: nat)
      requires Valid() && lo < hi
      ensures Window(lo, hi) == Window(lo, hi - 1) + [Load(hi - 1)]
      ensures Window(lo, hi) == [Load(lo)] + Window(lo + 1, hi)
    {
      hide Slot;
    }

    lemma SameWindow(other: Buffer<T>, lo: nat, hi: nat)
      requires Valid() && other.Valid() && lo <= hi
      requires forall j: nat | lo <= j < hi :: other.Load(j) == Load(j)
      ensures other.Window(lo, hi) == Window(lo, hi)
    {
      hide Slot;
    }
  }

  function Fresh<T>(capacity: nat, blank: T): (b: Buffer<T>)
    requires IsPowerOfTwo(capacity)
    ensures b.Valid() && b.capacity == capacity
  {
    Buffer(capacity, seq(capacity, _ => blank))
  }
}
