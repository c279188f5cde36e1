/// The production deque and its reference oracle under sequential use: both
/// behave as a plain sequence, so they agree on every list of operations.
/// Machine integers are checked for wrap-around at every operation.
module ChaseLevSequential {
  import opened RingBuffer
  import P = ChaseLevProtocol

  newtype uint64 = x: int | 0 <= x < 0x1_0000_0000_0000_0000
  newtype int64 = x: int | -0x8000_0000_0000_0000 <= x < 0x8000_0000_0000_0000

  lemma Positive(n: nat)
    requires IsPowerOfTwo(n)
    ensures n > 0
  {
  }

  lemma StoreAppends<T>(b: Buffer<T>, lo: nat, hi: nat, x: T)
    requires b.Valid() && lo <= hi < lo + b.capacity
    ensures b.Store(hi, x).Window(lo, hi + 1) == b.Window(lo, hi) + [x]
  {
    hide Slot, IsPowerOfTwo;
    b.SameWindow(b.Store(hi, x), lo, hi);
    b.Store(hi, x).WindowEnds(lo, hi + 1);
  }

  // ----- the specification -----

  datatype Op<T> = Push(item: T) | Pop | Steal

  datatype Result<T> = Pushed | Success(item: T) | Empty

  function Apply<T>(s: seq<T>, op: Op<T>): (Result<T>, seq<T>) {
    match op
    case Push(x) => (Pushed, s + [x])
    case Pop => if s == [] then (Empty, s) else (Success(s[|s| - 1]), s[..|s| - 1])
    case Steal => if s == [] then (Empty, s) else (Success(s[0]), s[1..])
  }

  function Results<T>(s: seq<T>, ops: seq<Op<T>>): seq<Result<T>>
    decreases |ops|
  {
    if ops == [] then [] else var (r, s') := Apply(s, ops[0]); [r] + Results(s', ops[1..])
  }

  function After<T>(s: seq<T>, ops: seq<Op<T>>): seq<T>
    decreases |ops|
  {
    if ops == [] then s else After(Apply(s, ops[0]).1, ops[1..])
  }

  // ----- the cells -----

  class Cells<T(0)> {
    const cells: array<T>

    ghost predicate Valid()
      reads this, cells
    {
      View().Valid()
    }

    ghost function View(): Buffer<T>
      reads this, cells
    {
      Buffer(cells.Length, cells[..])
    }

    constructor (capacity: nat)
      requires IsPowerOfTwo(capacity)
      ensures Valid() && fresh(cells) && cells.Length == capacity
    {
      cells := new T[capacity];
    }

    method StoreCell(i: nat, x: T)
      requires Valid()
      modifies cells
      ensures Valid() && View() == old(View()).Store(i, x)
    {
      cells[Slot(i, cells.Length)] := x;
    }

    method LoadCell(i: nat) returns (x: T)
      requires Valid()
      ensures x == View().Load(i)
    {
      x := cells[Slot(i, cells.Length)];
    }

    /// Copies the window of another buffer that is no larger, index by index.
    method CopyFrom(source: Cells<T>, lo: nat, hi: nat)
      requires Valid() && source.Valid() && source.cells != cells && lo <= hi <= lo + cells.Length
      modifies cells
      ensures Valid() && View().Window(lo, hi) == source.View().Window(lo, hi)
    {
      hide Slot, Buffer.Store, Buffer.Load, IsPowerOfTwo;
      var i := lo;
      while i < hi
        invariant lo <= i <= hi && Valid()
        invariant forall k: nat | lo <= k < i :: View().Load(k) == source.View().Load(k)
      {
        var x := source.LoadCell(i);
        StoreCell(i, x);
        i := i + 1;
      }
      source.View().SameWindow(View(), lo, hi);
    }

    method Snapshot(lo: nat, live: nat) returns (snapshot: seq<T>)
      requires Valid()
      ensures snapshot == View().Window(lo, lo + live)
    {
      hide Slot, Buffer.Load, IsPowerOfTwo;
      snapshot := [];
      var i := 0;
      while i < live
        invariant i <= live && snapshot == View().Window(lo, lo + live)[..i]
      {
        var x := LoadCell(lo + i);
        snapshot := snapshot + [x];
        i := i + 1;
      }
    }

    /// Stores the items at the indices from 0 on.
    method StoreAll(items: seq<T>)
      requires Valid() && |items| <= cells.Length
      modifies cells
      ensures Valid() && View().Window(0, |items|) == items
    {
      hide Slot, Buffer.Store, Buffer.Load, IsPowerOfTwo;
      var i := 0;
      while i < |items|
        invariant i <= |items| && Valid()
        invariant forall k: nat | k < i :: View().Load(k) == items[k]
      {
        StoreCell(i, items[i]);
        i := i + 1;
      }
    }
  }

  // ----- the production deque -----

  class ChaseLevDeque<T(0)> {
    var top: uint64
    var bottom: uint64
    var buffer: Cells<T>
    var history: seq<Cells<T>>

    ghost predicate Valid()
      reads this, buffer, buffer.cells
    {
      && buffer.Valid() && buffer.cells.Length <= P.MAX_CAPACITY
      && top <= bottom && bottom as int - (top as int) < buffer.cells.Length
      && (bottom <= (P.HIGH_WATERMARK as uint64) || bottom as int < buffer.cells.Length)
      && history != [] && history[|history| - 1] == buffer
    }

    /// The live items, oldest first.
    ghost function Contents(): (s: seq<T>)
      requires Valid()
      reads this, buffer, buffer.cells
      ensures |s| == bottom as int - (top as int)
    {
      buffer.View().Window(top as nat, bottom as nat)
    }

    constructor (initialCapacity: nat)
      requires IsPowerOfTwo(initialCapacity) && initialCapacity <= P.MAX_CAPACITY
      ensures Valid() && Contents() == [] && fresh(buffer) && fresh(buffer.cells)
    {
      top, bottom := 0, 0;
      var cells := new Cells<T>(initialCapacity);
      buffer := cells;
      history := [cells];
    }

    /// Doubles the capacity and copies the live items; the old buffer stays in the history.
    method Grow() returns (grown: bool)
      requires Valid()
      modifies this
      ensures Valid() && top == old(top) && bottom == old(bottom) && Contents() == old(Contents())
      ensures grown <==> old(buffer.cells.Length) < P.MAX_CAPACITY
      ensures grown ==> buffer.cells.Length == 2 * old(buffer.cells.Length) && fresh(buffer) && fresh(buffer.cells)
      ensures grown ==> history == old(history) + [buffer]
      ensures !grown ==> buffer == old(buffer)
    {
      if buffer.cells.Length > 0x7fff_ffff_ffff_ffff || buffer.cells.Length >= P.MAX_CAPACITY {
        return false;
      }
      P.MaxCapacityIsPowerOfTwo();
      DoubleFits(buffer.cells.Length, P.MAX_CAPACITY);
      var larger := new Cells<T>(2 * buffer.cells.Length);
      larger.CopyFrom(buffer, top as nat, bottom as nat);
      history := history + [larger];
      buffer := larger;
      return true;
    }

    /// Moves the live items to the indices from 0 on, if an index has reached the watermark.
    method MaybeQuiescentRebase() returns (rebased: bool)
      requires Valid()
      modifies this, buffer.cells
      ensures Valid() && buffer == old(buffer) && Contents() == old(Contents())
      ensures rebased <==> old(bottom) >= (P.HIGH_WATERMARK as uint64) || old(top) >= (P.HIGH_WATERMARK as uint64)
      ensures rebased ==> top == 0
      ensures !rebased ==> top == old(top) && bottom == old(bottom)
    {
      if bottom < (P.HIGH_WATERMARK as uint64) && top < (P.HIGH_WATERMARK as uint64) {
        return false;
      }
      hide Slot, Buffer.Store, Buffer.Load, Buffer.Window, IsPowerOfTwo;
      ghost var before := Contents();
      var live := bottom - top;
      var snapshot := buffer.Snapshot(top as nat, live as nat);
      buffer.StoreAll(snapshot);
      top := 0;
      bottom := live;
      assert Contents() == before;
      return true;
    }

    method Push(item: T) returns (ok: bool)
      requires Valid()
      modifies this, buffer.cells
      ensures Valid() && (buffer == old(buffer) || fresh(buffer)) && (buffer.cells == old(buffer.cells) || fresh(buffer.cells))
      ensures ok ==> Contents() == old(Contents()) + [item]
      ensures !ok ==> Contents() == old(Contents())
      ensures ok <==> |old(Contents())| < old(buffer.cells.Length) - 1 || old(buffer.cells.Length) < P.MAX_CAPACITY
      ensures buffer.cells.Length <= old(buffer.cells.Length) || buffer.cells.Length == 2 * old(buffer.cells.Length) <= 2 * |Contents()|
    {
      hide Slot, Buffer.Store, Buffer.Load, IsPowerOfTwo;
      if bottom >= (P.HIGH_WATERMARK as uint64) || top >= (P.HIGH_WATERMARK as uint64) {
        var rebased := MaybeQuiescentRebase();
      }
      if (bottom - top) as int >= buffer.cells.Length - 1 {
        var grown := Grow();
        if !grown {
          return false;
        }
      }
      StoreAppends(buffer.View(), top as nat, bottom as nat, item);
      buffer.StoreCell(bottom as nat, item);
      bottom := bottom + 1;
      return true;
    }

    method Pop() returns (r: Result<T>)
      requires Valid()
      modifies this, buffer.cells
      ensures Valid() && buffer == old(buffer)
      ensures (r, Contents()) == Apply(old(Contents()), Op.Pop)
    {
      hide Slot, Buffer.Store, Buffer.Load, IsPowerOfTwo;
      var b := bottom;
      if b == 0 {
        var _ := MaybeQuiescentRebase();
        return Empty;
      }
      b := b - 1;
      bottom := b;
      var t := top;
      if t <= b {
        buffer.View().WindowEnds(t as nat, b as nat + 1);
        var item := buffer.LoadCell(b as nat);
        if t == b {
          top := t + 1;
          bottom := b + 1;
        }
        return Success(item);
      }
      bottom := b + 1;
      var _ := MaybeQuiescentRebase();
      return Empty;
    }

    method Steal() returns (r: Result<T>)
      requires Valid()
      modifies `top
      ensures Valid() && (r, Contents()) == Apply(old(Contents()), Op.Steal)
    {
      hide Slot, Buffer.Store, Buffer.Load, IsPowerOfTwo;
      var t := top;
      var b := bottom;
      if t < b {
        buffer.View().WindowEnds(t as nat, b as nat);
        var item := buffer.LoadCell(t as nat);
        top := t + 1;
        return Success(item);
      }
      return Empty;
    }
  }

  // ----- the oracle -----

  /// The reference implementation: signed indices, no reserved cell, no rebase.
  class ChaseLevSeqCstOracle<T(0)> {
    var top: int64
    var bottom: int64
    var published: Cells<T>
    var retired: seq<Cells<T>>

    ghost predicate Valid()
      reads this, published, published.cells
    {
      && published.Valid() && published.cells.Length <= P.MAX_CAPACITY
      && 0 <= top <= bottom && bottom as int - (top as int) <= published.cells.Length
      && retired != [] && retired[|retired| - 1] == published
    }

    ghost function Contents(): (s: seq<T>)
      requires Valid()
      reads this, published, published.cells
      ensures |s| == bottom as int - (top as int)
    {
      published.View().Window(top as nat, bottom as nat)
    }

    constructor (initialCapacity: nat)
      requires IsPowerOfTwo(initialCapacity) && initialCapacity <= P.MAX_CAPACITY
      ensures Valid() && Contents() == [] && bottom == 0 && published.cells.Length == initialCapacity
      ensures fresh(published) && fresh(published.cells)
    {
      top, bottom := 0, 0;
      var cells := new Cells<T>(initialCapacity);
      published := cells;
      retired := [cells];
    }

    method Grow()
      requires Valid() && published.cells.Length < P.MAX_CAPACITY
      modifies this
      ensures Valid() && top == old(top) && bottom == old(bottom) && Contents() == old(Contents())
      ensures published.cells.Length == 2 * old(published.cells.Length) && fresh(published) && fresh(published.cells)
      ensures retired == old(retired) + [published]
    {
      P.MaxCapacityIsPowerOfTwo();
      DoubleFits(published.cells.Length, P.MAX_CAPACITY);
      var larger := new Cells<T>(2 * published.cells.Length);
      larger.CopyFrom(published, top as nat, bottom as nat);
      retired := retired + [larger];
      published := larger;
    }

    /// The index after the push and a doubled capacity have to be int64 values.
    method Push(item: T)
      requires Valid() && bottom < 0x7fff_ffff_ffff_ffff && |Contents()| < P.MAX_CAPACITY
      modifies this, published.cells
      ensures Valid() && (published == old(published) || fresh(published))
      ensures published.cells == old(published.cells) || fresh(published.cells)
      ensures bottom == old(bottom) + 1 && Contents() == old(Contents()) + [item]
    {
      hide Slot, Buffer.Store, Buffer.Load, IsPowerOfTwo;
      Positive(published.cells.Length);
      var b := bottom;
      var t := top;
      if (b - t) as int >= published.cells.Length {
        Grow();
      }
      StoreAppends(published.View(), t as nat, b as nat, item);
      published.StoreCell(b as nat, item);
      bottom := b + 1;
    }

    method Pop() returns (r: Result<T>)
      requires Valid()
      modifies this
      ensures Valid() && published == old(published) && bottom <= old(bottom)
      ensures (r, Contents()) == Apply(old(Contents()), Op.Pop)
    {
      hide Slot, Buffer.Store, Buffer.Load, IsPowerOfTwo;
      var b := bottom - 1;
      bottom := b;
      var t := top;
      if t <= b {
        published.View().WindowEnds(t as nat, b as nat + 1);
        var item := published.LoadCell(b as nat);
        if t == b {
          top := t + 1;
          bottom := b + 1;
        }
        return Success(item);
      }
      bottom := b + 1;
      return Empty;
    }

    method Steal() returns (r: Result<T>)
      requires Valid()
      modifies `top
      ensures Valid() && (r, Contents()) == Apply(old(Contents()), Op.Steal)
    {
      hide Slot, Buffer.Store, Buffer.Load, IsPowerOfTwo;
      var t := top;
      var b := bottom;
      if t < b {
        published.View().WindowEnds(t as nat, b as nat);
        var item := published.LoadCell(t as nat);
        top := t + 1;
        return Success(item);
      }
      return Empty;
    }
  }

  // ----- both on the same operations -----

  lemma {:induction false} OneMore<T>(s: seq<T>, ops: seq<Op<T>>, op: Op<T>)
    ensures After(s, ops + [op]) == Apply(After(s, ops), op).1
    ensures Results(s, ops + [op]) == Results(s, ops) + [Apply(After(s, ops), op).0]
    decreases |ops|
  {
    if ops == [] {
      assert (ops + [op])[1..] == [];
    } else {
      assert (ops + [op])[1..] == ops[1..] + [op];
      OneMore(Apply(s, ops[0]).1, ops[1..], op);
    }
  }

  /// One operation on both.
  method StepBoth<T(0)>(deque: ChaseLevDeque<T>, oracle: ChaseLevSeqCstOracle<T>, op: Op<T>)
      returns (production: Result<T>, reference: Result<T>)
    requires deque.Valid() && oracle.Valid() && deque.buffer.cells != oracle.published.cells
    requires |deque.Contents()| < P.MAX_CAPACITY - 1 && |oracle.Contents()| < P.MAX_CAPACITY
    requires oracle.bottom < 0x7fff_ffff_ffff_ffff
    modifies deque, deque.buffer.cells, oracle, oracle.published.cells
    ensures deque.Valid() && oracle.Valid()
    ensures deque.buffer == old(deque.buffer) || fresh(deque.buffer)
    ensures deque.buffer.cells == old(deque.buffer.cells) || fresh(deque.buffer.cells)
    ensures oracle.published == old(oracle.published) || fresh(oracle.published)
    ensures oracle.published.cells == old(oracle.published.cells) || fresh(oracle.published.cells)
    ensures deque.buffer.cells != oracle.published.cells && oracle.bottom <= old(oracle.bottom) + 1
    ensures (production, deque.Contents()) == Apply(old(deque.Contents()), op)
    ensures (reference, oracle.Contents()) == Apply(old(oracle.Contents()), op)
  {
    hide Slot, IsPowerOfTwo, Buffer.Store, Buffer.Load, Buffer.Window;
    match op
    case Push(item) =>
      var ok := deque.Push(item);
      oracle.Push(item);
      production, reference := Pushed, Pushed;
    case Pop =>
      production := deque.Pop();
      reference := oracle.Pop();
    case Steal =>
      production := deque.Steal();
      reference := oracle.Steal();
  }

  lemma ShortAfter<T>(s: seq<T>, ops: seq<Op<T>>)
    ensures |After(s, ops)| <= |s| + |ops|
    decreases |ops|
  {
    if ops != [] {
      ShortAfter(Apply(s, ops[0]).1, ops[1..]);
    }
  }

  /// On every list of operations, from any power-of-two capacities, the production deque and the
  /// oracle return the results of a plain sequence and leave the same items; every push succeeds.
  /// The length bound keeps the buffers within what can be allocated.
  method RunBoth<T(0)>(ops: seq<Op<T>>, capacity: nat, oracleCapacity: nat)
      returns (production: seq<Result<T>>, reference: seq<Result<T>>, productionLeft: seq<T>, referenceLeft: seq<T>)
    requires IsPowerOfTwo(capacity) && IsPowerOfTwo(oracleCapacity)
    requires capacity <= P.MAX_CAPACITY && oracleCapacity <= P.MAX_CAPACITY && |ops| < P.MAX_CAPACITY - 1
    ensures production == Results([], ops) && reference == Results([], ops)
    ensures productionLeft == After([], ops) && referenceLeft == After([], ops)
  {
    hide Slot, IsPowerOfTwo, Apply, Buffer.Window;
    var deque := new ChaseLevDeque<T>(capacity);
    var oracle := new ChaseLevSeqCstOracle<T>(oracleCapacity);
    production, reference := [], [];
    var i := 0;
    while i < |ops|
      invariant i <= |ops| && deque.Valid() && oracle.Valid()
      invariant fresh(deque) && fresh(deque.buffer) && fresh(deque.buffer.cells)
      invariant fresh(oracle) && fresh(oracle.published) && fresh(oracle.published.cells)
      invariant deque.buffer.cells != oracle.published.cells
      invariant oracle.bottom as int <= i
      invariant deque.Contents() == After([], ops[..i]) && oracle.Contents() == After([], ops[..i])
      invariant production == Results([], ops[..i]) && reference == Results([], ops[..i])
    {
      assert ops[..i + 1] == ops[..i] + [ops[i]];
      OneMore([], ops[..i], ops[i]);
      ShortAfter([], ops[..i]);
      var p, r := StepBoth(deque, oracle, ops[i]);
      production, reference := production + [p], reference + [r];
      i := i + 1;
    }
    assert ops[..i] == ops;
    productionLeft := deque.buffer.Snapshot(deque.top as nat, (deque.bottom - deque.top) as nat);
    referenceLeft := oracle.published.Snapshot(oracle.top as nat, (oracle.bottom - oracle.top) as nat);
  }
}
