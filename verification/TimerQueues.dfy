/// The indexed binary heap of pending timers: entries know their position in
/// the heap, and a map finds an entry by its id.
module TimerQueues {
  import opened TimerSpec
  import opened Wrappers

  class TimerEntry<P> {
    const timerId: nat
    const wakeTime: int
    const sequence: nat
    const payload: P
    var heapIndex: nat

    constructor (timerId: nat, wakeTime: int, sequence: nat, payload: P)
      ensures this.timerId == timerId && ItemOf(this) == Item(wakeTime, sequence, payload)
    {
      this.timerId, this.wakeTime, this.sequence, this.payload := timerId, wakeTime, sequence, payload;
      heapIndex := 0;
    }
  }

  function ItemOf<P>(e: TimerEntry<P>): Item<P> {
    Item(e.wakeTime, e.sequence, e.payload)
  }

  predicate CompareTimerEntry<P>(a: TimerEntry<P>, b: TimerEntry<P>)
    ensures CompareTimerEntry(a, b) == Before(ItemOf(a), ItemOf(b))
  {
    if a.wakeTime != b.wakeTime then a.wakeTime < b.wakeTime else a.sequence < b.sequence
  }

  // ----- heap order -----

  function Parent(i: nat): nat
    requires i > 0
  {
    (i - 1) / 2
  }

  predicate InOrder<P>(h: seq<TimerEntry<P>>, k: nat) {
    0 < k < |h| ==> !CompareTimerEntry(h[k], h[Parent(k)])
  }

  predicate Ordered<P>(h: seq<TimerEntry<P>>) {
    forall k | 0 < k < |h| :: InOrder(h, k)
  }

  /// The children of i are in order with i's parent.
  predicate Bridged<P>(h: seq<TimerEntry<P>>, i: nat) {
    0 < i < |h| ==> forall c | 0 < c < |h| && Parent(c) == i :: !CompareTimerEntry(h[c], h[Parent(i)])
  }

  /// Ordered except that the entry at hole may come before its parent.
  predicate OrderedAbove<P>(h: seq<TimerEntry<P>>, hole: nat) {
    Bridged(h, hole) && forall k | 0 < k < |h| && k != hole :: InOrder(h, k)
  }

  /// Ordered except that the entry at i may come after its children, and, while it has not moved
  /// from hole, before its parent.
  predicate OrderedBelow<P>(h: seq<TimerEntry<P>>, hole: nat, i: nat) {
    Bridged(h, i) && forall k | 0 < k < |h| && Parent(k) != i && (k != hole || i != hole) :: InOrder(h, k)
  }

  function Swap<P>(h: seq<TimerEntry<P>>, i: nat, j: nat): seq<TimerEntry<P>>
    requires i < |h| && j < |h|
  {
    h[i := h[j]][j := h[i]]
  }

  lemma SwapUp<P>(h: seq<TimerEntry<P>>, i: nat)
    requires 0 < i < |h| && OrderedAbove(h, i) && CompareTimerEntry(h[i], h[Parent(i)])
    ensures OrderedAbove(Swap(h, i, Parent(i)), Parent(i))
  {
    var p := Parent(i);
    var h' := Swap(h, i, p);
    assert p > 0 ==> InOrder(h, p);
    forall k | 0 < k < |h| && k != p
      ensures InOrder(h', k)
    {
      if k != i { assert InOrder(h, k); }
    }
    forall c | 0 < c < |h| && p > 0 && Parent(c) == p
      ensures !CompareTimerEntry(h'[c], h'[Parent(p)])
    {
      if c != i { assert InOrder(h, c); }
    }
  }

  lemma SwapDown<P>(h: seq<TimerEntry<P>>, hole: nat, i: nat, c: nat)
    requires i < |h| && 0 < c < |h| && Parent(c) == i && OrderedBelow(h, hole, i) && hole <= i
    requires CompareTimerEntry(h[c], h[i])
    requires forall d | 0 < d < |h| && Parent(d) == i :: !CompareTimerEntry(h[d], h[c])
    ensures OrderedBelow(Swap(h, i, c), hole, c)
  {
    var h' := Swap(h, i, c);
    forall k | 0 < k < |h| && Parent(k) != c
      ensures InOrder(h', k)
    {
      if k == i {
        assert !CompareTimerEntry(h[c], h[Parent(i)]);
      } else if Parent(k) != i {
        assert InOrder(h, k);
      }
    }
    forall d | 0 < d < |h| && Parent(d) == c
      ensures !CompareTimerEntry(h'[d], h'[i])
    {
      assert InOrder(h, d);
    }
  }

  lemma Settled<P>(h: seq<TimerEntry<P>>, hole: nat, i: nat)
    requires hole <= i < |h| && OrderedBelow(h, hole, i)
    requires forall d | 0 < d < |h| && Parent(d) == i :: !CompareTimerEntry(h[d], h[i])
    ensures OrderedAbove(h, hole)
  {
    forall k | 0 < k < |h| && k != hole
      ensures InOrder(h, k)
    {
    }
    if hole != i && hole > 0 {
      forall c | 0 < c < |h| && Parent(c) == hole
        ensures !CompareTimerEntry(h[c], h[Parent(hole)])
      {
        assert InOrder(h, c) && InOrder(h, hole);
      }
    }
  }

  lemma {:induction false} RootIsLeast<P>(h: seq<TimerEntry<P>>, k: nat)
    requires Ordered(h) && k < |h|
    ensures !CompareTimerEntry(h[k], h[0])
  {
    if k > 0 {
      RootIsLeast(h, Parent(k));
      assert InOrder(h, k);
    }
  }

  /// The entry at i replaced by an entry from further down the heap.
  lemma ReplaceKeeps<P>(h: seq<TimerEntry<P>>, i: nat, e: TimerEntry<P>)
    requires Ordered(h) && i < |h|
    ensures OrderedBelow(h[i := e], i, i)
  {
    forall k | 0 < k < |h| && Parent(k) != i && k != i
      ensures InOrder(h[i := e], k)
    {
      assert InOrder(h, k);
    }
    if i > 0 {
      forall c | 0 < c < |h| && Parent(c) == i
        ensures !CompareTimerEntry(h[c], h[Parent(i)])
      {
        assert InOrder(h, c) && InOrder(h, i);
      }
    }
  }

  lemma AppendKeeps<P>(h: seq<TimerEntry<P>>, e: TimerEntry<P>)
    requires Ordered(h)
    ensures OrderedAbove(h + [e], |h|)
  {
    forall k | 0 < k < |h|
      ensures InOrder(h + [e], k)
    {
      assert InOrder(h, k);
    }
  }

  lemma DropLastKeeps<P>(h: seq<TimerEntry<P>>)
    requires Ordered(h) && h != []
    ensures Ordered(h[..|h| - 1])
  {
    var h' := h[..|h| - 1];
    forall k | 0 < k < |h'|
      ensures InOrder(h', k)
    {
      assert InOrder(h, k);
    }
  }

  // ----- the queue -----

  /// The heap and the map hold the same entries.
  ghost predicate Linked<P>(h: seq<TimerEntry<P>>, m: map<nat, TimerEntry<P>>) {
    && (forall e | e in h :: e.timerId in m && m[e.timerId] == e)
    && (forall id | id in m :: m[id] in h && m[id].timerId == id)
    && (forall a, b | a in h && b in h && a != b :: a.sequence != b.sequence)
  }

  /// Ids and sequence numbers were drawn from the counters.
  ghost predicate Numbered<P>(h: seq<TimerEntry<P>>, nextId: nat, nextSequence: nat) {
    forall e | e in h :: 1 <= e.timerId < nextId && e.sequence < nextSequence
  }

  ghost function Entries<P>(h: seq<TimerEntry<P>>): set<TimerEntry<P>> {
    set e | e in h
  }

  lemma AnEntry<P>(h: seq<TimerEntry<P>>, i: nat)
    requires i < |h|
    ensures h[i] in Entries(h)
  {
  }

  ghost predicate SameEntries<P>(h: seq<TimerEntry<P>>, h': seq<TimerEntry<P>>) {
    |h| == |h'| && Entries(h) == Entries(h')
  }

  ghost predicate Placed<P>(h: seq<TimerEntry<P>>)
    reads h
  {
    forall i | 0 <= i < |h| :: h[i].heapIndex == i
  }

  ghost function ContentsOf<P>(m: map<nat, TimerEntry<P>>): Timers<P> {
    map id | id in m :: ItemOf(m[id])
  }

  lemma SwapSameEntries<P>(h: seq<TimerEntry<P>>, i: nat, j: nat)
    requires i < |h| && j < |h|
    ensures SameEntries(h, Swap(h, i, j))
  {
    var h' := Swap(h, i, j);
    forall e | e in h
      ensures e in h'
    {
      var k :| 0 <= k < |h| && h[k] == e;
      assert h'[if k == i then j else if k == j then i else k] == e;
    }
    assert forall e | e in h' :: e in h;
  }

  lemma LinkedPermutes<P>(h: seq<TimerEntry<P>>, h': seq<TimerEntry<P>>, m: map<nat, TimerEntry<P>>, nextId: nat, nextSequence: nat)
    requires Linked(h, m) && SameEntries(h, h') && Numbered(h, nextId, nextSequence)
    ensures Linked(h', m) && Numbered(h', nextId, nextSequence)
  {
    assert forall e | e in h' :: e in Entries(h');
    assert forall e | e in h :: e in Entries(h);
  }

  lemma AppendLinks<P>(h: seq<TimerEntry<P>>, m: map<nat, TimerEntry<P>>, e: TimerEntry<P>, nextId: nat, nextSequence: nat)
    requires Linked(h, m) && e !in h && e.timerId !in m
    requires Numbered(h, nextId, nextSequence) && 1 <= e.timerId < nextId && e.sequence < nextSequence
    requires forall other | other in h :: other.sequence != e.sequence
    ensures Linked(h + [e], m[e.timerId := e]) && Numbered(h + [e], nextId, nextSequence)
    ensures ContentsOf(m[e.timerId := e]) == ContentsOf(m)[e.timerId := ItemOf(e)]
    ensures Entries(h + [e]) == Entries(h) + {e}
  {
  }

  lemma InsertedIsFirst<P>(h: seq<TimerEntry<P>>, m: map<nat, TimerEntry<P>>, e: TimerEntry<P>)
    requires Linked(h, m) && Ordered(h) && e.timerId in m && m[e.timerId] == e
    ensures h != []
    ensures h[0].timerId == e.timerId <==> IsLeast(ContentsOf(m), e.timerId)
  {
    forall id | id in m && m[id] != h[0]
      ensures Before(ItemOf(h[0]), ItemOf(m[id]))
    {
      var k :| 0 <= k < |h| && h[k] == m[id];
      RootIsLeast(h, k);
      assert h[0] in h;
    }
    assert h[0] in h && m[h[0].timerId] == h[0];
    var c := ContentsOf(m);
    assert c[e.timerId] == ItemOf(e) && c[h[0].timerId] == ItemOf(h[0]);
  }

  ghost predicate Apart<P>(h: seq<TimerEntry<P>>) {
    forall i, j | 0 <= i < j < |h| :: h[i] != h[j]
  }

  /// The heap with entry i taken out: the last entry moves to its place.
  function Without<P>(h: seq<TimerEntry<P>>, i: nat): seq<TimerEntry<P>>
    requires i < |h|
  {
    var last := |h| - 1;
    if i == last then h[..last] else h[..last][i := h[last]]
  }

  lemma WithoutEntries<P>(h: seq<TimerEntry<P>>, i: nat)
    requires i < |h| && Apart(h)
    ensures Entries(Without(h, i)) == Entries(h) - {h[i]}
  {
    var last := |h| - 1;
    var h' := Without(h, i);
    forall e | e in Entries(h) - {h[i]}
      ensures e in h'
    {
      var k :| 0 <= k < |h| && h[k] == e;
      assert h'[if k == last then i else k] == e;
    }
    forall e | e in h'
      ensures e in h && e != h[i]
    {
      var k :| 0 <= k < |h'| && h'[k] == e;
      assert h[if k == i then last else k] == e;
    }
  }

  lemma WithoutLinks<P>(h: seq<TimerEntry<P>>, m: map<nat, TimerEntry<P>>, i: nat, nextId: nat, nextSequence: nat)
    requires Linked(h, m) && Numbered(h, nextId, nextSequence) && i < |h| && Apart(h)
    ensures h[i].timerId in m && m[h[i].timerId] == h[i]
    ensures Linked(Without(h, i), m - {h[i].timerId}) && Numbered(Without(h, i), nextId, nextSequence)
    ensures ContentsOf(m - {h[i].timerId}) == ContentsOf(m) - {h[i].timerId}
  {
    WithoutEntries(h, i);
    var h' := Without(h, i);
    assert h[i] in h;
    forall e | e in h'
      ensures e in h && e != h[i] && e.timerId != h[i].timerId
    {
      assert e in Entries(h');
    }
    forall id | id in m - {h[i].timerId}
      ensures m[id] in h'
    {
      assert m[id] in Entries(h');
    }
  }

  lemma WithoutOrdered<P>(h: seq<TimerEntry<P>>, i: nat)
    requires Ordered(h) && i < |h|
    ensures if i == |h| - 1 then Ordered(Without(h, i)) else OrderedBelow(Without(h, i), i, i)
  {
    DropLastKeeps(h);
    if i < |h| - 1 {
      ReplaceKeeps(h[..|h| - 1], i, h[|h| - 1]);
    }
  }

  lemma FirstIsLeast<P>(h: seq<TimerEntry<P>>, m: map<nat, TimerEntry<P>>)
    requires Linked(h, m) && Ordered(h) && h != []
    ensures h[0].timerId in m && m[h[0].timerId] == h[0]
    ensures Distinct(ContentsOf(m)) && IsLeast(ContentsOf(m), h[0].timerId)
    ensures Least(ContentsOf(m)) == h[0].timerId
  {
    assert h[0] in h;
    InsertedIsFirst(h, m, h[0]);
    ContentsDistinct(h, m);
  }

  lemma ContentsDistinct<P>(h: seq<TimerEntry<P>>, m: map<nat, TimerEntry<P>>)
    requires Linked(h, m)
    ensures Distinct(ContentsOf(m))
  {
    forall i, j | i in m && j in m && i != j
      ensures m[i].sequence != m[j].sequence
    {
      assert m[i] in h && m[j] in h;
    }
  }

  lemma NumbersAreNew<P>(h: seq<TimerEntry<P>>, m: map<nat, TimerEntry<P>>, nextId: nat, nextSequence: nat)
    requires Linked(h, m) && Numbered(h, nextId, nextSequence)
    ensures nextId !in m && forall e | e in h :: e.sequence != nextSequence
    ensures Numbered(h, nextId + 1, nextSequence + 1)
  {
    assert forall id | id in m :: m[id] in h;
  }

  lemma AbsentId<P>(m: map<nat, TimerEntry<P>>, id: nat)
    requires id !in m
    ensures ContentsOf(m) - {id} == ContentsOf(m)
  {
  }

  lemma Found<P>(h: seq<TimerEntry<P>>, m: map<nat, TimerEntry<P>>, id: nat)
    requires Linked(h, m) && Placed(h) && id in m
    ensures m[id].heapIndex < |h| && h[m[id].heapIndex] == m[id] && m[id].timerId == id
  {
    assert m[id] in h;
  }

  lemma PlacedApart<P>(h: seq<TimerEntry<P>>)
    requires Placed(h)
    ensures Apart(h)
  {
    assert forall i | 0 <= i < |h| :: h[i].heapIndex == i;
  }

  lemma {:induction false} ApartCount<P>(h: seq<TimerEntry<P>>)
    requires Apart(h)
    ensures |Entries(h)| == |h|
  {
    if h != [] {
      var front := h[..|h| - 1];
      ApartCount(front);
      assert Entries(h) == Entries(front) + {h[|h| - 1]};
    }
  }

  lemma HeapSize<P>(h: seq<TimerEntry<P>>, m: map<nat, TimerEntry<P>>)
    requires Linked(h, m) && Placed(h)
    ensures |h| == |ContentsOf(m)|
  {
    PlacedApart(h);
    ApartCount(h);
    assert ContentsOf(m).Keys == m.Keys;
    SameCount(Entries(h), m.Keys, m);
  }

  lemma {:induction false} SameCount<P>(entries: set<TimerEntry<P>>, ids: set<nat>, m: map<nat, TimerEntry<P>>)
    requires ids <= m.Keys
    requires forall e | e in entries :: e.timerId in ids && m[e.timerId] == e
    requires forall id | id in ids :: m[id] in entries && m[id].timerId == id
    ensures |entries| == |ids|
  {
    if ids == {} {
      assert entries == {};
    } else {
      var id :| id in ids;
      SameCount(entries - {m[id]}, ids - {id}, m);
    }
  }

  /// What a collection hands to its caller about one timer.
  datatype DueItem<P> = DueItem(payload: P, wakeTime: int)

  function DueItems<P>(m: Timers<P>, order: seq<nat>): seq<DueItem<P>>
    requires forall id | id in order :: id in m
  {
    seq(|order|, i requires 0 <= i < |order| => assert order[i] in order; DueItem(m[order[i]].payload, m[order[i]].wake))
  }

  lemma RootHasNoParent<P>(h: seq<TimerEntry<P>>)
    requires OrderedAbove(h, 0)
    ensures Ordered(h)
  {
  }

  lemma RootContents<P>(h: seq<TimerEntry<P>>, m: map<nat, TimerEntry<P>>)
    requires Linked(h, m) && Ordered(h) && h != []
    ensures h[0].timerId in m && m[h[0].timerId] == h[0]
    ensures var c := ContentsOf(m);
      Distinct(c) && c != map[] && Least(c) == h[0].timerId && c[h[0].timerId] == ItemOf(h[0])
  {
    FirstIsLeast(h, m);
  }

  lemma EmptyContents<P>(m: map<nat, TimerEntry<P>>)
    requires Linked([], m)
    ensures ContentsOf(m) == map[]
  {
  }

  /// The timers taken so far, in order, are the beginning of the drain of the initial timers.
  ghost predicate Drained<P>(start: Timers<P>, limit: Option<int>, order: seq<nat>, rest: Timers<P>) {
    && Distinct(start) && Distinct(rest)
    && (forall id | id in order :: id in start)
    && rest == start - Ids(order)
    && Drain(start, limit) == order + Drain(rest, limit)
  }

  lemma DrainedNext<P>(start: Timers<P>, limit: Option<int>, order: seq<nat>, rest: Timers<P>)
    requires Drained(start, limit, order, rest) && rest != map[] && Due(rest[Least(rest)], limit)
    ensures var id := Least(rest);
      && Drained(start, limit, order + [id], rest - {id}) && start[id] == rest[id]
      && DueItems(start, order + [id]) == DueItems(start, order) + [DueItem(rest[id].payload, rest[id].wake)]
      && |rest - {id}| < |rest|
  {
    hide Least, Ids, DueItems, Drain;
    var id := Least(rest);
    Fewer(rest, id);
    DrainUnfolds(rest, limit);
    OneMore(start, order, id);
    assert order + [id] + Drain(rest - {id}, limit) == order + Drain(rest, limit);
    DueItemsExtend(start, order, id);
  }

  lemma OneMore<P>(start: Timers<P>, order: seq<nat>, id: nat)
    ensures start - Ids(order + [id]) == start - Ids(order) - {id}
    ensures id in start - Ids(order) ==> id in start && (start - Ids(order))[id] == start[id]
  {
    assert Ids(order + [id]) == Ids(order) + {id};
  }

  lemma DueItemsExtend<P>(start: Timers<P>, order: seq<nat>, id: nat)
    requires id in start && forall other | other in order :: other in start
    ensures DueItems(start, order + [id]) == DueItems(start, order) + [DueItem(start[id].payload, start[id].wake)]
  {
  }

  lemma DrainedAll<P>(start: Timers<P>, limit: Option<int>, order: seq<nat>, rest: Timers<P>)
    requires Drained(start, limit, order, rest) && (rest == map[] || !Due(rest[Least(rest)], limit))
    ensures order == Drain(start, limit)
  {
    assert order + [] == order;
  }

  lemma HistoryValid<P>(h: seq<TimerEntry<P>>, m: map<nat, TimerEntry<P>>, nextId: nat, nextSequence: nat)
    requires Linked(h, m) && Numbered(h, nextId, nextSequence) && 1 <= nextId
    ensures History(ContentsOf(m), nextId, nextSequence, [], []).Valid()
  {
    ContentsDistinct(h, m);
    forall id | id in m
      ensures 1 <= id < nextId && m[id].sequence < nextSequence
    {
      assert m[id] in h;
    }
  }

  class TimerQueue<P> {
    var heap: seq<TimerEntry<P>>
    var index: map<nat, TimerEntry<P>>
    var nextTimerId: nat
    var nextTimerSequence: nat

    ghost predicate Valid()
      reads this, heap
    {
      && Linked(heap, index) && Placed(heap) && Ordered(heap)
      && 1 <= nextTimerId && Numbered(heap, nextTimerId, nextTimerSequence)
    }

    ghost function Contents(): Timers<P>
      reads this
    {
      ContentsOf(index)
    }

    /// The queue as the history specification sees it, with nothing taken or dropped yet.
    ghost function AsHistory(): (h: History<P>)
      reads this, heap
      requires Valid()
      ensures h.Valid()
    {
      HistoryValid(heap, index, nextTimerId, nextTimerSequence);
      History(Contents(), nextTimerId, nextTimerSequence, [], [])
    }

    constructor ()
      ensures Valid() && Contents() == map[] && nextTimerId == 1 && nextTimerSequence == 1 && heap == []
    {
      heap, index := [], map[];
      nextTimerId, nextTimerSequence := 1, 1;
    }

    method SwapEntries(i: nat, j: nat)
      requires i < |heap| && j < |heap| && Placed(heap)
      modifies `heap, Entries(heap)
      ensures heap == Swap(old(heap), i, j) && Placed(heap) && SameEntries(old(heap), heap)
    {
      SwapSameEntries(heap, i, j);
      heap := heap[i := heap[j]][j := heap[i]];
      heap[i].heapIndex := i;
      heap[j].heapIndex := j;
    }

    method BubbleUp(start: nat)
      requires start < |heap| && Placed(heap) && OrderedAbove(heap, start)
      modifies `heap, Entries(heap)
      ensures Ordered(heap) && Placed(heap) && SameEntries(old(heap), heap)
    {
      var idx := start;
      while idx > 0
        invariant 0 <= idx < |heap| && Placed(heap) && SameEntries(old(heap), heap)
        invariant OrderedAbove(heap, idx)
      {
        var parent := (idx - 1) / 2;
        if CompareTimerEntry(heap[idx], heap[parent]) {
          SwapUp(heap, idx);
          SwapEntries(idx, parent);
          idx := parent;
        } else {
          assert InOrder(heap, idx);
          break;
        }
      }
    }

    method BubbleDown(start: nat)
      requires start < |heap| && Placed(heap) && OrderedBelow(heap, start, start)
      modifies `heap, Entries(heap)
      ensures OrderedAbove(heap, start) && Placed(heap) && SameEntries(old(heap), heap)
    {
      var n := |heap|;
      var idx := start;
      while true
        invariant start <= idx < |heap| == n && Placed(heap) && SameEntries(old(heap), heap)
        invariant OrderedBelow(heap, start, idx)
        decreases n - idx
      {
        var smallest := idx;
        var left := 2 * idx + 1;
        var right := 2 * idx + 2;
        if left < n && CompareTimerEntry(heap[left], heap[smallest]) {
          smallest := left;
        }
        if right < n && CompareTimerEntry(heap[right], heap[smallest]) {
          smallest := right;
        }
        assert forall d | 0 < d < |heap| && Parent(d) == idx :: d == left || d == right;
        if smallest != idx {
          SwapDown(heap, start, idx, smallest);
          SwapEntries(idx, smallest);
          idx := smallest;
        } else {
          Settled(heap, start, idx);
          break;
        }
      }
    }

    /// The locked part of add, for an id and a sequence number already drawn.  Draws and locked
    /// parts of different callers interleave freely, so the numbers need not be the latest ones.
    method Insert(entry: TimerEntry<P>) returns (becameEarliest: bool)
      requires Valid() && 1 <= entry.timerId < nextTimerId && entry.sequence < nextTimerSequence
      requires entry !in heap && entry.timerId !in index
      requires forall e | e in heap :: e.sequence != entry.sequence
      modifies `heap, `index, Entries(heap), entry
      ensures Valid() && SameEntries(old(heap) + [entry], heap)
      ensures Contents() == old(Contents())[entry.timerId := ItemOf(entry)]
      ensures becameEarliest <==> IsLeast(Contents(), entry.timerId)
    {
      hide Linked, Ordered, OrderedAbove, Numbered, ContentsOf, IsLeast, Entries;
      becameEarliest := false;
      entry.heapIndex := |heap|;
      heap := heap + [entry];
      index := index[entry.timerId := entry];
      ghost var appended := heap;
      AppendKeeps(old(heap), entry);
      AppendLinks(old(heap), old(index), entry, nextTimerId, nextTimerSequence);
      BubbleUp(entry.heapIndex);
      LinkedPermutes(appended, heap, index, nextTimerId, nextTimerSequence);
      InsertedIsFirst(heap, index, entry);
      if heap[0].timerId == entry.timerId {
        becameEarliest := true;
      }
    }

    /// add as a single caller sees it: draw an id and a sequence number, then insert.
    method Add(wakeTime: int, payload: P) returns (timerId: nat, becameEarliest: bool)
      requires Valid()
      modifies this, Entries(heap)
      ensures Valid() && fresh(Entries(heap) - old(Entries(heap)))
      ensures timerId == old(nextTimerId) && timerId !in old(Contents())
      ensures nextTimerId == old(nextTimerId) + 1 && nextTimerSequence == old(nextTimerSequence) + 1
      ensures Contents() == old(Contents())[timerId := Item(wakeTime, old(nextTimerSequence), payload)]
      ensures AsHistory() == Apply(old(AsHistory()), Op.Add(wakeTime, payload))
      ensures becameEarliest <==> IsLeast(Contents(), timerId)
    {
      NumbersAreNew(heap, index, nextTimerId, nextTimerSequence);
      timerId := nextTimerId;
      nextTimerId := nextTimerId + 1;
      var sequence := nextTimerSequence;
      nextTimerSequence := nextTimerSequence + 1;
      var entry := new TimerEntry(timerId, wakeTime, sequence, payload);
      becameEarliest := Insert(entry);
    }

    /// Removes the timer with this id, wherever it stands in the heap, and nothing else.
    method Cancel(timerId: nat)
      requires Valid()
      modifies `heap, `index, Entries(heap)
      ensures Valid() && Contents() == old(Contents()) - {timerId}
      ensures AsHistory() == Apply(old(AsHistory()), Op.Cancel(timerId)).(dropped := [])
      ensures Entries(heap) <= old(Entries(heap))
    {
      hide Linked, Ordered, OrderedAbove, OrderedBelow, Numbered, ContentsOf, Entries, Apart;
      if timerId !in index {
        AbsentId(index, timerId);
        return;
      }
      var entry := index[timerId];
      Found(heap, index, timerId);
      index := index - {timerId};
      var idx := entry.heapIndex;
      var lastIdx := |heap| - 1;
      PlacedApart(heap);
      WithoutEntries(heap, idx);
      WithoutLinks(heap, old(index), idx, nextTimerId, nextTimerSequence);
      WithoutOrdered(heap, idx);
      if idx == lastIdx {
        heap := heap[..lastIdx];
      } else {
        heap := heap[..lastIdx][idx := heap[lastIdx]];
        ghost var without := heap;
        AnEntry(old(heap), lastIdx);
        heap[idx].heapIndex := idx;
        BubbleDown(idx);
        BubbleUp(idx);
        LinkedPermutes(without, heap, index, nextTimerId, nextTimerSequence);
      }
    }

    /// The body of both collecting loops: take the root out of the heap and the map.
    method PopRoot() returns (entry: TimerEntry<P>)
      requires Valid() && heap != []
      modifies `heap, `index, Entries(heap)
      ensures Valid() && Entries(heap) <= old(Entries(heap))
      ensures entry == old(heap[0])
      ensures Distinct(old(Contents())) && old(Contents()) != map[] && entry.timerId == Least(old(Contents()))
      ensures old(Contents())[entry.timerId] == ItemOf(entry)
      ensures Contents() == old(Contents()) - {entry.timerId}
    {
      hide Linked, Ordered, OrderedAbove, OrderedBelow, Numbered, ContentsOf, Entries, Apart, Least;
      entry := heap[0];
      RootContents(heap, index);
      PlacedApart(heap);
      WithoutEntries(heap, 0);
      WithoutLinks(heap, index, 0, nextTimerId, nextTimerSequence);
      WithoutOrdered(heap, 0);
      index := index - {entry.timerId};
      if |heap| == 1 {
        heap := heap[..|heap| - 1];
      } else {
        heap := heap[..|heap| - 1][0 := heap[|heap| - 1]];
        ghost var without := heap;
        AnEntry(old(heap), |old(heap)| - 1);
        heap[0].heapIndex := 0;
        BubbleDown(0);
        RootHasNoParent(heap);
        LinkedPermutes(without, heap, index, nextTimerId, nextTimerSequence);
      }
    }

    /// Hands out exactly the timers due now, earliest first, and keeps exactly the others.
    method CollectDue(now: int) returns (due: seq<DueItem<P>>)
      requires Valid()
      modifies `heap, `index, Entries(heap)
      ensures Valid() && Distinct(old(Contents()))
      ensures var order := Drain(old(Contents()), Some(now));
        && (forall id | id in order :: id in old(Contents()))
        && due == DueItems(old(Contents()), order)
        && Contents() == old(Contents()) - Ids(order)
      ensures var h := Apply(old(AsHistory()), Op.CollectDue(now));
        && AsHistory() == h.(taken := [])
        && (forall id | id in h.taken :: id in old(Contents()))
        && due == DueItems(old(Contents()), h.taken)
    {
      hide Linked, Ordered, OrderedAbove, OrderedBelow, Numbered, ContentsOf, Entries, Apart, Least, Drain;
      ghost var start := Contents();
      ContentsDistinct(heap, index);
      due := [];
      ghost var order: seq<nat> := [];
      while heap != [] && heap[0].wakeTime <= now
        invariant Valid() && Entries(heap) <= old(Entries(heap))
        invariant Drained(start, Some(now), order, Contents()) && due == DueItems(start, order)
        decreases |Contents()|
      {
        ghost var before := Contents();
        RootContents(heap, index);
        var entry := PopRoot();
        DrainedNext(start, Some(now), order, before);
        due := due + [DueItem(entry.payload, entry.wakeTime)];
        order := order + [entry.timerId];
      }
      if heap != [] {
        RootContents(heap, index);
      } else {
        EmptyContents(index);
      }
      DrainedAll(start, Some(now), order, Contents());
    }

    /// Hands out every timer, earliest first.
    method CancelAll() returns (all: seq<DueItem<P>>)
      requires Valid()
      modifies `heap, `index, Entries(heap)
      ensures Valid() && Distinct(old(Contents())) && Contents() == map[]
      ensures var order := Drain(old(Contents()), None);
        (forall id | id in order :: id in old(Contents())) && all == DueItems(old(Contents()), order)
      ensures AsHistory() == Apply(old(AsHistory()), Op.CancelAll).(taken := [])
    {
      hide Linked, Ordered, OrderedAbove, OrderedBelow, Numbered, ContentsOf, Entries, Apart, Least, Drain;
      ghost var start := Contents();
      ContentsDistinct(heap, index);
      all := [];
      ghost var order: seq<nat> := [];
      while heap != []
        invariant Valid() && Entries(heap) <= old(Entries(heap))
        invariant Drained(start, None, order, Contents()) && all == DueItems(start, order)
        decreases |Contents()|
      {
        ghost var before := Contents();
        RootContents(heap, index);
        var entry := PopRoot();
        DrainedNext(start, None, order, before);
        all := all + [DueItem(entry.payload, entry.wakeTime)];
        order := order + [entry.timerId];
      }
      EmptyContents(index);
      DrainedAll(start, None, order, Contents());
    }

    /// The wake time of the true minimum.
    method EarliestWakeTime() returns (wakeTime: Option<int>)
      requires Valid()
      ensures wakeTime.None? <==> Contents() == map[]
      ensures wakeTime.Some? ==>
        && (exists id :: id in Contents() && Contents()[id].wake == wakeTime.value)
        && forall id | id in Contents() :: wakeTime.value <= Contents()[id].wake
    {
      if heap == [] {
        EmptyContents(index);
        return None;
      }
      RootContents(heap, index);
      wakeTime := Some(heap[0].wakeTime);
    }

    method Size() returns (n: nat)
      requires Valid()
      ensures n == |Contents()|
    {
      HeapSize(heap, index);
      n := |heap|;
    }
  }
}
