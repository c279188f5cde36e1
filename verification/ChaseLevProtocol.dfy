/// The production Chase-Lev deque under concurrency: one owner (push, pop,
/// grow, rebase) against any number of thieves, as a transition system under
/// sequentially consistent interleaving.
///
/// One step is one access to a location that another thread writes, or one
/// write that another thread can read.  Reads of locations that only the owner
/// writes (bottom, the active buffer, the cells) are folded into the owner's
/// next such access.
module ChaseLevProtocol {
  import opened RingBuffer

  /// Above this index the owner tries to renumber the live interval from zero.
  const HIGH_WATERMARK: nat := 0x400_0000_0000_0000
  /// Growing is refused once the capacity has reached this bound.
  const MAX_CAPACITY: nat := 0x4000_0000_0000_0000

  /// The operation that started a rebase, to be continued afterwards.
  datatype Caller<T> = FromPush(item: T) | FromPop

  datatype Owner<T> =
    | Idle
    | PushStart(x: T)
    | PushReload(x: T)
    | PushGrow(x: T, b: nat, t: nat, grown: Buffer<T>, i: nat)
    | PushStore(x: T, b: nat)
    | PushPublish(x: T, b: nat)
    | PopStart
    | PopTop(b: nat)
    | PopCas(b: nat, item: T)
    | PopRestore(b: nat, thenRebase: bool)
    | RebaseStart(caller: Caller<T>)
    | RebaseSet(caller: Caller<T>)
    | RebaseWait(caller: Caller<T>)
    | RebaseLoad(caller: Caller<T>)
    | RebaseWrite(caller: Caller<T>, snapshot: seq<T>, i: nat)
    | RebaseBottom(caller: Caller<T>, snapshot: seq<T>)
    | RebaseClear(caller: Caller<T>, done: bool)

  datatype Thief<T> =
    | Away
    | Entering
    | Joining
    | Checking
    | Retreating
    | ReadTop
    | ReadBottom(t: nat)
    | ReadBuffer(t: nat)
    | ReadCell(t: nat, buf: nat)
    | Cas(t: nat, item: T)
    | Leaving

  /// Everything but the thieves' bookkeeping.
  datatype Core<T> = Core(
    top: nat,
    bottom: nat,
    buffers: seq<Buffer<T>>, // every buffer ever published; the last one is active
    blank: T,                // what a new cell holds
    maintenance: bool,
    owner: Owner<T>
  )

  datatype State<T> = State(
    core: Core<T>,
    activeThieves: nat,
    thieves: map<nat, Thief<T>> // thieves that ever called steal
  )

  datatype Action<T> =
    | CallPush(x: T)
    | CallPop
    | StepOwner(fault: bool)  // fault: an allocation fails or a failure is injected, where one can
    | CallSteal(id: nat)
    | StepThief(id: nat)

  /// What a step does to the deque as its callers see it.
  datatype Event<T> =
    | Quiet
    | Pushed(x: T)
    | PushRefused(x: T)
    | Popped(x: T)
    | PopEmpty
    | Stolen(x: T)
    | StealEmpty
    | StealRetry

  function Initial<T>(capacity: nat, blank: T): State<T>
    requires IsPowerOfTwo(capacity)
  {
    State(Core(0, 0, [Fresh(capacity, blank)], blank, false, Idle), 0, map[])
  }

  function Active<T>(c: Core<T>): Buffer<T>
    requires |c.buffers| > 0
  {
    c.buffers[|c.buffers| - 1]
  }

  // ----- the owner -----

  /// After push has loaded both indices: refuse, start growing, or go on to the store.
  function PushDecide<T>(c: Core<T>, x: T, b: nat, t: nat, fault: bool): (Core<T>, Event<T>)
    requires |c.buffers| > 0 && Active(c).Valid()
  {
    var capacity := Active(c).capacity;
    if b < t then (c.(owner := Idle), PushRefused(x))
    else if b - t < capacity - 1 then (c.(owner := PushStore(x, b)), Quiet)
    else if fault || capacity >= MAX_CAPACITY then (c.(owner := Idle), PushRefused(x))
    else (c.(owner := PushGrow(x, b, t, Fresh(2 * capacity, c.blank), t)), Quiet)
  }

  function RebaseReturn<T>(c: Core<T>, caller: Caller<T>, done: bool): (Core<T>, Event<T>) {
    match caller
    case FromPush(x) =>
      if done then (c.(owner := PushReload(x)), Quiet) else (c.(owner := Idle), PushRefused(x))
    case FromPop => (c.(owner := Idle), Quiet)
  }

  function PushStep<T>(c: Core<T>, fault: bool): (Core<T>, Event<T>)
    requires |c.buffers| > 0 && forall k | 0 <= k < |c.buffers| :: c.buffers[k].Valid()
    requires c.owner.PushGrow? ==> c.owner.grown.Valid()
  {
    match c.owner
    case PushStart(x) =>
      if c.bottom >= HIGH_WATERMARK || c.top >= HIGH_WATERMARK
      then (c.(owner := RebaseStart(FromPush(x))), Quiet)
      else PushDecide(c, x, c.bottom, c.top, fault)
    case PushReload(x) => PushDecide(c, x, c.bottom, c.top, fault)
    case PushGrow(x, b, t, grown, i) =>
      if i < b then (c.(owner := PushGrow(x, b, t, grown.Store(i, Active(c).Load(i)), i + 1)), Quiet)
      else if fault then (c.(owner := Idle), PushRefused(x))
      else (c.(buffers := c.buffers + [grown], owner := PushStore(x, b)), Quiet)
    case PushStore(x, b) =>
      (c.(buffers := c.buffers[|c.buffers| - 1 := Active(c).Store(b, x)], owner := PushPublish(x, b)), Quiet)
    case PushPublish(x, b) => (c.(bottom := b + 1, owner := Idle), Pushed(x))
    case _ => (c, Quiet)
  }

  function PopStep<T>(c: Core<T>): (Core<T>, Event<T>)
    requires |c.buffers| > 0 && forall k | 0 <= k < |c.buffers| :: c.buffers[k].Valid()
  {
    match c.owner
    case PopStart =>
      if c.bottom == 0 then (c.(owner := RebaseStart(FromPop)), PopEmpty)
      else (c.(bottom := c.bottom - 1, owner := PopTop(c.bottom - 1)), Quiet)
    case PopTop(b) =>
      if c.top < b then (c.(owner := Idle), Popped(Active(c).Load(b)))
      else if c.top == b then (c.(owner := PopCas(b, Active(c).Load(b))), Quiet)
      else (c.(owner := PopRestore(b, true)), PopEmpty)
    case PopCas(b, item) =>
      if c.top == b then (c.(top := b + 1, owner := PopRestore(b, false)), Popped(item))
      else (c.(owner := PopRestore(b, true)), PopEmpty)
    case PopRestore(b, thenRebase) =>
      (c.(bottom := b + 1, owner := if thenRebase then RebaseStart(FromPop) else Idle), Quiet)
    case _ => (c, Quiet)
  }

  function RebaseStep<T>(c: Core<T>, activeThieves: nat, fault: bool): (Core<T>, Event<T>)
    requires |c.buffers| > 0 && forall k | 0 <= k < |c.buffers| :: c.buffers[k].Valid()
  {
    match c.owner
    case RebaseStart(caller) =>
      if (c.bottom < HIGH_WATERMARK && c.top < HIGH_WATERMARK) || fault then RebaseReturn(c, caller, false)
      else (c.(owner := RebaseSet(caller)), Quiet)
    case RebaseSet(caller) => (c.(maintenance := true, owner := RebaseWait(caller)), Quiet)
    case RebaseWait(caller) =>
      if activeThieves != 0 then (c, Quiet) else (c.(owner := RebaseLoad(caller)), Quiet)
    case RebaseLoad(caller) =>
      if c.bottom < c.top || (c.bottom > c.top && fault) then (c.(owner := RebaseClear(caller, false)), Quiet)
      else (c.(owner := RebaseWrite(caller, Active(c).Window(c.top, c.bottom), 0)), Quiet)
    case RebaseWrite(caller, snapshot, i) =>
      if i < |snapshot| then
        (c.(buffers := c.buffers[|c.buffers| - 1 := Active(c).Store(i, snapshot[i])],
            owner := RebaseWrite(caller, snapshot, i + 1)), Quiet)
      else (c.(top := 0, owner := RebaseBottom(caller, snapshot)), Quiet)
    case RebaseBottom(caller, snapshot) =>
      (c.(bottom := |snapshot|, owner := RebaseClear(caller, true)), Quiet)
    case RebaseClear(caller, done) => RebaseReturn(c.(maintenance := false), caller, done)
    case _ => (c, Quiet)
  }

  function OwnerStep<T>(c: Core<T>, activeThieves: nat, fault: bool): (Core<T>, Event<T>)
    requires |c.buffers| > 0 && forall k | 0 <= k < |c.buffers| :: c.buffers[k].Valid()
    requires c.owner.PushGrow? ==> c.owner.grown.Valid()
  {
    if Pushing(c.owner) then PushStep(c, fault)
    else if Popping(c.owner) then PopStep(c)
    else RebaseStep(c, activeThieves, fault)
  }

  predicate Pushing<T>(o: Owner<T>) {
    o.PushStart? || o.PushReload? || o.PushGrow? || o.PushStore? || o.PushPublish?
  }

  predicate Popping<T>(o: Owner<T>) {
    o.PopStart? || o.PopTop? || o.PopCas? || o.PopRestore?
  }

  // ----- a thief -----

  /// A thief's step: the new top, the thief count, the thief's next position.
  function ThiefStep<T>(c: Core<T>, activeThieves: nat, pc: Thief<T>): (r: (nat, nat, Thief<T>, Event<T>))
    requires |c.buffers| > 0 && forall k | 0 <= k < |c.buffers| :: c.buffers[k].Valid()
    requires pc.ReadCell? ==> pc.buf < |c.buffers|
    requires Counted(pc) ==> activeThieves > 0
  {
    match pc
    case Away => (c.top, activeThieves, Away, Quiet)
    case Entering =>
      if c.maintenance then (c.top, activeThieves, Away, StealRetry) else (c.top, activeThieves, Joining, Quiet)
    case Joining => (c.top, activeThieves + 1, Checking, Quiet)
    case Checking => (c.top, activeThieves, if c.maintenance then Retreating else ReadTop, Quiet)
    case Retreating => (c.top, activeThieves - 1, Away, StealRetry)
    case ReadTop => (c.top, activeThieves, ReadBottom(c.top), Quiet)
    case ReadBottom(t) =>
      if t < c.bottom then (c.top, activeThieves, ReadBuffer(t), Quiet)
      else (c.top, activeThieves, Leaving, StealEmpty)
    case ReadBuffer(t) => (c.top, activeThieves, ReadCell(t, |c.buffers| - 1), Quiet)
    case ReadCell(t, buf) => (c.top, activeThieves, Cas(t, c.buffers[buf].Load(t)), Quiet)
    case Cas(t, item) =>
      if c.top == t then (t + 1, activeThieves, Leaving, Stolen(item))
      else (c.top, activeThieves, Leaving, StealRetry)
    case Leaving => (c.top, activeThieves - 1, Away, Quiet)
  }

  function ThiefPc<T>(s: State<T>, id: nat): Thief<T> {
    if id in s.thieves then s.thieves[id] else Away
  }

  // ----- any step -----

  ghost function Step<T>(s: State<T>, a: Action<T>): (State<T>, Event<T>)
    requires Inv(s)
  {
    match a
    case CallPush(x) =>
      (if s.core.owner.Idle? then s.(core := s.core.(owner := PushStart(x))) else s, Quiet)
    case CallPop =>
      (if s.core.owner.Idle? then s.(core := s.core.(owner := PopStart)) else s, Quiet)
    case StepOwner(fault) =>
      var (core, e) := OwnerStep(s.core, s.activeThieves, fault);
      (s.(core := core), e)
    case CallSteal(id) =>
      (if ThiefPc(s, id).Away? then s.(thieves := s.thieves[id := Entering]) else s, Quiet)
    case StepThief(id) =>
      CountedPositive(s, id);
      var (top, activeThieves, pc, e) := ThiefStep(s.core, s.activeThieves, ThiefPc(s, id));
      (State(s.core.(top := top), activeThieves, s.thieves[id := pc]), e)
  }

  // ----- the invariant -----

  /// Between a fetch_add on the thief count and the matching fetch_sub.
  predicate Counted<T>(pc: Thief<T>) {
    !pc.Away? && !pc.Entering? && !pc.Joining?
  }

  /// Past the second maintenance check and before the fetch_sub.
  predicate Guarded<T>(pc: Thief<T>) {
    Counted(pc) && !pc.Checking? && !pc.Retreating?
  }

  /// The owner has seen the thief count at zero and is renumbering the interval.
  predicate Renumbering<T>(o: Owner<T>) {
    o.RebaseLoad? || o.RebaseWrite? || o.RebaseBottom?
  }

  predicate HoldsMaintenance<T>(o: Owner<T>) {
    o.RebaseWait? || Renumbering(o) || o.RebaseClear?
  }

  /// The owner has lowered bottom for a pop that has not yet succeeded or restored it.
  predicate PopInFlight<T>(o: Owner<T>) {
    o.PopTop? || o.PopCas? || o.PopRestore?
  }

  /// One past the newest index that is still in the deque.
  function End<T>(c: Core<T>): nat {
    if PopInFlight(c.owner) then c.bottom + 1 else c.bottom
  }

  ghost predicate BuffersOk<T>(c: Core<T>) {
    && |c.buffers| > 0
    && forall k | 0 <= k < |c.buffers| :: c.buffers[k].Valid() && c.buffers[k].capacity <= MAX_CAPACITY
  }

  ghost predicate IndicesOk<T>(c: Core<T>)
    requires BuffersOk(c)
  {
    if c.owner.RebaseBottom? then c.top == 0 && c.bottom <= MAX_CAPACITY
    else c.top <= End(c) <= MAX_CAPACITY && End(c) - c.top <= Active(c).capacity - 1
  }

  ghost predicate OwnerOk<T>(c: Core<T>)
    requires BuffersOk(c)
  {
    match c.owner
    case PushReload(x) => c.bottom < MAX_CAPACITY
    case PushGrow(x, b, t, grown, i) =>
      && b == c.bottom < MAX_CAPACITY && t <= c.top && t <= i <= b && b - t < Active(c).capacity
      && grown.Valid() && grown.capacity == 2 * Active(c).capacity <= MAX_CAPACITY
      && forall j: nat | t <= j < i :: grown.Load(j) == Active(c).Load(j)
    case PushStore(x, b) =>
      b == c.bottom < MAX_CAPACITY && b - c.top < Active(c).capacity - 1
    case PushPublish(x, b) =>
      b == c.bottom < MAX_CAPACITY && b - c.top < Active(c).capacity - 1 && Active(c).Load(b) == x
    case PopTop(b) => b == c.bottom
    case PopCas(b, item) => b == c.bottom && b <= c.top && item == Active(c).Load(b)
    case PopRestore(b, _) => b == c.bottom && c.top == b + 1
    case RebaseWrite(_, snapshot, i) =>
      && i <= |snapshot| == c.bottom - c.top
      && forall j: nat | j < i :: Active(c).Load(j) == snapshot[j]
    case RebaseBottom(_, snapshot) =>
      && |snapshot| < Active(c).capacity
      && forall j: nat | j < |snapshot| :: Active(c).Load(j) == snapshot[j]
    case RebaseClear(_, done) => done ==> c.bottom < MAX_CAPACITY
    case _ => true
  }

  ghost predicate CoreOk<T>(c: Core<T>) {
    BuffersOk(c) && IndicesOk(c) && OwnerOk(c) && c.maintenance == HoldsMaintenance(c.owner)
  }

  /// What a thief's stale locals still say about the shared state.
  ghost predicate ThiefOk<T>(c: Core<T>, pc: Thief<T>)
    requires BuffersOk(c)
  {
    && (Guarded(pc) ==> !Renumbering(c.owner))
    && match pc
       case ReadBottom(t) => t <= c.top
       case ReadBuffer(t) => t <= c.top && (t == c.top ==> t < End(c))
       case ReadCell(t, buf) =>
         && t <= c.top && buf < |c.buffers|
         && (t == c.top ==> t < End(c) && c.buffers[buf].Load(t) == Active(c).Load(t))
       case Cas(t, item) =>
         t <= c.top && (t == c.top ==> t < End(c) && item == Active(c).Load(t))
       case _ => true
  }

  ghost function CountedIds<T>(thieves: map<nat, Thief<T>>): set<nat> {
    set id | id in thieves && Counted(thieves[id])
  }

  ghost predicate Inv<T>(s: State<T>) {
    && CoreOk(s.core)
    && (forall id | id in s.thieves :: ThiefOk(s.core, s.thieves[id]))
    && s.activeThieves == |CountedIds(s.thieves)|
  }

  // ----- the abstract sequence -----

  /// The deque's content, oldest first: steal takes from the front, pop from the back.
  ghost function Content<T>(c: Core<T>): seq<T>
    requires CoreOk(c)
  {
    match c.owner
    case RebaseWrite(_, snapshot, _) => snapshot
    case RebaseBottom(_, snapshot) => snapshot
    case _ => Active(c).Window(c.top, End(c))
  }

  /// The sequential deque: what an event may do to the content.
  ghost predicate Follows<T>(q: seq<T>, e: Event<T>, q': seq<T>) {
    match e
    case Pushed(x) => q' == q + [x]
    case Popped(x) => q == q' + [x]
    case Stolen(x) => q == [x] + q'
    case PopEmpty => q == [] && q' == []
    case StealEmpty => q == q' && |q| <= 1
    case _ => q == q'
  }

  /// What thieves with stale locals rely on the owner to leave alone: as long as top
  /// has not moved, the value at index top can still be read from every buffer they may hold.
  ghost predicate Undisturbed<T>(c: Core<T>, c': Core<T>)
    requires CoreOk(c) && CoreOk(c')
  {
    && c.top <= c'.top && |c.buffers| <= |c'.buffers|
    && (c.top == c'.top < End(c) ==>
      && c.top < End(c') && Active(c').Load(c.top) == Active(c).Load(c.top)
      && forall k | 0 <= k < |c.buffers| :: c'.buffers[k].Load(c.top) == c.buffers[k].Load(c.top))
  }

  ghost predicate OwnerMove<T>(c: Core<T>, activeThieves: nat, e: Event<T>, c': Core<T>)
    requires CoreOk(c)
  {
    && CoreOk(c') && Follows(Content(c), e, Content(c'))
    && (Renumbering(c.owner) || Undisturbed(c, c'))
    && (Renumbering(c'.owner) ==> Renumbering(c.owner) || activeThieves == 0)
  }

  // ----- every owner step keeps the core and follows the sequential deque -----

  lemma MaxCapacityIsPowerOfTwo()
    ensures IsPowerOfTwo(MAX_CAPACITY)
  {
    assert IsPowerOfTwo(16);
    PowersMultiply(16, 16);
    PowersMultiply(256, 256);
    PowersMultiply(0x1_0000, 0x1_0000);
    PowersMultiply(0x1_0000_0000, 0x1_0000);
    PowersMultiply(0x1_0000_0000_0000, 256);
    assert IsPowerOfTwo(64);
    PowersMultiply(0x100_0000_0000_0000, 64);
  }

  lemma PushDecideKeeps<T>(c: Core<T>, activeThieves: nat, fault: bool)
    requires CoreOk(c) && (c.owner.PushReload? || c.owner.PushStart?) && c.bottom < MAX_CAPACITY
    ensures var (c', e) := PushDecide(c, c.owner.x, c.bottom, c.top, fault); OwnerMove(c, activeThieves, e, c')
  {
    hide Slot, BitAnd, IsPowerOfTwo, Buffer.Window;
    var (c', e) := PushDecide(c, c.owner.x, c.bottom, c.top, fault);
    assert c' == c.(owner := c'.owner);
    if c'.owner.PushGrow? {
      MaxCapacityIsPowerOfTwo();
      DoubleFits(Active(c).capacity, MAX_CAPACITY);
    }
    assert OwnerOk(c');
    assert Content(c') == Content(c);
  }

  lemma PushStartKeeps<T>(c: Core<T>, activeThieves: nat, fault: bool)
    requires CoreOk(c) && c.owner.PushStart?
    ensures var (c', e) := PushStep(c, fault); OwnerMove(c, activeThieves, e, c')
  {
    hide Slot, BitAnd, IsPowerOfTwo, Buffer.Window, PushDecide;
    if c.bottom >= HIGH_WATERMARK || c.top >= HIGH_WATERMARK {
      var c' := c.(owner := RebaseStart(FromPush(c.owner.x)));
      assert CoreOk(c') && Content(c') == Content(c);
    } else {
      PushDecideKeeps(c, activeThieves, fault);
    }
  }

  lemma PushGrowKeeps<T>(c: Core<T>, activeThieves: nat, fault: bool)
    requires CoreOk(c) && c.owner.PushGrow?
    ensures var (c', e) := PushStep(c, fault); OwnerMove(c, activeThieves, e, c')
  {
    hide Slot, BitAnd, IsPowerOfTwo, Buffer.Window;
    var (c', e) := PushStep(c, fault);
    var PushGrow(x, b, t, grown, i) := c.owner;
    if i < b {
      assert c'.owner.grown == grown.Store(i, Active(c).Load(i));
      assert Content(c') == Content(c);
    } else if !fault {
      assert Active(c') == grown;
      Active(c).SameWindow(grown, c.top, b);
    }
  }

  lemma PushStoreKeeps<T>(c: Core<T>, activeThieves: nat, fault: bool)
    requires CoreOk(c) && c.owner.PushStore?
    ensures var (c', e) := PushStep(c, fault); OwnerMove(c, activeThieves, e, c')
  {
    hide Slot, BitAnd, IsPowerOfTwo, Buffer.Window;
    var (c', e) := PushStep(c, fault);
    Active(c).SameWindow(Active(c'), c.top, c.bottom);
  }

  lemma PushPublishKeeps<T>(c: Core<T>, activeThieves: nat, fault: bool)
    requires CoreOk(c) && c.owner.PushPublish?
    ensures var (c', e) := PushStep(c, fault); OwnerMove(c, activeThieves, e, c')
  {
    hide Slot, BitAnd, IsPowerOfTwo, Buffer.Window;
    Active(c).WindowEnds(c.top, c.bottom + 1);
  }

  lemma PopStartKeeps<T>(c: Core<T>, activeThieves: nat, fault: bool)
    requires CoreOk(c) && c.owner.PopStart?
    ensures var (c', e) := PopStep(c); OwnerMove(c, activeThieves, e, c')
  {
    hide Slot, BitAnd, IsPowerOfTwo, Buffer.Window;
    var (c', e) := PopStep(c);
    if c.bottom == 0 {
      assert c' == c.(owner := RebaseStart(FromPop));
      assert Content(c) == [] == Content(c');
    } else {
      assert Content(c') == Content(c);
    }
  }

  lemma PopTopKeeps<T>(c: Core<T>, activeThieves: nat, fault: bool)
    requires CoreOk(c) && c.owner.PopTop?
    ensures var (c', e) := PopStep(c); OwnerMove(c, activeThieves, e, c')
  {
    hide Slot, BitAnd, IsPowerOfTwo, Buffer.Window;
    var (c', e) := PopStep(c);
    assert CoreOk(c');
    if c.top < c.bottom {
      Active(c).WindowEnds(c.top, c.bottom + 1);
      assert Content(c') == Active(c).Window(c.top, c.bottom);
    } else if c.top == c.bottom {
      assert Content(c') == Content(c);
    } else {
      assert Content(c) == [] == Content(c');
    }
  }

  lemma PopCasKeeps<T>(c: Core<T>, activeThieves: nat, fault: bool)
    requires CoreOk(c) && c.owner.PopCas?
    ensures var (c', e) := PopStep(c); OwnerMove(c, activeThieves, e, c')
  {
    hide Slot, BitAnd, IsPowerOfTwo, Buffer.Window;
    if c.top == c.bottom { Active(c).WindowEnds(c.top, c.bottom + 1); }
  }

  lemma PopRestoreKeeps<T>(c: Core<T>, activeThieves: nat, fault: bool)
    requires CoreOk(c) && c.owner.PopRestore?
    ensures var (c', e) := PopStep(c); OwnerMove(c, activeThieves, e, c')
  {
    hide Slot, BitAnd, IsPowerOfTwo, Buffer.Window;
  }

  lemma IdleKeeps<T>(c: Core<T>, activeThieves: nat, fault: bool)
    requires CoreOk(c) && c.owner.Idle?
    ensures var (c', e) := RebaseStep(c, activeThieves, fault); OwnerMove(c, activeThieves, e, c')
  {
    hide Slot, BitAnd, IsPowerOfTwo, Buffer.Window;
  }

  lemma PushReloadKeeps<T>(c: Core<T>, activeThieves: nat, fault: bool)
    requires CoreOk(c) && c.owner.PushReload?
    ensures var (c', e) := PushStep(c, fault); OwnerMove(c, activeThieves, e, c')
  {
    hide Slot, BitAnd, IsPowerOfTwo, Buffer.Window, PushDecide;
    PushDecideKeeps(c, activeThieves, fault);
  }

  lemma RebaseStartKeeps<T>(c: Core<T>, activeThieves: nat, fault: bool)
    requires CoreOk(c) && c.owner.RebaseStart?
    ensures var (c', e) := RebaseStep(c, activeThieves, fault); OwnerMove(c, activeThieves, e, c')
  {
    hide Slot, BitAnd, IsPowerOfTwo, Buffer.Window;
  }

  lemma RebaseSetKeeps<T>(c: Core<T>, activeThieves: nat, fault: bool)
    requires CoreOk(c) && c.owner.RebaseSet?
    ensures var (c', e) := RebaseStep(c, activeThieves, fault); OwnerMove(c, activeThieves, e, c')
  {
    hide Slot, BitAnd, IsPowerOfTwo, Buffer.Window;
  }

  lemma RebaseWaitKeeps<T>(c: Core<T>, activeThieves: nat, fault: bool)
    requires CoreOk(c) && c.owner.RebaseWait?
    ensures var (c', e) := RebaseStep(c, activeThieves, fault); OwnerMove(c, activeThieves, e, c')
  {
    hide Slot, BitAnd, IsPowerOfTwo, Buffer.Window;
  }

  lemma RebaseLoadKeeps<T>(c: Core<T>, activeThieves: nat, fault: bool)
    requires CoreOk(c) && c.owner.RebaseLoad?
    ensures var (c', e) := RebaseStep(c, activeThieves, fault); OwnerMove(c, activeThieves, e, c')
  {
    hide Slot, BitAnd, IsPowerOfTwo, Buffer.Window;
  }

  lemma RebaseWriteKeeps<T>(c: Core<T>, activeThieves: nat, fault: bool)
    requires CoreOk(c) && c.owner.RebaseWrite?
    ensures var (c', e) := RebaseStep(c, activeThieves, fault); OwnerMove(c, activeThieves, e, c')
  {
    hide Slot, BitAnd, IsPowerOfTwo, Buffer.Window;
  }

  lemma RebaseBottomKeeps<T>(c: Core<T>, activeThieves: nat, fault: bool)
    requires CoreOk(c) && c.owner.RebaseBottom?
    ensures var (c', e) := RebaseStep(c, activeThieves, fault); OwnerMove(c, activeThieves, e, c')
  {
    hide Slot, BitAnd, IsPowerOfTwo, Buffer.Window;
  }

  lemma RebaseClearKeeps<T>(c: Core<T>, activeThieves: nat, fault: bool)
    requires CoreOk(c) && c.owner.RebaseClear?
    ensures var (c', e) := RebaseStep(c, activeThieves, fault); OwnerMove(c, activeThieves, e, c')
  {
    hide Slot, BitAnd, IsPowerOfTwo, Buffer.Window;
  }

  // ----- what the thieves rely on -----

  lemma CountedPositive<T>(s: State<T>, id: nat)
    ensures Counted(ThiefPc(s, id)) ==> |CountedIds(s.thieves)| > 0
  {
    if Counted(ThiefPc(s, id)) {
      assert id in CountedIds(s.thieves);
    }
  }

  /// One thief's move changes the set of counted thieves by that thief alone.
  lemma CountedAfter<T>(s: State<T>, id: nat, pc: Thief<T>)
    ensures |CountedIds(s.thieves[id := pc])| == |CountedIds(s.thieves)|
      - (if Counted(ThiefPc(s, id)) then 1 else 0) + (if Counted(pc) then 1 else 0)
  {
    var rest := CountedIds(s.thieves) - {id};
    assert CountedIds(s.thieves) == if Counted(ThiefPc(s, id)) then rest + {id} else rest;
    assert CountedIds(s.thieves[id := pc]) == if Counted(pc) then rest + {id} else rest;
  }

  lemma OwnerKeeps<T>(s: State<T>, fault: bool)
    requires Inv(s)
    ensures var (s', e) := Step(s, StepOwner(fault)); Inv(s') && Follows(Content(s.core), e, Content(s'.core))
  {
    hide Slot, BitAnd, IsPowerOfTwo, Buffer.Window, Content;
    var c, n := s.core, s.activeThieves;
    var (c', e) := OwnerStep(c, n, fault);
    OwnerMoves(c, n, fault);
    forall id | id in s.thieves
      ensures ThiefOk(c', s.thieves[id])
    {
      CountedPositive(s, id);
      assert ThiefOk(c, s.thieves[id]);
    }
  }

  lemma OwnerMoves<T>(c: Core<T>, activeThieves: nat, fault: bool)
    requires CoreOk(c)
    ensures var (c', e) := OwnerStep(c, activeThieves, fault); OwnerMove(c, activeThieves, e, c')
  {
    hide CoreOk, Follows, Undisturbed, PushStep, PopStep, RebaseStep;
    match c.owner
    case Idle => IdleKeeps(c, activeThieves, fault);
    case PushStart(_) => PushStartKeeps(c, activeThieves, fault);
    case PushReload(_) => PushReloadKeeps(c, activeThieves, fault);
    case PushGrow(_, _, _, _, _) => PushGrowKeeps(c, activeThieves, fault);
    case PushStore(_, _) => PushStoreKeeps(c, activeThieves, fault);
    case PushPublish(_, _) => PushPublishKeeps(c, activeThieves, fault);
    case PopStart => PopStartKeeps(c, activeThieves, fault);
    case PopTop(_) => PopTopKeeps(c, activeThieves, fault);
    case PopCas(_, _) => PopCasKeeps(c, activeThieves, fault);
    case PopRestore(_, _) => PopRestoreKeeps(c, activeThieves, fault);
    case RebaseStart(_) => RebaseStartKeeps(c, activeThieves, fault);
    case RebaseSet(_) => RebaseSetKeeps(c, activeThieves, fault);
    case RebaseWait(_) => RebaseWaitKeeps(c, activeThieves, fault);
    case RebaseLoad(_) => RebaseLoadKeeps(c, activeThieves, fault);
    case RebaseWrite(_, _, _) => RebaseWriteKeeps(c, activeThieves, fault);
    case RebaseBottom(_, _) => RebaseBottomKeeps(c, activeThieves, fault);
    case RebaseClear(_, _) => RebaseClearKeeps(c, activeThieves, fault);
  }

  lemma ThiefReads<T>(c: Core<T>, activeThieves: nat, pc: Thief<T>)
    requires CoreOk(c) && ThiefOk(c, pc) && !pc.Cas? && (Counted(pc) ==> activeThieves > 0)
    ensures var (top, n, pc', e) := ThiefStep(c, activeThieves, pc);
      && top == c.top && ThiefOk(c, pc') && Follows(Content(c), e, Content(c))
      && n == activeThieves - (if Counted(pc) then 1 else 0) + (if Counted(pc') then 1 else 0)
  {
    hide Slot, BitAnd, IsPowerOfTwo, Buffer.Window;
  }

  /// A thief's move that leaves the shared state alone.
  lemma ThiefMoves<T>(s: State<T>, id: nat)
    requires Inv(s) && !ThiefPc(s, id).Cas?
    ensures var (s', e) := Step(s, StepThief(id)); Inv(s') && Follows(Content(s.core), e, Content(s'.core))
  {
    hide Slot, BitAnd, IsPowerOfTwo, Buffer.Window, IndicesOk, OwnerOk, Content, Follows;
    CountedPositive(s, id);
    ThiefReads(s.core, s.activeThieves, ThiefPc(s, id));
    var (top, activeThieves, pc, e) := ThiefStep(s.core, s.activeThieves, ThiefPc(s, id));
    CountedAfter(s, id, pc);
    assert s.core.(top := top) == s.core;
  }

  lemma CasTakesFront<T>(c: Core<T>, item: T)
    requires CoreOk(c) && ThiefOk(c, Cas(c.top, item))
    ensures var c' := c.(top := c.top + 1); CoreOk(c') && Follows(Content(c), Stolen(item), Content(c'))
  {
    hide Slot, BitAnd, IsPowerOfTwo, Buffer.Window;
    Active(c).WindowEnds(c.top, End(c));
  }

  /// The compare-and-swap on top: success takes the value pushed at that index, however old the thief's buffer is.
  lemma CasMoves<T>(s: State<T>, id: nat)
    requires Inv(s) && ThiefPc(s, id).Cas?
    ensures var (s', e) := Step(s, StepThief(id)); Inv(s') && Follows(Content(s.core), e, Content(s'.core))
  {
    hide Slot, BitAnd, IsPowerOfTwo, Buffer.Window, IndicesOk, OwnerOk, Content;
    var Cas(t, item) := s.thieves[id];
    CountedPositive(s, id);
    CountedAfter(s, id, Leaving);
    var c := s.core;
    if c.top == t {
      CasTakesFront(c, item);
      var c' := c.(top := t + 1);
      forall other | other in s.thieves
        ensures ThiefOk(c', s.thieves[other])
      {
        assert ThiefOk(c, s.thieves[other]);
      }
    }
  }

  /// Every step, by whichever thread, is one event of the sequential deque on the content.
  lemma StepRefines<T>(s: State<T>, a: Action<T>)
    requires Inv(s)
    ensures var (s', e) := Step(s, a); Inv(s') && Follows(Content(s.core), e, Content(s'.core))
  {
    hide Slot, BitAnd, IsPowerOfTwo, Buffer.Window;
    match a
    case StepOwner(fault) => OwnerKeeps(s, fault);
    case StepThief(id) =>
      if ThiefPc(s, id).Cas? { CasMoves(s, id); } else { ThiefMoves(s, id); }
    case CallPush(_) => Calls(s, a);
    case CallPop => Calls(s, a);
    case CallSteal(id) =>
      if ThiefPc(s, id).Away? { CountedAfter(s, id, Entering); }
  }

  lemma Calls<T>(s: State<T>, a: Action<T>)
    requires Inv(s) && (a.CallPush? || a.CallPop?)
    ensures var (s', e) := Step(s, a); Inv(s') && Follows(Content(s.core), e, Content(s'.core))
  {
    hide Slot, BitAnd, IsPowerOfTwo, Buffer.Window;
    var (s', e) := Step(s, a);
    forall id | id in s.thieves
      ensures ThiefOk(s'.core, s.thieves[id])
    {
      assert ThiefOk(s.core, s.thieves[id]);
    }
  }
}
