/// Bounded trace capture: emitters write events into ticketed buffers while the
/// capture's owner starts, stops and aborts generations, interleaved at every
/// atomic access.
module TraceCapture {
  import opened Wrappers

  datatype Kind = Worker | ExternalControl | Reaper

  datatype Options = Options(perWorker: nat, external: nat, perReaper: nat, categories: set<nat>) {
    predicate Valid() {
      perWorker > 0 && external > 0 && perReaper > 0
    }

    function Capacity(kind: Kind): nat {
      match kind case Worker => perWorker case ExternalControl => external case Reaper => perReaper
    }
  }

  datatype Event = Event(producer: nat, ticket: nat, category: nat, body: int)

  /// quiet records that a stop or an abort saw no emitter in flight.
  datatype Generation = Generation(options: Options, active: bool, inflight: nat, quiet: bool)

  datatype Buffer = Buffer(gen: nat, slot: nat, cells: seq<Option<Event>>, nextTicket: nat, dropped: nat) {
    function Committed(): nat {
      if nextTicket < |cells| then nextTicket else |cells|
    }
  }

  datatype Slot = Slot(kind: Kind, entry: Option<nat>)

  datatype Call = Call(slot: nat, category: nat, body: int)

  /// Where a thread stands inside emit_event: the call, the generation it loaded, its buffer.
  datatype Pc =
    | Idle
    | Loaded(c: Call, g: nat)                 // about to load the generation's active flag
    | Entering(c: Call, g: nat)               // about to count itself in flight
    | Inside(c: Call, g: nat)                 // about to load the slot's entry
    | HasEntry(c: Call, g: nat, b: nat)       // about to load the active flag again
    | Ticketing(c: Call, g: nat, b: nat)      // about to draw a ticket
    | Dropping(c: Call, g: nat, b: nat)       // about to count a dropped event
    | Writing(c: Call, g: nat, b: nat, ticket: nat)
    | Leaving(c: Call, g: nat)                // about to count itself out

  datatype Report = Report(b: nat, slot: nat, capacity: nat, dropped: nat, events: seq<Option<Event>>)

  /// The collector's mutex, and what its holder is about to do.
  datatype Lock =
    | Free
    | Committing(g: nat, base: nat, k: nat)         // start: about to publish slot k's new buffer
    | Spinning(g: nat, keep: bool)                  // stop or abort: waits for emitters in flight
    | Collecting(g: nat, k: nat, reports: seq<Report>)
    | Closing(g: nat)                               // about to clear the current generation

  datatype State = State(
    gens: seq<Generation>,
    current: Option<nat>,
    buffers: seq<Buffer>,
    slots: seq<Slot>,
    emitters: seq<Pc>,
    lock: Lock,
    snapshots: map<nat, seq<Report>>
  )

  datatype Action =
    | Begin(e: nat, c: Call)
    | Emit(e: nat)
    | Start(options: Options)
    | OpenSlot(kind: Kind)
    | Stop(keep: bool)              // keep: stop_capture; otherwise abort_capture
    | Hold                          // the mutex holder's next access

  function Initial(threads: nat): State {
    State([], None, [], [], seq(threads, _ => Idle), Free, map[])
  }

  // ----- emit_event -----

  function Goto(s: State, e: nat, pc: Pc): State
    requires e < |s.emitters|
  {
    s.(emitters := s.emitters[e := pc])
  }

  /// Every index an emitter holds is in range.
  predicate Legal(s: State, pc: Pc) {
    match pc
    case Idle => true
    case Loaded(_, g) => g < |s.gens|
    case Entering(_, g) => g < |s.gens|
    case Inside(_, g) => g < |s.gens|
    case Leaving(_, g) => g < |s.gens|
    case HasEntry(_, g, b) => g < |s.gens| && b < |s.buffers|
    case Ticketing(_, g, b) => g < |s.gens| && b < |s.buffers|
    case Dropping(_, g, b) => g < |s.gens| && b < |s.buffers|
    case Writing(_, g, b, t) => g < |s.gens| && b < |s.buffers| && t < |s.buffers[b].cells|
  }

  function Enter(s: State, c: Call, g: nat): State
    requires g < |s.gens|
  {
    s.(gens := s.gens[g := s.gens[g].(inflight := s.gens[g].inflight + 1)])
  }

  function Leave(s: State, g: nat): State
    requires g < |s.gens|
  {
    var n := s.gens[g].inflight;
    s.(gens := s.gens[g := s.gens[g].(inflight := if n == 0 then 0 else n - 1)])
  }

  /// The buffer the slot's entry offers to generation g.
  function EntryFor(s: State, slot: nat, g: nat): (b: Option<nat>)
    ensures b.Some? ==> b.value < |s.buffers| && s.buffers[b.value].gen == g && slot < |s.slots| && s.slots[slot].entry == b
  {
    if slot < |s.slots| then
      match s.slots[slot].entry
      case Some(b) => if b < |s.buffers| && s.buffers[b].gen == g then Some(b) else None
      case None => None
    else None
  }

  function EmitStep(s: State, e: nat): State
    requires e < |s.emitters| && Legal(s, s.emitters[e])
  {
    match s.emitters[e]
    case Idle => s
    case Loaded(c, g) => Goto(s, e, if s.gens[g].active then Entering(c, g) else Idle)
    case Entering(c, g) => Goto(Enter(s, c, g), e, Inside(c, g))
    case Inside(c, g) =>
      var b := EntryFor(s, c.slot, g);
      Goto(s, e, if b.Some? then HasEntry(c, g, b.value) else Leaving(c, g))
    case HasEntry(c, g, b) =>
      var gen := s.gens[g];
      Goto(s, e, if gen.active && c.category in gen.options.categories then Ticketing(c, g, b) else Leaving(c, g))
    case Ticketing(c, g, b) =>
      var buffer := s.buffers[b];
      Goto(s.(buffers := s.buffers[b := buffer.(nextTicket := buffer.nextTicket + 1)]), e,
           if buffer.nextTicket >= |buffer.cells| then Dropping(c, g, b) else Writing(c, g, b, buffer.nextTicket))
    case Dropping(c, g, b) =>
      var buffer := s.buffers[b];
      Goto(s.(buffers := s.buffers[b := buffer.(dropped := buffer.dropped + 1)]), e, Leaving(c, g))
    case Writing(c, g, b, t) =>
      var buffer := s.buffers[b];
      Goto(s.(buffers := s.buffers[b := buffer.(cells := buffer.cells[t := Some(Stamp(c, t))])]), e, Leaving(c, g))
    case Leaving(c, g) => Goto(Leave(s, g), e, Idle)
  }

  function Stamp(c: Call, ticket: nat): Event {
    Event(c.slot, ticket, c.category, c.body)
  }

  // ----- the mutex holder -----

  function Fresh(g: nat, slot: nat, capacity: nat): Buffer {
    Buffer(g, slot, seq(capacity, _ => None), 0, 0)
  }

  function Prepared(o: Options, g: nat, slots: seq<Slot>): (r: seq<Buffer>)
    ensures |r| == |slots|
    ensures forall k | 0 <= k < |slots| :: r[k] == Fresh(g, k, o.Capacity(slots[k].kind))
  {
    seq(|slots|, k requires 0 <= k < |slots| => Fresh(g, k, o.Capacity(slots[k].kind)))
  }

  predicate HasKind(slots: seq<Slot>, kind: Kind) {
    exists k :: 0 <= k < |slots| && slots[k].kind == kind
  }

  function ReportOf(s: State, b: nat): Report
    requires b < |s.buffers|
  {
    var buffer := s.buffers[b];
    Report(b, buffer.slot, |buffer.cells|, buffer.dropped, buffer.cells[..buffer.Committed()])
  }

  function HoldStep(s: State): State {
    match s.lock
    case Free => s
    case Committing(g, base, k) =>
      if k < |s.slots|
      then s.(slots := s.slots[k := s.slots[k].(entry := Some(base + k))], lock := Committing(g, base, k + 1))
      else s.(current := Some(g), lock := Free)
    case Spinning(g, keep) =>
      if g < |s.gens| && s.gens[g].inflight == 0
      then s.(gens := s.gens[g := s.gens[g].(quiet := true)], lock := if keep then Collecting(g, 0, []) else Closing(g))
      else s
    case Collecting(g, k, reports) =>
      if k < |s.slots| then
        var b := EntryFor(s, k, g);
        s.(lock := Collecting(g, k + 1, if b.Some? then reports + [ReportOf(s, b.value)] else reports))
      else s.(snapshots := s.snapshots[g := reports], lock := Closing(g))
    case Closing(g) => s.(current := None, lock := Free)
  }

  function StartStep(s: State, o: Options): State {
    if !s.lock.Free? || s.current.Some? || !o.Valid() then s
    else
      var g := |s.gens|;
      s.(gens := s.gens + [Generation(o, true, 0, false)], buffers := s.buffers + Prepared(o, g, s.slots),
         lock := Committing(g, |s.buffers|, 0))
  }

  /// The external and reaper producers exist once; a worker's is always new.
  function OpenStep(s: State, kind: Kind): State {
    if !s.lock.Free? || (kind != Worker && HasKind(s.slots, kind)) then s
    else
      match s.current
      case None => s.(slots := s.slots + [Slot(kind, None)])
      case Some(g) =>
        if g >= |s.gens| then s
        else
          s.(slots := s.slots + [Slot(kind, Some(|s.buffers|))],
             buffers := s.buffers + [Fresh(g, |s.slots|, s.gens[g].options.Capacity(kind))])
  }

  function StopStep(s: State, keep: bool): State {
    if !s.lock.Free? || s.current.None? || s.current.value >= |s.gens| then s
    else
      var g := s.current.value;
      s.(gens := s.gens[g := s.gens[g].(active := false)], lock := Spinning(g, keep))
  }

  predicate AllLegal(s: State) {
    forall e | 0 <= e < |s.emitters| :: Legal(s, s.emitters[e])
  }

  function Next(s: State, a: Action): State
    requires AllLegal(s)
  {
    match a
    case Begin(e, c) =>
      if e < |s.emitters| && s.emitters[e].Idle? && s.current.Some? && s.current.value < |s.gens|
      then Goto(s, e, Loaded(c, s.current.value)) else s
    case Emit(e) => if e < |s.emitters| then EmitStep(s, e) else s
    case Start(o) => StartStep(s, o)
    case OpenSlot(kind) => OpenStep(s, kind)
    case Stop(keep) => StopStep(s, keep)
    case Hold => HoldStep(s)
  }

  // ----- counting -----

  function Count(emitters: seq<Pc>, p: Pc -> bool): nat {
    if emitters == [] then 0 else Count(emitters[..|emitters| - 1], p) + if p(emitters[|emitters| - 1]) then 1 else 0
  }

  lemma {:induction false} CountPut(emitters: seq<Pc>, p: Pc -> bool, e: nat, pc: Pc)
    requires e < |emitters|
    ensures Count(emitters[e := pc], p) ==
      Count(emitters, p) + (if p(pc) then 1 else 0) - (if p(emitters[e]) then 1 else 0)
  {
    var front := emitters[..|emitters| - 1];
    if e == |emitters| - 1 {
      assert emitters[e := pc][..e] == front;
    } else {
      assert emitters[e := pc][..|emitters| - 1] == front[e := pc];
      CountPut(front, p, e, pc);
    }
  }

  lemma {:induction false} CountZero(emitters: seq<Pc>, p: Pc -> bool)
    ensures Count(emitters, p) == 0 <==> forall e | 0 <= e < |emitters| :: !p(emitters[e])
  {
    if emitters != [] {
      CountZero(emitters[..|emitters| - 1], p);
    }
  }

  predicate InFlight(pc: Pc, g: nat) {
    !pc.Idle? && !pc.Loaded? && !pc.Entering? && pc.g == g
  }

  ghost function InFlightIn(g: nat): Pc -> bool {
    (pc: Pc) => InFlight(pc, g)
  }

  ghost function DroppingIn(b: nat): Pc -> bool {
    (pc: Pc) => pc.Dropping? && pc.b == b
  }

  // ----- what every step keeps -----

  predicate Owns(pc: Pc) {
    pc.Ticketing? || pc.Dropping? || pc.Writing?
  }

  /// The generations' flags, the current one, and the mutex holder agree.
  predicate GensOk(s: State) {
    var n := |s.gens|;
    && (forall g | 0 <= g < n - 1 :: s.gens[g].quiet)
    && (forall g | 0 <= g < n :: s.gens[g].options.Valid() && (s.gens[g].quiet ==> !s.gens[g].active))
    && (s.current.Some? ==> s.current.value == n - 1)
    && (match s.lock
        case Free => if s.current.Some? then s.gens[n - 1].active else n > 0 ==> s.gens[n - 1].quiet
        case Committing(g, _, _) => g == n - 1 && s.current.None? && s.gens[g].active
        case Spinning(g, _) => s.current == Some(g) && !s.gens[g].active && !s.gens[g].quiet
        case Collecting(g, _, _) => s.current == Some(g) && s.gens[g].quiet
        case Closing(g) => s.current == Some(g) && s.gens[g].quiet)
  }

  predicate EmitterOk(s: State, pc: Pc) {
    && Legal(s, pc)
    && (pc.HasEntry? || Owns(pc) ==> s.buffers[pc.b].gen == pc.g && s.buffers[pc.b].slot == pc.c.slot)
    && (Owns(pc) ==> !s.gens[pc.g].quiet && pc.c.category in s.gens[pc.g].options.categories)
    && (pc.Writing? ==> pc.ticket < s.buffers[pc.b].nextTicket && s.buffers[pc.b].cells[pc.ticket].None?)
  }

  predicate WritesTo(pc: Pc, b: nat, t: nat) {
    pc.Writing? && pc.b == b && pc.ticket == t
  }

  /// A drawn ticket's cell is written or has its one writer; nothing else is.
  ghost predicate CellOk(s: State, b: nat, t: nat)
    requires b < |s.buffers| && t < |s.buffers[b].cells|
  {
    var buffer := s.buffers[b];
    && (t >= buffer.nextTicket ==> buffer.cells[t].None?)
    && (forall e | 0 <= e < |s.emitters| && WritesTo(s.emitters[e], b, t) :: t < buffer.nextTicket)
    && (t < buffer.nextTicket && buffer.cells[t].None? ==>
      exists e :: 0 <= e < |s.emitters| && WritesTo(s.emitters[e], b, t))
    && (buffer.cells[t].Some? ==> buffer.cells[t].value.ticket == t && buffer.cells[t].value.producer == buffer.slot)
    && (forall e, f | 0 <= e < |s.emitters| && 0 <= f < |s.emitters|
          && WritesTo(s.emitters[e], b, t) && WritesTo(s.emitters[f], b, t) :: e == f)
  }

  ghost predicate BufferOk(s: State, b: nat)
    requires b < |s.buffers|
  {
    var buffer := s.buffers[b];
    && buffer.gen < |s.gens| && buffer.slot < |s.slots| && |buffer.cells| > 0
    && (forall t | 0 <= t < |buffer.cells| :: CellOk(s, b, t))
    && buffer.dropped + Count(s.emitters, DroppingIn(b)) == buffer.nextTicket - buffer.Committed()
  }

  ghost predicate InFlightOk(s: State) {
    forall g | 0 <= g < |s.gens| :: s.gens[g].inflight == Count(s.emitters, InFlightIn(g))
  }

  predicate EntriesOk(s: State) {
    forall k | 0 <= k < |s.slots| && s.slots[k].entry.Some? ::
      s.slots[k].entry.value < |s.buffers| && s.buffers[s.slots[k].entry.value].slot == k
  }

  /// The buffer is what its slot offers to emitters.
  predicate Offered(s: State, b: nat) {
    b < |s.buffers| && s.buffers[b].slot < |s.slots| && s.slots[s.buffers[b].slot].entry == Some(b)
  }

  predicate CommitOk(s: State) {
    s.lock.Committing? ==>
      && s.lock.k <= |s.slots| && s.lock.base + |s.slots| == |s.buffers|
      && (forall b | 0 <= b < s.lock.base :: s.buffers[b].gen != s.lock.g)
      && (forall b | s.lock.base <= b < |s.buffers| :: s.buffers[b].gen == s.lock.g && s.buffers[b].slot == b - s.lock.base)
      && (forall k | 0 <= k < s.lock.k :: s.slots[k].entry == Some(s.lock.base + k))
  }

  /// Each slot's entry is a buffer of its own; while a generation is current its buffers are the entries.
  predicate SlotsOk(s: State) {
    && EntriesOk(s) && CommitOk(s)
    && (s.current.Some? ==> forall b | 0 <= b < |s.buffers| && s.buffers[b].gen == s.current.value :: Offered(s, b))
  }

  ghost predicate Reports(s: State, g: nat, reports: seq<Report>, k: nat) {
    && (forall i | 0 <= i < |reports| ::
          reports[i].b < |s.buffers| && s.buffers[reports[i].b].gen == g && reports[i] == ReportOf(s, reports[i].b))
    && (forall i | 0 <= i < |reports| :: reports[i].slot < k)
    && (forall i, j | 0 <= i < j < |reports| :: reports[i].slot < reports[j].slot)
    && (forall b | 0 <= b < |s.buffers| && s.buffers[b].gen == g && s.buffers[b].slot < k ::
          exists i :: 0 <= i < |reports| && reports[i].b == b)
  }

  ghost predicate SnapshotsOk(s: State) {
    && (forall g | g in s.snapshots :: g < |s.gens| && s.gens[g].quiet && Reports(s, g, s.snapshots[g], |s.slots|))
    && (s.lock.Collecting? ==> s.lock.k <= |s.slots| && Reports(s, s.lock.g, s.lock.reports, s.lock.k))
  }

  ghost predicate Inv(s: State) {
    && GensOk(s) && InFlightOk(s) && SlotsOk(s) && SnapshotsOk(s)
    && (forall e | 0 <= e < |s.emitters| :: EmitterOk(s, s.emitters[e]))
    && (forall b | 0 <= b < |s.buffers| :: BufferOk(s, b))
  }

  // ----- an emitter's step -----

  predicate SameFlags(g: Generation, g': Generation) {
    g' == g.(inflight := g'.inflight)
  }

  predicate SameFrame(b: Buffer, b': Buffer) {
    b'.gen == b.gen && b'.slot == b.slot && |b'.cells| == |b.cells|
  }

  /// What an emitter's step leaves alone.
  predicate EmitFrame(s: State, s': State, e: nat) {
    && e < |s.emitters| && |s'.emitters| == |s.emitters| && s'.emitters == s.emitters[e := s'.emitters[e]]
    && |s'.gens| == |s.gens| && (forall g | 0 <= g < |s.gens| :: SameFlags(s.gens[g], s'.gens[g]))
    && |s'.buffers| == |s.buffers|
    && (forall b | 0 <= b < |s.buffers| && !(Owns(s.emitters[e]) && s.emitters[e].b == b) :: s'.buffers[b] == s.buffers[b])
    && (forall b | 0 <= b < |s.buffers| :: SameFrame(s.buffers[b], s'.buffers[b]))
    && s'.slots == s.slots && s'.current == s.current && s'.lock == s.lock && s'.snapshots == s.snapshots
  }

  lemma EmitFrames(s: State, e: nat)
    requires e < |s.emitters| && Legal(s, s.emitters[e])
    ensures EmitFrame(s, EmitStep(s, e), e)
  {
  }

  lemma FrameKeepsGens(s: State, s': State, e: nat)
    requires EmitFrame(s, s', e) && GensOk(s)
    ensures GensOk(s')
  {
    assert forall g | 0 <= g < |s.gens| :: SameFlags(s.gens[g], s'.gens[g]);
  }

  lemma FrameKeepsSlots(s: State, s': State, e: nat)
    requires EmitFrame(s, s', e) && SlotsOk(s)
    ensures SlotsOk(s')
  {
    assert forall b | 0 <= b < |s.buffers| :: SameFrame(s.buffers[b], s'.buffers[b]);
    assert EntriesOk(s') && CommitOk(s');
    forall b | s.current.Some? && 0 <= b < |s.buffers| && s'.buffers[b].gen == s.current.value
      ensures Offered(s', b)
    {
      assert Offered(s, b);
    }
  }

  lemma EmitCounts(s: State, e: nat)
    requires e < |s.emitters| && Legal(s, s.emitters[e]) && InFlightOk(s)
    ensures InFlightOk(EmitStep(s, e))
  {
    var s' := EmitStep(s, e);
    forall g | 0 <= g < |s.gens|
      ensures s'.gens[g].inflight == Count(s'.emitters, InFlightIn(g))
    {
      CountPut(s.emitters, InFlightIn(g), e, s'.emitters[e]);
    }
  }

  lemma OwnPcOk(s: State, e: nat)
    requires e < |s.emitters| && EmitterOk(s, s.emitters[e])
    requires GensOk(s) && SlotsOk(s)
    requires s.emitters[e].Ticketing? ==> BufferOk(s, s.emitters[e].b)
    ensures EmitterOk(EmitStep(s, e), EmitStep(s, e).emitters[e])
  {
    if s.emitters[e].Ticketing? {
      var buffer := s.buffers[s.emitters[e].b];
      if buffer.nextTicket < |buffer.cells| { assert CellOk(s, s.emitters[e].b, buffer.nextTicket); }
    }
  }

  /// The step does not take the last cell or ticket away from under another emitter.
  lemma OtherPcOk(s: State, e: nat, f: nat)
    requires e < |s.emitters| && f < |s.emitters| && e != f
    requires EmitterOk(s, s.emitters[e]) && EmitterOk(s, s.emitters[f])
    requires s.emitters[e].Writing? ==> CellOk(s, s.emitters[e].b, s.emitters[e].ticket)
    ensures EmitterOk(EmitStep(s, e), s.emitters[f])
  {
    EmitFrames(s, e);
    var (s', pc) := (EmitStep(s, e), s.emitters[f]);
    if pc.Writing? && s.emitters[e].Writing? {
      assert WritesTo(s.emitters[e], s.emitters[e].b, s.emitters[e].ticket);
      assert WritesTo(pc, pc.b, pc.ticket);
    }
  }

  lemma CellStays(s: State, e: nat, b: nat, t: nat)
    requires e < |s.emitters| && EmitterOk(s, s.emitters[e]) && b < |s.buffers| && t < |s.buffers[b].cells|
    requires CellOk(s, b, t)
    ensures t < |EmitStep(s, e).buffers[b].cells| && CellOk(EmitStep(s, e), b, t)
  {
    EmitFrames(s, e);
    var s' := EmitStep(s, e);
    var (buffer, buffer') := (s.buffers[b], s'.buffers[b]);
    if t < buffer.nextTicket && buffer'.cells[t].None? {
      var w :| 0 <= w < |s.emitters| && WritesTo(s.emitters[w], b, t);
      assert w != e && WritesTo(s'.emitters[w], b, t);
    } else if t < buffer'.nextTicket && buffer'.cells[t].None? {
      assert WritesTo(s'.emitters[e], b, t);
    }
  }

  lemma TicketsStay(s: State, e: nat, b: nat)
    requires e < |s.emitters| && EmitterOk(s, s.emitters[e]) && b < |s.buffers| && BufferOk(s, b)
    ensures BufferOk(EmitStep(s, e), b)
  {
    hide CellOk;
    EmitFrames(s, e);
    var s' := EmitStep(s, e);
    CountPut(s.emitters, DroppingIn(b), e, s'.emitters[e]);
    forall t | 0 <= t < |s'.buffers[b].cells|
      ensures CellOk(s', b, t)
    {
      CellStays(s, e, b, t);
    }
  }

  /// The reports stay true while the generation's buffers do not change.
  lemma ReportsStay(s: State, s': State, g: nat, reports: seq<Report>, k: nat)
    requires Reports(s, g, reports, k) && |s'.buffers| >= |s.buffers|
    requires forall b | 0 <= b < |s.buffers| && s.buffers[b].gen == g :: s'.buffers[b] == s.buffers[b]
    requires forall b | 0 <= b < |s'.buffers| && (b >= |s.buffers| || s.buffers[b].gen != g) :: s'.buffers[b].gen != g
    ensures Reports(s', g, reports, k)
  {
  }

  lemma EmitKeepsSnapshots(s: State, e: nat)
    requires e < |s.emitters| && EmitterOk(s, s.emitters[e]) && GensOk(s) && SnapshotsOk(s)
    ensures SnapshotsOk(EmitStep(s, e))
  {
    hide Reports;
    EmitFrames(s, e);
    var s' := EmitStep(s, e);
    assert forall b | 0 <= b < |s.buffers| :: SameFrame(s.buffers[b], s'.buffers[b]);
    forall g | g in s.snapshots
      ensures Reports(s', g, s'.snapshots[g], |s'.slots|)
    {
      ReportsStay(s, s', g, s.snapshots[g], |s.slots|);
    }
    if s.lock.Collecting? {
      ReportsStay(s, s', s.lock.g, s.lock.reports, s.lock.k);
    }
  }

  lemma EmitKeeps(s: State, e: nat)
    requires Inv(s) && e < |s.emitters|
    ensures Inv(EmitStep(s, e))
  {
    hide GensOk, SlotsOk, SnapshotsOk, InFlightOk, CellOk, EmitStep, EmitterOk;
    assert EmitterOk(s, s.emitters[e]);
    LegalNow(s, s.emitters[e]);
    EmitFrames(s, e);
    var s' := EmitStep(s, e);
    FrameKeepsGens(s, s', e);
    FrameKeepsSlots(s, s', e);
    EmitCounts(s, e);
    EmitKeepsSnapshots(s, e);
    OwnPcOk(s, e);
    forall f | 0 <= f < |s'.emitters|
      ensures EmitterOk(s', s'.emitters[f])
    {
      if f != e {
        if s.emitters[e].Writing? { assert BufferOk(s, s.emitters[e].b); }
        OtherPcOk(s, e, f);
      }
    }
    forall b | 0 <= b < |s'.buffers|
      ensures BufferOk(s', b)
    {
      TicketsStay(s, e, b);
    }
  }

  lemma LegalNow(s: State, pc: Pc)
    requires EmitterOk(s, pc)
    ensures Legal(s, pc)
  {
  }

  // ----- the mutex holder's steps -----

  lemma FreshOk(s: State, b: nat)
    requires b < |s.buffers| && s.buffers[b] == Fresh(s.buffers[b].gen, s.buffers[b].slot, |s.buffers[b].cells|)
    requires s.buffers[b].gen < |s.gens| && s.buffers[b].slot < |s.slots| && |s.buffers[b].cells| > 0
    requires forall e | 0 <= e < |s.emitters| && (s.emitters[e].HasEntry? || Owns(s.emitters[e])) :: s.emitters[e].b != b
    ensures BufferOk(s, b)
  {
    CountZero(s.emitters, DroppingIn(b));
  }

  /// Buffers and slots may be added; what emitters and old buffers rely on stays.
  predicate Grows(s: State, s': State) {
    && s'.emitters == s.emitters
    && |s.gens| <= |s'.gens|
    && (forall g | 0 <= g < |s.gens| :: s'.gens[g].inflight == s.gens[g].inflight && s'.gens[g].options == s.gens[g].options)
    && |s.slots| <= |s'.slots|
    && |s.buffers| <= |s'.buffers| && s'.buffers[..|s.buffers|] == s.buffers
  }

  lemma GrowsKeepsBuffer(s: State, s': State, b: nat)
    requires Grows(s, s') && b < |s.buffers| && BufferOk(s, b)
    ensures BufferOk(s', b)
  {
    assert s'.buffers[b] == s.buffers[b];
    forall t | 0 <= t < |s'.buffers[b].cells|
      ensures CellOk(s', b, t)
    {
      assert CellOk(s, b, t);
    }
  }

  lemma GrowsKeepsEmitter(s: State, s': State, pc: Pc)
    requires Grows(s, s') && EmitterOk(s, pc)
    requires Owns(pc) ==> !s'.gens[pc.g].quiet
    ensures EmitterOk(s', pc)
  {
    assert forall b | 0 <= b < |s.buffers| :: s'.buffers[b] == s.buffers[b];
  }

  lemma GrowsKeeps(s: State, s': State)
    requires Inv(s) && Grows(s, s')
    requires forall e | 0 <= e < |s.emitters| && Owns(s.emitters[e]) :: s.emitters[e].g < |s'.gens| && !s'.gens[s.emitters[e].g].quiet
    requires forall g | |s.gens| <= g < |s'.gens| :: s'.gens[g].inflight == 0
    requires forall b | |s.buffers| <= b < |s'.buffers| ::
      && s'.buffers[b] == Fresh(s'.buffers[b].gen, s'.buffers[b].slot, |s'.buffers[b].cells|)
      && s'.buffers[b].gen < |s'.gens| && s'.buffers[b].slot < |s'.slots| && |s'.buffers[b].cells| > 0
    ensures InFlightOk(s')
    ensures forall e | 0 <= e < |s'.emitters| :: EmitterOk(s', s'.emitters[e])
    ensures forall b | 0 <= b < |s'.buffers| :: BufferOk(s', b)
  {
    hide GensOk, SlotsOk, SnapshotsOk, BufferOk;
    forall e | 0 <= e < |s'.emitters|
      ensures EmitterOk(s', s'.emitters[e])
    {
      GrowsKeepsEmitter(s, s', s.emitters[e]);
    }
    forall b | 0 <= b < |s'.buffers|
      ensures BufferOk(s', b)
    {
      if b < |s.buffers| { GrowsKeepsBuffer(s, s', b); } else { FreshOk(s', b); }
    }
    forall g | |s.gens| <= g < |s'.gens|
      ensures Count(s'.emitters, InFlightIn(g)) == 0
    {
      CountZero(s'.emitters, InFlightIn(g));
    }
  }

  lemma SnapshotsGrow(s: State, s': State)
    requires SnapshotsOk(s) && s'.snapshots == s.snapshots && !s.lock.Collecting? && !s'.lock.Collecting?
    requires |s.gens| <= |s'.gens| && |s.slots| <= |s'.slots|
    requires forall g | 0 <= g < |s.gens| && s.gens[g].quiet :: s'.gens[g].quiet
    requires |s.buffers| <= |s'.buffers| && s'.buffers[..|s.buffers|] == s.buffers
    requires forall b | |s.buffers| <= b < |s'.buffers| ::
      s'.buffers[b].gen >= |s.gens| || !s.gens[s'.buffers[b].gen].quiet
    requires forall b | 0 <= b < |s.buffers| :: s.buffers[b].slot < |s.slots|
    ensures SnapshotsOk(s')
  {
    assert forall b | 0 <= b < |s.buffers| :: s'.buffers[b] == s.buffers[b];
    forall g | g in s.snapshots
      ensures Reports(s', g, s'.snapshots[g], |s'.slots|)
    {
      ReportsStay(s, s', g, s.snapshots[g], |s.slots|);
      ReportsWiden(s', g, s.snapshots[g], |s.slots|, |s'.slots|);
    }
  }

  lemma ReportsWiden(s: State, g: nat, reports: seq<Report>, k: nat, more: nat)
    requires Reports(s, g, reports, k) && k <= more
    requires forall b | 0 <= b < |s.buffers| && s.buffers[b].gen == g :: s.buffers[b].slot < k
    ensures Reports(s, g, reports, more)
  {
  }

  lemma StartKeeps(s: State, o: Options)
    requires Inv(s)
    ensures Inv(StartStep(s, o))
  {
    var s' := StartStep(s, o);
    if s' != s {
      hide CellOk, Reports, EmitterOk, BufferOk, InFlightOk, SnapshotsOk, SlotsOk;
      OwnersAreCurrent(s);
      SlotsInRange(s);
      assert s'.buffers[..|s.buffers|] == s.buffers;
      GrowsKeeps(s, s');
      SnapshotsGrow(s, s');
      StartKeepsSlots(s, o);
    }
  }

  lemma StartKeepsSlots(s: State, o: Options)
    requires SlotsOk(s) && forall b | 0 <= b < |s.buffers| :: s.buffers[b].gen < |s.gens|
    ensures SlotsOk(StartStep(s, o))
  {
    if StartStep(s, o) == s {
    } else {
      assert EntriesOk(StartStep(s, o));
    }
  }

  lemma OwnersAreCurrent(s: State)
    requires Inv(s)
    ensures forall e | 0 <= e < |s.emitters| && Owns(s.emitters[e]) ::
      s.emitters[e].g < |s.gens| && !s.gens[s.emitters[e].g].quiet
  {
    forall e | 0 <= e < |s.emitters| && Owns(s.emitters[e])
      ensures s.emitters[e].g < |s.gens| && !s.gens[s.emitters[e].g].quiet
    {
      assert EmitterOk(s, s.emitters[e]);
    }
  }

  lemma SlotsInRange(s: State)
    requires Inv(s)
    ensures forall b | 0 <= b < |s.buffers| :: s.buffers[b].slot < |s.slots| && s.buffers[b].gen < |s.gens|
  {
    forall b | 0 <= b < |s.buffers|
      ensures s.buffers[b].slot < |s.slots| && s.buffers[b].gen < |s.gens|
    {
      assert BufferOk(s, b);
    }
  }

  lemma OpenKeeps(s: State, kind: Kind)
    requires Inv(s)
    ensures Inv(OpenStep(s, kind))
  {
    var s' := OpenStep(s, kind);
    if s' != s {
      hide CellOk, Reports, EmitterOk, BufferOk, InFlightOk, SnapshotsOk, SlotsOk, GensOk, HasKind, Options.Capacity;
      OwnersAreCurrent(s);
      SlotsInRange(s);
      RecordingIsFresh(s, kind);
      assert s'.buffers[..|s.buffers|] == s.buffers;
      GrowsKeeps(s, s');
      SnapshotsGrow(s, s');
      OpenKeepsSlots(s, kind);
    }
  }

  lemma RecordingIsFresh(s: State, kind: Kind)
    requires GensOk(s)
    ensures s.lock.Free? && s.current.Some? ==>
      s.current.value < |s.gens| && !s.gens[s.current.value].quiet && s.gens[s.current.value].options.Capacity(kind) > 0
    ensures GensOk(OpenStep(s, kind))
  {
  }

  lemma OpenKeepsSlots(s: State, kind: Kind)
    requires SlotsOk(s) && forall b | 0 <= b < |s.buffers| :: s.buffers[b].slot < |s.slots|
    ensures SlotsOk(OpenStep(s, kind))
  {
    var s' := OpenStep(s, kind);
    forall b | s.current.Some? && 0 <= b < |s'.buffers| && s'.buffers[b].gen == s.current.value
      ensures Offered(s', b)
    {
      if b < |s.buffers| { assert Offered(s, b); }
    }
  }

  lemma StopKeeps(s: State, keep: bool)
    requires Inv(s)
    ensures Inv(StopStep(s, keep))
  {
    var s' := StopStep(s, keep);
    if s' != s {
      hide CellOk, Reports, EmitterOk, BufferOk, InFlightOk, SnapshotsOk, SlotsOk;
      OwnersAreCurrent(s);
      SlotsInRange(s);
      GrowsKeeps(s, s');
      SnapshotsGrow(s, s');
      CurrentOffered(s, s');
    }
  }

  lemma CurrentOffered(s: State, s': State)
    requires SlotsOk(s) && s'.slots == s.slots && s'.buffers == s.buffers && s'.current == s.current && !s'.lock.Committing?
    ensures SlotsOk(s')
  {
    forall b | s.current.Some? && 0 <= b < |s.buffers| && s.buffers[b].gen == s.current.value
      ensures Offered(s', b)
    {
      assert Offered(s, b);
    }
  }

  lemma CommitKeeps(s: State)
    requires Inv(s) && s.lock.Committing?
    ensures Inv(HoldStep(s))
  {
    hide CellOk, Reports, EmitterOk, BufferOk, InFlightOk, SnapshotsOk, SlotsOk;
    var s' := HoldStep(s);
    OwnersAreCurrent(s);
    SlotsInRange(s);
    GrowsKeeps(s, s') by { assert |s.slots| == |s'.slots|; }
    SnapshotsGrow(s, s');
    CommitKeepsSlots(s);
  }

  lemma CommitKeepsSlots(s: State)
    requires SlotsOk(s) && s.lock.Committing? && s.current.None?
    ensures SlotsOk(HoldStep(s))
  {
  }

  lemma SpinKeeps(s: State)
    requires Inv(s) && s.lock.Spinning?
    ensures Inv(HoldStep(s))
  {
    var (s', g) := (HoldStep(s), s.lock.g);
    if s' != s {
      hide CellOk, Reports, EmitterOk, BufferOk, SnapshotsOk, SlotsOk;
      CountZero(s.emitters, InFlightIn(g));
      OwnersAreCurrent(s);
      SlotsInRange(s);
      forall e | 0 <= e < |s.emitters| && Owns(s.emitters[e])
        ensures s.emitters[e].g != g
      {
        assert !InFlightIn(g)(s.emitters[e]);
      }
      GrowsKeeps(s, s');
      CurrentOffered(s, s');
      SnapshotsGrow(s, s'.(lock := Closing(g)));
      StartsCollecting(s'.(lock := Closing(g)), s');
    }
  }

  lemma StartsCollecting(s: State, s': State)
    requires SnapshotsOk(s) && s.lock.Closing?
    requires s' == s || s' == s.(lock := Collecting(s.lock.g, 0, []))
    ensures SnapshotsOk(s')
  {
    assert forall g | g in s.snapshots :: Reports(s', g, s'.snapshots[g], |s'.slots|) by {
      forall g | g in s.snapshots
        ensures Reports(s', g, s'.snapshots[g], |s'.slots|)
      {
        ReportsStay(s, s', g, s.snapshots[g], |s.slots|);
      }
    }
  }

  lemma CollectKeeps(s: State)
    requires Inv(s) && s.lock.Collecting?
    ensures Inv(HoldStep(s))
  {
    hide CellOk, Reports, EmitterOk, BufferOk, SnapshotsOk, SlotsOk;
    var s' := HoldStep(s);
    OwnersAreCurrent(s);
    SlotsInRange(s);
    GrowsKeeps(s, s');
    CurrentOffered(s, s');
    CollectKeepsSnapshots(s);
  }

  lemma CollectKeepsSnapshots(s: State)
    requires GensOk(s) && SlotsOk(s) && SnapshotsOk(s) && s.lock.Collecting?
    ensures SnapshotsOk(HoldStep(s))
  {
    hide Reports;
    var (s', Collecting(g, k, reports)) := (HoldStep(s), s.lock);
    forall h | h in s.snapshots
      ensures Reports(s', h, s.snapshots[h], |s.slots|)
    {
      ReportsStay(s, s', h, s.snapshots[h], |s.slots|);
    }
    if k < |s.slots| {
      OneMoreReport(s, g, reports, k);
      ReportsStay(s, s', g, s'.lock.reports, k + 1);
    } else {
      ReportsStay(s, s', g, reports, k);
    }
  }

  lemma OneMoreReport(s: State, g: nat, reports: seq<Report>, k: nat)
    requires Reports(s, g, reports, k) && k < |s.slots| && EntriesOk(s)
    requires forall b | 0 <= b < |s.buffers| && s.buffers[b].gen == g :: Offered(s, b)
    ensures var b := EntryFor(s, k, g);
      Reports(s, g, if b.Some? then reports + [ReportOf(s, b.value)] else reports, k + 1)
  {
    var entry := EntryFor(s, k, g);
    var more := if entry.Some? then reports + [ReportOf(s, entry.value)] else reports;
    forall b | 0 <= b < |s.buffers| && s.buffers[b].gen == g && s.buffers[b].slot < k + 1
      ensures exists i :: 0 <= i < |more| && more[i].b == b
    {
      assert Offered(s, b);
      if s.buffers[b].slot == k {
        assert more[|more| - 1].b == b;
      } else {
        var i :| 0 <= i < |reports| && reports[i].b == b;
        assert more[i].b == b;
      }
    }
  }

  lemma CloseKeeps(s: State)
    requires Inv(s) && s.lock.Closing?
    ensures Inv(HoldStep(s))
  {
    hide CellOk, Reports, EmitterOk, BufferOk, SnapshotsOk;
    var s' := HoldStep(s);
    OwnersAreCurrent(s);
    SlotsInRange(s);
    GrowsKeeps(s, s');
    SnapshotsGrow(s, s');
  }

  lemma BeginKeeps(s: State, e: nat, c: Call)
    requires Inv(s) && e < |s.emitters| && s.emitters[e].Idle? && s.current.Some? && s.current.value < |s.gens|
    ensures Inv(Goto(s, e, Loaded(c, s.current.value)))
  {
    hide CellOk, Reports, BufferOk, SnapshotsOk, SlotsOk;
    var s' := Goto(s, e, Loaded(c, s.current.value));
    forall g | 0 <= g < |s.gens|
      ensures s'.gens[g].inflight == Count(s'.emitters, InFlightIn(g))
    {
      CountPut(s.emitters, InFlightIn(g), e, s'.emitters[e]);
    }
    forall b | 0 <= b < |s.buffers|
      ensures BufferOk(s', b)
    {
      BeginKeepsBuffer(s, e, c, b);
    }
    FrameKeepsSlots(s, s', e);
    BeginKeepsSnapshots(s, e, c);
  }

  lemma BeginKeepsBuffer(s: State, e: nat, c: Call, b: nat)
    requires e < |s.emitters| && s.emitters[e].Idle? && s.current.Some? && b < |s.buffers| && BufferOk(s, b)
    ensures BufferOk(Goto(s, e, Loaded(c, s.current.value)), b)
  {
    var s' := Goto(s, e, Loaded(c, s.current.value));
    CountPut(s.emitters, DroppingIn(b), e, s'.emitters[e]);
    forall t | 0 <= t < |s.buffers[b].cells|
      ensures CellOk(s', b, t)
    {
      assert CellOk(s, b, t);
      if t < s.buffers[b].nextTicket && s.buffers[b].cells[t].None? {
        var w :| 0 <= w < |s.emitters| && WritesTo(s.emitters[w], b, t);
        assert WritesTo(s'.emitters[w], b, t);
      }
    }
  }

  lemma BeginKeepsSnapshots(s: State, e: nat, c: Call)
    requires e < |s.emitters| && s.current.Some? && SnapshotsOk(s)
    ensures SnapshotsOk(Goto(s, e, Loaded(c, s.current.value)))
  {
    hide Reports;
    var s' := Goto(s, e, Loaded(c, s.current.value));
    forall g | g in s.snapshots
      ensures Reports(s', g, s.snapshots[g], |s.slots|)
    {
      ReportsStay(s, s', g, s.snapshots[g], |s.slots|);
    }
    if s.lock.Collecting? {
      ReportsStay(s, s', s.lock.g, s.lock.reports, s.lock.k);
    }
  }

  lemma NextKeeps(s: State, a: Action)
    requires Inv(s)
    ensures AllLegal(s) && Inv(Next(s, a))
  {
    hide GensOk, SlotsOk, SnapshotsOk, InFlightOk, BufferOk, EmitStep, HoldStep, StartStep, OpenStep, StopStep;
    match a
    case Begin(e, c) =>
      if e < |s.emitters| && s.emitters[e].Idle? && s.current.Some? && s.current.value < |s.gens| { BeginKeeps(s, e, c); }
    case Emit(e) => if e < |s.emitters| { EmitKeeps(s, e); }
    case Start(o) => StartKeeps(s, o);
    case OpenSlot(kind) => OpenKeeps(s, kind);
    case Stop(keep) => StopKeeps(s, keep);
    case Hold => HoldKeeps(s);
  }

  lemma HoldKeeps(s: State)
    requires Inv(s)
    ensures Inv(HoldStep(s))
  {
    hide GensOk, SlotsOk, SnapshotsOk, InFlightOk, BufferOk, EmitterOk;
    match s.lock
    case Free =>
    case Committing(_, _, _) => CommitKeeps(s);
    case Spinning(_, _) => SpinKeeps(s);
    case Collecting(_, _, _) => CollectKeeps(s);
    case Closing(_) => CloseKeeps(s);
  }

  lemma InitialKeeps(threads: nat)
    ensures Inv(Initial(threads))
  {
  }

  /// Any interleaving of emitters, starts, stops, aborts and new producers.
  ghost function Run(s: State, actions: seq<Action>): (r: State)
    requires Inv(s)
    ensures Inv(r)
    decreases |actions|
  {
    if actions == [] then s else NextKeeps(s, actions[0]); Run(Next(s, actions[0]), actions[1..])
  }

  // ----- what it means -----

  predicate QuietBuffer(s: State, b: nat) {
    b < |s.buffers| && s.buffers[b].gen < |s.gens| && s.gens[s.buffers[b].gen].quiet
  }

  lemma QuietBufferStays(s: State, a: Action, b: nat)
    requires Inv(s) && QuietBuffer(s, b)
    ensures AllLegal(s) && QuietBuffer(Next(s, a), b) && Next(s, a).buffers[b] == s.buffers[b]
  {
    hide GensOk, SlotsOk, SnapshotsOk, InFlightOk, BufferOk;
    assert AllLegal(s) by { NextKeeps(s, a); }
    if a.Emit? && a.e < |s.emitters| {
      assert EmitterOk(s, s.emitters[a.e]);
      EmitFrames(s, a.e);
    }
  }

  /// Once a stop or an abort has seen no emitter in flight, nothing ever writes to that
  /// generation's buffers again, whatever late emitters and later generations do.
  lemma {:induction false} QuietBuffersAreFinal(s: State, actions: seq<Action>, b: nat)
    requires Inv(s) && QuietBuffer(s, b)
    ensures QuietBuffer(Run(s, actions), b) && Run(s, actions).buffers[b] == s.buffers[b]
    decreases |actions|
  {
    hide GensOk, SlotsOk, SnapshotsOk, InFlightOk, BufferOk, EmitterOk, Next;
    if actions != [] {
      NextKeeps(s, actions[0]);
      QuietBufferStays(s, actions[0], b);
      QuietBuffersAreFinal(Next(s, actions[0]), actions[1..], b);
    }
  }

  predicate Written(s: State, b: nat, t: nat) {
    b < |s.buffers| && t < |s.buffers[b].cells| && s.buffers[b].cells[t].Some?
  }

  lemma CellStaysWritten(s: State, a: Action, b: nat, t: nat)
    requires Inv(s) && Written(s, b, t)
    ensures AllLegal(s) && Written(Next(s, a), b, t) && Next(s, a).buffers[b].cells[t] == s.buffers[b].cells[t]
  {
    hide GensOk, SlotsOk, SnapshotsOk, InFlightOk, BufferOk;
    assert AllLegal(s) by { NextKeeps(s, a); }
    if a.Emit? && a.e < |s.emitters| {
      assert EmitterOk(s, s.emitters[a.e]);
    }
  }

  /// A written cell keeps its event for ever.
  lemma {:induction false} CellsAreWrittenOnce(s: State, actions: seq<Action>, b: nat, t: nat)
    requires Inv(s) && Written(s, b, t)
    ensures Written(Run(s, actions), b, t) && Run(s, actions).buffers[b].cells[t] == s.buffers[b].cells[t]
    decreases |actions|
  {
    hide GensOk, SlotsOk, SnapshotsOk, InFlightOk, BufferOk, EmitterOk, Next;
    if actions != [] {
      NextKeeps(s, actions[0]);
      CellStaysWritten(s, actions[0], b, t);
      CellsAreWrittenOnce(Next(s, actions[0]), actions[1..], b, t);
    }
  }

  /// Every producer of the generation is in the snapshot once, with exactly the events of tickets
  /// 0 .. min(tickets, capacity) - 1 in ticket order, and tickets drawn are events plus drops.
  lemma SnapshotIsExact(s: State, g: nat, b: nat)
    requires Inv(s) && g in s.snapshots && b < |s.buffers| && s.buffers[b].gen == g
    ensures exists i :: 0 <= i < |s.snapshots[g]| && s.snapshots[g][i] == ReportOf(s, b)
    ensures forall i, j | 0 <= i < j < |s.snapshots[g]| :: s.snapshots[g][i].slot < s.snapshots[g][j].slot
    ensures var r := ReportOf(s, b);
      && |r.events| == s.buffers[b].Committed() <= r.capacity
      && s.buffers[b].nextTicket == |r.events| + r.dropped
      && forall t | 0 <= t < |r.events| :: r.events[t].Some? && r.events[t].value.ticket == t && r.events[t].value.producer == r.slot
  {
    assert BufferOk(s, b) && s.gens[g].quiet;
    forall e | 0 <= e < |s.emitters|
      ensures !(Owns(s.emitters[e]) && s.emitters[e].b == b)
    {
      assert EmitterOk(s, s.emitters[e]);
    }
    CountZero(s.emitters, DroppingIn(b));
    forall t | 0 <= t < s.buffers[b].Committed()
      ensures s.buffers[b].cells[t].Some? && s.buffers[b].cells[t].value.ticket == t && s.buffers[b].cells[t].value.producer == s.buffers[b].slot
    {
      assert CellOk(s, b, t);
    }
  }

  /// Generations do not mix: an emitter that may write does so into a buffer of the generation it
  /// entered, while that generation is not yet quiet, for a category it records.
  lemma GenerationsAreIsolated(s: State, e: nat)
    requires Inv(s) && e < |s.emitters| && Owns(s.emitters[e])
    ensures var pc := s.emitters[e];
      && pc.b < |s.buffers| && s.buffers[pc.b].gen == pc.g == |s.gens| - 1 && s.buffers[pc.b].slot == pc.c.slot
      && pc.c.category in s.gens[pc.g].options.categories
  {
    assert EmitterOk(s, s.emitters[e]);
  }
}
