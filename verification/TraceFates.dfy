/// The fate of every emission: what a call observed decides whether it is skipped,
/// and a call that is not skipped is in the buffer or counted as dropped.
///
/// The log follows the calls beside the capture's own state: it notes what each
/// flag load and entry load saw, and which ticket the call drew.
module TraceFates {
  import opened Wrappers
  import T = TraceCapture

  datatype Note = Note(
    e: nat,                     // the emitter
    c: T.Call,
    g: nat,                     // the generation that was current when the call began
    sawInactive: bool,          // a flag load saw the generation inactive
    sawNoBuffer: bool,          // its slot offered no buffer of that generation
    drew: Option<(nat, nat)>,   // the buffer and the ticket
    done: bool
  )

  datatype Log = Log(
    s: T.State,
    calls: seq<Note>,
    at: seq<nat>,               // each emitter's last call
    kept: set<nat>              // the generations stop_capture was called for
  )

  predicate Offers(s: T.State, slot: nat, g: nat) {
    && slot < |s.slots| && s.slots[slot].entry.Some?
    && s.slots[slot].entry.value < |s.buffers| && s.buffers[s.slots[slot].entry.value].gen == g
  }

  /// What emitter e's next access adds to the note of its call.
  function Observed(n: Note, s: T.State, e: nat, left: bool): Note
    requires e < |s.emitters|
  {
    var pc := s.emitters[e];
    if pc.Idle? || pc.g >= |s.gens| then n
    else
      var flag := (pc.Loaded? || pc.HasEntry?) && !s.gens[pc.g].active;
      n.(sawInactive := n.sawInactive || flag,
         sawNoBuffer := n.sawNoBuffer || (pc.Inside? && !Offers(s, pc.c.slot, pc.g)),
         drew := if pc.Ticketing? && pc.b < |s.buffers| then Some((pc.b, s.buffers[pc.b].nextTicket)) else n.drew,
         done := left)
  }

  function Next(l: Log, a: T.Action): Log
    requires T.AllLegal(l.s)
  {
    var s' := T.Next(l.s, a);
    match a
    case Begin(e, c) =>
      if e < |l.s.emitters| && e < |l.at| && l.s.emitters[e].Idle? && l.s.current.Some?
      then Log(s', l.calls + [Note(e, c, l.s.current.value, false, false, None, false)], l.at[e := |l.calls|], l.kept)
      else l.(s := s')
    case Emit(e) =>
      if e < |l.s.emitters| && e < |l.at| && l.at[e] < |l.calls| && !l.s.emitters[e].Idle? then
        var left := e < |s'.emitters| && s'.emitters[e].Idle?;
        l.(s := s', calls := l.calls[l.at[e] := Observed(l.calls[l.at[e]], l.s, e, left)])
      else l.(s := s')
    case Stop(keep) =>
      if keep && l.s.lock.Free? && l.s.current.Some? then l.(s := s', kept := l.kept + {l.s.current.value}) else l.(s := s')
    case _ => l.(s := s')
  }

  function Initial(threads: nat): Log {
    Log(T.Initial(threads), [], seq(threads, _ => 0), {})
  }

  // ----- counting calls -----

  function Count(calls: seq<Note>, p: Note -> bool): nat {
    if calls == [] then 0 else Count(calls[..|calls| - 1], p) + if p(calls[|calls| - 1]) then 1 else 0
  }

  lemma {:induction false} CountPut(calls: seq<Note>, p: Note -> bool, i: nat, n: Note)
    requires i < |calls|
    ensures Count(calls[i := n], p) == Count(calls, p) + (if p(n) then 1 else 0) - (if p(calls[i]) then 1 else 0)
  {
    var front := calls[..|calls| - 1];
    if i == |calls| - 1 {
      assert calls[i := n][..i] == front;
    } else {
      assert calls[i := n][..|calls| - 1] == front[i := n];
      CountPut(front, p, i, n);
    }
  }

  lemma CountAdd(calls: seq<Note>, p: Note -> bool, n: Note)
    ensures Count(calls + [n], p) == Count(calls, p) + if p(n) then 1 else 0
  {
    assert (calls + [n])[..|calls|] == calls;
  }

  function Drew(b: nat, t: nat): Note -> bool {
    (n: Note) => n.drew == Some((b, t))
  }

  function DrewFrom(b: nat): Note -> bool {
    (n: Note) => n.drew.Some? && n.drew.value.0 == b
  }

  function DrewBeyond(b: nat, capacity: nat): Note -> bool {
    (n: Note) => n.drew.Some? && n.drew.value.0 == b && n.drew.value.1 >= capacity
  }

  // ----- what every step keeps -----

  /// The three reasons to skip a call.
  predicate Skips(s: T.State, n: Note)
    requires n.g < |s.gens|
  {
    n.sawInactive || n.sawNoBuffer || n.c.category !in s.gens[n.g].options.categories
  }

  predicate InItsBuffer(s: T.State, n: Note) {
    n.drew.Some? &&
    var (b, t) := n.drew.value;
    b < |s.buffers| && s.buffers[b].gen == n.g && s.buffers[b].slot == n.c.slot && t < s.buffers[b].nextTicket
  }

  /// A drawn ticket's cell holds the call's event, unless the ticket is beyond the buffer.
  predicate Landed(s: T.State, n: Note) {
    InItsBuffer(s, n) &&
    var (b, t) := n.drew.value;
    t < |s.buffers[b].cells| ==> s.buffers[b].cells[t] == Some(T.Event(n.c.slot, t, n.c.category, n.c.body))
  }

  /// A call is skipped exactly for one of the reasons; any other one drew a ticket and landed.
  predicate Fate(s: T.State, n: Note) {
    && n.g < |s.gens|
    && (n.drew.None? <==> Skips(s, n))
    && (n.drew.Some? ==> Landed(s, n))
  }

  predicate Nothing(n: Note) {
    !n.sawInactive && !n.sawNoBuffer && n.drew.None?
  }

  predicate Underway(s: T.State, pc: T.Pc, n: Note) {
    && !pc.Idle? && pc.c == n.c && pc.g == n.g < |s.gens|
    && match pc
       case Ticketing(_, _, _) => Nothing(n) && !Skips(s, n)
       case Dropping(_, _, b) =>
         !Skips(s, n) && InItsBuffer(s, n) && n.drew.value.0 == b && n.drew.value.1 >= |s.buffers[b].cells|
       case Writing(_, _, b, t) => !Skips(s, n) && InItsBuffer(s, n) && n.drew == Some((b, t))
       case Leaving(_, _) => Fate(s, n)
       case _ => Nothing(n)
  }

  predicate NoteOk(l: Log, i: nat)
    requires i < |l.calls|
  {
    var n := l.calls[i];
    if n.done then Fate(l.s, n)
    else n.e < |l.s.emitters| == |l.at| && l.at[n.e] == i && Underway(l.s, l.s.emitters[n.e], n)
  }

  predicate BusyOk(l: Log) {
    |l.at| == |l.s.emitters| &&
    forall e | 0 <= e < |l.at| && !l.s.emitters[e].Idle? ::
      l.at[e] < |l.calls| && l.calls[l.at[e]].e == e && !l.calls[l.at[e]].done
  }

  /// How many tickets of buffer b are drawn, and the size of the buffer.
  function Tickets(s: T.State, b: nat): nat {
    if b < |s.buffers| then s.buffers[b].nextTicket else 0
  }

  function Size(s: T.State, b: nat): nat {
    if b < |s.buffers| then |s.buffers[b].cells| else 0
  }

  /// Tickets drawn are calls, one each.
  ghost predicate TicketsOk(l: Log, b: nat) {
    && Count(l.calls, DrewFrom(b)) == Tickets(l.s, b)
    && (forall t: nat :: Count(l.calls, Drew(b, t)) == if t < Tickets(l.s, b) then 1 else 0)
    && Count(l.calls, DrewBeyond(b, Size(l.s, b))) == if Tickets(l.s, b) > Size(l.s, b) then Tickets(l.s, b) - Size(l.s, b) else 0
  }

  predicate HasSize(o: T.Options, kind: T.Kind, size: nat) {
    && (kind.Worker? ==> size == o.perWorker)
    && (kind.ExternalControl? ==> size == o.external)
    && (kind.Reaper? ==> size == o.perReaper)
  }

  predicate SizesOk(s: T.State) {
    forall b | 0 <= b < |s.buffers| ::
      && s.buffers[b].gen < |s.gens| && s.buffers[b].slot < |s.slots|
      && HasSize(s.gens[s.buffers[b].gen].options, s.slots[s.buffers[b].slot].kind, |s.buffers[b].cells|)
  }

  /// While a generation is current, every producer's slot offers a buffer of it.
  predicate OffersOk(s: T.State) {
    s.current.Some? ==> forall k | 0 <= k < |s.slots| :: Offers(s, k, s.current.value)
  }

  /// A stopped generation is reported or about to be, and no other is.
  predicate KeptOk(l: Log) {
    var lock := l.s.lock;
    && (forall g | g in l.s.snapshots :: g in l.kept)
    && (forall g | g in l.kept :: g in l.s.snapshots || (lock.Spinning? && lock.g == g && lock.keep) || (lock.Collecting? && lock.g == g))
    && (lock.Spinning? && lock.keep ==> lock.g in l.kept)
    && (lock.Collecting? ==> lock.g in l.kept)
  }

  ghost predicate Inv(l: Log) {
    && T.Inv(l.s) && BusyOk(l) && SizesOk(l.s) && OffersOk(l.s) && KeptOk(l)
    && (forall i | 0 <= i < |l.calls| :: NoteOk(l, i))
    && (forall b: nat :: TicketsOk(l, b))
  }

  /// What no step takes back: options, buffers' owners and sizes, drawn tickets, written cells.
  predicate Keeps(s: T.State, s': T.State) {
    && |s.gens| <= |s'.gens| && (forall g | 0 <= g < |s.gens| :: s'.gens[g].options == s.gens[g].options)
    && |s.buffers| <= |s'.buffers|
    && (forall b | 0 <= b < |s.buffers| :: KeepsBuffer(s.buffers[b], s'.buffers[b]))
  }

  predicate KeepsBuffer(b: T.Buffer, b': T.Buffer) {
    && b'.gen == b.gen && b'.slot == b.slot && |b'.cells| == |b.cells| && b.nextTicket <= b'.nextTicket
    && forall t | 0 <= t < |b.cells| && b.cells[t].Some? :: b'.cells[t] == b.cells[t]
  }

  lemma EmitKeepsBuffers(s: T.State, e: nat)
    requires T.Inv(s) && e < |s.emitters|
    ensures T.Legal(s, s.emitters[e]) && Keeps(s, T.EmitStep(s, e))
  {
    hide T.GensOk, T.SlotsOk, T.SnapshotsOk, T.InFlightOk, T.BufferOk;
    assert T.EmitterOk(s, s.emitters[e]);
  }

  lemma HolderKeepsBuffers(s: T.State, a: T.Action)
    requires T.Inv(s) && !a.Emit?
    requires T.AllLegal(s)
    ensures var s' := T.Next(s, a);
      && Keeps(s, s') && |s.slots| <= |s'.slots| && |s.buffers| <= |s'.buffers| && s'.buffers[..|s.buffers|] == s.buffers
      && (a.Begin? || s'.emitters == s.emitters)
      && forall b | |s.buffers| <= b < |s'.buffers| :: s'.buffers[b].nextTicket == 0
  {
    hide T.SlotsOk, T.SnapshotsOk, T.InFlightOk, T.BufferOk, T.EmitterOk;
  }

  lemma FateStays(s: T.State, s': T.State, n: Note)
    requires Keeps(s, s') && Fate(s, n)
    ensures Fate(s', n)
  {
    if n.drew.Some? { assert KeepsBuffer(s.buffers[n.drew.value.0], s'.buffers[n.drew.value.0]); }
  }

  lemma UnderwayStays(s: T.State, s': T.State, pc: T.Pc, n: Note)
    requires Keeps(s, s') && Underway(s, pc, n)
    ensures Underway(s', pc, n)
  {
    if pc.Leaving? { FateStays(s, s', n); }
    else if n.drew.Some? { assert KeepsBuffer(s.buffers[n.drew.value.0], s'.buffers[n.drew.value.0]); }
  }

  /// The call's own access moves its note on.
  lemma OwnNote(s: T.State, e: nat, n: Note)
    requires e < |s.emitters| && T.EmitterOk(s, s.emitters[e]) && Underway(s, s.emitters[e], n)
    requires T.Legal(s, s.emitters[e])
    ensures var s' := T.EmitStep(s, e);
      var n' := Observed(n, s, e, s'.emitters[e].Idle?);
      && n'.e == n.e && n'.done == s'.emitters[e].Idle?
      && (if n'.done then Fate(s', n') else Underway(s', s'.emitters[e], n'))
      && (n'.drew == n.drew || (n.drew.None? && s.emitters[e].Ticketing?))
  {
  }

  lemma TicketDrawn(s: T.State, e: nat, b: nat)
    requires e < |s.emitters| && T.Legal(s, s.emitters[e])
    ensures var (pc, s') := (s.emitters[e], T.EmitStep(s, e));
      && Tickets(s', b) == Tickets(s, b) + (if pc.Ticketing? && pc.b == b then 1 else 0)
      && Size(s', b) == Size(s, b)
  {
  }

  lemma EmitKeepsTickets(l: Log, e: nat, n': Note, b: nat)
    requires e < |l.s.emitters| && T.Legal(l.s, l.s.emitters[e]) && e < |l.at| && l.at[e] < |l.calls| && TicketsOk(l, b)
    requires var (n, pc) := (l.calls[l.at[e]], l.s.emitters[e]);
      if pc.Ticketing? then n.drew.None? && n'.drew == Some((pc.b, l.s.buffers[pc.b].nextTicket)) else n'.drew == n.drew
    ensures TicketsOk(l.(s := T.EmitStep(l.s, e), calls := l.calls[l.at[e] := n']), b)
  {
    hide T.EmitStep;
    var i := l.at[e];
    TicketDrawn(l.s, e, b);
    CountPut(l.calls, DrewFrom(b), i, n');
    CountPut(l.calls, DrewBeyond(b, Size(l.s, b)), i, n');
    forall t: nat
      ensures Count(l.calls[i := n'], Drew(b, t)) == if t < Tickets(T.EmitStep(l.s, e), b) then 1 else 0
    {
      CountPut(l.calls, Drew(b, t), i, n');
    }
  }

  lemma {:induction false} NoneBeyond(calls: seq<Note>, b: nat, capacity: nat)
    ensures Count(calls, DrewBeyond(b, capacity)) <= Count(calls, DrewFrom(b))
  {
    if calls != [] {
      NoneBeyond(calls[..|calls| - 1], b, capacity);
    }
  }

  /// Calls unchanged, and buffers only added.
  lemma OthersKeepTickets(l: Log, s': T.State, b: nat)
    requires TicketsOk(l, b) && |l.s.buffers| <= |s'.buffers| && s'.buffers[..|l.s.buffers|] == l.s.buffers
    requires forall c | |l.s.buffers| <= c < |s'.buffers| :: s'.buffers[c].nextTicket == 0
    ensures TicketsOk(l.(s := s'), b)
  {
    if b < |l.s.buffers| {
      assert s'.buffers[b] == l.s.buffers[b];
    } else {
      NoneBeyond(l.calls, b, Size(s', b));
    }
  }

  lemma BeginKeepsTickets(calls: seq<Note>, n: Note, s: T.State, at: seq<nat>, kept: set<nat>, b: nat)
    requires TicketsOk(Log(s, calls, at, kept), b) && n.drew.None?
    ensures forall at' :: TicketsOk(Log(s, calls + [n], at', kept), b)
  {
    CountAdd(calls, DrewFrom(b), n);
    CountAdd(calls, DrewBeyond(b, Size(s, b)), n);
    forall t: nat
      ensures Count(calls + [n], Drew(b, t)) == Count(calls, Drew(b, t))
    {
      CountAdd(calls, Drew(b, t), n);
    }
  }

  lemma NoteStays(l: Log, l': Log, i: nat)
    requires i < |l.calls| && i < |l'.calls| && NoteOk(l, i) && Keeps(l.s, l'.s) && l'.calls[i] == l.calls[i]
    requires !l.calls[i].done ==>
      var e := l.calls[i].e; e < |l'.s.emitters| == |l'.at| && l'.at[e] == i && l'.s.emitters[e] == l.s.emitters[e]
    ensures NoteOk(l', i)
  {
    hide Keeps, Underway, Fate;
    if l.calls[i].done { FateStays(l.s, l'.s, l.calls[i]); }
    else { UnderwayStays(l.s, l'.s, l.s.emitters[l.calls[i].e], l.calls[i]); }
  }

  lemma SizesStay(s: T.State, a: T.Action)
    requires T.Inv(s) && SizesOk(s)
    requires T.AllLegal(s)
    ensures SizesOk(T.Next(s, a))
  {
    hide T.SlotsOk, T.SnapshotsOk, T.InFlightOk, T.BufferOk, T.EmitterOk;
    if a.Emit? && a.e < |s.emitters| { T.EmitFrames(s, a.e); }
  }

  lemma OfferStays(s: T.State, s': T.State, k: nat, g: nat)
    requires Offers(s, k, g) && k < |s'.slots| && s'.slots[k] == s.slots[k]
    requires |s.buffers| <= |s'.buffers| && forall b | 0 <= b < |s.buffers| :: s'.buffers[b].gen == s.buffers[b].gen
    ensures Offers(s', k, g)
  {
  }

  lemma OffersStay(s: T.State, a: T.Action)
    requires T.Inv(s) && OffersOk(s)
    requires T.AllLegal(s)
    ensures OffersOk(T.Next(s, a))
  {
    hide T.SnapshotsOk, T.InFlightOk, T.BufferOk, T.EmitterOk, Offers;
    var s' := T.Next(s, a);
    if a.Hold? && s.lock.Committing? {
      CommitOffers(s);
    } else {
      if a.Emit? && a.e < |s.emitters| {
        T.EmitFrames(s, a.e);
        assert forall b | 0 <= b < |s.buffers| :: T.SameFrame(s.buffers[b], s'.buffers[b]);
        hide T.EmitStep;
      }
      forall k | s'.current.Some? && 0 <= k < |s'.slots|
        ensures Offers(s', k, s'.current.value)
      {
        if k < |s.slots| { OfferStays(s, s', k, s.current.value); } else { OpenOffers(s, a.kind); }
      }
    }
  }

  lemma OpenOffers(s: T.State, kind: T.Kind)
    requires T.Inv(s) && s.current.Some? && |T.OpenStep(s, kind).slots| > |s.slots|
    ensures Offers(T.OpenStep(s, kind), |s.slots|, s.current.value)
  {
    hide T.SlotsOk, T.SnapshotsOk, T.InFlightOk, T.BufferOk, T.EmitterOk;
  }

  lemma CommitOffers(s: T.State)
    requires T.Inv(s) && s.lock.Committing?
    ensures OffersOk(T.HoldStep(s))
  {
    hide T.SnapshotsOk, T.InFlightOk, T.BufferOk, T.EmitterOk;
  }

  lemma KeptStays(l: Log, a: T.Action)
    requires T.Inv(l.s) && KeptOk(l)
    requires T.AllLegal(l.s)
    ensures KeptOk(Next(l, a))
  {
    hide T.SlotsOk, T.SnapshotsOk, T.InFlightOk, T.BufferOk, T.EmitterOk, Observed;
    if a.Emit? && a.e < |l.s.emitters| { T.EmitFrames(l.s, a.e); }
  }

  lemma EmitKeeps(l: Log, e: nat)
    requires Inv(l)
    requires T.AllLegal(l.s)
    ensures var l' := Next(l, T.Emit(e));
      && BusyOk(l') && (forall i | 0 <= i < |l'.calls| :: NoteOk(l', i)) && (forall b: nat :: TicketsOk(l', b))
  {
    hide T.Inv, T.EmitStep, Observed, TicketsOk, SizesOk, OffersOk, KeptOk, Keeps, Underway, Fate;
    if e < |l.s.emitters| && !l.s.emitters[e].Idle? {
      var (i, l') := (l.at[e], Next(l, T.Emit(e)));
      assert NoteOk(l, i);
      EmitterNow(l.s, e);
      EmitKeepsBuffers(l.s, e);
      T.EmitFrames(l.s, e);
      OwnNote(l.s, e, l.calls[i]);
      forall j | 0 <= j < |l'.calls|
        ensures NoteOk(l', j)
      {
        assert NoteOk(l, j);
        if j != i { NoteStays(l, l', j); }
      }
      forall b: nat
        ensures TicketsOk(l', b)
      {
        TicketWas(l.s, l.s.emitters[e], l.calls[i], e);
        EmitKeepsTickets(l, e, l'.calls[i], b);
      }
    } else if e < |l.s.emitters| {
      assert Next(l, T.Emit(e)) == l by { IdleStays(l.s, e); }
    }
  }

  lemma EmitterNow(s: T.State, e: nat)
    requires T.Inv(s) && e < |s.emitters|
    ensures T.EmitterOk(s, s.emitters[e])
  {
  }

  lemma IdleStays(s: T.State, e: nat)
    requires e < |s.emitters| && s.emitters[e].Idle?
    ensures T.EmitStep(s, e) == s
  {
  }

  lemma TicketWas(s: T.State, pc: T.Pc, n: Note, e: nat)
    requires e < |s.emitters| && s.emitters[e] == pc && T.Legal(s, pc) && Underway(s, pc, n)
    ensures var n' := Observed(n, s, e, T.EmitStep(s, e).emitters[e].Idle?);
      if pc.Ticketing? then n.drew.None? && n'.drew == Some((pc.b, s.buffers[pc.b].nextTicket)) else n'.drew == n.drew
  {
  }

  lemma BeginKeeps(l: Log, e: nat, c: T.Call)
    requires Inv(l)
    requires T.AllLegal(l.s)
    ensures var l' := Next(l, T.Begin(e, c));
      && BusyOk(l') && (forall i | 0 <= i < |l'.calls| :: NoteOk(l', i)) && (forall b: nat :: TicketsOk(l', b))
  {
    hide T.SlotsOk, T.SnapshotsOk, T.InFlightOk, T.BufferOk, T.EmitterOk, TicketsOk, SizesOk, OffersOk, KeptOk, Underway, Fate;
    var l' := Next(l, T.Begin(e, c));
    if e < |l.s.emitters| && l.s.emitters[e].Idle? && l.s.current.Some? {
      var n := Note(e, c, l.s.current.value, false, false, None, false);
      assert l'.s.emitters[e] == T.Loaded(c, n.g) && Underway(l'.s, l'.s.emitters[e], n) by { StartsUnderway(l'.s, c, n); }
      forall i | 0 <= i < |l.calls|
        ensures NoteOk(l', i)
      {
        assert NoteOk(l, i);
        if !l.calls[i].done { NotIdle(l, i); }
        NoteStays(l, l', i);
      }
      forall b: nat
        ensures TicketsOk(l', b)
      {
        assert TicketsOk(l, b) && l == Log(l.s, l.calls, l.at, l.kept);
        BeginKeepsTickets(l.calls, n, l.s, l.at, l.kept, b);
        assert TicketsOk(Log(l.s, l'.calls, l'.at, l.kept), b);
        OthersKeepTickets(Log(l.s, l'.calls, l'.at, l.kept), l'.s, b);
      }
    }
  }

  lemma StartsUnderway(s: T.State, c: T.Call, n: Note)
    requires n.c == c && n.g < |s.gens| && Nothing(n)
    ensures Underway(s, T.Loaded(c, n.g), n)
  {
  }

  lemma NotIdle(l: Log, i: nat)
    requires i < |l.calls| && NoteOk(l, i) && !l.calls[i].done
    ensures !l.s.emitters[l.calls[i].e].Idle?
  {
  }

  lemma HolderKeeps(l: Log, a: T.Action)
    requires Inv(l) && !a.Emit? && !a.Begin?
    requires T.AllLegal(l.s)
    ensures var l' := Next(l, a);
      && BusyOk(l') && (forall i | 0 <= i < |l'.calls| :: NoteOk(l', i)) && (forall b: nat :: TicketsOk(l', b))
  {
    hide T.Inv, T.Next, TicketsOk, SizesOk, OffersOk, KeptOk, Keeps, Underway, Fate;
    var l' := Next(l, a);
    HolderKeepsBuffers(l.s, a);
    forall i | 0 <= i < |l.calls|
      ensures NoteOk(l', i)
    {
      assert NoteOk(l, i);
      NoteStays(l, l', i);
    }
    forall b: nat
      ensures TicketsOk(l', b)
    {
      assert TicketsOk(l, b);
      OthersKeepTickets(l, l'.s, b);
      assert TicketsOk(l.(s := l'.s), b);
      SameTickets(l.(s := l'.s), l', b);
    }
  }

  lemma SameTickets(l: Log, l': Log, b: nat)
    requires TicketsOk(l, b) && l'.s == l.s && l'.calls == l.calls
    ensures TicketsOk(l', b)
  {
  }

  /// What every step of anybody keeps.
  lemma NextKeeps(l: Log, a: T.Action)
    requires Inv(l)
    ensures T.AllLegal(l.s) && Inv(Next(l, a))
  {
    hide T.Inv, T.Next, TicketsOk, SizesOk, OffersOk, KeptOk, NoteOk, BusyOk, Observed;
    T.NextKeeps(l.s, a);
    SizesStay(l.s, a);
    OffersStay(l.s, a);
    KeptStays(l, a);
    match a
    case Begin(e, c) => BeginKeeps(l, e, c);
    case Emit(e) => EmitKeeps(l, e);
    case _ => HolderKeeps(l, a);
  }

  lemma InitialKeeps(threads: nat)
    ensures Inv(Initial(threads))
  {
    T.InitialKeeps(threads);
  }

  /// Any interleaving of emitters, starts, stops, aborts and new producers.
  ghost function Run(l: Log, actions: seq<T.Action>): (r: Log)
    requires Inv(l)
    ensures Inv(r)
    decreases |actions|
  {
    if actions == [] then l else NextKeeps(l, actions[0]); Run(Next(l, actions[0]), actions[1..])
  }

  // ----- what it means -----

  /// Every finished call has its fate.  It was skipped, without drawing a ticket, exactly if a flag load
  /// saw its generation inactive, its slot offered no buffer of it, or its category is not recorded.
  /// Otherwise it drew one ticket of its slot's buffer in its generation: the ticket's cell holds the
  /// event with the call's slot, category and body, or the ticket lies beyond the buffer.
  lemma EveryCallHasItsFate(l: Log, i: nat)
    requires Inv(l) && i < |l.calls| && l.calls[i].done
    ensures var n := l.calls[i];
      && n.g < |l.s.gens|
      && (n.drew.None? <==> n.sawInactive || n.sawNoBuffer || n.c.category !in l.s.gens[n.g].options.categories)
      && (n.drew.Some? ==>
            var (b, t) := n.drew.value;
            && b < |l.s.buffers| && l.s.buffers[b].gen == n.g && l.s.buffers[b].slot == n.c.slot
            && (t >= |l.s.buffers[b].cells| || l.s.buffers[b].cells[t] == Some(T.Event(n.c.slot, t, n.c.category, n.c.body))))
  {
    assert NoteOk(l, i);
  }

  /// The tickets of a buffer are the calls that drew from it, each ticket one call; those beyond the
  /// buffer are counted as dropped, but for calls that are about to count themselves.
  lemma TicketsAreCalls(l: Log, b: nat)
    requires Inv(l) && b < |l.s.buffers|
    ensures var buffer := l.s.buffers[b];
      && Count(l.calls, DrewFrom(b)) == buffer.nextTicket
      && (forall t: nat | t < buffer.nextTicket :: Count(l.calls, Drew(b, t)) == 1)
      && Count(l.calls, DrewBeyond(b, |buffer.cells|)) == buffer.dropped + T.Count(l.s.emitters, T.DroppingIn(b))
  {
    hide T.GensOk, T.SlotsOk, T.SnapshotsOk, T.InFlightOk, NoteOk;
    assert TicketsOk(l, b) && T.BufferOk(l.s, b);
  }

  /// A registered producer always finds a buffer of the current generation, of its kind's size, so
  /// a call misses its buffer only if its slot is unknown or its generation no longer current.
  lemma ProducersHaveBuffers(l: Log, slot: nat)
    requires Inv(l) && slot < |l.s.slots| && l.s.current.Some?
    ensures Offers(l.s, slot, l.s.current.value) && l.s.current.value < |l.s.gens|
    ensures HasSize(l.s.gens[l.s.current.value].options, l.s.slots[slot].kind, |l.s.buffers[l.s.slots[slot].entry.value].cells|)
  {
    hide T.SnapshotsOk, T.InFlightOk, T.BufferOk, T.EmitterOk, NoteOk, TicketsOk;
    assert Offers(l.s, slot, l.s.current.value);
    assert l.s.buffers[l.s.slots[slot].entry.value].slot == slot;
  }

  /// A stopped generation's snapshot holds every call: each that drew a ticket is an event of its
  /// producer's report, at its ticket, or one of the report's drops.
  lemma SnapshotHoldsEveryCall(l: Log, g: nat, i: nat)
    requires Inv(l) && g in l.s.snapshots && i < |l.calls| && l.calls[i].g == g && l.calls[i].drew.Some?
    ensures var (n, b) := (l.calls[i], l.calls[i].drew.value.0);
      && b < |l.s.buffers|
      && exists k :: 0 <= k < |l.s.snapshots[g]| &&
           var r := l.s.snapshots[g][k];
           && r.b == b && r.slot == n.c.slot
           && (n.drew.value.1 >= r.capacity
               || (n.drew.value.1 < |r.events| && r.events[n.drew.value.1] == Some(T.Event(n.c.slot, n.drew.value.1, n.c.category, n.c.body))))
           && r.dropped == Count(l.calls, DrewBeyond(b, r.capacity))
           && |r.events| + r.dropped == Count(l.calls, DrewFrom(b))
  {
    hide T.SlotsOk, T.InFlightOk, SizesOk, OffersOk, KeptOk, BusyOk, TicketsOk;
    var n := l.calls[i];
    var (b, t) := n.drew.value;
    assert NoteOk(l, i);
    if !n.done { EmitterNow(l.s, n.e); }
    assert l.s.gens[g].quiet;
    assert Fate(l.s, n);
    T.SnapshotIsExact(l.s, g, b);
    TicketsAreCalls(l, b);
    NobodyDrops(l.s, g, b);
    var k :| 0 <= k < |l.s.snapshots[g]| && l.s.snapshots[g][k] == T.ReportOf(l.s, b);
    assert l.s.snapshots[g][k].events == l.s.buffers[b].cells[..l.s.buffers[b].Committed()];
  }

  lemma NobodyDrops(s: T.State, g: nat, b: nat)
    requires T.Inv(s) && b < |s.buffers| && s.buffers[b].gen == g && g < |s.gens| && s.gens[g].quiet
    ensures T.Count(s.emitters, T.DroppingIn(b)) == 0
  {
    forall e | 0 <= e < |s.emitters|
      ensures !T.DroppingIn(b)(s.emitters[e])
    {
      assert T.EmitterOk(s, s.emitters[e]);
    }
    T.CountZero(s.emitters, T.DroppingIn(b));
  }

  /// While nobody holds the mutex, exactly the generations that stop_capture was called for, and
  /// none of the aborted ones, have their snapshot.
  lemma StoppedAreReported(l: Log, g: nat)
    requires Inv(l) && l.s.lock.Free?
    ensures g in l.s.snapshots <==> g in l.kept
  {
  }

  // ----- every call and every operation ends -----

  function EmitLeft(pc: T.Pc): nat {
    match pc
    case Idle => 0
    case Leaving(_, _) => 1
    case Writing(_, _, _, _) => 2
    case Dropping(_, _, _) => 2
    case Ticketing(_, _, _) => 3
    case HasEntry(_, _, _) => 4
    case Inside(_, _) => 5
    case Entering(_, _) => 6
    case Loaded(_, _) => 7
  }

  /// An emission is wait-free: it is over after at most seven accesses of its thread.
  lemma EmissionsEnd(s: T.State, e: nat)
    requires T.Inv(s) && e < |s.emitters| && !s.emitters[e].Idle?
    ensures T.AllLegal(s) && EmitLeft(T.EmitStep(s, e).emitters[e]) < EmitLeft(s.emitters[e]) <= 7
  {
    hide T.GensOk, T.SlotsOk, T.SnapshotsOk, T.InFlightOk, T.BufferOk;
    forall f | 0 <= f < |s.emitters|
      ensures T.Legal(s, s.emitters[f])
    {
      assert T.EmitterOk(s, s.emitters[f]);
    }
  }

  function HoldLeft(s: T.State): nat {
    match s.lock
    case Free => 0
    case Committing(_, _, k) => 1 + if k < |s.slots| then |s.slots| - k else 0
    case Closing(_) => 1
    case Collecting(_, k, _) => 2 + if k < |s.slots| then |s.slots| - k else 0
    case Spinning(_, _) => 3 + |s.slots|
  }

  /// A start, stop or abort gives the mutex back after boundedly many accesses, but for waiting until
  /// no emitter is in flight.
  lemma HoldersEnd(s: T.State)
    requires T.Inv(s) && !s.lock.Free?
    requires s.lock.Spinning? ==> s.lock.g < |s.gens| && s.gens[s.lock.g].inflight == 0
    ensures HoldLeft(T.HoldStep(s)) < HoldLeft(s)
  {
    hide T.GensOk, T.SlotsOk, T.SnapshotsOk, T.InFlightOk, T.BufferOk, T.EmitterOk;
  }

  /// A start with valid options is accepted exactly when nothing is recording; then a new active
  /// generation with these options follows, and as soon as the mutex is free again it is current.
  /// A stop or an abort makes the current generation inactive at once.
  lemma CapturesStartAndStop(s: T.State, o: T.Options, keep: bool)
    requires T.Inv(s) && s.lock.Free?
    ensures T.StartStep(s, o) != s <==> s.current.None? && o.perWorker > 0 && o.external > 0 && o.perReaper > 0
    ensures T.StartStep(s, o) != s ==> T.StartStep(s, o).gens == s.gens + [T.Generation(o, true, 0, false)]
    ensures s.gens != [] && s.gens[|s.gens| - 1].active ==> s.current == Some(|s.gens| - 1)
    ensures s.current.Some? ==>
      && s.current.value < |s.gens| && s.gens[s.current.value].active
      && !T.StopStep(s, keep).gens[s.current.value].active && T.StopStep(s, keep).lock == T.Spinning(s.current.value, keep)
  {
    hide T.SlotsOk, T.SnapshotsOk, T.InFlightOk, T.BufferOk, T.EmitterOk;
  }
}
