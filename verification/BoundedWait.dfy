/// No starvation: a FIFO task of any band is claimed within a number of claims
/// fixed by its position and its band, whatever arrives and whoever else claims.
module BoundedWait {
  import opened ReadySpec
  import opened Wrappers

  predicate Waits(s: System, b: nat, x: Queued)
    requires |s.bands| == 4 && b < 4
  {
    x in s.bands[b].fifo
  }

  predicate Once(fifo: seq<Queued>, x: Queued) {
    forall i, j | 0 <= i < j < |fifo| :: !(fifo[i] == x && fifo[j] == x)
  }

  function Position(fifo: seq<Queued>, x: Queued): (k: nat)
    requires x in fifo
    ensures k < |fifo| && fifo[k] == x
  {
    if fifo[0] == x then 0 else 1 + Position(fifo[1..], x)
  }

  /// The task is queued once, and no event queues it again.
  predicate NeverAgain(events: seq<Event>, x: Queued) {
    forall i | 0 <= i < |events| :: match events[i]
      case Publish(q) => q != x
      case Cleanup(localResumes) => x !in localResumes
      case Claim(_) => true
  }

  /// How many visits of the band by claimant i take the task out, at most.
  function Need(s: System, i: nat, b: nat, x: Queued): nat
    requires |s.bands| == 4 && b < 4 && Waits(s, b, x)
    requires i < |s.claimants| && |s.claimants[i].bursts| == 4
  {
    var burst := s.claimants[i].bursts[b];
    9 * Position(s.bands[b].fifo, x) + 9 - (if burst < BURST_LIMIT then burst else BURST_LIMIT)
  }

  // ----- positions only shrink -----

  lemma PositionIs(fifo: seq<Queued>, x: Queued, k: nat)
    requires k < |fifo| && fifo[k] == x && Once(fifo, x)
    ensures x in fifo && Position(fifo, x) == k
  {
  }

  lemma AppendKeepsPosition(fifo: seq<Queued>, more: seq<Queued>, x: Queued)
    requires Once(fifo, x) && x !in more
    ensures Once(fifo + more, x) && (x in fifo + more <==> x in fifo)
    ensures x in fifo ==> Position(fifo + more, x) == Position(fifo, x)
  {
    if x in fifo {
      PositionIs(fifo + more, x, Position(fifo, x));
    }
  }

  lemma PopMovesUp(fifo: seq<Queued>, x: Queued)
    requires Once(fifo, x) && fifo != []
    ensures Once(fifo[1..], x) && (x in fifo[1..] ==> x in fifo)
    ensures x in fifo[1..] ==> Position(fifo[1..], x) == Position(fifo, x) - 1
  {
    if x in fifo[1..] {
      PositionIs(fifo, x, Position(fifo[1..], x) + 1);
    }
  }

  lemma {:induction false} ResumesMoveUp(fifo: seq<Queued>, x: Queued)
    requires Once(fifo, x)
    ensures Once(Resumes(fifo), x) && (x in Resumes(fifo) <==> x in fifo && x.task.resume)
    ensures x in Resumes(fifo) ==> Position(Resumes(fifo), x) <= Position(fifo, x)
  {
    if fifo != [] {
      var rest := fifo[1..];
      ResumesMoveUp(rest, x);
      if fifo[0] == x { assert x !in rest; }
    }
  }

  lemma {:induction false} OfBandMembers(s: seq<Queued>, b: nat, x: Queued)
    ensures x in OfBand(s, b) <==> x in s && x.task.priority.Index() == b
  {
    if s != [] {
      OfBandMembers(s[1..], b, x);
    }
  }

  // ----- one step -----

  predicate Queueing(s: System, b: nat, x: Queued) {
    |s.bands| == 4 && b < 4 && Once(s.bands[b].fifo, x)
  }

  lemma PublishKeeps(s: System, q: Queued, b: nat, x: Queued, i: nat)
    requires s.Valid() && Queueing(s, b, x) && q != x && i < |s.claimants|
    ensures var s' := Step(s, Publish(q));
      && Queueing(s', b, x) && Waits(s', b, x) == Waits(s, b, x)
      && (Waits(s, b, x) ==> Need(s', i, b, x) == Need(s, i, b, x))
  {
    AppendKeepsPosition(s.bands[b].fifo, [q], x);
  }

  lemma CleanupKeeps(s: System, localResumes: seq<Queued>, b: nat, x: Queued, i: nat)
    requires s.Valid() && Queueing(s, b, x) && x !in localResumes && i < |s.claimants|
    ensures var s' := Step(s, Cleanup(localResumes));
      && Queueing(s', b, x) && (Waits(s', b, x) <==> Waits(s, b, x) && x.task.resume)
      && (Waits(s', b, x) ==> Need(s', i, b, x) <= Need(s, i, b, x))
  {
    var fifo := s.bands[b].fifo;
    ResumesMoveUp(fifo, x);
    OfBandMembers(localResumes, b, x);
    AppendKeepsPosition(Resumes(fifo), OfBand(localResumes, b), x);
  }

  lemma ClaimKeeps(s: System, j: nat, b: nat, x: Queued, i: nat)
    requires s.Valid() && Queueing(s, b, x) && i < |s.claimants|
    ensures var s' := Step(s, Claim(j));
      && Queueing(s', b, x) && (Waits(s', b, x) ==> Waits(s, b, x))
      && (Waits(s', b, x) ==> Need(s', i, b, x) + (if i == j && Target(s.claimants[i]) == b then 1 else 0) <= Need(s, i, b, x))
      && (Waits(s, b, x) ==>
        s'.claimants[i].calendar == if i == j then NextSlot(s.claimants[i].calendar) else s.claimants[i].calendar)
  {
    hide Position, Once, IsLeast, Distinct;
    if j < |s.claimants| && s.bands[b].fifo != [] {
      PopMovesUp(s.bands[b].fifo, x);
    }
  }

  // ----- the calendar -----

  predicate InSlot(calendar: nat, b: nat)
    requires calendar < CALENDAR_LENGTH
  {
    CALENDAR[calendar].Index() == b
  }

  /// How many of the next n slots belong to band b.
  function Visits(calendar: nat, b: nat, n: nat): nat
    requires calendar < CALENDAR_LENGTH
    decreases n
  {
    if n == 0 then 0
    else (if InSlot(calendar, b) then 1 else 0) + Visits(NextSlot(calendar), b, n - 1)
  }

  function Later(calendar: nat, n: nat): (later: nat)
    requires calendar < CALENDAR_LENGTH
    ensures later < CALENDAR_LENGTH
    decreases n
  {
    if n == 0 then calendar else Later(NextSlot(calendar), n - 1)
  }

  /// How many of the fifteen slots belong to band b.
  function Weight(b: nat): nat
    requires b < 4
  {
    match b case 0 => 1 case 1 => 2 case 2 => 4 case _ => 8
  }

  lemma {:induction false} VisitsGrow(calendar: nat, b: nat, m: nat, n: nat)
    requires calendar < CALENDAR_LENGTH && m <= n
    ensures Visits(calendar, b, m) <= Visits(calendar, b, n)
    decreases m
  {
    if m > 0 {
      VisitsGrow(NextSlot(calendar), b, m - 1, n - 1);
    }
  }

  lemma {:induction false} VisitsAdd(calendar: nat, b: nat, m: nat, n: nat)
    requires calendar < CALENDAR_LENGTH
    ensures Visits(calendar, b, m + n) == Visits(calendar, b, m) + Visits(Later(calendar, m), b, n)
    decreases m
  {
    hide NextSlot, InSlot;
    if m > 0 {
      VisitsAdd(NextSlot(calendar), b, m - 1, n);
    }
  }

  lemma {:induction false} LaterIs(calendar: nat, n: nat)
    requires calendar < CALENDAR_LENGTH && n <= CALENDAR_LENGTH
    ensures Later(calendar, n) == if calendar + n < CALENDAR_LENGTH then calendar + n else calendar + n - CALENDAR_LENGTH
    decreases n
  {
    if n > 0 {
      LaterIs(NextSlot(calendar), n - 1);
    }
  }

  /// Every even slot is Critical's, every fourth High's, slot 7 is Low's and slots 3 and 11 are Normal's.
  lemma SlotIs(calendar: nat)
    requires calendar < CALENDAR_LENGTH
    ensures CALENDAR[calendar].Index() ==
      if calendar % 2 == 0 then 3 else if calendar % 4 == 1 then 2 else if calendar == 7 then 0 else 1
  {
  }

  /// The slots of band b from this one to the end of the round.
  function Rest(calendar: nat, b: nat): nat
    requires calendar <= CALENDAR_LENGTH && b < 4
  {
    match b
    case 0 => if calendar <= 7 then 1 else 0
    case 1 => (19 - calendar) / 8
    case 2 => (17 - calendar) / 4
    case _ => (16 - calendar) / 2
  }

  lemma RestStep(calendar: nat, b: nat)
    requires calendar < CALENDAR_LENGTH && b < 4
    ensures Rest(CALENDAR_LENGTH, b) == 0
    ensures Rest(calendar, b) == (if InSlot(calendar, b) then 1 else 0) + Rest(calendar + 1, b)
  {
    SlotIs(calendar);
  }

  lemma {:induction false} RestOfRound(calendar: nat, b: nat, n: nat)
    requires b < 4 && calendar + n == CALENDAR_LENGTH
    requires n > 0
    ensures Visits(calendar, b, n) == Rest(calendar, b)
    decreases n
  {
    hide InSlot, NextSlot, Rest;
    RestStep(calendar, b);
    NextSlotIs(calendar);
    if n > 1 {
      RestOfRound(calendar + 1, b, n - 1);
    }
  }

  lemma NextSlotIs(calendar: nat)
    requires calendar < CALENDAR_LENGTH
    ensures NextSlot(calendar) == if calendar + 1 == CALENDAR_LENGTH then 0 else calendar + 1
  {
  }

  /// From any slot on, fifteen consecutive slots visit a band exactly as often as its weight.
  lemma {:induction false} RoundVisits(calendar: nat, b: nat, n: nat)
    requires calendar < CALENDAR_LENGTH && b < 4 && n == CALENDAR_LENGTH
    ensures Later(calendar, n) == calendar
    ensures Visits(calendar, b, n) == Weight(b)
    decreases calendar
  {
    hide Visits, Later, InSlot, NextSlot;
    LaterIs(calendar, n);
    if calendar == 0 {
      RestOfRound(0, b, n);
    } else {
      var before := calendar - 1;
      RoundVisits(before, b, n);
      NextSlotIs(before);
      VisitsAdd(before, b, n, 1);
      VisitsAdd(before, b, 1, n);
      OneVisit(before, b);
    }
  }

  lemma OneVisit(calendar: nat, b: nat)
    requires calendar < CALENDAR_LENGTH
    ensures Visits(calendar, b, 1) == if InSlot(calendar, b) then 1 else 0
    ensures Later(calendar, 1) == NextSlot(calendar)
  {
  }

  lemma {:induction false} RoundsVisit(calendar: nat, b: nat, m: nat, n: nat)
    requires calendar < CALENDAR_LENGTH && b < 4 && n == CALENDAR_LENGTH * m
    ensures Visits(calendar, b, n) == Weight(b) * m
    decreases m
  {
    hide InSlot, NextSlot, Weight, Later;
    if m > 0 {
      var rest := CALENDAR_LENGTH * (m - 1);
      RoundsVisit(calendar, b, m - 1, rest);
      var round: nat := CALENDAR_LENGTH;
      RoundVisits(calendar, b, round);
      VisitsAdd(calendar, b, round, rest);
      Distribute(Weight(b), m);
    }
  }

  lemma Distribute(w: nat, m: nat)
    requires m > 0
    ensures w * m == w + w * (m - 1)
  {
  }

  // ----- whole runs -----

  /// How often claimant i claims.
  function Claims(events: seq<Event>, i: nat): nat {
    if events == [] then 0 else (if events[0] == Claim(i) then 1 else 0) + Claims(events[1..], i)
  }

  function After(calendar: nat, claims: bool): nat
    requires calendar < CALENDAR_LENGTH
  {
    if claims then NextSlot(calendar) else calendar
  }

  lemma StepKeeps(s: System, e: Event, b: nat, x: Queued, i: nat)
    requires s.Valid() && Queueing(s, b, x) && i < |s.claimants| && NeverAgain([e], x)
    ensures var s' := Step(s, e);
      && Queueing(s', b, x) && (Waits(s', b, x) ==> Waits(s, b, x))
      && (Waits(s', b, x) ==>
        Need(s', i, b, x) + (if e == Claim(i) && InSlot(s.claimants[i].calendar, b) then 1 else 0) <= Need(s, i, b, x))
      && (Waits(s', b, x) ==> s'.claimants[i].calendar == After(s.claimants[i].calendar, e == Claim(i)))
  {
    assert [e][0] == e;
    match e
    case Publish(q) => PublishKeeps(s, q, b, x, i);
    case Claim(j) => ClaimKeeps(s, j, b, x, i);
    case Cleanup(localResumes) => CleanupKeeps(s, localResumes, b, x, i);
  }

  /// A task that still waits has cost claimant i all its visits to the band.
  lemma {:induction false} VisitsAreSpent(s: System, events: seq<Event>, b: nat, x: Queued, i: nat)
    requires s.Valid() && Queueing(s, b, x) && i < |s.claimants| && NeverAgain(events, x)
    ensures var s' := Run(s, events);
      Waits(s', b, x) ==>
        && Waits(s, b, x)
        && Need(s', i, b, x) + Visits(s.claimants[i].calendar, b, Claims(events, i)) <= Need(s, i, b, x)
    decreases |events|
  {
    hide Step, Need, InSlot, NextSlot, System.Valid;
    if events != [] {
      assert NeverAgain([events[0]], x) && NeverAgain(events[1..], x);
      StepKeeps(s, events[0], b, x, i);
      VisitsAreSpent(Step(s, events[0]), events[1..], b, x, i);
    }
  }

  function CeilDiv(a: nat, d: nat): (q: nat)
    requires d > 0
    ensures d * q >= a
  {
    (a + d - 1) / d
  }

  /// The number of claims that reach position k of band b's FIFO.
  function Bound(b: nat, k: nat): nat
    requires b < 4
  {
    CALENDAR_LENGTH * CeilDiv(9 * (k + 1), Weight(b))
  }

  /// Bounded wait: after that many claims of one claimant the task at position k is no longer
  /// queued, under any arrivals, clean-ups and claims of others.
  lemma ClaimedWithinBound(s: System, events: seq<Event>, b: nat, x: Queued, i: nat)
    requires s.Valid() && Queueing(s, b, x) && Waits(s, b, x) && i < |s.claimants| && NeverAgain(events, x)
    requires Claims(events, i) >= Bound(b, Position(s.bands[b].fifo, x))
    ensures !Waits(Run(s, events), b, x)
  {
    hide Run, Position, Once, Distinct;
    var k := Position(s.bands[b].fifo, x);
    var (cal, rounds) := (s.claimants[i].calendar, CeilDiv(9 * (k + 1), Weight(b)));
    VisitsAreSpent(s, events, b, x, i);
    RoundsVisit(cal, b, rounds, Bound(b, k));
    VisitsGrow(cal, b, Bound(b, k), Claims(events, i));
  }

  // ----- several claimants together -----

  /// How often the first w claimants claim, together.
  function AllClaims(events: seq<Event>, w: nat): nat {
    if w == 0 then 0 else AllClaims(events, w - 1) + Claims(events, w - 1)
  }

  lemma {:induction false} SomeoneClaims(events: seq<Event>, w: nat, bound: nat) returns (i: nat)
    requires bound > 0 && AllClaims(events, w) > w * (bound - 1)
    ensures i < w && Claims(events, i) >= bound
  {
    if Claims(events, w - 1) >= bound {
      i := w - 1;
    } else {
      assert w * (bound - 1) == (w - 1) * (bound - 1) + (bound - 1);
      i := SomeoneClaims(events, w - 1, bound);
    }
  }

  /// Bounded wait for all claimants together, by the pigeonhole principle.
  lemma ClaimedAmongMany(s: System, events: seq<Event>, b: nat, x: Queued)
    requires s.Valid() && Queueing(s, b, x) && Waits(s, b, x) && NeverAgain(events, x)
    requires var bound := Bound(b, Position(s.bands[b].fifo, x));
      bound > 0 && AllClaims(events, |s.claimants|) > |s.claimants| * (bound - 1)
    ensures !Waits(Run(s, events), b, x)
  {
    var i := SomeoneClaims(events, |s.claimants|, Bound(b, Position(s.bands[b].fifo, x)));
    ClaimedWithinBound(s, events, b, x, i);
  }

  /// While the task waits no claim comes back empty-handed.
  lemma WaitingClaimsSucceed(s: System, b: nat, x: Queued, i: nat)
    requires s.Valid() && b < 4 && Waits(s, b, x) && i < |s.claimants|
    ensures ClaimGlobal(s.bands, s.claimants[i]).0.Some?
  {
  }

  // ----- the worker loop -----

  /// The workers, each with its count of consecutive local claims.
  datatype Workers = Workers(system: System, locals: seq<nat>, limit: nat) {
    ghost predicate Valid() {
      system.Valid() && |locals| == |system.claimants| && limit > 0
    }
  }

  /// One turn of a worker: whether a local claim would succeed, and whether a steal would, is up
  /// to the other threads.  After a park the global queues are tried before the local ones.
  datatype WorkerEvent =
    | Environment(e: Event)
    | Turn(i: nat, localHit: bool, stole: bool)
    | TurnAfterPark(i: nat, localHit: bool, stole: bool)

  /// What the turn asks of the global queues.
  ghost function Asks(w: Workers, e: WorkerEvent): seq<Event> {
    match e
    case Environment(e) => [e]
    case Turn(i, localHit, _) =>
      if i < |w.locals| && w.locals[i] < w.limit && localHit then [] else [Claim(i)]
    case TurnAfterPark(i, _, _) => [Claim(i)]
  }

  ghost function LocalsAfter(w: Workers, e: WorkerEvent): seq<nat>
    requires w.Valid()
  {
    match e
    case Environment(_) => w.locals
    case Turn(i, localHit, stole) =>
      if i >= |w.locals| then w.locals
      else
        var count := w.locals[i];
        w.locals[i :=
          if count < w.limit && localHit then count + 1
          else if !AllEmpty(w.system.bands) then 0
          else if count >= w.limit then (if localHit then 1 else 0)
          else if stole then 0 else count]
    case TurnAfterPark(i, localHit, stole) =>
      if i >= |w.locals| then w.locals
      else
        var count := w.locals[i];
        w.locals[i :=
          if !AllEmpty(w.system.bands) then 0 else if localHit then count + 1 else if stole then 0 else count]
  }

  ghost function WorkerStep(w: Workers, e: WorkerEvent): (r: Workers)
    requires w.Valid()
    ensures r.Valid() && |r.locals| == |w.locals|
  {
    Workers(Run(w.system, Asks(w, e)), LocalsAfter(w, e), w.limit)
  }

  ghost function WorkerRun(w: Workers, events: seq<WorkerEvent>): (r: Workers)
    requires w.Valid()
    ensures r.Valid() && |r.locals| == |w.locals|
    decreases |events|
  {
    if events == [] then w else WorkerRun(WorkerStep(w, events[0]), events[1..])
  }

  ghost function AllAsks(w: Workers, events: seq<WorkerEvent>): seq<Event>
    requires w.Valid()
    decreases |events|
  {
    if events == [] then [] else Asks(w, events[0]) + AllAsks(WorkerStep(w, events[0]), events[1..])
  }

  predicate TurnOf(e: WorkerEvent, i: nat) {
    (e.Turn? || e.TurnAfterPark?) && e.i == i
  }

  function Turns(events: seq<WorkerEvent>, i: nat): nat {
    if events == [] then 0 else (if TurnOf(events[0], i) then 1 else 0) + Turns(events[1..], i)
  }

  lemma {:induction false} RunAppend(s: System, a: seq<Event>, b: seq<Event>)
    requires s.Valid()
    ensures Run(s, a + b) == Run(Run(s, a), b)
    decreases |a|
  {
    if a == [] {
      assert a + b == b;
    } else {
      assert (a + b)[1..] == a[1..] + b;
      RunAppend(Step(s, a[0]), a[1..], b);
    }
  }

  lemma {:induction false} ClaimsAppend(a: seq<Event>, b: seq<Event>, i: nat)
    ensures Claims(a + b, i) == Claims(a, i) + Claims(b, i)
  {
    if a == [] {
      assert a + b == b;
    } else {
      assert (a + b)[1..] == a[1..] + b;
      ClaimsAppend(a[1..], b, i);
    }
  }

  lemma {:induction false} AsksRun(w: Workers, events: seq<WorkerEvent>)
    requires w.Valid()
    ensures WorkerRun(w, events).system == Run(w.system, AllAsks(w, events))
    decreases |events|
  {
    hide Step, LocalsAfter, Asks;
    if events != [] {
      AsksRun(WorkerStep(w, events[0]), events[1..]);
      RunAppend(w.system, Asks(w, events[0]), AllAsks(WorkerStep(w, events[0]), events[1..]));
    }
  }

  /// No environment event queues the task again.
  predicate NeverRequeued(events: seq<WorkerEvent>, x: Queued) {
    forall k | 0 <= k < |events| && events[k].Environment? :: NeverAgain([events[k].e], x)
  }

  lemma {:induction false} AsksNeverAgain(w: Workers, events: seq<WorkerEvent>, x: Queued)
    requires w.Valid() && NeverRequeued(events, x)
    ensures NeverAgain(AllAsks(w, events), x)
    decreases |events|
  {
    if events != [] {
      AsksNeverAgain(WorkerStep(w, events[0]), events[1..], x);
      assert NeverAgain(Asks(w, events[0]), x);
    }
  }

  lemma TurnKeeps(w: Workers, e: WorkerEvent, b: nat, x: Queued)
    requires w.Valid() && Queueing(w.system, b, x) && NeverRequeued([e], x) && |w.locals| > 0
    ensures Queueing(WorkerStep(w, e).system, b, x)
    ensures Waits(WorkerStep(w, e).system, b, x) ==> Waits(w.system, b, x)
  {
    hide Step;
    var asks := Asks(w, e);
    if asks != [] {
      var one := asks[0];
      assert asks == [one] && asks[1..] == [];
      assert NeverAgain([one], x) by { assert [e][0] == e; }
      StepKeeps(w.system, one, b, x, 0);
      assert Run(w.system, asks) == Step(w.system, one) by { RunOne(w.system, one); }
    }
  }

  lemma RunOne(s: System, e: Event)
    requires s.Valid()
    ensures Run(s, [e]) == Step(s, e)
  {
    assert [e][1..] == [];
  }

  /// A turn while the task waits: one more local claim, below the limit, or a global claim.
  lemma WaitingTurn(w: Workers, e: WorkerEvent, b: nat, x: Queued, i: nat)
    requires w.Valid() && Queueing(w.system, b, x) && Waits(w.system, b, x) && i < |w.locals|
    ensures
      if TurnOf(e, i) then
        || (Claims(Asks(w, e), i) == 0 && LocalsAfter(w, e)[i] == w.locals[i] + 1 <= w.limit)
        || (Claims(Asks(w, e), i) == 1 && LocalsAfter(w, e)[i] == 0)
      else LocalsAfter(w, e)[i] == w.locals[i]
  {
    assert !AllEmpty(w.system.bands) by { assert !w.system.bands[b].Empty(); }
    match e
    case Environment(_) =>
    case Turn(j, _, _) => OneClaim(j, i);
    case TurnAfterPark(j, _, _) => OneClaim(j, i);
  }

  lemma OneClaim(j: nat, i: nat)
    ensures Claims([Claim(j)], i) == if i == j then 1 else 0
  {
    assert [Claim(j)][1..] == [];
  }

  lemma {:induction false} NeverReturns(w: Workers, events: seq<WorkerEvent>, b: nat, x: Queued)
    requires w.Valid() && Queueing(w.system, b, x) && NeverRequeued(events, x) && |w.locals| > 0
    ensures Waits(WorkerRun(w, events).system, b, x) ==> Waits(w.system, b, x)
    decreases |events|
  {
    hide WorkerStep, LocalsAfter, Asks;
    if events != [] {
      assert NeverRequeued([events[0]], x) && NeverRequeued(events[1..], x);
      TurnKeeps(w, events[0], b, x);
      NeverReturns(WorkerStep(w, events[0]), events[1..], b, x);
    }
  }

  /// While the task waits, a worker claims globally at least once in every limit + 1 turns.
  lemma {:induction false} TurnsBecomeClaims(w: Workers, events: seq<WorkerEvent>, b: nat, x: Queued, i: nat)
    requires w.Valid() && Queueing(w.system, b, x) && i < |w.locals| && NeverRequeued(events, x) && w.locals[i] <= w.limit
    ensures Waits(WorkerRun(w, events).system, b, x) ==>
      Turns(events, i) + w.locals[i] <= (w.limit + 1) * Claims(AllAsks(w, events), i) + w.limit
    decreases |events|
  {
    hide Run, Asks, LocalsAfter, TurnOf, Step;
    if events != [] {
      var (e, rest) := (events[0], events[1..]);
      var next := WorkerStep(w, e);
      assert NeverRequeued([e], x) && NeverRequeued(rest, x);
      TurnKeeps(w, e, b, x);
      NeverReturns(next, rest, b, x);
      if Waits(WorkerRun(w, events).system, b, x) {
        WaitingTurn(w, e, b, x, i);
        ClaimsAppend(Asks(w, e), AllAsks(next, rest), i);
        TurnsBecomeClaims(next, rest, b, x, i);
        OneMoreTurn(w.limit, w.locals[i], next.locals[i], Turns(rest, i), Claims(Asks(w, e), i),
                    Claims(AllAsks(next, rest), i), TurnOf(e, i));
      }
    }
  }

  /// The worker always finds local work, and claims globally by its own turns only.
  predicate LocalWork(events: seq<WorkerEvent>, i: nat) {
    forall k | 0 <= k < |events| :: match events[k]
      case Environment(e) => e != Claim(i)
      case Turn(j, localHit, _) => j == i ==> localHit
      case TurnAfterPark(j, _, _) => j != i
  }

  lemma LocalTurn(w: Workers, e: WorkerEvent, i: nat)
    requires w.Valid() && i < |w.locals| && LocalWork([e], i)
    ensures w.limit * Claims(Asks(w, e), i) + LocalsAfter(w, e)[i] <= (if TurnOf(e, i) then 1 else 0) + w.locals[i]
    ensures TurnOf(e, i) && w.locals[i] < w.limit ==> Asks(w, e) == []
  {
    assert [e][0] == e;
    match e
    case Environment(event) => assert [event][1..] == [];
    case Turn(j, _, _) => OneClaim(j, i);
    case TurnAfterPark(j, _, _) => OneClaim(j, i);
  }

  /// Local work comes first: while a worker finds local work, it claims globally at most once in
  /// local_burst_limit turns.
  lemma {:induction false} LocalWorkFirst(w: Workers, events: seq<WorkerEvent>, i: nat)
    requires w.Valid() && i < |w.locals| && LocalWork(events, i)
    ensures w.limit * Claims(AllAsks(w, events), i) + WorkerRun(w, events).locals[i] <= Turns(events, i) + w.locals[i]
    decreases |events|
  {
    hide Run, Asks, LocalsAfter, TurnOf, Step;
    if events != [] {
      var (e, rest) := (events[0], events[1..]);
      var next := WorkerStep(w, e);
      assert LocalWork([e], i) && LocalWork(rest, i);
      LocalTurn(w, e, i);
      LocalWorkFirst(next, rest, i);
      ClaimsAppend(Asks(w, e), AllAsks(next, rest), i);
      assert w.limit * (Claims(Asks(w, e), i) + Claims(AllAsks(next, rest), i)) ==
        w.limit * Claims(Asks(w, e), i) + w.limit * Claims(AllAsks(next, rest), i);
    }
  }

  lemma OneMoreTurn(limit: nat, local: nat, local': nat, turns: nat, claim: nat, claims: nat, turn: bool)
    requires local <= limit && turns + local' <= (limit + 1) * claims + limit
    requires if turn then (claim == 0 && local' == local + 1) || (claim == 1 && local' == 0) else local' == local
    ensures (if turn then 1 else 0) + turns + local <= (limit + 1) * (claim + claims) + limit
  {
    assert (limit + 1) * (claim + claims) == (limit + 1) * claim + (limit + 1) * claims;
  }

  lemma EnoughTurns(limit: nat, bound: nat, claims: nat, turns: nat)
    requires turns >= (limit + 1) * bound && turns <= (limit + 1) * claims + limit
    ensures claims >= bound
  {
    if claims < bound {
      Grows(limit + 1, claims + 1, bound);
    }
  }

  lemma Grows(a: nat, m: nat, n: nat)
    requires m <= n
    ensures a * m <= a * n
  {
  }

  /// Bounded wait in a worker's own terms: local work delays the task by a factor of the local
  /// burst limit plus one, and by no more.
  lemma ClaimedWithinTurns(w: Workers, events: seq<WorkerEvent>, b: nat, x: Queued, i: nat)
    requires w.Valid() && Queueing(w.system, b, x) && Waits(w.system, b, x) && i < |w.locals|
    requires NeverRequeued(events, x) && w.locals[i] <= w.limit
    requires Turns(events, i) >= (w.limit + 1) * Bound(b, Position(w.system.bands[b].fifo, x))
    ensures !Waits(WorkerRun(w, events).system, b, x)
  {
    hide Bound;
    var bound := Bound(b, Position(w.system.bands[b].fifo, x));
    AsksRun(w, events);
    AsksNeverAgain(w, events, x);
    TurnsBecomeClaims(w, events, b, x, i);
    if Waits(WorkerRun(w, events).system, b, x) {
      EnoughTurns(w.limit, bound, Claims(AllAsks(w, events), i), Turns(events, i));
      ClaimedWithinBound(w.system, AllAsks(w, events), b, x, i);
    }
  }
}
