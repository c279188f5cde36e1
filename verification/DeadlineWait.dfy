/// Deadline tasks in the global bands: a claim serves the earliest deadline of its
/// band and lets at most one FIFO task go before eight of them, so a deadline
/// task waits boundedly, too.
module DeadlineWait {
  import opened ReadySpec
  import opened BoundedWait
  import opened Wrappers

  // ----- what is queued where -----

  /// Deadline tasks are in the heap of their priority under their own deadline, all others in its FIFO.
  ghost predicate InPlace(s: System)
    requires s.Valid()
  {
    && (forall b, e | 0 <= b < 4 && e in s.bands[b].edf ::
          !e.queued.task.resume && e.queued.task.deadline == Some(e.deadline) && e.queued.task.priority.Index() == b)
    && (forall b, q | 0 <= b < 4 && q in s.bands[b].fifo ::
          (q.task.resume || q.task.deadline.None?) && q.task.priority.Index() == b)
  }

  predicate AreResumes(s: seq<Queued>) {
    forall q | q in s :: q.task.resume
  }

  lemma {:induction false} ResumesAreIn(s: seq<Queued>)
    ensures forall q | q in Resumes(s) :: q in s && q.task.resume
  {
    if s != [] {
      ResumesAreIn(s[1..]);
    }
  }

  lemma StaysInPlace(s: System, e: Event)
    requires s.Valid() && InPlace(s) && (e.Cleanup? ==> AreResumes(e.localResumes))
    ensures InPlace(Step(s, e))
  {
    match e
    case Publish(q) =>
    case Claim(i) =>
    case Cleanup(localResumes) =>
      forall b, q | 0 <= b < 4 && q in Step(s, e).bands[b].fifo
        ensures (q.task.resume || q.task.deadline.None?) && q.task.priority.Index() == b
      {
        ResumesAreIn(s.bands[b].fifo);
        OfBandMembers(localResumes, b, q);
      }
  }

  // ----- what a claim takes -----

  /// Claimant i's claim takes something out of band b.
  ghost predicate ClaimsFrom(s: System, e: Event, i: nat, b: nat)
    requires s.Valid() && b < 4
  {
    e == Claim(i) && i < |s.claimants| && Step(s, e).bands[b] != s.bands[b]
  }

  /// It takes a FIFO task while a deadline task waits in the band.
  ghost predicate PassesDeadlines(s: System, e: Event, i: nat, b: nat)
    requires s.Valid() && b < 4
  {
    ClaimsFrom(s, e, i, b) && s.bands[b].edf != {} && Step(s, e).bands[b].fifo != s.bands[b].fifo
  }

  ghost predicate TakesDeadline(s: System, e: Event, i: nat, b: nat)
    requires s.Valid() && b < 4
  {
    ClaimsFrom(s, e, i, b) && Step(s, e).bands[b].edf != s.bands[b].edf
  }

  ghost function Out(s: System, i: nat): Option<Queued>
    requires s.Valid()
  {
    if i < |s.claimants| then ClaimGlobal(s.bands, s.claimants[i]).0 else None
  }

  /// A claim finds work whenever a band has any.
  lemma ClaimFindsWork(s: System, i: nat)
    requires s.Valid() && i < |s.claimants|
    ensures Out(s, i).Some? <==> exists b :: 0 <= b < 4 && !s.bands[b].Empty()
  {
  }

  /// A claim from a band, its calendar's or the highest with work when that one is empty, returns either the task with the least (deadline, sequence), and no
  /// deadline task of the band comes earlier, or the FIFO's oldest; and nothing else moves.
  lemma ClaimReturns(s: System, i: nat, b: nat)
    requires s.Valid() && InPlace(s) && b < 4 && ClaimsFrom(s, Claim(i), i, b)
    ensures var (out, band, band') := (Out(s, i), s.bands[b], Step(s, Claim(i)).bands[b]);
      && out.Some? && Step(s, Claim(i)).bands == s.bands[b := band']
      && (Target(s.claimants[i]) != b ==> s.bands[Target(s.claimants[i])].Empty() && forall c | b < c < 4 :: s.bands[c].Empty())
      && (TakesDeadline(s, Claim(i), i, b) <==> !(band.fifo != [] && band' == band.(fifo := band.fifo[1..]) && out == Some(band.fifo[0])))
      && (TakesDeadline(s, Claim(i), i, b) ==>
            exists e :: e in band.edf && out == Some(e.queued) && band' == band.(edf := band.edf - {e}) &&
              forall other | other in band.edf && other != e ::
                || e.queued.task.deadline.value < other.queued.task.deadline.value
                || (e.queued.task.deadline.value == other.queued.task.deadline.value && e.sequence < other.sequence))
  {
    var c := s.claimants[i];
    var chosen := Choose(s.bands, Target(c));
    assert chosen == b;
    if s.bands[b].edf != {} {
      var e := Least(s.bands[b].edf);
      assert e in s.bands[b].edf && e !in s.bands[b].edf - {e};
    }
    if s.bands[b].fifo != [] { assert |s.bands[b].fifo[1..]| != |s.bands[b].fifo|; }
  }

  // ----- at most one FIFO task in nine -----

  function Credit(s: System, i: nat, b: nat): nat
    requires i < |s.claimants| && |s.claimants[i].bursts| == 4 && b < 4
  {
    var burst := s.claimants[i].bursts[b];
    if burst < BURST_LIMIT then burst else BURST_LIMIT
  }

  function Bit(b: bool): nat {
    if b then 1 else 0
  }

  lemma CreditStep(s: System, e: Event, i: nat, b: nat)
    requires s.Valid() && i < |s.claimants| && b < 4
    ensures Credit(Step(s, e), i, b) + 8 * Bit(PassesDeadlines(s, e, i, b)) <=
      Credit(s, i, b) + Bit(TakesDeadline(s, e, i, b))
  {
    if e.Claim? && e.i == i && !AllEmpty(s.bands) {
      var chosen := Choose(s.bands, Target(s.claimants[i]));
      if s.bands[chosen].edf != {} { assert Least(s.bands[chosen].edf) in s.bands[chosen].edf; }
      if s.bands[chosen].fifo != [] { assert |s.bands[chosen].fifo[1..]| != |s.bands[chosen].fifo|; }
    }
  }

  ghost function Passes(s: System, events: seq<Event>, i: nat, b: nat): nat
    requires s.Valid() && b < 4
    decreases |events|
  {
    if events == [] then 0
    else Bit(PassesDeadlines(s, events[0], i, b)) + Passes(Step(s, events[0]), events[1..], i, b)
  }

  ghost function DeadlineTakes(s: System, events: seq<Event>, i: nat, b: nat): nat
    requires s.Valid() && b < 4
    decreases |events|
  {
    if events == [] then 0
    else Bit(TakesDeadline(s, events[0], i, b)) + DeadlineTakes(Step(s, events[0]), events[1..], i, b)
  }

  lemma {:induction false} PassesArePaid(s: System, events: seq<Event>, i: nat, b: nat)
    requires s.Valid() && i < |s.claimants| && b < 4
    ensures 8 * Passes(s, events, i, b) <= DeadlineTakes(s, events, i, b) + Credit(s, i, b)
    decreases |events|
  {
    hide Step, Credit, PassesDeadlines, TakesDeadline, System.Valid;
    if events != [] {
      CreditStep(s, events[0], i, b);
      PassesArePaid(Step(s, events[0]), events[1..], i, b);
    }
  }

  /// Of any nine consecutive claims of one claimant from a band while deadline tasks wait there, at
  /// most one takes a FIFO task, whatever happens in between.
  lemma AtMostOneInNine(s: System, events: seq<Event>, i: nat, b: nat)
    requires s.Valid() && i < |s.claimants| && b < 4
    ensures Passes(s, events, i, b) + DeadlineTakes(s, events, i, b) <= 9 ==> Passes(s, events, i, b) <= 1
  {
    PassesArePaid(s, events, i, b);
  }

  // ----- a bounded wait -----

  /// The deadline tasks of the band that come no later than e.
  ghost function UpTo(edf: set<EdfEntry>, e: EdfEntry): set<EdfEntry> {
    set x | x in edf && (x == e || x.Before(e))
  }

  ghost function Ahead(s: System, b: nat, e: EdfEntry): nat
    requires s.Valid() && b < 4
  {
    |UpTo(s.bands[b].edf, e)|
  }

  ghost predicate Pending(s: System, b: nat, e: EdfEntry)
    requires s.Valid() && b < 4
  {
    e in s.bands[b].edf
  }

  /// No task with an earlier deadline is published to the band.
  predicate NothingEarlier(events: seq<Event>, b: nat, e: EdfEntry) {
    forall k | 0 <= k < |events| && events[k].Publish? ::
      var t := events[k].q.task; GoesToEdf(t) && t.priority.Index() == b ==> t.deadline.value >= e.deadline
  }

  ghost function DeadlineNeed(s: System, i: nat, b: nat, e: EdfEntry): nat
    requires s.Valid() && b < 4 && i < |s.claimants|
  {
    9 * Ahead(s, b, e) + Credit(s, i, b)
  }

  lemma PublishKeepsAhead(s: System, q: Queued, b: nat, e: EdfEntry)
    requires s.Valid() && b < 4 && Pending(s, b, e) && NothingEarlier([Event.Publish(q)], b, e)
    ensures Pending(Step(s, Publish(q)), b, e) && Ahead(Step(s, Publish(q)), b, e) == Ahead(s, b, e)
  {
    assert [Event.Publish(q)][0] == Publish(q);
    assert UpTo(Step(s, Publish(q)).bands[b].edf, e) == UpTo(s.bands[b].edf, e);
  }

  lemma CleanupKeepsAhead(s: System, localResumes: seq<Queued>, b: nat, e: EdfEntry)
    requires s.Valid() && b < 4
    ensures var s' := Step(s, Cleanup(localResumes));
      Ahead(s', b, e) <= Ahead(s, b, e) && (Pending(s', b, e) ==> Pending(s, b, e))
  {
    Fewer(UpTo(Step(s, Cleanup(localResumes)).bands[b].edf, e), UpTo(s.bands[b].edf, e));
  }

  lemma Fewer<T>(a: set<T>, b: set<T>)
    requires a <= b
    ensures |a| <= |b|
  {
    assert b == a + (b - a);
  }

  lemma TakeMovesUp(edf: set<EdfEntry>, e: EdfEntry)
    requires Distinct(edf) && e in edf
    ensures |UpTo(edf - {Least(edf)}, e)| == |UpTo(edf, e)| - 1
  {
    var least := Least(edf);
    assert UpTo(edf - {least}, e) == UpTo(edf, e) - {least};
  }

  lemma ClaimKeepsNeed(s: System, j: nat, i: nat, b: nat, e: EdfEntry)
    requires s.Valid() && b < 4 && i < |s.claimants| && Pending(s, b, e)
    ensures var s' := Step(s, Claim(j));
      DeadlineNeed(s', i, b, e) + (if i == j && Target(s.claimants[i]) == b then 8 else 0) <= DeadlineNeed(s, i, b, e)
  {
    hide UpTo, Least;
    if j < |s.claimants| {
      assert !s.bands[b].Empty();
      TakeMovesUp(s.bands[b].edf, e);
    }
  }

  lemma ClaimKeepsCalendar(s: System, j: nat, i: nat, b: nat, e: EdfEntry)
    requires s.Valid() && b < 4 && i < |s.claimants| && Pending(s, b, e)
    ensures var s' := Step(s, Claim(j));
      && s'.claimants[i].calendar == After(s.claimants[i].calendar, i == j)
      && (Pending(s', b, e) ==> Pending(s, b, e))
  {
    assert !s.bands[b].Empty();
  }

  lemma NeedStep(s: System, event: Event, i: nat, b: nat, e: EdfEntry)
    requires s.Valid() && b < 4 && i < |s.claimants| && Pending(s, b, e) && NothingEarlier([event], b, e)
    ensures var s' := Step(s, event);
      && DeadlineNeed(s', i, b, e) + 8 * Bit(event == Claim(i) && InSlot(s.claimants[i].calendar, b)) <= DeadlineNeed(s, i, b, e)
      && s'.claimants[i].calendar == After(s.claimants[i].calendar, event == Claim(i))
  {
    hide Ahead;
    match event
    case Publish(q) => PublishKeepsAhead(s, q, b, e);
    case Cleanup(localResumes) => CleanupKeepsAhead(s, localResumes, b, e);
    case Claim(j) =>
      ClaimKeepsNeed(s, j, i, b, e);
      ClaimKeepsCalendar(s, j, i, b, e);
  }

  lemma GoneStaysGone(s: System, event: Event, b: nat, e: EdfEntry)
    requires s.Valid() && b < 4 && !Pending(s, b, e) && e.sequence <= s.sequence
    ensures !Pending(Step(s, event), b, e) && e.sequence <= Step(s, event).sequence
  {
  }

  lemma {:induction false} RunStaysGone(s: System, events: seq<Event>, b: nat, e: EdfEntry)
    requires s.Valid() && b < 4 && !Pending(s, b, e) && e.sequence <= s.sequence
    ensures !Pending(Run(s, events), b, e)
    decreases |events|
  {
    hide Step, Pending, System.Valid;
    if events != [] {
      GoneStaysGone(s, events[0], b, e);
      RunStaysGone(Step(s, events[0]), events[1..], b, e);
    }
  }

  lemma PendingIsOld(s: System, b: nat, e: EdfEntry)
    requires s.Valid() && b < 4 && Pending(s, b, e)
    ensures e.sequence <= s.sequence && Ahead(s, b, e) >= 1
  {
    assert e in UpTo(s.bands[b].edf, e);
  }

  lemma PendingSequence(s: System, event: Event)
    requires s.Valid()
    ensures Step(s, event).sequence >= s.sequence
  {
  }

  /// A deadline task that still waits has cost claimant i all its visits to the band.
  lemma {:induction false} DeadlineVisitsAreSpent(s: System, events: seq<Event>, i: nat, b: nat, e: EdfEntry)
    requires s.Valid() && b < 4 && i < |s.claimants| && Pending(s, b, e) && NothingEarlier(events, b, e)
    ensures Pending(Run(s, events), b, e) ==>
      9 + 8 * Visits(s.claimants[i].calendar, b, Claims(events, i)) <= DeadlineNeed(s, i, b, e)
    decreases |events|
  {
    hide Step, InSlot, NextSlot, System.Valid, Pending, Ahead, Credit;
    PendingIsOld(s, b, e);
    if events != [] {
      assert NothingEarlier([events[0]], b, e) && NothingEarlier(events[1..], b, e);
      NeedStep(s, events[0], i, b, e);
      PendingSequence(s, events[0]);
      var s' := Step(s, events[0]);
      if Pending(s', b, e) {
        DeadlineVisitsAreSpent(s', events[1..], i, b, e);
      } else {
        RunStaysGone(s', events[1..], b, e);
      }
    }
  }

  /// The number of claims that reach the r-th deadline task of band b.
  function DeadlineBound(b: nat, r: nat): nat
    requires b < 4
  {
    CALENDAR_LENGTH * CeilDiv((9 * r + 7) / 8, Weight(b))
  }

  /// Bounded wait of a deadline task: after that many claims of one claimant it is no longer queued,
  /// under any arrivals but earlier deadlines, any FIFO tasks, clean-ups and claims of others.
  lemma DeadlineClaimedWithinBound(s: System, events: seq<Event>, i: nat, b: nat, e: EdfEntry)
    requires s.Valid() && b < 4 && i < |s.claimants| && Pending(s, b, e) && NothingEarlier(events, b, e)
    requires Claims(events, i) >= DeadlineBound(b, Ahead(s, b, e))
    ensures !Pending(Run(s, events), b, e)
  {
    hide Run, Ahead;
    var r := Ahead(s, b, e);
    var (cal, rounds) := (s.claimants[i].calendar, CeilDiv((9 * r + 7) / 8, Weight(b)));
    DeadlineVisitsAreSpent(s, events, i, b, e);
    RoundsVisit(cal, b, rounds, DeadlineBound(b, r));
    VisitsGrow(cal, b, DeadlineBound(b, r), Claims(events, i));
  }

  /// The same for all claimants together.
  lemma DeadlineClaimedAmongMany(s: System, events: seq<Event>, b: nat, e: EdfEntry)
    requires s.Valid() && b < 4 && Pending(s, b, e) && NothingEarlier(events, b, e)
    requires var bound := DeadlineBound(b, Ahead(s, b, e));
      bound > 0 && AllClaims(events, |s.claimants|) > |s.claimants| * (bound - 1)
    ensures !Pending(Run(s, events), b, e)
  {
    var i := SomeoneClaims(events, |s.claimants|, DeadlineBound(b, Ahead(s, b, e)));
    DeadlineClaimedWithinBound(s, events, i, b, e);
  }
}
