/// Conservation in the global ready queues: whatever enters is queued, claimed
/// or cancelled, exactly once; hence also the admission slots of external tasks.
module ReadyLedger {
  import opened ReadySpec
  import opened Wrappers

  function CountSeq(s: seq<Queued>, p: Queued -> bool): nat {
    if s == [] then 0 else CountSeq(s[..|s| - 1], p) + if p(s[|s| - 1]) then 1 else 0
  }

  ghost function Holding(edf: set<EdfEntry>, p: Queued -> bool): set<EdfEntry> {
    set e | e in edf && p(e.queued)
  }

  ghost function CountBand(band: Band, p: Queued -> bool): nat {
    |Holding(band.edf, p)| + CountSeq(band.fifo, p)
  }

  /// The queued tasks that satisfy p.
  ghost function Count(bands: seq<Band>, p: Queued -> bool): nat
    requires |bands| == 4
  {
    CountBand(bands[0], p) + CountBand(bands[1], p) + CountBand(bands[2], p) + CountBand(bands[3], p)
  }

  function One(q: Queued, p: Queued -> bool): nat {
    if p(q) then 1 else 0
  }

  lemma {:induction false} CountAppend(a: seq<Queued>, b: seq<Queued>, p: Queued -> bool)
    ensures CountSeq(a + b, p) == CountSeq(a, p) + CountSeq(b, p)
  {
    if b == [] {
      assert a + b == a;
    } else {
      var front := b[..|b| - 1];
      assert (a + b)[..|a + b| - 1] == a + front;
      CountAppend(a, front, p);
    }
  }

  lemma CountPop(s: seq<Queued>, p: Queued -> bool)
    requires s != []
    ensures CountSeq(s, p) == One(s[0], p) + CountSeq(s[1..], p)
  {
    assert s == [s[0]] + s[1..];
    CountAppend([s[0]], s[1..], p);
    assert CountSeq([s[0]], p) == One(s[0], p) by { assert [s[0]][..0] == []; }
  }

  lemma HoldingLess(edf: set<EdfEntry>, e: EdfEntry, p: Queued -> bool)
    requires e in edf
    ensures |Holding(edf, p)| == One(e.queued, p) + |Holding(edf - {e}, p)|
  {
    assert Holding(edf - {e}, p) == Holding(edf, p) - {e};
  }

  lemma CountPut(bands: seq<Band>, b: nat, band: Band, p: Queued -> bool)
    requires |bands| == 4 && b < 4
    ensures Count(bands[b := band], p) + CountBand(bands[b], p) == Count(bands, p) + CountBand(band, p)
  {
  }

  lemma ClaimBandConserves(band: Band, burst: nat, p: Queued -> bool)
    requires !band.Empty() && Distinct(band.edf)
    ensures var (out, band', _) := ClaimBand(band, burst);
      CountBand(band, p) == One(out, p) + CountBand(band', p)
  {
    if band.edf != {} && (band.fifo == [] || burst < BURST_LIMIT) {
      HoldingLess(band.edf, Least(band.edf), p);
    } else {
      CountPop(band.fifo, p);
    }
  }

  // ----- clean-up -----

  /// The predicate restricted to tasks that clean-up cancels.
  ghost function Unstarted(p: Queued -> bool): Queued -> bool {
    q => p(q) && !q.task.resume
  }

  lemma {:induction false} ResumesSplit(s: seq<Queued>, p: Queued -> bool)
    ensures CountSeq(s, p) == CountSeq(Resumes(s), p) + CountSeq(s, Unstarted(p))
  {
    if s != [] {
      ResumesSplit(s[1..], p);
      CountPop(s, p);
      CountPop(s, Unstarted(p));
      if s[0].task.resume {
        CountPop(Resumes(s), p);
        assert Resumes(s)[1..] == Resumes(s[1..]);
      } else {
        assert Resumes(s) == Resumes(s[1..]);
      }
    }
  }

  lemma CleanBandConserves(band: Band, localResumes: seq<Queued>, p: Queued -> bool)
    ensures CountBand(band, p) + CountSeq(localResumes, p) ==
      CountBand(CleanBand(band, localResumes), p) + CountBand(band, Unstarted(p))
  {
    var clean := CleanBand(band, localResumes);
    ResumesSplit(band.fifo, p);
    CountAppend(Resumes(band.fifo), localResumes, p);
    var (all, kept, cut) := (Holding(band.edf, p), Holding(clean.edf, p), Holding(band.edf, Unstarted(p)));
    assert all == kept + cut && kept !! cut;
  }

  lemma {:induction false} OfBandsSplit(s: seq<Queued>, p: Queued -> bool)
    ensures CountSeq(s, p) == CountSeq(OfBand(s, 0), p) + CountSeq(OfBand(s, 1), p)
                            + CountSeq(OfBand(s, 2), p) + CountSeq(OfBand(s, 3), p)
  {
    if s != [] {
      OfBandsSplit(s[1..], p);
      CountPop(s, p);
      OfBandPop(s, 0, p);
      OfBandPop(s, 1, p);
      OfBandPop(s, 2, p);
      OfBandPop(s, 3, p);
    }
  }

  lemma OfBandPop(s: seq<Queued>, b: nat, p: Queued -> bool)
    requires s != []
    ensures CountSeq(OfBand(s, b), p) ==
      CountSeq(OfBand(s[1..], b), p) + if s[0].task.priority.Index() == b then One(s[0], p) else 0
  {
    if s[0].task.priority.Index() == b {
      CountPop(OfBand(s, b), p);
      assert OfBand(s, b)[1..] == OfBand(s[1..], b);
    } else {
      assert OfBand(s, b) == OfBand(s[1..], b);
    }
  }

  lemma CleanupConserves(bands: seq<Band>, localResumes: seq<Queued>, p: Queued -> bool)
    requires |bands| == 4
    ensures Count(bands, p) + CountSeq(localResumes, p) ==
      Count(CleanBands(bands, localResumes), p) + Count(bands, Unstarted(p))
  {
    hide CountBand, CleanBand;
    OfBandsSplit(localResumes, p);
    CleanBandConserves(bands[0], OfBand(localResumes, 0), p);
    CleanBandConserves(bands[1], OfBand(localResumes, 1), p);
    CleanBandConserves(bands[2], OfBand(localResumes, 2), p);
    CleanBandConserves(bands[3], OfBand(localResumes, 3), p);
  }

  // ----- steps and runs -----

  /// What satisfies p among the tasks that enter with the event.
  ghost function Entered(e: Event, p: Queued -> bool): nat {
    match e
    case Publish(q) => One(q, p)
    case Cleanup(localResumes) => CountSeq(localResumes, p)
    case Claim(_) => 0
  }

  /// What satisfies p among the tasks claimed or cancelled by the event.
  ghost function Removed(s: System, e: Event, p: Queued -> bool): nat
    requires s.Valid()
  {
    match e
    case Publish(_) => 0
    case Claim(i) =>
      if i < |s.claimants| then
        match ClaimGlobal(s.bands, s.claimants[i]).0 case Some(q) => One(q, p) case None => 0
      else 0
    case Cleanup(_) => Count(s.bands, Unstarted(p))
  }

  lemma PublishConserves(s: System, q: Queued, p: Queued -> bool)
    requires s.Valid()
    ensures Count(Step(s, Publish(q)).bands, p) == Count(s.bands, p) + One(q, p)
  {
    hide Count;
    var b := q.task.priority.Index();
    var band := s.bands[b];
    if GoesToEdf(q.task) {
      var e := EdfEntry(q.task.deadline.value, s.sequence + 1, q);
      assert e !in band.edf;
      HoldingLess(band.edf + {e}, e, p);
      assert band.edf + {e} - {e} == band.edf;
      CountPut(s.bands, b, band.(edf := band.edf + {e}), p);
    } else {
      CountAppend(band.fifo, [q], p);
      assert CountSeq([q], p) == One(q, p) by { assert [q][..0] == []; }
      CountPut(s.bands, b, band.(fifo := band.fifo + [q]), p);
    }
  }

  lemma StepConserves(s: System, e: Event, p: Queued -> bool)
    requires s.Valid()
    ensures Count(Step(s, e).bands, p) + Removed(s, e, p) == Count(s.bands, p) + Entered(e, p)
  {
    hide Count, CountBand, ClaimBand, CleanBands;
    match e
    case Publish(q) => PublishConserves(s, q, p);
    case Cleanup(localResumes) => CleanupConserves(s.bands, localResumes, p);
    case Claim(i) =>
      if i < |s.claimants| && !AllEmpty(s.bands) {
        var c := s.claimants[i];
        var b := Choose(s.bands, Target(c));
        ClaimBandConserves(s.bands[b], c.bursts[b], p);
        CountPut(s.bands, b, ClaimBand(s.bands[b], c.bursts[b]).1, p);
      }
  }

  ghost function AllEntered(events: seq<Event>, p: Queued -> bool): nat {
    if events == [] then 0 else Entered(events[0], p) + AllEntered(events[1..], p)
  }

  ghost function AllRemoved(s: System, events: seq<Event>, p: Queued -> bool): nat
    requires s.Valid()
    decreases |events|
  {
    if events == [] then 0 else Removed(s, events[0], p) + AllRemoved(Step(s, events[0]), events[1..], p)
  }

  /// For every property of tasks, and so for every single task: over any run what entered is
  /// what is queued plus what was claimed or cancelled.
  lemma {:induction false} RunConserves(s: System, events: seq<Event>, p: Queued -> bool)
    requires s.Valid()
    ensures Count(Run(s, events).bands, p) + AllRemoved(s, events, p) == Count(s.bands, p) + AllEntered(events, p)
    decreases |events|
  {
    hide Count, Step, Removed, Entered;
    if events != [] {
      StepConserves(s, events[0], p);
      RunConserves(Step(s, events[0]), events[1..], p);
    }
  }
}
