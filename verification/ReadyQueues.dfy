/// The ready queues in place: the global heaps and FIFOs, and every worker's
/// local bands.
module ReadyQueueState {
  import opened ReadySpec
  import ReadyLedger
  import opened Wrappers

  // ----- local queues as values -----

  type LocalBands = seq<seq<Queued>>

  predicate LocalOk(local: LocalBands) {
    |local| == 4 && forall b | 0 <= b < 4 :: Placed(local[b], b) && forall q | q in local[b] :: !q.external
  }

  predicate Placed(s: seq<Queued>, b: nat) {
    forall q | q in s :: q.task.priority.Index() == b
  }

  predicate NoLocal(local: LocalBands) {
    forall b | 0 <= b < |local| :: local[b] == []
  }

  /// The band a local claim or a steal takes from.
  function ChooseLocal(local: LocalBands, target: nat): (b: nat)
    requires |local| == 4 && target < 4 && !NoLocal(local)
    ensures b < 4 && local[b] != []
    ensures b != target ==> local[target] == [] && forall c | b < c < 4 :: local[c] == []
  {
    if local[target] != [] then target
    else if local[3] != [] then 3
    else if local[2] != [] then 2
    else if local[1] != [] then 1
    else
      assert local[0] != [];
      0
  }

  /// The owner takes the newest task of the chosen band, a thief the oldest.
  function ClaimLocal(local: LocalBands, calendar: nat, fromBack: bool): (r: (Option<Queued>, LocalBands, nat))
    requires |local| == 4 && calendar < CALENDAR_LENGTH
    ensures |r.1| == 4 && r.2 < CALENDAR_LENGTH
  {
    if NoLocal(local) then (None, local, calendar)
    else
      var b := ChooseLocal(local, CALENDAR[calendar].Index());
      var (band, m) := (local[b], |local[b]| - 1);
      if fromBack then (Some(band[m]), local[b := band[..m]], NextSlot(calendar))
      else (Some(band[0]), local[b := band[1..]], NextSlot(calendar))
  }

  /// The slot's band b if it has work, otherwise the first with work from Critical down.
  predicate FirstWithWork(local: LocalBands, target: nat, b: nat)
    requires |local| == 4 && target < 4 && b < 4
  {
    b == target || (local[target] == [] && forall c | b < c < 4 :: local[c] == [])
  }

  /// The owner takes the task last pushed to its band, a thief the one that is there longest; the band
  /// is the calendar's, or the first non-empty one from Critical down; nothing else moves.
  lemma LocalClaimIs(local: LocalBands, calendar: nat, fromBack: bool)
    requires LocalOk(local) && calendar < CALENDAR_LENGTH
    ensures var (out, local', _) := ClaimLocal(local, calendar, fromBack);
      && (out.None? <==> NoLocal(local)) && (out.None? ==> local' == local)
      && (out.Some? ==>
            var (q, b) := (out.value, out.value.task.priority.Index());
            && local[b] == (if fromBack then local'[b] + [q] else [q] + local'[b])
            && (forall c | 0 <= c < 4 && c != b :: local'[c] == local[c])
            && FirstWithWork(local, CALENDAR[calendar].Index(), b))
  {
    if !NoLocal(local) {
      var target := CALENDAR[calendar].Index();
      var chosen := ChooseLocal(local, target);
      var band := local[chosen];
      assert FirstWithWork(local, target, chosen);
      assert Placed(band, chosen) && band[|band| - 1] in band && band[0] in band;
      assert ClaimLocal(local, calendar, fromBack).0.value.task.priority.Index() == chosen;
      assert band == band[..|band| - 1] + [band[|band| - 1]] == [band[0]] + band[1..];
    }
  }

  /// Last in, first out for the owner: what it has just published comes back in its slot.
  lemma OwnerIsLifo(local: LocalBands, q: Queued, calendar: nat)
    requires LocalOk(local) && calendar < CALENDAR_LENGTH && CALENDAR[calendar].Index() == q.task.priority.Index()
    ensures ClaimLocal(Pushed(local, q), calendar, true) == (Some(q), local, NextSlot(calendar))
  {
    var b := q.task.priority.Index();
    var pushed := Pushed(local, q);
    assert pushed[b] == local[b] + [q] && pushed[b][..|local[b]|] == local[b];
    assert !NoLocal(pushed) && ChooseLocal(pushed, b) == b;
    assert pushed[b := local[b]] == local;
  }

  // ----- clean-up of the local queues -----

  function Unstarted(s: seq<Queued>): seq<Queued> {
    if s == [] then [] else (if s[0].task.resume then [] else [s[0]]) + Unstarted(s[1..])
  }

  /// The resume segments of one worker, band after band, oldest first.
  function WorkerResumes(local: LocalBands): seq<Queued>
    requires |local| == 4
  {
    Resumes(local[0]) + Resumes(local[1]) + Resumes(local[2]) + Resumes(local[3])
  }

  predicate LocalsOk(locals: seq<LocalBands>) {
    forall w | 0 <= w < |locals| :: LocalOk(locals[w])
  }

  function AllResumes(locals: seq<LocalBands>): seq<Queued>
    requires forall w | 0 <= w < |locals| :: |locals[w]| == 4
  {
    if locals == [] then [] else AllResumes(locals[..|locals| - 1]) + WorkerResumes(locals[|locals| - 1])
  }

  /// The resume segments of band b, worker after worker, each oldest first.
  function BandResumes(locals: seq<LocalBands>, b: nat): seq<Queued>
    requires b < 4 && forall w | 0 <= w < |locals| :: |locals[w]| == 4
  {
    if locals == [] then [] else BandResumes(locals[..|locals| - 1], b) + Resumes(locals[|locals| - 1][b])
  }

  lemma {:induction false} OfBandAppend(s: seq<Queued>, t: seq<Queued>, b: nat)
    ensures OfBand(s + t, b) == OfBand(s, b) + OfBand(t, b)
  {
    if s == [] {
      assert s + t == t;
    } else {
      hide *;
      TailOfAppend(s, t);
      OfBandAppend(s[1..], t, b);
      OfBandHead(s, b);
      OfBandHead(s + t, b);
      Associate(IfBand(s[0], b), OfBand(s[1..], b), OfBand(t, b));
    }
  }

  lemma TailOfAppend(s: seq<Queued>, t: seq<Queued>)
    requires s != []
    ensures s + t != [] && (s + t)[0] == s[0] && (s + t)[1..] == s[1..] + t
  {
  }

  lemma Associate(a: seq<Queued>, b: seq<Queued>, c: seq<Queued>)
    ensures a + (b + c) == a + b + c
  {
  }

  function IfBand(q: Queued, b: nat): seq<Queued> {
    if q.task.priority.Index() == b then [q] else []
  }

  lemma OfBandHead(s: seq<Queued>, b: nat)
    requires s != []
    ensures OfBand(s, b) == IfBand(s[0], b) + OfBand(s[1..], b)
  {
  }

  lemma OfBandNext(s: seq<Queued>, i: nat, b: nat)
    requires i < |s|
    ensures OfBand(s[..i + 1], b) == OfBand(s[..i], b) + IfBand(s[i], b)
  {
    assert s[..i + 1] == s[..i] + [s[i]] && [s[i]][1..] == [];
    OfBandAppend(s[..i], [s[i]], b);
  }

  lemma NothingOfBand()
    ensures forall b: nat :: OfBand([], b) == []
  {
  }

  lemma {:induction false} ResumesOfBand(s: seq<Queued>, c: nat, b: nat)
    requires Placed(s, c)
    ensures OfBand(Resumes(s), b) == if b == c then Resumes(s) else []
  {
    if s != [] {
      assert Placed(s[1..], c);
      ResumesOfBand(s[1..], c, b);
      OfBandAppend(if s[0].task.resume then [s[0]] else [], Resumes(s[1..]), b);
      assert s[0] in s && [s[0]][1..] == [];
    }
  }

  lemma {:induction false} ResumesMembers(s: seq<Queued>)
    ensures forall q :: q in Resumes(s) <==> q in s && q.task.resume
  {
    if s != [] {
      ResumesMembers(s[1..]);
    }
  }

  lemma ResumesPlaced(s: seq<Queued>, b: nat)
    requires Placed(s, b)
    ensures Placed(Resumes(s), b)
  {
    ResumesMembers(s);
  }

  /// What stays in a lock-protected local queue.
  function KeptLocal(local: LocalBands): LocalBands
    requires |local| == 4
  {
    [Resumes(local[0]), Resumes(local[1]), Resumes(local[2]), Resumes(local[3])]
  }

  lemma KeptLocalOk(local: LocalBands)
    requires LocalOk(local)
    ensures LocalOk(KeptLocal(local))
  {
    ResumesMembers(local[0]);
    ResumesMembers(local[1]);
    ResumesMembers(local[2]);
    ResumesMembers(local[3]);
  }

  lemma WorkerResumesOfBand(local: LocalBands, b: nat)
    requires LocalOk(local) && b < 4
    ensures OfBand(WorkerResumes(local), b) == Resumes(local[b])
  {
    hide OfBand, Resumes, Placed;
    var (r0, r1, r2, r3) := (Resumes(local[0]), Resumes(local[1]), Resumes(local[2]), Resumes(local[3]));
    OfBandAppend(r0 + r1 + r2, r3, b);
    OfBandAppend(r0 + r1, r2, b);
    OfBandAppend(r0, r1, b);
    ResumesOfBand(local[0], 0, b);
    ResumesOfBand(local[1], 1, b);
    ResumesOfBand(local[2], 2, b);
    ResumesOfBand(local[3], 3, b);
  }

  /// Clean-up moves every local resume segment to the FIFO of its own band, in relative order.
  lemma {:induction false} ResumesKeepTheirBand(locals: seq<LocalBands>, b: nat)
    requires LocalsOk(locals) && b < 4
    ensures OfBand(AllResumes(locals), b) == BandResumes(locals, b)
  {
    if locals != [] {
      var last := |locals| - 1;
      ResumesKeepTheirBand(locals[..last], b);
      WorkerResumesOfBand(locals[last], b);
      OfBandAppend(AllResumes(locals[..last]), WorkerResumes(locals[last]), b);
    }
  }

  /// Nothing is lost or doubled: resume segments and unstarted tasks make up the queue.
  lemma {:induction false} CleanupPartitions(s: seq<Queued>)
    ensures multiset(s) == multiset(Resumes(s)) + multiset(Unstarted(s))
    ensures forall q | q in Resumes(s) :: q.task.resume
    ensures forall q | q in Unstarted(s) :: !q.task.resume
  {
    if s != [] {
      assert s == [s[0]] + s[1..];
      CleanupPartitions(s[1..]);
    }
  }

  // ----- the class -----

  ghost function Members(heap: seq<EdfEntry>): set<EdfEntry> {
    set e | e in heap
  }

  /// A heap vector holds each entry once.
  ghost predicate HeapOk(heap: seq<EdfEntry>, sequence: nat) {
    && (forall i, j | 0 <= i < j < |heap| :: heap[i].sequence != heap[j].sequence)
    && forall e | e in heap :: e.sequence <= sequence
  }

  lemma HeapDistinct(heap: seq<EdfEntry>, sequence: nat)
    requires HeapOk(heap, sequence)
    ensures Distinct(Members(heap))
  {
    forall a, b | a in Members(heap) && b in Members(heap) && a != b
      ensures a.sequence != b.sequence
    {
      var i :| 0 <= i < |heap| && heap[i] == a;
      var j :| 0 <= j < |heap| && heap[j] == b;
      if i < j { assert heap[i].sequence != heap[j].sequence; } else { assert heap[j].sequence != heap[i].sequence; }
    }
  }

  /// std::pop_heap and pop_back: takes the entry no other one comes before.
  method PopHeap(heap: seq<EdfEntry>, ghost sequence: nat) returns (e: EdfEntry, rest: seq<EdfEntry>)
    requires heap != [] && HeapOk(heap, sequence)
    ensures HeapOk(rest, sequence) && Members(rest) == Members(heap) - {e}
    ensures Distinct(Members(heap)) && Members(heap) != {} && e == Least(Members(heap))
  {
    HeapDistinct(heap, sequence);
    assert heap[0] in Members(heap);
    var m := 0;
    var i := 1;
    while i < |heap|
      invariant 1 <= i <= |heap| && m < i
      invariant forall k | 0 <= k < i && k != m :: heap[m].Before(heap[k])
    {
      if heap[i].Before(heap[m]) {
        m := i;
      }
      i := i + 1;
    }
    e := heap[m];
    rest := heap[..m] + heap[m + 1..];
    RemoveAt(heap, m, sequence);
    assert IsLeast(Members(heap), e) by {
      forall other | other in heap && other != e
        ensures e.Before(other)
      {
        var k :| 0 <= k < |heap| && heap[k] == other;
      }
    }
  }

  lemma RemoveAt(heap: seq<EdfEntry>, m: nat, sequence: nat)
    requires m < |heap| && HeapOk(heap, sequence)
    ensures var rest := heap[..m] + heap[m + 1..];
      HeapOk(rest, sequence) && Members(rest) == Members(heap) - {heap[m]}
  {
    var rest := heap[..m] + heap[m + 1..];
    forall k | 0 <= k < |rest|
      ensures rest[k] == heap[if k < m then k else k + 1] && rest[k].sequence != heap[m].sequence
    {
    }
    forall e | e in Members(heap) - {heap[m]}
      ensures e in rest
    {
      var k :| 0 <= k < |heap| && heap[k] == e;
      assert rest[if k < m then k else k - 1] == e;
    }
  }

  ghost function BandsOf(edf: seq<seq<EdfEntry>>, fifo: seq<seq<Queued>>): (bands: seq<Band>)
    requires |edf| == 4 && |fifo| == 4
    ensures |bands| == 4 && forall b | 0 <= b < 4 :: bands[b] == Band(Members(edf[b]), fifo[b])
  {
    seq(4, b requires 0 <= b < 4 => Band(Members(edf[b]), fifo[b]))
  }

  // ----- clean-up, loop by loop -----

  function QueuedOf(heap: seq<EdfEntry>): seq<Queued> {
    if heap == [] then [] else [heap[0].queued] + QueuedOf(heap[1..])
  }

  function FlatUnstarted(queues: seq<seq<Queued>>): seq<Queued> {
    if queues == [] then [] else FlatUnstarted(queues[..|queues| - 1]) + Unstarted(queues[|queues| - 1])
  }

  function HeapsUnstarted(heaps: seq<seq<EdfEntry>>): seq<Queued> {
    if heaps == [] then [] else HeapsUnstarted(heaps[..|heaps| - 1]) + Unstarted(QueuedOf(heaps[|heaps| - 1]))
  }

  function FlatResumes(queues: seq<seq<Queued>>): seq<Queued> {
    if queues == [] then [] else FlatResumes(queues[..|queues| - 1]) + Resumes(queues[|queues| - 1])
  }

  lemma FlatWorkerResumes(local: LocalBands)
    requires |local| == 4
    ensures FlatResumes(local) == WorkerResumes(local)
  {
    assert local[..3][..2] == local[..2] && local[..2][..1] == local[..1] && local[..1][..0] == [];
    assert FlatResumes(local[..1]) == Resumes(local[0]);
    assert FlatResumes(local[..2]) == Resumes(local[0]) + Resumes(local[1]);
    assert FlatResumes(local[..3]) == Resumes(local[0]) + Resumes(local[1]) + Resumes(local[2]);
  }

  function LocalsUnstarted(locals: seq<LocalBands>): seq<Queued> {
    if locals == [] then [] else LocalsUnstarted(locals[..|locals| - 1]) + FlatUnstarted(locals[|locals| - 1])
  }

  predicate IsExternal(q: Queued) {
    q.external
  }

  function Externals(s: seq<Queued>): nat {
    ReadyLedger.CountSeq(s, IsExternal)
  }

  /// Cancels what has not started and keeps the resume segments, in order.
  method CleanQueue(queue: seq<Queued>) returns (kept: seq<Queued>, cancelled: seq<Queued>, freed: nat)
    ensures kept == Resumes(queue) && cancelled == Unstarted(queue) && freed == Externals(cancelled)
  {
    kept, cancelled, freed := [], [], 0;
    var rest := queue;
    while rest != []
      invariant kept + Resumes(rest) == Resumes(queue) && cancelled + Unstarted(rest) == Unstarted(queue)
      invariant freed == Externals(cancelled)
      decreases |rest|
    {
      var q := rest[0];
      rest := rest[1..];
      if q.task.resume {
        kept := kept + [q];
      } else {
        ReadyLedger.CountAppend(cancelled, [q], IsExternal);
        OneExternal(q);
        cancelled := cancelled + [q];
        if q.external {
          freed := freed + 1;
        }
      }
    }
  }

  lemma OneExternal(q: Queued)
    ensures Externals([q]) == if q.external then 1 else 0
  {
    ReadyLedger.CountPop([q], IsExternal);
    assert [q][1..] == [];
  }

  function KeptEntries(heap: seq<EdfEntry>): seq<EdfEntry> {
    if heap == [] then [] else (if heap[0].queued.task.resume then [heap[0]] else []) + KeptEntries(heap[1..])
  }

  lemma {:induction false} KeptMembers(heap: seq<EdfEntry>)
    ensures forall e :: e in KeptEntries(heap) <==> e in heap && e.queued.task.resume
  {
    if heap != [] {
      KeptMembers(heap[1..]);
    }
  }

  lemma {:induction false} KeptIsHeap(heap: seq<EdfEntry>, sequence: nat)
    requires HeapOk(heap, sequence)
    ensures HeapOk(KeptEntries(heap), sequence)
  {
    KeptMembers(heap);
    if heap != [] {
      var kept := KeptEntries(heap[1..]);
      KeptIsHeap(heap[1..], sequence);
      KeptMembers(heap[1..]);
      forall j | 0 <= j < |kept|
        ensures kept[j].sequence != heap[0].sequence
      {
        assert kept[j] in kept;
        var k :| 1 <= k < |heap| && heap[k] == kept[j];
      }
    }
  }

  method CleanHeap(heap: seq<EdfEntry>) returns (kept: seq<EdfEntry>, cancelled: seq<Queued>, freed: nat)
    ensures kept == KeptEntries(heap)
    ensures cancelled == Unstarted(QueuedOf(heap)) && freed == Externals(cancelled)
  {
    hide Externals;
    NoExternals();
    kept, cancelled, freed := [], [], 0;
    var rest := heap;
    while rest != []
      invariant kept + KeptEntries(rest) == KeptEntries(heap)
      invariant cancelled + Unstarted(QueuedOf(rest)) == Unstarted(QueuedOf(heap))
      invariant freed == Externals(cancelled)
      decreases |rest|
    {
      var e := rest[0];
      rest := rest[1..];
      if e.queued.task.resume {
        kept := kept + [e];
      } else {
        ExternalsAppend(cancelled, [e.queued]);
        OneExternal(e.queued);
        cancelled := cancelled + [e.queued];
        if e.queued.external {
          freed := freed + 1;
        }
      }
    }
  }

  lemma NoExternals()
    ensures Externals([]) == 0
  {
  }

  lemma ExternalsAppend(a: seq<Queued>, b: seq<Queued>)
    ensures Externals(a + b) == Externals(a) + Externals(b)
  {
    ReadyLedger.CountAppend(a, b, IsExternal);
  }

  lemma AllHaveFour(locals: seq<LocalBands>)
    requires LocalsOk(locals)
    ensures forall w | 0 <= w < |locals| :: |locals[w]| == 4
  {
  }

  lemma LocalHasFour(local: LocalBands)
    requires LocalOk(local)
    ensures |local| == 4 && LocalOk(KeptLocal(local)) && LocalOk([[], [], [], []])
  {
    KeptLocalOk(local);
  }

  lemma {:induction false} NoneExternal(s: seq<Queued>)
    requires forall q | q in s :: !q.external
    ensures Externals(Unstarted(s)) == 0
  {
    if s != [] {
      NoneExternal(s[1..]);
      OneExternal(s[0]);
      ExternalsAppend(if s[0].task.resume then [] else [s[0]], Unstarted(s[1..]));
    }
  }

  lemma {:induction false} FlatNoneExternal(queues: seq<seq<Queued>>)
    requires forall b, q | 0 <= b < |queues| && q in queues[b] :: !q.external
    ensures Externals(FlatUnstarted(queues)) == 0
  {
    if queues != [] {
      var last := |queues| - 1;
      FlatNoneExternal(queues[..last]);
      NoneExternal(queues[last]);
      ExternalsAppend(FlatUnstarted(queues[..last]), Unstarted(queues[last]));
    }
  }

  lemma {:induction false} LocalsHaveNoExternals(locals: seq<LocalBands>)
    requires LocalsOk(locals)
    ensures Externals(LocalsUnstarted(locals)) == 0
  {
    if locals != [] {
      var last := |locals| - 1;
      LocalsHaveNoExternals(locals[..last]);
      assert LocalOk(locals[last]);
      FlatNoneExternal(locals[last]);
      ExternalsAppend(LocalsUnstarted(locals[..last]), FlatUnstarted(locals[last]));
    }
  }

  // ----- clean-up as a whole -----

  function Flat(queues: seq<seq<Queued>>): seq<Queued> {
    if queues == [] then [] else Flat(queues[..|queues| - 1]) + queues[|queues| - 1]
  }

  function HeapsFlat(heaps: seq<seq<EdfEntry>>): seq<Queued> {
    if heaps == [] then [] else HeapsFlat(heaps[..|heaps| - 1]) + QueuedOf(heaps[|heaps| - 1])
  }

  function LocalsFlat(locals: seq<LocalBands>): seq<Queued> {
    if locals == [] then [] else LocalsFlat(locals[..|locals| - 1]) + Flat(locals[|locals| - 1])
  }

  /// Everything queued, wherever it is.
  function Everything(edf: seq<seq<EdfEntry>>, fifo: seq<seq<Queued>>, locals: seq<LocalBands>): multiset<Queued> {
    multiset(HeapsFlat(edf)) + multiset(Flat(fifo)) + multiset(LocalsFlat(locals))
  }

  lemma {:induction false} FlatPartitions(queues: seq<seq<Queued>>)
    ensures multiset(Flat(queues)) == multiset(FlatResumes(queues)) + multiset(FlatUnstarted(queues))
  {
    if queues != [] {
      var last := |queues| - 1;
      FlatPartitions(queues[..last]);
      CleanupPartitions(queues[last]);
    }
  }

  lemma {:induction false} KeptAreResumes(heap: seq<EdfEntry>)
    ensures QueuedOf(KeptEntries(heap)) == Resumes(QueuedOf(heap))
  {
    if heap != [] {
      KeptAreResumes(heap[1..]);
      var kept := KeptEntries(heap[1..]);
      assert ([heap[0]] + kept)[1..] == kept && [] + kept == kept;
      assert [] + Resumes(QueuedOf(heap[1..])) == Resumes(QueuedOf(heap[1..]));
      assert QueuedOf(heap)[1..] == QueuedOf(heap[1..]);
    }
  }

  lemma {:induction false} HeapsPartition(heaps: seq<seq<EdfEntry>>, kept: seq<seq<EdfEntry>>)
    requires |kept| == |heaps| && forall b | 0 <= b < |heaps| :: kept[b] == KeptEntries(heaps[b])
    ensures multiset(HeapsFlat(heaps)) == multiset(HeapsFlat(kept)) + multiset(HeapsUnstarted(heaps))
  {
    if heaps != [] {
      hide QueuedOf, KeptEntries, Unstarted, Resumes;
      var last := |heaps| - 1;
      HeapsPartition(heaps[..last], kept[..last]);
      CleanupPartitions(QueuedOf(heaps[last]));
      KeptAreResumes(heaps[last]);
    }
  }

  lemma {:induction false} LocalsPartition(locals: seq<LocalBands>)
    requires forall w | 0 <= w < |locals| :: |locals[w]| == 4
    ensures multiset(LocalsFlat(locals)) == multiset(AllResumes(locals)) + multiset(LocalsUnstarted(locals))
  {
    if locals != [] {
      hide Flat, FlatUnstarted, FlatResumes, WorkerResumes;
      var last := |locals| - 1;
      LocalsPartition(locals[..last]);
      FlatPartitions(locals[last]);
      FlatWorkerResumes(locals[last]);
    }
  }

  lemma FlatFour(q0: seq<Queued>, q1: seq<Queued>, q2: seq<Queued>, q3: seq<Queued>)
    ensures Flat([q0, q1, q2, q3]) == q0 + q1 + q2 + q3
    ensures FlatResumes([q0, q1, q2, q3]) == Resumes(q0) + Resumes(q1) + Resumes(q2) + Resumes(q3)
  {
    var all := [q0, q1, q2, q3];
    assert all[..3][..2] == all[..2] && all[..2][..1] == all[..1] && all[..1][..0] == [];
    assert Flat(all[..1]) == q0 && Flat(all[..2]) == q0 + q1 && Flat(all[..3]) == q0 + q1 + q2;
    FlatWorkerResumes(all);
  }

  /// The local queues after clean-up hold the resume segments of the locked ones.
  lemma {:induction false} LocalsKeep(locals: seq<LocalBands>, locals': seq<LocalBands>, locked: bool)
    requires |locals'| == |locals| && forall w | 0 <= w < |locals| :: |locals[w]| == 4
    requires forall w | 0 <= w < |locals| :: locals'[w] == if locked then KeptLocal(locals[w]) else [[], [], [], []]
    ensures LocalsFlat(locals') == if locked then AllResumes(locals) else []
  {
    if locals != [] {
      hide Flat, Resumes;
      var last := |locals| - 1;
      LocalsKeep(locals[..last], locals'[..last], locked);
      FlatFour(Resumes(locals[last][0]), Resumes(locals[last][1]), Resumes(locals[last][2]), Resumes(locals[last][3]));
      FlatFour([], [], [], []);
    }
  }

  lemma {:induction false} OfBandsAreAll(s: seq<Queued>)
    ensures multiset(s) == multiset(OfBand(s, 0)) + multiset(OfBand(s, 1)) + multiset(OfBand(s, 2)) + multiset(OfBand(s, 3))
  {
    if s != [] {
      OfBandsAreAll(s[1..]);
      assert s == [s[0]] + s[1..];
    }
  }

  lemma FifosKeep(fifo: seq<seq<Queued>>, fifo': seq<seq<Queued>>, resumes: seq<Queued>)
    requires |fifo| == |fifo'| == 4
    requires forall b | 0 <= b < 4 :: fifo'[b] == Resumes(fifo[b]) + OfBand(resumes, b)
    ensures multiset(Flat(fifo')) == multiset(FlatResumes(fifo)) + multiset(resumes)
  {
    hide Flat, FlatResumes, Resumes, OfBand;
    OfBandsAreAll(resumes);
    FlatFour(fifo[0], fifo[1], fifo[2], fifo[3]);
    FlatFour(fifo'[0], fifo'[1], fifo'[2], fifo'[3]);
    assert fifo == [fifo[0], fifo[1], fifo[2], fifo[3]] && fifo' == [fifo'[0], fifo'[1], fifo'[2], fifo'[3]];
  }

  /// Clean-up over all queues: what was queued anywhere is queued afterwards or cancelled, once.
  lemma CleanupConservesEverything(edf: seq<seq<EdfEntry>>, fifo: seq<seq<Queued>>, locals: seq<LocalBands>, locked: bool,
      edf': seq<seq<EdfEntry>>, fifo': seq<seq<Queued>>, locals': seq<LocalBands>)
    requires |edf| == |edf'| == |fifo| == |fifo'| == 4 && |locals'| == |locals|
    requires forall w | 0 <= w < |locals| :: |locals[w]| == 4
    requires forall b | 0 <= b < 4 :: edf'[b] == KeptEntries(edf[b])
    requires forall b | 0 <= b < 4 ::
      fifo'[b] == Resumes(fifo[b]) + OfBand(if locked then [] else AllResumes(locals), b)
    requires forall w | 0 <= w < |locals| :: locals'[w] == if locked then KeptLocal(locals[w]) else [[], [], [], []]
    ensures Everything(edf, fifo, locals) == Everything(edf', fifo', locals') +
      multiset(HeapsUnstarted(edf) + FlatUnstarted(fifo) + LocalsUnstarted(locals))
  {
    hide HeapsFlat, Flat, LocalsFlat, FlatResumes, FlatUnstarted, HeapsUnstarted, LocalsUnstarted, AllResumes;
    hide Resumes, OfBand, KeptEntries, KeptLocal;
    HeapsPartition(edf, edf');
    FlatPartitions(fifo);
    LocalsPartition(locals);
    LocalsKeep(locals, locals', locked);
    FifosKeep(fifo, fifo', if locked then [] else AllResumes(locals));
  }

  /// One worker's queues: a Chase-Lev queue is emptied, a locked one keeps its resume segments.
  method CleanLocal(local: LocalBands, locked: bool) returns (local': LocalBands, cancelled: seq<Queued>, resumes: seq<Queued>)
    requires |local| == 4
    ensures local' == if locked then KeptLocal(local) else [[], [], [], []]
    ensures cancelled == FlatUnstarted(local) && resumes == WorkerResumes(local)
  {
    hide Externals, Unstarted, Resumes;
    local', cancelled, resumes := local, [], [];
    var b := 0;
    while b < 4
      invariant b <= 4 && |local'| == 4
      invariant forall c | 0 <= c < b :: local'[c] == if locked then Resumes(local[c]) else []
      invariant forall c | b <= c < 4 :: local'[c] == local[c]
      invariant cancelled == FlatUnstarted(local[..b]) && resumes == FlatResumes(local[..b])
    {
      var kept, more, _ := CleanQueue(local[b]);
      assert local[..b + 1][..b] == local[..b];
      local' := local'[b := if locked then kept else []];
      cancelled, resumes := cancelled + more, resumes + kept;
      b := b + 1;
    }
    assert local[..4] == local;
    FlatWorkerResumes(local);
  }

  class ReadyQueues {
    var edf: seq<seq<EdfEntry>>
    var fifo: seq<seq<Queued>>
    var locals: seq<LocalBands>
    var sequence: nat
    const lockedLocals: bool      // otherwise the local bands are Chase-Lev deques

    ghost predicate Valid()
      reads this
    {
      && |edf| == 4 && |fifo| == 4 && LocalsOk(locals)
      && forall b | 0 <= b < 4 :: HeapOk(edf[b], sequence) && Placed(fifo[b], b)
    }

    ghost function Bands(): (bands: seq<Band>)
      reads this
      requires Valid()
      ensures BandsOk(bands)
      ensures forall b | 0 <= b < 4 :: bands[b] == Band(Members(edf[b]), fifo[b])
    {
      forall b | 0 <= b < 4
        ensures Distinct(Members(edf[b]))
      {
        HeapDistinct(edf[b], sequence);
      }
      BandsOf(edf, fifo)
    }

    ghost function AsSystem(): (s: System)
      reads this
      requires Valid()
      ensures s.Valid()
    {
      System(Bands(), sequence, [])
    }

    constructor (workers: nat, lockedLocals: bool)
      ensures Valid() && |locals| == workers && this.lockedLocals == lockedLocals
      ensures AllEmpty(Bands()) && forall w | 0 <= w < workers :: NoLocal(locals[w])
    {
      edf, fifo := [[], [], [], []], [[], [], [], []];
      locals := seq(workers, _ => [[], [], [], []]);
      sequence := 0;
      this.lockedLocals := lockedLocals;
    }

    /// A deadline task goes to its band's heap; another one to the worker's local band if it has
    /// one and there is room, and to its band's FIFO otherwise.
    method Publish(task: Task, external: bool, useLocal: bool, worker: nat, room: bool)
      requires Valid()
      modifies this
      ensures Valid()
      ensures var local := !GoesToEdf(task) && useLocal && worker < |old(locals)| && (lockedLocals || room);
        if local then
          && AsSystem() == old(AsSystem())
          && locals == old(locals)[worker := Pushed(old(locals)[worker], Queued(task, false))]
        else AsSystem() == Step(old(AsSystem()), ReadySpec.Publish(Queued(task, external))) && locals == old(locals)
    {
      var b := task.priority.Index();
      if GoesToEdf(task) {
        sequence := sequence + 1;
        MembersAdd(edf[b], EdfEntry(task.deadline.value, sequence, Queued(task, external)));
        edf := edf[b := edf[b] + [EdfEntry(task.deadline.value, sequence, Queued(task, external))]];
        return;
      }
      if useLocal && worker < |locals| {
        if lockedLocals || room {
          locals := locals[worker := Pushed(locals[worker], Queued(task, false))];
          return;
        }
      }
      fifo := fifo[b := fifo[b] + [Queued(task, external)]];
    }

    /// A claim from a non-empty band.
    method ClaimBandLocked(b: nat, burst: nat) returns (out: Option<Queued>, burst': nat)
      requires Valid() && b < 4
      modifies `edf, `fifo
      ensures Valid()
      ensures if old(Bands()[b]).Empty() then out.None? && burst' == burst && Bands() == old(Bands())
              else out.Some? && ClaimBand(old(Bands()[b]), burst) == (out.value, Bands()[b], burst') &&
                   Bands() == old(Bands())[b := Bands()[b]]
    {
      MembersEmpty(edf[b]);
      if edf[b] == [] && fifo[b] == [] {
        return None, burst;
      }
      if edf[b] != [] && fifo[b] != [] {
        if burst < BURST_LIMIT {
          var e, rest := PopHeap(edf[b], sequence);
          edf := edf[b := rest];
          return Some(e.queued), burst + 1;
        } else {
          out, burst' := Some(fifo[b][0]), 0;
          fifo := fifo[b := fifo[b][1..]];
        }
      } else if edf[b] != [] {
        var e, rest := PopHeap(edf[b], sequence);
        edf := edf[b := rest];
        return Some(e.queued), burst + 1;
      } else {
        out, burst' := Some(fifo[b][0]), 0;
        fifo := fifo[b := fifo[b][1..]];
      }
    }

    /// The calendar's band first, then the others from Critical down.
    method ClaimGlobal(calendar: nat, bursts: seq<nat>) returns (out: Option<Queued>, calendar': nat, bursts': seq<nat>)
      requires Valid() && Claimant(calendar, bursts).Valid()
      modifies `edf, `fifo
      ensures Valid()
      ensures ReadySpec.ClaimGlobal(old(Bands()), Claimant(calendar, bursts)) == (out, Bands(), Claimant(calendar', bursts'))
    {
      hide HeapOk, LocalsOk, Placed, ClaimBand, Distinct;
      calendar', bursts' := calendar, bursts;
      var target := CALENDAR[calendar].Index();
      var burst: nat;
      out, burst := ClaimBandLocked(target, bursts[target]);
      if out.Some? {
        return out, NextSlot(calendar), bursts[target := burst];
      }
      var b := 4;
      while b > 0
        invariant b <= 4 && Valid() && Bands() == old(Bands())
        invariant Bands()[target].Empty() && forall c | b <= c < 4 :: Bands()[c].Empty()
      {
        b := b - 1;
        if b != target {
          out, burst := ClaimBandLocked(b, bursts[b]);
          if out.Some? {
            assert Choose(old(Bands()), target) == b;
            return out, NextSlot(calendar), bursts[b := burst];
          }
        }
      }
      return None, calendar, bursts;
    }

    /// The owner's claim from its own bands (newest first), or a steal from a victim's (oldest first).
    method TakeLocal(worker: nat, calendar: nat, fromBack: bool) returns (out: Option<Queued>, calendar': nat)
      requires Valid() && calendar < CALENDAR_LENGTH
      modifies `locals
      ensures Valid()
      ensures
        if worker < |old(locals)| then
          && |locals| == |old(locals)|
          && (out, locals[worker], calendar') == ClaimLocal(old(locals)[worker], calendar, fromBack)
          && locals == old(locals)[worker := locals[worker]]
        else out.None? && calendar' == calendar && locals == old(locals)
    {
      if worker >= |locals| {
        return None, calendar;
      }
      var target := CALENDAR[calendar].Index();
      if locals[worker][target] != [] {
        out := TakeFromBand(worker, target, fromBack);
        return out, NextSlot(calendar);
      }
      var b := 4;
      while b > 0
        invariant b <= 4 && Valid() && locals == old(locals)
        invariant forall c | b <= c < 4 :: locals[worker][c] == []
      {
        b := b - 1;
        if b != target && locals[worker][b] != [] {
          assert ChooseLocal(locals[worker], target) == b;
          out := TakeFromBand(worker, b, fromBack);
          return out, NextSlot(calendar);
        }
      }
      return None, calendar;
    }

    method CleanHeaps() returns (cancelled: seq<Queued>, freed: nat)
      requires Valid()
      modifies `edf
      ensures Valid() && forall b | 0 <= b < 4 :: edf[b] == KeptEntries(old(edf)[b])
      ensures cancelled == HeapsUnstarted(old(edf)) && freed == Externals(cancelled)
    {
      hide Externals, LocalsOk, HeapOk, Placed, KeptEntries, Unstarted, QueuedOf;
      cancelled, freed := [], 0;
      ghost var heaps := edf;
      var b := 0;
      NoExternals();
      while b < 4
        invariant b <= 4 && Valid()
        invariant forall c | 0 <= c < b :: edf[c] == KeptEntries(heaps[c])
        invariant forall c | b <= c < 4 :: edf[c] == heaps[c]
        invariant cancelled == HeapsUnstarted(heaps[..b]) && freed == Externals(cancelled)
      {
        var kept, more, count := CleanHeap(edf[b]);
        KeptIsHeap(edf[b], sequence);
        ExternalsAppend(cancelled, more);
        assert heaps[..b + 1][..b] == heaps[..b];
        edf := edf[b := kept];
        cancelled, freed := cancelled + more, freed + count;
        b := b + 1;
      }
      assert heaps[..4] == heaps;
    }

    method CleanFifos() returns (cancelled: seq<Queued>, freed: nat)
      requires Valid()
      modifies `fifo
      ensures Valid() && forall b | 0 <= b < 4 :: fifo[b] == Resumes(old(fifo)[b])
      ensures cancelled == FlatUnstarted(old(fifo)) && freed == Externals(cancelled)
    {
      hide Externals, LocalsOk, HeapOk, Placed, Resumes, Unstarted;
      cancelled, freed := [], 0;
      ghost var queues := fifo;
      var b := 0;
      NoExternals();
      while b < 4
        invariant b <= 4 && Valid()
        invariant forall c | 0 <= c < b :: fifo[c] == Resumes(queues[c])
        invariant forall c | b <= c < 4 :: fifo[c] == queues[c]
        invariant cancelled == FlatUnstarted(queues[..b]) && freed == Externals(cancelled)
      {
        var kept, more, count := CleanQueue(fifo[b]);
        ResumesPlaced(fifo[b], b);
        ExternalsAppend(cancelled, more);
        assert queues[..b + 1][..b] == queues[..b];
        fifo := fifo[b := kept];
        cancelled, freed := cancelled + more, freed + count;
        b := b + 1;
      }
      assert queues[..4] == queues;
    }

    method CleanLocals() returns (cancelled: seq<Queued>, resumes: seq<Queued>)
      requires Valid()
      modifies `locals
      ensures Valid() && |locals| == |old(locals)|
      ensures forall w | 0 <= w < |locals| ::
        locals[w] == if lockedLocals then KeptLocal(old(locals)[w]) else [[], [], [], []]
      ensures cancelled == LocalsUnstarted(old(locals))
      ensures resumes == if lockedLocals then [] else AllResumes(old(locals))
    {
      hide HeapOk, KeptLocal, WorkerResumes, FlatUnstarted;
      cancelled, resumes := [], [];
      ghost var before := locals;
      var w := 0;
      while w < |locals|
        invariant w <= |locals| == |before| && Valid()
        invariant forall v | 0 <= v < w ::
          locals[v] == if lockedLocals then KeptLocal(before[v]) else [[], [], [], []]
        invariant forall v | w <= v < |locals| :: locals[v] == before[v]
        invariant cancelled == LocalsUnstarted(before[..w])
        invariant resumes == if lockedLocals then [] else AllResumes(before[..w])
      {
        assert LocalOk(before[w]);
        LocalHasFour(before[w]);
        var local, more, found := CleanLocal(locals[w], lockedLocals);
        assert before[..w + 1][..w] == before[..w];
        locals := locals[w := local];
        cancelled := cancelled + more;
        if !lockedLocals {
          resumes := resumes + found;
        }
        w := w + 1;
      }
      assert before[..w] == before;
    }

    method ReturnResumes(resumes: seq<Queued>)
      requires Valid()
      modifies `fifo
      ensures Valid() && forall b | 0 <= b < 4 :: fifo[b] == old(fifo)[b] + OfBand(resumes, b)
    {
      hide HeapOk, LocalsOk, OfBand;
      ghost var before := fifo;
      NothingOfBand();
      var i := 0;
      while i < |resumes|
        invariant i <= |resumes| && Valid()
        invariant forall b | 0 <= b < 4 :: fifo[b] == before[b] + OfBand(resumes[..i], b)
      {
        var q := resumes[i];
        forall b | 0 <= b < 4
          ensures OfBand(resumes[..i + 1], b) == OfBand(resumes[..i], b) + IfBand(q, b)
        {
          OfBandNext(resumes, i, b);
        }
        var b := q.task.priority.Index();
        fifo := fifo[b := fifo[b] + [q]];
        i := i + 1;
      }
      assert resumes[..i] == resumes;
    }

    /// Immediate clean-up: every resume segment stays queued in its band and order, every other
    /// task is cancelled once, and every cancelled external one gives its slot back.
    method CancelUnstarted() returns (cancelled: seq<Queued>, freed: nat)
      requires Valid()
      modifies `edf, `fifo, `locals
      ensures Valid()
      ensures Bands() == CleanBands(old(Bands()), if lockedLocals then [] else AllResumes(old(locals)))
      ensures |locals| == |old(locals)| && forall w | 0 <= w < |locals| ::
        locals[w] == if lockedLocals then KeptLocal(old(locals)[w]) else [[], [], [], []]
      ensures cancelled == HeapsUnstarted(old(edf)) + FlatUnstarted(old(fifo)) + LocalsUnstarted(old(locals))
      ensures freed == Externals(cancelled)
      ensures Everything(edf, fifo, locals) + multiset(cancelled) == old(Everything(edf, fifo, locals))
    {
      hide Externals, HeapOk, Placed, LocalOk, BandsOk, HeapsUnstarted, FlatUnstarted, LocalsUnstarted, Everything;
      hide Resumes, OfBand, KeptEntries, KeptLocal, AllResumes;
      ghost var before := Bands();
      var fromHeaps, freedHeaps := CleanHeaps();
      var fromFifos, freedFifos := CleanFifos();
      LocalsHaveNoExternals(locals);
      var fromLocals, resumes := CleanLocals();
      ReturnResumes(resumes);
      cancelled := fromHeaps + fromFifos + fromLocals;
      freed := freedHeaps + freedFifos;
      AllHaveFour(old(locals));
      CleanupConservesEverything(old(edf), old(fifo), old(locals), lockedLocals, edf, fifo, locals);
      ExternalsAppend(fromHeaps, fromFifos);
      ExternalsAppend(fromHeaps + fromFifos, fromLocals);
      forall b | 0 <= b < 4
        ensures Bands()[b] == CleanBand(before[b], OfBand(resumes, b))
      {
        KeptMembers(old(edf)[b]);
      }
    }

    method TakeFromBand(worker: nat, b: nat, fromBack: bool) returns (out: Option<Queued>)
      requires Valid() && worker < |locals| && b < 4 && locals[worker][b] != []
      modifies `locals
      ensures Valid()
      ensures var band := old(locals)[worker][b];
        && out == Some(if fromBack then band[|band| - 1] else band[0])
        && locals == old(locals)[worker := old(locals)[worker][b :=
             if fromBack then band[..|band| - 1] else band[1..]]]
    {
      var band := locals[worker][b];
      var last := |band| - 1;
      out := Some(if fromBack then band[last] else band[0]);
      locals := locals[worker := locals[worker][b := if fromBack then band[..last] else band[1..]]];
    }
  }

  lemma MembersAdd(heap: seq<EdfEntry>, e: EdfEntry)
    ensures Members(heap + [e]) == Members(heap) + {e}
  {
  }

  lemma MembersEmpty(heap: seq<EdfEntry>)
    ensures heap == [] <==> Members(heap) == {}
  {
    if heap != [] {
      assert heap[0] in Members(heap);
    }
  }

  function Pushed(local: LocalBands, q: Queued): LocalBands
    requires |local| == 4
  {
    var b := q.task.priority.Index();
    local[b := local[b] + [q]]
  }
}
