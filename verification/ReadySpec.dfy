/// The global ready queues as values: four priority bands, each with a deadline
/// heap and a FIFO, and claimants that walk the fifteen-slot priority calendar.
module ReadySpec {
  import opened Wrappers

  datatype Priority = Low | Normal | High | Critical {
    function Index(): (i: nat)
      ensures i < 4
    {
      match this case Low => 0 case Normal => 1 case High => 2 case Critical => 3
    }
  }

  /// What a queued item belongs to: an admitted submission, a node of a graph run, or work of the
  /// runtime's own making (an internal submission, a resume segment).
  datatype Origin = Submission(id: nat) | GraphNode(run: nat, node: nat) | Inside(id: nat)

  datatype Task = Task(origin: Origin, priority: Priority, deadline: Option<int>, resume: bool)

  datatype Queued = Queued(task: Task, external: bool)

  datatype EdfEntry = EdfEntry(deadline: int, sequence: nat, queued: Queued) {
    predicate Before(other: EdfEntry) {
      deadline < other.deadline || (deadline == other.deadline && sequence < other.sequence)
    }
  }

  datatype Band = Band(edf: set<EdfEntry>, fifo: seq<Queued>) {
    predicate Empty() {
      edf == {} && fifo == []
    }
  }

  const CALENDAR_LENGTH := 15
  const BURST_LIMIT := 8

  const CALENDAR: seq<Priority> := [
    Critical, High, Critical, Normal, Critical, High, Critical, Low,
    Critical, High, Critical, Normal, Critical, High, Critical]

  // ----- earliest deadline first -----

  ghost predicate Distinct(edf: set<EdfEntry>) {
    forall a, b | a in edf && b in edf && a != b :: a.sequence != b.sequence
  }

  ghost predicate IsLeast(edf: set<EdfEntry>, e: EdfEntry) {
    e in edf && forall other | other in edf && other != e :: e.Before(other)
  }

  lemma {:induction false} LeastExists(edf: set<EdfEntry>) returns (e: EdfEntry)
    requires edf != {} && Distinct(edf)
    ensures IsLeast(edf, e)
  {
    var first :| first in edf;
    e := first;
    var rest := edf - {first};
    assert forall other | other in edf && other != first :: other in rest;
    if rest != {} {
      var least := LeastExists(rest);
      if least.Before(first) {
        e := least;
      }
    }
  }

  ghost function Least(edf: set<EdfEntry>): (e: EdfEntry)
    requires edf != {} && Distinct(edf)
    ensures IsLeast(edf, e)
  {
    assert exists e :: IsLeast(edf, e) by { var e := LeastExists(edf); }
    var e :| IsLeast(edf, e);
    e
  }

  // ----- one claim -----

  /// A claim from a band: a deadline task, unless a FIFO task waits and the burst is used up.
  ghost function ClaimBand(band: Band, burst: nat): (r: (Queued, Band, nat))
    requires !band.Empty() && Distinct(band.edf)
  {
    if band.edf != {} && (band.fifo == [] || burst < BURST_LIMIT) then
      var e := Least(band.edf);
      (e.queued, band.(edf := band.edf - {e}), burst + 1)
    else
      (band.fifo[0], band.(fifo := band.fifo[1..]), 0)
  }

  datatype Claimant = Claimant(calendar: nat, bursts: seq<nat>) {
    predicate Valid() {
      calendar < CALENDAR_LENGTH && |bursts| == 4
    }
  }

  ghost predicate BandsOk(bands: seq<Band>) {
    |bands| == 4 && forall b | 0 <= b < 4 :: Distinct(bands[b].edf)
  }

  predicate AllEmpty(bands: seq<Band>) {
    forall b | 0 <= b < |bands| :: bands[b].Empty()
  }

  /// The band a claim takes from: the calendar's, or the first non-empty one from Critical down.
  function Choose(bands: seq<Band>, target: nat): (b: nat)
    requires |bands| == 4 && target < 4 && !AllEmpty(bands)
    ensures b < 4 && !bands[b].Empty()
    ensures b != target ==> bands[target].Empty() && forall c | b < c < 4 :: bands[c].Empty()
  {
    if !bands[target].Empty() then target
    else if !bands[3].Empty() then 3
    else if !bands[2].Empty() then 2
    else if !bands[1].Empty() then 1
    else
      assert !bands[0].Empty();
      0
  }

  function NextSlot(calendar: nat): (next: nat)
    requires calendar < CALENDAR_LENGTH
    ensures next < CALENDAR_LENGTH
  {
    (calendar + 1) % CALENDAR_LENGTH
  }

  function Target(c: Claimant): nat
    requires c.Valid()
  {
    CALENDAR[c.calendar].Index()
  }

  ghost function ClaimGlobal(bands: seq<Band>, c: Claimant): (r: (Option<Queued>, seq<Band>, Claimant))
    requires BandsOk(bands) && c.Valid()
    ensures BandsOk(r.1) && r.2.Valid()
  {
    if AllEmpty(bands) then (None, bands, c)
    else
      var b := Choose(bands, Target(c));
      var (out, band, burst) := ClaimBand(bands[b], c.bursts[b]);
      (Some(out), bands[b := band], Claimant(NextSlot(c.calendar), c.bursts[b := burst]))
  }

  // ----- several claimants, arrivals and clean-up -----

  datatype System = System(bands: seq<Band>, sequence: nat, claimants: seq<Claimant>) {
    ghost predicate Valid() {
      && BandsOk(bands)
      && (forall b, e | 0 <= b < 4 && e in bands[b].edf :: e.sequence <= sequence)
      && forall i | 0 <= i < |claimants| :: claimants[i].Valid()
    }
  }

  datatype Event =
    | Publish(q: Queued)
    | Claim(i: nat)
    | Cleanup(localResumes: seq<Queued>)

  predicate GoesToEdf(t: Task) {
    t.deadline.Some? && !t.resume
  }

  function Resumes(s: seq<Queued>): seq<Queued> {
    if s == [] then [] else (if s[0].task.resume then [s[0]] else []) + Resumes(s[1..])
  }

  function OfBand(s: seq<Queued>, b: nat): seq<Queued> {
    if s == [] then [] else (if s[0].task.priority.Index() == b then [s[0]] else []) + OfBand(s[1..], b)
  }

  /// Immediate clean-up of one band: only resume segments stay; those of local queues join the FIFO.
  function CleanBand(band: Band, localResumes: seq<Queued>): Band {
    Band((set e | e in band.edf && e.queued.task.resume), Resumes(band.fifo) + localResumes)
  }

  function CleanBands(bands: seq<Band>, localResumes: seq<Queued>): seq<Band>
    requires |bands| == 4
  {
    seq(4, b requires 0 <= b < 4 => CleanBand(bands[b], OfBand(localResumes, b)))
  }

  ghost function Step(s: System, e: Event): (r: System)
    requires s.Valid()
    ensures r.Valid() && |r.claimants| == |s.claimants|
  {
    match e
    case Publish(q) =>
      var b := q.task.priority.Index();
      var band := s.bands[b];
      if GoesToEdf(q.task) then
        var entry := EdfEntry(q.task.deadline.value, s.sequence + 1, q);
        s.(bands := s.bands[b := band.(edf := band.edf + {entry})], sequence := s.sequence + 1)
      else s.(bands := s.bands[b := band.(fifo := band.fifo + [q])])
    case Claim(i) =>
      if i < |s.claimants| then
        var (_, bands, c) := ClaimGlobal(s.bands, s.claimants[i]);
        s.(bands := bands, claimants := s.claimants[i := c])
      else s
    case Cleanup(localResumes) => s.(bands := CleanBands(s.bands, localResumes))
  }

  ghost function Run(s: System, events: seq<Event>): (r: System)
    requires s.Valid()
    ensures r.Valid() && |r.claimants| == |s.claimants|
    decreases |events|
  {
    if events == [] then s else Run(Step(s, events[0]), events[1..])
  }
}
