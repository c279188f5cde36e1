/// Where every admission slot is: the slot counter together with the submissions
/// under construction, the graph runs, the global and local ready queues and the
/// releases under way.  The steps that move a slot are those of the models of
/// the graph run, of the ready queues and of the graph lease.
module SlotConservation {
  import opened Wrappers
  import opened ReadySpec
  import L = ReadyLedger
  import G = GraphRunProtocol
  import T = GraphRunTally
  import O = GraphRunOutcomes
  import A = Admission

  datatype Phase = Leased | Running(run: G.State) | RolledBack

  /// A graph that was admitted: while it is leased its nodes are being set up.
  datatype Unit = Unit(x: G.Setting, external: bool, phase: Phase)

  datatype State = State(
    capacity: nat,
    pending: nat,
    status: A.Status,
    ready: System,
    local: set<Origin>,            // graph nodes in the workers' local queues
    admitted: set<nat>,            // external submissions that got their slot
    building: set<nat>,            // those not yet published
    graphs: seq<Unit>,
    releasing: multiset<Origin>,   // claimed external items whose release has not run yet
    returned: Origin -> nat        // how often the item's slot was given back; of an internal node,
                                   // which holds none, how often it was taken out of the queues
  )

  datatype Action =
    | SetStatus(status: A.Status)
    | AcquireTask(id: nat, block: bool)
    | RollbackTask(id: nat)                            // building the task threw
    | PublishTask(id: nat, priority: Priority, deadline: Option<int>)
    | PublishInside(q: Queued)
    | AcquireGraph(x: G.Setting, block: bool, isInternal: bool)
    | RollbackGraph(g: nat)                            // setting the nodes up threw
    | CommitGraph(g: nat)
    | GraphStep(g: nat, a: G.Action, priority: Priority, deadline: Option<int>, toGlobal: bool)
    | Claim(i: nat, runs: bool)                        // Immediate shutdown drops what it claims
    | ClaimLocal(o: Origin, runs: bool)
    | Release(o: Origin)
    | Cleanup(localResumes: seq<Queued>)

  // ----- what a graph run's step hands over -----

  datatype Transfer = Nothing | Posts(v: nat) | Cancels(v: nat)

  /// The node that the step hands to the ready queues, or cancels unposted.
  function TransferOf(x: G.Setting, run: G.State, a: G.Action): Transfer
    requires G.Cursors(x, run)
  {
    match a
    case PostRoot =>
      if run.rootsLeft == [] || !G.Active(x, run.rootsLeft[0]) then Nothing else Posts(run.rootsLeft[0])
    case Advance(u) =>
      if !G.Active(x, u) || !run.nodes[u].pc.Trigger? || run.nodes[u].pc.e == |x.g.edges| then Nothing
      else if run.nodes[u].pc.phase.Post? then Posts(G.Successor(x, run.nodes[u].pc))
      else if run.nodes[u].pc.phase.Release? then Cancels(G.Successor(x, run.nodes[u].pc))
      else Nothing
    case _ => Nothing
  }

  predicate IsWaiting(node: G.Node) {
    node.pc.Waiting?
  }

  /// A step makes a node leave the waiting ones exactly if it hands it over.
  lemma TransferMoves(x: G.Setting, run: G.State, a: G.Action)
    requires T.Inv(x, run) && G.Cursors(x, run) && !a.Claim?
    ensures var (run', t) := (G.Step(x, run, a), TransferOf(x, run, a));
      && (!t.Nothing? ==> G.Active(x, t.v) && run.nodes[t.v].pc.Waiting?)
      && |run'.nodes| == |run.nodes|
      && forall v | G.Active(x, v) ::
           && (run'.nodes[v].pc.Waiting? <==> run.nodes[v].pc.Waiting? && (t.Nothing? || t.v != v))
           && (run'.nodes[v].pc.Posted? <==> run.nodes[v].pc.Posted? || t == Posts(v))
  {
    hide T.CountInv, T.FinishInv, O.OutcomeInv;
    hide G.NodeOk, G.SoleDecider, G.FinalState, G.RegisterTally, G.RunDirectTally, G.AdvanceTally;
    match a
    case PostRoot =>
      if run.rootsLeft != [] { assert G.RootOk(x, run, run.rootsLeft[0]); }
    case Advance(u) =>
      if G.Active(x, u) && run.nodes[u].pc.Trigger? {
        var pc := run.nodes[u].pc;
        if pc.e < |x.g.edges| && (pc.phase.Post? || pc.phase.Release?) {
          G.DeciderHasZero(x, run, u, G.Successor(x, pc));
        }
      }
    case _ =>
  }

  // ----- the steps -----

  function Bump(f: Origin -> nat, o: Origin): Origin -> nat {
    (x: Origin) => if x == o then f(x) + 1 else f(x)
  }

  ghost predicate UnitOk(unit: Unit) {
    unit.x.Valid() && (unit.phase.Running? ==> T.Inv(unit.x, unit.phase.run))
  }

  ghost predicate GraphsOk(graphs: seq<Unit>) {
    forall g | 0 <= g < |graphs| :: UnitOk(graphs[g])
  }

  predicate IsRunning(graphs: seq<Unit>, g: nat) {
    g < |graphs| && graphs[g].phase.Running?
  }

  ghost function Stepped(unit: Unit, a: G.Action): Unit
    requires UnitOk(unit) && unit.phase.Running?
  {
    G.CursorsOk(unit.x, unit.phase.run);
    unit.(phase := Running(G.Step(unit.x, unit.phase.run, a)))
  }

  ghost function Transferred(unit: Unit, a: G.Action): Transfer
    requires UnitOk(unit) && unit.phase.Running?
  {
    G.CursorsOk(unit.x, unit.phase.run);
    TransferOf(unit.x, unit.phase.run, a)
  }

  ghost function GraphStepped(s: State, g: nat, a: G.Action, priority: Priority, deadline: Option<int>, toGlobal: bool): State
    requires s.ready.Valid() && GraphsOk(s.graphs) && IsRunning(s.graphs, g)
  {
    var unit := s.graphs[g];
    var moved := s.(graphs := s.graphs[g := Stepped(unit, a)]);
    match Transferred(unit, a)
    case Nothing => moved
    case Posts(v) =>
      if unit.external || toGlobal
      then Published(moved, Queued(Task(GraphNode(g, v), priority, deadline, false), unit.external))
      else moved.(local := s.local + {GraphNode(g, v)})
    case Cancels(v) =>
      moved.(pending := A.GivenBack(s.pending, 1, !unit.external), returned := Bump(s.returned, GraphNode(g, v)))
  }

  ghost function Published(s: State, q: Queued): State
    requires s.ready.Valid()
  {
    s.(ready := Step(s.ready, Event.Publish(q)))
  }

  /// The claimed node's run goes on, unless the claimer drops the node.
  ghost function Claimed(s: State, o: Origin, runs: bool): State
    requires GraphsOk(s.graphs)
  {
    if runs && o.GraphNode? && IsRunning(s.graphs, o.run)
    then s.(graphs := s.graphs[o.run := Stepped(s.graphs[o.run], G.Action.Claim(o.node))])
    else s
  }

  ghost function Found(ready: System, i: nat): Option<Queued>
    requires ready.Valid()
  {
    if i < |ready.claimants| then ClaimGlobal(ready.bands, ready.claimants[i]).0 else None
  }

  ghost function Cancelled(bands: seq<Band>, o: Origin): nat {
    if |bands| != 4 then 0
    else L.Count(bands, L.Unstarted(Item(o, true))) + L.Count(bands, L.Unstarted(Item(o, false)))
  }

  predicate IsExternal(q: Queued) {
    q.external
  }

  /// The queued items of an origin, by their mark.
  function Item(o: Origin, external: bool): Queued -> bool {
    (q: Queued) => q.task.origin == o && q.external == external
  }

  predicate OfTheRuntime(q: Queued) {
    q.task.origin.Inside? && !q.external
  }

  function Bit(b: bool): nat {
    if b then 1 else 0
  }

  ghost function CleanedUp(s: State, localResumes: seq<Queued>): State
    requires s.ready.Valid()
  {
    s.(ready := Step(s.ready, Event.Cleanup(localResumes)),
       pending := A.Released(s.pending, L.Count(s.ready.bands, L.Unstarted(IsExternal))),
       local := {},
       returned := (o: Origin) => s.returned(o) + Cancelled(s.ready.bands, o) + Bit(o in s.local))
  }

  ghost predicate NodeOf(x: G.Setting, g: nat, o: Origin) {
    o.GraphNode? && o.run == g && G.Active(x, o.node)
  }

  ghost function Next(s: State, a: Action): State
    requires s.ready.Valid() && GraphsOk(s.graphs)
  {
    match a
    case SetStatus(status) => s.(status := status)
    case AcquireTask(id, block) =>
      var (decision, pending) := A.Attempt(s.status, s.capacity, s.pending, 1, block, false);
      if decision == Some(A.Success) && id !in s.admitted
      then s.(pending := pending, admitted := s.admitted + {id}, building := s.building + {id}) else s
    case RollbackTask(id) =>
      if id in s.building
      then s.(building := s.building - {id}, pending := A.Released(s.pending, 1), returned := Bump(s.returned, Submission(id)))
      else s
    case PublishTask(id, priority, deadline) =>
      if id in s.building
      then Published(s.(building := s.building - {id}), Queued(Task(Submission(id), priority, deadline, false), true))
      else s
    case PublishInside(q) => if OfTheRuntime(q) then Published(s, q) else s
    case AcquireGraph(x, block, isInternal) =>
      var (decision, pending) := A.Attempt(s.status, s.capacity, s.pending, x.g.n, block, isInternal);
      if decision == Some(A.Success) && x.Valid()
      then s.(pending := pending, graphs := s.graphs + [Unit(x, !isInternal, Leased)]) else s
    case RollbackGraph(g) =>
      if g < |s.graphs| && s.graphs[g].phase.Leased? then
        var unit := s.graphs[g];
        s.(graphs := s.graphs[g := unit.(phase := RolledBack)],
           pending := A.GivenBack(s.pending, unit.x.g.n, !unit.external),
           returned := (o: Origin) => s.returned(o) + Bit(NodeOf(unit.x, g, o)))
      else s
    case CommitGraph(g) =>
      if g < |s.graphs| && s.graphs[g].phase.Leased?
      then s.(graphs := s.graphs[g := s.graphs[g].(phase := Running(G.Initial(s.graphs[g].x)))]) else s
    case GraphStep(g, a, priority, deadline, toGlobal) =>
      if IsRunning(s.graphs, g) && !a.Claim? then GraphStepped(s, g, a, priority, deadline, toGlobal) else s
    case Claim(i, runs) =>
      (match Found(s.ready, i)
       case None => s
       case Some(q) =>
         var o := q.task.origin;
         var out := s.(ready := Step(s.ready, Event.Claim(i)));
         Claimed(if q.external then out.(releasing := s.releasing + multiset{o}) else out.(returned := Bump(s.returned, o)), o, runs))
    case ClaimLocal(o, runs) =>
      if o in s.local then Claimed(s.(local := s.local - {o}, returned := Bump(s.returned, o)), o, runs) else s
    case Release(o) =>
      if o in s.releasing
      then s.(releasing := s.releasing - multiset{o}, pending := A.Released(s.pending, 1), returned := Bump(s.returned, o))
      else s
    case Cleanup(localResumes) =>
      if forall k | 0 <= k < |localResumes| :: OfTheRuntime(localResumes[k]) then CleanedUp(s, localResumes) else s
  }

  // ----- the conservation laws -----

  /// The slots of a graph's nodes that are not handed over yet.
  function HeldBy(unit: Unit): nat {
    if !unit.external then 0
    else match unit.phase
      case Leased => unit.x.g.n
      case Running(run) => if unit.x.g.n < |run.nodes| then T.Count(run.nodes, IsWaiting, unit.x.g.n) else 0
      case RolledBack => 0
  }

  function HeldByGraphs(graphs: seq<Unit>): nat {
    if graphs == [] then 0 else HeldByGraphs(graphs[..|graphs| - 1]) + HeldBy(graphs[|graphs| - 1])
  }

  ghost function Externals(ready: System): nat
    requires ready.Valid()
  {
    L.Count(ready.bands, IsExternal)
  }

  /// All slots taken: of queued external items, of submissions under construction, of external
  /// graphs' nodes not handed over yet, and of claims about to release.
  ghost function Held(s: State): nat
    requires s.ready.Valid()
  {
    Externals(s.ready) + |s.building| + HeldByGraphs(s.graphs) + |s.releasing|
  }

  predicate Admitted(s: State, o: Origin) {
    match o
    case Submission(id) => id in s.admitted
    case GraphNode(g, v) => g < |s.graphs| && G.Active(s.graphs[g].x, v)
    case Inside(_) => false
  }

  predicate External(s: State, o: Origin) {
    match o
    case Submission(_) => true
    case GraphNode(g, _) => g < |s.graphs| && s.graphs[g].external
    case Inside(_) => false
  }

  /// The node of a running graph, with its state.
  predicate NodeIs(graphs: seq<Unit>, o: Origin, p: G.Node -> bool) {
    && o.GraphNode? && IsRunning(graphs, o.run)
    && G.Active(graphs[o.run].x, o.node) && o.node < |graphs[o.run].phase.run.nodes|
    && p(graphs[o.run].phase.run.nodes[o.node])
  }

  predicate IsPosted(node: G.Node) {
    node.pc.Posted?
  }

  /// Not yet published or posted.
  predicate Unpublished(s: State, o: Origin) {
    match o
    case Submission(id) => id in s.building
    case GraphNode(g, _) => (Admitted(s, o) && s.graphs[g].phase.Leased?) || NodeIs(s.graphs, o, IsWaiting)
    case Inside(_) => false
  }

  ghost function InBands(ready: System, o: Origin, external: bool): nat
    requires ready.Valid()
  {
    L.Count(ready.bands, Item(o, external))
  }

  /// What was admitted is in exactly one place: unpublished, in the bands with the right mark, in a
  /// local queue, about to be released, or returned.  A queued node is posted in its run.
  ghost predicate OriginOk(s: State, o: Origin)
    requires s.ready.Valid()
  {
    o.Inside? || (
      && Bit(Unpublished(s, o)) + InBands(s.ready, o, External(s, o)) + Bit(o in s.local) + s.releasing[o] + s.returned(o)
         == Bit(Admitted(s, o))
      && InBands(s.ready, o, !External(s, o)) == 0
      && (o in s.local ==> !External(s, o))
      && (o in s.releasing ==> External(s, o))
      && ((o.GraphNode? && InBands(s.ready, o, External(s, o)) > 0) || o in s.local ==> NodeIs(s.graphs, o, IsPosted)))
  }

  ghost predicate Inv(s: State) {
    && s.ready.Valid() && GraphsOk(s.graphs)
    && s.building <= s.admitted
    && s.pending == Held(s) <= s.capacity
    && forall o: Origin :: OriginOk(s, o)
  }

  // ----- the graph runs -----

  lemma {:induction false} HeldPut(graphs: seq<Unit>, g: nat, unit: Unit)
    requires g < |graphs|
    ensures HeldByGraphs(graphs[g := unit]) == HeldByGraphs(graphs) + HeldBy(unit) - HeldBy(graphs[g])
    ensures HeldBy(graphs[g]) <= HeldByGraphs(graphs)
  {
    hide HeldBy;
    var front := graphs[..|graphs| - 1];
    if g == |graphs| - 1 {
      assert graphs[g := unit][..g] == front;
    } else {
      assert graphs[g := unit][..|graphs| - 1] == front[g := unit];
      HeldPut(front, g, unit);
    }
  }

  lemma {:induction false} WaitingLeaves(nodes: seq<G.Node>, nodes': seq<G.Node>, v: int, k: nat)
    requires |nodes'| == |nodes| && k < |nodes|
    requires forall i | 1 <= i <= k :: IsWaiting(nodes'[i]) <==> IsWaiting(nodes[i]) && i != v
    ensures T.Count(nodes', IsWaiting, k) == T.Count(nodes, IsWaiting, k) - Bit(1 <= v <= k && IsWaiting(nodes[v]))
    decreases k
  {
    if k > 0 {
      WaitingLeaves(nodes, nodes', v, k - 1);
    }
  }

  /// The waiting and the posted nodes of the unit after a step, the slots it holds.
  ghost predicate Moved(unit: Unit, unit': Unit, t: Transfer) {
    && UnitOk(unit') && unit'.x == unit.x && unit'.external == unit.external
    && unit.phase.Running? && unit'.phase.Running?
    && |unit.phase.run.nodes| == |unit'.phase.run.nodes| == unit.x.g.n + 1
    && (!t.Nothing? ==> G.Active(unit.x, t.v) && IsWaiting(unit.phase.run.nodes[t.v]))
    && (forall v | G.Active(unit.x, v) ::
          IsWaiting(unit'.phase.run.nodes[v]) <==> IsWaiting(unit.phase.run.nodes[v]) && (t.Nothing? || t.v != v))
    && HeldBy(unit) == HeldBy(unit') + Bit(unit.external && !t.Nothing?)
  }

  lemma SteppedMoves(unit: Unit, a: G.Action)
    requires UnitOk(unit) && unit.phase.Running? && !a.Claim?
    ensures Moved(unit, Stepped(unit, a), Transferred(unit, a))
    ensures var (t, nodes, nodes') := (Transferred(unit, a), unit.phase.run.nodes, Stepped(unit, a).phase.run.nodes);
      forall v | G.Active(unit.x, v) :: IsPosted(nodes'[v]) <==> IsPosted(nodes[v]) || t == Posts(v)
  {
    hide T.Inv, TransferOf, G.Step;
    var run := unit.phase.run;
    T.StepKeeps(unit.x, run, a);
    Sized(unit.x, run);
    TransferMoves(unit.x, run, a);
    var t := Transferred(unit, a);
    WaitingLeaves(run.nodes, G.Step(unit.x, run, a).nodes, if t.Nothing? then 0 else t.v, unit.x.g.n);
  }

  lemma Sized(x: G.Setting, run: G.State)
    requires T.Inv(x, run)
    ensures x.Valid() && |run.nodes| == x.g.n + 1
  {
  }

  lemma ClaimMoves(unit: Unit, u: nat)
    requires UnitOk(unit) && unit.phase.Running?
    ensures Moved(unit, Stepped(unit, G.Action.Claim(u)), Nothing)
    ensures var (nodes, nodes') := (unit.phase.run.nodes, Stepped(unit, G.Action.Claim(u)).phase.run.nodes);
      forall v | G.Active(unit.x, v) && v != u :: IsPosted(nodes'[v]) <==> IsPosted(nodes[v])
  {
    hide T.Inv;
    var (run, a) := (unit.phase.run, G.Action.Claim(u));
    T.StepKeeps(unit.x, run, a);
    Sized(unit.x, run);
    WaitingLeaves(run.nodes, G.Step(unit.x, run, a).nodes, 0, unit.x.g.n);
  }

  lemma InitialHolds(unit: Unit)
    requires unit.x.Valid() && unit.phase.Leased?
    ensures var unit' := unit.(phase := Running(G.Initial(unit.x)));
      && UnitOk(unit') && HeldBy(unit') == HeldBy(unit)
      && forall v | G.Active(unit.x, v) :: IsWaiting(unit'.phase.run.nodes[v])
  {
    hide T.Inv;
    T.InitialKeeps(unit.x);
    T.CountAll(G.Initial(unit.x).nodes, IsWaiting, unit.x.g.n);
  }

  // ----- the ready queues -----

  lemma PublishCounts(ready: System, q: Queued, o: Origin, external: bool)
    requires ready.Valid()
    ensures InBands(Step(ready, Event.Publish(q)), o, external) ==
      InBands(ready, o, external) + Bit(q.task.origin == o && q.external == external)
    ensures Externals(Step(ready, Event.Publish(q))) == Externals(ready) + Bit(q.external)
  {
    hide L.Count, ReadySpec.Step, System.Valid;
    L.PublishConserves(ready, q, Item(o, external));
    L.PublishConserves(ready, q, IsExternal);
  }

  lemma ClaimCounts(ready: System, i: nat, q: Queued, o: Origin, external: bool)
    requires ready.Valid() && Found(ready, i) == Some(q)
    ensures InBands(ready, o, external) ==
      InBands(Step(ready, Event.Claim(i)), o, external) + Bit(q.task.origin == o && q.external == external)
    ensures Externals(ready) == Externals(Step(ready, Event.Claim(i))) + Bit(q.external)
  {
    hide L.Count, ReadySpec.Step, System.Valid, ClaimGlobal;
    L.StepConserves(ready, Event.Claim(i), Item(o, external));
    L.StepConserves(ready, Event.Claim(i), IsExternal);
  }

  lemma {:induction false} NoneCounted(s: seq<Queued>, p: Queued -> bool)
    requires forall k | 0 <= k < |s| :: !p(s[k])
    ensures L.CountSeq(s, p) == 0
  {
    if s != [] {
      NoneCounted(s[..|s| - 1], p);
    }
  }

  lemma CleanupCounts(ready: System, localResumes: seq<Queued>, o: Origin, external: bool)
    requires ready.Valid() && forall k | 0 <= k < |localResumes| :: OfTheRuntime(localResumes[k])
    requires !o.Inside?
    ensures InBands(ready, o, external) ==
      InBands(Step(ready, Event.Cleanup(localResumes)), o, external) + L.Count(ready.bands, L.Unstarted(Item(o, external)))
    ensures Externals(ready) ==
      Externals(Step(ready, Event.Cleanup(localResumes))) + L.Count(ready.bands, L.Unstarted(IsExternal))
  {
    hide L.Count, L.CountSeq, ReadySpec.Step, System.Valid;
    L.StepConserves(ready, Event.Cleanup(localResumes), Item(o, external));
    L.StepConserves(ready, Event.Cleanup(localResumes), IsExternal);
    NoneCounted(localResumes, Item(o, external));
    NoneCounted(localResumes, IsExternal);
  }

  // ----- every step keeps the laws -----

  lemma AcquireTaskKeeps(s: State, id: nat, block: bool)
    requires Inv(s)
    ensures Inv(Next(s, AcquireTask(id, block)))
  {
    hide GraphsOk, HeldByGraphs, InBands, Externals, System.Valid;
    assert OriginOk(s, Submission(id));
    forall o: Origin
      ensures OriginOk(Next(s, AcquireTask(id, block)), o)
    {
      assert OriginOk(s, o);
    }
  }

  lemma RollbackTaskKeeps(s: State, id: nat)
    requires Inv(s)
    ensures Inv(Next(s, RollbackTask(id)))
  {
    hide GraphsOk, HeldByGraphs, InBands, Externals, System.Valid;
    assert OriginOk(s, Submission(id));
    forall o: Origin
      ensures OriginOk(Next(s, RollbackTask(id)), o)
    {
      assert OriginOk(s, o);
    }
  }

  lemma PublishTaskKeeps(s: State, id: nat, priority: Priority, deadline: Option<int>)
    requires Inv(s)
    ensures Inv(Next(s, PublishTask(id, priority, deadline)))
  {
    hide GraphsOk, HeldByGraphs, InBands, Externals, System.Valid, Step;
    var q := Queued(Task(Submission(id), priority, deadline, false), true);
    PublishCounts(s.ready, q, Submission(id), true);
    forall o: Origin
      ensures id in s.building ==> OriginOk(Next(s, PublishTask(id, priority, deadline)), o)
    {
      assert OriginOk(s, o);
      PublishCounts(s.ready, q, o, true);
      PublishCounts(s.ready, q, o, false);
    }
  }

  lemma PublishInsideKeeps(s: State, q: Queued)
    requires Inv(s)
    ensures Inv(Next(s, PublishInside(q)))
  {
    hide GraphsOk, HeldByGraphs, InBands, Externals, System.Valid, Step;
    PublishCounts(s.ready, q, q.task.origin, false);
    forall o: Origin
      ensures OriginOk(Next(s, PublishInside(q)), o)
    {
      assert OriginOk(s, o);
      PublishCounts(s.ready, q, o, true);
      PublishCounts(s.ready, q, o, false);
    }
  }

  lemma ReleaseKeeps(s: State, r: Origin)
    requires Inv(s)
    ensures Inv(Next(s, Release(r)))
  {
    hide GraphsOk, HeldByGraphs, InBands, Externals, System.Valid, Step;
    forall o: Origin
      ensures OriginOk(Next(s, Release(r)), o)
    {
      assert OriginOk(s, o);
    }
  }

  lemma CleanupKeeps(s: State, localResumes: seq<Queued>)
    requires Inv(s) && forall k | 0 <= k < |localResumes| :: OfTheRuntime(localResumes[k])
    ensures Inv(CleanedUp(s, localResumes))
  {
    hide GraphsOk, HeldByGraphs, InBands, Externals, Step;
    var s' := CleanedUp(s, localResumes);
    CleanupCounts(s.ready, localResumes, Submission(0), true);
    forall o: Origin
      ensures OriginOk(s', o)
    {
      assert OriginOk(s, o);
      if !o.Inside? {
        CleanupCounts(s.ready, localResumes, o, true);
        CleanupCounts(s.ready, localResumes, o, false);
      }
    }
  }

  lemma AcquireGraphKeeps(s: State, x: G.Setting, block: bool, isInternal: bool)
    requires Inv(s)
    ensures Inv(Next(s, AcquireGraph(x, block, isInternal)))
  {
    hide InBands, Externals, System.Valid, UnitOk;
    var s' := Next(s, AcquireGraph(x, block, isInternal));
    if s' != s {
      var unit := Unit(x, !isInternal, Leased);
      assert UnitOk(unit) by { LeasedOk(unit); }
      assert s'.graphs[..|s.graphs|] == s.graphs;
      hide HeldByGraphs, UnitOk;
      forall o: Origin
        ensures OriginOk(s', o)
      {
        assert OriginOk(s, o);
      }
    }
  }

  lemma LeasedOk(unit: Unit)
    requires unit.x.Valid() && !unit.phase.Running?
    ensures UnitOk(unit)
  {
  }

  lemma RollbackGraphKeeps(s: State, g: nat)
    requires Inv(s)
    ensures Inv(Next(s, RollbackGraph(g)))
  {
    hide InBands, Externals, System.Valid, HeldByGraphs;
    var s' := Next(s, RollbackGraph(g));
    if s' != s {
      HeldPut(s.graphs, g, s'.graphs[g]);
      LeasedOk(s'.graphs[g]);
      hide UnitOk;
      forall o: Origin
        ensures OriginOk(s', o)
      {
        assert OriginOk(s, o);
      }
    }
  }

  lemma CommitGraphKeeps(s: State, g: nat)
    requires Inv(s)
    ensures Inv(Next(s, CommitGraph(g)))
  {
    hide InBands, Externals, System.Valid, HeldByGraphs, HeldBy, G.Initial, T.Inv;
    var s' := Next(s, CommitGraph(g));
    if s' != s {
      HeldPut(s.graphs, g, s'.graphs[g]);
      InitialHolds(s.graphs[g]);
      Sized(s.graphs[g].x, s'.graphs[g].phase.run);
      hide UnitOk;
      forall o: Origin
        ensures OriginOk(s', o)
      {
        assert OriginOk(s, o);
      }
    }
  }

  /// A node of unit g is waiting, and posted, before and after the unit's step.
  lemma NodeMoves(s: State, g: nat, unit': Unit, t: Transfer, o: Origin)
    requires GraphsOk(s.graphs) && IsRunning(s.graphs, g) && Moved(s.graphs[g], unit', t)
    ensures var s' := s.(graphs := s.graphs[g := unit']);
      && External(s', o) == External(s, o) && Admitted(s', o) == Admitted(s, o)
      && Unpublished(s', o) == (Unpublished(s, o) && (t.Nothing? || o != GraphNode(g, t.v)))
      && (!t.Nothing? ==> Unpublished(s, GraphNode(g, t.v)))
  {
    hide UnitOk, HeldBy;
  }

  /// The parts of the origin's law after the run's step, before the node is handed over.
  lemma GraphStepParts(s: State, g: nat, a: G.Action, o: Origin)
    requires Inv(s) && IsRunning(s.graphs, g) && !a.Claim?
    ensures var (t, moved) := (Transferred(s.graphs[g], a), s.(graphs := s.graphs[g := Stepped(s.graphs[g], a)]));
      && OriginOk(s, o) && External(moved, o) == External(s, o) && Admitted(moved, o) == Admitted(s, o)
      && Bit(Unpublished(moved, o)) == Bit(Unpublished(s, o)) - Bit(!t.Nothing? && o == GraphNode(g, t.v))
      && (NodeIs(moved.graphs, o, IsPosted) <==> NodeIs(s.graphs, o, IsPosted) || (t.Posts? && o == GraphNode(g, t.v)))
      && (!t.Nothing? ==> External(s, GraphNode(g, t.v)) == s.graphs[g].external)
  {
    hide InBands, Externals, System.Valid, HeldByGraphs, HeldBy, UnitOk, Step, Stepped, Transferred, Unpublished, Admitted, NodeIs, OriginOk;
    var unit := s.graphs[g];
    SteppedMoves(unit, a);
    NodeMoves(s, g, Stepped(unit, a), Transferred(unit, a), o);
    PostedStays(s, g, Stepped(unit, a), Transferred(unit, a), o);
  }

  lemma GraphPostsGlobally(s: State, g: nat, a: G.Action, priority: Priority, deadline: Option<int>, toGlobal: bool, o: Origin)
    requires Inv(s) && IsRunning(s.graphs, g) && !a.Claim? && Transferred(s.graphs[g], a).Posts?
    requires s.graphs[g].external || toGlobal
    ensures OriginOk(GraphStepped(s, g, a, priority, deadline, toGlobal), o)
  {
    hide InBands, System.Valid, UnitOk, Step, Stepped, Transferred, Unpublished, Admitted, NodeIs, External;
    var (unit, t) := (s.graphs[g], Transferred(s.graphs[g], a));
    GraphStepParts(s, g, a, o);
    SameGraphs(s.(graphs := s.graphs[g := Stepped(unit, a)]), GraphStepped(s, g, a, priority, deadline, toGlobal), o);
    var q := Queued(Task(GraphNode(g, t.v), priority, deadline, false), unit.external);
    PublishCounts(s.ready, q, o, true);
    PublishCounts(s.ready, q, o, false);
  }

  lemma GraphPostsLocally(s: State, g: nat, a: G.Action, priority: Priority, deadline: Option<int>, o: Origin)
    requires Inv(s) && IsRunning(s.graphs, g) && !a.Claim? && Transferred(s.graphs[g], a).Posts? && !s.graphs[g].external
    ensures OriginOk(GraphStepped(s, g, a, priority, deadline, false), o)
  {
    hide InBands, System.Valid, UnitOk, Step, Stepped, Transferred, Unpublished, Admitted, NodeIs, External;
    GraphStepParts(s, g, a, o);
    SameGraphs(s.(graphs := s.graphs[g := Stepped(s.graphs[g], a)]), GraphStepped(s, g, a, priority, deadline, false), o);
  }

  lemma GraphOtherOrigin(s: State, g: nat, a: G.Action, priority: Priority, deadline: Option<int>, toGlobal: bool, o: Origin)
    requires Inv(s) && IsRunning(s.graphs, g) && !a.Claim? && !Transferred(s.graphs[g], a).Posts?
    ensures OriginOk(GraphStepped(s, g, a, priority, deadline, toGlobal), o)
  {
    hide InBands, System.Valid, UnitOk, Step, Stepped, Transferred, Unpublished, Admitted, NodeIs, External;
    GraphStepParts(s, g, a, o);
    SameGraphs(s.(graphs := s.graphs[g := Stepped(s.graphs[g], a)]), GraphStepped(s, g, a, priority, deadline, toGlobal), o);
  }

  lemma GraphStepKeeps(s: State, g: nat, a: G.Action, priority: Priority, deadline: Option<int>, toGlobal: bool)
    requires Inv(s) && IsRunning(s.graphs, g) && !a.Claim?
    ensures Inv(GraphStepped(s, g, a, priority, deadline, toGlobal))
  {
    hide InBands, Externals, System.Valid, HeldByGraphs, HeldBy, UnitOk, Step, Stepped, Transferred, OriginOk;
    var (unit, s') := (s.graphs[g], GraphStepped(s, g, a, priority, deadline, toGlobal));
    var (unit', t) := (Stepped(unit, a), Transferred(unit, a));
    SteppedMoves(unit, a);
    HeldPut(s.graphs, g, unit');
    forall o: Origin
      ensures OriginOk(s', o)
    {
      if t.Posts? && (unit.external || toGlobal) { GraphPostsGlobally(s, g, a, priority, deadline, toGlobal, o); }
      else if t.Posts? { GraphPostsLocally(s, g, a, priority, deadline, o); }
      else { GraphOtherOrigin(s, g, a, priority, deadline, toGlobal, o); }
    }
    if t.Posts? {
      PublishCounts(s.ready, Queued(Task(GraphNode(g, t.v), priority, deadline, false), unit.external), GraphNode(g, t.v), true);
    }
  }

  lemma PostedStays(s: State, g: nat, unit': Unit, t: Transfer, o: Origin)
    requires IsRunning(s.graphs, g) && Moved(s.graphs[g], unit', t)
    requires var (nodes, nodes') := (s.graphs[g].phase.run.nodes, unit'.phase.run.nodes);
      forall v | G.Active(unit'.x, v) :: IsPosted(nodes'[v]) <==> IsPosted(nodes[v]) || t == Posts(v)
    ensures NodeIs(s.graphs[g := unit'], o, IsPosted) <==>
      NodeIs(s.graphs, o, IsPosted) || (t.Posts? && o == GraphNode(g, t.v))
  {
    hide UnitOk, HeldBy;
  }

  /// The claimed node leaves the posted ones; nothing else changes in any run.
  lemma ClaimedMoves(s: State, o: Origin, runs: bool, other: Origin)
    requires GraphsOk(s.graphs)
    ensures var s' := Claimed(s, o, runs);
      && s' == s.(graphs := s'.graphs) && GraphsOk(s'.graphs) && HeldByGraphs(s'.graphs) == HeldByGraphs(s.graphs)
      && External(s', other) == External(s, other) && Admitted(s', other) == Admitted(s, other)
      && Unpublished(s', other) == Unpublished(s, other)
      && (other != o ==> NodeIs(s'.graphs, other, IsPosted) == NodeIs(s.graphs, other, IsPosted))
  {
    hide HeldByGraphs, HeldBy, UnitOk, Stepped;
    if runs && o.GraphNode? && IsRunning(s.graphs, o.run) {
      var unit := s.graphs[o.run];
      ClaimMoves(unit, o.node);
      HeldPut(s.graphs, o.run, Stepped(unit, G.Action.Claim(o.node)));
    }
  }

  lemma ClaimKeeps(s: State, i: nat, runs: bool)
    requires Inv(s)
    ensures Inv(Next(s, Action.Claim(i, runs)))
  {
    hide InBands, Externals, System.Valid, Found, GraphsOk, HeldByGraphs, Claimed, Step, Unpublished, Admitted, External, NodeIs;
    if Found(s.ready, i).Some? {
      var q := Found(s.ready, i).value;
      var (o, ready) := (q.task.origin, Step(s.ready, Event.Claim(i)));
      var out := if q.external then s.(ready := ready, releasing := s.releasing + multiset{o})
                 else s.(ready := ready, returned := Bump(s.returned, o));
      var s' := Claimed(out, o, runs);
      ClaimedMoves(out, o, runs, o);
      ClaimCounts(s.ready, i, q, o, q.external);
      forall other: Origin
        ensures OriginOk(s', other)
      {
        assert OriginOk(s, other);
        SameGraphs(s, out, other);
        ClaimedMoves(out, o, runs, other);
        ClaimCounts(s.ready, i, q, other, true);
        ClaimCounts(s.ready, i, q, other, false);
      }
    }
  }

  lemma SameGraphs(s: State, s': State, o: Origin)
    requires s'.graphs == s.graphs && s'.building == s.building && s'.admitted == s.admitted
    ensures External(s', o) == External(s, o) && Unpublished(s', o) == Unpublished(s, o) && Admitted(s', o) == Admitted(s, o)
  {
  }

  lemma ClaimLocalKeeps(s: State, o: Origin, runs: bool)
    requires Inv(s)
    ensures Inv(Next(s, ClaimLocal(o, runs)))
  {
    hide InBands, Externals, System.Valid, GraphsOk, HeldByGraphs, Claimed, Step, Unpublished, Admitted, External, NodeIs;
    if o in s.local {
      var out := s.(local := s.local - {o}, returned := Bump(s.returned, o));
      ClaimedMoves(out, o, runs, o);
      forall other: Origin
        ensures OriginOk(Claimed(out, o, runs), other)
      {
        assert OriginOk(s, other);
        SameGraphs(s, out, other);
        ClaimedMoves(out, o, runs, other);
      }
    }
  }

  /// What every step of anybody keeps: the slots taken are exactly those of queued external items, of
  /// work not yet published or handed over, and of claims about to release, within the capacity;
  /// and each admitted item is in exactly one of these places or has been returned, once.
  lemma NextKeeps(s: State, a: Action)
    requires Inv(s)
    ensures Inv(Next(s, a))
  {
    hide InBands, Externals, System.Valid, GraphsOk, HeldByGraphs, OriginOk, A.Attempt;
    match a
    case SetStatus(status) =>
      forall o: Origin
        ensures OriginOk(Next(s, a), o)
      {
        SameOrigin(s, Next(s, a), o);
      }
    case AcquireTask(id, block) => AcquireTaskKeeps(s, id, block);
    case RollbackTask(id) => RollbackTaskKeeps(s, id);
    case PublishTask(id, priority, deadline) => PublishTaskKeeps(s, id, priority, deadline);
    case PublishInside(q) => PublishInsideKeeps(s, q);
    case AcquireGraph(x, block, isInternal) => AcquireGraphKeeps(s, x, block, isInternal);
    case RollbackGraph(g) => RollbackGraphKeeps(s, g);
    case CommitGraph(g) => CommitGraphKeeps(s, g);
    case GraphStep(g, a, priority, deadline, toGlobal) =>
      if IsRunning(s.graphs, g) && !a.Claim? { GraphStepKeeps(s, g, a, priority, deadline, toGlobal); }
    case Claim(i, runs) => ClaimKeeps(s, i, runs);
    case ClaimLocal(o, runs) => ClaimLocalKeeps(s, o, runs);
    case Release(o) => ReleaseKeeps(s, o);
    case Cleanup(localResumes) =>
      if forall k | 0 <= k < |localResumes| :: OfTheRuntime(localResumes[k]) { CleanupKeeps(s, localResumes); }
  }

  lemma SameOrigin(s: State, s': State, o: Origin)
    requires Inv(s) && s' == s.(status := s'.status)
    ensures OriginOk(s', o)
  {
    assert OriginOk(s, o);
  }

  function Initial(capacity: nat, status: A.Status, claimants: seq<Claimant>): State {
    State(capacity, 0, status, System([Band({}, []), Band({}, []), Band({}, []), Band({}, [])], 0, claimants),
          {}, {}, {}, [], multiset{}, (o: Origin) => 0)
  }

  lemma InitialKeeps(capacity: nat, status: A.Status, claimants: seq<Claimant>)
    requires forall i | 0 <= i < |claimants| :: claimants[i].Valid()
    ensures Inv(Initial(capacity, status, claimants))
  {
    var s := Initial(capacity, status, claimants);
    forall p: Queued -> bool
      ensures L.Count(s.ready.bands, p) == 0
    {
      assert L.Holding({}, p) == {};
    }
  }

  /// Any interleaving of submitters, graph threads, claimants, releases and clean-up.
  ghost function Run(s: State, actions: seq<Action>): (r: State)
    requires Inv(s)
    ensures Inv(r)
    decreases |actions|
  {
    if actions == [] then s else NextKeeps(s, actions[0]); Run(Next(s, actions[0]), actions[1..])
  }

  // ----- what it means -----

  /// How many slots the step gives back.
  ghost function SlotsBack(s: State, a: Action): nat
    requires s.ready.Valid() && GraphsOk(s.graphs)
  {
    match a
    case RollbackTask(id) => Bit(id in s.building)
    case RollbackGraph(g) =>
      if g < |s.graphs| && s.graphs[g].phase.Leased? && s.graphs[g].external then s.graphs[g].x.g.n else 0
    case GraphStep(g, a, _, _, _) =>
      Bit(IsRunning(s.graphs, g) && !a.Claim? && s.graphs[g].external && Transferred(s.graphs[g], a).Cancels?)
    case Release(o) => Bit(o in s.releasing)
    case Cleanup(localResumes) =>
      if forall k | 0 <= k < |localResumes| :: OfTheRuntime(localResumes[k])
      then L.Count(s.ready.bands, L.Unstarted(IsExternal)) else 0
    case _ => 0
  }

  /// release always finds the slots it gives back: its saturating branch is never taken.
  lemma ReleaseNeverSaturates(s: State, a: Action)
    requires Inv(s)
    ensures SlotsBack(s, a) <= s.pending
    ensures !a.AcquireTask? && !a.AcquireGraph? ==> Next(s, a).pending == s.pending - SlotsBack(s, a)
  {
    hide System.Valid, HeldByGraphs, OriginOk, UnitOk, Step, A.Attempt, L.Count, Stepped, Transferred, Claimed;
    match a
    case RollbackGraph(g) => if g < |s.graphs| { HeldPut(s.graphs, g, s.graphs[g]); }
    case GraphStep(g, a, _, _, _) =>
      if IsRunning(s.graphs, g) && !a.Claim? {
        SteppedMoves(s.graphs[g], a);
        HeldPut(s.graphs, g, s.graphs[g]);
      }
    case Cleanup(localResumes) =>
      if forall k | 0 <= k < |localResumes| :: OfTheRuntime(localResumes[k]) {
        CleanupCounts(s.ready, localResumes, Submission(0), true);
      }
    case Claim(i, runs) =>
      if Found(s.ready, i).Some? { ClaimedPending(s, i, runs); }
    case ClaimLocal(o, runs) =>
      ClaimedMoves(s.(local := s.local - {o}, returned := Bump(s.returned, o)), o, runs, o);
    case _ =>
  }

  lemma ClaimedPending(s: State, i: nat, runs: bool)
    requires s.ready.Valid() && GraphsOk(s.graphs)
    ensures Next(s, Action.Claim(i, runs)).pending == s.pending
  {
    hide System.Valid, Step, Stepped, UnitOk, Found;
  }

  /// External work takes all its slots or none; internal work takes none.
  lemma AllOrNothing(s: State, x: G.Setting, block: bool, isInternal: bool)
    requires Inv(s)
    ensures var s' := Next(s, AcquireGraph(x, block, isInternal));
      || s' == s
      || (s' == s.(pending := s'.pending, graphs := s.graphs + [Unit(x, !isInternal, Leased)])
          && s'.pending == (if isInternal then s.pending else s.pending + x.g.n) && s'.pending <= s.capacity)
  {
    hide System.Valid, HeldByGraphs, OriginOk, UnitOk;
  }

  /// Work is admitted whenever the status admits it and the slots held leave it enough: the graph is
  /// there with its lease, the submission under construction.
  lemma AdmittedWhenRoom(s: State, x: G.Setting, id: nat, block: bool, isInternal: bool)
    requires Inv(s)
    ensures x.Valid() && A.Admits(s.status, isInternal) && (isInternal || Held(s) + x.g.n <= s.capacity) ==>
      Next(s, AcquireGraph(x, block, isInternal)).graphs == s.graphs + [Unit(x, !isInternal, Leased)]
    ensures A.Admits(s.status, false) && Held(s) + 1 <= s.capacity && id !in s.admitted ==>
      var s' := Next(s, AcquireTask(id, block)); id in s'.admitted && id in s'.building && s'.pending == s.pending + 1
    ensures !A.Admits(s.status, isInternal) ==> Next(s, AcquireGraph(x, block, isInternal)) == s
    ensures !A.Admits(s.status, false) ==> Next(s, AcquireTask(id, block)) == s
  {
    hide System.Valid, OriginOk, UnitOk, Held, A.Attempt;
    A.AttemptDecides(s.status, s.capacity, s.pending, x.g.n, block, isInternal);
    A.AttemptDecides(s.status, s.capacity, s.pending, 1, block, false);
  }

  /// A caller waits exactly while the scheduler is not stopping and queued items, unpublished work
  /// and claims about to release leave it too few slots.
  lemma WaitsOnlyWhenFull(s: State, count: nat, block: bool, isInternal: bool)
    requires Inv(s)
    ensures A.Attempt(s.status, s.capacity, s.pending, count, block, isInternal).0.None? <==>
      && !s.status.state.Stopped? && !s.status.state.Stopping?
      && !isInternal && block && 0 < count <= s.capacity && Held(s) + count > s.capacity
  {
    hide System.Valid, OriginOk, UnitOk, Held;
    A.WaitsOnlyWhenFull(s.status, s.capacity, s.pending, count, block, isInternal);
  }

  /// A claimed item carries the right mark, and a claimed node is posted in its run: the claim is a
  /// step of the run.
  lemma ClaimFindsPosted(s: State, i: nat, q: Queued)
    requires Inv(s) && Found(s.ready, i) == Some(q) && !q.task.origin.Inside?
    ensures q.external == External(s, q.task.origin)
    ensures q.task.origin.GraphNode? ==> NodeIs(s.graphs, q.task.origin, IsPosted)
  {
    hide System.Valid, UnitOk, InBands, Found, Step, Externals;
    var o := q.task.origin;
    ClaimCounts(s.ready, i, q, o, q.external);
    assert OriginOk(s, o);
  }

  /// A published submission is in the bands with its mark, a rolled back one has its slot back.
  lemma SubmissionMovesOn(s: State, id: nat, priority: Priority, deadline: Option<int>)
    requires Inv(s) && id in s.building
    ensures InBands(Next(s, PublishTask(id, priority, deadline)).ready, Submission(id), true) == 1
    ensures Next(s, RollbackTask(id)).returned(Submission(id)) == 1
  {
    hide System.Valid, UnitOk, InBands, Step, Externals, HeldByGraphs;
    assert OriginOk(s, Submission(id));
    PublishCounts(s.ready, Queued(Task(Submission(id), priority, deadline, false), true), Submission(id), true);
  }

  /// A claimed external item waits for its release; the release gives its slot back.
  lemma ClaimMovesOn(s: State, i: nat, runs: bool, o: Origin)
    requires Inv(s) && !o.Inside?
    ensures Found(s.ready, i).Some? && Found(s.ready, i).value.task.origin == o && External(s, o) ==>
      o in Next(s, Action.Claim(i, runs)).releasing
  {
    hide System.Valid, UnitOk, InBands, Found, Step, Externals, HeldByGraphs, Stepped, NodeIs, OriginOk;
    if Found(s.ready, i).Some? && Found(s.ready, i).value.task.origin == o {
      ClaimFindsPosted(s, i, Found(s.ready, i).value);
    }
  }

  lemma ReleaseMovesOn(s: State, o: Origin)
    requires Inv(s) && !o.Inside? && o in s.releasing
    ensures o !in Next(s, Release(o)).releasing && Next(s, Release(o)).returned(o) == 1
  {
    hide System.Valid, UnitOk, InBands, Externals, HeldByGraphs, NodeIs, Unpublished;
    assert OriginOk(s, o);
  }

  /// A claimed node that the claimer runs goes on in its run.
  lemma ClaimedNodeRuns(s: State, i: nat, o: Origin)
    requires Inv(s) && Found(s.ready, i).Some? && Found(s.ready, i).value.task.origin == o && o.GraphNode?
    ensures NodeIs(Next(s, Action.Claim(i, true)).graphs, o, IsClaimed)
  {
    hide System.Valid, OriginOk, InBands, Found, Step, Externals, HeldByGraphs, T.Inv;
    ClaimFindsPosted(s, i, Found(s.ready, i).value);
    assert UnitOk(s.graphs[o.run]);
    Sized(s.graphs[o.run].x, s.graphs[o.run].phase.run);
  }

  /// A node claimed from a local queue leaves it, and goes on in its run if the claimer runs it.
  lemma LocalClaimMovesOn(s: State, o: Origin)
    requires Inv(s) && o in s.local && !o.Inside?
    ensures var s' := Next(s, ClaimLocal(o, true));
      o !in s'.local && s'.returned(o) == 1 && NodeIs(s'.graphs, o, IsClaimed)
  {
    hide System.Valid, InBands, Found, Step, Externals, HeldByGraphs, Unpublished, T.Inv;
    assert OriginOk(s, o);
    assert UnitOk(s.graphs[o.run]);
    Sized(s.graphs[o.run].x, s.graphs[o.run].phase.run);
  }

  predicate IsClaimed(node: G.Node) {
    node.pc.Claimed?
  }

  /// A lease ends one way or the other: committed, the run starts with every node still holding its
  /// slot; rolled back, every node's slot is returned.
  lemma LeaseMovesOn(s: State, g: nat, v: nat)
    requires Inv(s) && g < |s.graphs| && s.graphs[g].phase.Leased? && G.Active(s.graphs[g].x, v)
    ensures NodeIs(Next(s, CommitGraph(g)).graphs, GraphNode(g, v), IsWaiting)
    ensures Next(s, CommitGraph(g)).pending == s.pending
    ensures Next(s, RollbackGraph(g)).returned(GraphNode(g, v)) == 1
    ensures Next(s, RollbackGraph(g)).pending == s.pending - if s.graphs[g].external then s.graphs[g].x.g.n else 0
  {
    hide System.Valid, InBands, Externals, HeldByGraphs, HeldBy, G.Initial, T.Inv;
    assert OriginOk(s, GraphNode(g, v));
    assert UnitOk(s.graphs[g]);
    InitialHolds(s.graphs[g]);
    Sized(s.graphs[g].x, Next(s, CommitGraph(g)).graphs[g].phase.run);
    ReleaseNeverSaturates(s, RollbackGraph(g));
  }

  /// Immediate clean-up leaves nothing queued but resume segments.
  lemma CleanupCancelsAll(s: State, localResumes: seq<Queued>)
    requires Inv(s) && forall k | 0 <= k < |localResumes| :: OfTheRuntime(localResumes[k]) && localResumes[k].task.resume
    ensures var s' := Next(s, Action.Cleanup(localResumes));
      s'.local == {} && L.Count(s'.ready.bands, (q: Queued) => !q.task.resume) == 0
  {
    hide OriginOk, GraphsOk, HeldByGraphs, L.Count, Step;
    var p := (q: Queued) => !q.task.resume;
    L.StepConserves(s.ready, Event.Cleanup(localResumes), p);
    NoneCounted(localResumes, p);
    assert L.Count(s.ready.bands, L.Unstarted(p)) == L.Count(s.ready.bands, p) by { SameCount(s.ready.bands, L.Unstarted(p), p); }
  }

  lemma SameCount(bands: seq<Band>, p: Queued -> bool, q: Queued -> bool)
    requires |bands| == 4 && forall x :: p(x) == q(x)
    ensures L.Count(bands, p) == L.Count(bands, q)
  {
    forall b | 0 <= b < 4
      ensures L.CountBand(bands[b], p) == L.CountBand(bands[b], q)
    {
      assert L.Holding(bands[b].edf, p) == L.Holding(bands[b].edf, q);
      SameCountSeq(bands[b].fifo, p, q);
    }
  }

  lemma {:induction false} SameCountSeq(s: seq<Queued>, p: Queued -> bool, q: Queued -> bool)
    requires forall x :: p(x) == q(x)
    ensures L.CountSeq(s, p) == L.CountSeq(s, q)
  {
    if s != [] {
      SameCountSeq(s[..|s| - 1], p, q);
    }
  }

  /// The run takes its step, whatever the step hands over.
  lemma GraphRunsOn(s: State, g: nat, a: G.Action, priority: Priority, deadline: Option<int>, toGlobal: bool)
    requires Inv(s) && IsRunning(s.graphs, g) && !a.Claim?
    ensures Next(s, GraphStep(g, a, priority, deadline, toGlobal)).graphs == s.graphs[g := Stepped(s.graphs[g], a)]
  {
    hide System.Valid, OriginOk, UnitOk, Step, Stepped, Transferred, HeldByGraphs;
  }

  /// A node that the run posts is queued, in the bands or in a local queue; one that it cancels has
  /// its slot back at once.
  lemma NodesMoveOn(s: State, g: nat, a: G.Action, priority: Priority, deadline: Option<int>, toGlobal: bool)
    requires Inv(s) && IsRunning(s.graphs, g) && !a.Claim?
    ensures var (s', t) := (Next(s, GraphStep(g, a, priority, deadline, toGlobal)), Transferred(s.graphs[g], a));
      && (t.Posts? && (s.graphs[g].external || toGlobal) ==> InBands(s'.ready, GraphNode(g, t.v), s.graphs[g].external) == 1)
      && (t.Posts? && !(s.graphs[g].external || toGlobal) ==> GraphNode(g, t.v) in s'.local)
      && (t.Cancels? ==> s'.returned(GraphNode(g, t.v)) == 1)
  {
    hide System.Valid, UnitOk, InBands, Step, Externals, HeldBy, HeldByGraphs, Stepped, Transferred, Unpublished, NodeIs;
    var t := Transferred(s.graphs[g], a);
    if !t.Nothing? {
      var o := GraphNode(g, t.v);
      SteppedMoves(s.graphs[g], a);
      NodeMoves(s, g, Stepped(s.graphs[g], a), t, o);
      assert OriginOk(s, o);
      if t.Posts? { PublishCounts(s.ready, Queued(Task(o, priority, deadline, false), s.graphs[g].external), o, s.graphs[g].external); }
    }
  }

  /// Nothing of the graph is waiting, queued or about to be released.
  ghost predicate GraphIsThrough(s: State, g: nat)
    requires Inv(s)
  {
    && g < |s.graphs|
    && (s.graphs[g].phase.RolledBack? ||
        (s.graphs[g].phase.Running? &&
         forall v | G.Active(s.graphs[g].x, v) && v < |s.graphs[g].phase.run.nodes| :: s.graphs[g].phase.run.nodes[v].pc.Done?))
    && forall v: nat :: GraphNode(g, v) !in s.releasing
  }

  /// A graph that was rolled back, or all of whose nodes are done, whether claimed or cancelled, has
  /// given every node's slot back exactly once, and nothing of it is queued.
  lemma EveryNodeIsReturnedOnce(s: State, g: nat, v: nat)
    requires Inv(s) && GraphIsThrough(s, g) && G.Active(s.graphs[g].x, v)
    ensures s.returned(GraphNode(g, v)) == 1
    ensures InBands(s.ready, GraphNode(g, v), true) == InBands(s.ready, GraphNode(g, v), false) == 0
    ensures GraphNode(g, v) !in s.local
  {
    hide System.Valid, UnitOk, InBands, HeldByGraphs, Externals;
    assert OriginOk(s, GraphNode(g, v));
  }

  /// No slot is ever given back twice, and none is given back while its item is queued or unpublished.
  lemma NeverReturnedTwice(s: State, o: Origin)
    requires Inv(s) && !o.Inside?
    ensures s.returned(o) <= 1
    ensures s.returned(o) == 1 ==>
      && Admitted(s, o) && !Unpublished(s, o) && o !in s.releasing && o !in s.local
      && InBands(s.ready, o, true) == InBands(s.ready, o, false) == 0
  {
    hide System.Valid, UnitOk, InBands, HeldByGraphs, Externals;
    assert OriginOk(s, o);
  }

  /// Everything submitted is published and claimed, every graph through.
  ghost predicate Quiet(s: State)
    requires Inv(s)
  {
    && s.building == {} && s.releasing == multiset{} && AllEmpty(s.ready.bands)
    && forall g | 0 <= g < |s.graphs| :: GraphIsThrough(s, g)
  }

  /// When everything is through no slot is taken, and each admitted submission and each node of
  /// each admitted external graph has given its slot back exactly once.
  lemma EverySlotComesBack(s: State, o: Origin)
    requires Inv(s) && Quiet(s)
    ensures s.pending == 0
    ensures Admitted(s, o) && External(s, o) ==> s.returned(o) == 1
  {
    hide System.Valid, UnitOk, HeldBy, GraphIsThrough;
    NothingQueued(s.ready, o);
    assert OriginOk(s, o);
    NothingHeld(s, |s.graphs|);
    assert s.graphs[..|s.graphs|] == s.graphs;
    if o.GraphNode? && Admitted(s, o) { EveryNodeIsReturnedOnce(s, o.run, o.node); }
  }

  lemma NothingQueued(ready: System, o: Origin)
    requires ready.Valid() && AllEmpty(ready.bands)
    ensures Externals(ready) == 0 && InBands(ready, o, true) == InBands(ready, o, false) == 0
  {
    forall b, p: Queued -> bool | 0 <= b < 4
      ensures L.CountBand(ready.bands[b], p) == 0
    {
      assert ready.bands[b].Empty();
      assert L.Holding({}, p) == {};
    }
  }

  lemma {:induction false} NothingHeld(s: State, k: nat)
    requires Inv(s) && k <= |s.graphs| && forall g | 0 <= g < |s.graphs| :: GraphIsThrough(s, g)
    ensures HeldByGraphs(s.graphs[..k]) == 0
    decreases k
  {
    hide System.Valid, OriginOk;
    if k > 0 {
      NothingHeld(s, k - 1);
      assert s.graphs[..k][..k - 1] == s.graphs[..k - 1];
      var unit := s.graphs[k - 1];
      assert GraphIsThrough(s, k - 1) && UnitOk(unit);
      if unit.phase.Running? {
        Sized(unit.x, unit.phase.run);
        T.CountAll(unit.phase.run.nodes, IsWaiting, unit.x.g.n);
      }
    }
  }
}
