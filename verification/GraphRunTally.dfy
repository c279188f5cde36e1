/// The run's counters, the last node's publication and the completion callbacks;
/// the whole invariant and its preservation.
module GraphRunTally {
  import opened TaskGraphs
  import opened Wrappers
  import opened GraphRunProtocol
  import opened GraphRunOutcomes

  // ----- counting nodes -----

  function Count(nodes: seq<Node>, p: Node -> bool, k: nat): nat
    requires k < |nodes|
  {
    if k == 0 then 0 else Count(nodes, p, k - 1) + if p(nodes[k]) then 1 else 0
  }

  lemma {:induction false} CountPut(nodes: seq<Node>, p: Node -> bool, k: nat, v: nat, node: Node)
    requires k < |nodes| && v < |nodes|
    ensures Count(nodes[v := node], p, k) == Count(nodes, p, k) +
      (if 1 <= v <= k then (if p(node) then 1 else 0) - (if p(nodes[v]) then 1 else 0) else 0)
    decreases k
  {
    if k > 0 {
      CountPut(nodes, p, k - 1, v, node);
    }
  }

  lemma {:induction false} CountAll(nodes: seq<Node>, p: Node -> bool, k: nat)
    requires k < |nodes|
    ensures Count(nodes, p, k) <= k
    ensures Count(nodes, p, k) == k <==> forall v | 1 <= v <= k :: p(nodes[v])
    ensures Count(nodes, p, k) == 0 <==> forall v | 1 <= v <= k :: !p(nodes[v])
    decreases k
  {
    if k > 0 {
      CountAll(nodes, p, k - 1);
    }
  }

  predicate CountedDown(node: Node) {
    node.pc.Finish? || node.pc.Callbacks? || node.pc.Trigger? || node.pc.Done?
  }

  predicate Reported(node: Node) {
    node.pc.CountDown? || CountedDown(node)
  }

  predicate ReportedAs(node: Node, o: Outcome) {
    Reported(node) && node.outcome == Some(o)
  }

  predicate ReportedSucceeded(node: Node) { ReportedAs(node, Succeeded) }

  predicate ReportedFailed(node: Node) { ReportedAs(node, Failed) }

  predicate ReportedCancelled(node: Node) { ReportedAs(node, Cancelled) }

  /// The node's admission slot has been given back.
  predicate SlotReleased(node: Node) {
    !node.pc.Waiting? && !node.pc.Posted?
  }

  ghost predicate CountInv(x: Setting, s: State)
    requires Shaped(x, s)
  {
    var (t, n) := (s.tally, x.g.n);
    && t.remainingNodes + Count(s.nodes, CountedDown, n) == n
    && t.succeeded == Count(s.nodes, ReportedSucceeded, n)
    && t.failed == Count(s.nodes, ReportedFailed, n)
    && t.cancelled == Count(s.nodes, ReportedCancelled, n)
    && t.released == Count(s.nodes, SlotReleased, n)
  }

  function Bit(b: bool): int { if b then 1 else 0 }

  ghost predicate Recounted(nodes: seq<Node>, v: nat, node: Node, p: Node -> bool, n: nat)
    requires n < |nodes| && v < |nodes|
  {
    Count(nodes[v := node], p, n) == Count(nodes, p, n) + Bit(p(node)) - Bit(p(nodes[v]))
  }

  /// The effect of one changed node on all the counters.
  lemma CountsPut(x: Setting, nodes: seq<Node>, v: nat, node: Node)
    requires |nodes| == x.g.n + 1 && Active(x, v)
    ensures Recounted(nodes, v, node, CountedDown, x.g.n) && Recounted(nodes, v, node, SlotReleased, x.g.n)
    ensures Recounted(nodes, v, node, ReportedSucceeded, x.g.n)
    ensures Recounted(nodes, v, node, ReportedFailed, x.g.n)
    ensures Recounted(nodes, v, node, ReportedCancelled, x.g.n)
  {
    CountPut(nodes, CountedDown, x.g.n, v, node);
    CountPut(nodes, ReportedSucceeded, x.g.n, v, node);
    CountPut(nodes, ReportedFailed, x.g.n, v, node);
    CountPut(nodes, ReportedCancelled, x.g.n, v, node);
    CountPut(nodes, SlotReleased, x.g.n, v, node);
  }

  /// How one node's own handling moves the counters' bits, and the counters with them.
  lemma AdvanceBits(x: Setting, v: nat, node: Node, cancel: bool, t: Tally)
    requires !node.pc.Trigger? && (node.pc.Report? ==> node.outcome == Some(node.pc.o))
    ensures var (node', t') := (AdvanceNode(x, v, node, cancel, t), AdvanceTally(node.pc, t));
      && Bit(CountedDown(node')) == Bit(CountedDown(node)) + Bit(node.pc.CountDown?)
      && (node.pc.CountDown? && t.remainingNodes > 0 ==> t'.remainingNodes == t.remainingNodes - 1)
      && (!node.pc.CountDown? ==> t'.remainingNodes == t.remainingNodes)
      && t'.succeeded - t.succeeded == Bit(ReportedSucceeded(node')) - Bit(ReportedSucceeded(node))
      && t'.failed - t.failed == Bit(ReportedFailed(node')) - Bit(ReportedFailed(node))
      && t'.cancelled - t.cancelled == Bit(ReportedCancelled(node')) - Bit(ReportedCancelled(node))
      && t'.released == t.released && SlotReleased(node') == SlotReleased(node)
  {
  }

  lemma AdvanceKeepsCount(x: Setting, s: State, v: nat)
    requires Shaped(x, s) && Active(x, v) && !s.nodes[v].pc.Trigger? && CountInv(x, s)
    requires s.nodes[v].pc.Report? ==> s.nodes[v].outcome == Some(s.nodes[v].pc.o)
    ensures CountInv(x, AdvanceStep(x, s, v))
    ensures s.nodes[v].pc.CountDown? ==> s.tally.remainingNodes > 0
  {
    hide AdvanceNode, AdvanceTally, ReportedAs;
    AdvanceBits(x, v, s.nodes[v], s.cancelRequested, s.tally);
    CountsPut(x, s.nodes, v, AdvanceNode(x, v, s.nodes[v], s.cancelRequested, s.tally));
    CountAll(s.nodes, CountedDown, x.g.n);
  }

  lemma TriggerBits(x: Setting, s: State, u: nat)
    requires UnlockInv(x, s) && Active(x, u) && CursorOk(x, u, s.nodes[u].pc)
    requires s.nodes[u].pc.Trigger? && s.nodes[u].pc.e < |x.g.edges|
    ensures var (s', v, released) := (TriggerStep(x, s, u), Successor(x, s.nodes[u].pc), s.nodes[u].pc.phase.Release?);
      && SameReport(s.nodes[v], s'.nodes[v]) && SameReport(s.nodes[u], s'.nodes[u]) && u != v
      && s'.nodes == s.nodes[v := s'.nodes[v]][u := s'.nodes[u]]
      && Bit(SlotReleased(s'.nodes[v])) == Bit(SlotReleased(s.nodes[v])) + Bit(released)
      && SlotReleased(s'.nodes[u]) == SlotReleased(s.nodes[u])
      && s'.tally == s.tally.(released := s.tally.released + Bit(released))
  {
    hide NodeOk, SoleDecider, RootOk;
    var v := Successor(x, s.nodes[u].pc);
    if s.nodes[u].pc.phase.Release? || s.nodes[u].pc.phase.Post? { DeciderHasZero(x, s, u, v); }
  }

  predicate SameReport(node: Node, node': Node) {
    && CountedDown(node') == CountedDown(node) && ReportedSucceeded(node') == ReportedSucceeded(node)
    && ReportedFailed(node') == ReportedFailed(node) && ReportedCancelled(node') == ReportedCancelled(node)
  }

  lemma TriggerKeepsCount(x: Setting, s: State, u: nat)
    requires UnlockInv(x, s) && Active(x, u) && CursorOk(x, u, s.nodes[u].pc) && CountInv(x, s)
    requires s.nodes[u].pc.Trigger?
    ensures CountInv(x, TriggerStep(x, s, u))
  {
    hide NodeOk, SoleDecider, RootOk;
    if s.nodes[u].pc.e == |x.g.edges| {
      CountsPut(x, s.nodes, u, s.nodes[u].(pc := Done));
      assert SameReport(s.nodes[u], s.nodes[u].(pc := Done));
    } else {
      var s' := TriggerStep(x, s, u);
      var v := Successor(x, s.nodes[u].pc);
      TriggerBits(x, s, u);
      hide TriggerStep, ReportedAs;
      CountsPut(x, s.nodes, v, s'.nodes[v]);
      CountsPut(x, s.nodes[v := s'.nodes[v]], u, s'.nodes[u]);
    }
  }

  lemma StepKeepsCount(x: Setting, s: State, a: Action)
    requires UnlockInv(x, s) && OutcomeInv(x, s) && CountInv(x, s)
    requires Cursors(x, s)
    ensures CountInv(x, Step(x, s, a))
  {
    hide NodeOk, SoleDecider, TriggerStep, AdvanceNode, AdvanceTally;
    match a
    case PostRoot =>
      if s.rootsLeft != [] {
        assert RootOk(x, s, s.rootsLeft[0]);
        CountsPut(x, s.nodes, s.rootsLeft[0], s.nodes[s.rootsLeft[0]].(pc := Posted));
      }
    case Claim(v) =>
      if Active(x, v) { CountsPut(x, s.nodes, v, s.nodes[v].(pc := Claimed)); }
    case BodyReturns(v, o) =>
      if Active(x, v) { CountsPut(x, s.nodes, v, s.nodes[v].(pc := StoreOutcome(o))); }
    case Advance(v) =>
      if Active(x, v) {
        assert OutcomeOk(x, s, v);
        if s.nodes[v].pc.Trigger? { TriggerKeepsCount(x, s, v); } else { AdvanceKeepsCount(x, s, v); }
      }
    case _ =>
  }

  // ----- the last node and the completion callbacks -----

  predicate Finishing(pc: Pc) {
    pc.Finish? || pc.Callbacks?
  }

  /// Every registered callback is in exactly one place: waiting, taken, owed by its caller, or run.
  ghost predicate CallbacksConserved(t: Tally) {
    && multiset(t.callbacks) + multiset(t.taken) + multiset(t.direct) + multiset(t.invoked) == multiset(t.registered)
    && forall id :: id in t.saw <==> id in t.invoked
  }

  /// An invoked callback saw Running or the state that is published now.
  predicate SawOk(t: Tally) {
    forall id | id in t.saw :: t.saw[id].Running? || t.saw[id] == t.runState
  }

  ghost predicate FinishInv(x: Setting, s: State)
    requires Shaped(x, s)
  {
    var t := s.tally;
    && (forall u, v | Active(x, u) && Active(x, v) && Finishing(s.nodes[u].pc) && Finishing(s.nodes[v].pc) :: u == v)
    && (forall v | Active(x, v) && Finishing(s.nodes[v].pc) :: t.remainingNodes == 0)
    && (forall v | Active(x, v) && s.nodes[v].pc.Finish? :: t.runState.Running?)
    && (t.remainingNodes > 0 ==> t.runState.Running?)
    && (t.runState.Running? ==> t.remainingNodes > 0 || exists v :: Active(x, v) && s.nodes[v].pc.Finish?)
    && (!t.runState.Running? ==> t.runState == FinalState(t) && t.callbacks == [])
    && (t.taken != [] ==> exists v :: Active(x, v) && s.nodes[v].pc.Callbacks?)
    && (t.direct != [] ==> t.remainingNodes == 0)
    && SawOk(t) && CallbacksConserved(t)
  }

  lemma TallyKeepsCallbacks(pc: Pc, t: Tally)
    requires CallbacksConserved(t) && (pc.Finish? ==> t.taken == [])
    ensures CallbacksConserved(AdvanceTally(pc, t))
  {
    if pc.Callbacks? && t.taken != [] {
      assert t.taken == [t.taken[0]] + t.taken[1..];
    }
  }

  lemma DirectKeepsCallbacks(t: Tally, k: nat)
    requires CallbacksConserved(t)
    ensures CallbacksConserved(RunDirectTally(t, k))
  {
    if k < |t.direct| {
      assert t.direct == t.direct[..k] + [t.direct[k]] + t.direct[k + 1..];
    }
  }

  lemma RegisterKeepsCallbacks(t: Tally, id: nat)
    requires CallbacksConserved(t)
    ensures CallbacksConserved(RegisterTally(t, id))
  {
    if id !in t.registered {
      assert multiset(t.registered + {id}) == multiset(t.registered) + multiset{id};
    }
  }

  lemma CountDownKeepsFinish(x: Setting, s: State, v: nat)
    requires Shaped(x, s) && Active(x, v) && s.nodes[v].pc.CountDown? && s.tally.remainingNodes > 0 && FinishInv(x, s)
    ensures FinishInv(x, AdvanceStep(x, s, v))
  {
    hide CallbacksConserved;
    TallyKeepsCallbacks(s.nodes[v].pc, s.tally);
    var s' := AdvanceStep(x, s, v);
    assert s.tally.remainingNodes == 1 ==> s'.nodes[v].pc.Finish?;
    assert s.tally.taken == [];
  }

  lemma PublishKeepsFinish(x: Setting, s: State, v: nat)
    requires Shaped(x, s) && Active(x, v) && s.nodes[v].pc.Finish? && FinishInv(x, s)
    ensures FinishInv(x, AdvanceStep(x, s, v))
  {
    hide CallbacksConserved;
    assert s.tally.taken == [];
    TallyKeepsCallbacks(s.nodes[v].pc, s.tally);
    assert AdvanceStep(x, s, v).nodes[v].pc.Callbacks?;
  }

  lemma CallbacksKeepFinish(x: Setting, s: State, v: nat)
    requires Shaped(x, s) && Active(x, v) && s.nodes[v].pc.Callbacks? && FinishInv(x, s)
    ensures FinishInv(x, AdvanceStep(x, s, v))
  {
    hide CallbacksConserved;
    var s' := AdvanceStep(x, s, v);
    TallyKeepsCallbacks(s.nodes[v].pc, s.tally);
    assert s.tally.taken != [] ==> s'.nodes[v].pc.Callbacks?;
    assert forall u | Active(x, u) :: !s.nodes[u].pc.Finish? && !s'.nodes[u].pc.Finish?;
  }

  lemma EarlierKeepsFinish(x: Setting, s: State, v: nat)
    requires Shaped(x, s) && Active(x, v) && !CountedDown(s.nodes[v]) && !s.nodes[v].pc.CountDown?
    requires s.tally.remainingNodes > 0 && FinishInv(x, s)
    ensures FinishInv(x, AdvanceStep(x, s, v))
  {
    hide CallbacksConserved;
    TallyKeepsCallbacks(s.nodes[v].pc, s.tally);
    assert s.tally.taken == [];
  }

  /// The last countdown, the publication of the final state, and the taken callbacks.
  lemma AdvanceKeepsFinish(x: Setting, s: State, v: nat)
    requires Shaped(x, s) && Active(x, v) && !s.nodes[v].pc.Trigger? && CountInv(x, s) && FinishInv(x, s)
    ensures FinishInv(x, AdvanceStep(x, s, v))
  {
    hide FinishInv, Count;
    CountAll(s.nodes, CountedDown, x.g.n);
    match s.nodes[v].pc
    case CountDown => CountDownKeepsFinish(x, s, v);
    case Finish => PublishKeepsFinish(x, s, v);
    case Callbacks => CallbacksKeepFinish(x, s, v);
    case Done => OtherMovesKeepFinish(x, s, AdvanceStep(x, s, v));
    case _ => EarlierKeepsFinish(x, s, v);
  }

  /// Moves that neither count a node down nor finish the run.
  lemma OtherMovesKeepFinish(x: Setting, s: State, s': State)
    requires Shaped(x, s) && Shaped(x, s') && FinishInv(x, s)
    requires forall v | Active(x, v) :: s'.nodes[v].pc.Finish? == s.nodes[v].pc.Finish?
    requires forall v | Active(x, v) :: s'.nodes[v].pc.Callbacks? == s.nodes[v].pc.Callbacks?
    requires s'.tally == s.tally.(released := s'.tally.released)
    ensures FinishInv(x, s')
  {
  }

  lemma DirectKeepsFinish(x: Setting, s: State, t: Tally)
    requires Shaped(x, s) && FinishInv(x, s) && CallbacksConserved(t)
    requires t == s.tally.(callbacks := t.callbacks, direct := t.direct, registered := t.registered,
      invoked := t.invoked, saw := t.saw)
    requires t.callbacks == s.tally.callbacks || s.tally.remainingNodes > 0
    requires t.direct != [] ==> s.tally.remainingNodes == 0
    requires SawOk(t)
    ensures FinishInv(x, s.(tally := t))
  {
    hide CallbacksConserved;
  }

  lemma RunDirectKeepsFinish(x: Setting, s: State, k: nat)
    requires Shaped(x, s) && FinishInv(x, s)
    ensures FinishInv(x, s.(tally := RunDirectTally(s.tally, k)))
  {
    hide CallbacksConserved;
    DirectKeepsCallbacks(s.tally, k);
    DirectKeepsFinish(x, s, RunDirectTally(s.tally, k));
  }

  lemma RegisterKeepsFinish(x: Setting, s: State, id: nat)
    requires Shaped(x, s) && FinishInv(x, s)
    ensures FinishInv(x, s.(tally := RegisterTally(s.tally, id)))
  {
    hide CallbacksConserved;
    RegisterKeepsCallbacks(s.tally, id);
    DirectKeepsFinish(x, s, RegisterTally(s.tally, id));
  }

  lemma StepKeepsFinish(x: Setting, s: State, a: Action)
    requires UnlockInv(x, s) && CountInv(x, s) && FinishInv(x, s)
    requires Cursors(x, s)
    ensures FinishInv(x, Step(x, s, a))
  {
    hide NodeOk, SoleDecider, AdvanceNode, AdvanceTally, Count, FinishInv, TriggerStep;
    var s' := Step(x, s, a);
    match a
    case PostRoot =>
      if s.rootsLeft != [] {
        assert RootOk(x, s, s.rootsLeft[0]);
        OtherMovesKeepFinish(x, s, s');
      }
    case Claim(v) => OtherMovesKeepFinish(x, s, s');
    case BodyReturns(v, o) => OtherMovesKeepFinish(x, s, s');
    case Advance(v) =>
      if Active(x, v) {
        if s.nodes[v].pc.Trigger? {
          TriggerIsNotFinish(x, s, v);
          OtherMovesKeepFinish(x, s, s');
        } else {
          AdvanceKeepsFinish(x, s, v);
        }
      }
    case RequestCancel => OtherMovesKeepFinish(x, s, s');
    case RunDirect(k) => RunDirectKeepsFinish(x, s, k);
    case AddCallback(id) => RegisterKeepsFinish(x, s, id);
  }

  lemma TriggerIsNotFinish(x: Setting, s: State, u: nat)
    requires UnlockInv(x, s) && Active(x, u) && CursorOk(x, u, s.nodes[u].pc) && s.nodes[u].pc.Trigger?
    ensures var s' := TriggerStep(x, s, u);
      && Shaped(x, s') && s'.tally == s.tally.(released := s'.tally.released)
      && (forall v | Active(x, v) :: s'.nodes[v].pc.Finish? == s.nodes[v].pc.Finish?)
      && (forall v | Active(x, v) :: s'.nodes[v].pc.Callbacks? == s.nodes[v].pc.Callbacks?)
  {
    hide NodeOk, SoleDecider, RootOk;
    var Trigger(e, phase) := s.nodes[u].pc;
    if e < |x.g.edges| && (phase.Release? || phase.Post?) {
      DeciderHasZero(x, s, u, Successor(x, s.nodes[u].pc));
    }
  }

  // ----- any run -----

  ghost predicate Inv(x: Setting, s: State) {
    UnlockInv(x, s) && OutcomeInv(x, s) && CountInv(x, s) && FinishInv(x, s)
  }

  lemma StepKeeps(x: Setting, s: State, a: Action)
    requires Inv(x, s)
    ensures Cursors(x, s)
    ensures Inv(x, Step(x, s, a))
  {
    hide NodeOk, SoleDecider, RootOk, OutcomeOk, CountInv, FinishInv, Step;
    CursorsOk(x, s);
    StepKeepsUnlock(x, s, a);
    StepKeepsOutcome(x, s, a);
    StepKeepsCount(x, s, a);
    StepKeepsFinish(x, s, a);
  }

  lemma InitialCounts(x: Setting)
    requires x.Valid()
    ensures CountInv(x, Initial(x))
  {
    var s := Initial(x);
    CountAll(s.nodes, CountedDown, x.g.n);
    CountAll(s.nodes, ReportedSucceeded, x.g.n);
    CountAll(s.nodes, ReportedFailed, x.g.n);
    CountAll(s.nodes, ReportedCancelled, x.g.n);
    CountAll(s.nodes, SlotReleased, x.g.n);
  }

  lemma InitialKeeps(x: Setting)
    requires x.Valid()
    ensures Inv(x, Initial(x))
  {
    hide NodeOk, SoleDecider, RootOk, UnlockInv, CountInv;
    var s := Initial(x);
    InitialUnlock(x);
    InitialCounts(x);
    forall v | Active(x, v)
      ensures OutcomeOk(x, s, v)
    {
    }
  }

  /// Any interleaving of the starting thread, the workers, cancellers and registrars.
  ghost function Run(x: Setting, s: State, actions: seq<Action>): (r: State)
    requires Inv(x, s)
    ensures Inv(x, r)
    decreases |actions|
  {
    if actions == [] then s
    else StepKeeps(x, s, actions[0]); Run(x, Step(x, s, actions[0]), actions[1..])
  }
}
