/// How a node's outcome follows from its predecessors' outcomes, in every
/// interleaving: the marks left by failed predecessors are neither lost nor
/// invented, so without cancellation the outcome is the graph's meaning.
module GraphRunOutcomes {
  import opened TaskGraphs
  import opened Wrappers
  import opened GraphRunProtocol

  // ----- every node's outcome is justified by its predecessors -----

  predicate HasOutcome(pc: Pc) {
    pc.Report? || pc.CountDown? || pc.Finish? || pc.Callbacks? || pc.Trigger? || pc.Done?
  }

  /// Handed to the ready queues, and not yet returned from its body.
  predicate Started(pc: Pc) {
    pc.Posted? || pc.Claimed? || pc.Body?
  }

  /// A required predecessor of v that is terminal and did not succeed.
  predicate FailedInto(x: Setting, s: State, e: nat, v: nat)
    requires Shaped(x, s) && IsEdge(x, e)
  {
    assert x.g.edges[e] in x.g.edges;
    var predecessor := s.nodes[x.g.edges[e].from];
    x.g.edges[e].to == v && predecessor.outcome.Some? && Failing(x.g.edges[e].policy, predecessor)
  }

  predicate MarkDue(x: Setting, s: State, e: nat, v: nat)
    requires Shaped(x, s) && IsEdge(x, e)
  {
    FailedInto(x, s, e, v) && PassedFlag(s.nodes[x.g.edges[e].from].pc, e)
  }

  /// A node with a failed required predecessor is cancelled; any other ends as its body does,
  /// unless somebody asked for cancellation.
  predicate Justified(x: Setting, s: State, v: nat, o: Outcome)
    requires Shaped(x, s) && Active(x, v)
  {
    if s.nodes[v].requiredFailed then o == Cancelled else o == x.body[v] || s.cancelRequested
  }

  ghost predicate OutcomeOk(x: Setting, s: State, v: nat)
    requires Shaped(x, s) && Active(x, v)
  {
    var node := s.nodes[v];
    && (node.outcome.Some? <==> HasOutcome(node.pc))
    && (node.requiredFailed ==> exists e :: IsEdge(x, e) && FailedInto(x, s, e, v))
    && (forall e | IsEdge(x, e) && MarkDue(x, s, e, v) :: node.requiredFailed)
    && (Started(node.pc) ==> !node.requiredFailed)
    && (node.pc.StoreOutcome? ==> Justified(x, s, v, node.pc.o))
    && (node.outcome.Some? ==> Justified(x, s, v, node.outcome.value))
    && (node.pc.Report? ==> node.outcome == Some(node.pc.o))
    && (node.pc.Trigger? && node.pc.e < |x.g.edges| ==>
      var target := s.nodes[Successor(x, node.pc)];
      && (node.pc.phase.DecideCancel? || node.pc.phase.Post? ==> !target.requiredFailed)
      && (node.pc.phase.Release? ==> target.requiredFailed || s.cancelRequested))
  }

  ghost predicate OutcomeInv(x: Setting, s: State)
    requires Shaped(x, s)
  {
    forall v | Active(x, v) :: OutcomeOk(x, s, v)
  }

  /// Node v is handled outside its successor loop, or enters it.
  ghost predicate OwnMove(x: Setting, s: State, s': State, v: nat) {
    && Shaped(x, s) && Shaped(x, s') && Active(x, v) && s'.nodes == s.nodes[v := s'.nodes[v]]
    && (s.cancelRequested ==> s'.cancelRequested)
    && var (node, node') := (s.nodes[v], s'.nodes[v]);
       && (forall e | IsEdge(x, e) && x.g.edges[e].from == v :: !PassedFlag(node'.pc, e) || PassedFlag(node.pc, e))
       && node'.requiredFailed == node.requiredFailed
       && (node.outcome.Some? ==> node'.outcome == node.outcome)
       && (node'.outcome.Some? <==> HasOutcome(node'.pc))
       && (Started(node'.pc) ==> !node'.requiredFailed)
       && (node'.pc.StoreOutcome? ==> Justified(x, s', v, node'.pc.o))
       && (node'.outcome.Some? ==> Justified(x, s', v, node'.outcome.value))
       && (node'.pc.Report? ==> node'.outcome == Some(node'.pc.o))
       && (node'.pc.Trigger? ==> node'.pc.phase.Flag?)
  }

  lemma OwnMoveKeepsOutcome(x: Setting, s: State, s': State, v: nat)
    requires Shaped(x, s) && OutcomeInv(x, s) && OwnMove(x, s, s', v)
    ensures OutcomeInv(x, s')
  {
    forall w | Active(x, w)
      ensures OutcomeOk(x, s', w)
    {
      assert OutcomeOk(x, s, w) && OutcomeOk(x, s, v);
      forall e | IsEdge(x, e)
        ensures FailedInto(x, s, e, w) ==> FailedInto(x, s', e, w)
        ensures MarkDue(x, s', e, w) ==> MarkDue(x, s, e, w)
      {
        assert x.g.edges[e] in x.g.edges;
      }
      if s.nodes[w].pc.Trigger? && s.nodes[w].pc.e < |x.g.edges| && w != v {
        assert s'.nodes[Successor(x, s.nodes[w].pc)].requiredFailed == s.nodes[Successor(x, s.nodes[w].pc)].requiredFailed;
      }
    }
  }

  lemma AdvanceKeepsOutcome(x: Setting, s: State, v: nat)
    requires Shaped(x, s) && OutcomeInv(x, s) && Active(x, v) && !s.nodes[v].pc.Trigger?
    ensures OutcomeInv(x, AdvanceStep(x, s, v))
  {
    assert OutcomeOk(x, s, v);
    OwnMoveKeepsOutcome(x, s, AdvanceStep(x, s, v), v);
  }

  lemma FlagKeepsNode(x: Setting, s: State, u: nat, w: nat)
    requires Shaped(x, s) && Active(x, u) && CursorOk(x, u, s.nodes[u].pc) && Active(x, w)
    requires s.nodes[u].pc.Trigger? && s.nodes[u].pc.e < |x.g.edges| && s.nodes[u].pc.phase.Flag?
    requires OutcomeOk(x, s, u) && OutcomeOk(x, s, w) && s.nodes[Successor(x, s.nodes[u].pc)].pc.Waiting?
    requires Deciding(x, s.nodes[w].pc) ==> s.nodes[Successor(x, s.nodes[w].pc)].remaining == 0
    requires s.nodes[Successor(x, s.nodes[u].pc)].remaining > 0
    ensures OutcomeOk(x, TriggerStep(x, s, u), w)
  {
    var e := s.nodes[u].pc.e;
    var v := Successor(x, s.nodes[u].pc);
    var s' := TriggerStep(x, s, u);
    forall k | IsEdge(x, k)
      ensures FailedInto(x, s', k, w) == FailedInto(x, s, k, w)
      ensures MarkDue(x, s', k, w) ==> MarkDue(x, s, k, w) || k == e
    {
      assert x.g.edges[k] in x.g.edges;
    }
    if w == v && s'.nodes[v].requiredFailed && !s.nodes[v].requiredFailed {
      assert FailedInto(x, s', e, v);
    }
  }

  /// Storing the failure mark: its target still waits, and nobody decides on it yet.
  lemma FlagKeepsOutcome(x: Setting, s: State, u: nat)
    requires UnlockInv(x, s) && OutcomeInv(x, s) && Active(x, u) && CursorOk(x, u, s.nodes[u].pc)
    requires s.nodes[u].pc.Trigger? && s.nodes[u].pc.e < |x.g.edges| && s.nodes[u].pc.phase.Flag?
    ensures OutcomeInv(x, TriggerStep(x, s, u))
  {
    hide SoleDecider, OutcomeOk;
    var e := s.nodes[u].pc.e;
    var v := Successor(x, s.nodes[u].pc);
    assert NodeOk(x, s, v) && OutcomeOk(x, s, u);
    assert !Delivered(x, s, e) && e in Pending(x, s, v);
    assert s.nodes[v].pc.Waiting? && s.nodes[v].remaining > 0;
    forall w | Active(x, w)
      ensures OutcomeOk(x, TriggerStep(x, s, u), w)
    {
      assert OutcomeOk(x, s, w) && NodeOk(x, s, w);
      FlagKeepsNode(x, s, u, w);
    }
  }

  /// The other phases of the loop leave every failure mark and every outcome alone.
  lemma LoopKeepsMarks(x: Setting, s: State, u: nat, w: nat, k: nat)
    requires Shaped(x, s) && Active(x, u) && CursorOk(x, u, s.nodes[u].pc)
    requires s.nodes[u].pc.Trigger? && s.nodes[u].pc.e < |x.g.edges| && !s.nodes[u].pc.phase.Flag?
    requires IsEdge(x, k)
    requires var v := Successor(x, s.nodes[u].pc);
      s.nodes[u].pc.phase.Release? || s.nodes[u].pc.phase.Post? ==> s.nodes[v].pc.Waiting?
    ensures var s' := TriggerStep(x, s, u);
      FailedInto(x, s', k, w) == FailedInto(x, s, k, w) && (MarkDue(x, s', k, w) ==> MarkDue(x, s, k, w))
  {
    assert x.g.edges[k] in x.g.edges;
  }

  lemma LoopKeepsNode(x: Setting, s: State, u: nat, w: nat)
    requires Shaped(x, s) && Active(x, u) && OutcomeOk(x, s, u) && Active(x, w) && OutcomeOk(x, s, w)
    requires CursorOk(x, u, s.nodes[u].pc)
    requires s.nodes[u].pc.Trigger? && s.nodes[u].pc.e < |x.g.edges| && !s.nodes[u].pc.phase.Flag?
    requires var v := Successor(x, s.nodes[u].pc);
      s.nodes[u].pc.phase.Release? || s.nodes[u].pc.phase.Post? ==> s.nodes[v].pc.Waiting?
    ensures OutcomeOk(x, TriggerStep(x, s, u), w)
  {
    hide FailedInto, MarkDue;
    var s' := TriggerStep(x, s, u);
    forall k | IsEdge(x, k)
      ensures FailedInto(x, s', k, w) == FailedInto(x, s, k, w)
      ensures MarkDue(x, s', k, w) ==> MarkDue(x, s, k, w)
    {
      LoopKeepsMarks(x, s, u, w, k);
    }
  }

  lemma LoopKeepsOutcome(x: Setting, s: State, u: nat)
    requires UnlockInv(x, s) && OutcomeInv(x, s) && Active(x, u) && CursorOk(x, u, s.nodes[u].pc)
    requires s.nodes[u].pc.Trigger? && s.nodes[u].pc.e < |x.g.edges| && !s.nodes[u].pc.phase.Flag?
    ensures OutcomeInv(x, TriggerStep(x, s, u))
  {
    hide SoleDecider, NodeOk, RootOk, OutcomeOk;
    var v := Successor(x, s.nodes[u].pc);
    if s.nodes[u].pc.phase.Release? || s.nodes[u].pc.phase.Post? { DeciderHasZero(x, s, u, v); }
    forall w | Active(x, w)
      ensures OutcomeOk(x, TriggerStep(x, s, u), w)
    {
      LoopKeepsNode(x, s, u, w);
    }
  }

  lemma TriggerKeepsOutcome(x: Setting, s: State, u: nat)
    requires UnlockInv(x, s) && OutcomeInv(x, s) && Active(x, u) && CursorOk(x, u, s.nodes[u].pc)
    requires s.nodes[u].pc.Trigger?
    ensures OutcomeInv(x, TriggerStep(x, s, u))
  {
    hide NodeOk, SoleDecider, RootOk;
    var Trigger(e, phase) := s.nodes[u].pc;
    if e == |x.g.edges| {
      assert OutcomeOk(x, s, u);
      OwnMoveKeepsOutcome(x, s, TriggerStep(x, s, u), u);
    } else if phase.Flag? {
      FlagKeepsOutcome(x, s, u);
    } else {
      LoopKeepsOutcome(x, s, u);
    }
  }

  lemma StepKeepsOutcome(x: Setting, s: State, a: Action)
    requires UnlockInv(x, s) && OutcomeInv(x, s)
    requires Cursors(x, s)
    ensures OutcomeInv(x, Step(x, s, a))
  {
    hide NodeOk, SoleDecider, TriggerStep;
    match a
    case PostRoot =>
      if s.rootsLeft != [] {
        var v := s.rootsLeft[0];
        assert RootOk(x, s, v) && OutcomeOk(x, s, v);
        OwnMoveKeepsOutcome(x, s, Step(x, s, a), v);
      }
    case Claim(v) =>
      if Step(x, s, a) != s {
        assert OutcomeOk(x, s, v);
        OwnMoveKeepsOutcome(x, s, Step(x, s, a), v);
      }
    case BodyReturns(v, o) =>
      if Step(x, s, a) != s {
        assert OutcomeOk(x, s, v);
        OwnMoveKeepsOutcome(x, s, Step(x, s, a), v);
      }
    case Advance(v) =>
      if Active(x, v) {
        if s.nodes[v].pc.Trigger? { TriggerKeepsOutcome(x, s, v); } else { AdvanceKeepsOutcome(x, s, v); }
      }
    case _ =>
      var s' := Step(x, s, a);
      forall v | Active(x, v)
        ensures OutcomeOk(x, s', v)
      {
        assert OutcomeOk(x, s, v);
        assert forall e | IsEdge(x, e) :: FailedInto(x, s', e, v) == FailedInto(x, s, e, v);
        assert forall e | IsEdge(x, e) :: MarkDue(x, s', e, v) == MarkDue(x, s, e, v);
      }
  }

  // ----- what the outcomes mean -----

  /// Whenever a node has left Waiting, all its predecessors are terminal.
  lemma PredecessorsTerminal(x: Setting, s: State, v: nat, e: nat)
    requires UnlockInv(x, s) && OutcomeInv(x, s) && Active(x, v) && !s.nodes[v].pc.Waiting?
    requires IsEdge(x, e) && x.g.edges[e].to == v
    ensures var u := x.g.edges[e].from;
      Active(x, u) && s.nodes[u].outcome.Some? && PassedFlag(s.nodes[u].pc, e)
  {
    hide SoleDecider, RootOk;
    assert x.g.edges[e] in x.g.edges;
    assert NodeOk(x, s, v) && OutcomeOk(x, s, x.g.edges[e].from);
    assert e !in Pending(x, s, v);
  }

  /// No body starts before all its predecessors are terminal and all required ones succeeded.
  lemma BodyStartsAfterPredecessors(x: Setting, s: State, v: nat, e: nat)
    requires UnlockInv(x, s) && OutcomeInv(x, s) && Active(x, v) && s.nodes[v].pc.Body?
    requires IsEdge(x, e) && x.g.edges[e].to == v
    ensures var (u, policy) := (x.g.edges[e].from, x.g.edges[e].policy);
      && Active(x, u) && s.nodes[u].outcome.Some?
      && (policy == RequireSuccess ==> s.nodes[u].outcome == Some(Succeeded))
  {
    hide NodeOk, SoleDecider, RootOk;
    assert x.g.edges[e] in x.g.edges;
    PredecessorsTerminal(x, s, v, e);
    assert OutcomeOk(x, s, v);
    assert !MarkDue(x, s, e, v);
  }

  /// The recursive meaning of a graph: cancelled below a failed requirement, else what the body returns.
  ghost function Meaning(x: Setting, rank: seq<nat>, v: nat): Outcome
    requires x.Valid() && x.g.Ranks(rank) && Active(x, v)
    decreases rank[v]
  {
    if exists e | IsEdge(x, e) && x.g.edges[e].to == v && x.g.edges[e].policy == RequireSuccess ::
      (assert x.g.edges[e] in x.g.edges; Meaning(x, rank, x.g.edges[e].from) != Succeeded)
    then Cancelled else x.body[v]
  }

  /// Without a cancel request every schedule gives every node the same outcome: its meaning.
  lemma {:induction false} OutcomeIsMeaning(x: Setting, s: State, rank: seq<nat>, v: nat)
    requires UnlockInv(x, s) && OutcomeInv(x, s) && x.g.Ranks(rank) && Active(x, v)
    requires !s.cancelRequested && s.nodes[v].outcome.Some?
    ensures s.nodes[v].outcome == Some(Meaning(x, rank, v))
    decreases rank[v]
  {
    hide SoleDecider, RootOk, NodeOk;
    assert OutcomeOk(x, s, v);
    forall e | IsEdge(x, e) && x.g.edges[e].to == v
      ensures x.g.edges[e] in x.g.edges
      ensures s.nodes[x.g.edges[e].from].outcome == Some(Meaning(x, rank, x.g.edges[e].from))
      ensures FailedInto(x, s, e, v) == MarkDue(x, s, e, v)
      ensures FailedInto(x, s, e, v) ==
        (x.g.edges[e].policy == RequireSuccess && Meaning(x, rank, x.g.edges[e].from) != Succeeded)
    {
      assert x.g.edges[e] in x.g.edges;
      PredecessorsTerminal(x, s, v, e);
      OutcomeIsMeaning(x, s, rank, x.g.edges[e].from);
    }
  }
}
