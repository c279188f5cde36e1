/// Every run ends: a measure that each working step lowers, and a thread that
/// can move as long as a node of an acyclic graph is unfinished.
module GraphRunProgress {
  import opened TaskGraphs
  import opened Wrappers
  import opened GraphRunProtocol
  import opened GraphRunOutcomes
  import opened GraphRunTally

  // ----- every run ends -----

  /// An upper bound on the steps a node's handling can still take.
  function Left(x: Setting, node: Node): nat {
    var m := 8 * |x.g.edges|;
    match node.pc
    case Waiting => m + 30
    case Posted => m + 20
    case Claimed => m + 18
    case Body => m + 16
    case StoreOutcome(_) => m + 14
    case Report(_) => m + 13
    case CountDown => m + 12
    case Finish => m + 11
    case Callbacks => m + 10
    case Trigger(e, phase) =>
      (if e <= |x.g.edges| then 8 * (|x.g.edges| - e) else 0) +
      (match phase
       case Flag => 7
       case Decrement => 6
       case DecideFlag => 5
       case DecideCancel => 4
       case Release => 3
       case Post => 3
       case Call => 2)
    case Done => 0
  }

  function SumLeft(x: Setting, nodes: seq<Node>, k: nat): nat
    requires k < |nodes|
  {
    if k == 0 then 0 else SumLeft(x, nodes, k - 1) + Left(x, nodes[k])
  }

  lemma {:induction false} SumLeftPut(x: Setting, nodes: seq<Node>, k: nat, v: nat, node: Node)
    requires k < |nodes| && v < |nodes|
    ensures SumLeft(x, nodes[v := node], k) ==
      SumLeft(x, nodes, k) + if 1 <= v <= k then Left(x, node) - Left(x, nodes[v]) else 0
    decreases k
  {
    if k > 0 {
      SumLeftPut(x, nodes, k - 1, v, node);
    }
  }

  function Measure(x: Setting, s: State): nat
    requires Shaped(x, s)
  {
    SumLeft(x, s.nodes, x.g.n) + |s.tally.callbacks| + |s.tally.taken| + |s.tally.direct|
  }

  /// An action of the run's own threads that changes something.
  predicate Working(x: Setting, s: State, a: Action)
    requires Cursors(x, s)
  {
    !a.RequestCancel? && !a.AddCallback? && Step(x, s, a) != s
  }

  lemma TriggerWorkDecreases(x: Setting, s: State, u: nat)
    requires UnlockInv(x, s) && Active(x, u) && CursorOk(x, u, s.nodes[u].pc) && s.nodes[u].pc.Trigger?
    requires TriggerStep(x, s, u) != s
    ensures Measure(x, TriggerStep(x, s, u)) < Measure(x, s)
  {
    hide NodeOk, SoleDecider, RootOk;
    var (s', n) := (TriggerStep(x, s, u), x.g.n);
    var Trigger(e, phase) := s.nodes[u].pc;
    if e == |x.g.edges| {
      SumLeftPut(x, s.nodes, n, u, s'.nodes[u]);
    } else {
      var v := Successor(x, s.nodes[u].pc);
      TriggerBits(x, s, u);
      TriggerLeft(x, s, u);
      hide TriggerStep, Left;
      SumLeftPut(x, s.nodes, n, v, s'.nodes[v]);
      SumLeftPut(x, s.nodes[v := s'.nodes[v]], n, u, s'.nodes[u]);
    }
  }

  lemma TriggerLeft(x: Setting, s: State, u: nat)
    requires UnlockInv(x, s) && Active(x, u) && CursorOk(x, u, s.nodes[u].pc)
    requires s.nodes[u].pc.Trigger? && s.nodes[u].pc.e < |x.g.edges| && TriggerStep(x, s, u) != s
    ensures var (s', v) := (TriggerStep(x, s, u), Successor(x, s.nodes[u].pc));
      Left(x, s'.nodes[v]) <= Left(x, s.nodes[v]) && Left(x, s'.nodes[u]) < Left(x, s.nodes[u])
  {
    hide NodeOk, SoleDecider, RootOk;
    var (s', v) := (TriggerStep(x, s, u), Successor(x, s.nodes[u].pc));
    var phase := s.nodes[u].pc.phase;
    if phase.Release? || phase.Post? { DeciderHasZero(x, s, u, v); }
    assert phase.Call? && s'.nodes[u].pc == s.nodes[u].pc ==> s'.nodes == s.nodes;
  }

  lemma AdvanceWorkDecreases(x: Setting, s: State, v: nat)
    requires Shaped(x, s) && Active(x, v) && !s.nodes[v].pc.Trigger? && AdvanceStep(x, s, v) != s
    ensures Measure(x, AdvanceStep(x, s, v)) < Measure(x, s)
  {
    var (node, node', t, t') := (s.nodes[v], AdvanceStep(x, s, v).nodes[v], s.tally, AdvanceStep(x, s, v).tally);
    SumLeftPut(x, s.nodes, x.g.n, v, node');
    var (waiting, waiting') := (|t.callbacks| + |t.taken| + |t.direct|, |t'.callbacks| + |t'.taken| + |t'.direct|);
    assert node' == node ==> AdvanceStep(x, s, v).nodes == s.nodes;
    if node.pc.Callbacks? && t.taken != [] {
      assert node' == node && waiting' < waiting;
    } else {
      assert Left(x, node') < Left(x, node) && waiting' <= waiting;
    }
  }

  lemma WorkDecreases(x: Setting, s: State, a: Action)
    requires Inv(x, s)
    requires Cursors(x, s)
    requires Working(x, s, a)
    ensures Measure(x, Step(x, s, a)) < Measure(x, s)
  {
    hide NodeOk, SoleDecider, OutcomeInv, CountInv, FinishInv, TriggerStep, AdvanceNode, AdvanceTally;
    var (s', n) := (Step(x, s, a), x.g.n);
    match a
    case PostRoot =>
      assert RootOk(x, s, s.rootsLeft[0]);
      SumLeftPut(x, s.nodes, n, s.rootsLeft[0], s'.nodes[s.rootsLeft[0]]);
    case Claim(v) => SumLeftPut(x, s.nodes, n, v, s'.nodes[v]);
    case BodyReturns(v, o) => SumLeftPut(x, s.nodes, n, v, s'.nodes[v]);
    case Advance(v) =>
      if s.nodes[v].pc.Trigger? { TriggerWorkDecreases(x, s, v); } else { AdvanceWorkDecreases(x, s, v); }
    case RunDirect(_) =>
  }

  lemma OthersAddAtMostOne(x: Setting, s: State, a: Action)
    requires Cursors(x, s) && !Working(x, s, a)
    ensures Shaped(x, Step(x, s, a))
    ensures Measure(x, Step(x, s, a)) <= Measure(x, s) + if a.AddCallback? then 1 else 0
  {
    hide TriggerStep, AdvanceNode, AdvanceTally;
  }

  /// The action by which a node that is being handled moves on.
  function Work(x: Setting, s: State, v: nat): Action
    requires Shaped(x, s) && Active(x, v)
  {
    match s.nodes[v].pc
    case Posted => Claim(v)
    case Body => BodyReturns(v, x.body[v])
    case _ => Advance(v)
  }

  predicate Blocked(x: Setting, s: State, v: nat)
    requires Shaped(x, s) && Active(x, v)
  {
    var pc := s.nodes[v].pc;
    pc.Trigger? && pc.e < |x.g.edges| && pc.phase.Call? && !s.nodes[Successor(x, pc)].pc.Done?
  }

  lemma Moves(x: Setting, s: State, v: nat)
    requires Inv(x, s) && Active(x, v) && !s.nodes[v].pc.Waiting? && !s.nodes[v].pc.Done? && !Blocked(x, s, v)
    ensures Cursors(x, s)
    ensures Working(x, s, Work(x, s, v))
  {
    hide NodeOk, SoleDecider, RootOk, OutcomeInv, CountInv, FinishInv;
    CursorsOk(x, s);
    var s' := Step(x, s, Work(x, s, v));
    if !s.nodes[v].pc.Callbacks? || s.tally.taken == [] {
      assert s'.nodes[v].pc != s.nodes[v].pc;
    } else {
      assert |s'.tally.taken| < |s.tally.taken|;
    }
  }

  /// A blocked node waits for one of higher rank that is being handled, and so on up to one that moves.
  lemma {:induction false} HandledNodeMoves(x: Setting, s: State, rank: seq<nat>, bound: nat, u: nat) returns (v: nat)
    requires Inv(x, s) && x.g.Ranks(rank) && Active(x, u)
    requires forall w | 0 <= w <= x.g.n :: rank[w] <= bound
    requires !s.nodes[u].pc.Waiting? && !s.nodes[u].pc.Done?
    ensures Active(x, v) && !s.nodes[v].pc.Waiting? && !s.nodes[v].pc.Done? && !Blocked(x, s, v)
    decreases bound - rank[u]
  {
    hide SoleDecider, RootOk, OutcomeInv, CountInv, FinishInv, Pending;
    if Blocked(x, s, u) {
      assert NodeOk(x, s, u);
      var t := Successor(x, s.nodes[u].pc);
      assert x.g.edges[s.nodes[u].pc.e] in x.g.edges;
      v := HandledNodeMoves(x, s, rank, bound, t);
    } else {
      v := u;
    }
  }

  /// A waiting node has a decider, or an unfinished predecessor of lower rank, and so on down.
  lemma {:induction false} WaitingNodeMoves(x: Setting, s: State, rank: seq<nat>, bound: nat, w: nat) returns (v: nat)
    requires Inv(x, s) && x.g.Ranks(rank) && Active(x, w) && s.rootsLeft == []
    requires forall u | 0 <= u <= x.g.n :: rank[u] <= bound
    requires s.nodes[w].pc.Waiting?
    ensures Active(x, v) && !s.nodes[v].pc.Waiting? && !s.nodes[v].pc.Done? && !Blocked(x, s, v)
    decreases rank[w]
  {
    hide SoleDecider, RootOk, OutcomeInv, CountInv, FinishInv;
    assert NodeOk(x, s, w);
    if s.nodes[w].remaining == 0 {
      v :| Active(x, v) && Decides(x, s.nodes[v].pc, w);
    } else {
      var e :| e in Pending(x, s, w);
      assert x.g.edges[e] in x.g.edges;
      var u := x.g.edges[e].from;
      if s.nodes[u].pc.Waiting? {
        v := WaitingNodeMoves(x, s, rank, bound, u);
      } else {
        v := HandledNodeMoves(x, s, rank, bound, u);
      }
    }
  }

  function MaxRank(rank: seq<nat>): (m: nat)
    ensures forall i | 0 <= i < |rank| :: rank[i] <= m
  {
    if rank == [] then 0
    else
      var m := MaxRank(rank[1..]);
      if rank[0] > m then rank[0] else m
  }

  ghost predicate AllDone(x: Setting, s: State)
    requires Shaped(x, s)
  {
    forall v | Active(x, v) :: s.nodes[v].pc.Done?
  }

  /// Deadlock freedom: acyclicity is what keeps an unfinished run moving.
  lemma Progress(x: Setting, s: State)
    requires Inv(x, s) && x.g.Ranked() && !AllDone(x, s)
    ensures Cursors(x, s)
    ensures exists a :: Working(x, s, a)
  {
    hide NodeOk, SoleDecider, OutcomeInv, CountInv, FinishInv, Step;
    CursorsOk(x, s);
    var rank :| x.g.Ranks(rank);
    if s.rootsLeft != [] {
      assert RootOk(x, s, s.rootsLeft[0]);
      RootMoves(x, s);
    } else {
      var u :| Active(x, u) && !s.nodes[u].pc.Done?;
      var v: nat;
      if s.nodes[u].pc.Waiting? {
        v := WaitingNodeMoves(x, s, rank, MaxRank(rank), u);
      } else {
        v := HandledNodeMoves(x, s, rank, MaxRank(rank), u);
      }
      Moves(x, s, v);
    }
  }

  lemma RootMoves(x: Setting, s: State)
    requires Shaped(x, s) && s.rootsLeft != [] && Active(x, s.rootsLeft[0]) && s.nodes[s.rootsLeft[0]].pc.Waiting?
    requires Cursors(x, s)
    ensures Working(x, s, PostRoot)
  {
    assert Step(x, s, PostRoot).nodes[s.rootsLeft[0]].pc.Posted?;
  }

  /// The run's own steps among the actions of a run.
  ghost function WorkCount(x: Setting, s: State, actions: seq<Action>): nat
    requires Inv(x, s)
    decreases |actions|
  {
    if actions == [] then 0
    else
      StepKeeps(x, s, actions[0]);
      (if Working(x, s, actions[0]) then 1 else 0) + WorkCount(x, Step(x, s, actions[0]), actions[1..])
  }

  function Registrations(actions: seq<Action>): nat {
    if actions == [] then 0 else (if actions[0].AddCallback? then 1 else 0) + Registrations(actions[1..])
  }

  /// Termination: a run takes boundedly many steps of its own, whatever the schedule.
  lemma {:induction false} RunsAreBounded(x: Setting, s: State, actions: seq<Action>)
    requires Inv(x, s)
    ensures WorkCount(x, s, actions) + Measure(x, Run(x, s, actions)) <= Measure(x, s) + Registrations(actions)
    decreases |actions|
  {
    hide NodeOk, SoleDecider, RootOk, OutcomeInv, CountInv, FinishInv, Step;
    if actions != [] {
      var a := actions[0];
      StepKeeps(x, s, a);
      if Working(x, s, a) { WorkDecreases(x, s, a); } else { OthersAddAtMostOne(x, s, a); }
      RunsAreBounded(x, Step(x, s, a), actions[1..]);
    }
  }

  /// A finished run: the counts add up, the final state is published, every registered
  /// callback has run exactly once, and every admission slot is back.
  lemma QuiescentIsComplete(x: Setting, s: State)
    requires Inv(x, s) && x.g.Ranked()
    ensures Cursors(x, s)
    ensures (forall a :: !Working(x, s, a)) ==>
      && AllDone(x, s) && (forall v | Active(x, v) :: s.nodes[v].outcome.Some?)
      && s.tally.remainingNodes == 0 && s.tally.succeeded + s.tally.failed + s.tally.cancelled == x.g.n
      && s.tally.runState == FinalState(s.tally) && s.tally.released == x.g.n
      && multiset(s.tally.invoked) == multiset(s.tally.registered)
  {
    hide NodeOk, SoleDecider, RootOk;
    CursorsOk(x, s);
    if forall a :: !Working(x, s, a) {
      if !AllDone(x, s) {
        Progress(x, s);
      }
      assert !Working(x, s, RunDirect(0));
      assert s.tally.direct == [] by { DirectMoves(x, s); }
      AllDoneIsComplete(x, s);
    }
  }

  lemma DirectMoves(x: Setting, s: State)
    requires Shaped(x, s)
    requires Cursors(x, s)
    ensures s.tally.direct != [] ==> Working(x, s, RunDirect(0))
  {
    assert s.tally.direct != [] ==> |Step(x, s, RunDirect(0)).tally.direct| < |s.tally.direct|;
  }

  lemma {:induction false} ReportsSplit(nodes: seq<Node>, k: nat)
    requires k < |nodes| && forall v | 1 <= v <= k :: nodes[v].outcome.Some?
    ensures Count(nodes, Reported, k) ==
      Count(nodes, ReportedSucceeded, k) + Count(nodes, ReportedFailed, k) + Count(nodes, ReportedCancelled, k)
    decreases k
  {
    if k > 0 {
      ReportsSplit(nodes, k - 1);
      match nodes[k].outcome
      case Some(Succeeded) =>
      case Some(Failed) =>
      case Some(Cancelled) =>
    }
  }

  lemma AllDoneIsComplete(x: Setting, s: State)
    requires Inv(x, s) && AllDone(x, s) && s.tally.direct == []
    ensures forall v | Active(x, v) :: s.nodes[v].outcome.Some?
    ensures s.tally.remainingNodes == 0 && s.tally.succeeded + s.tally.failed + s.tally.cancelled == x.g.n
    ensures s.tally.runState == FinalState(s.tally) && s.tally.released == x.g.n
    ensures multiset(s.tally.invoked) == multiset(s.tally.registered)
  {
    hide NodeOk, SoleDecider, RootOk, Count;
    forall v | Active(x, v)
      ensures s.nodes[v].outcome.Some?
    {
      assert OutcomeOk(x, s, v);
    }
    CountAll(s.nodes, CountedDown, x.g.n);
    CountAll(s.nodes, Reported, x.g.n);
    CountAll(s.nodes, SlotReleased, x.g.n);
    ReportsSplit(s.nodes, x.g.n);
    assert s.tally.callbacks == [] && s.tally.taken == [];
  }

  ghost predicate SomeNodeEnded(x: Setting, s: State, o: Outcome)
    requires Shaped(x, s)
  {
    exists v :: Active(x, v) && s.nodes[v].outcome == Some(o)
  }

  /// The published state in terms of the nodes: Failed if any node failed, else Cancelled if any was
  /// cancelled, else every node succeeded; and it is published once all nodes are done.
  lemma PublishedStateIsWorst(x: Setting, s: State)
    requires Inv(x, s)
    ensures AllDone(x, s) ==> !s.tally.runState.Running?
    ensures !s.tally.runState.Running? ==>
      && (s.tally.runState.RunFailed? <==> SomeNodeEnded(x, s, Failed))
      && (s.tally.runState.RunCancelled? <==> !SomeNodeEnded(x, s, Failed) && SomeNodeEnded(x, s, Cancelled))
      && (s.tally.runState.RunSucceeded? <==> forall v | Active(x, v) :: s.nodes[v].outcome == Some(Succeeded))
  {
    hide NodeOk, SoleDecider, RootOk, Count, CallbacksConserved;
    CountAll(s.nodes, CountedDown, x.g.n);
    CountAll(s.nodes, ReportedFailed, x.g.n);
    CountAll(s.nodes, ReportedCancelled, x.g.n);
    if !s.tally.runState.Running? {
      forall v | Active(x, v)
        ensures CountedDown(s.nodes[v]) && s.nodes[v].outcome.Some?
      {
        assert OutcomeOk(x, s, v);
      }
    }
  }

  /// A terminal outcome is final: no step changes it.
  lemma OutcomeIsFinal(x: Setting, s: State, a: Action, v: nat)
    requires Inv(x, s) && Active(x, v) && s.nodes[v].outcome.Some?
    ensures Cursors(x, s)
    ensures Step(x, s, a).nodes[v].outcome == s.nodes[v].outcome
  {
    hide NodeOk, SoleDecider, RootOk, CountInv, FinishInv;
    CursorsOk(x, s);
    assert OutcomeOk(x, s, v);
  }
}
