/// Freezing and running put together: what holds of every run of a graph that freeze accepted.
module FrozenRuns {
  import opened TaskGraphs
  import opened GraphRunProtocol
  import opened GraphRunOutcomes
  import opened GraphRunTally
  import opened GraphRunProgress
  import CycleSearch
  import GraphFreeze
  import opened Wrappers

  ghost predicate Accepted(x: Setting) {
    |x.body| == x.g.n + 1 && GraphFreeze.Freeze(x.g) == GraphFreeze.Frozen
  }

  lemma AcceptedIsRanked(x: Setting)
    requires Accepted(x)
    ensures x.Valid() && x.g.Ranked()
  {
    GraphFreeze.FreezeAcceptsExactlyValid(x.g);
    CycleSearch.AcyclicIsRanked(x.g);
  }

  /// The state after the given interleaving, from the start of the run.
  ghost function Reached(x: Setting, actions: seq<Action>): (s: State)
    requires Accepted(x)
    ensures Inv(x, s)
  {
    AcceptedIsRanked(x);
    InitialKeeps(x);
    Run(x, Initial(x), actions)
  }

  /// A frozen graph's run never stalls: while a node is unfinished some thread can move, and
  /// the threads move boundedly often in all.
  lemma FrozenRunFinishes(x: Setting, actions: seq<Action>)
    requires Accepted(x)
    ensures x.Valid() && Inv(x, Initial(x))
    ensures var s := Reached(x, actions);
      && Cursors(x, s)
      && (AllDone(x, s) || exists a :: Working(x, s, a))
      && WorkCount(x, Initial(x), actions) <= Measure(x, Initial(x)) + Registrations(actions)
  {
    hide NodeOk, SoleDecider, RootOk, OutcomeInv, CountInv, FinishInv, Run, WorkCount, Step, GraphFreeze.Freeze;
    AcceptedIsRanked(x);
    InitialKeeps(x);
    var s := Reached(x, actions);
    CursorsOk(x, s);
    if !AllDone(x, s) {
      Progress(x, s);
    }
    RunsAreBounded(x, Initial(x), actions);
  }

  /// A node becomes terminal once: whatever happens afterwards, its outcome stays.
  lemma {:induction false} TerminalIsForEver(x: Setting, s: State, actions: seq<Action>, v: nat)
    requires Inv(x, s) && Active(x, v) && s.nodes[v].outcome.Some?
    ensures Run(x, s, actions).nodes[v].outcome == s.nodes[v].outcome
    decreases |actions|
  {
    hide NodeOk, SoleDecider, RootOk, OutcomeInv, CountInv, FinishInv, Step;
    if actions != [] {
      StepKeeps(x, s, actions[0]);
      OutcomeIsFinal(x, s, actions[0], v);
      TerminalIsForEver(x, Step(x, s, actions[0]), actions[1..], v);
    }
  }

  // ----- every schedule gives the same report -----

  predicate NoCancel(actions: seq<Action>) {
    forall i | 0 <= i < |actions| :: !actions[i].RequestCancel?
  }

  lemma {:induction false} NobodyCancels(x: Setting, s: State, actions: seq<Action>)
    requires Inv(x, s) && NoCancel(actions)
    ensures Run(x, s, actions).cancelRequested == s.cancelRequested
    decreases |actions|
  {
    hide NodeOk, SoleDecider, RootOk, OutcomeInv, CountInv, FinishInv;
    if actions != [] {
      StepKeeps(x, s, actions[0]);
      NobodyCancels(x, Step(x, s, actions[0]), actions[1..]);
    }
  }

  lemma {:induction false} CountAgrees(s: seq<Node>, t: seq<Node>, o: Outcome, p: Node -> bool, k: nat)
    requires k < |s| && k < |t|
    requires forall node :: p(node) == ReportedAs(node, o)
    requires forall v | 1 <= v <= k :: s[v].pc.Done? && t[v].pc.Done? && s[v].outcome == t[v].outcome
    ensures Count(s, p, k) == Count(t, p, k)
    decreases k
  {
    if k > 0 {
      CountAgrees(s, t, o, p, k - 1);
    }
  }

  /// Without a cancel request a node ends the same way in every schedule.
  lemma OutcomesAgree(x: Setting, one: seq<Action>, other: seq<Action>, v: nat)
    requires Accepted(x) && NoCancel(one) && NoCancel(other) && Active(x, v)
    ensures var (s, t) := (Reached(x, one), Reached(x, other));
      s.nodes[v].outcome.Some? && t.nodes[v].outcome.Some? ==> s.nodes[v].outcome == t.nodes[v].outcome
  {
    hide NodeOk, SoleDecider, RootOk, OutcomeOk, CountInv, FinishInv, Run, GraphFreeze.Freeze, Meaning;
    AcceptedIsRanked(x);
    InitialKeeps(x);
    NobodyCancels(x, Initial(x), one);
    NobodyCancels(x, Initial(x), other);
    var rank :| x.g.Ranks(rank);
    var (s, t) := (Reached(x, one), Reached(x, other));
    if s.nodes[v].outcome.Some? && t.nodes[v].outcome.Some? {
      OutcomeIsMeaning(x, s, rank, v);
      OutcomeIsMeaning(x, t, rank, v);
    }
  }

  /// Two finished runs nobody cancelled report the same counts and the same final state.
  lemma SchedulesAgree(x: Setting, one: seq<Action>, other: seq<Action>)
    requires Accepted(x) && NoCancel(one) && NoCancel(other)
    ensures var (s, t) := (Reached(x, one), Reached(x, other));
      AllDone(x, s) && AllDone(x, t) ==>
        && (forall v | Active(x, v) :: s.nodes[v].outcome == t.nodes[v].outcome)
        && s.tally.succeeded == t.tally.succeeded && s.tally.failed == t.tally.failed
        && s.tally.cancelled == t.tally.cancelled && s.tally.runState == t.tally.runState
  {
    hide NodeOk, SoleDecider, RootOk, Run, GraphFreeze.Freeze, Count;
    var (s, t) := (Reached(x, one), Reached(x, other));
    if AllDone(x, s) && AllDone(x, t) {
      forall v | Active(x, v)
        ensures s.nodes[v].outcome == t.nodes[v].outcome
      {
        assert OutcomeOk(x, s, v) && OutcomeOk(x, t, v);
        OutcomesAgree(x, one, other, v);
      }
      CountAgrees(s.nodes, t.nodes, Succeeded, ReportedSucceeded, x.g.n);
      CountAgrees(s.nodes, t.nodes, Failed, ReportedFailed, x.g.n);
      CountAgrees(s.nodes, t.nodes, Cancelled, ReportedCancelled, x.g.n);
      DoneIsPublished(x, s);
      DoneIsPublished(x, t);
    }
  }

  lemma DoneIsPublished(x: Setting, s: State)
    requires Inv(x, s) && AllDone(x, s)
    ensures s.tally.runState == FinalState(s.tally)
  {
    hide NodeOk, SoleDecider, RootOk, OutcomeInv, Count;
    CountAll(s.nodes, CountedDown, x.g.n);
  }

  // ----- what a cancel request does -----

  /// The node's body has not started, nor will it: it is on its way to Cancelled, or there.
  predicate NeverStarts(node: Node) {
    || (node.outcome.None? && (node.pc.Waiting? || node.pc.Posted? || node.pc.Claimed? || node.pc == StoreOutcome(Cancelled)))
    || (node.outcome == Some(Cancelled) && !node.pc.Waiting? && !node.pc.Posted? && !node.pc.Claimed?
        && !node.pc.Body? && !node.pc.StoreOutcome?)
  }

  lemma StartStaysCancelled(x: Setting, s: State, a: Action, v: nat)
    requires Inv(x, s) && s.cancelRequested && Active(x, v) && NeverStarts(s.nodes[v])
    ensures Cursors(x, s)
    ensures Step(x, s, a).cancelRequested && NeverStarts(Step(x, s, a).nodes[v])
  {
    hide NodeOk, SoleDecider, OutcomeInv, CountInv, FinishInv, AdvanceTally, TriggerStep, NeverStarts;
    CursorsOk(x, s);
    match a
    case PostRoot =>
      if s.rootsLeft != [] {
        assert RootOk(x, s, s.rootsLeft[0]);
        OutcomeNone(x, s, s.rootsLeft[0]);
        PostedNeverStarts(s.nodes[s.rootsLeft[0]]);
      }
    case Advance(u) =>
      if Active(x, u) {
        if s.nodes[u].pc.Trigger? { HandsOn(x, s, u); TriggerStaysCancelled(x, s, u, v); } else { NodeStaysCancelled(x, v, s.nodes[v], s.tally); }
      }
    case _ => NodeStaysCancelled(x, v, s.nodes[v], s.tally);
  }

  lemma PostedNeverStarts(node: Node)
    requires node.outcome.None?
    ensures NeverStarts(node.(pc := Posted))
  {
  }

  lemma NodeStaysCancelled(x: Setting, v: nat, node: Node, t: Tally)
    requires NeverStarts(node)
    ensures !node.pc.Body?
    ensures node.pc.Posted? ==> NeverStarts(node.(pc := Claimed))
    ensures !node.pc.Trigger? ==> NeverStarts(AdvanceNode(x, v, node, true, t))
  {
  }

  /// A successor that is about to be posted or cancelled has no outcome yet.
  predicate HandsOnFresh(x: Setting, s: State, u: nat)
    requires Shaped(x, s) && Active(x, u) && s.nodes[u].pc.Trigger?
  {
    var pc := s.nodes[u].pc;
    pc.e < |x.g.edges| && (pc.phase.Post? || pc.phase.Release?) ==> s.nodes[Successor(x, pc)].outcome.None?
  }

  lemma HandsOn(x: Setting, s: State, u: nat)
    requires Inv(x, s) && Active(x, u) && s.nodes[u].pc.Trigger?
    ensures CursorOk(x, u, s.nodes[u].pc) && HandsOnFresh(x, s, u)
  {
    hide NodeOk, SoleDecider, RootOk, OutcomeInv, CountInv, FinishInv;
    CursorsOk(x, s);
    var pc := s.nodes[u].pc;
    if pc.e < |x.g.edges| && (pc.phase.Post? || pc.phase.Release?) {
      DeciderHasZero(x, s, u, Successor(x, pc));
      OutcomeNone(x, s, Successor(x, pc));
    }
  }

  lemma TriggerStaysCancelled(x: Setting, s: State, u: nat, v: nat)
    requires Shaped(x, s) && Active(x, u) && Active(x, v) && s.nodes[u].pc.Trigger? && NeverStarts(s.nodes[v])
    requires CursorOk(x, u, s.nodes[u].pc) && HandsOnFresh(x, s, u)
    ensures NeverStarts(TriggerStep(x, s, u).nodes[v]) && TriggerStep(x, s, u).cancelRequested == s.cancelRequested
  {
  }

  lemma OutcomeNone(x: Setting, s: State, v: nat)
    requires Inv(x, s) && Active(x, v) && s.nodes[v].pc.Waiting?
    ensures s.nodes[v].outcome.None?
  {
    assert OutcomeOk(x, s, v);
  }

  /// Once cancellation is requested, a node whose body has not started by then never starts, and
  /// ends Cancelled if it ends.
  lemma {:induction false} CancelStopsUnstarted(x: Setting, s: State, actions: seq<Action>, v: nat)
    requires Inv(x, s) && s.cancelRequested && Active(x, v) && NeverStarts(s.nodes[v])
    ensures var node := Run(x, s, actions).nodes[v]; NeverStarts(node) && !node.pc.Body? && (node.pc.Done? ==> node.outcome == Some(Cancelled))
    decreases |actions|
  {
    hide NodeOk, SoleDecider, RootOk, OutcomeInv, CountInv, FinishInv, NeverStarts, Step;
    if actions != [] {
      StartStaysCancelled(x, s, actions[0], v);
      StepKeeps(x, s, actions[0]);
      CancelStopsUnstarted(x, Step(x, s, actions[0]), actions[1..], v);
    } else {
      NeverIsNever(s.nodes[v]);
    }
  }

  /// A cancel request cancels every node whose body has not started: in no continuation does it start.
  lemma CancelCancelsUnstarted(x: Setting, s: State, actions: seq<Action>, v: nat)
    requires Inv(x, s) && Active(x, v) && NeverStarts(s.nodes[v])
    ensures Cursors(x, s)
    ensures Inv(x, Step(x, s, RequestCancel))
    ensures var node := Run(x, Step(x, s, RequestCancel), actions).nodes[v];
      !node.pc.Body? && (node.pc.Done? ==> node.outcome == Some(Cancelled))
  {
    hide NodeOk, SoleDecider, RootOk, OutcomeInv, CountInv, FinishInv, NeverStarts, Run;
    CursorsOk(x, s);
    StepKeeps(x, s, RequestCancel);
    CancelStopsUnstarted(x, Step(x, s, RequestCancel), actions, v);
  }

  lemma NeverIsNever(node: Node)
    requires NeverStarts(node)
    ensures !node.pc.Body? && (node.pc.Done? ==> node.outcome == Some(Cancelled))
  {
  }

  /// Not handed to the ready queues, and nobody is about to.
  ghost predicate Unposted(x: Setting, s: State, v: nat)
    requires Shaped(x, s) && Active(x, v)
  {
    && !s.nodes[v].pc.Posted? && !s.nodes[v].pc.Claimed? && v !in s.rootsLeft
    && forall u | Active(x, u) && Decides(x, s.nodes[u].pc, v) :: !s.nodes[u].pc.phase.Post?
  }

  lemma StaysUnposted(x: Setting, s: State, a: Action, v: nat)
    requires Inv(x, s) && s.cancelRequested && Active(x, v) && Unposted(x, s, v)
    ensures Cursors(x, s)
    ensures Step(x, s, a).cancelRequested && Inv(x, Step(x, s, a)) && Unposted(x, Step(x, s, a), v)
  {
    hide NodeOk, SoleDecider, OutcomeInv, CountInv, FinishInv, AdvanceTally, TriggerStep;
    CursorsOk(x, s);
    StepKeeps(x, s, a);
    if a.PostRoot? && s.rootsLeft != [] { assert RootOk(x, s, s.rootsLeft[0]); }
    if a.Advance? && Active(x, a.v) && s.nodes[a.v].pc.Trigger? { TriggerStaysUnposted(x, s, a.v, v); }
  }

  lemma TriggerStaysUnposted(x: Setting, s: State, u: nat, v: nat)
    requires Shaped(x, s) && s.cancelRequested && Active(x, u) && Active(x, v) && Unposted(x, s, v)
    requires s.nodes[u].pc.Trigger? && CursorOk(x, u, s.nodes[u].pc)
    ensures Shaped(x, TriggerStep(x, s, u)) && Unposted(x, TriggerStep(x, s, u), v) && TriggerStep(x, s, u).cancelRequested
  {
    if s.nodes[u].pc.e < |x.g.edges| {
      var w := Successor(x, s.nodes[u].pc);
      assert Deciding(x, s.nodes[u].pc) ==> Decides(x, s.nodes[u].pc, w);
    }
  }

  /// Once cancellation is requested, no node is handed to the ready queues any more but the roots
  /// the starting thread has left and those a thread had already decided to post.
  lemma {:induction false} CancelStopsPosting(x: Setting, s: State, actions: seq<Action>, v: nat)
    requires Inv(x, s) && s.cancelRequested && Active(x, v) && Unposted(x, s, v)
    ensures Unposted(x, Run(x, s, actions), v)
    decreases |actions|
  {
    hide UnlockInv, OutcomeInv, CountInv, FinishInv, Unposted, Step;
    if actions != [] {
      StaysUnposted(x, s, actions[0], v);
      CancelStopsPosting(x, Step(x, s, actions[0]), actions[1..], v);
    }
  }

  // ----- what a completion callback sees -----

  lemma OneRegisters(x: Setting, s: State, a: Action, id: nat)
    requires Inv(x, s)
    requires Cursors(x, s)
    ensures id in Step(x, s, a).tally.registered <==> id in s.tally.registered || a == AddCallback(id)
  {
    hide NodeOk, SoleDecider, RootOk, OutcomeInv, CountInv, FinishInv, AdvanceNode;
  }

  /// The registered callbacks are exactly those that callers added.
  lemma {:induction false} EveryCallbackRegisters(x: Setting, s: State, actions: seq<Action>, id: nat)
    requires Inv(x, s)
    ensures id in Run(x, s, actions).tally.registered <==> id in s.tally.registered || AddCallback(id) in actions
    decreases |actions|
  {
    hide NodeOk, SoleDecider, RootOk, OutcomeInv, CountInv, FinishInv, Step;
    if actions != [] {
      StepKeeps(x, s, actions[0]);
      OneRegisters(x, s, actions[0], id);
      EveryCallbackRegisters(x, Step(x, s, actions[0]), actions[1..], id);
    }
  }

  /// The callback ran and saw the run still Running.
  predicate SawRunning(t: Tally, id: nat) {
    id in t.saw && t.saw[id].Running?
  }

  /// The window in which a registration is late: all nodes counted down, nothing published yet.
  predicate InWindow(t: Tally) {
    t.remainingNodes == 0 && t.runState.Running?
  }

  /// Registered, and not going to see Running.
  predicate Timely(t: Tally, id: nat) {
    id in t.registered && !SawRunning(t, id) && (t.runState.Running? ==> id !in t.direct)
  }

  /// Callbacks taken by the last node find the final state published; and the window is open
  /// exactly while the last node stands between its countdown and the publication.
  lemma CallbackSees(x: Setting, s: State)
    requires Inv(x, s)
    ensures s.tally.taken != [] ==> !s.tally.runState.Running?
    ensures InWindow(s.tally) <==> s.tally.remainingNodes == 0 && exists v :: Active(x, v) && s.nodes[v].pc.Finish?
  {
    hide UnlockInv, OutcomeInv, CountInv;
  }

  lemma TimelyAdvances(x: Setting, s: State, v: nat, id: nat)
    requires Inv(x, s) && Timely(s.tally, id)
    requires Active(x, v)
    ensures Timely(AdvanceTally(s.nodes[v].pc, s.tally), id)
  {
    hide NodeOk, SoleDecider, RootOk, OutcomeInv, CountInv, FinishInv;
    CallbackSees(x, s);
    assert s.nodes[v].pc.Finish? ==> !FinalState(s.tally).Running?;
  }

  lemma TimelyStays(x: Setting, s: State, a: Action, id: nat)
    requires Inv(x, s) && Timely(s.tally, id)
    requires Cursors(x, s)
    ensures Timely(Step(x, s, a).tally, id)
  {
    hide Inv, AdvanceTally, AdvanceNode;
    if a.Advance? && Active(x, a.v) {
      TimelyAdvances(x, s, a.v, id);
    }
  }

  lemma {:induction false} TimelyForEver(x: Setting, s: State, actions: seq<Action>, id: nat)
    requires Inv(x, s) && Timely(s.tally, id)
    ensures Timely(Run(x, s, actions).tally, id)
    decreases |actions|
  {
    hide UnlockInv, OutcomeInv, CountInv, FinishInv, Timely, Step;
    if actions != [] {
      CursorsOk(x, s);
      StepKeeps(x, s, actions[0]);
      TimelyStays(x, s, actions[0], id);
      TimelyForEver(x, Step(x, s, actions[0]), actions[1..], id);
    }
  }

  lemma LateMayRunAtOnce(x: Setting, s: State, id: nat)
    requires Inv(x, s) && id !in s.tally.registered && InWindow(s.tally)
    requires Cursors(x, s)
    ensures var late := Step(x, s, AddCallback(id));
      Inv(x, late) && SawRunning(Run(x, late, [RunDirect(|s.tally.direct|)]).tally, id)
  {
    hide UnlockInv, OutcomeInv, CountInv, FinishInv;
    var late := Step(x, s, AddCallback(id));
    var k := |s.tally.direct|;
    StepKeeps(x, s, AddCallback(id));
    StepKeeps(x, late, RunDirect(k));
    assert [RunDirect(k)][1..] == [];
    assert late.tally.direct[k] == id;
  }

  /// Exactly when a completion callback may see Running: if and only if it is registered after the
  /// last node has counted itself down and before the final state is published.
  lemma SeesRunningExactlyWhenLate(x: Setting, s: State, id: nat)
    requires Inv(x, s) && id !in s.tally.registered
    ensures Cursors(x, s)
    ensures Inv(x, Step(x, s, AddCallback(id)))
    ensures (exists actions: seq<Action> :: SawRunning(Run(x, Step(x, s, AddCallback(id)), actions).tally, id)) <==>
      InWindow(s.tally)
  {
    hide UnlockInv, OutcomeInv, CountInv, FinishInv, Run;
    CursorsOk(x, s);
    StepKeeps(x, s, AddCallback(id));
    var added := Step(x, s, AddCallback(id));
    if InWindow(s.tally) {
      LateMayRunAtOnce(x, s, id);
    } else {
      UnseenBefore(x, s, id);
      forall actions: seq<Action>
        ensures !SawRunning(Run(x, added, actions).tally, id)
      {
        TimelyForEver(x, added, actions, id);
      }
    }
  }

  lemma UnseenBefore(x: Setting, s: State, id: nat)
    requires Inv(x, s) && id !in s.tally.registered
    ensures id !in s.tally.saw && id !in s.tally.direct
  {
    hide UnlockInv, OutcomeInv, CountInv;
    var t := s.tally;
    assert multiset(t.registered)[id] == 0;
    assert (multiset(t.callbacks) + multiset(t.taken) + multiset(t.direct) + multiset(t.invoked))[id] == 0;
    assert multiset(t.invoked)[id] == 0 && multiset(t.direct)[id] == 0;
  }

  /// A caller that registers while a node is unfinished, or after the run is completed, sees the
  /// final state, in every continuation in which its callback runs.
  lemma InTimeSeesFinal(x: Setting, s: State, id: nat, actions: seq<Action>)
    requires Inv(x, s) && id !in s.tally.registered
    requires s.tally.remainingNodes > 0 || !s.tally.runState.Running?
    ensures Cursors(x, s)
    ensures Inv(x, Step(x, s, AddCallback(id)))
    ensures var t := Run(x, Step(x, s, AddCallback(id)), actions).tally;
      id in t.saw ==> t.saw[id] == t.runState == FinalState(t)
  {
    hide UnlockInv, OutcomeInv, CountInv, Run;
    CursorsOk(x, s) by { assert UnlockInv(x, s); }
    StepKeeps(x, s, AddCallback(id));
    UnseenBefore(x, s, id);
    TimelyForEver(x, Step(x, s, AddCallback(id)), actions, id);
  }

  /// The state of a run of the one-node graph.
  function Solo(pc: Pc, outcome: Option<Outcome>, t: Tally): State {
    State([Node(Waiting, 0, false, None), Node(pc, 0, false, outcome)], [], false, t)
  }

  lemma SoloStep(x: Setting, s: State, a: Action, rest: seq<Action>, s': State)
    requires Inv(x, s) && Cursors(x, s)
    requires Step(x, s, a) == s'
    ensures Inv(x, s') && Cursors(x, s') && Run(x, s, [a] + rest) == Run(x, s', rest)
  {
    hide NodeOk, SoleDecider, RootOk, OutcomeInv, CountInv, FinishInv, Step;
    StepKeeps(x, s, a);
    CursorsOk(x, s');
    assert ([a] + rest)[1..] == rest;
  }

  function SoloSetting(): Setting { Setting(Graph(1, []), [Succeeded, Succeeded]) }

  /// A run of the one-node graph up to the point where its node is to report.
  lemma SoloStarts(rest: seq<Action>)
    ensures Accepted(SoloSetting())
    ensures var (x, s) := (SoloSetting(), Solo(StoreOutcome(Succeeded), None, Tally(1, 0, 0, 0, Running, [], [], [], {}, [], map[], 1)));
      && Inv(x, s) && Cursors(x, s)
      && Reached(x, [PostRoot] + ([Claim(1)] + ([Advance(1)] + ([BodyReturns(1, Succeeded)] + rest)))) == Run(x, s, rest)
  {
    hide UnlockInv, OutcomeInv, CountInv, FinishInv, Run, GraphFreeze.Freeze;
    var x := SoloSetting();
    GraphFreeze.NoEdgesIsAcyclic(x.g);
    GraphFreeze.FreezeAcceptsExactlyValid(x.g);
    AcceptedIsRanked(x);
    InitialKeeps(x);
    CursorsOk(x, Initial(x));
    assert Roots(x.g, 2) == [] && Roots(x.g, 1) == [1];
    var t := Tally(1, 0, 0, 0, Running, [], [], [], {}, [], map[], 0);
    var t1 := t.(released := 1);
    var r3 := [BodyReturns(1, Succeeded)] + rest;
    var r2 := [Advance(1)] + r3;
    SoloStep(x, Initial(x), PostRoot, [Claim(1)] + r2, Solo(Posted, None, t));
    SoloStep(x, Solo(Posted, None, t), Claim(1), r2, Solo(Claimed, None, t1));
    SoloStep(x, Solo(Claimed, None, t1), Advance(1), r3, Solo(Body, None, t1));
    SoloStep(x, Solo(Body, None, t1), BodyReturns(1, Succeeded), rest, Solo(StoreOutcome(Succeeded), None, t1));
  }

  /// The window is reached, already by one node, so a late callback does see Running.
  lemma LateCallbackSeesRunning()
    ensures exists x: Setting, actions: seq<Action> :: Accepted(x) && SawRunning(Reached(x, actions).tally, 0)
  {
    hide Inv, Accepted, Cursors, Run;
    var (x, done) := (SoloSetting(), Some(Succeeded));
    var t1 := Tally(1, 0, 0, 0, Running, [], [], [], {}, [], map[], 1);
    var t2 := t1.(succeeded := 1);
    var t3 := t2.(remainingNodes := 0);
    var t4 := t3.(direct := [0], registered := {0});
    var r7 := [AddCallback(0)] + ([RunDirect(0)] + []);
    var r6 := [Advance(1)] + r7;
    var r5 := [Advance(1)] + r6;
    SoloStarts([Advance(1)] + r5);
    SoloStep(x, Solo(StoreOutcome(Succeeded), None, t1), Advance(1), r5, Solo(Report(Succeeded), done, t1));
    SoloStep(x, Solo(Report(Succeeded), done, t1), Advance(1), r6, Solo(CountDown, done, t2));
    SoloStep(x, Solo(CountDown, done, t2), Advance(1), r7, Solo(Finish, done, t3));
    SoloStep(x, Solo(Finish, done, t3), AddCallback(0), [RunDirect(0)] + [], Solo(Finish, done, t4));
    var last := Solo(Finish, done, t4.(direct := [], invoked := [0], saw := map[0 := Running]));
    SoloStep(x, Solo(Finish, done, t4), RunDirect(0), [], last);
    RunNothing(x, last);
  }

  lemma RunNothing(x: Setting, s: State)
    requires Inv(x, s)
    ensures Run(x, s, []) == s
  {
  }
}
