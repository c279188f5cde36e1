/// One run of a frozen task graph of plain nodes, as a transition system: the
/// posting thread, any number of workers, and callers that request
/// cancellation or register completion callbacks, interleaved in any order.
///
/// A node's program counter follows the thread that handles that node.  A
/// thread that cancels a successor handles it in a nested call: the outer
/// node waits at `Call` until the inner node is done.  A node's successor list
/// is walked by a cursor over the graph's edges in insertion order.
module GraphRunProtocol {
  import opened TaskGraphs
  import opened Wrappers

  datatype Outcome = Succeeded | Failed | Cancelled

  datatype TriggerPhase =
    | Flag          // about to mark the successor when its required predecessor did not succeed
    | Decrement     // about to count the successor's remaining predecessors down
    | DecideFlag    // counted it to zero: about to read the successor's failure mark
    | DecideCancel  // about to read the run's cancel request
    | Release       // about to give the slot back and cancel the successor in a nested call
    | Post          // about to hand the successor to the ready queues
    | Call          // waiting for the nested call to return

  datatype Pc =
    | Waiting
    | Posted
    | Claimed
    | Body
    | StoreOutcome(o: Outcome)
    | Report(o: Outcome)
    | CountDown
    | Finish
    | Callbacks
    | Trigger(e: nat, phase: TriggerPhase)
    | Done

  datatype Node = Node(pc: Pc, remaining: nat, requiredFailed: bool, outcome: Option<Outcome>)

  datatype RunState = Running | RunSucceeded | RunFailed | RunCancelled

  /// The run's counters and completion callbacks.
  datatype Tally = Tally(
    remainingNodes: nat,
    succeeded: nat, failed: nat, cancelled: nat,
    runState: RunState,
    callbacks: seq<nat>,      // registered, to be taken by the last node
    taken: seq<nat>,          // taken by the last node, to be run
    direct: seq<nat>,         // registered after the last node: their caller will run them
    registered: set<nat>,
    invoked: seq<nat>,
    saw: map<nat, RunState>,  // the run state each invoked callback saw
    released: nat             // admission slots given back
  )

  datatype State = State(
    nodes: seq<Node>,         // entry 0 is unused
    rootsLeft: seq<nat>,      // roots the starting thread has yet to post
    cancelRequested: bool,
    tally: Tally
  )

  datatype Action =
    | PostRoot
    | Claim(v: nat)
    | BodyReturns(v: nat, o: Outcome)
    | Advance(v: nat)
    | RunDirect(k: nat)       // the k-th late registrar runs its own callback
    | RequestCancel
    | AddCallback(id: nat)

  /// A run: the frozen graph and what each node's body returns when nobody asks for cancellation.
  datatype Setting = Setting(g: Graph, body: seq<Outcome>) {
    predicate Valid() {
      |body| == g.n + 1 && g.EndpointsOk() && g.NoSelfEdge()
    }
  }

  /// The first edge at or after index e that leaves u, or the number of edges.
  function NextEdge(g: Graph, u: nat, e: nat): (r: nat)
    requires e <= |g.edges|
    ensures e <= r <= |g.edges|
    ensures r < |g.edges| ==> g.edges[r].from == u
    ensures forall k | e <= k < r :: g.edges[k].from != u
    decreases |g.edges| - e
  {
    if e == |g.edges| || g.edges[e].from == u then e else NextEdge(g, u, e + 1)
  }

  function Roots(g: Graph, v: nat): seq<nat>
    requires v <= g.n + 1
    decreases g.n + 1 - v
  {
    if v == g.n + 1 then []
    else (if InDegree(g, v, |g.edges|) == 0 then [v] else []) + Roots(g, v + 1)
  }

  function Initial(x: Setting): State
    requires x.Valid()
  {
    var g := x.g;
    State(seq(g.n + 1, v requires 0 <= v <= g.n => Node(Waiting, InDegree(g, v, |g.edges|), false, None)),
          Roots(g, 1), false,
          Tally(g.n, 0, 0, 0, if g.n == 0 then RunSucceeded else Running, [], [], [], {}, [], map[], 0))
  }

  function Put(s: State, v: nat, pc: Pc): State
    requires v < |s.nodes|
  {
    s.(nodes := s.nodes[v := s.nodes[v].(pc := pc)])
  }

  // ----- the steps -----

  predicate Shaped(x: Setting, s: State) {
    x.Valid() && |s.nodes| == x.g.n + 1
  }

  predicate Active(x: Setting, v: int) {
    1 <= v <= x.g.n
  }

  predicate CursorOk(x: Setting, u: nat, pc: Pc) {
    pc.Trigger? ==> pc.e <= |x.g.edges| && (pc.e < |x.g.edges| ==> x.g.edges[pc.e].from == u)
  }

  /// Every successor loop stands at an edge of its own node, or past the last edge.
  predicate Cursors(x: Setting, s: State) {
    Shaped(x, s) && forall v | 1 <= v <= x.g.n :: CursorOk(x, v, s.nodes[v].pc)
  }

  /// Where the successor loop goes next, given the successor and the cancel request.
  function TriggerPc(x: Setting, u: nat, e: nat, phase: TriggerPhase, successor: Node, cancel: bool): Pc
    requires e < |x.g.edges|
  {
    var next := Trigger(NextEdge(x.g, u, e + 1), Flag);
    match phase
    case Flag => Trigger(e, Decrement)
    case Decrement => if successor.remaining != 1 then next else Trigger(e, DecideFlag)
    case DecideFlag => Trigger(e, if successor.requiredFailed then Release else DecideCancel)
    case DecideCancel => Trigger(e, if cancel then Release else Post)
    case Release => Trigger(e, Call)
    case Post => next
    case Call => if successor.pc.Done? then next else Trigger(e, Call)
  }

  /// What the successor loop does to the successor.
  function TriggerSuccessor(phase: TriggerPhase, failing: bool, successor: Node): Node {
    match phase
    case Flag => successor.(requiredFailed := successor.requiredFailed || failing)
    case Decrement => successor.(remaining := if successor.remaining == 0 then 0 else successor.remaining - 1)
    case Release => successor.(pc := StoreOutcome(Cancelled))
    case Post => successor.(pc := Posted)
    case _ => successor
  }

  /// A required predecessor that did not succeed.
  predicate Failing(policy: Policy, predecessor: Node) {
    policy == RequireSuccess && predecessor.outcome != Some(Succeeded)
  }

  function TriggerStep(x: Setting, s: State, u: nat): State
    requires Shaped(x, s) && Active(x, u)
    requires s.nodes[u].pc.Trigger? && s.nodes[u].pc.e <= |x.g.edges|
  {
    var Trigger(e, phase) := s.nodes[u].pc;
    if e == |x.g.edges| then Put(s, u, Done)
    else
      var v := Successor(x, s.nodes[u].pc);
      var failing := Failing(x.g.edges[e].policy, s.nodes[u]);
      var pc := TriggerPc(x, u, e, phase, s.nodes[v], s.cancelRequested);
      s.(nodes := s.nodes[v := TriggerSuccessor(phase, failing, s.nodes[v])][u := s.nodes[u].(pc := pc)],
         tally := if phase.Release? then s.tally.(released := s.tally.released + 1) else s.tally)
  }

  function Successor(x: Setting, pc: Pc): (v: nat)
    requires x.Valid() && pc.Trigger? && pc.e < |x.g.edges|
    ensures Active(x, v) && v != x.g.edges[pc.e].from
  {
    assert x.g.edges[pc.e] in x.g.edges;
    x.g.edges[pc.e].to
  }

  /// A node's own handling outside the successor loop: start, body, mark terminal.
  function AdvanceNode(x: Setting, v: nat, node: Node, cancel: bool, t: Tally): Node {
    var trigger := Trigger(NextEdge(x.g, v, 0), Flag);
    match node.pc
    case Claimed => node.(pc := if cancel then StoreOutcome(Cancelled) else Body)
    case StoreOutcome(o) => node.(outcome := Some(o), pc := Report(o))
    case Report(_) => node.(pc := CountDown)
    case CountDown => node.(pc := if t.remainingNodes == 1 then Finish else trigger)
    case Finish => node.(pc := Callbacks)
    case Callbacks => if t.taken == [] then node.(pc := trigger) else node
    case _ => node
  }

  function FinalState(t: Tally): RunState {
    if t.failed > 0 then RunFailed else if t.cancelled > 0 then RunCancelled else RunSucceeded
  }

  function AdvanceTally(pc: Pc, t: Tally): Tally {
    match pc
    case Report(Succeeded) => t.(succeeded := t.succeeded + 1)
    case Report(Failed) => t.(failed := t.failed + 1)
    case Report(Cancelled) => t.(cancelled := t.cancelled + 1)
    case CountDown => t.(remainingNodes := if t.remainingNodes == 0 then 0 else t.remainingNodes - 1)
    case Finish => t.(runState := FinalState(t), taken := t.callbacks, callbacks := [])
    case Callbacks =>
      if t.taken == [] then t
      else t.(taken := t.taken[1..], invoked := t.invoked + [t.taken[0]], saw := t.saw[t.taken[0] := t.runState])
    case _ => t
  }

  function AdvanceStep(x: Setting, s: State, v: nat): State
    requires Shaped(x, s) && Active(x, v)
    requires s.nodes[v].pc.Trigger? ==> s.nodes[v].pc.e <= |x.g.edges|
  {
    if s.nodes[v].pc.Trigger? then TriggerStep(x, s, v)
    else
      s.(nodes := s.nodes[v := AdvanceNode(x, v, s.nodes[v], s.cancelRequested, s.tally)],
         tally := AdvanceTally(s.nodes[v].pc, s.tally))
  }

  /// One step of any thread; an action that is not enabled leaves the state alone.
  function Step(x: Setting, s: State, a: Action): State
    requires Cursors(x, s)
  {
    match a
    case PostRoot =>
      if s.rootsLeft == [] || !Active(x, s.rootsLeft[0]) then s
      else Put(s.(rootsLeft := s.rootsLeft[1..]), s.rootsLeft[0], Posted)
    case Claim(v) =>
      if Active(x, v) && s.nodes[v].pc.Posted?
      then Put(s.(tally := s.tally.(released := s.tally.released + 1)), v, Claimed) else s
    case BodyReturns(v, o) =>
      if Active(x, v) && s.nodes[v].pc.Body? && (o == x.body[v] || s.cancelRequested)
      then Put(s, v, StoreOutcome(o)) else s
    case Advance(v) =>
      if Active(x, v) then AdvanceStep(x, s, v) else s
    case RequestCancel => s.(cancelRequested := true)
    case RunDirect(k) => s.(tally := RunDirectTally(s.tally, k))
    case AddCallback(id) => s.(tally := RegisterTally(s.tally, id))
  }

  function RunDirectTally(t: Tally, k: nat): Tally {
    if k >= |t.direct| then t
    else
      t.(direct := t.direct[..k] + t.direct[k + 1..], invoked := t.invoked + [t.direct[k]],
         saw := t.saw[t.direct[k] := t.runState])
  }

  function RegisterTally(t: Tally, id: nat): Tally {
    if id in t.registered then t
    else if t.remainingNodes == 0 then t.(direct := t.direct + [id], registered := t.registered + {id})
    else t.(callbacks := t.callbacks + [id], registered := t.registered + {id})
  }

  // ----- who unlocks whom -----

  predicate IsEdge(x: Setting, e: int) {
    0 <= e < |x.g.edges|
  }

  /// The edge's countdown of its successor has happened.
  predicate PassedDecrement(pc: Pc, e: nat) {
    pc.Done? || (pc.Trigger? && (e < pc.e || (e == pc.e && !pc.phase.Flag? && !pc.phase.Decrement?)))
  }

  /// The edge's failure mark, where one is due, has been stored.
  predicate PassedFlag(pc: Pc, e: nat) {
    pc.Done? || (pc.Trigger? && (e < pc.e || (e == pc.e && !pc.phase.Flag?)))
  }

  predicate Delivered(x: Setting, s: State, e: nat)
    requires Shaped(x, s) && IsEdge(x, e)
  {
    assert x.g.edges[e] in x.g.edges;
    PassedDecrement(s.nodes[x.g.edges[e].from].pc, e)
  }

  ghost function Pending(x: Setting, s: State, v: nat): set<nat>
    requires Shaped(x, s)
  {
    set e | 0 <= e < |x.g.edges| && x.g.edges[e].to == v && !Delivered(x, s, e)
  }

  /// This thread counted the current edge's successor to zero and now owns its fate.
  predicate Deciding(x: Setting, pc: Pc) {
    pc.Trigger? && pc.e < |x.g.edges| &&
    (pc.phase.DecideFlag? || pc.phase.DecideCancel? || pc.phase.Release? || pc.phase.Post?)
  }

  predicate Decides(x: Setting, pc: Pc, v: nat) {
    Deciding(x, pc) && x.g.edges[pc.e].to == v
  }

  ghost predicate NodeOk(x: Setting, s: State, v: nat)
    requires Shaped(x, s) && Active(x, v)
  {
    var node := s.nodes[v];
    && CursorOk(x, v, node.pc)
    && node.remaining == |Pending(x, s, v)|
    && (!node.pc.Waiting? ==> node.remaining == 0)
    && (node.pc.Waiting? && node.remaining == 0 ==>
      v in s.rootsLeft || exists u :: Active(x, u) && Decides(x, s.nodes[u].pc, v))
    && (node.pc.Trigger? && node.pc.e < |x.g.edges| && node.pc.phase.Call? ==>
      !s.nodes[Successor(x, node.pc)].pc.Waiting?)
    && (Deciding(x, node.pc) ==>
      var target := s.nodes[Successor(x, node.pc)]; target.pc.Waiting? && target.remaining == 0)
  }

  ghost predicate RootOk(x: Setting, s: State, v: nat)
    requires Shaped(x, s)
  {
    && Active(x, v) && s.nodes[v].pc.Waiting?
    && forall e | IsEdge(x, e) :: x.g.edges[e].to != v
  }

  ghost predicate SoleDecider(x: Setting, s: State)
    requires Shaped(x, s)
  {
    forall u1, u2, v | Active(x, u1) && Active(x, u2) &&
      Decides(x, s.nodes[u1].pc, v) && Decides(x, s.nodes[u2].pc, v) :: u1 == u2
  }

  ghost predicate UnlockInv(x: Setting, s: State) {
    && Shaped(x, s)
    && (forall v | Active(x, v) :: NodeOk(x, s, v))
    && (forall i | 0 <= i < |s.rootsLeft| :: RootOk(x, s, s.rootsLeft[i]))
    && (forall i, j | 0 <= i < j < |s.rootsLeft| :: s.rootsLeft[i] != s.rootsLeft[j])
    && SoleDecider(x, s)
  }

  ghost predicate QuietPc(x: Setting, u: nat, pc: Pc, pc': Pc) {
    && !pc.Waiting? && !pc'.Waiting? && CursorOk(x, u, pc')
    && (forall e | IsEdge(x, e) && x.g.edges[e].from == u :: PassedDecrement(pc, e) == PassedDecrement(pc', e))
    && (forall v: nat :: Decides(x, pc, v) == Decides(x, pc', v))
    && (pc'.Trigger? && pc'.e < |x.g.edges| ==> !pc'.phase.Call? || pc == pc')
  }

  /// Moving through the node's own handling, up to entering the successor loop.
  lemma QuietBeforeTrigger(x: Setting, u: nat, pc: Pc, pc': Pc)
    requires !pc.Trigger? && !pc.Done? && !pc.Waiting?
    requires (!pc'.Trigger? && !pc'.Done? && !pc'.Waiting?) || pc' == Trigger(NextEdge(x.g, u, 0), Flag)
    ensures QuietPc(x, u, pc, pc')
  {
  }

  lemma QuietTrigger(x: Setting, u: nat, e: nat, phase: TriggerPhase, pc': Pc)
    requires e <= |x.g.edges| && CursorOk(x, u, Trigger(e, phase))
    requires
      || (e == |x.g.edges| && pc' == Done)
      || (e < |x.g.edges| && phase == Flag && pc' == Trigger(e, Decrement))
      || (e < |x.g.edges| && phase == DecideFlag && (pc' == Trigger(e, Release) || pc' == Trigger(e, DecideCancel)))
      || (e < |x.g.edges| && phase == DecideCancel && (pc' == Trigger(e, Release) || pc' == Trigger(e, Post)))
      || (e < |x.g.edges| && phase == Call && pc' == Trigger(NextEdge(x.g, u, e + 1), Flag))
    ensures QuietPc(x, u, Trigger(e, phase), pc')
  {
  }

  /// A move of one thread that counts nobody down and takes no decision.
  lemma QuietMove(x: Setting, s: State, s': State, u: nat)
    requires UnlockInv(x, s) && Shaped(x, s') && Active(x, u) && s'.rootsLeft == s.rootsLeft
    requires forall v | Active(x, v) :: s'.nodes[v].remaining == s.nodes[v].remaining
    requires forall v | Active(x, v) && v != u :: s'.nodes[v].pc == s.nodes[v].pc
    requires QuietPc(x, u, s.nodes[u].pc, s'.nodes[u].pc)
    ensures UnlockInv(x, s')
  {
    forall e | IsEdge(x, e)
      ensures Delivered(x, s', e) == Delivered(x, s, e)
    {
      assert x.g.edges[e] in x.g.edges;
    }
    forall v | Active(x, v)
      ensures NodeOk(x, s', v)
    {
      assert NodeOk(x, s, v);
      assert Pending(x, s', v) == Pending(x, s, v);
      if Deciding(x, s'.nodes[v].pc) {
        var target := Successor(x, s'.nodes[v].pc);
        assert Decides(x, s'.nodes[v].pc, target) && Decides(x, s.nodes[v].pc, target);
        assert target != u;
      }
      forall w | Active(x, w)
        ensures Decides(x, s'.nodes[w].pc, v) == Decides(x, s.nodes[w].pc, v)
      {
      }
    }
    assert forall u1, v | Active(x, u1) :: Decides(x, s'.nodes[u1].pc, v) == Decides(x, s.nodes[u1].pc, v);
  }

  /// The decider hands its successor on: to the ready queues, or to a nested cancelling call.
  ghost predicate Unlocks(x: Setting, s: State, s': State, u: nat, v: nat, pcU: Pc, pcV: Pc) {
    && Shaped(x, s) && Active(x, u) && Active(x, v) && u != v
    && Decides(x, s.nodes[u].pc, v)
    && s'.nodes == s.nodes[v := s.nodes[v].(pc := pcV)][u := s.nodes[u].(pc := pcU)]
    && s'.rootsLeft == s.rootsLeft
    && (pcV.Posted? || pcV.StoreOutcome?)
    && CursorOk(x, u, pcU) && !Deciding(x, pcU) && pcU.Trigger?
    && (pcU.e < |x.g.edges| && pcU.phase.Call? ==> x.g.edges[pcU.e].to == v)
    && s.nodes[v].pc.Waiting?
    && forall e | IsEdge(x, e) && x.g.edges[e].from == u ::
      PassedDecrement(s.nodes[u].pc, e) == PassedDecrement(pcU, e)
  }

  lemma UnlockNode(x: Setting, s: State, s': State, u: nat, v: nat, pcU: Pc, pcV: Pc, w: nat)
    requires UnlockInv(x, s) && Unlocks(x, s, s', u, v, pcU, pcV) && Active(x, w)
    ensures NodeOk(x, s', w)
  {
    hide SoleDecider;
    assert NodeOk(x, s, w) && NodeOk(x, s, u);
    forall e | IsEdge(x, e)
      ensures Delivered(x, s', e) == Delivered(x, s, e)
    {
      assert x.g.edges[e] in x.g.edges;
    }
    assert Pending(x, s', w) == Pending(x, s, w);
    if w != v && s.nodes[w].pc.Waiting? && s.nodes[w].remaining == 0 && w !in s.rootsLeft {
      var other :| Active(x, other) && Decides(x, s.nodes[other].pc, w);
      assert Decides(x, s'.nodes[other].pc, w);
    }
    if w != u && Deciding(x, s.nodes[w].pc) {
      assert SoleDecider(x, s);
      DistinctTargets(x, s, u, w, v);
    }
  }

  lemma DistinctTargets(x: Setting, s: State, u: nat, w: nat, v: nat)
    requires Shaped(x, s) && SoleDecider(x, s) && Active(x, u) && Active(x, w) && u != w
    requires Decides(x, s.nodes[u].pc, v) && Deciding(x, s.nodes[w].pc)
    ensures Successor(x, s.nodes[w].pc) != v
  {
    assert Decides(x, s.nodes[w].pc, Successor(x, s.nodes[w].pc));
  }

  lemma UnlockMove(x: Setting, s: State, s': State, u: nat, v: nat, pcU: Pc, pcV: Pc)
    requires UnlockInv(x, s) && Unlocks(x, s, s', u, v, pcU, pcV)
    ensures UnlockInv(x, s')
  {
    hide NodeOk;
    forall w | Active(x, w)
      ensures NodeOk(x, s', w)
    {
      UnlockNode(x, s, s', u, v, pcU, pcV, w);
    }
    forall i | 0 <= i < |s'.rootsLeft|
      ensures RootOk(x, s', s'.rootsLeft[i])
    {
      assert RootOk(x, s, s.rootsLeft[i]);
      assert x.g.edges[s.nodes[u].pc.e].to == v;
    }
    assert forall u1, t | Active(x, u1) && Decides(x, s'.nodes[u1].pc, t) :: Decides(x, s.nodes[u1].pc, t);
  }

  predicate Decrementing(x: Setting, s: State, u: nat) {
    && Shaped(x, s) && Active(x, u)
    && s.nodes[u].pc.Trigger? && s.nodes[u].pc.e < |x.g.edges| && s.nodes[u].pc.phase.Decrement?
  }

  lemma DecrementTarget(x: Setting, s: State, u: nat)
    requires UnlockInv(x, s) && Decrementing(x, s, u)
    ensures var (e, v) := (s.nodes[u].pc.e, Successor(x, s.nodes[u].pc));
      && e in Pending(x, s, v) && s.nodes[v].remaining > 0 && s.nodes[v].pc.Waiting? && v != u
      && x.g.edges[e].from == u
  {
    hide SoleDecider;
    var (e, v) := (s.nodes[u].pc.e, Successor(x, s.nodes[u].pc));
    assert NodeOk(x, s, u) && NodeOk(x, s, v);
    assert !Delivered(x, s, e) && e in Pending(x, s, v);
  }

  lemma DecrementPending(x: Setting, s: State, u: nat, w: nat)
    requires Shaped(x, s) && Decrementing(x, s, u) && CursorOk(x, u, s.nodes[u].pc) && Active(x, w)
    ensures var (e, v) := (s.nodes[u].pc.e, Successor(x, s.nodes[u].pc));
      Pending(x, TriggerStep(x, s, u), w) == if w == v then Pending(x, s, w) - {e} else Pending(x, s, w)
  {
    var s' := TriggerStep(x, s, u);
    forall k | IsEdge(x, k)
      ensures Delivered(x, s', k) == (Delivered(x, s, k) || k == s.nodes[u].pc.e)
    {
      assert x.g.edges[k] in x.g.edges;
    }
  }

  lemma DecrementNode(x: Setting, s: State, u: nat, w: nat)
    requires UnlockInv(x, s) && Decrementing(x, s, u) && CursorOk(x, u, s.nodes[u].pc) && Active(x, w)
    ensures NodeOk(x, TriggerStep(x, s, u), w)
  {
    hide SoleDecider, RootOk, Pending, Delivered;
    var s' := TriggerStep(x, s, u);
    var v := Successor(x, s.nodes[u].pc);
    DecrementTarget(x, s, u);
    assert NodeOk(x, s, w);
    DecrementPending(x, s, u, w);
    if s'.nodes[w].pc.Waiting? && s'.nodes[w].remaining == 0 && w !in s.rootsLeft {
      if w == v {
        assert Decides(x, s'.nodes[u].pc, v);
      } else {
        var other :| Active(x, other) && Decides(x, s.nodes[other].pc, w);
        assert Decides(x, s'.nodes[other].pc, w);
      }
    }
  }

  /// The countdown of a successor removes exactly one pending edge of it, and
  /// whoever brings it to zero becomes its only decider.
  lemma DecrementMove(x: Setting, s: State, u: nat)
    requires UnlockInv(x, s) && Decrementing(x, s, u) && CursorOk(x, u, s.nodes[u].pc)
    ensures UnlockInv(x, TriggerStep(x, s, u))
  {
    hide NodeOk;
    var s' := TriggerStep(x, s, u);
    var v := Successor(x, s.nodes[u].pc);
    DecrementTarget(x, s, u);
    forall w | Active(x, w)
      ensures NodeOk(x, s', w)
    {
      DecrementNode(x, s, u, w);
    }
    forall i | 0 <= i < |s'.rootsLeft|
      ensures RootOk(x, s', s'.rootsLeft[i])
    {
      assert RootOk(x, s, s.rootsLeft[i]);
    }
    forall u1, u2, t | Active(x, u1) && Active(x, u2) &&
      Decides(x, s'.nodes[u1].pc, t) && Decides(x, s'.nodes[u2].pc, t)
      ensures u1 == u2
    {
      if u1 != u { DeciderHasZero(x, s, u1, t); }
      if u2 != u { DeciderHasZero(x, s, u2, t); }
    }
  }

  lemma DeciderHasZero(x: Setting, s: State, u: nat, t: nat)
    requires UnlockInv(x, s) && Active(x, u) && Decides(x, s.nodes[u].pc, t)
    ensures Active(x, t) && s.nodes[t].remaining == 0 && s.nodes[t].pc.Waiting?
  {
    assert NodeOk(x, s, u);
    assert Successor(x, s.nodes[u].pc) == t;
  }

  lemma PostRootMove(x: Setting, s: State)
    requires UnlockInv(x, s) && s.rootsLeft != []
    ensures Active(x, s.rootsLeft[0])
    ensures UnlockInv(x, Put(s.(rootsLeft := s.rootsLeft[1..]), s.rootsLeft[0], Posted))
  {
    var v := s.rootsLeft[0];
    assert RootOk(x, s, v) && NodeOk(x, s, v);
    var s' := Put(s.(rootsLeft := s.rootsLeft[1..]), v, Posted);
    assert Pending(x, s, v) == {};
    forall e | IsEdge(x, e)
      ensures Delivered(x, s', e) == Delivered(x, s, e)
    {
      assert x.g.edges[e] in x.g.edges;
    }
    forall w | Active(x, w)
      ensures NodeOk(x, s', w)
    {
      assert NodeOk(x, s, w);
      assert Pending(x, s', w) == Pending(x, s, w);
      assert forall u, t | Active(x, u) :: Decides(x, s'.nodes[u].pc, t) == Decides(x, s.nodes[u].pc, t);
      assert w in s.rootsLeft && w != v ==> w in s'.rootsLeft;
    }
    forall i | 0 <= i < |s'.rootsLeft|
      ensures RootOk(x, s', s'.rootsLeft[i])
    {
      assert RootOk(x, s, s.rootsLeft[i + 1]);
    }
    assert forall u, t | Active(x, u) :: Decides(x, s'.nodes[u].pc, t) ==> Decides(x, s.nodes[u].pc, t);
  }

  lemma QuietTriggerKeepsUnlock(x: Setting, s: State, u: nat)
    requires UnlockInv(x, s) && Active(x, u) && CursorOk(x, u, s.nodes[u].pc) && s.nodes[u].pc.Trigger?
    requires s.nodes[u].pc.e < |x.g.edges| ==>
      var phase := s.nodes[u].pc.phase; phase.Flag? || phase.DecideFlag? || phase.DecideCancel? || phase.Call?
    ensures UnlockInv(x, TriggerStep(x, s, u))
  {
    hide NodeOk, SoleDecider, RootOk, QuietPc;
    var Trigger(e, phase) := s.nodes[u].pc;
    var s' := TriggerStep(x, s, u);
    if phase.Call? && s'.nodes[u].pc == s.nodes[u].pc {
      assert s'.nodes == s.nodes;
      SameNodes(x, s, s');
    } else {
      QuietTrigger(x, u, e, phase, s'.nodes[u].pc);
      QuietMove(x, s, s', u);
    }
  }

  lemma HandOnKeepsUnlock(x: Setting, s: State, u: nat)
    requires UnlockInv(x, s) && Active(x, u) && CursorOk(x, u, s.nodes[u].pc)
    requires s.nodes[u].pc.Trigger? && s.nodes[u].pc.e < |x.g.edges|
    requires s.nodes[u].pc.phase.Release? || s.nodes[u].pc.phase.Post?
    ensures UnlockInv(x, TriggerStep(x, s, u))
  {
    hide NodeOk, SoleDecider, RootOk;
    var Trigger(e, phase) := s.nodes[u].pc;
    var s' := TriggerStep(x, s, u);
    var v := Successor(x, s.nodes[u].pc);
    DeciderHasZero(x, s, u, v);
    UnlockMove(x, s, s', u, v, s'.nodes[u].pc, s'.nodes[v].pc);
  }

  lemma TriggerKeepsUnlock(x: Setting, s: State, u: nat)
    requires UnlockInv(x, s) && Active(x, u) && CursorOk(x, u, s.nodes[u].pc) && s.nodes[u].pc.Trigger?
    ensures UnlockInv(x, TriggerStep(x, s, u))
  {
    hide NodeOk, SoleDecider, RootOk, TriggerStep;
    var Trigger(e, phase) := s.nodes[u].pc;
    if e == |x.g.edges| || phase.Flag? || phase.DecideFlag? || phase.DecideCancel? || phase.Call? {
      QuietTriggerKeepsUnlock(x, s, u);
    } else if phase.Decrement? {
      DecrementMove(x, s, u);
    } else {
      HandOnKeepsUnlock(x, s, u);
    }
  }

  lemma AdvanceKeepsUnlock(x: Setting, s: State, v: nat)
    requires UnlockInv(x, s) && Active(x, v) && CursorOk(x, v, s.nodes[v].pc)
    ensures UnlockInv(x, AdvanceStep(x, s, v))
  {
    hide NodeOk, SoleDecider, RootOk, QuietPc, TriggerStep;
    if s.nodes[v].pc.Trigger? {
      TriggerKeepsUnlock(x, s, v);
    } else {
      var (s', pc) := (AdvanceStep(x, s, v), s.nodes[v].pc);
      if pc.Waiting? || pc.Done? {
        assert s'.nodes == s.nodes;
        SameNodes(x, s, s');
      } else {
        QuietBeforeTrigger(x, v, pc, s'.nodes[v].pc);
        QuietMove(x, s, s', v);
      }
    }
  }

  lemma CursorsOk(x: Setting, s: State)
    requires UnlockInv(x, s)
    ensures Cursors(x, s)
  {
    forall v | Active(x, v)
      ensures CursorOk(x, v, s.nodes[v].pc)
    {
      assert NodeOk(x, s, v);
    }
  }

  lemma StepKeepsUnlock(x: Setting, s: State, a: Action)
    requires UnlockInv(x, s)
    requires Cursors(x, s)
    ensures UnlockInv(x, Step(x, s, a))
  {
    hide NodeOk, SoleDecider, RootOk, QuietPc, AdvanceStep;
    match a
    case PostRoot =>
      if s.rootsLeft != [] { PostRootMove(x, s); }
    case Claim(v) =>
      if Active(x, v) && s.nodes[v].pc.Posted? {
        QuietBeforeTrigger(x, v, Posted, Claimed);
        QuietMove(x, s, Step(x, s, a), v);
      }
    case BodyReturns(v, o) =>
      if Step(x, s, a) != s {
        QuietBeforeTrigger(x, v, Body, StoreOutcome(o));
        QuietMove(x, s, Step(x, s, a), v);
      }
    case Advance(v) =>
      if Active(x, v) { AdvanceKeepsUnlock(x, s, v); }
    case _ =>
      SameNodes(x, s, Step(x, s, a));
  }

  lemma SameNodes(x: Setting, s: State, s': State)
    requires UnlockInv(x, s) && s'.nodes == s.nodes && s'.rootsLeft == s.rootsLeft
    ensures UnlockInv(x, s')
  {
    forall v | Active(x, v)
      ensures NodeOk(x, s', v)
    {
      assert NodeOk(x, s, v);
      assert Pending(x, s', v) == Pending(x, s, v);
    }
    forall i | 0 <= i < |s'.rootsLeft|
      ensures RootOk(x, s', s'.rootsLeft[i])
    {
      assert RootOk(x, s, s.rootsLeft[i]);
    }
  }

  // ----- the start -----

  lemma {:induction false} RootsAre(g: Graph, v: nat)
    requires v <= g.n + 1
    ensures forall w: nat :: w in Roots(g, v) <==> v <= w <= g.n && InDegree(g, w, |g.edges|) == 0
    ensures forall i, j | 0 <= i < j < |Roots(g, v)| :: Roots(g, v)[i] != Roots(g, v)[j]
    decreases g.n + 1 - v
  {
    if v <= g.n {
      RootsAre(g, v + 1);
    }
  }

  lemma InitialUnlock(x: Setting)
    requires x.Valid()
    ensures UnlockInv(x, Initial(x))
  {
    var s := Initial(x);
    RootsAre(x.g, 1);
    forall v: nat | v <= x.g.n
      ensures s.nodes[v].remaining == |Pending(x, s, v)|
    {
      InDegreeCounts(x.g, v, |x.g.edges|);
      assert Pending(x, s, v) == InEdges(x.g, v, |x.g.edges|);
    }
    forall i | 0 <= i < |s.rootsLeft|
      ensures RootOk(x, s, s.rootsLeft[i])
    {
      var v := s.rootsLeft[i];
      assert v in s.rootsLeft;
      InDegreeCounts(x.g, v, |x.g.edges|);
      forall e | IsEdge(x, e)
        ensures x.g.edges[e].to != v
      {
        assert e !in InEdges(x.g, v, |x.g.edges|);
      }
    }
  }
}
