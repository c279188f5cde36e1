/// A coroutine frame together with the handshakes of its awaits: each await has
/// its own handshake, and running that handshake's action is the delivery of
/// the next invoker.
module FrameHandshakes {
  import F = CoroutineFrame
  import H = AwaitHandshake

  datatype Await = Await(kinds: seq<H.Kind>, shake: H.State)

  datatype State = State(frame: F.State, awaits: seq<Await>)

  /// Every step of the frame but Await and Deliver; an await with the callers its handshake will
  /// have; and one step of caller i of handshake k.
  datatype Action =
    | Frame(a: F.Action)
    | Suspend(j: nat, kinds: seq<H.Kind>)
    | Caller(k: nat, i: nat, fails: bool)

  function Initial(rescheduler: bool): State {
    State(F.Initial(rescheduler), [])
  }

  /// The arm call and at least one trigger.
  ghost predicate Callers(kinds: seq<H.Kind>) {
    H.OneArm(kinds) && exists t :: 0 <= t < |kinds| && !kinds[t].Arm?
  }

  predicate RunsAction(w: Await, i: nat) {
    i < |w.shake.pcs| && i < |w.kinds| && w.shake.pcs[i].Act?
  }

  ghost function Next(s: State, a: Action): State
    requires forall k | 0 <= k < |s.awaits| :: |s.awaits[k].shake.pcs| == |s.awaits[k].kinds|
  {
    match a
    case Frame(a) => if a.Await? || a.Deliver? then s else s.(frame := F.Next(s.frame, a))
    case Suspend(j, kinds) =>
      if F.InBodyAt(s.frame, j) && Callers(kinds)
      then State(F.Next(s.frame, F.Await(j)), s.awaits + [Await(kinds, H.Initial(|kinds|))])
      else s
    case Caller(k, i, fails) =>
      if k >= |s.awaits| then s
      else
        var w := s.awaits[k];
        State(if RunsAction(w, i) then F.Next(s.frame, F.Deliver) else s.frame,
              s.awaits[k := w.(shake := H.Step(w.kinds, w.shake, i, fails))])
  }

  ghost predicate AwaitOk(w: Await) {
    H.Inv(w.kinds, w.shake) && Callers(w.kinds)
  }

  /// A handoff is owed exactly while the last await's action has not run; all earlier ones have.
  ghost predicate Inv(s: State) {
    && F.Inv(s.frame)
    && (forall k | 0 <= k < |s.awaits| :: AwaitOk(s.awaits[k]))
    && (s.frame.owed ==> s.awaits != [])
    && forall k | 0 <= k < |s.awaits| ::
         s.awaits[k].shake.ran == if s.frame.owed && k == |s.awaits| - 1 then 0 else 1
  }

  lemma FrameKeepsOwed(f: F.State, a: F.Action)
    ensures !a.Await? && !a.Deliver? ==> F.Next(f, a).owed == f.owed
  {
  }

  lemma BodyOwesNothing(f: F.State, j: nat)
    requires F.Inv(f) && F.InBodyAt(f, j)
    ensures !f.owed
  {
    assert F.InvokerOk(f, j, f.invokers[j]);
  }

  /// One step of a handshake runs the action exactly when its caller is about to.
  lemma RunningCounts(w: Await, i: nat, fails: bool)
    requires AwaitOk(w)
    ensures H.Step(w.kinds, w.shake, i, fails).ran == w.shake.ran + if RunsAction(w, i) then 1 else 0
    ensures RunsAction(w, i) ==> w.shake.ran == 0
  {
  }

  /// The action that runs always finds its handoff owed: no second delivery, none out of turn.
  lemma DeliveredInTurn(s: State, k: nat, i: nat)
    requires Inv(s) && k < |s.awaits| && RunsAction(s.awaits[k], i)
    ensures s.frame.owed && k == |s.awaits| - 1
  {
    RunningCounts(s.awaits[k], i, false);
  }

  /// What every step keeps.
  lemma NextKeeps(s: State, a: Action)
    requires Inv(s)
    ensures Inv(Next(s, a))
  {
    hide F.Inv, F.Proceed, H.Inv, H.Step, H.OneArm, RunsAction;
    match a
    case Frame(a) =>
      F.NextKeeps(s.frame, a);
      FrameKeepsOwed(s.frame, a);
    case Suspend(j, kinds) =>
      if F.InBodyAt(s.frame, j) && Callers(kinds) {
        F.NextKeeps(s.frame, F.Await(j));
        BodyOwesNothing(s.frame, j);
        H.InitialKeeps(kinds);
      }
    case Caller(k, i, fails) =>
      if k < |s.awaits| {
        var w := s.awaits[k];
        F.NextKeeps(s.frame, F.Deliver);
        H.StepKeeps(w.kinds, w.shake, i, fails);
        RunningCounts(w, i, fails);
      }
  }

  lemma InitialKeeps(rescheduler: bool)
    ensures Inv(Initial(rescheduler))
  {
    F.InitialKeeps(rescheduler);
  }

  /// Any interleaving of the invokers' threads and all the handshakes' callers.
  ghost function Run(s: State, actions: seq<Action>): (r: State)
    requires Inv(s)
    ensures Inv(r)
    decreases |actions|
  {
    if actions == [] then s else NextKeeps(s, actions[0]); Run(Next(s, actions[0]), actions[1..])
  }

  /// An await in the body counts its handoff and starts a handshake of its own.
  lemma SuspendStarts(s: State, j: nat, kinds: seq<H.Kind>)
    requires Inv(s) && F.InBodyAt(s.frame, j) && Callers(kinds)
    ensures var s' := Next(s, Suspend(j, kinds));
      s'.frame.owed && s'.frame.handoff == s.frame.handoff + 1 && s'.awaits == s.awaits + [Await(kinds, H.Initial(|kinds|))]
  {
    hide F.Inv, H.Inv;
    F.BodyMoves(s.frame, j);
  }

  /// Callers get through: each step of one, spurious failures apart, brings its handshake's callers
  /// closer to returning.
  lemma CallersReturn(s: State, k: nat, i: nat)
    requires Inv(s) && k < |s.awaits| && i < |s.awaits[k].kinds| && i < |s.awaits[k].shake.pcs|
    requires !s.awaits[k].shake.pcs[i].Returned?
    ensures var s' := Next(s, Caller(k, i, false));
      |s'.awaits| == |s.awaits| && H.Measure(s'.awaits[k].shake) < H.Measure(s.awaits[k].shake)
  {
    hide H.Measure, H.Step, F.Inv, F.Next;
    var w := s.awaits[k];
    assert AwaitOk(w);
    H.StepsAreBounded(w.kinds, w.shake, i);
  }

  predicate Returned(w: Await) {
    forall i | 0 <= i < |w.shake.pcs| :: w.shake.pcs[i].Returned?
  }

  /// Once every caller of the handshakes has returned, every await has delivered exactly once and
  /// no handoff is owed.
  lemma EveryAwaitIsResumed(s: State)
    requires Inv(s) && forall k | 0 <= k < |s.awaits| :: Returned(s.awaits[k])
    ensures !s.frame.owed
    ensures forall k | 0 <= k < |s.awaits| :: s.awaits[k].shake.ran == 1
  {
    if s.frame.owed {
      var w := s.awaits[|s.awaits| - 1];
      var a :| 0 <= a < |w.kinds| && H.OnlyArm(w.kinds, a);
      var t :| 0 <= t < |w.kinds| && !w.kinds[t].Arm?;
      H.ResumedExactlyOnce(w.kinds, w.shake, a, t);
      assert false;
    }
  }

  /// When nothing can move any more - all callers have returned, all invokers are through - the
  /// frame of a coroutine with a rescheduler has been destroyed exactly once.
  lemma EverythingReturned(s: State)
    requires Inv(s) && s.frame.rescheduler
    requires forall k | 0 <= k < |s.awaits| :: Returned(s.awaits[k])
    requires forall j | 0 <= j < |s.frame.invokers| :: s.frame.invokers[j].pc.Finished?
    ensures s.frame.destroyed == 1 && F.Over(s.frame)
  {
    hide H.Inv;
    EveryAwaitIsResumed(s);
    F.DestroyedUnlessStranded(s.frame);
    F.StrandedHasNone(s.frame);
  }
}
