/// A coroutine awaiting a task, end to end: the target's completion callback
/// triggers the handshake, the waiter's stop callback cancels it, and the
/// suspending thread registers first and arms last.
module TaskAwait {
  import L = TaskLifecycle
  import H = AwaitHandshake
  import opened Wrappers

  const ARM := 0
  const TRIGGER := 1
  const CANCEL := 2
  const KINDS: seq<H.Kind> := [H.Arm, H.Trigger, H.TriggerCancel]

  /// The callback the await registers on its target.
  const CALLBACK: nat := 0

  datatype State = State(target: L.State, handshake: H.State, stopped: bool)

  datatype Action =
    | OnTarget(a: L.Action)          // anything the target's own threads and other callers do
    | Register                       // the await registers its callback
    | Stop                           // the waiter's stop callback fires
    | OnHandshake(i: nat, fails: bool)

  function Initial(): State {
    State(L.Initial(), H.Initial(3), false)
  }

  predicate Registered(s: State) {
    CALLBACK in s.target.registered
  }

  /// Arm comes after registration, trigger runs as the callback, cancel as the stop callback.
  predicate MayMove(s: State, i: nat) {
    || (i == ARM && Registered(s))
    || (i == TRIGGER && CALLBACK in s.target.invoked)
    || (i == CANCEL && s.stopped && Registered(s))
  }

  function Next(s: State, a: Action): State
    requires |s.handshake.pcs| == |KINDS|
  {
    match a
    case OnTarget(b) => if b == L.AddCallback(CALLBACK) then s else s.(target := L.Next(s.target, b))
    case Register => s.(target := L.Next(s.target, L.AddCallback(CALLBACK)))
    case Stop => s.(stopped := true)
    case OnHandshake(i, fails) =>
      if MayMove(s, i) then s.(handshake := H.Step(KINDS, s.handshake, i, fails)) else s
  }

  ghost predicate Inv(s: State) {
    && L.Inv(s.target) && H.Inv(KINDS, s.handshake)
    && (!s.handshake.pcs[TRIGGER].Start? ==> CALLBACK in s.target.invoked)
    && (!s.handshake.pcs[CANCEL].Start? ==> s.stopped)
    && (s.handshake.decider == Some(H.Trigger) ==> !s.handshake.pcs[TRIGGER].Start?)
    && (s.handshake.decider == Some(H.TriggerCancel) ==> !s.handshake.pcs[CANCEL].Start?)
  }

  lemma OneArmHere()
    ensures H.OneArm(KINDS)
  {
    assert H.OnlyArm(KINDS, ARM);
  }

  predicate Effect(s: H.State, s': H.State, i: nat, kind: H.Kind) {
    && i < |s.pcs| && |s'.pcs| == |s.pcs| && s'.pcs == s.pcs[i := s'.pcs[i]]
    && (!s.pcs[i].Start? ==> !s'.pcs[i].Start?)
    && (s'.decider != s.decider ==> s'.decider == Some(kind) && !s'.pcs[i].Start?)
  }

  lemma ArmEffect(s: H.State, i: nat)
    requires i < |s.pcs|
    ensures Effect(s, H.ArmStep(s, i), i, H.Arm)
  {
  }

  lemma TriggerEffect(s: H.State, i: nat)
    requires i < |s.pcs|
    ensures Effect(s, H.TriggerStep(s, i), i, H.Trigger)
  {
  }

  lemma CancelEffect(s: H.State, i: nat, fails: bool)
    requires i < |s.pcs|
    ensures Effect(s, H.CancelStep(s, i, fails), i, H.TriggerCancel)
  {
  }

  lemma StepOf(s: H.State, i: nat, fails: bool)
    requires |s.pcs| == |KINDS|
    ensures var s' := H.Step(KINDS, s, i, fails);
      && (forall j | 0 <= j < |KINDS| && j != i :: s'.pcs[j] == s.pcs[j])
      && (forall j | 0 <= j < |KINDS| && !s.pcs[j].Start? :: !s'.pcs[j].Start?)
      && (s'.decider != s.decider ==> i < |KINDS| && s'.decider == Some(KINDS[i]) && !s'.pcs[i].Start?)
  {
    hide H.ArmStep, H.TriggerStep, H.CancelStep;
    if i < |KINDS| {
      ArmEffect(s, i);
      TriggerEffect(s, i);
      CancelEffect(s, i, fails);
    }
  }

  lemma NextKeeps(s: State, a: Action)
    requires Inv(s)
    ensures Inv(Next(s, a))
  {
    hide H.Inv, L.Inv, H.Step, L.Next;
    assert |s.handshake.pcs| == |KINDS| by { HasThree(s.handshake); }
    OneArmHere();
    match a
    case OnTarget(b) => L.NextKeeps(s.target, b); InvokedGrows(s.target, b);
    case Register =>
      L.NextKeeps(s.target, L.AddCallback(CALLBACK));
      InvokedGrows(s.target, L.AddCallback(CALLBACK));
    case Stop =>
    case OnHandshake(i, fails) =>
      H.StepKeeps(KINDS, s.handshake, i, fails);
      StepOf(s.handshake, i, fails);
  }

  lemma HasThree(s: H.State)
    requires H.Inv(KINDS, s)
    ensures |s.pcs| == |KINDS|
  {
  }

  lemma InvokedGrows(s: L.State, a: L.Action)
    ensures forall id | id in s.invoked :: id in L.Next(s, a).invoked
  {
  }

  lemma InitialKeeps()
    ensures Inv(Initial())
  {
    OneArmHere();
    H.InitialKeeps(KINDS);
    L.TerminalAtMostOnce([]);
  }

  ghost function Run(s: State, actions: seq<Action>): (r: State)
    requires Inv(s)
    ensures Inv(r)
    decreases |actions|
  {
    if actions == [] then s else NextKeeps(s, actions[0]); Run(Next(s, actions[0]), actions[1..])
  }

  /// The await registers with its target, and from then on may arm.
  lemma RegistrationTakesEffect(s: State)
    requires Inv(s)
    ensures Registered(Next(s, Register)) && MayMove(Next(s, Register), ARM)
  {
    hide H.Inv;
    assert |s.handshake.pcs| == |KINDS| by { HasThree(s.handshake); }
  }

  /// Resumed only when the target is terminal or the waiter was asked to stop, and at most once.
  lemma ResumedForAReason(s: State)
    requires Inv(s)
    ensures s.handshake.ran <= 1
    ensures s.handshake.ran == 1 ==> s.target.task.Terminal() || s.stopped
    ensures s.handshake.ran == 1 && H.IsCancelled(s.handshake.raw) ==> s.stopped
    ensures s.handshake.ran == 1 && !H.IsCancelled(s.handshake.raw) ==> s.target.task.Terminal()
  {
    L.CallbacksRunExactlyOnce(s.target);
    if s.handshake.ran == 1 {
      assert s.handshake.decider.Some?;
    }
  }

  /// Once the target has finished and every thread concerned is through, the waiter has been
  /// resumed exactly once, however registration, completion and cancellation raced.
  lemma ResumedExactlyOnce(s: State)
    requires Inv(s) && Registered(s)
    requires s.target.task.Terminal() && s.target.taken == [] && s.target.direct == []
    requires s.handshake.pcs[ARM].Returned? && s.handshake.pcs[TRIGGER].Returned?
    requires s.handshake.pcs[CANCEL].Start? || s.handshake.pcs[CANCEL].Returned?
    ensures s.handshake.ran == 1 && multiset(s.target.invoked)[CALLBACK] == 1
  {
    L.CallbacksRunExactlyOnce(s.target);
    H.ResumedExactlyOnce(KINDS, s.handshake, ARM, TRIGGER);
  }

  /// Whoever may move does get through: each of its steps, spurious failures apart, brings the
  /// handshake's callers closer to returning.
  lemma ThreadsReturn(s: State, i: nat)
    requires Inv(s) && i < |KINDS| && MayMove(s, i) && !s.handshake.pcs[i].Returned?
    ensures H.Measure(Next(s, OnHandshake(i, false)).handshake) < H.Measure(s.handshake)
  {
    hide H.Inv, H.Measure, H.Step;
    assert |s.handshake.pcs| == |KINDS| by { HasThree(s.handshake); }
    H.StepsAreBounded(KINDS, s.handshake, i);
  }

  /// Until then a thread can move: the trigger is due as soon as its callback has been taken to run.
  lemma TriggerIsDue(s: State)
    requires Inv(s) && Registered(s)
    requires s.target.task.Terminal() && s.target.taken == [] && s.target.direct == []
    ensures MayMove(s, ARM) && MayMove(s, TRIGGER)
  {
    L.CallbacksRunExactlyOnce(s.target);
    assert multiset(s.target.invoked)[CALLBACK] == 1;
  }
}
