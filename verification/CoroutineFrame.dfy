/// Who owns a coroutine frame: the invokers that run its segments one after
/// another, the handoff and publication counters between them, and who
/// destroys the frame.
///
/// Invoker 0 is the submitted invoker behind its start gate, invoker k the one
/// that the k-th suspension delivers.  FrameHandshakes joins the handshakes that
/// run the delivery of an await.  A segment's body runs on the thread of its
/// invoker.  Only a coroutine without a rescheduler can be left behind: it has
/// nobody to deliver the next invoker to.
module CoroutineFrame {

  datatype Pc =
    | Queued
    | Waiting(need: nat)      // loaded the handoff counter; spins on the publication counter
    | Ready                   // about to read the handoff counter before resuming
    | Resuming                // about to ask the frame whether it is done, and resume it
    | InBody
    | Armed                   // counted the handoff: the next invoker may be delivered from now on
    | Publishing(value: nat)  // loaded the handoff counter, about to store it as published
    | Suspended               // published; the body no longer runs
    | Comparing               // resume() has returned: about to compare the handoff counter
    | Checking                // no handoff: about to ask the frame whether it is done
    | Destroying
    | Finished

  datatype Invoker = Invoker(pc: Pc, before: nat)

  datatype State = State(
    rescheduler: bool,
    invokers: seq<Invoker>,
    handoff: nat,
    published: nat,
    owed: bool,               // a counted handoff whose resume action has not run yet
    idle: bool,               // it yielded without a rescheduler
    lost: bool,               // its resume action ran without a rescheduler
    done: bool,               // the coroutine ran to its end
    abandoned: bool,          // the start gate refused to start it
    destroyed: nat
  )

  datatype Action =
    | Start(j: nat, granted: bool)
    | Step(j: nat)
    | Await(j: nat)           // counts a handoff; the resume action will deliver
    | Yield(j: nat)           // delivers at once
    | RunToEnd(j: nat)
    | Deliver                 // the resume action runs

  function Initial(rescheduler: bool): State {
    State(rescheduler, [Invoker(Queued, 0)], 0, 0, false, false, false, false, false, 0)
  }

  function Goto(s: State, j: nat, pc: Pc): State
    requires j < |s.invokers|
  {
    s.(invokers := s.invokers[j := s.invokers[j].(pc := pc)])
  }

  function NextPc(s: State, me: Invoker): Pc {
    match me.pc
    case Waiting(need) => if s.published >= need then Ready else me.pc
    case Ready => Resuming
    case Resuming => if s.done then Comparing else InBody
    case Armed => Publishing(s.handoff)
    case Publishing(_) => Suspended
    case Suspended => Comparing
    case Comparing => if s.handoff != me.before then Finished else Checking
    case Checking => if s.done then Destroying else Finished
    case Destroying => Finished
    case _ => me.pc
  }

  /// What invoker j's thread does next, outside the body.
  function Proceed(s: State, j: nat): State
    requires j < |s.invokers|
  {
    var me := s.invokers[j];
    s.(invokers := s.invokers[j := Invoker(NextPc(s, me), if me.pc.Ready? then s.handoff else me.before)],
       published := if me.pc.Publishing? then me.pc.value else s.published,
       destroyed := if me.pc.Destroying? then s.destroyed + 1 else s.destroyed)
  }

  function Next(s: State, a: Action): State {
    match a
    case Start(j, granted) =>
      if j >= |s.invokers| || !s.invokers[j].pc.Queued? then s
      else
        var refused := j == 0 && !granted;
        Goto(s.(abandoned := s.abandoned || refused), j,
             if refused then Destroying else if j == 0 then Ready else Waiting(s.handoff))
    case Step(j) => if j < |s.invokers| then Proceed(s, j) else s
    case Await(j) => if InBodyAt(s, j) then Goto(s.(handoff := s.handoff + 1, owed := true), j, Armed) else s
    case Yield(j) =>
      if !InBodyAt(s, j) then s
      else if s.rescheduler then Delivered(Goto(s.(handoff := s.handoff + 1), j, Armed))
      else Goto(s.(idle := true), j, Comparing)
    case RunToEnd(j) => if InBodyAt(s, j) then Goto(s.(done := true), j, Comparing) else s
    case Deliver =>
      if !s.owed then s
      else if s.rescheduler then Delivered(s.(owed := false))
      else s.(owed := false, lost := true)
  }

  predicate InBodyAt(s: State, j: nat) {
    j < |s.invokers| && s.invokers[j].pc.InBody?
  }

  function Delivered(s: State): State {
    s.(invokers := s.invokers + [Invoker(Queued, 0)])
  }

  /// A suspension that nobody will resume.
  predicate Stranded(s: State) {
    s.idle || s.lost
  }

  // ----- what every step keeps -----

  predicate TouchesFrame(pc: Pc) {
    pc.Resuming? || pc.InBody? || pc.Armed? || pc.Publishing? || pc.Checking? || pc.Destroying?
  }

  predicate BeforeResuming(pc: Pc) {
    pc.Queued? || pc.Waiting? || pc.Ready?
  }

  /// Invoker j after its segment handed off: handoff number j + 1.
  predicate HandedOff(s: State, j: nat, i: Invoker) {
    match i.pc
    case Armed => j + 1 == s.handoff && s.published == j
    case Publishing(value) => j + 1 == s.handoff == value && s.published == j
    case Suspended => true
    case Comparing => true
    case Finished => true
    case _ => false
  }

  /// The invoker of the current segment, which has not handed off.
  predicate Current(s: State, i: Invoker) {
    match i.pc
    case Queued => true
    case Waiting(need) => need == s.handoff
    case Ready => s.published == s.handoff
    case Resuming => s.published == s.handoff
    case InBody => s.published == s.handoff
    case Comparing => s.published == s.handoff && (s.done || s.idle)
    case Checking => s.published == s.handoff && (s.done || s.idle)
    case Destroying => s.published == s.handoff && (s.done || s.abandoned)
    case Finished => s.published == s.handoff && (s.done || s.abandoned || s.idle)
    case _ => false
  }

  predicate InvokerOk(s: State, j: nat, i: Invoker) {
    && i.before == (if BeforeResuming(i.pc) then 0 else j)
    && (if j < s.handoff then HandedOff(s, j, i) else Current(s, i))
  }

  /// The segment that may still be under way when the last one handed off is published late.
  predicate LatePublisher(s: State) {
    s.handoff > 0 && s.handoff <= |s.invokers| &&
    (s.invokers[s.handoff - 1].pc.Armed? || s.invokers[s.handoff - 1].pc.Publishing?)
  }

  predicate EndOk(s: State)
    requires |s.invokers| > 0
  {
    var n := |s.invokers|;
    var pc := s.invokers[n - 1].pc;
    && (s.done || s.abandoned ==> !s.owed && !s.lost && !s.idle && (pc.Comparing? || pc.Checking? || pc.Destroying? || pc.Finished?))
    && (s.abandoned ==> n == 1 && !s.done && (pc.Destroying? || pc.Finished?))
    && (Stranded(s) ==> !s.rescheduler && !s.owed)
    && (s.idle ==> !s.lost && (pc.Comparing? || pc.Checking? || pc.Finished?))
    && s.destroyed == if (s.done || s.abandoned) && pc.Finished? then 1 else 0
  }

  ghost predicate Inv(s: State) {
    && |s.invokers| > 0
    && s.handoff == |s.invokers| - (if s.owed || s.lost then 0 else 1)
    && (forall j | 0 <= j < |s.invokers| :: InvokerOk(s, j, s.invokers[j]))
    && s.published == s.handoff - (if LatePublisher(s) then 1 else 0)
    && EndOk(s)
  }

  lemma StartKeeps(s: State, j: nat, granted: bool)
    requires Inv(s)
    ensures Inv(Next(s, Start(j, granted)))
  {
    if j < |s.invokers| { assert InvokerOk(s, j, s.invokers[j]); }
  }

  predicate Late(pc: Pc) {
    pc.Armed? || pc.Publishing?
  }

  /// A move of one invoker that publishes nothing.
  lemma OwnMoveKeeps(s: State, s': State, j: nat)
    requires Inv(s) && j < |s.invokers| && |s'.invokers| == |s.invokers|
    requires s' == s.(invokers := s.invokers[j := s'.invokers[j]], destroyed := s'.destroyed)
    requires InvokerOk(s, j, s'.invokers[j]) && EndOk(s')
    requires Late(s.invokers[j].pc) == Late(s'.invokers[j].pc)
    ensures Inv(s')
  {
    hide EndOk;
  }

  lemma PublishKeeps(s: State, j: nat)
    requires Inv(s) && j < |s.invokers| && s.invokers[j].pc.Publishing?
    ensures Inv(Proceed(s, j))
  {
    var s' := Proceed(s, j);
    assert InvokerOk(s, j, s.invokers[j]);
    assert EndOk(s') by { EndStays(s, j); }
    assert !LatePublisher(s') && s'.published == s'.handoff == j + 1;
    hide EndOk, NextPc;
    assert s' == s.(published := s.handoff, invokers := s.invokers[j := s.invokers[j].(pc := Suspended)]);
    hide Proceed;
    forall i | 0 <= i < |s'.invokers|
      ensures InvokerOk(s', i, s'.invokers[i])
    {
      assert InvokerOk(s, i, s.invokers[i]);
    }
  }

  lemma EndStays(s: State, j: nat)
    requires |s.invokers| > 0 && EndOk(s) && j < |s.invokers| && s.invokers[j].pc.Publishing?
    ensures EndOk(Proceed(s, j))
  {
  }

  lemma ProceedKeeps(s: State, j: nat)
    requires Inv(s) && j < |s.invokers|
    ensures Inv(Proceed(s, j))
  {
    hide Proceed, EndOk;
    assert InvokerOk(s, j, s.invokers[j]);
    if s.invokers[j].pc.Publishing? {
      PublishKeeps(s, j);
    } else {
      OwnProceed(s, j);
      OwnMoveKeeps(s, Proceed(s, j), j);
    }
  }

  lemma OwnProceed(s: State, j: nat)
    requires |s.invokers| > 0 && EndOk(s) && j < |s.invokers| && InvokerOk(s, j, s.invokers[j])
    requires s.handoff == |s.invokers| - (if s.owed || s.lost then 0 else 1) && s.published <= s.handoff
    requires !s.invokers[j].pc.Publishing?
    ensures var s' := Proceed(s, j);
      && s' == s.(invokers := s.invokers[j := s'.invokers[j]], destroyed := s'.destroyed)
      && InvokerOk(s, j, s'.invokers[j]) && EndOk(s')
      && Late(s.invokers[j].pc) == Late(s'.invokers[j].pc)
  {
  }

  lemma AwaitKeeps(s: State, j: nat)
    requires Inv(s)
    ensures Inv(Next(s, Await(j)))
  {
    if j < |s.invokers| { assert InvokerOk(s, j, s.invokers[j]); }
  }

  lemma YieldKeeps(s: State, j: nat)
    requires Inv(s)
    ensures Inv(Next(s, Yield(j)))
  {
    if j < |s.invokers| { assert InvokerOk(s, j, s.invokers[j]); }
  }

  lemma LeaveKeeps(s: State, j: nat)
    requires Inv(s)
    ensures Inv(Next(s, RunToEnd(j)))
  {
    if j < |s.invokers| { assert InvokerOk(s, j, s.invokers[j]); }
  }

  lemma DeliverKeeps(s: State)
    requires Inv(s)
    ensures Inv(Next(s, Deliver))
  {
  }

  lemma NextKeeps(s: State, a: Action)
    requires Inv(s)
    ensures Inv(Next(s, a))
  {
    hide Inv, Proceed;
    match a
    case Start(j, granted) => StartKeeps(s, j, granted);
    case Step(j) => if j < |s.invokers| { ProceedKeeps(s, j); }
    case Await(j) => AwaitKeeps(s, j);
    case Yield(j) => YieldKeeps(s, j);
    case RunToEnd(j) => LeaveKeeps(s, j);
    case Deliver => DeliverKeeps(s);
  }

  lemma InitialKeeps(rescheduler: bool)
    ensures Inv(Initial(rescheduler))
  {
  }

  /// Any interleaving of the invokers' threads and the deliveries.
  ghost function Run(s: State, actions: seq<Action>): (r: State)
    requires Inv(s)
    ensures Inv(r)
    decreases |actions|
  {
    if actions == [] then s else NextKeeps(s, actions[0]); Run(Next(s, actions[0]), actions[1..])
  }

  // ----- ownership -----

  /// At every moment at most one invoker is inside the frame, and only while the frame exists.
  lemma OneOwner(s: State, i: nat, j: nat)
    requires Inv(s) && i < |s.invokers| && j < |s.invokers|
    requires TouchesFrame(s.invokers[i].pc) && TouchesFrame(s.invokers[j].pc)
    ensures i == j && s.destroyed == 0
  {
    assert InvokerOk(s, i, s.invokers[i]) && InvokerOk(s, j, s.invokers[j]);
  }

  /// A segment runs only after every earlier suspension has been published.
  lemma SegmentsDoNotOverlap(s: State, j: nat)
    requires Inv(s) && j < |s.invokers| && s.invokers[j].pc.InBody?
    ensures s.published == s.handoff == j == |s.invokers| - 1
    ensures forall i | 0 <= i < j :: !TouchesFrame(s.invokers[i].pc)
  {
    assert InvokerOk(s, j, s.invokers[j]);
    forall i | 0 <= i < j
      ensures !TouchesFrame(s.invokers[i].pc)
    {
      assert InvokerOk(s, i, s.invokers[i]);
    }
  }

  predicate LetGo(s: State, j: nat) {
    j < |s.invokers| && j < s.handoff && !TouchesFrame(s.invokers[j].pc)
  }

  /// An invoker that handed the frame off and left its body never touches the frame again.
  lemma {:induction false} NeverTouchesAgain(s: State, actions: seq<Action>, j: nat)
    requires Inv(s) && LetGo(s, j)
    ensures LetGo(Run(s, actions), j)
    decreases |actions|
  {
    if actions != [] {
      hide Next, InvokerOk, EndOk;
      NextKeeps(s, actions[0]);
      NextLetsGo(s, actions[0], j);
      NeverTouchesAgain(Next(s, actions[0]), actions[1..], j);
    }
  }

  lemma NextLetsGo(s: State, a: Action, j: nat)
    requires LetGo(s, j) && InvokerOk(s, j, s.invokers[j])
    ensures LetGo(Next(s, a), j)
  {
    HandedOffLetGo(s, j);
    hide InvokerOk, Proceed;
    match a
    case Step(i) => if i < |s.invokers| { ProceedLetsGo(s, i, j); }
    case _ =>
  }

  lemma HandedOffLetGo(s: State, j: nat)
    requires LetGo(s, j) && InvokerOk(s, j, s.invokers[j])
    ensures s.invokers[j].pc.Suspended? || s.invokers[j].pc.Comparing? || s.invokers[j].pc.Finished?
  {
  }

  lemma ProceedLetsGo(s: State, i: nat, j: nat)
    requires i < |s.invokers| && LetGo(s, j) && !BeforeResuming(s.invokers[j].pc) && s.invokers[j].before == j
    ensures LetGo(Proceed(s, i), j)
  {
  }

  /// The frame is destroyed at most once.
  lemma DestroyedAtMostOnce(rescheduler: bool, actions: seq<Action>)
    ensures Inv(Initial(rescheduler)) && Run(Initial(rescheduler), actions).destroyed <= 1
  {
    InitialKeeps(rescheduler);
  }

  predicate AllFinished(s: State) {
    !s.owed && forall j | 0 <= j < |s.invokers| :: s.invokers[j].pc.Finished?
  }

  /// When every invoker is through, the frame has been destroyed, once, unless its last suspension
  /// had nobody to be resumed by.
  lemma DestroyedUnlessStranded(s: State)
    requires Inv(s) && AllFinished(s)
    ensures s.destroyed == if Stranded(s) then 0 else 1
    ensures !Stranded(s) <==> s.done || s.abandoned
  {
    assert InvokerOk(s, |s.invokers| - 1, s.invokers[|s.invokers| - 1]);
  }

  /// A spinning invoker waits only for the previous segment, which is about to publish.
  lemma SpinnerIsReleased(s: State, j: nat)
    requires Inv(s) && j < |s.invokers| && s.invokers[j].pc.Waiting? && s.published < s.invokers[j].pc.need
    ensures j > 0 && (s.invokers[j - 1].pc.Armed? || s.invokers[j - 1].pc.Publishing?)
  {
    assert InvokerOk(s, j, s.invokers[j]);
  }

  // ----- the rescheduler decides -----

  lemma {:induction false} RunKeepsRescheduler(s: State, actions: seq<Action>)
    requires Inv(s)
    ensures Run(s, actions).rescheduler == s.rescheduler
    decreases |actions|
  {
    if actions != [] {
      hide Inv, Next;
      NextKeeps(s, actions[0]);
      NextKeepsRescheduler(s, actions[0]);
      RunKeepsRescheduler(Next(s, actions[0]), actions[1..]);
    }
  }

  lemma NextKeepsRescheduler(s: State, a: Action)
    ensures Next(s, a).rescheduler == s.rescheduler
  {
  }

  const YIELDS: seq<Action> := [Start(0, true), Step(0), Step(0), Yield(0), Step(0), Step(0)]

  const AWAITS: seq<Action> :=
    [Start(0, true), Step(0), Step(0), Await(0), Deliver, Step(0), Step(0), Step(0), Step(0)]

  ghost predicate LeftBehind(s: State) {
    Inv(s) && AllFinished(s) && s.destroyed == 0
  }

  /// Without a rescheduler one suspension, of either kind, leaves the frame behind.
  lemma SuspensionStrands()
    ensures Inv(Initial(false))
    ensures LeftBehind(Run(Initial(false), YIELDS)) && LeftBehind(Run(Initial(false), AWAITS))
  {
    hide Inv;
    InitialKeeps(false);
    YieldStrands();
    AwaitStrands();
    RunsTo(Initial(false), YIELDS, State(false, [Invoker(Finished, 0)], 0, 0, false, true, false, false, false, 0));
    RunsTo(Initial(false), AWAITS, State(false, [Invoker(Finished, 0)], 1, 1, false, false, true, false, false, 0));
  }

  lemma YieldStrands()
    ensures Apply(Initial(false), YIELDS) == State(false, [Invoker(Finished, 0)], 0, 0, false, true, false, false, false, 0)
  {
  }

  lemma AwaitStrands()
    ensures Apply(Initial(false), AWAITS) == State(false, [Invoker(Finished, 0)], 1, 1, false, false, true, false, false, 0)
  {
  }

  function Apply(s: State, actions: seq<Action>): State
    decreases |actions|
  {
    if actions == [] then s else Apply(Next(s, actions[0]), actions[1..])
  }

  lemma {:induction false} RunsTo(s: State, actions: seq<Action>, r: State)
    requires Inv(s) && Apply(s, actions) == r
    ensures Run(s, actions) == r
    decreases |actions|
  {
    hide Inv, Next;
    if actions != [] {
      NextKeeps(s, actions[0]);
      RunsTo(Next(s, actions[0]), actions[1..], r);
    }
  }

  ghost predicate AlwaysDestroyed(rescheduler: bool)
    requires Inv(Initial(rescheduler))
  {
    forall actions: seq<Action> :: AllFinished(Run(Initial(rescheduler), actions)) ==>
      Run(Initial(rescheduler), actions).destroyed == 1
  }

  /// Every finished run has destroyed the frame exactly once if and only if the coroutine was
  /// given a rescheduler.
  lemma DestroyedExactlyWithRescheduler(rescheduler: bool)
    ensures Inv(Initial(rescheduler))
    ensures AlwaysDestroyed(rescheduler) <==> rescheduler
  {
    hide Inv, InvokerOk, Next;
    InitialKeeps(rescheduler);
    if rescheduler {
      forall actions: seq<Action> | AllFinished(Run(Initial(true), actions))
        ensures Run(Initial(true), actions).destroyed == 1
      {
        var s := Run(Initial(true), actions);
        RunKeepsRescheduler(Initial(true), actions);
        DestroyedUnlessStranded(s);
        assert !Stranded(s) by { StrandedHasNone(s); }
      }
    } else {
      SuspensionStrands();
    }
  }

  lemma StrandedHasNone(s: State)
    requires Inv(s)
    ensures Stranded(s) ==> !s.rescheduler
  {
  }

  /// What the body may do next takes effect: an await counts a handoff and owes its delivery, a yield
  /// with a rescheduler delivers at once, the end is the end; and a due delivery happens.
  lemma BodyMoves(s: State, j: nat)
    requires Inv(s) && InBodyAt(s, j)
    ensures Next(s, Await(j)).handoff == s.handoff + 1 && Next(s, Await(j)).owed
    ensures s.rescheduler ==> Next(s, Yield(j)).handoff == s.handoff + 1 && |Next(s, Yield(j)).invokers| == |s.invokers| + 1
    ensures Next(s, RunToEnd(j)).done
    ensures s.rescheduler ==> |Next(Next(s, Await(j)), Deliver).invokers| == |s.invokers| + 1
  {
  }

  // ----- getting there -----

  function Left(pc: Pc): nat {
    match pc
    case Queued => 12
    case Waiting(_) => 11
    case Ready => 10
    case Resuming => 9
    case InBody => 8
    case Armed => 7
    case Publishing(_) => 6
    case Suspended => 5
    case Comparing => 4
    case Checking => 3
    case Destroying => 2
    case Finished => 0
  }

  function Sum(invokers: seq<Invoker>): nat {
    if invokers == [] then 0 else Sum(invokers[..|invokers| - 1]) + Left(invokers[|invokers| - 1].pc)
  }

  lemma {:induction false} SumPut(invokers: seq<Invoker>, j: nat, i: Invoker)
    requires j < |invokers|
    ensures Sum(invokers[j := i]) == Sum(invokers) + Left(i.pc) - Left(invokers[j].pc)
  {
    hide Left;
    var front := invokers[..|invokers| - 1];
    if j == |invokers| - 1 {
      assert invokers[j := i][..j] == front;
    } else {
      assert invokers[j := i][..|invokers| - 1] == front[j := i];
      SumPut(front, j, i);
    }
  }

  /// The steps left until the next suspension or the end.
  function Measure(s: State): nat {
    Sum(s.invokers) + if s.owed then 13 else 0
  }

  lemma ProceedLowers(s: State, j: nat)
    requires j < |s.invokers| && Proceed(s, j) != s
    ensures Measure(Proceed(s, j)) < Measure(s)
  {
    hide Sum;
    var s' := Proceed(s, j);
    ProceedMoves(s, j);
    hide Proceed, Left;
    SumPut(s.invokers, j, s'.invokers[j]);
  }

  lemma ProceedMoves(s: State, j: nat)
    requires j < |s.invokers| && Proceed(s, j) != s
    ensures var s' := Proceed(s, j);
      && s'.owed == s.owed && s'.invokers == s.invokers[j := s'.invokers[j]]
      && Left(s'.invokers[j].pc) < Left(s.invokers[j].pc)
  {
  }

  lemma DeliveredSum(s: State)
    ensures Sum(Delivered(s).invokers) == Sum(s.invokers) + 12
  {
    assert Delivered(s).invokers[..|s.invokers|] == s.invokers;
  }

  /// Every step that changes anything brings all invokers closer to their end; a suspension adds
  /// at most one more invoker's way.
  lemma StepsAreBounded(s: State, a: Action)
    requires Next(s, a) != s
    ensures Measure(Next(s, a)) < Measure(s) + if a.Await? || a.Yield? then 13 else 0
  {
    hide Proceed, Sum;
    match a
    case Start(j, granted) => SumPut(s.invokers, j, Next(s, a).invokers[j]);
    case Step(j) => ProceedLowers(s, j);
    case Await(j) => SumPut(s.invokers, j, s.invokers[j].(pc := Armed));
    case Yield(j) =>
      SumPut(s.invokers, j, s.invokers[j].(pc := if s.rescheduler then Armed else Comparing));
      DeliveredSum(Goto(s.(handoff := s.handoff + 1), j, Armed));
    case RunToEnd(j) => SumPut(s.invokers, j, s.invokers[j].(pc := Comparing));
    case Deliver => DeliveredSum(s.(owed := false));
  }

  /// Until every invoker is through, a resume action is due, or some invoker can move: start,
  /// take a step, or run its body on.
  lemma SomebodyMoves(s: State) returns (j: nat)
    requires Inv(s) && !AllFinished(s) && !s.owed
    ensures j < |s.invokers| && (InBodyAt(s, j) || Next(s, Start(j, true)) != s || Next(s, Step(j)) != s)
  {
    var i :| 0 <= i < |s.invokers| && !s.invokers[i].pc.Finished?;
    assert InvokerOk(s, i, s.invokers[i]);
    j := if LatePublisher(s) then s.handoff - 1 else i;
  }

  predicate Over(s: State) {
    s.done || s.abandoned
  }

  /// A coroutine that is over neither suspends nor is delivered any more.
  lemma OverStaysOver(s: State, a: Action)
    requires Inv(s) && Over(s) && Next(s, a) != s
    ensures Inv(Next(s, a)) && Over(Next(s, a))
    ensures Measure(Next(s, a)) < Measure(s)
  {
    NextKeeps(s, a);
    StepsAreBounded(s, a);
    forall j: nat
      ensures !InBodyAt(s, j)
    {
      NobodyInBody(s, j);
    }
  }

  lemma NobodyInBody(s: State, j: nat)
    requires Inv(s) && Over(s)
    ensures !InBodyAt(s, j)
  {
    if j < |s.invokers| { assert InvokerOk(s, j, s.invokers[j]); }
  }

  ghost predicate EachMoves(s: State, actions: seq<Action>)
    decreases |actions|
  {
    actions == [] || (Next(s, actions[0]) != s && EachMoves(Next(s, actions[0]), actions[1..]))
  }

  /// After the coroutine's end at most Measure(s) steps change anything, and when none can, the
  /// frame has been destroyed exactly once.
  lemma {:induction false} EndsInDestruction(s: State, actions: seq<Action>)
    requires Inv(s) && Over(s) && EachMoves(s, actions)
    ensures |actions| <= Measure(s)
    ensures var r := Run(s, actions);
      r.destroyed == 1 || exists j: nat :: Next(r, Start(j, true)) != r || Next(r, Step(j)) != r
    decreases |actions|
  {
    hide Next, Measure, InvokerOk;
    if actions != [] {
      OverStaysOver(s, actions[0]);
      EndsInDestruction(Next(s, actions[0]), actions[1..]);
    } else if AllFinished(s) {
      DestroyedUnlessStranded(s);
    } else {
      var j := SomebodyMoves(s);
      NobodyInBody(s, j);
    }
  }
}
