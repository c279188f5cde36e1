/// The handshake between a suspending coroutine (arm) and whatever resumes it
/// (trigger, trigger_cancel): any number of callers, one atomic access a step.
module AwaitHandshake {
  import opened Wrappers

  type Raw = bv8

  const INIT: Raw := 0
  const TRIGGERED: Raw := 1
  const ARMED: Raw := 2
  const RESOLVED: Raw := 3
  const CANCELLED: Raw := 0x80

  function StateOf(raw: Raw): Raw {
    raw & 0x0F
  }

  predicate IsCancelled(raw: Raw) {
    raw & CANCELLED != 0
  }

  predicate IsResolved(raw: Raw) {
    StateOf(raw) == RESOLVED
  }

  datatype Kind = Arm | Trigger | TriggerCancel

  datatype Pc =
    | Start
    | Second(expected: Raw)   // the first exchange failed with this value
    | Retry(current: Raw)     // trigger_cancel's loop
    | Act                     // about to run the resume action
    | Returned

  /// The callers, the atomic byte, and how often the resume action ran.  The last two fields record
  /// which kind of caller made the deciding move and which caller resolved the handshake.
  datatype State = State(raw: Raw, pcs: seq<Pc>, ran: nat, decider: Option<Kind>, resolver: Option<nat>)

  predicate OneArm(kinds: seq<Kind>) {
    exists a :: 0 <= a < |kinds| && OnlyArm(kinds, a)
  }

  predicate OnlyArm(kinds: seq<Kind>, a: nat) {
    a < |kinds| && forall i | 0 <= i < |kinds| :: kinds[i].Arm? <==> i == a
  }

  function Initial(n: nat): State {
    State(INIT, seq(n, _ => Start), 0, None, None)
  }

  function Goto(s: State, i: nat, pc: Pc): State
    requires i < |s.pcs|
  {
    s.(pcs := s.pcs[i := pc])
  }

  /// A trigger's or a cancel's move from Init, or from Armed, decides; the one from Armed also resolves.
  function TriggerStep(s: State, i: nat): State
    requires i < |s.pcs|
  {
    match s.pcs[i]
    case Start =>
      if s.raw == INIT then Goto(s.(raw := TRIGGERED, decider := Some(Trigger)), i, Returned)
      else if StateOf(s.raw) == ARMED then Goto(s, i, Second(s.raw))
      else Goto(s, i, Returned)
    case Second(expected) =>
      if s.raw == expected
      then Goto(s.(raw := RESOLVED | (expected & CANCELLED), decider := Some(Trigger), resolver := Some(i)), i, Act)
      else Goto(s, i, Returned)
    case _ => s
  }

  /// A weak exchange may fail although the value is the expected one.
  function CancelStep(s: State, i: nat, fails: bool): State
    requires i < |s.pcs|
  {
    match s.pcs[i]
    case Start => Goto(s, i, Retry(s.raw))
    case Retry(current) =>
      if StateOf(current) == INIT then
        if s.raw == current && !fails
        then Goto(s.(raw := TRIGGERED | CANCELLED, decider := Some(TriggerCancel)), i, Returned)
        else Goto(s, i, Retry(s.raw))
      else if StateOf(current) == ARMED then
        if s.raw == current && !fails
        then Goto(s.(raw := RESOLVED | CANCELLED, decider := Some(TriggerCancel), resolver := Some(i)), i, Act)
        else Goto(s, i, Retry(s.raw))
      else Goto(s, i, Returned)
    case _ => s
  }

  function ArmStep(s: State, i: nat): State
    requires i < |s.pcs|
  {
    match s.pcs[i]
    case Start =>
      if s.raw == INIT then Goto(s.(raw := ARMED), i, Returned)
      else if StateOf(s.raw) == TRIGGERED then Goto(s, i, Second(s.raw))
      else Goto(s, i, Returned)
    case Second(expected) =>
      if s.raw == expected
      then Goto(s.(raw := RESOLVED | (expected & CANCELLED), resolver := Some(i)), i, Act)
      else Goto(s, i, Returned)
    case _ => s
  }

  /// One step of caller i.
  function Step(kinds: seq<Kind>, s: State, i: nat, fails: bool): (r: State)
    requires |s.pcs| == |kinds|
    ensures |r.pcs| == |kinds|
  {
    if i >= |kinds| then s
    else if s.pcs[i].Act? then Goto(s.(ran := s.ran + 1), i, Returned)
    else
      match kinds[i]
      case Arm => ArmStep(s, i)
      case Trigger => TriggerStep(s, i)
      case TriggerCancel => CancelStep(s, i, fails)
  }

  // ----- what every step keeps -----

  predicate LegalRaw(raw: Raw) {
    raw == INIT || raw == TRIGGERED || raw == TRIGGERED | CANCELLED || raw == ARMED
    || raw == RESOLVED || raw == RESOLVED | CANCELLED
  }

  /// The pcs of caller i that fit the byte.
  predicate CallerOk(kind: Kind, pc: Pc, raw: Raw) {
    match kind
    case Arm =>
      && !pc.Retry?
      && (pc.Second? ==> pc.expected == raw && StateOf(raw) == TRIGGERED)
      && (pc.Start? ==> raw == INIT || StateOf(raw) == TRIGGERED)
      && (pc.Act? || pc.Returned? ==> StateOf(raw) == ARMED || IsResolved(raw))
      && (pc.Act? ==> IsResolved(raw))
    case Trigger =>
      && !pc.Retry?
      && (pc.Second? ==> pc.expected == ARMED && (raw == ARMED || IsResolved(raw)))
      && (pc.Act? ==> IsResolved(raw))
      && (pc.Returned? ==> StateOf(raw) == TRIGGERED || IsResolved(raw))
    case TriggerCancel =>
      && !pc.Second?
      && (pc.Retry? ==> LegalRaw(pc.current))
      && (pc.Retry? && pc.current == ARMED ==> raw == ARMED || IsResolved(raw))
      && (pc.Retry? && StateOf(pc.current) == TRIGGERED ==> StateOf(raw) == TRIGGERED || IsResolved(raw))
      && (pc.Retry? && IsResolved(pc.current) ==> IsResolved(raw))
      && (pc.Act? ==> IsResolved(raw))
      && (pc.Returned? ==> StateOf(raw) == TRIGGERED || IsResolved(raw))
  }

  predicate Decided(raw: Raw, decider: Option<Kind>) {
    match decider
    case None => raw == INIT || raw == ARMED
    case Some(kind) =>
      raw != INIT && raw != ARMED && !kind.Arm? && (IsCancelled(raw) <==> kind.TriggerCancel?)
  }

  ghost predicate ResolverOk(s: State) {
    && (IsResolved(s.raw) <==> s.resolver.Some?)
    && (s.resolver.Some? ==> s.resolver.value < |s.pcs|)
    && (s.resolver.Some? ==> s.pcs[s.resolver.value].Act? || s.pcs[s.resolver.value].Returned?)
    && (forall i | 0 <= i < |s.pcs| && s.pcs[i].Act? :: s.resolver == Some(i))
    && s.ran == if s.resolver.Some? && s.pcs[s.resolver.value].Returned? then 1 else 0
  }

  ghost predicate Inv(kinds: seq<Kind>, s: State) {
    && |s.pcs| == |kinds| && LegalRaw(s.raw)
    && (forall i | 0 <= i < |kinds| :: CallerOk(kinds[i], s.pcs[i], s.raw))
    && Decided(s.raw, s.decider)
    && ResolverOk(s)
  }

  /// How the byte moves: the arm caller makes the moves to Armed and from Triggered.
  predicate Moves(raw: Raw, raw': Raw, byArm: bool) {
    || raw' == raw
    || (byArm && raw == INIT && raw' == ARMED)
    || (byArm && StateOf(raw) == TRIGGERED && raw' == RESOLVED | (raw & CANCELLED))
    || (!byArm && raw == INIT && (raw' == TRIGGERED || raw' == TRIGGERED | CANCELLED))
    || (!byArm && raw == ARMED && (raw' == RESOLVED || raw' == RESOLVED | CANCELLED))
  }

  lemma OtherStays(kind: Kind, pc: Pc, raw: Raw, raw': Raw, byArm: bool)
    requires LegalRaw(raw) && CallerOk(kind, pc, raw) && Moves(raw, raw', byArm) && (kind.Arm? ==> !byArm)
    ensures LegalRaw(raw') && CallerOk(kind, pc, raw')
  {
  }

  /// What a step does to its caller and to the byte, the deciding move and the resolver.
  ghost predicate Moved(kind: Kind, s: State, s': State, i: nat) {
    && i < |s.pcs| && |s'.pcs| == |s.pcs| && s'.pcs == s.pcs[i := s'.pcs[i]]
    && LegalRaw(s'.raw) && Moves(s.raw, s'.raw, kind.Arm?)
    && CallerOk(kind, s'.pcs[i], s'.raw) && Decided(s'.raw, s'.decider)
    && !s.pcs[i].Act?
    && (if s'.raw != s.raw && IsResolved(s'.raw) then s'.resolver == Some(i) && s'.pcs[i].Act?
        else s'.resolver == s.resolver && !s'.pcs[i].Act? && (s.pcs[i].Returned? ==> s'.pcs[i].Returned?))
    && s'.ran == s.ran
  }

  lemma ArmMoves(s: State, i: nat)
    requires i < |s.pcs| && LegalRaw(s.raw) && Decided(s.raw, s.decider) && !s.pcs[i].Act? && CallerOk(Arm, s.pcs[i], s.raw)
    ensures Moved(Arm, s, ArmStep(s, i), i)
  {
  }

  lemma TriggerMoves(s: State, i: nat)
    requires i < |s.pcs| && LegalRaw(s.raw) && Decided(s.raw, s.decider) && !s.pcs[i].Act? && CallerOk(Trigger, s.pcs[i], s.raw)
    ensures Moved(Trigger, s, TriggerStep(s, i), i)
  {
  }

  lemma CancelMoves(s: State, i: nat, fails: bool)
    requires i < |s.pcs| && LegalRaw(s.raw) && Decided(s.raw, s.decider) && !s.pcs[i].Act? && CallerOk(TriggerCancel, s.pcs[i], s.raw)
    ensures Moved(TriggerCancel, s, CancelStep(s, i, fails), i)
  {
  }

  lemma MovedKeeps(kinds: seq<Kind>, s: State, s': State, i: nat)
    requires Inv(kinds, s) && OneArm(kinds) && i < |kinds| && Moved(kinds[i], s, s', i)
    ensures Inv(kinds, s')
  {
    hide CallerOk, Moves, Decided, LegalRaw;
    var a :| 0 <= a < |kinds| && OnlyArm(kinds, a);
    forall j | 0 <= j < |kinds|
      ensures CallerOk(kinds[j], s'.pcs[j], s'.raw)
    {
      if j != i { OtherStays(kinds[j], s.pcs[j], s.raw, s'.raw, kinds[i].Arm?); }
    }
    ResolvedStays(s.raw, s'.raw, kinds[i].Arm?);
  }

  lemma ResolvedStays(raw: Raw, raw': Raw, byArm: bool)
    requires LegalRaw(raw) && Moves(raw, raw', byArm)
    ensures IsResolved(raw) ==> raw' == raw
  {
  }

  /// What every step of every caller keeps.
  lemma StepKeeps(kinds: seq<Kind>, s: State, i: nat, fails: bool)
    requires Inv(kinds, s) && OneArm(kinds)
    ensures Inv(kinds, Step(kinds, s, i, fails))
  {
    hide CallerOk, LegalRaw, Decided, Moved, ArmStep, TriggerStep, CancelStep, OneArm;
    if i < |kinds| {
      assert CallerOk(kinds[i], s.pcs[i], s.raw);
      if s.pcs[i].Act? {
        ActKeeps(kinds, s, i);
      } else {
        match kinds[i]
        case Arm => ArmMoves(s, i); MovedKeeps(kinds, s, ArmStep(s, i), i);
        case Trigger => TriggerMoves(s, i); MovedKeeps(kinds, s, TriggerStep(s, i), i);
        case TriggerCancel => CancelMoves(s, i, fails); MovedKeeps(kinds, s, CancelStep(s, i, fails), i);
      }
    }
  }

  lemma ActKeeps(kinds: seq<Kind>, s: State, i: nat)
    requires Inv(kinds, s) && i < |kinds| && s.pcs[i].Act?
    ensures Inv(kinds, Goto(s.(ran := s.ran + 1), i, Returned))
  {
    assert CallerOk(kinds[i], s.pcs[i], s.raw);
  }

  lemma InitialKeeps(kinds: seq<Kind>)
    requires OneArm(kinds)
    ensures Inv(kinds, Initial(|kinds|))
  {
  }

  /// Any interleaving: who moves, and whether a weak exchange fails then.
  ghost function Run(kinds: seq<Kind>, s: State, schedule: seq<(nat, bool)>): (r: State)
    requires Inv(kinds, s) && OneArm(kinds)
    ensures Inv(kinds, r)
    decreases |schedule|
  {
    if schedule == [] then s
    else
      StepKeeps(kinds, s, schedule[0].0, schedule[0].1);
      Run(kinds, Step(kinds, s, schedule[0].0, schedule[0].1), schedule[1..])
  }

  // ----- what it means -----

  predicate HasReturned(s: State, i: nat) {
    i < |s.pcs| && s.pcs[i].Returned?
  }

  /// The resume action runs at most once, and only after arm has made its move.
  lemma ActionRunsAtMostOnce(kinds: seq<Kind>, schedule: seq<(nat, bool)>)
    requires OneArm(kinds)
    ensures Inv(kinds, Initial(|kinds|))
    ensures Run(kinds, Initial(|kinds|), schedule).ran <= 1
  {
    InitialKeeps(kinds);
  }

  /// Once arm and one trigger or cancel have returned, the handshake is resolved; and the action
  /// has run exactly once, or its one runner is the only caller still to do so.
  lemma ResumedExactlyOnce(kinds: seq<Kind>, s: State, a: nat, t: nat)
    requires Inv(kinds, s) && a < |kinds| && t < |kinds| && kinds[a].Arm? && !kinds[t].Arm?
    requires HasReturned(s, a) && HasReturned(s, t)
    ensures IsResolved(s.raw) && s.resolver.Some?
    ensures s.ran == 1 || (s.ran == 0 && s.pcs[s.resolver.value].Act?)
    ensures (forall i | 0 <= i < |kinds| :: HasReturned(s, i)) ==> s.ran == 1
  {
    assert CallerOk(kinds[a], s.pcs[a], s.raw) && CallerOk(kinds[t], s.pcs[t], s.raw);
    assert s.pcs[s.resolver.value].Act? ==> !HasReturned(s, s.resolver.value);
  }

  lemma DeciderStays(kinds: seq<Kind>, s: State, i: nat, fails: bool)
    requires Inv(kinds, s) && OneArm(kinds) && s.decider.Some?
    ensures Step(kinds, s, i, fails).decider == s.decider
  {
    if i < |kinds| {
      assert CallerOk(kinds[i], s.pcs[i], s.raw);
    }
  }

  /// The cancelled bit tells exactly whether a cancel made the deciding move, then and ever after.
  lemma {:induction false} CancelledBitIsFinal(kinds: seq<Kind>, s: State, schedule: seq<(nat, bool)>)
    requires Inv(kinds, s) && OneArm(kinds) && s.decider.Some?
    ensures Run(kinds, s, schedule).decider == s.decider
    ensures IsCancelled(Run(kinds, s, schedule).raw) <==> s.decider == Some(TriggerCancel)
    decreases |schedule|
  {
    hide CallerOk, ResolverOk, Step;
    if schedule != [] {
      var (i, fails) := schedule[0];
      StepKeeps(kinds, s, i, fails);
      DeciderStays(kinds, s, i, fails);
      CancelledBitIsFinal(kinds, Step(kinds, s, i, fails), schedule[1..]);
    }
  }

  // ----- every caller returns -----

  function Left(pc: Pc, raw: Raw): nat {
    match pc
    case Start => 4
    case Retry(current) => if current == raw then 2 else 3
    case Second(_) => 2
    case Act => 1
    case Returned => 0
  }

  function Sum(pcs: seq<Pc>, raw: Raw): nat {
    if pcs == [] then 0 else Sum(pcs[..|pcs| - 1], raw) + Left(pcs[|pcs| - 1], raw)
  }

  lemma {:induction false} SumPut(pcs: seq<Pc>, raw: Raw, i: nat, pc: Pc)
    requires i < |pcs|
    ensures Sum(pcs[i := pc], raw) == Sum(pcs, raw) + Left(pc, raw) - Left(pcs[i], raw)
  {
    hide Left;
    var front := pcs[..|pcs| - 1];
    if i == |pcs| - 1 {
      assert pcs[i := pc][..i] == front;
    } else {
      assert pcs[i := pc][..|pcs| - 1] == front[i := pc];
      SumPut(front, raw, i, pc);
    }
  }

  lemma {:induction false} SumMoves(pcs: seq<Pc>, raw: Raw, raw': Raw)
    ensures Sum(pcs, raw') <= Sum(pcs, raw) + |pcs|
  {
    if pcs != [] {
      SumMoves(pcs[..|pcs| - 1], raw, raw');
    }
  }

  function Phases(raw: Raw): nat {
    if raw == INIT then 2 else if IsResolved(raw) then 0 else 1
  }

  function Measure(s: State): nat {
    (|s.pcs| + 1) * Phases(s.raw) + Sum(s.pcs, s.raw)
  }

  lemma OwnStep(kinds: seq<Kind>, s: State, i: nat)
    requires Inv(kinds, s) && i < |kinds| && !s.pcs[i].Returned?
    ensures var s' := Step(kinds, s, i, false);
      && s'.pcs == s.pcs[i := s'.pcs[i]] && Left(s'.pcs[i], s'.raw) <= Left(s.pcs[i], s'.raw)
      && (if s'.raw == s.raw then Left(s'.pcs[i], s.raw) < Left(s.pcs[i], s.raw) else Phases(s'.raw) < Phases(s.raw))
  {
    assert CallerOk(kinds[i], s.pcs[i], s.raw);
  }

  /// Every step that is not a spurious failure brings all callers closer to returning, so only
  /// spurious failures could keep a caller from returning.
  lemma StepsAreBounded(kinds: seq<Kind>, s: State, i: nat)
    requires Inv(kinds, s) && i < |kinds| && !s.pcs[i].Returned?
    ensures Measure(Step(kinds, s, i, false)) < Measure(s)
  {
    hide CallerOk, Decided, ResolverOk, Step, Left, Phases;
    var s' := Step(kinds, s, i, false);
    OwnStep(kinds, s, i);
    SumPut(s.pcs, s'.raw, i, s'.pcs[i]);
    if s'.raw != s.raw {
      SumMoves(s.pcs, s.raw, s'.raw);
      Fewer(|s.pcs| + 1, Phases(s'.raw), Phases(s.raw));
    }
  }

  lemma Fewer(n: nat, a: nat, b: nat)
    requires a < b
    ensures n * a + n <= n * b
  {
    assert n * (a + 1) <= n * b;
  }
}
