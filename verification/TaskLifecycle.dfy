/// A task's state and its completion callbacks: the locked regions of the
/// control block, entered by the worker that starts the task, by cancellers,
/// and by callers that register callbacks, in any order.
module TaskLifecycle {

  datatype TaskState = Ready | Running | Suspended | Succeeded | Failed | Cancelled {
    predicate Terminal() {
      Succeeded? || Failed? || Cancelled?
    }
  }

  /// Who may finish the task: nobody yet, the worker whose try_start succeeded, or nobody any more.
  datatype Starter = Unstarted | Started | Ended

  datatype State = State(
    task: TaskState,
    starter: Starter,
    stopRequested: bool,
    callbacks: seq<nat>,      // registered, to be taken by the terminal transition
    taken: seq<nat>,          // taken, to be run by the thread of the terminal transition
    direct: seq<nat>,         // registered after it, to be run by their own callers
    invoked: seq<nat>,
    registered: set<nat>,
    ends: seq<TaskState>      // the terminal transitions made
  )

  datatype Action =
    | TryStart
    | Finish(end: TaskState)
    | TransitionToSuspended
    | TransitionToRunning
    | RequestCancel
    | AddCallback(id: nat)
    | RunTaken
    | RunDirect(k: nat)

  function Initial(): State {
    State(Ready, Unstarted, false, [], [], [], [], {}, [])
  }

  /// The terminal transitions share this: store the state and take the callbacks.
  function End(s: State, end: TaskState): State {
    s.(task := end, taken := s.taken + s.callbacks, callbacks := [], ends := s.ends + [end])
  }

  function Next(s: State, a: Action): State {
    match a
    case TryStart => if s.task.Ready? then s.(task := Running, starter := Started) else s
    case Finish(end) =>
      // succeed, set_exception and set_cancelled, called once by the started task's own thread
      if s.starter.Started? && end.Terminal() then End(s, end).(starter := Ended) else s
    case TransitionToSuspended => if s.starter.Started? && s.task.Running? then s.(task := Suspended) else s
    case TransitionToRunning => if s.starter.Started? && (s.task.Suspended? || s.task.Ready?) then s.(task := Running) else s
    case RequestCancel =>
      var s := s.(stopRequested := true);
      if s.task.Ready? then End(s, Cancelled) else s
    case AddCallback(id) =>
      if id in s.registered then s
      else if s.task.Terminal() then s.(direct := s.direct + [id], registered := s.registered + {id})
      else s.(callbacks := s.callbacks + [id], registered := s.registered + {id})
    case RunTaken => if s.taken == [] then s else s.(taken := s.taken[1..], invoked := s.invoked + [s.taken[0]])
    case RunDirect(k) =>
      if k >= |s.direct| then s
      else s.(direct := s.direct[..k] + s.direct[k + 1..], invoked := s.invoked + [s.direct[k]])
  }

  /// Every registered callback is in exactly one place, once.
  ghost predicate Conserved(s: State) {
    multiset(s.callbacks) + multiset(s.taken) + multiset(s.direct) + multiset(s.invoked) == multiset(s.registered)
  }

  predicate StageOk(s: State) {
    && (s.task.Ready? ==> s.starter.Unstarted?)
    && (s.starter.Unstarted? ==> s.task.Ready? || s.task.Cancelled?)
    && (s.starter.Started? <==> s.task.Running? || s.task.Suspended?)
    && (s.task.Terminal() <==> s.ends != [])
    && (s.task.Terminal() ==> s.ends == [s.task] && s.callbacks == [])
    && (!s.task.Terminal() ==> s.taken == [] && s.direct == [] && s.invoked == [])
  }

  ghost predicate Inv(s: State) {
    Conserved(s) && StageOk(s)
  }

  lemma EndConserves(s: State, end: TaskState)
    requires Conserved(s)
    ensures Conserved(End(s, end))
  {
  }

  lemma RunConserves(s: State, a: Action)
    requires Conserved(s) && (a.RunTaken? || a.RunDirect?)
    ensures Conserved(Next(s, a))
  {
    if a.RunTaken? {
      assert s.taken != [] ==> s.taken == [s.taken[0]] + s.taken[1..];
    } else if a.k < |s.direct| {
      assert s.direct == s.direct[..a.k] + [s.direct[a.k]] + s.direct[a.k + 1..];
    }
  }

  lemma AddConserves(s: State, id: nat)
    requires Conserved(s)
    ensures Conserved(Next(s, AddCallback(id)))
  {
    if id !in s.registered {
      assert multiset(s.registered + {id}) == multiset(s.registered) + multiset{id};
      if s.task.Terminal() {
        assert multiset(s.direct + [id]) == multiset(s.direct) + multiset{id};
      } else {
        assert multiset(s.callbacks + [id]) == multiset(s.callbacks) + multiset{id};
      }
    }
  }

  lemma StateConserves(s: State, s': State)
    requires Conserved(s) && s'.callbacks == s.callbacks && s'.taken == s.taken && s'.direct == s.direct
    requires s'.invoked == s.invoked && s'.registered == s.registered
    ensures Conserved(s')
  {
  }

  lemma NextConserves(s: State, a: Action)
    requires Conserved(s)
    ensures Conserved(Next(s, a))
  {
    hide Conserved;
    match a
    case RunTaken => RunConserves(s, a);
    case RunDirect(_) => RunConserves(s, a);
    case Finish(end) =>
      EndConserves(s, end);
      StateConserves(End(s, end), End(s, end).(starter := Ended));
    case RequestCancel =>
      var stopping := s.(stopRequested := true);
      StateConserves(s, stopping);
      EndConserves(stopping, Cancelled);
    case AddCallback(id) => AddConserves(s, id);
    case TryStart => StateConserves(s, Next(s, a));
    case TransitionToSuspended => StateConserves(s, Next(s, a));
    case TransitionToRunning => StateConserves(s, Next(s, a));
  }

  lemma NextKeeps(s: State, a: Action)
    requires Inv(s)
    ensures Inv(Next(s, a))
  {
    hide Conserved;
    NextConserves(s, a);
  }

  ghost function Run(s: State, actions: seq<Action>): (r: State)
    requires Inv(s)
    ensures Inv(r)
    decreases |actions|
  {
    if actions == [] then s else NextKeeps(s, actions[0]); Run(Next(s, actions[0]), actions[1..])
  }

  /// At most one terminal transition is made, whoever races, and it is the state's last one.
  lemma TerminalAtMostOnce(actions: seq<Action>)
    ensures Inv(Initial())
    ensures var s := Run(Initial(), actions);
      |s.ends| <= 1 && (s.task.Terminal() <==> s.ends == [s.task])
  {
  }

  /// A task cancelled before it started never starts, whatever happens afterwards.
  lemma {:induction false} CancelledNeverStarts(s: State, actions: seq<Action>)
    requires Inv(s) && s.task.Cancelled? && s.starter.Unstarted?
    ensures Run(s, actions).task.Cancelled? && Run(s, actions).starter.Unstarted?
    decreases |actions|
  {
    hide Conserved;
    if actions != [] {
      NextKeeps(s, actions[0]);
      CancelledNeverStarts(Next(s, actions[0]), actions[1..]);
    }
  }

  /// A started task is not cancelled behind its own thread's back: until that thread finishes it,
  /// it stays running or suspended, however often cancellation is requested.
  lemma {:induction false} StartedIsNotCancelled(s: State, actions: seq<Action>)
    requires Inv(s) && s.starter.Started? && forall i | 0 <= i < |actions| :: !actions[i].Finish?
    ensures var s' := Run(s, actions); s'.starter.Started? && (s'.task.Running? || s'.task.Suspended?) && s'.ends == []
    decreases |actions|
  {
    hide Conserved;
    if actions != [] {
      NextKeeps(s, actions[0]);
      StartedIsNotCancelled(Next(s, actions[0]), actions[1..]);
    }
  }

  /// The first action that decides over a ready task, and what comes after it.
  function Decision(actions: seq<Action>): seq<Action> {
    if actions == [] || actions[0].TryStart? || actions[0].RequestCancel? then actions else Decision(actions[1..])
  }

  /// The first end that the started task's own thread stores.
  function FirstEnd(actions: seq<Action>): seq<TaskState> {
    if actions == [] then []
    else if actions[0].Finish? && actions[0].end.Terminal() then [actions[0].end]
    else FirstEnd(actions[1..])
  }

  /// Whether the last suspension or resumption was a suspension.
  function Asleep(actions: seq<Action>, before: bool): bool {
    if actions == [] then before
    else if actions[0].TransitionToSuspended? then Asleep(actions[1..], true)
    else if actions[0].TransitionToRunning? then Asleep(actions[1..], false)
    else Asleep(actions[1..], before)
  }

  lemma {:induction false} EndedStays(s: State, actions: seq<Action>)
    requires Inv(s) && s.task.Terminal()
    ensures Run(s, actions).task == s.task && Run(s, actions).starter == s.starter
    decreases |actions|
  {
    hide Conserved;
    if actions != [] {
      NextKeeps(s, actions[0]);
      EndedStays(Next(s, actions[0]), actions[1..]);
    }
  }

  /// A started task ends as its thread first says, and until then sleeps exactly after a suspension.
  lemma {:induction false} StartedEndsAsSaid(s: State, actions: seq<Action>)
    requires Inv(s) && s.starter.Started?
    ensures var task := Run(s, actions).task;
      if FirstEnd(actions) == [] then task == (if Asleep(actions, s.task.Suspended?) then Suspended else Running)
      else task == FirstEnd(actions)[0]
    decreases |actions|
  {
    hide Conserved;
    if actions != [] {
      NextKeeps(s, actions[0]);
      var s' := Next(s, actions[0]);
      if s'.starter.Started? { StartedEndsAsSaid(s', actions[1..]); } else { EndedStays(s', actions[1..]); }
    }
  }

  /// The race is decided by whoever comes first: a start lets the task run to the end its thread
  /// stores, a cancel request before any start ends it Cancelled, and nothing else ends a ready task.
  lemma {:induction false} FirstComesFirst(s: State, actions: seq<Action>)
    requires Inv(s) && s.task.Ready?
    ensures var (task, rest) := (Run(s, actions).task, Decision(actions));
      if rest == [] then task == Ready
      else if rest[0].RequestCancel? then task == Cancelled
      else if FirstEnd(rest[1..]) == [] then task == (if Asleep(rest[1..], false) then Suspended else Running)
      else task == FirstEnd(rest[1..])[0]
    decreases |actions|
  {
    hide Conserved;
    if actions != [] {
      NextKeeps(s, actions[0]);
      var s' := Next(s, actions[0]);
      match actions[0]
      case TryStart => StartedEndsAsSaid(s', actions[1..]);
      case RequestCancel => EndedStays(s', actions[1..]);
      case _ => FirstComesFirst(s', actions[1..]);
    }
  }

  /// A stop is requested exactly once somebody has asked for cancellation.
  lemma {:induction false} StopIsRequested(s: State, actions: seq<Action>)
    requires Inv(s)
    ensures Run(s, actions).stopRequested <==> s.stopRequested || RequestCancel in actions
    decreases |actions|
  {
    hide Conserved;
    if actions != [] {
      NextKeeps(s, actions[0]);
      StopIsRequested(Next(s, actions[0]), actions[1..]);
    }
  }

  /// The registered callbacks are exactly those that callers added.
  lemma {:induction false} EveryCallbackRegisters(s: State, actions: seq<Action>, id: nat)
    requires Inv(s)
    ensures id in Run(s, actions).registered <==> id in s.registered || AddCallback(id) in actions
    decreases |actions|
  {
    hide Conserved;
    if actions != [] {
      NextKeeps(s, actions[0]);
      EveryCallbackRegisters(Next(s, actions[0]), actions[1..], id);
    }
  }

  /// A callback that is due runs: each step of its runner brings the runners closer to being through.
  lemma CallbacksDrain(s: State, k: nat)
    requires Inv(s)
    ensures s.taken != [] ==> |Next(s, RunTaken).taken| < |s.taken| && s.taken[0] in Next(s, RunTaken).invoked
    ensures k < |s.direct| ==> |Next(s, RunDirect(k)).direct| < |s.direct| && s.direct[k] in Next(s, RunDirect(k)).invoked
  {
    hide Conserved;
  }

  /// No callback runs before the terminal state is stored; once the threads concerned are through,
  /// every callback, whenever it was registered, has run exactly once.
  lemma CallbacksRunExactlyOnce(s: State)
    requires Inv(s)
    ensures s.invoked != [] ==> s.task.Terminal()
    ensures forall id :: multiset(s.invoked)[id] <= 1
    ensures s.task.Terminal() && s.taken == [] && s.direct == [] ==>
      forall id :: multiset(s.invoked)[id] == if id in s.registered then 1 else 0
  {
    forall id
      ensures multiset(s.callbacks)[id] + multiset(s.taken)[id] + multiset(s.direct)[id] + multiset(s.invoked)[id] ==
        if id in s.registered then 1 else 0
    {
      assert multiset(s.registered)[id] == if id in s.registered then 1 else 0;
    }
  }
}
