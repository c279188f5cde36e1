/// What holds of every run of the deque: linearizability, conservation, and what
/// stale thieves and a renumbering owner may rely on.
module ChaseLevRuns {
  import opened RingBuffer
  import opened ChaseLevProtocol
  import opened Wrappers

  lemma InitialKeeps<T>(capacity: nat, blank: T)
    requires IsPowerOfTwo(capacity) && capacity <= MAX_CAPACITY
    ensures Inv(Initial(capacity, blank)) && Content(Initial(capacity, blank).core) == []
  {
    assert CountedIds(Initial(capacity, blank).thieves) == {};
  }

  /// Any interleaving of the owner and any number of thieves, with any calls and any faults.
  ghost function Run<T>(s: State<T>, actions: seq<Action<T>>): (r: (State<T>, seq<Event<T>>))
    requires Inv(s)
    ensures Inv(r.0)
    decreases |actions|
  {
    if actions == [] then (s, [])
    else
      StepRefines(s, actions[0]);
      var (s1, e) := Step(s, actions[0]);
      var (s2, es) := Run(s1, actions[1..]);
      (s2, [e] + es)
  }

  /// The events lead from content q to content q', one after the other.
  ghost predicate LegalHistory<T(!new)>(q: seq<T>, es: seq<Event<T>>, q': seq<T>)
    decreases |es|
  {
    if es == [] then q == q'
    else exists q1 :: Follows(q, es[0], q1) && LegalHistory(q1, es[1..], q')
  }

  /// Linearizability: the events of any run are a history of one sequential deque.
  lemma {:induction false} RunIsLinearizable<T(!new)>(s: State<T>, actions: seq<Action<T>>)
    requires Inv(s)
    ensures var (s', es) := Run(s, actions); LegalHistory(Content(s.core), es, Content(s'.core))
    decreases |actions|
  {
    hide CoreOk, Step, Content, Follows;
    if actions != [] {
      StepRefines(s, actions[0]);
      var (s1, e) := Step(s, actions[0]);
      RunIsLinearizable(s1, actions[1..]);
      var (s2, es) := Run(s1, actions[1..]);
      assert ([e] + es)[1..] == es;
      assert Follows(Content(s.core), e, Content(s1.core));
    }
  }

  // ----- every call has one event -----

  datatype Thread = TheOwner | TheThief(id: nat)

  datatype Call<T> = Push(x: T) | Pop | Steal

  predicate Answers<T(==)>(e: Event<T>, call: Call<T>) {
    match call
    case Push(x) => e == Pushed(x) || e == PushRefused(x)
    case Pop => e.Popped? || e.PopEmpty?
    case Steal => e.Stolen? || e.StealEmpty? || e.StealRetry?
  }

  /// The owner's call that has not had its event yet.
  function OwnerOpen<T>(o: Owner<T>): seq<Call<T>> {
    match o
    case Idle => []
    case PushStart(x) => [Push(x)]
    case PushReload(x) => [Push(x)]
    case PushGrow(x, _, _, _, _) => [Push(x)]
    case PushStore(x, _) => [Push(x)]
    case PushPublish(x, _) => [Push(x)]
    case PopStart => [Pop]
    case PopTop(_) => [Pop]
    case PopCas(_, _) => [Pop]
    case PopRestore(_, _) => []
    case _ => if o.caller.FromPush? then [Push(o.caller.item)] else []
  }

  /// The thread's call under way that has not had its event yet; none once the call has returned.
  function Open<T>(s: State<T>, w: Thread): (open: seq<Call<T>>)
    ensures w.TheOwner? && s.core.owner.Idle? ==> open == []
    ensures w.TheThief? && ThiefPc(s, w.id).Away? ==> open == []
  {
    match w
    case TheOwner => OwnerOpen(s.core.owner)
    case TheThief(id) => if ThiefPc(s, id).Away? || ThiefPc(s, id).Leaving? then [] else [Steal]
  }

  function By<T>(a: Action<T>): Thread {
    match a
    case CallSteal(id) => TheThief(id)
    case StepThief(id) => TheThief(id)
    case _ => TheOwner
  }

  /// The call that the action begins, if the thread is not in a call already.
  function Begins<T>(s: State<T>, a: Action<T>): seq<Call<T>> {
    match a
    case CallPush(x) => if s.core.owner.Idle? then [Push(x)] else []
    case CallPop => if s.core.owner.Idle? then [Pop] else []
    case CallSteal(id) => if ThiefPc(s, id).Away? then [Steal] else []
    case _ => []
  }

  function Loud<T>(e: Event<T>): seq<Event<T>> {
    if e.Quiet? then [] else [e]
  }

  /// A thread's step emits nothing, or the answer to its open call, which is then no longer open.
  ghost predicate StepAnswers<T(!new)>(s: State<T>, a: Action<T>, w: Thread)
    requires Inv(s)
  {
    var (s', e) := Step(s, a);
    if By(a) != w then Open(s', w) == Open(s, w)
    else
      var open := Open(s, w) + Begins(s, a);
      if e.Quiet? then Open(s', w) == open else |open| == 1 && Answers(e, open[0]) && Open(s', w) == []
  }

  ghost predicate OwnerMoveAnswers<T(!new)>(o: Owner<T>, e: Event<T>, o': Owner<T>) {
    var open := OwnerOpen(o);
    if e.Quiet? then OwnerOpen(o') == open else |open| == 1 && Answers(e, open[0]) && OwnerOpen(o') == []
  }

  lemma PushAnswers<T(!new)>(c: Core<T>, fault: bool)
    requires CoreOk(c) && Pushing(c.owner)
    ensures var (c', e) := PushStep(c, fault); OwnerMoveAnswers(c.owner, e, c'.owner)
  {
    hide Slot, BitAnd, IsPowerOfTwo, Buffer.Window, IndicesOk;
  }

  lemma PopAnswers<T(!new)>(c: Core<T>)
    requires CoreOk(c) && Popping(c.owner)
    ensures var (c', e) := PopStep(c); OwnerMoveAnswers(c.owner, e, c'.owner)
  {
    hide Slot, BitAnd, IsPowerOfTwo, Buffer.Window, IndicesOk, OwnerOk;
  }

  lemma RebaseAnswers<T(!new)>(c: Core<T>, activeThieves: nat, fault: bool)
    requires CoreOk(c) && !Pushing(c.owner) && !Popping(c.owner)
    ensures var (c', e) := RebaseStep(c, activeThieves, fault); OwnerMoveAnswers(c.owner, e, c'.owner)
  {
    hide Slot, BitAnd, IsPowerOfTwo, Buffer.Window, IndicesOk, OwnerOk;
  }

  lemma OwnerAnswers<T(!new)>(c: Core<T>, activeThieves: nat, fault: bool)
    requires CoreOk(c)
    ensures var (c', e) := OwnerStep(c, activeThieves, fault); OwnerMoveAnswers(c.owner, e, c'.owner)
  {
    hide PushStep, PopStep, RebaseStep, OwnerMoveAnswers, IndicesOk;
    if Pushing(c.owner) { PushAnswers(c, fault); }
    else if Popping(c.owner) { PopAnswers(c); }
    else { RebaseAnswers(c, activeThieves, fault); }
  }

  lemma StepIsAnswer<T(!new)>(s: State<T>, a: Action<T>, w: Thread)
    requires Inv(s)
    ensures StepAnswers(s, a, w)
  {
    hide Slot, BitAnd, IsPowerOfTwo, Buffer.Window, CoreOk, OwnerStep, ThiefOk;
    match a
    case StepOwner(fault) => OwnerAnswers(s.core, s.activeThieves, fault);
    case StepThief(id) => CountedPositive(s, id);
    case _ =>
  }

  ghost function Calls<T>(s: State<T>, actions: seq<Action<T>>, w: Thread): seq<Call<T>>
    requires Inv(s)
    decreases |actions|
  {
    if actions == [] then []
    else
      StepRefines(s, actions[0]);
      (if By(actions[0]) == w then Begins(s, actions[0]) else []) + Calls(Step(s, actions[0]).0, actions[1..], w)
  }

  ghost function Events<T>(s: State<T>, actions: seq<Action<T>>, w: Thread): seq<Event<T>>
    requires Inv(s)
    decreases |actions|
  {
    if actions == [] then []
    else
      StepRefines(s, actions[0]);
      (if By(actions[0]) == w then Loud(Step(s, actions[0]).1) else []) + Events(Step(s, actions[0]).0, actions[1..], w)
  }

  /// The i-th event answers the i-th call; at most the last call is still open.
  ghost predicate Answered<T(!new)>(calls: seq<Call<T>>, es: seq<Event<T>>, open: seq<Call<T>>) {
    && |es| <= |calls| <= |es| + 1 && open == calls[|es|..]
    && forall i | 0 <= i < |es| :: Answers(es[i], calls[i])
  }

  /// Of every thread, the i-th event answers the i-th call; the last call may still be without its
  /// event, and is then still under way.
  lemma {:induction false} EachCallHasOneEvent<T(!new)>(s: State<T>, actions: seq<Action<T>>, w: Thread)
    requires Inv(s)
    ensures var (calls, es) := (Open(s, w) + Calls(s, actions, w), Events(s, actions, w));
      Answered(calls, es, Open(Run(s, actions).0, w))
    decreases |actions|
  {
    hide Inv, Step, Open, Begins, Answered, Loud;
    if actions != [] {
      var a := actions[0];
      StepRefines(s, a);
      StepIsAnswer(s, a, w);
      var (s1, e) := Step(s, a);
      EachCallHasOneEvent(s1, actions[1..], w);
      AnswerComesFirst(Open(s, w), Begins(s, a), e, By(a) == w, Open(s1, w),
                       Calls(s1, actions[1..], w), Events(s1, actions[1..], w), Open(Run(s, actions).0, w));
    } else {
      OpenIsAnswered(s, w);
    }
  }

  lemma OpenIsAnswered<T(!new)>(s: State<T>, w: Thread)
    ensures Answered(Open(s, w) + [], [], Open(s, w))
  {
  }

  /// One step in front of the rest of the run.
  lemma AnswerComesFirst<T(!new)>(open: seq<Call<T>>, begins: seq<Call<T>>, e: Event<T>, mine: bool,
                                  open1: seq<Call<T>>, later: seq<Call<T>>, es: seq<Event<T>>, end: seq<Call<T>>)
    requires
      if !mine then open1 == open
      else if e.Quiet? then open1 == open + begins
      else |open + begins| == 1 && Answers(e, (open + begins)[0]) && open1 == []
    requires Answered(open1 + later, es, end)
    ensures Answered(open + ((if mine then begins else []) + later), (if mine then Loud(e) else []) + es, end)
  {
    hide Answers;
    if !mine || e.Quiet? {
      assert open + ((if mine then begins else []) + later) == open1 + later;
      assert (if mine then Loud(e) else []) + es == es;
    } else {
      var all := open + begins;
      assert open + (begins + later) == [all[0]] + (open1 + later);
    }
  }

  ghost function PushedBy<T>(e: Event<T>): multiset<T> {
    if e.Pushed? then multiset{e.x} else multiset{}
  }

  ghost function TakenBy<T>(e: Event<T>): multiset<T> {
    if e.Popped? || e.Stolen? then multiset{e.x} else multiset{}
  }

  ghost function PushedItems<T>(es: seq<Event<T>>): multiset<T> {
    if es == [] then multiset{} else PushedBy(es[0]) + PushedItems(es[1..])
  }

  ghost function TakenItems<T>(es: seq<Event<T>>): multiset<T> {
    if es == [] then multiset{} else TakenBy(es[0]) + TakenItems(es[1..])
  }

  lemma EventConserves<T>(q: seq<T>, e: Event<T>, q': seq<T>)
    requires Follows(q, e, q')
    ensures multiset(q) + PushedBy(e) == TakenBy(e) + multiset(q')
  {
  }

  lemma Telescopes<T>(a: multiset<T>, p: multiset<T>, t: multiset<T>, b: multiset<T>,
                      ps: multiset<T>, ts: multiset<T>, z: multiset<T>)
    requires a + p == t + b && b + ps == ts + z
    ensures a + (p + ps) == (t + ts) + z
  {
    forall x | x in a + (p + ps) || x in (t + ts) + z
      ensures (a + (p + ps))[x] == ((t + ts) + z)[x]
    {
      assert (a + p)[x] == (t + b)[x] && (b + ps)[x] == (ts + z)[x];
    }
  }

  lemma {:induction false} HistoryConserves<T(!new)>(q: seq<T>, es: seq<Event<T>>, q': seq<T>)
    requires LegalHistory(q, es, q')
    ensures multiset(q) + PushedItems(es) == TakenItems(es) + multiset(q')
    decreases |es|
  {
    if es != [] {
      var q1 :| Follows(q, es[0], q1) && LegalHistory(q1, es[1..], q');
      EventConserves(q, es[0], q1);
      HistoryConserves(q1, es[1..], q');
      Telescopes(multiset(q), PushedBy(es[0]), TakenBy(es[0]), multiset(q1),
                 PushedItems(es[1..]), TakenItems(es[1..]), multiset(q'));
    }
  }

  /// Conservation: what was pushed is exactly what was popped or stolen plus what is
  /// still there, so no pushed occurrence is ever returned twice or lost.
  lemma NothingLostOrDuplicated<T(!new)>(capacity: nat, blank: T, actions: seq<Action<T>>)
    requires IsPowerOfTwo(capacity) && capacity <= MAX_CAPACITY
    ensures Inv(Initial(capacity, blank))
    ensures var (s, es) := Run(Initial(capacity, blank), actions);
      PushedItems(es) == TakenItems(es) + multiset(Content(s.core))
  {
    InitialKeeps(capacity, blank);
    RunIsLinearizable(Initial(capacity, blank), actions);
    var (s, es) := Run(Initial(capacity, blank), actions);
    HistoryConserves([], es, Content(s.core));
  }

  /// Whatever the owner did since a thief loaded its buffer - grow, pop, push - as long as top is
  /// still the thief's index, its buffer and its loaded item show the deque's oldest value.
  lemma StaleThiefSeesFront<T>(s: State<T>, actions: seq<Action<T>>, id: nat)
    requires Inv(s)
    ensures var (s', _) := Run(s, actions);
      var (c, pc) := (s'.core, ThiefPc(s', id));
      && (pc.ReadCell? && pc.t == c.top ==>
            pc.buf < |c.buffers| && |Content(c)| > 0 && c.buffers[pc.buf].Load(pc.t) == Content(c)[0])
      && (pc.Cas? && pc.t == c.top ==> |Content(c)| > 0 && pc.item == Content(c)[0])
  {
    hide Slot, BitAnd, IsPowerOfTwo, Buffer.Window;
    var (s', _) := Run(s, actions);
    if id in s'.thieves {
      assert ThiefOk(s'.core, s'.thieves[id]);
    }
  }

  /// While the owner renumbers, no thief is between its second maintenance check and its decrement.
  lemma RebaseExcludesThieves<T>(s: State<T>, actions: seq<Action<T>>, id: nat)
    requires Inv(s)
    ensures var (s', _) := Run(s, actions); Renumbering(s'.core.owner) ==> !Guarded(ThiefPc(s', id))
  {
    var (s', _) := Run(s, actions);
    if id in s'.thieves {
      assert ThiefOk(s'.core, s'.thieves[id]);
    }
  }

  /// No 64-bit index or capacity of the source ever wraps around.
  lemma IndicesNeverWrap<T>(s: State<T>, actions: seq<Action<T>>)
    requires Inv(s)
    ensures var c := Run(s, actions).0.core;
      && c.top <= MAX_CAPACITY && c.bottom <= MAX_CAPACITY
      && (PopInFlight(c.owner) ==> c.bottom < MAX_CAPACITY)
      && forall k | 0 <= k < |c.buffers| :: c.buffers[k].capacity <= MAX_CAPACITY
  {
  }

  /// A steal that reports Empty met an empty deque, or one whose only item an owner's pop
  /// was deciding on; a steal that loses the compare-and-swap lost its item to another taker.
  lemma UnsuccessfulSteal<T>(s: State<T>, id: nat)
    requires Inv(s)
    ensures var (s', e) := Step(s, StepThief(id));
      && (e.StealEmpty? ==> Content(s.core) == [] || (PopInFlight(s.core.owner) && |Content(s.core)| == 1))
      && (e.StealRetry? ==> 
        || s.core.maintenance || ThiefPc(s, id).Retreating?
        || (ThiefPc(s, id).Cas? && s.core.top > ThiefPc(s, id).t))
  {
    hide Slot, BitAnd, IsPowerOfTwo, Buffer.Window;
    CountedPositive(s, id);
    var pc := ThiefPc(s, id);
    assert ThiefOk(s.core, pc);
  }

  // ----- when a push is refused -----

  predicate FaultFree<T>(actions: seq<Action<T>>) {
    forall k | 0 <= k < |actions| && actions[k].StepOwner? :: !actions[k].fault
  }

  /// Full at the capacity limit: one cell stays free.
  ghost predicate Full<T>(c: Core<T>)
    requires CoreOk(c)
  {
    |Content(c)| == Active(c).capacity - 1 && Active(c).capacity >= MAX_CAPACITY
  }

  /// Where the owner can only be after a fault: a rebase that is going to fail under a push.
  predicate Faultless<T>(c: Core<T>) {
    match c.owner
    case RebaseStart(caller) => caller.FromPush? ==> c.bottom >= HIGH_WATERMARK || c.top >= HIGH_WATERMARK
    case RebaseClear(caller, done) => caller.FromPush? ==> done
    case _ => true
  }

  lemma PushKeepsFaultless<T(!new)>(c: Core<T>)
    requires CoreOk(c) && Pushing(c.owner)
    ensures var (c', e) := PushStep(c, false); Faultless(c') && (e.PushRefused? ==> Full(c))
  {
    hide Slot, BitAnd, IsPowerOfTwo, Buffer.Window;
    if c.owner.PushStart? || c.owner.PushReload? { assert Content(c) == Active(c).Window(c.top, c.bottom); }
  }

  lemma RebaseKeepsFaultless<T(!new)>(c: Core<T>, activeThieves: nat)
    requires CoreOk(c) && Faultless(c) && !Pushing(c.owner) && !Popping(c.owner)
    ensures var (c', e) := RebaseStep(c, activeThieves, false); Faultless(c') && !e.PushRefused?
  {
    hide Slot, BitAnd, IsPowerOfTwo, Buffer.Window;
  }

  lemma PopKeepsFaultless<T(!new)>(c: Core<T>)
    requires CoreOk(c) && Popping(c.owner)
    ensures var (c', e) := PopStep(c); Faultless(c') && !e.PushRefused?
  {
    hide Slot, BitAnd, IsPowerOfTwo, Buffer.Window, IndicesOk, OwnerOk;
  }

  lemma ThiefRefusesNothing<T(!new)>(s: State<T>, id: nat)
    requires Inv(s) && Faultless(s.core)
    ensures var (s', e) := Step(s, StepThief(id)); Faultless(s'.core) && !e.PushRefused?
  {
    hide Slot, BitAnd, IsPowerOfTwo, Buffer.Window, CoreOk;
    CountedPositive(s, id);
  }

  lemma StepKeepsFaultless<T(!new)>(s: State<T>, a: Action<T>)
    requires Inv(s) && Faultless(s.core) && FaultFree([a])
    ensures var (s', e) := Step(s, a); Faultless(s'.core) && (e.PushRefused? ==> Full(s.core))
  {
    hide Slot, BitAnd, IsPowerOfTwo, Buffer.Window, IndicesOk, OwnerOk, PushStep, PopStep, RebaseStep, ThiefOk;
    match a
    case StepOwner(fault) =>
      assert !([a][0]).fault;
      if Pushing(s.core.owner) { PushKeepsFaultless(s.core); }
      else if Popping(s.core.owner) { PopKeepsFaultless(s.core); }
      else { RebaseKeepsFaultless(s.core, s.activeThieves); }
    case StepThief(id) => ThiefRefusesNothing(s, id);
    case _ =>
  }

  lemma {:induction false} RunKeepsFaultless<T(!new)>(s: State<T>, actions: seq<Action<T>>)
    requires Inv(s) && Faultless(s.core) && FaultFree(actions)
    ensures Faultless(Run(s, actions).0.core)
    decreases |actions|
  {
    if actions != [] {
      hide Inv, Step, Faultless;
      StepRefines(s, actions[0]);
      StepKeepsFaultless(s, actions[0]);
      RunKeepsFaultless(Step(s, actions[0]).0, actions[1..]);
    }
  }

  /// A push is refused only when the deque is full at the capacity limit, unless an allocation failed
  /// or a failure was injected since the owner was last idle.
  lemma RefusedOnlyWhenFull<T(!new)>(s: State<T>, actions: seq<Action<T>>, a: Action<T>)
    requires Inv(s) && s.core.owner.Idle? && FaultFree(actions + [a])
    ensures var (s', _) := Run(s, actions); Step(s', a).1.PushRefused? ==> Full(s'.core)
  {
    hide Inv, Step;
    assert FaultFree(actions) && FaultFree([a]) by {
      assert forall k | 0 <= k < |actions| :: actions[k] == (actions + [a])[k];
      assert a == (actions + [a])[|actions|];
    }
    RunKeepsFaultless(s, actions);
    StepKeepsFaultless(Run(s, actions).0, a);
  }

  lemma {:induction false} ContentGrowsByOne<T(!new)>(s: State<T>, actions: seq<Action<T>>)
    requires Inv(s)
    ensures |Content(Run(s, actions).0.core)| <= |Content(s.core)| + |actions|
    decreases |actions|
  {
    if actions != [] {
      hide CoreOk, Step, Content, Follows;
      StepRefines(s, actions[0]);
      var (s1, e) := Step(s, actions[0]);
      EventGrowsByOne(Content(s.core), e, Content(s1.core));
      ContentGrowsByOne(s1, actions[1..]);
    }
  }

  lemma EventGrowsByOne<T>(q: seq<T>, e: Event<T>, q': seq<T>)
    requires Follows(q, e, q')
    ensures |q'| <= |q| + 1
  {
  }

  /// Hence below the limit every push succeeds, however small the buffer was: none of the pushes of
  /// a fault-free run shorter than the limit is refused.
  lemma PushBelowLimitSucceeds<T(!new)>(capacity: nat, blank: T, actions: seq<Action<T>>, a: Action<T>)
    requires IsPowerOfTwo(capacity) && capacity <= MAX_CAPACITY
    requires FaultFree(actions + [a]) && |actions| < MAX_CAPACITY - 1
    ensures Inv(Initial(capacity, blank))
    ensures !Step(Run(Initial(capacity, blank), actions).0, a).1.PushRefused?
  {
    hide CoreOk, Step, Content;
    InitialKeeps(capacity, blank);
    RefusedOnlyWhenFull(Initial(capacity, blank), actions, a);
    ContentGrowsByOne(Initial(capacity, blank), actions);
  }

  // ----- every call ends -----

  /// The owner's steps left in its call, but for waiting on thieves under maintenance.
  function OwnerLeft<T>(c: Core<T>): nat {
    match c.owner
    case Idle => 0
    case PushPublish(_, _) => 1
    case PushStore(_, _) => 2
    case PushGrow(_, b, _, _, i) => 4 + if i < b then b - i else 0
    case PushReload(_) => 5 + c.bottom
    case RebaseClear(_, _) => 6 + c.bottom
    case RebaseBottom(_, snapshot) => 7 + |snapshot|
    case RebaseWrite(_, snapshot, i) => 9 + 2 * |snapshot| - (if i < |snapshot| then i else |snapshot|)
    case RebaseLoad(_) => 10 + 2 * c.bottom
    case RebaseWait(_) => 11 + 2 * c.bottom
    case RebaseSet(_) => 12 + 2 * c.bottom
    case RebaseStart(_) => 13 + 2 * c.bottom
    case PushStart(_) => 14 + 2 * c.bottom
    case PopRestore(_, _) => 16 + 2 * c.bottom
    case PopCas(_, _) => 17 + 2 * c.bottom
    case PopTop(_) => 18 + 2 * c.bottom
    case PopStart => 19 + 2 * c.bottom
  }

  lemma PushesEnd<T(!new)>(c: Core<T>, fault: bool)
    requires CoreOk(c) && Pushing(c.owner)
    ensures OwnerLeft(PushStep(c, fault).0) < OwnerLeft(c)
  {
    hide Slot, BitAnd, IsPowerOfTwo, Buffer.Window, Buffer.Load, Buffer.Store;
  }

  lemma PopsEnd<T(!new)>(c: Core<T>)
    requires CoreOk(c) && Popping(c.owner)
    ensures OwnerLeft(PopStep(c).0) < OwnerLeft(c)
  {
    hide Slot, BitAnd, IsPowerOfTwo, Buffer.Window, Buffer.Load, Buffer.Store, IndicesOk;
  }

  lemma RebasesEnd<T(!new)>(c: Core<T>, activeThieves: nat, fault: bool)
    requires CoreOk(c) && !Pushing(c.owner) && !Popping(c.owner)
    requires !c.owner.Idle? && !(c.owner.RebaseWait? && activeThieves != 0)
    ensures OwnerLeft(RebaseStep(c, activeThieves, fault).0) < OwnerLeft(c)
  {
    hide Slot, BitAnd, IsPowerOfTwo, Buffer.Load, Buffer.Store, IndicesOk;
    if c.owner.RebaseLoad? && c.top <= c.bottom { assert |Active(c).Window(c.top, c.bottom)| == c.bottom - c.top; }
  }

  /// Every owner step brings its call closer to its return, but for waiting until the thieves that
  /// were inside have left.
  lemma OwnerCallsEnd<T(!new)>(c: Core<T>, activeThieves: nat, fault: bool)
    requires CoreOk(c) && !c.owner.Idle? && !(c.owner.RebaseWait? && activeThieves != 0)
    ensures OwnerLeft(OwnerStep(c, activeThieves, fault).0) < OwnerLeft(c)
  {
    hide PushStep, PopStep, RebaseStep, OwnerLeft, IndicesOk, OwnerOk;
    if Pushing(c.owner) { PushesEnd(c, fault); }
    else if Popping(c.owner) { PopsEnd(c); }
    else { RebasesEnd(c, activeThieves, fault); }
  }

  function ThiefLeft<T>(pc: Thief<T>): nat {
    match pc
    case Away => 0
    case Leaving => 1
    case Retreating => 1
    case Cas(_, _) => 2
    case ReadCell(_, _) => 3
    case ReadBuffer(_) => 4
    case ReadBottom(_) => 5
    case ReadTop => 6
    case Checking => 7
    case Joining => 8
    case Entering => 9
  }

  /// A steal is wait-free: it returns after at most nine steps of its thread.
  lemma StealsEnd<T(!new)>(s: State<T>, id: nat)
    requires Inv(s) && !ThiefPc(s, id).Away?
    ensures ThiefLeft(ThiefPc(Step(s, StepThief(id)).0, id)) < ThiefLeft(ThiefPc(s, id)) <= 9
  {
    hide Slot, BitAnd, IsPowerOfTwo, Buffer.Window, CoreOk;
    CountedPositive(s, id);
  }

  /// What a steal under way has seen, while nobody else moves and the owner is not renumbering.
  predicate Unhindered<T(==)>(c: Core<T>, pc: Thief<T>) {
    && !pc.Away? && !pc.Leaving? && !pc.Retreating? && !c.maintenance
    && (pc.ReadBottom? || pc.ReadBuffer? || pc.ReadCell? || pc.Cas? ==> pc.t == c.top)
  }

  lemma SoloStep<T(!new)>(s: State<T>, id: nat)
    requires Inv(s) && Unhindered(s.core, ThiefPc(s, id)) && |Content(s.core)| > (if PopInFlight(s.core.owner) then 1 else 0)
    ensures var (s', e) := Step(s, StepThief(id));
      if e.Quiet? then s'.core == s.core && Unhindered(s'.core, ThiefPc(s', id)) else e == Stolen(Content(s.core)[0])
  {
    hide Slot, BitAnd, IsPowerOfTwo, Buffer.Window;
    CountedPositive(s, id);
    assert ThiefOk(s.core, ThiefPc(s, id)) by { assert id in s.thieves; }
    if ThiefPc(s, id).Cas? { StaleThiefSeesFront(s, [], id); }
  }

  ghost function Alone<T>(id: nat, n: nat): seq<Action<T>> {
    seq(n, _ => StepThief(id))
  }

  /// A steal that nobody disturbs takes the oldest item: from a deque that is not being renumbered, and
  /// whose last item no pop is deciding on, after at most nine steps.
  lemma {:induction false} SoloStealSucceeds<T(!new)>(s: State<T>, id: nat) returns (n: nat)
    requires Inv(s) && Unhindered(s.core, ThiefPc(s, id)) && |Content(s.core)| > (if PopInFlight(s.core.owner) then 1 else 0)
    ensures n < ThiefLeft(ThiefPc(s, id)) <= 9
    ensures Step(Run(s, Alone(id, n)).0, StepThief(id)).1 == Stolen(Content(s.core)[0])
    decreases ThiefLeft(ThiefPc(s, id))
  {
    hide CoreOk, Step, Content, ThiefOk;
    StealsEnd(s, id);
    SoloStep(s, id);
    StepRefines(s, StepThief(id));
    var (s1, e) := Step(s, StepThief(id));
    if e.Quiet? {
      n := SoloStealSucceeds(s1, id);
      assert Alone<T>(id, n + 1)[0] == StepThief(id) && Alone<T>(id, n + 1)[1..] == Alone(id, n);
      n := n + 1;
    } else {
      n := 0;
      assert Run(s, Alone(id, 0)).0 == s;
    }
  }

  // ----- stale indices -----

  /// A state with the number of renumberings so far, and at which of them each thief last loaded top.
  datatype Aged<T> = Aged(s: State<T>, epoch: nat, loaded: map<nat, nat>)

  predicate Renumbers<T>(c: Core<T>, a: Action<T>) {
    a.StepOwner? && c.owner.RebaseWrite? && c.owner.i >= |c.owner.snapshot|
  }

  ghost function AgedStep<T>(g: Aged<T>, a: Action<T>): Aged<T>
    requires Inv(g.s)
  {
    Aged(Step(g.s, a).0,
         if Renumbers(g.s.core, a) then g.epoch + 1 else g.epoch,
         if a.StepThief? && ThiefPc(g.s, a.id).ReadTop? then g.loaded[a.id := g.epoch] else g.loaded)
  }

  /// A thief that loaded top and has yet to use it.
  predicate HoldsIndex<T>(pc: Thief<T>) {
    pc.ReadBottom? || pc.ReadBuffer? || pc.ReadCell? || pc.Cas?
  }

  ghost predicate Fresh<T>(g: Aged<T>) {
    && Inv(g.s)
    && forall id: nat | HoldsIndex(ThiefPc(g.s, id)) :: id in g.loaded && g.loaded[id] == g.epoch
  }

  lemma AgedStepKeeps<T>(g: Aged<T>, a: Action<T>)
    requires Fresh(g)
    ensures Fresh(AgedStep(g, a))
  {
    hide Slot, BitAnd, IsPowerOfTwo, Buffer.Window, CoreOk, OwnerStep, ThiefOk;
    StepRefines(g.s, a);
    var g' := AgedStep(g, a);
    forall id: nat | HoldsIndex(ThiefPc(g'.s, id))
      ensures id in g'.loaded && g'.loaded[id] == g'.epoch
    {
      CountedPositive(g.s, id);
      RebaseExcludesThieves(g.s, [], id);
    }
  }

  ghost function AgedRun<T>(g: Aged<T>, actions: seq<Action<T>>): (r: Aged<T>)
    requires Fresh(g)
    ensures Fresh(r)
    decreases |actions|
  {
    if actions == [] then g else AgedStepKeeps(g, actions[0]); AgedRun(AgedStep(g, actions[0]), actions[1..])
  }

  /// No compare-and-swap ever succeeds with an index loaded before the last renumbering: whatever
  /// happened, the thief that steals loaded its index in the current numbering.
  lemma NoStaleIndexWins<T>(capacity: nat, blank: T, actions: seq<Action<T>>, id: nat)
    requires IsPowerOfTwo(capacity) && capacity <= MAX_CAPACITY
    ensures Fresh(Aged(Initial(capacity, blank), 0, map[]))
    ensures var g := AgedRun(Aged(Initial(capacity, blank), 0, map[]), actions);
      Step(g.s, StepThief(id)).1.Stolen? ==> id in g.loaded && g.loaded[id] == g.epoch
  {
    hide CoreOk, ThiefOk;
    InitialKeeps(capacity, blank);
    assert Fresh(Aged(Initial(capacity, blank), 0, map[]));
    var g := AgedRun(Aged(Initial(capacity, blank), 0, map[]), actions);
    CountedPositive(g.s, id);
  }
}
