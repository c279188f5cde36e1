/// What the timer queue means: pending timers by id, and the order in which they fall due.
module TimerSpec {
  import opened Wrappers

  datatype Item<P> = Item(wake: int, sequence: nat, payload: P)

  type Timers<P> = map<nat, Item<P>>

  predicate Before<P>(a: Item<P>, b: Item<P>) {
    a.wake < b.wake || (a.wake == b.wake && a.sequence < b.sequence)
  }

  ghost predicate Distinct<P>(m: Timers<P>) {
    forall i, j | i in m && j in m && i != j :: m[i].sequence != m[j].sequence
  }

  ghost predicate IsLeast<P>(m: Timers<P>, id: nat) {
    id in m && forall j | j in m && j != id :: Before(m[id], m[j])
  }

  lemma {:induction false} LeastExists<P>(m: Timers<P>) returns (id: nat)
    requires m != map[] && Distinct(m)
    ensures IsLeast(m, id)
  {
    id :| id in m;
    var rest := m - {id};
    if rest != map[] {
      var least := LeastExists(rest);
      assert forall j | j in m && j != id :: j in rest;
      if Before(m[least], m[id]) {
        id := least;
      }
    } else {
      assert forall j | j in m && j != id :: j in rest;
    }
  }

  ghost function Least<P>(m: Timers<P>): (id: nat)
    requires m != map[] && Distinct(m)
    ensures IsLeast(m, id)
  {
    assert exists id :: IsLeast(m, id) by { var id := LeastExists(m); }
    var id :| IsLeast(m, id);
    id
  }

  /// Due at the limit; without a limit every timer is due.
  predicate Due<P>(item: Item<P>, limit: Option<int>) {
    limit.None? || item.wake <= limit.value
  }

  /// The ids taken when the earliest timer is removed again and again while it is due.
  ghost function Drain<P>(m: Timers<P>, limit: Option<int>): seq<nat>
    requires Distinct(m)
    decreases |m|
  {
    if m == map[] || !Due(m[Least(m)], limit) then []
    else
      var id := Least(m);
      assert |m - {id}| < |m| by { Fewer(m, id); }
      [id] + Drain(m - {id}, limit)
  }

  lemma Fewer<P>(m: Timers<P>, id: nat)
    requires id in m
    ensures |m - {id}| == |m| - 1
  {
    assert (m - {id}).Keys == m.Keys - {id};
    assert |m.Keys| == |m| && |(m - {id}).Keys| == |m - {id}|;
  }

  ghost predicate ExactlyDue<P>(m: Timers<P>, limit: Option<int>, order: seq<nat>) {
    forall id :: id in order <==> id in m && Due(m[id], limit)
  }

  ghost predicate Increasing<P>(m: Timers<P>, order: seq<nat>)
    requires forall id | id in order :: id in m
  {
    forall i, j | 0 <= i < j < |order| :: Before(m[order[i]], m[order[j]])
  }

  /// Draining takes exactly the due timers, earliest first.
  lemma {:induction false} DrainTakesExactlyDue<P>(m: Timers<P>, limit: Option<int>)
    requires Distinct(m)
    ensures ExactlyDue(m, limit, Drain(m, limit))
    ensures Increasing(m, Drain(m, limit))
    ensures limit.Some? ==> forall id | id in m :: id in Drain(m, limit) <==> m[id].wake <= limit.value
    decreases |m|
  {
    if m != map[] && Due(m[Least(m)], limit) {
      var id := Least(m);
      Fewer(m, id);
      DrainTakesExactlyDue(m - {id}, limit);
      DrainStep(m, limit, id, Drain(m - {id}, limit));
    }
  }

  lemma DrainStep<P>(m: Timers<P>, limit: Option<int>, id: nat, rest: seq<nat>)
    requires IsLeast(m, id) && Due(m[id], limit)
    requires ExactlyDue(m - {id}, limit, rest) && Increasing(m - {id}, rest)
    ensures ExactlyDue(m, limit, [id] + rest) && Increasing(m, [id] + rest)
  {
    var order := [id] + rest;
    assert forall k | 0 <= k < |rest| :: rest[k] in rest && order[k + 1] == rest[k];
    forall i, j | 0 <= i < j < |order|
      ensures order[i] in m && order[j] in m && Before(m[order[i]], m[order[j]])
    {
      assert order[j] == rest[j - 1];
      if i > 0 { assert order[i] == rest[i - 1]; }
    }
  }

  /// The order is determined by the timers: any due-exact increasing list is the same list.
  lemma {:induction false} DrainIsTheOnlyOrder<P>(m: Timers<P>, limit: Option<int>, order: seq<nat>)
    requires Distinct(m) && ExactlyDue(m, limit, order) && Increasing(m, order)
    ensures order == Drain(m, limit)
    decreases |m|
  {
    hide Increasing, ExactlyDue, Least, Drain;
    if order == [] {
      NothingDue(m, limit);
    } else {
      FirstIsLeast(m, limit, order);
      Fewer(m, order[0]);
      DrainIsTheOnlyOrder(m - {order[0]}, limit, order[1..]);
      DrainUnfolds(m, limit);
    }
  }

  lemma NothingDue<P>(m: Timers<P>, limit: Option<int>)
    requires Distinct(m) && ExactlyDue(m, limit, [])
    ensures Drain(m, limit) == []
  {
    assert forall id | id in m :: id !in [] && !Due(m[id], limit);
  }

  lemma DrainUnfolds<P>(m: Timers<P>, limit: Option<int>)
    requires Distinct(m) && m != map[] && Due(m[Least(m)], limit)
    ensures Distinct(m - {Least(m)}) && Drain(m, limit) == [Least(m)] + Drain(m - {Least(m)}, limit)
  {
  }

  lemma FirstIsLeast<P>(m: Timers<P>, limit: Option<int>, order: seq<nat>)
    requires Distinct(m) && ExactlyDue(m, limit, order) && Increasing(m, order) && order != []
    ensures order[0] in m && Due(m[order[0]], limit) && order[0] == Least(m)
    ensures ExactlyDue(m - {order[0]}, limit, order[1..]) && Increasing(m - {order[0]}, order[1..])
  {
    var first := order[0];
    assert first in order;
    forall j | j in m && j != first
      ensures Before(m[first], m[j])
    {
      if j in order {
        var k :| 0 <= k < |order| && order[k] == j;
      }
    }
    assert IsLeast(m, first);
    forall other
      ensures other in order[1..] <==> other in order && other != first
    {
      if other in order[1..] {
        var l :| 1 <= l < |order| && order[l] == other;
        assert Before(m[order[0]], m[order[l]]);
      }
    }
  }

  // ----- runs of queue operations -----

  datatype Op<P> =
    | Add(wake: int, payload: P)
    | Cancel(id: nat)
    | CollectDue(now: int)
    | CancelAll

  /// Pending timers, counters, and where every finished timer went.
  datatype History<P> = History(timers: Timers<P>, nextId: nat, nextSequence: nat, taken: seq<nat>, dropped: seq<nat>) {
    ghost predicate Valid() {
      && 1 <= nextId && Distinct(timers)
      && forall id | id in timers :: 1 <= id < nextId && timers[id].sequence < nextSequence
    }

    /// Every id handed out is pending, taken or dropped, and is so exactly once.
    ghost predicate Accounted() {
      forall id: nat ::
        (if id in timers then 1 else 0) + multiset(taken)[id] + multiset(dropped)[id] ==
        if 1 <= id < nextId then 1 else 0
    }
  }

  ghost function Apply<P>(h: History<P>, op: Op<P>): (r: History<P>)
    requires h.Valid()
    ensures r.Valid()
  {
    match op
    case Add(wake, payload) =>
      h.(timers := h.timers[h.nextId := Item(wake, h.nextSequence, payload)],
         nextId := h.nextId + 1, nextSequence := h.nextSequence + 1)
    case Cancel(id) =>
      if id in h.timers then h.(timers := h.timers - {id}, dropped := h.dropped + [id]) else h
    case CollectDue(now) => Take(h, Some(now))
    case CancelAll => Take(h, None)
  }

  ghost function Take<P>(h: History<P>, limit: Option<int>): (r: History<P>)
    requires h.Valid()
    ensures r.Valid()
  {
    var order := Drain(h.timers, limit);
    h.(timers := h.timers - Ids(order), taken := h.taken + order)
  }

  ghost function Ids(order: seq<nat>): (s: set<nat>) {
    set id | id in order
  }

  lemma {:induction false} OccursOnce<P>(m: Timers<P>, order: seq<nat>, id: nat)
    requires forall k | k in order :: k in m
    requires Increasing(m, order)
    ensures multiset(order)[id] == if id in order then 1 else 0
  {
    if order != [] {
      var rest := order[1..];
      assert order == [order[0]] + rest;
      assert multiset(order) == multiset{order[0]} + multiset(rest);
      OccursOnce(m, rest, id);
      forall k | 0 <= k < |rest|
        ensures rest[k] != order[0]
      {
        assert Before(m[order[0]], m[order[k + 1]]);
      }
    }
  }

  lemma TakeAccounts<P>(h: History<P>, limit: Option<int>)
    requires h.Valid() && h.Accounted()
    ensures Take(h, limit).Accounted()
  {
    var order := Drain(h.timers, limit);
    DrainTakesExactlyDue(h.timers, limit);
    forall id: nat
      ensures multiset(h.taken + order)[id] == multiset(h.taken)[id] + if id in order then 1 else 0
    {
      OccursOnce(h.timers, order, id);
    }
  }

  /// No timer is lost, fires twice, or fires after it was cancelled.
  lemma ApplyAccounts<P>(h: History<P>, op: Op<P>)
    requires h.Valid() && h.Accounted()
    ensures Apply(h, op).Accounted()
    ensures op.CollectDue? ==> forall id | id in Apply(h, op).timers :: h.timers[id].wake > op.now
  {
    match op
    case Add(_, _) =>
    case Cancel(id) => assert multiset(h.dropped + [id]) == multiset(h.dropped) + multiset{id};
    case CollectDue(now) =>
      TakeAccounts(h, Some(now));
      DrainTakesExactlyDue(h.timers, Some(now));
    case CancelAll => TakeAccounts(h, None);
  }

  ghost function ApplyAll<P>(h: History<P>, ops: seq<Op<P>>): (r: History<P>)
    requires h.Valid()
    ensures r.Valid()
    decreases |ops|
  {
    if ops == [] then h else ApplyAll(Apply(h, ops[0]), ops[1..])
  }

  lemma {:induction false} StaysAccounted<P>(h: History<P>, ops: seq<Op<P>>)
    requires h.Valid() && h.Accounted()
    ensures ApplyAll(h, ops).Accounted()
    decreases |ops|
  {
    if ops != [] {
      ApplyAccounts(h, ops[0]);
      StaysAccounted(Apply(h, ops[0]), ops[1..]);
    }
  }

  function NewHistory<P>(): History<P> { History(map[], 1, 1, [], []) }

  /// After any operations on a new queue every id handed out is in exactly one place: still
  /// pending, taken by one collection, or cancelled.
  lemma EveryTimerAccounted<P>(ops: seq<Op<P>>)
    ensures NewHistory<P>().Valid() && ApplyAll(NewHistory<P>(), ops).Accounted()
  {
    StaysAccounted(NewHistory<P>(), ops);
  }
}
