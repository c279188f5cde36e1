/// TaskGraph::freeze: endpoint, self-edge and duplicate checks in that order,
/// Kahn's algorithm, and the cycle witness.
module GraphFreeze {
  import opened TaskGraphs
  import CycleSearch

  datatype Result =
    | Frozen
    | ForeignNode
    | SelfEdge
    | DuplicateEdge
    | Cycle(walk: seq<nat>)

  /// The result as a function of the graph.
  function Freeze(g: Graph): Result {
    if !g.EndpointsOk() then ForeignNode
    else if !g.NoSelfEdge() then SelfEdge
    else if !g.NoDuplicate() then DuplicateEdge
    else
      var (found, s) := CycleSearch.SearchAll(g);
      if found then Cycle(s.cycle) else Frozen
  }

  /// Which error a refused graph gets: an unknown endpoint before a self edge before a duplicate one.
  lemma FreezeReports(g: Graph)
    ensures Freeze(g) == ForeignNode <==> exists e :: e in g.edges && !(1 <= e.from <= g.n && 1 <= e.to <= g.n)
    ensures Freeze(g) == SelfEdge <==> g.EndpointsOk() && exists e :: e in g.edges && e.from == e.to
    ensures Freeze(g) == DuplicateEdge <==>
      && g.EndpointsOk() && g.NoSelfEdge()
      && exists i, j :: 0 <= i < j < |g.edges| && g.edges[i].from == g.edges[j].from && g.edges[i].to == g.edges[j].to
  {
  }

  /// freeze accepts exactly the graphs with known endpoints, no self or duplicate edge and no
  /// cycle; a refused cyclic graph comes with a non-empty closed walk along its edges.
  lemma FreezeAcceptsExactlyValid(g: Graph)
    ensures Freeze(g).Frozen? <==> g.Valid()
    ensures Freeze(g).Cycle? ==> g.ClosedWalk(Freeze(g).walk)
    ensures Freeze(g).Cycle? <==> g.EndpointsOk() && g.NoSelfEdge() && g.NoDuplicate() && !g.Acyclic()
  {
    if g.EndpointsOk() {
      CycleSearch.SearchDecides(g);
      var (found, _) := CycleSearch.SearchAll(g);
      if !found { RankedIsAcyclic(g); }
    }
  }

  // ----- independence of the insertion order -----

  lemma TwoOccurrences<T>(s: seq<T>, x: T)
    requires multiset(s)[x] >= 2
    ensures exists i, j :: 0 <= i < j < |s| && s[i] == x && s[j] == x
  {
    var i :| 0 <= i < |s| && s[i] == x;
    var rest := s[..i] + s[i + 1..];
    assert s == s[..i] + [x] + s[i + 1..];
    assert multiset(s) == multiset(rest) + multiset{x};
    assert x in rest;
    var k :| 0 <= k < |rest| && rest[k] == x;
    var j := if k < i then k else k + 1;
    assert s[j] == x;
    if i < j { assert s[i] == x && s[j] == x; } else { assert s[j] == x && s[i] == x; }
  }

  lemma OccursTwice<T>(s: seq<T>, i: nat, j: nat)
    requires i < j < |s| && s[i] == s[j]
    ensures multiset(s)[s[i]] >= 2
  {
    var (front, back) := (s[..j], s[j..]);
    assert s == front + back;
    assert front[i] in front && back[0] in back;
  }

  lemma DuplicatePermuted(g: Graph, h: Graph)
    requires multiset(g.edges) == multiset(h.edges) && !g.NoDuplicate()
    ensures !h.NoDuplicate()
  {
    var i, j :| 0 <= i < j < |g.edges| && g.edges[i].from == g.edges[j].from && g.edges[i].to == g.edges[j].to;
    var (e, f) := (g.edges[i], g.edges[j]);
    if e == f {
      OccursTwice(g.edges, i, j);
      TwoOccurrences(h.edges, e);
    } else {
      assert e in multiset(h.edges) && f in multiset(h.edges);
      var k :| 0 <= k < |h.edges| && h.edges[k] == e;
      var l :| 0 <= l < |h.edges| && h.edges[l] == f;
      if k < l { assert h.edges[k].from == h.edges[l].from; } else { assert h.edges[l].from == h.edges[k].from; }
    }
  }

  lemma {:induction false} SameSuccessors(g: Graph, h: Graph, u: nat, v: nat)
    requires g.n == h.n && v <= g.n + 1
    requires forall a: nat, b: nat :: g.HasEdge(a, b) == h.HasEdge(a, b)
    ensures CycleSearch.Successors(g, u, v) == CycleSearch.Successors(h, u, v)
    decreases g.n + 1 - v
  {
    if v <= g.n {
      SameSuccessors(g, h, u, v + 1);
    }
  }

  /// Inserting the same edges in any other order gives the same result and the same witness.
  lemma FreezeIgnoresInsertionOrder(g: Graph, h: Graph)
    requires g.n == h.n && multiset(g.edges) == multiset(h.edges)
    ensures Freeze(g) == Freeze(h)
  {
    forall e
      ensures e in g.edges <==> e in h.edges
    {
      assert e in g.edges <==> e in multiset(g.edges);
      assert e in h.edges <==> e in multiset(h.edges);
    }
    if !g.NoDuplicate() { DuplicatePermuted(g, h); }
    if !h.NoDuplicate() { DuplicatePermuted(h, g); }
    forall u: nat | u <= g.n
      ensures CycleSearch.Adjacency(g)[u] == CycleSearch.Adjacency(h)[u]
    {
      SameSuccessors(g, h, u, 1);
    }
    assert CycleSearch.Adjacency(g) == CycleSearch.Adjacency(h);
  }

  // ----- Kahn's algorithm -----

  /// The edges into v from nodes that Kahn's algorithm has not processed.
  ghost function Open(g: Graph, order: seq<nat>, v: nat): set<nat> {
    set e | 0 <= e < |g.edges| && g.edges[e].to == v && g.edges[e].from !in order
  }

  /// Each processed node comes after all its predecessors.
  ghost predicate Ordered(g: Graph, order: seq<nat>) {
    && (forall i, j | 0 <= i < j < |order| :: order[i] != order[j])
    && (forall i | 0 <= i < |order| :: 1 <= order[i] <= g.n)
    && forall e, i | e in g.edges && 0 <= i < |order| && order[i] == e.to :: e.from in order[..i]
  }

  lemma DistinctEdges(g: Graph, k: nat, l: nat)
    requires g.NoDuplicate() && k < |g.edges| && l < |g.edges| && k != l
    ensures g.edges[k].from != g.edges[l].from || g.edges[k].to != g.edges[l].to
  {
    if k < l {
      assert !(g.edges[k].from == g.edges[l].from && g.edges[k].to == g.edges[l].to);
    } else {
      assert !(g.edges[l].from == g.edges[k].from && g.edges[l].to == g.edges[k].to);
    }
  }

  lemma OpenAfter(g: Graph, order: seq<nat>, u: nat, v: nat)
    requires g.NoDuplicate() && u !in order
    ensures |Open(g, order + [u], v)| == |Open(g, order, v)| - if g.HasEdge(u, v) then 1 else 0
  {
    if g.HasEdge(u, v) {
      var e :| e in g.edges && e.from == u && e.to == v;
      var k :| 0 <= k < |g.edges| && g.edges[k] == e;
      assert Open(g, order, v) == Open(g, order + [u], v) + {k} by {
        forall l | l in Open(g, order, v) && l != k
          ensures g.edges[l].from != u
        {
          DistinctEdges(g, k, l);
        }
      }
      assert k !in Open(g, order + [u], v);
    } else {
      forall e | e in Open(g, order, v)
        ensures g.edges[e].from != u
      {
        assert g.edges[e] in g.edges;
      }
      assert Open(g, order + [u], v) == Open(g, order, v);
    }
  }

  /// A complete order ranks the graph.
  lemma CompleteOrderRanks(g: Graph, order: seq<nat>)
    requires g.EndpointsOk() && Ordered(g, order)
    requires forall v | 1 <= v <= g.n :: v in order
    ensures g.Ranked()
  {
    var rank := seq(g.n + 1, v requires 0 <= v <= g.n => CycleSearch.IndexOf(order, v));
    forall e | e in g.edges
      ensures e.from <= g.n && e.to <= g.n && rank[e.from] < rank[e.to]
    {
      var i := CycleSearch.IndexOf(order, e.to);
      assert order[i] == e.to && e.from in order[..i];
      CycleSearch.IndexBelow(order, e.from, i);
    }
    assert g.Ranks(rank);
  }

  /// Unprocessed nodes that each keep an unprocessed predecessor cannot be ranked.
  lemma {:induction false} StuckIsUnranked(g: Graph, order: seq<nat>, rank: seq<nat>, v: nat)
    requires g.EndpointsOk() && g.Ranks(rank) && 1 <= v <= g.n && v !in order
    requires forall w | 1 <= w <= g.n && w !in order :: Open(g, order, w) != {}
    ensures false
    decreases rank[v]
  {
    var e :| e in Open(g, order, v);
    assert g.edges[e] in g.edges;
    StuckIsUnranked(g, order, rank, g.edges[e].from);
  }

  function UpTo(n: nat): (s: set<nat>)
    ensures |s| == n && forall v :: v in s <==> 1 <= v <= n
  {
    if n == 0 then {} else UpTo(n - 1) + {n}
  }

  function Elements(s: seq<nat>): (r: set<nat>)
    ensures forall v :: v in r <==> v in s
  {
    if s == [] then {} else Elements(s[1..]) + {s[0]}
  }

  lemma {:induction false} DistinctElements(s: seq<nat>)
    requires forall i, j | 0 <= i < j < |s| :: s[i] != s[j]
    ensures |Elements(s)| == |s|
  {
    if s != [] {
      DistinctElements(s[1..]);
    }
  }

  /// Distinct numbers from 1..n are at most n, and n of them are all.
  lemma DistinctFill(order: seq<nat>, n: nat)
    requires forall i, j | 0 <= i < j < |order| :: order[i] != order[j]
    requires forall i | 0 <= i < |order| :: 1 <= order[i] <= n
    ensures |order| <= n
    ensures |order| == n <==> forall v | 1 <= v <= n :: v in order
  {
    var (here, all) := (Elements(order), UpTo(n));
    DistinctElements(order);
    assert here <= all;
    CardinalitySubset(here, all);
    if forall v | 1 <= v <= n :: v in order { assert here == all; }
    if |order| == n { assert forall v | 1 <= v <= n :: v in all; }
  }

  lemma {:induction false} CardinalitySubset(a: set<nat>, b: set<nat>)
    requires a <= b
    ensures |a| <= |b|
    ensures |a| == |b| ==> a == b
  {
    if a != {} {
      var x :| x in a;
      CardinalitySubset(a - {x}, b - {x});
    }
  }

  ghost predicate QueueOk(g: Graph, order: seq<nat>, queue: set<nat>) {
    forall v :: v in queue <==> 1 <= v <= g.n && v !in order && Open(g, order, v) == {}
  }

  lemma NothingProcessed(g: Graph)
    ensures forall v: nat :: InDegree(g, v, |g.edges|) == |Open(g, [], v)|
  {
    forall v: nat
      ensures InDegree(g, v, |g.edges|) == |Open(g, [], v)|
    {
      InDegreeCounts(g, v, |g.edges|);
      assert Open(g, [], v) == InEdges(g, v, |g.edges|);
    }
  }

  method InitialQueue(g: Graph, inDegree: array<nat>) returns (queue: set<nat>)
    requires inDegree.Length == g.n + 1
    ensures forall v :: v in queue <==> 1 <= v <= g.n && inDegree[v] == 0
  {
    queue := {};
    var i := 1;
    while i <= g.n
      invariant 1 <= i <= g.n + 1
      invariant forall v :: v in queue <==> 1 <= v < i && inDegree[v] == 0
    {
      if inDegree[i] == 0 {
        queue := queue + {i};
      }
      i := i + 1;
    }
  }

  /// The in-degree queue: it visits every node if and only if the graph has no cycle.
  method Kahn(g: Graph, adj: array<seq<nat>>, inDegree: array<nat>) returns (visited: nat)
    requires g.EndpointsOk() && g.NoDuplicate()
    requires adj.Length == g.n + 1 && inDegree.Length == g.n + 1
    requires adj[..] == CycleSearch.Adjacency(g)
    requires forall v | 1 <= v <= g.n :: inDegree[v] == InDegree(g, v, |g.edges|)
    modifies inDegree
    ensures visited <= g.n && (visited == g.n <==> g.Acyclic())
  {
    hide InDegree, Open, CycleSearch.Adjacency;
    ghost var order: seq<nat> := [];
    NothingProcessed(g);
    var queue := InitialQueue(g, inDegree);
    visited := 0;
    while queue != {}
      invariant visited == |order| && Ordered(g, order) && QueueOk(g, order, queue)
      invariant forall v | 1 <= v <= g.n :: inDegree[v] == |Open(g, order, v)|
      decreases g.n + 1 - |order|
    {
      ghost var least := LeastExists(queue);
      var u :| u in queue && forall w | w in queue :: u <= w;
      queue := queue - {u};
      visited := visited + 1;
      OrderedExtends(g, order, u);
      queue := Relax(g, adj[u], inDegree, queue, order, u);
      order := order + [u];
      DistinctFill(order, g.n);
    }
    DistinctFill(order, g.n);
    if visited == g.n {
      CompleteOrderRanks(g, order);
      RankedIsAcyclic(g);
    } else {
      IncompleteOrderIsCyclic(g, order);
    }
  }

  lemma IncompleteOrderIsCyclic(g: Graph, order: seq<nat>)
    requires g.EndpointsOk() && Ordered(g, order) && QueueOk(g, order, {}) && |order| != g.n
    ensures !g.Acyclic()
  {
    if g.Acyclic() {
      CycleSearch.AcyclicIsRanked(g);
      var rank :| g.Ranks(rank);
      DistinctFill(order, g.n);
      var v :| 1 <= v <= g.n && v !in order;
      StuckIsUnranked(g, order, rank, v);
    }
  }

  lemma OrderedExtends(g: Graph, order: seq<nat>, u: nat)
    requires Ordered(g, order) && 1 <= u <= g.n && u !in order && Open(g, order, u) == {}
    ensures Ordered(g, order + [u])
  {
    var order' := order + [u];
    forall e, i | e in g.edges && 0 <= i < |order'| && order'[i] == e.to
      ensures e.from in order'[..i]
    {
      assert order'[..i] == order[..i];
      if i == |order| {
        var k :| 0 <= k < |g.edges| && g.edges[k] == e;
        assert k !in Open(g, order, u);
        assert order[..i] == order;
      }
    }
  }

  lemma {:induction false} LeastExists(s: set<nat>) returns (u: nat)
    requires s != {}
    ensures u in s && forall w | w in s :: u <= w
  {
    var x :| x in s;
    u := x;
    if s != {x} {
      var least := LeastExists(s - {x});
      if least < x {
        u := least;
      }
    }
    forall w | w in s
      ensures u <= w
    {
      assert w == x || w in s - {x};
    }
  }

  /// Processing u: count each successor down and queue those that reach zero.
  method Relax(g: Graph, successors: seq<nat>, inDegree: array<nat>, queue: set<nat>, ghost order: seq<nat>, u: nat)
      returns (queue': set<nat>)
    requires g.NoDuplicate() && inDegree.Length == g.n + 1 && 1 <= u <= g.n && u !in order
    requires successors == CycleSearch.Successors(g, u, 1)
    requires QueueOk(g, order, queue + {u}) && u !in queue && Ordered(g, order + [u])
    requires forall v | 1 <= v <= g.n :: inDegree[v] == |Open(g, order, v)|
    modifies inDegree
    ensures QueueOk(g, order + [u], queue')
    ensures forall v | 1 <= v <= g.n :: inDegree[v] == |Open(g, order + [u], v)|
  {
    hide Open, CycleSearch.Successors;
    ghost var order' := order + [u];
    queue' := queue;
    var j := 0;
    forall v: nat
      ensures |Open(g, order', v)| == |Open(g, order, v)| - if g.HasEdge(u, v) then 1 else 0
    {
      OpenAfter(g, order, u, v);
    }
    while j < |successors|
      invariant j <= |successors|
      invariant forall v | 1 <= v <= g.n ::
        inDegree[v] == if v in successors[..j] then |Open(g, order', v)| else |Open(g, order, v)|
      invariant forall v ::
        v in queue' <==> (v in queue || (1 <= v <= g.n && v in successors[..j] && Open(g, order', v) == {}))
    {
      var v := successors[j];
      assert v in successors && v !in successors[..j];
      assert successors[..j + 1] == successors[..j] + [v];
      inDegree[v] := inDegree[v] - 1;
      if inDegree[v] == 0 {
        queue' := queue' + {v};
      }
      j := j + 1;
    }
    assert successors[..j] == successors;
    forall i, v | v in successors && 0 <= i < |order'|
      ensures order'[i] != v
    {
      SuccessorComesLater(g, order, u, v, i);
    }
  }

  lemma SuccessorComesLater(g: Graph, order: seq<nat>, u: nat, v: nat, i: nat)
    requires Ordered(g, order + [u]) && g.HasEdge(u, v) && i < |order + [u]|
    ensures (order + [u])[i] != v
  {
    var e :| e in g.edges && e.from == u && e.to == v;
    assert (order + [u])[|order|] == u;
  }

  // ----- the adjacency lists -----

  /// The targets of u's edges among the first upTo edges, in insertion order.
  function Targets(g: Graph, u: nat, upTo: nat): (t: seq<nat>)
    requires upTo <= |g.edges|
    ensures forall v :: v in t <==> exists k :: 0 <= k < upTo && g.edges[k].from == u && g.edges[k].to == v
  {
    if upTo == 0 then []
    else if g.edges[upTo - 1].from == u then Targets(g, u, upTo - 1) + [g.edges[upTo - 1].to]
    else Targets(g, u, upTo - 1)
  }

  predicate Distinct(s: seq<nat>) {
    forall i, j | 0 <= i < j < |s| :: s[i] != s[j]
  }

  predicate Ascending(s: seq<nat>) {
    forall i, j | 0 <= i < j < |s| :: s[i] < s[j]
  }

  lemma {:induction false} TargetsDistinct(g: Graph, u: nat, upTo: nat)
    requires g.NoDuplicate() && upTo <= |g.edges|
    ensures Distinct(Targets(g, u, upTo))
  {
    if upTo > 0 {
      TargetsDistinct(g, u, upTo - 1);
      var before := Targets(g, u, upTo - 1);
      assert forall i | 0 <= i < |before| :: before[i] in before;
      forall k | 0 <= k < upTo - 1 && g.edges[k].from == u && g.edges[upTo - 1].from == u
        ensures g.edges[k].to != g.edges[upTo - 1].to
      {
        DistinctEdges(g, k, upTo - 1);
      }
    }
  }

  /// std::sort on a vector of node ids.
  function Sort(s: seq<nat>): (r: seq<nat>)
    ensures |r| == |s| && forall v :: v in r <==> v in s
  {
    if s == [] then [] else Insert(s[0], Sort(s[1..]))
  }

  function Insert(x: nat, s: seq<nat>): (r: seq<nat>)
    ensures |r| == |s| + 1 && forall v :: v in r <==> v == x || v in s
  {
    if s == [] || x <= s[0] then [x] + s else [s[0]] + Insert(x, s[1..])
  }

  lemma {:induction false} InsertAscends(x: nat, s: seq<nat>)
    requires Ascending(s) && x !in s
    ensures Ascending(Insert(x, s))
  {
    if s != [] && x > s[0] {
      InsertAscends(x, s[1..]);
      var rest := Insert(x, s[1..]);
      assert forall i | 0 <= i < |rest| :: rest[i] in rest && rest[i] > s[0];
    }
  }

  lemma {:induction false} SortAscends(s: seq<nat>)
    requires Distinct(s)
    ensures Ascending(Sort(s))
  {
    if s != [] {
      SortAscends(s[1..]);
      InsertAscends(s[0], Sort(s[1..]));
    }
  }

  lemma EmptyHasNothing(s: seq<nat>)
    ensures s == [] <==> forall v :: v !in s
  {
    if s != [] { assert s[0] in s; }
  }

  lemma {:induction false} AscendingUnique(a: seq<nat>, b: seq<nat>)
    requires Ascending(a) && Ascending(b)
    requires forall v :: v in a <==> v in b
    ensures a == b
  {
    EmptyHasNothing(a);
    EmptyHasNothing(b);
    if a != [] && b != [] {
      assert a[0] in b && b[0] in a;
      assert a[0] == b[0];
      forall v
        ensures v in a[1..] <==> v in b[1..]
      {
        assert v in a[1..] <==> v in a && v != a[0];
        assert v in b[1..] <==> v in b && v != b[0];
      }
      AscendingUnique(a[1..], b[1..]);
    }
  }

  lemma SortedTargets(g: Graph, u: nat)
    requires g.EndpointsOk() && g.NoDuplicate()
    ensures Sort(Targets(g, u, |g.edges|)) == CycleSearch.Successors(g, u, 1)
  {
    var t := Targets(g, u, |g.edges|);
    TargetsDistinct(g, u, |g.edges|);
    SortAscends(t);
    forall v
      ensures v in t <==> v in CycleSearch.Successors(g, u, 1)
    {
      if v in t {
        var k :| 0 <= k < |g.edges| && g.edges[k].from == u && g.edges[k].to == v;
        assert g.edges[k] in g.edges;
      }
    }
    AscendingUnique(Sort(t), CycleSearch.Successors(g, u, 1));
  }

  method BuildAdjacency(g: Graph) returns (adj: array<seq<nat>>, inDegree: array<nat>)
    requires g.EndpointsOk() && g.NoDuplicate()
    ensures fresh(adj) && fresh(inDegree)
    ensures adj.Length == g.n + 1 && adj[..] == CycleSearch.Adjacency(g)
    ensures inDegree.Length == g.n + 1 && forall v | 0 <= v <= g.n :: inDegree[v] == InDegree(g, v, |g.edges|)
  {
    adj := new seq<nat>[g.n + 1](_ => []);
    inDegree := new nat[g.n + 1](_ => 0);
    var k := 0;
    while k < |g.edges|
      invariant k <= |g.edges|
      invariant forall u | 0 <= u <= g.n :: adj[u] == Targets(g, u, k)
      invariant forall v | 0 <= v <= g.n :: inDegree[v] == InDegree(g, v, k)
    {
      var e := g.edges[k];
      assert e in g.edges;
      adj[e.from] := adj[e.from] + [e.to];
      inDegree[e.to] := inDegree[e.to] + 1;
      k := k + 1;
    }
    SortLists(g, adj);
  }

  method SortLists(g: Graph, adj: array<seq<nat>>)
    requires g.EndpointsOk() && g.NoDuplicate()
    requires adj.Length == g.n + 1 && forall u | 0 <= u <= g.n :: adj[u] == Targets(g, u, |g.edges|)
    modifies adj
    ensures adj[..] == CycleSearch.Adjacency(g)
  {
    hide Targets, Sort, CycleSearch.Successors;
    NoTargetsOfZero(g);
    var i := 1;
    while i <= g.n
      invariant 1 <= i <= g.n + 1
      invariant forall u | 0 <= u < i :: adj[u] == CycleSearch.Successors(g, u, 1)
      invariant forall u | i <= u <= g.n :: adj[u] == Targets(g, u, |g.edges|)
    {
      SortedTargets(g, i);
      adj[i] := Sort(adj[i]);
      i := i + 1;
    }
    assert adj[..] == CycleSearch.Adjacency(g);
  }

  lemma NoTargetsOfZero(g: Graph)
    requires g.EndpointsOk() && g.NoDuplicate()
    ensures Targets(g, 0, |g.edges|) == CycleSearch.Successors(g, 0, 1) == []
  {
    SortedTargets(g, 0);
    var t := Targets(g, 0, |g.edges|);
    forall k | 0 <= k < |g.edges|
      ensures g.edges[k].from != 0
    {
      assert g.edges[k] in g.edges;
    }
    EmptyHasNothing(t);
  }

  // ----- the whole check -----

  method HasForeignEndpoint(g: Graph) returns (foreign: bool)
    ensures foreign == !g.EndpointsOk()
  {
    var k := 0;
    while k < |g.edges|
      invariant k <= |g.edges|
      invariant forall e | e in g.edges[..k] :: 1 <= e.from <= g.n && 1 <= e.to <= g.n
    {
      var e := g.edges[k];
      if e.from == 0 || e.from > g.n || e.to == 0 || e.to > g.n {
        assert e in g.edges;
        return true;
      }
      k := k + 1;
    }
    assert g.edges[..k] == g.edges;
    return false;
  }

  method HasSelfEdge(g: Graph) returns (self: bool)
    ensures self == !g.NoSelfEdge()
  {
    var k := 0;
    while k < |g.edges|
      invariant k <= |g.edges|
      invariant forall e | e in g.edges[..k] :: e.from != e.to
    {
      if g.edges[k].from == g.edges[k].to {
        assert g.edges[k] in g.edges;
        return true;
      }
      k := k + 1;
    }
    assert g.edges[..k] == g.edges;
    return false;
  }

  method HasDuplicate(g: Graph) returns (duplicate: bool)
    ensures duplicate == !g.NoDuplicate()
  {
    var seen: set<(nat, nat)> := {};
    var k := 0;
    while k < |g.edges|
      invariant k <= |g.edges|
      invariant forall key :: key in seen <==> exists i :: 0 <= i < k && (g.edges[i].from, g.edges[i].to) == key
      invariant forall i, j | 0 <= i < j < k :: !(g.edges[i].from == g.edges[j].from && g.edges[i].to == g.edges[j].to)
    {
      var key := (g.edges[k].from, g.edges[k].to);
      if key in seen {
        return true;
      }
      seen := seen + {key};
      k := k + 1;
    }
    return false;
  }

  /// freeze itself, loop by loop: what the specification says, in the order of the checks.
  method FreezeGraph(g: Graph) returns (r: Result)
    ensures r == Freeze(g)
  {
    var foreign := HasForeignEndpoint(g);
    if foreign { return ForeignNode; }
    var self := HasSelfEdge(g);
    if self { return SelfEdge; }
    var duplicate := HasDuplicate(g);
    if duplicate { return DuplicateEdge; }
    FreezeAcceptsExactlyValid(g);
    if g.n > 0 && g.edges != [] {
      var adj, inDegree := BuildAdjacency(g);
      var visited := Kahn(g, adj, inDegree);
      if visited < g.n {
        CycleSearch.AdjacencyWellFormed(g);
        var search := new CycleSearch.Searcher(adj[..]);
        var found := search.FindAnyCycle();
        return Cycle(search.cycle);
      }
    } else {
      NoEdgesIsAcyclic(g);
    }
    return Frozen;
  }

  lemma NoEdgesIsAcyclic(g: Graph)
    requires g.EndpointsOk() && (g.n == 0 || g.edges == [])
    ensures g.Acyclic()
  {
    assert g.n == 0 ==> forall e :: e !in g.edges;
    forall walk: seq<nat>
      ensures !g.ClosedWalk(walk)
    {
      if |walk| >= 2 { assert !g.HasEdge(walk[0], walk[0 + 1]); }
    }
  }
}
