/// The depth-first search that extracts a cycle witness from a task graph, as
/// the source runs it: colours 0 (new), 1 (on the path) and 2 (finished), a
/// path vector and a witness vector updated in place.
module CycleSearch {
  import opened TaskGraphs

  /// The successors of u at or above v, ascending.
  function Successors(g: Graph, u: nat, v: nat): (s: seq<nat>)
    requires v <= g.n + 1
    ensures forall w :: w in s <==> v <= w <= g.n && g.HasEdge(u, w)
    ensures forall i, j | 0 <= i < j < |s| :: s[i] < s[j]
    decreases g.n + 1 - v
  {
    if v == g.n + 1 then []
    else
      var rest := Successors(g, u, v + 1);
      assert forall i | 0 <= i < |rest| :: rest[i] in rest && rest[i] > v;
      (if g.HasEdge(u, v) then [v] else []) + rest
  }

  /// The sorted adjacency lists; a function of the edge set alone.
  function Adjacency(g: Graph): (adj: seq<seq<nat>>)
    ensures |adj| == g.n + 1
    ensures forall u | 0 <= u <= g.n :: adj[u] == Successors(g, u, 1)
  {
    seq(g.n + 1, u requires 0 <= u => Successors(g, u, 1))
  }

  /// The search state; finished lists the nodes in the order they turned colour 2.
  datatype Search = Search(color: seq<nat>, path: seq<nat>, cycle: seq<nat>, finished: seq<nat>)

  predicate WellFormed(adj: seq<seq<nat>>) {
    forall u, i | 0 <= u < |adj| && 0 <= i < |adj[u]| :: adj[u][i] < |adj|
  }

  ghost function New(color: seq<nat>): set<nat> {
    set v | 0 <= v < |color| && color[v] == 0
  }

  function IndexOf(path: seq<nat>, v: nat): (k: nat)
    ensures k <= |path|
    ensures k < |path| ==> path[k] == v
    ensures v in path ==> k < |path|
  {
    if path == [] || path[0] == v then 0 else 1 + IndexOf(path[1..], v)
  }

  function Entered(s: Search, u: nat): Search
    requires u < |s.color|
  {
    s.(color := s.color[u := 1], path := s.path + [u])
  }

  function Left(s: Search, u: nat): Search
    requires u < |s.color|
  {
    s.(color := s.color[u := 2], path := if s.path == [] then [] else s.path[..|s.path| - 1],
       finished := s.finished + [u])
  }

  lemma EnterShrinks(s: Search, u: nat)
    requires u < |s.color| && s.color[u] == 0
    ensures New(Entered(s, u).color) < New(s.color)
  {
    assert New(Entered(s, u).color) == New(s.color) - {u};
    assert u in New(s.color);
  }

  /// Entering a node: colour it 1, put it on the path, try its successors.
  function Visit(adj: seq<seq<nat>>, u: nat, s: Search): (r: (bool, Search))
    requires WellFormed(adj) && |s.color| == |adj| && u < |adj| && s.color[u] == 0
    ensures |r.1.color| == |adj| && New(r.1.color) <= New(s.color)
    decreases New(s.color), 0, 0
  {
    var entered := Entered(s, u);
    assert New(entered.color) == New(s.color) - {u};
    assert u in New(s.color);
    VisitFrom(adj, u, 0, entered)
  }

  /// The loop over the successors of u from position i on, and leaving u.
  function VisitFrom(adj: seq<seq<nat>>, u: nat, i: nat, s: Search): (r: (bool, Search))
    requires WellFormed(adj) && |s.color| == |adj| && u < |adj| && i <= |adj[u]|
    ensures |r.1.color| == |adj| && New(r.1.color) <= New(s.color)
    decreases New(s.color), 1, |adj[u]| - i
  {
    if i == |adj[u]| then
      assert New(Left(s, u).color) <= New(s.color);
      (false, Left(s, u))
    else
      var v := adj[u][i];
      if s.color[v] == 1 && v in s.path then
        (true, s.(cycle := s.path[IndexOf(s.path, v)..] + [v]))
      else if s.color[v] == 0 then
        var (found, s') := Visit(adj, v, s);
        if found then (true, s') else VisitFrom(adj, u, i + 1, s')
      else VisitFrom(adj, u, i + 1, s)
  }

  /// The outer loop over the roots v, v + 1, ...
  function VisitRoots(adj: seq<seq<nat>>, v: nat, s: Search): (r: (bool, Search))
    requires WellFormed(adj) && |s.color| == |adj| && 1 <= v <= |adj|
    ensures |r.1.color| == |adj|
    decreases |adj| - v
  {
    if v == |adj| then (false, s)
    else if s.color[v] != 0 then VisitRoots(adj, v + 1, s)
    else
      var (found, s') := Visit(adj, v, s);
      if found then (true, s') else VisitRoots(adj, v + 1, s')
  }

  function Start(size: nat): Search {
    Search(seq(size, _ => 0), [], [], [])
  }

  lemma AdjacencyWellFormed(g: Graph)
    ensures WellFormed(Adjacency(g))
  {
    var adj := Adjacency(g);
    forall u, i | 0 <= u < |adj| && 0 <= i < |adj[u]|
      ensures adj[u][i] < |adj|
    {
      assert adj[u][i] in Successors(g, u, 1);
    }
  }

  // ----- what the search keeps -----

  predicate Edge(adj: seq<seq<nat>>, u: nat, v: nat) {
    u < |adj| && v in adj[u]
  }

  predicate PathOk(adj: seq<seq<nat>>, s: Search) {
    && |s.color| == |adj|
    && (forall k | 0 <= k < |s.path| :: s.path[k] < |adj| && s.color[s.path[k]] == 1)
    && (forall k | 0 <= k < |s.path| - 1 :: Edge(adj, s.path[k], s.path[k + 1]))
    && (forall v | 0 <= v < |adj| && s.color[v] == 1 :: v in s.path)
  }

  /// Every successor of a finished node finished earlier.
  ghost predicate FinishedOk(adj: seq<seq<nat>>, s: Search)
    requires |s.color| == |adj|
  {
    && (forall v | 0 <= v < |adj| && s.color[v] == 2 :: v in s.finished)
    && (forall k | 0 <= k < |s.finished| :: s.finished[k] < |adj| && s.color[s.finished[k]] == 2)
    && (forall k, v | 0 <= k < |s.finished| && Edge(adj, s.finished[k], v) :: v in s.finished[..k])
    && (forall v | 0 <= v < |adj| :: s.color[v] <= 2)
  }

  predicate ClosedWalk(adj: seq<seq<nat>>, walk: seq<nat>) {
    && |walk| >= 2 && walk[0] == walk[|walk| - 1]
    && forall i | 0 <= i < |walk| - 1 :: Edge(adj, walk[i], walk[i + 1])
  }

  ghost predicate SearchOk(adj: seq<seq<nat>>, s: Search) {
    PathOk(adj, s) && FinishedOk(adj, s)
  }

  /// The outcome of a visit that starts with path p: a witness, or everything it entered finished.
  ghost predicate Outcome(adj: seq<seq<nat>>, before: Search, path: seq<nat>, found: bool, after: Search) {
    if found then ClosedWalk(adj, after.cycle)
    else
      && SearchOk(adj, after) && after.path == path && before.finished <= after.finished
  }

  lemma WitnessIsClosed(adj: seq<seq<nat>>, u: nat, v: nat, s: Search)
    requires PathOk(adj, s) && s.path != [] && s.path[|s.path| - 1] == u && Edge(adj, u, v) && v in s.path
    ensures ClosedWalk(adj, s.path[IndexOf(s.path, v)..] + [v])
  {
    hide Edge, IndexOf;
    var k := IndexOf(s.path, v);
    var walk := s.path[k..] + [v];
    forall i | 0 <= i < |walk| - 1
      ensures Edge(adj, walk[i], walk[i + 1])
    {
      assert walk[i] == s.path[k + i];
      if i < |walk| - 2 {
        assert walk[i + 1] == s.path[k + i + 1];
      }
    }
  }

  lemma {:induction false} VisitOutcome(adj: seq<seq<nat>>, u: nat, s: Search)
    requires WellFormed(adj) && SearchOk(adj, s) && u < |adj| && s.color[u] == 0
    requires s.path == [] || Edge(adj, s.path[|s.path| - 1], u)
    ensures var (found, s') := Visit(adj, u, s);
      Outcome(adj, s, s.path, found, s') && (!found ==> s'.color[u] == 2)
    decreases New(s.color), 0, 0
  {
    var entered := Entered(s, u);
    assert New(entered.color) == New(s.color) - {u};
    assert u in New(s.color);
    EnterOutcome(adj, u, s);
    VisitFromOutcome(adj, u, 0, entered);
    assert entered.path[..|entered.path| - 1] == s.path;
  }

  lemma {:induction false} VisitFromOutcome(adj: seq<seq<nat>>, u: nat, i: nat, s: Search)
    requires WellFormed(adj) && SearchOk(adj, s) && u < |adj| && i <= |adj[u]|
    requires s.path != [] && s.path[|s.path| - 1] == u && u !in s.path[..|s.path| - 1]
    requires forall j | 0 <= j < i :: adj[u][j] in s.finished
    ensures var (found, s') := VisitFrom(adj, u, i, s);
      Outcome(adj, s, s.path[..|s.path| - 1], found, s') && (!found ==> s'.color[u] == 2)
    decreases New(s.color), 1, |adj[u]| - i
  {
    hide Visit, New, ClosedWalk;
    if i == |adj[u]| {
      LeaveOutcome(adj, u, s);
    } else {
      var v := adj[u][i];
      assert Edge(adj, u, v);
      if s.color[v] == 1 && v in s.path {
        WitnessIsClosed(adj, u, v, s);
      } else if s.color[v] == 0 {
        VisitOutcome(adj, v, s);
        var (found, s') := Visit(adj, v, s);
        if !found {
          assert v in s'.finished;
          VisitFromOutcome(adj, u, i + 1, s');
        }
      } else {
        VisitFromOutcome(adj, u, i + 1, s);
      }
    }
  }

  lemma EnterOutcome(adj: seq<seq<nat>>, u: nat, s: Search)
    requires SearchOk(adj, s) && u < |adj| && s.color[u] == 0
    requires s.path == [] || Edge(adj, s.path[|s.path| - 1], u)
    ensures SearchOk(adj, Entered(s, u)) && u !in s.path
  {
    var entered := Entered(s, u);
    assert forall v | v in s.path :: v in entered.path;
    assert u !in s.finished;
  }

  lemma LeavePath(adj: seq<seq<nat>>, u: nat, s: Search)
    requires PathOk(adj, s) && u < |adj|
    requires s.path != [] && s.path[|s.path| - 1] == u && u !in s.path[..|s.path| - 1]
    ensures PathOk(adj, Left(s, u))
  {
    var (m, s') := (|s.path| - 1, Left(s, u));
    assert s.path == s.path[..m] + [u];
    forall k | 0 <= k < m
      ensures s'.path[k] < |adj| && s'.color[s'.path[k]] == 1
    {
      assert s'.path[k] in s.path[..m];
    }
  }

  lemma LeaveFinished(adj: seq<seq<nat>>, u: nat, s: Search)
    requires |s.color| == |adj| && FinishedOk(adj, s) && u < |adj| && s.color[u] == 1
    requires forall j | 0 <= j < |adj[u]| :: adj[u][j] in s.finished
    ensures FinishedOk(adj, Left(s, u))
  {
    var s' := Left(s, u);
    assert forall v | v in s.finished :: v in s'.finished;
    forall k, v | 0 <= k < |s'.finished| && Edge(adj, s'.finished[k], v)
      ensures v in s'.finished[..k]
    {
      assert s'.finished[..k] == s.finished[..k];
      if k == |s.finished| { assert s.finished[..k] == s.finished; }
    }
  }

  lemma LeaveOutcome(adj: seq<seq<nat>>, u: nat, s: Search)
    requires WellFormed(adj) && SearchOk(adj, s) && u < |adj|
    requires s.path != [] && s.path[|s.path| - 1] == u && u !in s.path[..|s.path| - 1]
    requires forall j | 0 <= j < |adj[u]| :: adj[u][j] in s.finished
    ensures Outcome(adj, s, s.path[..|s.path| - 1], false, Left(s, u))
  {
    LeavePath(adj, u, s);
    LeaveFinished(adj, u, s);
  }

  lemma {:induction false} RootsOutcome(adj: seq<seq<nat>>, v: nat, s: Search)
    requires WellFormed(adj) && SearchOk(adj, s) && s.path == [] && 1 <= v <= |adj|
    ensures var (found, s') := VisitRoots(adj, v, s);
      if found then ClosedWalk(adj, s'.cycle)
      else
        && SearchOk(adj, s') && s'.path == [] && New(s'.color) <= New(s.color)
        && forall w | v <= w < |adj| :: s'.color[w] != 0
    decreases |adj| - v
  {
    hide Visit, VisitFrom, FinishedOk, ClosedWalk, WellFormed;
    if v < |adj| {
      var next := s;
      var found := false;
      if s.color[v] == 0 {
        VisitOutcome(adj, v, s);
        var r := Visit(adj, v, s);
        found, next := r.0, r.1;
      }
      if !found {
        RootsOutcome(adj, v + 1, next);
        var (below, s') := VisitRoots(adj, v + 1, next);
        assert v !in New(next.color);
        assert !below ==> v !in New(s'.color);
      }
    }
  }

  lemma IndexBelow(path: seq<nat>, v: nat, k: nat)
    requires k <= |path| && v in path[..k]
    ensures IndexOf(path, v) < k
  {
    if path[0] != v {
      assert path[..k][1..] == path[1..][..k - 1];
      IndexBelow(path[1..], v, k - 1);
    }
  }

  function SearchAll(g: Graph): (bool, Search) {
    AdjacencyWellFormed(g);
    VisitRoots(Adjacency(g), 1, Start(g.n + 1))
  }

  /// The search finds a closed walk, or its finishing order ranks the graph.
  lemma SearchDecides(g: Graph)
    requires g.EndpointsOk()
    ensures var (found, s) := SearchAll(g); if found then g.ClosedWalk(s.cycle) else g.Ranked()
  {
    var adj := Adjacency(g);
    AdjacencyWellFormed(g);
    RootsOutcome(adj, 1, Start(g.n + 1));
    var (found, s) := SearchAll(g);
    if found {
      forall i | 0 <= i < |s.cycle| - 1
        ensures g.HasEdge(s.cycle[i], s.cycle[i + 1])
      {
        assert Edge(adj, s.cycle[i], s.cycle[i + 1]);
      }
    } else {
      var f := s.finished;
      var rank := seq(g.n + 1, v requires 0 <= v <= g.n => |f| - IndexOf(f, v));
      forall e | e in g.edges
        ensures e.from <= g.n && e.to <= g.n && rank[e.from] < rank[e.to]
      {
        assert e.to in adj[e.from] by {
          assert g.HasEdge(e.from, e.to);
        }
        assert s.color[e.from] == 2 && e.from in f;
        assert Edge(adj, f[IndexOf(f, e.from)], e.to);
        IndexBelow(f, e.to, IndexOf(f, e.from));
      }
      assert g.Ranks(rank);
    }
  }

  /// A graph without closed walks can be ranked along its edges.
  lemma AcyclicIsRanked(g: Graph)
    requires g.EndpointsOk() && g.Acyclic()
    ensures g.Ranked()
  {
    SearchDecides(g);
  }

  // ----- the search in place -----

  class Searcher {
    const adj: seq<seq<nat>>
    const color: array<nat>
    var path: seq<nat>
    var cycle: seq<nat>
    ghost var finished: seq<nat>

    ghost predicate Valid()
      reads this, color
    {
      WellFormed(adj) && color.Length == |adj|
    }

    ghost function State(): Search
      reads this, color
    {
      Search(color[..], path, cycle, finished)
    }

    constructor (adj: seq<seq<nat>>)
      requires WellFormed(adj)
      ensures Valid() && this.adj == adj && fresh(color) && State() == Start(|adj|)
    {
      this.adj := adj;
      color := new nat[|adj|](_ => 0);
      path, cycle, finished := [], [], [];
    }

    /// The recursive search from u, on the vectors themselves.
    method FindCycle(u: nat) returns (found: bool)
      requires Valid() && u < |adj| && color[u] == 0
      modifies this, color
      ensures Valid() && (found, State()) == Visit(adj, u, old(State()))
      decreases New(color[..])
    {
      hide New;
      ghost var start := State();
      color[u] := 1;
      path := path + [u];
      assert State() == Entered(start, u);
      EnterShrinks(start, u);
      var i := 0;
      while i < |adj[u]|
        invariant i <= |adj[u]| && Valid()
        invariant New(color[..]) < New(start.color)
        invariant VisitFrom(adj, u, i, State()) == Visit(adj, u, start)
      {
        var v := adj[u][i];
        if color[v] == 1 {
          var k := Find(path, v);
          if k < |path| {
            cycle := path[k..] + [v];
            return true;
          }
        }
        if color[v] == 0 {
          var below := FindCycle(v);
          if below {
            return true;
          }
        }
        i := i + 1;
      }
      ghost var last := State();
      if path != [] {
        path := path[..|path| - 1];
      }
      color[u] := 2;
      finished := finished + [u];
      assert State() == Left(last, u);
      return false;
    }

    /// The loop over all roots.
    method FindAnyCycle() returns (found: bool)
      requires Valid() && 1 <= |adj|
      modifies this, color
      ensures Valid() && (found, State()) == VisitRoots(adj, 1, old(State()))
    {
      ghost var start := State();
      var v := 1;
      found := false;
      while v < |adj|
        invariant 1 <= v <= |adj| && Valid()
        invariant VisitRoots(adj, v, State()) == VisitRoots(adj, 1, start)
      {
        if color[v] == 0 {
          found := FindCycle(v);
          if found {
            return;
          }
        }
        v := v + 1;
      }
    }
  }

  /// std::find on a vector: the first position of v, or the length.
  method Find(path: seq<nat>, v: nat) returns (k: nat)
    ensures k == IndexOf(path, v)
    ensures v in path <==> k < |path|
  {
    k := 0;
    while k < |path| && path[k] != v
      invariant k <= |path| && v !in path[..k]
      invariant IndexOf(path, v) == k + IndexOf(path[k..], v)
    {
      k := k + 1;
    }
  }
}
