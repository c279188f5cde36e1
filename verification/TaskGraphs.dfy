/// Task graphs: nodes 1..n in insertion order and directed dependency edges.
module TaskGraphs {

  datatype Policy = RequireSuccess | AfterCompletion

  datatype Edge = Edge(from: nat, to: nat, policy: Policy)

  datatype Graph = Graph(n: nat, edges: seq<Edge>) {
    predicate EndpointsOk() {
      forall e | e in edges :: 1 <= e.from <= n && 1 <= e.to <= n
    }

    predicate NoSelfEdge() {
      forall e | e in edges :: e.from != e.to
    }

    predicate NoDuplicate() {
      forall i, j | 0 <= i < j < |edges| :: !(edges[i].from == edges[j].from && edges[i].to == edges[j].to)
    }

    predicate HasEdge(u: nat, v: nat) {
      exists e :: e in edges && e.from == u && e.to == v
    }

    /// A walk along edges that returns to where it started.
    predicate ClosedWalk(walk: seq<nat>) {
      && |walk| >= 2 && walk[0] == walk[|walk| - 1]
      && forall i | 0 <= i < |walk| - 1 :: HasEdge(walk[i], walk[i + 1])
    }

    ghost predicate Acyclic() {
      forall walk: seq<nat> :: !ClosedWalk(walk)
    }

    /// Every edge leads to a node of higher rank.
    ghost predicate Ranks(rank: seq<nat>) {
      && |rank| == n + 1
      && forall e | e in edges :: e.from <= n && e.to <= n && rank[e.from] < rank[e.to]
    }

    ghost predicate Ranked() {
      exists rank: seq<nat> :: Ranks(rank)
    }

    /// What freeze accepts.
    ghost predicate Valid() {
      EndpointsOk() && NoSelfEdge() && NoDuplicate() && Acyclic()
    }
  }

  /// How many of the first upTo edges lead to v.
  function InDegree(g: Graph, v: nat, upTo: nat): nat
    requires upTo <= |g.edges|
  {
    if upTo == 0 then 0
    else InDegree(g, v, upTo - 1) + if g.edges[upTo - 1].to == v then 1 else 0
  }

  ghost function InEdges(g: Graph, v: nat, upTo: nat): set<nat>
    requires upTo <= |g.edges|
  {
    set e | 0 <= e < upTo && g.edges[e].to == v
  }

  lemma {:induction false} InDegreeCounts(g: Graph, v: nat, upTo: nat)
    requires upTo <= |g.edges|
    ensures InDegree(g, v, upTo) == |InEdges(g, v, upTo)|
  {
    if upTo > 0 {
      InDegreeCounts(g, v, upTo - 1);
      assert InEdges(g, v, upTo) ==
        if g.edges[upTo - 1].to == v then InEdges(g, v, upTo - 1) + {upTo - 1} else InEdges(g, v, upTo - 1);
    }
  }

  lemma {:induction false} WalkClimbs(g: Graph, rank: seq<nat>, walk: seq<nat>, k: nat)
    requires g.Ranks(rank) && 1 <= k < |walk|
    requires forall i | 0 <= i < |walk| - 1 :: g.HasEdge(walk[i], walk[i + 1])
    ensures walk[0] <= g.n && walk[k] <= g.n && rank[walk[0]] < rank[walk[k]]
    decreases k
  {
    assert g.HasEdge(walk[k - 1], walk[k - 1 + 1]);
    if k > 1 {
      WalkClimbs(g, rank, walk, k - 1);
    }
  }

  lemma RankedIsAcyclic(g: Graph)
    requires g.Ranked()
    ensures g.Acyclic()
  {
    var rank :| g.Ranks(rank);
    forall walk: seq<nat>
      ensures !g.ClosedWalk(walk)
    {
      if g.ClosedWalk(walk) {
        WalkClimbs(g, rank, walk, |walk| - 1);
      }
    }
  }
}
