/** Path algebra over node sequences. */
module Walks {
  import opened Graph

  /** Consecutive nodes are joined by a usable link. */
  ghost predicate IsWalk(net: Net, p: seq<NodeId>) {
    |p| >= 1 && forall i :: 0 < i < |p| ==> Edge(net, p[i - 1], p[i])
  }

  ghost predicate Simple(p: seq<NodeId>) {
    forall i, j :: 0 <= i < j < |p| ==> p[i] != p[j]
  }

  /** The sum of the cheapest link on every hop. */
  ghost function Cost(net: Net, p: seq<NodeId>): nat {
    if |p| <= 1 then 0 else Cost(net, p[..|p| - 1]) + Weight(net, p[|p| - 2], p[|p| - 1])
  }

  /** What one search asks for: where from, where to, within how many links,
      and around which nodes and edges. */
  datatype Query = Query(
    net: Net,
    source: NodeId,
    target: NodeId,
    maxHops: nat,
    bannedNodes: set<NodeId>,
    bannedEdges: set<(NodeId, NodeId)>)

  ghost predicate AvoidsBans(q: Query, p: seq<NodeId>) {
    && (forall i :: 0 <= i < |p| ==> p[i] !in q.bannedNodes)
    && (forall i :: 0 < i < |p| ==> (p[i - 1], p[i]) !in q.bannedEdges)
  }

  /** p answers the query, loops allowed. */
  ghost predicate Answers(q: Query, p: seq<NodeId>) {
    && IsWalk(q.net, p)
    && p[0] == q.source
    && p[|p| - 1] == q.target
    && |p| <= q.maxHops + 1
    && AvoidsBans(q, p)
  }

  /** A loop-free route of at most maxHops links. */
  ghost predicate Route(net: Net, p: seq<NodeId>, source: NodeId, target: NodeId, maxHops: nat) {
    && IsWalk(net, p)
    && p[0] == source
    && p[|p| - 1] == target
    && |p| <= maxHops + 1
    && Simple(p)
  }

  /** Cutting a walk at any node splits its cost. */
  lemma {:induction false} CostSplit(net: Net, p: seq<NodeId>, i: nat)
    requires i < |p|
    ensures Cost(net, p) == Cost(net, p[..i + 1]) + Cost(net, p[i..])
    decreases |p|
  {
    hide Weight;
    if i == |p| - 1 {
      assert p[..i + 1] == p;
    } else {
      var front, tail := p[..|p| - 1], p[i..];
      CostSplit(net, front, i);
      assert front[..i + 1] == p[..i + 1];
      assert front[i..] == tail[..|tail| - 1];
      assert tail[|tail| - 2] == p[|p| - 2] && tail[|tail| - 1] == p[|p| - 1];
    }
  }

  lemma CostPrepend(net: Net, u: NodeId, p: seq<NodeId>)
    requires |p| >= 1
    ensures Cost(net, [u] + p) == Weight(net, u, p[0]) + Cost(net, p)
  {
    hide Weight;
    var whole := [u] + p;
    CostSplit(net, whole, 1);
    assert whole[..2] == [u, p[0]] && whole[1..] == p;
    assert [u, p[0]][..1] == [u];
  }
}
