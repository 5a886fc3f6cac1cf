/** The reachability graph a planner works from: links, the capped snapshot
    they are collected in, and the cheapest-link view of it. */
module Graph {
  import opened Common

  const MAX_GRAPH_NODES: nat := 4096
  const MAX_GRAPH_LINKS: nat := 32768
  const MAX_ROUTE_HOPS: nat := 32
  const MAX_ROUTE_RESULTS: nat := 32

  datatype NodeId = NodeId(name: string)
  datatype ProtocolId = ProtocolId(name: string)

  datatype Link = Link(
    from: NodeId,
    to: NodeId,
    protocol: ProtocolId,
    reachable: bool,
    latencyMs: Option<u32>)

  /** A cost model for one link; never negative, and a function of the link
      alone. */
  type Scorer = Link -> nat

  const HOP_PENALTY_MS: nat := 10
  const UNKNOWN_LATENCY_MS: nat := 1000

  function DefaultCost(link: Link): nat {
    HOP_PENALTY_MS + match link.latencyMs case None => UNKNOWN_LATENCY_MS case Some(ms) => ms
  }

  /** The links a request may use, together with what each costs. */
  datatype Net = Net(links: seq<Link>, scorer: Scorer)

  predicate Joins(link: Link, u: NodeId, v: NodeId) {
    link.from == u && link.to == v
  }

  ghost predicate Edge(net: Net, u: NodeId, v: NodeId) {
    exists link :: link in net.links && Joins(link, u, v)
  }

  /** The cost of the cheapest parallel link from u to v, if there is one. */
  ghost function Cheapest(links: seq<Link>, scorer: Scorer, u: NodeId, v: NodeId): (best: Option<nat>)
    ensures best.None? ==> forall link :: link in links ==> !Joins(link, u, v)
    ensures best.Some? ==> forall link :: link in links && Joins(link, u, v) ==> best.value <= scorer(link)
    ensures best.Some? ==> exists link :: link in links && Joins(link, u, v) && scorer(link) == best.value
  {
    if links == [] then None
    else
      var rest := Cheapest(links[1..], scorer, u, v);
      assert links == [links[0]] + links[1..];
      if !Joins(links[0], u, v) then rest
      else if rest.Some? && rest.value <= scorer(links[0]) then rest
      else Some(scorer(links[0]))
  }

  /** What one hop costs: the cheapest parallel link, or nothing where there
      is no link at all. */
  ghost function Weight(net: Net, u: NodeId, v: NodeId): nat {
    var best := Cheapest(net.links, net.scorer, u, v);
    if best.Some? then best.value else 0
  }

  lemma WeightIsCheapest(net: Net, u: NodeId, v: NodeId) returns (link: Link)
    requires Edge(net, u, v)
    ensures link in net.links && Joins(link, u, v) && net.scorer(link) == Weight(net, u, v)
    ensures forall other :: other in net.links && Joins(other, u, v) ==> Weight(net, u, v) <= net.scorer(other)
  {
    var best := Cheapest(net.links, net.scorer, u, v);
    link :| link in net.links && Joins(link, u, v) && net.scorer(link) == best.value;
  }

  // ----- adjacency lists -----

  /** The links that leave u, in order. */
  function StartingAt(links: seq<Link>, u: NodeId): seq<Link> {
    if links == [] then []
    else
      var rest := StartingAt(links[..|links| - 1], u);
      var last := links[|links| - 1];
      if last.from == u then rest + [last] else rest
  }

  lemma {:induction false} StartingAtMembers(links: seq<Link>, u: NodeId, link: Link)
    ensures link in StartingAt(links, u) <==> link in links && link.from == u
  {
    if links != [] {
      StartingAtMembers(links[..|links| - 1], u, link);
      assert links == links[..|links| - 1] + [links[|links| - 1]];
    }
  }

  /** The adjacency lists hold exactly the links of the net, each list those
      that leave its own node. */
  ghost predicate AdjacencyOf(net: Net, adjacency: map<NodeId, seq<Link>>) {
    forall u ::
      && (u in adjacency <==> StartingAt(net.links, u) != [])
      && (u in adjacency ==> adjacency[u] == StartingAt(net.links, u))
  }

  ghost function CountFrom(links: seq<Link>, nodes: set<NodeId>): nat {
    if links == [] then 0
    else CountFrom(links[..|links| - 1], nodes) + (if links[|links| - 1].from in nodes then 1 else 0)
  }

  lemma {:induction false} CountNone(links: seq<Link>)
    ensures CountFrom(links, {}) == 0
  {
    if links != [] {
      CountNone(links[..|links| - 1]);
    }
  }

  lemma {:induction false} CountOneMore(links: seq<Link>, nodes: set<NodeId>, u: NodeId)
    requires u !in nodes
    ensures CountFrom(links, nodes + {u}) == CountFrom(links, nodes) + |StartingAt(links, u)|
  {
    if links != [] {
      CountOneMore(links[..|links| - 1], nodes, u);
    }
  }

  lemma {:induction false} CountAtMost(links: seq<Link>, nodes: set<NodeId>)
    ensures CountFrom(links, nodes) <= |links|
  {
    if links != [] {
      CountAtMost(links[..|links| - 1], nodes);
    }
  }

  // ----- which links a request may use -----

  /** An empty set of protocols allows them all. */
  predicate Usable(link: Link, allowed: set<ProtocolId>) {
    link.reachable && (allowed == {} || link.protocol in allowed)
  }

  function UsableLinks(links: seq<Link>, allowed: set<ProtocolId>): (usable: seq<Link>)
    ensures |usable| <= |links|
    ensures forall link :: link in usable <==> link in links && Usable(link, allowed)
  {
    if links == [] then []
    else
      var rest, last := UsableLinks(links[..|links| - 1], allowed), links[|links| - 1];
      assert links == links[..|links| - 1] + [last];
      if Usable(last, allowed) then rest + [last] else rest
  }

  lemma StartingAtPush(links: seq<Link>, last: Link, u: NodeId)
    ensures StartingAt(links + [last], u) == StartingAt(links, u) + (if last.from == u then [last] else [])
  {
    assert (links + [last])[..|links|] == links;
  }

  lemma NoLinksNoLists(scorer: Scorer)
    ensures AdjacencyOf(Net([], scorer), map[])
  {
  }

  lemma AdjacencyPush(before: seq<Link>, scorer: Scorer, adjacency: map<NodeId, seq<Link>>, link: Link,
                      bucket: seq<Link>)
    requires AdjacencyOf(Net(before, scorer), adjacency)
    requires bucket == if link.from in adjacency then adjacency[link.from] else []
    ensures AdjacencyOf(Net(before + [link], scorer), adjacency[link.from := bucket + [link]])
  {
    forall u ensures StartingAt(before + [link], u) == StartingAt(before, u) + (if link.from == u then [link] else []) {
      StartingAtPush(before, link, u);
    }
  }

  method BuildAdjacency(snapshot: GraphSnapshot, allowed: set<ProtocolId>, ghost scorer: Scorer)
    returns (adjacency: map<NodeId, seq<Link>>)
    ensures AdjacencyOf(Net(UsableLinks(snapshot.links, allowed), scorer), adjacency)
  {
    hide AdjacencyOf;
    adjacency := map[];
    var links := snapshot.links;
    NoLinksNoLists(scorer);
    for i := 0 to |links|
      invariant AdjacencyOf(Net(UsableLinks(links[..i], allowed), scorer), adjacency)
    {
      var link := links[i];
      assert links[..i + 1][..i] == links[..i];
      if !link.reachable {
        continue;
      }
      if allowed != {} && link.protocol !in allowed {
        continue;
      }
      ghost var before := UsableLinks(links[..i], allowed);
      var bucket := if link.from in adjacency then adjacency[link.from] else [];
      AdjacencyPush(before, scorer, adjacency, link, bucket);
      adjacency := adjacency[link.from := bucket + [link]];
    }
    assert links[..|links|] == links;
  }

  // ----- the capped snapshot -----

  datatype Report = Report(from: string, target: string, protocol: string, reachable: bool, rttMs: Option<u32>)

  function LinkOf(report: Report): Link {
    Link(NodeId(report.from), NodeId(report.target), ProtocolId(report.protocol), report.reachable, report.rttMs)
  }

  function Endpoints(links: seq<Link>): set<NodeId> {
    (set i | 0 <= i < |links| :: links[i].from) + (set i | 0 <= i < |links| :: links[i].to)
  }

  /** The snapshot's own test: a link from a new node to itself counts as two. */
  predicate Fits(nodes: set<NodeId>, links: nat, link: Link) {
    && links < MAX_GRAPH_LINKS
    && |nodes| + (if link.from in nodes then 0 else 1) + (if link.to in nodes then 0 else 1) <= MAX_GRAPH_NODES
  }

  lemma NewNodes(nodes: set<NodeId>, link: Link)
    ensures |nodes + {link.from, link.to}| ==
            |nodes| + (if link.from in nodes then 0 else 1)
              + (if link.to in nodes || link.to == link.from then 0 else 1)
    ensures nodes + {link.from} + {link.to} == nodes + {link.from, link.to}
  {
    var one := nodes + {link.from};
    assert link.from in nodes ==> one == nodes;
    assert link.to in one ==> one + {link.to} == one;
    assert nodes + {link.from, link.to} == one + {link.to};
  }

  lemma EndpointsPush(links: seq<Link>, link: Link)
    ensures Endpoints(links + [link]) == Endpoints(links) + {link.from} + {link.to}
  {
    var more := links + [link];
    forall v | v in Endpoints(links) + {link.from} + {link.to} ensures v in Endpoints(more) {
      if v == link.from || v == link.to {
        assert more[|links|] == link;
      } else {
        var i :| 0 <= i < |links| && (links[i].from == v || links[i].to == v);
        assert more[i] == links[i];
      }
    }
  }

  /** Nodes and links grow together and stop at their caps; what is refused is
      counted. */
  class GraphSnapshot {
    var nodes: set<NodeId>
    var links: seq<Link>
    var droppedLinks: nat

    ghost predicate Valid()
      reads this
    {
      && nodes == Endpoints(links)
      && |nodes| <= MAX_GRAPH_NODES
      && |links| <= MAX_GRAPH_LINKS
    }

    constructor ()
      ensures Valid() && links == [] && droppedLinks == 0
    {
      nodes, links, droppedLinks := {}, [], 0;
    }

    /** Keeps the link exactly when the snapshot has room for it by its own
        count of new nodes. */
    method AddLink(link: Link) returns (kept: bool)
      requires Valid()
      modifies this
      ensures Valid()
      ensures kept == Fits(old(nodes), |old(links)|, link)
      ensures kept ==> |old(links)| < 32768 && |old(nodes) + {link.from, link.to}| <= 4096
      ensures !kept ==>
                || |old(links)| == 32768 || |old(nodes) + {link.from, link.to}| > 4096
                || (link.from == link.to && link.from !in old(nodes) && |old(nodes)| == 4095)
      ensures nodes == if kept then old(nodes) + {link.from, link.to} else old(nodes)
      ensures links == if kept then old(links) + [link] else old(links)
      ensures droppedLinks == if kept then old(droppedLinks) else old(droppedLinks) + 1
    {
      NewNodes(nodes, link);
      var wouldAddNodes := (if link.from in nodes then 0 else 1) + (if link.to in nodes then 0 else 1);
      if |links| >= MAX_GRAPH_LINKS || |nodes| + wouldAddNodes > MAX_GRAPH_NODES {
        droppedLinks := droppedLinks + 1;
        return false;
      }
      nodes := nodes + {link.from} + {link.to};
      links := links + [link];
      EndpointsPush(old(links), link);
      return true;
    }
  }

  /** A link is refused although its nodes would have fitted in exactly one
      case: a self-link on a node of its own, one short of the node cap. */
  lemma RefusedThoughItFits(nodes: set<NodeId>, links: nat, link: Link)
    requires |nodes| <= MAX_GRAPH_NODES && links < MAX_GRAPH_LINKS
    ensures !Fits(nodes, links, link) && |nodes + {link.from, link.to}| <= MAX_GRAPH_NODES
            <==> link.from == link.to && link.from !in nodes && |nodes| == MAX_GRAPH_NODES - 1
  {
    NewNodes(nodes, link);
  }

  /** The links of a list of reports that fit, in order, first come first
      kept. */
  function Kept(reports: seq<Report>): seq<Link> {
    if reports == [] then []
    else
      var rest, link := Kept(reports[..|reports| - 1]), LinkOf(reports[|reports| - 1]);
      if Fits(Endpoints(rest), |rest|, link) then rest + [link] else rest
  }

  /** A kept link says what its report says, of the same two nodes, and the kept
      ones keep the order of their reports. */
  lemma {:induction false} KeptSayWhatReportsSay(reports: seq<Report>, k: nat) returns (i: nat)
    requires k < |Kept(reports)|
    ensures i < |reports| && Kept(reports)[..k] == Kept(reports[..i])
    ensures var link := Kept(reports)[k];
            && link.from.name == reports[i].from && link.to.name == reports[i].target
            && link.protocol.name == reports[i].protocol
            && link.reachable == reports[i].reachable && link.latencyMs == reports[i].rttMs
  {
    hide Fits, Endpoints;
    var front := reports[..|reports| - 1];
    if k < |Kept(front)| {
      i := KeptSayWhatReportsSay(front, k);
      assert front[..i] == reports[..i];
    } else {
      i := |front|;
    }
  }

  /** Reports in order, each kept or counted as dropped. */
  method FromReports(reports: seq<Report>) returns (snapshot: GraphSnapshot)
    ensures fresh(snapshot) && snapshot.Valid()
    ensures snapshot.links == Kept(reports)
    ensures |snapshot.links| + snapshot.droppedLinks == |reports|
  {
    snapshot := new GraphSnapshot();
    for i := 0 to |reports|
      invariant fresh(snapshot) && snapshot.Valid()
      invariant snapshot.links == Kept(reports[..i])
      invariant |snapshot.links| + snapshot.droppedLinks == i
    {
      assert reports[..i + 1][..i] == reports[..i];
      var kept := snapshot.AddLink(LinkOf(reports[i]));
    }
    assert reports[..|reports|] == reports;
  }

  // ----- a link refused although it fits -----

  function Spoke(i: nat): string {
    seq(i, _ => 'n')
  }

  /** Reports of n links from one node to as many others. */
  function Star(n: nat): seq<Report> {
    if n == 0 then [] else Star(n - 1) + [Report(Spoke(0), Spoke(n), "radii", true, None)]
  }

  lemma SpokesDiffer(i: nat, j: nat)
    ensures Spoke(i) == Spoke(j) ==> i == j
  {
    assert |Spoke(i)| == i && |Spoke(j)| == j;
  }

  /** The nodes of a star of n links. */
  ghost predicate StarNodes(nodes: set<NodeId>, n: nat) {
    && |nodes| == (if n == 0 then 0 else n + 1)
    && (n > 0 ==> NodeId(Spoke(0)) in nodes)
    && forall i :: i > n ==> NodeId(Spoke(i)) !in nodes
  }

  lemma NoEndpoints()
    ensures Endpoints([]) == {} && StarNodes(Endpoints([]), 0)
  {
  }

  lemma OneMoreSpoke(nodes: set<NodeId>, n: nat, link: Link)
    requires StarNodes(nodes, n) && n + 1 < MAX_GRAPH_NODES
    requires link.from == NodeId(Spoke(0)) && link.to == NodeId(Spoke(n + 1))
    ensures Fits(nodes, n, link)
    ensures StarNodes(nodes + {link.from} + {link.to}, n + 1)
  {
    hide Spoke;
    SpokesDiffer(0, n + 1);
    NewNodes(nodes, link);
    forall i | i > n + 1 ensures NodeId(Spoke(i)) !in nodes + {link.from} + {link.to} {
      SpokesDiffer(i, 0);
      SpokesDiffer(i, n + 1);
    }
  }

  /** All of a star fits, up to the node cap. */
  lemma {:induction false} StarFits(n: nat)
    requires n < MAX_GRAPH_NODES
    ensures |Kept(Star(n))| == n && StarNodes(Endpoints(Kept(Star(n))), n)
  {
    hide Spoke, Endpoints, StarNodes, Fits;
    if n == 0 {
      NoEndpoints();
    } else {
      StarFits(n - 1);
      var before, report := Star(n - 1), Report(Spoke(0), Spoke(n), "radii", true, None);
      var rest, link := Kept(before), LinkOf(report);
      assert Star(n)[..|Star(n)| - 1] == before;
      OneMoreSpoke(Endpoints(rest), n - 1, link);
      EndpointsPush(rest, link);
    }
  }

  /** After a star of 4095 nodes, a link from a new node to itself is dropped,
      although that one node would still have fitted. */
  lemma SelfLinkDropped()
    ensures var n := MAX_GRAPH_NODES - 2;
            var self := Report(Spoke(n + 1), Spoke(n + 1), "radii", true, None);
            && Kept(Star(n) + [self]) == Kept(Star(n))
            && |Kept(Star(n))| < MAX_GRAPH_LINKS
            && |Endpoints(Kept(Star(n))) + {LinkOf(self).from, LinkOf(self).to}| <= MAX_GRAPH_NODES
  {
    hide Spoke, Endpoints, Star;
    var n := MAX_GRAPH_NODES - 2;
    var self := Report(Spoke(n + 1), Spoke(n + 1), "radii", true, None);
    StarFits(n);
    RefusedThoughItFits(Endpoints(Kept(Star(n))), |Kept(Star(n))|, LinkOf(self));
    assert (Star(n) + [self])[..|Star(n)|] == Star(n);
  }
}
