/** Planned routes, as the tunnels they are opened as. */
module Tunnel {
  import opened Common
  import G = Graph
  import opened Walks
  import opened Planner
  import opened Resolve
  import opened Candidates
  import opened Wire
  import opened Chain

  function ReportIn(report: GraphReport): G.Report {
    G.Report(report.from, report.target, report.protocol, report.reachable, report.rttMs)
  }

  /** The links a poller plans over, from the reports of a snapshot message. */
  function LinksIn(reports: seq<GraphReport>): seq<G.Link> {
    G.Kept(seq(|reports|, i requires 0 <= i < |reports| => ReportIn(reports[i])))
  }

  function Pairs(addrs: seq<ListenAddr>): seq<(string, string)> {
    seq(|addrs|, i requires 0 <= i < |addrs| => (addrs[i].addr, addrs[i].role))
  }

  /** The registry a poller resolves against; a later entry for a node replaces
      an earlier one. */
  function ListenersIn(nodes: seq<NodeInfo>): Listeners {
    if nodes == [] then map[]
    else
      var last := nodes[|nodes| - 1];
      ListenersIn(nodes[..|nodes| - 1])[last.nodeId := Pairs(last.listenAddrs)]
  }

  function TunnelHops(route: ResolvedRoute): (hops: seq<RouteHop>)
    ensures |hops| == |route.hops|
    ensures forall i :: 0 <= i < |hops| ==> hops[i] == RouteHop(route.hops[i].nodeId.name, route.hops[i].addr)
  {
    seq(|route.hops|, i requires 0 <= i < |route.hops| => RouteHop(route.hops[i].nodeId.name, route.hops[i].addr))
  }

  lemma {:induction false} KeptLinksAreReported(reports: seq<G.Report>, link: G.Link)
    requires link in G.Kept(reports)
    ensures exists i :: 0 <= i < |reports| && link == G.LinkOf(reports[i])
  {
    var front, last := reports[..|reports| - 1], reports[|reports| - 1];
    if link in G.Kept(front) {
      KeptLinksAreReported(front, link);
      var i :| 0 <= i < |front| && link == G.LinkOf(front[i]);
      assert reports[i] == front[i];
    } else {
      assert link == G.LinkOf(last);
    }
  }

  /** A link planned over says what the report it comes from says. */
  lemma LinksSayWhatReportsSay(reports: seq<GraphReport>, k: nat) returns (i: nat)
    requires k < |LinksIn(reports)|
    ensures i < |reports|
    ensures var link := LinksIn(reports)[k];
            && link.from.name == reports[i].from && link.to.name == reports[i].target
            && link.protocol.name == reports[i].protocol
            && link.reachable == reports[i].reachable && link.latencyMs == reports[i].rttMs
  {
    i := G.KeptSayWhatReportsSay(seq(|reports|, j requires 0 <= j < |reports| => ReportIn(reports[j])), k);
  }

  lemma PairsAre(addrs: seq<ListenAddr>)
    ensures |Pairs(addrs)| == |addrs|
    ensures forall k :: 0 <= k < |addrs| ==> Pairs(addrs)[k] == (addrs[k].addr, addrs[k].role)
  {
  }

  lemma {:induction false} ListedNames(nodes: seq<NodeInfo>, name: string)
    ensures name in ListenersIn(nodes) <==> exists i :: 0 <= i < |nodes| && nodes[i].nodeId == name
  {
    hide Pairs;
    if nodes != [] {
      var front := nodes[..|nodes| - 1];
      ListedNames(front, name);
      assert forall i :: 0 <= i < |front| ==> front[i] == nodes[i];
    }
  }

  /** The last entry for a node is the one listed, address by address, and only
      nodes with an entry are. */
  lemma {:induction false} LastEntryIsListed(nodes: seq<NodeInfo>, i: nat)
    requires i < |nodes| && forall j :: i < j < |nodes| ==> nodes[j].nodeId != nodes[i].nodeId
    ensures nodes[i].nodeId in ListenersIn(nodes)
    ensures var listed := ListenersIn(nodes)[nodes[i].nodeId];
            && |listed| == |nodes[i].listenAddrs|
            && forall k :: 0 <= k < |listed| ==>
                 listed[k] == (nodes[i].listenAddrs[k].addr, nodes[i].listenAddrs[k].role)
    ensures forall name :: name in ListenersIn(nodes) <==> exists j :: 0 <= j < |nodes| && nodes[j].nodeId == name
  {
    hide Pairs;
    var front := nodes[..|nodes| - 1];
    PairsAre(nodes[i].listenAddrs);
    if i < |front| {
      LastEntryIsListed(front, i);
    }
    forall name ensures name in ListenersIn(nodes) <==> exists j :: 0 <= j < |nodes| && nodes[j].nodeId == name {
      ListedNames(nodes, name);
    }
  }

  lemma {:induction false} AddressesAreBounded(nodes: seq<NodeInfo>, name: string, addr: string, role: string)
    requires forall i :: 0 <= i < |nodes| ==> ValidListenAddrs(nodes[i].listenAddrs)
    requires name in ListenersIn(nodes) && (addr, role) in ListenersIn(nodes)[name]
    ensures |addr| <= MAX_LISTEN_ADDR_LEN
  {
    var last := nodes[|nodes| - 1];
    if name == last.nodeId {
      assert ValidListenAddrs(nodes[|nodes| - 1].listenAddrs);
      var i :| 0 <= i < |last.listenAddrs| && Pairs(last.listenAddrs)[i] == (addr, role);
    } else {
      AddressesAreBounded(nodes[..|nodes| - 1], name, addr, role);
    }
  }

  /** A job over a snapshot message that passed validation. */
  ghost predicate FromSnapshot(job: Job, nodes: seq<NodeInfo>, reports: seq<GraphReport>) {
    && ValidMessage(GraphSnapshot(nodes, reports))
    && job.links == LinksIn(reports)
    && job.listeners == ListenersIn(nodes)
  }

  lemma ListenAddrsValid(nodes: seq<NodeInfo>, reports: seq<GraphReport>)
    requires ValidMessage(GraphSnapshot(nodes, reports))
    ensures forall j :: 0 <= j < |nodes| ==> ValidListenAddrs(nodes[j].listenAddrs)
  {
    hide ValidListenAddrs, ValidReport;
  }

  lemma HopsAreBounded(job: Job, nodes: seq<NodeInfo>, reports: seq<GraphReport>, hopRole: RoleId,
                       t: nat, p: seq<G.NodeId>, route: ResolvedRoute, i: nat)
    requires FromSnapshot(job, nodes, reports) && t < |job.targets|
    requires Follows(job, hopRole, t, p, route) && i < |route.hops|
    ensures ValidNodeId(route.hops[i].nodeId.name) && |route.hops[i].addr| <= MAX_LISTEN_ADDR_LEN
  {
    hide Cost, Simple, ValidHello;
    var net := GoalTo(job, t).net;
    SameLength(route.hops);
    assert NodeSequence(route.hops)[i] == p[1..][i] == p[i + 1];
    assert G.Edge(net, p[i + 1 - 1], p[i + 1]);
    var link :| link in net.links && G.Joins(link, p[i], p[i + 1]);
    var all := seq(|reports|, k requires 0 <= k < |reports| => ReportIn(reports[k]));
    KeptLinksAreReported(all, link);
    var k :| 0 <= k < |all| && link == G.LinkOf(all[k]);
    assert ValidReport(reports[k].from, reports[k].target, reports[k].protocol, None);
    var role := if i + 1 == |p| - 1 then job.targetRole else hopRole;
    assert FirstOffer(job.listeners, p[i + 1], role, route.hops[i + 1 - 1].addr);
    assert forall j :: 0 <= j < |nodes| ==> ValidListenAddrs(nodes[j].listenAddrs) by {
      ListenAddrsValid(nodes, reports);
    }
    AddressesAreBounded(nodes, p[i + 1].name, route.hops[i].addr, role.name);
  }

  lemma HopsAreDistinct(job: Job, hopRole: RoleId, t: nat, p: seq<G.NodeId>, route: ResolvedRoute)
    requires t < |job.targets| && Follows(job, hopRole, t, p, route)
    ensures 0 < |route.hops| <= MAX_TUNNEL_HOPS
    ensures DistinctIds(TunnelHops(route))
  {
    hide Cost, G.Edge, FirstOffer;
    SameLength(route.hops);
    var hops := TunnelHops(route);
    forall i, j | 0 <= i < j < |hops| ensures hops[i].nodeId != hops[j].nodeId {
      assert NodeSequence(route.hops)[i] == p[i + 1] && NodeSequence(route.hops)[j] == p[j + 1];
    }
  }

  /** Any route ranked over a validated snapshot opens as a tunnel every reader
      takes. Each relay it names, handed its tail in turn, finds itself
      addressed and no loop, and refuses at most for its own length limit. */
  lemma RoutesFormTunnels(job: Job, nodes: seq<NodeInfo>, reports: seq<GraphReport>, hopRole: RoleId,
                          plans: seq<seq<RouteCandidate>>, route: ResolvedRoute, i: nat, config: RelayConfig)
    requires FromSnapshot(job, nodes, reports)
    requires Planned(job, plans) && job.hopRole == Some(hopRole) && route in Ranked(job, plans)
    requires i < |route.hops| && config.nodeId == TunnelHops(route)[i].nodeId
    ensures Readable(TunnelOpen(TunnelHops(route)[i..]))
    ensures Refusal(TunnelHops(route)[i..], config)
            == if |route.hops| - i > config.maxHops then Some(TOO_LONG) else None
  {
    hide Follows, FromSnapshot, Planned, Ranked, Readable;
    var t, p := ResultsAreRoutes(job, hopRole, plans, route);
    HopsAreDistinct(job, hopRole, t, p, route);
    var hops := TunnelHops(route);
    forall k | 0 <= k < |hops| ensures ValidNodeId(hops[k].nodeId) && |hops[k].addr| <= MAX_LISTEN_ADDR_LEN {
      HopsAreBounded(job, nodes, reports, hopRole, t, p, route, k);
    }
    var tail := hops[i..];
    assert tail[0] == hops[i];
    BoundedTunnelIsReadable(tail);
  }
}
