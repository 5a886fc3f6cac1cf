/** The route planner: the best loop-free routes, cheapest first. */
module Planner {
  import opened Common
  import opened Graph
  import opened Walks
  import opened Search
  import opened Yen

  const RADII: ProtocolId := ProtocolId("radii")

  datatype RouteRequest = RouteRequest(
    source: NodeId,
    target: NodeId,
    allowedProtocols: seq<ProtocolId>,
    maxHops: nat)

  datatype RouteCandidate = RouteCandidate(hops: seq<NodeId>, protocol: ProtocolId, score: nat)

  function Allowed(request: RouteRequest): set<ProtocolId> {
    set p | p in request.allowedProtocols
  }

  function ClampedHops(request: RouteRequest): nat {
    Min(request.maxHops, MAX_ROUTE_HOPS)
  }

  function ClampedLimit(limit: nat): nat {
    Min(limit, MAX_ROUTE_RESULTS)
  }

  /** What a request asks of a graph: routes over reachable links of allowed
      protocols, within the clamped hop budget. */
  function GoalOf(scorer: Scorer, links: seq<Link>, request: RouteRequest): Goal {
    Goal(Net(UsableLinks(links, Allowed(request)), scorer), request.source, request.target, ClampedHops(request))
  }

  /** These are `limit` best routes: loop-free, distinct, in ascending cost,
      and no route left out is cheaper than one returned. Fewer than `limit`
      of them are all there are. */
  ghost predicate BestRoutes(g: Goal, limit: nat, routes: seq<RouteCandidate>) {
    && |routes| <= limit
    && (forall i :: 0 <= i < |routes| ==> IsRoute(g, routes[i].hops) && routes[i].score == Cost(g.net, routes[i].hops))
    && (forall i, j :: 0 <= i < j < |routes| ==> routes[i].hops != routes[j].hops && routes[i].score <= routes[j].score)
    && (forall p :: IsRoute(g, p) ==>
          || (exists i :: 0 <= i < |routes| && routes[i].hops == p)
          || (|routes| == limit && forall i :: 0 <= i < |routes| ==> routes[i].score <= Cost(g.net, p)))
  }

  /** The protocol shown for a route is that of a cheapest link into its
      target; a route that never leaves its source shows the default. */
  ghost predicate LastHopProtocol(net: Net, route: RouteCandidate) {
    var n := |route.hops|;
    if n <= 1 then route.protocol == RADII
    else exists link :: link in net.links && Joins(link, route.hops[n - 2], route.hops[n - 1])
                        && net.scorer(link) == Weight(net, route.hops[n - 2], route.hops[n - 1])
                        && link.protocol == route.protocol
  }

  function TotalCost(scorer: Scorer, links: seq<Link>): nat {
    if links == [] then 0 else TotalCost(scorer, links[..|links| - 1]) + scorer(links[|links| - 1])
  }

  lemma {:induction false} CheapestTotal(net: Net, hops: seq<NodeId>, links: seq<Link>)
    requires CheapestLinks(net, hops, links)
    ensures TotalCost(net.scorer, links) == Cost(net, hops)
  {
    hide Weight;
    if links != [] {
      CheapestTotal(net, hops[..|hops| - 1], links[..|links| - 1]);
    }
  }

  /** Default costs are whole milliseconds, and any clamped route's total stays
      far below 2 to the 53rd, so adding them as doubles is exact. */
  lemma {:induction false} DefaultTotalsAreExact(links: seq<Link>)
    requires |links| <= MAX_ROUTE_HOPS
    ensures TotalCost(DefaultCost, links) <= |links| * 0x1_0000_0009
    ensures TotalCost(DefaultCost, links) < 0x20_0000_0000_0000
  {
    if links != [] {
      DefaultTotalsAreExact(links[..|links| - 1]);
    }
  }

  function CandidateOf(path: Path): RouteCandidate {
    RouteCandidate(path.hops, if path.links == [] then RADII else path.links[|path.links| - 1].protocol, path.cost)
  }

  // ----- the pieces of one round -----

  lemma BanStep(before: seq<Path>, path: Path, root: seq<NodeId>, v: NodeId)
    requires |root| > 0
    ensures Shares(before + [path], root + [v]) <==> Shares(before, root + [v]) || root + [v] <= path.hops
    ensures root + [v] <= path.hops <==>
            |path.hops| > |root| && path.hops[..|root|] == root && path.hops[|root|] == v
  {
    var now := before + [path];
    if Shares(before, root + [v]) {
      SharesMore(before, path, root + [v]);
    }
    if root + [v] <= path.hops {
      assert now[|before|] == path;
    }
    if |path.hops| > |root| && path.hops[..|root|] == root && path.hops[|root|] == v {
      assert path.hops[..|root| + 1] == root + [v];
    }
  }

  /** Collects the next hop of every path through this root. */
  method BannedNextHops(paths: seq<Path>, root: seq<NodeId>) returns (banned: set<(NodeId, NodeId)>)
    requires |root| > 0
    requires forall k :: 0 <= k < |paths| ==> paths[k].hops != root
    ensures BansNext(paths, root, banned)
  {
    banned := {};
    var n := |root|;
    for k := 0 to |paths|
      invariant BansNext(paths[..k], root, banned)
    {
      var hops := paths[k].hops;
      ghost var before, now := paths[..k], paths[..k + 1];
      assert now == before + [paths[k]];
      ghost var was := banned;
      if |hops| > n && hops[..n] == root {
        banned := banned + {(hops[n - 1], hops[n])};
      }
      forall u, v ensures (u, v) in banned <==> u == root[n - 1] && Shares(now, root + [v]) {
        BanStep(before, paths[k], root, v);
      }
    }
    assert paths[..|paths|] == paths;
  }

  /** The position of the first cheapest path. */
  method CheapestIndex(paths: seq<Path>) returns (best: nat)
    requires |paths| > 0
    ensures best < |paths|
    ensures forall k :: 0 <= k < |paths| ==> paths[best].cost <= paths[k].cost
    ensures forall k :: 0 <= k < best ==> paths[best].cost < paths[k].cost
  {
    best := 0;
    for k := 0 to |paths|
      invariant best < |paths|
      invariant forall j :: 0 <= j < k ==> paths[best].cost <= paths[j].cost
      invariant forall j :: 0 <= j < best ==> paths[best].cost < paths[j].cost
      invariant best < k || best == 0
    {
      if paths[k].cost < paths[best].cost {
        best := k;
      }
    }
  }

  lemma RootOfRoute(g: Goal, previous: Path, i: nat)
    requires GoodRoute(g, previous) && i + 1 < |previous.hops|
    ensures |previous.links| + 1 == |previous.hops|
    ensures var root := previous.hops[..i + 1];
            && IsWalk(g.net, root) && Simple(root) && root[0] == g.source && g.target !in root
            && |root| <= g.maxHops
            && CheapestLinks(g.net, root, previous.links[..i])
  {
    hide Weight, Edge, Cost;
    var n := |previous.hops|;
    assert previous.hops[n - 1] == g.target;
  }

  lemma JoinedLinks(net: Net, root: seq<NodeId>, rootLinks: seq<Link>, spur: Path)
    requires CheapestLinks(net, root, rootLinks) && GoodPath(net, spur)
    requires spur.hops[0] == root[|root| - 1]
    ensures CheapestLinks(net, root[..|root| - 1] + spur.hops, rootLinks + spur.links)
  {
    hide Weight, Cost;
    var i := |root| - 1;
    var hops, links := root[..i] + spur.hops, rootLinks + spur.links;
    forall j | 0 <= j < |links|
      ensures links[j] in net.links && Joins(links[j], hops[j], hops[j + 1])
      ensures net.scorer(links[j]) == Weight(net, hops[j], hops[j + 1])
    {
      if j < i {
        assert links[j] == rootLinks[j] && hops[j] == root[j];
        assert hops[j + 1] == root[j + 1];
      } else {
        assert links[j] == spur.links[j - i] && hops[j] == spur.hops[j - i] && hops[j + 1] == spur.hops[j + 1 - i];
      }
    }
  }

  lemma RootIsNoRoute(g: Goal, paths: seq<Path>, root: seq<NodeId>)
    requires AllGood(g, paths) && g.target !in root
    ensures forall k :: 0 <= k < |paths| ==> paths[k].hops != root
  {
    forall k | 0 <= k < |paths| ensures paths[k].hops != root {
      assert GoodRoute(g, paths[k]);
      assert paths[k].hops[|paths[k].hops| - 1] == g.target;
    }
  }

  lemma BothGood(g: Goal, accepted: seq<Path>, pool: seq<Path>)
    requires AllGood(g, accepted) && AllGood(g, pool)
    ensures AllGood(g, accepted + pool)
  {
  }

  lemma SpurPath(g: Goal, paths: seq<Path>, root: seq<NodeId>, rootLinks: seq<Link>, q: Query, spur: Path, found: Path)
    requires IsWalk(g.net, root) && Simple(root) && root[0] == g.source && g.target !in root
    requires CheapestLinks(g.net, root, rootLinks)
    requires SpurQuery(g, paths, root, q) && Optimal(q, Some(spur))
    requires found.hops == root[..|root| - 1] + spur.hops && found.links == rootLinks + spur.links
    requires found.cost == TotalCost(g.net.scorer, found.links)
    ensures GoodRoute(g, found) && root < found.hops
    ensures !Shares(paths, found.hops[..|root| + 1])
    ensures found.cost == Cost(g.net, root) + spur.cost
  {
    hide Shares, Weight, Edge;
    SpurIsRoute(g, paths, root, q, spur.hops);
    JoinedLinks(g.net, root, rootLinks, spur);
    CheapestTotal(g.net, found.hops, found.links);
  }

  /** The path a spur search completes, and why it is worth pooling. */
  lemma SpurFound(g: Goal, accepted: seq<Path>, pool: seq<Path>, dev: seq<nat>, previous: Path, i: nat,
                  q: Query, spur: Path, found: Path)
    requires State(g, accepted, pool, dev) && GoodRoute(g, previous) && previous in accepted
    requires i + 1 < |previous.hops|
    requires SpurQuery(g, accepted + pool, previous.hops[..i + 1], q)
    requires Optimal(q, Some(spur))
    requires found.hops == previous.hops[..i] + spur.hops
    requires found.links == previous.links[..i] + spur.links
    requires found.cost == TotalCost(g.net.scorer, found.links)
    ensures State(g, accepted, pool + [found], dev + [i])
    ensures !Known(accepted + pool, found.hops)
    ensures Covered(g, accepted, pool + [found], previous.hops[..i + 1])
  {
    var root := previous.hops[..i + 1];
    assert root[..i] == previous.hops[..i];
    RootOfRoute(g, previous, i);
    SpurPath(g, accepted + pool, root, previous.links[..i], q, spur, found);
    assert Shares(accepted, root) by {
      var k :| 0 <= k < |accepted| && accepted[k] == previous;
      assert root <= accepted[k].hops;
    }
    CoveredWithSpur(g, accepted, pool, dev, root, q, spur.cost, found);
    PoolGrows(g, accepted, pool, dev, root, found);
  }

  lemma FewerLinks(hops: nat, few: nat, many: nat)
    requires few <= many
    ensures hops * few <= hops * many && few * hops <= many * hops
  {
  }

  // ----- plan -----

  lemma NoSpur(g: Goal, accepted: seq<Path>, pool: seq<Path>, dev: seq<nat>, root: seq<NodeId>, q: Query)
    requires State(g, accepted, pool, dev) && |root| > 0 && SpurQuery(g, accepted + pool, root, q)
    requires Optimal(q, None)
    ensures Covered(g, accepted, pool, root)
  {
    CoveredWithoutSpur(g, accepted, pool, dev, root, q);
  }

  /** One spur search out of the newest accepted route: pools what it finds,
      and leaves its root covered either way. */
  method Spur(g: Goal, adjacency: map<NodeId, seq<Link>>, accepted: seq<Path>, pool: seq<Path>,
              ghost dev: seq<nat>, i: nat)
    returns (pool': seq<Path>, ghost dev': seq<nat>, ghost examined: nat)
    requires AdjacencyOf(g.net, adjacency)
    requires State(g, accepted, pool, dev) && i + 1 < |accepted[|accepted| - 1].hops|
    requires RootsCovered(g, accepted, pool, accepted[|accepted| - 1].hops, i)
    ensures State(g, accepted, pool', dev')
    ensures RootsCovered(g, accepted, pool', accepted[|accepted| - 1].hops, i + 1)
    ensures examined <= g.maxHops * |g.net.links|
  {
    hide Distinct, Ascending, NoneCheaper, AllDeviate, RootsCovered, Covered, Optimal, AdjacencyOf, BansNext,
         Route, GoodPath, IsWalk, Simple, CheapestLinks, Shares, Answers;
    var previous := accepted[|accepted| - 1];
    assert GoodRoute(g, previous);
    var spurNode := previous.hops[i];
    var root := previous.hops[..i + 1];
    RootOfRoute(g, previous, i);
    BothGood(g, accepted, pool);
    RootIsNoRoute(g, accepted + pool, root);

    var bannedEdges := BannedNextHops(accepted + pool, root);
    var bannedNodes := set v | v in root[..i];
    var q := Query(g.net, spurNode, g.target, g.maxHops - i, bannedNodes, bannedEdges);
    var found;
    found, examined := ShortestPath(q, adjacency);
    FewerLinks(|g.net.links|, g.maxHops - i, g.maxHops);
    if found.None? {
      NoSpur(g, accepted, pool, dev, root, q);
      SpurDone(g, accepted, pool, previous.hops, i);
      return pool, dev, examined;
    }
    var spur := found.value;
    var links := previous.links[..i] + spur.links;
    var combined := Path(root[..i] + spur.hops, links, TotalCost(g.net.scorer, links));
    assert root[..i] == previous.hops[..i];
    SpurFound(g, accepted, pool, dev, previous, i, q, spur, combined);
    RootsCoverGrows(g, accepted, pool, combined, previous.hops, i);
    SpurDone(g, accepted, pool + [combined], previous.hops, i);
    pool', dev' := pool, dev;
    if !Known(accepted + pool, combined.hops) {
      pool', dev' := pool + [combined], dev + [i];
    }
  }

  /** What the accepted routes amount to, once full or exhausted. */
  lemma Best(g: Goal, accepted: seq<Path>, pool: seq<Path>, dev: seq<nat>, limit: nat, routes: seq<RouteCandidate>)
    requires State(g, accepted, pool, dev) && |accepted| <= limit
    requires |accepted| < limit ==> forall p :: IsRoute(g, p) ==> Known(accepted, p)
    requires |routes| == |accepted| && forall k :: 0 <= k < |routes| ==> routes[k] == CandidateOf(accepted[k])
    ensures BestRoutes(g, limit, routes)
    ensures forall k :: 0 <= k < |routes| ==> LastHopProtocol(g.net, routes[k])
  {
    hide Route, Cost;
    forall k | 0 <= k < |routes|
      ensures IsRoute(g, routes[k].hops) && routes[k].score == Cost(g.net, routes[k].hops)
      ensures LastHopProtocol(g.net, routes[k])
    {
      assert GoodRoute(g, accepted[k]);
    }
    forall i, j | 0 <= i < j < |routes| ensures routes[i].hops != routes[j].hops && routes[i].score <= routes[j].score {
      assert (accepted + pool)[i] == accepted[i] && (accepted + pool)[j] == accepted[j];
    }
    forall p | IsRoute(g, p)
      ensures
        || (exists i :: 0 <= i < |routes| && routes[i].hops == p)
        || (|routes| == limit && forall i :: 0 <= i < |routes| ==> routes[i].score <= Cost(g.net, p))
    {
      if Known(accepted, p) {
        var k :| 0 <= k < |accepted| && accepted[k].hops == p;
        assert routes[k].hops == p;
      }
    }
  }

  lemma NothingAsked(g: Goal)
    ensures BestRoutes(g, 0, [])
  {
  }

  lemma NoRoute(g: Goal, q: Query, limit: nat)
    requires q == Query(g.net, g.source, g.target, g.maxHops, {}, {}) && Optimal(q, None)
    ensures BestRoutes(g, limit, [])
  {
    hide Edge;
    forall p ensures !IsRoute(g, p) {
      assert !Answers(q, p);
    }
  }

  lemma HopsFit(g: Goal, accepted: seq<Path>, pool: seq<Path>, dev: seq<nat>)
    requires State(g, accepted, pool, dev)
    ensures 0 < |accepted[|accepted| - 1].hops| <= g.maxHops + 1
  {
    assert GoodRoute(g, accepted[|accepted| - 1]);
  }

  lemma AllRootsCovered(g: Goal, accepted: seq<Path>, pool: seq<Path>, dev: seq<nat>)
    requires State(g, accepted, pool, dev)
    requires |accepted[|accepted| - 1].hops| > 0
    requires RootsCovered(g, accepted, pool, accepted[|accepted| - 1].hops, |accepted[|accepted| - 1].hops| - 1)
    ensures forall r :: Root(accepted, r) ==> Covered(g, accepted, pool, r)
  {
    hide GoodRoute;
    assert GoodRoute(g, accepted[|accepted| - 1]);
    RoundDone(g, accepted, pool, accepted[|accepted| - 1]);
  }

  lemma AllAccepted(g: Goal, accepted: seq<Path>, pool: seq<Path>, dev: seq<nat>)
    requires State(g, accepted, pool, dev) && pool == []
    requires forall r :: Root(accepted, r) ==> Covered(g, accepted, pool, r)
    ensures forall p :: IsRoute(g, p) ==> Known(accepted, p)
  {
    hide IsRoute, Root, Covered, Known;
    forall p | IsRoute(g, p) ensures Known(accepted, p) {
      Exhausted(g, accepted, p);
    }
  }

  lemma MoreWork(searches: nat, examined: nat, tried: nat, more: nat, work: nat)
    requires examined <= searches * work && more <= tried * work
    ensures examined + more <= (searches + tried) * work
  {
  }

  /** The work spent by one first search and this many rounds of spurs. */
  predicate WithinWork(searches: nat, examined: nat, rounds: nat, maxHops: nat, links: nat) {
    && searches <= 1 + rounds * maxHops
    && examined <= searches * (maxHops * links)
  }

  lemma OneSearch(examined: nat, maxHops: nat, links: nat)
    requires examined <= maxHops * links
    ensures WithinWork(1, examined, 0, maxHops, links)
  {
  }

  lemma OneRoundMore(searches: nat, examined: nat, rounds: nat, maxHops: nat, links: nat, tried: nat, more: nat)
    requires WithinWork(searches, examined, rounds, maxHops, links)
    requires tried <= maxHops && more <= tried * (maxHops * links)
    ensures WithinWork(searches + tried, examined + more, rounds + 1, maxHops, links)
  {
    MoreWork(searches, examined, tried, more, maxHops * links);
    assert (rounds + 1) * maxHops == rounds * maxHops + maxHops;
  }

  lemma LooserWork(searches: nat, examined: nat, rounds: nat, maxHops: nat, links: nat, rounds': nat, links': nat)
    requires WithinWork(searches, examined, rounds, maxHops, links) && rounds <= rounds' && links <= links'
    ensures WithinWork(searches, examined, rounds', maxHops, links')
  {
    FewerLinks(maxHops, rounds, rounds');
    FewerLinks(maxHops, links, links');
    FewerLinks(searches, maxHops * links, maxHops * links');
  }

  /** Over any snapshot within its caps, one call makes at most 993 searches
      and looks at just over a thousand million links. */
  lemma CeilingsBoundWork(searches: nat, examined: nat, limit: nat, request: RouteRequest, links: nat)
    requires 0 < limit && WithinWork(searches, examined, ClampedLimit(limit) - 1, ClampedHops(request), links)
    requires links <= MAX_GRAPH_LINKS
    ensures searches <= 993
    ensures examined <= 993 * 32 * 32768
  {
    var rounds, hops := ClampedLimit(limit) - 1, ClampedHops(request);
    FewerLinks(rounds, hops, 32);
    FewerLinks(hops, links, MAX_GRAPH_LINKS);
    FewerLinks(MAX_GRAPH_LINKS, hops, 32);
    FewerLinks(searches, hops * links, 32 * 32768);
    FewerLinks(32 * 32768, searches, 993);
  }

  /** All spur searches out of the newest accepted route. */
  method SpurRound(g: Goal, adjacency: map<NodeId, seq<Link>>, accepted: seq<Path>, pool: seq<Path>,
                   ghost dev: seq<nat>)
    returns (pool': seq<Path>, ghost dev': seq<nat>, ghost searches: nat, ghost examined: nat)
    requires AdjacencyOf(g.net, adjacency)
    requires State(g, accepted, pool, dev)
    requires RootsCovered(g, accepted, pool, accepted[|accepted| - 1].hops, 0)
    ensures State(g, accepted, pool', dev')
    ensures forall r :: Root(accepted, r) ==> Covered(g, accepted, pool', r)
    ensures searches <= g.maxHops
    ensures examined <= searches * (g.maxHops * |g.net.links|)
  {
    hide Distinct, Ascending, NoneCheaper, AllDeviate, AllGood, RootsCovered, Covered, AdjacencyOf, Root;
    var previous := accepted[|accepted| - 1];
    HopsFit(g, accepted, pool, dev);
    pool', dev', searches, examined := pool, dev, 0, 0;
    ghost var work := g.maxHops * |g.net.links|;
    for i := 0 to |previous.hops| - 1
      invariant State(g, accepted, pool', dev')
      invariant RootsCovered(g, accepted, pool', previous.hops, i)
      invariant searches == i
      invariant examined <= searches * work
    {
      ghost var more;
      pool', dev', more := Spur(g, adjacency, accepted, pool', dev', i);
      MoreWork(searches, examined, 1, more, work);
      searches, examined := searches + 1, examined + more;
    }
    AllRootsCovered(g, accepted, pool', dev');
  }

  // ----- what a plan is worth, in terms of the snapshot alone -----

  /** These links of the snapshot lead along these nodes from the request's
      source to its target: each is reachable, of a protocol asked for if any
      is, no node repeats, and there are no more than `maxHops` or 32 of them. */
  ghost predicate Trail(links: seq<Link>, request: RouteRequest, hops: seq<NodeId>, trail: seq<Link>) {
    && |hops| == |trail| + 1
    && hops[0] == request.source
    && hops[|trail|] == request.target
    && |trail| <= request.maxHops && |trail| <= 32
    && (forall i, j :: 0 <= i < j < |hops| ==> hops[i] != hops[j])
    && (forall i :: 0 <= i < |trail| ==>
          && trail[i] in links
          && trail[i].reachable
          && (request.allowedProtocols == [] || trail[i].protocol in request.allowedProtocols)
          && trail[i].from == hops[i]
          && trail[i].to == hops[i + 1])
  }

  /** A route is the trail it claims to be: over it the links cost its score,
      and the last one has its protocol. */
  ghost predicate Realised(scorer: Scorer, links: seq<Link>, request: RouteRequest, route: RouteCandidate) {
    exists trail: seq<Link> ::
      && Trail(links, request, route.hops, trail)
      && TotalCost(scorer, trail) == route.score
      && route.protocol == (if trail == [] then ProtocolId("radii") else trail[|trail| - 1].protocol)
  }

  /** Some route takes these nodes at no more than this cost. */
  ghost predicate Offered(routes: seq<RouteCandidate>, hops: seq<NodeId>, cost: nat) {
    exists i :: 0 <= i < |routes| && routes[i].hops == hops && routes[i].score <= cost
  }

  /** The `limit` best routes, but at most 32: every route is a trail, none
      repeats another's nodes, they ascend, and every trail there is is offered
      at no more than it costs, or the page is full of routes no dearer. */
  ghost predicate BestTrails(scorer: Scorer, links: seq<Link>, request: RouteRequest, limit: nat,
                             routes: seq<RouteCandidate>) {
    && |routes| <= limit && |routes| <= 32
    && (forall i :: 0 <= i < |routes| ==> Realised(scorer, links, request, routes[i]))
    && (forall i, j :: 0 <= i < j < |routes| ==> routes[i].hops != routes[j].hops && routes[i].score <= routes[j].score)
    && (forall hops, trail :: Trail(links, request, hops, trail) ==>
          || Offered(routes, hops, TotalCost(scorer, trail))
          || ((|routes| == limit || |routes| == 32)
              && forall i :: 0 <= i < |routes| ==> routes[i].score <= TotalCost(scorer, trail)))
  }

  lemma AllowedMembers(request: RouteRequest)
    ensures Allowed(request) == {} <==> request.allowedProtocols == []
    ensures forall p :: p in Allowed(request) <==> p in request.allowedProtocols
  {
    if request.allowedProtocols != [] {
      assert request.allowedProtocols[0] in Allowed(request);
    }
  }

  /** The links a plan may use, one by one. */
  lemma UsableExactly(links: seq<Link>, request: RouteRequest, link: Link)
    ensures link in UsableLinks(links, Allowed(request)) <==>
            link in links && link.reachable
            && (request.allowedProtocols == [] || link.protocol in request.allowedProtocols)
  {
    AllowedMembers(request);
  }

  lemma {:induction false} NoCheaperTrail(net: Net, hops: seq<NodeId>, trail: seq<Link>)
    requires |hops| == |trail| + 1
    requires forall i :: 0 <= i < |trail| ==> trail[i] in net.links && Joins(trail[i], hops[i], hops[i + 1])
    ensures Cost(net, hops) <= TotalCost(net.scorer, trail)
  {
    hide Weight;
    if trail != [] {
      var n := |trail|;
      NoCheaperTrail(net, hops[..n], trail[..n - 1]);
      assert hops[..|hops| - 1] == hops[..n];
      assert Edge(net, hops[n - 1], hops[n]) by { assert trail[n - 1] in net.links; }
      var best := WeightIsCheapest(net, hops[n - 1], hops[n]);
    }
  }

  /** Any trail is a route of the search's own goal, which costs no more. */
  lemma TrailIsRoute(scorer: Scorer, links: seq<Link>, request: RouteRequest, hops: seq<NodeId>, trail: seq<Link>)
    requires Trail(links, request, hops, trail)
    ensures var g := GoalOf(scorer, links, request);
            IsRoute(g, hops) && Cost(g.net, hops) <= TotalCost(scorer, trail)
  {
    hide Cost, TotalCost, UsableLinks, Allowed;
    var g := GoalOf(scorer, links, request);
    forall i | 0 <= i < |trail| ensures trail[i] in g.net.links && Joins(trail[i], hops[i], hops[i + 1]) {
      UsableExactly(links, request, trail[i]);
    }
    forall i | 0 < i < |hops| ensures Edge(g.net, hops[i - 1], hops[i]) {
      assert Joins(trail[i - 1], hops[i - 1], hops[i]);
    }
    NoCheaperTrail(g.net, hops, trail);
  }

  lemma {:induction false} CheapestTrail(net: Net, hops: seq<NodeId>) returns (trail: seq<Link>)
    requires IsWalk(net, hops)
    ensures CheapestLinks(net, hops, trail)
  {
    hide Weight, Edge;
    if |hops| == 1 {
      trail := [];
    } else {
      var n := |hops|;
      var front := CheapestTrail(net, hops[..n - 1]);
      assert Edge(net, hops[n - 1 - 1], hops[n - 1]);
      var link := WeightIsCheapest(net, hops[n - 2], hops[n - 1]);
      trail := front + [link];
    }
  }

  lemma CheapestIsTrail(scorer: Scorer, links: seq<Link>, request: RouteRequest, hops: seq<NodeId>, trail: seq<Link>)
    requires IsRoute(GoalOf(scorer, links, request), hops)
    requires CheapestLinks(GoalOf(scorer, links, request).net, hops, trail)
    ensures Trail(links, request, hops, trail)
    ensures TotalCost(scorer, trail) == Cost(GoalOf(scorer, links, request).net, hops)
  {
    hide Cost, TotalCost, UsableLinks, Allowed, Weight, Edge;
    var g := GoalOf(scorer, links, request);
    CheapestTotal(g.net, hops, trail);
    forall i | 0 <= i < |trail|
      ensures trail[i] in links && trail[i].reachable
      ensures request.allowedProtocols == [] || trail[i].protocol in request.allowedProtocols
      ensures trail[i].from == hops[i] && trail[i].to == hops[i + 1]
    {
      UsableExactly(links, request, trail[i]);
      assert Joins(trail[i], hops[i], hops[i + 1]);
    }
  }

  /** Any route of the search's own goal is a trail at its cost. */
  lemma RouteIsTrail(scorer: Scorer, links: seq<Link>, request: RouteRequest, hops: seq<NodeId>)
    returns (trail: seq<Link>)
    requires IsRoute(GoalOf(scorer, links, request), hops)
    ensures Trail(links, request, hops, trail)
    ensures TotalCost(scorer, trail) == Cost(GoalOf(scorer, links, request).net, hops)
  {
    hide Cost, TotalCost, UsableLinks, Allowed, Weight, Edge, CheapestLinks;
    trail := CheapestTrail(GoalOf(scorer, links, request).net, hops);
    CheapestIsTrail(scorer, links, request, hops, trail);
  }

  lemma RouteIsRealised(scorer: Scorer, links: seq<Link>, request: RouteRequest, route: RouteCandidate)
    requires IsRoute(GoalOf(scorer, links, request), route.hops)
    requires route.score == Cost(GoalOf(scorer, links, request).net, route.hops)
    requires LastHopProtocol(GoalOf(scorer, links, request).net, route)
    ensures Realised(scorer, links, request, route)
  {
    hide Cost, TotalCost, Weight, UsableLinks, Allowed, Trail, Edge;
    var g := GoalOf(scorer, links, request);
    var trail := CheapestTrail(g.net, route.hops);
    if trail != [] {
      var n := |route.hops|;
      var last :| last in g.net.links && Joins(last, route.hops[n - 2], route.hops[n - 1])
                  && g.net.scorer(last) == Weight(g.net, route.hops[n - 2], route.hops[n - 1])
                  && last.protocol == route.protocol;
      trail := trail[..n - 2] + [last];
    }
    CheapestIsTrail(scorer, links, request, route.hops, trail);
  }

  /** Best routes of the search's own goal are the best trails there are. */
  lemma BestRoutesAreBestTrails(scorer: Scorer, links: seq<Link>, request: RouteRequest, limit: nat,
                                routes: seq<RouteCandidate>)
    requires BestRoutes(GoalOf(scorer, links, request), ClampedLimit(limit), routes)
    requires forall k :: 0 <= k < |routes| ==> LastHopProtocol(GoalOf(scorer, links, request).net, routes[k])
    ensures BestTrails(scorer, links, request, limit, routes)
  {
    hide Cost, TotalCost, IsRoute, LastHopProtocol, GoalOf, Trail, Realised;
    var g := GoalOf(scorer, links, request);
    forall i | 0 <= i < |routes| ensures Realised(scorer, links, request, routes[i]) {
      RouteIsRealised(scorer, links, request, routes[i]);
    }
    forall hops, trail | Trail(links, request, hops, trail)
      ensures
        || Offered(routes, hops, TotalCost(scorer, trail))
        || ((|routes| == limit || |routes| == 32)
            && forall i :: 0 <= i < |routes| ==> routes[i].score <= TotalCost(scorer, trail))
    {
      TrailIsRoute(scorer, links, request, hops, trail);
      if i :| 0 <= i < |routes| && routes[i].hops == hops {
        assert routes[i].score <= TotalCost(scorer, trail);
      }
    }
  }

  /** Up to `limit` best loop-free routes for the request, and the work spent:
      `searches` searches looking at `examined` links in all. */
  method Plan(scorer: Scorer, snapshot: GraphSnapshot, request: RouteRequest, limit: nat)
    returns (routes: seq<RouteCandidate>, ghost searches: nat, ghost examined: nat)
    ensures BestTrails(scorer, snapshot.links, request, limit, routes)
    ensures var g := GoalOf(scorer, snapshot.links, request);
            && BestRoutes(g, ClampedLimit(limit), routes)
            && forall k :: 0 <= k < |routes| ==> LastHopProtocol(g.net, routes[k])
    ensures limit == 0 ==> searches == 0
    ensures limit > 0 ==>
              WithinWork(searches, examined, ClampedLimit(limit) - 1, ClampedHops(request), |snapshot.links|)
  {
    hide BestRoutes, BestTrails, LastHopProtocol, Optimal, State, RootsCovered, Covered, AdjacencyOf, AllGood, Root,
      Known,
         UsableLinks, WithinWork;
    searches, examined := 0, 0;
    var limit' := ClampedLimit(limit);
    var g := GoalOf(scorer, snapshot.links, request);
    if limit' == 0 {
      NothingAsked(g);
      BestRoutesAreBestTrails(scorer, snapshot.links, request, limit, []);
      return [], 0, 0;
    }

    var adjacency := BuildAdjacency(snapshot, Allowed(request), scorer);
    ghost var usable := |g.net.links|;

    var q := Query(g.net, request.source, request.target, g.maxHops, {}, {});
    var first;
    first, examined := ShortestPath(q, adjacency);
    searches := 1;
    OneSearch(examined, g.maxHops, usable);
    if first.None? {
      NoRoute(g, q, limit');
      LooserWork(searches, examined, 0, g.maxHops, usable, limit' - 1, |snapshot.links|);
      BestRoutesAreBestTrails(scorer, snapshot.links, request, limit, []);
      return [], 1, examined;
    }
    FirstRoute(g, q, first.value);
    var accepted := [first.value];
    var candidates: seq<Path> := [];
    ghost var dev: seq<nat> := [];
    ghost var rounds: nat := 0;

    while |accepted| < limit'
      invariant 0 < |accepted| <= limit' && rounds == |accepted| - 1
      invariant State(g, accepted, candidates, dev)
      invariant RootsCovered(g, accepted, candidates, accepted[|accepted| - 1].hops, 0)
      invariant WithinWork(searches, examined, rounds, g.maxHops, usable)
      decreases limit' - |accepted|
    {
      ghost var tried, more;
      candidates, dev, tried, more := SpurRound(g, adjacency, accepted, candidates, dev);
      OneRoundMore(searches, examined, rounds, g.maxHops, usable, tried, more);
      searches, examined, rounds := searches + tried, examined + more, rounds + 1;

      if candidates == [] {
        AllAccepted(g, accepted, candidates, dev);
        break;
      }
      var best := CheapestIndex(candidates);
      Accept(g, accepted, candidates, dev, best);
      accepted, candidates, dev := accepted + [candidates[best]], Without(candidates, best), Without(dev, best);
    }

    routes := seq(|accepted|, k requires 0 <= k < |accepted| => CandidateOf(accepted[k]));
    Best(g, accepted, candidates, dev, limit', routes);
    BestRoutesAreBestTrails(scorer, snapshot.links, request, limit, routes);
    LooserWork(searches, examined, rounds, g.maxHops, usable, limit' - 1, |snapshot.links|);
  }

  // ----- what hash order cannot change -----

  function HopsOf(routes: seq<RouteCandidate>): (hops: seq<seq<NodeId>>)
    ensures |hops| == |routes| && forall i :: 0 <= i < |hops| ==> hops[i] == routes[i].hops
  {
    seq(|routes|, i requires 0 <= i < |routes| => routes[i].hops)
  }

  /** A route another set of best routes leaves out costs at least as much as
      every route of that set, which is then full. */
  lemma LeftOut(g: Goal, limit: nat, routes: seq<RouteCandidate>, p: seq<NodeId>)
    requires BestRoutes(g, limit, routes) && IsRoute(g, p) && p !in HopsOf(routes)
    ensures |routes| == limit && forall i :: 0 <= i < |routes| ==> routes[i].score <= Cost(g.net, p)
  {
    hide Cost, IsRoute;
    forall i | 0 <= i < |routes| ensures routes[i].hops != p {
      assert HopsOf(routes)[i] in HopsOf(routes);
    }
  }

  /** Where the k-th of some best routes is not matched by the k-th of others,
      each up to the k-th is one of the others' first k. */
  lemma EarlierMatched(g: Goal, limit: nat, a: seq<RouteCandidate>, b: seq<RouteCandidate>, k: nat, i: nat)
    returns (j: nat)
    requires BestRoutes(g, limit, a) && BestRoutes(g, limit, b) && i <= k < |a|
    requires k >= |b| || b[k].score > a[k].score
    ensures j < k && j < |b| && b[j].hops == a[i].hops
  {
    hide Cost, IsRoute, HopsOf;
    assert a[i].score <= a[k].score;
    if a[i].hops !in HopsOf(b) {
      LeftOut(g, limit, b, a[i].hops);
    }
    j :| 0 <= j < |b| && HopsOf(b)[j] == a[i].hops;
  }

  lemma HopsDiffer(g: Goal, limit: nat, routes: seq<RouteCandidate>)
    requires BestRoutes(g, limit, routes)
    ensures forall i, j :: 0 <= i < j < |routes| ==> HopsOf(routes)[i] != HopsOf(routes)[j]
  {
    hide Cost, IsRoute;
  }

  /** The k-th of some best routes is matched by the k-th of any others. */
  lemma NoDearer(g: Goal, limit: nat, a: seq<RouteCandidate>, b: seq<RouteCandidate>, k: nat)
    requires BestRoutes(g, limit, a) && BestRoutes(g, limit, b) && k < |a|
    ensures k < |b| && b[k].score <= a[k].score
  {
    hide BestRoutes;
    if k >= |b| || b[k].score > a[k].score {
      var upTo, cheap := HopsOf(a)[..k + 1], HopsOf(b)[..Min(k, |b|)];
      forall i | 0 <= i < |upTo| ensures upTo[i] in cheap {
        var j := EarlierMatched(g, limit, a, b, k, i);
        assert cheap[j] == upTo[i];
      }
      HopsDiffer(g, limit, a);
      DistinctFits(upTo, cheap);
    }
  }

  /** Whatever order the maps are walked in, and however ties fall, `plan`
      returns as many routes at the same costs. */
  lemma CostsAreDetermined(g: Goal, limit: nat, a: seq<RouteCandidate>, b: seq<RouteCandidate>)
    requires BestRoutes(g, limit, a) && BestRoutes(g, limit, b)
    ensures |a| == |b| && forall i :: 0 <= i < |a| ==> a[i].score == b[i].score
  {
    hide BestRoutes;
    if |b| < |a| {
      NoDearer(g, limit, a, b, |b|);
    }
    if |a| < |b| {
      NoDearer(g, limit, b, a, |a|);
    }
    forall i | 0 <= i < |a| ensures a[i].score == b[i].score {
      NoDearer(g, limit, a, b, i);
      NoDearer(g, limit, b, a, i);
    }
  }
}
