/** The ranked, dialable routes across several targets, and how good they are. */
module Candidates {
  import opened Common
  import opened Graph
  import opened Walks
  import opened Yen
  import opened Planner
  import opened Resolve
  import opened Merge

  /** What a caller asks for, over a fixed graph and registry. */
  datatype Job = Job(
    links: seq<Link>,
    listeners: Listeners,
    source: NodeId,
    targets: seq<NodeId>,
    allowedProtocols: seq<ProtocolId>,
    maxHops: nat,
    limit: nat,
    hopRole: Option<RoleId>,
    targetRole: RoleId)

  function RequestTo(job: Job, t: nat): RouteRequest
    requires t < |job.targets|
  {
    RouteRequest(job.source, job.targets[t], job.allowedProtocols, job.maxHops)
  }

  function GoalTo(job: Job, t: nat): Goal
    requires t < |job.targets|
  {
    GoalOf(DefaultCost, job.links, RequestTo(job, t))
  }

  /** One best plan per target, the cheapest first. */
  ghost predicate Planned(job: Job, plans: seq<seq<RouteCandidate>>) {
    && |plans| == |job.targets|
    && forall t :: 0 <= t < |plans| ==> BestRoutes(GoalTo(job, t), ClampedLimit(job.limit), plans[t])
  }

  function Ranked(job: Job, plans: seq<seq<RouteCandidate>>): seq<ResolvedRoute> {
    Merged(ResolveAll(job.listeners, plans, job.hopRole, job.targetRole), job.limit)
  }

  // ----- the loops -----

  lemma {:induction false} StaysUnresolved(listeners: Listeners, path: seq<NodeId>, n: nat, hopRole: Option<RoleId>,
                                           targetRole: RoleId)
    requires n <= |path| && ResolvedUpTo(listeners, path, n, hopRole, targetRole).None?
    ensures ResolvedHops(listeners, path, hopRole, targetRole).None?
    decreases |path| - n
  {
    if n < |path| {
      StaysUnresolved(listeners, path, n + 1, hopRole, targetRole);
    }
  }

  method ResolveHops(listeners: Listeners, path: seq<NodeId>, hopRole: Option<RoleId>, targetRole: RoleId)
    returns (hops: seq<ResolvedHop>, dialable: bool)
    requires |path| > 0
    ensures match ResolvedHops(listeners, path, hopRole, targetRole)
            case None => !dialable
            case Some(resolved) => dialable && hops == resolved
  {
    hops := [];
    dialable := true;
    for i := 1 to |path|
      invariant dialable
      invariant ResolvedUpTo(listeners, path, i, hopRole, targetRole) == Some(hops)
    {
      var isTarget := i == |path| - 1;
      var role := if isTarget then Some(targetRole) else hopRole;
      if role.None? {
        continue;
      }
      var addr := AddrForRole(listeners, path[i], role.value);
      match addr {
        case Some(a) =>
          hops := hops + [ResolvedHop(path[i], a)];
        case None =>
          dialable := false;
          StaysUnresolved(listeners, path, i + 1, hopRole, targetRole);
          return;
      }
    }
  }

  method ResolveTarget(listeners: Listeners, plan: seq<RouteCandidate>, hopRole: Option<RoleId>, targetRole: RoleId)
    returns (resolved: seq<ResolvedRoute>)
    requires forall k :: 0 <= k < |plan| ==> |plan[k].hops| > 0
    ensures resolved == ResolvePlan(listeners, plan, hopRole, targetRole)
  {
    hide ResolvedHops;
    resolved := [];
    for k := 0 to |plan|
      invariant resolved == ResolvePlan(listeners, plan[..k], hopRole, targetRole)
    {
      var hops, dialable := ResolveHops(listeners, plan[k].hops, hopRole, targetRole);
      assert plan[..k + 1][..k] == plan[..k];
      if !dialable || |hops| == 0 {
        continue;
      }
      resolved := resolved + [ResolvedRoute(hops, plan[k].score)];
    }
    assert plan[..|plan|] == plan;
  }

  lemma SeenPush(routes: seq<ResolvedRoute>, extra: ResolvedRoute)
    ensures forall nodes :: Seen(routes + [extra], nodes) <==> Seen(routes, nodes) || NodeSequence(extra.hops) == nodes
    ensures forall more :: more == routes + [extra] ==> more[..|routes|] == routes
  {
    hide NodeSequence;
    var more := routes + [extra];
    forall nodes ensures Seen(more, nodes) <==> Seen(routes, nodes) || NodeSequence(extra.hops) == nodes {
      if Seen(routes, nodes) {
        var i :| 0 <= i < |routes| && NodeSequence(routes[i].hops) == nodes;
        assert more[i] == routes[i];
      }
      if NodeSequence(extra.hops) == nodes {
        assert more[|routes|] == extra;
      }
    }
  }

  method KeepFirst(sorted: seq<ResolvedRoute>) returns (kept: seq<ResolvedRoute>)
    ensures kept == Dedupe(sorted)
  {
    kept := [];
    var seen: set<seq<NodeId>> := {};
    for i := 0 to |sorted|
      invariant kept == Dedupe(sorted[..i])
      invariant forall nodes :: nodes in seen <==> Seen(sorted[..i], nodes)
    {
      var nodes := NodeSequence(sorted[i].hops);
      assert sorted[..i + 1][..i] == sorted[..i];
      SeenPush(sorted[..i], sorted[i]);
      if nodes !in seen {
        seen := seen + {nodes};
        kept := kept + [sorted[i]];
      }
    }
    assert sorted[..|sorted|] == sorted;
  }

  // ----- what the ranking is worth -----

  /** A loop-free path to some target that actually leaves the source. */
  ghost predicate PathTo(job: Job, t: nat, p: seq<NodeId>)
    requires t < |job.targets|
  {
    IsRoute(GoalTo(job, t), p) && |p| > 1
  }

  /** The route is such a path, at its cost, with every node after the source
      at the first address that node advertises in the role asked of it. */
  ghost predicate Follows(job: Job, hopRole: RoleId, t: nat, p: seq<NodeId>, route: ResolvedRoute)
    requires t < |job.targets|
  {
    && PathTo(job, t, p)
    && NodeSequence(route.hops) == p[1..]
    && route.score == Cost(GoalTo(job, t).net, p)
    && forall i :: 0 < i < |p| ==>
         FirstOffer(job.listeners, p[i], if i == |p| - 1 then job.targetRole else hopRole, route.hops[i - 1].addr)
  }

  ghost predicate FollowsSome(job: Job, hopRole: RoleId, route: ResolvedRoute) {
    exists t, p :: 0 <= t < |job.targets| && Follows(job, hopRole, t, p, route)
  }

  lemma FollowsOne(job: Job, hopRole: RoleId, t: nat, p: seq<NodeId>, route: ResolvedRoute)
    requires t < |job.targets| && Follows(job, hopRole, t, p, route)
    ensures FollowsSome(job, hopRole, route)
  {
    hide Follows;
  }

  lemma RoutesStartSomewhere(g: Goal, limit: nat, plan: seq<RouteCandidate>)
    requires BestRoutes(g, limit, plan)
    ensures forall k :: 0 <= k < |plan| ==> |plan[k].hops| > 0
  {
    hide Edge, Cost, Simple;
  }

  /** Every one of these routes is a real, dialable path to some target. */
  ghost predicate AllFollow(job: Job, hopRole: RoleId, routes: seq<ResolvedRoute>) {
    forall i :: 0 <= i < |routes| ==> FollowsSome(job, hopRole, routes[i])
  }

  ghost predicate DialableIn(job: Job, hopRole: RoleId, p: seq<NodeId>) {
    Dialable(job.listeners, p, hopRole, job.targetRole)
  }

  lemma SameLength(hops: seq<ResolvedHop>)
    ensures |NodeSequence(hops)| == |hops|
  {
  }

  lemma ResolvedFollows(job: Job, hopRole: RoleId, plans: seq<seq<RouteCandidate>>, t: nat, k: nat,
                        route: ResolvedRoute)
    requires Planned(job, plans) && job.hopRole == Some(hopRole)
    requires t < |plans| && k < |plans[t]|
    requires Resolves(job.listeners, plans[t][k], job.hopRole, job.targetRole, route)
    ensures Follows(job, hopRole, t, plans[t][k].hops, route)
    ensures DialableIn(job, hopRole, plans[t][k].hops)
  {
    hide Cost, Edge, Simple, FirstOffer, NodeSequence, HasAddr;
    var p := plans[t][k].hops;
    assert BestRoutes(GoalTo(job, t), ClampedLimit(job.limit), plans[t]);
    assert IsRoute(GoalTo(job, t), p);
    ResolvesDialable(job.listeners, p, |p|, hopRole, job.targetRole);
    assert p[1..|p|] == p[1..];
    SameLength(route.hops);
  }

  /** Every route returned is a real, fully dialable path to one of the
      targets; they come cheapest first and none repeats another's nodes. */
  lemma ResultsAreRoutes(job: Job, hopRole: RoleId, plans: seq<seq<RouteCandidate>>, route: ResolvedRoute)
    returns (t: nat, p: seq<NodeId>)
    requires Planned(job, plans) && job.hopRole == Some(hopRole)
    requires route in Ranked(job, plans)
    ensures t < |job.targets| && Follows(job, hopRole, t, p, route)
  {
    hide Follows, BestRoutes, Resolves;
    var resolved := ResolveAll(job.listeners, plans, job.hopRole, job.targetRole);
    MergedIsSound(resolved, job.limit);
    ResolveAllMembers(job.listeners, plans, job.hopRole, job.targetRole, route);
    var u, k :| 0 <= u < |plans| && 0 <= k < |plans[u]|
                && Resolves(job.listeners, plans[u][k], job.hopRole, job.targetRole, route);
    ResolvedFollows(job, hopRole, plans, u, k, route);
    t, p := u, plans[u][k].hops;
  }

  lemma ResultsAreOrdered(job: Job, plans: seq<seq<RouteCandidate>>)
    ensures |Ranked(job, plans)| <= job.limit
    ensures Sorted(Ranked(job, plans)) && DistinctNodes(Ranked(job, plans))
  {
    MergedIsSound(ResolveAll(job.listeners, plans, job.hopRole, job.targetRole), job.limit);
  }

  /** The resolved form of a dialable planned route. */
  lemma DialableResolves(job: Job, hopRole: RoleId, plans: seq<seq<RouteCandidate>>, t: nat, k: nat)
    returns (route: ResolvedRoute)
    requires Planned(job, plans) && job.hopRole == Some(hopRole)
    requires t < |plans| && k < |plans[t]|
    requires |plans[t][k].hops| > 1 && DialableIn(job, hopRole, plans[t][k].hops)
    ensures route in ResolveAll(job.listeners, plans, job.hopRole, job.targetRole)
    ensures Resolves(job.listeners, plans[t][k], job.hopRole, job.targetRole, route)
    ensures NodeSequence(route.hops) == plans[t][k].hops[1..] && route.score == plans[t][k].score
  {
    hide BestRoutes, HasAddr, NodeSequence, FirstOffer;
    var p := plans[t][k].hops;
    ResolvesDialable(job.listeners, p, |p|, hopRole, job.targetRole);
    assert p[1..|p|] == p[1..];
    route := ResolvedRoute(ResolvedHops(job.listeners, p, job.hopRole, job.targetRole).value, plans[t][k].score);
    SameLength(route.hops);
    ResolveAllMembers(job.listeners, plans, job.hopRole, job.targetRole, route);
  }

  /** A whole plan of dialable routes resolves to as many distinct ones. */
  lemma {:induction false} PlanFamily(job: Job, hopRole: RoleId, plans: seq<seq<RouteCandidate>>, t: nat, n: nat,
                                      c: nat)
    returns (family: seq<ResolvedRoute>)
    requires Planned(job, plans) && job.hopRole == Some(hopRole)
    requires t < |plans| && n <= |plans[t]|
    requires job.targets[t] != job.source
    requires forall k :: 0 <= k < |plans[t]| ==> DialableIn(job, hopRole, plans[t][k].hops) && plans[t][k].score <= c
    ensures |family| == n
    ensures Family(ResolveAll(job.listeners, plans, job.hopRole, job.targetRole), family, c)
    ensures forall k :: 0 <= k < n ==> NodeSequence(family[k].hops) == plans[t][k].hops[1..]
  {
    hide NodeSequence, DialableIn, ResolveAll, Cost, Edge, Simple;
    assert BestRoutes(GoalTo(job, t), ClampedLimit(job.limit), plans[t]);
    if n == 0 {
      family := [];
    } else {
      var rest := PlanFamily(job, hopRole, plans, t, n - 1, c);
      var p := plans[t][n - 1].hops;
      assert IsRoute(GoalTo(job, t), p);
      var route := DialableResolves(job, hopRole, plans, t, n - 1);
      family := rest + [route];
      forall k | 0 <= k < n - 1 ensures NodeSequence(family[k].hops) != NodeSequence(route.hops) {
        var o := plans[t][k].hops;
        assert IsRoute(GoalTo(job, t), o);
        assert o == [o[0]] + o[1..] && p == [p[0]] + p[1..];
      }
    }
  }

  lemma LeavesForATarget(job: Job, t: nat, p: seq<NodeId>)
    requires t < |job.targets| && PathTo(job, t, p)
    ensures job.targets[t] != job.source
  {
    hide Edge, Cost;
    assert p[0] != p[|p| - 1];
  }

  /** Every planned route to this target can be dialed. */
  ghost predicate PlanDialable(job: Job, hopRole: RoleId, plan: seq<RouteCandidate>) {
    forall k :: 0 <= k < |plan| ==> DialableIn(job, hopRole, plan[k].hops)
  }

  ghost predicate InPlan(plan: seq<RouteCandidate>, p: seq<NodeId>) {
    exists k :: 0 <= k < |plan| && plan[k].hops == p
  }

  /** No dialable path to this target is lost, except to a full page of results
      that cost no more. What `resolve_candidates` promises is this for a page of
      the whole `limit`; the planner's ceiling allows pages of at most 32. */
  ghost predicate NothingCheaperLost(job: Job, hopRole: RoleId, t: nat, page: nat, results: seq<ResolvedRoute>)
    requires t < |job.targets|
  {
    forall p :: PathTo(job, t, p) && DialableIn(job, hopRole, p) ==>
      Seen(results, p[1..]) || AtMost(results, page, Cost(GoalTo(job, t).net, p))
  }

  /** Some target's plan names this path. */
  ghost predicate Chosen(plans: seq<seq<RouteCandidate>>, p: seq<NodeId>) {
    exists u :: 0 <= u < |plans| && InPlan(plans[u], p)
  }

  /** A whole page of distinct dialable planned routes costs at most c. */
  ghost predicate PageFilled(job: Job, plans: seq<seq<RouteCandidate>>, page: nat, c: nat) {
    exists family ::
      && |family| == page
      && Family(ResolveAll(job.listeners, plans, job.hopRole, job.targetRole), family, c)
  }

  /** Every dialable path to this target is named by some plan, or matched by a
      page of dialable planned routes no dearer. */
  ghost predicate MatchedByPlans(job: Job, hopRole: RoleId, plans: seq<seq<RouteCandidate>>, t: nat, page: nat)
    requires t < |job.targets|
  {
    forall p :: PathTo(job, t, p) && DialableIn(job, hopRole, p) ==>
      Chosen(plans, p) || PageFilled(job, plans, page, Cost(GoalTo(job, t).net, p))
  }

  lemma SameNet(job: Job, t: nat, u: nat)
    requires t < |job.targets| && u < |job.targets|
    ensures GoalTo(job, t).net == GoalTo(job, u).net
  {
    assert Allowed(RequestTo(job, t)) == Allowed(RequestTo(job, u));
  }

  /** A dialable path some target's plan names is returned, or gives way to a
      full page of the limit asked. */
  lemma ChosenIsKept(job: Job, hopRole: RoleId, plans: seq<seq<RouteCandidate>>, t: nat, p: seq<NodeId>, u: nat, k: nat)
    requires Planned(job, plans) && job.hopRole == Some(hopRole) && t < |job.targets|
    requires PathTo(job, t, p) && DialableIn(job, hopRole, p)
    requires u < |plans| && k < |plans[u]| && plans[u][k].hops == p
    ensures Seen(Ranked(job, plans), p[1..]) || AtMost(Ranked(job, plans), job.limit, Cost(GoalTo(job, t).net, p))
  {
    hide NodeSequence, DialableIn, Cost, Seen, ResolveAll, Merged, IsRoute, GoalTo, Has;
    assert BestRoutes(GoalTo(job, u), ClampedLimit(job.limit), plans[u]);
    SameNet(job, t, u);
    var route := DialableResolves(job, hopRole, plans, u, k);
    var resolved := ResolveAll(job.listeners, plans, job.hopRole, job.targetRole);
    MergedIsComplete(resolved, job.limit, route);
    if Has(Merged(resolved, job.limit), NodeSequence(route.hops), route.score) {
      HasIsSeen(Merged(resolved, job.limit), NodeSequence(route.hops), route.score);
    }
  }

  lemma BestTo(job: Job, hopRole: RoleId, plans: seq<seq<RouteCandidate>>, t: nat, page: nat, p: seq<NodeId>)
    requires Planned(job, plans) && job.hopRole == Some(hopRole) && t < |job.targets| && page <= job.limit
    requires || |plans[t]| < ClampedLimit(job.limit)
             || (PlanDialable(job, hopRole, plans[t]) && page <= ClampedLimit(job.limit))
    requires PathTo(job, t, p) && DialableIn(job, hopRole, p)
    ensures Seen(Ranked(job, plans), p[1..]) || AtMost(Ranked(job, plans), page, Cost(GoalTo(job, t).net, p))
  {
    hide NodeSequence, DialableIn, Cost, Seen, ResolveAll, Merged, Route, Family;
    var g, limit := GoalTo(job, t), ClampedLimit(job.limit);
    assert BestRoutes(g, limit, plans[t]);
    if k :| 0 <= k < |plans[t]| && plans[t][k].hops == p {
      ChosenIsKept(job, hopRole, plans, t, p, t, k);
    } else {
      LeavesForATarget(job, t, p);
      var family := PlanFamily(job, hopRole, plans, t, |plans[t]|, Cost(g.net, p));
      var resolved := ResolveAll(job.listeners, plans, job.hopRole, job.targetRole);
      MergedHoldsFamily(resolved, job.limit, family, Cost(g.net, p));
    }
  }

  /** Where a target's plan fell short of the limit, the ranking holds the best
      routes to it for any page; where the plan can be dialed throughout, for
      pages up to the planner's ceiling. */
  lemma BestDialableRoutes(job: Job, hopRole: RoleId, plans: seq<seq<RouteCandidate>>, t: nat, page: nat)
    requires Planned(job, plans) && job.hopRole == Some(hopRole) && t < |job.targets| && page <= job.limit
    requires || |plans[t]| < ClampedLimit(job.limit)
             || (PlanDialable(job, hopRole, plans[t]) && page <= ClampedLimit(job.limit))
    ensures NothingCheaperLost(job, hopRole, t, page, Ranked(job, plans))
  {
    hide NodeSequence, DialableIn, IsRoute, Cost, Seen, AtMost, ResolveAll, Merged, Planned, BestRoutes;
    forall p | PathTo(job, t, p) && DialableIn(job, hopRole, p)
      ensures Seen(Ranked(job, plans), p[1..]) || AtMost(Ranked(job, plans), page, Cost(GoalTo(job, t).net, p))
    {
      BestTo(job, hopRole, plans, t, page, p);
    }
  }

  /** Every node some link leads to advertises both roles asked. */
  ghost predicate AllAdvertise(job: Job, hopRole: RoleId) {
    forall link :: link in job.links ==>
      && Offers(job.listeners, link.to, hopRole)
      && Offers(job.listeners, link.to, job.targetRole)
  }

  lemma RoutesAreDialable(job: Job, hopRole: RoleId, t: nat, p: seq<NodeId>)
    requires AllAdvertise(job, hopRole) && t < |job.targets| && IsRoute(GoalTo(job, t), p)
    ensures DialableIn(job, hopRole, p)
  {
    hide Cost, Simple, Offers;
    var net := GoalTo(job, t).net;
    forall i | 0 < i < |p| ensures HasAddr(job.listeners, p, i, hopRole, job.targetRole) {
      assert Edge(net, p[i - 1], p[i]);
      var link :| link in net.links && Joins(link, p[i - 1], p[i]);
      assert link in job.links;
    }
  }

  /** If every node a link leads to advertises the roles asked, the ranking
      holds the best routes to every target, for pages up to the planner's
      ceiling. */
  lemma BestRoutesToAllTargets(job: Job, hopRole: RoleId, plans: seq<seq<RouteCandidate>>)
    requires Planned(job, plans) && job.hopRole == Some(hopRole) && AllAdvertise(job, hopRole)
    ensures forall t :: 0 <= t < |job.targets| ==>
              NothingCheaperLost(job, hopRole, t, ClampedLimit(job.limit), Ranked(job, plans))
  {
    hide NothingCheaperLost, Merged, DialableIn, AllAdvertise, IsRoute, Cost;
    forall t | 0 <= t < |job.targets|
      ensures NothingCheaperLost(job, hopRole, t, ClampedLimit(job.limit), Ranked(job, plans))
    {
      assert BestRoutes(GoalTo(job, t), ClampedLimit(job.limit), plans[t]);
      forall k | 0 <= k < |plans[t]| ensures DialableIn(job, hopRole, plans[t][k].hops) {
        RoutesAreDialable(job, hopRole, t, plans[t][k].hops);
      }
      BestDialableRoutes(job, hopRole, plans, t, ClampedLimit(job.limit));
    }
  }

  // ----- undialable routes can crowd dialable ones out -----

  lemma {:induction false} InsertLength(sorted: seq<ResolvedRoute>, route: ResolvedRoute)
    ensures |InsertByScore(sorted, route)| == |sorted| + 1
  {
    if sorted != [] {
      InsertLength(sorted[..|sorted| - 1], route);
    }
  }

  lemma {:induction false} SortLength(routes: seq<ResolvedRoute>)
    ensures |SortByScore(routes)| == |routes|
  {
    if routes != [] {
      SortLength(routes[..|routes| - 1]);
      InsertLength(SortByScore(routes[..|routes| - 1]), routes[|routes| - 1]);
    }
  }

  lemma {:induction false} DedupeLength(routes: seq<ResolvedRoute>)
    ensures |Dedupe(routes)| <= |routes|
  {
    if routes != [] {
      DedupeLength(routes[..|routes| - 1]);
    }
  }

  /** An undialable route in a plan leaves a gap in what it resolves to. */
  lemma {:induction false} GapInPlan(listeners: Listeners, plan: seq<RouteCandidate>, hopRole: Option<RoleId>,
                                     targetRole: RoleId)
    ensures var n := |ResolvePlan(listeners, plan, hopRole, targetRole)|;
            && n <= |plan|
            && forall k :: 0 <= k < |plan| && ResolvedHops(listeners, plan[k].hops, hopRole, targetRole).None? ==>
                 n < |plan|
  {
    hide ResolvedHops;
    if plan != [] {
      GapInPlan(listeners, plan[..|plan| - 1], hopRole, targetRole);
    }
  }

  lemma PlannedOrigin(job: Job, hopRole: RoleId, plans: seq<seq<RouteCandidate>>, route: ResolvedRoute)
    returns (u: nat, q: seq<NodeId>)
    requires Planned(job, plans) && job.hopRole == Some(hopRole)
    requires route in Ranked(job, plans)
    ensures u < |plans| && InPlan(plans[u], q) && PathTo(job, u, q) && NodeSequence(route.hops) == q[1..]
  {
    hide NodeSequence, Merged, BestRoutes, Resolves, DialableIn, IsRoute;
    var resolved := ResolveAll(job.listeners, plans, job.hopRole, job.targetRole);
    MergedIsSound(resolved, job.limit);
    ResolveAllMembers(job.listeners, plans, job.hopRole, job.targetRole, route);
    var v, k :| 0 <= v < |plans| && 0 <= k < |plans[v]|
                && Resolves(job.listeners, plans[v][k], job.hopRole, job.targetRole, route);
    ResolvedFollows(job, hopRole, plans, v, k, route);
    u, q := v, plans[v][k].hops;
  }

  /** Only a path some plan names can be returned. */
  lemma ReturnedIsChosen(job: Job, hopRole: RoleId, plans: seq<seq<RouteCandidate>>, t: nat, p: seq<NodeId>)
    requires Planned(job, plans) && job.hopRole == Some(hopRole) && t < |job.targets| && PathTo(job, t, p)
    requires Seen(Ranked(job, plans), p[1..])
    ensures Chosen(plans, p)
  {
    hide NodeSequence, Cost, Edge, Simple, Planned, Ranked, InPlan;
    var ranked := Ranked(job, plans);
    var i :| 0 <= i < |ranked| && NodeSequence(ranked[i].hops) == p[1..];
    var u, q := PlannedOrigin(job, hopRole, plans, ranked[i]);
    assert q == [q[0]] + q[1..] && p == [p[0]] + p[1..];
  }

  lemma FullPageIsFamily(job: Job, plans: seq<seq<RouteCandidate>>, page: nat, c: nat)
    requires AtMost(Ranked(job, plans), page, c)
    ensures PageFilled(job, plans, page, c)
  {
    hide NodeSequence, Merged, ResolveAll;
    var resolved := ResolveAll(job.listeners, plans, job.hopRole, job.targetRole);
    var first := Ranked(job, plans)[..page];
    MergedIsSound(resolved, job.limit);
    forall j | 0 <= j < |first| ensures first[j] in resolved && first[j].score <= c {
      assert first[j] == Ranked(job, plans)[j];
    }
    assert Family(resolved, first, c);
  }

  lemma FamilyFillsPage(job: Job, plans: seq<seq<RouteCandidate>>, page: nat, c: nat)
    requires page <= job.limit && PageFilled(job, plans, page, c)
    ensures AtMost(Ranked(job, plans), page, c)
  {
    hide Family, AtMost, Merged, ResolveAll;
    var resolved := ResolveAll(job.listeners, plans, job.hopRole, job.targetRole);
    var family :| |family| == page && Family(resolved, family, c);
    MergedHoldsFamily(resolved, job.limit, family, c);
  }

  lemma ShorterPage(results: seq<ResolvedRoute>, page: nat, longer: nat, c: nat)
    requires AtMost(results, longer, c) && page <= longer
    ensures AtMost(results, page, c)
  {
  }

  /** A dialable path is lost exactly when no plan names it and the planned
      routes that can be dialed do not fill a page that costs no more. */
  lemma LostExactlyWhen(job: Job, hopRole: RoleId, plans: seq<seq<RouteCandidate>>, t: nat, page: nat, p: seq<NodeId>)
    requires Planned(job, plans) && job.hopRole == Some(hopRole) && t < |job.targets| && page <= job.limit
    requires PathTo(job, t, p) && DialableIn(job, hopRole, p)
    ensures var c := Cost(GoalTo(job, t).net, p);
            Seen(Ranked(job, plans), p[1..]) || AtMost(Ranked(job, plans), page, c)
            <==> Chosen(plans, p) || PageFilled(job, plans, page, c)
  {
    hide NodeSequence, DialableIn, Cost, Seen, AtMost, Ranked, PageFilled, IsRoute, Planned, GoalTo;
    var c := Cost(GoalTo(job, t).net, p);
    if Chosen(plans, p) {
      var u :| 0 <= u < |plans| && InPlan(plans[u], p);
      var k :| 0 <= k < |plans[u]| && plans[u][k].hops == p;
      ChosenIsKept(job, hopRole, plans, t, p, u, k);
      if AtMost(Ranked(job, plans), job.limit, c) {
        ShorterPage(Ranked(job, plans), page, job.limit, c);
      }
    }
    if PageFilled(job, plans, page, c) {
      FamilyFillsPage(job, plans, page, c);
    }
    if Seen(Ranked(job, plans), p[1..]) {
      ReturnedIsChosen(job, hopRole, plans, t, p);
    }
    if AtMost(Ranked(job, plans), page, c) {
      FullPageIsFamily(job, plans, page, c);
    }
  }

  /** For any page up to the limit asked, the whole limit above all, the ranking
      holds the best dialable routes to a target exactly when the plans match
      every dialable path to it. */
  lemma BestExactlyWhen(job: Job, hopRole: RoleId, plans: seq<seq<RouteCandidate>>, t: nat, page: nat)
    requires Planned(job, plans) && job.hopRole == Some(hopRole) && t < |job.targets| && page <= job.limit
    ensures NothingCheaperLost(job, hopRole, t, page, Ranked(job, plans)) <==>
            MatchedByPlans(job, hopRole, plans, t, page)
  {
    hide NodeSequence, DialableIn, Cost, Seen, AtMost, Ranked, PageFilled, Chosen, IsRoute, Planned, GoalTo;
    forall p | PathTo(job, t, p) && DialableIn(job, hopRole, p)
      ensures var c := Cost(GoalTo(job, t).net, p);
              Seen(Ranked(job, plans), p[1..]) || AtMost(Ranked(job, plans), page, c)
              <==> Chosen(plans, p) || PageFilled(job, plans, page, c)
    {
      LostExactlyWhen(job, hopRole, plans, t, page, p);
    }
  }

  lemma RankedLength(job: Job, plans: seq<seq<RouteCandidate>>)
    ensures |Ranked(job, plans)| <= |ResolveAll(job.listeners, plans, job.hopRole, job.targetRole)|
  {
    hide ResolveAll;
    var resolved := ResolveAll(job.listeners, plans, job.hopRole, job.targetRole);
    SortLength(resolved);
    DedupeLength(SortByScore(resolved));
  }

  /** While the dialable planned routes fall short of a page, every path no plan
      names is missing although the page is not full. */
  lemma LostIfNotPlanned(job: Job, hopRole: RoleId, plans: seq<seq<RouteCandidate>>, t: nat, page: nat, p: seq<NodeId>)
    requires Planned(job, plans) && job.hopRole == Some(hopRole) && t < |job.targets|
    requires |ResolveAll(job.listeners, plans, job.hopRole, job.targetRole)| < page
    requires PathTo(job, t, p) && !Chosen(plans, p)
    ensures !Seen(Ranked(job, plans), p[1..])
    ensures |Ranked(job, plans)| < page
  {
    hide Seen, Ranked, IsRoute, Planned, Chosen;
    RankedLength(job, plans);
    if Seen(Ranked(job, plans), p[1..]) {
      ReturnedIsChosen(job, hopRole, plans, t, p);
    }
  }

  lemma ResolveOne(listeners: Listeners, plans: seq<seq<RouteCandidate>>, hopRole: Option<RoleId>, targetRole: RoleId)
    requires |plans| == 1
    ensures ResolveAll(listeners, plans, hopRole, targetRole) == ResolvePlan(listeners, plans[0], hopRole, targetRole)
  {
    assert plans[..|plans| - 1] == [];
    assert ResolveAll(listeners, [], hopRole, targetRole) == [];
  }

  /** With one target, the page falls short if an undialable route was planned,
      or if the page is longer than any plan. */
  lemma ShortOfPage(job: Job, hopRole: RoleId, plans: seq<seq<RouteCandidate>>, page: nat)
    requires Planned(job, plans) && job.hopRole == Some(hopRole) && |job.targets| == 1
    requires ClampedLimit(job.limit) <= page
    requires !PlanDialable(job, hopRole, plans[0]) || ClampedLimit(job.limit) < page
    ensures |ResolveAll(job.listeners, plans, job.hopRole, job.targetRole)| < page
  {
    hide NodeSequence, Cost, Edge, Simple, HasAddr, FirstOffer;
    assert BestRoutes(GoalTo(job, 0), ClampedLimit(job.limit), plans[0]);
    ResolveOne(job.listeners, plans, job.hopRole, job.targetRole);
    GapInPlan(job.listeners, plans[0], job.hopRole, job.targetRole);
    if !PlanDialable(job, hopRole, plans[0]) {
      var k :| 0 <= k < |plans[0]| && !DialableIn(job, hopRole, plans[0][k].hops);
      assert IsRoute(GoalTo(job, 0), plans[0][k].hops);
      ResolvesDialable(job.listeners, plans[0][k].hops, |plans[0][k].hops|, hopRole, job.targetRole);
    }
  }

  lemma NoFullPage(job: Job, hopRole: RoleId, plans: seq<seq<RouteCandidate>>, page: nat, c: nat)
    requires Planned(job, plans) && job.hopRole == Some(hopRole) && |job.targets| == 1
    requires ClampedLimit(job.limit) <= page <= job.limit
    requires !PlanDialable(job, hopRole, plans[0]) || ClampedLimit(job.limit) < page
    ensures !PageFilled(job, plans, page, c)
  {
    hide Planned, Ranked, PlanDialable, PageFilled;
    ShortOfPage(job, hopRole, plans, page);
    RankedLength(job, plans);
    if PageFilled(job, plans, page, c) {
      FamilyFillsPage(job, plans, page, c);
    }
  }

  /** With a single target, that is when the planned routes can all be dialed and
      the page is within the planner's ceiling, or when the plan left no dialable
      path out. For a page of the whole limit, within the ceiling means at most
      32. */
  lemma BestForOneTarget(job: Job, hopRole: RoleId, plans: seq<seq<RouteCandidate>>, page: nat)
    requires Planned(job, plans) && job.hopRole == Some(hopRole) && |job.targets| == 1
    requires ClampedLimit(job.limit) <= page <= job.limit
    ensures NothingCheaperLost(job, hopRole, 0, page, Ranked(job, plans)) <==>
            || (PlanDialable(job, hopRole, plans[0]) && page <= MAX_ROUTE_RESULTS)
            || forall p :: PathTo(job, 0, p) && DialableIn(job, hopRole, p) ==> InPlan(plans[0], p)
  {
    hide DialableIn, PathTo, Cost, Ranked, BestRoutes, PlanDialable, InPlan, NothingCheaperLost, PageFilled;
    BestExactlyWhen(job, hopRole, plans, 0, page);
    if PlanDialable(job, hopRole, plans[0]) && page <= MAX_ROUTE_RESULTS {
      BestDialableRoutes(job, hopRole, plans, 0, page);
    } else {
      forall p ensures Chosen(plans, p) <==> InPlan(plans[0], p) {
      }
      forall c: nat ensures !PageFilled(job, plans, page, c) {
        NoFullPage(job, hopRole, plans, page, c);
      }
    }
  }

  lemma OnePlan(job: Job, plans: seq<seq<RouteCandidate>>)
    requires Planned(job, plans)
    ensures |plans| == |job.targets|
  {
    hide BestRoutes;
  }

  /** Above the planner's ceiling a single target's page is never full, so any
      path beyond those planned is lost, even where every route can be dialed. */
  lemma LostAboveCeiling(job: Job, hopRole: RoleId, plans: seq<seq<RouteCandidate>>, p: seq<NodeId>)
    requires Planned(job, plans) && job.hopRole == Some(hopRole) && |job.targets| == 1
    requires job.limit > MAX_ROUTE_RESULTS
    requires PathTo(job, 0, p) && DialableIn(job, hopRole, p) && !InPlan(plans[0], p)
    ensures !Seen(Ranked(job, plans), p[1..]) && |Ranked(job, plans)| < job.limit
    ensures !NothingCheaperLost(job, hopRole, 0, job.limit, Ranked(job, plans))
  {
    hide PathTo, DialableIn, InPlan, Planned, Ranked, Seen;
    ShortOfPage(job, hopRole, plans, job.limit);
    forall u | 0 <= u < |plans| ensures !InPlan(plans[u], p) {
      OnePlan(job, plans);
    }
    LostIfNotPlanned(job, hopRole, plans, 0, job.limit, p);
    BestForOneTarget(job, hopRole, plans, job.limit);
  }

  // ----- what a caller can tell beforehand -----

  /** Every route no dearer than some route of this plan can be dialed. */
  ghost predicate CheapOnesDial(job: Job, hopRole: RoleId, t: nat, plan: seq<RouteCandidate>)
    requires t < |job.targets|
  {
    forall p, i :: IsRoute(GoalTo(job, t), p) && 0 <= i < |plan| && Cost(GoalTo(job, t).net, p) <= plan[i].score ==>
      DialableIn(job, hopRole, p)
  }

  /** A caller that plans for itself need not get the plan the ranking draws on,
      but any best plan of its own tells as much: if it falls short of the limit,
      the ranking holds the best routes to the target for any page; if all routes
      no dearer than its own can be dialed, for pages up to the planner's
      ceiling. */
  lemma TellsBeforehand(job: Job, hopRole: RoleId, t: nat, mine: seq<RouteCandidate>, plans: seq<seq<RouteCandidate>>,
                        page: nat)
    requires Planned(job, plans) && job.hopRole == Some(hopRole) && t < |job.targets| && page <= job.limit
    requires BestRoutes(GoalTo(job, t), ClampedLimit(job.limit), mine)
    requires || |mine| < ClampedLimit(job.limit)
             || (CheapOnesDial(job, hopRole, t, mine) && page <= ClampedLimit(job.limit))
    ensures NothingCheaperLost(job, hopRole, t, page, Ranked(job, plans))
  {
    hide NothingCheaperLost, Ranked, IsRoute, Cost, DialableIn, GoalTo;
    var g, limit := GoalTo(job, t), ClampedLimit(job.limit);
    assert BestRoutes(g, limit, plans[t]);
    CostsAreDetermined(g, limit, mine, plans[t]);
    if |mine| >= limit {
      forall k | 0 <= k < |plans[t]| ensures DialableIn(job, hopRole, plans[t][k].hops) {
        assert IsRoute(g, plans[t][k].hops) && Cost(g.net, plans[t][k].hops) <= mine[k].score;
      }
    }
    BestDialableRoutes(job, hopRole, plans, t, page);
  }

  // ----- routes collapsed to their target -----

  /** The route is the target alone, at an address it advertises, at the cost of
      a real path to it. */
  ghost predicate Reaches(job: Job, t: nat, p: seq<NodeId>, route: ResolvedRoute)
    requires t < |job.targets|
  {
    && PathTo(job, t, p)
    && NodeSequence(route.hops) == [job.targets[t]]
    && |route.hops| == 1 && FirstOffer(job.listeners, job.targets[t], job.targetRole, route.hops[0].addr)
    && route.score == Cost(GoalTo(job, t).net, p)
  }

  ghost predicate ReachesSome(job: Job, route: ResolvedRoute) {
    exists t, p :: 0 <= t < |job.targets| && Reaches(job, t, p, route)
  }

  predicate TargetDials(job: Job, t: nat)
    requires t < |job.targets|
  {
    Offers(job.listeners, job.targets[t], job.targetRole)
  }

  /** Any target a path leads to, if it can be dialed, is returned at no more
      than that path's cost, or gives way to a full page of the `limit` asked. */
  ghost predicate TargetsReached(job: Job, results: seq<ResolvedRoute>) {
    forall t, p | 0 <= t < |job.targets| && PathTo(job, t, p) && TargetDials(job, t) ::
      || Has(results, [job.targets[t]], Cost(GoalTo(job, t).net, p))
      || AtMost(results, job.limit, Cost(GoalTo(job, t).net, p))
  }

  /** Without a role asked of intermediates, what a planned path resolves to. */
  lemma CollapsedPath(job: Job, t: nat, p: seq<NodeId>)
    requires job.hopRole.None? && t < |job.targets| && PathTo(job, t, p)
    ensures var r := ResolvedHops(job.listeners, p, None, job.targetRole);
            && (r.Some? <==> TargetDials(job, t))
            && (r.Some? ==>
                  && |r.value| == 1 && r.value[0].nodeId == job.targets[t]
                  && FirstOffer(job.listeners, job.targets[t], job.targetRole, r.value[0].addr))
  {
    hide Cost, Edge, Simple;
    CollapsesToTarget(job.listeners, p, |p|, job.targetRole);
  }

  lemma SingleNode(listeners: Listeners, p: seq<NodeId>, targetRole: RoleId)
    requires |p| == 1
    ensures ResolvedHops(listeners, p, None, targetRole) == Some([])
  {
  }

  lemma CollapsedReaches(job: Job, plans: seq<seq<RouteCandidate>>, route: ResolvedRoute)
    requires Planned(job, plans) && job.hopRole.None? && route in Ranked(job, plans)
    ensures ReachesSome(job, route)
  {
    hide Cost, Merged, Edge, Simple, ResolvedHops, GoalTo;
    MergedIsSound(ResolveAll(job.listeners, plans, job.hopRole, job.targetRole), job.limit);
    ResolveAllMembers(job.listeners, plans, job.hopRole, job.targetRole, route);
    var t, k :| 0 <= t < |plans| && 0 <= k < |plans[t]|
                && Resolves(job.listeners, plans[t][k], job.hopRole, job.targetRole, route);
    var p := plans[t][k].hops;
    assert BestRoutes(GoalTo(job, t), ClampedLimit(job.limit), plans[t]);
    assert IsRoute(GoalTo(job, t), p);
    if |p| == 1 {
      SingleNode(job.listeners, p, job.targetRole);
    } else {
      assert PathTo(job, t, p);
      CollapsedPath(job, t, p);
      assert Reaches(job, t, p, route);
    }
  }

  lemma TargetIs(job: Job, t: nat)
    requires t < |job.targets|
    ensures GoalTo(job, t).target == job.targets[t] && GoalTo(job, t).source == job.source
  {
  }

  lemma OneHop(hops: seq<ResolvedHop>, node: NodeId)
    requires |hops| == 1 && hops[0].nodeId == node
    ensures NodeSequence(hops) == [node]
  {
  }

  lemma CollapsedTo(job: Job, plans: seq<seq<RouteCandidate>>, t: nat, p: seq<NodeId>)
    requires Planned(job, plans) && job.hopRole.None? && t < |job.targets| && PathTo(job, t, p)
    requires TargetDials(job, t)
    ensures Has(Ranked(job, plans), [job.targets[t]], Cost(GoalTo(job, t).net, p))
            || AtMost(Ranked(job, plans), job.limit, Cost(GoalTo(job, t).net, p))
  {
    hide Cost, Merged, Edge, Simple, ResolvedHops, GoalTo, NodeSequence, Has, TargetDials, FirstOffer;
    var resolved := ResolveAll(job.listeners, plans, job.hopRole, job.targetRole);
    assert BestRoutes(GoalTo(job, t), ClampedLimit(job.limit), plans[t]);
    if job.limit > 0 {
      var first := plans[t][0];
      assert IsRoute(GoalTo(job, t), first.hops);
      LeavesForATarget(job, t, p);
      TargetIs(job, t);
      assert PathTo(job, t, first.hops);
      CollapsedPath(job, t, first.hops);
      var route := ResolvedRoute(ResolvedHops(job.listeners, first.hops, None, job.targetRole).value, first.score);
      OneHop(route.hops, job.targets[t]);
      assert Resolves(job.listeners, first, job.hopRole, job.targetRole, route);
      ResolveAllMembers(job.listeners, plans, job.hopRole, job.targetRole, route);
      MergedIsComplete(resolved, job.limit, route);
      if Has(Merged(resolved, job.limit), [job.targets[t]], route.score) {
        HasLooser(Merged(resolved, job.limit), [job.targets[t]], route.score, Cost(GoalTo(job, t).net, p));
      }
    }
  }

  /** Collapsed routes are exactly as good: each is a target that a path of that
      cost leads to, and none is lost but to a full page no dearer. */
  lemma BestTargets(job: Job, plans: seq<seq<RouteCandidate>>)
    requires Planned(job, plans) && job.hopRole.None?
    ensures forall i :: 0 <= i < |Ranked(job, plans)| ==> ReachesSome(job, Ranked(job, plans)[i])
    ensures TargetsReached(job, Ranked(job, plans))
  {
    hide Cost, Ranked, ReachesSome, Has, AtMost, TargetDials, PathTo, Planned, GoalTo;
    forall i | 0 <= i < |Ranked(job, plans)| ensures ReachesSome(job, Ranked(job, plans)[i]) {
      CollapsedReaches(job, plans, Ranked(job, plans)[i]);
    }
    forall t, p | 0 <= t < |job.targets| && PathTo(job, t, p) && TargetDials(job, t)
      ensures Has(Ranked(job, plans), [job.targets[t]], Cost(GoalTo(job, t).net, p))
              || AtMost(Ranked(job, plans), job.limit, Cost(GoalTo(job, t).net, p))
    {
      CollapsedTo(job, plans, t, p);
    }
  }

  // ----- what paths and costs come to -----

  /** What a trail costs by the default scorer: ten milliseconds a link, and its
      round trip, or a second where none was measured. */
  function Millis(trail: seq<Link>): nat {
    if trail == [] then 0
    else
      var rtt := trail[0].latencyMs;
      10 + (if rtt.Some? then rtt.value else 1000) + Millis(trail[1..])
  }

  lemma {:induction false} MillisAreTotal(trail: seq<Link>)
    ensures Millis(trail) == TotalCost(DefaultCost, trail)
  {
    if |trail| == 1 {
      assert trail[..0] == [] && trail[1..] == [];
    } else if trail != [] {
      var n := |trail|;
      MillisAreTotal(trail[1..]);
      MillisAreTotal(trail[..n - 1]);
      MillisAreTotal(trail[1..n - 1]);
      assert trail[1..][..n - 2] == trail[1..n - 1] == trail[..n - 1][1..];
    }
  }

  function AskFor(job: Job, target: NodeId): RouteRequest {
    RouteRequest(job.source, target, job.allowedProtocols, job.maxHops)
  }

  /** The paths a ranking speaks of are the trails of the job's own links, and a
      path costs what its cheapest trail does. */
  lemma PathsAreTrails(job: Job, t: nat, p: seq<NodeId>)
    requires t < |job.targets|
    ensures PathTo(job, t, p) <==> |p| > 1 && exists trail :: Trail(job.links, AskFor(job, job.targets[t]), p, trail)
    ensures PathTo(job, t, p) ==>
              exists trail :: Trail(job.links, AskFor(job, job.targets[t]), p, trail)
                && Millis(trail) == Cost(GoalTo(job, t).net, p)
    ensures forall trail :: Trail(job.links, AskFor(job, job.targets[t]), p, trail) ==>
              Cost(GoalTo(job, t).net, p) <= Millis(trail)
  {
    hide Trail, IsRoute, Cost, Millis, TotalCost, GoalOf;
    var request := AskFor(job, job.targets[t]);
    if PathTo(job, t, p) {
      var trail := RouteIsTrail(DefaultCost, job.links, request, p);
      MillisAreTotal(trail);
    }
    forall trail | Trail(job.links, request, p, trail)
      ensures IsRoute(GoalTo(job, t), p) && Cost(GoalTo(job, t).net, p) <= Millis(trail)
    {
      TrailIsRoute(DefaultCost, job.links, request, p, trail);
      MillisAreTotal(trail);
    }
  }

  // ----- the whole procedure -----

  /** How good a ranking is where a role is asked of every hop. Every result is
      a real, dialable path. A target's best routes are held, page by page up to
      the limit asked, exactly when the plans match every dialable path to it;
      and up to the planner's ceiling always, if every node a link leads to
      advertises the roles asked. */
  ghost predicate RankedWell(job: Job, hopRole: RoleId, plans: seq<seq<RouteCandidate>>, routes: seq<ResolvedRoute>) {
    && AllFollow(job, hopRole, routes)
    && (forall t, page :: 0 <= t < |job.targets| && 0 <= page <= job.limit ==>
          (NothingCheaperLost(job, hopRole, t, page, routes) <==> MatchedByPlans(job, hopRole, plans, t, page)))
    && (AllAdvertise(job, hopRole) ==>
          forall t :: 0 <= t < |job.targets| ==> NothingCheaperLost(job, hopRole, t, ClampedLimit(job.limit), routes))
  }

  /** What the ranking amounts to, whatever plans it drew on. */
  lemma RankingIsBest(job: Job, plans: seq<seq<RouteCandidate>>)
    requires Planned(job, plans)
    ensures var routes := Ranked(job, plans);
            && |routes| <= job.limit && Sorted(routes) && DistinctNodes(routes)
            && (job.hopRole.Some? ==> RankedWell(job, job.hopRole.value, plans, routes))
            && (job.hopRole.None? ==>
                  TargetsReached(job, routes) && forall i :: 0 <= i < |routes| ==> ReachesSome(job, routes[i]))
  {
    hide Planned, Ranked, AllAdvertise, NothingCheaperLost, MatchedByPlans, Sorted, DistinctNodes, FollowsSome,
         TargetsReached, ReachesSome;
    ResultsAreOrdered(job, plans);
    if job.hopRole.Some? {
      var hopRole, routes := job.hopRole.value, Ranked(job, plans);
      forall i | 0 <= i < |routes| ensures FollowsSome(job, hopRole, routes[i]) {
        var t, p := ResultsAreRoutes(job, hopRole, plans, routes[i]);
        FollowsOne(job, hopRole, t, p, routes[i]);
      }
      forall t, page | 0 <= t < |job.targets| && 0 <= page <= job.limit
        ensures NothingCheaperLost(job, hopRole, t, page, routes) <==> MatchedByPlans(job, hopRole, plans, t, page)
      {
        BestExactlyWhen(job, hopRole, plans, t, page);
      }
      if AllAdvertise(job, hopRole) {
        BestRoutesToAllTargets(job, hopRole, plans);
      }
    } else {
      BestTargets(job, plans);
    }
  }

  /** Plans to every target, resolves each hop, and keeps the cheapest `limit`
      distinct routes overall. `plans` are the plans it drew on. */
  method ResolveCandidates(snapshot: GraphSnapshot, listeners: Listeners, source: NodeId, targets: seq<NodeId>,
                           allowedProtocols: seq<ProtocolId>, maxHops: nat, limit: nat,
                           hopRole: Option<RoleId>, targetRole: RoleId)
    returns (routes: seq<ResolvedRoute>, ghost plans: seq<seq<RouteCandidate>>)
    ensures var job :=
              Job(snapshot.links, listeners, source, targets, allowedProtocols, maxHops, limit, hopRole, targetRole);
            Planned(job, plans) && routes == Ranked(job, plans)
    ensures |routes| <= limit && Sorted(routes) && DistinctNodes(routes)
    ensures var job :=
              Job(snapshot.links, listeners, source, targets, allowedProtocols, maxHops, limit, hopRole, targetRole);
            hopRole.Some? ==> RankedWell(job, hopRole.value, plans, routes)
    ensures var job :=
              Job(snapshot.links, listeners, source, targets, allowedProtocols, maxHops, limit, hopRole, targetRole);
            hopRole.None? ==>
              TargetsReached(job, routes) && forall i :: 0 <= i < |routes| ==> ReachesSome(job, routes[i])
  {
    hide BestRoutes, BestTrails, LastHopProtocol, ResolvedHops, RankedWell, Sorted, DistinctNodes, TargetsReached,
      ReachesSome;
    plans := [];
    var resolved: seq<ResolvedRoute> := [];
    ghost var job :=
      Job(snapshot.links, listeners, source, targets, allowedProtocols, maxHops, limit, hopRole, targetRole);
    for t := 0 to |targets|
      invariant |plans| == t
      invariant forall u :: 0 <= u < t ==> BestRoutes(GoalTo(job, u), ClampedLimit(limit), plans[u])
      invariant resolved == ResolveAll(listeners, plans, hopRole, targetRole)
    {
      var request := RouteRequest(source, targets[t], allowedProtocols, maxHops);
      var plan;
      ghost var searches, examined;
      plan, searches, examined := Plan(DefaultCost, snapshot, request, limit);
      RoutesStartSomewhere(GoalTo(job, t), ClampedLimit(limit), plan);
      var dialable := ResolveTarget(listeners, plan, hopRole, targetRole);
      resolved := resolved + dialable;
      assert (plans + [plan])[..t] == plans;
      plans := plans + [plan];
    }
    var sorted := SortByScore(resolved);
    var kept := KeepFirst(sorted);
    routes := if |kept| <= limit then kept else kept[..limit];
    RankingIsBest(job, plans);
  }
}
