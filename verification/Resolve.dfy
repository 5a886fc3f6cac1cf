/** Turning planned routes into dialable ones. */
module Resolve {
  import opened Common
  import opened Graph
  import opened Planner

  datatype RoleId = RoleId(name: string)

  const RELAY: RoleId := RoleId("relay")

  /** The registry: for each node, its addresses and the role each plays. */
  type Listeners = map<string, seq<(string, string)>>

  datatype ResolvedHop = ResolvedHop(nodeId: NodeId, addr: string)
  datatype ResolvedRoute = ResolvedRoute(hops: seq<ResolvedHop>, score: nat)

  function NodeSequence(hops: seq<ResolvedHop>): (nodes: seq<NodeId>)
    ensures |nodes| == |hops|
    ensures forall i :: 0 <= i < |hops| ==> nodes[i] == hops[i].nodeId
  {
    seq(|hops|, i requires 0 <= i < |hops| => hops[i].nodeId)
  }

  function FirstInRole(entries: seq<(string, string)>, role: RoleId): (addr: Option<string>)
    ensures addr.None? ==> forall i :: 0 <= i < |entries| ==> entries[i].1 != role.name
    ensures addr.Some? ==> exists i :: 0 <= i < |entries| && entries[i] == (addr.value, role.name)
                                       && forall j :: 0 <= j < i ==> entries[j].1 != role.name
  {
    if entries == [] then None
    else if entries[0].1 == role.name then Some(entries[0].0)
    else
      var rest := FirstInRole(entries[1..], role);
      assert rest.Some? ==> exists i :: 0 <= i < |entries| && entries[i] == (rest.value, role.name)
                                        && forall j :: 0 <= j < i ==> entries[j].1 != role.name by {
        if rest.Some? {
          var i :| 0 <= i < |entries[1..]| && entries[1..][i] == (rest.value, role.name)
                   && forall j :: 0 <= j < i ==> entries[1..][j].1 != role.name;
          assert entries[i + 1] == (rest.value, role.name);
          forall j | 0 <= j < i + 1 ensures entries[j].1 != role.name {
            assert j > 0 ==> entries[j] == entries[1..][j - 1];
          }
        }
      }
      rest
  }

  /** The registry lists the node with some entry in this role. */
  predicate Offers(listeners: Listeners, node: NodeId, role: RoleId) {
    && node.name in listeners
    && exists i :: 0 <= i < |listeners[node.name]| && listeners[node.name][i].1 == role.name
  }

  /** Among the node's entries, the first in this role has this address. */
  ghost predicate FirstOffer(listeners: Listeners, node: NodeId, role: RoleId, addr: string) {
    && node.name in listeners
    && exists i :: 0 <= i < |listeners[node.name]| && listeners[node.name][i] == (addr, role.name)
                   && forall j :: 0 <= j < i ==> listeners[node.name][j].1 != role.name
  }

  /** The first address a node advertises in a role, if any. */
  function AddrForRole(listeners: Listeners, node: NodeId, role: RoleId): (addr: Option<string>)
    ensures addr.Some? <==> Offers(listeners, node, role)
    ensures addr.Some? ==> FirstOffer(listeners, node, role, addr.value)
  {
    if node.name in listeners then FirstInRole(listeners[node.name], role) else None
  }

  // ----- one route -----

  /** The hops among the first n nodes of a path, source left out, each with
      its address; None when one of them cannot be dialed. */
  function ResolvedUpTo(listeners: Listeners, path: seq<NodeId>, n: nat, hopRole: Option<RoleId>, targetRole: RoleId):
    Option<seq<ResolvedHop>>
    requires n <= |path|
  {
    if n <= 1 then Some([])
    else
      var before := ResolvedUpTo(listeners, path, n - 1, hopRole, targetRole);
      var role := if n == |path| then Some(targetRole) else hopRole;
      if before.None? || role.None? then before
      else
        match AddrForRole(listeners, path[n - 1], role.value)
        case None => None
        case Some(addr) => Some(before.value + [ResolvedHop(path[n - 1], addr)])
  }

  function ResolvedHops(listeners: Listeners, path: seq<NodeId>, hopRole: Option<RoleId>, targetRole: RoleId):
    Option<seq<ResolvedHop>>
  {
    ResolvedUpTo(listeners, path, |path|, hopRole, targetRole)
  }

  ghost predicate HasAddr(listeners: Listeners, path: seq<NodeId>, i: nat, hopRole: RoleId, targetRole: RoleId)
    requires i < |path|
  {
    Offers(listeners, path[i], if i == |path| - 1 then targetRole else hopRole)
  }

  /** Every node after the source can be dialed in the role the route needs of
      it. */
  ghost predicate Dialable(listeners: Listeners, path: seq<NodeId>, hopRole: RoleId, targetRole: RoleId) {
    forall i :: 0 < i < |path| ==> HasAddr(listeners, path, i, hopRole, targetRole)
  }

  /** With a role asked of every hop, resolving succeeds exactly on dialable
      paths, keeps every node after the source, and gives each the first address
      it advertises in the role asked. */
  lemma {:induction false} ResolvesDialable(listeners: Listeners, path: seq<NodeId>, n: nat, hopRole: RoleId,
                                            targetRole: RoleId)
    requires 0 < n <= |path|
    ensures var r := ResolvedUpTo(listeners, path, n, Some(hopRole), targetRole);
            && (r.Some? <==> forall i :: 0 < i < n ==> HasAddr(listeners, path, i, hopRole, targetRole))
            && (r.Some? ==>
                  && NodeSequence(r.value) == path[1..n]
                  && forall i :: 0 < i < n ==>
                       FirstOffer(listeners, path[i], if i == |path| - 1 then targetRole else hopRole,
                                  r.value[i - 1].addr))
  {
    if n > 1 {
      ResolvesDialable(listeners, path, n - 1, hopRole, targetRole);
      assert HasAddr(listeners, path, n - 1, hopRole, targetRole) <==>
             AddrForRole(listeners, path[n - 1], if n == |path| then targetRole else hopRole).Some?;
      assert path[1..n] == path[1..n - 1] + [path[n - 1]];
    }
  }

  /** With no role asked of intermediates, a path collapses to its target. */
  lemma {:induction false} CollapsesToTarget(listeners: Listeners, path: seq<NodeId>, n: nat, targetRole: RoleId)
    requires 0 < n <= |path|
    ensures var r := ResolvedUpTo(listeners, path, n, None, targetRole);
            && (n < |path| || n == 1 ==> r == Some([]))
            && (1 < n == |path| ==>
                  && (r.Some? <==> Offers(listeners, path[n - 1], targetRole))
                  && (r.Some? ==>
                        && |r.value| == 1 && r.value[0].nodeId == path[n - 1]
                        && FirstOffer(listeners, path[n - 1], targetRole, r.value[0].addr)))
  {
    if n > 1 {
      CollapsesToTarget(listeners, path, n - 1, targetRole);
    }
  }

  // ----- all routes -----

  /** The routes of one target's plan that can be dialed, in order. */
  function ResolvePlan(listeners: Listeners, plan: seq<RouteCandidate>, hopRole: Option<RoleId>, targetRole: RoleId):
    seq<ResolvedRoute>
  {
    if plan == [] then []
    else
      var rest, last := ResolvePlan(listeners, plan[..|plan| - 1], hopRole, targetRole), plan[|plan| - 1];
      match ResolvedHops(listeners, last.hops, hopRole, targetRole)
      case None => rest
      case Some(hops) => if hops == [] then rest else rest + [ResolvedRoute(hops, last.score)]
  }

  function ResolveAll(listeners: Listeners, plans: seq<seq<RouteCandidate>>, hopRole: Option<RoleId>,
                      targetRole: RoleId):
    seq<ResolvedRoute>
  {
    if plans == [] then []
    else ResolveAll(listeners, plans[..|plans| - 1], hopRole, targetRole)
         + ResolvePlan(listeners, plans[|plans| - 1], hopRole, targetRole)
  }

  ghost predicate Resolves(listeners: Listeners, candidate: RouteCandidate, hopRole: Option<RoleId>, targetRole: RoleId,
                           route: ResolvedRoute)
  {
    && route.hops != []
    && ResolvedHops(listeners, candidate.hops, hopRole, targetRole) == Some(route.hops)
    && route.score == candidate.score
  }

  lemma {:induction false} ResolvePlanMembers(listeners: Listeners, plan: seq<RouteCandidate>, hopRole: Option<RoleId>,
                                              targetRole: RoleId, route: ResolvedRoute)
    ensures route in ResolvePlan(listeners, plan, hopRole, targetRole) <==>
            exists k :: 0 <= k < |plan| && Resolves(listeners, plan[k], hopRole, targetRole, route)
  {
    hide ResolvedHops;
    if plan != [] {
      var front := plan[..|plan| - 1];
      ResolvePlanMembers(listeners, front, hopRole, targetRole, route);
      forall k | 0 <= k < |front| ensures front[k] == plan[k] {
      }
    }
  }

  lemma {:induction false} ResolveAllMembers(listeners: Listeners, plans: seq<seq<RouteCandidate>>,
                                             hopRole: Option<RoleId>, targetRole: RoleId, route: ResolvedRoute)
    ensures route in ResolveAll(listeners, plans, hopRole, targetRole) <==>
            exists t, k :: 0 <= t < |plans| && 0 <= k < |plans[t]|
                           && Resolves(listeners, plans[t][k], hopRole, targetRole, route)
  {
    hide Resolves, ResolvePlan;
    if plans != [] {
      var front, last := plans[..|plans| - 1], plans[|plans| - 1];
      ResolveAllMembers(listeners, front, hopRole, targetRole, route);
      ResolvePlanMembers(listeners, last, hopRole, targetRole, route);
      forall t | 0 <= t < |front| ensures front[t] == plans[t] {
      }
    }
  }

  lemma {:induction false} PlanInOrder(listeners: Listeners, a: seq<RouteCandidate>, b: seq<RouteCandidate>,
                                       hopRole: Option<RoleId>, targetRole: RoleId)
    ensures ResolvePlan(listeners, a + b, hopRole, targetRole)
            == ResolvePlan(listeners, a, hopRole, targetRole) + ResolvePlan(listeners, b, hopRole, targetRole)
  {
    hide ResolvedHops;
    if b == [] {
      assert a + b == a;
    } else {
      PlanInOrder(listeners, a, b[..|b| - 1], hopRole, targetRole);
      assert (a + b)[..|a + b| - 1] == a + b[..|b| - 1];
    }
  }

  /** Resolved routes keep the order of their targets, and by `PlanInOrder` of
      each plan. */
  lemma {:induction false} ResolvedInOrder(listeners: Listeners, a: seq<seq<RouteCandidate>>,
                                           b: seq<seq<RouteCandidate>>, hopRole: Option<RoleId>, targetRole: RoleId)
    ensures ResolveAll(listeners, a + b, hopRole, targetRole)
            == ResolveAll(listeners, a, hopRole, targetRole) + ResolveAll(listeners, b, hopRole, targetRole)
  {
    hide ResolvePlan;
    if b == [] {
      assert a + b == a;
    } else {
      ResolvedInOrder(listeners, a, b[..|b| - 1], hopRole, targetRole);
      assert (a + b)[..|a + b| - 1] == a + b[..|b| - 1];
    }
  }
}
