/** A graph on which an undialable route crowds a dialable one out: a cheap
    two-hop route through a node without an address, and a dear but dialable
    direct link. */
module Crowded {
  import opened Common
  import opened Graph
  import opened Walks
  import opened Yen
  import opened Planner
  import opened Resolve
  import opened Merge
  import opened Candidates

  const S := NodeId("s")
  const R := NodeId("r")
  const T := NodeId("t")

  function Measured(u: NodeId, v: NodeId, ms: u32): Link {
    Link(u, v, RADII, true, Some(ms))
  }

  function CrowdedJob(): Job {
    Job([Measured(S, R, 1), Measured(R, T, 1), Measured(S, T, 500)],
        map["t" := [("10.0.0.5:9000", "relay")]], S, [T], [], 4, 1, Some(RELAY), RELAY)
  }

  function CrowdedGoal(): Goal {
    GoalTo(CrowdedJob(), 0)
  }

  lemma Edges()
    ensures var net := CrowdedGoal().net;
            && Edge(net, S, R) && Edge(net, R, T) && Edge(net, S, T)
            && forall u, v :: Edge(net, u, v) ==> (u, v) == (S, R) || (u, v) == (R, T) || (u, v) == (S, T)
  {
    var links := CrowdedJob().links;
    var net := CrowdedGoal().net;
    assert links[0] in net.links && Joins(links[0], S, R);
    assert links[1] in net.links && Joins(links[1], R, T);
    assert links[2] in net.links && Joins(links[2], S, T);
  }

  lemma Weights()
    ensures var net := CrowdedGoal().net;
            Weight(net, S, R) == 11 && Weight(net, R, T) == 11 && Weight(net, S, T) == 510
  {
    hide Weight, Edge;
    Edges();
    var net := CrowdedGoal().net;
    var a := WeightIsCheapest(net, S, R);
    var b := WeightIsCheapest(net, R, T);
    var c := WeightIsCheapest(net, S, T);
  }

  lemma Costs()
    ensures Cost(CrowdedGoal().net, [S, R, T]) == 22 && Cost(CrowdedGoal().net, [S, T]) == 510
  {
    hide Weight, CrowdedGoal;
    Weights();
    var net := CrowdedGoal().net;
    CostPrepend(net, S, [R, T]);
    CostPrepend(net, R, [T]);
    CostPrepend(net, S, [T]);
    assert [S] + [R, T] == [S, R, T] && [R] + [T] == [R, T] && [S] + [T] == [S, T];
  }

  lemma OnlyTwoRoutes(p: seq<NodeId>)
    requires IsRoute(CrowdedGoal(), p)
    ensures p == [S, R, T] || p == [S, T]
  {
    hide Weight, Cost, Edge;
    Edges();
    var net := CrowdedGoal().net;
    assert S != R && R != T && S != T;
    assert |p| > 1 && Edge(net, p[0], p[1]);
    if p[1] == T {
      assert p[1] == p[|p| - 1];
    } else {
      assert p[1] == R && |p| > 2 && Edge(net, p[1], p[2]);
      assert p[2] == p[|p| - 1];
    }
  }

  lemma BothAreRoutes()
    ensures IsRoute(CrowdedGoal(), [S, R, T]) && IsRoute(CrowdedGoal(), [S, T])
  {
    hide Weight, Cost, Edge;
    Edges();
    assert S != R && R != T && S != T;
  }

  lemma OnlyPlan(plan: seq<RouteCandidate>)
    requires BestRoutes(CrowdedGoal(), 1, plan)
    ensures |plan| == 1 && plan[0].hops == [S, R, T]
  {
    hide Weight, Edge, Cost, IsRoute, CrowdedGoal;
    BothAreRoutes();
    Costs();
    if |plan| > 0 {
      OnlyTwoRoutes(plan[0].hops);
    }
  }

  lemma OnlyOneDials()
    ensures !DialableIn(CrowdedJob(), RELAY, [S, R, T]) && DialableIn(CrowdedJob(), RELAY, [S, T])
  {
    var listeners := CrowdedJob().listeners;
    assert !HasAddr(listeners, [S, R, T], 1, RELAY, RELAY);
    assert listeners["t"][0].1 == RELAY.name;
    assert HasAddr(listeners, [S, T], 1, RELAY, RELAY);
  }

  /** Whatever plan the planner settles on, nothing is returned although a
      dialable route exists. */
  lemma CrowdedOut(plans: seq<seq<RouteCandidate>>)
    requires Planned(CrowdedJob(), plans)
    ensures PathTo(CrowdedJob(), 0, [S, T]) && DialableIn(CrowdedJob(), RELAY, [S, T])
    ensures Ranked(CrowdedJob(), plans) == []
    ensures !NothingCheaperLost(CrowdedJob(), RELAY, 0, CrowdedJob().limit, Ranked(CrowdedJob(), plans))
  {
    hide BestRoutes, IsRoute, Seen, Cost, DialableIn, Merged, Ranked;
    var job := CrowdedJob();
    assert BestRoutes(CrowdedGoal(), 1, plans[0]);
    OnlyPlan(plans[0]);
    BothAreRoutes();
    OnlyOneDials();
    assert !PlanDialable(job, RELAY, plans[0]);
    ShortOfPage(job, RELAY, plans, job.limit);
    LostIfNotPlanned(job, RELAY, plans, 0, job.limit, [S, T]);
  }
}
