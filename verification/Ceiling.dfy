/** A graph on which more routes are asked for than the planner ever returns:
    33 relays side by side, every one of them dialable, and a limit of 33. */
module Ceiling {
  import opened Common
  import opened Graph
  import opened Walks
  import opened Yen
  import opened Planner
  import opened Resolve
  import opened Merge
  import opened Candidates
  import opened Crowded

  const WIDTH: nat := 33
  const AT: (string, string) := ("10.0.0.9:9000", "relay")

  /** The i-th relay; the names differ in length. */
  function Mid(i: nat): NodeId {
    NodeId(seq(i + 2, _ => 'm'))
  }

  function Via(i: nat): seq<NodeId> {
    [S, Mid(i), T]
  }

  function Fan(n: nat): seq<Link> {
    if n == 0 then [] else Fan(n - 1) + [Measured(S, Mid(n - 1), 1), Measured(Mid(n - 1), T, 1)]
  }

  function FanListeners(n: nat): Listeners {
    if n == 0 then map["t" := [AT]] else FanListeners(n - 1)[Mid(n - 1).name := [AT]]
  }

  function FanJob(): Job {
    Job(Fan(WIDTH), FanListeners(WIDTH), S, [T], [], 2, WIDTH, Some(RELAY), RELAY)
  }

  function FanGoal(): Goal {
    GoalTo(FanJob(), 0)
  }

  lemma MidsDiffer(i: nat, j: nat)
    ensures Mid(i) != S && Mid(i) != T && S != T
    ensures Mid(i) == Mid(j) ==> i == j
  {
    assert |Mid(i).name| == i + 2 && |Mid(j).name| == j + 2;
    assert |S.name| == 1 && |T.name| == 1 && S.name[0] != T.name[0];
  }

  lemma {:induction false} FanHas(n: nat, i: nat)
    requires i < n
    ensures Measured(S, Mid(i), 1) in Fan(n) && Measured(Mid(i), T, 1) in Fan(n)
  {
    if i < n - 1 {
      FanHas(n - 1, i);
    }
  }

  lemma {:induction false} TargetAdvertises(n: nat)
    ensures "t" in FanListeners(n)
  {
    if n > 0 {
      TargetAdvertises(n - 1);
    }
  }

  lemma {:induction false} FanAdvertises(n: nat, link: Link)
    requires link in Fan(n)
    ensures link.to.name in FanListeners(n)
  {
    if link in Fan(n - 1) {
      FanAdvertises(n - 1, link);
    } else if link == Measured(Mid(n - 1), T, 1) {
      TargetAdvertises(n);
    }
  }

  lemma {:induction false} AllAtOneAddress(n: nat)
    ensures forall name :: name in FanListeners(n) ==> FanListeners(n)[name] == [AT]
  {
    if n > 0 {
      AllAtOneAddress(n - 1);
    }
  }

  lemma EveryNodeAdvertises()
    ensures AllAdvertise(FanJob(), RELAY)
  {
    hide Fan, FanListeners;
    AllAtOneAddress(WIDTH);
    assert [AT][0].1 == RELAY.name;
    forall link | link in Fan(WIDTH) ensures Offers(FanListeners(WIDTH), link.to, RELAY) {
      FanAdvertises(WIDTH, link);
    }
  }

  lemma EachIsRoute(i: nat)
    requires i < WIDTH
    ensures IsRoute(FanGoal(), Via(i))
  {
    hide Fan, FanListeners, Cost, Mid;
    FanHas(WIDTH, i);
    MidsDiffer(i, i);
    var net := FanGoal().net;
    var up, down := Measured(S, Mid(i), 1), Measured(Mid(i), T, 1);
    assert up in net.links && Joins(up, S, Mid(i));
    assert down in net.links && Joins(down, Mid(i), T);
    var p := Via(i);
    forall k | 0 < k < |p| ensures Edge(net, p[k - 1], p[k]) {
      assert k == 1 || k == 2;
    }
  }

  /** 32 routes cannot name all 33. */
  lemma OneUnplanned(plan: seq<RouteCandidate>) returns (i: nat)
    requires |plan| < WIDTH
    ensures i < WIDTH && !InPlan(plan, Via(i))
  {
    hide Mid;
    if forall j: nat :: j < WIDTH ==> InPlan(plan, Via(j)) {
      var all := seq(WIDTH, j requires 0 <= j < WIDTH => Via(j));
      forall j, k | 0 <= j < k < |all| ensures all[j] != all[k] {
        MidsDiffer(j, k);
        assert Via(j)[1] == Mid(j) && Via(k)[1] == Mid(k);
      }
      forall j | 0 <= j < |all| ensures all[j] in HopsOf(plan) {
        assert InPlan(plan, Via(j));
        var k :| 0 <= k < |plan| && plan[k].hops == Via(j);
        assert HopsOf(plan)[k] == Via(j);
      }
      DistinctFits(all, HopsOf(plan));
    }
    i :| i < WIDTH && !InPlan(plan, Via(i));
  }

  /** Whatever plan the planner settles on, some route is missing from a page
      that is not full, although every node can be dialed and pages of 32 hold
      all they should. */
  lemma LostAboveThirtyTwo(plans: seq<seq<RouteCandidate>>) returns (i: nat)
    requires Planned(FanJob(), plans)
    ensures AllAdvertise(FanJob(), RELAY)
    ensures i < WIDTH && PathTo(FanJob(), 0, Via(i)) && DialableIn(FanJob(), RELAY, Via(i))
    ensures !Seen(Ranked(FanJob(), plans), Via(i)[1..]) && |Ranked(FanJob(), plans)| < FanJob().limit
    ensures NothingCheaperLost(FanJob(), RELAY, 0, MAX_ROUTE_RESULTS, Ranked(FanJob(), plans))
    ensures !NothingCheaperLost(FanJob(), RELAY, 0, FanJob().limit, Ranked(FanJob(), plans))
  {
    hide AllAdvertise, NothingCheaperLost, Ranked, Seen, DialableIn, IsRoute, InPlan, Fan, FanListeners, Mid;
    var job := FanJob();
    assert BestRoutes(FanGoal(), ClampedLimit(WIDTH), plans[0]);
    i := OneUnplanned(plans[0]);
    EachIsRoute(i);
    EveryNodeAdvertises();
    RoutesAreDialable(job, RELAY, 0, Via(i));
    LostAboveCeiling(job, RELAY, plans, Via(i));
    BestRoutesToAllTargets(job, RELAY, plans);
  }
}
