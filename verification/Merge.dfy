/** Sorting, deduplicating and truncating resolved routes. */
module Merge {
  import opened Graph
  import opened Resolve

  ghost predicate Sorted(routes: seq<ResolvedRoute>) {
    forall i, j :: 0 <= i <= j < |routes| ==> routes[i].score <= routes[j].score
  }

  ghost predicate DistinctNodes(routes: seq<ResolvedRoute>) {
    forall i, j :: 0 <= i < j < |routes| ==> NodeSequence(routes[i].hops) != NodeSequence(routes[j].hops)
  }

  predicate Seen(routes: seq<ResolvedRoute>, nodes: seq<NodeId>) {
    exists i :: 0 <= i < |routes| && NodeSequence(routes[i].hops) == nodes
  }

  /** Some route with these nodes scores at most c. */
  ghost predicate Has(routes: seq<ResolvedRoute>, nodes: seq<NodeId>, c: nat) {
    exists i :: 0 <= i < |routes| && NodeSequence(routes[i].hops) == nodes && routes[i].score <= c
  }

  /** Puts a route after all those that score no worse. */
  function InsertByScore(sorted: seq<ResolvedRoute>, route: ResolvedRoute): seq<ResolvedRoute> {
    if sorted == [] || sorted[|sorted| - 1].score <= route.score then sorted + [route]
    else InsertByScore(sorted[..|sorted| - 1], route) + [sorted[|sorted| - 1]]
  }

  /** A stable sort, cheapest first. */
  function SortByScore(routes: seq<ResolvedRoute>): seq<ResolvedRoute> {
    if routes == [] then []
    else InsertByScore(SortByScore(routes[..|routes| - 1]), routes[|routes| - 1])
  }

  lemma {:induction false} InsertSorts(sorted: seq<ResolvedRoute>, route: ResolvedRoute)
    requires Sorted(sorted)
    ensures Sorted(InsertByScore(sorted, route))
    ensures forall x :: x in InsertByScore(sorted, route) <==> x in sorted || x == route
  {
    if sorted != [] && sorted[|sorted| - 1].score > route.score {
      var front := sorted[..|sorted| - 1];
      InsertSorts(front, route);
      assert sorted == front + [sorted[|sorted| - 1]];
      forall x | x in InsertByScore(front, route) ensures x.score <= sorted[|sorted| - 1].score {
        if x in front {
          var i :| 0 <= i < |front| && front[i] == x;
          assert sorted[i] == x;
        }
      }
    }
  }

  lemma {:induction false} SortSorts(routes: seq<ResolvedRoute>)
    ensures Sorted(SortByScore(routes))
    ensures forall x :: x in SortByScore(routes) <==> x in routes
  {
    if routes != [] {
      var front := routes[..|routes| - 1];
      SortSorts(front);
      InsertSorts(SortByScore(front), routes[|routes| - 1]);
      assert routes == front + [routes[|routes| - 1]];
    }
  }

  /** The routes of one score, in order. */
  function WithScore(routes: seq<ResolvedRoute>, c: nat): seq<ResolvedRoute> {
    if routes == [] then []
    else
      var last := routes[|routes| - 1];
      WithScore(routes[..|routes| - 1], c) + (if last.score == c then [last] else [])
  }

  lemma {:induction false} InsertIsStable(sorted: seq<ResolvedRoute>, route: ResolvedRoute, c: nat)
    requires Sorted(sorted)
    ensures WithScore(InsertByScore(sorted, route), c)
              == WithScore(sorted, c) + (if route.score == c then [route] else [])
  {
    if sorted == [] || sorted[|sorted| - 1].score <= route.score {
      assert (sorted + [route])[..|sorted|] == sorted;
    } else {
      var front, last := sorted[..|sorted| - 1], sorted[|sorted| - 1];
      InsertIsStable(front, route, c);
      var inserted := InsertByScore(front, route);
      assert (inserted + [last])[..|inserted|] == inserted;
    }
  }

  /** Sorting keeps the routes of each score, all of them and in their order. */
  lemma {:induction false} SortIsStable(routes: seq<ResolvedRoute>, c: nat)
    ensures WithScore(SortByScore(routes), c) == WithScore(routes, c)
  {
    if routes != [] {
      var front := routes[..|routes| - 1];
      SortIsStable(front, c);
      SortSorts(front);
      InsertIsStable(SortByScore(front), routes[|routes| - 1], c);
    }
  }

  /** Keeps the first route of each node sequence. */
  function Dedupe(routes: seq<ResolvedRoute>): seq<ResolvedRoute> {
    if routes == [] then []
    else
      var front, last := routes[..|routes| - 1], routes[|routes| - 1];
      if Seen(front, NodeSequence(last.hops)) then Dedupe(front) else Dedupe(front) + [last]
  }

  /** What is kept is exactly each route that no earlier one shares its nodes
      with. */
  lemma {:induction false} DedupeKeepsFirsts(routes: seq<ResolvedRoute>, x: ResolvedRoute)
    ensures x in Dedupe(routes) <==>
            exists i :: 0 <= i < |routes| && routes[i] == x && !Seen(routes[..i], NodeSequence(x.hops))
  {
    hide NodeSequence, Seen;
    if routes != [] {
      var front, last := routes[..|routes| - 1], routes[|routes| - 1];
      DedupeKeepsFirsts(front, x);
      forall i | 0 <= i < |front| ensures routes[i] == front[i] && routes[..i] == front[..i] {
      }
      assert routes[..|front|] == front;
      if x in Dedupe(front) {
        var i :| 0 <= i < |front| && front[i] == x && !Seen(front[..i], NodeSequence(x.hops));
        assert routes[i] == x && !Seen(routes[..i], NodeSequence(x.hops));
      } else if x == last && !Seen(front, NodeSequence(last.hops)) {
        assert routes[|front|] == x && !Seen(routes[..|front|], NodeSequence(x.hops));
      }
    }
  }

  lemma {:induction false} DedupeSound(routes: seq<ResolvedRoute>)
    requires Sorted(routes)
    ensures Sorted(Dedupe(routes)) && DistinctNodes(Dedupe(routes))
    ensures forall x :: x in Dedupe(routes) ==> x in routes
  {
    hide NodeSequence;
    if routes != [] {
      var front, last := routes[..|routes| - 1], routes[|routes| - 1];
      DedupeSound(front);
      assert routes == front + [last];
      var kept := Dedupe(front);
      forall i | 0 <= i < |kept|
        ensures kept[i].score <= last.score
        ensures !Seen(front, NodeSequence(last.hops)) ==> NodeSequence(kept[i].hops) != NodeSequence(last.hops)
      {
        assert kept[i] in front;
      }
    }
  }

  lemma HasMore(routes: seq<ResolvedRoute>, extra: ResolvedRoute, nodes: seq<NodeId>, c: nat)
    requires Has(routes, nodes, c) || (NodeSequence(extra.hops) == nodes && extra.score <= c)
    ensures Has(routes + [extra], nodes, c)
  {
    hide NodeSequence;
    if Has(routes, nodes, c) {
      var i :| 0 <= i < |routes| && NodeSequence(routes[i].hops) == nodes && routes[i].score <= c;
      assert (routes + [extra])[i] == routes[i];
    } else {
      assert (routes + [extra])[|routes|] == extra;
    }
  }

  lemma HasLooser(routes: seq<ResolvedRoute>, nodes: seq<NodeId>, c: nat, c': nat)
    requires Has(routes, nodes, c) && c <= c'
    ensures Has(routes, nodes, c')
  {
    hide NodeSequence;
  }

  lemma {:induction false} DedupeHas(routes: seq<ResolvedRoute>, k: nat)
    requires Sorted(routes) && k < |routes|
    ensures Has(Dedupe(routes), NodeSequence(routes[k].hops), routes[k].score)
  {
    hide NodeSequence, Has;
    var front, last := routes[..|routes| - 1], routes[|routes| - 1];
    if k < |front| {
      DedupeHas(front, k);
      if !Seen(front, NodeSequence(last.hops)) {
        HasMore(Dedupe(front), last, NodeSequence(routes[k].hops), routes[k].score);
      }
    } else if Seen(front, NodeSequence(last.hops)) {
      var j :| 0 <= j < |front| && NodeSequence(front[j].hops) == NodeSequence(last.hops);
      DedupeHas(front, j);
      HasLooser(Dedupe(front), NodeSequence(last.hops), front[j].score, last.score);
    } else {
      HasMore(Dedupe(front), last, NodeSequence(last.hops), last.score);
    }
  }

  lemma HasIsSeen(routes: seq<ResolvedRoute>, nodes: seq<NodeId>, c: nat)
    requires Has(routes, nodes, c)
    ensures Seen(routes, nodes)
  {
    hide NodeSequence;
  }

  /** All distinct routes, cheapest first. */
  function Unique(routes: seq<ResolvedRoute>): seq<ResolvedRoute> {
    Dedupe(SortByScore(routes))
  }

  lemma UniqueSound(routes: seq<ResolvedRoute>)
    ensures Sorted(Unique(routes)) && DistinctNodes(Unique(routes))
    ensures forall x :: x in Unique(routes) ==> x in routes
  {
    hide Sorted, DistinctNodes;
    SortSorts(routes);
    DedupeSound(SortByScore(routes));
  }

  lemma UniqueHas(routes: seq<ResolvedRoute>, x: ResolvedRoute)
    requires x in routes
    ensures Has(Unique(routes), NodeSequence(x.hops), x.score)
  {
    hide Sorted, Has, NodeSequence;
    SortSorts(routes);
    assert x in SortByScore(routes);
    var k :| 0 <= k < |SortByScore(routes)| && SortByScore(routes)[k] == x;
    DedupeHas(SortByScore(routes), k);
  }

  function Merged(routes: seq<ResolvedRoute>, limit: nat): seq<ResolvedRoute> {
    var unique := Unique(routes);
    if |unique| <= limit then unique else unique[..limit]
  }

  /** The merge never invents a route, never repeats one, and keeps score
      order. */
  lemma MergedIsSound(routes: seq<ResolvedRoute>, limit: nat)
    ensures |Merged(routes, limit)| <= limit
    ensures Sorted(Merged(routes, limit)) && DistinctNodes(Merged(routes, limit))
    ensures forall x :: x in Merged(routes, limit) ==> x in routes
  {
    hide NodeSequence, Unique;
    UniqueSound(routes);
  }

  /** The first n results are all there and score at most c. */
  ghost predicate AtMost(results: seq<ResolvedRoute>, n: nat, c: nat) {
    n <= |results| && forall i :: 0 <= i < n ==> results[i].score <= c
  }

  /** A route is only lost to one of its own node sequence that is no dearer, or
      to a full page of routes no dearer. */
  lemma MergedIsComplete(routes: seq<ResolvedRoute>, limit: nat, x: ResolvedRoute)
    requires x in routes
    ensures Has(Merged(routes, limit), NodeSequence(x.hops), x.score) || AtMost(Merged(routes, limit), limit, x.score)
  {
    hide NodeSequence, Unique, DistinctNodes;
    UniqueSound(routes);
    UniqueHas(routes, x);
    var unique, merged := Unique(routes), Merged(routes, limit);
    var i :| 0 <= i < |unique| && NodeSequence(unique[i].hops) == NodeSequence(x.hops) && unique[i].score <= x.score;
    if i < limit {
      assert merged[i] == unique[i];
    }
  }

  ghost predicate Family(routes: seq<ResolvedRoute>, family: seq<ResolvedRoute>, c: nat) {
    && DistinctNodes(family)
    && forall j :: 0 <= j < |family| ==> family[j] in routes && family[j].score <= c
  }

  /** Distinct routes of cost at most c take as many different places. */
  lemma {:induction false} FamilyFits(unique: seq<ResolvedRoute>, family: seq<ResolvedRoute>, c: nat, n: nat)
    returns (places: set<nat>)
    requires DistinctNodes(family) && n <= |family|
    requires forall j :: 0 <= j < |family| ==> Has(unique, NodeSequence(family[j].hops), c)
    ensures |places| == n
    ensures forall i :: i in places ==> i < |unique| && unique[i].score <= c
    ensures forall i :: i in places ==>
              exists j :: 0 <= j < n && NodeSequence(unique[i].hops) == NodeSequence(family[j].hops)
  {
    hide NodeSequence;
    if n == 0 {
      places := {};
    } else {
      var rest := FamilyFits(unique, family, c, n - 1);
      assert Has(unique, NodeSequence(family[n - 1].hops), c);
      var i :| 0 <= i < |unique| && NodeSequence(unique[i].hops) == NodeSequence(family[n - 1].hops)
        && unique[i].score <= c;
      assert i !in rest;
      places := rest + {i};
    }
  }

  lemma {:induction false} Fills(places: set<nat>, m: nat)
    requires forall i :: i in places ==> i < m
    ensures |places| <= m
  {
    if m > 0 {
      Fills(places - {m - 1}, m - 1);
    } else {
      assert places == {};
    }
  }

  /** Distinct routes of cost at most c push nothing dearer onto the first
      places. */
  lemma MergedHoldsFamily(routes: seq<ResolvedRoute>, limit: nat, family: seq<ResolvedRoute>, c: nat)
    requires Family(routes, family, c) && |family| <= limit
    ensures AtMost(Merged(routes, limit), |family|, c)
  {
    hide NodeSequence, Unique, Has;
    UniqueSound(routes);
    var unique := Unique(routes);
    forall j | 0 <= j < |family| ensures Has(unique, NodeSequence(family[j].hops), c) {
      UniqueHas(routes, family[j]);
      HasLooser(unique, NodeSequence(family[j].hops), family[j].score, c);
    }
    var places := FamilyFits(unique, family, c, |family|);
    Fills(places, |unique|);
    forall k | 0 <= k < |family| ensures unique[k].score <= c {
      if unique[k].score > c {
        forall i | i in places ensures i < k {
        }
        Fills(places, k);
      }
    }
  }
}
