/** Why diverging from accepted routes, around both accepted and pooled ones,
    still finds every next-cheapest route. */
module Yen {
  import opened Common
  import opened Graph
  import opened Walks
  import opened Search

  datatype Goal = Goal(net: Net, source: NodeId, target: NodeId, maxHops: nat)

  ghost predicate IsRoute(g: Goal, p: seq<NodeId>) {
    Route(g.net, p, g.source, g.target, g.maxHops)
  }

  ghost predicate GoodRoute(g: Goal, path: Path) {
    GoodPath(g.net, path) && IsRoute(g, path.hops)
  }

  predicate Known(paths: seq<Path>, p: seq<NodeId>) {
    exists k :: 0 <= k < |paths| && paths[k].hops == p
  }

  /** Some path starts this way. */
  ghost predicate Shares(paths: seq<Path>, prefix: seq<NodeId>) {
    exists k :: 0 <= k < |paths| && prefix <= paths[k].hops
  }

  /** A place an accepted route can be left: all of it but its last node. */
  ghost predicate Root(accepted: seq<Path>, r: seq<NodeId>) {
    |r| > 0 && exists k :: 0 <= k < |accepted| && r < accepted[k].hops
  }

  ghost predicate CoveredBy(net: Net, pool: seq<Path>, r: seq<NodeId>, p: seq<NodeId>) {
    exists k :: 0 <= k < |pool| && r <= pool[k].hops && pool[k].cost <= Cost(net, p)
  }

  /** Whatever leaves the accepted routes at r is matched by a pooled
      candidate through r that is no dearer. */
  ghost predicate Covered(g: Goal, accepted: seq<Path>, pool: seq<Path>, r: seq<NodeId>) {
    forall p :: IsRoute(g, p) && r < p && !Shares(accepted, p[..|r| + 1]) ==> CoveredBy(g.net, pool, r, p)
  }

  /** Every root is covered, except those of `last` longer than `done`. */
  ghost predicate RootsCovered(g: Goal, accepted: seq<Path>, pool: seq<Path>, last: seq<NodeId>, done: nat) {
    forall r :: Root(accepted, r) && !(r <= last && |r| > done) ==> Covered(g, accepted, pool, r)
  }

  /** q left the accepted routes after its first d + 1 nodes, and is cheapest
      among all routes that leave the same way. */
  ghost predicate Deviates(g: Goal, accepted: seq<Path>, q: Path, d: nat) {
    && d + 2 <= |q.hops|
    && Shares(accepted, q.hops[..d + 1])
    && forall p :: IsRoute(g, p) && q.hops[..d + 2] <= p ==> q.cost <= Cost(g.net, p)
  }

  ghost predicate AllGood(g: Goal, paths: seq<Path>) {
    forall k :: 0 <= k < |paths| ==> GoodRoute(g, paths[k])
  }

  ghost predicate Distinct(paths: seq<Path>) {
    forall i, j :: 0 <= i < j < |paths| ==> paths[i].hops != paths[j].hops
  }

  ghost predicate Ascending(paths: seq<Path>) {
    forall i, j :: 0 <= i <= j < |paths| ==> paths[i].cost <= paths[j].cost
  }

  /** No route outside this list is cheaper than one inside it. */
  ghost predicate NoneCheaper(g: Goal, accepted: seq<Path>) {
    forall p, k :: IsRoute(g, p) && !Known(accepted, p) && 0 <= k < |accepted| ==> accepted[k].cost <= Cost(g.net, p)
  }

  ghost predicate AllDeviate(g: Goal, accepted: seq<Path>, pool: seq<Path>, dev: seq<nat>) {
    && |dev| == |pool|
    && forall k :: 0 <= k < |pool| ==> Deviates(g, accepted, pool[k], dev[k])
  }

  ghost predicate State(g: Goal, accepted: seq<Path>, pool: seq<Path>, dev: seq<nat>) {
    && |accepted| > 0
    && AllGood(g, accepted) && AllGood(g, pool)
    && Distinct(accepted + pool)
    && Ascending(accepted)
    && NoneCheaper(g, accepted)
    && AllDeviate(g, accepted, pool, dev)
  }

  // ----- routes as prefixes of one another -----

  lemma RouteEndsOnce(g: Goal, p: seq<NodeId>, h: seq<NodeId>)
    requires IsRoute(g, p) && IsRoute(g, h) && p != h
    ensures !(p <= h)
  {
    if |p| < |h| {
      assert h[|p| - 1] != h[|h| - 1];
    }
  }

  lemma {:induction false} LongestShared(paths: seq<Path>, p: seq<NodeId>, n: nat) returns (r: seq<NodeId>)
    requires 0 < n <= |p| && Shares(paths, p[..n])
    ensures 0 < |r| && r <= p && Shares(paths, r)
    ensures r == p || !Shares(paths, p[..|r| + 1])
    decreases |p| - n
  {
    r := p[..n];
    if n < |p| && Shares(paths, p[..n + 1]) {
      r := LongestShared(paths, p, n + 1);
    } else if n == |p| {
      assert r == p;
    }
  }

  /** Every route not accepted leaves the accepted ones at some root. */
  lemma LeavesSomewhere(g: Goal, accepted: seq<Path>, p: seq<NodeId>) returns (r: seq<NodeId>)
    requires |accepted| > 0 && AllGood(g, accepted) && IsRoute(g, p) && !Known(accepted, p)
    ensures Root(accepted, r) && r < p && !Shares(accepted, p[..|r| + 1])
  {
    hide GoodPath, Edge;
    assert GoodRoute(g, accepted[0]);
    assert p[..1] <= accepted[0].hops;
    r := LongestShared(accepted, p, 1);
    var k :| 0 <= k < |accepted| && r <= accepted[k].hops;
    assert GoodRoute(g, accepted[k]);
    RouteEndsOnce(g, p, accepted[k].hops);
    RouteEndsOnce(g, accepted[k].hops, p);
  }

  // ----- one spur search -----

  /** The next hops already taken out of this root, by accepted or pooled
      routes alike. */
  ghost predicate BansNext(paths: seq<Path>, root: seq<NodeId>, banned: set<(NodeId, NodeId)>)
    requires |root| > 0
  {
    forall u, v :: (u, v) in banned <==> u == root[|root| - 1] && Shares(paths, root + [v])
  }

  ghost predicate SpurQuery(g: Goal, paths: seq<Path>, root: seq<NodeId>, q: Query) {
    && 0 < |root| <= g.maxHops
    && q.net == g.net
    && q.source == root[|root| - 1]
    && q.target == g.target
    && q.maxHops == g.maxHops - (|root| - 1)
    && (forall v :: v in q.bannedNodes <==> v in root[..|root| - 1])
    && BansNext(paths, root, q.bannedEdges)
  }

  lemma TailAvoidsNodes(root: seq<NodeId>, p: seq<NodeId>)
    requires Simple(p) && |root| > 0 && root < p
    ensures var tail := p[|root| - 1..];
            forall j :: 0 <= j < |tail| ==> tail[j] !in root[..|root| - 1]
  {
    var i := |root| - 1;
    forall j, k | 0 <= j < |p| - i && 0 <= k < i ensures root[..i][k] != p[i..][j] {
      assert root[..i][k] == p[k] && p[i..][j] == p[i + j];
    }
  }

  lemma TailAvoidsEdges(g: Goal, paths: seq<Path>, root: seq<NodeId>, q: Query, p: seq<NodeId>)
    requires SpurQuery(g, paths, root, q)
    requires Simple(p) && root < p && !Shares(paths, p[..|root| + 1])
    ensures var tail := p[|root| - 1..];
            forall j :: 0 < j < |tail| ==> (tail[j - 1], tail[j]) !in q.bannedEdges
  {
    hide Shares;
    var i := |root| - 1;
    var tail := p[i..];
    forall j | 0 < j < |tail| ensures (tail[j - 1], tail[j]) !in q.bannedEdges {
      assert tail[j - 1] == p[i + j - 1] && tail[j] == p[i + j];
      if j == 1 {
        assert root + [tail[1]] == p[..|root| + 1];
      } else {
        assert p[i] != p[i + j - 1];
      }
    }
  }

  /** The tail of a route that takes a fresh hop out of the root answers the
      spur search. */
  lemma TailAnswers(g: Goal, paths: seq<Path>, root: seq<NodeId>, q: Query, p: seq<NodeId>)
    requires SpurQuery(g, paths, root, q)
    requires IsRoute(g, p) && root < p && !Shares(paths, p[..|root| + 1])
    ensures Answers(q, p[|root| - 1..])
    ensures Cost(g.net, p) == Cost(g.net, root) + Cost(g.net, p[|root| - 1..])
  {
    hide Weight, Edge, Shares, BansNext;
    var i := |root| - 1;
    var tail := p[i..];
    CostSplit(g.net, p, i);
    assert p[..i + 1] == root;
    TailAvoidsEdges(g, paths, root, q, p);
    forall j | 0 < j < |tail| ensures Edge(g.net, tail[j - 1], tail[j]) {
      assert tail[j - 1] == p[i + j - 1] && tail[j] == p[i + j];
    }
    TailAvoidsNodes(root, p);
  }

  /** Root plus spur is a route, and takes a hop out of the root that no
      accepted or pooled route takes. */
  lemma SpurIsRoute(g: Goal, paths: seq<Path>, root: seq<NodeId>, q: Query, spur: seq<NodeId>)
    requires SpurQuery(g, paths, root, q) && IsWalk(g.net, root) && Simple(root) && root[0] == g.source
    requires Answers(q, spur) && Simple(spur) && g.target !in root
    ensures var p := root[..|root| - 1] + spur;
            && IsRoute(g, p) && root < p && !Shares(paths, p[..|root| + 1])
            && Cost(g.net, p) == Cost(g.net, root) + Cost(g.net, spur)
  {
    hide Weight, Edge, Shares;
    var i := |root| - 1;
    var p := root[..i] + spur;
    assert |spur| > 1;
    assert p[..i + 1] == root;
    assert p[i..] == spur;
    CostSplit(g.net, p, i);
    assert p[..|root| + 1] == root + [spur[1]];
    assert (spur[0], spur[1]) !in q.bannedEdges;
    forall j | 0 < j < |p| ensures Edge(g.net, p[j - 1], p[j]) {
      if j <= i {
        assert p[j - 1] == root[j - 1] && p[j] == root[j];
      } else {
        assert p[j - 1] == spur[j - 1 - i] && p[j] == spur[j - i];
      }
    }
    forall j, k | 0 <= j < k < |p| ensures p[j] != p[k] {
      if k < i {
        assert p[j] == root[j] && p[k] == root[k];
      } else if j >= i {
        assert p[j] == spur[j - i] && p[k] == spur[k - i];
      } else {
        assert p[j] == root[..i][j] && p[k] == spur[k - i];
      }
    }
  }

  lemma DeviatesAt(g: Goal, accepted: seq<Path>, pool: seq<Path>, dev: seq<nat>, k: nat)
    requires AllDeviate(g, accepted, pool, dev) && k < |pool|
    ensures |dev| == |pool| && Deviates(g, accepted, pool[k], dev[k])
  {
  }

  lemma PrefixThrough(a: seq<NodeId>, whole: seq<NodeId>, n: nat, h: seq<NodeId>)
    requires a <= whole && n <= |whole| && whole[..n] <= h
    ensures |a| <= n ==> a <= h
  {
  }

  /** A route that leaves the accepted ones at this root by a hop some pooled
      candidate already takes is matched by that candidate. */
  lemma PooledCovers(g: Goal, accepted: seq<Path>, pool: seq<Path>, dev: seq<nat>, root: seq<NodeId>, p: seq<NodeId>)
    requires AllDeviate(g, accepted, pool, dev)
    requires IsRoute(g, p) && root < p && |root| > 0
    requires !Shares(accepted, p[..|root| + 1]) && Shares(accepted + pool, p[..|root| + 1])
    ensures CoveredBy(g.net, pool, root, p)
  {
    hide IsRoute, Cost, AllDeviate;
    var next := p[..|root| + 1];
    var n :| 0 <= n < |accepted + pool| && next <= (accepted + pool)[n].hops;
    forall j | 0 <= j < |accepted| ensures !(next <= (accepted + pool)[j].hops) {
      assert (accepted + pool)[j] == accepted[j];
    }
    var k := n - |accepted|;
    DeviatesAt(g, accepted, pool, dev, k);
    var q, d := pool[k], dev[k];
    var m :| 0 <= m < |accepted| && q.hops[..d + 1] <= accepted[m].hops;
    assert !(next <= accepted[m].hops);
    PrefixThrough(next, q.hops, d + 1, accepted[m].hops);
    assert q.hops[..d + 2] == next[..d + 2];
    assert q.hops[..d + 2] <= p;
    assert root <= q.hops;
  }

  /** No spur: everything leaving here is already matched in the pool. */
  lemma CoveredWithoutSpur(g: Goal, accepted: seq<Path>, pool: seq<Path>, dev: seq<nat>, root: seq<NodeId>, q: Query)
    requires AllDeviate(g, accepted, pool, dev) && |root| > 0 && SpurQuery(g, accepted + pool, root, q)
    requires forall p :: !Answers(q, p)
    ensures Covered(g, accepted, pool, root)
  {
    hide AllDeviate, SpurQuery, Answers, IsRoute, CoveredBy;
    forall p | IsRoute(g, p) && root < p && !Shares(accepted, p[..|root| + 1])
      ensures CoveredBy(g.net, pool, root, p)
    {
      if Shares(accepted + pool, p[..|root| + 1]) {
        PooledCovers(g, accepted, pool, dev, root, p);
      } else {
        TailAnswers(g, accepted + pool, root, q, p);
      }
    }
  }

  /** A spur: the new candidate matches everything the pool did not. */
  lemma CoveredWithSpur(g: Goal, accepted: seq<Path>, pool: seq<Path>, dev: seq<nat>,
                        root: seq<NodeId>, q: Query, spurCost: nat, found: Path)
    requires AllDeviate(g, accepted, pool, dev) && SpurQuery(g, accepted + pool, root, q)
    requires forall p :: Answers(q, p) ==> spurCost <= Cost(g.net, p)
    requires root < found.hops && found.cost == Cost(g.net, root) + spurCost
    ensures Covered(g, accepted, pool + [found], root)
    ensures forall p ::
              IsRoute(g, p) && found.hops[..|root| + 1] <= p && !Shares(accepted + pool, found.hops[..|root| + 1]) ==>
              found.cost <= Cost(g.net, p)
  {
    hide AllDeviate, Answers, IsRoute, Cost, Shares;
    var more := pool + [found];
    forall p | IsRoute(g, p) && root < p && !Shares(accepted, p[..|root| + 1])
      ensures CoveredBy(g.net, more, root, p)
    {
      if Shares(accepted + pool, p[..|root| + 1]) {
        PooledCovers(g, accepted, pool, dev, root, p);
        var k :| 0 <= k < |pool| && root <= pool[k].hops && pool[k].cost <= Cost(g.net, p);
        assert more[k] == pool[k];
      } else {
        TailAnswers(g, accepted + pool, root, q, p);
        assert more[|pool|] == found;
      }
    }
    forall p | IsRoute(g, p) && found.hops[..|root| + 1] <= p && !Shares(accepted + pool, found.hops[..|root| + 1])
      ensures found.cost <= Cost(g.net, p)
    {
      assert p[..|root| + 1] == found.hops[..|root| + 1];
      TailAnswers(g, accepted + pool, root, q, p);
    }
  }

  // ----- what each step keeps -----

  lemma CoverGrows(g: Goal, accepted: seq<Path>, pool: seq<Path>, found: Path, r: seq<NodeId>)
    requires Covered(g, accepted, pool, r)
    ensures Covered(g, accepted, pool + [found], r)
  {
    hide IsRoute, Cost, Shares;
    forall p | IsRoute(g, p) && r < p && !Shares(accepted, p[..|r| + 1])
      ensures CoveredBy(g.net, pool + [found], r, p)
    {
      var k :| 0 <= k < |pool| && r <= pool[k].hops && pool[k].cost <= Cost(g.net, p);
      assert (pool + [found])[k] == pool[k];
    }
  }

  /** Pooling a fresh candidate keeps the state. */
  lemma PoolGrows(g: Goal, accepted: seq<Path>, pool: seq<Path>, dev: seq<nat>, root: seq<NodeId>, found: Path)
    requires State(g, accepted, pool, dev) && GoodRoute(g, found)
    requires 0 < |root| && root < found.hops && Shares(accepted, root)
    requires !Shares(accepted + pool, found.hops[..|root| + 1])
    requires forall p :: IsRoute(g, p) && found.hops[..|root| + 1] <= p ==> found.cost <= Cost(g.net, p)
    ensures State(g, accepted, pool + [found], dev + [|root| - 1])
    ensures !Known(accepted + pool, found.hops)
  {
    hide GoodRoute, Cost, IsRoute, Ascending, NoneCheaper;
    var all := accepted + pool;
    assert accepted + (pool + [found]) == all + [found];
    forall k | 0 <= k < |all| ensures all[k].hops != found.hops {
      assert !(found.hops[..|root| + 1] <= all[k].hops);
    }
    assert found.hops[..|root|] == root;
    assert Deviates(g, accepted, found, |root| - 1);
  }

  /** With every root covered, some pooled candidate is at least as cheap as
      any route not accepted yet. */
  lemma PoolMatches(g: Goal, accepted: seq<Path>, pool: seq<Path>, p: seq<NodeId>) returns (k: nat)
    requires |accepted| > 0 && AllGood(g, accepted)
    requires forall r :: Root(accepted, r) ==> Covered(g, accepted, pool, r)
    requires IsRoute(g, p) && !Known(accepted, p)
    ensures k < |pool| && pool[k].cost <= Cost(g.net, p)
  {
    hide IsRoute, AllGood, Known, Root, Shares, Cost;
    var r := LeavesSomewhere(g, accepted, p);
    assert Covered(g, accepted, pool, r);
    k :| 0 <= k < |pool| && r <= pool[k].hops && pool[k].cost <= Cost(g.net, p);
  }

  function Without<T>(s: seq<T>, b: nat): seq<T>
    requires b < |s|
  {
    s[..b] + s[b + 1..]
  }

  lemma MovedStaysDistinct(accepted: seq<Path>, pool: seq<Path>, b: nat)
    requires b < |pool| && Distinct(accepted + pool)
    ensures Distinct(accepted + [pool[b]] + Without(pool, b))
  {
    var n := |accepted|;
    var all, moved := accepted + pool, accepted + [pool[b]] + Without(pool, b);
    forall i, j | 0 <= i < j < |moved| ensures moved[i].hops != moved[j].hops {
      var i0 := if i < n then i else if i == n then n + b else if i <= n + b then i - 1 else i;
      var j0 := if j < n then j else if j == n then n + b else if j <= n + b then j - 1 else j;
      assert moved[i] == all[i0] && moved[j] == all[j0] && i0 != j0;
    }
  }

  lemma RootsSurvive(g: Goal, accepted: seq<Path>, pool: seq<Path>, b: nat)
    requires b < |pool|
    requires forall r :: Root(accepted, r) ==> Covered(g, accepted, pool, r)
    ensures RootsCovered(g, accepted + [pool[b]], Without(pool, b), pool[b].hops, 0)
  {
    hide IsRoute, Cost;
    var accepted', pool' := accepted + [pool[b]], Without(pool, b);
    forall r | Root(accepted', r) && !(r <= pool[b].hops && |r| > 0)
      ensures Covered(g, accepted', pool', r)
    {
      var m :| 0 <= m < |accepted'| && r < accepted'[m].hops;
      assert m < |accepted| && accepted'[m] == accepted[m];
      assert Covered(g, accepted, pool, r);
      forall p | IsRoute(g, p) && r < p && !Shares(accepted', p[..|r| + 1])
        ensures CoveredBy(g.net, pool', r, p)
      {
        forall j | 0 <= j < |accepted| ensures !(p[..|r| + 1] <= accepted[j].hops) {
          assert accepted'[j] == accepted[j];
        }
        var k :| 0 <= k < |pool| && r <= pool[k].hops && pool[k].cost <= Cost(g.net, p);
        var k' := if k < b then k else k - 1;
        assert pool'[k'] == pool[k];
      }
    }
  }

  lemma SharesMore(accepted: seq<Path>, extra: Path, prefix: seq<NodeId>)
    requires Shares(accepted, prefix)
    ensures Shares(accepted + [extra], prefix)
  {
    var k :| 0 <= k < |accepted| && prefix <= accepted[k].hops;
    assert (accepted + [extra])[k] == accepted[k];
  }

  lemma NotKnownBefore(accepted: seq<Path>, extra: Path, p: seq<NodeId>)
    requires !Known(accepted + [extra], p)
    ensures !Known(accepted, p)
  {
    forall k | 0 <= k < |accepted| ensures accepted[k].hops != p {
      assert (accepted + [extra])[k] == accepted[k];
    }
  }

  lemma StaysCheapest(g: Goal, accepted: seq<Path>, pool: seq<Path>, b: nat)
    requires |accepted| > 0 && AllGood(g, accepted) && NoneCheaper(g, accepted)
    requires forall r :: Root(accepted, r) ==> Covered(g, accepted, pool, r)
    requires b < |pool| && forall k :: 0 <= k < |pool| ==> pool[b].cost <= pool[k].cost
    ensures NoneCheaper(g, accepted + [pool[b]])
  {
    hide IsRoute, Cost, Known, AllGood, Root;
    var accepted' := accepted + [pool[b]];
    forall p, k | IsRoute(g, p) && !Known(accepted', p) && 0 <= k < |accepted'|
      ensures accepted'[k].cost <= Cost(g.net, p)
    {
      NotKnownBefore(accepted, pool[b], p);
      var m := PoolMatches(g, accepted, pool, p);
      if k < |accepted| {
        assert accepted'[k] == accepted[k];
      }
    }
  }

  lemma StaysAscending(g: Goal, accepted: seq<Path>, pool: seq<Path>, b: nat)
    requires b < |pool| && AllGood(g, pool) && Ascending(accepted) && NoneCheaper(g, accepted)
    requires Distinct(accepted + pool)
    ensures Ascending(accepted + [pool[b]])
  {
    hide IsRoute, Cost;
    assert GoodRoute(g, pool[b]);
    forall k | 0 <= k < |accepted| ensures accepted[k].hops != pool[b].hops {
      assert (accepted + pool)[k] == accepted[k] && (accepted + pool)[|accepted| + b] == pool[b];
    }
    assert !Known(accepted, pool[b].hops);
  }

  lemma StaysDeviating(g: Goal, accepted: seq<Path>, pool: seq<Path>, dev: seq<nat>, b: nat)
    requires b < |pool| && AllDeviate(g, accepted, pool, dev)
    ensures AllDeviate(g, accepted + [pool[b]], Without(pool, b), Without(dev, b))
  {
    hide IsRoute, Cost, Shares;
    var pool', dev' := Without(pool, b), Without(dev, b);
    forall k | 0 <= k < |pool'| ensures Deviates(g, accepted + [pool[b]], pool'[k], dev'[k]) {
      var m := if k < b then k else k + 1;
      assert pool'[k] == pool[m] && dev'[k] == dev[m];
      assert Deviates(g, accepted, pool[m], dev[m]);
      SharesMore(accepted, pool[b], pool[m].hops[..dev[m] + 1]);
    }
  }

  /** Accepting the cheapest candidate keeps the state, and leaves only its own
      roots to be searched again. */
  lemma Accept(g: Goal, accepted: seq<Path>, pool: seq<Path>, dev: seq<nat>, b: nat)
    requires State(g, accepted, pool, dev)
    requires forall r :: Root(accepted, r) ==> Covered(g, accepted, pool, r)
    requires b < |pool| && forall k :: 0 <= k < |pool| ==> pool[b].cost <= pool[k].cost
    ensures |dev| == |pool|
    ensures State(g, accepted + [pool[b]], Without(pool, b), Without(dev, b))
    ensures RootsCovered(g, accepted + [pool[b]], Without(pool, b), pool[b].hops, 0)
  {
    hide GoodRoute, Covered, Root, Distinct, Ascending, NoneCheaper, Deviates, RootsCovered, Known;
    MovedStaysDistinct(accepted, pool, b);
    RootsSurvive(g, accepted, pool, b);
    StaysCheapest(g, accepted, pool, b);
    StaysAscending(g, accepted, pool, b);
    StaysDeviating(g, accepted, pool, dev, b);
  }

  /** An empty pool over covered roots: every route has been accepted. */
  lemma Exhausted(g: Goal, accepted: seq<Path>, p: seq<NodeId>)
    requires |accepted| > 0 && AllGood(g, accepted) && IsRoute(g, p)
    requires forall r :: Root(accepted, r) ==> Covered(g, accepted, [], r)
    ensures Known(accepted, p)
  {
    hide IsRoute, AllGood, Known, Root, Covered;
    if !Known(accepted, p) {
      var k := PoolMatches(g, accepted, [], p);
      assert false;
    }
  }

  // ----- rounds of spur searches -----

  /** The roots of the newest accepted route, once all its spurs are done. */
  lemma RoundDone(g: Goal, accepted: seq<Path>, pool: seq<Path>, last: Path)
    requires AllGood(g, accepted) && GoodRoute(g, last)
    requires RootsCovered(g, accepted, pool, last.hops, |last.hops| - 1)
    ensures forall r :: Root(accepted, r) ==> Covered(g, accepted, pool, r)
  {
    hide GoodPath, Covered, Edge;
    forall k | 0 <= k < |accepted| ensures !(last.hops < accepted[k].hops) {
      assert GoodRoute(g, accepted[k]);
      if accepted[k].hops != last.hops {
        RouteEndsOnce(g, last.hops, accepted[k].hops);
      }
    }
    forall r | Root(accepted, r) ensures Covered(g, accepted, pool, r) {
      assert r != last.hops;
    }
  }

  /** Nothing was pooled at this root, yet it is covered. */
  lemma SpurDone(g: Goal, accepted: seq<Path>, pool: seq<Path>, last: seq<NodeId>, i: nat)
    requires i < |last| && RootsCovered(g, accepted, pool, last, i)
    requires Covered(g, accepted, pool, last[..i + 1])
    ensures RootsCovered(g, accepted, pool, last, i + 1)
  {
    hide Covered, Root;
    forall r | Root(accepted, r) && !(r <= last && |r| > i + 1) ensures Covered(g, accepted, pool, r) {
      if r <= last && |r| > i {
        assert r == last[..i + 1];
      }
    }
  }

  lemma RootsCoverGrows(g: Goal, accepted: seq<Path>, pool: seq<Path>, found: Path, last: seq<NodeId>, i: nat)
    requires RootsCovered(g, accepted, pool, last, i)
    ensures RootsCovered(g, accepted, pool + [found], last, i)
  {
    hide Covered, Root;
    forall r | Root(accepted, r) && !(r <= last && |r| > i) ensures Covered(g, accepted, pool + [found], r) {
      CoverGrows(g, accepted, pool, found, r);
    }
  }

  /** The first accepted route: a cheapest one, with all its roots to come. */
  lemma FirstRoute(g: Goal, q: Query, best: Path)
    requires q == Query(g.net, g.source, g.target, g.maxHops, {}, {})
    requires Optimal(q, Some(best))
    ensures State(g, [best], [], []) && RootsCovered(g, [best], [], best.hops, 0)
  {
    hide Cost, Edge;
    forall p | IsRoute(g, p) ensures Answers(q, p) {
    }
    assert IsRoute(g, best.hops);
    assert [best] + [] == [best];
  }
}
