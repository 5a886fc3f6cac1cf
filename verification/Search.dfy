/** The hop-layered search: tables of cheapest costs, and the walk back through
    their parent pointers. */
module Search {
  import opened Common
  import opened Graph
  import opened Walks

  datatype Path = Path(hops: seq<NodeId>, links: seq<Link>, cost: nat)

  datatype Parent = Parent(node: NodeId, link: Link, layer: nat)

  /** The best known cost to reach a node, and how it was reached; the source
      has no parent. */
  datatype Cell = Cell(cost: nat, parent: Option<Parent>)

  type Layer = map<NodeId, Cell>

  /** Links fit hops one for one, and each is a cheapest parallel link. */
  ghost predicate CheapestLinks(net: Net, hops: seq<NodeId>, links: seq<Link>) {
    && |hops| == |links| + 1
    && (forall i :: 0 <= i < |links| ==>
          && links[i] in net.links
          && Joins(links[i], hops[i], hops[i + 1])
          && net.scorer(links[i]) == Weight(net, hops[i], hops[i + 1]))
  }

  ghost predicate GoodPath(net: Net, path: Path) {
    && CheapestLinks(net, path.hops, path.links)
    && path.cost == Cost(net, path.hops)
  }

  ghost predicate Passable(q: Query, link: Link) {
    && link in q.net.links
    && link.to !in q.bannedNodes
    && (link.from, link.to) !in q.bannedEdges
  }

  // ----- what a table means -----

  /** A cell for v written into some layer above the first h ones: it was
      reached over a passable link from an older layer, more cheaply than any
      layer up to that one could. */
  ghost predicate CellOk(q: Query, layers: seq<Layer>, h: nat, v: NodeId, cell: Cell)
    requires h <= |layers|
  {
    match cell.parent
    case None => v == q.source && cell.cost == 0
    case Some(p) =>
      && v != q.source
      && p.layer < h
      && p.node in layers[p.layer]
      && Passable(q, p.link)
      && Joins(p.link, p.node, v)
      && cell.cost == layers[p.layer][p.node].cost + q.net.scorer(p.link)
      && forall j :: 0 <= j <= p.layer && v in layers[j] ==> cell.cost < layers[j][v].cost
  }

  ghost predicate CellsOk(q: Query, layers: seq<Layer>) {
    forall h, v :: 0 <= h < |layers| && v in layers[h] ==> CellOk(q, layers, h, v, layers[h][v])
  }

  ghost predicate NoWorse(older: Layer, newer: Layer) {
    forall v :: v in older ==> v in newer && newer[v].cost <= older[v].cost
  }

  ghost predicate Monotone(layers: seq<Layer>) {
    forall j, k :: 0 <= j <= k < |layers| ==> NoWorse(layers[j], layers[k])
  }

  ghost predicate RelaxedFrom(q: Query, older: Layer, newer: Layer, u: NodeId) {
    u in older ==>
      forall link :: Passable(q, link) && link.from == u ==>
        link.to in newer && newer[link.to].cost <= older[u].cost + q.net.scorer(link)
  }

  ghost predicate RelaxedLayer(q: Query, older: Layer, newer: Layer) {
    forall u :: u in older ==> RelaxedFrom(q, older, newer, u)
  }

  ghost predicate Relaxed(q: Query, layers: seq<Layer>) {
    forall h :: 0 < h < |layers| ==> RelaxedLayer(q, layers[h - 1], layers[h])
  }

  ghost predicate Table(q: Query, layers: seq<Layer>) {
    && |layers| > 0
    && layers[0] == map[q.source := Cell(0, None)]
    && CellsOk(q, layers)
    && Monotone(layers)
    && Relaxed(q, layers)
  }

  /** Layer h knows every node some walk of at most h links reaches, at no more
      than that walk's cost. */
  lemma {:induction false} LayerIsOptimal(q: Query, layers: seq<Layer>, h: nat, p: seq<NodeId>)
    requires Table(q, layers) && h < |layers|
    requires IsWalk(q.net, p) && p[0] == q.source && |p| <= h + 1 && AvoidsBans(q, p)
    ensures p[|p| - 1] in layers[h] && layers[h][p[|p| - 1]].cost <= Cost(q.net, p)
    decreases |p|
  {
    if |p| == 1 {
      assert NoWorse(layers[0], layers[h]);
    } else {
      var front := p[..|p| - 1];
      var u, v := front[|front| - 1], p[|p| - 1];
      LayerIsOptimal(q, layers, h - 1, front);
      assert Edge(q.net, p[|p| - 2], p[|p| - 1]) && (p[|p| - 2], p[|p| - 1]) !in q.bannedEdges;
      var link := WeightIsCheapest(q.net, u, v);
      assert RelaxedLayer(q, layers[h - 1], layers[h]);
      assert RelaxedFrom(q, layers[h - 1], layers[h], u);
      assert Passable(q, link);
    }
  }

  /** The link a cell was reached over is a cheapest one between its ends. */
  lemma ParentLinkIsCheapest(q: Query, layers: seq<Layer>, h: nat, v: NodeId)
    requires Table(q, layers) && h < |layers| && v in layers[h] && layers[h][v].parent.Some?
    ensures var p := layers[h][v].parent.value;
            Edge(q.net, p.node, v) && q.net.scorer(p.link) == Weight(q.net, p.node, v)
  {
    var p := layers[h][v].parent.value;
    assert CellOk(q, layers, h, v, layers[h][v]);
    var best := WeightIsCheapest(q.net, p.node, v);
    assert RelaxedLayer(q, layers[p.layer], layers[p.layer + 1]);
    assert RelaxedFrom(q, layers[p.layer], layers[p.layer + 1], p.node);
    assert Passable(q, best);
    assert NoWorse(layers[p.layer + 1], layers[h]);
  }

  // ----- reconstruct -----

  /** While walking back, nothing already on the route can turn up again: every
      cell it still has below the cursor costs more than the cursor does. */
  ghost predicate Unrepeatable(layers: seq<Layer>, suffix: seq<NodeId>, at: NodeId, h: nat)
    requires h < |layers| && at in layers[h]
  {
    forall i, j :: 0 < i < |suffix| && 0 <= j <= h && suffix[i] in layers[j] ==>
      layers[j][suffix[i]].cost > layers[h][at].cost
  }

  /** One step back keeps the route loop-free, whatever the link costs. */
  lemma StepBack(q: Query, layers: seq<Layer>, suffix: seq<NodeId>, h: nat, p: Parent)
    requires h < |layers| && |suffix| > 0 && suffix[0] in layers[h]
    requires layers[h][suffix[0]].parent == Some(p)
    requires CellOk(q, layers, h, suffix[0], layers[h][suffix[0]])
    requires Unrepeatable(layers, suffix, suffix[0], h)
    ensures p.node !in suffix
    ensures Unrepeatable(layers, [p.node] + suffix, p.node, p.layer)
  {
    var longer := [p.node] + suffix;
    forall i, j | 0 < i < |longer| && 0 <= j <= p.layer && longer[i] in layers[j]
      ensures layers[j][longer[i]].cost > layers[p.layer][p.node].cost
    {
      assert longer[i] == suffix[i - 1];
    }
    forall i | 0 <= i < |suffix| ensures suffix[i] != p.node {
      assert longer[i + 1] == suffix[i];
    }
  }

  lemma LinksPrepend(q: Query, u: NodeId, link: Link, hops: seq<NodeId>, links: seq<Link>)
    requires CheapestLinks(q.net, hops, links) && AvoidsBans(q, hops)
    requires Passable(q, link) && Joins(link, u, hops[0]) && u !in q.bannedNodes
    requires q.net.scorer(link) == Weight(q.net, u, hops[0])
    ensures CheapestLinks(q.net, [u] + hops, [link] + links)
    ensures AvoidsBans(q, [u] + hops)
  {
    var hops', links' := [u] + hops, [link] + links;
    forall i | 0 <= i < |links'|
      ensures links'[i] in q.net.links
      ensures Joins(links'[i], hops'[i], hops'[i + 1])
      ensures q.net.scorer(links'[i]) == Weight(q.net, hops'[i], hops'[i + 1])
    {
      if i > 0 {
        assert links'[i] == links[i - 1] && hops'[i] == hops[i - 1] && hops'[i + 1] == hops[i];
      }
    }
    forall i | 0 < i < |hops'| ensures (hops'[i - 1], hops'[i]) !in q.bannedEdges {
      if i > 1 {
        assert hops'[i - 1] == hops[i - 2] && hops'[i] == hops[i - 1];
      }
    }
  }

  ghost function NodesOf(layers: seq<Layer>): set<NodeId> {
    set h, v | 0 <= h < |layers| && v in layers[h] :: v
  }

  ghost predicate Reconstructs(q: Query, layers: seq<Layer>, source: NodeId, target: NodeId, maxHops: nat) {
    && Table(q, layers)
    && |layers| == maxHops + 1
    && q.source == source && q.target == target && q.maxHops == maxHops
    && target !in q.bannedNodes
    && source !in q.bannedNodes
  }

  /** The part of a route already walked back over. */
  ghost predicate Suffix(q: Query, layers: seq<Layer>, hops: seq<NodeId>, links: seq<Link>, h: nat, cost: nat) {
    && CheapestLinks(q.net, hops, links)
    && Simple(hops)
    && AvoidsBans(q, hops)
    && hops[|hops| - 1] == q.target
    && h < |layers| && |hops| + h <= q.maxHops + 1
    && hops[0] in layers[h]
    && layers[h][hops[0]].cost + Cost(q.net, hops) == cost
    && Unrepeatable(layers, hops, hops[0], h)
  }

  lemma ParentIsNotBanned(q: Query, layers: seq<Layer>, h: nat, v: NodeId)
    requires CellsOk(q, layers) && q.source !in q.bannedNodes
    requires h < |layers| && v in layers[h]
    ensures v !in q.bannedNodes
  {
    assert CellOk(q, layers, h, v, layers[h][v]);
  }

  lemma SuffixGrows(q: Query, layers: seq<Layer>, hops: seq<NodeId>, links: seq<Link>, h: nat, cost: nat)
    requires Table(q, layers) && Suffix(q, layers, hops, links, h, cost) && q.source !in q.bannedNodes
    requires layers[h][hops[0]].parent.Some?
    ensures var p := layers[h][hops[0]].parent.value;
            && p.node !in hops
            && Suffix(q, layers, [p.node] + hops, [p.link] + links, p.layer, cost)
  {
    hide Monotone, Relaxed, Edge, Weight;
    var p := layers[h][hops[0]].parent.value;
    assert CellOk(q, layers, h, hops[0], layers[h][hops[0]]);
    StepBack(q, layers, hops, h, p);
    ParentLinkIsCheapest(q, layers, h, hops[0]);
    ParentIsNotBanned(q, layers, p.layer, p.node);
    LinksPrepend(q, p.node, p.link, hops, links);
    CostPrepend(q.net, p.node, hops);
  }

  /** Everything the walk back knows while it holds hops and links, newest
      first, and stands at a cell of layer h. */
  ghost predicate WalkingBack(q: Query, layers: seq<Layer>, hops: seq<NodeId>, links: seq<Link>,
                              seen: set<NodeId>, at: NodeId, h: nat, cost: nat)
  {
    && Suffix(q, layers, Reverse(hops), Reverse(links), h, cost)
    && at == Reverse(hops)[0]
    && forall v :: v in seen <==> v in Reverse(hops)
  }

  lemma WalkStarts(q: Query, layers: seq<Layer>, source: NodeId, target: NodeId, maxHops: nat)
    requires Reconstructs(q, layers, source, target, maxHops) && target in layers[maxHops]
    ensures WalkingBack(q, layers, [target], [], {target}, target, maxHops, layers[maxHops][target].cost)
  {
    assert [target][..0] == [];
    assert Reverse([target]) == [target];
  }

  lemma WalkContinues(q: Query, layers: seq<Layer>, hops: seq<NodeId>, links: seq<Link>,
                      seen: set<NodeId>, at: NodeId, h: nat, cost: nat)
    requires Table(q, layers) && q.source !in q.bannedNodes
    requires WalkingBack(q, layers, hops, links, seen, at, h, cost)
    requires layers[h][at].parent.Some?
    ensures var p := layers[h][at].parent.value;
            && p.node !in seen
            && WalkingBack(q, layers, hops + [p.node], links + [p.link], seen + {p.node}, p.node, p.layer, cost)
  {
    var p := layers[h][at].parent.value;
    SuffixGrows(q, layers, Reverse(hops), Reverse(links), h, cost);
    ReversePush(hops, p.node);
    ReversePush(links, p.link);
  }

  lemma WalkEnds(q: Query, layers: seq<Layer>, hops: seq<NodeId>, links: seq<Link>,
                 seen: set<NodeId>, at: NodeId, h: nat, cost: nat)
    requires Table(q, layers)
    requires WalkingBack(q, layers, hops, links, seen, at, h, cost)
    requires layers[h][at].parent.None?
    ensures var path := Path(Reverse(hops), Reverse(links), cost);
            && GoodPath(q.net, path)
            && Simple(path.hops)
            && Answers(q, path.hops)
  {
    assert CellOk(q, layers, h, at, layers[h][at]);
    var p := Reverse(hops);
    forall i | 0 < i < |p| ensures Edge(q.net, p[i - 1], p[i]) {
      assert Joins(Reverse(links)[i - 1], p[i - 1], p[i]);
    }
  }

  lemma Unseen(nodes: set<NodeId>, seen: set<NodeId>, v: NodeId)
    requires v !in seen
    ensures |nodes - (seen + {v})| + (if v in nodes then 1 else 0) == |nodes - seen|
  {
    var left := nodes - seen;
    if v in nodes {
      assert nodes - (seen + {v}) == left - {v};
    } else {
      assert nodes - (seen + {v}) == left;
    }
  }

  /** Walks the parent pointers back from the target. On any table the search
      builds, neither the loop test nor the first-hop test ever rejects. */
  method Reconstruct(layers: seq<Layer>, source: NodeId, target: NodeId, maxHops: nat, ghost q: Query)
    returns (r: Option<Path>)
    ensures Reconstructs(q, layers, source, target, maxHops) ==> (r.Some? <==> target in layers[maxHops])
    ensures Reconstructs(q, layers, source, target, maxHops) && r.Some? ==>
              && GoodPath(q.net, r.value)
              && Simple(r.value.hops)
              && Answers(q, r.value.hops)
              && r.value.cost == layers[maxHops][target].cost
  {
    if maxHops >= |layers| || target !in layers[maxHops] {
      return None;
    }
    var cost := layers[maxHops][target].cost;

    var hops := [target];
    var links: seq<Link> := [];
    var seen := {target};
    var at, h: nat := target, maxHops;

    ghost var good := Reconstructs(q, layers, source, target, maxHops);
    if good {
      WalkStarts(q, layers, source, target, maxHops);
    }
    ghost var nodes := NodesOf(layers);
    while true
      invariant good ==> WalkingBack(q, layers, hops, links, seen, at, h, cost)
      decreases |nodes - seen|, at in nodes
    {
      if h >= |layers| || at !in layers[h] {
        return None;
      }
      var cell := layers[h][at];
      if cell.parent.None? {
        break;
      }
      var p := cell.parent.value;
      if good {
        WalkContinues(q, layers, hops, links, seen, at, h, cost);
      }
      if p.node in seen {
        return None;
      }
      Unseen(nodes, seen, p.node);
      seen := seen + {p.node};
      hops := hops + [p.node];
      links := links + [p.link];
      at, h := p.node, p.layer;
    }

    if good {
      WalkEnds(q, layers, hops, links, seen, at, h, cost);
    }
    hops := Reverse(hops);
    links := Reverse(links);
    if |hops| == 0 || hops[0] != source {
      return None;
    }
    return Some(Path(hops, links, cost));
  }

  // ----- shortest_path -----

  /** Layer so far, while it is being relaxed out of the newest finished one. */
  ghost predicate Filling(q: Query, layers: seq<Layer>, layer: Layer) {
    && |layers| > 0
    && NoWorse(layers[|layers| - 1], layer)
    && forall v :: v in layer ==> CellOk(q, layers, |layers|, v, layer[v])
  }

  lemma Improve(q: Query, layers: seq<Layer>, layer: Layer, link: Link, cell: Cell)
    requires Table(q, layers) && Filling(q, layers, layer)
    requires link.from in layers[|layers| - 1] && Passable(q, link)
    requires cell.cost == layers[|layers| - 1][link.from].cost + q.net.scorer(link)
    requires cell.parent == Some(Parent(link.from, link, |layers| - 1))
    requires link.to in layer ==> cell.cost < layer[link.to].cost
    ensures Filling(q, layers, layer[link.to := cell])
    ensures NoWorse(layer, layer[link.to := cell])
  {
    hide Relaxed, CellsOk;
    var top := layers[|layers| - 1];
    assert NoWorse(layers[0], top);
    assert link.to != q.source;
    forall j | 0 <= j < |layers| && link.to in layers[j] ensures cell.cost < layers[j][link.to].cost {
      assert NoWorse(layers[j], top);
    }
  }

  lemma LayerDone(q: Query, layers: seq<Layer>, layer: Layer)
    requires Table(q, layers) && Filling(q, layers, layer)
    requires RelaxedLayer(q, layers[|layers| - 1], layer)
    ensures Table(q, layers + [layer])
  {
    var more := layers + [layer];
    forall h, v | 0 <= h < |more| && v in more[h] ensures CellOk(q, more, h, v, more[h][v]) {
      if h < |layers| {
        assert more[h] == layers[h];
        assert CellOk(q, layers, h, v, layers[h][v]);
      } else {
        assert CellOk(q, layers, h, v, layer[v]);
      }
    }
    forall j, k | 0 <= j <= k < |more| ensures NoWorse(more[j], more[k]) {
      if k == |layers| && j < k {
        assert NoWorse(layers[j], layers[|layers| - 1]);
      }
    }
  }

  lemma FillingStarts(q: Query, layers: seq<Layer>)
    requires Table(q, layers)
    ensures Filling(q, layers, layers[|layers| - 1])
  {
    var top := layers[|layers| - 1];
    forall v | v in top ensures CellOk(q, layers, |layers|, v, top[v]) {
      assert CellOk(q, layers, |layers| - 1, v, top[v]);
    }
  }

  lemma NothingToRelax(q: Query, older: Layer, layer: Layer, u: NodeId)
    requires StartingAt(q.net.links, u) == []
    ensures RelaxedFrom(q, older, layer, u)
  {
    forall link | Passable(q, link) ensures link.from != u {
      StartingAtMembers(q.net.links, u, link);
    }
  }

  /** The first k of these links are already relaxed out of u. */
  ghost predicate RelaxedLinks(q: Query, older: Layer, layer: Layer, u: NodeId, links: seq<Link>, k: nat)
    requires u in older && k <= |links|
  {
    forall i :: 0 <= i < k && Passable(q, links[i]) ==>
      links[i].to in layer && layer[links[i].to].cost <= older[u].cost + q.net.scorer(links[i])
  }

  /** Relaxes one node's links into a layer. */
  method RelaxNode(q: Query, layers: seq<Layer>, start: Layer, node: NodeId, links: seq<Link>)
    returns (layer: Layer)
    requires Table(q, layers) && Filling(q, layers, start)
    requires node in layers[|layers| - 1] && links == StartingAt(q.net.links, node)
    ensures Filling(q, layers, layer) && NoWorse(start, layer)
    ensures RelaxedFrom(q, layers[|layers| - 1], layer, node)
  {
    hide Table, CellOk, Optimal;
    layer := start;
    var hop := |layers|;
    var cell := layers[hop - 1][node];
    for k := 0 to |links|
      invariant Filling(q, layers, layer) && NoWorse(start, layer)
      invariant RelaxedLinks(q, layers[hop - 1], layer, node, links, k)
    {
      var link := links[k];
      assert link in links;
      StartingAtMembers(q.net.links, node, link);
      if link.to in q.bannedNodes {
        continue;
      }
      if (node, link.to) in q.bannedEdges {
        continue;
      }
      var cost := cell.cost + q.net.scorer(link);
      var improves := link.to !in layer || cost < layer[link.to].cost;
      if improves {
        var reached := Cell(cost, Some(Parent(node, link, hop - 1)));
        Improve(q, layers, layer, link, reached);
        layer := layer[link.to := reached];
      }
    }
    forall link | Passable(q, link) && link.from == node
      ensures link.to in layer && layer[link.to].cost <= cell.cost + q.net.scorer(link)
    {
      StartingAtMembers(q.net.links, node, link);
      var i :| 0 <= i < |links| && links[i] == link;
    }
  }

  lemma StaysRelaxed(q: Query, older: Layer, layer: Layer, better: Layer, u: NodeId)
    requires RelaxedFrom(q, older, layer, u) && NoWorse(layer, better)
    ensures RelaxedFrom(q, older, better, u)
  {
  }

  /** One whole layer, out of the one below it. `examined` counts the links
      looked at. */
  method RelaxLayer(q: Query, layers: seq<Layer>, adjacency: map<NodeId, seq<Link>>)
    returns (layer: Layer, ghost examined: nat)
    requires |layers| > 0 && Table(q, layers) && AdjacencyOf(q.net, adjacency)
    ensures Table(q, layers + [layer])
    ensures examined <= |q.net.links|
  {
    hide Table, Filling, RelaxedFrom, NoWorse;
    var older := layers[|layers| - 1];
    layer := older;
    examined := 0;
    FillingStarts(q, layers);
    var todo := older.Keys;
    ghost var finished: set<NodeId> := {};
    CountNone(q.net.links);
    while todo != {}
      invariant todo <= older.Keys && finished == older.Keys - todo
      invariant Filling(q, layers, layer)
      invariant forall u :: u in finished ==> RelaxedFrom(q, older, layer, u)
      invariant examined == CountFrom(q.net.links, finished)
      decreases |todo|
    {
      var node :| node in todo;
      todo := todo - {node};
      CountOneMore(q.net.links, finished, node);
      finished := finished + {node};
      ghost var before := layer;
      if node in adjacency {
        layer := RelaxNode(q, layers, layer, node, adjacency[node]);
        examined := examined + |adjacency[node]|;
      } else {
        NothingToRelax(q, older, layer, node);
      }
      forall u | u in finished ensures RelaxedFrom(q, older, layer, u) {
        if u != node {
          StaysRelaxed(q, older, before, layer, u);
        }
      }
    }
    LayerDone(q, layers, layer);
    CountAtMost(q.net.links, finished);
  }

  ghost predicate Optimal(q: Query, r: Option<Path>) {
    && (r.None? ==> forall p :: !Answers(q, p))
    && (r.Some? ==>
          && GoodPath(q.net, r.value)
          && Simple(r.value.hops)
          && Answers(q, r.value.hops)
          && forall p :: Answers(q, p) ==> r.value.cost <= Cost(q.net, p))
  }

  /** The cheapest path from source to target within the hop budget and around
      the bans: found exactly when some walk answers the query, never dearer
      than any of them, and loop-free even where links cost nothing. */
  method ShortestPath(q: Query, adjacency: map<NodeId, seq<Link>>)
    returns (r: Option<Path>, ghost examined: nat)
    requires AdjacencyOf(q.net, adjacency)
    ensures Optimal(q, r)
    ensures examined <= q.maxHops * |q.net.links|
  {
    examined := 0;
    if q.source in q.bannedNodes || q.target in q.bannedNodes {
      forall p ensures !Answers(q, p) {
        if |p| > 0 {
          assert p[0] in p && p[|p| - 1] in p;
        }
      }
      return None, 0;
    }
    if q.source == q.target {
      return Some(Path([q.source], [], 0)), 0;
    }

    var layers: seq<Layer> := [map[q.source := Cell(0, None)]];
    for hop := 1 to q.maxHops + 1
      invariant |layers| == hop && Table(q, layers)
      invariant examined <= (hop - 1) * |q.net.links|
    {
      var layer;
      ghost var more;
      layer, more := RelaxLayer(q, layers, adjacency);
      layers := layers + [layer];
      assert (hop - 1) * |q.net.links| + |q.net.links| == hop * |q.net.links|;
      examined := examined + more;
    }

    r := Reconstruct(layers, q.source, q.target, q.maxHops, q);
    forall p | Answers(q, p)
      ensures q.target in layers[q.maxHops] && layers[q.maxHops][q.target].cost <= Cost(q.net, p)
    {
      LayerIsOptimal(q, layers, q.maxHops, p);
    }
  }
}
