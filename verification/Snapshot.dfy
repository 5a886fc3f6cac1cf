/** What a graph query's answer is worth to whoever polled for it. */
module Snapshot {
  import opened Common
  import opened Wire
  import opened Registry
  import opened Crawl

  lemma AnswerIsReadable(s: State, now: u64, nodes: seq<NodeInfo>, reports: seq<GraphReport>, dropped: nat)
    requires ValidState(s) && Answer(s, now, nodes, reports, dropped)
    ensures Readable(GraphSnapshot(nodes, reports))
  {
    hide NodeInfoBound, GraphReportBound, WithinCaps, Sendable, ValidHello, ValidReport, LiveNodes, LiveReports;
    BudgetFitsFrame(nodes, reports);
    forall i | 0 <= i < |nodes| ensures ValidHello(nodes[i].nodeId, nodes[i].roles, nodes[i].listenAddrs) {
      assert nodes[i] == InfoOf(s, nodes[i].nodeId);
    }
    forall i | 0 <= i < |reports| ensures ValidReport(reports[i].from, reports[i].target, reports[i].protocol, None) {
      assert KeyOf(reports[i]) in s.reports;
    }
  }

  /** Whatever peers sent before, directly or through a Head, the answer to a
      graph query is a frame that can be sent and that the poller accepts. */
  lemma QueryAlwaysAnswered(ttl: Option<u64>, relayPeers: set<string>, events: seq<Event>, now: u64,
                            nodes: seq<NodeInfo>, reports: seq<GraphReport>, dropped: nat)
    requires forall i :: 0 <= i < |events| ==> Readable(events[i].message)
    requires Answer(After(Fresh(ttl, relayPeers), events), now, nodes, reports, dropped)
    ensures Readable(GraphSnapshot(nodes, reports))
  {
    ReachableIsValid(ttl, relayPeers, events);
    AnswerIsReadable(After(Fresh(ttl, relayPeers), events), now, nodes, reports, dropped);
  }

  // ----- nothing is dropped that need not be -----

  ghost function Total<K>(keys: set<K>, cost: K -> nat): nat {
    if keys == {} then 0
    else
      var k :| k in keys;
      cost(k) + Total(keys - {k}, cost)
  }

  lemma {:induction false} TotalSplit<K>(keys: set<K>, cost: K -> nat, k: K)
    requires k in keys
    ensures Total(keys, cost) == cost(k) + Total(keys - {k}, cost)
    decreases |keys|
  {
    var j :| j in keys && Total(keys, cost) == cost(j) + Total(keys - {j}, cost);
    if j != k {
      TotalSplit(keys - {j}, cost, k);
      TotalSplit(keys - {k}, cost, j);
      assert keys - {j} - {k} == keys - {k} - {j};
    }
  }

  lemma {:induction false} TotalMonotone<K>(few: set<K>, many: set<K>, cost: K -> nat)
    requires few <= many
    ensures Total(few, cost) <= Total(many, cost)
    decreases |few|
  {
    if few != {} {
      var k :| k in few;
      TotalSplit(few, cost, k);
      TotalSplit(many, cost, k);
      TotalMonotone(few - {k}, many - {k}, cost);
    }
  }

  ghost function NodeCost(s: State): string -> nat {
    id => if id in s.nodes then NodeInfoBound(InfoOf(s, id)) else 0
  }

  ghost function ReportCost(s: State): Key -> nat {
    k => if k in s.reports then GraphReportBound(ReportOf(s, k)) else 0
  }

  lemma CardinalityAtMost(nodes: seq<NodeInfo>)
    ensures |Ids(nodes)| <= |nodes|
  {
    if nodes != [] {
      var front, last := nodes[..|nodes| - 1], nodes[|nodes| - 1];
      CardinalityAtMost(front);
      IdsPush(front, last);
      assert nodes == front + [last];
    }
  }

  lemma KeyCardinalityAtMost(reports: seq<GraphReport>)
    ensures |Keys(reports)| <= |reports|
  {
    if reports != [] {
      var front, last := reports[..|reports| - 1], reports[|reports| - 1];
      KeyCardinalityAtMost(front);
      KeysPush(front, last);
      assert reports == front + [last];
    }
  }

  lemma IdsOfNone()
    ensures Ids([]) == {} && Keys([]) == {}
  {
  }

  lemma {:induction false} SentNodesTotal(s: State, nodes: seq<NodeInfo>)
    requires |Ids(nodes)| == |nodes|
    requires forall i :: 0 <= i < |nodes| ==> nodes[i].nodeId in s.nodes && nodes[i] == InfoOf(s, nodes[i].nodeId)
    ensures NodesBound(nodes) == Total(Ids(nodes), NodeCost(s))
  {
    hide NodeInfoBound, InfoOf, Ids;
    if nodes == [] {
      assert Ids(nodes) == {} by { IdsOfNone(); }
    } else {
      var front, last := nodes[..|nodes| - 1], nodes[|nodes| - 1];
      IdsPush(front, last);
      CardinalityAtMost(front);
      assert nodes == front + [last];
      assert last.nodeId !in Ids(front);
      SentNodesTotal(s, front);
      TotalSplit(Ids(nodes), NodeCost(s), last.nodeId);
      assert Ids(nodes) - {last.nodeId} == Ids(front);
    }
  }

  lemma {:induction false} SentReportsTotal(s: State, reports: seq<GraphReport>)
    requires |Keys(reports)| == |reports|
    requires forall i :: 0 <= i < |reports| ==>
              KeyOf(reports[i]) in s.reports && reports[i] == ReportOf(s, KeyOf(reports[i]))
    ensures ReportsBound(reports) == Total(Keys(reports), ReportCost(s))
  {
    hide GraphReportBound, ReportOf, KeyOf, Keys;
    if reports == [] {
      assert Keys(reports) == {} by { IdsOfNone(); }
    } else {
      var front, last := reports[..|reports| - 1], reports[|reports| - 1];
      KeysPush(front, last);
      KeyCardinalityAtMost(front);
      assert reports == front + [last];
      assert KeyOf(last) !in Keys(front);
      SentReportsTotal(s, front);
      TotalSplit(Keys(reports), ReportCost(s), KeyOf(last));
      assert Keys(reports) - {KeyOf(last)} == Keys(front);
    }
  }

  /** What everything live would take, by the fill's own bounds. */
  ghost function LiveTotal(s: State, now: u64): nat {
    Total(LiveNodes(s, now), NodeCost(s)) + Total(LiveReports(s, s.reports, now).Keys, ReportCost(s))
  }

  lemma MissingNodeOverflows(s: State, now: u64, nodes: seq<NodeInfo>, left: int, id: string)
    requires FilledNodes(s, LiveNodes(s, now), nodes, left) && id in LiveNodes(s, now) && id !in Ids(nodes)
    ensures Total(LiveNodes(s, now), NodeCost(s)) > NodesBound(nodes) + left
  {
    hide NodeInfoBound, LiveNodes, InfoOf;
    SentNodesTotal(s, nodes);
    TotalSplit(LiveNodes(s, now), NodeCost(s), id);
    TotalMonotone(Ids(nodes), LiveNodes(s, now) - {id}, NodeCost(s));
  }

  lemma MissingReportOverflows(s: State, now: u64, reports: seq<GraphReport>, left: int, k: Key)
    requires FilledReports(s, LiveReports(s, s.reports, now).Keys, reports, left)
    requires k in LiveReports(s, s.reports, now) && k !in Keys(reports)
    ensures Total(LiveReports(s, s.reports, now).Keys, ReportCost(s)) > ReportsBound(reports) + left
  {
    hide GraphReportBound, ReportOf;
    var live := LiveReports(s, s.reports, now).Keys;
    SentReportsTotal(s, reports);
    TotalSplit(live, ReportCost(s), k);
    TotalMonotone(Keys(reports), live - {k}, ReportCost(s));
  }

  lemma FewerKeysThan<K>(few: set<K>, many: set<K>)
    requires few <= many
    ensures |few| <= |many| && (|few| == |many| <==> few == many)
  {
    assert many == few + (many - few);
    assert many - few == {} <==> few == many;
  }

  /** An answer is complete exactly when everything live fits the budget. */
  lemma CompleteExactlyWhenItFits(s: State, now: u64, nodes: seq<NodeInfo>, reports: seq<GraphReport>, dropped: nat)
    requires Answer(s, now, nodes, reports, dropped)
    ensures dropped == 0 <==> LiveTotal(s, now) <= 1_047_552
    ensures dropped == 0 ==> Ids(nodes) == LiveNodes(s, now) && Keys(reports) == LiveReports(s, s.reports, now).Keys
  {
    hide NodeInfoBound, GraphReportBound, LiveNodes, LiveReports, Live, InfoOf, ReportOf, Ids, Keys;
    var ids, keys := LiveNodes(s, now), LiveReports(s, s.reports, now).Keys;
    SentNodesTotal(s, nodes);
    SentReportsTotal(s, reports);
    TotalMonotone(Ids(nodes), ids, NodeCost(s));
    TotalMonotone(Keys(reports), keys, ReportCost(s));
    FewerKeysThan(Ids(nodes), ids);
    FewerKeysThan(Keys(reports), keys);
    if id :| id in ids && id !in Ids(nodes) {
      MissingNodeOverflows(s, now, nodes, Room(nodes, reports), id);
    } else if k :| k in keys && k !in Keys(reports) {
      MissingReportOverflows(s, now, reports, Room(nodes, reports), k);
    } else {
      assert Ids(nodes) == ids && Keys(reports) == keys;
    }
  }
}
