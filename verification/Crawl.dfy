/** The Crawl server: its state, its message handler and the snapshot it
    answers with. */
module Crawl {
  import opened Common
  import opened Wire
  import opened Registry

  // ----- what a snapshot is -----

  function InfoOf(s: State, id: string): NodeInfo
    requires id in s.nodes
  {
    NodeInfo(id, s.nodes[id].listenAddrs, s.nodes[id].roles)
  }

  function ReportOf(s: State, k: Key): GraphReport
    requires k in s.reports
  {
    GraphReport(k.from, k.target, k.protocol, s.reports[k].reachable, s.reports[k].rttMs)
  }

  function KeyOf(report: GraphReport): Key {
    Key(report.from, report.target, report.protocol)
  }

  function Ids(nodes: seq<NodeInfo>): set<string> {
    set i | 0 <= i < |nodes| :: nodes[i].nodeId
  }

  function Keys(reports: seq<GraphReport>): set<Key> {
    set i | 0 <= i < |reports| :: KeyOf(reports[i])
  }

  /** These nodes are distinct live nodes among `ids`, and what was left out of
      those would not fit the room left. */
  ghost predicate FilledNodes(s: State, ids: set<string>, nodes: seq<NodeInfo>, left: int) {
    && ids <= s.nodes.Keys
    && Ids(nodes) <= ids && |Ids(nodes)| == |nodes|
    && (forall i :: 0 <= i < |nodes| ==> nodes[i].nodeId in s.nodes && nodes[i] == InfoOf(s, nodes[i].nodeId))
    && (forall id :: id in ids && id !in Ids(nodes) ==> NodeInfoBound(InfoOf(s, id)) > left)
  }

  ghost predicate FilledReports(s: State, keys: set<Key>, reports: seq<GraphReport>, left: int) {
    && keys <= s.reports.Keys
    && Keys(reports) <= keys && |Keys(reports)| == |reports|
    && (forall i :: 0 <= i < |reports| ==>
         KeyOf(reports[i]) in s.reports && reports[i] == ReportOf(s, KeyOf(reports[i])))
    && (forall k :: k in keys && k !in Keys(reports) ==> GraphReportBound(ReportOf(s, k)) > left)
  }

  function Room(nodes: seq<NodeInfo>, reports: seq<GraphReport>): int {
    SNAPSHOT_BUDGET - NodesBound(nodes) - ReportsBound(reports)
  }

  /** A snapshot answer: every live node and report is sent or counted as
      dropped, within the budget, and nothing dropped would fit the room left
      at the end. */
  ghost predicate Answer(s: State, now: u64, nodes: seq<NodeInfo>, reports: seq<GraphReport>, dropped: nat) {
    var live := LiveReports(s, s.reports, now);
    && Room(nodes, reports) >= 0
    && FilledNodes(s, LiveNodes(s, now), nodes, Room(nodes, reports))
    && FilledReports(s, live.Keys, reports, Room(nodes, reports))
    && |nodes| + |reports| + dropped == |LiveNodes(s, now)| + |live|
  }

  // ----- the fill, step by step -----

  lemma NoNodesYet(s: State, left: int)
    ensures FilledNodes(s, {}, [], left)
  {
    assert Ids([]) == {};
  }

  lemma NoReportsYet(s: State, left: int)
    ensures FilledReports(s, {}, [], left)
  {
    assert Keys([]) == {};
  }

  lemma NodeTooBig(s: State, ids: set<string>, nodes: seq<NodeInfo>, left: int, id: string)
    requires FilledNodes(s, ids, nodes, left) && id in s.nodes && id !in ids
    requires NodeInfoBound(InfoOf(s, id)) > left
    ensures FilledNodes(s, ids + {id}, nodes, left)
  {
    hide NodeInfoBound;
  }

  lemma IdsPush(nodes: seq<NodeInfo>, node: NodeInfo)
    ensures Ids(nodes + [node]) == Ids(nodes) + {node.nodeId}
    ensures NodesBound(nodes + [node]) == NodesBound(nodes) + NodeInfoBound(node)
  {
    hide NodeInfoBound;
    var more := nodes + [node];
    assert more[..|nodes|] == nodes;
    forall id | id in Ids(nodes) ensures id in Ids(more) {
      var i :| 0 <= i < |nodes| && nodes[i].nodeId == id;
      assert more[i].nodeId == id;
    }
    assert more[|nodes|].nodeId == node.nodeId;
  }

  lemma NodeFits(s: State, ids: set<string>, nodes: seq<NodeInfo>, left: int, id: string)
    requires FilledNodes(s, ids, nodes, left) && id in s.nodes && id !in ids
    ensures FilledNodes(s, ids + {id}, nodes + [InfoOf(s, id)], left - NodeInfoBound(InfoOf(s, id)))
    ensures NodesBound(nodes + [InfoOf(s, id)]) == NodesBound(nodes) + NodeInfoBound(InfoOf(s, id))
  {
    hide NodeInfoBound, Ids, NodesBound;
    IdsPush(nodes, InfoOf(s, id));
  }

  lemma ReportTooBig(s: State, keys: set<Key>, reports: seq<GraphReport>, left: int, k: Key)
    requires FilledReports(s, keys, reports, left) && k in s.reports && k !in keys
    requires GraphReportBound(ReportOf(s, k)) > left
    ensures FilledReports(s, keys + {k}, reports, left)
  {
    hide GraphReportBound;
  }

  lemma KeysPush(reports: seq<GraphReport>, report: GraphReport)
    ensures Keys(reports + [report]) == Keys(reports) + {KeyOf(report)}
    ensures ReportsBound(reports + [report]) == ReportsBound(reports) + GraphReportBound(report)
  {
    hide GraphReportBound, KeyOf;
    var more := reports + [report];
    assert more[..|reports|] == reports;
    forall k | k in Keys(reports) ensures k in Keys(more) {
      var i :| 0 <= i < |reports| && KeyOf(reports[i]) == k;
      assert KeyOf(more[i]) == k;
    }
    assert KeyOf(more[|reports|]) == KeyOf(report);
  }

  lemma ReportFits(s: State, keys: set<Key>, reports: seq<GraphReport>, left: int, k: Key)
    requires FilledReports(s, keys, reports, left) && k in s.reports && k !in keys
    ensures FilledReports(s, keys + {k}, reports + [ReportOf(s, k)], left - GraphReportBound(ReportOf(s, k)))
    ensures ReportsBound(reports + [ReportOf(s, k)]) == ReportsBound(reports) + GraphReportBound(ReportOf(s, k))
  {
    hide GraphReportBound, Keys, ReportsBound;
    KeysPush(reports, ReportOf(s, k));
  }

  lemma StillTooBig(s: State, ids: set<string>, nodes: seq<NodeInfo>, left: int, less: int)
    requires FilledNodes(s, ids, nodes, left) && less <= left
    ensures FilledNodes(s, ids, nodes, less)
  {
    hide NodeInfoBound;
  }

  lemma LiveNodesAre(s: State, now: u64, expired: set<string>)
    requires expired == ExpiredNodes(s, now)
    ensures LiveNodes(s, now) == s.nodes.Keys - expired
  {
  }

  lemma LiveReportsAre(s: State, now: u64, expired: set<string>)
    requires expired == ExpiredNodes(s, now)
    ensures LiveReports(s, s.reports, now).Keys <= s.reports.Keys
    ensures forall k :: k in LiveReports(s, s.reports, now) <==>
              k in s.reports && k.from !in expired && k.target !in expired && !Stale(s.reports[k].lastSeen, s.ttl, now)
  {
  }

  // ----- the server -----

  class CrawlState {
    var nodes: map<string, NodeEntry>
    var reachability: Table
    var nodeTtlMs: Option<u64>
    var relayPeers: set<string>

    function View(): State
      reads this
    {
      State(nodes, reachability, nodeTtlMs, relayPeers)
    }

    constructor (ttl: Option<u64>, relayPeers: set<string>)
      ensures View() == Fresh(ttl, relayPeers)
      ensures nodes == map[] && reachability == map[] && this.nodeTtlMs == ttl && this.relayPeers == relayPeers
    {
      this.nodes, this.reachability, this.nodeTtlMs, this.relayPeers := map[], map[], ttl, relayPeers;
    }

    /** Drops stale observations; does nothing when entries never expire. */
    method ExpireReports(now: u64)
      modifies this`reachability
      ensures reachability == Purged(old(reachability), nodeTtlMs, now)
      ensures reachability.Keys == NotStale(old(reachability), nodeTtlMs, now)
      ensures forall k :: k in reachability ==> reachability[k] == old(reachability)[k]
    {
      PurgedKeys(reachability, nodeTtlMs, now);
      if nodeTtlMs.None? {
        assert reachability == Purged(reachability, nodeTtlMs, now);
        return;
      }
      reachability := map k | k in reachability
        && SaturatingSub(now, reachability[k].lastSeen) <= nodeTtlMs.value :: reachability[k];
    }

    /** Records one observation; false means it was refused. An update to a held
        key is never refused and changes nothing else. A new key is refused only
        for want of room, and a refusal may still have purged a full table. */
    method RecordReport(key: Key, entry: Entry) returns (accepted: bool)
      modifies this`reachability
      ensures key in old(reachability) ==> accepted && reachability == old(reachability)[key := entry]
      ensures key !in old(reachability) ==>
                (accepted <==> Roomy(Remaining(old(reachability), nodeTtlMs, entry.lastSeen), key.from))
      ensures key !in old(reachability) && Roomy(old(reachability).Keys, key.from) ==> accepted
      ensures accepted == HasRoom(old(reachability), nodeTtlMs, key, entry.lastSeen)
      ensures accepted ==> key in reachability && reachability[key] == entry
      ensures reachability.Keys ==
              (if key in old(reachability) then old(reachability).Keys
               else Remaining(old(reachability), nodeTtlMs, entry.lastSeen) + (if accepted then {key} else {}))
      ensures forall k :: k in reachability && k != key ==>
                k in old(reachability) && reachability[k] == old(reachability)[k]
      ensures accepted == Accepts(old(reachability), nodeTtlMs, key, entry.lastSeen)
      ensures reachability == Recorded(old(reachability), nodeTtlMs, key, entry)
    {
      RecordedExactly(reachability, nodeTtlMs, key, entry);
      if key in reachability {
        reachability := reachability[key := entry];
        return true;
      }
      if |reachability| >= MAX_REACHABILITY_ENTRIES {
        ExpireReports(entry.lastSeen);
      }
      if |reachability| >= MAX_REACHABILITY_ENTRIES {
        return false;
      }
      var peerEntries := |PeerKeys(reachability, key.from)|;
      if peerEntries >= MAX_REACHABILITY_ENTRIES_PER_PEER {
        return false;
      }
      reachability := reachability[key := entry];
      return true;
    }

    /** Applies one relayed message that the connection was entitled to send. */
    method Apply(m: RelayedMessage, now: u64) returns (accepted: bool)
      modifies this`nodes, this`reachability
      ensures View() == Applied(old(View()), m, now)
      ensures accepted == (m.RelayedReport? ==>
                Accepts(old(reachability), nodeTtlMs, Key(m.from, m.target, m.protocol), now))
    {
      accepted := true;
      match m {
        case RelayedHello(nodeId, roles, listenAddrs) =>
          nodes := nodes[nodeId := NodeEntry(listenAddrs, roles, now)];
        case RelayedProbe(_, _, _) =>
        case RelayedReport(from, target, protocol, reachable, rttMs, observedAddr) =>
          accepted := RecordReport(Key(from, target, protocol), Entry(reachable, rttMs, observedAddr, now));
      }
    }

    method FillNodes(expired: set<string>, now: u64) returns (ns: seq<NodeInfo>, dropped: nat, budget: nat)
      requires expired == ExpiredNodes(View(), now)
      ensures budget == Room(ns, [])
      ensures FilledNodes(View(), LiveNodes(View(), now), ns, budget)
      ensures |ns| + dropped == |LiveNodes(View(), now)|
    {
      hide NodeInfoBound, Stale, LiveNodes, FilledNodes, ExpiredNodes;
      ghost var s := View();
      ns, dropped, budget := [], 0, SNAPSHOT_BUDGET;
      var todo := nodes.Keys;
      ghost var done: set<string> := {};
      NoNodesYet(s, budget);
      while todo != {}
        invariant todo <= s.nodes.Keys
        invariant forall id :: id in done <==> id in s.nodes && id !in todo && id !in expired
        invariant budget == Room(ns, [])
        invariant FilledNodes(s, done, ns, budget)
        invariant |ns| + dropped == |done|
        decreases |todo|
      {
        var id :| id in todo;
        todo := todo - {id};
        if id in expired {
          continue;
        }
        var entry := nodes[id];
        var node := NodeInfo(id, entry.listenAddrs, entry.roles);
        var cost := NodeInfoBound(node);
        if cost > budget {
          dropped := dropped + 1;
          NodeTooBig(s, done, ns, budget, id);
          done := done + {id};
          continue;
        }
        NodeFits(s, done, ns, budget, id);
        done := done + {id};
        budget := budget - cost;
        ns := ns + [node];
      }
      LiveNodesAre(s, now, expired);
      assert done == LiveNodes(s, now);
    }

    method FillReports(expired: set<string>, now: u64, start: nat)
      returns (rs: seq<GraphReport>, dropped: nat, budget: nat)
      requires expired == ExpiredNodes(View(), now)
      ensures budget == start - ReportsBound(rs)
      ensures FilledReports(View(), LiveReports(View(), reachability, now).Keys, rs, budget)
      ensures |rs| + dropped == |LiveReports(View(), reachability, now)|
    {
      hide GraphReportBound, LiveReports, FilledReports, Stale, ExpiredNodes;
      ghost var s := View();
      rs, dropped, budget := [], 0, start;
      var todo := reachability.Keys;
      ghost var live := LiveReports(s, s.reports, now).Keys;
      LiveReportsAre(s, now, expired);
      ghost var done: set<Key> := {};
      NoReportsYet(s, budget);
      while todo != {}
        invariant todo <= s.reports.Keys
        invariant forall k :: k in done <==> k in live && k !in todo
        invariant budget == start - ReportsBound(rs)
        invariant FilledReports(s, done, rs, budget)
        invariant |rs| + dropped == |done|
        decreases |todo|
      {
        var k :| k in todo;
        var entry := reachability[k];
        var endpointExpired := k.from in expired || k.target in expired;
        var reportExpired := Stale(entry.lastSeen, nodeTtlMs, now);
        todo := todo - {k};
        if endpointExpired || reportExpired {
          continue;
        }
        var report := GraphReport(k.from, k.target, k.protocol, entry.reachable, entry.rttMs);
        var cost := GraphReportBound(report);
        if cost > budget {
          dropped := dropped + 1;
          ReportTooBig(s, done, rs, budget, k);
          done := done + {k};
          continue;
        }
        ReportFits(s, done, rs, budget, k);
        done := done + {k};
        budget := budget - cost;
        rs := rs + [report];
      }
      assert done == live;
    }

    /** Fills a snapshot against the byte budget, nodes first, in whatever
        order the tables are walked. */
    method Snapshot(now: u64) returns (ns: seq<NodeInfo>, rs: seq<GraphReport>, dropped: nat)
      ensures Answer(View(), now, ns, rs, dropped)
      ensures Room(ns, rs) == 1_047_552 - NodesBound(ns) - ReportsBound(rs) >= 0
    {
      hide NodeInfoBound, GraphReportBound, LiveNodes, LiveReports, FilledNodes, FilledReports;
      ghost var s := View();
      var expired := ExpiredNodes(View(), now);
      var budget: int;
      ns, dropped, budget := FillNodes(expired, now);
      var droppedReports;
      rs, droppedReports, budget := FillReports(expired, now, budget);
      dropped := dropped + droppedReports;
      StillTooBig(s, LiveNodes(s, now), ns, Room(ns, []), Room(ns, rs));
    }

    /** Handles one message from a connection. A graph query is answered with a
        snapshot; anything else gets an ack, if any reply at all. */
    method HandleMessage(peer: Option<string>, message: Message, now: u64) returns (reply: Option<Message>)
      modifies this`nodes, this`reachability
      ensures View() == Handled(old(View()), peer, message, now)
      ensures message.GraphQuery? ==>
                && reply.Some? && reply.value.GraphSnapshot?
                && exists dropped :: Answer(View(), now, reply.value.nodes, reply.value.reports, dropped)
      ensures message.NodeHello? ==>
                reply == Some(Ack(if peer.None? || peer.value == message.nodeId then "hello_received"
                                  else "unauthorized_node_id"))
      ensures message.ReachabilityProbe? ==> reply == Some(Ack("probe_received"))
      ensures message.ReachabilityReport? ==>
                var key := Key(message.from, message.target, message.protocol);
                reply == Some(Ack(if peer.Some? && peer.value != message.from then "unauthorized_node_id"
                                  else if HasRoom(old(reachability), nodeTtlMs, key, now) then "report_received"
                                  else "reachability_table_full"))
      ensures message.FromHead? ==>
                var m, client := message.message, message.clientIdentity;
                reply == Some(Ack(if peer.Some? && peer.value !in relayPeers then "unauthorized_relay_peer"
                                  else if peer.Some? && m.RelayedHello?
                                    && client != Some(m.nodeId) then "unauthorized_node_id"
                                  else if peer.Some? && m.RelayedReport?
                                    && client != Some(m.from) then "unauthorized_node_id"
                                  else "head_message_received"))
      ensures message.TunnelOpen? ==> reply == Some(Ack("unsupported_message"))
      ensures message.GraphSnapshot? || message.Ack? ==> reply.None?
    {
      hide Answer, Recorded, Accepts, HasRoom, Roomy, Remaining;
      match message {
        case NodeHello(nodeId, roles, listenAddrs) =>
          if !AuthorizedFor(peer, nodeId) {
            return Some(Ack("unauthorized_node_id"));
          }
          nodes := nodes[nodeId := NodeEntry(listenAddrs, roles, now)];
          return Some(Ack("hello_received"));
        case ReachabilityProbe(_, _, _) =>
          return Some(Ack("probe_received"));
        case ReachabilityReport(from, target, protocol, reachable, rttMs, observedAddr) =>
          if !AuthorizedFor(peer, from) {
            return Some(Ack("unauthorized_node_id"));
          }
          var accepted := RecordReport(Key(from, target, protocol), Entry(reachable, rttMs, observedAddr, now));
          if !accepted {
            return Some(Ack("reachability_table_full"));
          }
          return Some(Ack("report_received"));
        case FromHead(_, client, m) =>
          if !AuthorizedRelayPeer(peer, relayPeers) {
            return Some(Ack("unauthorized_relay_peer"));
          }
          var claimed := ClaimedNodeId(m);
          if claimed.Some? {
            if !AuthorizedRelayedClaim(peer, client, claimed.value) {
              return Some(Ack("unauthorized_node_id"));
            }
          }
          var accepted := Apply(m, now);
          return Some(Ack("head_message_received"));
        case GraphQuery =>
          var ns, rs, dropped := Snapshot(now);
          return Some(GraphSnapshot(ns, rs));
        case GraphSnapshot(_, _) =>
          return None;
        case Ack(_) =>
          return None;
        case TunnelOpen(_) =>
          return Some(Ack("unsupported_message"));
      }
    }
  }
}
