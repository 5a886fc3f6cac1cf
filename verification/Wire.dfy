/** The wire protocol: messages, their bounds and the size of their encoding.
    A string stands for its UTF-8 bytes, one character a byte. */
module Wire {
  import opened Common

  const MAX_FRAME_LEN: nat := 1024 * 1024
  const SNAPSHOT_BUDGET: nat := MAX_FRAME_LEN - 1024
  const MAX_TUNNEL_HOPS: nat := 32
  const MAX_LISTEN_ADDRS: nat := 16
  const MAX_LISTEN_ADDR_LEN: nat := 256
  const MAX_ROLE_LEN: nat := 64
  const MAX_NODE_ID_LEN: nat := 256
  const MAX_PROTOCOL_LEN: nat := 64
  const MAX_NODE_ROLES: nat := 16

  datatype RouteHop = RouteHop(nodeId: string, addr: string)
  datatype ListenAddr = ListenAddr(addr: string, role: string)
  datatype NodeInfo = NodeInfo(nodeId: string, listenAddrs: seq<ListenAddr>, roles: seq<string>)
  datatype GraphReport = GraphReport(from: string, target: string, protocol: string, reachable: bool,
                                     rttMs: Option<u32>)

  /** What a Head may relay for a client: flat, so it cannot nest. */
  datatype RelayedMessage =
    | RelayedHello(nodeId: string, roles: seq<string>, listenAddrs: seq<ListenAddr>)
    | RelayedProbe(from: string, to: string, sentAtUnixMs: u64)
    | RelayedReport(from: string, target: string, protocol: string, reachable: bool, rttMs: Option<u32>,
                    observedAddr: Option<string>)

  datatype Message =
    | NodeHello(nodeId: string, roles: seq<string>, listenAddrs: seq<ListenAddr>)
    | ReachabilityProbe(from: string, to: string, sentAtUnixMs: u64)
    | ReachabilityReport(from: string, target: string, protocol: string, reachable: bool, rttMs: Option<u32>,
                         observedAddr: Option<string>)
    | FromHead(source: string, clientIdentity: Option<string>, message: RelayedMessage)
    | GraphQuery
    | GraphSnapshot(nodes: seq<NodeInfo>, reports: seq<GraphReport>)
    | Ack(status: string)
    | TunnelOpen(hops: seq<RouteHop>)

  // ----- relaying -----

  /** The node id a relayed message speaks for, if it writes any state. */
  function ClaimedNodeId(m: RelayedMessage): Option<string> {
    match m
    case RelayedHello(nodeId, _, _) => Some(nodeId)
    case RelayedReport(from, _, _, _, _, _) => Some(from)
    case RelayedProbe(_, _, _) => None
  }

  function TryRelay(message: Message): Option<RelayedMessage> {
    match message
    case NodeHello(nodeId, roles, listenAddrs) => Some(RelayedHello(nodeId, roles, listenAddrs))
    case ReachabilityProbe(from, to, sentAt) => Some(RelayedProbe(from, to, sentAt))
    case ReachabilityReport(from, target, protocol, reachable, rttMs, observedAddr) =>
      Some(RelayedReport(from, target, protocol, reachable, rttMs, observedAddr))
    case _ => None
  }

  /** The same message, sent directly. */
  function Direct(m: RelayedMessage): (message: Message)
    ensures forall other :: TryRelay(other) == Some(m) <==> other == message
  {
    match m
    case RelayedHello(nodeId, roles, listenAddrs) => NodeHello(nodeId, roles, listenAddrs)
    case RelayedProbe(from, to, sentAt) => ReachabilityProbe(from, to, sentAt)
    case RelayedReport(from, target, protocol, reachable, rttMs, observedAddr) =>
      ReachabilityReport(from, target, protocol, reachable, rttMs, observedAddr)
  }

  // ----- validation -----

  predicate ValidNodeId(nodeId: string) {
    |nodeId| <= MAX_NODE_ID_LEN
  }

  predicate ValidListenAddrs(listenAddrs: seq<ListenAddr>) {
    && |listenAddrs| <= MAX_LISTEN_ADDRS
    && forall i :: 0 <= i < |listenAddrs| ==>
         |listenAddrs[i].addr| <= MAX_LISTEN_ADDR_LEN && |listenAddrs[i].role| <= MAX_ROLE_LEN
  }

  predicate ValidHello(nodeId: string, roles: seq<string>, listenAddrs: seq<ListenAddr>) {
    && ValidNodeId(nodeId)
    && |roles| <= MAX_NODE_ROLES
    && (forall i :: 0 <= i < |roles| ==> |roles[i]| <= MAX_ROLE_LEN)
    && ValidListenAddrs(listenAddrs)
  }

  predicate ValidReport(from: string, target: string, protocol: string, observedAddr: Option<string>) {
    && ValidNodeId(from)
    && ValidNodeId(target)
    && |protocol| <= MAX_PROTOCOL_LEN
    && (observedAddr.Some? ==> |observedAddr.value| <= MAX_LISTEN_ADDR_LEN)
  }

  predicate ValidRelayed(m: RelayedMessage) {
    match m
    case RelayedHello(nodeId, roles, listenAddrs) => ValidHello(nodeId, roles, listenAddrs)
    case RelayedReport(from, target, protocol, _, _, observedAddr) => ValidReport(from, target, protocol, observedAddr)
    case RelayedProbe(from, to, _) => ValidNodeId(from) && ValidNodeId(to)
  }

  predicate ValidMessage(message: Message) {
    match message
    case NodeHello(nodeId, roles, listenAddrs) => ValidHello(nodeId, roles, listenAddrs)
    case ReachabilityReport(from, target, protocol, _, _, observedAddr) =>
      ValidReport(from, target, protocol, observedAddr)
    case ReachabilityProbe(from, to, _) => ValidNodeId(from) && ValidNodeId(to)
    case FromHead(source, clientIdentity, m) =>
      && |source| <= MAX_LISTEN_ADDR_LEN
      && (clientIdentity.Some? ==> ValidNodeId(clientIdentity.value))
      && ValidRelayed(m)
    case GraphSnapshot(nodes, reports) =>
      && (forall i :: 0 <= i < |nodes| ==> ValidHello(nodes[i].nodeId, nodes[i].roles, nodes[i].listenAddrs))
      && (forall i :: 0 <= i < |reports| ==> ValidReport(reports[i].from, reports[i].target, reports[i].protocol, None))
    case TunnelOpen(hops) =>
      forall i :: 0 <= i < |hops| ==> ValidNodeId(hops[i].nodeId) && |hops[i].addr| <= MAX_LISTEN_ADDR_LEN
    case Ack(_) => true
    case GraphQuery => true
  }

  /** A wrapped message passes validation exactly when it would unwrapped,
      given an envelope within bounds. */
  lemma WrappedValidAlike(source: string, clientIdentity: Option<string>, m: RelayedMessage)
    requires |source| <= MAX_LISTEN_ADDR_LEN
    requires clientIdentity.Some? ==> ValidNodeId(clientIdentity.value)
    ensures ValidMessage(FromHead(source, clientIdentity, m)) <==> ValidMessage(Direct(m))
  {
    match m
    case RelayedHello(_, _, _) =>
    case RelayedProbe(_, _, _) =>
    case RelayedReport(_, _, _, _, _, _) =>
  }

  // ----- encoded sizes -----

  /** The bytes of a base-128 varint. */
  function VarintLen(n: nat): (len: nat)
    ensures len >= 1
  {
    if n < 128 then 1 else 1 + VarintLen(n / 128)
  }

  lemma VarintWithinFive(n: nat)
    ensures VarintLen(n) <= 5 <==> n < 0x8_0000_0000
  {
    var a := n / 128;
    var b := a / 128;
    var c := b / 128;
    var d := c / 128;
    assert VarintLen(d) == 1 <==> d < 128;
    assert VarintLen(c) <= 2 <==> c < 128 || VarintLen(d) <= 1;
    assert VarintLen(b) <= 3 <==> b < 128 || VarintLen(c) <= 2;
    assert VarintLen(a) <= 4 <==> a < 128 || VarintLen(b) <= 3;
    assert VarintLen(n) <= 5 <==> n < 128 || VarintLen(a) <= 4;
  }

  function StrLen(s: string): nat {
    VarintLen(|s|) + |s|
  }

  function OptionLen(present: bool, len: nat): nat {
    1 + if present then len else 0
  }

  function ListenAddrsLen(addrs: seq<ListenAddr>): nat {
    if addrs == [] then 0 else StrLen(addrs[0].addr) + StrLen(addrs[0].role) + ListenAddrsLen(addrs[1..])
  }

  function StrsLen(strs: seq<string>): nat {
    if strs == [] then 0 else StrLen(strs[0]) + StrsLen(strs[1..])
  }

  function HelloLen(nodeId: string, roles: seq<string>, listenAddrs: seq<ListenAddr>): nat {
    StrLen(nodeId) + VarintLen(|roles|) + StrsLen(roles) + VarintLen(|listenAddrs|) + ListenAddrsLen(listenAddrs)
  }

  function NodeInfoLen(node: NodeInfo): nat {
    HelloLen(node.nodeId, node.roles, node.listenAddrs)
  }

  function RttLen(rttMs: Option<u32>): nat {
    OptionLen(rttMs.Some?, if rttMs.Some? then VarintLen(rttMs.value) else 0)
  }

  function GraphReportLen(report: GraphReport): nat {
    StrLen(report.from) + StrLen(report.target) + StrLen(report.protocol) + 1 + RttLen(report.rttMs)
  }

  function ReportLen(from: string, target: string, protocol: string, rttMs: Option<u32>,
                     observedAddr: Option<string>): nat {
    StrLen(from) + StrLen(target) + StrLen(protocol) + 1 + RttLen(rttMs)
    + OptionLen(observedAddr.Some?, if observedAddr.Some? then StrLen(observedAddr.value) else 0)
  }

  function RelayedLen(m: RelayedMessage): nat {
    1 + match m
    case RelayedHello(nodeId, roles, listenAddrs) => HelloLen(nodeId, roles, listenAddrs)
    case RelayedProbe(from, to, sentAt) => StrLen(from) + StrLen(to) + VarintLen(sentAt)
    case RelayedReport(from, target, protocol, _, rttMs, observedAddr) =>
      ReportLen(from, target, protocol, rttMs, observedAddr)
  }

  function NodesLen(nodes: seq<NodeInfo>): nat {
    if nodes == [] then 0 else NodesLen(nodes[..|nodes| - 1]) + NodeInfoLen(nodes[|nodes| - 1])
  }

  function ReportsLen(reports: seq<GraphReport>): nat {
    if reports == [] then 0 else ReportsLen(reports[..|reports| - 1]) + GraphReportLen(reports[|reports| - 1])
  }

  function HopsLen(hops: seq<RouteHop>): nat {
    if hops == [] then 0 else StrLen(hops[0].nodeId) + StrLen(hops[0].addr) + HopsLen(hops[1..])
  }

  /** The encoded size of a message: a one-byte variant tag and its fields. */
  function MessageLen(message: Message): nat {
    1 + match message
    case NodeHello(nodeId, roles, listenAddrs) => HelloLen(nodeId, roles, listenAddrs)
    case ReachabilityProbe(from, to, sentAt) => StrLen(from) + StrLen(to) + VarintLen(sentAt)
    case ReachabilityReport(from, target, protocol, _, rttMs, observedAddr) =>
      ReportLen(from, target, protocol, rttMs, observedAddr)
    case FromHead(source, clientIdentity, m) =>
      StrLen(source) + OptionLen(clientIdentity.Some?, if clientIdentity.Some? then StrLen(clientIdentity.value) else 0)
      + RelayedLen(m)
    case GraphQuery => 0
    case GraphSnapshot(nodes, reports) =>
      VarintLen(|nodes|) + NodesLen(nodes) + VarintLen(|reports|) + ReportsLen(reports)
    case Ack(status) => StrLen(status)
    case TunnelOpen(hops) => VarintLen(|hops|) + HopsLen(hops)
  }

  /** `write_message` sends it. */
  predicate Sendable(message: Message) {
    MessageLen(message) <= MAX_FRAME_LEN
  }

  /** `read_message` takes it: the frame fits, a tunnel names 1 to 32 hops, and
      every string and list is within bounds. */
  predicate Readable(message: Message) {
    && Sendable(message)
    && (message.TunnelOpen? ==> 0 < |message.hops| <= MAX_TUNNEL_HOPS)
    && ValidMessage(message)
  }

  // ----- the bounds a snapshot is filled by -----

  function StrBound(s: string): nat {
    |s| + 5
  }

  function ListenAddrsBound(addrs: seq<ListenAddr>): nat {
    if addrs == [] then 0 else StrBound(addrs[0].addr) + StrBound(addrs[0].role) + ListenAddrsBound(addrs[1..])
  }

  function StrsBound(strs: seq<string>): nat {
    if strs == [] then 0 else StrBound(strs[0]) + StrsBound(strs[1..])
  }

  function NodeInfoBound(node: NodeInfo): nat {
    StrBound(node.nodeId) + 5 + ListenAddrsBound(node.listenAddrs) + 5 + StrsBound(node.roles)
  }

  function GraphReportBound(report: GraphReport): nat {
    StrBound(report.from) + StrBound(report.target) + StrBound(report.protocol) + 1 + 6
  }

  /** The string bound never under-estimates for strings shorter than 2 to the
      35th bytes, and always does from there on. */
  lemma StrBoundHolds(s: string)
    ensures StrLen(s) <= StrBound(s) <==> |s| < 0x8_0000_0000
  {
    VarintWithinFive(|s|);
  }

  lemma {:induction false} ListenAddrsBoundHolds(addrs: seq<ListenAddr>)
    requires ListenAddrsBound(addrs) < 0x8_0000_0000
    ensures ListenAddrsLen(addrs) <= ListenAddrsBound(addrs) && 10 * |addrs| <= ListenAddrsBound(addrs)
  {
    if addrs != [] {
      ListenAddrsBoundHolds(addrs[1..]);
      StrBoundHolds(addrs[0].addr);
      StrBoundHolds(addrs[0].role);
    }
  }

  lemma {:induction false} StrsBoundHolds(strs: seq<string>)
    requires StrsBound(strs) < 0x8_0000_0000
    ensures StrsLen(strs) <= StrsBound(strs) && 5 * |strs| <= StrsBound(strs)
  {
    if strs != [] {
      StrsBoundHolds(strs[1..]);
      StrBoundHolds(strs[0]);
    }
  }

  lemma NodeInfoBoundHolds(node: NodeInfo)
    requires NodeInfoBound(node) <= MAX_FRAME_LEN
    ensures NodeInfoLen(node) <= NodeInfoBound(node)
  {
    StrBoundHolds(node.nodeId);
    ListenAddrsBoundHolds(node.listenAddrs);
    StrsBoundHolds(node.roles);
    VarintWithinFive(|node.roles|);
    VarintWithinFive(|node.listenAddrs|);
  }

  lemma GraphReportBoundHolds(report: GraphReport)
    requires GraphReportBound(report) <= MAX_FRAME_LEN
    ensures GraphReportLen(report) <= GraphReportBound(report)
  {
    StrBoundHolds(report.from);
    StrBoundHolds(report.target);
    StrBoundHolds(report.protocol);
    if report.rttMs.Some? {
      VarintWithinFive(report.rttMs.value);
    }
  }

  function NodesBound(nodes: seq<NodeInfo>): nat {
    if nodes == [] then 0 else NodesBound(nodes[..|nodes| - 1]) + NodeInfoBound(nodes[|nodes| - 1])
  }

  function ReportsBound(reports: seq<GraphReport>): nat {
    if reports == [] then 0 else ReportsBound(reports[..|reports| - 1]) + GraphReportBound(reports[|reports| - 1])
  }

  lemma {:induction false} NodesBoundHolds(nodes: seq<NodeInfo>)
    requires NodesBound(nodes) <= MAX_FRAME_LEN
    ensures NodesLen(nodes) <= NodesBound(nodes) && 15 * |nodes| <= NodesBound(nodes)
  {
    if nodes != [] {
      NodesBoundHolds(nodes[..|nodes| - 1]);
      NodeInfoBoundHolds(nodes[|nodes| - 1]);
    }
  }

  lemma {:induction false} ReportsBoundHolds(reports: seq<GraphReport>)
    requires ReportsBound(reports) <= MAX_FRAME_LEN
    ensures ReportsLen(reports) <= ReportsBound(reports) && 22 * |reports| <= ReportsBound(reports)
  {
    if reports != [] {
      ReportsBoundHolds(reports[..|reports| - 1]);
      GraphReportBoundHolds(reports[|reports| - 1]);
    }
  }

  /** A snapshot filled within the budget is always a frame that can be sent,
      whatever its strings are. */
  lemma BudgetFitsFrame(nodes: seq<NodeInfo>, reports: seq<GraphReport>)
    requires NodesBound(nodes) + ReportsBound(reports) <= SNAPSHOT_BUDGET
    ensures Sendable(GraphSnapshot(nodes, reports))
  {
    NodesBoundHolds(nodes);
    ReportsBoundHolds(reports);
    VarintWithinFive(|nodes|);
    VarintWithinFive(|reports|);
  }

  // ----- tunnels -----

  lemma {:induction false} HopsLenBound(hops: seq<RouteHop>)
    requires forall i :: 0 <= i < |hops| ==> ValidNodeId(hops[i].nodeId) && |hops[i].addr| <= MAX_LISTEN_ADDR_LEN
    ensures HopsLen(hops) <= |hops| * 522
  {
    if hops != [] {
      HopsLenBound(hops[1..]);
      VarintWithinFive(|hops[0].nodeId|);
      VarintWithinFive(|hops[0].addr|);
    }
  }

  /** Up to 32 hops within bounds always fit one frame. */
  lemma BoundedTunnelIsReadable(hops: seq<RouteHop>)
    requires 0 < |hops| <= MAX_TUNNEL_HOPS && ValidMessage(TunnelOpen(hops))
    ensures Readable(TunnelOpen(hops))
  {
    HopsLenBound(hops);
    VarintWithinFive(|hops|);
  }
}
