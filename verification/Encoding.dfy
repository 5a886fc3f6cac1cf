/** The bytes of a frame's payload in the postcard format, as far as their
    number goes: varints low seven bits first, strings and lists behind their
    length, a one-byte tag for options and variants. */
module Encoding {
  import opened Common
  import opened Wire

  type byte = n: int | 0 <= n < 256

  function Varint(n: nat): seq<byte> {
    if n < 128 then [n] else [128 + n % 128] + Varint(n / 128)
  }

  function Str(s: string): seq<byte> {
    Varint(|s|) + seq(|s|, i requires 0 <= i < |s| => s[i] as int % 256)
  }

  function Bool(b: bool): seq<byte> {
    if b then [1] else [0]
  }

  function Opt(bytes: Option<seq<byte>>): seq<byte> {
    match bytes
    case None => [0]
    case Some(value) => [1] + value
  }

  function Strs(strs: seq<string>): seq<byte> {
    if strs == [] then [] else Str(strs[0]) + Strs(strs[1..])
  }

  function Addrs(addrs: seq<ListenAddr>): seq<byte> {
    if addrs == [] then [] else Str(addrs[0].addr) + Str(addrs[0].role) + Addrs(addrs[1..])
  }

  function Hops(hops: seq<RouteHop>): seq<byte> {
    if hops == [] then [] else Str(hops[0].nodeId) + Str(hops[0].addr) + Hops(hops[1..])
  }

  function Hello(nodeId: string, roles: seq<string>, addrs: seq<ListenAddr>): seq<byte> {
    Str(nodeId) + Varint(|roles|) + Strs(roles) + Varint(|addrs|) + Addrs(addrs)
  }

  function Rtt(rttMs: Option<u32>): seq<byte> {
    Opt(if rttMs.Some? then Some(Varint(rttMs.value)) else None)
  }

  function OptStr(s: Option<string>): seq<byte> {
    Opt(if s.Some? then Some(Str(s.value)) else None)
  }

  function Observation(from: string, target: string, protocol: string, reachable: bool, rttMs: Option<u32>): seq<byte> {
    Str(from) + Str(target) + Str(protocol) + Bool(reachable) + Rtt(rttMs)
  }

  function Node(node: NodeInfo): seq<byte> {
    Str(node.nodeId) + Varint(|node.listenAddrs|) + Addrs(node.listenAddrs) + Varint(|node.roles|) + Strs(node.roles)
  }

  function Nodes(nodes: seq<NodeInfo>): seq<byte> {
    if nodes == [] then [] else Nodes(nodes[..|nodes| - 1]) + Node(nodes[|nodes| - 1])
  }

  function Reports(reports: seq<GraphReport>): seq<byte> {
    if reports == [] then []
    else
      var r := reports[|reports| - 1];
      Reports(reports[..|reports| - 1]) + Observation(r.from, r.target, r.protocol, r.reachable, r.rttMs)
  }

  function Relayed(m: RelayedMessage): seq<byte> {
    match m
    case RelayedHello(nodeId, roles, addrs) => [0] + Hello(nodeId, roles, addrs)
    case RelayedProbe(from, to, sentAt) => [1] + Str(from) + Str(to) + Varint(sentAt)
    case RelayedReport(from, target, protocol, reachable, rttMs, observedAddr) =>
      [2] + Observation(from, target, protocol, reachable, rttMs) + OptStr(observedAddr)
  }

  function Encode(message: Message): seq<byte> {
    match message
    case NodeHello(nodeId, roles, addrs) => [0] + Hello(nodeId, roles, addrs)
    case ReachabilityProbe(from, to, sentAt) => [1] + Str(from) + Str(to) + Varint(sentAt)
    case ReachabilityReport(from, target, protocol, reachable, rttMs, observedAddr) =>
      [2] + Observation(from, target, protocol, reachable, rttMs) + OptStr(observedAddr)
    case FromHead(source, client, m) => [3] + Str(source) + OptStr(client) + Relayed(m)
    case GraphQuery => [4]
    case GraphSnapshot(nodes, reports) => [5] + Varint(|nodes|) + Nodes(nodes) + Varint(|reports|) + Reports(reports)
    case Ack(status) => [6] + Str(status)
    case TunnelOpen(hops) => [7] + Varint(|hops|) + Hops(hops)
  }

  lemma {:induction false} VarintSize(n: nat)
    ensures |Varint(n)| == VarintLen(n)
  {
    if n >= 128 {
      VarintSize(n / 128);
    }
  }

  lemma StrSize(s: string)
    ensures |Str(s)| == StrLen(s)
  {
    VarintSize(|s|);
  }

  lemma {:induction false} StrsSize(strs: seq<string>)
    ensures |Strs(strs)| == StrsLen(strs)
  {
    if strs != [] {
      StrSize(strs[0]);
      StrsSize(strs[1..]);
    }
  }

  lemma {:induction false} AddrsSize(addrs: seq<ListenAddr>)
    ensures |Addrs(addrs)| == ListenAddrsLen(addrs)
  {
    if addrs != [] {
      StrSize(addrs[0].addr);
      StrSize(addrs[0].role);
      AddrsSize(addrs[1..]);
    }
  }

  lemma {:induction false} HopsSize(hops: seq<RouteHop>)
    ensures |Hops(hops)| == HopsLen(hops)
  {
    if hops != [] {
      StrSize(hops[0].nodeId);
      StrSize(hops[0].addr);
      HopsSize(hops[1..]);
    }
  }

  lemma HelloSize(nodeId: string, roles: seq<string>, addrs: seq<ListenAddr>)
    ensures |Hello(nodeId, roles, addrs)| == HelloLen(nodeId, roles, addrs)
  {
    hide Str, Strs, Addrs, Varint, StrLen, StrsLen, ListenAddrsLen, VarintLen;
    StrSize(nodeId);
    StrsSize(roles);
    AddrsSize(addrs);
    VarintSize(|roles|);
    VarintSize(|addrs|);
  }

  lemma ObservationSize(from: string, target: string, protocol: string, reachable: bool, rttMs: Option<u32>)
    ensures |Observation(from, target, protocol, reachable, rttMs)|
            == StrLen(from) + StrLen(target) + StrLen(protocol) + 1 + RttLen(rttMs)
  {
    hide Str, Varint, StrLen, VarintLen;
    StrSize(from);
    StrSize(target);
    StrSize(protocol);
    if rttMs.Some? {
      VarintSize(rttMs.value);
    }
  }

  lemma OptStrSize(s: Option<string>)
    ensures |OptStr(s)| == OptionLen(s.Some?, if s.Some? then StrLen(s.value) else 0)
  {
    if s.Some? {
      StrSize(s.value);
    }
  }

  lemma NodeSize(node: NodeInfo)
    ensures |Node(node)| == NodeInfoLen(node)
  {
    hide Str, Strs, Addrs, Varint, StrLen, StrsLen, ListenAddrsLen, VarintLen;
    StrSize(node.nodeId);
    StrsSize(node.roles);
    AddrsSize(node.listenAddrs);
    VarintSize(|node.roles|);
    VarintSize(|node.listenAddrs|);
  }

  lemma {:induction false} NodesSize(nodes: seq<NodeInfo>)
    ensures |Nodes(nodes)| == NodesLen(nodes)
  {
    hide Node, NodeInfoLen;
    if nodes != [] {
      NodesSize(nodes[..|nodes| - 1]);
      NodeSize(nodes[|nodes| - 1]);
    }
  }

  lemma {:induction false} ReportsSize(reports: seq<GraphReport>)
    ensures |Reports(reports)| == ReportsLen(reports)
  {
    hide Observation, RttLen, StrLen;
    if reports != [] {
      var r := reports[|reports| - 1];
      ReportsSize(reports[..|reports| - 1]);
      ObservationSize(r.from, r.target, r.protocol, r.reachable, r.rttMs);
    }
  }

  lemma RelayedSize(m: RelayedMessage)
    ensures |Relayed(m)| == RelayedLen(m)
  {
    hide Str, Varint, StrLen, VarintLen, Hello, HelloLen, Observation, OptStr, RttLen, OptionLen;
    match m {
      case RelayedHello(nodeId, roles, addrs) => HelloSize(nodeId, roles, addrs);
      case RelayedProbe(from, to, sentAt) =>
        StrSize(from);
        StrSize(to);
        VarintSize(sentAt);
      case RelayedReport(from, target, protocol, reachable, rttMs, observedAddr) =>
        ObservationSize(from, target, protocol, reachable, rttMs);
        OptStrSize(observedAddr);
    }
  }

  /** The modelled size of any message is the number of bytes it takes. */
  lemma SizeIsBytes(message: Message)
    ensures |Encode(message)| == MessageLen(message)
  {
    hide Str, Varint, StrLen, VarintLen, Hello, HelloLen, Observation, OptStr, RttLen, OptionLen, Nodes, NodesLen,
      Reports,
         ReportsLen, Hops, HopsLen, Relayed, RelayedLen;
    match message {
      case NodeHello(nodeId, roles, addrs) => HelloSize(nodeId, roles, addrs);
      case ReachabilityProbe(from, to, sentAt) =>
        StrSize(from);
        StrSize(to);
        VarintSize(sentAt);
      case ReachabilityReport(from, target, protocol, reachable, rttMs, observedAddr) =>
        ObservationSize(from, target, protocol, reachable, rttMs);
        OptStrSize(observedAddr);
      case FromHead(source, client, m) =>
        StrSize(source);
        OptStrSize(client);
        RelayedSize(m);
      case GraphQuery =>
      case GraphSnapshot(nodes, reports) =>
        VarintSize(|nodes|);
        NodesSize(nodes);
        VarintSize(|reports|);
        ReportsSize(reports);
      case Ack(status) => StrSize(status);
      case TunnelOpen(hops) =>
        VarintSize(|hops|);
        HopsSize(hops);
    }
  }

  // ----- what a reader takes -----

  predicate HelloWithin(nodeId: string, roles: seq<string>, addrs: seq<ListenAddr>) {
    && |nodeId| <= 256
    && |roles| <= 16 && (forall i :: 0 <= i < |roles| ==> |roles[i]| <= 64)
    && |addrs| <= 16 && (forall i :: 0 <= i < |addrs| ==> |addrs[i].addr| <= 256 && |addrs[i].role| <= 64)
  }

  predicate ObservationWithin(from: string, target: string, protocol: string, observedAddr: Option<string>) {
    |from| <= 256 && |target| <= 256 && |protocol| <= 64 && (observedAddr.Some? ==> |observedAddr.value| <= 256)
  }

  /** A frame is taken exactly when its payload is at most a mebibyte and every
      string and list in it is within bounds, wrapped or not. */
  lemma ReadableExactly(message: Message)
    ensures Sendable(message) <==> |Encode(message)| <= 1_048_576
    ensures Readable(message) <==>
            && |Encode(message)| <= 1_048_576
            && match message
               case NodeHello(nodeId, roles, addrs) => HelloWithin(nodeId, roles, addrs)
               case ReachabilityProbe(from, to, _) => |from| <= 256 && |to| <= 256
               case ReachabilityReport(from, target, protocol, _, _, addr) =>
                 ObservationWithin(from, target, protocol, addr)
               case FromHead(source, client, RelayedHello(nodeId, roles, addrs)) =>
                 |source| <= 256 && (client.Some? ==> |client.value| <= 256) && HelloWithin(nodeId, roles, addrs)
               case FromHead(source, client, RelayedProbe(from, to, _)) =>
                 |source| <= 256 && (client.Some? ==> |client.value| <= 256) && |from| <= 256 && |to| <= 256
               case FromHead(source, client, RelayedReport(from, target, protocol, _, _, addr)) =>
                 |source| <= 256 && (client.Some? ==> |client.value| <= 256)
                   && ObservationWithin(from, target, protocol, addr)
               case GraphQuery => true
               case GraphSnapshot(nodes, reports) =>
                 && (forall i :: 0 <= i < |nodes| ==>
                      HelloWithin(nodes[i].nodeId, nodes[i].roles, nodes[i].listenAddrs))
                 && (forall i :: 0 <= i < |reports| ==>
                       ObservationWithin(reports[i].from, reports[i].target, reports[i].protocol, None))
               case Ack(_) => true
               case TunnelOpen(hops) =>
                 0 < |hops| <= 32 && forall i :: 0 <= i < |hops| ==> |hops[i].nodeId| <= 256 && |hops[i].addr| <= 256
  {
    hide Encode, MessageLen;
    SizeIsBytes(message);
  }

  // ----- what the fill reckons with -----

  function Bytes(strs: seq<string>): nat {
    if strs == [] then 0 else |strs[0]| + Bytes(strs[1..])
  }

  function AddrStrings(addrs: seq<ListenAddr>): seq<string> {
    if addrs == [] then [] else [addrs[0].addr, addrs[0].role] + AddrStrings(addrs[1..])
  }

  lemma {:induction false} RolesBound(roles: seq<string>)
    ensures StrsBound(roles) == Bytes(roles) + 5 * |roles|
  {
    if roles != [] {
      RolesBound(roles[1..]);
    }
  }

  lemma {:induction false} AddrsBound(addrs: seq<ListenAddr>)
    ensures |AddrStrings(addrs)| == 2 * |addrs|
    ensures ListenAddrsBound(addrs) == Bytes(AddrStrings(addrs)) + 5 * |AddrStrings(addrs)|
  {
    if addrs != [] {
      var rest := AddrStrings(addrs[1..]);
      AddrsBound(addrs[1..]);
      assert AddrStrings(addrs)[1..] == [addrs[0].role] + rest;
      assert AddrStrings(addrs)[1..][1..] == rest;
    }
  }

  /** A node is reckoned at its bytes and five for each length there is to
      write: its id's, both lists', and each of their strings'. A report at its
      bytes, five for each of three strings, one for the verdict and six for the
      round trip. */
  lemma ReckonedBytes(node: NodeInfo, report: GraphReport)
    ensures NodeInfoBound(node) ==
            |node.nodeId| + Bytes(AddrStrings(node.listenAddrs)) + Bytes(node.roles)
            + 5 * (3 + 2 * |node.listenAddrs| + |node.roles|)
    ensures GraphReportBound(report) == |report.from| + |report.target| + |report.protocol| + 3 * 5 + 1 + 6
  {
    RolesBound(node.roles);
    AddrsBound(node.listenAddrs);
  }
}
