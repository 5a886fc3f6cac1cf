/** What the registry answers with, told from the messages it heard: no peer's
    word is changed, made up or forgotten on the way. */
module History {
  import opened Common
  import opened Wire
  import opened Registry
  import opened Crawl

  // ----- what was heard, and from whom it may be heard -----

  /** The hello in this event, if its sender is entitled to it: over an
      authenticated connection, the node itself, or a configured relay peer whose
      client is that node. */
  function HeardHello(relayPeers: set<string>, e: Event): Option<NodeInfo> {
    match e.message
    case NodeHello(id, roles, addrs) =>
      if e.peer.None? || e.peer.value == id then Some(NodeInfo(id, addrs, roles)) else None
    case FromHead(_, client, RelayedHello(id, roles, addrs)) =>
      if e.peer.None? || (e.peer.value in relayPeers && client == Some(id)) then Some(NodeInfo(id, addrs, roles))
        else None
    case _ => None
  }

  /** The report in this event, on the same terms. */
  function HeardReport(relayPeers: set<string>, e: Event): Option<GraphReport> {
    match e.message
    case ReachabilityReport(from, target, protocol, reachable, rttMs, _) =>
      if e.peer.None? || e.peer.value == from then Some(GraphReport(from, target, protocol, reachable, rttMs)) else None
    case FromHead(_, client, RelayedReport(from, target, protocol, reachable, rttMs, _)) =>
      if e.peer.None? || (e.peer.value in relayPeers && client == Some(from))
      then Some(GraphReport(from, target, protocol, reachable, rttMs)) else None
    case _ => None
  }

  function About(report: GraphReport): Key {
    Key(report.from, report.target, report.protocol)
  }

  /** One event changes what it says and nothing else. */
  lemma OneEvent(s: State, e: Event) returns (observed: Option<string>)
    ensures HeardHello(s.relayPeers, e).Some? ==>
              var hello := HeardHello(s.relayPeers, e).value;
              Handled(s, e.peer, e.message, e.now)
              == s.(nodes := s.nodes[hello.nodeId := NodeEntry(hello.listenAddrs, hello.roles, e.now)])
    ensures HeardReport(s.relayPeers, e).Some? ==>
              var r := HeardReport(s.relayPeers, e).value;
              Handled(s, e.peer, e.message, e.now)
              == s.(reports := Recorded(s.reports, s.ttl, About(r), Entry(r.reachable, r.rttMs, observed, e.now)))
    ensures HeardHello(s.relayPeers, e).None? && HeardReport(s.relayPeers, e).None? ==>
              Handled(s, e.peer, e.message, e.now) == s
  {
    hide Recorded;
    observed := None;
    match e.message {
      case ReachabilityReport(_, _, _, _, _, addr) => observed := addr;
      case FromHead(_, _, RelayedReport(_, _, _, _, _, addr)) => observed := addr;
      case _ =>
    }
  }

  /** The last entitled hello for a node, by its place among the events. */
  function LastHello(relayPeers: set<string>, events: seq<Event>, id: string): Option<nat> {
    if events == [] then None
    else
      var n := |events| - 1;
      var hello := HeardHello(relayPeers, events[n]);
      if hello.Some? && hello.value.nodeId == id then Some(n) else LastHello(relayPeers, events[..n], id)
  }

  /** The last entitled report for a key that the table had room for. */
  ghost function LastReport(s: State, events: seq<Event>, key: Key): Option<nat> {
    if events == [] then None
    else
      var n := |events| - 1;
      var report := HeardReport(s.relayPeers, events[n]);
      if report.Some? && About(report.value) == key && HasRoom(After(s, events[..n]).reports, s.ttl, key, events[n].now)
      then Some(n) else LastReport(s, events[..n], key)
  }

  lemma {:induction false} SettingsStay(s: State, events: seq<Event>)
    ensures After(s, events).ttl == s.ttl && After(s, events).relayPeers == s.relayPeers
  {
    hide Recorded;
    if events != [] {
      SettingsStay(s, events[..|events| - 1]);
    }
  }

  // ----- what the registry holds -----

  lemma NotBoth(relayPeers: set<string>, e: Event)
    ensures HeardHello(relayPeers, e).None? || HeardReport(relayPeers, e).None?
  {
  }

  /** A node's entry is its last hello, and when it was heard. */
  lemma {:induction false} NodesAreLastHellos(ttl: Option<u64>, relayPeers: set<string>, events: seq<Event>, id: string)
    ensures var s := After(Fresh(ttl, relayPeers), events);
            match LastHello(relayPeers, events, id)
            case None => id !in s.nodes
            case Some(i) =>
              && i < |events| && id in s.nodes && s.nodes[id].lastSeen == events[i].now
              && HeardHello(relayPeers, events[i]) == Some(NodeInfo(id, s.nodes[id].listenAddrs, s.nodes[id].roles))
  {
    hide HeardHello, HeardReport, Handled, Recorded;
    if events != [] {
      var n := |events| - 1;
      var before := After(Fresh(ttl, relayPeers), events[..n]);
      NodesAreLastHellos(ttl, relayPeers, events[..n], id);
      SettingsStay(Fresh(ttl, relayPeers), events[..n]);
      var observed := OneEvent(before, events[n]);
      NotBoth(relayPeers, events[n]);
    }
  }

  /** This entry says what that report said, when it said it. */
  ghost predicate Says(entry: Entry, report: GraphReport, e: Event) {
    entry.reachable == report.reachable && entry.rttMs == report.rttMs && entry.lastSeen == e.now
  }

  ghost predicate HoldsLast(s: State, events: seq<Event>, t: Table, key: Key) {
    match LastReport(s, events, key)
    case None => key !in t
    case Some(i) =>
      && i < |events| && key in t && HeardReport(s.relayPeers, events[i]).Some?
      && About(HeardReport(s.relayPeers, events[i]).value) == key
      && Says(t[key], HeardReport(s.relayPeers, events[i]).value, events[i])
  }

  /** Who may report what is judged on these terms. */
  lemma ReportsAreJudged(relayPeers: set<string>, e: Event) returns (observed: Option<string>)
    ensures var verdict := Judge(relayPeers, e.peer, e.message);
            match HeardReport(relayPeers, e)
            case None => !(verdict.Granted? && verdict.m.RelayedReport?)
            case Some(r) =>
              verdict == Granted(RelayedReport(r.from, r.target, r.protocol, r.reachable, r.rttMs, observed))
  {
    observed := None;
    match e.message {
      case ReachabilityReport(_, _, _, _, _, addr) => observed := addr;
      case FromHead(_, _, RelayedReport(_, _, _, _, _, addr)) => observed := addr;
      case _ =>
    }
  }

  lemma UnpurgedGrows(s: State, events: seq<Event>, m: RelayedMessage)
    requires events != [] && m.RelayedReport?
    requires var n := |events| - 1;
             Judge(After(s, events[..n]).relayPeers, events[n].peer, events[n].message) == Granted(m)
    ensures var n := |events| - 1;
            var before, key := After(s, events[..n]), Key(m.from, m.target, m.protocol);
            Unpurged(s, events) ==
            if Accepts(before.reports, before.ttl, key, events[n].now)
            then Unpurged(s, events[..n])[key := Entry(m.reachable, m.rttMs, m.observedAddr, events[n].now)]
            else Unpurged(s, events[..n])
  {
    hide Judge, Accepts, After;
  }

  lemma UnpurgedStays(s: State, events: seq<Event>)
    requires events != []
    requires var n := |events| - 1;
             var verdict := Judge(After(s, events[..n]).relayPeers, events[n].peer, events[n].message);
             !(verdict.Granted? && verdict.m.RelayedReport?)
    ensures Unpurged(s, events) == Unpurged(s, events[..|events| - 1])
  {
    hide Judge, Accepts, After;
  }

  lemma UnpurgedStep(s: State, events: seq<Event>, before: State)
    requires events != [] && before == After(s, events[..|events| - 1])
    requires before.ttl == s.ttl && before.relayPeers == s.relayPeers
    ensures var n := |events| - 1;
            var e, full := events[n], Unpurged(s, events[..n]);
            match HeardReport(s.relayPeers, e)
            case None => Unpurged(s, events) == full
            case Some(r) =>
              if !HasRoom(before.reports, s.ttl, About(r), e.now) then Unpurged(s, events) == full
              else exists entry :: Says(entry, r, e) && Unpurged(s, events) == full[About(r) := entry]
  {
    hide Judge, HeardReport, HasRoom, Accepts, After, Unpurged;
    var e := events[|events| - 1];
    var observed := ReportsAreJudged(s.relayPeers, e);
    if HeardReport(s.relayPeers, e).Some? {
      var r := HeardReport(s.relayPeers, e).value;
      UnpurgedGrows(s, events, RelayedReport(r.from, r.target, r.protocol, r.reachable, r.rttMs, observed));
      AcceptsExactly(before.reports, s.ttl, About(r), e.now);
      assert Says(Entry(r.reachable, r.rttMs, observed, e.now), r, e);
    } else {
      UnpurgedStays(s, events);
    }
  }

  lemma NothingHeard(s: State)
    ensures Unpurged(s, []) == s.reports
  {
  }

  /** Without purging, a key's entry is its last report that had room. */
  lemma {:induction false} FullTableIsLastReports(ttl: Option<u64>, relayPeers: set<string>, events: seq<Event>,
                                                  key: Key)
    ensures HoldsLast(Fresh(ttl, relayPeers), events, Unpurged(Fresh(ttl, relayPeers), events), key)
  {
    hide HeardReport, Says, Unpurged, HasRoom, After;
    var s := Fresh(ttl, relayPeers);
    if events == [] {
      NothingHeard(s);
    } else {
      var n := |events| - 1;
      FullTableIsLastReports(ttl, relayPeers, events[..n], key);
      SettingsStay(s, events[..n]);
      UnpurgedStep(s, events, After(s, events[..n]));
    }
  }

  /** A held key's next report is never refused, and is what is held from then
      on. */
  lemma HeldKeysFollow(s: State, e: Event)
    requires HeardReport(s.relayPeers, e).Some? && About(HeardReport(s.relayPeers, e).value) in s.reports
    ensures var r := HeardReport(s.relayPeers, e).value;
            var next := Handled(s, e.peer, e.message, e.now);
            && HasRoom(s.reports, s.ttl, About(r), e.now)
            && next.reports.Keys == s.reports.Keys
            && Says(next.reports[About(r)], r, e)
            && forall k :: k in s.reports && k != About(r) ==> next.reports[k] == s.reports[k]
  {
    hide HeardReport, Recorded, Accepts, Handled;
    var r := HeardReport(s.relayPeers, e).value;
    NotBoth(s.relayPeers, e);
    var observed := OneEvent(s, e);
    RecordedExactly(s.reports, s.ttl, About(r), Entry(r.reachable, r.rttMs, observed, e.now));
  }

  lemma EarlierIsTimely(events: seq<Event>, e: Event)
    requires Timely(events + [e])
    ensures Timely(events) && (events != [] ==> events[|events| - 1].now <= e.now)
  {
    hide Readable;
    var all := events + [e];
    forall i | 0 <= i < |events| ensures all[i] == events[i] {
    }
    assert all[|events|] == e;
  }

  lemma LastIsNewest(s: State, events: seq<Event>, e: Event)
    requires HeardReport(s.relayPeers, e).Some?
    requires HasRoom(After(s, events).reports, s.ttl, About(HeardReport(s.relayPeers, e).value), e.now)
    ensures LastReport(s, events + [e], About(HeardReport(s.relayPeers, e).value)) == Some(|events|)
  {
    hide HeardReport, HasRoom, After;
    assert (events + [e])[..|events|] == events;
  }

  /** Over any run, what the table holds for a key is the last report for it that
      had room; and while it holds the key, that is simply the last one heard. */
  lemma TableIsLastReports(ttl: Option<u64>, relayPeers: set<string>, events: seq<Event>, e: Event, key: Key)
    requires Timely(events + [e]) && key in After(Fresh(ttl, relayPeers), events).reports
    ensures HoldsLast(Fresh(ttl, relayPeers), events, After(Fresh(ttl, relayPeers), events).reports, key)
    ensures var report := HeardReport(relayPeers, e);
            report.Some? && About(report.value) == key ==>
              && key in After(Fresh(ttl, relayPeers), events + [e]).reports
              && LastReport(Fresh(ttl, relayPeers), events + [e], key) == Some(|events|)
              && Says(After(Fresh(ttl, relayPeers), events + [e]).reports[key], report.value, e)
  {
    hide HeardReport, Unpurged, Says, LastReport, Recorded, Accepts, Handled, Readable;
    var start := Fresh(ttl, relayPeers);
    var all := events + [e];
    assert all[..|events|] == events;
    EarlierIsTimely(events, e);
    PurgeMissesOnlyStale(start, events, e.now);
    FullTableIsLastReports(ttl, relayPeers, events, key);
    SettingsStay(start, events);
    var report := HeardReport(relayPeers, e);
    if report.Some? && About(report.value) == key {
      HeldKeysFollow(After(start, events), e);
      LastIsNewest(start, events, e);
    }
  }

  // ----- what a query is answered with -----

  predicate Recently(ttl: Option<u64>, heard: u64, now: u64) {
    ttl.None? || now - heard <= ttl.value
  }

  /** The node said hello, but not recently. */
  predicate Quiet(ttl: Option<u64>, relayPeers: set<string>, events: seq<Event>, now: u64, id: string) {
    match LastHello(relayPeers, events, id)
    case None => false
    case Some(i) => i < |events| && !Recently(ttl, events[i].now, now)
  }

  /** The nodes heard from recently. */
  ghost function HeardNodes(ttl: Option<u64>, relayPeers: set<string>, events: seq<Event>, now: u64): set<string> {
    set i | 0 <= i < |events| && HeardHello(relayPeers, events[i]).Some?
            && LastHello(relayPeers, events, HeardHello(relayPeers, events[i]).value.nodeId) == Some(i)
            && Recently(ttl, events[i].now, now)
          :: HeardHello(relayPeers, events[i]).value.nodeId
  }

  /** The keys last reported recently, about two nodes that are not quiet. */
  ghost function HeardKeys(ttl: Option<u64>, relayPeers: set<string>, events: seq<Event>, now: u64): set<Key> {
    set i | 0 <= i < |events| && HeardReport(relayPeers, events[i]).Some?
            && LastReport(Fresh(ttl, relayPeers), events, About(HeardReport(relayPeers, events[i]).value)) == Some(i)
            && Recently(ttl, events[i].now, now)
            && !Quiet(ttl, relayPeers, events, now, HeardReport(relayPeers, events[i]).value.from)
            && !Quiet(ttl, relayPeers, events, now, HeardReport(relayPeers, events[i]).value.target)
          :: About(HeardReport(relayPeers, events[i]).value)
  }

  lemma QuietIsExpired(ttl: Option<u64>, relayPeers: set<string>, events: seq<Event>, now: u64, id: string)
    ensures id in ExpiredNodes(After(Fresh(ttl, relayPeers), events), now) <==> Quiet(ttl, relayPeers, events, now, id)
  {
    hide HeardHello, HeardReport, LastHello, After;
    NodesAreLastHellos(ttl, relayPeers, events, id);
    SettingsStay(Fresh(ttl, relayPeers), events);
  }

  lemma LiveNodesAreHeard(ttl: Option<u64>, relayPeers: set<string>, events: seq<Event>, now: u64)
    ensures LiveNodes(After(Fresh(ttl, relayPeers), events), now) == HeardNodes(ttl, relayPeers, events, now)
  {
    hide HeardHello, LastHello, After;
    var s := After(Fresh(ttl, relayPeers), events);
    SettingsStay(Fresh(ttl, relayPeers), events);
    forall id ensures id in LiveNodes(s, now) <==> id in HeardNodes(ttl, relayPeers, events, now) {
      NodesAreLastHellos(ttl, relayPeers, events, id);
    }
  }

  lemma HeardKeyIs(ttl: Option<u64>, relayPeers: set<string>, events: seq<Event>, now: u64, k: Key)
    requires forall i: nat :: LastReport(Fresh(ttl, relayPeers), events, k) == Some(i) ==>
               i < |events| && HeardReport(relayPeers, events[i]).Some?
                 && About(HeardReport(relayPeers, events[i]).value) == k
    ensures k in HeardKeys(ttl, relayPeers, events, now) <==>
            match LastReport(Fresh(ttl, relayPeers), events, k)
            case None => false
            case Some(i) =>
              && i < |events| && Recently(ttl, events[i].now, now)
              && !Quiet(ttl, relayPeers, events, now, k.from) && !Quiet(ttl, relayPeers, events, now, k.target)
  {
    hide HeardReport, LastReport, Quiet, Recently;
  }

  lemma SameLiveness(s: State, k: Key, now: u64)
    ensures k in LiveReports(s, s.reports, now) <==>
            && k in s.reports && k.from !in ExpiredNodes(s, now) && k.target !in ExpiredNodes(s, now)
            && Recently(s.ttl, s.reports[k].lastSeen, now)
  {
    hide ExpiredNodes;
  }

  lemma LiveReportsAreHeard(ttl: Option<u64>, relayPeers: set<string>, events: seq<Event>, now: u64)
    requires Timely(events) && (events != [] ==> events[|events| - 1].now <= now)
    ensures var s := After(Fresh(ttl, relayPeers), events);
            && LiveReports(s, s.reports, now).Keys == HeardKeys(ttl, relayPeers, events, now)
            && forall k :: k in LiveReports(s, s.reports, now) ==>
                 HoldsLast(Fresh(ttl, relayPeers), events, s.reports, k)
  {
    hide HeardReport, LastReport, After, Unpurged, ExpiredNodes, Quiet, Timely, HasRoom, LiveReports, HeardKeys;
    var start := Fresh(ttl, relayPeers);
    var s := After(start, events);
    SettingsStay(start, events);
    PurgeMissesOnlyStale(start, events, now);
    forall k
      ensures k in LiveReports(s, s.reports, now) <==> k in HeardKeys(ttl, relayPeers, events, now)
      ensures k in LiveReports(s, s.reports, now) ==> HoldsLast(start, events, s.reports, k)
    {
      FullTableIsLastReports(ttl, relayPeers, events, k);
      QuietIsExpired(ttl, relayPeers, events, now, k.from);
      QuietIsExpired(ttl, relayPeers, events, now, k.target);
      SameLiveness(s, k, now);
      HeardKeyIs(ttl, relayPeers, events, now, k);
    }
  }

  /** What is sent of a node is its last hello, recently heard. */
  ghost predicate NodeIsHeard(ttl: Option<u64>, relayPeers: set<string>, events: seq<Event>, now: u64, node: NodeInfo) {
    match LastHello(relayPeers, events, node.nodeId)
    case None => false
    case Some(i) =>
      i < |events| && HeardHello(relayPeers, events[i]) == Some(node) && Recently(ttl, events[i].now, now)
  }

  /** What is sent of a key is its last accepted report, recently heard, about
      two nodes that are not quiet. */
  ghost predicate ReportIsHeard(ttl: Option<u64>, relayPeers: set<string>, events: seq<Event>, now: u64,
                                report: GraphReport) {
    match LastReport(Fresh(ttl, relayPeers), events, About(report))
    case None => false
    case Some(i) =>
      && i < |events| && HeardReport(relayPeers, events[i]) == Some(report) && Recently(ttl, events[i].now, now)
      && !Quiet(ttl, relayPeers, events, now, report.from) && !Quiet(ttl, relayPeers, events, now, report.target)
  }

  lemma SentNodeIsHeard(ttl: Option<u64>, relayPeers: set<string>, events: seq<Event>, now: u64, id: string)
    requires id in LiveNodes(After(Fresh(ttl, relayPeers), events), now)
    ensures NodeIsHeard(ttl, relayPeers, events, now, InfoOf(After(Fresh(ttl, relayPeers), events), id))
  {
    hide HeardHello, LastHello, After;
    NodesAreLastHellos(ttl, relayPeers, events, id);
    SettingsStay(Fresh(ttl, relayPeers), events);
  }

  lemma SentReportIsHeard(ttl: Option<u64>, relayPeers: set<string>, events: seq<Event>, now: u64, k: Key)
    requires Timely(events) && (events != [] ==> events[|events| - 1].now <= now)
    requires var s := After(Fresh(ttl, relayPeers), events); k in LiveReports(s, s.reports, now)
    ensures k in After(Fresh(ttl, relayPeers), events).reports
    ensures ReportIsHeard(ttl, relayPeers, events, now, ReportOf(After(Fresh(ttl, relayPeers), events), k))
  {
    hide HeardReport, LastReport, After, ExpiredNodes, Quiet, Timely;
    var s := After(Fresh(ttl, relayPeers), events);
    LiveReportsAreHeard(ttl, relayPeers, events, now);
    SettingsStay(Fresh(ttl, relayPeers), events);
    QuietIsExpired(ttl, relayPeers, events, now, k.from);
    QuietIsExpired(ttl, relayPeers, events, now, k.target);
    SameLiveness(s, k, now);
    assert HoldsLast(Fresh(ttl, relayPeers), events, s.reports, k);
  }

  /** Every node in an answer is sent as its last hello described it, and every
      report as its last accepted report put it, neither of them too long ago;
      and every node and key of which that is true is sent or counted. */
  lemma AnswerSaysWhatWasHeard(ttl: Option<u64>, relayPeers: set<string>, events: seq<Event>, now: u64,
                               nodes: seq<NodeInfo>, reports: seq<GraphReport>, dropped: nat)
    requires Timely(events) && (events != [] ==> events[|events| - 1].now <= now)
    requires Answer(After(Fresh(ttl, relayPeers), events), now, nodes, reports, dropped)
    ensures forall n :: 0 <= n < |nodes| ==> NodeIsHeard(ttl, relayPeers, events, now, nodes[n])
    ensures forall n :: 0 <= n < |reports| ==> ReportIsHeard(ttl, relayPeers, events, now, reports[n])
    ensures |nodes| + |reports| + dropped
            == |HeardNodes(ttl, relayPeers, events, now)| + |HeardKeys(ttl, relayPeers, events, now)|
  {
    hide After, LiveNodes, LiveReports, HeardNodes, HeardKeys, Timely, NodeIsHeard, ReportIsHeard, NodeInfoBound,
         GraphReportBound;
    var s := After(Fresh(ttl, relayPeers), events);
    LiveNodesAreHeard(ttl, relayPeers, events, now);
    LiveReportsAreHeard(ttl, relayPeers, events, now);
    assert |LiveReports(s, s.reports, now)| == |LiveReports(s, s.reports, now).Keys|;
    forall n | 0 <= n < |nodes| ensures NodeIsHeard(ttl, relayPeers, events, now, nodes[n]) {
      assert nodes[n].nodeId in Ids(nodes);
      SentNodeIsHeard(ttl, relayPeers, events, now, nodes[n].nodeId);
    }
    forall n | 0 <= n < |reports| ensures ReportIsHeard(ttl, relayPeers, events, now, reports[n]) {
      assert KeyOf(reports[n]) in Keys(reports);
      SentReportIsHeard(ttl, relayPeers, events, now, KeyOf(reports[n]));
    }
  }
}
