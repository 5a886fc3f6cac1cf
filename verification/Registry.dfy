/** Crawl's registry: who is allowed to write what, and how long it lives. */
module Registry {
  import opened Common
  import opened Wire

  const MAX_REACHABILITY_ENTRIES: nat := 16384
  const MAX_REACHABILITY_ENTRIES_PER_PEER: nat := 1024

  datatype NodeEntry = NodeEntry(listenAddrs: seq<ListenAddr>, roles: seq<string>, lastSeen: u64)

  /** Who observed what, about whom, over which protocol. */
  datatype Key = Key(from: string, target: string, protocol: string)
  datatype Entry = Entry(reachable: bool, rttMs: Option<u32>, observedAddr: Option<string>, lastSeen: u64)

  type Table = map<Key, Entry>

  datatype State = State(
    nodes: map<string, NodeEntry>,
    reports: Table,
    ttl: Option<u64>,
    relayPeers: set<string>)

  predicate Stale(lastSeen: u64, ttl: Option<u64>, now: u64) {
    ttl.Some? && SaturatingSub(now, lastSeen) > ttl.value
  }

  // ----- the capped table -----

  function Purged(t: Table, ttl: Option<u64>, now: u64): Table {
    map k | k in t && !Stale(t[k].lastSeen, ttl, now) :: t[k]
  }

  function PeerKeys(t: Table, from: string): set<Key> {
    set k | k in t && k.from == from
  }

  /** The table once room has been sought for a new key. */
  function MadeRoom(t: Table, ttl: Option<u64>, now: u64): Table {
    if |t| >= MAX_REACHABILITY_ENTRIES then Purged(t, ttl, now) else t
  }

  predicate Accepts(t: Table, ttl: Option<u64>, key: Key, now: u64) {
    || key in t
    || (var room := MadeRoom(t, ttl, now);
        |room| < MAX_REACHABILITY_ENTRIES && |PeerKeys(room, key.from)| < MAX_REACHABILITY_ENTRIES_PER_PEER)
  }

  /** The table after one report. A refused one may still have purged it. */
  function Recorded(t: Table, ttl: Option<u64>, key: Key, entry: Entry): Table {
    var room := if key in t then t else MadeRoom(t, ttl, entry.lastSeen);
    if Accepts(t, ttl, key, entry.lastSeen) then room[key := entry] else room
  }

  /** The keys observed no longer ago than the time to live. */
  ghost function NotStale(t: Table, ttl: Option<u64>, now: u64): set<Key> {
    set k | k in t && (ttl.None? || now - t[k].lastSeen <= ttl.value)
  }

  /** Fewer than 16384 entries, fewer than 1024 of them this peer's. */
  ghost predicate Roomy(keys: set<Key>, from: string) {
    |keys| < 16384 && |set k | k in keys && k.from == from| < 1024
  }

  /** What is left to a new key: everything, unless the table is full. */
  ghost function Remaining(t: Table, ttl: Option<u64>, now: u64): set<Key> {
    if |t| >= 16384 then NotStale(t, ttl, now) else t.Keys
  }

  /** A held key always has room; a new one needs it in the table and in its
      peer's quota, after dropping the stale where the table is full. */
  ghost predicate HasRoom(t: Table, ttl: Option<u64>, key: Key, now: u64) {
    key in t || Roomy(Remaining(t, ttl, now), key.from)
  }

  lemma PurgedKeys(t: Table, ttl: Option<u64>, now: u64)
    ensures Purged(t, ttl, now).Keys == NotStale(t, ttl, now)
    ensures forall k :: k in Purged(t, ttl, now) ==> Purged(t, ttl, now)[k] == t[k]
  {
  }

  lemma MadeRoomKeys(t: Table, ttl: Option<u64>, key: Key, now: u64)
    ensures MadeRoom(t, ttl, now).Keys == Remaining(t, ttl, now) <= t.Keys
    ensures forall k :: k in MadeRoom(t, ttl, now) ==> MadeRoom(t, ttl, now)[k] == t[k]
    ensures PeerKeys(MadeRoom(t, ttl, now), key.from) == set k | k in Remaining(t, ttl, now) && k.from == key.from
  {
    PurgedKeys(t, ttl, now);
  }

  lemma AcceptsExactly(t: Table, ttl: Option<u64>, key: Key, now: u64)
    ensures Accepts(t, ttl, key, now) <==> HasRoom(t, ttl, key, now)
  {
    hide MadeRoom, PeerKeys, Remaining;
    MadeRoomKeys(t, ttl, key, now);
    assert |MadeRoom(t, ttl, now)| == |MadeRoom(t, ttl, now).Keys|;
  }

  /** A report for a held key replaces its entry and nothing else. One for a new
      key is stored exactly when it has room; whatever remains keeps its entry. */
  lemma RecordedExactly(t: Table, ttl: Option<u64>, key: Key, entry: Entry)
    ensures Accepts(t, ttl, key, entry.lastSeen) <==> HasRoom(t, ttl, key, entry.lastSeen)
    ensures key in t ==> HasRoom(t, ttl, key, entry.lastSeen) && Recorded(t, ttl, key, entry) == t[key := entry]
    ensures key !in t ==>
              var next, left := Recorded(t, ttl, key, entry), Remaining(t, ttl, entry.lastSeen);
              && next.Keys == (if HasRoom(t, ttl, key, entry.lastSeen) then left + {key} else left)
              && (forall k :: k in left && k != key ==> k in t && next[k] == t[k])
              && (HasRoom(t, ttl, key, entry.lastSeen) ==> next[key] == entry)
  {
    AcceptsExactly(t, ttl, key, entry.lastSeen);
    assert key in t ==> HasRoom(t, ttl, key, entry.lastSeen);
    hide MadeRoom, PeerKeys, Remaining, Accepts, HasRoom;
    MadeRoomKeys(t, ttl, key, entry.lastSeen);
  }

  ghost predicate WithinCaps(t: Table) {
    && |t| <= MAX_REACHABILITY_ENTRIES
    && forall from :: |PeerKeys(t, from)| <= MAX_REACHABILITY_ENTRIES_PER_PEER
  }

  lemma FewerKeys(a: set<Key>, b: set<Key>)
    requires a <= b
    ensures |a| <= |b|
  {
    assert b == a + (b - a);
  }

  /** Both caps survive every report. */
  lemma RecordedKeepsCaps(t: Table, ttl: Option<u64>, key: Key, entry: Entry)
    requires WithinCaps(t)
    ensures WithinCaps(Recorded(t, ttl, key, entry))
  {
    var room := if key in t then t else MadeRoom(t, ttl, entry.lastSeen);
    var next := Recorded(t, ttl, key, entry);
    FewerKeys(room.Keys, t.Keys);
    assert next.Keys == if next == room then room.Keys else room.Keys + {key};
    forall from ensures |PeerKeys(next, from)| <= MAX_REACHABILITY_ENTRIES_PER_PEER {
      FewerKeys(PeerKeys(room, from), PeerKeys(t, from));
      assert from != key.from ==> PeerKeys(next, from) == PeerKeys(room, from);
      assert PeerKeys(next, key.from) == PeerKeys(room, key.from)
             || PeerKeys(next, key.from) == PeerKeys(room, key.from) + {key};
      assert key in t ==> PeerKeys(next, from) == PeerKeys(t, from);
    }
  }

  /** A peer whose whole quota has gone stale is still refused any new key,
      unless the table is full: only then is anything purged. */
  lemma StaleQuotaBlocks(t: Table, ttl: Option<u64>, key: Key, now: u64)
    requires WithinCaps(t) && key !in t
    requires |PeerKeys(t, key.from)| == MAX_REACHABILITY_ENTRIES_PER_PEER
    requires forall k :: k in PeerKeys(t, key.from) ==> Stale(t[k].lastSeen, ttl, now)
    ensures Accepts(t, ttl, key, now) <==> |t| == MAX_REACHABILITY_ENTRIES
  {
    var room := Purged(t, ttl, now);
    var mine := PeerKeys(t, key.from);
    FewerKeys(room.Keys, t.Keys - mine);
    assert PeerKeys(room, key.from) == {};
    assert mine <= t.Keys;
  }

  // ----- who may write what -----

  /** What a connection is told about a message it may not have applied. */
  datatype Verdict = Granted(m: RelayedMessage) | UnauthorizedNodeId | UnauthorizedRelayPeer | NotAWrite

  predicate AuthorizedFor(peer: Option<string>, claimed: string) {
    peer.Some? ==> peer.value == claimed
  }

  predicate AuthorizedRelayPeer(peer: Option<string>, relayPeers: set<string>) {
    peer.Some? ==> peer.value in relayPeers
  }

  predicate AuthorizedRelayedClaim(peer: Option<string>, client: Option<string>, claimed: string) {
    peer.Some? ==> client == Some(claimed)
  }

  function Judge(relayPeers: set<string>, peer: Option<string>, message: Message): Verdict {
    match message
    case FromHead(_, client, m) =>
      if !AuthorizedRelayPeer(peer, relayPeers) then UnauthorizedRelayPeer
      else if ClaimedNodeId(m).Some?
        && !AuthorizedRelayedClaim(peer, client, ClaimedNodeId(m).value) then UnauthorizedNodeId
      else Granted(m)
    case _ =>
      match TryRelay(message)
      case None => NotAWrite
      case Some(m) =>
        if ClaimedNodeId(m).Some? && !AuthorizedFor(peer, ClaimedNodeId(m).value) then UnauthorizedNodeId
        else Granted(m)
  }

  /** A write applied to the registry. */
  function Applied(s: State, m: RelayedMessage, now: u64): State {
    match m
    case RelayedHello(nodeId, roles, listenAddrs) => s.(nodes := s.nodes[nodeId := NodeEntry(listenAddrs, roles, now)])
    case RelayedProbe(_, _, _) => s
    case RelayedReport(from, target, protocol, reachable, rttMs, observedAddr) =>
      s.(reports := Recorded(s.reports, s.ttl, Key(from, target, protocol), Entry(reachable, rttMs, observedAddr, now)))
  }

  function Handled(s: State, peer: Option<string>, message: Message, now: u64): State {
    match Judge(s.relayPeers, peer, message)
    case Granted(m) => Applied(s, m, now)
    case _ => s
  }

  /** On authenticated connections, a configured relay peer speaking for a
      client gets exactly what the client would get speaking for itself. */
  lemma RelayedLikeDirect(s: State, head: string, source: string, client: string, m: RelayedMessage, now: u64)
    requires head in s.relayPeers
    ensures var relayed, direct := FromHead(source, Some(client), m), Direct(m);
            && Judge(s.relayPeers, Some(head), relayed) == Judge(s.relayPeers, Some(client), direct)
            && Handled(s, Some(head), relayed, now) == Handled(s, Some(client), direct, now)
  {
    assert TryRelay(Direct(m)) == Some(m);
  }

  /** A Head that authenticated nobody, or that is not a configured relay peer,
      cannot write at all over an authenticated connection. */
  lemma UnbackedRelayWritesNothing(s: State, head: string, source: string, client: Option<string>, m: RelayedMessage,
                                   now: u64)
    requires client.None? || head !in s.relayPeers
    ensures Handled(s, Some(head), FromHead(source, client, m), now) == s
  {
  }

  /** An authenticated peer writes nothing under any node id but its own, or, as
      a relay peer, its client's. All it can do to another node is make room in a
      full table, which costs that node only reports already stale. */
  lemma WritesStayInTheirLane(s: State, peer: string, message: Message, now: u64, id: string)
    requires id != peer
    requires !(peer in s.relayPeers && message.FromHead? && message.clientIdentity == Some(id))
    ensures var s' := Handled(s, Some(peer), message, now);
            && (id in s'.nodes <==> id in s.nodes)
            && (id in s.nodes ==> s'.nodes[id] == s.nodes[id])
            && (forall k :: k in s'.reports && k.from == id ==> k in s.reports && s'.reports[k] == s.reports[k])
            && forall k :: k in s.reports && k.from == id && k !in s'.reports ==>
                 |s.reports| >= MAX_REACHABILITY_ENTRIES && Stale(s.reports[k].lastSeen, s.ttl, now)
  {
  }

  // ----- whole runs -----

  datatype Event = Event(peer: Option<string>, message: Message, now: u64)

  /** Events as the server reads them: acceptable frames, on a clock that never
      runs backwards. */
  ghost predicate Timely(events: seq<Event>) {
    && (forall i :: 0 <= i < |events| ==> Readable(events[i].message))
    && (forall i, j :: 0 <= i <= j < |events| ==> events[i].now <= events[j].now)
  }

  function After(s: State, events: seq<Event>): State {
    if events == [] then s
    else
      var last := events[|events| - 1];
      Handled(After(s, events[..|events| - 1]), last.peer, last.message, last.now)
  }

  function Fresh(ttl: Option<u64>, relayPeers: set<string>): State {
    State(map[], map[], ttl, relayPeers)
  }

  ghost predicate ValidState(s: State) {
    && (forall id :: id in s.nodes ==> ValidHello(id, s.nodes[id].roles, s.nodes[id].listenAddrs))
    && (forall k :: k in s.reports ==> ValidReport(k.from, k.target, k.protocol, None))
    && WithinCaps(s.reports)
  }

  lemma GrantedIsValid(relayPeers: set<string>, peer: Option<string>, message: Message)
    requires ValidMessage(message) && Judge(relayPeers, peer, message).Granted?
    ensures ValidRelayed(Judge(relayPeers, peer, message).m)
  {
    match message
    case FromHead(_, _, _) =>
    case NodeHello(_, _, _) =>
    case ReachabilityProbe(_, _, _) =>
    case ReachabilityReport(_, _, _, _, _, _) =>
    case _ =>
  }

  lemma AppliedReportIsValid(s: State, m: RelayedMessage, now: u64)
    requires ValidState(s) && ValidRelayed(m) && m.RelayedReport?
    ensures ValidState(Applied(s, m, now))
  {
    RecordedKeepsCaps(s.reports, s.ttl, Key(m.from, m.target, m.protocol),
                      Entry(m.reachable, m.rttMs, m.observedAddr, now));
  }

  lemma HandledKeepsValid(s: State, peer: Option<string>, message: Message, now: u64)
    requires ValidState(s) && ValidMessage(message)
    ensures ValidState(Handled(s, peer, message, now))
  {
    hide WithinCaps, ValidHello, ValidReport;
    var verdict := Judge(s.relayPeers, peer, message);
    if verdict.Granted? {
      GrantedIsValid(s.relayPeers, peer, message);
      match verdict.m {
        case RelayedHello(_, _, _) =>
        case RelayedProbe(_, _, _) =>
        case RelayedReport(from, target, protocol, reachable, rttMs, observedAddr) =>
          AppliedReportIsValid(s, verdict.m, now);
      }
    }
  }

  /** Every reachable registry holds only what validation lets in, within both
      caps. */
  lemma {:induction false} ReachableIsValid(ttl: Option<u64>, relayPeers: set<string>, events: seq<Event>)
    requires forall i :: 0 <= i < |events| ==> Readable(events[i].message)
    ensures ValidState(After(Fresh(ttl, relayPeers), events))
  {
    hide ValidHello, ValidReport, Handled;
    if events == [] {
      assert PeerKeys(map[], "") == {};
      forall from: string ensures |PeerKeys(map[], from)| == 0 {
        assert PeerKeys(map[], from) == {};
      }
    } else {
      ReachableIsValid(ttl, relayPeers, events[..|events| - 1]);
      var last := events[|events| - 1];
      HandledKeepsValid(After(Fresh(ttl, relayPeers), events[..|events| - 1]), last.peer, last.message, last.now);
    }
  }

  // ----- what is live -----

  function ExpiredNodes(s: State, now: u64): set<string> {
    set id | id in s.nodes && Stale(s.nodes[id].lastSeen, s.ttl, now)
  }

  function LiveNodes(s: State, now: u64): set<string> {
    s.nodes.Keys - ExpiredNodes(s, now)
  }

  predicate Live(s: State, k: Key, entry: Entry, now: u64) {
    && k.from !in ExpiredNodes(s, now)
    && k.target !in ExpiredNodes(s, now)
    && !Stale(entry.lastSeen, s.ttl, now)
  }

  /** The reports a query at this time may answer with, drawn from a table. */
  function LiveReports(s: State, t: Table, now: u64): Table {
    map k | k in t && Live(s, k, t[k], now) :: t[k]
  }

  // ----- the purge cannot be seen -----

  /** The table the same events would leave if nothing were ever purged: the
      last accepted report for each key. */
  function Unpurged(s: State, events: seq<Event>): Table {
    if events == [] then s.reports
    else
      var front, last := events[..|events| - 1], events[|events| - 1];
      var before := After(s, front);
      match Judge(before.relayPeers, last.peer, last.message)
      case Granted(RelayedReport(from, target, protocol, reachable, rttMs, observedAddr)) =>
        var key := Key(from, target, protocol);
        if Accepts(before.reports, before.ttl, key, last.now)
        then Unpurged(s, front)[key := Entry(reachable, rttMs, observedAddr, last.now)]
        else Unpurged(s, front)
      case _ => Unpurged(s, front)
  }

  /** All that is missing from t has gone stale by now. */
  ghost predicate OnlyStaleMissing(t: Table, full: Table, ttl: Option<u64>, now: u64) {
    && (forall k :: k in t ==> k in full && t[k] == full[k])
    && (forall k :: k in full && k !in t ==> Stale(full[k].lastSeen, ttl, now))
  }

  lemma StaleForever(t: Table, full: Table, ttl: Option<u64>, now: u64, later: u64)
    requires OnlyStaleMissing(t, full, ttl, now) && now <= later
    ensures OnlyStaleMissing(t, full, ttl, later)
  {
  }

  lemma RecordedMissesOnlyStale(t: Table, full: Table, ttl: Option<u64>, key: Key, entry: Entry)
    requires OnlyStaleMissing(t, full, ttl, entry.lastSeen)
    ensures OnlyStaleMissing(Recorded(t, ttl, key, entry),
                             if Accepts(t, ttl, key, entry.lastSeen) then full[key := entry] else full,
                             ttl, entry.lastSeen)
  {
  }

  lemma NothingMissing(t: Table, ttl: Option<u64>, now: u64)
    ensures OnlyStaleMissing(t, t, ttl, now)
  {
  }

  lemma {:induction false} PurgeMissesOnlyStale(s: State, events: seq<Event>, now: u64)
    requires Timely(events) && (events != [] ==> events[|events| - 1].now <= now)
    ensures After(s, events).ttl == s.ttl && After(s, events).relayPeers == s.relayPeers
    ensures OnlyStaleMissing(After(s, events).reports, Unpurged(s, events), s.ttl, now)
  {
    hide Readable, Recorded, Accepts, OnlyStaleMissing;
    if events == [] {
      NothingMissing(s.reports, s.ttl, now);
    } else {
      var front, last := events[..|events| - 1], events[|events| - 1];
      PurgeMissesOnlyStale(s, front, last.now);
      var before := After(s, front);
      var verdict := Judge(before.relayPeers, last.peer, last.message);
      if verdict.Granted? && verdict.m.RelayedReport? {
        var m := verdict.m;
        RecordedMissesOnlyStale(before.reports, Unpurged(s, front), s.ttl, Key(m.from, m.target, m.protocol),
                                Entry(m.reachable, m.rttMs, m.observedAddr, last.now));
      }
      StaleForever(After(s, events).reports, Unpurged(s, events), s.ttl, last.now, now);
    }
  }

  /** Whatever was purged along the way, every query answers from the same live
      reports as a registry that never purges. */
  lemma PurgeIsUnobservable(s: State, events: seq<Event>, now: u64)
    requires Timely(events) && (events != [] ==> events[|events| - 1].now <= now)
    ensures var s' := After(s, events);
            LiveReports(s', s'.reports, now) == LiveReports(s', Unpurged(s, events), now)
  {
    hide Timely, After, Unpurged;
    PurgeMissesOnlyStale(s, events, now);
  }
}
