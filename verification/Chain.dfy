/** Source-routed relay chains: what each relay checks, what it answers, and
    how a chain comes up or fails, hop by hop. */
module Chain {
  import opened Common
  import opened Wire
  import P = Permits

  datatype RelayConfig = RelayConfig(nodeId: string, maxHops: nat, allowPeers: seq<string>, chains: P.Caps)

  const READY := "tunnel_ready"
  const MISADDRESSED := "tunnel_misaddressed"
  const TOO_LONG := "tunnel_too_long"
  const PATH_LOOPS := "tunnel_path_loops"
  const UNREACHABLE := "tunnel_hop_unreachable"
  const NO_FORWARDING := "relay_forwarding_unavailable"
  const EXPECTED_OPEN := "expected_tunnel_open"
  const FORBIDDEN := "relay_forbidden"
  const BUSY := "relay_busy"
  const UNRECOGNISED := "relay_downstream_status_unrecognised"

  /** The closed vocabulary of ack statuses. */
  predicate Known(status: string) {
    || status == READY || status == MISADDRESSED || status == TOO_LONG || status == PATH_LOOPS
    || status == UNREACHABLE || status == NO_FORWARDING || status == EXPECTED_OPEN
    || status == FORBIDDEN || status == BUSY || status == UNRECOGNISED
  }

  lemma KnownStatuses()
    ensures Known(READY) && Known(UNRECOGNISED) && UNRECOGNISED != READY
    ensures Known(MISADDRESSED) && MISADDRESSED != READY
    ensures Known(TOO_LONG) && TOO_LONG != READY
    ensures Known(PATH_LOOPS) && PATH_LOOPS != READY
    ensures Known(UNREACHABLE) && UNREACHABLE != READY
    ensures Known(EXPECTED_OPEN) && EXPECTED_OPEN != READY
    ensures Known(FORBIDDEN) && FORBIDDEN != READY
    ensures Known(BUSY) && BUSY != READY
  {
    assert |READY| == 12 && |UNRECOGNISED| != 12 && |MISADDRESSED| != 12 && |TOO_LONG| != 12 && |PATH_LOOPS| != 12;
    assert |UNREACHABLE| != 12 && |EXPECTED_OPEN| != 12 && |FORBIDDEN| != 12 && |BUSY| != 12;
  }

  /** The vocabulary, word by word. */
  lemma Vocabulary(status: string)
    ensures Known(status) <==>
            status in ["tunnel_ready", "tunnel_misaddressed", "tunnel_too_long", "tunnel_path_loops",
                       "tunnel_hop_unreachable", "relay_forwarding_unavailable", "expected_tunnel_open",
                       "relay_forbidden", "relay_busy", "relay_downstream_status_unrecognised"]
  {
  }

  // ----- what one relay checks -----

  predicate Admits(config: RelayConfig, peer: string) {
    config.allowPeers == [] || peer in config.allowPeers
  }

  lemma RefusalsDiffer()
    ensures TOO_LONG != MISADDRESSED && MISADDRESSED != PATH_LOOPS && PATH_LOOPS != TOO_LONG
  {
    assert |TOO_LONG| == 15 && |MISADDRESSED| == 19 && |PATH_LOOPS| == 17;
  }

  ghost predicate DistinctIds(hops: seq<RouteHop>) {
    forall i, j :: 0 <= i < j < |hops| ==> hops[i].nodeId != hops[j].nodeId
  }

  /** Why a hop list is refused, if it is: its length first, then whom it
      names, then whether it loops. */
  ghost function Refusal(hops: seq<RouteHop>, config: RelayConfig): Option<string> {
    if |hops| > config.maxHops then Some(TOO_LONG)
    else if hops == [] || hops[0].nodeId != config.nodeId then Some(MISADDRESSED)
    else if !DistinctIds(hops) then Some(PATH_LOOPS)
    else None
  }

  method Validate(hops: seq<RouteHop>, config: RelayConfig) returns (refusal: Option<string>)
    ensures refusal == Refusal(hops, config)
    ensures refusal == Some("tunnel_too_long") <==> |hops| > config.maxHops
    ensures refusal == Some("tunnel_misaddressed") <==>
            |hops| <= config.maxHops && (hops == [] || hops[0].nodeId != config.nodeId)
    ensures refusal == Some("tunnel_path_loops") <==>
            && 0 < |hops| <= config.maxHops && hops[0].nodeId == config.nodeId
            && exists i, j :: 0 <= i < j < |hops| && hops[i].nodeId == hops[j].nodeId
    ensures refusal.None? <==>
            && 0 < |hops| <= config.maxHops && hops[0].nodeId == config.nodeId
            && forall i, j :: 0 <= i < j < |hops| ==> hops[i].nodeId != hops[j].nodeId
  {
    RefusalsDiffer();
    if |hops| > config.maxHops {
      return Some(TOO_LONG);
    }
    if |hops| == 0 {
      return Some(MISADDRESSED);
    }
    if hops[0].nodeId != config.nodeId {
      return Some(MISADDRESSED);
    }
    var seen: set<string> := {};
    for i := 0 to |hops|
      invariant forall id :: id in seen <==> exists j :: 0 <= j < i && hops[j].nodeId == id
      invariant forall j, k :: 0 <= j < k < i ==> hops[j].nodeId != hops[k].nodeId
    {
      if hops[i].nodeId in seen {
        return Some(PATH_LOOPS);
      }
      seen := seen + {hops[i].nodeId};
    }
    return None;
  }

  /** What an honest relay passes upstream for whatever came back. */
  function Sanitised(reply: Message): string {
    if reply.Ack? && Known(reply.status) then reply.status else UNRECOGNISED
  }

  lemma SanitisedIsKnown(reply: Message)
    ensures Known(Sanitised(reply))
    ensures Sanitised(Ack(Sanitised(reply))) == Sanitised(reply)
    ensures Sanitised(reply) == READY <==> reply == Ack(READY)
  {
    hide Known;
    KnownStatuses();
  }

  /** A tail of a list that passed a relay's checks is refused by the next one
      only for that relay's own length limit, or for naming someone else. */
  lemma TailRefusal(hops: seq<RouteHop>, config: RelayConfig, next: RelayConfig)
    requires Refusal(hops, config).None? && |hops| > 1
    ensures Refusal(hops[1..], next) ==
            if |hops| - 1 > next.maxHops then Some(TOO_LONG)
            else if hops[1].nodeId != next.nodeId then Some(MISADDRESSED)
            else None
  {
  }

  // ----- one relay's handshake -----

  /** What a relay cannot decide for itself while it handles one connection: its
      chain counters when it asks for a slot, whether its own upstream can be
      reached and the originator then completes the end-to-end session, whether
      the next hop can be reached, and what the next hop answers. */
  datatype Outside = Outside(permits: P.Tally<string>, upstreamUp: bool, sessionUp: bool, nextUp: bool,
                             nextReply: Message)

  /** Which message goes downstream, which ack goes upstream, and whether the
      two sides end up spliced. */
  datatype Handled = Handled(forwarded: Option<Message>, status: string, spliced: bool)

  ghost function HandshakeOf(config: RelayConfig, peer: string, frame: Message, outside: Outside): Handled {
    if !frame.TunnelOpen? then Handled(None, EXPECTED_OPEN, false)
    else if !Admits(config, peer) then Handled(None, FORBIDDEN, false)
    else if !P.Grants(outside.permits, config.chains, peer) then Handled(None, BUSY, false)
    else if Refusal(frame.hops, config).Some? then Handled(None, Refusal(frame.hops, config).value, false)
    else if |frame.hops| == 1 then
      if outside.upstreamUp then Handled(None, READY, outside.sessionUp) else Handled(None, UNREACHABLE, false)
    else if !outside.nextUp then Handled(None, UNREACHABLE, false)
    else
      var status := Sanitised(outside.nextReply);
      Handled(Some(TunnelOpen(frame.hops[1..])), status, status == READY)
  }

  // ----- in what order it acts -----

  /** What a relay does to the world while it handles one connection. */
  datatype Effect =
    | FrameRead
    | SlotTaken
    | UpstreamReached
    | NextReached(hop: RouteHop)
    | TailSent(message: Message)
    | ReplyRead(reply: Message)
    | Acked(status: string)
    | SessionAccepted

  function Acks(trace: seq<Effect>): seq<string> {
    if trace == [] then []
    else
      var last := trace[|trace| - 1];
      Acks(trace[..|trace| - 1]) + (if last.Acked? then [last.status] else [])
  }

  /** The tail of a frame that opens a chain of several hops. */
  function TailOf(frame: Message): Option<Message> {
    if frame.TunnelOpen? && |frame.hops| > 1 then Some(TunnelOpen(frame.hops[1..])) else None
  }

  ghost predicate Passes(config: RelayConfig, peer: string, frame: Message) {
    frame.TunnelOpen? && Admits(config, peer) && Refusal(frame.hops, config).None?
  }

  /** What must have come before each effect. The frame is heard out before
      anything else, and no slot is taken for a peer not admitted. Nothing is
      dialed without a slot, nor for a hop list that fails a check. There is one
      ack: ready only once the relay's own upstream was reached or a ready reply
      was read; after the tail was sent, only what the reply read comes to. The
      end-to-end session waits for the ready ack. */
  ghost predicate Allowed(config: RelayConfig, peer: string, frame: Message, before: seq<Effect>, effect: Effect) {
    match effect
    case FrameRead => before == []
    case SlotTaken => FrameRead in before && frame.TunnelOpen? && Admits(config, peer)
    case UpstreamReached => SlotTaken in before && Passes(config, peer, frame) && |frame.hops| == 1
    case NextReached(hop) =>
      SlotTaken in before && Passes(config, peer, frame) && |frame.hops| > 1 && hop == frame.hops[1]
    case TailSent(message) => TailOf(frame) == Some(message) && NextReached(frame.hops[1]) in before
    case ReplyRead(_) => TailOf(frame).Some? && TailSent(TailOf(frame).value) in before
    case Acked(status) =>
      && FrameRead in before && Acks(before) == []
      && (status == READY ==> UpstreamReached in before || ReplyRead(Ack(READY)) in before)
      && (TailOf(frame).Some? && TailSent(TailOf(frame).value) in before ==>
            exists reply :: ReplyRead(reply) in before && status == Sanitised(reply))
    case SessionAccepted => UpstreamReached in before && Acked(READY) in before
  }

  ghost predicate Ordered(config: RelayConfig, peer: string, frame: Message, trace: seq<Effect>) {
    forall j :: 0 <= j < |trace| ==> Allowed(config, peer, frame, trace[..j], trace[j])
  }

  lemma NothingYet(config: RelayConfig, peer: string, frame: Message)
    ensures Ordered(config, peer, frame, [])
  {
  }

  lemma Then(config: RelayConfig, peer: string, frame: Message, trace: seq<Effect>, effect: Effect)
    requires Ordered(config, peer, frame, trace) && Allowed(config, peer, frame, trace, effect)
    ensures Ordered(config, peer, frame, trace + [effect])
    ensures Acks(trace + [effect]) == Acks(trace) + (if effect.Acked? then [effect.status] else [])
  {
    hide Allowed;
    var more := trace + [effect];
    assert more[..|trace|] == trace;
    forall j | 0 <= j < |more| ensures Allowed(config, peer, frame, more[..j], more[j]) {
      if j < |trace| {
        assert more[..j] == trace[..j];
      }
    }
  }

  lemma HappenedBefore(config: RelayConfig, peer: string, frame: Message, trace: seq<Effect>, effect: Effect)
    returns (i: nat)
    requires Ordered(config, peer, frame, trace) && effect in trace
    ensures i < |trace| && trace[i] == effect && Allowed(config, peer, frame, trace[..i], effect)
  {
    hide Allowed;
    i :| 0 <= i < |trace| && trace[i] == effect;
  }

  lemma Prefix(config: RelayConfig, peer: string, frame: Message, trace: seq<Effect>, n: nat)
    requires Ordered(config, peer, frame, trace) && n <= |trace|
    ensures Ordered(config, peer, frame, trace[..n])
  {
    hide Allowed;
    forall j | 0 <= j < n ensures Allowed(config, peer, frame, trace[..n][..j], trace[..n][j]) {
      assert trace[..n][..j] == trace[..j];
    }
  }

  lemma AllowedAt(config: RelayConfig, peer: string, frame: Message, trace: seq<Effect>, j: nat)
    requires Ordered(config, peer, frame, trace) && j < |trace|
    ensures Allowed(config, peer, frame, trace[..j], trace[j])
  {
  }

  /** Everything behind a ready ack, step by step: the frame, the checks and the
      slot, then its own upstream for a last hop, or the next hop, the tail and
      the reply for any other. */
  lemma BehindReady(config: RelayConfig, peer: string, frame: Message, trace: seq<Effect>, j: nat)
    requires Ordered(config, peer, frame, trace) && j < |trace| && trace[j] == Acked(READY)
    ensures Passes(config, peer, frame) && SlotTaken in trace[..j]
    ensures |frame.hops| == 1 ==> UpstreamReached in trace[..j]
    ensures |frame.hops| > 1 ==>
              exists a, b, c :: 0 <= a < b < c < j && trace[a] == NextReached(frame.hops[1])
                                && trace[b] == TailSent(TunnelOpen(frame.hops[1..]))
                                && trace[c] == ReplyRead(Ack(READY))
  {
    hide Refusal, Admits, Sanitised, Ordered;
    assert Allowed(config, peer, frame, trace[..j], trace[j]) by { AllowedAt(config, peer, frame, trace, j); }
    Prefix(config, peer, frame, trace, j);
    if UpstreamReached in trace[..j] {
      var i := HappenedBefore(config, peer, frame, trace[..j], UpstreamReached);
      assert trace[..j][..i] <= trace[..j];
    } else {
      var c := HappenedBefore(config, peer, frame, trace[..j], ReplyRead(Ack(READY)));
      Prefix(config, peer, frame, trace[..j], c);
      var b := HappenedBefore(config, peer, frame, trace[..j][..c], TailSent(TunnelOpen(frame.hops[1..])));
      Prefix(config, peer, frame, trace[..j][..c], b);
      var a := HappenedBefore(config, peer, frame, trace[..j][..c][..b], NextReached(frame.hops[1]));
      assert SlotTaken in trace[..j][..c][..b][..a];
      assert trace[a] == NextReached(frame.hops[1]) && trace[b] == TailSent(TunnelOpen(frame.hops[1..]))
             && trace[c] == ReplyRead(Ack(READY));
    }
  }

  lemma HeardInOrder(config: RelayConfig, peer: string, frame: Message)
    ensures Ordered(config, peer, frame, [FrameRead]) && Acks([FrameRead]) == []
    ensures frame.TunnelOpen? && Admits(config, peer) ==>
              Ordered(config, peer, frame, [FrameRead, SlotTaken]) && Acks([FrameRead, SlotTaken]) == []
  {
    hide Ordered, Admits;
    NothingYet(config, peer, frame);
    Then(config, peer, frame, [], FrameRead);
    assert [] + [FrameRead] == [FrameRead];
    if frame.TunnelOpen? && Admits(config, peer) {
      Then(config, peer, frame, [FrameRead], SlotTaken);
      assert [FrameRead] + [SlotTaken] == [FrameRead, SlotTaken];
    }
  }

  lemma RefusedInOrder(config: RelayConfig, peer: string, frame: Message, trace: seq<Effect>, status: string)
    requires Ordered(config, peer, frame, trace) && Acks(trace) == []
    requires trace == [FrameRead] || trace == [FrameRead, SlotTaken]
    requires status != READY
    ensures Ordered(config, peer, frame, trace + [Acked(status)]) && Acks(trace + [Acked(status)]) == [status]
  {
    hide Ordered, Acks, Sanitised, Admits, Refusal;
    Then(config, peer, frame, trace, Acked(status));
  }

  lemma ReadiedInOrder(config: RelayConfig, peer: string, frame: Message)
    requires Passes(config, peer, frame) && |frame.hops| == 1
    ensures var trace := [FrameRead, SlotTaken, UpstreamReached, Acked(READY)];
            Ordered(config, peer, frame, trace) && Acks(trace) == [READY]
  {
    hide Ordered, Acks, Sanitised, Admits, Refusal;
    HeardInOrder(config, peer, frame);
    Then(config, peer, frame, [FrameRead, SlotTaken], UpstreamReached);
    assert [FrameRead, SlotTaken] + [UpstreamReached] == [FrameRead, SlotTaken, UpstreamReached];
    Then(config, peer, frame, [FrameRead, SlotTaken, UpstreamReached], Acked(READY));
    assert [FrameRead, SlotTaken, UpstreamReached] + [Acked(READY)]
           == [FrameRead, SlotTaken, UpstreamReached, Acked(READY)];
  }

  lemma SessionInOrder(config: RelayConfig, peer: string, frame: Message)
    requires Passes(config, peer, frame) && |frame.hops| == 1
    ensures var trace := [FrameRead, SlotTaken, UpstreamReached, Acked(READY), SessionAccepted];
            Ordered(config, peer, frame, trace) && Acks(trace) == [READY]
  {
    hide Ordered, Acks, Passes;
    ReadiedInOrder(config, peer, frame);
    var trace := [FrameRead, SlotTaken, UpstreamReached, Acked(READY)];
    Then(config, peer, frame, trace, SessionAccepted);
    assert trace + [SessionAccepted] == [FrameRead, SlotTaken, UpstreamReached, Acked(READY), SessionAccepted];
  }

  lemma SentInOrder(config: RelayConfig, peer: string, frame: Message)
    requires Passes(config, peer, frame) && |frame.hops| > 1
    ensures var trace := [FrameRead, SlotTaken, NextReached(frame.hops[1]), TailSent(TunnelOpen(frame.hops[1..]))];
            Ordered(config, peer, frame, trace) && Acks(trace) == []
  {
    hide Ordered, Acks, Sanitised, Admits, Refusal;
    HeardInOrder(config, peer, frame);
    var next, sent := NextReached(frame.hops[1]), TailSent(TunnelOpen(frame.hops[1..]));
    Then(config, peer, frame, [FrameRead, SlotTaken], next);
    assert [FrameRead, SlotTaken] + [next] == [FrameRead, SlotTaken, next];
    Then(config, peer, frame, [FrameRead, SlotTaken, next], sent);
    assert [FrameRead, SlotTaken, next] + [sent] == [FrameRead, SlotTaken, next, sent];
  }

  lemma RelayedInOrder(config: RelayConfig, peer: string, frame: Message, reply: Message)
    requires Passes(config, peer, frame) && |frame.hops| > 1
    ensures var trace := [FrameRead, SlotTaken, NextReached(frame.hops[1]), TailSent(TunnelOpen(frame.hops[1..])),
                          ReplyRead(reply), Acked(Sanitised(reply))];
            Ordered(config, peer, frame, trace) && Acks(trace) == [Sanitised(reply)]
  {
    hide Ordered, Acks, Sanitised, Admits, Refusal;
    SentInOrder(config, peer, frame);
    SanitisedIsKnown(reply);
    var next, sent := NextReached(frame.hops[1]), TailSent(TunnelOpen(frame.hops[1..]));
    var trace := [FrameRead, SlotTaken, next, sent];
    Then(config, peer, frame, trace, ReplyRead(reply));
    var more := [FrameRead, SlotTaken, next, sent, ReplyRead(reply)];
    assert trace + [ReplyRead(reply)] == more;
    assert more[4] == ReplyRead(reply);
    Then(config, peer, frame, more, Acked(Sanitised(reply)));
    assert more + [Acked(Sanitised(reply))]
           == [FrameRead, SlotTaken, next, sent, ReplyRead(reply), Acked(Sanitised(reply))];
  }

  // ----- the procedure -----

  /** A last hop: its own upstream first, then the ack, then the session the
      originator only starts on that ack. */
  method Terminate(config: RelayConfig, peer: string, frame: Message, outside: Outside, trace: seq<Effect>)
    returns (status: string, spliced: bool, after: seq<Effect>)
    requires Passes(config, peer, frame) && |frame.hops| == 1
    requires Ordered(config, peer, frame, trace) && trace == [FrameRead, SlotTaken] && Acks(trace) == []
    ensures Ordered(config, peer, frame, after) && trace <= after && Acks(after) == [status]
    ensures UpstreamReached in after <==> outside.upstreamUp
    ensures status == if UpstreamReached in after then READY else UNREACHABLE
    ensures spliced <==> SessionAccepted in after
    ensures SessionAccepted in after <==> outside.upstreamUp && outside.sessionUp
  {
    hide Ordered, Acks, Admits, Refusal;
    KnownStatuses();
    after := trace;
    if !outside.upstreamUp {
      RefusedInOrder(config, peer, frame, trace, UNREACHABLE);
      return UNREACHABLE, false, after + [Acked(UNREACHABLE)];
    }
    after := after + [UpstreamReached];
    after := after + [Acked(READY)];
    if !outside.sessionUp {
      ReadiedInOrder(config, peer, frame);
      assert after == [FrameRead, SlotTaken, UpstreamReached, Acked(READY)];
      return READY, false, after;
    }
    after := after + [SessionAccepted];
    SessionInOrder(config, peer, frame);
    assert after == [FrameRead, SlotTaken, UpstreamReached, Acked(READY), SessionAccepted];
    return READY, true, after;
  }

  lemma SanitisedIs(reply: Message)
    ensures Sanitised(reply) == if reply.Ack? && Known(reply.status) then reply.status else UNRECOGNISED
  {
  }

  /** Any other hop: dials the next one, passes the tail on, and relays back what
      its answer comes to. */
  method Forward(config: RelayConfig, peer: string, frame: Message, outside: Outside, trace: seq<Effect>)
    returns (status: string, spliced: bool, after: seq<Effect>)
    requires Passes(config, peer, frame) && |frame.hops| > 1
    requires Ordered(config, peer, frame, trace) && trace == [FrameRead, SlotTaken] && Acks(trace) == []
    ensures Ordered(config, peer, frame, after) && trace <= after && Acks(after) == [status]
    ensures NextReached(frame.hops[1]) in after <==> outside.nextUp
    ensures forall message :: TailSent(message) in after <==> outside.nextUp && message == TunnelOpen(frame.hops[1..])
    ensures forall reply :: ReplyRead(reply) in after <==> outside.nextUp && reply == outside.nextReply
    ensures status == if outside.nextUp then Sanitised(outside.nextReply) else UNREACHABLE
    ensures spliced <==> ReplyRead(Ack(READY)) in after
  {
    hide Ordered, Acks, Admits, Refusal, Known, Sanitised;
    KnownStatuses();
    after := trace;
    if !outside.nextUp {
      RefusedInOrder(config, peer, frame, trace, UNREACHABLE);
      return UNREACHABLE, false, after + [Acked(UNREACHABLE)];
    }
    after := after + [NextReached(frame.hops[1])];
    after := after + [TailSent(TunnelOpen(frame.hops[1..]))];
    after := after + [ReplyRead(outside.nextReply)];
    match outside.nextReply {
      case Ack(s) =>
        status := if Known(s) then s else UNRECOGNISED;
      case _ =>
        status := UNRECOGNISED;
    }
    SanitisedIs(outside.nextReply);
    after := after + [Acked(status)];
    SanitisedIsKnown(outside.nextReply);
    RelayedInOrder(config, peer, frame, outside.nextReply);
    assert after == [FrameRead, SlotTaken, NextReached(frame.hops[1]), TailSent(TunnelOpen(frame.hops[1..])),
                     ReplyRead(outside.nextReply), Acked(status)];
    spliced := status == READY;
  }

  lemma NoTail(config: RelayConfig, peer: string, frame: Message, trace: seq<Effect>)
    requires Ordered(config, peer, frame, trace) && TailOf(frame).None?
    ensures forall message :: TailSent(message) !in trace
  {
    forall message ensures TailSent(message) !in trace {
      if TailSent(message) in trace {
        var i := HappenedBefore(config, peer, frame, trace, TailSent(message));
      }
    }
  }

  lemma RefusalIsKnown(hops: seq<RouteHop>, config: RelayConfig)
    ensures Refusal(hops, config).Some? ==> Known(Refusal(hops, config).value) && Refusal(hops, config).value != READY
  {
    hide Known, DistinctIds;
    KnownStatuses();
  }

  lemma StatusesDiffer()
    ensures |READY| == 12 && |EXPECTED_OPEN| == 20 && |FORBIDDEN| == 15 && |BUSY| == 10 && |UNREACHABLE| == 22
    ensures |TOO_LONG| == 15 && |MISADDRESSED| == 19 && |PATH_LOOPS| == 17 && |UNRECOGNISED| == 36
    ensures FORBIDDEN != TOO_LONG
  {
    assert FORBIDDEN[0] != TOO_LONG[0];
  }

  /** A peer not on a list there is gets nothing but a refusal that says so; and
      whoever is told so is such a peer, or was passed on a later hop's word. */
  lemma WhoIsForbidden(config: RelayConfig, peer: string, frame: Message, outside: Outside)
    ensures var h := HandshakeOf(config, peer, frame, outside);
            && (frame.TunnelOpen? && config.allowPeers != [] && peer !in config.allowPeers ==>
                  h == Handled(None, "relay_forbidden", false))
            && (h.status == "relay_forbidden" <==>
                || (frame.TunnelOpen? && config.allowPeers != [] && peer !in config.allowPeers)
                || (h.forwarded.Some? && outside.nextReply == Ack("relay_forbidden")))
            && (h.status == "tunnel_ready" ==> config.allowPeers == [] || peer in config.allowPeers)
  {
    hide Known, DistinctIds, Sanitised, P.Grants;
    StatusesDiffer();
    SanitisedIs(outside.nextReply);
    Vocabulary("relay_forbidden");
  }

  method Handshake(config: RelayConfig, peer: string, frame: Message, outside: Outside)
    returns (handled: Handled, trace: seq<Effect>)
    ensures handled == HandshakeOf(config, peer, frame, outside)
    ensures Ordered(config, peer, frame, trace) && Acks(trace) == [handled.status]
    ensures SlotTaken in trace <==>
              frame.TunnelOpen? && Admits(config, peer) && P.Grants(outside.permits, config.chains, peer)
    ensures forall message :: TailSent(message) in trace <==> handled.forwarded == Some(message)
    ensures SlotTaken in trace ==> config.allowPeers == [] || peer in config.allowPeers
    ensures handled.status == "tunnel_ready" ==> config.allowPeers == [] || peer in config.allowPeers
    ensures frame.TunnelOpen? && config.allowPeers != [] && peer !in config.allowPeers ==>
              handled == Handled(None, "relay_forbidden", false)
    ensures handled.status == "relay_forbidden" <==>
            || (frame.TunnelOpen? && config.allowPeers != [] && peer !in config.allowPeers)
            || (handled.forwarded.Some? && outside.nextReply == Ack("relay_forbidden"))
  {
    WhoIsForbidden(config, peer, frame, outside);
    hide Ordered, Acks, Known, Sanitised, DistinctIds;
    HeardInOrder(config, peer, frame);
    KnownStatuses();
    trace := [FrameRead];
    if !frame.TunnelOpen? {
      RefusedInOrder(config, peer, frame, trace, EXPECTED_OPEN);
      return Handled(None, EXPECTED_OPEN, false), trace + [Acked(EXPECTED_OPEN)];
    }
    var hops := frame.hops;
    if !Admits(config, peer) {
      RefusedInOrder(config, peer, frame, trace, FORBIDDEN);
      return Handled(None, FORBIDDEN, false), trace + [Acked(FORBIDDEN)];
    }
    if !P.Grants(outside.permits, config.chains, peer) {
      RefusedInOrder(config, peer, frame, trace, BUSY);
      return Handled(None, BUSY, false), trace + [Acked(BUSY)];
    }
    trace := trace + [SlotTaken];
    assert trace == [FrameRead, SlotTaken];
    var refusal := Validate(hops, config);
    if refusal.Some? {
      RefusalIsKnown(hops, config);
      RefusedInOrder(config, peer, frame, trace, refusal.value);
      return Handled(None, refusal.value, false), trace + [Acked(refusal.value)];
    }
    var status, spliced;
    if |hops| == 1 {
      status, spliced, trace := Terminate(config, peer, frame, outside, trace);
      NoTail(config, peer, frame, trace);
      handled := Handled(None, status, spliced);
    } else {
      status, spliced, trace := Forward(config, peer, frame, outside, trace);
      SanitisedIsKnown(outside.nextReply);
      handled := Handled(if outside.nextUp then Some(TunnelOpen(hops[1..])) else None, status, spliced);
    }
    assert trace[1] == SlotTaken;
  }

  /** A relay only ever answers from the closed vocabulary. It answers ready
      exactly when every check passed and its own upstream was reached, or the
      next hop answered ready; and it splices exactly then, save that a last hop
      still waits for the end-to-end session. */
  lemma HandshakeIsGuarded(config: RelayConfig, peer: string, frame: Message, outside: Outside)
    ensures var h := HandshakeOf(config, peer, frame, outside);
            && Known(h.status)
            && (h.status == READY <==>
                  && Passes(config, peer, frame) && P.Grants(outside.permits, config.chains, peer)
                  && (if |frame.hops| == 1 then outside.upstreamUp
                      else outside.nextUp && outside.nextReply == Ack(READY)))
            && (h.spliced <==> h.status == READY && (|frame.hops| == 1 ==> outside.sessionUp))
            && (h.forwarded.Some? ==> h.forwarded == TailOf(frame))
            && (h.status == READY || h.forwarded.Some? ==> config.allowPeers == [] || peer in config.allowPeers)
  {
    hide Known, Sanitised;
    SanitisedIsKnown(outside.nextReply);
    KnownStatuses();
  }

  /** The relay has a slot for this peer. */
  predicate Free(config: RelayConfig, peer: string, permits: P.Tally<string>) {
    && permits.total < config.chains.total
    && (if peer in permits.counts then permits.counts[peer] else 0) < config.chains.perKey
  }

  /** What each frame comes to, check by check, in the words that go back. */
  lemma HandshakeOutright(config: RelayConfig, peer: string, frame: Message, outside: Outside)
    ensures var h := HandshakeOf(config, peer, frame, outside);
            && (!frame.TunnelOpen? ==> h == Handled(None, "expected_tunnel_open", false))
            && (frame.TunnelOpen? && (config.allowPeers == [] || peer in config.allowPeers) ==>
                  var hops := frame.hops;
                  && (!Free(config, peer, outside.permits) ==> h == Handled(None, "relay_busy", false))
                  && (Free(config, peer, outside.permits) ==>
                        if |hops| > config.maxHops then h == Handled(None, "tunnel_too_long", false)
                        else if hops == []
                          || hops[0].nodeId != config.nodeId then h == Handled(None, "tunnel_misaddressed", false)
                        else if exists i, j :: 0 <= i < j < |hops| && hops[i].nodeId == hops[j].nodeId then
                          h == Handled(None, "tunnel_path_loops", false)
                        else if |hops| == 1 then
                          h == (if outside.upstreamUp then Handled(None, "tunnel_ready", outside.sessionUp)
                                else Handled(None, "tunnel_hop_unreachable", false))
                        else if !outside.nextUp then h == Handled(None, "tunnel_hop_unreachable", false)
                        else
                          && h.forwarded == Some(TunnelOpen(hops[1..]))
                          && (h.spliced <==> outside.nextReply == Ack("tunnel_ready"))
                          && (outside.nextReply.Ack? && Known(outside.nextReply.status) ==>
                                h.status == outside.nextReply.status)
                          && (!(outside.nextReply.Ack? && Known(outside.nextReply.status)) ==>
                                h.status == "relay_downstream_status_unrecognised")))
  {
    hide Known;
    SanitisedIsKnown(outside.nextReply);
  }
}
