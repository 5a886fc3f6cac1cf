/** A chain coming up as a protocol: an originator, honest relays, at most one
    misbehaving one at the far end, and a frame in each direction per hop. */
module ChainRun {
  import opened Common
  import opened Wire
  import opened Chain
  import P = Permits

  /** The nodes a dial can reach, by the id their certificate proves: honest
      relays, or anyone else. */
  datatype Relay = Honest(config: RelayConfig) | Misbehaving

  datatype Plan = Plan(originator: string, route: seq<RouteHop>, relays: map<string, Relay>)

  /** One relay's progress. It has read a frame, or also passed every check and
      taken a slot, or also reached its own upstream or passed the tail on; or it
      has answered; or it went away without answering. */
  datatype Stage = Opened | Ready | Reached | Waiting | Answered(reply: Message) | Dead

  /** One hop of the chain so far: who it is, who opened it, with what hop list,
      how far it got, and the chain counters it found when it took its slot. */
  datatype Hop = Hop(id: string, peer: string, tail: seq<RouteHop>, stage: Stage, slot: Option<P.Tally<string>>)

  datatype State = State(hops: seq<Hop>, heard: Option<Message>)

  /** The environment decides which step comes next, what else a relay carries
      when it judges, and how dials, misbehaviour and timeouts turn out. */
  datatype Step =
    | Open
    | Judge(i: nat, permits: P.Tally<string>)
    | Connect(i: nat, up: bool)
    | AckReady(i: nat)
    | PassOn(i: nat, up: bool)
    | Misanswer(i: nat, reply: Message)
    | RelayBack(i: nat)
    | Die(i: nat)
    | Hear

  function IsHonest(plan: Plan, id: string): bool {
    id in plan.relays && plan.relays[id].Honest?
  }

  function ConfigOf(plan: Plan, id: string): RelayConfig
    requires IsHonest(plan, id)
  {
    plan.relays[id].config
  }

  /** An honest relay in this place, at this stage. */
  predicate HonestAt(plan: Plan, s: State, i: nat, stage: Stage) {
    i < |s.hops| && IsHonest(plan, s.hops[i].id) && s.hops[i].stage == stage
  }

  predicate Enabled(plan: Plan, s: State, step: Step) {
    match step
    case Open =>
      s.hops == [] && plan.route != [] && plan.route[0].nodeId in plan.relays && Readable(TunnelOpen(plan.route))
    case Judge(i, _) => HonestAt(plan, s, i, Opened)
    case Connect(i, _) => HonestAt(plan, s, i, Ready) && |s.hops[i].tail| == 1
    case AckReady(i) => HonestAt(plan, s, i, Reached)
    case PassOn(i, up) =>
      && HonestAt(plan, s, i, Ready) && |s.hops[i].tail| > 1
      && (up ==> s.hops[i].tail[1].nodeId in plan.relays && i == |s.hops| - 1)
    case Misanswer(i, reply) =>
      i < |s.hops| && !IsHonest(plan, s.hops[i].id) && s.hops[i].stage.Opened? && Readable(reply)
    case RelayBack(i) => HonestAt(plan, s, i, Waiting) && i + 1 < |s.hops| && s.hops[i + 1].stage.Answered?
    case Die(i) => i < |s.hops| && !s.hops[i].stage.Answered? && !s.hops[i].stage.Dead?
    case Hear => s.heard.None? && s.hops != [] && s.hops[0].stage.Answered?
  }

  function Answer(hop: Hop, status: string): Hop {
    hop.(stage := Answered(Ack(status)))
  }

  /** The relay has its frame: it refuses, or takes its slot and goes on. */
  ghost function Judged(config: RelayConfig, hop: Hop, permits: P.Tally<string>): Hop {
    if !Admits(config, hop.peer) then Answer(hop, FORBIDDEN)
    else if !P.Grants(permits, config.chains, hop.peer) then Answer(hop, BUSY)
    else if Refusal(hop.tail, config).Some? then Answer(hop, Refusal(hop.tail, config).value)
    else hop.(stage := Ready, slot := Some(permits))
  }

  function FirstHop(plan: Plan): Hop
    requires plan.route != []
  {
    Hop(plan.route[0].nodeId, plan.originator, plan.route, Opened, None)
  }

  function NextHop(hop: Hop): Hop
    requires |hop.tail| > 1
  {
    Hop(hop.tail[1].nodeId, hop.id, hop.tail[1..], Opened, None)
  }

  ghost function Next(plan: Plan, s: State, step: Step): State
    requires Enabled(plan, s, step)
  {
    match step
    case Open => s.(hops := [FirstHop(plan)])
    case Judge(i, permits) => s.(hops := s.hops[i := Judged(ConfigOf(plan, s.hops[i].id), s.hops[i], permits)])
    case Connect(i, up) =>
      s.(hops := s.hops[i := if up then s.hops[i].(stage := Reached) else Answer(s.hops[i], UNREACHABLE)])
    case AckReady(i) => s.(hops := s.hops[i := Answer(s.hops[i], READY)])
    case PassOn(i, up) =>
      if up then s.(hops := s.hops[i := s.hops[i].(stage := Waiting)] + [NextHop(s.hops[i])])
      else s.(hops := s.hops[i := Answer(s.hops[i], UNREACHABLE)])
    case Misanswer(i, reply) => s.(hops := s.hops[i := s.hops[i].(stage := Answered(reply))])
    case RelayBack(i) => s.(hops := s.hops[i := Answer(s.hops[i], Sanitised(s.hops[i + 1].stage.reply))])
    case Die(i) => s.(hops := s.hops[i := s.hops[i].(stage := Dead)])
    case Hear => s.(heard := Some(s.hops[0].stage.reply))
  }

  // ----- what always holds -----

  /** This place was opened by its predecessor on the route with exactly the
      tail of the route from here on. */
  ghost predicate OnRoute(plan: Plan, i: nat, hop: Hop) {
    && i < |plan.route|
    && hop.id == plan.route[i].nodeId
    && hop.peer == (if i == 0 then plan.originator else plan.route[i - 1].nodeId)
    && hop.tail == plan.route[i..]
    && hop.id in plan.relays
  }

  /** It passed every check of its own on its tail and its predecessor, and its
      counters granted the slot it took. */
  ghost predicate Cleared(plan: Plan, hop: Hop) {
    && IsHonest(plan, hop.id)
    && Admits(ConfigOf(plan, hop.id), hop.peer)
    && Refusal(hop.tail, ConfigOf(plan, hop.id)).None?
    && hop.slot.Some?
    && P.Grants(hop.slot.value, ConfigOf(plan, hop.id).chains, hop.peer)
  }

  /** One hop's own record is consistent with its stage. */
  ghost predicate HopOk(plan: Plan, i: nat, hop: Hop) {
    && OnRoute(plan, i, hop)
    && (hop.stage.Ready? || hop.stage.Reached? || hop.stage.Waiting? ==> Cleared(plan, hop))
    && (hop.stage.Waiting? ==> |hop.tail| > 1)
    && (hop.stage.Reached? ==> |hop.tail| == 1 && IsHonest(plan, hop.id))
    && (IsHonest(plan, hop.id) && hop.stage.Answered? ==> hop.stage.reply.Ack? && Known(hop.stage.reply.status))
  }

  /** A hop with another beyond it is honest and cleared, and answers only what
      it made of that one's answer. */
  ghost predicate LinkOk(plan: Plan, hop: Hop, beyond: Hop) {
    && Cleared(plan, hop)
    && !hop.stage.Opened? && !hop.stage.Ready? && !hop.stage.Reached?
    && (hop.stage.Answered? ==> beyond.stage.Answered? && hop.stage.reply == Ack(Sanitised(beyond.stage.reply)))
  }

  ghost function HandshakeAlone(config: RelayConfig, peer: string, tail: seq<RouteHop>, permits: P.Tally<string>,
                                up: bool): string {
    HandshakeOf(config, peer, TunnelOpen(tail), Outside(permits, up, false, false, GraphQuery)).status
  }

  /** With nobody beyond it, the relay answered what its handshake answers for
      some state of its slots and its own upstream. */
  ghost predicate Explained(plan: Plan, hop: Hop)
    requires IsHonest(plan, hop.id)
  {
    exists permits, up ::
      hop.stage == Answered(Ack(HandshakeAlone(ConfigOf(plan, hop.id), hop.peer, hop.tail, permits, up)))
  }

  /** The last honest hop answers by its handshake alone, and answers ready only
      as the route's end, cleared. */
  ghost predicate EndOk(plan: Plan, hop: Hop) {
    IsHonest(plan, hop.id) ==>
      && !hop.stage.Waiting?
      && (hop.stage.Answered? ==> Explained(plan, hop))
      && (hop.stage == Answered(Ack(READY)) ==> Cleared(plan, hop) && |hop.tail| == 1)
  }

  ghost predicate Inv(plan: Plan, s: State) {
    && (forall i :: 0 <= i < |s.hops| ==> HopOk(plan, i, s.hops[i]))
    && (forall i :: 0 < i < |s.hops| ==> LinkOk(plan, s.hops[i - 1], s.hops[i]))
    && (s.hops != [] ==> EndOk(plan, s.hops[|s.hops| - 1]))
    && (s.heard.Some? ==> s.hops != [] && s.hops[0].stage == Answered(s.heard.value))
  }

  lemma StartIsOk(plan: Plan)
    ensures Inv(plan, State([], None))
  {
  }

  /** A change to one hop that keeps what its neighbours rely on. */
  lemma Update(plan: Plan, s: State, i: nat, hop: Hop)
    requires Inv(plan, s) && i < |s.hops| && HopOk(plan, i, hop)
    requires i > 0 ==> LinkOk(plan, s.hops[i - 1], hop)
    requires i + 1 < |s.hops| ==> LinkOk(plan, hop, s.hops[i + 1])
    requires i + 1 == |s.hops| ==> EndOk(plan, hop)
    requires s.heard.Some? && i == 0 ==> hop.stage == s.hops[0].stage
    ensures Inv(plan, s.(hops := s.hops[i := hop]))
  {
    hide HopOk, LinkOk, EndOk;
  }

  lemma JudgedIsHandshake(plan: Plan, hop: Hop, permits: P.Tally<string>)
    requires IsHonest(plan, hop.id) && hop.stage.Opened?
    ensures var judged := Judged(ConfigOf(plan, hop.id), hop, permits);
            judged.stage.Answered? ==> Explained(plan, judged)
  {
    hide Refusal, Admits, Sanitised;
    var config := ConfigOf(plan, hop.id);
    var judged := Judged(config, hop, permits);
    assert judged.stage.Answered? ==>
        judged.stage == Answered(Ack(HandshakeAlone(config, judged.peer, judged.tail, permits, false)));
  }

  lemma SameRoute(plan: Plan, i: nat, hop: Hop, hop': Hop)
    requires OnRoute(plan, i, hop) && hop'.id == hop.id && hop'.peer == hop.peer && hop'.tail == hop.tail
    ensures OnRoute(plan, i, hop')
  {
  }

  lemma HopsAre(plan: Plan, s: State, i: nat)
    requires Inv(plan, s) && i < |s.hops|
    ensures HopOk(plan, i, s.hops[i])
    ensures i > 0 ==> LinkOk(plan, s.hops[i - 1], s.hops[i])
    ensures i + 1 < |s.hops| ==> LinkOk(plan, s.hops[i], s.hops[i + 1])
    ensures i + 1 == |s.hops| ==> EndOk(plan, s.hops[i])
    ensures s.heard.Some? && i == 0 ==> s.hops[0].stage.Answered?
  {
    hide HopOk, LinkOk, EndOk;
    assert i + 1 < |s.hops| ==> LinkOk(plan, s.hops[i + 1 - 1], s.hops[i + 1]);
  }

  lemma JudgeIsOk(plan: Plan, s: State, i: nat, permits: P.Tally<string>)
    requires Inv(plan, s) && Enabled(plan, s, Judge(i, permits))
    ensures Inv(plan, Next(plan, s, Judge(i, permits)))
  {
    hide Refusal, Admits, OnRoute, Known, Inv, Explained;
    HopsAre(plan, s, i);
    KnownStatuses();
    var hop := Judged(ConfigOf(plan, s.hops[i].id), s.hops[i], permits);
    JudgedIsHandshake(plan, s.hops[i], permits);
    RefusalIsKnown(s.hops[i].tail, ConfigOf(plan, s.hops[i].id));
    SameRoute(plan, i, s.hops[i], hop);
    Update(plan, s, i, hop);
  }

  lemma ClearedAnswers(plan: Plan, hop: Hop, up: bool, answered: Hop)
    requires Cleared(plan, hop) && |hop.tail| > 0 && (|hop.tail| > 1 ==> !up)
    requires answered.id == hop.id && answered.peer == hop.peer && answered.tail == hop.tail
    requires answered.stage == Answered(Ack(if up then READY else UNREACHABLE))
    ensures Explained(plan, answered)
  {
    hide Refusal, Admits, Sanitised;
    assert answered.stage
           == Answered(Ack(HandshakeAlone(ConfigOf(plan, hop.id), hop.peer, hop.tail, hop.slot.value, up)));
  }

  /** The steps of a hop that has answered nobody yet. */
  lemma SettleIsOk(plan: Plan, s: State, i: nat, hop: Hop)
    requires Inv(plan, s) && i < |s.hops| && !s.hops[i].stage.Answered?
    requires hop.id == s.hops[i].id && hop.peer == s.hops[i].peer && hop.tail == s.hops[i].tail
              && hop.slot == s.hops[i].slot
    requires hop.stage.Answered? || hop.stage.Dead?
    requires IsHonest(plan, hop.id) && hop.stage.Answered? ==> hop.stage.reply.Ack? && Known(hop.stage.reply.status)
    requires i + 1 < |s.hops| && hop.stage.Answered? ==>
               s.hops[i + 1].stage.Answered? && hop.stage.reply == Ack(Sanitised(s.hops[i + 1].stage.reply))
    requires i + 1 == |s.hops| ==> EndOk(plan, hop)
    ensures Inv(plan, s.(hops := s.hops[i := hop]))
  {
    hide Refusal, Admits, OnRoute, Sanitised, Known, Inv, Explained;
    HopsAre(plan, s, i);
    SameRoute(plan, i, s.hops[i], hop);
    Update(plan, s, i, hop);
  }

  lemma ReachedIsOk(plan: Plan, s: State, i: nat)
    requires Inv(plan, s) && Enabled(plan, s, Connect(i, true))
    ensures Inv(plan, Next(plan, s, Connect(i, true)))
  {
    hide Refusal, Admits, OnRoute, Sanitised, Known, Inv, Explained, P.Grants;
    HopsAre(plan, s, i);
    var hop := s.hops[i].(stage := Reached);
    SameRoute(plan, i, s.hops[i], hop);
    Update(plan, s, i, hop);
  }

  lemma NextHopIsOk(plan: Plan, i: nat, hop: Hop)
    requires HopOk(plan, i, hop) && Cleared(plan, hop) && |hop.tail| > 1 && hop.tail[1].nodeId in plan.relays
    ensures HopOk(plan, i, hop.(stage := Waiting)) && HopOk(plan, i + 1, NextHop(hop))
    ensures LinkOk(plan, hop.(stage := Waiting), NextHop(hop)) && EndOk(plan, NextHop(hop))
  {
    hide Refusal, Admits, Sanitised, Known, Explained, P.Grants;
    assert plan.route[i..][1..] == plan.route[i + 1..];
  }

  /** A new hop at the end. */
  lemma Push(plan: Plan, s: State, hop: Hop)
    requires s.hops != [] && (s.heard.Some? ==> s.hops[0].stage == Answered(s.heard.value))
    requires forall i :: 0 <= i < |s.hops| ==> HopOk(plan, i, s.hops[i])
    requires forall i :: 0 < i < |s.hops| ==> LinkOk(plan, s.hops[i - 1], s.hops[i])
    requires HopOk(plan, |s.hops|, hop) && LinkOk(plan, s.hops[|s.hops| - 1], hop) && EndOk(plan, hop)
    ensures Inv(plan, s.(hops := s.hops + [hop]))
  {
    hide HopOk, LinkOk, EndOk;
  }

  lemma HeardFromFirst(plan: Plan, s: State)
    requires Inv(plan, s)
    ensures s.heard.Some? ==> s.hops != [] && s.hops[0].stage == Answered(s.heard.value)
  {
  }

  lemma ReadyIsCleared(plan: Plan, s: State, i: nat)
    requires Inv(plan, s) && i < |s.hops| && s.hops[i].stage.Ready?
    ensures HopOk(plan, i, s.hops[i]) && Cleared(plan, s.hops[i])
    ensures s.heard.Some? ==> i > 0 && s.hops[0].stage == Answered(s.heard.value)
  {
    hide Inv, Refusal, Admits, OnRoute, P.Grants;
    HopsAre(plan, s, i);
    HeardFromFirst(plan, s);
  }

  lemma PassOnIsOk(plan: Plan, s: State, i: nat)
    requires Inv(plan, s) && Enabled(plan, s, PassOn(i, true))
    ensures Inv(plan, Next(plan, s, PassOn(i, true)))
  {
    hide HopOk, EndOk, Refusal, Admits, Sanitised, Known, P.Grants;
    var hop := s.hops[i];
    ReadyIsCleared(plan, s, i);
    NextHopIsOk(plan, i, hop);
    var waiting := s.(hops := s.hops[i := hop.(stage := Waiting)]);
    forall j | 0 < j < |waiting.hops| ensures LinkOk(plan, waiting.hops[j - 1], waiting.hops[j]) {
      assert LinkOk(plan, s.hops[j - 1], s.hops[j]);
    }
    Push(plan, waiting, NextHop(hop));
  }

  lemma OpenIsOk(plan: Plan, s: State)
    requires Inv(plan, s) && Enabled(plan, s, Open)
    ensures Inv(plan, Next(plan, s, Open))
  {
    assert plan.route[0..] == plan.route;
  }

  lemma HearIsOk(plan: Plan, s: State)
    requires Inv(plan, s) && Enabled(plan, s, Hear)
    ensures Inv(plan, Next(plan, s, Hear))
  {
    hide HopOk, LinkOk, EndOk;
  }

  /** Every step keeps the invariant. */
  lemma StepIsOk(plan: Plan, s: State, step: Step)
    requires Inv(plan, s) && Enabled(plan, s, step)
    ensures Inv(plan, Next(plan, s, step))
  {
    hide Inv, Refusal, Admits, Sanitised, OnRoute, Known, Explained, P.Grants;
    KnownStatuses();
    match step {
      case Open => OpenIsOk(plan, s);
      case Judge(i, permits) => JudgeIsOk(plan, s, i, permits);
      case Connect(i, up) =>
        HopsAre(plan, s, i);
        if up {
          ReachedIsOk(plan, s, i);
        } else {
          ClearedAnswers(plan, s.hops[i], false, Answer(s.hops[i], UNREACHABLE));
          SettleIsOk(plan, s, i, Answer(s.hops[i], UNREACHABLE));
        }
      case AckReady(i) =>
        HopsAre(plan, s, i);
        ClearedAnswers(plan, s.hops[i], true, Answer(s.hops[i], READY));
        SettleIsOk(plan, s, i, Answer(s.hops[i], READY));
      case PassOn(i, up) =>
        HopsAre(plan, s, i);
        if up {
          PassOnIsOk(plan, s, i);
        } else {
          ClearedAnswers(plan, s.hops[i], false, Answer(s.hops[i], UNREACHABLE));
          SettleIsOk(plan, s, i, Answer(s.hops[i], UNREACHABLE));
        }
      case Misanswer(i, reply) =>
        HopsAre(plan, s, i);
        SettleIsOk(plan, s, i, s.hops[i].(stage := Answered(reply)));
      case RelayBack(i) =>
        HopsAre(plan, s, i);
        SanitisedIsKnown(s.hops[i + 1].stage.reply);
        SettleIsOk(plan, s, i, Answer(s.hops[i], Sanitised(s.hops[i + 1].stage.reply)));
      case Die(i) =>
        SettleIsOk(plan, s, i, s.hops[i].(stage := Dead));
      case Hear => HearIsOk(plan, s);
    }
  }

  // ----- whole runs -----

  /** A run from nothing, each step possible where it was taken. */
  ghost predicate IsRun(plan: Plan, states: seq<State>, steps: seq<Step>) {
    && |states| == |steps| + 1
    && states[0] == State([], None)
    && forall k :: 0 <= k < |steps| ==>
         Enabled(plan, states[k], steps[k]) && states[k + 1] == Next(plan, states[k], steps[k])
  }

  lemma {:induction false} RunsAreOk(plan: Plan, states: seq<State>, steps: seq<Step>, k: nat)
    requires IsRun(plan, states, steps) && k < |states|
    ensures Inv(plan, states[k])
  {
    hide Inv, Next, Enabled;
    if k == 0 {
      StartIsOk(plan);
    } else {
      RunsAreOk(plan, states, steps, k - 1);
      assert states[k - 1 + 1] == Next(plan, states[k - 1], steps[k - 1]);
      StepIsOk(plan, states[k - 1], steps[k - 1]);
    }
  }

  /** This hop holds the tail of the route from its place on, was opened by the
      node before it, passed its checks and took a slot. */
  ghost predicate Carries(plan: Plan, s: State, i: nat) {
    i < |s.hops| && OnRoute(plan, i, s.hops[i]) && Cleared(plan, s.hops[i])
  }

  /** The node that opened this hop is on its list, if there is one; the rest of
      the route starts with this hop, is no longer than it allows and has no
      loop; and when it took its slot both caps had room. */
  ghost predicate Welcomed(plan: Plan, s: State, i: nat) {
    && i < |s.hops| && i < |plan.route| && IsHonest(plan, s.hops[i].id) && s.hops[i].slot.Some?
    && var config, permits := plan.relays[s.hops[i].id].config, s.hops[i].slot.value;
       var before := if i == 0 then plan.originator else plan.route[i - 1].nodeId;
       && (config.allowPeers == [] || before in config.allowPeers)
       && config.nodeId == plan.route[i].nodeId
       && |plan.route| - i <= config.maxHops
       && (forall j, k :: i <= j < k < |plan.route| ==> plan.route[j].nodeId != plan.route[k].nodeId)
       && permits.total < config.chains.total
       && (if before in permits.counts then permits.counts[before] else 0) < config.chains.perKey
  }

  lemma CarriesIsWelcomed(plan: Plan, s: State, i: nat)
    requires Carries(plan, s, i)
    ensures Welcomed(plan, s, i)
  {
    var tail := s.hops[i].tail;
    assert tail[0] == plan.route[i];
    forall j, k | i <= j < k < |plan.route| ensures plan.route[j].nodeId != plan.route[k].nodeId {
      assert tail[j - i] == plan.route[j] && tail[k - i] == plan.route[k];
    }
  }

  lemma {:induction false} ReadyAllTheWay(plan: Plan, s: State, i: nat)
    requires Inv(plan, s) && i < |s.hops| && s.hops[i].stage == Answered(Ack(READY))
    ensures forall j :: i <= j < |s.hops| ==> s.hops[j].stage == Answered(Ack(READY))
    decreases |s.hops| - i
  {
    hide Inv, HopOk, EndOk, Cleared, Sanitised;
    if i + 1 < |s.hops| {
      HopsAre(plan, s, i);
      SanitisedIsKnown(s.hops[i + 1].stage.reply);
      ReadyAllTheWay(plan, s, i + 1);
    }
  }

  lemma SameHop(plan: Plan, s: State, step: Step, i: nat)
    requires Enabled(plan, s, step) && i < |s.hops|
    ensures i < |Next(plan, s, step).hops|
    ensures Next(plan, s, step).hops[i].id == s.hops[i].id && Next(plan, s, step).hops[i].tail == s.hops[i].tail
  {
    hide Refusal, Admits, Sanitised, P.Grants, IsHonest, Known;
  }

  lemma OnlyReachedTurnsReady(plan: Plan, s: State, step: Step, i: nat)
    requires Inv(plan, s) && Enabled(plan, s, step)
    requires i < |Next(plan, s, step).hops| && Next(plan, s, step).hops[i].stage == Answered(Ack(READY))
    requires IsHonest(plan, Next(plan, s, step).hops[i].id) && |Next(plan, s, step).hops[i].tail| == 1
    requires !(i < |s.hops| && s.hops[i].stage == Answered(Ack(READY)))
    ensures i < |s.hops| && s.hops[i].stage.Reached?
  {
    hide Inv, Refusal, Admits, Sanitised, P.Grants, Known;
    KnownStatuses();
    if i < |s.hops| {
      HopsAre(plan, s, i);
      if IsHonest(plan, s.hops[i].id) {
        RefusalIsKnown(s.hops[i].tail, ConfigOf(plan, s.hops[i].id));
      }
    }
  }

  /** A last hop that answered ready had reached its own upstream in an earlier
      state, when it had answered nothing yet. */
  lemma {:induction false} ReachedBeforeReady(plan: Plan, states: seq<State>, steps: seq<Step>, k: nat, i: nat)
    returns (j: nat)
    requires IsRun(plan, states, steps) && k < |states| && i < |states[k].hops|
    requires IsHonest(plan, states[k].hops[i].id) && |states[k].hops[i].tail| == 1
    requires states[k].hops[i].stage == Answered(Ack(READY))
    ensures j < k && i < |states[j].hops| && states[j].hops[i].stage.Reached?
  {
    hide Inv;
    assert k > 0;
    var before, step := states[k - 1], steps[k - 1];
    assert Enabled(plan, before, step) && states[k - 1 + 1] == Next(plan, before, step);
    RunsAreOk(plan, states, steps, k - 1);
    if i < |before.hops| && before.hops[i].stage == Answered(Ack(READY)) {
      SameHop(plan, before, step, i);
      j := ReachedBeforeReady(plan, states, steps, k - 1, i);
    } else {
      OnlyReachedTurnsReady(plan, before, step, i);
      j := k - 1;
    }
  }

  lemma ReadyEnd(plan: Plan, hop: Hop)
    requires EndOk(plan, hop) && IsHonest(plan, hop.id) && hop.stage == Answered(Ack(READY))
    ensures Cleared(plan, hop) && |hop.tail| == 1
  {
  }

  lemma {:induction false} AnsweredFromHere(plan: Plan, s: State, i: nat, n: nat)
    requires Inv(plan, s) && i <= n < |s.hops| && s.hops[i].stage.Answered?
    ensures s.hops[n].stage.Answered?
  {
    hide Inv, HopOk, EndOk, Cleared;
    if i < n {
      AnsweredFromHere(plan, s, i, n - 1);
      HopsAre(plan, s, n - 1);
    }
  }

  /** A hop still at its own upstream is the last one, and nobody before it has
      answered. */
  lemma NoneAnswered(plan: Plan, s: State, last: nat)
    requires Inv(plan, s) && last < |s.hops| && s.hops[last].stage.Reached?
    ensures |s.hops| == last + 1
    ensures forall i :: 0 <= i < |s.hops| ==> !s.hops[i].stage.Answered?
  {
    hide Inv, EndOk, Cleared, OnRoute, Sanitised;
    HopsAre(plan, s, last);
    forall i | 0 <= i < |s.hops| ensures !s.hops[i].stage.Answered? {
      if s.hops[i].stage.Answered? {
        AnsweredFromHere(plan, s, i, last);
      }
    }
  }

  /** If the originator hears that the tunnel is ready, then, unless a
      misbehaving node sits at the far end, the chain runs the whole route:
      every hop checked its own tail, admitted its predecessor and took a slot
      its counters granted, and the last one had reached its own upstream in the
      earlier state j, before anybody answered. */
  lemma ReadyMeansReady(plan: Plan, states: seq<State>, steps: seq<Step>, k: nat) returns (j: nat)
    requires IsRun(plan, states, steps) && k < |states|
    requires states[k].heard == Some(Ack(READY))
    ensures |states[k].hops| > 0
    ensures var s := states[k];
            var last := |s.hops| - 1;
            && (forall i :: 0 <= i < last ==> Carries(plan, s, i) && Welcomed(plan, s, i))
            && (IsHonest(plan, s.hops[last].id) ==>
                  && |s.hops| == |plan.route| && Carries(plan, s, last) && Welcomed(plan, s, last)
                  && j < k && last < |states[j].hops| && states[j].hops[last].stage.Reached?
                  && forall i :: 0 <= i < |states[j].hops| ==> !states[j].hops[i].stage.Answered?)
  {
    hide Inv, IsRun, EndOk, Refusal, Admits, Known, Sanitised, Welcomed;
    var s := states[k];
    RunsAreOk(plan, states, steps, k);
    HeardFromFirst(plan, s);
    var last := |s.hops| - 1;
    ReadyAllTheWay(plan, s, 0);
    forall i | 0 <= i < last ensures Carries(plan, s, i) && Welcomed(plan, s, i) {
      HopsAre(plan, s, i);
      CarriesIsWelcomed(plan, s, i);
    }
    HopsAre(plan, s, last);
    j := 0;
    if IsHonest(plan, s.hops[last].id) {
      ReadyEnd(plan, s.hops[last]);
      CarriesIsWelcomed(plan, s, last);
      j := ReachedBeforeReady(plan, states, steps, k, last);
      RunsAreOk(plan, states, steps, j);
      NoneAnswered(plan, states[j], last);
    }
  }

  // ----- slots, as the relay counts them -----

  lemma SoundPermits<Addr(!new)>(relay: P.Config, w: P.World<Addr>)
    requires P.Sound(relay, w)
    ensures P.Tallies(w.permits, P.LivePermits(w.conns)) && P.WithinCaps(relay.chains, P.LivePermits(w.conns))
  {
    hide P.Tallies, P.WithinCaps;
  }

  lemma BusyIsNoRefusal(hops: seq<RouteHop>, config: RelayConfig)
    ensures Refusal(hops, config) != Some(BUSY) && FORBIDDEN != BUSY
  {
    hide DistinctIds;
    assert |BUSY| == 10 && |TOO_LONG| == 15 && |MISADDRESSED| == 19 && |PATH_LOOPS| == 17 && |FORBIDDEN| == 15;
  }

  /** A relay whose counters are those of a run of its own accounting answers
      busy exactly when the slots its live connections hold meet a cap; and a hop
      it clears is, from then on, one of the slots it counts. */
  lemma SlotsAreCounted<Addr(!new)>(relay: P.Config, worlds: seq<P.World<Addr>>, turns: seq<P.Step<Addr>>, n: nat,
                                    c: nat, config: RelayConfig, hop: Hop)
    requires P.IsRun(relay, worlds, turns) && n < |worlds| && relay.chains == config.chains
    requires relay.chains.perKey >= 1 && relay.handshakes.perKey >= 1
    requires P.Enabled(worlds[n], P.Admit(c, hop.peer)) && Admits(config, hop.peer)
    ensures var live := P.LivePermits(worlds[n].conns);
            var next := P.Next(relay, worlds[n], P.Admit(c, hop.peer));
            var judged := Judged(config, hop, worlds[n].permits);
            && (judged.stage == Answered(Ack(BUSY)) <==>
                |live| >= config.chains.total || live[hop.peer] >= config.chains.perKey)
            && (judged.stage == Ready ==>
                  && next.conns[c] == P.Admitted(worlds[n].conns[c].addr, hop.peer)
                  && hop.peer in P.LivePermits(next.conns)
                  && P.Sound(relay, next))
  {
    hide P.IsRun, P.Sound, Refusal, Admits, P.LivePermits, P.LivePending, P.WithinCaps, P.Tallies;
    var w := worlds[n];
    P.RunsAreSound(relay, worlds, turns, n);
    P.AdmitIsSound(relay, w, c, hop.peer);
    SoundPermits(relay, w);
    P.TakeKeepsTally(w.permits, relay.chains, P.LivePermits(w.conns), hop.peer);
    P.AdmitMoves(w.conns, c, P.Grants(w.permits, relay.chains, hop.peer), hop.peer);
    BusyIsNoRefusal(hop.tail, config);
  }

  // ----- what travels back -----

  lemma {:induction false} AnswersAgree(plan: Plan, s: State, k: nat, j: nat)
    requires Inv(plan, s) && j <= k < |s.hops|
    requires IsHonest(plan, s.hops[k].id) && s.hops[k].stage.Answered?
    ensures s.hops[j].stage.Answered? ==> s.hops[j].stage.reply == s.hops[k].stage.reply
    decreases k - j
  {
    hide Inv, Cleared, EndOk, OnRoute, Known;
    if j < k {
      AnswersAgree(plan, s, k, j + 1);
      HopsAre(plan, s, j);
      HopsAre(plan, s, k);
    }
  }

  /** A status raised at hop k by an honest relay is the only thing any relay
      before it ever answers, and the only thing the originator can hear. */
  lemma RefusalTravelsUnchanged(plan: Plan, states: seq<State>, steps: seq<Step>, n: nat, k: nat)
    requires IsRun(plan, states, steps) && n < |states| && k < |states[n].hops|
    requires IsHonest(plan, states[n].hops[k].id) && states[n].hops[k].stage.Answered?
    ensures forall j :: 0 <= j <= k && states[n].hops[j].stage.Answered? ==>
              states[n].hops[j].stage.reply == states[n].hops[k].stage.reply
    ensures states[n].heard.Some? ==> states[n].heard.value == states[n].hops[k].stage.reply
  {
    hide Inv, IsRun;
    var s := states[n];
    RunsAreOk(plan, states, steps, n);
    forall j | 0 <= j <= k ensures s.hops[j].stage.Answered? ==> s.hops[j].stage.reply == s.hops[k].stage.reply {
      AnswersAgree(plan, s, k, j);
    }
    HeardFromFirst(plan, s);
  }

  /** Whatever a misbehaving node answers, the honest relay before it, and so
      the originator, only ever sees a known status. */
  lemma OnlyKnownStatusesTravel(plan: Plan, states: seq<State>, steps: seq<Step>, k: nat, i: nat)
    requires IsRun(plan, states, steps) && k < |states| && i < |states[k].hops|
    requires IsHonest(plan, states[k].hops[i].id) && states[k].hops[i].stage.Answered?
    ensures states[k].hops[i].stage.reply.Ack? && Known(states[k].hops[i].stage.reply.status)
  {
    hide Inv, Known;
    RunsAreOk(plan, states, steps, k);
    HopsAre(plan, states[k], i);
  }

  /** No node is entered twice, and the hop list is one shorter at each hop. */
  lemma NoNodeTwice(plan: Plan, states: seq<State>, steps: seq<Step>, k: nat)
    requires IsRun(plan, states, steps) && k < |states|
    ensures var s := states[k];
            && |s.hops| <= |plan.route|
            && (forall i :: 0 <= i < |s.hops| ==> |s.hops[i].tail| == |plan.route| - i)
            && forall i, j :: 0 <= i < j < |s.hops| ==> s.hops[i].id != s.hops[j].id
  {
    hide Inv, EndOk, Admits, Known;
    var s := states[k];
    RunsAreOk(plan, states, steps, k);
    if |s.hops| > 0 {
      HopsAre(plan, s, |s.hops| - 1);
    }
    forall i | 0 <= i < |s.hops| ensures |s.hops[i].tail| == |plan.route| - i {
      HopsAre(plan, s, i);
    }
    forall i, j | 0 <= i < j < |s.hops| ensures s.hops[i].id != s.hops[j].id {
      HopsAre(plan, s, 0);
      HopsAre(plan, s, i);
      HopsAre(plan, s, j);
      assert plan.route[0..] == plan.route;
    }
  }

  /** Every answer an honest relay gives is its own handshake's, for some state
      of its slots and upstream, fed with what the next hop really answered. */
  lemma EveryAnswerIsAHandshake(plan: Plan, states: seq<State>, steps: seq<Step>, k: nat, i: nat)
    returns (outside: Outside)
    requires IsRun(plan, states, steps) && k < |states| && i < |states[k].hops|
    requires IsHonest(plan, states[k].hops[i].id) && states[k].hops[i].stage.Answered?
    ensures var hops := states[k].hops;
            && hops[i].stage.reply
                 == Ack(HandshakeOf(ConfigOf(plan, hops[i].id), hops[i].peer, TunnelOpen(hops[i].tail), outside).status)
            && (outside.nextUp <==> i + 1 < |hops|)
            && (outside.nextUp ==> hops[i + 1].stage == Answered(outside.nextReply))
  {
    hide Inv, Refusal, Admits, Sanitised, Known;
    var s := states[k];
    RunsAreOk(plan, states, steps, k);
    HopsAre(plan, s, i);
    var hop := s.hops[i];
    if i + 1 < |s.hops| {
      HopsAre(plan, s, i + 1);
      outside := Outside(hop.slot.value, false, false, true, s.hops[i + 1].stage.reply);
    } else {
      var permits, up :| hop.stage
        == Answered(Ack(HandshakeAlone(ConfigOf(plan, hop.id), hop.peer, hop.tail, permits, up)));
      outside := Outside(permits, up, false, false, GraphQuery);
    }
  }

  // ----- it ends -----

  function Rank(stage: Stage): nat {
    match stage
    case Opened => 4
    case Ready => 3
    case Reached => 2
    case Waiting => 2
    case Answered(_) => 1
    case Dead => 0
  }

  function Ranks(hops: seq<Hop>): nat {
    if hops == [] then 0 else Ranks(hops[..|hops| - 1]) + Rank(hops[|hops| - 1].stage)
  }

  lemma {:induction false} RanksUpdate(hops: seq<Hop>, i: nat, hop: Hop)
    requires i < |hops|
    ensures Ranks(hops[i := hop]) + Rank(hops[i].stage) == Ranks(hops) + Rank(hop.stage)
  {
    var front := hops[..|hops| - 1];
    if i < |front| {
      assert hops[i := hop][..|hops| - 1] == front[i := hop];
      RanksUpdate(front, i, hop);
    } else {
      assert hops[i := hop][..|hops| - 1] == front;
    }
  }

  lemma RanksPush(hops: seq<Hop>, hop: Hop)
    ensures Ranks(hops + [hop]) == Ranks(hops) + Rank(hop.stage)
  {
    assert (hops + [hop])[..|hops|] == hops;
  }

  /** How far the chain is from having nothing left to do. */
  function Left(plan: Plan, s: State): int {
    5 * (|plan.route| - |s.hops|) + Ranks(s.hops) + (if s.heard.None? then 1 else 0)
  }

  lemma NoRanks()
    ensures Ranks([]) == 0
  {
  }

  lemma StepsLeftShrink(plan: Plan, s: State, step: Step)
    requires Inv(plan, s) && Enabled(plan, s, step)
    ensures Left(plan, Next(plan, s, step)) < Left(plan, s)
  {
    hide Inv, Refusal, Admits, Sanitised, Ranks;
    match step {
      case Open => RanksPush([], FirstHop(plan)); assert [] + [FirstHop(plan)] == [FirstHop(plan)]; NoRanks();
      case Judge(i, permits) => RanksUpdate(s.hops, i, Judged(ConfigOf(plan, s.hops[i].id), s.hops[i], permits));
      case Connect(i, up) =>
        RanksUpdate(s.hops, i, Next(plan, s, step).hops[i]);
      case AckReady(i) => RanksUpdate(s.hops, i, Answer(s.hops[i], READY));
      case PassOn(i, up) =>
        if up {
          RanksUpdate(s.hops, i, s.hops[i].(stage := Waiting));
          RanksPush(s.hops[i := s.hops[i].(stage := Waiting)], NextHop(s.hops[i]));
        } else {
          RanksUpdate(s.hops, i, Answer(s.hops[i], UNREACHABLE));
        }
      case Misanswer(i, reply) => RanksUpdate(s.hops, i, s.hops[i].(stage := Answered(reply)));
      case RelayBack(i) => RanksUpdate(s.hops, i, Answer(s.hops[i], Sanitised(s.hops[i + 1].stage.reply)));
      case Die(i) => RanksUpdate(s.hops, i, s.hops[i].(stage := Dead));
      case Hear =>
    }
  }

  lemma LastIsOnRoute(plan: Plan, s: State)
    requires Inv(plan, s) && |s.hops| > 0
    ensures |s.hops| <= |plan.route|
  {
    assert HopOk(plan, |s.hops| - 1, s.hops[|s.hops| - 1]);
  }

  lemma LeftIsBounded(plan: Plan, s: State)
    requires Inv(plan, s)
    ensures Left(plan, s) >= 0
  {
    hide HopOk, LinkOk, EndOk, Ranks;
    if |s.hops| > 0 {
      assert HopOk(plan, |s.hops| - 1, s.hops[|s.hops| - 1]);
      HopsAre(plan, s, |s.hops| - 1);
      LastIsOnRoute(plan, s);
    }
  }

  lemma NothingDone(plan: Plan)
    ensures Left(plan, State([], None)) == 5 * |plan.route| + 1
  {
  }

  /** Establishing a chain takes at most five steps a hop and one more, however
      dials, slots and timeouts turn out. */
  lemma {:induction false} RunsEnd(plan: Plan, states: seq<State>, steps: seq<Step>, k: nat)
    requires IsRun(plan, states, steps) && k < |states|
    ensures Left(plan, states[k]) + k <= 5 * |plan.route| + 1
    ensures k <= 5 * |plan.route| + 1
  {
    hide Inv, Next, Enabled, Left;
    if k == 0 {
      NoRanks();
      assert Left(plan, states[0]) == 5 * |plan.route| + 1 by { NothingDone(plan); }
    } else {
      RunsEnd(plan, states, steps, k - 1);
      RunsAreOk(plan, states, steps, k - 1);
      assert states[k - 1 + 1] == Next(plan, states[k - 1], steps[k - 1]);
      StepsLeftShrink(plan, states[k - 1], steps[k - 1]);
    }
    RunsAreOk(plan, states, steps, k);
    LeftIsBounded(plan, states[k]);
  }

  lemma {:induction false} AdvanceFrom(plan: Plan, s: State, i: nat) returns (step: Step)
    requires Inv(plan, s) && s.heard.None? && i < |s.hops|
    requires forall j :: 0 <= j < |s.hops| ==> !s.hops[j].stage.Dead?
    requires i > 0 ==> s.hops[i - 1].stage.Waiting?
    ensures Enabled(plan, s, step) && !step.Die?
    decreases |s.hops| - i
  {
    hide Inv, Refusal, Admits, Sanitised, Known;
    HopsAre(plan, s, i);
    var hop := s.hops[i];
    match hop.stage {
      case Opened =>
        if IsHonest(plan, hop.id) {
          step := Judge(i, P.Tally(0, map[]));
        } else {
          step := Misanswer(i, GraphQuery);
        }
      case Ready =>
        if |hop.tail| == 1 {
          step := Connect(i, true);
        } else {
          step := PassOn(i, false);
        }
      case Reached =>
        step := AckReady(i);
      case Waiting =>
        step := AdvanceFrom(plan, s, i + 1);
      case Answered(_) =>
        if i == 0 {
          step := Hear;
        } else {
          HopsAre(plan, s, i - 1);
          step := RelayBack(i - 1);
        }
    }
  }

  /** A chain never just hangs: while nobody has gone away and the originator
      has not heard, some step can be taken. */
  lemma NeverStuck(plan: Plan, states: seq<State>, steps: seq<Step>, k: nat) returns (step: Step)
    requires IsRun(plan, states, steps) && k < |states|
    requires states[k].heard.None? && states[k].hops != []
    requires forall i :: 0 <= i < |states[k].hops| ==> !states[k].hops[i].stage.Dead?
    ensures Enabled(plan, states[k], step) && !step.Die?
  {
    hide Inv, Enabled;
    RunsAreOk(plan, states, steps, k);
    step := AdvanceFrom(plan, states[k], 0);
  }

  /** A run that can only end by giving up, though nobody has, is over: the
      originator has heard an answer, every hop has answered, and what was heard
      is what each honest one said. */
  lemma EndsHeard(plan: Plan, states: seq<State>, steps: seq<Step>, k: nat)
    requires IsRun(plan, states, steps) && k < |states| && states[k].hops != []
    requires forall i :: 0 <= i < |states[k].hops| ==> !states[k].hops[i].stage.Dead?
    requires forall step :: Enabled(plan, states[k], step) ==> step.Die?
    ensures states[k].heard.Some?
    ensures forall i :: 0 <= i < |states[k].hops| ==>
              && states[k].hops[i].stage.Answered?
              && (IsHonest(plan, states[k].hops[i].id) ==> states[k].hops[i].stage.reply == states[k].heard.value)
  {
    hide Inv, IsRun, Enabled;
    RunsAreOk(plan, states, steps, k);
    if states[k].heard.None? {
      var step := NeverStuck(plan, states, steps, k);
    }
    HeardFromFirst(plan, states[k]);
    forall i | 0 <= i < |states[k].hops|
      ensures states[k].hops[i].stage.Answered?
      ensures IsHonest(plan, states[k].hops[i].id) ==> states[k].hops[i].stage.reply == states[k].heard.value
    {
      AnsweredFromHere(plan, states[k], 0, i);
      if IsHonest(plan, states[k].hops[i].id) {
        RefusalTravelsUnchanged(plan, states, steps, k, i);
      }
    }
  }
}
