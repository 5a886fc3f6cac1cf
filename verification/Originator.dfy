/** The originator's half of a chain: opening a ranked route, and what an open
    one is worth. */
module Originator {
  import opened Common
  import opened Resolve
  import opened Candidates
  import opened Planner
  import opened Chain
  import opened Tunnel
  import P = Permits
  import W = Wire
  import R = ChainRun

  /** The world a chain is opened in: which hops a dial reaches and
      authenticates, what comes back for the frame sent, if anything, and which
      nodes complete the end-to-end session. */
  datatype World = World(
    dials: W.RouteHop -> bool,
    answers: W.Message -> Option<W.Message>,
    proves: W.RouteHop -> bool)

  datatype Outcome =
    | NoHops
    | Unreachable
    | FrameTooLarge
    | NoReply
    | Refused(status: string)
    | NotAnAck
    | TargetUnproven
    | Established

  ghost predicate Sends(route: ResolvedRoute, world: World) {
    var hops := TunnelHops(route);
    hops != [] && world.dials(hops[0]) && W.Sendable(W.TunnelOpen(hops))
  }

  /** What it takes to end up with a stream. */
  ghost predicate Opens(route: ResolvedRoute, world: World) {
    var hops := TunnelHops(route);
    Sends(route, world) && world.answers(W.TunnelOpen(hops)) == Some(W.Ack(READY)) && world.proves(hops[|hops| - 1])
  }

  /** The first relay is dialed and handed the whole hop list; only its ready
      ack leads on, and only the last hop's own proof makes a stream. */
  method Establish(route: ResolvedRoute, world: World) returns (outcome: Outcome, sent: Option<W.Message>)
    ensures var hops := TunnelHops(route);
            var open := W.TunnelOpen(hops);
            && (sent == Some(open) || sent == None)
            && (sent.Some? <==> Sends(route, world))
            && (outcome.Established? <==> Opens(route, world))
            && (outcome.TargetUnproven? <==>
                  sent.Some? && world.answers(open) == Some(W.Ack(READY)) && !world.proves(hops[|hops| - 1]))
            && (outcome.Refused? <==>
                sent.Some? && exists status :: status != "tunnel_ready" && world.answers(open) == Some(W.Ack(status)))
            && (outcome.Refused? ==> world.answers(open) == Some(W.Ack(outcome.status)))
            && (outcome.NotAnAck? <==> sent.Some? && world.answers(open).Some? && !world.answers(open).value.Ack?)
            && (outcome.NoReply? <==> sent.Some? && world.answers(open).None?)
            && (outcome.Unreachable? <==> hops != [] && !world.dials(hops[0]))
            && (outcome.NoHops? <==> hops == [])
            && (outcome.FrameTooLarge? <==> hops != [] && world.dials(hops[0]) && !W.Sendable(open))
  {
    if |route.hops| == 0 {
      return NoHops, None;
    }
    var hops := TunnelHops(route);
    var first, target := hops[0], hops[|hops| - 1];
    if !world.dials(first) {
      return Unreachable, None;
    }
    var open := W.TunnelOpen(hops);
    if !W.Sendable(open) {
      return FrameTooLarge, None;
    }
    sent := Some(open);
    match world.answers(open) {
      case None => return NoReply, sent;
      case Some(Ack(status)) =>
        if status != READY {
          return Refused(status), sent;
        }
      case Some(_) => return NotAnAck, sent;
    }
    if !world.proves(target) {
      return TargetUnproven, sent;
    }
    return Established, sent;
  }

  /** A ranked route over a validated snapshot is never refused before it is
      sent: it names a hop, and its frame fits. */
  lemma RankedRoutesAreSendable(job: Job, nodes: seq<W.NodeInfo>, reports: seq<W.GraphReport>, hopRole: RoleId,
                                plans: seq<seq<RouteCandidate>>, route: ResolvedRoute)
    requires FromSnapshot(job, nodes, reports)
    requires Planned(job, plans) && job.hopRole == Some(hopRole) && route in Ranked(job, plans)
    ensures TunnelHops(route) != [] && W.Readable(W.TunnelOpen(TunnelHops(route)))
  {
    hide FromSnapshot, Planned, Ranked, W.Readable, Follows;
    var t, p := ResultsAreRoutes(job, hopRole, plans, route);
    HopsAreDistinct(job, hopRole, t, p, route);
    var config := RelayConfig(TunnelHops(route)[0].nodeId, 0, [], P.Caps(0, 0));
    RoutesFormTunnels(job, nodes, reports, hopRole, plans, route, 0, config);
    assert TunnelHops(route)[0..] == TunnelHops(route);
  }

  /** Every node a dial reaches on this route is an honest relay that knows its
      own id. */
  ghost predicate HonestRoute(plan: R.Plan) {
    forall id :: id in plan.relays ==> R.IsHonest(plan, id) && R.ConfigOf(plan, id).nodeId == id
  }

  lemma HandshakeStatuses(config: RelayConfig, peer: string, tail: seq<W.RouteHop>, permits: P.Tally<string>, up: bool)
    requires Refusal(tail, config).None? || Refusal(tail, config) == Some(TOO_LONG)
    ensures var status := R.HandshakeAlone(config, peer, tail, permits, up);
            status != MISADDRESSED && status != PATH_LOOPS
  {
    hide Refusal, Admits, Sanitised;
    assert |MISADDRESSED| == 19 && |PATH_LOOPS| == 17 && |TOO_LONG| == 15 && |UNREACHABLE| == 22;
    assert |EXPECTED_OPEN| == 20 && |FORBIDDEN| == 15 && |BUSY| == 10 && |READY| == 12;
  }

  /** Along a ranked route of honest relays, the originator never hears that a
      hop was misaddressed or that the path loops. */
  lemma RankedRoutesAreTaken(job: Job, nodes: seq<W.NodeInfo>, reports: seq<W.GraphReport>, hopRole: RoleId,
                             plans: seq<seq<RouteCandidate>>, route: ResolvedRoute,
                             plan: R.Plan, states: seq<R.State>, steps: seq<R.Step>, k: nat)
    requires FromSnapshot(job, nodes, reports)
    requires Planned(job, plans) && job.hopRole == Some(hopRole) && route in Ranked(job, plans)
    requires plan.route == TunnelHops(route) && HonestRoute(plan)
    requires R.IsRun(plan, states, steps) && k < |states|
    ensures states[k].heard != Some(W.Ack(MISADDRESSED)) && states[k].heard != Some(W.Ack(PATH_LOOPS))
  {
    hide R.Inv, R.IsRun, FromSnapshot, Planned, Ranked, Refusal, Admits, Sanitised, Known, W.Readable, R.HandshakeAlone;
    var s := states[k];
    R.RunsAreOk(plan, states, steps, k);
    R.HeardFromFirst(plan, s);
    if s.heard.Some? {
      var last := |s.hops| - 1;
      R.AnsweredFromHere(plan, s, 0, last);
      R.HopsAre(plan, s, last);
      var hop := s.hops[last];
      var config := R.ConfigOf(plan, hop.id);
      RoutesFormTunnels(job, nodes, reports, hopRole, plans, route, last, config);
      var permits, up :| hop.stage == R.Answered(W.Ack(R.HandshakeAlone(config, hop.peer, hop.tail, permits, up)));
      HandshakeStatuses(config, hop.peer, hop.tail, permits, up);
      R.AnswersAgree(plan, s, last, 0);
    }
  }

  /** The world answers the frame that opens this route as this run of the chain
      protocol does, once its originator has heard. */
  ghost predicate AnsweredBy(route: ResolvedRoute, world: World, plan: R.Plan, states: seq<R.State>,
                             steps: seq<R.Step>, k: nat) {
    && plan.route == TunnelHops(route)
    && R.IsRun(plan, states, steps) && k < |states|
    && (Sends(route, world) ==> world.answers(W.TunnelOpen(plan.route)) == states[k].heard)
  }

  /** When the frame is answered by a run through honest relays, an established
      chain runs through every node of the route in order, each of them having
      checked its own tail, admitted the node before it and taken a slot its
      counters granted, the target having reached its own upstream in the
      earlier state j, before anybody answered, and the stream is with the
      target itself. */
  lemma EstablishedRunsTheWholeRoute(route: ResolvedRoute, world: World, plan: R.Plan, states: seq<R.State>,
                                     steps: seq<R.Step>, k: nat)
    returns (j: nat)
    requires AnsweredBy(route, world, plan, states, steps, k) && HonestRoute(plan)
    requires Opens(route, world)
    ensures var hops := states[k].hops;
            var last := |hops| - 1;
            && 0 < |hops| == |route.hops|
            && (forall i :: 0 <= i < |hops| ==>
                  && R.Carries(plan, states[k], i) && R.Welcomed(plan, states[k], i)
                  && hops[i].id == route.hops[i].nodeId.name)
            && j < k && last < |states[j].hops| && states[j].hops[last].stage.Reached?
            && (forall i :: 0 <= i < |states[j].hops| ==> !states[j].hops[i].stage.Answered?)
            && world.proves(TunnelHops(route)[last])
  {
    hide R.IsRun, R.Inv, R.Welcomed, Refusal, Admits, Known, P.Grants, W.Sendable;
    j := R.ReadyMeansReady(plan, states, steps, k);
    R.RunsAreOk(plan, states, steps, k);
    R.HopsAre(plan, states[k], |states[k].hops| - 1);
  }

  /** And when that run can only end by giving up, though nobody has, the
      originator is established or told: it opens the stream exactly when every
      hop answered ready and the target proves itself, and otherwise the status
      refused with is one every hop answered. */
  lemma EstablishedOrTold(route: ResolvedRoute, world: World, plan: R.Plan, states: seq<R.State>, steps: seq<R.Step>,
                          k: nat)
    requires AnsweredBy(route, world, plan, states, steps, k) && HonestRoute(plan)
    requires Sends(route, world) && states[k].hops != []
    requires forall i :: 0 <= i < |states[k].hops| ==> !states[k].hops[i].stage.Dead?
    requires forall step :: R.Enabled(plan, states[k], step) ==> step.Die?
    ensures var reply := world.answers(W.TunnelOpen(TunnelHops(route)));
            && reply.Some? && reply.value.Ack? && Known(reply.value.status)
            && (forall i :: 0 <= i < |states[k].hops| ==> states[k].hops[i].stage == R.Answered(reply.value))
            && (Opens(route, world) <==>
                reply == Some(W.Ack(READY)) && world.proves(TunnelHops(route)[|route.hops| - 1]))
  {
    hide R.IsRun, R.Inv, R.Enabled, R.Carries, Known, W.Sendable;
    R.EndsHeard(plan, states, steps, k);
    R.RunsAreOk(plan, states, steps, k);
    forall i | 0 <= i < |states[k].hops| ensures R.IsHonest(plan, states[k].hops[i].id) {
      R.HopsAre(plan, states[k], i);
    }
    R.OnlyKnownStatusesTravel(plan, states, steps, k, 0);
  }
}
