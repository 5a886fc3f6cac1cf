/** The chain protocol is not only safe: where every relay is willing, some run
    brings the chain up. */
module Willing {
  import opened Common
  import opened Wire
  import opened Chain
  import opened ChainRun
  import P = Permits

  function Before(plan: Plan, i: nat): string
    requires i < |plan.route|
  {
    if i == 0 then plan.originator else plan.route[i - 1].nodeId
  }

  ghost predicate WillingAt(plan: Plan, i: nat)
    requires i < |plan.route|
  {
    && IsHonest(plan, plan.route[i].nodeId)
    && var config := ConfigOf(plan, plan.route[i].nodeId);
       && Admits(config, Before(plan, i))
       && Refusal(plan.route[i..], config).None?
       && config.chains.total > 0 && config.chains.perKey > 0
  }

  /** Every relay on the route is honest, admits the node before it, accepts the
      rest of the route, and carries anything at all. */
  ghost predicate AllWilling(plan: Plan) {
    && plan.route != [] && Readable(TunnelOpen(plan.route))
    && forall i :: 0 <= i < |plan.route| ==> WillingAt(plan, i)
  }

  const IDLE: P.Tally<string> := P.Tally(0, map[])

  function At(plan: Plan, i: nat, stage: Stage, slot: Option<P.Tally<string>>): Hop
    requires i < |plan.route|
  {
    Hop(plan.route[i].nodeId, Before(plan, i), plan.route[i..], stage, slot)
  }

  function Held(plan: Plan, i: nat, stage: Stage): Hop
    requires i < |plan.route|
  {
    At(plan, i, stage, Some(IDLE))
  }

  /** The first k hops wait, each for the next. */
  function Waits(plan: Plan, k: nat): seq<Hop>
    requires k <= |plan.route|
  {
    seq(k, i requires 0 <= i < k => Held(plan, i, Waiting))
  }

  function AllReady(plan: Plan): seq<Hop> {
    seq(|plan.route|, i requires 0 <= i < |plan.route| => Held(plan, i, Answered(Ack(READY))))
  }

  /** The first k hops wait, and the rest have answered ready. */
  function BackTo(plan: Plan, k: nat): State
    requires k <= |plan.route|
  {
    State(Waits(plan, k) + AllReady(plan)[k..], None)
  }

  /** Some run ends here. */
  ghost predicate Reachable(plan: Plan, s: State) {
    exists states, steps :: IsRun(plan, states, steps) && |states| == |steps| + 1 && states[|steps|] == s
  }

  lemma NothingYet(plan: Plan)
    ensures Reachable(plan, State([], None))
  {
    assert IsRun(plan, [State([], None)], []);
  }

  lemma OneStepOn(plan: Plan, s: State, step: Step)
    requires Reachable(plan, s) && Enabled(plan, s, step)
    ensures Reachable(plan, Next(plan, s, step))
  {
    hide Next, Enabled;
    var states, steps :| IsRun(plan, states, steps) && states[|steps|] == s;
    var states', steps' := states + [Next(plan, s, step)], steps + [step];
    forall k | 0 <= k < |steps'|
      ensures Enabled(plan, states'[k], steps'[k]) && states'[k + 1] == Next(plan, states'[k], steps'[k])
    {
      if k < |steps| {
        assert states'[k] == states[k] && states'[k + 1] == states[k + 1] && steps'[k] == steps[k];
      }
    }
    assert IsRun(plan, states', steps') && states'[|steps'|] == Next(plan, s, step);
  }

  lemma EachIsWilling(plan: Plan, i: nat)
    requires AllWilling(plan) && i < |plan.route|
    ensures WillingAt(plan, i) && IsHonest(plan, plan.route[i].nodeId) && plan.route[i].nodeId in plan.relays
  {
    hide Refusal, Admits, Readable;
  }

  lemma Begins(plan: Plan)
    requires AllWilling(plan)
    ensures Reachable(plan, State([At(plan, 0, Opened, None)], None))
  {
    hide Refusal, Admits, Readable, Reachable, WillingAt;
    NothingYet(plan);
    EachIsWilling(plan, 0);
    OneStepOn(plan, State([], None), Open);
    assert plan.route[0..] == plan.route;
  }

  lemma JudgedReady(plan: Plan, i: nat)
    requires i < |plan.route| && WillingAt(plan, i)
    ensures Judged(ConfigOf(plan, plan.route[i].nodeId), At(plan, i, Opened, None), IDLE) == Held(plan, i, Ready)
  {
    hide Refusal, Admits;
  }

  lemma WaitsLength(plan: Plan, k: nat)
    requires k <= |plan.route|
    ensures |Waits(plan, k)| == k
    ensures k < |plan.route| ==> Waits(plan, k + 1) == Waits(plan, k) + [Held(plan, k, Waiting)]
  {
  }

  /** From a hop just opened to one that has passed every check. */
  lemma Judges(plan: Plan, k: nat)
    requires AllWilling(plan) && k < |plan.route|
    requires Reachable(plan, State(Waits(plan, k) + [At(plan, k, Opened, None)], None))
    ensures Reachable(plan, State(Waits(plan, k) + [Held(plan, k, Ready)], None))
  {
    hide Reachable, AllWilling, WillingAt, Judged, Waits;
    EachIsWilling(plan, k);
    JudgedReady(plan, k);
    WaitsLength(plan, k);
    var s := State(Waits(plan, k) + [At(plan, k, Opened, None)], None);
    assert s.hops[k] == At(plan, k, Opened, None);
    OneStepOn(plan, s, Judge(k, IDLE));
    assert s.hops[k := Held(plan, k, Ready)] == Waits(plan, k) + [Held(plan, k, Ready)];
  }

  /** And on to the next hop. */
  lemma PassesOn(plan: Plan, k: nat)
    requires AllWilling(plan) && k + 1 < |plan.route|
    requires Reachable(plan, State(Waits(plan, k) + [Held(plan, k, Ready)], None))
    ensures Reachable(plan, State(Waits(plan, k + 1) + [At(plan, k + 1, Opened, None)], None))
  {
    hide Reachable, AllWilling, WillingAt, Waits;
    EachIsWilling(plan, k);
    EachIsWilling(plan, k + 1);
    WaitsLength(plan, k);
    var s := State(Waits(plan, k) + [Held(plan, k, Ready)], None);
    assert s.hops[k] == Held(plan, k, Ready);
    assert plan.route[k..][1] == plan.route[k + 1] && plan.route[k..][1..] == plan.route[k + 1..];
    OneStepOn(plan, s, PassOn(k, true));
    assert s.hops[k := Held(plan, k, Waiting)] == Waits(plan, k + 1);
  }

  lemma {:induction false} GoesOut(plan: Plan, k: nat)
    requires AllWilling(plan) && k < |plan.route|
    ensures Reachable(plan, State(Waits(plan, k) + [Held(plan, k, Ready)], None))
  {
    hide Reachable, AllWilling, Waits;
    if k == 0 {
      Begins(plan);
      WaitsLength(plan, 0);
      assert Waits(plan, 0) + [At(plan, 0, Opened, None)] == [At(plan, 0, Opened, None)];
    } else {
      GoesOut(plan, k - 1);
      PassesOn(plan, k - 1);
    }
    Judges(plan, k);
  }

  lemma HasRoute(plan: Plan)
    requires AllWilling(plan)
    ensures plan.route != []
  {
  }

  /** The last hop reaches its upstream and says so. */
  lemma TurnsBack(plan: Plan)
    requires AllWilling(plan)
    ensures Reachable(plan, BackTo(plan, |plan.route| - 1))
  {
    hide Reachable, AllWilling, WillingAt, Waits;
    var n := |plan.route| - 1;
    HasRoute(plan);
    GoesOut(plan, n);
    EachIsWilling(plan, n);
    WaitsLength(plan, n);
    var s := State(Waits(plan, n) + [Held(plan, n, Ready)], None);
    assert s.hops[n] == Held(plan, n, Ready) && |plan.route[n..]| == 1;
    OneStepOn(plan, s, Connect(n, true));
    var s' := State(Waits(plan, n) + [Held(plan, n, Reached)], None);
    assert s.hops[n := Held(plan, n, Reached)] == s'.hops;
    assert s'.hops[n] == Held(plan, n, Reached);
    OneStepOn(plan, s', AckReady(n));
    assert AllReady(plan)[n..] == [Held(plan, n, Answered(Ack(READY)))];
    assert s'.hops[n := Held(plan, n, Answered(Ack(READY)))] == BackTo(plan, n).hops;
  }

  lemma ReadyLength(plan: Plan)
    ensures |AllReady(plan)| == |plan.route|
    ensures forall i :: 0 <= i < |plan.route| ==> AllReady(plan)[i] == Held(plan, i, Answered(Ack(READY)))
  {
  }

  lemma {:induction false} ComesBack(plan: Plan, k: nat)
    requires AllWilling(plan) && k < |plan.route|
    ensures Reachable(plan, BackTo(plan, k))
    decreases |plan.route| - k
  {
    hide Reachable, AllWilling, WillingAt, Waits, AllReady, Known, Refusal, Admits, Readable, Sanitised, Judged;
    if k == |plan.route| - 1 {
      TurnsBack(plan);
    } else {
      ComesBack(plan, k + 1);
      EachIsWilling(plan, k);
      WaitsLength(plan, k);
      WaitsLength(plan, k + 1);
      ReadyLength(plan);
      KnownStatuses();
      SanitisedIsKnown(Ack(READY));
      var s := BackTo(plan, k + 1);
      assert s.hops[k] == Held(plan, k, Waiting);
      assert s.hops[k + 1] == AllReady(plan)[k + 1];
      OneStepOn(plan, s, RelayBack(k));
      assert s.hops[k := Held(plan, k, Answered(Ack(READY)))] == BackTo(plan, k).hops;
    }
  }

  /** Over a willing route of any length, some run ends with the originator
      hearing that the tunnel is ready. */
  lemma WillingChainsComeUp(plan: Plan) returns (states: seq<State>, steps: seq<Step>)
    requires AllWilling(plan)
    ensures IsRun(plan, states, steps)
    ensures states[|steps|].heard == Some(Ack("tunnel_ready")) && |states[|steps|].hops| == |plan.route|
  {
    hide IsRun, AllWilling, Waits, AllReady, Readable, Refusal;
    HasRoute(plan);
    ComesBack(plan, 0);
    WaitsLength(plan, 0);
    ReadyLength(plan);
    var s := BackTo(plan, 0);
    assert s.hops == AllReady(plan);
    OneStepOn(plan, s, Hear);
    var heard := s.(heard := Some(Ack(READY)));
    states, steps :| IsRun(plan, states, steps) && |states| == |steps| + 1 && states[|steps|] == heard;
  }
}
