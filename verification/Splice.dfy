/** The splice of an admitted chain: two pumps, one shared clock of last
    activity, and a watchdog that reads it at every tick. Times are in
    nanoseconds. */
module Splice {
  import opened Common

  const BUFFER: nat := 8192
  const MIN_TICK: nat := 10_000_000

  /** The watchdog wakes four times a window, but never more often than every
      ten milliseconds. */
  function TickOf(idle: nat): nat {
    if idle / 4 >= MIN_TICK then idle / 4 else MIN_TICK
  }

  /** A pump is about to read, still writing out what it read, or has seen the
      end of its input and shut its output down. */
  datatype Phase = Reading | Writing | Finished

  datatype Pump<T> = Pump(read: seq<T>, delivered: seq<T>, phase: Phase)

  datatype Outcome = Running | Done | IdleCut | Broken

  datatype State<T> = State(now: nat, last: nat, nextTick: nat, pumps: seq<Pump<T>>, outcome: Outcome)

  datatype Step<T> =
    | Elapse(d: nat)
    | Read(side: nat, chunk: seq<T>)
    | Write(side: nat, n: nat)
    | EndOfInput(side: nat)
    | Fail(side: nat)
    | Tick
    | Finish

  function Start<T>(at: nat, idle: nat): State<T> {
    State(at, at, at + TickOf(idle), [Pump([], [], Reading), Pump([], [], Reading)], Running)
  }

  /** Time stands still while a sleep is due, so sleeps are exact. */
  predicate Enabled<T>(s: State<T>, step: Step<T>) {
    && s.outcome.Running?
    && match step
       case Elapse(d) => s.now + d <= s.nextTick
       case Read(i, chunk) => i < |s.pumps| && s.pumps[i].phase.Reading? && 0 < |chunk| <= BUFFER
       case Write(i, n) =>
         i < |s.pumps| && s.pumps[i].phase.Writing? && 0 < n <= |s.pumps[i].read| - |s.pumps[i].delivered|
       case EndOfInput(i) => i < |s.pumps| && s.pumps[i].phase.Reading?
       case Fail(i) => i < |s.pumps| && !s.pumps[i].phase.Finished?
       case Tick => s.now == s.nextTick
       case Finish => forall i :: 0 <= i < |s.pumps| ==> s.pumps[i].phase.Finished?
  }

  function Wrote<T>(p: Pump<T>, n: nat): Pump<T>
    requires |p.delivered| + n <= |p.read|
  {
    var delivered := p.delivered + p.read[|p.delivered|..|p.delivered| + n];
    Pump(p.read, delivered, if |delivered| == |p.read| then Reading else Writing)
  }

  function Next<T>(idle: nat, s: State<T>, step: Step<T>): State<T>
    requires Enabled(s, step)
  {
    match step
    case Elapse(d) => s.(now := s.now + d)
    case Read(i, chunk) =>
      s.(last := s.now, pumps := s.pumps[i := Pump(s.pumps[i].read + chunk, s.pumps[i].delivered, Writing)])
    case Write(i, n) => s.(pumps := s.pumps[i := Wrote(s.pumps[i], n)])
    case EndOfInput(i) => s.(pumps := s.pumps[i := s.pumps[i].(phase := Finished)])
    case Fail(_) => s.(outcome := Broken)
    case Tick =>
      if SaturatingSub(s.now, s.last) >= idle then s.(outcome := IdleCut)
      else s.(nextTick := s.nextTick + TickOf(idle))
    case Finish => s.(outcome := Done)
  }

  /** What one side has delivered is the first part of what it read, all of it
      unless it is in the middle of writing. */
  ghost predicate PumpOk<T>(p: Pump<T>) {
    && p.delivered <= p.read
    && (!p.phase.Writing? ==> p.delivered == p.read)
  }

  ghost predicate Inv<T>(idle: nat, s: State<T>) {
    && |s.pumps| == 2
    && (forall i :: 0 <= i < |s.pumps| ==> PumpOk(s.pumps[i]))
    && s.last <= s.now <= s.nextTick < s.last + idle + TickOf(idle)
    && (s.outcome.Done? ==> forall i :: 0 <= i < |s.pumps| ==> s.pumps[i].phase.Finished?)
    && (s.outcome.IdleCut? ==> s.now - s.last >= idle)
  }

  lemma WroteIsOk<T>(p: Pump<T>, n: nat)
    requires PumpOk(p) && |p.delivered| + n <= |p.read|
    ensures PumpOk(Wrote(p, n))
  {
    var k := |p.delivered|;
    assert p.delivered == p.read[..k];
    assert p.read[..k] + p.read[k..k + n] == p.read[..k + n];
  }

  lemma StepKeepsInv<T>(idle: nat, s: State<T>, step: Step<T>)
    requires idle > 0 && Inv(idle, s) && Enabled(s, step)
    ensures Inv(idle, Next(idle, s, step))
  {
    match step {
      case Write(i, n) =>
        assert PumpOk(s.pumps[i]);
        WroteIsOk(s.pumps[i], n);
      case Read(i, chunk) =>
        assert PumpOk(s.pumps[i]);
      case EndOfInput(i) =>
        assert PumpOk(s.pumps[i]);
      case _ =>
    }
  }

  ghost predicate IsRun<T(!new)>(at: nat, idle: nat, states: seq<State<T>>, steps: seq<Step<T>>) {
    && |states| == |steps| + 1
    && states[0] == Start(at, idle)
    && forall k :: 0 <= k < |steps| ==> Enabled(states[k], steps[k]) && states[k + 1] == Next(idle, states[k], steps[k])
  }

  lemma StartIsOk<T>(at: nat, idle: nat)
    requires idle > 0
    ensures Inv<T>(idle, Start(at, idle))
  {
  }

  lemma {:induction false} RunsKeepInv<T(!new)>(at: nat, idle: nat, states: seq<State<T>>, steps: seq<Step<T>>, k: nat)
    requires idle > 0 && IsRun(at, idle, states, steps) && k < |states|
    ensures Inv(idle, states[k])
  {
    hide Inv, Next, Enabled;
    if k == 0 {
      StartIsOk<T>(at, idle);
    } else {
      RunsKeepInv(at, idle, states, steps, k - 1);
      assert states[k - 1 + 1] == Next(idle, states[k - 1], steps[k - 1]);
      StepKeepsInv(idle, states[k - 1], steps[k - 1]);
    }
  }

  /** When the last byte was read, in either direction: the start, if none was. */
  function LastRead<T>(at: nat, states: seq<State<T>>, steps: seq<Step<T>>, k: nat): nat
    requires k < |states| && |states| == |steps| + 1
  {
    if k == 0 then at
    else if steps[k - 1].Read? then states[k - 1].now
    else LastRead(at, states, steps, k - 1)
  }

  lemma {:induction false} ClockIsLastRead<T(!new)>(at: nat, idle: nat, states: seq<State<T>>, steps: seq<Step<T>>,
                                             k: nat)
    requires IsRun(at, idle, states, steps) && k < |states|
    ensures states[k].last == LastRead(at, states, steps, k)
  {
    if k > 0 {
      ClockIsLastRead(at, idle, states, steps, k - 1);
      assert states[k - 1 + 1] == Next(idle, states[k - 1], steps[k - 1]);
    }
  }

  /** In every run each direction has delivered a first part of what it read;
      a normal end comes only after both inputs ended and everything read was
      delivered; and an idle cut falls at least `idle`, and less than one tick
      more, after the last read in either direction. */
  lemma SpliceIsFair<T(!new)>(at: nat, idle: nat, states: seq<State<T>>, steps: seq<Step<T>>, k: nat)
    requires idle > 0 && IsRun(at, idle, states, steps) && k < |states|
    ensures |states[k].pumps| == 2
    ensures forall i :: 0 <= i < 2 ==> states[k].pumps[i].delivered <= states[k].pumps[i].read
    ensures states[k].outcome.Done? ==>
              forall i :: 0 <= i < 2 ==>
                states[k].pumps[i].phase.Finished? && states[k].pumps[i].delivered == states[k].pumps[i].read
    ensures states[k].outcome.Running? ==>
              states[k].now - LastRead(at, states, steps, k)
              < idle + (if idle / 4 >= 10_000_000 then idle / 4 else 10_000_000)
    ensures states[k].outcome.IdleCut? ==>
              var quiet := states[k].now - LastRead(at, states, steps, k);
              idle <= quiet < idle + (if idle / 4 >= 10_000_000 then idle / 4 else 10_000_000)
  {
    RunsKeepInv(at, idle, states, steps, k);
    ClockIsLastRead(at, idle, states, steps, k);
    assert PumpOk(states[k].pumps[0]) && PumpOk(states[k].pumps[1]);
  }

  /** Any two pieces that fit the buffer can cross in opposite directions, each
      side ending when it likes, and the splice then ends normally. */
  lemma BothWaysComeThrough<T(!new)>(at: nat, idle: nat, a: seq<T>, b: seq<T>)
    returns (states: seq<State<T>>, steps: seq<Step<T>>)
    requires 0 < |a| <= 8192 && 0 < |b| <= 8192
    ensures IsRun(at, idle, states, steps)
    ensures var last := states[|states| - 1];
            last.outcome.Done? && |last.pumps| == 2 && last.pumps[0].delivered == a && last.pumps[1].delivered == b
  {
    var s0 := Start<T>(at, idle);
    assert [] + a == a && [] + b == b;
    var s1 := Next(idle, s0, Read(0, a));
    var s2 := Next(idle, s1, Write(0, |a|));
    assert a[0..|a|] == a;
    assert s2.pumps[0] == Pump(a, a, Reading);
    var s3 := Next(idle, s2, EndOfInput(0));
    var s4 := Next(idle, s3, Read(1, b));
    var s5 := Next(idle, s4, Write(1, |b|));
    assert b[0..|b|] == b;
    assert s5.pumps[1] == Pump(b, b, Reading);
    var s6 := Next(idle, s5, EndOfInput(1));
    var s7 := Next(idle, s6, Finish);
    states := [s0, s1, s2, s3, s4, s5, s6, s7];
    steps := [Read(0, a), Write(0, |a|), EndOfInput(0), Read(1, b), Write(1, |b|), EndOfInput(1), Finish];
  }

  // ----- one pump's loop -----

  /** What one read brings: some bytes, at some time, or a failure. Reading on
      after the last of these meets the end of the input. */
  datatype Arrival<T> = Bytes(chunk: seq<T>, at: nat) | ReadFails

  predicate FitsBuffer<T>(arrivals: seq<Arrival<T>>) {
    forall k :: 0 <= k < |arrivals| && arrivals[k].Bytes? ==> 0 < |arrivals[k].chunk| <= BUFFER
  }

  /** Everything read before the first failure. */
  function Readable<T>(arrivals: seq<Arrival<T>>): seq<T> {
    if arrivals == [] || arrivals[0].ReadFails? then [] else arrivals[0].chunk + Readable(arrivals[1..])
  }

  predicate BytesUpTo<T>(arrivals: seq<Arrival<T>>, k: nat)
    requires k <= |arrivals|
  {
    forall j :: 0 <= j < k ==> arrivals[j].Bytes?
  }

  /** The clock both pumps of a splice stamp. */
  class Clock {
    var last: nat

    constructor (at: nat)
      ensures last == at
    {
      last := at;
    }
  }

  lemma {:induction false} ReadableFrom<T>(arrivals: seq<Arrival<T>>, k: nat)
    requires k <= |arrivals| && BytesUpTo(arrivals, k)
    ensures Readable(arrivals) == Readable(arrivals[..k]) + Readable(arrivals[k..])
  {
    if k == 0 {
      assert arrivals[0..] == arrivals;
      assert Readable<T>([]) == [];
    } else {
      var rest := arrivals[1..];
      ReadableFrom(rest, k - 1);
      assert arrivals[..k][1..] == rest[..k - 1];
      assert rest[k - 1..] == arrivals[k..];
    }
  }

  lemma ReadableNext<T>(arrivals: seq<Arrival<T>>, k: nat)
    requires k < |arrivals| && BytesUpTo(arrivals, k + 1)
    ensures Readable(arrivals[..k + 1]) == Readable(arrivals[..k]) + arrivals[k].chunk
  {
    var upTo := arrivals[..k + 1];
    ReadableFrom(upTo, k);
    assert upTo[..k] == arrivals[..k];
    assert upTo[k..] == [arrivals[k]];
    assert Readable([arrivals[k]]) == arrivals[k].chunk + Readable([arrivals[k]][1..]);
  }

  /** Copies one direction until its input ends, or until either side fails.
      The peer takes `room` bytes before it fails, or any number. `got` is how
      many reads brought bytes: each stamps the clock before anything of it is
      written. */
  method PumpLoop<T>(arrivals: seq<Arrival<T>>, room: Option<nat>, clock: Clock)
    returns (delivered: seq<T>, ended: bool, ghost got: nat)
    requires FitsBuffer(arrivals)
    modifies clock
    ensures got <= |arrivals| && BytesUpTo(arrivals, got)
    ensures clock.last == if got == 0 then old(clock.last) else arrivals[got - 1].at
    ensures delivered <= Readable(arrivals[..got]) <= Readable(arrivals)
    ensures delivered == Readable(arrivals[..got]) || (room.Some? && |delivered| == room.value)
    ensures ended <==> got == |arrivals| && delivered == Readable(arrivals)
    ensures ended <==> BytesUpTo(arrivals, |arrivals|) && (room.Some? ==> |Readable(arrivals)| <= room.value)
    ensures !ended && got < |arrivals| && delivered == Readable(arrivals[..got]) ==> arrivals[got].ReadFails?
  {
    delivered, got := [], 0;
    var k := 0;
    while true
      invariant k <= |arrivals| && got == k && BytesUpTo(arrivals, k)
      invariant delivered == Readable(arrivals[..k])
      invariant room.Some? ==> |delivered| <= room.value
      invariant clock.last == if k == 0 then old(clock.last) else arrivals[k - 1].at
      decreases |arrivals| - k
    {
      ReadableFrom(arrivals, k);
      if k == |arrivals| {
        assert arrivals[..k] == arrivals;
        return delivered, true, got;
      }
      match arrivals[k] {
        case ReadFails =>
          return delivered, false, got;
        case Bytes(chunk, at) =>
          clock.last := at;
          got := k + 1;
          ReadableNext(arrivals, k);
          ReadableFrom(arrivals, k + 1);
          if room.Some? && |delivered| + |chunk| > room.value {
            delivered := delivered + chunk[..room.value - |delivered|];
            return delivered, false, got;
          }
          delivered := delivered + chunk;
          k := k + 1;
      }
    }
  }
}
