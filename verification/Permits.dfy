/** Counting relayed chains and pending handshakes: two allowances, each capped
    in total and per key, over connections that interleave freely. */
module Permits {
  import opened Common

  /** One allowance: how many slots are out, and how many to each key. */
  datatype Tally<K(==)> = Tally(total: nat, counts: map<K, nat>)

  datatype Caps = Caps(total: nat, perKey: nat)

  function CountOf<K>(t: Tally<K>, key: K): nat {
    if key in t.counts then t.counts[key] else 0
  }

  predicate Grants<K>(t: Tally<K>, caps: Caps, key: K) {
    t.total < caps.total && CountOf(t, key) < caps.perKey
  }

  /** Asking for a slot looks the key up by inserting it, so a refusal for the
      key's own sake leaves the entry looked up behind. */
  function Taken<K>(t: Tally<K>, caps: Caps, key: K): Tally<K> {
    if t.total >= caps.total then t
    else if CountOf(t, key) >= caps.perKey then Tally(t.total, t.counts[key := CountOf(t, key)])
    else Tally(t.total + 1, t.counts[key := CountOf(t, key) + 1])
  }

  function Returned<K>(t: Tally<K>, key: K): Tally<K> {
    var total := SaturatingSub(t.total, 1);
    if key !in t.counts then Tally(total, t.counts)
    else
      var count := SaturatingSub(t.counts[key], 1);
      Tally(total, if count == 0 then t.counts - {key} else t.counts[key := count])
  }

  /** The tally is exactly these live slots, with no entry for a key that holds
      none. */
  ghost predicate Tallies<K(!new)>(t: Tally<K>, live: multiset<K>) {
    && t.total == |live|
    && (forall k :: k in t.counts <==> k in live)
    && (forall k :: k in t.counts ==> t.counts[k] == live[k])
  }

  ghost predicate WithinCaps<K(!new)>(caps: Caps, live: multiset<K>) {
    |live| <= caps.total && forall k :: live[k] <= caps.perKey
  }

  lemma TallyIsUnique<K(!new)>(a: Tally<K>, b: Tally<K>, live: multiset<K>)
    requires Tallies(a, live) && Tallies(b, live)
    ensures a == b
  {
    assert a.counts == b.counts;
  }

  /** A slot is granted exactly when neither cap is met, and granting or
      refusing keeps the tally exact. */
  lemma TakeKeepsTally<K(!new)>(t: Tally<K>, caps: Caps, live: multiset<K>, key: K)
    requires Tallies(t, live) && WithinCaps(caps, live) && caps.perKey >= 1
    ensures Grants(t, caps, key) <==> |live| < caps.total && live[key] < caps.perKey
    ensures Grants(t, caps, key) ==>
              Tallies(Taken(t, caps, key), live + multiset{key}) && WithinCaps(caps, live + multiset{key})
    ensures !Grants(t, caps, key) ==> Taken(t, caps, key) == t
  {
    if !Grants(t, caps, key) && t.total < caps.total {
      assert t.counts[key := CountOf(t, key)] == t.counts;
    }
  }

  /** Returning a live slot undoes exactly that slot, and neither subtraction
      is ever cut off at zero. */
  lemma ReturnKeepsTally<K(!new)>(t: Tally<K>, caps: Caps, live: multiset<K>, key: K)
    requires Tallies(t, live) && WithinCaps(caps, live) && key in live
    ensures t.total >= 1 && key in t.counts && t.counts[key] >= 1
    ensures Tallies(Returned(t, key), live - multiset{key})
    ensures WithinCaps(caps, live - multiset{key})
  {
    assert live == (live - multiset{key}) + multiset{key};
  }

  /** Taking a slot and returning it changes nothing. */
  lemma ReturnUndoesTake<K(!new)>(t: Tally<K>, caps: Caps, live: multiset<K>, key: K)
    requires Tallies(t, live) && WithinCaps(caps, live) && Grants(t, caps, key)
    ensures Returned(Taken(t, caps, key), key) == t
  {
    TakeKeepsTally(t, caps, live, key);
    ReturnKeepsTally(Taken(t, caps, key), caps, live + multiset{key}, key);
    assert live + multiset{key} - multiset{key} == live;
    TallyIsUnique(Returned(Taken(t, caps, key), key), t, live);
  }

  /** An empty entry is left behind exactly when a key may hold nothing at all
      and the total had room. */
  lemma EmptyEntryLeftBehind<K(!new)>(t: Tally<K>, caps: Caps, live: multiset<K>, key: K)
    requires Tallies(t, live) && WithinCaps(caps, live)
    ensures (exists k :: k in Taken(t, caps, key).counts && Taken(t, caps, key).counts[k] == 0)
            <==> caps.perKey == 0 && |live| < caps.total
  {
    var next := Taken(t, caps, key);
    if caps.perKey == 0 && |live| < caps.total {
      assert live[key] == 0 && key in next.counts && next.counts[key] == 0;
    }
  }

  // ----- the relay's own accounting -----

  class RelayRuntime<Addr(==, !new)> {
    const chains: Caps
    const handshakes: Caps
    var total: nat
    var perPeer: map<string, nat>
    var pendingTotal: nat
    var pendingPerAddr: map<Addr, nat>

    function Permits(): Tally<string>
      reads this
    {
      Tally(total, perPeer)
    }

    function Pending(): Tally<Addr>
      reads this
    {
      Tally(pendingTotal, pendingPerAddr)
    }

    constructor (chains: Caps, handshakes: Caps)
      ensures this.chains == chains && this.handshakes == handshakes
      ensures Permits() == Tally(0, map[]) && Pending() == Tally(0, map[])
    {
      this.chains, this.handshakes := chains, handshakes;
      total, perPeer, pendingTotal, pendingPerAddr := 0, map[], 0, map[];
    }

    method AcquirePending(addr: Addr) returns (granted: bool)
      modifies this`pendingTotal, this`pendingPerAddr
      ensures granted == Grants(old(Pending()), handshakes, addr)
      ensures Pending() == Taken(old(Pending()), handshakes, addr)
    {
      if pendingTotal >= handshakes.total {
        return false;
      }
      if addr !in pendingPerAddr {
        pendingPerAddr := pendingPerAddr[addr := 0];
      }
      if pendingPerAddr[addr] >= handshakes.perKey {
        assert pendingPerAddr == old(pendingPerAddr)[addr := CountOf(old(Pending()), addr)];
        return false;
      }
      pendingPerAddr := pendingPerAddr[addr := pendingPerAddr[addr] + 1];
      pendingTotal := pendingTotal + 1;
      assert pendingPerAddr == old(pendingPerAddr)[addr := CountOf(old(Pending()), addr) + 1];
      return true;
    }

    method Acquire(peer: string) returns (granted: bool)
      modifies this`total, this`perPeer
      ensures granted == Grants(old(Permits()), chains, peer)
      ensures Permits() == Taken(old(Permits()), chains, peer)
    {
      if total >= chains.total {
        return false;
      }
      if peer !in perPeer {
        perPeer := perPeer[peer := 0];
      }
      if perPeer[peer] >= chains.perKey {
        assert perPeer == old(perPeer)[peer := CountOf(old(Permits()), peer)];
        return false;
      }
      perPeer := perPeer[peer := perPeer[peer] + 1];
      total := total + 1;
      assert perPeer == old(perPeer)[peer := CountOf(old(Permits()), peer) + 1];
      return true;
    }

    method DropPermit(peer: string)
      modifies this`total, this`perPeer
      ensures Permits() == Returned(old(Permits()), peer)
    {
      total := SaturatingSub(total, 1);
      if peer in perPeer {
        perPeer := perPeer[peer := SaturatingSub(perPeer[peer], 1)];
        if perPeer[peer] == 0 {
          perPeer := perPeer - {peer};
          assert perPeer == old(perPeer) - {peer};
        }
      }
    }

    method DropPending(addr: Addr)
      modifies this`pendingTotal, this`pendingPerAddr
      ensures Pending() == Returned(old(Pending()), addr)
    {
      pendingTotal := SaturatingSub(pendingTotal, 1);
      if addr in pendingPerAddr {
        pendingPerAddr := pendingPerAddr[addr := SaturatingSub(pendingPerAddr[addr], 1)];
        if pendingPerAddr[addr] == 0 {
          pendingPerAddr := pendingPerAddr - {addr};
          assert pendingPerAddr == old(pendingPerAddr) - {addr};
        }
      }
    }
  }

  // ----- connections, interleaved -----

  /** Where a connection is, and so which slots it holds: a handshake slot
      until it resolves, a chain slot from admission until its end. */
  datatype Conn<Addr> =
    | Handshaking(addr: Addr)
    | Admitted(addr: Addr, peer: string)
    | Splicing(peer: string)
    | Ending(addr: Addr)
    | Gone

  /** One turn at the lock. Timeouts, errors, refusals and closes all show as
      the drops of whatever the connection still holds. */
  datatype Step<Addr> =
    | Accept(addr: Addr)
    | Admit(conn: nat, peer: string)
    | DropPermitOf(conn: nat)
    | DropPendingOf(conn: nat)

  datatype World<Addr(==)> = World(permits: Tally<string>, pending: Tally<Addr>, conns: seq<Conn<Addr>>)

  datatype Config = Config(chains: Caps, handshakes: Caps)

  predicate Enabled<Addr>(w: World<Addr>, step: Step<Addr>) {
    match step
    case Accept(_) => true
    case Admit(c, _) => c < |w.conns| && w.conns[c].Handshaking?
    case DropPermitOf(c) => c < |w.conns| && (w.conns[c].Admitted? || w.conns[c].Splicing?)
    case DropPendingOf(c) => c < |w.conns| && (w.conns[c].Handshaking? || w.conns[c].Admitted? || w.conns[c].Ending?)
  }

  function AfterAdmit<Addr>(granted: bool, addr: Addr, peer: string): Conn<Addr> {
    if granted then Admitted(addr, peer) else Ending(addr)
  }

  function AfterPermit<Addr>(conn: Conn<Addr>): Conn<Addr> {
    if conn.Admitted? then Ending(conn.addr) else Gone
  }

  function AfterPending<Addr>(conn: Conn<Addr>): Conn<Addr> {
    if conn.Admitted? then Splicing(conn.peer) else Gone
  }

  function Next<Addr(!new)>(config: Config, w: World<Addr>, step: Step<Addr>): World<Addr>
    requires Enabled(w, step)
  {
    match step
    case Accept(addr) =>
      World(w.permits, Taken(w.pending, config.handshakes, addr),
            w.conns + [if Grants(w.pending, config.handshakes, addr) then Handshaking(addr) else Gone])
    case Admit(c, peer) =>
      var addr := w.conns[c].addr;
      World(Taken(w.permits, config.chains, peer), w.pending,
            w.conns[c := AfterAdmit(Grants(w.permits, config.chains, peer), addr, peer)])
    case DropPermitOf(c) =>
      World(Returned(w.permits, w.conns[c].peer), w.pending,
            w.conns[c := AfterPermit(w.conns[c])])
    case DropPendingOf(c) =>
      World(w.permits, Returned(w.pending, w.conns[c].addr),
            w.conns[c := AfterPending(w.conns[c])])
  }

  function PermitOf<Addr>(conn: Conn<Addr>): multiset<string> {
    if conn.Admitted? || conn.Splicing? then multiset{conn.peer} else multiset{}
  }

  function PendingOf<Addr>(conn: Conn<Addr>): multiset<Addr> {
    if conn.Handshaking? || conn.Admitted? || conn.Ending? then multiset{conn.addr} else multiset{}
  }

  /** The chain slots live connections hold. */
  function LivePermits<Addr>(conns: seq<Conn<Addr>>): multiset<string> {
    if conns == [] then multiset{} else LivePermits(conns[..|conns| - 1]) + PermitOf(conns[|conns| - 1])
  }

  /** The handshake slots live connections hold. */
  function LivePending<Addr>(conns: seq<Conn<Addr>>): multiset<Addr> {
    if conns == [] then multiset{} else LivePending(conns[..|conns| - 1]) + PendingOf(conns[|conns| - 1])
  }

  lemma Carry<K>(a': multiset<K>, a: multiset<K>, p: multiset<K>, q: multiset<K>, rest: multiset<K>)
    requires a' + p == a + q
    ensures (a' + rest) + p == (a + rest) + q
  {
    calc {
      (a' + rest) + p;
      (a' + p) + rest;
      (a + q) + rest;
      (a + rest) + q;
    }
  }

  lemma Swap<K>(a: multiset<K>, p: multiset<K>, q: multiset<K>)
    ensures (a + q) + p == (a + p) + q
  {
  }

  lemma {:induction false} Moves<Addr>(conns: seq<Conn<Addr>>, c: nat, conn: Conn<Addr>)
    requires c < |conns|
    ensures LivePermits(conns[c := conn]) + PermitOf(conns[c]) == LivePermits(conns) + PermitOf(conn)
    ensures LivePending(conns[c := conn]) + PendingOf(conns[c]) == LivePending(conns) + PendingOf(conn)
  {
    hide PermitOf, PendingOf;
    var next := conns[c := conn];
    var front, last := conns[..|conns| - 1], conns[|conns| - 1];
    if c < |front| {
      assert next[..|next| - 1] == front[c := conn];
      Moves(front, c, conn);
      Carry(LivePermits(front[c := conn]), LivePermits(front), PermitOf(conns[c]), PermitOf(conn), PermitOf(last));
      Carry(LivePending(front[c := conn]), LivePending(front), PendingOf(conns[c]), PendingOf(conn), PendingOf(last));
    } else {
      assert next[..|next| - 1] == front;
      Swap(LivePermits(front), PermitOf(last), PermitOf(conn));
      Swap(LivePending(front), PendingOf(last), PendingOf(conn));
    }
  }

  lemma Gains<K>(a': multiset<K>, a: multiset<K>, p: multiset<K>, q: multiset<K>)
    requires a' + p == a + q && p == multiset{}
    ensures a' == a + q
  {
    assert a' + multiset{} == a';
  }

  lemma Loses<K>(a': multiset<K>, a: multiset<K>, k: K, q: multiset<K>)
    requires a' + multiset{k} == a + q && q == multiset{}
    ensures a' == a - multiset{k} && k in a
  {
    assert a + multiset{} == a;
    assert a' + multiset{k} - multiset{k} == a';
  }

  lemma Keeps<K>(a': multiset<K>, a: multiset<K>, p: multiset<K>)
    requires a' + p == a + p
    ensures a' == a
  {
    assert a' + p - p == a' && a + p - p == a;
  }

  lemma Arrives<Addr>(conns: seq<Conn<Addr>>, conn: Conn<Addr>)
    ensures LivePermits(conns + [conn]) == LivePermits(conns) + PermitOf(conn)
    ensures LivePending(conns + [conn]) == LivePending(conns) + PendingOf(conn)
  {
    assert (conns + [conn])[..|conns|] == conns;
  }

  /** Both counters are exactly the slots live connections hold, within every
      cap. */
  ghost predicate Sound<Addr(!new)>(config: Config, w: World<Addr>) {
    && Tallies(w.permits, LivePermits(w.conns)) && WithinCaps(config.chains, LivePermits(w.conns))
    && Tallies(w.pending, LivePending(w.conns)) && WithinCaps(config.handshakes, LivePending(w.conns))
  }

  lemma AcceptIsSound<Addr(!new)>(config: Config, w: World<Addr>, addr: Addr)
    requires Sound(config, w) && config.handshakes.perKey >= 1
    ensures Sound(config, Next(config, w, Accept(addr)))
    ensures var live := LivePending(w.conns);
            Next(config, w, Accept(addr)).conns == w.conns +
            [if |live| < config.handshakes.total && live[addr] < config.handshakes.perKey then Handshaking(addr)
              else Gone]
  {
    hide Tallies, WithinCaps, Grants, Taken, LivePermits, LivePending;
    var conn := if Grants(w.pending, config.handshakes, addr) then Handshaking(addr) else Gone;
    Arrives(w.conns, conn);
    assert LivePermits(w.conns) + multiset{} == LivePermits(w.conns);
    assert LivePending(w.conns) + multiset{} == LivePending(w.conns);
    TakeKeepsTally(w.pending, config.handshakes, LivePending(w.conns), addr);
  }

  lemma AdmitMoves<Addr>(conns: seq<Conn<Addr>>, c: nat, granted: bool, peer: string)
    requires c < |conns| && conns[c].Handshaking?
    ensures var next := conns[c := AfterAdmit(granted, conns[c].addr, peer)];
            && LivePermits(next) == (if granted then LivePermits(conns) + multiset{peer} else LivePermits(conns))
            && LivePending(next) == LivePending(conns)
  {
    hide LivePermits, LivePending;
    var conn := AfterAdmit(granted, conns[c].addr, peer);
    Moves(conns, c, conn);
    Gains(LivePermits(conns[c := conn]), LivePermits(conns), PermitOf(conns[c]), PermitOf(conn));
    Keeps(LivePending(conns[c := conn]), LivePending(conns), PendingOf(conn));
    assert LivePermits(conns) + multiset{} == LivePermits(conns);
  }

  lemma PermitMoves<Addr>(conns: seq<Conn<Addr>>, c: nat)
    requires c < |conns| && (conns[c].Admitted? || conns[c].Splicing?)
    ensures var next := conns[c := AfterPermit(conns[c])];
            && conns[c].peer in LivePermits(conns)
            && LivePermits(next) == LivePermits(conns) - multiset{conns[c].peer}
            && LivePending(next) == LivePending(conns)
  {
    hide LivePermits, LivePending;
    var conn := AfterPermit(conns[c]);
    Moves(conns, c, conn);
    Loses(LivePermits(conns[c := conn]), LivePermits(conns), conns[c].peer, PermitOf(conn));
    Keeps(LivePending(conns[c := conn]), LivePending(conns), PendingOf(conn));
  }

  lemma PendingMoves<Addr>(conns: seq<Conn<Addr>>, c: nat)
    requires c < |conns| && (conns[c].Handshaking? || conns[c].Admitted? || conns[c].Ending?)
    ensures var next := conns[c := AfterPending(conns[c])];
            && conns[c].addr in LivePending(conns)
            && LivePending(next) == LivePending(conns) - multiset{conns[c].addr}
            && LivePermits(next) == LivePermits(conns)
  {
    hide LivePermits, LivePending;
    var conn := AfterPending(conns[c]);
    Moves(conns, c, conn);
    Loses(LivePending(conns[c := conn]), LivePending(conns), conns[c].addr, PendingOf(conn));
    Keeps(LivePermits(conns[c := conn]), LivePermits(conns), PermitOf(conn));
  }

  lemma AdmitIsSound<Addr(!new)>(config: Config, w: World<Addr>, c: nat, peer: string)
    requires Sound(config, w) && config.chains.perKey >= 1 && Enabled(w, Admit(c, peer))
    ensures Sound(config, Next(config, w, Admit(c, peer)))
    ensures var live, addr := LivePermits(w.conns), w.conns[c].addr;
            Next(config, w, Admit(c, peer)).conns ==
            w.conns[c := if |live| < config.chains.total && live[peer] < config.chains.perKey then Admitted(addr, peer)
                         else Ending(addr)]
  {
    hide Tallies, WithinCaps, Grants, Taken, LivePermits, LivePending;
    AdmitMoves(w.conns, c, Grants(w.permits, config.chains, peer), peer);
    TakeKeepsTally(w.permits, config.chains, LivePermits(w.conns), peer);
  }

  /** Dropping what a connection holds keeps the counters exact, and no
      subtraction is cut off at zero. */
  lemma DropPermitIsSound<Addr(!new)>(config: Config, w: World<Addr>, c: nat)
    requires Sound(config, w) && Enabled(w, DropPermitOf(c))
    ensures Sound(config, Next(config, w, DropPermitOf(c)))
    ensures w.permits.total >= 1 && CountOf(w.permits, w.conns[c].peer) >= 1
  {
    hide Tallies, WithinCaps, Returned, LivePermits, LivePending;
    PermitMoves(w.conns, c);
    ReturnKeepsTally(w.permits, config.chains, LivePermits(w.conns), w.conns[c].peer);
  }

  lemma DropPendingIsSound<Addr(!new)>(config: Config, w: World<Addr>, c: nat)
    requires Sound(config, w) && Enabled(w, DropPendingOf(c))
    ensures Sound(config, Next(config, w, DropPendingOf(c)))
    ensures w.pending.total >= 1 && CountOf(w.pending, w.conns[c].addr) >= 1
  {
    hide Tallies, WithinCaps, Returned, LivePermits, LivePending;
    PendingMoves(w.conns, c);
    ReturnKeepsTally(w.pending, config.handshakes, LivePending(w.conns), w.conns[c].addr);
  }

  function Start<Addr>(): World<Addr> {
    World(Tally(0, map[]), Tally(0, map[]), [])
  }

  /** This is a run: every step was possible where it was taken. */
  ghost predicate IsRun<Addr(!new)>(config: Config, worlds: seq<World<Addr>>, steps: seq<Step<Addr>>) {
    && |worlds| == |steps| + 1
    && worlds[0] == Start()
    && forall i :: 0 <= i < |steps| ==>
         Enabled(worlds[i], steps[i]) && worlds[i + 1] == Next(config, worlds[i], steps[i])
  }

  /** In every interleaving the counters are exact and no cap is exceeded. */
  lemma {:induction false} RunsAreSound<Addr(!new)>(config: Config, worlds: seq<World<Addr>>, steps: seq<Step<Addr>>,
                                             i: nat)
    requires IsRun(config, worlds, steps) && i < |worlds|
    requires config.chains.perKey >= 1 && config.handshakes.perKey >= 1
    ensures Sound(config, worlds[i])
  {
    if i > 0 {
      RunsAreSound(config, worlds, steps, i - 1);
      var w := worlds[i - 1];
      assert Enabled(w, steps[i - 1]) && worlds[i] == Next(config, w, steps[i - 1]);
      match steps[i - 1] {
        case Accept(addr) => AcceptIsSound(config, w, addr);
        case Admit(c, peer) => AdmitIsSound(config, w, c, peer);
        case DropPermitOf(c) => DropPermitIsSound(config, w, c);
        case DropPendingOf(c) => DropPendingIsSound(config, w, c);
      }
    }
  }

  lemma {:induction false} GoneHoldNothing<Addr>(conns: seq<Conn<Addr>>)
    requires forall c :: 0 <= c < |conns| ==> conns[c].Gone?
    ensures LivePermits(conns) == multiset{} && LivePending(conns) == multiset{}
  {
    if conns != [] {
      GoneHoldNothing(conns[..|conns| - 1]);
    }
  }

  /** Once every connection has ended, nothing is left counted. */
  lemma AllGoneAllZero<Addr(!new)>(config: Config, worlds: seq<World<Addr>>, steps: seq<Step<Addr>>, i: nat)
    requires IsRun(config, worlds, steps) && i < |worlds|
    requires config.chains.perKey >= 1 && config.handshakes.perKey >= 1
    requires forall c :: 0 <= c < |worlds[i].conns| ==> worlds[i].conns[c].Gone?
    ensures worlds[i].permits == Start<Addr>().permits && worlds[i].pending == Start<Addr>().pending
  {
    RunsAreSound(config, worlds, steps, i);
    GoneHoldNothing(worlds[i].conns);
    TallyIsUnique(worlds[i].permits, Tally(0, map[]), multiset{});
    TallyIsUnique(worlds[i].pending, Tally(0, map[]), multiset{});
  }
}
