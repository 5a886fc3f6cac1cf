/** The beacon's answer limiter: a pruned table that must decide as the whole
    history of answers would. Times are in nanoseconds. */
module Beacon {
  import opened Common

  const ANSWER_GAP: nat := 1_000_000_000
  const ANSWERED_CAP: nat := 64

  datatype Asked<Ip> = Asked(ip: Ip, time: nat)

  predicate Recent(time: nat, now: nat) {
    SaturatingSub(now, time) < ANSWER_GAP
  }

  // ----- the table -----

  function Pruned<Ip>(at: map<Ip, nat>, now: nat): map<Ip, nat> {
    map ip | ip in at && Recent(at[ip], now) :: at[ip]
  }

  predicate Allows<Ip>(at: map<Ip, nat>, ask: Asked<Ip>) {
    var kept := Pruned(at, ask.time);
    ask.ip !in kept && |kept| < ANSWERED_CAP
  }

  function Updated<Ip>(at: map<Ip, nat>, ask: Asked<Ip>): map<Ip, nat> {
    var kept := Pruned(at, ask.time);
    if Allows(at, ask) then kept[ask.ip := ask.time] else kept
  }

  class Answered<Ip(==)> {
    var at: map<Ip, nat>

    constructor ()
      ensures at == map[]
    {
      at := map[];
    }

    /** Whether ip may be answered now, recording it if so. */
    method Allow(ip: Ip, now: nat) returns (allowed: bool)
      modifies this
      ensures allowed <==>
              && (ip in old(at) ==> now - old(at)[ip] >= 1_000_000_000)
              && |set host | host in old(at) && now - old(at)[host] < 1_000_000_000| < 64
      ensures forall host :: host != ip ==>
                && (host in at <==> host in old(at) && now - old(at)[host] < 1_000_000_000)
                && (host in at ==> at[host] == old(at)[host])
      ensures allowed ==> ip in at && at[ip] == now
      ensures !allowed ==>
                && (ip in at <==> ip in old(at) && now - old(at)[ip] < 1_000_000_000)
                && (ip in at ==> at[ip] == old(at)[ip])
      ensures allowed == Allows(old(at), Asked(ip, now))
      ensures at == Updated(old(at), Asked(ip, now))
    {
      at := map host | host in at && SaturatingSub(now, at[host]) < ANSWER_GAP :: at[host];
      assert at == Pruned(old(at), now);
      assert at.Keys == set host | host in old(at) && now - old(at)[host] < 1_000_000_000;
      assert |at| == |at.Keys|;
      if ip in at || |at| >= ANSWERED_CAP {
        return false;
      }
      at := at[ip := now];
      return true;
    }
  }

  // ----- the whole history -----

  function CountRecent<Ip>(history: seq<Asked<Ip>>, now: nat): nat {
    if history == [] then 0
    else CountRecent(history[..|history| - 1], now) + (if Recent(history[|history| - 1].time, now) then 1 else 0)
  }

  function RecentHosts<Ip>(history: seq<Asked<Ip>>, now: nat): set<Ip> {
    set i | 0 <= i < |history| && Recent(history[i].time, now) :: history[i].ip
  }

  /** What one would decide remembering every answer ever given. */
  predicate HistoryAllows<Ip(==)>(history: seq<Asked<Ip>>, ask: Asked<Ip>) {
    ask.ip !in RecentHosts(history, ask.time) && CountRecent(history, ask.time) < ANSWERED_CAP
  }

  /** The answers given to these requests, decided from the whole history. */
  function AnswersTo<Ip(==)>(asks: seq<Asked<Ip>>): seq<Asked<Ip>> {
    if asks == [] then []
    else
      var before, last := AnswersTo(asks[..|asks| - 1]), asks[|asks| - 1];
      if HistoryAllows(before, last) then before + [last] else before
  }

  /** The limiter's table after these requests. */
  function TableAfter<Ip(==)>(asks: seq<Asked<Ip>>): map<Ip, nat> {
    if asks == [] then map[] else Updated(TableAfter(asks[..|asks| - 1]), asks[|asks| - 1])
  }

  ghost predicate InOrder<Ip>(asks: seq<Asked<Ip>>) {
    forall i, j :: 0 <= i <= j < |asks| ==> asks[i].time <= asks[j].time
  }

  /** Answers to one host are a whole gap apart. */
  ghost predicate Spaced<Ip>(history: seq<Asked<Ip>>) {
    forall i, j :: 0 <= i < j < |history| && history[i].ip == history[j].ip ==>
      history[j].time >= history[i].time + 1_000_000_000
  }

  ghost predicate Remembers<Ip(!new)>(at: map<Ip, nat>, history: seq<Asked<Ip>>, clock: nat) {
    && (forall i :: 0 <= i < |history| ==> history[i].time <= clock)
    && (forall ip :: ip in at ==> exists i :: 0 <= i < |history| && history[i] == Asked(ip, at[ip]))
    && (forall i :: 0 <= i < |history| && Recent(history[i].time, clock) ==>
          history[i].ip in at && at[history[i].ip] == history[i].time)
  }

  /** The table holds exactly the answers still recent at `clock`, and possibly
      some that no longer are. */
  ghost predicate Tracks<Ip(!new)>(at: map<Ip, nat>, history: seq<Asked<Ip>>, clock: nat) {
    && InOrder(history) && Spaced(history)
    && Remembers(at, history, clock)
  }

  lemma HostsPush<Ip>(front: seq<Asked<Ip>>, last: Asked<Ip>, now: nat)
    ensures RecentHosts(front + [last], now)
              == RecentHosts(front, now) + (if Recent(last.time, now) then {last.ip} else {})
  {
    hide Recent;
    var history := front + [last];
    forall ip | ip in RecentHosts(front, now) ensures ip in RecentHosts(history, now) {
      var i :| 0 <= i < |front| && Recent(front[i].time, now) && front[i].ip == ip;
      assert history[i] == front[i];
    }
    forall ip | ip in RecentHosts(history, now)
      ensures ip in RecentHosts(front, now) || (Recent(last.time, now) && ip == last.ip)
    {
      var i :| 0 <= i < |history| && Recent(history[i].time, now) && history[i].ip == ip;
      if i < |front| {
        assert front[i] == history[i];
      }
    }
    assert history[|front|] == last;
  }

  lemma LastHostIsNew<Ip>(front: seq<Asked<Ip>>, last: Asked<Ip>, now: nat)
    requires Spaced(front + [last]) && last.time <= now
    ensures last.ip !in RecentHosts(front, now)
  {
    var history := front + [last];
    forall i | 0 <= i < |front| && front[i].ip == last.ip ensures !Recent(front[i].time, now) {
      assert history[i].ip == history[|front|].ip;
    }
  }

  lemma NoHostsYet<Ip>(now: nat)
    ensures RecentHosts<Ip>([], now) == {}
  {
  }

  lemma {:induction false} OneAnswerPerHost<Ip>(history: seq<Asked<Ip>>, now: nat)
    requires Spaced(history)
    requires forall i :: 0 <= i < |history| ==> history[i].time <= now
    ensures CountRecent(history, now) == |RecentHosts(history, now)|
  {
    hide RecentHosts, Recent;
    if history == [] {
      assert RecentHosts(history, now) == {} by { NoHostsYet<Ip>(now); }
    } else {
      var front, last := history[..|history| - 1], history[|history| - 1];
      assert history == front + [last];
      OneAnswerPerHost(front, now);
      HostsPush(front, last, now);
      LastHostIsNew(front, last, now);
    }
  }

  /** Pruning leaves exactly the hosts answered recently. */
  lemma PrunedHosts<Ip(!new)>(at: map<Ip, nat>, history: seq<Asked<Ip>>, clock: nat, now: nat)
    requires Tracks(at, history, clock) && clock <= now
    ensures Pruned(at, now).Keys == RecentHosts(history, now)
    ensures Tracks(Pruned(at, now), history, now)
    ensures forall i :: 0 <= i < |history| ==> history[i].time <= now
  {
    hide InOrder, Spaced;
    var kept := Pruned(at, now);
    forall ip | ip in kept ensures ip in RecentHosts(history, now) {
      var i :| 0 <= i < |history| && history[i] == Asked(ip, at[ip]);
    }
    forall ip | ip in RecentHosts(history, now) ensures ip in kept {
      var i :| 0 <= i < |history| && Recent(history[i].time, now) && history[i].ip == ip;
      assert Recent(history[i].time, clock);
    }
  }

  /** The table decides as the whole history does. */
  lemma TableDecidesAlike<Ip(!new)>(at: map<Ip, nat>, history: seq<Asked<Ip>>, clock: nat, ask: Asked<Ip>)
    requires Tracks(at, history, clock) && clock <= ask.time
    ensures Allows(at, ask) <==> HistoryAllows(history, ask)
  {
    hide Recent, Pruned;
    PrunedHosts(at, history, clock, ask.time);
    OneAnswerPerHost(history, ask.time);
    assert |Pruned(at, ask.time)| == |Pruned(at, ask.time).Keys|;
  }

  lemma AnswerIsRemembered<Ip(!new)>(kept: map<Ip, nat>, history: seq<Asked<Ip>>, ask: Asked<Ip>)
    requires Remembers(kept, history, ask.time) && ask.ip !in RecentHosts(history, ask.time)
    ensures Remembers(kept[ask.ip := ask.time], history + [ask], ask.time)
  {
    var more, next := history + [ask], kept[ask.ip := ask.time];
    forall ip: Ip ensures ip in next ==> exists i :: 0 <= i < |more| && more[i] == Asked(ip, next[ip]) {
      if ip == ask.ip {
        assert more[|history|] == Asked(ip, ask.time);
      } else if ip in kept {
        var i :| 0 <= i < |history| && history[i] == Asked(ip, kept[ip]);
        assert more[i] == history[i];
      }
    }
  }

  lemma AnswerIsSpaced<Ip>(history: seq<Asked<Ip>>, ask: Asked<Ip>)
    requires Spaced(history) && ask.ip !in RecentHosts(history, ask.time)
    requires forall i :: 0 <= i < |history| ==> history[i].time <= ask.time
    ensures Spaced(history + [ask])
  {
    forall i | 0 <= i < |history| && history[i].ip == ask.ip ensures !Recent(history[i].time, ask.time) {
    }
  }

  lemma StillTracks<Ip(!new)>(at: map<Ip, nat>, history: seq<Asked<Ip>>, clock: nat, ask: Asked<Ip>)
    requires Tracks(at, history, clock) && clock <= ask.time
    ensures Tracks(Updated(at, ask), if HistoryAllows(history, ask) then history + [ask] else history, ask.time)
  {
    hide CountRecent, Remembers, Recent;
    PrunedHosts(at, history, clock, ask.time);
    TableDecidesAlike(at, history, clock, ask);
    if HistoryAllows(history, ask) {
      AnswerIsSpaced(history, ask);
      AnswerIsRemembered(Pruned(at, ask.time), history, ask);
    }
  }

  lemma NothingAsked<Ip(!new)>(clock: nat)
    ensures Tracks<Ip>(map[], [], clock)
  {
  }

  lemma {:induction false} AlwaysTracks<Ip(!new)>(asks: seq<Asked<Ip>>, clock: nat)
    requires InOrder(asks) && (asks != [] ==> clock == asks[|asks| - 1].time)
    ensures Tracks(TableAfter(asks), AnswersTo(asks), clock)
  {
    hide Updated, HistoryAllows, Tracks;
    if asks == [] {
      NothingAsked<Ip>(clock);
    } else {
      var front, last := asks[..|asks| - 1], asks[|asks| - 1];
      var before := if front == [] then 0 else front[|front| - 1].time;
      AlwaysTracks(front, before);
      StillTracks(TableAfter(front), AnswersTo(front), before, last);
    }
  }

  /** The places of the answers given less than a second before. */
  function RecentPlaces<Ip>(history: seq<Asked<Ip>>, now: nat): set<nat> {
    set i | 0 <= i < |history| && now - history[i].time < 1_000_000_000
  }

  lemma {:induction false} CountIsPlaces<Ip>(history: seq<Asked<Ip>>, now: nat)
    ensures CountRecent(history, now) == |RecentPlaces(history, now)|
  {
    if history != [] {
      var n := |history| - 1;
      CountIsPlaces(history[..n], now);
      var places := RecentPlaces(history, now);
      assert RecentPlaces(history[..n], now) == places - {n};
    }
  }

  /** What the whole history decides: no answer to this host within the second,
      and fewer than 64 to anyone. */
  lemma HistoryDecides<Ip>(history: seq<Asked<Ip>>, ask: Asked<Ip>)
    ensures HistoryAllows(history, ask) <==>
            && (forall i :: 0 <= i < |history| && history[i].ip == ask.ip ==>
                 ask.time - history[i].time >= 1_000_000_000)
            && |RecentPlaces(history, ask.time)| < 64
  {
    CountIsPlaces(history, ask.time);
  }

  /** After any requests on a clock that never runs backwards, the limiter
      decides the next one exactly as the full answer history would. */
  lemma DecidesAsHistory<Ip(!new)>(asks: seq<Asked<Ip>>, ask: Asked<Ip>)
    requires InOrder(asks + [ask])
    ensures Allows(TableAfter(asks), ask) <==> HistoryAllows(AnswersTo(asks), ask)
    ensures var history := AnswersTo(asks);
            Allows(TableAfter(asks), ask) <==>
            && (forall i :: 0 <= i < |history| && history[i].ip == ask.ip ==>
                 ask.time - history[i].time >= 1_000_000_000)
            && |RecentPlaces(history, ask.time)| < 64
  {
    HistoryDecides(AnswersTo(asks), ask);
    hide Tracks, Allows, HistoryAllows;
    var all := asks + [ask];
    forall i, j | 0 <= i <= j < |asks| ensures asks[i].time <= asks[j].time {
      assert all[i] == asks[i] && all[j] == asks[j];
    }
    var clock := if asks == [] then 0 else asks[|asks| - 1].time;
    assert asks != [] ==> all[|asks| - 1] == asks[|asks| - 1] && all[|asks|] == ask;
    AlwaysTracks(asks, clock);
    TableDecidesAlike(TableAfter(asks), AnswersTo(asks), clock, ask);
  }

  /** No host is answered twice within one gap. */
  lemma AnswersAreSpaced<Ip(!new)>(asks: seq<Asked<Ip>>)
    requires InOrder(asks)
    ensures Spaced(AnswersTo(asks))
  {
    AlwaysTracks(asks, if asks == [] then 0 else asks[|asks| - 1].time);
  }

  /** The answers in the half-open window of one gap from `start`. */
  function CountFrom<Ip>(history: seq<Asked<Ip>>, start: nat): nat {
    if history == [] then 0
    else
      var time := history[|history| - 1].time;
      CountFrom(history[..|history| - 1], start) + (if start <= time < start + ANSWER_GAP then 1 else 0)
  }

  lemma {:induction false} WindowIsRecent<Ip>(history: seq<Asked<Ip>>, start: nat, now: nat)
    requires now < start + ANSWER_GAP
    ensures CountFrom(history, start) <= CountRecent(history, now)
  {
    if history != [] {
      WindowIsRecent(history[..|history| - 1], start, now);
    }
  }

  /** Any window of one gap holds at most the cap's worth of answers. */
  lemma {:induction false} WindowIsCapped<Ip>(asks: seq<Asked<Ip>>, start: nat)
    ensures CountFrom(AnswersTo(asks), start) <= 64
  {
    if asks != [] {
      var front, last := asks[..|asks| - 1], asks[|asks| - 1];
      var before := AnswersTo(front);
      WindowIsCapped(front, start);
      if HistoryAllows(before, last) {
        assert (before + [last])[..|before|] == before;
        if start <= last.time < start + ANSWER_GAP {
          WindowIsRecent(before, start, last.time);
        }
      }
    }
  }
}
