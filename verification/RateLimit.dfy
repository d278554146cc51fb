/**
 * The gateway's per-key limiter (services/gateway/src/services/
 * rateLimitService.js and middleware/auth.js): one stored counter per key and
 * clock minute, incremented by every request, and the nightly rollup that adds
 * past counters into daily totals and deletes them (usageRollupService.js).
 * Times are in milliseconds.
 */
module RateLimit {
  import opened Sums

  const MINUTE := 60_000
  const MINUTES_IN_A_DAY := 1440

  function MinuteOf(at: int): int {
    at / MINUTE
  }

  function DayOf(minute: int): int {
    minute / MINUTES_IN_A_DAY
  }

  /** Minutes and days are the clock's own, in UTC. */
  lemma {:induction false} ClockMinutesAndDays(at: int)
    ensures MinuteOf(at) == at / 60_000
    ensures DayOf(MinuteOf(at)) == at / 86_400_000
  {
  }

  /** Counters are identified by key and minute, totals by key and day. */
  type Table = map<(string, int), nat>

  function Get(t: Table, key: string, n: int): nat {
    if (key, n) in t then t[(key, n)] else 0
  }

  /** What a request asked and what it was told; no table records it. */
  datatype Logged = Logged(key: string, at: int, admitted: bool)

  datatype State = State(counters: Table, totals: Table, log: seq<Logged>)

  datatype Event =
    | Request(key: string, at: int)
    | Rollup(now: int)

  const EMPTY := State(map[], map[], [])

  // ---- Rolling up ----

  /** The counters of one key over `n` minutes from `start`. */
  function Over(counters: Table, key: string, start: int, n: nat): nat {
    if n == 0 then 0 else Over(counters, key, start, n - 1) + Get(counters, key, start + n - 1)
  }

  function DayCount(counters: Table, key: string, day: int): nat {
    Over(counters, key, day * MINUTES_IN_A_DAY, MINUTES_IN_A_DAY)
  }

  /** The rows a rollup at `now` sums and deletes: those of days before today. */
  function Past(counters: Table, now: int): set<(string, int)> {
    set k | k in counters && DayOf(k.1) < DayOf(MinuteOf(now))
  }

  /** The keys and days some rows belong to. */
  function Groups(rows: set<(string, int)>): set<(string, int)> {
    set k | k in rows :: (k.0, DayOf(k.1))
  }

  function RolledUp(counters: Table, totals: Table, now: int): Table {
    map p | p in totals.Keys + Groups(Past(counters, now)) ::
      Get(totals, p.0, p.1) + if DayOf(MinuteOf(now)) <= p.1 then 0 else DayCount(counters, p.0, p.1)
  }

  // ---- Steps ----

  /** The count a request sees: the counter after adding it. */
  function Seen(st: State, key: string, at: int): nat {
    Get(st.counters, key, MinuteOf(at)) + 1
  }

  function Happen(limit: string -> nat, st: State, e: Event): State {
    match e
    case Request(key, at) =>
      var count := Seen(st, key, at);
      State(st.counters[(key, MinuteOf(at)) := count], st.totals, st.log + [Logged(key, at, count <= limit(key))])
    case Rollup(now) =>
      State(st.counters - Past(st.counters, now), RolledUp(st.counters, st.totals, now), st.log)
  }

  function HappenAll(limit: string -> nat, st: State, events: seq<Event>): State {
    if events == [] then st
    else Happen(limit, HappenAll(limit, st, events[..|events| - 1]), events[|events| - 1])
  }

  // ---- The limiter as it is meant: a plain log ----

  function InMinute(key: string, minute: int): Logged -> int {
    (l: Logged) => if l.key == key && MinuteOf(l.at) == minute then 1 else 0
  }

  function AdmittedIn(key: string, minute: int): Logged -> int {
    (l: Logged) => if l.key == key && MinuteOf(l.at) == minute && l.admitted then 1 else 0
  }

  /** A request is admitted while its minute has had fewer than `limit` requests. */
  function PlainLog(limit: string -> nat, events: seq<Event>): seq<Logged> {
    if events == [] then []
    else
      var log := PlainLog(limit, events[..|events| - 1]);
      var e := events[|events| - 1];
      if e.Rollup? then log
      else log + [Logged(e.key, e.at, Sum(log, InMinute(e.key, MinuteOf(e.at))) < limit(e.key))]
  }

  // ---- Where the two part ----

  /** The rollup that deletes a minute's counters. */
  predicate Closes(e: Event, minute: int) {
    e.Rollup? && DayOf(minute) < DayOf(MinuteOf(e.now))
  }

  /** How many events there are up to and including the last rollup that closed the minute. */
  function LastClosing(events: seq<Event>, minute: int): (n: nat)
    ensures n <= |events|
    ensures 0 < n ==> Closes(events[n - 1], minute)
    ensures forall i :: n <= i < |events| ==> !Closes(events[i], minute)
  {
    if events == [] then 0
    else if Closes(events[|events| - 1], minute) then |events|
    else LastClosing(events[..|events| - 1], minute)
  }

  function Asking(key: string, minute: int): Event -> int {
    (e: Event) => if e.Request? && e.key == key && MinuteOf(e.at) == minute then 1 else 0
  }

  /** All the requests a key made in a minute. */
  function Asked(events: seq<Event>, key: string, minute: int): int {
    Sum(events, Asking(key, minute))
  }

  /** Those of them that came after the last rollup that closed the minute. */
  function AskedSince(events: seq<Event>, key: string, minute: int): int {
    Sum(events[LastClosing(events, minute)..], Asking(key, minute))
  }

  lemma {:induction false} AskedSinceNext(events: seq<Event>, e: Event, key: string, minute: int)
    ensures AskedSince(events + [e], key, minute)
            == if Closes(e, minute) then 0 else AskedSince(events, key, minute) + Asking(key, minute)(e)
  {
    hide Closes;
    hide MinuteOf;
    var longer := events + [e];
    assert longer[..|events|] == events;
    if !Closes(e, minute) {
      var n := LastClosing(events, minute);
      assert LastClosing(longer, minute) == n;
      assert longer[n..] == events[n..] + [e];
      SumAppend(events[n..], e, Asking(key, minute));
    }
  }

  lemma {:induction false} AskedBounds(events: seq<Event>, key: string, minute: int)
    ensures 0 <= AskedSince(events, key, minute) <= Asked(events, key, minute)
    ensures LastClosing(events, minute) == 0 ==> AskedSince(events, key, minute) == Asked(events, key, minute)
  {
    hide LastClosing;
    var n := LastClosing(events, minute);
    assert events == events[..n] + events[n..];
    SumConcat(events[..n], events[n..], Asking(key, minute));
    SumNonNegative(events[..n], Asking(key, minute));
    SumNonNegative(events[n..], Asking(key, minute));
  }

  lemma {:induction false} CounterStep(limit: string -> nat, st: State, e: Event, key: string, minute: int)
    ensures Get(Happen(limit, st, e).counters, key, minute)
            == if Closes(e, minute) then 0 else Get(st.counters, key, minute) + Asking(key, minute)(e)
  {
    hide RolledUp;
    hide DayOf;
    hide MinuteOf;
  }

  /** A counter holds exactly the requests its key made in its minute since the last rollup that closed the minute's day. */
  lemma {:induction false} CounterExact(limit: string -> nat, events: seq<Event>, key: string, minute: int)
    ensures Get(HappenAll(limit, EMPTY, events).counters, key, minute) == AskedSince(events, key, minute)
  {
    hide Happen;
    hide Closes;
    hide AskedSince;
    hide Asking;
    if events == [] {
      NobodyAsked(key, minute);
    } else {
      var init, e := events[..|events| - 1], events[|events| - 1];
      assert init + [e] == events;
      CounterExact(limit, init, key, minute);
      CounterStep(limit, HappenAll(limit, EMPTY, init), e, key, minute);
      AskedSinceNext(init, e, key, minute);
    }
  }

  lemma {:induction false} NobodyAsked(key: string, minute: int)
    ensures AskedSince([], key, minute) == 0
  {
  }

  /** The plain log counts every request of a minute, rollups or not. */
  lemma {:induction false} PlainLogCounts(limit: string -> nat, events: seq<Event>, key: string, minute: int)
    ensures Sum(PlainLog(limit, events), InMinute(key, minute)) == Asked(events, key, minute)
  {
    hide MinuteOf;
    if events != [] {
      var init, e := events[..|events| - 1], events[|events| - 1];
      PlainLogCounts(limit, init, key, minute);
      if e.Request? {
        var log := PlainLog(limit, init);
        SumAppend(log, PlainLog(limit, events)[|log|], InMinute(key, minute));
      }
    }
  }

  /** What the gateway tells a request that comes after `events`, and what it should be told. */
  function Told(limit: string -> nat, events: seq<Event>, key: string, at: int): bool {
    Seen(HappenAll(limit, EMPTY, events), key, at) <= limit(key)
  }

  function ShouldBeTold(limit: string -> nat, events: seq<Event>, key: string, at: int): bool {
    Sum(PlainLog(limit, events), InMinute(key, MinuteOf(at))) < limit(key)
  }

  /**
   * A request is told something else than the plain log would tell it if and
   * only if its minute has had its fill of requests but not since the rollup
   * that closed the minute's day; it is then admitted in excess.
   */
  lemma {:induction false} DecisionDiffersExactly(limit: string -> nat, events: seq<Event>, key: string, at: int)
    ensures Told(limit, events, key, at) != ShouldBeTold(limit, events, key, at)
            <==> AskedSince(events, key, MinuteOf(at)) < limit(key) <= Asked(events, key, MinuteOf(at))
    ensures Told(limit, events, key, at) != ShouldBeTold(limit, events, key, at) ==> Told(limit, events, key, at)
  {
    hide HappenAll;
    hide AskedSince;
    hide MinuteOf;
    CounterExact(limit, events, key, MinuteOf(at));
    PlainLogCounts(limit, events, key, MinuteOf(at));
    AskedBounds(events, key, MinuteOf(at));
  }

  /** The request at position `i` comes late to a minute that was already full when it was rolled up. */
  predicate Misjudged(limit: string -> nat, events: seq<Event>, i: nat)
    requires i < |events|
  {
    var e := events[i];
    e.Request?
    && AskedSince(events[..i], e.key, MinuteOf(e.at)) < limit(e.key) <= Asked(events[..i], e.key, MinuteOf(e.at))
  }

  /** One more event on both logs. */
  lemma {:induction false} LogsNext(limit: string -> nat, init: seq<Event>, e: Event)
    ensures HappenAll(limit, EMPTY, init + [e]).log
            == HappenAll(limit, EMPTY, init).log
               + if e.Request? then [Logged(e.key, e.at, Told(limit, init, e.key, e.at))] else []
    ensures PlainLog(limit, init + [e])
            == PlainLog(limit, init)
               + if e.Request? then [Logged(e.key, e.at, ShouldBeTold(limit, init, e.key, e.at))] else []
  {
    hide RolledUp;
    assert (init + [e])[..|init|] == init;
  }

  /** The gateway decides a whole run as the plain log does if and only if no request of it is misjudged. */
  lemma {:induction false} LimiterIsPlainLogExactly(limit: string -> nat, events: seq<Event>)
    ensures |HappenAll(limit, EMPTY, events).log| == |PlainLog(limit, events)|
    ensures HappenAll(limit, EMPTY, events).log == PlainLog(limit, events)
            <==> forall i :: 0 <= i < |events| ==> !Misjudged(limit, events, i)
  {
    hide Happen;
    hide AskedSince;
    hide Asked;
    hide MinuteOf;
    hide Told;
    hide ShouldBeTold;
    if events != [] {
      hide HappenAll;
      hide PlainLog;
      var n := |events| - 1;
      var init, e := events[..n], events[n];
      assert init + [e] == events;
      LimiterIsPlainLogExactly(limit, init);
      LogsNext(limit, init, e);
      forall i | 0 <= i < n ensures Misjudged(limit, init, i) <==> Misjudged(limit, events, i) {
        assert init[..i] == events[..i];
      }
      if e.Request? {
        DecisionDiffersExactly(limit, init, e.key, e.at);
        SameTails(HappenAll(limit, EMPTY, init).log, PlainLog(limit, init),
                  Logged(e.key, e.at, Told(limit, init, e.key, e.at)), Logged(e.key, e.at, ShouldBeTold(limit, init, e.key, e.at)));
        assert Misjudged(limit, events, n) <==> Told(limit, init, e.key, e.at) != ShouldBeTold(limit, init, e.key, e.at);
      } else {
        assert !Misjudged(limit, events, n);
      }
    }
  }

  lemma {:induction false} SameTails(a: seq<Logged>, b: seq<Logged>, x: Logged, y: Logged)
    requires |a| == |b|
    ensures a + [x] == b + [y] <==> a == b && x == y
  {
    assert (a + [x])[..|a|] == a && (b + [y])[..|b|] == b;
    assert (a + [x])[|a|] == x && (b + [y])[|b|] == y;
  }

  /** With a limit of one: a request, a rollup the next midnight, and a late second request for the first one's minute, which is let in. */
  lemma {:induction false} LateRequestLetIn(key: string)
    ensures var limit: string -> nat := (k: string) => 1;
            var events := [Request(key, 0), Rollup(86_400_000), Request(key, 1)];
            && HappenAll(limit, EMPTY, events).log == [Logged(key, 0, true), Logged(key, 1, true)]
            && PlainLog(limit, events) == [Logged(key, 0, true), Logged(key, 1, false)]
  {
    hide Happen;
    hide HappenAll;
    hide PlainLog;
    hide Told;
    hide ShouldBeTold;
    var limit: string -> nat := (k: string) => 1;
    var first, rollup, late := Request(key, 0), Rollup(86_400_000), Request(key, 1);
    LogsNext(limit, [], first);
    LogsNext(limit, [first], rollup);
    LogsNext(limit, [first, rollup], late);
    assert [] + [first] == [first] && [first] + [rollup] == [first, rollup];
    assert [first, rollup] + [late] == [first, rollup, late];
    FirstTold(limit, key);
    LateTold(limit, key);
  }

  lemma {:induction false} FirstTold(limit: string -> nat, key: string)
    requires limit(key) == 1
    ensures Told(limit, [], key, 0) && ShouldBeTold(limit, [], key, 0)
    ensures HappenAll(limit, EMPTY, []).log == [] && PlainLog(limit, []) == []
  {
  }

  lemma {:induction false} LateTold(limit: string -> nat, key: string)
    requires limit(key) == 1
    ensures var before := [Request(key, 0), Rollup(86_400_000)];
            Told(limit, before, key, 1) && !ShouldBeTold(limit, before, key, 1)
  {
    hide Happen;
    hide PlainLog;
    var before := [Request(key, 0), Rollup(86_400_000)];
    assert MinuteOf(0) == 0 && MinuteOf(1) == 0 && DayOf(0) == 0 && DayOf(MinuteOf(86_400_000)) == 1;
    LateRequestCountsAfresh(limit, HappenAll(limit, EMPTY, before[..1]), 86_400_000, key, 1);
    PlainLogCounts(limit, before, key, 0);
    SumPair(before[0], before[1], Asking(key, 0));
    assert before == [before[0], before[1]];
  }

  /** Straight after a rollup, a request stamped with a closed day is counted from one again, whatever came before. */
  lemma {:induction false} LateRequestCountsAfresh(limit: string -> nat, st: State, now: int, key: string, at: int)
    requires DayOf(MinuteOf(at)) < DayOf(MinuteOf(now))
    ensures Seen(Happen(limit, st, Rollup(now)), key, at) == 1
  {
    hide RolledUp;
  }

  /** No request is stamped with a day that an earlier rollup has already closed. */
  predicate Timely(events: seq<Event>) {
    forall i, k :: 0 <= i < k < |events| && events[i].Rollup? && events[k].Request? ==>
      DayOf(MinuteOf(events[i].now)) <= DayOf(MinuteOf(events[k].at))
  }

  /** So while requests come in time, rollups change no decision. */
  lemma {:induction false} LimiterIsPlainLog(limit: string -> nat, events: seq<Event>)
    requires Timely(events)
    ensures HappenAll(limit, EMPTY, events).log == PlainLog(limit, events)
  {
    hide HappenAll;
    hide AskedSince;
    hide Asked;
    hide MinuteOf;
    hide DayOf;
    LimiterIsPlainLogExactly(limit, events);
    forall i | 0 <= i < |events| ensures !Misjudged(limit, events, i) {
      if events[i].Request? {
        AskedBounds(events[..i], events[i].key, MinuteOf(events[i].at));
        assert LastClosing(events[..i], MinuteOf(events[i].at)) == 0;
      }
    }
  }

  /** In every clock minute a key is admitted exactly as often as it asks, up to its limit. */
  lemma {:induction false} MinuteAdmits(limit: string -> nat, events: seq<Event>, key: string, minute: int)
    ensures var log := PlainLog(limit, events);
            var asked := Sum(log, InMinute(key, minute));
            Sum(log, AdmittedIn(key, minute)) == if asked < limit(key) then asked else limit(key)
  {
    if events != [] {
      var init, e := events[..|events| - 1], events[|events| - 1];
      MinuteAdmits(limit, init, key, minute);
      var before := PlainLog(limit, init);
      if e.Request? {
        var l := PlainLog(limit, events)[|before|];
        SumAppend(before, l, InMinute(key, minute));
        SumAppend(before, l, AdmittedIn(key, minute));
      }
    }
  }

  // ---- Any sixty seconds ----

  function AdmittedWithin(key: string, from: int, to: int): Logged -> int {
    (l: Logged) => if l.key == key && from <= l.at <= to && l.admitted then 1 else 0
  }

  function AdmittedInPair(key: string, minute: int): Logged -> int {
    (l: Logged) => AdmittedIn(key, minute)(l) + AdmittedIn(key, minute + 1)(l)
  }

  lemma {:induction false} TwoMinutesCover(from: int, to: int, at: int)
    requires to - from <= MINUTE && from <= at <= to
    ensures MinuteOf(at) == MinuteOf(from) || MinuteOf(at) == MinuteOf(from) + 1
  {
  }

  lemma {:induction false} AdmittedNearby(key: string, from: int, to: int, l: Logged)
    requires to - from <= MINUTE
    ensures AdmittedWithin(key, from, to)(l) <= AdmittedInPair(key, MinuteOf(from))(l)
  {
    hide MinuteOf;
    var minute := MinuteOf(from);
    assert AdmittedInPair(key, minute)(l) == AdmittedIn(key, minute)(l) + AdmittedIn(key, minute + 1)(l);
    if from <= l.at <= to {
      TwoMinutesCover(from, to, l.at);
    }
  }

  /** What is admitted within sixty seconds is admitted in one of two neighbouring minutes. */
  lemma {:induction false} TwoMinutesBound(log: seq<Logged>, key: string, from: int, to: int)
    requires to - from <= MINUTE
    ensures var minute := MinuteOf(from);
            Sum(log, AdmittedWithin(key, from, to)) <= Sum(log, AdmittedIn(key, minute)) + Sum(log, AdmittedIn(key, minute + 1))
  {
    var minute := MinuteOf(from);
    forall l | l in log ensures AdmittedWithin(key, from, to)(l) <= AdmittedInPair(key, minute)(l) {
      AdmittedNearby(key, from, to, l);
    }
    SumMonotone(log, AdmittedWithin(key, from, to), AdmittedInPair(key, minute));
    SumSplit(log, AdmittedInPair(key, minute), AdmittedIn(key, minute), AdmittedIn(key, minute + 1));
  }

  /** While requests come in time, no interval of sixty seconds or less, wherever it starts, admits more than twice the limit. */
  lemma {:induction false} SixtySecondsAdmit(limit: string -> nat, events: seq<Event>, key: string, from: int, to: int)
    requires Timely(events) && to - from <= MINUTE
    ensures Sum(HappenAll(limit, EMPTY, events).log, AdmittedWithin(key, from, to)) <= 2 * limit(key)
  {
    LimiterIsPlainLog(limit, events);
    TwoMinutesBound(PlainLog(limit, events), key, from, to);
    MinuteAdmits(limit, events, key, MinuteOf(from));
    MinuteAdmits(limit, events, key, MinuteOf(from) + 1);
  }

  // ---- Any run at all ----

  function Closing(minute: int): Event -> int {
    (e: Event) => if Closes(e, minute) then 1 else 0
  }

  /** The rollups of a run that closed the minute's day. */
  function Closings(events: seq<Event>, minute: int): int {
    Sum(events, Closing(minute))
  }

  /** Late requests included, every closing of a minute's day can let the limit in once more, and no more than that. */
  lemma {:induction false} MinuteAdmitsAtMost(limit: string -> nat, events: seq<Event>, key: string, minute: int)
    ensures var since := AskedSince(events, key, minute);
            var let := if since < limit(key) then since else limit(key);
            && 0 <= Closings(events, minute)
            && Sum(HappenAll(limit, EMPTY, events).log, AdmittedIn(key, minute)) <= limit(key) * Closings(events, minute) + let
  {
    hide RolledUp;
    hide AskedSince;
    hide Closes;
    hide MinuteOf;
    if events == [] {
      NobodyAsked(key, minute);
    } else {
      var init, e := events[..|events| - 1], events[|events| - 1];
      assert init + [e] == events;
      MinuteAdmitsAtMost(limit, init, key, minute);
      AskedSinceNext(init, e, key, minute);
      AskedBounds(init, key, minute);
      var before, after := HappenAll(limit, EMPTY, init), HappenAll(limit, EMPTY, events);
      if e.Request? {
        CounterExact(limit, init, e.key, MinuteOf(e.at));
        SumAppend(before.log, after.log[|before.log|], AdmittedIn(key, minute));
        RequestClosesNothing(e, minute);
      } else {
        OneMore(limit(key), Closings(init, minute));
        RollupAsksNothing(e, key, minute);
      }
    }
  }

  lemma {:induction false} RequestClosesNothing(e: Event, minute: int)
    requires e.Request?
    ensures !Closes(e, minute)
  {
  }

  lemma {:induction false} RollupAsksNothing(e: Event, key: string, minute: int)
    requires e.Rollup?
    ensures Asking(key, minute)(e) == 0
  {
  }

  lemma {:induction false} OneMore(x: int, n: int)
    ensures x * (n + 1) == x * n + x
  {
  }

  /** In any run, an interval of sixty seconds or less admits at most twice the limit and once more for each closing of its minutes. */
  lemma {:induction false} SixtySecondsAdmitAtMost(limit: string -> nat, events: seq<Event>, key: string, from: int, to: int)
    requires to - from <= MINUTE
    ensures var minute := MinuteOf(from);
            Sum(HappenAll(limit, EMPTY, events).log, AdmittedWithin(key, from, to))
            <= limit(key) * (2 + Closings(events, minute) + Closings(events, minute + 1))
  {
    hide HappenAll;
    hide AskedSince;
    hide Closings;
    var log, minute := HappenAll(limit, EMPTY, events).log, MinuteOf(from);
    TwoMinutesBound(log, key, from, to);
    MinuteAdmitsAtMost(limit, events, key, minute);
    MinuteAdmitsAtMost(limit, events, key, minute + 1);
    TwoMore(limit(key), Closings(events, minute), Closings(events, minute + 1));
  }

  lemma {:induction false} TwoMore(x: int, m: int, n: int)
    ensures x * (2 + m + n) == 2 * x + x * m + x * n
  {
  }
}
