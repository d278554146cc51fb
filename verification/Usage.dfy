/**
 * What the usage report says (services/gateway/src/services/usageService.js)
 * against what was asked: daily totals, written only by rollups, merged with
 * the counters still live today.
 */
module Usage {
  import opened Sums
  import opened RateLimit

  // ---- Counters over a range ----

  lemma {:induction false} OverUpdate(counters: Table, key: string, start: int, n: nat, at: (string, int), count: nat)
    ensures Over(counters[at := count], key, start, n)
            == Over(counters, key, start, n)
               + if at.0 == key && start <= at.1 < start + n then count - Get(counters, key, at.1) else 0
  {
    if n != 0 {
      OverUpdate(counters, key, start, n - 1, at, count);
    }
  }

  lemma {:induction false} OverRemove(counters: Table, key: string, start: int, n: nat, at: (string, int))
    ensures Over(counters - {at}, key, start, n)
            == Over(counters, key, start, n)
               - if at.0 == key && start <= at.1 < start + n then Get(counters, key, at.1) else 0
  {
    if n != 0 {
      OverRemove(counters, key, start, n - 1, at);
    }
  }

  lemma {:induction false} OverSame(a: Table, b: Table, key: string, start: int, n: nat)
    requires forall m :: start <= m < start + n ==> Get(a, key, m) == Get(b, key, m)
    ensures Over(a, key, start, n) == Over(b, key, start, n)
  {
    if n != 0 {
      OverSame(a, b, key, start, n - 1);
    }
  }

  lemma {:induction false} InsideDay(minute: int, day: int)
    ensures DayOf(minute) == day <==> day * MINUTES_IN_A_DAY <= minute < day * MINUTES_IN_A_DAY + MINUTES_IN_A_DAY
  {
  }

  /** Only the past days of the counters are cleared by a rollup, and they are cleared completely. */
  lemma {:induction false} DayAfterRollup(counters: Table, now: int, key: string, day: int)
    ensures DayCount(counters - Past(counters, now), key, day)
            == if DayOf(MinuteOf(now)) <= day then DayCount(counters, key, day) else 0
  {
    var left := counters - Past(counters, now);
    var other := if DayOf(MinuteOf(now)) <= day then counters else map[];
    forall m | day * MINUTES_IN_A_DAY <= m < day * MINUTES_IN_A_DAY + MINUTES_IN_A_DAY
      ensures Get(left, key, m) == Get(other, key, m)
    {
      InsideDay(m, day);
    }
    OverSame(left, other, key, day * MINUTES_IN_A_DAY, MINUTES_IN_A_DAY);
    OverNothing(key, day * MINUTES_IN_A_DAY, MINUTES_IN_A_DAY);
  }

  lemma {:induction false} OverNothing(key: string, start: int, n: nat)
    ensures Over(map[], key, start, n) == 0
  {
    if n != 0 {
      OverNothing(key, start, n - 1);
    }
  }

  /** A rollup adds to each key's total exactly what it takes from its counters. */
  lemma {:induction false} TotalAfterRollup(counters: Table, totals: Table, now: int, key: string, day: int)
    ensures Get(RolledUp(counters, totals, now), key, day)
            == Get(totals, key, day) + if DayOf(MinuteOf(now)) <= day then 0 else DayCount(counters, key, day)
  {
    if (key, day) !in RolledUp(counters, totals, now) && day < DayOf(MinuteOf(now)) {
      forall m | day * MINUTES_IN_A_DAY <= m < day * MINUTES_IN_A_DAY + MINUTES_IN_A_DAY
        ensures Get(counters, key, m) == Get(map[], key, m)
      {
        InsideDay(m, day);
        assert (key, m) in counters ==> (key, m) in Past(counters, now);
      }
      OverSame(counters, map[], key, day * MINUTES_IN_A_DAY, MINUTES_IN_A_DAY);
      OverNothing(key, day * MINUTES_IN_A_DAY, MINUTES_IN_A_DAY);
    }
  }

  // ---- Nothing is lost or counted twice ----

  function InDay(key: string, day: int): Logged -> int {
    (l: Logged) => if l.key == key && DayOf(MinuteOf(l.at)) == day then 1 else 0
  }

  /** A key's total and its counters for a day, together. */
  function Recorded(st: State, key: string, day: int): nat {
    Get(st.totals, key, day) + DayCount(st.counters, key, day)
  }

  lemma {:induction false} RecordedStep(limit: string -> nat, st: State, e: Event, key: string, day: int)
    requires Recorded(st, key, day) == Sum(st.log, InDay(key, day))
    ensures Recorded(Happen(limit, st, e), key, day) == Sum(Happen(limit, st, e).log, InDay(key, day))
  {
    hide RolledUp;
    hide MinuteOf;
    hide DayOf;
    var after := Happen(limit, st, e);
    match e
    case Request(asker, at) =>
      InsideDay(MinuteOf(at), day);
      OverUpdate(st.counters, key, day * MINUTES_IN_A_DAY, MINUTES_IN_A_DAY, (asker, MinuteOf(at)), Seen(st, asker, at));
      SumAppend(st.log, after.log[|st.log|], InDay(key, day));
    case Rollup(now) =>
      DayAfterRollup(st.counters, now, key, day);
      TotalAfterRollup(st.counters, st.totals, now, key, day);
  }

  /**
   * However requests and rollups interleave, late requests for days already
   * rolled up included, each key's total and counters for a day add up to the
   * requests it made that day.
   */
  lemma {:induction false} RecordedIsLogged(limit: string -> nat, events: seq<Event>, key: string, day: int)
    ensures Recorded(HappenAll(limit, EMPTY, events), key, day)
            == Sum(HappenAll(limit, EMPTY, events).log, InDay(key, day))
  {
    hide Happen;
    if events == [] {
      OverNothing(key, day * MINUTES_IN_A_DAY, MINUTES_IN_A_DAY);
    } else {
      RecordedIsLogged(limit, events[..|events| - 1], key, day);
      RecordedStep(limit, HappenAll(limit, EMPTY, events[..|events| - 1]), events[|events| - 1], key, day);
    }
  }

  // ---- The report ----

  /** A minute past every counter in the table. */
  ghost function Beyond(cells: set<(string, int)>): (minute: nat)
    ensures forall k :: k in cells ==> k.1 < minute
  {
    if cells == {} then 0
    else
      var k :| k in cells;
      var rest := Beyond(cells - {k});
      if rest <= k.1 then k.1 + 1 else rest
  }

  /** All a key's counters from the start of `today` on, however late they are stamped. */
  ghost function Live(counters: Table, key: string, today: int): nat {
    var start, end := today * MINUTES_IN_A_DAY, Beyond(counters.Keys);
    if end <= start then 0 else Over(counters, key, start, end - start)
  }

  /** What the report has for a key and day: today's live count if there is one, or else the stored total. */
  ghost function Shown(st: State, key: string, day: int, today: int): nat {
    if day == today && Live(st.counters, key, today) != 0 then Live(st.counters, key, today)
    else Get(st.totals, key, day)
  }

  ghost predicate Present(st: State, key: string, day: int, today: int) {
    (key, day) in st.totals || (day == today && Live(st.counters, key, today) != 0)
  }

  datatype DayUsage = DayUsage(day: int, count: nat)

  datatype KeyUsage = KeyUsage(total: nat, daily: seq<DayUsage>)

  const COUNT: DayUsage -> int := (d: DayUsage) => d.count

  /** The days of a key's usage, in order, over `n` days from `from`. */
  ghost function Daily(st: State, key: string, from: int, n: nat, today: int): seq<DayUsage> {
    if n == 0 then []
    else
      var day := from + n - 1;
      Daily(st, key, from, n - 1, today)
      + if Present(st, key, day, today) then [DayUsage(day, Shown(st, key, day, today))] else []
  }

  ghost function Days(from: int, to: int): nat {
    if to < from then 0 else to - from + 1
  }

  // ---- The report tells the truth ----

  /** Nothing in the run is stamped with a day after `today`. */
  predicate NoneLater(events: seq<Event>, today: int) {
    forall i :: 0 <= i < |events| ==>
      DayOf(MinuteOf(match events[i] case Request(_, at) => at case Rollup(now) => now)) <= today
  }

  ghost predicate TablesEarlier(st: State, today: int) {
    && (forall k :: k in st.counters ==> DayOf(k.1) <= today)
    && (forall k :: k in st.totals ==> k.1 < today)
  }

  lemma {:induction false} TablesStayEarlier(limit: string -> nat, st: State, e: Event, today: int)
    requires TablesEarlier(st, today)
    requires NoneLater([e], today)
    ensures TablesEarlier(Happen(limit, st, e), today)
  {
    hide DayOf;
    hide MinuteOf;
    assert [e][0] == e;
  }

  lemma {:induction false} RunStaysEarlier(limit: string -> nat, events: seq<Event>, today: int)
    requires NoneLater(events, today)
    ensures TablesEarlier(HappenAll(limit, EMPTY, events), today)
  {
    hide Happen;
    hide DayOf;
    hide MinuteOf;
    if events != [] {
      var init, e := events[..|events| - 1], events[|events| - 1];
      RunStaysEarlier(limit, init, today);
      assert [e][0] == e;
      TablesStayEarlier(limit, HappenAll(limit, EMPTY, init), e, today);
    }
  }

  /** With nothing stamped later than today, the live counters are today's. */
  lemma {:induction false} LiveIsToday(st: State, key: string, today: int)
    requires TablesEarlier(st, today)
    ensures Live(st.counters, key, today) == DayCount(st.counters, key, today)
  {
    var start, end := today * MINUTES_IN_A_DAY, Beyond(st.counters.Keys);
    forall m | start + MINUTES_IN_A_DAY <= m || end <= m ensures Get(st.counters, key, m) == 0 {
      InsideDay(m, today);
    }
    if start < end {
      OverTrim(st.counters, key, start, end - start, MINUTES_IN_A_DAY);
    } else {
      OverTrim(st.counters, key, start, MINUTES_IN_A_DAY, 0);
    }
  }

  lemma {:induction false} OverTrim(counters: Table, key: string, start: int, n: nat, limit: nat)
    requires forall m :: start + limit <= m || start + n <= m ==> Get(counters, key, m) == 0
    ensures Over(counters, key, start, n) == Over(counters, key, start, limit)
    decreases n + limit
  {
    if n < limit {
      OverTrim(counters, key, start, n, limit - 1);
    } else if limit < n {
      OverTrim(counters, key, start, n - 1, limit);
    }
  }

  /** At any time, what is shown for a key and day is what it asked that day, less what of an earlier day no rollup has counted yet. */
  lemma {:induction false} ShownLagsExactly(limit: string -> nat, events: seq<Event>, today: int, key: string, day: int)
    requires NoneLater(events, today)
    ensures var st := HappenAll(limit, EMPTY, events);
            Shown(st, key, day, today)
            == Sum(st.log, InDay(key, day)) - if day < today then DayCount(st.counters, key, day) else 0
  {
    hide Happen;
    hide DayOf;
    hide MinuteOf;
    hide DayCount;
    var st := HappenAll(limit, EMPTY, events);
    RunStaysEarlier(limit, events, today);
    RecordedIsLogged(limit, events, key, day);
    LiveIsToday(st, key, today);
    if today < day {
      NothingLater(st, key, day, today);
    }
  }

  /** Straight after a rollup, what is shown for a key and day is what the key asked that day. */
  lemma {:induction false} ShownIsLogged(limit: string -> nat, events: seq<Event>, now: int, key: string, day: int)
    requires NoneLater(events, DayOf(MinuteOf(now)))
    ensures var st := HappenAll(limit, EMPTY, events + [Rollup(now)]);
            Shown(st, key, day, DayOf(MinuteOf(now))) == Sum(st.log, InDay(key, day))
  {
    hide Happen;
    var today := DayOf(MinuteOf(now));
    var all := events + [Rollup(now)];
    var before, st := HappenAll(limit, EMPTY, events), HappenAll(limit, EMPTY, all);
    assert all[..|events|] == events && all[|events|] == Rollup(now);
    RunStaysEarlier(limit, all, today);
    RecordedIsLogged(limit, all, key, day);
    LiveIsToday(st, key, today);
    if day < today {
      RolledCounters(limit, before, now, key, day);
    } else if today < day {
      NothingLater(st, key, day, today);
    }
  }

  lemma {:induction false} RolledCounters(limit: string -> nat, st: State, now: int, key: string, day: int)
    requires day < DayOf(MinuteOf(now))
    ensures DayCount(Happen(limit, st, Rollup(now)).counters, key, day) == 0
  {
    hide RolledUp;
    hide DayCount;
    DayAfterRollup(st.counters, now, key, day);
  }

  lemma {:induction false} NothingLater(st: State, key: string, day: int, today: int)
    requires TablesEarlier(st, today) && today < day
    ensures DayCount(st.counters, key, day) == 0
  {
    forall m | day * MINUTES_IN_A_DAY <= m < day * MINUTES_IN_A_DAY + MINUTES_IN_A_DAY
      ensures Get(st.counters, key, m) == Get(map[], key, m)
    {
      InsideDay(m, day);
    }
    OverSame(st.counters, map[], key, day * MINUTES_IN_A_DAY, MINUTES_IN_A_DAY);
    OverNothing(key, day * MINUTES_IN_A_DAY, MINUTES_IN_A_DAY);
  }

  function InRange(key: string, from: int, n: nat): Logged -> int {
    (l: Logged) => if l.key == key && from <= DayOf(MinuteOf(l.at)) < from + n then 1 else 0
  }

  lemma {:induction false} RangeNext(log: seq<Logged>, key: string, from: int, n: nat)
    ensures Sum(log, InRange(key, from, n + 1)) == Sum(log, InRange(key, from, n)) + Sum(log, InDay(key, from + n))
  {
    hide DayOf;
    hide MinuteOf;
    SumSplit(log, InRange(key, from, n + 1), InRange(key, from, n), InDay(key, from + n));
  }

  lemma {:induction false} ShownAddsUp(st: State, key: string, from: int, n: nat, today: int)
    requires forall day :: from <= day < from + n ==> Shown(st, key, day, today) == Sum(st.log, InDay(key, day))
    ensures Sum(Daily(st, key, from, n, today), COUNT) == Sum(st.log, InRange(key, from, n))
  {
    hide Live;
    hide DayOf;
    hide MinuteOf;
    if n == 0 {
      EmptyRange(st.log, key, from);
    } else {
      var day, init := from + n - 1, Daily(st, key, from, n - 1, today);
      ShownAddsUp(st, key, from, n - 1, today);
      RangeNext(st.log, key, from, n - 1);
      SumAppend(init, DayUsage(day, Shown(st, key, day, today)), COUNT);
      assert init + [] == init;
    }
  }

  /** Straight after a rollup, the days reported for a key add up to the requests it made in the range. */
  lemma {:induction false} DailyAddsUp(limit: string -> nat, events: seq<Event>, now: int, key: string, from: int, n: nat)
    requires NoneLater(events, DayOf(MinuteOf(now)))
    ensures var st := HappenAll(limit, EMPTY, events + [Rollup(now)]);
            Sum(Daily(st, key, from, n, DayOf(MinuteOf(now))), COUNT) == Sum(st.log, InRange(key, from, n))
  {
    hide HappenAll;
    hide Shown;
    var st := HappenAll(limit, EMPTY, events + [Rollup(now)]);
    forall day | from <= day < from + n
      ensures Shown(st, key, day, DayOf(MinuteOf(now))) == Sum(st.log, InDay(key, day))
    {
      ShownIsLogged(limit, events, now, key, day);
    }
    ShownAddsUp(st, key, from, n, DayOf(MinuteOf(now)));
  }

  lemma {:induction false} EmptyRange(log: seq<Logged>, key: string, from: int)
    ensures Sum(log, InRange(key, from, 0)) == 0
  {
    if log != [] {
      EmptyRange(log[..|log| - 1], key, from);
    }
  }
}
