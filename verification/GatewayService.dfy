/** The gateway's counters table, daily totals and usage report, in place. */
module GatewayService {
  import opened Sums
  import opened RateLimit
  import opened Usage
  import opened Domain

  type Merged = map<string, map<int, nat>>

  predicate Has(m: Merged, key: string, day: int) {
    key in m && day in m[key]
  }

  function Cell(m: Merged, key: string, day: int): nat {
    if Has(m, key, day) then m[key][day] else 0
  }

  function With(m: Merged, key: string, day: int, count: nat): (merged: Merged)
    ensures forall k, d :: Has(merged, k, d) <==> Has(m, k, d) || (k == key && d == day)
    ensures forall k, d :: Cell(merged, k, d) == if k == key && d == day then count else Cell(m, k, d)
    ensures merged.Keys == m.Keys + {key}
  {
    m[key := (if key in m then m[key] else map[])[day := count]]
  }

  /** Every key in the map has at least one day. */
  ghost predicate NoneEmpty(m: Merged) {
    forall key :: key in m ==> exists day :: Has(m, key, day)
  }

  class Gateway {
    const limit: string -> nat
    /** The tenant each API key belongs to. */
    const owner: map<string, string>
    var counters: Table
    var totals: Table
    ghost var log: seq<Logged>

    constructor (limit: string -> nat, owner: map<string, string>)
      ensures this.limit == limit && this.owner == owner && View() == EMPTY
    {
      this.limit, this.owner, counters, totals, log := limit, owner, map[], map[], [];
    }

    ghost function View(): State
      reads this
    {
      State(counters, totals, log)
    }

    /** One upsert: the count it returns is the counter after adding this request. */
    method IncrementAndGetCount(key: string, at: int) returns (count: nat)
      modifies this`counters
      ensures count == Get(old(counters), key, MinuteOf(at)) + 1
      ensures counters == old(counters)[(key, MinuteOf(at)) := count]
    {
      count := if (key, MinuteOf(at)) in counters then counters[(key, MinuteOf(at))] + 1 else 1;
      counters := counters[(key, MinuteOf(at)) := count];
    }

    method RequireApiKey(key: string, at: int) returns (admitted: bool, remaining: nat)
      modifies this
      ensures View() == Happen(limit, old(View()), Request(key, at))
      ensures admitted == log[|log| - 1].admitted
      ensures remaining + Seen(old(View()), key, at) == limit(key) || (remaining == 0 && limit(key) <= Seen(old(View()), key, at))
    {
      var count := IncrementAndGetCount(key, at);
      remaining := if limit(key) <= count then 0 else limit(key) - count;
      admitted := count <= limit(key);
      log := log + [Logged(key, at, admitted)];
    }

    /** Adds every past counter into its day's total, then deletes it. */
    method RollupAndPrune(now: int)
      modifies this
      ensures View() == Happen(limit, old(View()), Rollup(now))
    {
      hide DayOf;
      hide MinuteOf;
      hide DayCount;
      hide RolledUp;
      hide Get;
      hide Groups;
      ghost var before, kept := counters, totals;
      var past := Past(counters, now);
      var todo := past;
      NoGroups();
      assert past - todo == {};
      while todo != {}
        invariant todo <= past && past == Past(before, now)
        invariant counters == before - (past - todo)
        invariant totals.Keys == kept.Keys + Groups(past - todo)
        invariant forall key, day ::
                    Get(totals, key, day) + DayCount(counters, key, day) == Get(kept, key, day) + DayCount(before, key, day)
        invariant log == old(log)
        decreases todo
      {
        var k :| k in todo;
        var day := DayOf(k.1);
        ghost var counted, summed := counters, totals;
        totals := totals[(k.0, day) := Get(totals, k.0, day) + counters[k]];
        counters := counters - {k};
        MovesOne(counted, summed, k);
        GroupsNext(past - todo, k);
        assert past - (todo - {k}) == past - todo + {k};
        todo := todo - {k};
      }
      assert past - todo == past;
      SameTotals(before, kept, totals, counters, now);
    }

    method SumLive(key: string, today: int) returns (sum: nat)
      ensures sum == Live(counters, key, today)
    {
      var left := set k | k in counters && k.0 == key && today * MINUTES_IN_A_DAY <= k.1;
      ghost var start, end := today * MINUTES_IN_A_DAY, Beyond(counters.Keys);
      ghost var n := if end <= start then 0 else end - start;
      ghost var rest: Table := map k | k in left :: counters[k];
      OverSame(counters, rest, key, start, n);
      sum := 0;
      while left != {}
        invariant forall k :: k in left ==> k in counters && k.0 == key && start <= k.1
        invariant rest == map k | k in left :: counters[k]
        invariant sum + Over(rest, key, start, n) == Over(counters, key, start, n)
        decreases left
      {
        var k :| k in left;
        OverRemove(rest, key, start, n, k);
        sum := sum + counters[k];
        left := left - {k};
        rest := rest - {k};
      }
      OverNothing(key, start, n);
      assert rest == map[];
    }

    /** The tenant's stored daily totals in range. */
    method Historical(tenant: string, from: int, to: int) returns (m: Merged)
      ensures forall key, day :: Has(m, key, day) <==>
                && (key, day) in totals && from <= day <= to && key in owner && owner[key] == tenant
      ensures forall key, day :: Has(m, key, day) ==> Cell(m, key, day) == Get(totals, key, day)
      ensures NoneEmpty(m)
    {
      hide With;
      var rows := set k | k in totals && from <= k.1 <= to && k.0 in owner && owner[k.0] == tenant;
      var todo := rows;
      m := map[];
      while todo != {}
        invariant todo <= rows
        invariant forall key, day :: Has(m, key, day) <==> (key, day) in rows - todo
        invariant forall key, day :: Has(m, key, day) ==> Cell(m, key, day) == Get(totals, key, day)
        invariant NoneEmpty(m)
        decreases todo
      {
        var k :| k in todo;
        StaysNoneEmpty(m, k.0, k.1, totals[k]);
        m := With(m, k.0, k.1, totals[k]);
        todo := todo - {k};
      }
    }

    /** Puts today's live count, where there is one, over whatever the totals had. */
    method MergeLive(m: Merged, tenant: string, today: int) returns (merged: Merged)
      requires NoneEmpty(m)
      ensures forall key, day :: Has(merged, key, day) <==> Has(m, key, day) || LiveCell(tenant, key, day, today)
      ensures forall key, day ::
                Cell(merged, key, day) == if LiveCell(tenant, key, day, today) then Live(counters, key, today) else Cell(m, key, day)
      ensures NoneEmpty(merged)
    {
      hide Live;
      hide With;
      var keys := set key | key in owner && owner[key] == tenant;
      var todo := keys;
      merged := m;
      while todo != {}
        invariant todo <= keys
        invariant forall key, day :: Has(merged, key, day) <==>
                    Has(m, key, day) || (key !in todo && LiveCell(tenant, key, day, today))
        invariant forall key, day ::
                    Cell(merged, key, day) == if key !in todo && LiveCell(tenant, key, day, today)
                                              then Live(counters, key, today) else Cell(m, key, day)
        invariant NoneEmpty(merged)
        decreases todo
      {
        var key :| key in todo;
        var count := SumLive(key, today);
        if count != 0 {
          StaysNoneEmpty(merged, key, today, count);
          merged := With(merged, key, today, count);
        }
        todo := todo - {key};
      }
    }

    /** Today, for a key of the tenant that has been used today. */
    ghost predicate LiveCell(tenant: string, key: string, day: int, today: int)
      reads this
    {
      key in owner && owner[key] == tenant && day == today && Live(counters, key, today) != 0
    }

    /** A key's days in order, and their sum. */
    method Collect(m: map<int, nat>, key: string, from: int, to: int, today: int) returns (usage: KeyUsage)
      requires forall day :: day in m <==> from <= day <= to && Present(View(), key, day, today)
      requires forall day :: day in m ==> m[day] == Shown(View(), key, day, today)
      ensures usage.daily == Daily(View(), key, from, Days(from, to), today)
      ensures usage.total == Sum(usage.daily, COUNT)
    {
      hide Present;
      hide Shown;
      var daily: seq<DayUsage>, total: nat := [], 0;
      var day := from;
      while day <= to
        invariant from <= day && (day <= to + 1 || day == from)
        invariant daily == Daily(View(), key, from, day - from, today)
        invariant total == Sum(daily, COUNT)
      {
        if day in m {
          SumAppend(daily, DayUsage(day, m[day]), COUNT);
          daily := daily + [DayUsage(day, m[day])];
          total := total + m[day];
        }
        day := day + 1;
      }
      usage := KeyUsage(total, daily);
    }

    /** The stored totals in range with today's live counts over them. */
    method MergedUsage(tenant: string, from: int, to: int, today: int) returns (m: Merged)
      ensures forall key, day :: Has(m, key, day) <==>
                key in owner && owner[key] == tenant && from <= day <= to && Present(View(), key, day, today)
      ensures forall key, day :: Has(m, key, day) ==> Cell(m, key, day) == Shown(View(), key, day, today)
      ensures NoneEmpty(m)
    {
      hide Live;
      m := Historical(tenant, from, to);
      if from <= today <= to {
        m := MergeLive(m, tenant, today);
      }
    }

    /** Usage of every key of the tenant that has any, over a range of days. */
    method GetUsage(tenant: string, first: Option<int>, last: Option<int>, now: int) returns (report: map<string, KeyUsage>)
      ensures var today := DayOf(MinuteOf(now));
              var from := if first.Some? then first.value else today - 29;
              var to := if last.Some? then last.value else today;
              && (forall key :: key in report <==> Used(tenant, key, from, to, today))
              && (forall key :: key in report ==>
                    && report[key].daily == Daily(View(), key, from, Days(from, to), today)
                    && report[key].total == Sum(report[key].daily, COUNT))
    {
      hide Present;
      hide Shown;
      hide Daily;
      hide DayOf;
      hide MinuteOf;
      var today := DayOf(MinuteOf(now));
      var from := if first.Some? then first.value else today - 29;
      var to := if last.Some? then last.value else today;
      var m := MergedUsage(tenant, from, to, today);
      forall key ensures key in m <==> Used(tenant, key, from, to, today) {
        if key in m {
          var day :| Has(m, key, day);
        }
        if Used(tenant, key, from, to, today) {
          var day :| from <= day <= to && Present(View(), key, day, today);
          assert Has(m, key, day);
        }
      }
      report := map[];
      var todo := m.Keys;
      while todo != {}
        invariant todo <= m.Keys && report.Keys == m.Keys - todo
        invariant forall key :: key in report ==>
                    && report[key].daily == Daily(View(), key, from, Days(from, to), today)
                    && report[key].total == Sum(report[key].daily, COUNT)
        decreases todo
      {
        var key :| key in todo;
        assert forall day :: day in m[key] <==> Has(m, key, day);
        assert forall day :: day in m[key] ==> m[key][day] == Cell(m, key, day);
        var usage := Collect(m[key], key, from, to, today);
        report := report[key := usage];
        todo := todo - {key};
      }
    }

    /** The key is the tenant's and the report has something for it in range. */
    ghost predicate Used(tenant: string, key: string, from: int, to: int, today: int)
      reads this
    {
      key in owner && owner[key] == tenant && exists day :: from <= day <= to && Present(View(), key, day, today)
    }
  }

  lemma {:induction false} StaysNoneEmpty(m: Merged, key: string, day: int, count: nat)
    requires NoneEmpty(m)
    ensures NoneEmpty(With(m, key, day, count))
  {
    hide With;
    var merged := With(m, key, day, count);
    forall k | k in merged ensures exists d :: Has(merged, k, d) {
      if k == key {
        assert Has(merged, k, day);
      } else {
        var d :| Has(m, k, d);
        assert Has(merged, k, d);
      }
    }
  }

  lemma {:induction false} NoGroups()
    ensures Groups({}) == {}
  {
  }

  lemma {:induction false} GroupsNext(rows: set<(string, int)>, k: (string, int))
    ensures Groups(rows + {k}) == Groups(rows) + {(k.0, DayOf(k.1))}
  {
    hide DayOf;
  }

  /** Moving one counter into its day's total leaves every key's day as it was. */
  lemma {:induction false} MovesOne(counters: Table, totals: Table, k: (string, int))
    requires k in counters
    ensures var added := totals[(k.0, DayOf(k.1)) := Get(totals, k.0, DayOf(k.1)) + counters[k]];
            forall key, day ::
              Get(added, key, day) + DayCount(counters - {k}, key, day) == Get(totals, key, day) + DayCount(counters, key, day)
  {
    var added := totals[(k.0, DayOf(k.1)) := Get(totals, k.0, DayOf(k.1)) + counters[k]];
    forall key, day
      ensures Get(added, key, day) + DayCount(counters - {k}, key, day) == Get(totals, key, day) + DayCount(counters, key, day)
    {
      InsideDay(k.1, day);
      OverRemove(counters, key, day * MINUTES_IN_A_DAY, MINUTES_IN_A_DAY, k);
    }
  }

  /** Adding the counters one at a time ends in the totals the rollup is meant to leave. */
  lemma {:induction false} SameTotals(before: Table, kept: Table, totals: Table, counters: Table, now: int)
    requires counters == before - Past(before, now)
    requires totals.Keys == kept.Keys + Groups(Past(before, now))
    requires forall key, day ::
               Get(totals, key, day) + DayCount(counters, key, day) == Get(kept, key, day) + DayCount(before, key, day)
    ensures totals == RolledUp(before, kept, now)
  {
    var meant := RolledUp(before, kept, now);
    forall p | p in totals.Keys ensures totals[p] == meant[p] {
      DayAfterRollup(before, now, p.0, p.1);
      TotalAfterRollup(before, kept, now, p.0, p.1);
    }
  }
}
