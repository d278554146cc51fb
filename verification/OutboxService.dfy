/** One worker's drain cycle, and how many cycles empty a queue. */
module OutboxService {
  import opened Sums
  import opened Outbox

  // ---- A drain is a run ----

  /** What one drain does, given the result of each row it tries: claim a batch, then finish it from the front. */
  function Cycle(rows: seq<Row>, worker: nat, result: nat -> Result): (cycle: seq<Event>)
    ensures |cycle| == 1 + |Claimable(rows, {}, |rows|)|
  {
    [Claim(worker, {})] + Finishes(Claimable(rows, {}, |rows|), result)
  }

  function Finishes(ids: seq<nat>, result: nat -> Result): (events: seq<Event>)
    ensures |events| == |ids|
  {
    seq(|ids|, i requires 0 <= i < |ids| => Finish(0, result(ids[i])))
  }

  function Drained(rows: seq<Row>, worker: nat, result: nat -> Result): seq<Row> {
    HappenAll(State(rows, []), Cycle(rows, worker, result)).rows
  }

  lemma {:induction false} CyclePrefix(rows: seq<Row>, worker: nat, result: nat -> Result, n: nat)
    requires n < |Claimable(rows, {}, |rows|)|
    ensures var cycle := Cycle(rows, worker, result);
            && cycle[..n + 2][..n + 1] == cycle[..n + 1]
            && cycle[..n + 2][n + 1] == Finish(0, result(Claimable(rows, {}, |rows|)[n]))
  {
    hide Claimable;
  }

  lemma {:induction false} CycleStarts(rows: seq<Row>, worker: nat, result: nat -> Result)
    ensures HappenAll(State(rows, []), Cycle(rows, worker, result)[..1]) == Happen(State(rows, []), Claim(worker, {}))
  {
    hide Happen;
    var claim := [Claim(worker, {})];
    assert Cycle(rows, worker, result)[..1] == claim && claim[..0] == [];
  }

  /** Finishing the row at the front rewrites it and lets go of it. */
  lemma {:induction false} FinishFront(st: State, result: Result)
    requires st.held != [] && st.held[0].row < |st.rows| && !st.held[0].unseen
    ensures var h := st.held[0];
            Happen(st, Finish(0, result)) == State(st.rows[h.row := After(st.rows[h.row], h, result)], st.held[1..])
  {
    hide After;
    assert st.held[..0] + st.held[1..] == st.held[1..];
  }

  /** One more result finishes the row at the front. */
  lemma {:induction false} CycleNext(rows: seq<Row>, worker: nat, result: nat -> Result, st: State, n: nat)
    requires n < |Claimable(rows, {}, |rows|)| && st.held != [] && st.held[0].row < |st.rows| && !st.held[0].unseen
    requires st == HappenAll(State(rows, []), Cycle(rows, worker, result)[..n + 1])
    ensures var h := st.held[0];
            HappenAll(State(rows, []), Cycle(rows, worker, result)[..n + 2])
            == State(st.rows[h.row := After(st.rows[h.row], h, result(Claimable(rows, {}, |rows|)[n]))], st.held[1..])
  {
    hide After;
    hide Claimable;
    hide Happen;
    CyclePrefix(rows, worker, result, n);
    FinishFront(st, result(Claimable(rows, {}, |rows|)[n]));
  }

  lemma {:induction false} CycleEnds(rows: seq<Row>, worker: nat, result: nat -> Result)
    ensures Cycle(rows, worker, result)[..|Claimable(rows, {}, |rows|)| + 1] == Cycle(rows, worker, result)
  {
    hide Claimable;
  }

  lemma {:induction false} BatchEntry(rows: seq<Row>, worker: nat, n: nat)
    requires n < |Claimable(rows, {}, |rows|)|
    ensures var ids := Claimable(rows, {}, |rows|);
            var h := BatchOf(worker, rows, ids)[n];
            h.row == ids[n] < |rows| && !h.unseen
  {
    hide Claimable;
  }

  lemma {:induction false} ClaimHolds(rows: seq<Row>, worker: nat)
    ensures var st := Happen(State(rows, []), Claim(worker, {}));
            st.held == BatchOf(worker, rows, Claimable(rows, {}, |rows|)) && |st.rows| == |rows|
  {
    hide Claimable;
    hide BatchOf;
  }

  /** Part-way through a drain, the batch's tail is what is still held. */
  lemma {:induction false} CycleHolds(rows: seq<Row>, worker: nat, result: nat -> Result, n: nat)
    requires n <= |Claimable(rows, {}, |rows|)|
    ensures var ids := Claimable(rows, {}, |rows|);
            var st := HappenAll(State(rows, []), Cycle(rows, worker, result)[..n + 1]);
            && st.held == BatchOf(worker, rows, ids)[n..]
            && |st.rows| == |rows|
  {
    hide Claimable;
    hide BatchOf;
    hide Cycle;
    hide Happen;
    hide HappenAll;
    var batch := BatchOf(worker, rows, Claimable(rows, {}, |rows|));
    if n == 0 {
      CycleStarts(rows, worker, result);
      ClaimHolds(rows, worker);
      assert batch[0..] == batch;
    } else {
      CycleHolds(rows, worker, result, n - 1);
      BatchEntry(rows, worker, n - 1);
      CycleNext(rows, worker, result, HappenAll(State(rows, []), Cycle(rows, worker, result)[..n]), n - 1);
      assert batch[n - 1..][1..] == batch[n..];
    }
  }

  // ---- Enough drains empty the queue ----

  /** Nothing is processing: no drain is under way and none was ever cut short. */
  ghost predicate AtRest(rows: seq<Row>) {
    forall i :: 0 <= i < |rows| ==> RowSound(rows[i]) && rows[i].status != Processing
  }

  lemma {:induction false} CycleUseful(rows: seq<Row>, worker: nat, result: nat -> Result, n: nat)
    requires n <= |Claimable(rows, {}, |rows|)| && Claimable(rows, {}, |rows|) != []
    requires forall i :: result(i) != Unmarked
    ensures AllUseful(State(rows, []), Cycle(rows, worker, result)[..n + 1])
  {
    hide Claimable;
    hide Happen;
    var cycle := Cycle(rows, worker, result);
    if n == 0 {
      assert cycle[..1][..0] == [];
      assert AllUseful(State(rows, []), []);
    } else {
      CycleUseful(rows, worker, result, n - 1);
      CycleHolds(rows, worker, result, n - 1);
      BatchEntry(rows, worker, n - 1);
      CyclePrefix(rows, worker, result, n - 1);
    }
  }

  /** The deliveries a queue still has coming to it. */
  function DeliveriesLeft(rows: seq<Row>): int {
    Sum(rows, REMAINING)
  }

  lemma {:induction false} RestingWork(rows: seq<Row>)
    requires AtRest(rows)
    ensures Work(State(rows, [])) == 3 * DeliveriesLeft(rows)
  {
    if rows != [] {
      RestingWork(rows[..|rows| - 1]);
    }
  }

  lemma {:induction false} CycleEffort(rows: seq<Row>, worker: nat, result: nat -> Result, n: nat)
    requires n <= |Claimable(rows, {}, |rows|)|
    ensures Sum(Cycle(rows, worker, result)[..n + 1], Effort) == 1 + 2 * n
  {
    hide Claimable;
    var cycle := Cycle(rows, worker, result);
    if n == 0 {
      assert cycle[..1] == [Claim(worker, {})] && cycle[..1][..0] == [];
    } else {
      CycleEffort(rows, worker, result, n - 1);
      CyclePrefix(rows, worker, result, n - 1);
    }
  }

  /** A drain whose results are all written down leaves nothing processing and fewer deliveries to come, or finds nothing to do. */
  lemma {:induction false} DrainWorks(rows: seq<Row>, worker: nat, result: nat -> Result)
    requires AtRest(rows) && forall i :: result(i) != Unmarked
    ensures AtRest(Drained(rows, worker, result))
    ensures || DeliveriesLeft(Drained(rows, worker, result)) < DeliveriesLeft(rows)
            || forall i :: 0 <= i < |rows| ==> Terminal(rows[i])
  {
    hide Claimable;
    hide HappenAll;
    hide Work;
    var start := State(rows, []);
    var n := |Claimable(rows, {}, |rows|)|;
    var cycle := Cycle(rows, worker, result);
    var after := HappenAll(start, cycle);
    assert cycle[..n + 1] == cycle;
    CycleHolds(rows, worker, result, n);
    assert after == State(Drained(rows, worker, result), []);
    if n == 0 {
      NothingClaimed(rows, worker, result);
    } else {
      CycleUseful(rows, worker, result, n);
      CycleRests(rows, worker, result);
      WorkRunsOut(start, cycle);
      CycleEffort(rows, worker, result, n);
      RestingWork(rows);
      RestingWork(after.rows);
    }
  }

  lemma {:induction false} CycleRests(rows: seq<Row>, worker: nat, result: nat -> Result)
    requires AtRest(rows) && AllUseful(State(rows, []), Cycle(rows, worker, result))
    requires HappenAll(State(rows, []), Cycle(rows, worker, result)).held == []
    ensures AtRest(Drained(rows, worker, result))
  {
    hide Claimable;
    hide HappenAll;
    var start := State(rows, []);
    var cycle := Cycle(rows, worker, result);
    RunSound(start, cycle);
    StaysAttended(start, cycle);
    var after := HappenAll(start, cycle);
    forall i | 0 <= i < |after.rows| ensures RowSound(after.rows[i]) && after.rows[i].status != Processing {
      assert !IsHeld(after.held, i);
    }
  }

  lemma {:induction false} NothingClaimed(rows: seq<Row>, worker: nat, result: nat -> Result)
    requires AtRest(rows) && Claimable(rows, {}, |rows|) == []
    ensures Drained(rows, worker, result) == rows
    ensures forall i :: 0 <= i < |rows| ==> Terminal(rows[i])
  {
    hide Claimable;
    var claim := [Claim(worker, {})];
    assert Cycle(rows, worker, result) == claim && claim[..0] == [];
    assert HappenAll(State(rows, []), claim) == Happen(State(rows, []), claim[0]);
    assert Taken(rows, []) == rows;
  }

  function DrainedBy(rows: seq<Row>, worker: nat, rounds: seq<nat -> Result>): seq<Row> {
    if |rounds| == 0 then rows
    else Drained(DrainedBy(rows, worker, rounds[..|rounds| - 1]), worker, rounds[|rounds| - 1])
  }

  lemma {:induction false} RoundsWork(rows: seq<Row>, worker: nat, rounds: seq<nat -> Result>)
    requires AtRest(rows)
    requires forall r, i :: 0 <= r < |rounds| ==> rounds[r](i) != Unmarked
    ensures AtRest(DrainedBy(rows, worker, rounds))
    ensures || DeliveriesLeft(DrainedBy(rows, worker, rounds)) + |rounds| <= DeliveriesLeft(rows)
            || DeliveriesLeft(DrainedBy(rows, worker, rounds)) == 0
  {
    hide Drained;
    hide AtRest;
    hide DeliveriesLeft;
    if |rounds| != 0 {
      var init := rounds[..|rounds| - 1];
      RoundsWork(rows, worker, init);
      var before := DrainedBy(rows, worker, init);
      DrainWorks(before, worker, rounds[|rounds| - 1]);
      NoneLeft(before);
      NoneLeft(Drained(before, worker, rounds[|rounds| - 1]));
      if forall i :: 0 <= i < |before| ==> Terminal(before[i]) {
        DoneStaysDone(before, worker, rounds[|rounds| - 1]);
      }
    }
  }

  lemma {:induction false} ClaimedWasPending(rows: seq<Row>)
    ensures Claimable(rows, {}, |rows|) != [] ==> exists a :: 0 <= a < |rows| && !Terminal(rows[a])
  {
    hide Claimable;
    var ids := Claimable(rows, {}, |rows|);
    if |ids| != 0 {
      assert !Terminal(rows[ids[0]]);
    }
  }

  lemma {:induction false} DoneStaysDone(rows: seq<Row>, worker: nat, result: nat -> Result)
    requires AtRest(rows) && forall i :: 0 <= i < |rows| ==> Terminal(rows[i])
    ensures Drained(rows, worker, result) == rows
  {
    ClaimedWasPending(rows);
    NothingClaimed(rows, worker, result);
  }

  /** No delivery is left exactly when every row is delivered or failed. */
  lemma {:induction false} NoneLeft(rows: seq<Row>)
    requires AtRest(rows)
    ensures 0 <= DeliveriesLeft(rows)
    ensures DeliveriesLeft(rows) == 0 <==> forall i :: 0 <= i < |rows| ==> Terminal(rows[i])
  {
    if rows != [] {
      var last := |rows| - 1;
      assert RowSound(rows[last]);
      NoneLeft(rows[..last]);
      assert forall i :: 0 <= i < last ==> rows[..last][i] == rows[i];
    }
  }

  /**
   * Once a worker has drained the queue as many times as there are deliveries
   * left in it, every row is delivered or failed, whatever the webhooks answered.
   */
  lemma {:induction false} EnoughDrains(rows: seq<Row>, worker: nat, rounds: seq<nat -> Result>)
    requires AtRest(rows)
    requires forall r, i :: 0 <= r < |rounds| ==> rounds[r](i) != Unmarked
    requires DeliveriesLeft(rows) <= |rounds|
    ensures var after := DrainedBy(rows, worker, rounds);
            forall i :: 0 <= i < |after| ==> Terminal(after[i])
  {
    RoundsWork(rows, worker, rounds);
    NoneLeft(DrainedBy(rows, worker, rounds));
  }

  lemma {:induction false} NoneTaken(rows: seq<Row>)
    ensures Taken(rows, []) == rows
  {
  }

  lemma {:induction false} TakenOneMore(rows: seq<Row>, ids: seq<nat>, i: nat)
    requires i < |ids| && ids[i] < |rows|
    ensures Taken(rows, ids[..i + 1]) == Taken(rows, ids[..i])[ids[i] := Taken(rows, ids[..i])[ids[i]].(status := Processing)]
  {
    assert ids[..i + 1] == ids[..i] + [ids[i]];
  }

  // ---- The worker ----

  class Consumer {
    const worker: nat
    var rows: seq<Row>

    constructor (worker: nat, rows: seq<Row>)
      ensures this.worker == worker && this.rows == rows
    {
      this.worker, this.rows := worker, rows;
    }

    /** Selects pending rows in order and flips them to processing, in one transaction. */
    method ClaimBatch() returns (batch: seq<Held>)
      modifies this
      ensures State(rows, batch) == Happen(State(old(rows), []), Claim(worker, {}))
    {
      var ids := SelectPending();
      batch := BatchOf(worker, rows, ids);
      FlipToProcessing(ids);
    }

    method SelectPending() returns (ids: seq<nat>)
      ensures ids == Claimable(rows, {}, |rows|)
    {
      ids := [];
      for i := 0 to |rows|
        invariant ids == Claimable(rows, {}, i)
      {
        if |ids| < BATCH && rows[i].status == Pending {
          ids := ids + [i];
        }
      }
    }

    method FlipToProcessing(ids: seq<nat>)
      requires forall i :: 0 <= i < |ids| ==> ids[i] < |rows|
      modifies this
      ensures rows == Taken(old(rows), ids)
    {
      hide Taken;
      NoneTaken(rows);
      assert ids[..0] == [];
      for i := 0 to |ids|
        invariant |rows| == |old(rows)| && rows == Taken(old(rows), ids[..i])
      {
        rows := rows[ids[i] := rows[ids[i]].(status := Processing)];
        TakenOneMore(old(rows), ids, i);
      }
      assert ids[..|ids|] == ids;
    }

    method MarkResult(h: Held, result: Result)
      requires h.row < |rows|
      modifies this
      ensures rows == old(rows)[h.row := After(old(rows)[h.row], h, result)]
    {
      var row := rows[h.row];
      var tries := if result == NoDestination then row.tries else row.tries + 1;
      if result == Accepted {
        rows := rows[h.row := row.(status := Delivered, tries := tries)];
      } else if result == Refused {
        var nextRetryCount := h.retries + 1;
        var status := if nextRetryCount >= h.maxRetries then Failed else Pending;
        rows := rows[h.row := row.(status := status, retries := nextRetryCount, tries := tries)];
      } else if result == NoDestination {
        rows := rows[h.row := row.(status := Failed)];
      } else {
        rows := rows[h.row := row.(tries := tries)];
      }
    }

    method DrainOnce(result: nat -> Result) returns (claimed: nat)
      modifies this
      ensures rows == Drained(old(rows), worker, result)
      ensures claimed == |Claimable(old(rows), {}, |old(rows)|)|
    {
      hide Claimable;
      hide After;
      hide HappenAll;
      hide Cycle;
      hide BatchOf;
      ghost var before := rows;
      ghost var ids := Claimable(rows, {}, |rows|);
      ghost var cycle := Cycle(rows, worker, result);
      var batch := ClaimBatch();
      CycleStarts(before, worker, result);
      ClaimHolds(before, worker);
      for i := 0 to |batch|
        invariant batch == BatchOf(worker, before, ids)
        invariant State(rows, batch[i..]) == HappenAll(State(before, []), cycle[..i + 1])
        invariant |rows| == |before|
      {
        BatchEntry(before, worker, i);
        CycleNext(before, worker, result, State(rows, batch[i..]), i);
        MarkResult(batch[i], result(batch[i].row));
        assert batch[i..][1..] == batch[i + 1..];
      }
      CycleEnds(before, worker, result);
      claimed := |batch|;
    }
  }
}
