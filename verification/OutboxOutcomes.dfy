/** What each delivery result leads to, how many rows a batch takes, and that no row is given up early. */
module OutboxOutcomes {
  import opened Outbox

  // ---- What a result leads to ----

  /** What each result leaves of a row: delivered, failed for good once its retries are spent or it has nowhere to go, or pending again. */
  lemma {:induction false} ResultOutcome(row: Row, h: Held, result: Result)
    ensures After(row, h, result).status
            == (match result
                case Accepted => Delivered
                case Refused => if h.maxRetries <= h.retries + 1 then Failed else Pending
                case NoDestination => Failed
                case Unmarked => row.status)
    ensures After(row, h, result).retries == if result == Refused then h.retries + 1 else row.retries
    ensures After(row, h, result).maxRetries == row.maxRetries
  {
  }

  /** A batch is the first twenty of the rows that could be claimed, or all of them. */
  lemma {:induction false} BatchExactly(rows: seq<Row>, passedOver: set<nat>, n: nat)
    requires n <= |rows|
    ensures |Claimable(rows, passedOver, n)| == if Waiting(rows, passedOver, n) < 20 then Waiting(rows, passedOver, n) else 20
  {
    if n != 0 {
      BatchExactly(rows, passedOver, n - 1);
    }
  }

  function Waiting(rows: seq<Row>, passedOver: set<nat>, n: nat): nat
    requires n <= |rows|
  {
    if n == 0 then 0
    else Waiting(rows, passedOver, n - 1) + if rows[n - 1].status == Pending && n - 1 !in passedOver then 1 else 0
  }

  /** Every failed row has used up its retries. */
  ghost predicate FailedSpent(st: State) {
    forall i :: 0 <= i < |st.rows| && st.rows[i].status == Failed ==> st.rows[i].maxRetries <= st.rows[i].retries
  }

  lemma {:induction false} SpentStep(st: State, e: Event)
    requires Sound(st) && FailedSpent(st)
    requires e.Finish? ==> e.result != NoDestination
    ensures FailedSpent(Happen(st, e))
  {
    hide Claimable;
    var after := Happen(st, e);
    match e
    case Claim(worker, passedOver) =>
      forall i | 0 <= i < |after.rows| && after.rows[i].status == Failed ensures after.rows[i] == st.rows[i] {}
    case Finish(k, result) =>
      if k < |st.held| {
        assert HoldSound(st.rows, st.held[k]);
      }
    case DeliverUnseen(k) =>
      if k < |st.held| {
        assert HoldSound(st.rows, st.held[k]);
      }
    case Recover(k) =>
      if k < |st.held| {
        assert HoldSound(st.rows, st.held[k]);
      }
    case Crash(_) =>
    case Enqueue(_) =>
  }

  /** No row is given up early: in every run in which all have somewhere to go, a failed row was retried as often as it may be. */
  lemma {:induction false} NoneGivenUpEarly(events: seq<Event>)
    requires forall i :: 0 <= i < |events| && events[i].Finish? ==> events[i].result != NoDestination
    ensures FailedSpent(HappenAll(State([], []), events))
  {
    hide Happen;
    if events != [] {
      var n := |events| - 1;
      NoneGivenUpEarly(events[..n]);
      RunSound(State([], []), events[..n]);
      SpentStep(HappenAll(State([], []), events[..n]), events[n]);
    }
  }
}
