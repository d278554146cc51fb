/**
 * Draining the event outbox (services/ledger/internal/outbox/outbox.go) and the
 * merchant webhook queue that copies it (services/checkout/src/services/
 * merchantWebhookRunnerService.js): workers claim batches of pending rows,
 * deliver each one and write down how it went.
 */
module Outbox {
  import opened Sums

  const BATCH := 20

  datatype Status = Pending | Processing | Delivered | Failed

  /** `tries` counts the deliveries actually attempted; no column records it. */
  datatype Row = Row(status: Status, retries: nat, maxRetries: int, tries: nat)

  /**
   * A row in some worker's batch, with the counters as they were when it was
   * claimed. It is `unseen` once the row has been marked delivered but the
   * worker did not hear so.
   */
  datatype Held = Held(worker: nat, row: nat, retries: nat, maxRetries: int, unseen: bool)

  datatype State = State(rows: seq<Row>, held: seq<Held>)

  /**
   * The webhook accepts or refuses the delivery; the merchant may have no
   * address at all; or the result is never written down.
   */
  datatype Result = Accepted | Refused | NoDestination | Unmarked

  /** `passedOver` are the rows other transactions have locked, or that are not due. */
  datatype Event =
    | Claim(worker: nat, passedOver: set<nat>)
    | Finish(k: nat, result: Result)
    | DeliverUnseen(k: nat)
    | Recover(k: nat)
    | Crash(worker: nat)
    | Enqueue(maxRetries: int)

  // ---- Claiming ----

  /** The first pending rows nobody else has locked, at most a batch of them, among the first `n`. */
  function Claimable(rows: seq<Row>, passedOver: set<nat>, n: nat): (ids: seq<nat>)
    requires n <= |rows|
    ensures |ids| <= BATCH
    ensures forall i :: 0 <= i < |ids| ==> ids[i] < n && rows[ids[i]].status == Pending && ids[i] !in passedOver
    ensures forall i, k :: 0 <= i < k < |ids| ==> ids[i] < ids[k]
    ensures |ids| < BATCH ==> forall a :: 0 <= a < n && rows[a].status == Pending && a !in passedOver ==> a in ids
  {
    if n == 0 then []
    else
      var earlier := Claimable(rows, passedOver, n - 1);
      if |earlier| < BATCH && rows[n - 1].status == Pending && n - 1 !in passedOver then earlier + [n - 1] else earlier
  }

  function Taken(rows: seq<Row>, ids: seq<nat>): (taken: seq<Row>)
    ensures |taken| == |rows|
  {
    seq(|rows|, i requires 0 <= i < |rows| => if i in ids then rows[i].(status := Processing) else rows[i])
  }

  function BatchOf(worker: nat, rows: seq<Row>, ids: seq<nat>): (batch: seq<Held>)
    requires forall i :: 0 <= i < |ids| ==> ids[i] < |rows|
    ensures |batch| == |ids|
  {
    seq(|ids|, i requires 0 <= i < |ids| => Held(worker, ids[i], rows[ids[i]].retries, rows[ids[i]].maxRetries, false))
  }

  // ---- Results ----

  /** What a worker writes for a delivery it believes failed. */
  function Requeued(row: Row, h: Held): Row {
    row.(status := if h.retries + 1 >= h.maxRetries then Failed else Pending, retries := h.retries + 1)
  }

  function After(row: Row, h: Held, result: Result): Row {
    match result
    case Accepted => row.(status := Delivered, tries := row.tries + 1)
    case Refused => Requeued(row.(tries := row.tries + 1), h)
    case NoDestination => row.(status := Failed)
    case Unmarked => row.(tries := row.tries + 1)
  }

  function Without(held: seq<Held>, worker: nat): seq<Held> {
    if held == [] then []
    else
      var last := |held| - 1;
      Without(held[..last], worker) + if held[last].worker == worker then [] else [held[last]]
  }

  function Happen(st: State, e: Event): State {
    match e
    case Claim(worker, passedOver) =>
      var ids := Claimable(st.rows, passedOver, |st.rows|);
      State(Taken(st.rows, ids), st.held + BatchOf(worker, st.rows, ids))
    case Finish(k, result) =>
      if |st.held| <= k || |st.rows| <= st.held[k].row || st.held[k].unseen then st
      else
        var h := st.held[k];
        State(st.rows[h.row := After(st.rows[h.row], h, result)], st.held[..k] + st.held[k + 1..])
    case DeliverUnseen(k) =>
      if |st.held| <= k || |st.rows| <= st.held[k].row || st.held[k].unseen then st
      else
        var h := st.held[k];
        State(st.rows[h.row := After(st.rows[h.row], h, Accepted)], st.held[k := h.(unseen := true)])
    case Recover(k) =>
      if |st.held| <= k || |st.rows| <= st.held[k].row || !st.held[k].unseen then st
      else
        var h := st.held[k];
        State(st.rows[h.row := Requeued(st.rows[h.row], h)], st.held[..k] + st.held[k + 1..])
    case Crash(worker) => st.(held := Without(st.held, worker))
    case Enqueue(maxRetries) => st.(rows := st.rows + [Row(Pending, 0, maxRetries, 0)])
  }

  function HappenAll(st: State, events: seq<Event>): State {
    if events == [] then st else Happen(HappenAll(st, events[..|events| - 1]), events[|events| - 1])
  }

  // ---- What every interleaving keeps ----

  function Allowance(maxRetries: int): int {
    if maxRetries < 1 then 1 else maxRetries
  }

  /** The counters agree with the status, and the allowance of deliveries is respected. */
  predicate RowSound(r: Row) {
    match r.status
    case Pending => r.tries == r.retries < Allowance(r.maxRetries)
    case Processing => r.retries <= r.tries <= r.retries + 1 <= Allowance(r.maxRetries)
    case Delivered => r.tries == r.retries + 1 <= Allowance(r.maxRetries)
    case Failed => r.tries == r.retries <= Allowance(r.maxRetries)
  }

  /**
   * What a worker holds is still processing and not yet delivered this time, or
   * it has just been delivered unseen; the counters are those it saw.
   */
  predicate HoldSound(rows: seq<Row>, h: Held) {
    && h.row < |rows|
    && rows[h.row].status == (if h.unseen then Delivered else Processing)
    && rows[h.row].retries == h.retries
    && rows[h.row].tries == h.retries + (if h.unseen then 1 else 0)
    && rows[h.row].maxRetries == h.maxRetries
  }

  ghost predicate Sound(st: State) {
    && (forall i :: 0 <= i < |st.rows| ==> RowSound(st.rows[i]))
    && (forall k :: 0 <= k < |st.held| ==> HoldSound(st.rows, st.held[k]))
    && (forall j, k :: 0 <= j < k < |st.held| ==> st.held[j].row != st.held[k].row)
  }

  lemma {:induction false} WithoutIsPart(held: seq<Held>, worker: nat)
    requires forall j, k :: 0 <= j < k < |held| ==> held[j].row != held[k].row
    ensures forall h :: h in Without(held, worker) ==> h in held
    ensures forall j, k :: 0 <= j < k < |Without(held, worker)| ==> Without(held, worker)[j].row != Without(held, worker)[k].row
  {
    if held != [] {
      var init, last := held[..|held| - 1], held[|held| - 1];
      WithoutIsPart(init, worker);
      var kept := Without(init, worker);
      forall j | 0 <= j < |kept| ensures kept[j].row != last.row {
        assert kept[j] in init;
      }
    }
  }

  lemma {:induction false} ClaimSound(st: State, worker: nat, passedOver: set<nat>)
    requires Sound(st)
    ensures Sound(Happen(st, Claim(worker, passedOver)))
  {
    var after := Happen(st, Claim(worker, passedOver));
    var ids := Claimable(st.rows, passedOver, |st.rows|);
    forall i | 0 <= i < |after.rows| ensures RowSound(after.rows[i]) {
      assert RowSound(st.rows[i]);
    }
    forall k | 0 <= k < |after.held| ensures HoldSound(after.rows, after.held[k]) {
      if k < |st.held| {
        assert HoldSound(st.rows, st.held[k]);
      } else {
        assert ids[k - |st.held|] in ids;
        assert RowSound(st.rows[ids[k - |st.held|]]);
      }
    }
    forall j, k | 0 <= j < k < |after.held| ensures after.held[j].row != after.held[k].row {
      if j < |st.held| <= k {
        assert HoldSound(st.rows, st.held[j]);
      }
    }
  }

  /** Letting go of a row after rewriting it keeps every other hold sound. */
  lemma {:induction false} LetGoSound(st: State, k: nat, row: Row)
    requires Sound(st) && k < |st.held| && RowSound(row)
    ensures st.held[k].row < |st.rows|
    ensures Sound(State(st.rows[st.held[k].row := row], st.held[..k] + st.held[k + 1..]))
  {
    assert HoldSound(st.rows, st.held[k]);
    var after := State(st.rows[st.held[k].row := row], st.held[..k] + st.held[k + 1..]);
    forall j | 0 <= j < |after.held| ensures HoldSound(after.rows, after.held[j]) {
      var was := if j < k then j else j + 1;
      assert after.held[j] == st.held[was] && HoldSound(st.rows, st.held[was]);
    }
  }

  lemma {:induction false} FinishSound(st: State, k: nat, result: Result)
    requires Sound(st)
    ensures Sound(Happen(st, Finish(k, result)))
  {
    if k < |st.held| && !st.held[k].unseen {
      var h := st.held[k];
      assert HoldSound(st.rows, h) && RowSound(st.rows[h.row]);
      LetGoSound(st, k, After(st.rows[h.row], h, result));
    }
  }

  lemma {:induction false} RecoverSound(st: State, k: nat)
    requires Sound(st)
    ensures Sound(Happen(st, Recover(k)))
  {
    if k < |st.held| && st.held[k].unseen {
      var h := st.held[k];
      assert HoldSound(st.rows, h) && RowSound(st.rows[h.row]);
      LetGoSound(st, k, Requeued(st.rows[h.row], h));
    }
  }

  lemma {:induction false} DeliverUnseenSound(st: State, k: nat)
    requires Sound(st)
    ensures Sound(Happen(st, DeliverUnseen(k)))
  {
    if k < |st.held| && !st.held[k].unseen {
      var h := st.held[k];
      assert HoldSound(st.rows, h) && RowSound(st.rows[h.row]);
      var after := Happen(st, DeliverUnseen(k));
      forall j | 0 <= j < |after.held| ensures HoldSound(after.rows, after.held[j]) {
        assert HoldSound(st.rows, st.held[j]);
      }
    }
  }

  lemma {:induction false} HappenSound(st: State, e: Event)
    requires Sound(st)
    ensures Sound(Happen(st, e))
  {
    match e
    case Claim(worker, passedOver) => ClaimSound(st, worker, passedOver);
    case Finish(k, result) => FinishSound(st, k, result);
    case DeliverUnseen(k) => DeliverUnseenSound(st, k);
    case Recover(k) => RecoverSound(st, k);
    case Crash(worker) =>
      WithoutIsPart(st.held, worker);
      var held := Without(st.held, worker);
      forall k | 0 <= k < |held| ensures HoldSound(st.rows, held[k]) {
        assert held[k] in st.held;
      }
    case Enqueue(maxRetries) =>
      forall k | 0 <= k < |st.held| ensures HoldSound(st.rows + [Row(Pending, 0, maxRetries, 0)], st.held[k]) {
        assert HoldSound(st.rows, st.held[k]);
      }
  }

  lemma {:induction false} RunSound(st: State, events: seq<Event>)
    requires Sound(st)
    ensures Sound(HappenAll(st, events))
  {
    hide Happen;
    hide Sound;
    if events != [] {
      RunSound(st, events[..|events| - 1]);
      HappenSound(HappenAll(st, events[..|events| - 1]), events[|events| - 1]);
    }
  }

  /**
   * However many workers claim, deliver, lose results or crash, no row is in
   * two batches, and no row is delivered more often than its allowance.
   */
  lemma {:induction false} QueueSafe(events: seq<Event>)
    ensures var st := HappenAll(State([], []), events);
            && (forall j, k :: 0 <= j < k < |st.held| ==> st.held[j].row != st.held[k].row)
            && (forall i :: 0 <= i < |st.rows| ==> st.rows[i].tries <= Allowance(st.rows[i].maxRetries))
  {
    RunSound(State([], []), events);
    var st := HappenAll(State([], []), events);
    forall i | 0 <= i < |st.rows| ensures st.rows[i].tries <= Allowance(st.rows[i].maxRetries) {
      assert RowSound(st.rows[i]);
    }
  }

  predicate Terminal(r: Row) {
    r.status == Delivered || r.status == Failed
  }

  // ---- Which outcomes are final ----

  /** A worker has delivered row `i` without hearing so, and is about to write it off as a failure. */
  predicate Unseen(held: seq<Held>, i: nat) {
    exists k :: 0 <= k < |held| && held[k].row == i && held[k].unseen
  }

  lemma {:induction false} TerminalStep(st: State, e: Event, i: nat)
    requires Sound(st) && i < |st.rows| && Terminal(st.rows[i]) && !Unseen(st.held, i)
    ensures i < |Happen(st, e).rows| && Happen(st, e).rows[i] == st.rows[i] && !Unseen(Happen(st, e).held, i)
  {
    match e
    case Claim(worker, passedOver) => ClaimTerminal(st, worker, passedOver, i);
    case Finish(k, _) => LetGoTerminal(st, e, k, i);
    case DeliverUnseen(k) => LetGoTerminal(st, e, k, i);
    case Recover(k) => LetGoTerminal(st, e, k, i);
    case Crash(worker) =>
      WithoutIsPart(st.held, worker);
      var held := Without(st.held, worker);
      forall k | 0 <= k < |held| && held[k].row == i ensures !held[k].unseen {
        assert held[k] in st.held;
      }
    case Enqueue(_) =>
  }

  lemma {:induction false} ClaimTerminal(st: State, worker: nat, passedOver: set<nat>, i: nat)
    requires i < |st.rows| && Terminal(st.rows[i]) && !Unseen(st.held, i)
    ensures var after := Happen(st, Claim(worker, passedOver));
            && i < |after.rows| && after.rows[i] == st.rows[i] && !Unseen(after.held, i)
  {
    hide Claimable;
    var after := Happen(st, Claim(worker, passedOver));
    forall k | 0 <= k < |after.held| && after.held[k].row == i ensures !after.held[k].unseen {
      if k < |st.held| {
        assert after.held[k] == st.held[k];
      }
    }
  }

  lemma {:induction false} LetGoTerminal(st: State, e: Event, k: nat, i: nat)
    requires Sound(st) && i < |st.rows| && Terminal(st.rows[i]) && !Unseen(st.held, i)
    requires e == DeliverUnseen(k) || e == Recover(k) || (e.Finish? && e.k == k)
    ensures i < |Happen(st, e).rows| && Happen(st, e).rows[i] == st.rows[i] && !Unseen(Happen(st, e).held, i)
  {
    hide After;
    var after := Happen(st, e);
    forall j | 0 <= j < |st.held| ensures st.held[j].row != i {
      assert HoldSound(st.rows, st.held[j]);
    }
    forall j | 0 <= j < |after.held| ensures after.held[j].row != i {
      var was := if |after.held| == |st.held| || j < k then j else j + 1;
      assert after.held[j].row == st.held[was].row;
    }
  }

  /** A delivered row nobody is about to write off never changes again, and neither does a failed one. */
  lemma {:induction false} TerminalStays(st: State, events: seq<Event>, i: nat)
    requires Sound(st) && i < |st.rows| && Terminal(st.rows[i]) && !Unseen(st.held, i)
    ensures i < |HappenAll(st, events).rows| && HappenAll(st, events).rows[i] == st.rows[i]
    ensures !Unseen(HappenAll(st, events).held, i)
  {
    hide Happen;
    hide Sound;
    if events != [] {
      TerminalStays(st, events[..|events| - 1], i);
      RunSound(st, events[..|events| - 1]);
      TerminalStep(HappenAll(st, events[..|events| - 1]), events[|events| - 1], i);
    }
  }

  predicate Standing(st: State, i: nat, status: Status) {
    i < |st.rows| && st.rows[i].status == status
  }

  /** Failed is final. */
  lemma {:induction false} FailedStays(st: State, events: seq<Event>, i: nat)
    requires Sound(st) && Standing(st, i, Failed)
    ensures Standing(HappenAll(st, events), i, Failed)
  {
    forall k | 0 <= k < |st.held| && st.held[k].row == i ensures !st.held[k].unseen {
      assert HoldSound(st.rows, st.held[k]);
    }
    TerminalStays(st, events, i);
  }

  lemma {:induction false} OneEvent(st: State, e: Event)
    ensures HappenAll(st, [e]) == Happen(st, e)
  {
    hide Happen;
    assert [e][..0] == [];
  }

  /** Delivered is final in every continuation if and only if no worker has delivered the row without hearing so. */
  lemma {:induction false} DeliveredFinalExactly(st: State, i: nat)
    requires Sound(st) && Standing(st, i, Delivered)
    ensures !Unseen(st.held, i) <==> forall events :: Standing(HappenAll(st, events), i, Delivered)
  {
    if !Unseen(st.held, i) {
      forall events ensures Standing(HappenAll(st, events), i, Delivered) {
        TerminalStays(st, events, i);
      }
    } else {
      var k :| 0 <= k < |st.held| && st.held[k].row == i && st.held[k].unseen;
      OneEvent(st, Recover(k));
      assert !Standing(HappenAll(st, [Recover(k)]), i, Delivered);
    }
  }

  /** The webhook took the event, the row was marked delivered, and then it goes back to pending to be sent again. */
  lemma {:induction false} DeliveredGoesBack(maxRetries: int)
    requires 2 <= maxRetries
    ensures var sent := HappenAll(State([], []), [Enqueue(maxRetries), Claim(0, {}), DeliverUnseen(0)]);
            var after := HappenAll(sent, [Recover(0)]);
            && Standing(sent, 0, Delivered) && Standing(after, 0, Pending)
            && sent.rows[0].tries == 1 && after.rows[0].tries == 1 && after.rows[0].retries == 1
  {
    var events := [Enqueue(maxRetries), Claim(0, {}), DeliverUnseen(0)];
    assert events[..2] == [Enqueue(maxRetries), Claim(0, {})] && events[..2][..1] == [Enqueue(maxRetries)];
    assert events[..2][..1][..0] == [];
    var queued := State([Row(Pending, 0, maxRetries, 0)], []);
    OneEvent(State([], []), Enqueue(maxRetries));
    assert HappenAll(State([], []), [Enqueue(maxRetries)]) == queued;
    FirstClaim(maxRetries);
    var claimed := State([Row(Processing, 0, maxRetries, 0)], [Held(0, 0, 0, maxRetries, false)]);
    assert HappenAll(State([], []), events[..2]) == claimed;
    var sent := HappenAll(State([], []), events);
    assert sent == State([Row(Delivered, 0, maxRetries, 1)], [Held(0, 0, 0, maxRetries, true)]);
    OneEvent(sent, Recover(0));
  }

  lemma {:induction false} FirstClaim(maxRetries: int)
    ensures Happen(State([Row(Pending, 0, maxRetries, 0)], []), Claim(0, {}))
            == State([Row(Processing, 0, maxRetries, 0)], [Held(0, 0, 0, maxRetries, false)])
  {
    var rows := [Row(Pending, 0, maxRetries, 0)];
    assert Claimable(rows, {}, 0) == [];
    assert Claimable(rows, {}, 1) == [0];
  }

  /** Without a crash in between, a delivery not heard of leaves the row as a refusal would. */
  lemma {:induction false} UnseenEndsAsRefusal(st: State, k: nat)
    requires Sound(st) && k < |st.held| && !st.held[k].unseen
    ensures Happen(Happen(st, DeliverUnseen(k)), Recover(k)) == Happen(st, Finish(k, Refused))
  {
    assert HoldSound(st.rows, st.held[k]);
    var h := st.held[k];
    assert st.held[k := h.(unseen := true)][..k] == st.held[..k];
    assert st.held[k := h.(unseen := true)][k + 1..] == st.held[k + 1..];
  }

  // ---- Work runs out ----

  /** The deliveries a row still has coming to it. */
  function Remaining(r: Row): int {
    if Terminal(r) then 0 else Allowance(r.maxRetries) - r.retries
  }

  const REMAINING: Row -> int := (r: Row) => Remaining(r)

  /** Each remaining delivery is up to three steps: a claim, a delivery and a write. */
  function Steps(r: Row): int {
    3 * Remaining(r) - if r.status == Processing then 1 else 0
  }

  /** A row delivered unseen still has its write to come, and then its later deliveries. */
  function UnseenSteps(h: Held): int {
    if h.unseen then 3 * (Allowance(h.maxRetries) - h.retries) - 2 else 0
  }

  function Work(st: State): int {
    Sum(st.rows, Steps) + Sum(st.held, UnseenSteps)
  }

  /** What a step takes off the work at least. */
  function Effort(e: Event): int {
    if e.Finish? then 2 else 1
  }

  /** A claim that takes something, a delivery, or a result that is written down, heard of or not. */
  predicate Useful(st: State, e: Event) {
    match e
    case Claim(_, passedOver) => Claimable(st.rows, passedOver, |st.rows|) != []
    case Finish(k, result) => k < |st.held| && !st.held[k].unseen && result != Unmarked
    case DeliverUnseen(k) => k < |st.held| && !st.held[k].unseen
    case Recover(k) => k < |st.held| && st.held[k].unseen
    case Crash(_) => false
    case Enqueue(_) => false
  }

  predicate AllUseful(st: State, events: seq<Event>) {
    events == []
    || (AllUseful(st, events[..|events| - 1]) && Useful(HappenAll(st, events[..|events| - 1]), events[|events| - 1]))
  }

  lemma {:induction false} HeldWithout(held: seq<Held>, k: nat)
    requires k < |held|
    ensures Sum(held[..k] + held[k + 1..], UnseenSteps) == Sum(held, UnseenSteps) - UnseenSteps(held[k])
  {
    SumRemove(held, k, UnseenSteps);
  }

  lemma {:induction false} FinishWorks(st: State, k: nat, result: Result)
    requires Sound(st) && Useful(st, Finish(k, result))
    ensures Work(Happen(st, Finish(k, result))) + 2 <= Work(st)
  {
    var h := st.held[k];
    assert HoldSound(st.rows, h) && RowSound(st.rows[h.row]);
    SumUpdate(st.rows, h.row, After(st.rows[h.row], h, result), Steps);
    HeldWithout(st.held, k);
  }

  lemma {:induction false} DeliverUnseenWorks(st: State, k: nat)
    requires Sound(st) && Useful(st, DeliverUnseen(k))
    ensures Work(Happen(st, DeliverUnseen(k))) + 1 <= Work(st)
  {
    var h := st.held[k];
    assert HoldSound(st.rows, h) && RowSound(st.rows[h.row]);
    SumUpdate(st.rows, h.row, After(st.rows[h.row], h, Accepted), Steps);
    SumUpdate(st.held, k, h.(unseen := true), UnseenSteps);
  }

  lemma {:induction false} RecoverWorks(st: State, k: nat)
    requires Sound(st) && Useful(st, Recover(k))
    ensures Work(Happen(st, Recover(k))) + 1 <= Work(st)
  {
    var h := st.held[k];
    assert HoldSound(st.rows, h) && RowSound(st.rows[h.row]);
    SumUpdate(st.rows, h.row, Requeued(st.rows[h.row], h), Steps);
    HeldWithout(st.held, k);
  }

  lemma {:induction false} TakenWorks(rows: seq<Row>, ids: seq<nat>, n: nat)
    requires n <= |rows|
    requires forall i :: 0 <= i < |ids| ==> ids[i] < |rows| && rows[ids[i]].status == Pending
    ensures Sum(Taken(rows, ids)[..n], Steps) <= Sum(rows[..n], Steps)
    ensures (exists i :: 0 <= i < |ids| && ids[i] < n) ==> Sum(Taken(rows, ids)[..n], Steps) < Sum(rows[..n], Steps)
  {
    if n != 0 {
      TakenWorks(rows, ids, n - 1);
      assert rows[..n][..n - 1] == rows[..n - 1];
      assert Taken(rows, ids)[..n][..n - 1] == Taken(rows, ids)[..n - 1];
      if n - 1 in ids {
        var i :| 0 <= i < |ids| && ids[i] == n - 1;
      }
    }
  }

  lemma {:induction false} NewBatch(held: seq<Held>, batch: seq<Held>)
    requires forall h :: h in batch ==> !h.unseen
    ensures Sum(held + batch, UnseenSteps) == Sum(held, UnseenSteps)
  {
    if batch == [] {
      assert held + batch == held;
    } else {
      NewBatch(held, batch[..|batch| - 1]);
      assert (held + batch)[..|held + batch| - 1] == held + batch[..|batch| - 1];
    }
  }

  lemma {:induction false} ClaimWorks(st: State, worker: nat, passedOver: set<nat>)
    requires Useful(st, Claim(worker, passedOver))
    ensures Work(Happen(st, Claim(worker, passedOver))) + 1 <= Work(st)
  {
    hide Claimable;
    var ids := Claimable(st.rows, passedOver, |st.rows|);
    TakenWorks(st.rows, ids, |st.rows|);
    NewBatch(st.held, BatchOf(worker, st.rows, ids));
    assert ids[0] < |st.rows|;
    assert st.rows[..|st.rows|] == st.rows && Taken(st.rows, ids)[..|st.rows|] == Taken(st.rows, ids);
  }

  lemma {:induction false} UsefulWorks(st: State, e: Event)
    requires Sound(st) && Useful(st, e)
    ensures Work(Happen(st, e)) + Effort(e) <= Work(st)
  {
    hide Sound;
    hide Happen;
    hide Work;
    match e
    case Claim(worker, passedOver) => ClaimWorks(st, worker, passedOver);
    case Finish(k, result) => FinishWorks(st, k, result);
    case DeliverUnseen(k) => DeliverUnseenWorks(st, k);
    case Recover(k) => RecoverWorks(st, k);
  }

  lemma {:induction false} WorkNonNegative(st: State)
    requires Sound(st)
    ensures 0 <= Work(st)
  {
    forall r | r in st.rows ensures 0 <= Steps(r) {
      assert RowSound(r);
    }
    SumNonNegative(st.rows, Steps);
    forall h | h in st.held ensures 0 <= UnseenSteps(h) {
      assert HoldSound(st.rows, h) && RowSound(st.rows[h.row]);
    }
    SumNonNegative(st.held, UnseenSteps);
  }

  /** No run of useful steps, by any number of workers and with answers lost on the way, is longer than the work there was to do. */
  lemma {:induction false} WorkRunsOut(st: State, events: seq<Event>)
    requires Sound(st) && AllUseful(st, events)
    ensures Sum(events, Effort) + Work(HappenAll(st, events)) <= Work(st)
    ensures |events| <= Sum(events, Effort) <= Work(st)
  {
    hide Happen;
    hide Sound;
    hide Useful;
    hide Work;
    if events != [] {
      var init := events[..|events| - 1];
      WorkRunsOut(st, init);
      RunSound(st, init);
      UsefulWorks(HappenAll(st, init), events[|events| - 1]);
    }
    RunSound(st, events);
    WorkNonNegative(HappenAll(st, events));
  }

  /** Every processing row is in somebody's batch. */
  ghost predicate Attended(st: State) {
    forall i :: 0 <= i < |st.rows| && st.rows[i].status == Processing ==> IsHeld(st.held, i)
  }

  predicate IsHeld(held: seq<Held>, i: nat) {
    exists k :: 0 <= k < |held| && held[k].row == i
  }

  lemma {:induction false} ClaimAttended(st: State, worker: nat, passedOver: set<nat>)
    requires Sound(st) && Attended(st)
    ensures Attended(Happen(st, Claim(worker, passedOver)))
  {
    var after := Happen(st, Claim(worker, passedOver));
    var ids := Claimable(st.rows, passedOver, |st.rows|);
    forall i | 0 <= i < |after.rows| && after.rows[i].status == Processing ensures IsHeld(after.held, i) {
      if i in ids {
        var k :| 0 <= k < |ids| && ids[k] == i;
        assert after.held[|st.held| + k].row == i;
      } else {
        var k :| 0 <= k < |st.held| && st.held[k].row == i;
        assert after.held[k].row == i;
      }
    }
  }

  /** Letting go of a row that is no longer processing leaves no processing row unattended. */
  lemma {:induction false} LetGoAttended(st: State, k: nat, row: Row)
    requires Sound(st) && Attended(st) && k < |st.held| && row.status != Processing
    ensures st.held[k].row < |st.rows|
    ensures Attended(State(st.rows[st.held[k].row := row], st.held[..k] + st.held[k + 1..]))
  {
    assert HoldSound(st.rows, st.held[k]);
    var after := State(st.rows[st.held[k].row := row], st.held[..k] + st.held[k + 1..]);
    forall i | 0 <= i < |after.rows| && after.rows[i].status == Processing ensures IsHeld(after.held, i) {
      assert IsHeld(st.held, i);
      var was :| 0 <= was < |st.held| && st.held[was].row == i;
      assert after.held[if was < k then was else was - 1].row == i;
    }
  }

  lemma {:induction false} UsefulAttended(st: State, e: Event)
    requires Sound(st) && Attended(st) && Useful(st, e)
    ensures Attended(Happen(st, e))
  {
    if e.Claim? {
      ClaimAttended(st, e.worker, e.passedOver);
    } else {
      var h := st.held[e.k];
      assert HoldSound(st.rows, h);
      if e.Finish? {
        LetGoAttended(st, e.k, After(st.rows[h.row], h, e.result));
      } else if e.Recover? {
        LetGoAttended(st, e.k, Requeued(st.rows[h.row], h));
      } else {
        UnseenAttended(st, e.k);
      }
    }
  }

  lemma {:induction false} UnseenAttended(st: State, k: nat)
    requires Sound(st) && Attended(st) && Useful(st, DeliverUnseen(k))
    ensures Attended(Happen(st, DeliverUnseen(k)))
  {
    hide Sound;
    var after := Happen(st, DeliverUnseen(k));
    forall i | 0 <= i < |after.rows| && after.rows[i].status == Processing ensures IsHeld(after.held, i) {
      assert IsHeld(st.held, i);
      var was :| 0 <= was < |st.held| && st.held[was].row == i;
      assert after.held[was].row == i;
    }
  }

  lemma {:induction false} StaysAttended(st: State, events: seq<Event>)
    requires Sound(st) && Attended(st) && AllUseful(st, events)
    ensures Attended(HappenAll(st, events))
  {
    hide Happen;
    hide Sound;
    hide Useful;
    hide Attended;
    if events != [] {
      var init := events[..|events| - 1];
      StaysAttended(st, init);
      RunSound(st, init);
      UsefulAttended(HappenAll(st, init), events[|events| - 1]);
    }
  }

  /** Nothing is left to write for this queue: every row is delivered or failed, and nobody is about to write one off. */
  ghost predicate Done(st: State) {
    && (forall i :: 0 <= i < |st.rows| ==> Terminal(st.rows[i]))
    && (forall k :: 0 <= k < |st.held| ==> !st.held[k].unseen)
  }

  lemma {:induction false} UnfinishedIsWork(st: State)
    requires Sound(st) && Attended(st) && !Done(st)
    ensures exists e :: Useful(st, e)
  {
    if k :| 0 <= k < |st.held| && st.held[k].unseen {
      assert Useful(st, Recover(k));
    } else {
      var i :| 0 <= i < |st.rows| && !Terminal(st.rows[i]);
      if st.rows[i].status == Pending {
        assert Useful(st, Claim(0, {}));
      } else {
        assert IsHeld(st.held, i);
        var k :| 0 <= k < |st.held| && st.held[k].row == i;
        assert Useful(st, Finish(k, Accepted));
      }
    }
  }

  lemma {:induction false} WorkIsUnfinished(st: State, e: Event)
    requires Sound(st) && Useful(st, e)
    ensures !Done(st)
  {
    if e.Claim? {
      assert !Terminal(st.rows[Claimable(st.rows, e.passedOver, |st.rows|)[0]]);
    } else {
      assert HoldSound(st.rows, st.held[e.k]);
      assert st.held[e.k].unseen || !Terminal(st.rows[st.held[e.k].row]);
    }
  }

  /** With no crash or unwritten result behind it, a queue has something useful left to do exactly when it is not done. */
  lemma {:induction false} WorkExactlyWhenUnfinished(st: State)
    requires Sound(st) && Attended(st)
    ensures (exists e :: Useful(st, e)) <==> !Done(st)
  {
    if e :| Useful(st, e) {
      WorkIsUnfinished(st, e);
    }
    if !Done(st) {
      UnfinishedIsWork(st);
    }
  }
}
