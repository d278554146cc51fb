/**
 * Card settlement (services/cards/src/services/cardService.js) composed with
 * the ledger: the limits are checked against the service's own rows, the money
 * moves in the ledger, and the two are kept apart by a call that can fail.
 * Times are in milliseconds; a day is a UTC day.
 */
module Cards {
  import opened Sums
  import opened Network
  import L = Ledger
  import W = Wallet

  const DAY := 86_400_000
  const SETTLEMENT := "card_settlement"

  datatype CardStatus = Active | Frozen | Closed

  datatype Card = Card(customer: string, status: CardStatus, dailyLimit: int, singleLimit: int)

  /** A row of card_settlements; a card is its position in the cards table. */
  datatype Row = Row(card: nat, amount: int, key: string, at: int)

  /** Money the ledger really took for a card, and whether the service heard about it. No table records it. */
  datatype Charge = Charge(card: nat, amount: int, key: string, at: int, answered: bool)

  /** The service's two tables, the ledger, and the history of what the ledger took. */
  datatype State = State(cards: seq<Card>, rows: seq<Row>, books: L.Books, charges: seq<Charge>)

  datatype Decision =
    | Approved
    | CardNotActive(status: CardStatus)
    | OverSingleLimit
    | OverDailyLimit
    | InsufficientWallet
    | CardNotFound
    | AccountNotFound

  /** What a settlement asks for; `createdAt` is when its row is stamped. */
  datatype Settlement = Settlement(card: nat, amount: int, slip: W.Slip, now: int, createdAt: int)

  datatype Event =
    | Issue(customer: string, dailyLimit: int, singleLimit: int)
    | Freeze(card: nat)
    | Unfreeze(card: nat)
    | Close(card: nat)
    | Settle(settlement: Settlement, transport: Transport)
    | Elsewhere(request: L.Request)

  function DayOf(at: int): int {
    at / DAY
  }

  function StartOfDay(at: int): int {
    DayOf(at) * DAY
  }

  // ---- Authorising ----

  function SettledSince(card: nat, start: int): Row -> int {
    (r: Row) => if r.card == card && start <= r.at then r.amount else 0
  }

  function SumSettledToday(st: State, card: nat, now: int): int {
    Sum(st.rows, SettledSince(card, StartOfDay(now)))
  }

  function Authorize(st: State, card: nat, amount: int, now: int): Decision {
    if |st.cards| <= card then CardNotFound
    else
      var c := st.cards[card];
      if c.status != Active then CardNotActive(c.status)
      else if c.singleLimit < amount then OverSingleLimit
      else if c.dailyLimit < SumSettledToday(st, card, now) + amount then OverDailyLimit
      else
        var wallet := W.ByCustomer(st.books.accounts, c.customer, W.WALLET);
        if wallet.None? then AccountNotFound
        else if L.Balance(st.books, wallet.value) < amount then InsufficientWallet
        else Approved
  }

  // ---- Settling ----

  /** The ledger's side of a settlement. */
  function TakeMoney(st: State, s: Settlement): (L.Books, W.Outcome)
    requires s.card < |st.cards|
  {
    W.Apply(st.books, W.RecordCardSettlement(st.cards[s.card].customer, s.amount, s.slip))
  }

  predicate HasRow(rows: seq<Row>, key: string) {
    exists i :: 0 <= i < |rows| && rows[i].key == key
  }

  /** Writes the row unless one already has its key. */
  function Upsert(rows: seq<Row>, s: Settlement): seq<Row> {
    if HasRow(rows, s.slip.key) then rows else rows + [Row(s.card, s.amount, s.slip.key, s.createdAt)]
  }

  /** The ledger call and the row, for a settlement already approved. */
  function Capture(st: State, s: Settlement, transport: Transport): State
    requires s.card < |st.cards|
  {
    if transport == NotSent then st
    else
      var (after, outcome) := TakeMoney(st, s);
      var charge := Charge(s.card, s.amount, s.slip.key, s.createdAt, transport == Answered);
      State(st.cards,
            if outcome.Done? && transport == Answered then Upsert(st.rows, s) else st.rows,
            after,
            if after.journal == st.books.journal then st.charges else st.charges + [charge])
  }

  function WithStatus(st: State, card: nat, status: CardStatus): State
    requires card < |st.cards|
  {
    st.(cards := st.cards[card := st.cards[card].(status := status)])
  }

  function Happen(st: State, e: Event): State {
    match e
    case Issue(customer, dailyLimit, singleLimit) =>
      st.(cards := st.cards + [Card(customer, Active, dailyLimit, singleLimit)])
    case Freeze(card) =>
      if |st.cards| <= card || st.cards[card].status == Closed then st else WithStatus(st, card, Frozen)
    case Unfreeze(card) =>
      if |st.cards| <= card || st.cards[card].status != Frozen then st else WithStatus(st, card, Active)
    case Close(card) =>
      if |st.cards| <= card || st.cards[card].status == Closed then st else WithStatus(st, card, Closed)
    case Settle(s, transport) =>
      if Authorize(st, s.card, s.amount, s.now).Approved? then Capture(st, s, transport) else st
    case Elsewhere(request) =>
      st.(books := L.Step(st.books, request).0)
  }

  function HappenAll(st: State, events: seq<Event>): State {
    if events == [] then st else Happen(HappenAll(st, events[..|events| - 1]), events[|events| - 1])
  }

  // ---- Limits ----

  function SettledOn(card: nat, day: int): Row -> int {
    (r: Row) => if r.card == card && DayOf(r.at) == day then r.amount else 0
  }

  /** What a card has settled, by the service's own rows, on one UTC day. */
  function SpentOn(rows: seq<Row>, card: nat, day: int): int {
    Sum(rows, SettledOn(card, day))
  }

  ghost predicate RowsWithin(st: State) {
    forall i :: 0 <= i < |st.rows| ==>
      st.rows[i].card < |st.cards| && 0 < st.rows[i].amount <= st.cards[st.rows[i].card].singleLimit
  }

  ghost predicate DaysWithin(st: State) {
    forall card: nat, day :: card < |st.cards| && SpentOn(st.rows, card, day) != 0 ==>
      SpentOn(st.rows, card, day) <= st.cards[card].dailyLimit
  }

  ghost predicate WithinLimits(st: State) {
    RowsWithin(st) && DaysWithin(st)
  }

  /** A row is stamped no earlier than its limits were checked. */
  predicate Stamped(e: Event) {
    e.Settle? ==> e.settlement.now <= e.settlement.createdAt
  }

  lemma {:induction false} TakenIsPositive(st: State, s: Settlement)
    requires s.card < |st.cards| && TakeMoney(st, s).1.Done?
    ensures 0 < s.amount
  {
    var accounts, customer := st.books.accounts, st.cards[s.card].customer;
    var id, float := W.ByCustomer(accounts, customer, W.WALLET), W.ByNumber(accounts, W.FLOAT);
    W.MoveWellFormed(SETTLEMENT, id.value, float.value, s.amount, s.slip);
  }

  lemma {:induction false} DayBelowSince(st: State, card: nat, now: int, day: int)
    requires RowsWithin(st) && DayOf(now) <= day
    ensures SpentOn(st.rows, card, day) <= SumSettledToday(st, card, now)
  {
    forall r | r in st.rows ensures SettledOn(card, day)(r) <= SettledSince(card, StartOfDay(now))(r) {
      var i :| 0 <= i < |st.rows| && st.rows[i] == r;
      if DayOf(r.at) == day {
        LaterDay(now, r.at);
      }
    }
    SumMonotone(st.rows, SettledOn(card, day), SettledSince(card, StartOfDay(now)));
  }

  lemma {:induction false} LaterDay(now: int, at: int)
    requires DayOf(now) <= DayOf(at)
    ensures StartOfDay(now) <= at
  {
  }

  /** The rows a capture leaves: as they were, or one more, for a positive amount. */
  lemma {:induction false} CaptureRows(st: State, s: Settlement, transport: Transport)
    requires s.card < |st.cards|
    ensures var after := Capture(st, s, transport);
            && after.cards == st.cards
            && (after.rows == st.rows
                || (0 < s.amount && after.rows == st.rows + [Row(s.card, s.amount, s.slip.key, s.createdAt)]))
  {
    hide W.Apply;
    if transport != NotSent && TakeMoney(st, s).1.Done? {
      TakenIsPositive(st, s);
    }
  }

  lemma {:induction false} SettleWithin(st: State, s: Settlement, transport: Transport)
    requires WithinLimits(st) && s.now <= s.createdAt
    ensures WithinLimits(Happen(st, Settle(s, transport)))
  {
    hide Capture;
    if Authorize(st, s.card, s.amount, s.now).Approved? {
      CaptureRows(st, s, transport);
      var after := Capture(st, s, transport);
      if after.rows != st.rows {
        var row := Row(s.card, s.amount, s.slip.key, s.createdAt);
        assert DayOf(s.now) <= DayOf(s.createdAt);
        forall card: nat, day | card < |st.cards| && SpentOn(after.rows, card, day) != 0
          ensures SpentOn(after.rows, card, day) <= st.cards[card].dailyLimit
        {
          SumAppend(st.rows, row, SettledOn(card, day));
          assert SpentOn(after.rows, card, day) == SpentOn(st.rows, card, day) + SettledOn(card, day)(row);
          if card == s.card && day == DayOf(s.createdAt) {
            DayBelowSince(st, card, s.now, day);
          }
        }
      }
    }
  }

  lemma {:induction false} HappenWithin(st: State, e: Event)
    requires WithinLimits(st) && Stamped(e)
    ensures WithinLimits(Happen(st, e))
  {
    hide SpentOn;
    match e
    case Issue(_, _, _) => IssueWithin(st, e);
    case Settle(s, transport) => SettleWithin(st, s, transport);
    case Freeze(_) =>
    case Unfreeze(_) =>
    case Close(_) =>
    case Elsewhere(_) =>
  }

  lemma {:induction false} IssueWithin(st: State, e: Event)
    requires WithinLimits(st) && e.Issue?
    ensures WithinLimits(Happen(st, e))
  {
    forall day ensures SpentOn(st.rows, |st.cards|, day) == 0 {
      SpentByNobody(st, |st.cards|, day, |st.rows|);
    }
  }

  lemma {:induction false} SpentByNobody(st: State, card: nat, day: int, n: nat)
    requires RowsWithin(st) && |st.cards| <= card && n <= |st.rows|
    ensures SpentOn(st.rows[..n], card, day) == 0
    ensures n == |st.rows| ==> SpentOn(st.rows, card, day) == 0
  {
    assert st.rows[..|st.rows|] == st.rows;
    if n != 0 {
      SpentByNobody(st, card, day, n - 1);
      assert st.rows[..n][..n - 1] == st.rows[..n - 1];
    }
  }

  lemma {:induction false} NothingSettled(books: L.Books)
    ensures WithinLimits(State([], [], books, []))
  {
  }

  /**
   * Over every run of settlements, each run whole, with replays, lost answers,
   * freezes and other ledger traffic, the rows of a card on a UTC day add up to no more than its
   * daily limit, and each is positive and within its single limit.
   */
  lemma {:induction false} LimitsHold(books: L.Books, events: seq<Event>)
    requires forall i :: 0 <= i < |events| ==> Stamped(events[i])
    ensures WithinLimits(HappenAll(State([], [], books, []), events))
  {
    hide Happen;
    hide WithinLimits;
    if events == [] {
      NothingSettled(books);
    } else {
      LimitsHold(books, events[..|events| - 1]);
      HappenWithin(HappenAll(State([], [], books, []), events[..|events| - 1]), events[|events| - 1]);
    }
  }
}
