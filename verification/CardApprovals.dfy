/**
 * When a card may settle: the exact condition for a charge, and what freezing,
 * unfreezing and closing do to it over every run.
 */
module CardApprovals {
  import opened Sums
  import opened Network
  import opened Cards
  import KR = CardRuns
  import L = Ledger
  import LO = LedgerOutcomes
  import W = Wallet

  // ---- The exact condition ----

  /** What a card's rows come to since the last midnight, UTC, added up row by row. */
  function SpentToday(rows: seq<Row>, card: nat, now: int): int {
    if rows == [] then 0
    else
      var last := rows[|rows| - 1];
      SpentToday(rows[..|rows| - 1], card, now)
      + if last.card == card && now / 86_400_000 <= last.at / 86_400_000 then last.amount else 0
  }

  lemma {:induction false} SumIsSpentToday(rows: seq<Row>, card: nat, now: int)
    ensures Sum(rows, SettledSince(card, StartOfDay(now))) == SpentToday(rows, card, now)
  {
    if rows != [] {
      SumIsSpentToday(rows[..|rows| - 1], card, now);
      SinceMidnight(now, rows[|rows| - 1].at);
    }
  }

  lemma {:induction false} SinceMidnight(now: int, at: int)
    ensures StartOfDay(now) <= at <==> now / 86_400_000 <= at / 86_400_000
  {
  }

  /** An active card, an amount within both limits, and a wallet that holds it. */
  predicate Spendable(st: State, card: nat, amount: int, now: int) {
    && card < |st.cards| && st.cards[card].status == Active
    && amount <= st.cards[card].singleLimit
    && SpentToday(st.rows, card, now) + amount <= st.cards[card].dailyLimit
    && var w := W.ByCustomer(st.books.accounts, st.cards[card].customer, "wallet");
       w.Some? && amount <= L.Balance(st.books, w.value)
  }

  /** Approved exactly when spendable; otherwise the first condition that fails is the reason. */
  lemma {:induction false} DecisionExactly(st: State, card: nat, amount: int, now: int)
    ensures Authorize(st, card, amount, now).Approved? <==> Spendable(st, card, amount, now)
    ensures card < |st.cards| ==>
              var c := st.cards[card];
              && (Authorize(st, card, amount, now).CardNotActive? <==> c.status == Frozen || c.status == Closed)
              && (Authorize(st, card, amount, now) == OverSingleLimit <==> c.status == Active && c.singleLimit < amount)
              && (Authorize(st, card, amount, now) == OverDailyLimit
                  <==> c.status == Active && amount <= c.singleLimit && c.dailyLimit < SpentToday(st.rows, card, now) + amount)
  {
    hide L.Balance;
    SumIsSpentToday(st.rows, card, now);
  }

  /** The books once the ledger has taken a card's settlement, if it does. */
  function Taken(st: State, s: Settlement): L.Books
    requires s.card < |st.cards|
  {
    var w := W.ByCustomer(st.books.accounts, st.cards[s.card].customer, "wallet");
    var float := W.ByNumber(st.books.accounts, "SYS-FLOAT");
    if w.Some? && float.Some? && LO.Accepted(st.books, w.value, float.value, s.amount, s.slip)
    then LO.Written(st.books, "card_settlement", w.value, float.value, s.amount, s.slip) else st.books
  }

  /** A settlement moves money exactly when it is sent, spendable and accepted by the ledger; a row needs an answer too. */
  lemma {:induction false} SettlementExactly(st: State, s: Settlement, transport: Transport)
    ensures var after := Happen(st, Settle(s, transport));
            && after.cards == st.cards
            && after.books == (if Spendable(st, s.card, s.amount, s.now) && transport != NotSent then Taken(st, s) else st.books)
            && (!Spendable(st, s.card, s.amount, s.now) || transport == NotSent ==> after == st)
            && (transport == AnswerLost ==> after.rows == st.rows)
            && (after.rows == st.rows
                || (&& after.rows == st.rows + [Row(s.card, s.amount, s.slip.key, s.createdAt)]
                    && transport == Answered
                    && forall i :: 0 <= i < |st.rows| ==> st.rows[i].key != s.slip.key))
            && (after.books != st.books && transport == Answered ==> exists i :: 0 <= i < |after.rows| && after.rows[i].key == s.slip.key)
  {
    hide L.Balance;
    hide W.Apply;
    hide Authorize;
    hide LO.Accepted;
    DecisionExactly(st, s.card, s.amount, s.now);
    if Spendable(st, s.card, s.amount, s.now) {
      LO.PayOutExactly(st.books, st.cards[s.card].customer, s.amount, s.slip);
      TakenIsDone(st, s);
      if transport == Answered && TakeMoney(st, s).1.Done? {
        UpsertHas(st.rows, s);
      }
    }
  }

  lemma {:induction false} TakenIsDone(st: State, s: Settlement)
    requires s.card < |st.cards|
    ensures TakeMoney(st, s).0 != st.books ==> TakeMoney(st, s).1.Done?
  {
    hide L.Balance;
    hide L.GuardError;
    hide L.LinesError;
  }

  lemma {:induction false} UpsertHas(rows: seq<Row>, s: Settlement)
    ensures exists i :: 0 <= i < |Upsert(rows, s)| && Upsert(rows, s)[i].key == s.slip.key
  {
    if HasRow(rows, s.slip.key) {
      var i :| 0 <= i < |rows| && rows[i].key == s.slip.key;
      assert Upsert(rows, s)[i].key == s.slip.key;
    } else {
      assert Upsert(rows, s)[|rows|].key == s.slip.key;
    }
  }

  // ---- Freezing and closing, over every run ----

  /** A card issued starts active, with the limits asked for. */
  lemma {:induction false} IssuedActive(st: State, customer: string, dailyLimit: int, singleLimit: int)
    ensures var after := Happen(st, Issue(customer, dailyLimit, singleLimit));
            && after.rows == st.rows && after.books == st.books
            && |after.cards| == |st.cards| + 1 && after.cards[..|st.cards|] == st.cards
            && var c := after.cards[|st.cards|];
               c.customer == customer && c.status == Active && c.dailyLimit == dailyLimit && c.singleLimit == singleLimit
  {
  }

  /** Some event of the run closes the card. */
  predicate EverClosed(events: seq<Event>, card: nat) {
    exists i :: 0 <= i < |events| && events[i] == Close(card)
  }

  /** The last word on the card was to freeze it. */
  predicate LeftFrozen(events: seq<Event>, card: nat) {
    events != []
    && var last := events[|events| - 1];
       last == Freeze(card) || (last != Unfreeze(card) && LeftFrozen(events[..|events| - 1], card))
  }

  lemma {:induction false} ClosedByLast(events: seq<Event>, card: nat)
    requires events != []
    ensures EverClosed(events, card) <==> EverClosed(events[..|events| - 1], card) || events[|events| - 1] == Close(card)
  {
    var init := events[..|events| - 1];
    if EverClosed(init, card) {
      var i :| 0 <= i < |init| && init[i] == Close(card);
      assert events[i] == Close(card);
    }
  }

  /** Over every run, a card that started active is closed if it ever was, frozen if that was the last word, and otherwise active; its limits never change. */
  lemma {:induction false} StatusExactly(st: State, events: seq<Event>, card: nat)
    requires card < |st.cards| && st.cards[card].status == Active
    ensures var after := HappenAll(st, events);
            && card < |after.cards|
            && after.cards[card] == st.cards[card].(status := if EverClosed(events, card) then Closed
                                                              else if LeftFrozen(events, card) then Frozen else Active)
  {
    hide Capture;
    hide Authorize;
    hide L.Step;
    if events != [] {
      var init := events[..|events| - 1];
      StatusExactly(st, init, card);
      ClosedByLast(events, card);
      hide EverClosed;
      OneCard(HappenAll(st, init), events[|events| - 1], card);
    }
  }

  /** What one event does to one card's row. */
  lemma {:induction false} OneCard(st: State, e: Event, card: nat)
    requires card < |st.cards|
    ensures var c, after := st.cards[card], Happen(st, e);
            && card < |after.cards|
            && after.cards[card] == c.(status := if c.status == Closed || e == Close(card) then Closed
                                                 else if e == Freeze(card) then Frozen
                                                 else if e == Unfreeze(card) then Active else c.status)
  {
    hide TakeMoney;
    hide Authorize;
    hide L.Step;
  }

  /**
   * After any run that leaves a card frozen or closed, no settlement of it
   * changes anything, be it run whole or begun by a caller among others; once
   * unfrozen it is exactly as spendable as if it had never been frozen.
   */
  lemma {:induction false} FrozenNeverCharged(st: State, events: seq<Event>, s: Settlement, transport: Transport, callers: seq<KR.Caller>)
    requires s.card < |st.cards| && st.cards[s.card].status == Active
    requires EverClosed(events, s.card) || LeftFrozen(events, s.card)
    ensures var after := HappenAll(st, events);
            && Happen(after, Settle(s, transport)) == after
            && KR.Step(KR.System(after, callers), KR.Begin(s)) == KR.System(after, callers)
  {
    hide Happen;
    hide Authorize;
    hide HappenAll;
    StatusExactly(st, events, s.card);
    var after := HappenAll(st, events);
    SettlementExactly(after, s, transport);
    DecisionExactly(after, s.card, s.amount, s.now);
  }

  lemma {:induction false} UnfreezeRestores(st: State, card: nat)
    requires card < |st.cards| && st.cards[card].status == Active
    ensures Happen(Happen(st, Freeze(card)), Unfreeze(card)) == st
  {
    var frozen := Happen(st, Freeze(card));
    assert frozen.cards == st.cards[card := st.cards[card].(status := Frozen)];
    assert frozen.cards[card := st.cards[card]] == st.cards;
  }
}
