/** The cards service over the ledger store, in place. */
module CardService {
  import opened Sums
  import opened Network
  import opened Cards
  import L = Ledger
  import W = Wallet
  import Service = WalletService

  class CardDesk {
    const ledger: L.LedgerStore
    var cards: seq<Card>
    var rows: seq<Row>
    ghost var charges: seq<Charge>

    constructor (ledger: L.LedgerStore)
      ensures this.ledger == ledger && cards == [] && rows == [] && charges == []
    {
      this.ledger, cards, rows, charges := ledger, [], [], [];
    }

    ghost function View(): State
      reads this, ledger
    {
      State(cards, rows, ledger.View(), charges)
    }

    method IssueCard(customer: string, dailyLimit: int, singleLimit: int) returns (card: nat)
      modifies this`cards
      ensures View() == Happen(old(View()), Issue(customer, dailyLimit, singleLimit))
      ensures card == |old(cards)|
    {
      card := |cards|;
      cards := cards + [Card(customer, Active, dailyLimit, singleLimit)];
    }

    method FreezeCard(card: nat) returns (ok: bool)
      modifies this`cards
      ensures View() == Happen(old(View()), Freeze(card))
      ensures ok <==> card < |old(cards)| && old(cards)[card].status != Closed
    {
      if |cards| <= card || cards[card].status == Closed {
        return false;
      }
      cards := cards[card := cards[card].(status := Frozen)];
      return true;
    }

    method UnfreezeCard(card: nat) returns (ok: bool)
      modifies this`cards
      ensures View() == Happen(old(View()), Unfreeze(card))
      ensures ok <==> card < |old(cards)| && old(cards)[card].status == Frozen
    {
      if |cards| <= card || cards[card].status != Frozen {
        return false;
      }
      cards := cards[card := cards[card].(status := Active)];
      return true;
    }

    method CloseCard(card: nat) returns (ok: bool)
      modifies this`cards
      ensures View() == Happen(old(View()), Close(card))
      ensures ok <==> card < |old(cards)| && old(cards)[card].status != Closed
    {
      if |cards| <= card || cards[card].status == Closed {
        return false;
      }
      cards := cards[card := cards[card].(status := Closed)];
      return true;
    }

    /** The card's settlements stamped since midnight, added up row by row. */
    method SumToday(card: nat, now: int) returns (sum: int)
      ensures sum == SumSettledToday(View(), card, now)
    {
      var start := StartOfDay(now);
      sum := 0;
      for i := 0 to |rows|
        invariant sum == Sum(rows[..i], SettledSince(card, start))
      {
        assert rows[..i + 1][..i] == rows[..i];
        if rows[i].card == card && start <= rows[i].at {
          sum := sum + rows[i].amount;
        }
      }
      assert rows[..|rows|] == rows;
    }

    method Authorize(card: nat, amount: int, now: int) returns (decision: Decision)
      ensures decision == Cards.Authorize(View(), card, amount, now)
    {
      if |cards| <= card {
        return CardNotFound;
      }
      if cards[card].status != Active {
        return CardNotActive(cards[card].status);
      }
      if amount > cards[card].singleLimit {
        return OverSingleLimit;
      }
      var spentToday := SumToday(card, now);
      if spentToday + amount > cards[card].dailyLimit {
        return OverDailyLimit;
      }
      var wallet := W.ByCustomer(ledger.accounts, cards[card].customer, W.WALLET);
      if wallet.None? {
        return AccountNotFound;
      }
      if L.Balance(ledger.View(), wallet.value) < amount {
        return InsufficientWallet;
      }
      return Approved;
    }

    method RecordCardSettlement(s: Settlement) returns (outcome: W.Outcome)
      requires s.card < |cards|
      modifies ledger
      ensures (ledger.View(), outcome) == TakeMoney(old(View()), s)
    {
      outcome := Service.PayOut(ledger, SETTLEMENT, cards[s.card].customer, s.amount, s.slip);
    }

    /** Checks the limits again, charges the wallet, then writes the row once. */
    method Settle(s: Settlement, transport: Transport) returns (decision: Decision, settled: bool)
      modifies this`rows, this`charges, ledger
      ensures View() == Happen(old(View()), Cards.Settle(s, transport))
      ensures decision == Cards.Authorize(old(View()), s.card, s.amount, s.now)
      ensures settled <==> decision.Approved? && transport == Answered && s.card < |cards| && TakeMoney(old(View()), s).1.Done?
      ensures settled ==> HasRow(rows, s.slip.key)
    {
      decision := Authorize(s.card, s.amount, s.now);
      if decision != Approved {
        return decision, false;
      }
      settled := Capture(s, transport);
    }

    method Capture(s: Settlement, transport: Transport) returns (settled: bool)
      requires s.card < |cards|
      modifies this`rows, this`charges, ledger
      ensures View() == Cards.Capture(old(View()), s, transport)
      ensures settled <==> transport == Answered && TakeMoney(old(View()), s).1.Done?
      ensures settled ==> HasRow(rows, s.slip.key)
    {
      hide W.Apply;
      if transport == NotSent {
        return false;
      }
      ghost var before := ledger.journal;
      var outcome := RecordCardSettlement(s);
      charges := if ledger.journal == before then charges
                 else charges + [Charge(s.card, s.amount, s.slip.key, s.createdAt, transport == Answered)];
      if !outcome.Done? || transport == AnswerLost {
        return false;
      }
      if !HasRow(rows, s.slip.key) {
        rows := rows + [Row(s.card, s.amount, s.slip.key, s.createdAt)];
        assert rows[|rows| - 1].key == s.slip.key;
      }
      return true;
    }
  }
}
