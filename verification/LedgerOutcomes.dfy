/**
 * What each money operation writes, column by column, and exactly when: the
 * entries of the ledger as a reader of its tables would find them.
 */
module LedgerOutcomes {
  import opened Sums
  import opened Domain
  import opened Ledger
  import opened LedgerRuns
  import opened Overdraft
  import W = Wallet
  import A = Accrual
  import Loan
  import P = Provision

  // ---- Two-line movements ----

  /** A line of `amount` on this side may be put on the account. */
  predicate May(b: Books, account: nat, side: Side, amount: int) {
    && account < |b.accounts| && b.accounts[account].status == Active
    && (side == b.accounts[account].normal || b.accounts[account].allowNegative || amount <= Balance(b, account))
  }

  /** The movement is new, of a positive amount, and both accounts may take their line. */
  predicate Accepted(b: Books, debit: nat, credit: nat, amount: int, slip: W.Slip) {
    && 0 < amount
    && (forall i :: 0 <= i < |b.journal| ==> b.journal[i].key != slip.key && b.journal[i].reference != slip.reference)
    && May(b, debit, Debit, amount) && May(b, credit, Credit, amount)
  }

  /** The books with the movement's entry and its event. */
  function Written(b: Books, entryType: string, debit: nat, credit: nat, amount: int, slip: W.Slip): Books {
    Books(b.accounts,
          b.journal + [Entry(slip.reference, slip.key, entryType, "NGN", slip.description, None,
                             [Line(debit, Debit, amount, "NGN"), Line(credit, Credit, amount, "NGN")])],
          b.outbox + [Event(|b.journal|, entryType, slip.reference, "NGN", 2)])
  }

  /** A movement writes exactly that, if and only if it is accepted; otherwise nothing changes. */
  lemma {:induction false} MoveExactly(b: Books, entryType: string, debit: nat, credit: nat, amount: int, slip: W.Slip)
    ensures var (after, reply) := Post(b, W.Move(entryType, debit, credit, amount, slip));
            && after == (if Accepted(b, debit, credit, amount, slip) then Written(b, entryType, debit, credit, amount, slip) else b)
            && (Accepted(b, debit, credit, amount, slip) ==> reply == Posted(|b.journal|))
            && (reply.Posted? <==> Accepted(b, debit, credit, amount, slip)
                                   || (0 < amount && exists i :: 0 <= i < |b.journal| && b.journal[i].key == slip.key))
  {
    hide Balance;
    var input := W.Move(entryType, debit, credit, amount, slip);
    W.MoveWellFormed(entryType, debit, credit, amount, slip);
    if 0 < amount {
      assert LineGuard(b, input.lines[0]).None? <==> May(b, debit, Debit, amount);
      assert LineGuard(b, input.lines[1]).None? <==> May(b, credit, Credit, amount);
      assert NewEntry(input, None).lines == [Line(debit, Debit, amount, "NGN"), Line(credit, Credit, amount, "NGN")];
    }
  }

  /** Why a line may not be put on an account. */
  function Refusal(b: Books, account: nat, side: Side, amount: int): Option<Error> {
    if |b.accounts| <= account then Some(AccountNotFound(account))
    else if b.accounts[account].status != Active then Some(AccountNotActive(account, b.accounts[account].status))
    else if !May(b, account, side, amount) then Some(InsufficientBalance(account, Balance(b, account), amount))
    else None
  }

  /** The error of a movement that does not succeed: its amount, then the debited account, then the credited one, then its reference. */
  lemma {:induction false} MoveRefusals(b: Books, entryType: string, debit: nat, credit: nat, amount: int, slip: W.Slip)
    requires !Post(b, W.Move(entryType, debit, credit, amount, slip)).1.Posted?
    ensures Post(b, W.Move(entryType, debit, credit, amount, slip)).1
            == Rejected(if amount <= 0 then NonPositiveAmount
                        else if Refusal(b, debit, Debit, amount).Some? then Refusal(b, debit, Debit, amount).value
                        else if Refusal(b, credit, Credit, amount).Some? then Refusal(b, credit, Credit, amount).value
                        else ReferenceTaken)
  {
    hide Balance;
    var lines := W.Move(entryType, debit, credit, amount, slip).lines;
    W.MoveWellFormed(entryType, debit, credit, amount, slip);
    assert lines[..1] == [lines[0]] && lines[..0] == [];
    if 0 < amount {
      assert LineGuard(b, lines[0]) == Refusal(b, debit, Debit, amount);
      assert LineGuard(b, lines[1]) == Refusal(b, credit, Credit, amount);
      assert GuardError(b, [lines[0]]) == LineGuard(b, lines[0]);
    }
  }

  // ---- Any entry ----

  /** Every line is of a known side and may be put on its account. */
  predicate AllMay(b: Books, lines: seq<LineInput>) {
    forall i :: 0 <= i < |lines| ==>
      !lines[i].direction.Unrecognised? && May(b, lines[i].account, lines[i].direction, lines[i].amount)
  }

  predicate New(b: Books, key: string, reference: string) {
    forall i :: 0 <= i < |b.journal| ==> b.journal[i].key != key && b.journal[i].reference != reference
  }

  /** A post writes if and only if its lines balance, it is new and every line may be put on its account; then it writes this entry and its event. */
  lemma {:induction false} PostExactly(b: Books, input: PostInput)
    ensures var after := Post(b, input).0;
            && (after != b <==>
                  && 2 <= |input.lines| && (forall i :: 0 <= i < |input.lines| ==> 0 < input.lines[i].amount)
                  && Sum(input.lines, InputOn(Debit)) == Sum(input.lines, InputOn(Credit))
                  && New(b, input.key, input.reference) && AllMay(b, input.lines))
            && (after != b ==>
                  && |after.journal| == |b.journal| + 1 && after.journal[..|b.journal|] == b.journal && after.accounts == b.accounts
                  && var e := after.journal[|b.journal|];
                     && e.reference == input.reference && e.key == input.key && e.entryType == input.entryType
                     && e.currency == (if input.currency == "" then "NGN" else input.currency)
                     && e.description == input.description && e.reversalOf == None && |e.lines| == |input.lines|
                     && (forall i :: 0 <= i < |e.lines| ==>
                           && e.lines[i].account == input.lines[i].account && e.lines[i].direction == input.lines[i].direction
                           && e.lines[i].amount == input.lines[i].amount && e.lines[i].currency == e.currency)
                     && after.outbox == b.outbox + [Event(|b.journal|, input.entryType, input.reference, e.currency, |input.lines|)])
  {
    hide Balance;
    hide Sum;
    var after := Post(b, input).0;
    if LinesError(input.lines).None? {
      GuardsAreMay(b, input.lines);
    }
    if after != b {
      assert after == Append(b, NewEntry(input, None));
    }
  }

  lemma {:induction false} GuardsAreMay(b: Books, lines: seq<LineInput>)
    requires forall i :: 0 <= i < |lines| ==> !lines[i].direction.Unrecognised?
    ensures GuardError(b, lines).None? <==> AllMay(b, lines)
  {
    hide Balance;
    forall i | 0 <= i < |lines|
      ensures LineGuard(b, lines[i]).None? <==> May(b, lines[i].account, lines[i].direction, lines[i].amount)
    {
    }
  }

  /** Nobody has reversed entry `id` yet. */
  predicate Standing(b: Books, id: nat) {
    forall i :: 0 <= i < |b.journal| ==> b.journal[i].reversalOf != Some(id)
  }

  /** In a sound ledger a reversal writes if and only if it is new, the entry exists and stands, and every flipped line may be put on its account. */
  lemma {:induction false} ReversalWritesExactly(b: Books, input: ReverseInput, loaded: seq<Line>)
    requires Sound(b)
    ensures Reverse(b, input, loaded).0 != b
            <==> && (forall i :: 0 <= i < |b.journal| ==> b.journal[i].key != input.key)
                 && input.entryId < |b.journal| && Standing(b, input.entryId)
                 && (forall i :: 0 <= i < |b.journal| ==> b.journal[i].reference != b.journal[input.entryId].reference + "-REV")
                 && (forall l :: l in b.journal[input.entryId].lines ==> May(b, l.account, l.direction.Opposite(), l.amount))
  {
    hide Balance;
    hide Sum;
    if input.entryId < |b.journal| {
      var original := b.journal[input.entryId];
      var lines := LoadLines(original, loaded);
      FlippedBalances(original, lines, |b.accounts|);
      GuardsAreMay(b, Flipped(lines));
      forall l ensures l in lines <==> l in original.lines {
        assert l in multiset(lines) <==> l in multiset(original.lines);
      }
      assert AllMay(b, Flipped(lines)) <==> forall l :: l in lines ==> May(b, l.account, l.direction.Opposite(), l.amount) by {
        FlippedMay(b, lines);
      }
    }
  }

  lemma {:induction false} FlippedMay(b: Books, lines: seq<Line>)
    ensures AllMay(b, Flipped(lines)) <==> forall l :: l in lines ==> May(b, l.account, l.direction.Opposite(), l.amount)
  {
    hide May;
    var flipped := Flipped(lines);
    if AllMay(b, flipped) {
      forall l | l in lines ensures May(b, l.account, l.direction.Opposite(), l.amount) {
        var i :| 0 <= i < |lines| && lines[i] == l;
        assert May(b, flipped[i].account, flipped[i].direction, flipped[i].amount);
      }
    }
  }

  lemma {:induction false} FlippedBalances(e: Entry, lines: seq<Line>, accounts: nat)
    requires EntrySound(accounts, e) && multiset(lines) == multiset(e.lines)
    ensures LinesError(Flipped(lines)).None?
  {
    hide Sum;
    var flipped := Flipped(lines);
    assert |lines| == |multiset(lines)| == |multiset(e.lines)| == |e.lines|;
    forall i | 0 <= i < |lines| ensures 0 < lines[i].amount {
      assert lines[i] in multiset(lines);
      assert lines[i] in e.lines;
    }
    SumPointwise(flipped, InputOn(Debit), lines, BySide(Credit));
    SumPointwise(flipped, InputOn(Credit), lines, BySide(Debit));
    SumPermutation(lines, e.lines, BySide(Debit));
    SumPermutation(lines, e.lines, BySide(Credit));
  }

  /** A reversal writes the original's lines flipped, under its reference with a suffix, in its currency. */
  lemma {:induction false} ReversalExactly(b: Books, input: ReverseInput, loaded: seq<Line>)
    requires Reverse(b, input, loaded).0 != b
    ensures input.entryId < |b.journal|
    ensures var original := b.journal[input.entryId];
            var after := Reverse(b, input, loaded).0;
            && |after.journal| == |b.journal| + 1 && after.journal[..|b.journal|] == b.journal && after.accounts == b.accounts
            && var e := after.journal[|b.journal|];
               && e.reference == original.reference + "-REV" && e.key == input.key && e.entryType == "reversal"
               && (original.currency != "" ==> e.currency == original.currency)
               && e.description == "Reversal: " + input.reason && e.reversalOf == Some(input.entryId)
               && after.outbox == b.outbox + [Event(|b.journal|, "reversal", e.reference, e.currency, |original.lines|)]
  {
    hide Balance;
    hide GuardError;
    var original := b.journal[input.entryId];
    SameLength(original, loaded);
  }

  lemma {:induction false} SameLength(e: Entry, loaded: seq<Line>)
    ensures |LoadLines(e, loaded)| == |e.lines|
  {
    assert |multiset(LoadLines(e, loaded))| == |multiset(e.lines)|;
  }

  // ---- Wallets ----

  /** A transfer: between two different wallets, and nothing else. */
  lemma {:induction false} TransferExactly(b: Books, from: string, to: string, amount: int, slip: W.Slip)
    ensures var f, t := W.ByCustomer(b.accounts, from, "wallet"), W.ByCustomer(b.accounts, to, "wallet");
            W.Apply(b, W.TransferP2P(from, to, amount, slip)).0
            == if f.Some? && t.Some? && f != t && Accepted(b, f.value, t.value, amount, slip)
               then Written(b, "p2p_transfer", f.value, t.value, amount, slip) else b
  {
    hide Post;
    hide Accepted;
    var f, t := W.ByCustomer(b.accounts, from, "wallet"), W.ByCustomer(b.accounts, to, "wallet");
    if f.Some? && t.Some? {
      MoveExactly(b, "p2p_transfer", f.value, t.value, amount, slip);
    }
  }

  /** A deposit: from the float account to the customer's wallet. */
  lemma {:induction false} DepositExactly(b: Books, customer: string, amount: int, slip: W.Slip)
    ensures var w, float := W.ByCustomer(b.accounts, customer, "wallet"), W.ByNumber(b.accounts, "SYS-FLOAT");
            W.Apply(b, W.ConfirmDeposit(customer, amount, slip)).0
            == if w.Some? && float.Some? && Accepted(b, float.value, w.value, amount, slip)
               then Written(b, "deposit", float.value, w.value, amount, slip) else b
  {
    hide Post;
    hide Accepted;
    var w, float := W.ByCustomer(b.accounts, customer, "wallet"), W.ByNumber(b.accounts, "SYS-FLOAT");
    if w.Some? && float.Some? {
      MoveExactly(b, "deposit", float.value, w.value, amount, slip);
    }
  }

  /** Withdrawals and card settlements: from the customer's wallet to the float account, told apart by their type. */
  lemma {:induction false} PayOutExactly(b: Books, customer: string, amount: int, slip: W.Slip)
    ensures var w, float := W.ByCustomer(b.accounts, customer, "wallet"), W.ByNumber(b.accounts, "SYS-FLOAT");
            var accepted := w.Some? && float.Some? && Accepted(b, w.value, float.value, amount, slip);
            && W.Apply(b, W.RecordWithdrawal(customer, amount, slip)).0
               == (if accepted then Written(b, "withdrawal", w.value, float.value, amount, slip) else b)
            && W.Apply(b, W.RecordCardSettlement(customer, amount, slip)).0
               == (if accepted then Written(b, "card_settlement", w.value, float.value, amount, slip) else b)
  {
    hide Post;
    hide Accepted;
    var w, float := W.ByCustomer(b.accounts, customer, "wallet"), W.ByNumber(b.accounts, "SYS-FLOAT");
    if w.Some? && float.Some? {
      MoveExactly(b, "withdrawal", w.value, float.value, amount, slip);
      MoveExactly(b, "card_settlement", w.value, float.value, amount, slip);
    }
  }

  /** What the wallet operations are refused for before the ledger is asked. */
  lemma {:induction false} WalletRefusals(b: Books, customer: string, to: string, amount: int, slip: W.Slip)
    ensures var w, t, float := W.ByCustomer(b.accounts, customer, "wallet"), W.ByCustomer(b.accounts, to, "wallet"), W.ByNumber(b.accounts, "SYS-FLOAT");
            var transfer := W.Apply(b, W.TransferP2P(customer, to, amount, slip)).1;
            var deposit := W.Apply(b, W.ConfirmDeposit(customer, amount, slip)).1;
            var withdrawal := W.Apply(b, W.RecordWithdrawal(customer, amount, slip)).1;
            && (transfer == W.Failed(W.CustomerAccountNotFound) <==> w.None? || t.None?)
            && (transfer == W.Failed(W.SameAccount) <==> w.Some? && w == t)
            && (deposit == W.Failed(W.CustomerAccountNotFound) <==> w.None?)
            && (deposit == W.Failed(W.SystemAccountMissing) <==> w.Some? && float.None?)
            && (withdrawal == W.Failed(W.CustomerAccountNotFound) <==> w.None?)
            && (withdrawal == W.Failed(W.SystemAccountMissing) <==> w.Some? && float.None?)
            && W.Apply(b, W.RecordCardSettlement(customer, amount, slip)).1.Failed? == withdrawal.Failed?
  {
    hide Balance;
    hide GuardError;
    hide LinesError;
    hide W.ByCustomer;
    hide W.ByNumber;
    var w, float := W.ByCustomer(b.accounts, customer, "wallet"), W.ByNumber(b.accounts, "SYS-FLOAT");
    if w.Some? && float.Some? {
      SameFate(b, "withdrawal", "card_settlement", w.value, float.value, amount, slip);
    }
  }

  lemma {:induction false} SameFate(b: Books, one: string, other: string, debit: nat, credit: nat, amount: int, slip: W.Slip)
    ensures Post(b, W.Move(one, debit, credit, amount, slip)).1 == Post(b, W.Move(other, debit, credit, amount, slip)).1
  {
    hide Balance;
    hide GuardError;
    hide LinesError;
  }

  // ---- Savings ----

  /** The row of a new pocket: the customer's own, guarded, locked for whole days from now. */
  function Pocket(customer: string, number: string, rateBps: int, lockDays: int, now: int): Account {
    Account(number, Some(customer), "savings_locked", Credit, Active, false, Savings(rateBps, now + lockDays * 86_400_000_000_000))
  }

  /** Opening a pocket adds its row unless the number is taken, and then funds it from the customer's wallet. */
  lemma {:induction false} OpenSavingsExactly(b: Books, customer: string, number: string, rateBps: int, lockDays: int, amount: int, slip: W.Slip, now: int)
    ensures var pocket := |b.accounts|;
            var grown := b.(accounts := b.accounts + [Pocket(customer, number, rateBps, lockDays, now)]);
            var w := W.ByCustomer(grown.accounts, customer, "wallet");
            W.Apply(b, W.OpenSavings(customer, number, rateBps, lockDays, amount, slip, now)).0
            == if exists i :: 0 <= i < |b.accounts| && b.accounts[i].number == number then b
               else if w.Some? && Accepted(grown, w.value, pocket, amount, slip)
               then Written(grown, "savings_deposit", w.value, pocket, amount, slip) else grown
  {
    hide Post;
    hide Accepted;
    var pocket := |b.accounts|;
    var grown := b.(accounts := b.accounts + [Pocket(customer, number, rateBps, lockDays, now)]);
    var w := W.ByCustomer(grown.accounts, customer, "wallet");
    if w.Some? {
      MoveExactly(grown, "savings_deposit", w.value, pocket, amount, slip);
    }
  }

  /** When a pocket matures; anything else is never locked past the epoch. */
  function Maturity(terms: Terms): int {
    match terms
    case Savings(_, until) => until
    case NoTerms => 0
    case Loan(_, _, _, _, _) => 0
  }

  /** Taking money out of a pocket: its owner, once it has matured, into the owner's wallet. */
  lemma {:induction false} WithdrawSavingsExactly(b: Books, customer: string, pocket: nat, amount: int, slip: W.Slip, now: int)
    ensures var w := W.ByCustomer(b.accounts, customer, "wallet");
            W.Apply(b, W.WithdrawSavings(customer, pocket, amount, slip, now)).0
            == if && pocket < |b.accounts| && b.accounts[pocket].product == "savings_locked"
                  && b.accounts[pocket].customer == Some(customer)
                  && Maturity(b.accounts[pocket].terms) <= now
                  && w.Some? && Accepted(b, pocket, w.value, amount, slip)
               then Written(b, "savings_withdrawal", pocket, w.value, amount, slip) else b
  {
    hide Post;
    hide Accepted;
    var w := W.ByCustomer(b.accounts, customer, "wallet");
    if w.Some? {
      MoveExactly(b, "savings_withdrawal", pocket, w.value, amount, slip);
    }
  }

  /** Who is refused a pocket's money, and why: everybody else always, the owner until it matures. */
  lemma {:induction false} WithdrawalRefusals(b: Books, customer: string, pocket: nat, amount: int, slip: W.Slip, now: int)
    requires pocket < |b.accounts| && b.accounts[pocket].product == "savings_locked"
    ensures var (after, outcome) := W.Apply(b, W.WithdrawSavings(customer, pocket, amount, slip, now));
            && (outcome == W.Failed(W.SavingsAccountNotOwned) <==> b.accounts[pocket].customer != Some(customer))
            && (outcome == W.Failed(W.SavingsLocked)
                <==> b.accounts[pocket].customer == Some(customer) && now < Maturity(b.accounts[pocket].terms))
            && (outcome == W.Failed(W.SavingsAccountNotOwned) || outcome == W.Failed(W.SavingsLocked) ==> after == b)
  {
    hide Post;
  }

  /** A pocket just opened and funded holds exactly the deposit. */
  lemma {:induction false} FundedHolds(b: Books, customer: string, number: string, rateBps: int, lockDays: int, amount: int, slip: W.Slip, now: int)
    requires Sound(b) && W.ByNumber(b.accounts, "SYS-FLOAT").Some?
    requires Funded(b, customer, number, rateBps, lockDays, amount, slip, now)
    ensures var after := W.Apply(b, W.OpenSavings(customer, number, rateBps, lockDays, amount, slip, now)).0;
            && |after.accounts| == |b.accounts| + 1
            && after.accounts[|b.accounts|] == Pocket(customer, number, rateBps, lockDays, now)
            && Balance(after, |b.accounts|) == amount
            && W.LockedPocket(after, |b.accounts|, now + lockDays * 86_400_000_000_000)
  {
    hide Balance;
    hide Post;
    hide Accepted;
    var pocket := |b.accounts|;
    var grown := b.(accounts := b.accounts + [Pocket(customer, number, rateBps, lockDays, now)]);
    var w := W.ByCustomer(grown.accounts, customer, "wallet");
    OpenSavingsExactly(b, customer, number, rateBps, lockDays, amount, slip, now);
    MoveExactly(grown, "savings_deposit", w.value, pocket, amount, slip);
    WrittenIsMore(grown, "savings_deposit", w.value, pocket, amount, slip);
    NothingOnNew(b, grown);
    W.MoveMovesMoney(grown, "savings_deposit", w.value, pocket, amount, slip, pocket);
  }

  /** The number is free, and the customer's wallet can fund the pocket. */
  predicate Funded(b: Books, customer: string, number: string, rateBps: int, lockDays: int, amount: int, slip: W.Slip, now: int) {
    && (forall i :: 0 <= i < |b.accounts| ==> b.accounts[i].number != number)
    && var grown := b.(accounts := b.accounts + [Pocket(customer, number, rateBps, lockDays, now)]);
       var w := W.ByCustomer(grown.accounts, customer, "wallet");
       w.Some? && Accepted(grown, w.value, |b.accounts|, amount, slip)
  }

  lemma {:induction false} WrittenIsMore(b: Books, entryType: string, debit: nat, credit: nat, amount: int, slip: W.Slip)
    ensures Written(b, entryType, debit, credit, amount, slip) != b
  {
    assert |Written(b, entryType, debit, credit, amount, slip).journal| != |b.journal|;
  }

  lemma {:induction false} NothingOnNew(b: Books, grown: Books)
    requires Sound(b) && grown.journal == b.journal && |grown.accounts| == |b.accounts| + 1
    ensures Balance(grown, |b.accounts|) == 0
  {
    NoLinesOn(b.journal, |b.accounts|, Debit);
    NoLinesOn(b.journal, |b.accounts|, Credit);
  }

  lemma {:induction false} NoLinesOn(journal: seq<Entry>, account: nat, side: Side)
    requires forall i :: 0 <= i < |journal| ==> EntrySound(account, journal[i])
    ensures Amount(Lines(journal), account, side) == 0
  {
    if journal != [] {
      var init, e := journal[..|journal| - 1], journal[|journal| - 1];
      NoLinesOn(init, account, side);
      SumConcat(Lines(init), e.lines, On(account, side));
      NoneOn(e.lines, account, side);
    }
  }

  lemma {:induction false} NoneOn(lines: seq<Line>, account: nat, side: Side)
    requires forall l :: l in lines ==> l.account < account
    ensures Sum(lines, On(account, side)) == 0
  {
    if lines != [] {
      NoneOn(lines[..|lines| - 1], account, side);
    }
  }

  /**
   * A pocket opened at `now` for `lockDays` whole days holds exactly its deposit
   * through every sequence of wallet and savings operations before then; nobody
   * but its owner ever gets past that check, and the owner, from then on, is
   * paid whatever of it the owner's wallet may take.
   */
  lemma {:induction false} SavingsKept(b: Books, customer: string, number: string, rateBps: int, lockDays: int, amount: int, slip: W.Slip, now: int,
                                       ops: seq<W.Operation>, other: string, draw: int, drawSlip: W.Slip, at: int)
    requires Sound(b) && W.ByNumber(b.accounts, "SYS-FLOAT").Some?
    requires Funded(b, customer, number, rateBps, lockDays, amount, slip, now)
    requires forall i :: 0 <= i < |ops| && ops[i].WithdrawSavings? ==> ops[i].now < now + lockDays * 86_400_000_000_000
    ensures var pocket := |b.accounts|;
            var funded := W.Apply(b, W.OpenSavings(customer, number, rateBps, lockDays, amount, slip, now)).0;
            var held := W.ApplyAll(funded, ops);
            && pocket < |held.accounts| && Balance(held, pocket) == amount
            && (other != customer ==>
                  W.Apply(held, W.WithdrawSavings(other, pocket, draw, drawSlip, at)) == (held, W.Failed(W.SavingsAccountNotOwned)))
            && (at < now + lockDays * 86_400_000_000_000 ==>
                  W.Apply(held, W.WithdrawSavings(customer, pocket, draw, drawSlip, at)) == (held, W.Failed(W.SavingsLocked)))
            && (now + lockDays * 86_400_000_000_000 <= at ==>
                  var w := W.ByCustomer(held.accounts, customer, "wallet");
                  W.Apply(held, W.WithdrawSavings(customer, pocket, draw, drawSlip, at)).0
                  == if w.Some? && Accepted(held, pocket, w.value, draw, drawSlip)
                     then Written(held, "savings_withdrawal", pocket, w.value, draw, drawSlip) else held)
  {
    hide Balance;
    hide W.Apply;
    hide Accepted;
    hide Funded;
    var pocket := |b.accounts|;
    var funded := W.Apply(b, W.OpenSavings(customer, number, rateBps, lockDays, amount, slip, now)).0;
    FundedHolds(b, customer, number, rateBps, lockDays, amount, slip, now);
    W.LockHolds(funded, ops, pocket, now + lockDays * 86_400_000_000_000);
    var held := W.ApplyAll(funded, ops);
    OwnerKept(funded, ops, pocket);
    WithdrawalRefusals(held, other, pocket, draw, drawSlip, at);
    WithdrawalRefusals(held, customer, pocket, draw, drawSlip, at);
    WithdrawSavingsExactly(held, customer, pocket, draw, drawSlip, at);
  }

  /** No wallet or savings operation changes an account's row. */
  lemma {:induction false} OwnerKept(b: Books, ops: seq<W.Operation>, a: nat)
    requires a < |b.accounts|
    ensures a < |W.ApplyAll(b, ops).accounts| && W.ApplyAll(b, ops).accounts[a] == b.accounts[a]
  {
    hide W.Apply;
    if ops != [] {
      OwnerKept(b, ops[..|ops| - 1], a);
      RowKept(W.ApplyAll(b, ops[..|ops| - 1]), ops[|ops| - 1], a);
    }
  }

  lemma {:induction false} RowKept(b: Books, op: W.Operation, a: nat)
    requires a < |b.accounts|
    ensures a < |W.Apply(b, op).0.accounts| && W.Apply(b, op).0.accounts[a] == b.accounts[a]
  {
    hide GuardError;
    hide LinesError;
    hide FindKey;
    hide W.Move;
  }

  // ---- Loans ----

  predicate LoanRow(b: Books, loan: nat) {
    loan < |b.accounts| && b.accounts[loan].product == "loan" && b.accounts[loan].terms.Loan?
  }

  /** A new loan is a pending receivable the customer cannot overpay, with nothing reserved and no maturity yet. */
  lemma {:induction false} OriginationExactly(b: Books, customer: string, number: string, principal: int, rateBps: int, tenorDays: int)
    ensures var taken := exists i :: 0 <= i < |b.accounts| && b.accounts[i].number == number;
            var row := Account(number, Some(customer), "loan", Debit, Pending, false, Terms.Loan(principal, rateBps, tenorDays, None, 0));
            Loan.Originate(b, customer, number, principal, rateBps, tenorDays)
            == if taken then (b, Rejected(AccountNumberTaken)) else (b.(accounts := b.accounts + [row]), Opened(|b.accounts|))
  {
  }

  /** The post under this key succeeds, as a new entry or as the answer to an old one. */
  predicate Answered(b: Books, debit: nat, credit: nat, amount: int, slip: W.Slip) {
    Accepted(b, debit, credit, amount, slip) || (0 < amount && exists i :: 0 <= i < |b.journal| && b.journal[i].key == slip.key)
  }

  function After(b: Books, entryType: string, debit: nat, credit: nat, amount: int, slip: W.Slip): (after: Books)
    ensures after.accounts == b.accounts
  {
    if Accepted(b, debit, credit, amount, slip) then Written(b, entryType, debit, credit, amount, slip) else b
  }

  function WithRow(b: Books, a: nat, row: Account): Books
    requires a < |b.accounts|
  {
    b.(accounts := b.accounts[a := row])
  }

  /**
   * A disbursement claims a pending loan whatever comes after, pays its
   * principal into its customer's wallet, and sets the maturity its tenor in
   * whole days from then; any other loan is refused and left alone.
   */
  lemma {:induction false} DisbursementExactly(b: Books, loan: nat, slip: W.Slip, now: int, written: bool)
    ensures var after := Loan.Disburse(b, loan, slip, now, written).0;
            if !LoanRow(b, loan) || b.accounts[loan].status != Pending then after == b
            else
              var row, terms := b.accounts[loan], b.accounts[loan].terms;
              var claimed := WithRow(b, loan, row.(status := Active));
              var w := if row.customer.Some? then W.ByCustomer(claimed.accounts, row.customer.value, "wallet") else None;
              if w.None? || !Answered(claimed, loan, w.value, terms.principalKobo, slip) then after == claimed
              else
                var paid := After(claimed, "loan_disbursement", loan, w.value, terms.principalKobo, slip);
                var due := now + terms.tenorDays * 86_400_000_000_000;
                after == if written then WithRow(paid, loan, row.(status := Active, terms := terms.(maturity := Some(due)))) else paid
  {
    hide Post;
    hide Accepted;
    if LoanRow(b, loan) && b.accounts[loan].status == Pending {
      var row := b.accounts[loan];
      var claimed := WithRow(b, loan, row.(status := Active));
      assert Loan.Claim(b, loan) == (claimed, None);
      var w := Loan.WalletOf(claimed, loan);
      if w.Some? {
        MoveExactly(claimed, "loan_disbursement", loan, w.value, row.terms.principalKobo, slip);
      }
    }
  }

  /** Why a disbursement fails: not a loan, not pending, no wallet, or the ledger's refusal. */
  lemma {:induction false} DisbursementFailures(b: Books, loan: nat, slip: W.Slip, now: int, written: bool)
    ensures var outcome := Loan.Disburse(b, loan, slip, now, written).1;
            && (outcome == Loan.Failed(Loan.LoanNotFound) <==> !LoanRow(b, loan))
            && (forall status :: outcome == Loan.Failed(Loan.LoanNotPending(status))
                                 <==> LoanRow(b, loan) && b.accounts[loan].status == status && status != Pending)
            && (outcome.Done? ==> LoanRow(b, loan) && b.accounts[loan].status == Pending)
  {
    hide Balance;
    hide GuardError;
    hide LinesError;
  }

  /**
   * A repayment is taken from an active loan by its own customer only, from
   * that customer's wallet, and closes the loan exactly when nothing is owed
   * once it is posted.
   */
  lemma {:induction false} RepaymentExactly(b: Books, customer: string, loan: nat, amount: int, slip: W.Slip)
    ensures var after := Loan.Repay(b, customer, loan, amount, slip).0;
            if !LoanRow(b, loan) || b.accounts[loan].customer != Some(customer) || b.accounts[loan].status != Active then after == b
            else
              var w := W.ByCustomer(b.accounts, customer, "wallet");
              if w.None? || !Answered(b, w.value, loan, amount, slip) then after == b
              else
                var paid := After(b, "loan_repayment", w.value, loan, amount, slip);
                after == if Balance(paid, loan) == 0 then WithRow(paid, loan, b.accounts[loan].(status := Closed)) else paid
  {
    hide Post;
    hide Accepted;
    hide Balance;
    if LoanRow(b, loan) && b.accounts[loan].customer == Some(customer) && b.accounts[loan].status == Active {
      var w := W.ByCustomer(b.accounts, customer, "wallet");
      if w.Some? {
        MoveExactly(b, "loan_repayment", w.value, loan, amount, slip);
      }
    }
  }

  /** Why a repayment is refused before any money moves. */
  lemma {:induction false} RepaymentRefusals(b: Books, customer: string, loan: nat, amount: int, slip: W.Slip)
    ensures var outcome := Loan.Repay(b, customer, loan, amount, slip).1;
            && (!LoanRow(b, loan) ==> outcome == Loan.Failed(Loan.LoanNotFound))
            && (outcome == Loan.Failed(Loan.LoanNotOwned) <==> LoanRow(b, loan) && b.accounts[loan].customer != Some(customer))
            && (forall status :: outcome == Loan.Failed(Loan.LoanNotActive(status))
                                 <==> LoanRow(b, loan) && b.accounts[loan].customer == Some(customer)
                                      && b.accounts[loan].status == status && status != Active)
  {
    hide Balance;
    hide GuardError;
    hide LinesError;
  }

  // ---- Interest and provisions ----

  /** A day's interest on a pocket: floor(balance * rate / 3650000), from the expense account, under the account's key for the day. */
  lemma {:induction false} SavingsInterestExactly(b: Books, account: nat, expense: nat, rateBps: nat, day: string)
    requires account < |b.accounts|
    ensures var interest := if 0 < Balance(b, account) then Balance(b, account) * rateBps / 3_650_000 else 0;
            var key := "interest:" + A.Decimal(account) + ":" + day;
            var slip := W.Slip(key, key, "Daily interest accrual (" + day + ")");
            A.AccrueDay(b, A.SavingsInterest, account, expense, rateBps, day)
            == After(b, "interest_accrual", expense, account, interest, slip)
  {
    hide Post;
    hide Balance;
    hide A.DailyInterest;
    if 0 < Balance(b, account) {
      A.DailyInterestIsFloor(Balance(b, account), rateBps);
      var interest := A.DailyInterest(Balance(b, account), rateBps);
      var key := A.InterestKey(A.SavingsInterest, account, day);
      MoveExactly(b, "interest_accrual", expense, account, interest, W.Slip(key, key, "Daily interest accrual (" + day + ")"));
    }
  }

  /** A day's interest on a loan: the same sum, owed by the customer to the income account. */
  lemma {:induction false} LoanInterestExactly(b: Books, loan: nat, income: nat, rateBps: nat, day: string)
    requires loan < |b.accounts|
    ensures var interest := if 0 < Balance(b, loan) then Balance(b, loan) * rateBps / 3_650_000 else 0;
            var key := "loan-interest:" + A.Decimal(loan) + ":" + day;
            var slip := W.Slip(key, key, "Daily loan interest accrual (" + day + ")");
            A.AccrueDay(b, A.LoanInterest, loan, income, rateBps, day)
            == After(b, "loan_interest_accrual", loan, income, interest, slip)
  {
    hide Post;
    hide Balance;
    hide A.DailyInterest;
    if 0 < Balance(b, loan) {
      A.DailyInterestIsFloor(Balance(b, loan), rateBps);
      var interest := A.DailyInterest(Balance(b, loan), rateBps);
      var key := A.InterestKey(A.LoanInterest, loan, day);
      MoveExactly(b, "loan_interest_accrual", loan, income, interest, W.Slip(key, key, "Daily loan interest accrual (" + day + ")"));
    }
  }

  /** A provision: the expected loss beyond what the metadata says is reserved, from the expense to the reserve, keyed by the target. */
  lemma {:induction false} ProvisionExactly(b: Books, loan: nat, accounts: P.Accounts, listed: Terms, asOf: int)
    requires loan < |b.accounts| && listed.Loan? && 0 <= listed.provisionedKobo
    ensures var target := P.ExpectedLoss(Balance(b, loan), listed.maturity, asOf);
            var (after, unwritten) := P.PostShortfall(b, loan, accounts, listed, asOf);
            0 <= target
            && var key := "loan-provision:" + A.Decimal(loan) + ":" + A.Decimal(target);
               var slip := W.Slip(key, key, "Loan loss provision");
               var delta := target - listed.provisionedKobo;
               && after == After(b, "loan_loss_provision", accounts.expense, accounts.reserve, delta, slip)
               && (unwritten == Some(listed.(provisionedKobo := target))
                   <==> Answered(b, accounts.expense, accounts.reserve, delta, slip))
  {
    hide Post;
    hide Balance;
    hide Accepted;
    hide P.TargetOf;
    hide P.ExpectedLoss;
    hide A.Decimal;
    if 0 < Balance(b, loan) {
      P.TargetIsExpectedLoss(Balance(b, loan), listed.maturity, asOf);
      P.TargetNonNegative(Balance(b, loan), listed.maturity, asOf);
      var target := P.TargetOf(Balance(b, loan), listed.maturity, asOf);
      var key := P.ProvisionKey(loan, target);
      MoveExactly(b, "loan_loss_provision", accounts.expense, accounts.reserve, target - listed.provisionedKobo,
                  W.Slip(key, key, "Loan loss provision"));
      NoneAccepted(b, accounts.expense, accounts.reserve, target - listed.provisionedKobo, W.Slip(key, key, "Loan loss provision"));
    } else {
      P.NothingExpected(Balance(b, loan), listed.maturity, asOf);
      var key := "loan-provision:" + A.Decimal(loan) + ":" + A.Decimal(0);
      NoneAccepted(b, accounts.expense, accounts.reserve, 0 - listed.provisionedKobo, W.Slip(key, key, "Loan loss provision"));
    }
  }

  lemma {:induction false} NoneAccepted(b: Books, debit: nat, credit: nat, amount: int, slip: W.Slip)
    ensures amount <= 0 ==> !Accepted(b, debit, credit, amount, slip)
  {
  }
}
