/**
 * Wallets and locked savings pockets (services/ledger/internal/wallet/wallet.go
 * and savings.go): every operation resolves customers to accounts and posts one
 * two-line entry.
 */
module Wallet {
  import opened Sums
  import opened Domain
  import opened Ledger
  import opened LedgerRuns
  import opened Overdraft

  const WALLET := "wallet"
  const SAVINGS := "savings_locked"
  const FLOAT := "SYS-FLOAT"
  const DAY := 86_400_000_000_000

  datatype Failure =
    | CustomerAccountNotFound
    | CustomerAlreadyHasAccount
    | SystemAccountMissing
    | SameAccount
    | SavingsAccountNotFound
    | SavingsAccountNotOwned
    | SavingsLocked
    | Refused(error: Error)

  datatype Outcome = Done(entry: nat) | Created(account: nat) | Failed(failure: Failure)

  /** What every money movement carries through to its journal entry. */
  datatype Slip = Slip(reference: string, key: string, description: string)

  // ---- Resolving accounts ----

  function ByCustomer(accounts: seq<Account>, customer: string, product: string): (a: Option<nat>)
    ensures a.Some? ==> a.value < |accounts| && accounts[a.value].customer == Some(customer) && accounts[a.value].product == product
    ensures a.None? ==> forall i :: 0 <= i < |accounts| ==> accounts[i].customer != Some(customer) || accounts[i].product != product
  {
    if accounts == [] then None
    else
      var last := |accounts| - 1;
      var earlier := ByCustomer(accounts[..last], customer, product);
      if earlier.Some? then earlier
      else if accounts[last].customer == Some(customer) && accounts[last].product == product then Some(last)
      else None
  }

  function ByNumber(accounts: seq<Account>, number: string): (a: Option<nat>)
    ensures a.Some? ==> a.value < |accounts| && accounts[a.value].number == number
    ensures a.None? ==> forall i :: 0 <= i < |accounts| ==> accounts[i].number != number
  {
    if accounts == [] then None
    else
      var last := |accounts| - 1;
      var earlier := ByNumber(accounts[..last], number);
      if earlier.Some? then earlier
      else if accounts[last].number == number then Some(last)
      else None
  }

  lemma {:induction false} ResolvesInPrefix(before: seq<Account>, after: seq<Account>, customer: string, product: string, number: string)
    requires AccountsKept(before, after)
    ensures ByCustomer(before, customer, product).Some? ==> ByCustomer(after, customer, product) == ByCustomer(before, customer, product)
    ensures ByNumber(before, number).Some? ==> ByNumber(after, number) == ByNumber(before, number)
    decreases |after|
  {
    if after != [] {
      var init := after[..|after| - 1];
      if |before| < |after| {
        ResolvesInPrefix(before, init, customer, product, number);
      } else {
        ResolvesInPrefix(before[..|before| - 1], init, customer, product, number);
        ResolvesInFull(before, after, customer, product, number);
      }
    }
  }

  lemma {:induction false} ResolvesInFull(before: seq<Account>, after: seq<Account>, customer: string, product: string, number: string)
    requires AccountsKept(before, after) && |before| == |after|
    ensures ByCustomer(after, customer, product) == ByCustomer(before, customer, product)
    ensures ByNumber(after, number) == ByNumber(before, number)
  {
    if after != [] {
      ResolvesInFull(before[..|before| - 1], after[..|after| - 1], customer, product, number);
    }
  }

  /**
   * A resolved account stays resolved whatever runs in between, so resolving in
   * one transaction and posting in the next is the same as doing both at once.
   */
  lemma {:induction false} ResolutionStable(b: Books, later: Request, customer: string, product: string, number: string)
    ensures var after := Step(b, later).0;
            && (ByCustomer(b.accounts, customer, product).Some? ==>
                  ByCustomer(after.accounts, customer, product) == ByCustomer(b.accounts, customer, product))
            && (ByNumber(b.accounts, number).Some? ==>
                  ByNumber(after.accounts, number) == ByNumber(b.accounts, number))
  {
    StepShape(b, later);
    ResolvesInPrefix(b.accounts, Step(b, later).0.accounts, customer, product, number);
  }

  // ---- Two-line entries ----

  function Move(entryType: string, debit: nat, credit: nat, amount: int, slip: Slip): PostInput {
    PostInput(slip.reference, slip.key, entryType, "", slip.description,
              [LineInput(debit, Debit, amount), LineInput(credit, Credit, amount)])
  }

  /** What moving `amount` from the debited to the credited account does to account `a`. */
  function Moved(debit: nat, credit: nat, amount: int, a: nat, normal: Side): int {
    (if a == debit then (if normal == Debit then amount else -amount) else 0)
    + (if a == credit then (if normal == Credit then amount else -amount) else 0)
  }

  lemma {:induction false} MoveSums(entryType: string, debit: nat, credit: nat, amount: int, slip: Slip, a: nat, side: Side)
    ensures Sum(Move(entryType, debit, credit, amount, slip).lines, OnInput(a, side))
            == (if a == debit && side == Debit then amount else 0) + (if a == credit && side == Credit then amount else 0)
  {
    var lines := Move(entryType, debit, credit, amount, slip).lines;
    SumPair(lines[0], lines[1], OnInput(a, side));
    assert lines == [lines[0], lines[1]];
  }

  /** A two-line entry always balances; only its amount can make it malformed. */
  lemma {:induction false} MoveWellFormed(entryType: string, debit: nat, credit: nat, amount: int, slip: Slip)
    ensures LinesError(Move(entryType, debit, credit, amount, slip).lines)
            == if amount <= 0 then Some(NonPositiveAmount) else None
    ensures NamesOnce(Move(entryType, debit, credit, amount, slip).lines)
  {
    var lines := Move(entryType, debit, credit, amount, slip).lines;
    SumPair(lines[0], lines[1], InputOn(Debit));
    SumPair(lines[0], lines[1], InputOn(Credit));
    assert lines == [lines[0], lines[1]];
  }

  /**
   * A movement that writes an entry moves exactly `amount`, was affordable, and
   * touches no third account.
   */
  lemma {:induction false} MoveMovesMoney(b: Books, entryType: string, debit: nat, credit: nat, amount: int, slip: Slip, a: nat)
    requires a < |b.accounts|
    requires Post(b, Move(entryType, debit, credit, amount, slip)).0 != b
    ensures var after := Post(b, Move(entryType, debit, credit, amount, slip)).0;
            && 0 < amount && debit < |b.accounts| && credit < |b.accounts|
            && after.accounts == b.accounts
            && Balance(after, a) == Balance(b, a) + Moved(debit, credit, amount, a, b.accounts[a].normal)
            && (b.accounts[debit].normal == Credit && !b.accounts[debit].allowNegative ==> amount <= Balance(b, debit))
  {
    var input := Move(entryType, debit, credit, amount, slip);
    MoveWellFormed(entryType, debit, credit, amount, slip);
    PostMoves(b, input, None, a);
    MoveSums(entryType, debit, credit, amount, slip, a, Debit);
    MoveSums(entryType, debit, credit, amount, slip, a, Credit);
    assert LineGuard(b, input.lines[0]).None?;
    assert LineGuard(b, input.lines[1]).None?;
  }

  /** No entry yet uses `key` as its key or its reference. */
  ghost predicate Unused(journal: seq<Entry>, key: string) {
    forall i :: 0 <= i < |journal| ==> journal[i].key != key && journal[i].reference != key
  }

  /** A movement of a positive amount under a fresh key and reference is written when neither line is refused. */
  lemma {:induction false} MoveAccepted(b: Books, entryType: string, debit: nat, credit: nat, amount: int, slip: Slip)
    requires 0 < amount && FindKey(b.journal, slip.key).None? && !ReferenceUsed(b.journal, slip.reference)
    requires LineGuard(b, LineInput(debit, Debit, amount)).None? && LineGuard(b, LineInput(credit, Credit, amount)).None?
    ensures var (after, reply) := Post(b, Move(entryType, debit, credit, amount, slip));
            && reply == Posted(|b.journal|)
            && after.accounts == b.accounts
            && |after.journal| == |b.journal| + 1
            && after.journal[..|b.journal|] == b.journal
            && after.journal[|b.journal|].key == slip.key
            && after.journal[|b.journal|].reference == slip.reference
  {
    hide LineGuard;
    MoveWellFormed(entryType, debit, credit, amount, slip);
  }

  // ---- Operations ----

  datatype Operation =
    | TransferP2P(from: string, to: string, amount: int, slip: Slip)
    | ConfirmDeposit(customer: string, amount: int, slip: Slip)
    | RecordWithdrawal(customer: string, amount: int, slip: Slip)
    | RecordCardSettlement(customer: string, amount: int, slip: Slip)
    | OpenSavings(customer: string, number: string, rateBps: int, lockDays: int, amount: int, slip: Slip, now: int)
    | WithdrawSavings(customer: string, pocket: nat, amount: int, slip: Slip, now: int)

  function OutcomeOf(reply: Reply): Outcome {
    match reply
    case Posted(id) => Done(id)
    case Rejected(error) => Failed(Refused(error))
    case Opened(a) => Created(a)
    case Updated => Failed(CustomerAccountNotFound)
  }

  function MoveBetween(b: Books, entryType: string, debit: nat, credit: nat, amount: int, slip: Slip): (Books, Outcome) {
    var (after, reply) := Post(b, Move(entryType, debit, credit, amount, slip));
    (after, OutcomeOf(reply))
  }

  function PocketRow(customer: string, number: string, rateBps: int, lockDays: int, now: int): Account {
    Account(number, Some(customer), SAVINGS, Credit, Active, false, Savings(rateBps, now + lockDays * DAY))
  }

  /** An unreadable metadata column reads as a pocket with no terms: locked until the epoch. */
  function LockedUntil(terms: Terms): int {
    if terms.Savings? then terms.lockedUntil else 0
  }

  function Apply(b: Books, op: Operation): (Books, Outcome) {
    match op
    case TransferP2P(from, to, amount, slip) =>
      var fromId, toId := ByCustomer(b.accounts, from, WALLET), ByCustomer(b.accounts, to, WALLET);
      if fromId.None? || toId.None? then (b, Failed(CustomerAccountNotFound))
      else if fromId == toId then (b, Failed(SameAccount))
      else MoveBetween(b, "p2p_transfer", fromId.value, toId.value, amount, slip)
    case ConfirmDeposit(customer, amount, slip) =>
      var id, float := ByCustomer(b.accounts, customer, WALLET), ByNumber(b.accounts, FLOAT);
      if id.None? then (b, Failed(CustomerAccountNotFound))
      else if float.None? then (b, Failed(SystemAccountMissing))
      else MoveBetween(b, "deposit", float.value, id.value, amount, slip)
    case RecordWithdrawal(customer, amount, slip) =>
      PayOut(b, "withdrawal", customer, amount, slip)
    case RecordCardSettlement(customer, amount, slip) =>
      PayOut(b, "card_settlement", customer, amount, slip)
    case OpenSavings(customer, number, rateBps, lockDays, amount, slip, now) =>
      var (grown, reply) := Open(b, PocketRow(customer, number, rateBps, lockDays, now));
      if !reply.Opened? then (grown, OutcomeOf(reply))
      else
        var id := ByCustomer(grown.accounts, customer, WALLET);
        if id.None? then (grown, Failed(CustomerAccountNotFound))
        else MoveBetween(grown, "savings_deposit", id.value, reply.account, amount, slip)
    case WithdrawSavings(customer, pocket, amount, slip, now) =>
      if |b.accounts| <= pocket || b.accounts[pocket].product != SAVINGS then (b, Failed(SavingsAccountNotFound))
      else if b.accounts[pocket].customer != Some(customer) then (b, Failed(SavingsAccountNotOwned))
      else if now < LockedUntil(b.accounts[pocket].terms) then (b, Failed(SavingsLocked))
      else
        var id := ByCustomer(b.accounts, customer, WALLET);
        if id.None? then (b, Failed(CustomerAccountNotFound))
        else MoveBetween(b, "savings_withdrawal", pocket, id.value, amount, slip)
  }

  function PayOut(b: Books, entryType: string, customer: string, amount: int, slip: Slip): (Books, Outcome) {
    var id, float := ByCustomer(b.accounts, customer, WALLET), ByNumber(b.accounts, FLOAT);
    if id.None? then (b, Failed(CustomerAccountNotFound))
    else if float.None? then (b, Failed(SystemAccountMissing))
    else MoveBetween(b, entryType, id.value, float.value, amount, slip)
  }

  function ApplyAll(b: Books, ops: seq<Operation>): Books {
    if ops == [] then b else Apply(ApplyAll(b, ops[..|ops| - 1]), ops[|ops| - 1]).0
  }

  // ---- What operations do ----

  /** A transfer that writes an entry takes from one wallet what it gives the other, and is affordable. */
  lemma {:induction false} TransferMovesMoney(b: Books, from: string, to: string, amount: int, slip: Slip, a: nat)
    requires a < |b.accounts|
    requires Apply(b, TransferP2P(from, to, amount, slip)).0 != b
    ensures var after := Apply(b, TransferP2P(from, to, amount, slip)).0;
            var f, t := ByCustomer(b.accounts, from, WALLET), ByCustomer(b.accounts, to, WALLET);
            && f.Some? && t.Some? && f != t && 0 < amount
            && a < |after.accounts|
            && Balance(after, a) - Balance(b, a) == Moved(f.value, t.value, amount, a, b.accounts[a].normal)
            && (b.accounts[f.value].normal == Credit && !b.accounts[f.value].allowNegative ==> amount <= Balance(b, f.value))
  {
    var f, t := ByCustomer(b.accounts, from, WALLET).value, ByCustomer(b.accounts, to, WALLET).value;
    MoveMovesMoney(b, "p2p_transfer", f, t, amount, slip, a);
  }

  /** A deposit followed by a withdrawal of the same amount, both writing entries, restores every balance. */
  lemma {:induction false} WithdrawalUndoesDeposit(b: Books, customer: string, amount: int, deposit: Slip, withdrawal: Slip, a: nat)
    requires a < |b.accounts|
    requires var middle := Apply(b, ConfirmDeposit(customer, amount, deposit)).0;
             middle != b && Apply(middle, RecordWithdrawal(customer, amount, withdrawal)).0 != middle
    ensures var middle := Apply(b, ConfirmDeposit(customer, amount, deposit)).0;
            var after := Apply(middle, RecordWithdrawal(customer, amount, withdrawal)).0;
            && a < |middle.accounts| && a < |after.accounts|
            && Balance(after, a) == Balance(b, a)
  {
    var id, float := ByCustomer(b.accounts, customer, WALLET).value, ByNumber(b.accounts, FLOAT).value;
    var middle := Apply(b, ConfirmDeposit(customer, amount, deposit)).0;
    MoveMovesMoney(b, "deposit", float, id, amount, deposit, a);
    MoveMovesMoney(middle, "withdrawal", id, float, amount, withdrawal, a);
  }

  // ---- Products stay solvent ----

  /** Every operation is one or two ledger requests, each naming no account twice on a side. */
  lemma {:induction false} OperationIsRun(b: Books, op: Operation) returns (requests: seq<Request>)
    ensures Run(b, requests).0 == Apply(b, op).0
    ensures forall i :: 0 <= i < |requests| && requests[i].PostRequest? ==> NamesOnce(requests[i].post.lines)
  {
    match op
    case TransferP2P(from, to, amount, slip) =>
      var f, t := ByCustomer(b.accounts, from, WALLET), ByCustomer(b.accounts, to, WALLET);
      if f.None? || t.None? || f == t { requests := []; }
      else { requests := MoveIsRun(b, "p2p_transfer", f.value, t.value, amount, slip); }
    case ConfirmDeposit(customer, amount, slip) =>
      var id, float := ByCustomer(b.accounts, customer, WALLET), ByNumber(b.accounts, FLOAT);
      if id.None? || float.None? { requests := []; }
      else { requests := MoveIsRun(b, "deposit", float.value, id.value, amount, slip); }
    case RecordWithdrawal(customer, amount, slip) =>
      requests := PayOutIsRun(b, "withdrawal", customer, amount, slip);
    case RecordCardSettlement(customer, amount, slip) =>
      requests := PayOutIsRun(b, "card_settlement", customer, amount, slip);
    case OpenSavings(customer, number, rateBps, lockDays, amount, slip, now) =>
      var open := OpenRequest(PocketRow(customer, number, rateBps, lockDays, now));
      var (grown, reply) := Step(b, open);
      var id := ByCustomer(grown.accounts, customer, WALLET);
      assert Run(b, [open]).0 == grown;
      if !reply.Opened? || id.None? { requests := [open]; }
      else {
        var move := MoveIsRun(grown, "savings_deposit", id.value, reply.account, amount, slip);
        requests := [open] + move;
        assert requests[..1] == [open];
      }
    case WithdrawSavings(customer, pocket, amount, slip, now) =>
      var id := ByCustomer(b.accounts, customer, WALLET);
      if Apply(b, op).0 == b { requests := []; }
      else { requests := MoveIsRun(b, "savings_withdrawal", pocket, id.value, amount, slip); }
  }

  lemma {:induction false} MoveIsRun(b: Books, entryType: string, debit: nat, credit: nat, amount: int, slip: Slip) returns (requests: seq<Request>)
    ensures |requests| == 1 && requests[0] == PostRequest(Move(entryType, debit, credit, amount, slip))
    ensures Run(b, requests).0 == MoveBetween(b, entryType, debit, credit, amount, slip).0
    ensures NamesOnce(requests[0].post.lines)
  {
    requests := [PostRequest(Move(entryType, debit, credit, amount, slip))];
    assert requests[..0] == [];
  }

  lemma {:induction false} PayOutIsRun(b: Books, entryType: string, customer: string, amount: int, slip: Slip) returns (requests: seq<Request>)
    ensures Run(b, requests).0 == PayOut(b, entryType, customer, amount, slip).0
    ensures forall i :: 0 <= i < |requests| && requests[i].PostRequest? ==> NamesOnce(requests[i].post.lines)
  {
    var id, float := ByCustomer(b.accounts, customer, WALLET), ByNumber(b.accounts, FLOAT);
    if id.None? || float.None? { requests := []; }
    else { requests := MoveIsRun(b, entryType, id.value, float.value, amount, slip); }
  }

  lemma {:induction false} RequestsSolvent(b: Books, requests: seq<Request>)
    requires Solvent(b)
    requires forall i :: 0 <= i < |requests| && requests[i].PostRequest? ==> NamesOnce(requests[i].post.lines)
    ensures Solvent(Run(b, requests).0)
  {
    if requests != [] {
      var init := requests[..|requests| - 1];
      RequestsSolvent(b, init);
      StepSolvent(Run(b, init).0, requests[|requests| - 1]);
    }
  }

  /** No sequence of wallet and savings operations, however they fail, overdraws a guarded account. */
  lemma {:induction false} ProductsSolvent(b: Books, ops: seq<Operation>)
    requires Solvent(b)
    ensures Solvent(ApplyAll(b, ops))
  {
    if ops != [] {
      var init := ops[..|ops| - 1];
      ProductsSolvent(b, init);
      var before := ApplyAll(b, init);
      var requests := OperationIsRun(before, ops[|ops| - 1]);
      RequestsSolvent(before, requests);
    }
  }

  // ---- The savings lock ----

  /** `pocket` is an open savings pocket; `lockedUntil` is when it matures. */
  ghost predicate LockedPocket(b: Books, pocket: nat, lockedUntil: int) {
    && pocket < |b.accounts|
    && b.accounts[pocket].product == SAVINGS
    && b.accounts[pocket].normal == Credit
    && b.accounts[pocket].number != FLOAT
    && LockedUntil(b.accounts[pocket].terms) == lockedUntil
  }

  lemma {:induction false} LockedPocketStep(b: Books, op: Operation, pocket: nat, lockedUntil: int)
    requires LockedPocket(b, pocket, lockedUntil)
    requires op.WithdrawSavings? ==> op.now < lockedUntil || op.pocket != pocket
    ensures LockedPocket(Apply(b, op).0, pocket, lockedUntil)
    ensures Balance(b, pocket) == Balance(Apply(b, op).0, pocket)
  {
    match op
    case TransferP2P(from, to, amount, slip) =>
      PocketUntouched(b, "p2p_transfer", ByCustomer(b.accounts, from, WALLET), ByCustomer(b.accounts, to, WALLET), amount, slip, pocket);
    case ConfirmDeposit(customer, amount, slip) =>
      PocketUntouched(b, "deposit", ByNumber(b.accounts, FLOAT), ByCustomer(b.accounts, customer, WALLET), amount, slip, pocket);
    case RecordWithdrawal(customer, amount, slip) =>
      PocketUntouched(b, "withdrawal", ByCustomer(b.accounts, customer, WALLET), ByNumber(b.accounts, FLOAT), amount, slip, pocket);
    case RecordCardSettlement(customer, amount, slip) =>
      PocketUntouched(b, "card_settlement", ByCustomer(b.accounts, customer, WALLET), ByNumber(b.accounts, FLOAT), amount, slip, pocket);
    case OpenSavings(customer, number, rateBps, lockDays, amount, slip, now) =>
      var (grown, reply) := Open(b, PocketRow(customer, number, rateBps, lockDays, now));
      if reply.Opened? {
        PocketUntouched(grown, "savings_deposit", ByCustomer(grown.accounts, customer, WALLET), Some(reply.account), amount, slip, pocket);
      }
    case WithdrawSavings(customer, other, amount, slip, now) =>
      PocketUntouched(b, "savings_withdrawal", Some(other), ByCustomer(b.accounts, customer, WALLET), amount, slip, pocket);
  }

  lemma {:induction false} PocketUntouched(b: Books, entryType: string, debit: Option<nat>, credit: Option<nat>, amount: int, slip: Slip, pocket: nat)
    requires pocket < |b.accounts|
    ensures debit.Some? && credit.Some? && debit != Some(pocket) && credit != Some(pocket) ==>
              var after := MoveBetween(b, entryType, debit.value, credit.value, amount, slip).0;
              after.accounts == b.accounts && Balance(after, pocket) == Balance(b, pocket)
  {
    if debit.Some? && credit.Some? && Post(b, Move(entryType, debit.value, credit.value, amount, slip)).0 != b {
      MoveMovesMoney(b, entryType, debit.value, credit.value, amount, slip, pocket);
    }
  }

  /** Until it matures, no wallet or savings operation by anyone changes what a locked pocket holds. */
  lemma {:induction false} LockHolds(b: Books, ops: seq<Operation>, pocket: nat, lockedUntil: int)
    requires LockedPocket(b, pocket, lockedUntil)
    requires forall i :: 0 <= i < |ops| && ops[i].WithdrawSavings? ==> ops[i].now < lockedUntil
    ensures LockedPocket(ApplyAll(b, ops), pocket, lockedUntil)
    ensures Balance(ApplyAll(b, ops), pocket) == Balance(b, pocket)
  {
    if ops != [] {
      var init := ops[..|ops| - 1];
      LockHolds(b, init, pocket, lockedUntil);
      LockedPocketStep(ApplyAll(b, init), ops[|ops| - 1], pocket, lockedUntil);
    }
  }
}
