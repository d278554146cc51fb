/** The wallet and savings operations carried out on a ledger store. */
module WalletService {
  import opened Domain
  import opened Ledger
  import opened LedgerRuns
  import W = Wallet

  method PostMove(store: LedgerStore, entryType: string, debit: nat, credit: nat, amount: int, slip: W.Slip)
    returns (outcome: W.Outcome)
    modifies store
    ensures (store.View(), outcome) == W.MoveBetween(old(store.View()), entryType, debit, credit, amount, slip)
  {
    var reply := store.PostJournalEntry(W.Move(entryType, debit, credit, amount, slip));
    outcome := W.OutcomeOf(reply);
  }

  method TransferP2P(store: LedgerStore, from: string, to: string, amount: int, slip: W.Slip)
    returns (outcome: W.Outcome)
    modifies store
    ensures (store.View(), outcome) == W.Apply(old(store.View()), W.TransferP2P(from, to, amount, slip))
  {
    var fromId := W.ByCustomer(store.accounts, from, W.WALLET);
    if fromId.None? {
      return W.Failed(W.CustomerAccountNotFound);
    }
    var toId := W.ByCustomer(store.accounts, to, W.WALLET);
    if toId.None? {
      return W.Failed(W.CustomerAccountNotFound);
    }
    if fromId == toId {
      return W.Failed(W.SameAccount);
    }
    outcome := PostMove(store, "p2p_transfer", fromId.value, toId.value, amount, slip);
  }

  method ConfirmDeposit(store: LedgerStore, customer: string, amount: int, slip: W.Slip)
    returns (outcome: W.Outcome)
    modifies store
    ensures (store.View(), outcome) == W.Apply(old(store.View()), W.ConfirmDeposit(customer, amount, slip))
  {
    var customerId := W.ByCustomer(store.accounts, customer, W.WALLET);
    if customerId.None? {
      return W.Failed(W.CustomerAccountNotFound);
    }
    var floatId := W.ByNumber(store.accounts, W.FLOAT);
    if floatId.None? {
      return W.Failed(W.SystemAccountMissing);
    }
    outcome := PostMove(store, "deposit", floatId.value, customerId.value, amount, slip);
  }

  /** RecordWithdrawal and RecordCardSettlement differ only in the entry type. */
  method PayOut(store: LedgerStore, entryType: string, customer: string, amount: int, slip: W.Slip)
    returns (outcome: W.Outcome)
    modifies store
    ensures (store.View(), outcome) == W.PayOut(old(store.View()), entryType, customer, amount, slip)
  {
    var customerId := W.ByCustomer(store.accounts, customer, W.WALLET);
    if customerId.None? {
      return W.Failed(W.CustomerAccountNotFound);
    }
    var floatId := W.ByNumber(store.accounts, W.FLOAT);
    if floatId.None? {
      return W.Failed(W.SystemAccountMissing);
    }
    outcome := PostMove(store, entryType, customerId.value, floatId.value, amount, slip);
  }

  /** On a failure after the account is opened, the unfunded pocket stays. */
  method OpenSavingsAccount(store: LedgerStore, customer: string, number: string, rateBps: int, lockDays: int, amount: int, slip: W.Slip, now: int)
    returns (outcome: W.Outcome)
    modifies store
    ensures (store.View(), outcome)
            == W.Apply(old(store.View()), W.OpenSavings(customer, number, rateBps, lockDays, amount, slip, now))
  {
    var reply := store.OpenAccount(W.PocketRow(customer, number, rateBps, lockDays, now));
    if !reply.Opened? {
      return W.OutcomeOf(reply);
    }
    var walletId := W.ByCustomer(store.accounts, customer, W.WALLET);
    if walletId.None? {
      return W.Failed(W.CustomerAccountNotFound);
    }
    outcome := PostMove(store, "savings_deposit", walletId.value, reply.account, amount, slip);
  }

  method WithdrawSavings(store: LedgerStore, customer: string, pocket: nat, amount: int, slip: W.Slip, now: int)
    returns (outcome: W.Outcome)
    modifies store
    ensures (store.View(), outcome) == W.Apply(old(store.View()), W.WithdrawSavings(customer, pocket, amount, slip, now))
  {
    if |store.accounts| <= pocket || store.accounts[pocket].product != W.SAVINGS {
      return W.Failed(W.SavingsAccountNotFound);
    }
    var acc := store.accounts[pocket];
    if acc.customer != Some(customer) {
      return W.Failed(W.SavingsAccountNotOwned);
    }
    if now < W.LockedUntil(acc.terms) {
      return W.Failed(W.SavingsLocked);
    }
    var walletId := W.ByCustomer(store.accounts, customer, W.WALLET);
    if walletId.None? {
      return W.Failed(W.CustomerAccountNotFound);
    }
    outcome := PostMove(store, "savings_withdrawal", pocket, walletId.value, amount, slip);
  }

  // ---- Opening wallets ----

  /** Whatever product is asked for, the check is for an existing wallet. */
  method OpenAccount(store: LedgerStore, customer: string, product: string, number: string)
    returns (outcome: W.Outcome)
    modifies store
    ensures (store.View(), outcome) == OpenFor(old(store.View()), customer, product, number)
  {
    var productType := if product == "" then W.WALLET else product;
    var existing := W.ByCustomer(store.accounts, customer, W.WALLET);
    if existing.Some? {
      return W.Failed(W.CustomerAlreadyHasAccount);
    }
    var reply := store.OpenAccount(Account(number, Some(customer), productType, Credit, Active, false, NoTerms));
    outcome := W.OutcomeOf(reply);
  }

  function OpenFor(b: Books, customer: string, product: string, number: string): (Books, W.Outcome) {
    if W.ByCustomer(b.accounts, customer, W.WALLET).Some? then (b, W.Failed(W.CustomerAlreadyHasAccount))
    else
      var row := Account(number, Some(customer), if product == "" then W.WALLET else product, Credit, Active, false, NoTerms);
      var (after, reply) := Open(b, row);
      (after, W.OutcomeOf(reply))
  }

  /** No customer has two wallets, which is what makes resolving one unambiguous. */
  ghost predicate OneWalletEach(accounts: seq<Account>) {
    forall i, k :: 0 <= i < k < |accounts| ==>
      accounts[i].product != W.WALLET || accounts[k].product != W.WALLET
      || accounts[i].customer.None? || accounts[i].customer != accounts[k].customer
  }

  /** Opening accounts this way never gives a customer a second wallet, and nothing else opens wallets. */
  lemma {:induction false} OneWalletKept(b: Books, customer: string, product: string, number: string, later: Request)
    requires OneWalletEach(b.accounts)
    ensures OneWalletEach(OpenFor(b, customer, product, number).0.accounts)
    ensures (later.OpenRequest? ==> later.row.product != W.WALLET) ==> OneWalletEach(Step(b, later).0.accounts)
  {
    hide W.ByCustomer;
    hide Step;
    StepShape(b, later);
    RowsOnlyOpened(b, later);
  }

  /** Opening a customer's account as this service does, or any other ledger request. */
  datatype Opening = Opening(customer: string, product: string, number: string) | Other(request: Request)

  function OpenStep(b: Books, o: Opening): Books {
    match o
    case Opening(customer, product, number) => OpenFor(b, customer, product, number).0
    case Other(request) => Step(b, request).0
  }

  function OpenAll(b: Books, openings: seq<Opening>): Books {
    if openings == [] then b else OpenStep(OpenAll(b, openings[..|openings| - 1]), openings[|openings| - 1])
  }

  /** Over every run in which wallets are opened only this way, no customer has two, so resolving a customer is unambiguous. */
  lemma {:induction false} OneWalletAlways(openings: seq<Opening>)
    requires forall i :: 0 <= i < |openings| && openings[i].Other? && openings[i].request.OpenRequest? ==>
               openings[i].request.row.product != W.WALLET
    ensures OneWalletEach(OpenAll(EMPTY, openings).accounts)
  {
    hide Step;
    hide OpenFor;
    if openings != [] {
      var init, o := openings[..|openings| - 1], openings[|openings| - 1];
      OneWalletAlways(init);
      var before := OpenAll(EMPTY, init);
      match o {
        case Opening(customer, product, number) => OneWalletKept(before, customer, product, number, StatusRequest(0, Active));
        case Other(request) => OneWalletKept(before, "", "", "", request);
      }
    }
  }

  lemma {:induction false} RowsOnlyOpened(b: Books, later: Request)
    ensures var after := Step(b, later).0.accounts;
            |after| == |b.accounts|
            || (later.OpenRequest? && |after| == |b.accounts| + 1 && after[|b.accounts|] == later.row)
  {
    hide PostWithin;
    if later.PostRequest? {
      AccountsFixed(b, later.post, None);
    } else if later.ReverseRequest? && later.reverse.entryId < |b.journal| {
      AccountsFixed(b, ReversalInput(b.journal[later.reverse.entryId], later.reverse, later.loaded), Some(later.reverse.entryId));
    }
  }

  lemma {:induction false} AccountsFixed(b: Books, input: PostInput, reversalOf: Option<nat>)
    ensures PostWithin(b, input, reversalOf).0.accounts == b.accounts
  {
  }

  /** A wallet, or the product named, opened active, guarded and credit-normal; refused to whoever has a wallet, and when the number is taken. */
  lemma {:induction false} OpeningExactly(b: Books, customer: string, product: string, number: string)
    ensures var (after, outcome) := OpenFor(b, customer, product, number);
            var has := exists i :: 0 <= i < |b.accounts| && b.accounts[i].customer == Some(customer) && b.accounts[i].product == "wallet";
            var taken := exists i :: 0 <= i < |b.accounts| && b.accounts[i].number == number;
            var row := Account(number, Some(customer), if product == "" then "wallet" else product, Credit, Active, false, NoTerms);
            (after, outcome) == if has then (b, W.Failed(W.CustomerAlreadyHasAccount))
                                else if taken then (b, W.Failed(W.Refused(AccountNumberTaken)))
                                else (b.(accounts := b.accounts + [row]), W.Created(|b.accounts|))
  {
    hide W.ByCustomer;
  }
}
