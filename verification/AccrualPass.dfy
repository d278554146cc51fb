/**
 * One accrual pass over a tenant (services/ledger/internal/accrual/accrual.go):
 * every active savings pocket and loan listed when the pass began.
 */
module AccrualPass {
  import opened Domain
  import opened Ledger
  import opened Accrual
  import opened Provision
  import W = Wallet
  import Loan

  const INTEREST_EXPENSE := "SYS-INTEREST-EXPENSE"
  const INTEREST_INCOME := "SYS-INTEREST-INCOME"
  const LOAN_LOSS_PROVISION := "SYS-LOAN-LOSS-PROVISION"
  const LOAN_LOSS_RESERVE := "SYS-LOAN-LOSS-RESERVE"

  /** A product's active accounts, oldest first, among the first `n`. */
  function Listed(accounts: seq<Account>, product: string, n: nat): (ids: seq<nat>)
    requires n <= |accounts|
    ensures forall i :: 0 <= i < |ids| ==>
              ids[i] < n && accounts[ids[i]].product == product && accounts[ids[i]].status == Active
    ensures forall i, k :: 0 <= i < k < |ids| ==> ids[i] < ids[k]
  {
    if n == 0 then []
    else
      var earlier := Listed(accounts, product, n - 1);
      if accounts[n - 1].product == product && accounts[n - 1].status == Active then earlier + [n - 1] else earlier
  }

  /** Exactly the product's active accounts are listed. */
  lemma {:induction false} ListedExactly(accounts: seq<Account>, product: string, n: nat, a: nat)
    requires n <= |accounts|
    ensures a in Listed(accounts, product, n) <==> a < n && accounts[a].product == product && accounts[a].status == Active
  {
    if n != 0 {
      ListedExactly(accounts, product, n - 1, a);
    }
  }

  /** Interest for each listed account in turn, at the rate it was listed with. */
  function InterestPass(b: Books, kind: Kind, listing: seq<Account>, ids: seq<nat>, counter: nat, day: string): (after: Books)
    requires |listing| <= |b.accounts| && forall i :: 0 <= i < |ids| ==> ids[i] < |listing|
    ensures after.accounts == b.accounts
  {
    if ids == [] then b
    else
      var last := ids[|ids| - 1];
      var before := InterestPass(b, kind, listing, ids[..|ids| - 1], counter, day);
      AccrueDay(before, kind, last, counter, RateOf(listing[last].terms), day)
  }

  /** A loan's interest, then its provision if the tenant has the accounts for it. */
  function LoanDay(b: Books, loan: nat, listed: Terms, income: nat, accounts: Option<Accounts>, day: string, asOf: int, written: bool): (after: Books)
    requires loan < |b.accounts|
    ensures |after.accounts| == |b.accounts|
  {
    var accrued := AccrueDay(b, LoanInterest, loan, income, RateOf(listed), day);
    if accounts.None? || !listed.Loan? then accrued
    else Tick(accrued, loan, accounts.value, listed, asOf, written)
  }

  function LoanPass(b: Books, listing: seq<Account>, ids: seq<nat>, income: nat, accounts: Option<Accounts>, day: string, asOf: int, written: nat -> bool): (after: Books)
    requires |listing| <= |b.accounts| && forall i :: 0 <= i < |ids| ==> ids[i] < |listing|
    ensures |after.accounts| == |b.accounts|
  {
    if ids == [] then b
    else
      var last := ids[|ids| - 1];
      var before := LoanPass(b, listing, ids[..|ids| - 1], income, accounts, day, asOf, written);
      LoanDay(before, last, listing[last].terms, income, accounts, day, asOf, written(last))
  }

  function ReserveAccounts(listing: seq<Account>): Option<Accounts> {
    var expense, reserve := W.ByNumber(listing, LOAN_LOSS_PROVISION), W.ByNumber(listing, LOAN_LOSS_RESERVE);
    if expense.None? || reserve.None? then None else Some(Accounts(expense.value, reserve.value))
  }

  /** A tenant that has a product but not the account its interest is posted against gets no pass at all. */
  function TenantPass(b: Books, day: string, asOf: int, written: nat -> bool): Books {
    var listing := b.accounts;
    var pockets, loans := Listed(listing, W.SAVINGS, |listing|), Listed(listing, Loan.LOAN, |listing|);
    var expense, income := W.ByNumber(listing, INTEREST_EXPENSE), W.ByNumber(listing, INTEREST_INCOME);
    if (pockets != [] && expense.None?) || (loans != [] && income.None?) then b
    else
      var accrued := if pockets == [] then b else InterestPass(b, SavingsInterest, listing, pockets, expense.value, day);
      if loans == [] then accrued
      else LoanPass(accrued, listing, loans, income.value, ReserveAccounts(listing), day, asOf, written)
  }

  method AccrueTenant(store: LedgerStore, day: string, asOf: int, written: nat -> bool)
    modifies store
    ensures store.View() == TenantPass(old(store.View()), day, asOf, written)
  {
    hide AccrueDay;
    hide Tick;
    var listing := store.accounts;
    var savingsAccounts := Listed(listing, W.SAVINGS, |listing|);
    var loanAccounts := Listed(listing, Loan.LOAN, |listing|);
    var expense := W.ByNumber(listing, INTEREST_EXPENSE);
    var income := W.ByNumber(listing, INTEREST_INCOME);
    if savingsAccounts != [] && expense.None? {
      return;
    }
    if loanAccounts != [] && income.None? {
      return;
    }
    if savingsAccounts != [] {
      PaySavings(store, listing, savingsAccounts, expense.value, day);
    }
    if loanAccounts != [] {
      ChargeLoans(store, listing, loanAccounts, income.value, ReserveAccounts(listing), day, asOf, written);
    }
  }

  method PaySavings(store: LedgerStore, listing: seq<Account>, ids: seq<nat>, expense: nat, day: string)
    requires |listing| <= |store.accounts| && forall i :: 0 <= i < |ids| ==> ids[i] < |listing|
    modifies store
    ensures store.View() == InterestPass(old(store.View()), SavingsInterest, listing, ids, expense, day)
  {
    hide AccrueDay;
    assert ids[..0] == [];
    for i := 0 to |ids|
      invariant |store.View().accounts| == |old(store.View()).accounts|
      invariant store.View() == InterestPass(old(store.View()), SavingsInterest, listing, ids[..i], expense, day)
    {
      assert ids[..i + 1][..i] == ids[..i];
      PostInterest(store, SavingsInterest, ids[i], expense, RateOf(listing[ids[i]].terms), day);
    }
    assert ids[..|ids|] == ids;
  }

  method ChargeLoans(store: LedgerStore, listing: seq<Account>, ids: seq<nat>, income: nat, accounts: Option<Accounts>, day: string, asOf: int, written: nat -> bool)
    requires |listing| <= |store.accounts| && forall i :: 0 <= i < |ids| ==> ids[i] < |listing|
    modifies store
    ensures store.View() == LoanPass(old(store.View()), listing, ids, income, accounts, day, asOf, written)
  {
    hide AccrueDay;
    hide Tick;
    assert ids[..0] == [];
    for i := 0 to |ids|
      invariant |store.View().accounts| == |old(store.View()).accounts|
      invariant store.View() == LoanPass(old(store.View()), listing, ids[..i], income, accounts, day, asOf, written)
    {
      assert ids[..i + 1][..i] == ids[..i];
      var terms := listing[ids[i]].terms;
      PostInterest(store, LoanInterest, ids[i], income, RateOf(terms), day);
      if accounts.Some? && terms.Loan? {
        PostLoanProvision(store, ids[i], accounts.value, terms, asOf, written(ids[i]));
      }
    }
    assert ids[..|ids|] == ids;
  }

  // ---- Each account gets its own interest ----

  lemma {:induction false} InterestKeyPerAccount(kind: Kind, a: nat, c: nat, day: string)
    requires InterestKey(kind, a, day) == InterestKey(kind, c, day)
    ensures a == c
  {
    var prefix, tail := if kind.SavingsInterest? then "interest:" else "loan-interest:", ":" + day;
    var x, y := InterestKey(kind, a, day), InterestKey(kind, c, day);
    assert x == prefix + Decimal(a) + tail && y == prefix + Decimal(c) + tail;
    assert x[|prefix|..|x| - |tail|] == Decimal(a) && y[|prefix|..|y| - |tail|] == Decimal(c);
    DecimalInjective(a, c);
  }

  /** Every listed account can accrue, none is the counter account, and none has had this day's interest. */
  ghost predicate ReadyToAccrue(b: Books, kind: Kind, listing: seq<Account>, ids: seq<nat>, counter: nat, day: string) {
    && |listing| <= |b.accounts|
    && (forall i :: 0 <= i < |ids| ==>
          && ids[i] < |listing|
          && Accruing(b, kind, ids[i], counter)
          && 0 <= Balance(b, ids[i])
          && 0 <= RateOf(listing[ids[i]].terms)
          && W.Unused(b.journal, InterestKey(kind, ids[i], day)))
    && (forall i, k :: 0 <= i < k < |ids| ==> ids[i] != ids[k])
  }

  /** What one account's interest does to every other account but the counter, and to their keys. */
  lemma {:induction false} OthersUntouched(b: Books, kind: Kind, account: nat, counter: nat, rateBps: nat, day: string, other: nat)
    requires Accruing(b, kind, account, counter) && 0 <= Balance(b, account)
    requires W.Unused(b.journal, InterestKey(kind, account, day))
    requires other < |b.accounts| && other != account && other != counter
    ensures var after := AccrueDay(b, kind, account, counter, rateBps, day);
            && Balance(after, other) == Balance(b, other)
            && (W.Unused(b.journal, InterestKey(kind, other, day)) ==> W.Unused(after.journal, InterestKey(kind, other, day)))
  {
    hide Balance;
    hide DailyInterest;
    hide InterestKey;
    var after := AccrueDay(b, kind, account, counter, rateBps, day);
    InterestPosts(b, kind, account, counter, rateBps, day);
    if InterestKey(kind, account, day) == InterestKey(kind, other, day) {
      InterestKeyPerAccount(kind, account, other, day);
    }
    if after != b {
      hide Post;
      var input := InterestMove(kind, account, counter, DailyInterest(Balance(b, account), rateBps), day);
      W.MoveMovesMoney(b, input.entryType, input.lines[0].account, input.lines[1].account, input.lines[0].amount,
                       W.Slip(input.reference, input.key, input.description), other);
    }
  }

  /**
   * A pass pays every listed account exactly one day of its own interest,
   * whatever the other accounts are and however they are ordered, and touches
   * nobody else but the counter account.
   */
  lemma {:induction false} PassPaysEach(b: Books, kind: Kind, listing: seq<Account>, ids: seq<nat>, counter: nat, day: string, a: nat)
    requires ReadyToAccrue(b, kind, listing, ids, counter, day) && a < |b.accounts| && a != counter
    ensures var after := InterestPass(b, kind, listing, ids, counter, day);
            && Balance(after, a)
               == Balance(b, a) + (if a in ids then DailyInterest(Balance(b, a), RateOf(listing[a].terms)) else 0)
            && (a !in ids && W.Unused(b.journal, InterestKey(kind, a, day)) ==>
                  W.Unused(after.journal, InterestKey(kind, a, day)))
  {
    hide AccrueDay;
    hide Balance;
    hide DailyInterest;
    hide W.Unused;
    if ids != [] {
      var init, last := ids[..|ids| - 1], ids[|ids| - 1];
      assert last !in init;
      PassPaysEach(b, kind, listing, init, counter, day, a);
      PassPaysEach(b, kind, listing, init, counter, day, last);
      var before := InterestPass(b, kind, listing, init, counter, day);
      assert Accruing(before, kind, last, counter);
      var rateBps := RateOf(listing[last].terms);
      InterestPosts(before, kind, last, counter, rateBps, day);
      if a != last {
        OthersUntouched(before, kind, last, counter, rateBps, day, a);
      }
    }
  }
}
