/** The lending lifecycle (services/ledger/internal/loan/loan.go). */
module Loan {
  import opened Sums
  import opened Domain
  import opened Ledger
  import opened LedgerRuns
  import opened Overdraft
  import W = Wallet

  const LOAN := "loan"

  // ---- Delinquency ----

  /** Whole days since maturity; 0 until a full day has passed. */
  function DaysPastDue(maturity: Option<int>, asOf: int): (days: nat)
    ensures days == 0 <==> maturity.None? || asOf < maturity.value + W.DAY
    ensures 0 < days ==> maturity.value + days * W.DAY <= asOf < maturity.value + (days + 1) * W.DAY
  {
    if maturity.None? || asOf <= maturity.value then 0 else (asOf - maturity.value) / W.DAY
  }

  datatype Bucket = Current | UpTo30 | UpTo60 | UpTo90 | Over90

  function BucketOf(daysPastDue: int): Bucket {
    if daysPastDue <= 0 then Current
    else if daysPastDue <= 30 then UpTo30
    else if daysPastDue <= 60 then UpTo60
    else if daysPastDue <= 90 then UpTo90
    else Over90
  }

  // ---- Operations ----

  datatype Failure =
    | LoanNotFound
    | LoanNotOwned
    | LoanNotPending(status: Status)
    | LoanNotActive(actual: Status)
    | CustomerAccountNotFound
    | Refused(error: Error)

  datatype Outcome = Done(entry: nat) | Failed(failure: Failure)

  function OutcomeOf(reply: Reply): Outcome {
    match reply
    case Posted(id) => Done(id)
    case Rejected(error) => Failed(Refused(error))
    case _ => Failed(LoanNotFound)
  }

  function LoanRow(customer: string, number: string, principal: int, rateBps: int, tenorDays: int): Account {
    Account(number, Some(customer), LOAN, Debit, Pending, false, Terms.Loan(principal, rateBps, tenorDays, None, 0))
  }

  function Originate(b: Books, customer: string, number: string, principal: int, rateBps: int, tenorDays: int): (Books, Reply) {
    Open(b, LoanRow(customer, number, principal, rateBps, tenorDays))
  }

  predicate IsLoan(b: Books, loan: nat) {
    loan < |b.accounts| && b.accounts[loan].product == LOAN && b.accounts[loan].terms.Loan?
  }

  /** First transaction: the one move out of PENDING there is. */
  function Claim(b: Books, loan: nat): (Books, Option<Failure>) {
    if !IsLoan(b, loan) then (b, Some(LoanNotFound))
    else if b.accounts[loan].status != Pending then (b, Some(LoanNotPending(b.accounts[loan].status)))
    else (SetStatus(b, loan, Active).0, None)
  }

  /** A loan with no customer cannot be paid out. */
  function WalletOf(b: Books, loan: nat): Option<nat> {
    if loan < |b.accounts| && b.accounts[loan].customer.Some?
    then W.ByCustomer(b.accounts, b.accounts[loan].customer.value, W.WALLET)
    else None
  }

  /** Second transaction: the money. */
  function PayOut(b: Books, loan: nat, principal: int, slip: W.Slip): (Books, Outcome) {
    var wallet := WalletOf(b, loan);
    if wallet.None? then (b, Failed(CustomerAccountNotFound))
    else
      var (after, reply) := Post(b, W.Move("loan_disbursement", loan, wallet.value, principal, slip));
      (after, OutcomeOf(reply))
  }

  /** Third transaction, whose failure is ignored: the maturity date. */
  function Mature(b: Books, loan: nat, now: int, written: bool): Books {
    if written && IsLoan(b, loan) then
      SetTerms(b, loan, b.accounts[loan].terms.(maturity := Some(now + b.accounts[loan].terms.tenorDays * W.DAY))).0
    else b
  }

  function Disburse(b: Books, loan: nat, slip: W.Slip, now: int, written: bool): (Books, Outcome) {
    var (claimed, refusal) := Claim(b, loan);
    if refusal.Some? then (claimed, Failed(refusal.value))
    else
      var (paid, outcome) := PayOut(claimed, loan, b.accounts[loan].terms.principalKobo, slip);
      (if outcome.Done? then Mature(paid, loan, now, written) else paid, outcome)
  }

  /** The check that opens a repayment. */
  function RepayRefusal(b: Books, customer: string, loan: nat): Option<Failure> {
    if !IsLoan(b, loan) then Some(LoanNotFound)
    else if b.accounts[loan].customer != Some(customer) then Some(LoanNotOwned)
    else if b.accounts[loan].status != Active then Some(LoanNotActive(b.accounts[loan].status))
    else None
  }

  function TakeRepayment(b: Books, customer: string, loan: nat, amount: int, slip: W.Slip): (Books, Outcome) {
    var wallet := W.ByCustomer(b.accounts, customer, W.WALLET);
    if wallet.None? then (b, Failed(CustomerAccountNotFound))
    else
      var (after, reply) := Post(b, W.Move("loan_repayment", wallet.value, loan, amount, slip));
      (after, OutcomeOf(reply))
  }

  function Repay(b: Books, customer: string, loan: nat, amount: int, slip: W.Slip): (Books, Outcome) {
    var refusal := RepayRefusal(b, customer, loan);
    if refusal.Some? then (b, Failed(refusal.value))
    else
      var (after, outcome) := TakeRepayment(b, customer, loan, amount, slip);
      if outcome.Done? && loan < |after.accounts| && Balance(after, loan) == 0
      then (SetStatus(after, loan, Closed).0, outcome)
      else (after, outcome)
  }

  method OriginateLoan(store: LedgerStore, customer: string, number: string, principal: int, rateBps: int, tenorDays: int) returns (reply: Reply)
    modifies store
    ensures (store.View(), reply) == Originate(old(store.View()), customer, number, principal, rateBps, tenorDays)
  {
    reply := store.OpenAccount(LoanRow(customer, number, principal, rateBps, tenorDays));
  }

  method DisburseLoan(store: LedgerStore, loan: nat, slip: W.Slip, now: int, written: bool) returns (outcome: Outcome)
    modifies store
    ensures (store.View(), outcome) == Disburse(old(store.View()), loan, slip, now, written)
  {
    if |store.accounts| <= loan || store.accounts[loan].product != LOAN || !store.accounts[loan].terms.Loan? {
      return Failed(LoanNotFound);
    }
    var acc := store.accounts[loan];
    if acc.status != Pending {
      return Failed(LoanNotPending(acc.status));
    }
    var updated := store.UpdateStatus(loan, Active);
    var walletId := WalletOf(store.View(), loan);
    if walletId.None? {
      return Failed(CustomerAccountNotFound);
    }
    var reply := store.PostJournalEntry(W.Move("loan_disbursement", loan, walletId.value, acc.terms.principalKobo, slip));
    if !reply.Posted? {
      return OutcomeOf(reply);
    }
    if written {
      updated := store.UpdateTerms(loan, acc.terms.(maturity := Some(now + acc.terms.tenorDays * W.DAY)));
    }
    return OutcomeOf(reply);
  }

  method RepayLoan(store: LedgerStore, customer: string, loan: nat, amount: int, slip: W.Slip) returns (outcome: Outcome)
    modifies store
    ensures (store.View(), outcome) == Repay(old(store.View()), customer, loan, amount, slip)
  {
    var refusal := RepayRefusal(store.View(), customer, loan);
    if refusal.Some? {
      return Failed(refusal.value);
    }
    var walletId := W.ByCustomer(store.accounts, customer, W.WALLET);
    if walletId.None? {
      return Failed(CustomerAccountNotFound);
    }
    var reply := store.PostJournalEntry(W.Move("loan_repayment", walletId.value, loan, amount, slip));
    outcome := OutcomeOf(reply);
    if reply.Posted? && Balance(store.View(), loan) == 0 {
      var updated := store.UpdateStatus(loan, Closed);
    }
  }

  // ---- A closed loan is settled for good ----

  /** Handlers run one at a time; anyone may also post and reverse entries. */
  datatype Handled =
    | HandleDisburse(loan: nat, slip: W.Slip, now: int, written: bool)
    | HandleRepay(customer: string, loan: nat, amount: int, slip: W.Slip)
    | HandleOther(request: Request)

  function Handle(b: Books, h: Handled): Books {
    match h
    case HandleDisburse(loan, slip, now, written) => Disburse(b, loan, slip, now, written).0
    case HandleRepay(customer, loan, amount, slip) => Repay(b, customer, loan, amount, slip).0
    case HandleOther(request) => Step(b, request).0
  }

  function HandleAll(b: Books, hs: seq<Handled>): Books {
    if hs == [] then b else Handle(HandleAll(b, hs[..|hs| - 1]), hs[|hs| - 1])
  }

  ghost predicate ClosedIsSettled(b: Books) {
    && Sound(b)
    && forall a :: 0 <= a < |b.accounts| && b.accounts[a].status == Closed ==> Balance(b, a) == 0
  }

  /** No entry can name an account that is not active. */
  lemma {:induction false} InactiveUntouched(b: Books, r: Request, a: nat)
    requires a < |b.accounts| && b.accounts[a].status != Active
    ensures a < |Step(b, r).0.accounts| && Balance(Step(b, r).0, a) == Balance(b, a)
  {
    StepShape(b, r);
    var after := Step(b, r).0;
    if after.journal != b.journal {
      match r {
        case PostRequest(post) => InactivePost(b, post, None, a);
        case ReverseRequest(reverse, loaded) =>
          InactivePost(b, ReversalInput(b.journal[reverse.entryId], reverse, loaded), Some(reverse.entryId), a);
      }
    }
  }

  lemma {:induction false} NotNamed(lines: seq<LineInput>, a: nat, side: Side)
    requires forall i :: 0 <= i < |lines| ==> lines[i].account != a
    ensures Sum(lines, OnInput(a, side)) == 0
  {
    if lines != [] {
      NotNamed(lines[..|lines| - 1], a, side);
    }
  }

  lemma {:induction false} InactivePost(b: Books, input: PostInput, reversalOf: Option<nat>, a: nat)
    requires a < |b.accounts| && b.accounts[a].status != Active
    ensures a < |PostWithin(b, input, reversalOf).0.accounts|
    ensures Balance(PostWithin(b, input, reversalOf).0, a) == Balance(b, a)
  {
    if PostWithin(b, input, reversalOf).0 != b {
      PostMoves(b, input, reversalOf, a);
      forall i | 0 <= i < |input.lines| ensures input.lines[i].account != a {
        assert LineGuard(b, input.lines[i]).None?;
      }
      NotNamed(input.lines, a, Debit);
      NotNamed(input.lines, a, Credit);
    }
  }

  lemma {:induction false} RequestKeepsSettled(b: Books, r: Request)
    requires ClosedIsSettled(b)
    requires !r.StatusRequest? && (r.OpenRequest? ==> r.row.status != Closed)
    ensures ClosedIsSettled(Step(b, r).0)
  {
    hide Balance;
    hide Step;
    StepSound(b, r);
    var after := Step(b, r).0;
    forall a | 0 <= a < |after.accounts| && after.accounts[a].status == Closed
      ensures Balance(after, a) == 0
    {
      ClosedBefore(b, r, a);
      InactiveUntouched(b, r, a);
    }
  }

  lemma {:induction false} ClosedBefore(b: Books, r: Request, a: nat)
    requires !r.StatusRequest? && (r.OpenRequest? ==> r.row.status != Closed)
    requires a < |Step(b, r).0.accounts| && Step(b, r).0.accounts[a].status == Closed
    ensures a < |b.accounts| && b.accounts[a].status == Closed
  {
    hide Balance;
    hide GuardError;
    hide FindKey;
  }

  lemma {:induction false} StatusKeepsSettled(b: Books, loan: nat, status: Status)
    requires ClosedIsSettled(b) && loan < |b.accounts|
    requires status == Closed ==> Balance(b, loan) == 0
    ensures ClosedIsSettled(SetStatus(b, loan, status).0)
  {
    StepSound(b, StatusRequest(loan, status));
    var after := SetStatus(b, loan, status).0;
    forall a | 0 <= a < |after.accounts| ensures Balance(after, a) == Balance(b, a) {}
  }

  lemma {:induction false} MatureKeepsSettled(b: Books, loan: nat, now: int, written: bool)
    requires ClosedIsSettled(b)
    ensures ClosedIsSettled(Mature(b, loan, now, written))
  {
    if Mature(b, loan, now, written) != b {
      RequestKeepsSettled(b, TermsRequest(loan, b.accounts[loan].terms.(maturity := Some(now + b.accounts[loan].terms.tenorDays * W.DAY))));
    }
  }

  lemma {:induction false} DisburseKeepsSettled(b: Books, loan: nat, slip: W.Slip, now: int, written: bool)
    requires ClosedIsSettled(b)
    ensures ClosedIsSettled(Disburse(b, loan, slip, now, written).0)
  {
    var (claimed, refusal) := Claim(b, loan);
    if refusal.None? {
      StatusKeepsSettled(b, loan, Active);
      var principal := b.accounts[loan].terms.principalKobo;
      if WalletOf(claimed, loan).Some? {
        RequestKeepsSettled(claimed, PostRequest(W.Move("loan_disbursement", loan, WalletOf(claimed, loan).value, principal, slip)));
      }
      MatureKeepsSettled(PayOut(claimed, loan, principal, slip).0, loan, now, written);
    }
  }

  lemma {:induction false} RepayKeepsSettled(b: Books, customer: string, loan: nat, amount: int, slip: W.Slip)
    requires ClosedIsSettled(b)
    ensures ClosedIsSettled(Repay(b, customer, loan, amount, slip).0)
  {
    var wallet := W.ByCustomer(b.accounts, customer, W.WALLET);
    if RepayRefusal(b, customer, loan).None? && wallet.Some? {
      var post := PostRequest(W.Move("loan_repayment", wallet.value, loan, amount, slip));
      RequestKeepsSettled(b, post);
      var after := Step(b, post).0;
      StepShape(b, post);
      if Balance(after, loan) == 0 {
        StatusKeepsSettled(after, loan, Closed);
      }
    }
  }

  lemma {:induction false} HandledKeepsSettled(b: Books, h: Handled)
    requires ClosedIsSettled(b)
    requires h.HandleOther? ==> !h.request.StatusRequest? && (h.request.OpenRequest? ==> h.request.row.status != Closed)
    ensures ClosedIsSettled(Handle(b, h))
  {
    match h
    case HandleDisburse(loan, slip, now, written) => DisburseKeepsSettled(b, loan, slip, now, written);
    case HandleRepay(customer, loan, amount, slip) => RepayKeepsSettled(b, customer, loan, amount, slip);
    case HandleOther(request) => RequestKeepsSettled(b, request);
  }

  /**
   * With handlers run one at a time, whatever else is posted or reversed
   * around them, a CLOSED account owes nothing and never will.
   */
  lemma {:induction false} ClosedOwesNothing(b: Books, hs: seq<Handled>)
    requires ClosedIsSettled(b)
    requires forall i :: 0 <= i < |hs| && hs[i].HandleOther? ==>
               !hs[i].request.StatusRequest? && (hs[i].request.OpenRequest? ==> hs[i].request.row.status != Closed)
    ensures ClosedIsSettled(HandleAll(b, hs))
  {
    if hs != [] {
      ClosedOwesNothing(b, hs[..|hs| - 1]);
      HandledKeepsSettled(HandleAll(b, hs[..|hs| - 1]), hs[|hs| - 1]);
    }
  }
}
