/**
 * One loan under full interleaving: disbursements, repayments, interest and
 * provisioning passes advance one transaction at a time, may crash between
 * transactions, and act on what they read earlier.
 */
module LoanRuns {
  import opened Sums
  import opened Domain
  import opened Ledger
  import opened LedgerRuns
  import opened Overdraft
  import opened Accrual
  import opened Loan
  import P = Provision
  import W = Wallet

  /** Where a caller stands between two of its transactions. */
  datatype Caller =
    | Gone
    | Claimed(slip: W.Slip, terms: Terms)
    | Writing(newTerms: Terms)
    | Checked(customer: string, amount: int, repaySlip: W.Slip)
    | Repaid
    | SawZero
    | SawBalance(balance: int, rateBps: int, counter: nat, day: string)
    | Listing(listed: Terms)

  datatype System = System(books: Books, callers: seq<Caller>)

  datatype LoanEvent =
    | BeginDisburse(slip: W.Slip)
    | PostDisburse(caller: nat, now: int)
    | WriteTerms(caller: nat)
    | BeginRepay(customer: string, amount: int, repaySlip: W.Slip)
    | PostRepay(caller: nat)
    | ReadAfterRepay(caller: nat)
    | CloseRepaid(caller: nat)
    | ReadForInterest(counter: nat, day: string)
    | PostInterest(caller: nat)
    | ReadForProvision
    | PostProvision(caller: nat, accounts: P.Accounts, asOf: int)
    | Crash(caller: nat)
    | Elsewhere(request: Request)

  function Goes(s: System, i: nat, next: Caller): System
    requires i < |s.callers|
  {
    s.(callers := s.callers[i := next])
  }

  function Joins(s: System, caller: Caller): System {
    s.(callers := s.callers + [caller])
  }

  predicate At(s: System, i: nat, stage: Caller -> bool) {
    i < |s.callers| && stage(s.callers[i])
  }

  /** A provisioning pass posts the shortfall against the terms it listed, and then has them to write. */
  function Provide(b: Books, loan: nat, listed: Terms, accounts: P.Accounts, asOf: int): (Books, Caller)
    requires loan < |b.accounts| && listed.Loan?
  {
    var (after, terms) := P.PostShortfall(b, loan, accounts, listed, asOf);
    (after, if terms.Some? then Writing(terms.value) else Gone)
  }

  /** An event that does not apply changes nothing. */
  function Happen(s: System, loan: nat, e: LoanEvent): System {
    match e
    case BeginDisburse(slip) =>
      var (after, refusal) := Claim(s.books, loan);
      if refusal.Some? then s
      else Joins(s.(books := after), Claimed(slip, s.books.accounts[loan].terms))
    case PostDisburse(i, now) =>
      if !At(s, i, (c: Caller) => c.Claimed? && c.terms.Loan?) then s
      else
        var c := s.callers[i];
        var (after, outcome) := PayOut(s.books, loan, c.terms.principalKobo, c.slip);
        Goes(s.(books := after), i,
             if outcome.Done? then Writing(c.terms.(maturity := Some(now + c.terms.tenorDays * W.DAY))) else Gone)
    case WriteTerms(i) =>
      if !At(s, i, (c: Caller) => c.Writing?) then s
      else Goes(s.(books := SetTerms(s.books, loan, s.callers[i].newTerms).0), i, Gone)
    case BeginRepay(customer, amount, slip) =>
      if RepayRefusal(s.books, customer, loan).Some? then s else Joins(s, Checked(customer, amount, slip))
    case PostRepay(i) =>
      if !At(s, i, (c: Caller) => c.Checked?) then s
      else
        var c := s.callers[i];
        var (after, outcome) := TakeRepayment(s.books, c.customer, loan, c.amount, c.repaySlip);
        Goes(s.(books := after), i, if outcome.Done? then Repaid else Gone)
    case ReadAfterRepay(i) =>
      if !At(s, i, (c: Caller) => c.Repaid?) || |s.books.accounts| <= loan then s
      else Goes(s, i, if Balance(s.books, loan) == 0 then SawZero else Gone)
    case CloseRepaid(i) =>
      if !At(s, i, (c: Caller) => c.SawZero?) then s
      else Goes(s.(books := SetStatus(s.books, loan, Closed).0), i, Gone)
    case ReadForInterest(counter, day) =>
      if !IsLoan(s.books, loan) || s.books.accounts[loan].status != Active then s
      else Joins(s, SawBalance(Balance(s.books, loan), s.books.accounts[loan].terms.loanRateBps, counter, day))
    case PostInterest(i) =>
      if !At(s, i, (c: Caller) => c.SawBalance?) then s
      else
        var c := s.callers[i];
        var interest := DailyInterest(c.balance, c.rateBps);
        if c.balance <= 0 || interest <= 0 then Goes(s, i, Gone)
        else Goes(s.(books := Post(s.books, InterestMove(LoanInterest, loan, c.counter, interest, c.day)).0), i, Gone)
    case ReadForProvision =>
      if !IsLoan(s.books, loan) || s.books.accounts[loan].status != Active then s
      else Joins(s, Listing(s.books.accounts[loan].terms))
    case PostProvision(i, accounts, asOf) =>
      if !At(s, i, (c: Caller) => c.Listing? && c.listed.Loan?) || |s.books.accounts| <= loan then s
      else
        var (after, next) := Provide(s.books, loan, s.callers[i].listed, accounts, asOf);
        Goes(s.(books := after), i, next)
    case Crash(i) =>
      if |s.callers| <= i then s else Goes(s, i, Gone)
    case Elsewhere(request) =>
      s.(books := Step(s.books, request).0)
  }

  function HappenAll(s: System, loan: nat, events: seq<LoanEvent>): System {
    if events == [] then s else Happen(HappenAll(s, loan, events[..|events| - 1]), loan, events[|events| - 1])
  }

  // ---- What the loan's entries are ----

  predicate Names(e: Entry, loan: nat) {
    exists i :: 0 <= i < |e.lines| && e.lines[i].account == loan
  }

  function OfType(loan: nat, entryType: string): Entry -> int {
    (e: Entry) => if e.entryType == entryType then Net(e.lines, loan, Debit) else 0
  }

  function DisbursementsOf(loan: nat): Entry -> int {
    (e: Entry) => if e.entryType == "loan_disbursement" && Names(e, loan) then 1 else 0
  }

  const CLAIMS: Caller -> int := (c: Caller) => if c.Claimed? then 1 else 0

  /** Every entry naming the loan pays out its principal, adds interest, takes a repayment, or reverses an entry. */
  predicate LoanEntry(e: Entry, loan: nat, principal: int) {
    Names(e, loan) ==>
      var net := Net(e.lines, loan, Debit);
      || (e.entryType == "loan_disbursement" && net == principal)
      || (e.entryType == "loan_interest_accrual" && 0 < net)
      || (e.entryType == "loan_repayment" && net < 0)
      || e.entryType == "reversal"
  }

  ghost predicate LoanKept(b: Books, loan: nat, principal: int) {
    && loan < |b.accounts|
    && b.accounts[loan].product == LOAN && b.accounts[loan].normal == Debit && !b.accounts[loan].allowNegative
    && OfPrincipal(b.accounts[loan].terms, principal)
  }

  /** Every entry ever written that names the loan is one of the loan's own. */
  ghost predicate LoanEntries(journal: seq<Entry>, loan: nat, principal: int) {
    forall i :: 0 <= i < |journal| ==> LoanEntry(journal[i], loan, principal)
  }

  predicate OfPrincipal(terms: Terms, principal: int) {
    terms.Loan? && terms.principalKobo == principal
  }

  /** Whatever terms a caller carries are the loan's, up to maturity and provision; interest is posted against another account. */
  predicate Carries(c: Caller, loan: nat, principal: int) {
    && (c.Claimed? ==> OfPrincipal(c.terms, principal))
    && (c.Writing? ==> OfPrincipal(c.newTerms, principal))
    && (c.Listing? ==> OfPrincipal(c.listed, principal))
    && (c.SawBalance? ==> c.counter != loan)
  }

  ghost predicate Consistent(s: System, loan: nat, principal: int) {
    && LoanKept(s.books, loan, principal)
    && LoanEntries(s.books.journal, loan, principal)
    && (forall i :: 0 <= i < |s.callers| ==> Carries(s.callers[i], loan, principal))
    && Sum(s.callers, CLAIMS) + Sum(s.books.journal, DisbursementsOf(loan))
       <= if s.books.accounts[loan].status == Pending then 0 else 1
  }

  /**
   * Other ledger traffic: posts that do not name the loan, any reversal, and
   * anything that does not rewrite the loan's row.
   */
  ghost predicate Foreign(b: Books, request: Request, loan: nat) {
    && (request.PostRequest? ==> NamesOnce(request.post.lines))
    && (request.StatusRequest? || request.TermsRequest? ==> request.target != loan)
    && var after := Step(b, request).0;
       request.PostRequest? && |after.journal| > |b.journal| ==> !Names(after.journal[|b.journal|], loan)
  }

  ghost predicate AllForeign(s: System, loan: nat, events: seq<LoanEvent>) {
    forall i :: 0 <= i < |events| && events[i].Elsewhere? ==>
      Foreign(HappenAll(s, loan, events[..i]).books, events[i].request, loan)
  }

  // ---- Preservation ----

  /** What one written movement adds to the loan's history. */
  lemma {:induction false} MoveEntry(b: Books, entryType: string, debit: nat, credit: nat, amount: int, slip: W.Slip, loan: nat)
    requires debit != credit && (debit == loan || credit == loan)
    requires Post(b, W.Move(entryType, debit, credit, amount, slip)).0 != b
    ensures var after := Post(b, W.Move(entryType, debit, credit, amount, slip)).0;
            && |after.journal| == |b.journal| + 1 && after.journal[..|b.journal|] == b.journal
            && after.accounts == b.accounts && 0 < amount
            && var e := after.journal[|b.journal|];
               && e.entryType == entryType
               && Names(e, loan)
               && Net(e.lines, loan, Debit) == if debit == loan then amount else -amount
  {
    var input := W.Move(entryType, debit, credit, amount, slip);
    W.MoveWellFormed(entryType, debit, credit, amount, slip);
    W.MoveSums(entryType, debit, credit, amount, slip, loan, Debit);
    W.MoveSums(entryType, debit, credit, amount, slip, loan, Credit);
    StoredNet(input, loan, Debit);
    StoredNet(input, loan, Credit);
    var e := NewEntry(input, None);
    assert e.lines[0].account == debit && e.lines[1].account == credit;
  }

  /** A movement on the loan writes a loan entry, and counts as a disbursement or not by its type. */
  lemma {:induction false} MoveConsistent(b: Books, entryType: string, debit: nat, credit: nat, amount: int, slip: W.Slip, loan: nat, principal: int)
    requires LoanEntries(b.journal, loan, principal)
    requires debit != credit && (debit == loan || credit == loan)
    requires || (entryType == "loan_disbursement" && debit == loan && amount == principal)
             || (entryType == "loan_interest_accrual" && debit == loan)
             || (entryType == "loan_repayment" && credit == loan)
    ensures var after := Post(b, W.Move(entryType, debit, credit, amount, slip)).0;
            && after.accounts == b.accounts
            && LoanEntries(after.journal, loan, principal)
            && Sum(after.journal, DisbursementsOf(loan))
               <= Sum(b.journal, DisbursementsOf(loan)) + if entryType == "loan_disbursement" then 1 else 0
  {
    if Post(b, W.Move(entryType, debit, credit, amount, slip)).0 != b {
      MoveEntry(b, entryType, debit, credit, amount, slip, loan);
      var after := Post(b, W.Move(entryType, debit, credit, amount, slip)).0;
      var e := after.journal[|b.journal|];
      assert after.journal == b.journal + [e];
      SumAppend(b.journal, e, DisbursementsOf(loan));
    }
  }

  lemma {:induction false} DisburseConsistent(s: System, loan: nat, principal: int, i: nat, now: int)
    requires Consistent(s, loan, principal)
    ensures Consistent(Happen(s, loan, PostDisburse(i, now)), loan, principal)
  {
    if At(s, i, (c: Caller) => c.Claimed?) {
      var c := s.callers[i];
      assert Carries(c, loan, principal);
      var next := Happen(s, loan, PostDisburse(i, now)).callers[i];
      SumUpdate(s.callers, i, next, CLAIMS);
      SumNonNegative(s.callers[i := next], CLAIMS);
      SumNonNegative(s.books.journal, DisbursementsOf(loan));
      var wallet := WalletOf(s.books, loan);
      if wallet.Some? {
        MoveConsistent(s.books, "loan_disbursement", loan, wallet.value, principal, c.slip, loan, principal);
      }
    }
  }

  lemma {:induction false} ClaimConsistent(s: System, loan: nat, principal: int, slip: W.Slip)
    requires Consistent(s, loan, principal)
    ensures Consistent(Happen(s, loan, BeginDisburse(slip)), loan, principal)
  {
    SumAppend(s.callers, Claimed(slip, s.books.accounts[loan].terms), CLAIMS);
  }

  lemma {:induction false} WriteConsistent(s: System, loan: nat, principal: int, i: nat)
    requires Consistent(s, loan, principal)
    ensures Consistent(Happen(s, loan, WriteTerms(i)), loan, principal)
  {
    if At(s, i, (c: Caller) => c.Writing?) {
      assert Carries(s.callers[i], loan, principal);
      SumUpdate(s.callers, i, Gone, CLAIMS);
    }
  }

  /** A provision names only its own two accounts. */
  lemma {:induction false} ProvideShape(b: Books, loan: nat, listed: Terms, accounts: P.Accounts, asOf: int)
    requires loan < |b.accounts| && listed.Loan? && accounts.expense != loan && accounts.reserve != loan
    ensures var (after, next) := Provide(b, loan, listed, accounts, asOf);
            && after.accounts == b.accounts
            && (next == Gone || (next.Writing? && next.newTerms.Loan? && next.newTerms.principalKobo == listed.principalKobo))
            && (after == b
                || (&& |after.journal| == |b.journal| + 1
                    && after.journal == b.journal + [after.journal[|b.journal|]]
                    && !Names(after.journal[|b.journal|], loan)))
  {
    hide P.TargetOf;
    hide P.KeyNow;
    hide Balance;
    var delta := P.TargetOf(Balance(b, loan), listed.maturity, asOf) - listed.provisionedKobo;
    var key := P.KeyNow(b, loan, listed, asOf);
    W.MoveWellFormed("loan_loss_provision", accounts.expense, accounts.reserve, delta, W.Slip(key, key, "Loan loss provision"));
  }

  lemma {:induction false} ProvisionConsistent(s: System, loan: nat, principal: int, i: nat, accounts: P.Accounts, asOf: int)
    requires Consistent(s, loan, principal) && accounts.expense != loan && accounts.reserve != loan
    ensures Consistent(Happen(s, loan, PostProvision(i, accounts, asOf)), loan, principal)
  {
    hide Provide;
    if At(s, i, (c: Caller) => c.Listing?) {
      var c := s.callers[i];
      assert Carries(c, loan, principal);
      var (after, next) := Provide(s.books, loan, c.listed, accounts, asOf);
      ProvideShape(s.books, loan, c.listed, accounts, asOf);
      SumUpdate(s.callers, i, next, CLAIMS);
      if after.journal != s.books.journal {
        SumAppend(s.books.journal, after.journal[|s.books.journal|], DisbursementsOf(loan));
      }
    }
  }

  lemma {:induction false} RepayConsistent(s: System, loan: nat, principal: int, i: nat)
    requires Consistent(s, loan, principal)
    ensures Consistent(Happen(s, loan, PostRepay(i)), loan, principal)
  {
    if At(s, i, (c: Caller) => c.Checked?) {
      var c := s.callers[i];
      SumUpdate(s.callers, i, Gone, CLAIMS);
      SumUpdate(s.callers, i, Repaid, CLAIMS);
      var wallet := W.ByCustomer(s.books.accounts, c.customer, W.WALLET);
      if wallet.Some? {
        MoveConsistent(s.books, "loan_repayment", wallet.value, loan, c.amount, c.repaySlip, loan, principal);
      }
    }
  }

  lemma {:induction false} InterestConsistent(s: System, loan: nat, principal: int, i: nat)
    requires Consistent(s, loan, principal)
    ensures Consistent(Happen(s, loan, PostInterest(i)), loan, principal)
  {
    if At(s, i, (c: Caller) => c.SawBalance?) {
      var c := s.callers[i];
      SumUpdate(s.callers, i, Gone, CLAIMS);
      assert Carries(c, loan, principal);
      var interest := DailyInterest(c.balance, c.rateBps);
      var key := InterestKey(LoanInterest, loan, c.day);
      MoveConsistent(s.books, "loan_interest_accrual", loan, c.counter, interest,
                     W.Slip(key, key, "Daily loan interest accrual (" + c.day + ")"), loan, principal);
    }
  }

  lemma {:induction false} ReadConsistent(s: System, loan: nat, principal: int, e: LoanEvent)
    requires Consistent(s, loan, principal)
    requires e.BeginRepay? || (e.ReadForInterest? && e.counter != loan) || e.ReadForProvision?
    ensures Consistent(Happen(s, loan, e), loan, principal)
  {
    hide Balance;
    hide RepayRefusal;
    hide LoanEntries;
    var after := Happen(s, loan, e);
    if |after.callers| > |s.callers| {
      SumAppend(s.callers, after.callers[|s.callers|], CLAIMS);
    }
  }

  /** Events that only move a caller on, or close the loan, write no entry. */
  lemma {:induction false} QuietConsistent(s: System, loan: nat, principal: int, e: LoanEvent)
    requires Consistent(s, loan, principal)
    requires e.ReadAfterRepay? || e.CloseRepaid? || e.Crash?
    ensures Consistent(Happen(s, loan, e), loan, principal)
  {
    hide Balance;
    hide LoanEntries;
    if e.caller < |s.callers| {
      SumUpdate(s.callers, e.caller, Gone, CLAIMS);
      SumUpdate(s.callers, e.caller, SawZero, CLAIMS);
    }
  }

  lemma {:induction false} ElsewhereConsistent(s: System, loan: nat, principal: int, request: Request)
    requires Consistent(s, loan, principal) && Foreign(s.books, request, loan)
    ensures Consistent(Happen(s, loan, Elsewhere(request)), loan, principal)
  {
    ForeignKeeps(s.books, request, loan);
    var after := Step(s.books, request).0;
    if after.journal != s.books.journal {
      SumAppend(s.books.journal, after.journal[|s.books.journal|], DisbursementsOf(loan));
    }
  }

  lemma {:induction false} ForeignKeeps(b: Books, request: Request, loan: nat)
    requires Foreign(b, request, loan) && loan < |b.accounts|
    ensures var after := Step(b, request).0;
            && |b.accounts| <= |after.accounts| && after.accounts[loan] == b.accounts[loan]
            && (after.journal == b.journal
                || (&& |after.journal| == |b.journal| + 1
                    && after.journal == b.journal + [after.journal[|b.journal|]]
                    && (Names(after.journal[|b.journal|], loan) ==>
                          request.ReverseRequest? && after.journal[|b.journal|].entryType == "reversal")))
  {
    StepShape(b, request);
    StepOrigin(b, request);
  }

  /** Interest and provisions are posted against system accounts, never against the loan itself. */
  predicate SystemOnly(e: LoanEvent, loan: nat) {
    && (e.ReadForInterest? ==> e.counter != loan)
    && (e.PostProvision? ==> e.accounts.expense != loan && e.accounts.reserve != loan)
  }

  lemma {:induction false} EventConsistent(s: System, loan: nat, principal: int, e: LoanEvent)
    requires Consistent(s, loan, principal)
    requires e.Elsewhere? ==> Foreign(s.books, e.request, loan)
    requires SystemOnly(e, loan)
    ensures Consistent(Happen(s, loan, e), loan, principal)
  {
    match e
    case BeginDisburse(slip) => ClaimConsistent(s, loan, principal, slip);
    case PostDisburse(i, now) => DisburseConsistent(s, loan, principal, i, now);
    case WriteTerms(i) => WriteConsistent(s, loan, principal, i);
    case PostProvision(i, accounts, asOf) => ProvisionConsistent(s, loan, principal, i, accounts, asOf);
    case PostRepay(i) => RepayConsistent(s, loan, principal, i);
    case PostInterest(i) => InterestConsistent(s, loan, principal, i);
    case Elsewhere(request) => ElsewhereConsistent(s, loan, principal, request);
    case BeginRepay(_, _, _) => ReadConsistent(s, loan, principal, e);
    case ReadForInterest(_, _) => ReadConsistent(s, loan, principal, e);
    case ReadForProvision => ReadConsistent(s, loan, principal, e);
    case ReadAfterRepay(_) => QuietConsistent(s, loan, principal, e);
    case CloseRepaid(_) => QuietConsistent(s, loan, principal, e);
    case Crash(_) => QuietConsistent(s, loan, principal, e);
  }

  /** Every event is at most two ledger requests that name no account twice on a side. */
  lemma {:induction false} EventIsRun(s: System, loan: nat, e: LoanEvent) returns (requests: seq<Request>)
    requires e.Elsewhere? && e.request.PostRequest? ==> NamesOnce(e.request.post.lines)
    ensures Run(s.books, requests).0 == Happen(s, loan, e).books
    ensures forall i :: 0 <= i < |requests| && requests[i].PostRequest? ==> NamesOnce(requests[i].post.lines)
  {
    var after := Happen(s, loan, e).books;
    match e
    case BeginDisburse(slip) =>
      requests := if after == s.books then [] else OneRequest(StatusRequest(loan, Active), s.books);
    case PostDisburse(i, now) =>
      requests := PayOutIsRun(s, loan, i, now);
    case WriteTerms(i) =>
      requests := if after == s.books then [] else OneRequest(TermsRequest(loan, s.callers[i].newTerms), s.books);
    case PostProvision(i, accounts, asOf) =>
      requests := ProvideIsRun(s, loan, i, accounts, asOf);
    case PostRepay(i) =>
      if after == s.books { requests := []; }
      else {
        var c := s.callers[i];
        var wallet := W.ByCustomer(s.books.accounts, c.customer, W.WALLET);
        requests := W.MoveIsRun(s.books, "loan_repayment", wallet.value, loan, c.amount, c.repaySlip);
      }
    case CloseRepaid(i) =>
      requests := if after == s.books then [] else OneRequest(StatusRequest(loan, Closed), s.books);
    case PostInterest(i) =>
      if after == s.books { requests := []; }
      else {
        var c := s.callers[i];
        var key := InterestKey(LoanInterest, loan, c.day);
        requests := W.MoveIsRun(s.books, "loan_interest_accrual", loan, c.counter, DailyInterest(c.balance, c.rateBps),
                                W.Slip(key, key, "Daily loan interest accrual (" + c.day + ")"));
      }
    case Elsewhere(request) => requests := OneRequest(request, s.books);
    case _ => requests := [];
  }

  function OneRequest(r: Request, b: Books): (requests: seq<Request>)
    ensures requests == [r] && Run(b, requests).0 == Step(b, r).0
  {
    assert [r][..|[r]| - 1] == [];
    [r]
  }

  lemma {:induction false} PayOutIsRun(s: System, loan: nat, i: nat, now: int) returns (requests: seq<Request>)
    ensures Run(s.books, requests).0 == Happen(s, loan, PostDisburse(i, now)).books
    ensures forall k :: 0 <= k < |requests| && requests[k].PostRequest? ==> NamesOnce(requests[k].post.lines)
  {
    if !At(s, i, (c: Caller) => c.Claimed? && c.terms.Loan?) || WalletOf(s.books, loan).None? {
      requests := [];
    } else {
      var c := s.callers[i];
      requests := W.MoveIsRun(s.books, "loan_disbursement", loan, WalletOf(s.books, loan).value, c.terms.principalKobo, c.slip);
    }
  }

  lemma {:induction false} ProvideIsRun(s: System, loan: nat, i: nat, accounts: P.Accounts, asOf: int) returns (requests: seq<Request>)
    ensures Run(s.books, requests).0 == Happen(s, loan, PostProvision(i, accounts, asOf)).books
    ensures forall k :: 0 <= k < |requests| && requests[k].PostRequest? ==> NamesOnce(requests[k].post.lines)
  {
    hide P.TargetOf;
    hide P.KeyNow;
    hide Balance;
    if Happen(s, loan, PostProvision(i, accounts, asOf)).books == s.books {
      requests := [];
    } else {
      var listed := s.callers[i].listed;
      var delta := P.TargetOf(Balance(s.books, loan), listed.maturity, asOf) - listed.provisionedKobo;
      var key := P.KeyNow(s.books, loan, listed, asOf);
      requests := W.MoveIsRun(s.books, "loan_loss_provision", accounts.expense, accounts.reserve, delta,
                              W.Slip(key, key, "Loan loss provision"));
    }
  }

  lemma {:induction false} EventsSolvent(s: System, loan: nat, events: seq<LoanEvent>)
    requires Solvent(s.books)
    requires forall i :: 0 <= i < |events| && events[i].Elsewhere? && events[i].request.PostRequest? ==>
               NamesOnce(events[i].request.post.lines)
    ensures Solvent(HappenAll(s, loan, events).books)
  {
    if events != [] {
      var init := events[..|events| - 1];
      EventsSolvent(s, loan, init);
      var before := HappenAll(s, loan, init);
      var requests := EventIsRun(before, loan, events[|events| - 1]);
      W.RequestsSolvent(before.books, requests);
    }
  }

  lemma {:induction false} EventsConsistent(s: System, loan: nat, principal: int, events: seq<LoanEvent>)
    requires Consistent(s, loan, principal)
    requires AllForeign(s, loan, events)
    requires forall i :: 0 <= i < |events| ==> SystemOnly(events[i], loan)
    ensures Consistent(HappenAll(s, loan, events), loan, principal)
  {
    if events != [] {
      var init := events[..|events| - 1];
      forall i | 0 <= i < |init| && init[i].Elsewhere?
        ensures Foreign(HappenAll(s, loan, init[..i]).books, init[i].request, loan)
      {
        assert init[..i] == events[..i];
      }
      EventsConsistent(s, loan, principal, init);
      EventConsistent(HappenAll(s, loan, init), loan, principal, events[|events| - 1]);
    }
  }

  // ---- The account of a loan ----

  lemma {:induction false} UnnamedNet(lines: seq<Line>, loan: nat)
    requires forall i :: 0 <= i < |lines| ==> lines[i].account != loan
    ensures Net(lines, loan, Debit) == 0
  {
    SumPointwise(lines, On(loan, Debit), lines, On(loan, Credit));
  }

  lemma {:induction false} EntryByType(e: Entry, loan: nat, principal: int)
    requires LoanEntry(e, loan, principal)
    ensures Net(e.lines, loan, Debit)
            == OfType(loan, "loan_disbursement")(e) + OfType(loan, "loan_interest_accrual")(e)
               + OfType(loan, "loan_repayment")(e) + OfType(loan, "reversal")(e)
    ensures OfType(loan, "loan_disbursement")(e) == if DisbursementsOf(loan)(e) == 1 then principal else 0
    ensures 0 <= OfType(loan, "loan_interest_accrual")(e) && OfType(loan, "loan_repayment")(e) <= 0
  {
    if !Names(e, loan) {
      UnnamedNet(e.lines, loan);
    }
  }

  lemma {:induction false} NetByType(journal: seq<Entry>, loan: nat, principal: int)
    requires LoanEntries(journal, loan, principal)
    ensures Net(Lines(journal), loan, Debit)
            == Sum(journal, OfType(loan, "loan_disbursement"))
               + Sum(journal, OfType(loan, "loan_interest_accrual"))
               + Sum(journal, OfType(loan, "loan_repayment"))
               + Sum(journal, OfType(loan, "reversal"))
    ensures 0 <= Sum(journal, OfType(loan, "loan_interest_accrual"))
    ensures Sum(journal, OfType(loan, "loan_repayment")) <= 0
    ensures 0 <= Sum(journal, DisbursementsOf(loan))
    ensures Sum(journal, DisbursementsOf(loan)) == 0 ==> Sum(journal, OfType(loan, "loan_disbursement")) == 0
    ensures Sum(journal, DisbursementsOf(loan)) == 1 ==> Sum(journal, OfType(loan, "loan_disbursement")) == principal
  {
    if journal != [] {
      var init, e := journal[..|journal| - 1], journal[|journal| - 1];
      NetByType(init, loan, principal);
      EntryByType(e, loan, principal);
      SumConcat(Lines(init), e.lines, On(loan, Debit));
      SumConcat(Lines(init), e.lines, On(loan, Credit));
    }
  }

  /**
   * In every interleaving, retried as often as you like: at most one
   * disbursement is ever written, for exactly the principal; the balance is
   * what was disbursed plus interest less repayments, and what reversals by
   * anybody have put back or taken off; it is never negative.
   */
  lemma {:induction false} LoanAccount(s: System, loan: nat, principal: int, events: seq<LoanEvent>)
    requires Solvent(s.books) && Consistent(s, loan, principal)
    requires AllForeign(s, loan, events)
    requires forall i :: 0 <= i < |events| ==> SystemOnly(events[i], loan)
    ensures var b := HappenAll(s, loan, events).books;
            var disbursed := Sum(b.journal, OfType(loan, "loan_disbursement"));
            var interest := Sum(b.journal, OfType(loan, "loan_interest_accrual"));
            var repaid := -Sum(b.journal, OfType(loan, "loan_repayment"));
            && loan < |b.accounts|
            && Sum(b.journal, DisbursementsOf(loan)) <= 1
            && (disbursed == 0 || disbursed == principal)
            && 0 <= interest && 0 <= repaid
            && Balance(b, loan) == disbursed + interest - repaid + Sum(b.journal, OfType(loan, "reversal"))
            && 0 <= Balance(b, loan)
  {
    EventsConsistent(s, loan, principal, events);
    var after := HappenAll(s, loan, events);
    AtMostOneDisbursement(after, loan, principal);
    NetByType(after.books.journal, loan, principal);
    EventsSolvent(s, loan, events);
  }

  lemma {:induction false} AtMostOneDisbursement(s: System, loan: nat, principal: int)
    requires Consistent(s, loan, principal)
    ensures Sum(s.books.journal, DisbursementsOf(loan)) <= 1
  {
    SumNonNegative(s.callers, CLAIMS);
  }

  lemma {:induction false} NothingDisbursed(journal: seq<Entry>, loan: nat)
    requires forall i :: 0 <= i < |journal| ==> !Names(journal[i], loan)
    ensures Sum(journal, DisbursementsOf(loan)) == 0
  {
    hide Names;
    if journal != [] {
      NothingDisbursed(journal[..|journal| - 1], loan);
    }
  }

  /** A loan just originated, in any reachable ledger, starts with a clean history. */
  lemma {:induction false} OriginatedConsistent(b: Books, customer: string, number: string, principal: int, rateBps: int, tenorDays: int)
    requires Solvent(b) && Originate(b, customer, number, principal, rateBps, tenorDays).1.Opened?
    ensures var (after, reply) := Originate(b, customer, number, principal, rateBps, tenorDays);
            Solvent(after) && Consistent(System(after, []), reply.account, principal)
  {
    StepSolvent(b, OpenRequest(LoanRow(customer, number, principal, rateBps, tenorDays)));
    var loan := |b.accounts|;
    forall i | 0 <= i < |b.journal| ensures !Names(b.journal[i], loan) {
      assert EntrySound(loan, b.journal[i]);
    }
    NothingDisbursed(b.journal, loan);
  }

  /** The whole life of a loan, from its origination on, in every interleaving. */
  lemma {:induction false} LoanLife(b: Books, customer: string, number: string, principal: int, rateBps: int, tenorDays: int, events: seq<LoanEvent>)
    requires Solvent(b) && Originate(b, customer, number, principal, rateBps, tenorDays).1.Opened?
    requires var (after, reply) := Originate(b, customer, number, principal, rateBps, tenorDays);
             && AllForeign(System(after, []), reply.account, events)
             && forall i :: 0 <= i < |events| ==> SystemOnly(events[i], reply.account)
    ensures var (start, reply) := Originate(b, customer, number, principal, rateBps, tenorDays);
            var loan := reply.account;
            var after := HappenAll(System(start, []), loan, events).books;
            var disbursed := Sum(after.journal, OfType(loan, "loan_disbursement"));
            var interest := Sum(after.journal, OfType(loan, "loan_interest_accrual"));
            var repaid := -Sum(after.journal, OfType(loan, "loan_repayment"));
            && loan < |after.accounts|
            && (disbursed == 0 || disbursed == principal)
            && 0 <= Balance(after, loan) == disbursed + interest - repaid + Sum(after.journal, OfType(loan, "reversal"))
  {
    hide HappenAll;
    hide Consistent;
    hide Solvent;
    hide AllForeign;
    var (start, reply) := Originate(b, customer, number, principal, rateBps, tenorDays);
    OriginatedConsistent(b, customer, number, principal, rateBps, tenorDays);
    LoanAccount(System(start, []), reply.account, principal, events);
  }

  // ---- The handlers are schedules of these steps ----

  lemma {:induction false} LastEvent(s: System, loan: nat, events: seq<LoanEvent>, e: LoanEvent)
    ensures HappenAll(s, loan, events + [e]) == Happen(HappenAll(s, loan, events), loan, e)
  {
    hide Happen;
    assert (events + [e])[..|events|] == events;
  }

  lemma {:induction false} ThreeEvents(s: System, loan: nat, a: LoanEvent, b: LoanEvent, c: LoanEvent)
    ensures HappenAll(s, loan, [a, b, c]) == Happen(Happen(Happen(s, loan, a), loan, b), loan, c)
  {
    hide Happen;
    LastEvent(s, loan, [], a);
    LastEvent(s, loan, [a], b);
    LastEvent(s, loan, [a, b], c);
    assert [] + [a] == [a] && [a] + [b] == [a, b] && [a, b] + [c] == [a, b, c];
  }

  lemma {:induction false} FourEvents(s: System, loan: nat, a: LoanEvent, b: LoanEvent, c: LoanEvent, d: LoanEvent)
    ensures HappenAll(s, loan, [a, b, c, d]) == Happen(Happen(Happen(Happen(s, loan, a), loan, b), loan, c), loan, d)
  {
    hide Happen;
    ThreeEvents(s, loan, a, b, c);
    LastEvent(s, loan, [a, b, c], d);
    assert [a, b, c] + [d] == [a, b, c, d];
  }

  /** With nobody in between, disbursing is its three steps; a lost write is a crash before the last. */
  lemma {:induction false} DisburseIsSchedule(b: Books, loan: nat, slip: W.Slip, now: int, written: bool)
    ensures HappenAll(System(b, []), loan, [BeginDisburse(slip), PostDisburse(0, now), if written then WriteTerms(0) else Crash(0)]).books
            == Disburse(b, loan, slip, now, written).0
  {
    hide PayOut;
    var write := if written then WriteTerms(0) else Crash(0);
    ThreeEvents(System(b, []), loan, BeginDisburse(slip), PostDisburse(0, now), write);
    var (claimed, refusal) := Claim(b, loan);
    if refusal.None? {
      var terms := b.accounts[loan].terms;
      assert Happen(System(b, []), loan, BeginDisburse(slip)) == System(claimed, [Claimed(slip, terms)]);
      var (paid, outcome) := PayOut(claimed, loan, terms.principalKobo, slip);
      PayOutKeepsAccounts(claimed, loan, terms.principalKobo, slip);
      var next := if outcome.Done? then Writing(terms.(maturity := Some(now + terms.tenorDays * W.DAY))) else Gone;
      assert Happen(System(claimed, [Claimed(slip, terms)]), loan, PostDisburse(0, now)) == System(paid, [next]);
    }
  }

  lemma {:induction false} PayOutKeepsAccounts(b: Books, loan: nat, principal: int, slip: W.Slip)
    ensures PayOut(b, loan, principal, slip).0.accounts == b.accounts
  {
  }

  /** With nobody in between, repaying is its four steps. */
  lemma {:induction false} RepayIsSchedule(b: Books, customer: string, loan: nat, amount: int, slip: W.Slip)
    ensures HappenAll(System(b, []), loan, [BeginRepay(customer, amount, slip), PostRepay(0), ReadAfterRepay(0), CloseRepaid(0)]).books
            == Repay(b, customer, loan, amount, slip).0
  {
    hide TakeRepayment;
    hide Balance;
    FourEvents(System(b, []), loan, BeginRepay(customer, amount, slip), PostRepay(0), ReadAfterRepay(0), CloseRepaid(0));
    if RepayRefusal(b, customer, loan).None? {
      var checked := Checked(customer, amount, slip);
      assert Happen(System(b, []), loan, BeginRepay(customer, amount, slip)) == System(b, [checked]);
      var (after, outcome) := TakeRepayment(b, customer, loan, amount, slip);
      assert Happen(System(b, [checked]), loan, PostRepay(0)) == System(after, [if outcome.Done? then Repaid else Gone]);
    }
  }

  /** With nobody in between, provisioning a loan is its three steps. */
  lemma {:induction false} TickIsSchedule(b: Books, loan: nat, accounts: P.Accounts, asOf: int, written: bool)
    requires IsLoan(b, loan) && b.accounts[loan].status == Active
    ensures HappenAll(System(b, []), loan, [ReadForProvision, PostProvision(0, accounts, asOf), if written then WriteTerms(0) else Crash(0)]).books
            == P.Tick(b, loan, accounts, b.accounts[loan].terms, asOf, written)
  {
    hide P.TargetOf;
    hide P.KeyNow;
    hide Balance;
    hide Post;
    var write := if written then WriteTerms(0) else Crash(0);
    var listed := b.accounts[loan].terms;
    ThreeEvents(System(b, []), loan, ReadForProvision, PostProvision(0, accounts, asOf), write);
    assert Happen(System(b, []), loan, ReadForProvision) == System(b, [Listing(listed)]);
    var (after, next) := Provide(b, loan, listed, accounts, asOf);
    assert Happen(System(b, [Listing(listed)]), loan, PostProvision(0, accounts, asOf)) == System(after, [next]);
  }

  /** With nobody in between, a loan's interest is its two steps. */
  lemma {:induction false} InterestIsSchedule(b: Books, loan: nat, counter: nat, day: string)
    requires IsLoan(b, loan) && b.accounts[loan].status == Active
    ensures HappenAll(System(b, []), loan, [ReadForInterest(counter, day), PostInterest(0)]).books
            == AccrueDay(b, LoanInterest, loan, counter, RateOf(b.accounts[loan].terms), day)
  {
    hide Balance;
    hide DailyInterest;
    hide InterestMove;
    hide Post;
    LastEvent(System(b, []), loan, [], ReadForInterest(counter, day));
    LastEvent(System(b, []), loan, [ReadForInterest(counter, day)], PostInterest(0));
    assert [] + [ReadForInterest(counter, day)] == [ReadForInterest(counter, day)];
    assert [ReadForInterest(counter, day)] + [PostInterest(0)] == [ReadForInterest(counter, day), PostInterest(0)];
    var saw := SawBalance(Balance(b, loan), b.accounts[loan].terms.loanRateBps, counter, day);
    assert Happen(System(b, []), loan, ReadForInterest(counter, day)) == System(b, [saw]);
  }
}
