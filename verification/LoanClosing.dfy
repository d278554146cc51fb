/**
 * Closing a loan. The service reads a zero balance and then closes, in two
 * transactions; these lemmas say what can come in between, and exactly when
 * nothing that matters can.
 */
module LoanClosing {
  import opened Sums
  import opened Domain
  import opened Ledger
  import opened LedgerRuns
  import opened Overdraft
  import opened Accrual
  import opened Loan
  import opened LoanRuns
  import W = Wallet

  // ---- What a closed loan owes ----

  /** Event `e` moves caller `i` on. */
  predicate Moves(e: LoanEvent, i: nat) {
    match e
    case PostDisburse(caller, _) => caller == i
    case WriteTerms(caller) => caller == i
    case PostProvision(caller, _, _) => caller == i
    case PostRepay(caller) => caller == i
    case ReadAfterRepay(caller) => caller == i
    case CloseRepaid(caller) => caller == i
    case PostInterest(caller) => caller == i
    case Crash(caller) => caller == i
    case BeginDisburse(_) => false
    case BeginRepay(_, _, _) => false
    case ReadForInterest(_, _) => false
    case ReadForProvision => false
    case Elsewhere(_) => false
  }

  lemma {:induction false} CallerWaits(s: System, loan: nat, events: seq<LoanEvent>, i: nat)
    requires i < |s.callers| && forall k :: 0 <= k < |events| ==> !Moves(events[k], i)
    ensures i < |HappenAll(s, loan, events).callers| && HappenAll(s, loan, events).callers[i] == s.callers[i]
  {
    hide Claim;
    hide PayOut;
    hide TakeRepayment;
    hide RepayRefusal;
    hide Post;
    hide Step;
    hide Provide;
    if events != [] {
      CallerWaits(s, loan, events[..|events| - 1], i);
    }
  }

  /** What entries of one type have put on the loan between two states of the books. */
  function Added(before: Books, after: Books, loan: nat, entryType: string): int {
    Sum(after.journal, OfType(loan, entryType)) - Sum(before.journal, OfType(loan, entryType))
  }

  /** A loan closed on a zero reading owes exactly what came between the reading and the close. */
  lemma {:induction false} ClosedOwesWhatCameBetween(s: System, loan: nat, principal: int, between: seq<LoanEvent>, i: nat)
    requires Consistent(s, loan, principal) && Balance(s.books, loan) == 0
    requires i < |s.callers| && s.callers[i] == SawZero
    requires forall k :: 0 <= k < |between| ==> !Moves(between[k], i)
    requires AllForeign(s, loan, between)
    requires forall k :: 0 <= k < |between| ==> SystemOnly(between[k], loan)
    ensures var after := Happen(HappenAll(s, loan, between), loan, CloseRepaid(i)).books;
            var owing := Added(s.books, after, loan, "loan_disbursement") + Added(s.books, after, loan, "loan_interest_accrual");
            var repaid := -Added(s.books, after, loan, "loan_repayment");
            var reversed := Added(s.books, after, loan, "reversal");
            && loan < |after.accounts| && after.accounts[loan].status == Closed
            && Balance(after, loan) == owing - repaid + reversed
  {
    hide HappenAll;
    CallerWaits(s, loan, between, i);
    EventsConsistent(s, loan, principal, between);
    var last := HappenAll(s, loan, between);
    NetByType(s.books.journal, loan, principal);
    NetByType(last.books.journal, loan, principal);
    var after := Happen(last, loan, CloseRepaid(i)).books;
    assert after.journal == last.books.journal;
  }

  // ---- Exactly when nothing can come between ----

  /** A caller whose next transaction can still put something on the loan. */
  ghost predicate Threatens(b: Books, loan: nat, c: Caller)
    requires loan < |b.accounts|
  {
    || (&& c.Claimed? && c.terms.Loan? && 0 < c.terms.principalKobo
        && b.accounts[loan].customer.Some?
        && FindKey(b.journal, c.slip.key).None? && !ReferenceUsed(b.journal, c.slip.reference))
    || (&& c.SawBalance? && 0 < c.balance && 0 < DailyInterest(c.balance, c.rateBps)
        && W.Unused(b.journal, InterestKey(LoanInterest, loan, c.day)))
  }

  /** The entry takes something off the loan and puts nothing on it. */
  predicate TakesOff(e: Entry, loan: nat) {
    Names(e, loan) && forall i :: 0 <= i < |e.lines| && e.lines[i].account == loan ==> e.lines[i].direction == Credit
  }

  /** Nobody has reversed entry `id`, which took something off the loan, and its reversal's reference is free. */
  predicate Reversible(b: Books, loan: nat, id: nat) {
    && id < |b.journal| && TakesOff(b.journal[id], loan)
    && !HasReversal(b.journal, id) && !ReferenceUsed(b.journal, b.journal[id].reference + "-REV")
  }

  /** The loan owes nothing, has been disbursed or claimed, and neither a caller in flight nor a reversal can change that. */
  ghost predicate Calm(s: System, loan: nat) {
    && loan < |s.books.accounts|
    && s.books.accounts[loan].normal == Debit && !s.books.accounts[loan].allowNegative
    && s.books.accounts[loan].status != Pending
    && Balance(s.books, loan) == 0
    && (forall j :: 0 <= j < |s.callers| ==> !Threatens(s.books, loan, s.callers[j]))
    && forall id :: 0 <= id < |s.books.journal| ==> !Reversible(s.books, loan, id)
  }

  /** Growing books only take threats away. */
  lemma {:induction false} ThreatsFade(b: Books, after: Books, loan: nat, c: Caller)
    requires loan < |b.accounts| && loan < |after.accounts| && after.accounts[loan].customer == b.accounts[loan].customer
    requires |b.journal| <= |after.journal| && after.journal[..|b.journal|] == b.journal
    requires !Threatens(b, loan, c)
    ensures !Threatens(after, loan, c)
  {
    hide DailyInterest;
    hide InterestKey;
    if c.Claimed? {
      StillUsed(b.journal, after.journal, c.slip);
    } else if c.SawBalance? {
      UsedStays(b.journal, after.journal, InterestKey(LoanInterest, loan, c.day));
    }
  }

  lemma {:induction false} UsedStays(before: seq<Entry>, after: seq<Entry>, key: string)
    requires |before| <= |after| && after[..|before|] == before
    ensures W.Unused(after, key) ==> W.Unused(before, key)
  {
    assert forall i :: 0 <= i < |before| ==> before[i] == after[i];
  }

  lemma {:induction false} StillUsed(before: seq<Entry>, after: seq<Entry>, slip: W.Slip)
    requires |before| <= |after| && after[..|before|] == before
    ensures FindKey(before, slip.key).Some? ==> FindKey(after, slip.key).Some?
    ensures ReferenceUsed(before, slip.reference) ==> ReferenceUsed(after, slip.reference)
  {
    hide FindKey;
    if FindKey(before, slip.key).Some? {
      var i := FindKey(before, slip.key).value;
      assert after[i] == before[i];
    }
    if ReferenceUsed(before, slip.reference) {
      var i :| 0 <= i < |before| && before[i].reference == slip.reference;
      assert after[i] == before[i];
    }
  }

  /** At a zero balance nothing can be repaid. */
  lemma {:induction false} NothingToRepay(b: Books, customer: string, loan: nat, amount: int, slip: W.Slip)
    requires loan < |b.accounts| && b.accounts[loan].normal == Debit && !b.accounts[loan].allowNegative
    requires Balance(b, loan) == 0
    ensures TakeRepayment(b, customer, loan, amount, slip).0 == b
  {
    hide Balance;
    var wallet := W.ByCustomer(b.accounts, customer, W.WALLET);
    if wallet.Some? {
      var lines := W.Move("loan_repayment", wallet.value, loan, amount, slip).lines;
      W.MoveWellFormed("loan_repayment", wallet.value, loan, amount, slip);
      if 0 < amount {
        assert LineGuard(b, lines[1]).Some?;
      }
    }
  }

  lemma {:induction false} ClaimBlocked(b: Books, loan: nat, c: Caller)
    requires loan < |b.accounts| && c.Claimed? && c.terms.Loan? && !Threatens(b, loan, c)
    ensures PayOut(b, loan, c.terms.principalKobo, c.slip).0 == b
  {
    hide Balance;
    var wallet := WalletOf(b, loan);
    if wallet.Some? {
      W.MoveWellFormed("loan_disbursement", loan, wallet.value, c.terms.principalKobo, c.slip);
    }
  }

  lemma {:induction false} InterestBlocked(b: Books, loan: nat, c: Caller)
    requires loan < |b.accounts| && c.SawBalance? && !Threatens(b, loan, c)
    ensures var interest := DailyInterest(c.balance, c.rateBps);
            0 < c.balance && 0 < interest ==> Post(b, InterestMove(LoanInterest, loan, c.counter, interest, c.day)).0 == b
  {
    hide Balance;
    hide DailyInterest;
    hide InterestKey;
    var interest, key := DailyInterest(c.balance, c.rateBps), InterestKey(LoanInterest, loan, c.day);
    if 0 < c.balance && 0 < interest {
      W.MoveWellFormed("loan_interest_accrual", loan, c.counter, interest, W.Slip(key, key, "Daily loan interest accrual (" + c.day + ")"));
    }
  }

  /** Reversing an entry that put something on the loan would draw on it, and at a zero balance that is refused. */
  lemma {:induction false} DrawRefused(b: Books, loan: nat, e: Entry, input: ReverseInput, loaded: seq<Line>, id: nat)
    requires loan < |b.accounts| && b.accounts[loan].normal == Debit && !b.accounts[loan].allowNegative
    requires Balance(b, loan) == 0
    requires Names(e, loan) && !TakesOff(e, loan)
    ensures PostWithin(b, ReversalInput(e, input, loaded), Some(id)).0 == b
  {
    hide Balance;
    var lines := LoadLines(e, loaded);
    var i :| 0 <= i < |e.lines| && e.lines[i].account == loan && e.lines[i].direction == Debit;
    assert e.lines[i] in multiset(lines);
    assert e.lines[i] in lines;
    var k :| 0 <= k < |lines| && lines[k] == e.lines[i];
    var flipped := Flipped(lines);
    assert flipped[k] == LineInput(loan, Credit, e.lines[i].amount);
    if LinesError(flipped).None? {
      assert LineGuard(b, flipped[k]).Some?;
    }
  }

  lemma {:induction false} ReversalNames(e: Entry, loan: nat, input: ReverseInput, loaded: seq<Line>, id: nat)
    requires LinesError(ReversalInput(e, input, loaded).lines).None?
    ensures Names(NewEntry(ReversalInput(e, input, loaded), Some(id)), loan) ==> Names(e, loan)
  {
    var lines := LoadLines(e, loaded);
    var stored := NewEntry(ReversalInput(e, input, loaded), Some(id)).lines;
    if k :| 0 <= k < |stored| && stored[k].account == loan {
      assert lines[k] in multiset(lines);
      assert lines[k] in e.lines;
      var i :| 0 <= i < |e.lines| && e.lines[i] == lines[k];
      assert e.lines[i].account == loan;
    }
  }

  /** At a zero balance, with nothing left to reverse, no other traffic writes an entry that names the loan. */
  lemma {:induction false} ForeignUnnamed(b: Books, loan: nat, request: Request)
    requires loan < |b.accounts| && b.accounts[loan].normal == Debit && !b.accounts[loan].allowNegative
    requires Balance(b, loan) == 0 && Foreign(b, request, loan)
    requires forall id :: 0 <= id < |b.journal| ==> !Reversible(b, loan, id)
    ensures var after := Step(b, request).0.journal;
            |after| > |b.journal| ==> !Names(after[|b.journal|], loan)
  {
    hide Balance;
    hide FindKey;
    StepShape(b, request);
    var after := Step(b, request).0;
    if request.ReverseRequest? && |after.journal| > |b.journal| {
      var id := request.reverse.entryId;
      var e := b.journal[id];
      assert !Reversible(b, loan, id);
      if Names(e, loan) {
        DrawRefused(b, loan, e, request.reverse, request.loaded, id);
      } else {
        ReversalNames(e, loan, request.reverse, request.loaded, id);
      }
    }
  }

  /** Growing books only take reversible entries away, unless they add one. */
  lemma {:induction false} ReversibleFades(b: Books, after: Books, loan: nat, id: nat)
    requires after.journal == b.journal
             || (|after.journal| == |b.journal| + 1 && after.journal[..|b.journal|] == b.journal && !Names(after.journal[|b.journal|], loan))
    requires Reversible(after, loan, id)
    ensures id < |b.journal| && Reversible(b, loan, id)
  {
    hide TakesOff;
    assert TakesOff(after.journal[id], loan) ==> Names(after.journal[id], loan) by {
      TakesOffNames(after.journal[id], loan);
    }
    assert forall i :: 0 <= i < |b.journal| ==> after.journal[i] == b.journal[i];
  }

  lemma {:induction false} TakesOffNames(e: Entry, loan: nat)
    ensures TakesOff(e, loan) ==> Names(e, loan)
  {
  }

  lemma {:induction false} ForeignCalm(s: System, loan: nat, request: Request)
    requires Calm(s, loan) && Foreign(s.books, request, loan)
    ensures Calm(Happen(s, loan, Elsewhere(request)), loan)
  {
    hide Foreign;
    hide Step;
    hide Threatens;
    hide Reversible;
    ForeignKeeps(s.books, request, loan);
    ForeignUnnamed(s.books, loan, request);
    StepShape(s.books, request);
    var after := Step(s.books, request).0;
    if after.journal != s.books.journal {
      var e := after.journal[|s.books.journal|];
      BalanceAfterAppend(s.books.(accounts := after.accounts), e, loan);
      UnnamedNet(e.lines, loan);
    }
    forall j | 0 <= j < |s.callers| ensures !Threatens(after, loan, s.callers[j]) {
      ThreatsFade(s.books, after, loan, s.callers[j]);
    }
    forall id | 0 <= id < |after.journal| ensures !Reversible(after, loan, id) {
      if Reversible(after, loan, id) {
        ReversibleFades(s.books, after, loan, id);
      }
    }
  }

  lemma {:induction false} SameReversible(b: Books, after: Books, loan: nat)
    ensures after.journal == b.journal ==> forall id :: Reversible(after, loan, id) == Reversible(b, loan, id)
  {
  }

  /** Events that only change the loan's row or a caller's place. */
  lemma {:induction false} RowCalm(s: System, loan: nat, e: LoanEvent)
    requires Calm(s, loan) && (e.WriteTerms? || e.CloseRepaid? || e.Crash? || e.ReadAfterRepay?)
    ensures Calm(Happen(s, loan, e), loan)
  {
    hide DailyInterest;
    hide InterestKey;
    hide Reversible;
    var after := Happen(s, loan, e);
    assert after.books.journal == s.books.journal;
    SameReversible(s.books, after.books, loan);
    assert Balance(after.books, loan) == Balance(s.books, loan);
    forall j | 0 <= j < |after.callers| ensures !Threatens(after.books, loan, after.callers[j]) {
      assert !Threatens(s.books, loan, s.callers[j]);
    }
  }

  lemma {:induction false} ReadCalm(s: System, loan: nat, e: LoanEvent)
    requires Calm(s, loan) && (e.BeginDisburse? || e.BeginRepay? || e.ReadForInterest? || e.ReadForProvision?)
    ensures Calm(Happen(s, loan, e), loan)
  {
    hide Balance;
    hide DailyInterest;
    hide RepayRefusal;
    hide InterestKey;
    hide Reversible;
    var after := Happen(s, loan, e);
    SameReversible(s.books, after.books, loan);
    forall j | 0 <= j < |after.callers| ensures !Threatens(after.books, loan, after.callers[j]) {
      if j < |s.callers| {
        assert !Threatens(s.books, loan, s.callers[j]);
      }
    }
  }

  lemma {:induction false} PostCalm(s: System, loan: nat, e: LoanEvent)
    requires Calm(s, loan) && (e.PostDisburse? || e.PostRepay? || e.PostInterest? || e.PostProvision?)
    ensures Calm(Happen(s, loan, e), loan)
  {
    hide Balance;
    hide DailyInterest;
    hide PayOut;
    hide TakeRepayment;
    hide Post;
    var after := Happen(s, loan, e);
    if e.caller < |s.callers| {
      var c := s.callers[e.caller];
      assert !Threatens(s.books, loan, c);
      if e.PostDisburse? && c.Claimed? && c.terms.Loan? {
        ClaimBlocked(s.books, loan, c);
      } else if e.PostRepay? && c.Checked? {
        NothingToRepay(s.books, c.customer, loan, c.amount, c.repaySlip);
      } else if e.PostInterest? && c.SawBalance? {
        InterestBlocked(s.books, loan, c);
      }
    }
    assert after.books == s.books;
    forall j | 0 <= j < |after.callers| ensures !Threatens(after.books, loan, after.callers[j]) {
      assert !Threatens(s.books, loan, s.callers[j]);
    }
  }

  lemma {:induction false} EventCalm(s: System, loan: nat, e: LoanEvent)
    requires Calm(s, loan) && (e.Elsewhere? ==> Foreign(s.books, e.request, loan))
    ensures Calm(Happen(s, loan, e), loan)
  {
    hide Calm;
    hide Happen;
    hide Foreign;
    match e
    case Elsewhere(request) => ForeignCalm(s, loan, request);
    case WriteTerms(_) => RowCalm(s, loan, e);
    case CloseRepaid(_) => RowCalm(s, loan, e);
    case Crash(_) => RowCalm(s, loan, e);
    case ReadAfterRepay(_) => RowCalm(s, loan, e);
    case BeginDisburse(_) => ReadCalm(s, loan, e);
    case BeginRepay(_, _, _) => ReadCalm(s, loan, e);
    case ReadForInterest(_, _) => ReadCalm(s, loan, e);
    case ReadForProvision => ReadCalm(s, loan, e);
    case PostDisburse(_, _) => PostCalm(s, loan, e);
    case PostRepay(_) => PostCalm(s, loan, e);
    case PostInterest(_) => PostCalm(s, loan, e);
    case PostProvision(_, _, _) => PostCalm(s, loan, e);
  }

  lemma {:induction false} StaysCalm(s: System, loan: nat, events: seq<LoanEvent>)
    requires Calm(s, loan) && AllForeign(s, loan, events)
    ensures Calm(HappenAll(s, loan, events), loan)
  {
    hide Happen;
    hide Calm;
    hide Foreign;
    if events != [] {
      var n := |events| - 1;
      var init := events[..n];
      forall i | 0 <= i < n && init[i].Elsewhere?
        ensures Foreign(HappenAll(s, loan, init[..i]).books, init[i].request, loan)
      {
        assert init[..i] == events[..i] && init[i] == events[i];
      }
      StaysCalm(s, loan, init);
      EventCalm(HappenAll(s, loan, init), loan, events[n]);
    }
  }

  /** What may happen between caller `i`'s zero reading and its close. */
  ghost predicate Possible(s: System, loan: nat, between: seq<LoanEvent>, i: nat) {
    AllForeign(s, loan, between) && forall k :: 0 <= k < |between| ==> SystemOnly(between[k], loan) && !Moves(between[k], i)
  }

  /** The books once caller `i` has closed the loan after `between`. */
  function Closing(s: System, loan: nat, between: seq<LoanEvent>, i: nat): Books {
    Happen(HappenAll(s, loan, between), loan, CloseRepaid(i)).books
  }

  ghost predicate ClosedAtZero(b: Books, loan: nat) {
    loan < |b.accounts| && b.accounts[loan].status == Closed && Balance(b, loan) == 0
  }

  /** Interest is posted against an existing account that credits raise. */
  predicate CountersCredit(s: System) {
    forall j :: 0 <= j < |s.callers| && s.callers[j].SawBalance? ==>
      s.callers[j].counter < |s.books.accounts| && s.books.accounts[s.callers[j].counter].normal == Credit
  }

  /** What takes something off the loan is two lines that take it from an account that credits raise. */
  predicate PlainHistory(b: Books, loan: nat) {
    forall id :: 0 <= id < |b.journal| && TakesOff(b.journal[id], loan) ==> Plain(b, b.journal[id], loan)
  }

  /** Two lines may be stored in either order: where the one is that is not on the loan. */
  function Other(e: Entry, loan: nat): (k: nat)
    requires |e.lines| == 2
    ensures k < 2
  {
    if e.lines[0].account == loan then 1 else 0
  }

  predicate Plain(b: Books, e: Entry, loan: nat) {
    && |e.lines| == 2
    && var from, to := e.lines[Other(e, loan)], e.lines[1 - Other(e, loan)];
       && from.account != loan && from.direction == Debit && to.account == loan && to.direction == Credit
       && 0 < from.amount == to.amount
       && from.account < |b.accounts| && b.accounts[from.account].normal == Credit
  }

  /** Customers' wallets are deposits, so credit-normal. */
  predicate WalletsCredit(accounts: seq<Account>) {
    forall a :: 0 <= a < |accounts| && accounts[a].product == W.WALLET ==> accounts[a].normal == Credit
  }

  /** A string no entry and no account uses, however it is prefixed. */
  function Fresh(b: Books): (name: string)
    ensures forall i :: 0 <= i < |b.journal| ==> |b.journal[i].key| < |name| && |b.journal[i].reference| < |name|
    ensures forall a :: 0 <= a < |b.accounts| ==> |b.accounts[a].number| < |name|
  {
    seq(1 + Longest(b), _ => 'x')
  }

  function Longest(b: Books): (n: nat)
    ensures forall i :: 0 <= i < |b.journal| ==> |b.journal[i].key| <= n && |b.journal[i].reference| <= n
    ensures forall a :: 0 <= a < |b.accounts| ==> |b.accounts[a].number| <= n
    decreases |b.journal| + |b.accounts|
  {
    if b.journal != [] then
      var last := |b.journal| - 1;
      var m := Longest(b.(journal := b.journal[..last]));
      m + |b.journal[last].key| + |b.journal[last].reference|
    else if b.accounts != [] then
      var last := |b.accounts| - 1;
      Longest(b.(accounts := b.accounts[..last])) + |b.accounts[last].number|
    else 0
  }

  /** An account of anybody's, opened in the meantime under a new number. */
  function NewRow(b: Books, customer: Option<string>, product: string): Account {
    Account(Fresh(b), customer, product, Credit, Active, true, NoTerms)
  }

  lemma {:induction false} NewRowColumns(b: Books, customer: Option<string>, product: string)
    ensures var row := NewRow(b, customer, product);
            row.normal == Credit && row.status == Active && row.product == product && row.customer == customer
  {
  }

  lemma {:induction false} OpensElsewhere(s: System, loan: nat, customer: Option<string>, product: string)
    ensures var row := NewRow(s.books, customer, product);
            && Step(s.books, OpenRequest(row)).0 == s.books.(accounts := s.books.accounts + [row])
            && Foreign(s.books, OpenRequest(row), loan)
  {
  }

  lemma {:induction false} TwoEvents(s: System, loan: nat, a: LoanEvent, b: LoanEvent)
    ensures HappenAll(s, loan, [a, b]) == Happen(Happen(s, loan, a), loan, b)
    ensures [a, b][..0] == [] && [a, b][..1] == [a] && HappenAll(s, loan, [a]) == Happen(s, loan, a)
  {
    hide Happen;
    LastEvent(s, loan, [], a);
    LastEvent(s, loan, [a], b);
    assert [] + [a] == [a] && [a] + [b] == [a, b];
  }

  /** What a debit of `amount` on the loan, written while the closer waits, leaves behind. */
  lemma {:induction false} ClosesOwingAmount(s: System, loan: nat, i: nat, amount: int)
    requires loan < |s.books.accounts| && i < |s.callers| && s.callers[i] == SawZero
    requires Balance(s.books, loan) == amount && 0 < amount
    ensures !ClosedAtZero(Happen(s, loan, CloseRepaid(i)).books, loan)
  {
    var after := Happen(s, loan, CloseRepaid(i)).books;
    assert Balance(after, loan) == Balance(s.books, loan);
  }

  /** An interest pass that read a balance earlier can post it, its counter account thawed meanwhile. */
  lemma {:induction false} InterestCarriedOut(s: System, loan: nat, i: nat, j: nat) returns (between: seq<LoanEvent>)
    requires IsLoan(s.books, loan) && s.books.accounts[loan].status == Active && s.books.accounts[loan].normal == Debit
    requires Balance(s.books, loan) == 0 && CountersCredit(s)
    requires i < |s.callers| && s.callers[i] == SawZero
    requires j < |s.callers| && s.callers[j].SawBalance? && Threatens(s.books, loan, s.callers[j])
    ensures Possible(s, loan, between, i) && !ClosedAtZero(Closing(s, loan, between, i), loan)
  {
    hide Foreign;
    hide DailyInterest;
    hide Step;
    hide Balance;
    hide Post;
    hide InterestMove;
    hide InterestKey;
    var c := s.callers[j];
    var thaw, post := Elsewhere(StatusRequest(c.counter, Active)), PostInterest(j);
    between := [thaw, post];
    ThawsElsewhere(s, loan, c.counter);
    TwoEvents(s, loan, thaw, post);
    var thawed := Step(s.books, StatusRequest(c.counter, Active)).0;
    assert Happen(s, loan, thaw) == System(thawed, s.callers);
    SameJournalBalance(s.books, thawed, loan);
    var interest := DailyInterest(c.balance, c.rateBps);
    InterestLands(thawed, loan, c.counter, interest, c.day);
    var posted := Happen(System(thawed, s.callers), loan, post);
    assert posted.callers[i] == SawZero;
    ClosesOwingAmount(posted, loan, i, interest);
    assert Possible(s, loan, between, i);
  }

  lemma {:induction false} ThawsElsewhere(s: System, loan: nat, a: nat)
    requires loan < |s.books.accounts| && a < |s.books.accounts| && a != loan
    ensures Foreign(s.books, StatusRequest(a, Active), loan)
    ensures Step(s.books, StatusRequest(a, Active)).0
            == s.books.(accounts := s.books.accounts[a := s.books.accounts[a].(status := Active)])
  {
  }

  /** A reversal, the other account thawed meanwhile, puts back what the entry took off. */
  lemma {:induction false} ReversalCarriedOut(s: System, loan: nat, i: nat, id: nat) returns (between: seq<LoanEvent>)
    requires IsLoan(s.books, loan) && s.books.accounts[loan].status == Active && s.books.accounts[loan].normal == Debit
    requires Balance(s.books, loan) == 0 && PlainHistory(s.books, loan)
    requires i < |s.callers| && s.callers[i] == SawZero
    requires Reversible(s.books, loan, id)
    ensures Possible(s, loan, between, i) && !ClosedAtZero(Closing(s, loan, between, i), loan)
  {
    hide Foreign;
    hide Step;
    hide Balance;
    var e := s.books.journal[id];
    assert Plain(s.books, e, loan);
    var from := e.lines[Other(e, loan)];
    hide Plain;
    hide Other;
    var reverse := ReverseRequest(ReverseInput(id, "dispute", Fresh(s.books)), e.lines);
    var thaw, undo := Elsewhere(StatusRequest(from.account, Active)), Elsewhere(reverse);
    between := [thaw, undo];
    ThawsElsewhere(s, loan, from.account);
    TwoEvents(s, loan, thaw, undo);
    var thawed := Step(s.books, StatusRequest(from.account, Active)).0;
    assert Happen(s, loan, thaw) == System(thawed, s.callers);
    SameJournalBalance(s.books, thawed, loan);
    PlainThawed(s.books, thawed, e, loan);
    ReversalLands(thawed, loan, id, Fresh(s.books), e.lines);
    ReversesElsewhere(thawed, reverse, loan);
    var undone := Step(thawed, reverse).0;
    assert Happen(System(thawed, s.callers), loan, undo) == System(undone, s.callers);
    ClosesOwingAmount(System(undone, s.callers), loan, i, from.amount);
    assert Possible(s, loan, between, i);
  }

  lemma {:induction false} ReversesElsewhere(b: Books, request: Request, loan: nat)
    requires request.ReverseRequest?
    ensures Foreign(b, request, loan)
    ensures Step(b, request) == Reverse(b, request.reverse, request.loaded)
  {
    hide Reverse;
  }

  lemma {:induction false} PlainThawed(b: Books, after: Books, e: Entry, loan: nat)
    requires Plain(b, e, loan) && |after.accounts| == |b.accounts|
    requires forall a :: 0 <= a < |b.accounts| ==> after.accounts[a].normal == b.accounts[a].normal
    ensures Plain(after, e, loan)
  {
  }

  /** Reversing a two-line entry that took something off the loan puts it back. */
  lemma {:induction false} ReversalLands(b: Books, loan: nat, id: nat, key: string, loaded: seq<Line>)
    requires loan < |b.accounts| && b.accounts[loan].status == Active && b.accounts[loan].normal == Debit
    requires Reversible(b, loan, id) && Plain(b, b.journal[id], loan)
    requires var e := b.journal[id]; b.accounts[e.lines[Other(e, loan)].account].status == Active
    requires FindKey(b.journal, key).None? && LoadLines(b.journal[id], loaded) == b.journal[id].lines
    ensures var after := Reverse(b, ReverseInput(id, "dispute", key), loaded).0;
            var e := b.journal[id];
            after.accounts == b.accounts && Balance(after, loan) == Balance(b, loan) + e.lines[Other(e, loan)].amount
  {
    var e := b.journal[id];
    var input := ReversalInput(e, ReverseInput(id, "dispute", key), loaded);
    var k := Other(e, loan);
    var w, amount := e.lines[k].account, e.lines[k].amount;
    assert |input.lines| == 2 && input.lines[k] == LineInput(w, Credit, amount) && input.lines[1 - k] == LineInput(loan, Debit, amount);
    assert LineGuard(b, input.lines[0]).None? && LineGuard(b, input.lines[1]).None?;
    hide Balance;
    hide LineGuard;
    FlippedPair(input.lines, k, w, loan, amount);
    PostMoves(b, input, Some(id), loan);
  }

  lemma {:induction false} FlippedPair(lines: seq<LineInput>, k: nat, w: nat, loan: nat, amount: int)
    requires |lines| == 2 && k < 2 && 0 < amount && w != loan
    requires lines[k] == LineInput(w, Credit, amount) && lines[1 - k] == LineInput(loan, Debit, amount)
    ensures LinesError(lines).None?
    ensures Sum(lines, OnInput(loan, Debit)) == amount && Sum(lines, OnInput(loan, Credit)) == 0
  {
    SumPair(lines[0], lines[1], InputOn(Debit));
    SumPair(lines[0], lines[1], InputOn(Credit));
    SumPair(lines[0], lines[1], OnInput(loan, Debit));
    SumPair(lines[0], lines[1], OnInput(loan, Credit));
    assert lines == [lines[0], lines[1]];
  }

  lemma {:induction false} SameJournalBalance(b: Books, after: Books, a: nat)
    requires a < |b.accounts| && a < |after.accounts| && after.accounts[a].normal == b.accounts[a].normal
    requires after.journal == b.journal
    ensures Balance(after, a) == Balance(b, a)
  {
  }

  /** One request that leaves the loan's customer with an active wallet. */
  function WalletRequest(b: Books, loan: nat): Request
    requires loan < |b.accounts| && b.accounts[loan].customer.Some?
  {
    var wallet := WalletOf(b, loan);
    if wallet.Some? then StatusRequest(wallet.value, Active)
    else OpenRequest(NewRow(b, b.accounts[loan].customer, W.WALLET))
  }

  lemma {:induction false} WalletReady(s: System, loan: nat)
    requires IsLoan(s.books, loan) && s.books.accounts[loan].customer.Some? && WalletsCredit(s.books.accounts)
    ensures var request := WalletRequest(s.books, loan);
            var after := Step(s.books, request).0;
            && Foreign(s.books, request, loan)
            && after.journal == s.books.journal
            && loan < |after.accounts| && after.accounts[loan] == s.books.accounts[loan]
            && WalletOf(after, loan).Some?
            && var w := WalletOf(after, loan).value;
               w < |after.accounts| && w != loan && after.accounts[w].status == Active && after.accounts[w].normal == Credit
  {
    hide Balance;
    var customer := s.books.accounts[loan].customer;
    var wallet := WalletOf(s.books, loan);
    if wallet.None? {
      OpensElsewhere(s, loan, customer, W.WALLET);
      var row := NewRow(s.books, customer, W.WALLET);
      assert (s.books.accounts + [row])[..|s.books.accounts|] == s.books.accounts;
    } else {
      StatusResolves(s.books.accounts, wallet.value, Active, customer.value);
    }
  }

  lemma {:induction false} StatusResolves(accounts: seq<Account>, a: nat, status: Status, customer: string)
    requires a < |accounts|
    ensures W.ByCustomer(accounts[a := accounts[a].(status := status)], customer, W.WALLET) == W.ByCustomer(accounts, customer, W.WALLET)
  {
    W.ResolvesInFull(accounts, accounts[a := accounts[a].(status := status)], customer, W.WALLET, "");
  }

  /** A claim in flight can be paid out to the customer's wallet, opened or thawed meanwhile. */
  lemma {:induction false} ClaimCarriedOut(s: System, loan: nat, i: nat, j: nat) returns (between: seq<LoanEvent>)
    requires IsLoan(s.books, loan) && s.books.accounts[loan].status == Active && s.books.accounts[loan].normal == Debit
    requires Balance(s.books, loan) == 0 && WalletsCredit(s.books.accounts)
    requires i < |s.callers| && s.callers[i] == SawZero
    requires j < |s.callers| && s.callers[j].Claimed? && Threatens(s.books, loan, s.callers[j])
    ensures Possible(s, loan, between, i) && !ClosedAtZero(Closing(s, loan, between, i), loan)
  {
    hide Foreign;
    hide Step;
    hide Balance;
    hide WalletRequest;
    var c := s.callers[j];
    var ready, post := Elsewhere(WalletRequest(s.books, loan)), PostDisburse(j, 0);
    between := [ready, post];
    WalletReady(s, loan);
    TwoEvents(s, loan, ready, post);
    var books := Step(s.books, WalletRequest(s.books, loan)).0;
    assert Happen(s, loan, ready) == System(books, s.callers);
    SameJournalBalance(s.books, books, loan);
    PayOutLands(books, loan, c.terms.principalKobo, c.slip);
    var posted := Happen(System(books, s.callers), loan, post);
    assert posted.callers[i] == SawZero;
    ClosesOwingAmount(posted, loan, i, c.terms.principalKobo);
    assert Possible(s, loan, between, i);
  }

  lemma {:induction false} PayOutLands(b: Books, loan: nat, principal: int, slip: W.Slip)
    requires loan < |b.accounts| && b.accounts[loan].status == Active && b.accounts[loan].normal == Debit && 0 < principal
    requires FindKey(b.journal, slip.key).None? && !ReferenceUsed(b.journal, slip.reference)
    requires WalletOf(b, loan).Some?
    requires var w := WalletOf(b, loan).value;
             w < |b.accounts| && w != loan && b.accounts[w].status == Active && b.accounts[w].normal == Credit
    ensures var after := PayOut(b, loan, principal, slip).0;
            && loan < |after.accounts| && Balance(after, loan) == Balance(b, loan) + principal
  {
    var w := WalletOf(b, loan).value;
    assert LineGuard(b, LineInput(loan, Debit, principal)).None? && LineGuard(b, LineInput(w, Credit, principal)).None?;
    hide Post;
    hide LineGuard;
    hide Balance;
    W.MoveAccepted(b, "loan_disbursement", loan, w, principal, slip);
    W.MoveMovesMoney(b, "loan_disbursement", loan, w, principal, slip, loan);
  }

  /** Something can still be put on the loan: by a caller in flight, or by reversing what took something off. */
  ghost predicate StillOpen(s: System, loan: nat)
    requires loan < |s.books.accounts|
  {
    || (exists j :: 0 <= j < |s.callers| && Threatens(s.books, loan, s.callers[j]))
    || (exists id :: 0 <= id < |s.books.journal| && Reversible(s.books, loan, id))
  }

  /**
   * Caller `i` has read a zero balance and is about to close the loan. Among
   * other callers, any reversals and posts that do not name the loan, it closes
   * a loan that owes nothing if and only if at the reading no other caller
   * holds an unposted claim that can still be paid out or a positive balance
   * whose interest it can still post, and no entry that took something off the
   * loan can still be reversed.
   */
  lemma {:induction false} ClosesSettledExactly(s: System, loan: nat, i: nat)
    requires IsLoan(s.books, loan) && s.books.accounts[loan].status == Active
    requires s.books.accounts[loan].normal == Debit && !s.books.accounts[loan].allowNegative
    requires Balance(s.books, loan) == 0
    requires WalletsCredit(s.books.accounts) && CountersCredit(s) && PlainHistory(s.books, loan)
    requires i < |s.callers| && s.callers[i] == SawZero
    ensures !StillOpen(s, loan)
            <==> forall between :: Possible(s, loan, between, i) ==> ClosedAtZero(Closing(s, loan, between, i), loan)
  {
    hide Threatens;
    hide Reversible;
    hide Foreign;
    hide Happen;
    hide HappenAll;
    if !StillOpen(s, loan) {
      assert Calm(s, loan);
      forall between | Possible(s, loan, between, i) ensures ClosedAtZero(Closing(s, loan, between, i), loan) {
        StaysCalm(s, loan, between);
        CallerWaits(s, loan, between, i);
        CalmClose(HappenAll(s, loan, between), loan, i);
      }
    } else {
      var between: seq<LoanEvent>;
      if j :| 0 <= j < |s.callers| && Threatens(s.books, loan, s.callers[j]) {
        ThreatKinds(s.books, loan, s.callers[j]);
        if s.callers[j].SawBalance? {
          between := InterestCarriedOut(s, loan, i, j);
        } else {
          between := ClaimCarriedOut(s, loan, i, j);
        }
      } else {
        var id :| 0 <= id < |s.books.journal| && Reversible(s.books, loan, id);
        between := ReversalCarriedOut(s, loan, i, id);
      }
    }
  }

  /** Against all traffic no zero reading is safe: one post that names the loan, made in between, leaves it closed and owing. */
  lemma {:induction false} NoReadingIsSafe(s: System, loan: nat, i: nat) returns (between: seq<LoanEvent>)
    requires loan < |s.books.accounts| && s.books.accounts[loan].status == Active && s.books.accounts[loan].normal == Debit
    requires Balance(s.books, loan) == 0
    requires i < |s.callers| && s.callers[i] == SawZero
    ensures forall k :: 0 <= k < |between| ==> between[k].Elsewhere?
    ensures var after := Closing(s, loan, between, i);
            loan < |after.accounts| && after.accounts[loan].status == Closed && Balance(after, loan) == 1
  {
    hide Step;
    hide Balance;
    hide NewRow;
    var row, counter := NewRow(s.books, None, "adjustment"), |s.books.accounts|;
    var slip := W.Slip(Fresh(s.books), Fresh(s.books), "");
    var post := W.Move("adjustment", loan, counter, 1, slip);
    var first, second := Elsewhere(OpenRequest(row)), Elsewhere(PostRequest(post));
    between := [first, second];
    OpensElsewhere(s, loan, None, "adjustment");
    NewRowColumns(s.books, None, "adjustment");
    TwoEvents(s, loan, first, second);
    var grown := s.books.(accounts := s.books.accounts + [row]);
    assert Happen(s, loan, first) == System(grown, s.callers);
    SameJournalBalance(s.books, grown, loan);
    DebitLands(grown, loan, counter, slip);
    var posted := Post(grown, post).0;
    PostIsStep(grown, post);
    assert Happen(System(grown, s.callers), loan, second) == System(posted, s.callers);
    SameJournalBalance(posted, Closing(s, loan, between, i), loan);
  }

  lemma {:induction false} PostIsStep(b: Books, post: PostInput)
    ensures Step(b, PostRequest(post)) == Post(b, post)
  {
  }

  lemma {:induction false} DebitLands(b: Books, loan: nat, counter: nat, slip: W.Slip)
    requires loan < |b.accounts| && counter < |b.accounts| && loan != counter
    requires b.accounts[loan].status == Active && b.accounts[loan].normal == Debit
    requires b.accounts[counter].status == Active && b.accounts[counter].normal == Credit
    requires FindKey(b.journal, slip.key).None? && !ReferenceUsed(b.journal, slip.reference)
    ensures var after := Post(b, W.Move("adjustment", loan, counter, 1, slip)).0;
            after.accounts == b.accounts && Balance(after, loan) == Balance(b, loan) + 1
  {
    assert LineGuard(b, LineInput(loan, Debit, 1)).None? && LineGuard(b, LineInput(counter, Credit, 1)).None?;
    hide Post;
    hide LineGuard;
    hide Balance;
    W.MoveAccepted(b, "adjustment", loan, counter, 1, slip);
    W.MoveMovesMoney(b, "adjustment", loan, counter, 1, slip, loan);
  }

  lemma {:induction false} ThreatKinds(b: Books, loan: nat, c: Caller)
    requires loan < |b.accounts| && Threatens(b, loan, c)
    ensures c.SawBalance? || c.Claimed?
  {
  }

  lemma {:induction false} CalmClose(s: System, loan: nat, i: nat)
    requires Calm(s, loan) && i < |s.callers| && s.callers[i] == SawZero
    ensures ClosedAtZero(Happen(s, loan, CloseRepaid(i)).books, loan)
  {
    hide Threatens;
    var after := Happen(s, loan, CloseRepaid(i)).books;
    SameJournalBalance(s.books, after, loan);
  }

  // ---- Interleaving can close a loan that still owes ----

  /** An active loan its customer can pay off in full, on a day whose interest is still to be posted. */
  ghost predicate Payable(b: Books, loan: nat, customer: string, wallet: nat, counter: nat, slip: W.Slip, day: string) {
    && IsLoan(b, loan) && b.accounts[loan].status == Active && b.accounts[loan].normal == Debit
    && b.accounts[loan].customer == Some(customer)
    && W.ByCustomer(b.accounts, customer, W.WALLET) == Some(wallet) && wallet != loan
    && b.accounts[wallet].status == Active && b.accounts[wallet].normal == Credit
    && counter < |b.accounts| && counter != loan
    && b.accounts[counter].status == Active && b.accounts[counter].normal == Credit
    && 0 < Balance(b, loan) <= Balance(b, wallet)
    && 0 < DailyInterest(Balance(b, loan), b.accounts[loan].terms.loanRateBps)
    && slip.reference == slip.key && slip.key != InterestKey(LoanInterest, loan, day)
    && W.Unused(b.journal, slip.key) && W.Unused(b.journal, InterestKey(LoanInterest, loan, day))
  }

  /** The interest pass reads, then the whole debt is repaid and read back as zero. */
  lemma {:induction false} ReadsZero(b: Books, loan: nat, customer: string, wallet: nat, counter: nat, slip: W.Slip, day: string)
    requires Payable(b, loan, customer, wallet, counter, slip, day)
    ensures var owed := Balance(b, loan);
            var saw := SawBalance(owed, b.accounts[loan].terms.loanRateBps, counter, day);
            var paid := TakeRepayment(b, customer, loan, owed, slip).0;
            var s1 := Happen(System(b, []), loan, ReadForInterest(counter, day));
            var s2 := Happen(s1, loan, BeginRepay(customer, owed, slip));
            var s3 := Happen(s2, loan, PostRepay(1));
            Happen(s3, loan, ReadAfterRepay(1)) == System(paid, [saw, SawZero])
  {
    var owed := Balance(b, loan);
    var saw := SawBalance(owed, b.accounts[loan].terms.loanRateBps, counter, day);
    PaidOff(b, loan, customer, wallet, slip);
    hide Balance;
    hide TakeRepayment;
    var paid := TakeRepayment(b, customer, loan, owed, slip).0;
    BothRead(b, loan, customer, slip, counter, day);
    assert Happen(System(b, [saw, Checked(customer, owed, slip)]), loan, PostRepay(1)) == System(paid, [saw, Repaid]);
    assert Happen(System(paid, [saw, Repaid]), loan, ReadAfterRepay(1)) == System(paid, [saw, SawZero]);
  }

  lemma {:induction false} BothRead(b: Books, loan: nat, customer: string, slip: W.Slip, counter: nat, day: string)
    requires IsLoan(b, loan) && b.accounts[loan].status == Active && b.accounts[loan].customer == Some(customer)
    ensures var owed := Balance(b, loan);
            var saw := SawBalance(owed, b.accounts[loan].terms.loanRateBps, counter, day);
            Happen(Happen(System(b, []), loan, ReadForInterest(counter, day)), loan, BeginRepay(customer, owed, slip))
            == System(b, [saw, Checked(customer, owed, slip)])
  {
    hide Balance;
  }

  lemma {:induction false} ClosesOwing(paid: Books, loan: nat, counter: nat, owed: int, rateBps: int, day: string)
    requires loan < |paid.accounts| && counter < |paid.accounts| && loan != counter
    requires paid.accounts[loan].status == Active && paid.accounts[loan].normal == Debit
    requires paid.accounts[counter].status == Active && paid.accounts[counter].normal == Credit
    requires W.Unused(paid.journal, InterestKey(LoanInterest, loan, day))
    requires Balance(paid, loan) == 0 && 0 < owed && 0 < DailyInterest(owed, rateBps)
    ensures var s5 := Happen(System(paid, [SawBalance(owed, rateBps, counter, day), SawZero]), loan, PostInterest(0));
            var after := Happen(s5, loan, CloseRepaid(1)).books;
            && loan < |after.accounts| && after.accounts[loan].status == Closed
            && Balance(after, loan) == DailyInterest(owed, rateBps)
  {
    hide Post;
    hide InterestMove;
    hide DailyInterest;
    hide W.Unused;
    InterestLands(paid, loan, counter, DailyInterest(owed, rateBps), day);
    var s5 := Happen(System(paid, [SawBalance(owed, rateBps, counter, day), SawZero]), loan, PostInterest(0));
    assert s5.callers == [Gone, SawZero];
    assert Balance(Happen(s5, loan, CloseRepaid(1)).books, loan) == Balance(s5.books, loan);
  }

  /**
   * Closing is sound only while nothing overlaps it. From any loan that can be
   * paid off, an interest pass that read the old balance and posts
   * between the zero reading and the close leaves a CLOSED loan that owes the
   * interest.
   */
  lemma {:induction false} OverlapClosesDebt(b: Books, loan: nat, customer: string, wallet: nat, counter: nat, slip: W.Slip, day: string)
    requires Payable(b, loan, customer, wallet, counter, slip, day)
    ensures var events := [ReadForInterest(counter, day), BeginRepay(customer, Balance(b, loan), slip), PostRepay(1), ReadAfterRepay(1),
                           PostInterest(0), CloseRepaid(1)];
            var after := HappenAll(System(b, []), loan, events).books;
            && loan < |after.accounts| && after.accounts[loan].status == Closed
            && Balance(after, loan) == DailyInterest(Balance(b, loan), b.accounts[loan].terms.loanRateBps) > 0
  {
    var owed := Balance(b, loan);
    ReadsZero(b, loan, customer, wallet, counter, slip, day);
    PaidOff(b, loan, customer, wallet, slip);
    ClosesOwing(TakeRepayment(b, customer, loan, owed, slip).0, loan, counter, owed, b.accounts[loan].terms.loanRateBps, day);
    SixEvents(System(b, []), loan, ReadForInterest(counter, day), BeginRepay(customer, owed, slip), PostRepay(1), ReadAfterRepay(1),
              PostInterest(0), CloseRepaid(1));
  }

  /**
   * So does a reversal of the repayment itself, by anybody: from any loan that
   * can be paid off, reversed between the zero reading and the close, the loan
   * is closed owing all it did, though no other caller was in flight.
   */
  lemma {:induction false} ReversalReopensDebt(b: Books, loan: nat, customer: string, wallet: nat, counter: nat, slip: W.Slip, day: string, key: string)
    requires Payable(b, loan, customer, wallet, counter, slip, day)
    requires Sound(b) && key != slip.key && FindKey(b.journal, key).None? && !ReferenceUsed(b.journal, slip.key + "-REV")
    ensures var events := [BeginRepay(customer, Balance(b, loan), slip), PostRepay(0), ReadAfterRepay(0),
                           Elsewhere(ReverseRequest(ReverseInput(|b.journal|, "dispute", key), [])), CloseRepaid(0)];
            var after := HappenAll(System(b, []), loan, events).books;
            && loan < |after.accounts| && after.accounts[loan].status == Closed
            && Balance(after, loan) == Balance(b, loan) > 0
  {
    hide Balance;
    hide Happen;
    hide HappenAll;
    hide TakeRepayment;
    hide Reverse;
    var owed := Balance(b, loan);
    var paid := TakeRepayment(b, customer, loan, owed, slip).0;
    var read := [BeginRepay(customer, owed, slip), PostRepay(0), ReadAfterRepay(0)];
    PaidOff(b, loan, customer, wallet, slip);
    RepaidInFull(b, loan, customer, slip);
    RepaymentUndone(b, loan, customer, wallet, slip, key);
    hide Payable;
    var reverse := ReverseRequest(ReverseInput(|b.journal|, "dispute", key), []);
    var rest := [Elsewhere(reverse), CloseRepaid(0)];
    ReversesElsewhere(paid, reverse, loan);
    EventsConcat(System(b, []), loan, read, rest);
    assert read + rest == [read[0], read[1], read[2], rest[0], rest[1]];
    TwoEvents(System(paid, [SawZero]), loan, rest[0], rest[1]);
    ReversedThenClosed(paid, loan, reverse);
  }

  /** Reversing a full repayment brings the whole debt back. */
  lemma {:induction false} RepaymentUndone(b: Books, loan: nat, customer: string, wallet: nat, slip: W.Slip, key: string)
    requires IsLoan(b, loan) && b.accounts[loan].status == Active && b.accounts[loan].normal == Debit
    requires W.ByCustomer(b.accounts, customer, W.WALLET) == Some(wallet) && wallet != loan
    requires b.accounts[wallet].status == Active && b.accounts[wallet].normal == Credit
    requires 0 < Balance(b, loan) <= Balance(b, wallet)
    requires W.Unused(b.journal, slip.key) && slip.reference == slip.key
    requires Sound(b) && key != slip.key && FindKey(b.journal, key).None? && !ReferenceUsed(b.journal, slip.key + "-REV")
    ensures var paid := TakeRepayment(b, customer, loan, Balance(b, loan), slip).0;
            var after := Reverse(paid, ReverseInput(|b.journal|, "dispute", key), []).0;
            && after.accounts == b.accounts && Balance(after, loan) == Balance(b, loan)
  {
    hide Balance;
    hide TakeRepayment;
    hide Reversible;
    hide Plain;
    hide Other;
    hide Reverse;
    hide LineGuard;
    hide Sound;
    hide FindKey;
    var paid := TakeRepayment(b, customer, loan, Balance(b, loan), slip).0;
    PaidOff(b, loan, customer, wallet, slip);
    RepaymentReversible(b, loan, customer, wallet, slip);
    StillFree(b.journal, paid.journal, key);
    ReversalLands(paid, loan, |b.journal|, key, []);
  }

  lemma {:induction false} StillFree(before: seq<Entry>, after: seq<Entry>, key: string)
    requires |after| == |before| + 1 && after[..|before|] == before && after[|before|].key != key
    requires FindKey(before, key).None?
    ensures FindKey(after, key).None?
  {
  }

  lemma {:induction false} ReversedThenClosed(paid: Books, loan: nat, reverse: Request)
    requires reverse.ReverseRequest? && loan < |Step(paid, reverse).0.accounts|
    ensures var reversed := Step(paid, reverse).0;
            var after := Happen(Happen(System(paid, [SawZero]), loan, Elsewhere(reverse)), loan, CloseRepaid(0)).books;
            && loan < |after.accounts| && after.accounts[loan].status == Closed
            && Balance(after, loan) == Balance(reversed, loan)
    ensures Step(paid, reverse) == Reverse(paid, reverse.reverse, reverse.loaded)
  {
    hide Reverse;
    var reversed := Step(paid, reverse).0;
    assert Happen(System(paid, [SawZero]), loan, Elsewhere(reverse)) == System(reversed, [SawZero]);
    SameJournalBalance(reversed, Happen(System(reversed, [SawZero]), loan, CloseRepaid(0)).books, loan);
  }

  /** With nobody else about, repaying in full ends in a zero reading. */
  lemma {:induction false} RepaidInFull(b: Books, loan: nat, customer: string, slip: W.Slip)
    requires IsLoan(b, loan) && b.accounts[loan].status == Active && b.accounts[loan].customer == Some(customer)
    requires var (after, outcome) := TakeRepayment(b, customer, loan, Balance(b, loan), slip);
             outcome.Done? && after.accounts == b.accounts && Balance(after, loan) == 0
    ensures var owed := Balance(b, loan);
            HappenAll(System(b, []), loan, [BeginRepay(customer, owed, slip), PostRepay(0), ReadAfterRepay(0)])
            == System(TakeRepayment(b, customer, loan, owed, slip).0, [SawZero])
  {
    hide Balance;
    hide TakeRepayment;
    var owed := Balance(b, loan);
    ThreeEvents(System(b, []), loan, BeginRepay(customer, owed, slip), PostRepay(0), ReadAfterRepay(0));
    assert Happen(System(b, []), loan, BeginRepay(customer, owed, slip)) == System(b, [Checked(customer, owed, slip)]);
    var paid := TakeRepayment(b, customer, loan, owed, slip).0;
    assert Happen(System(b, [Checked(customer, owed, slip)]), loan, PostRepay(0)) == System(paid, [Repaid]);
    assert Happen(System(paid, [Repaid]), loan, ReadAfterRepay(0)) == System(paid, [SawZero]);
  }

  /** The entry a full repayment writes can be reversed. */
  lemma {:induction false} RepaymentReversible(b: Books, loan: nat, customer: string, wallet: nat, slip: W.Slip)
    requires Sound(b) && loan < |b.accounts| && !ReferenceUsed(b.journal, slip.reference + "-REV")
    requires W.ByCustomer(b.accounts, customer, W.WALLET) == Some(wallet) && wallet != loan && b.accounts[wallet].normal == Credit
    requires var paid := TakeRepayment(b, customer, loan, Balance(b, loan), slip).0;
             paid.accounts == b.accounts && |paid.journal| == |b.journal| + 1
    ensures var paid := TakeRepayment(b, customer, loan, Balance(b, loan), slip).0;
            var e := paid.journal[|b.journal|];
            && Reversible(paid, loan, |b.journal|) && Plain(paid, e, loan)
            && e.lines[Other(e, loan)].account == wallet && e.lines[Other(e, loan)].amount == Balance(b, loan)
  {
    hide Balance;
    var owed, n := Balance(b, loan), |b.journal|;
    var input := W.Move("loan_repayment", wallet, loan, owed, slip);
    W.MoveWellFormed("loan_repayment", wallet, loan, owed, slip);
    var paid := TakeRepayment(b, customer, loan, owed, slip).0;
    assert paid.journal == b.journal + [NewEntry(input, None)];
    assert paid.journal[n].lines[1].account == loan;
    assert |slip.reference + "-REV"| != |slip.reference|;
    forall i | 0 <= i < |paid.journal| ensures paid.journal[i].reversalOf != Some(n) && paid.journal[i].reference != slip.reference + "-REV" {
      if i < n {
        assert paid.journal[i] == b.journal[i];
      }
    }
  }

  lemma {:induction false} EventsConcat(s: System, loan: nat, first: seq<LoanEvent>, rest: seq<LoanEvent>)
    ensures HappenAll(s, loan, first + rest) == HappenAll(HappenAll(s, loan, first), loan, rest)
  {
    hide Happen;
    if rest == [] {
      assert first + rest == first;
    } else {
      EventsConcat(s, loan, first, rest[..|rest| - 1]);
      assert (first + rest)[..|first + rest| - 1] == first + rest[..|rest| - 1];
    }
  }

  lemma {:induction false} SixEvents(s: System, loan: nat, a: LoanEvent, b: LoanEvent, c: LoanEvent, d: LoanEvent, e: LoanEvent, f: LoanEvent)
    ensures HappenAll(s, loan, [a, b, c, d, e, f])
            == Happen(Happen(Happen(Happen(Happen(Happen(s, loan, a), loan, b), loan, c), loan, d), loan, e), loan, f)
  {
    hide Happen;
    hide HappenAll;
    EventsConcat(s, loan, [a, b, c], [d, e, f]);
    assert [a, b, c] + [d, e, f] == [a, b, c, d, e, f];
    ThreeEvents(s, loan, a, b, c);
    ThreeEvents(HappenAll(s, loan, [a, b, c]), loan, d, e, f);
  }

  lemma {:induction false} PaidOff(b: Books, loan: nat, customer: string, wallet: nat, slip: W.Slip)
    requires IsLoan(b, loan) && b.accounts[loan].status == Active && b.accounts[loan].normal == Debit
    requires W.ByCustomer(b.accounts, customer, W.WALLET) == Some(wallet)
    requires b.accounts[wallet].status == Active && b.accounts[wallet].normal == Credit && wallet != loan
    requires 0 < Balance(b, loan) <= Balance(b, wallet)
    requires W.Unused(b.journal, slip.key) && slip.reference == slip.key
    ensures var (after, outcome) := TakeRepayment(b, customer, loan, Balance(b, loan), slip);
            && outcome.Done? && after.accounts == b.accounts && Balance(after, loan) == 0
            && |after.journal| == |b.journal| + 1 && after.journal[..|b.journal|] == b.journal
            && after.journal[|b.journal|].key == slip.key && after.journal[|b.journal|].reference == slip.key
  {
    var owed := Balance(b, loan);
    assert LineGuard(b, LineInput(wallet, Debit, owed)).None? && LineGuard(b, LineInput(loan, Credit, owed)).None?;
    hide Post;
    hide LineGuard;
    W.MoveAccepted(b, "loan_repayment", wallet, loan, owed, slip);
    W.MoveMovesMoney(b, "loan_repayment", wallet, loan, owed, slip, loan);
  }

  lemma {:induction false} InterestLands(b: Books, loan: nat, counter: nat, interest: int, day: string)
    requires loan < |b.accounts| && counter < |b.accounts| && loan != counter && 0 < interest
    requires b.accounts[loan].status == Active && b.accounts[loan].normal == Debit
    requires b.accounts[counter].status == Active && b.accounts[counter].normal == Credit
    requires W.Unused(b.journal, InterestKey(LoanInterest, loan, day))
    ensures var after := Post(b, InterestMove(LoanInterest, loan, counter, interest, day)).0;
            && after.accounts == b.accounts && Balance(after, loan) == Balance(b, loan) + interest
  {
    var input := InterestMove(LoanInterest, loan, counter, interest, day);
    var slip := W.Slip(input.reference, input.key, input.description);
    assert LineGuard(b, input.lines[0]).None? && LineGuard(b, input.lines[1]).None?;
    hide Post;
    hide LineGuard;
    W.MoveAccepted(b, input.entryType, loan, counter, interest, slip);
    W.MoveMovesMoney(b, input.entryType, loan, counter, interest, slip, loan);
  }
}
