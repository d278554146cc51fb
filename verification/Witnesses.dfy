/**
 * Concrete ledgers in which the failures proved elsewhere under hypotheses do
 * happen: each lemma gives the input and what comes of it.
 */
module Witnesses {
  import opened Sums
  import opened Domain
  import opened Ledger
  import LedgerRuns
  import opened Overdraft
  import opened Accrual
  import opened AccrualPass
  import opened TenantPasses
  import opened Network
  import C = Cards
  import K = CardLedger
  import KR = CardRuns
  import Q = LoanClosing
  import Loan
  import LW = LostWrites
  import LoanRuns
  import P = Provision
  import W = Wallet

  // ---- A small tenant ----

  const ADA := "ada"
  const SYSTEM := "system"

  /** A tenant with one customer: her wallet, her loan still to be paid out, and an empty pocket. */
  const ROWS: seq<Account> := [
    Account(W.FLOAT, None, SYSTEM, Debit, Active, true, NoTerms),
    Account("1", Some(ADA), W.WALLET, Credit, Active, false, NoTerms),
    Account("2", Some(ADA), Loan.LOAN, Debit, Pending, false, Terms.Loan(1_000_000, 3650, 30, None, 0)),
    Account(INTEREST_INCOME, None, SYSTEM, Credit, Active, true, NoTerms),
    Account(LOAN_LOSS_PROVISION, None, SYSTEM, Debit, Active, true, NoTerms),
    Account(LOAN_LOSS_RESERVE, None, SYSTEM, Credit, Active, true, NoTerms),
    Account("6", Some(ADA), W.SAVINGS, Credit, Active, false, Savings(500, 0)),
    Account(INTEREST_EXPENSE, None, SYSTEM, Debit, Active, true, NoTerms)]

  const RESERVES := P.Accounts(4, 5)

  function Openings(n: nat): (requests: seq<Request>)
    requires n <= |ROWS|
    ensures |requests| == n
  {
    seq(n, i requires 0 <= i < n => OpenRequest(ROWS[i]))
  }

  lemma {:induction false} NumbersApart(n: nat)
    requires n < |ROWS|
    ensures forall i :: 0 <= i < n ==> ROWS[i].number != ROWS[n].number
  {
    assert |W.FLOAT| == 9 && |INTEREST_INCOME| == 19 && |LOAN_LOSS_PROVISION| == 23 && |LOAN_LOSS_RESERVE| == 21 && |INTEREST_EXPENSE| == 20;
  }

  /** Opening the rows one after another from an empty ledger. */
  lemma {:induction false} OpenedOneByOne(n: nat)
    requires n <= |ROWS|
    ensures Run(EMPTY, Openings(n)).0 == Books(ROWS[..n], [], [])
  {
    if n != 0 {
      OpenedOneByOne(n - 1);
      assert Openings(n)[..n - 1] == Openings(n - 1);
      NumbersApart(n - 1);
      assert ROWS[..n] == ROWS[..n - 1] + [ROWS[n - 1]];
    }
  }

  lemma {:induction false} RunOneMore(b: Books, requests: seq<Request>, r: Request)
    ensures Run(b, requests + [r]).0 == Step(Run(b, requests).0, r).0
  {
    hide Step;
    assert (requests + [r])[..|requests|] == requests;
  }

  /** Whom the customer and the system numbers resolve to, in any books with these rows' fixed columns. */
  lemma {:induction false} Resolves(accounts: seq<Account>)
    requires |accounts| == |ROWS|
    requires forall a :: 0 <= a < |ROWS| ==>
               accounts[a].customer == ROWS[a].customer && accounts[a].product == ROWS[a].product && accounts[a].number == ROWS[a].number
    ensures W.ByCustomer(accounts, ADA, W.WALLET) == Some(1)
    ensures W.ByNumber(accounts, W.FLOAT) == Some(0)
    ensures W.ByNumber(accounts, INTEREST_INCOME) == Some(3)
    ensures W.ByNumber(accounts, INTEREST_EXPENSE) == Some(7)
    ensures ReserveAccounts(accounts) == Some(RESERVES)
  {
    hide W.ByCustomer;
    hide W.ByNumber;
    assert |W.FLOAT| == 9 && |INTEREST_INCOME| == 19 && |LOAN_LOSS_PROVISION| == 23 && |LOAN_LOSS_RESERVE| == 21 && |INTEREST_EXPENSE| == 20;
    assert accounts[0].number == W.FLOAT && accounts[1].customer == Some(ADA) && accounts[1].product == W.WALLET;
    assert accounts[3].number == INTEREST_INCOME && accounts[4].number == LOAN_LOSS_PROVISION;
    assert accounts[5].number == LOAN_LOSS_RESERVE && accounts[7].number == INTEREST_EXPENSE;
  }

  // ---- A loan paid out ----

  const PAID_OUT := W.Slip("d", "d", "Loan disbursement")

  /** The loan is disbursed at noon of the first day. */
  function Lent(): Books {
    Loan.Disburse(Books(ROWS, [], []), 2, PAID_OUT, W.DAY / 2, true).0
  }

  const LENT_TERMS := Terms.Loan(1_000_000, 3650, 30, Some(W.DAY / 2 + 30 * W.DAY), 0)

  /** What the disbursement left: the loan and the wallet hold the principal, and there is one entry. */
  lemma {:induction false} LentHolds()
    ensures var b := Lent();
            && b.accounts == ROWS[2 := ROWS[2].(status := Active, terms := LENT_TERMS)]
            && |b.journal| == 1 && b.journal[0].key == "d" && b.journal[0].reference == "d"
            && Balance(b, 2) == 1_000_000 && Balance(b, 1) == 1_000_000
            && Balance(b, 6) == 0
  {
    hide Post;
    hide Balance;
    hide W.ByCustomer;
    var claimed := SetStatus(Books(ROWS, [], []), 2, Active).0;
    assert claimed == Books(ROWS[2 := ROWS[2].(status := Active)], [], []);
    Resolves(claimed.accounts);
    assert Loan.WalletOf(claimed, 2) == Some(1);
    ClaimedPaid(claimed);
    var paid := Post(claimed, DISBURSEMENT).0;
    assert Lent() == Loan.Mature(paid, 2, W.DAY / 2, true);
    Q.SameJournalBalance(paid, Lent(), 1);
    Q.SameJournalBalance(paid, Lent(), 2);
    Q.SameJournalBalance(paid, Lent(), 6);
  }

  const DISBURSEMENT := W.Move("loan_disbursement", 2, 1, 1_000_000, PAID_OUT)

  lemma {:induction false} ClaimedPaid(claimed: Books)
    requires claimed == Books(ROWS[2 := ROWS[2].(status := Active)], [], [])
    ensures var (paid, reply) := Post(claimed, DISBURSEMENT);
            && reply.Posted? && paid.accounts == claimed.accounts
            && |paid.journal| == 1 && paid.journal[0].key == "d" && paid.journal[0].reference == "d"
            && Balance(paid, 2) == 1_000_000 && Balance(paid, 1) == 1_000_000 && Balance(paid, 6) == 0
  {
    hide Post;
    hide Balance;
    hide LineGuard;
    EmptyGuards(claimed);
    W.MoveAccepted(claimed, "loan_disbursement", 2, 1, 1_000_000, PAID_OUT);
    W.MoveMovesMoney(claimed, "loan_disbursement", 2, 1, 1_000_000, PAID_OUT, 1);
    W.MoveMovesMoney(claimed, "loan_disbursement", 2, 1, 1_000_000, PAID_OUT, 2);
    W.MoveMovesMoney(claimed, "loan_disbursement", 2, 1, 1_000_000, PAID_OUT, 6);
  }

  lemma {:induction false} EmptyGuards(b: Books)
    requires b == Books(ROWS[2 := ROWS[2].(status := Active)], [], [])
    ensures Balance(b, 1) == 0 && Balance(b, 2) == 0 && Balance(b, 6) == 0
    ensures LineGuard(b, LineInput(2, Debit, 1_000_000)).None?
    ensures LineGuard(b, LineInput(1, Credit, 1_000_000)).None?
  {
  }

  /** The ledger above is one that requests reach from an empty one. */
  lemma {:induction false} LentIsReached() returns (requests: seq<Request>)
    ensures Run(EMPTY, requests).0 == Lent()
  {
    hide Post;
    hide Run;
    hide Balance;
    hide W.ByCustomer;
    hide ReserveAccounts;
    var post := DISBURSEMENT;
    var first := Openings(|ROWS|);
    OpenedOneByOne(|ROWS|);
    assert ROWS[..|ROWS|] == ROWS;
    LentHolds();
    var claimed := SetStatus(Books(ROWS, [], []), 2, Active).0;
    Resolves(claimed.accounts);
    RunOneMore(EMPTY, first, StatusRequest(2, Active));
    RunOneMore(EMPTY, first + [StatusRequest(2, Active)], PostRequest(post));
    RunOneMore(EMPTY, first + [StatusRequest(2, Active)] + [PostRequest(post)], TermsRequest(2, LENT_TERMS));
    requests := first + [StatusRequest(2, Active)] + [PostRequest(post)] + [TermsRequest(2, LENT_TERMS)];
    PostKeepsRows(claimed, post);
    assert Post(claimed, post).0.accounts == claimed.accounts;
    assert Lent() == SetTerms(Post(claimed, post).0, 2, LENT_TERMS).0;
  }

  // ---- A loan closed while it owes ----

  const DAY_KEY := "2026-03-03"
  const IN_FULL := W.Slip("r", "r", "Loan repayment")

  lemma {:induction false} InterestKeyIs()
    ensures |InterestKey(LoanInterest, 2, DAY_KEY)| == 26 && |InterestKey(SavingsInterest, 6, DAY_KEY)| == 21
    ensures DailyInterest(1_000_000, 3650) == 1000
  {
    assert |Decimal(2)| == 1 && |Decimal(6)| == 1;
  }

  /**
   * In that ledger a repayment of the whole debt, overtaken by the day's
   * interest, closes the loan at ten naira owed.
   */
  lemma {:induction false} OwedWhenClosed()
    ensures Q.Payable(Lent(), 2, ADA, 1, 3, IN_FULL, DAY_KEY)
    ensures var events := [LoanRuns.ReadForInterest(3, DAY_KEY), LoanRuns.BeginRepay(ADA, 1_000_000, IN_FULL), LoanRuns.PostRepay(1),
                           LoanRuns.ReadAfterRepay(1), LoanRuns.PostInterest(0), LoanRuns.CloseRepaid(1)];
            var after := LoanRuns.HappenAll(LoanRuns.System(Lent(), []), 2, events).books;
            && 2 < |after.accounts| && after.accounts[2].status == Closed && Balance(after, 2) == 1000
  {
    hide Balance;
    hide LoanRuns.HappenAll;
    hide InterestKey;
    hide DailyInterest;
    hide Lent;
    LentHolds();
    InterestKeyIs();
    var b := Lent();
    Resolves(b.accounts);
    assert Q.Payable(b, 2, ADA, 1, 3, IN_FULL, DAY_KEY);
    Q.OverlapClosesDebt(b, 2, ADA, 1, 3, IN_FULL, DAY_KEY);
  }

  /** A staff reversal of that repayment, between the zero reading and the close, leaves the loan closed and owing it all. */
  lemma {:induction false} OwedWhenReversed()
    ensures var events := [LoanRuns.BeginRepay(ADA, 1_000_000, IN_FULL), LoanRuns.PostRepay(0), LoanRuns.ReadAfterRepay(0),
                           LoanRuns.Elsewhere(ReverseRequest(ReverseInput(1, "dispute", "reversal"), [])), LoanRuns.CloseRepaid(0)];
            var after := LoanRuns.HappenAll(LoanRuns.System(Lent(), []), 2, events).books;
            && 2 < |after.accounts| && after.accounts[2].status == Closed && Balance(after, 2) == 1_000_000
  {
    hide Balance;
    hide LoanRuns.HappenAll;
    hide InterestKey;
    hide DailyInterest;
    hide Lent;
    hide Q.Payable;
    LentHolds();
    OwedWhenClosed();
    var b := Lent();
    var requests := LentIsReached();
    LedgerRuns.RunSound(EMPTY, requests);
    assert |IN_FULL.key + "-REV"| == 5;
    Q.ReversalReopensDebt(b, 2, ADA, 1, 3, IN_FULL, DAY_KEY, "reversal");
  }

  // ---- Provisions keyed by date ----

  const MORNING := 61 * W.DAY + W.DAY / 4
  const EVENING := 61 * W.DAY + 3 * W.DAY / 4

  lemma {:induction false} ProvisionTargets(b: Books)
    requires 2 < |b.accounts| && b.accounts[2].terms == LENT_TERMS && Balance(b, 2) == 1_000_000
    ensures P.TargetNow(b, 2, MORNING) == 10_000 && P.TargetNow(b, 2, EVENING) == 100_000
  {
    hide Balance;
    assert Loan.DaysPastDue(LENT_TERMS.maturity, MORNING) == 30;
    assert Loan.DaysPastDue(LENT_TERMS.maturity, EVENING) == 31;
  }

  /** Nothing is provisioned for the new loan, on the books or in its terms. */
  lemma {:induction false} NothingProvisioned()
    ensures P.Agrees(Lent(), 2, RESERVES, 0)
    ensures W.Unused(Lent().journal, P.Prefix(2) + DAY_KEY)
  {
    hide Balance;
    hide Lent;
    LentHolds();
    var b := Lent();
    hide Decimal;
    assert forall t: nat :: P.ProvisionKey(2, t)[0] == 'l';
    assert P.Prefix(2)[0] == 'l';
    SumAppend([], b.journal[0], P.Reserving(2, 5));
    assert [] + [b.journal[0]] == b.journal;
  }

  /**
   * Keyed by date, a pass in the morning and another that evening, after the
   * loan has aged past thirty days, would leave the metadata 900 naira ahead of
   * the reserve.
   */
  lemma {:induction false} DateKeyLosesTheSecondPass()
    ensures var b, dayKey := Lent(), P.Prefix(2) + DAY_KEY;
            && 2 < |b.accounts| && b.accounts[2].terms.Loan?
            && var first := P.TickUnder(b, 2, RESERVES, b.accounts[2].terms, MORNING, true, dayKey);
               && first.accounts[2].terms.Loan?
               && var second := P.TickUnder(first, 2, RESERVES, first.accounts[2].terms, EVENING, true, dayKey);
                  P.Provisioned(second, 2) - P.Reserved(second, 2, RESERVES.reserve) == 90_000
  {
    hide Balance;
    hide Lent;
    hide P.Agrees;
    hide P.TargetNow;
    hide P.TickUnder;
    LentHolds();
    NothingProvisioned();
    ProvisionTargets(Lent());
    P.DateKeyUnderstates(Lent(), 2, RESERVES, MORNING, EVENING, P.Prefix(2) + DAY_KEY);
  }

  // ---- Targets that fall, and reserves that overshoot ----

  /** Half the debt repaid that evening halves the target. */
  lemma {:induction false} TargetFalls()
    ensures var after := Loan.TakeRepayment(Lent(), ADA, 2, 500_000, IN_FULL).0;
            && 2 < |after.accounts| && after.accounts == Lent().accounts
            && P.TargetOf(Balance(Lent(), 2), LENT_TERMS.maturity, EVENING) == 100_000
            && P.TargetOf(Balance(after, 2), LENT_TERMS.maturity, EVENING) == 50_000
  {
    hide Lent;
    hide Balance;
    LentHolds();
    var b := Lent();
    Resolves(b.accounts);
    HalfAllowed(b);
    hide LineGuard;
    hide P.TargetOf;
    hide Post;
    W.MoveAccepted(b, "loan_repayment", 1, 2, 500_000, IN_FULL);
    W.MoveMovesMoney(b, "loan_repayment", 1, 2, 500_000, IN_FULL, 2);
    TargetsThen();
  }

  lemma {:induction false} HalfAllowed(b: Books)
    requires 2 < |b.accounts| && b.accounts[1].status == Active && b.accounts[2].status == Active
    requires Balance(b, 1) == 1_000_000 && Balance(b, 2) == 1_000_000
    ensures LineGuard(b, LineInput(1, Debit, 500_000)).None? && LineGuard(b, LineInput(2, Credit, 500_000)).None?
  {
    hide Balance;
  }

  lemma {:induction false} TargetsThen()
    ensures P.TargetOf(1_000_000, LENT_TERMS.maturity, EVENING) == 100_000
    ensures P.TargetOf(500_000, LENT_TERMS.maturity, EVENING) == 50_000
  {
    assert Loan.DaysPastDue(LENT_TERMS.maturity, EVENING) == 31;
  }

  /** The morning's metadata write is lost, so the evening posts its whole target on top of the morning's. */
  lemma {:induction false} LostWriteOverReserves()
    ensures var steps := [P.FreshPass(MORNING, false), P.FreshPass(EVENING, true)];
            var after := P.Play(Lent(), 2, RESERVES, steps);
            && 2 < |after.accounts|
            && P.Provisioned(after, 2) == 100_000 && P.Reserved(after, 2, RESERVES.reserve) == 110_000
  {
    hide Balance;
    hide Lent;
    hide LW.Tallies;
    hide P.TargetNow;
    LentHolds();
    var b := Lent();
    NothingTallied(b);
    ProvisionTargets(b);
    var morning, evening := P.FreshPass(MORNING, false), P.FreshPass(EVENING, true);
    var between := P.Tick(b, 2, RESERVES, b.accounts[2].terms, MORNING, false);
    LW.PassTallies(b, 2, RESERVES, LW.NOTHING, MORNING, false);
    TickKeepsLoan(b, MORNING);
    ProvisionTargets(between);
    var tally := LW.Pass(LW.NOTHING, LW.Aim(10_000, false));
    LW.TalliesProvisioned(between, 2, RESERVES, tally);
    LW.PassTallies(between, 2, RESERVES, tally, EVENING, true);
    PlaysTwo(b, between, morning, evening);
    TallyReads(P.Play(b, 2, RESERVES, [morning, evening]), LW.Pass(tally, LW.Aim(100_000, true)));
  }

  lemma {:induction false} TallyReads(b: Books, t: LW.Tally)
    requires LW.Tallies(b, 2, RESERVES, t)
    ensures 2 < |b.accounts| && P.Provisioned(b, 2) == t.provisioned && P.Reserved(b, 2, RESERVES.reserve) == t.reserved
  {
  }

  lemma {:induction false} PlaysTwo(b: Books, between: Books, morning: P.PeakStep, evening: P.PeakStep)
    requires morning.FreshPass? && evening.FreshPass? && 2 < |b.accounts| && b.accounts[2].terms.Loan?
    requires between == P.Tick(b, 2, RESERVES, b.accounts[2].terms, morning.asOf, morning.written)
    requires between.accounts[2].terms.Loan?
    ensures P.Play(b, 2, RESERVES, [morning, evening])
            == P.Tick(between, 2, RESERVES, between.accounts[2].terms, evening.asOf, evening.written)
  {
    hide P.Tick;
    assert [morning, evening][..1] == [morning] && [morning][..0] == [];
    assert P.Play(b, 2, RESERVES, [morning]) == between;
  }

  /** A provision whose write is lost leaves the loan's row and balance. */
  lemma {:induction false} TickKeepsLoan(b: Books, asOf: int)
    requires b == Lent()
    ensures var after := P.Tick(b, 2, RESERVES, b.accounts[2].terms, asOf, false);
            && after.accounts == b.accounts && Balance(after, 2) == Balance(b, 2)
  {
    hide Balance;
    hide Lent;
    hide Post;
    hide P.TargetOf;
    hide P.KeyNow;
    LentHolds();
    P.TickInTwo(b, 2, RESERVES, b.accounts[2].terms, asOf, false);
    var delta := P.TargetOf(Balance(b, 2), b.accounts[2].terms.maturity, asOf);
    var key := P.KeyNow(b, 2, b.accounts[2].terms, asOf);
    var move := P.ProvisionMove(RESERVES, key, delta);
    PostKeepsRows(b, move);
    if Post(b, move).0 != b {
      W.MoveMovesMoney(b, "loan_loss_provision", 4, 5, delta, W.Slip(key, key, "Loan loss provision"), 2);
    }
  }

  lemma {:induction false} NothingTallied(b: Books)
    requires b == Lent()
    ensures LW.Tallies(b, 2, RESERVES, LW.NOTHING)
  {
    hide Balance;
    hide Lent;
    LentHolds();
    NothingProvisioned();
    hide Decimal;
    assert forall t: nat :: P.ProvisionKey(2, t)[0] == 'l';
  }

  // ---- A tenant's pass ----

  lemma {:induction false} PocketReady(b: Books, ids: seq<nat>)
    requires b == Lent() && forall i :: 0 <= i < |ids| ==> ids[i] == 6
    requires |ids| <= 1
    ensures ReadyToAccrue(b, SavingsInterest, b.accounts, ids, 7, DAY_KEY)
  {
    hide Balance;
    hide Lent;
    hide InterestKey;
    LentHolds();
    InterestKeyIs();
  }

  lemma {:induction false} LoanIsReady(b: Books)
    requires b == Lent()
    ensures LoansReady(b, b.accounts, [2], 3, Some(RESERVES), DAY_KEY)
  {
    hide Balance;
    hide Lent;
    hide InterestKey;
    LentHolds();
    InterestKeyIs();
  }

  /** The tenant is ready for its pass. */
  lemma {:induction false} LentIsReady()
    ensures TenantReady(Lent(), DAY_KEY)
  {
    hide Balance;
    hide Lent;
    hide Listed;
    hide ReadyToAccrue;
    hide LoansReady;
    LentHolds();
    var b := Lent();
    Resolves(b.accounts);
    LentListed(b);
    PocketReady(b, Pockets(b));
    LoanIsReady(b);
  }

  /** The pass charges the loan its interest and reserves a tenth of what it then owes. */
  lemma {:induction false} LentIsCharged()
    ensures var after := TenantPass(Lent(), DAY_KEY, EVENING, (a: nat) => true);
            && 2 < |after.accounts| && Balance(after, 2) == 1_001_000
            && P.Reserved(after, 2, RESERVES.reserve) == 100_100
  {
    hide Balance;
    hide Lent;
    hide DailyInterest;
    hide Listed;
    hide TenantPass;
    hide TenantReady;
    hide P.Reserved;
    hide Due;
    LentHolds();
    InterestKeyIs();
    var b := Lent();
    Resolves(b.accounts);
    LentListed(b);
    NothingProvisioned();
    LentDue(b);
    LentIsReady();
    assert 2 in Loans(b) && !IsSystem(b, 2);
    TenantPassPays(b, DAY_KEY, EVENING, (a: nat) => true, 2);
  }

  lemma {:induction false} LentDue(b: Books)
    requires P.Agrees(b, 2, RESERVES, 0) && b.accounts[2].terms == LENT_TERMS
    ensures Due(b, 2, LENT_TERMS, EVENING, 1_001_000) == 100_100
  {
    hide Balance;
    hide P.Reserved;
    assert Loan.DaysPastDue(LENT_TERMS.maturity, EVENING) == 31;
    var t: nat := 100_100;
    assert P.TargetOf(1_001_000, LENT_TERMS.maturity, EVENING) == t;
    assert P.Reserved(b, 2, 5) == 0;
    assert !KeyTaken(b, 2, t);
  }

  lemma {:induction false} LentListed(b: Books)
    requires |b.accounts| == |ROWS| && b.accounts == ROWS[2 := ROWS[2].(status := Active, terms := LENT_TERMS)]
    ensures |Pockets(b)| <= 1 && forall i :: 0 <= i < |Pockets(b)| ==> Pockets(b)[i] == 6
    ensures Loans(b) == [2]
  {
    hide Listed;
    var loans := Loans(b);
    assert forall i :: 0 <= i < |loans| ==> b.accounts[loans[i]].product == Loan.LOAN && loans[i] == 2;
    ListedExactly(b.accounts, Loan.LOAN, |b.accounts|, 2);
    OnlyOne(loans, 2);
    var pockets := Pockets(b);
    assert forall i :: 0 <= i < |pockets| ==> b.accounts[pockets[i]].product == W.SAVINGS && pockets[i] == 6;
    OnlyOne(pockets, 6);
  }

  lemma {:induction false} OnlyOne(ids: seq<nat>, a: nat)
    requires forall i :: 0 <= i < |ids| ==> ids[i] == a
    requires forall i, k :: 0 <= i < k < |ids| ==> ids[i] < ids[k]
    ensures |ids| <= 1
  {
    if ids != [] {
      assert ids[0] == ids[|ids| - 1];
    }
  }

  // ---- An entry that draws twice ----

  /** Two draws of 60 on one account, each allowed by a balance of 60. */
  const DRAWN_TWICE := PostInput("r", "k", "adjustment", "", "",
                                 [LineInput(0, Debit, 60), LineInput(0, Debit, 60), LineInput(1, Credit, 120)])

  lemma {:induction false} DrawsSum(side: Side)
    ensures Sum(DRAWN_TWICE.lines, InputOn(side)) == 120
    ensures Sum(DRAWN_TWICE.lines, OnInput(0, side)) == if side == Debit then 120 else 0
    ensures Largest(DRAWN_TWICE.lines, 0, Debit) == 60
  {
    var lines := DRAWN_TWICE.lines;
    assert lines == [lines[0], lines[1]] + [lines[2]] && lines[0] == LineInput(0, Debit, 60);
    SumPair(lines[0], lines[1], InputOn(side));
    SumAppend([lines[0], lines[1]], lines[2], InputOn(side));
    SumPair(lines[0], lines[1], OnInput(0, side));
    SumAppend([lines[0], lines[1]], lines[2], OnInput(0, side));
  }

  /** The entry is well formed and not covered; a ledger holding 60 accepts it and ends 60 below zero. */
  lemma {:induction false} DrawnTwiceOverdraws()
    ensures LinesError(DRAWN_TWICE.lines).None? && !Covered(DRAWN_TWICE.lines, 0, Credit)
    ensures var b := Tight(DRAWN_TWICE, 0, Credit);
            var (after, reply) := Post(b, DRAWN_TWICE);
            && 0 < |b.accounts| && !b.accounts[0].allowNegative && Balance(b, 0) == 60
            && reply.Posted? && 0 < |after.accounts| && Balance(after, 0) == -60
  {
    hide Balance;
    hide Tight;
    hide Sum;
    DrawsSum(Debit);
    DrawsSum(Credit);
    TightHolds(DRAWN_TWICE, 0, Credit);
    TightAccepts(DRAWN_TWICE, 0, Credit);
    var b := Tight(DRAWN_TWICE, 0, Credit);
    assert b.accounts[0] == Row(0, 0, Credit);
    PostMoves(b, DRAWN_TWICE, None, 0);
  }

  // ---- Card charges whose answer was lost ----

  /** A card with a daily limit of 100 on a wallet that holds `amount`. */
  function CardHolder(amount: nat): C.State {
    C.State([C.Card(ADA, C.CardStatus.Active, 100, 100)], [],
            Post(Books(ROWS, [], []), W.Move("deposit", 0, 1, amount, W.Slip("d", "d", ""))).0, [])
  }

  function Sixty(key: string): C.Settlement {
    C.Settlement(0, 60, W.Slip(key, key, "Card settlement"), 0, 0)
  }

  lemma {:induction false} CardHolderHolds(amount: nat)
    requires 0 < amount
    ensures var st := CardHolder(amount);
            && st.books.accounts == ROWS && Balance(st.books, 1) == amount
            && |st.books.journal| == 1 && st.books.journal[0].key == "d" && st.books.journal[0].reference == "d"
            && K.OrdinaryWallet(st.books, ADA, 1)
  {
    hide Post;
    hide LineGuard;
    var start := Books(ROWS, [], []);
    OpenGuards(start, amount);
    Resolves(ROWS);
    W.MoveAccepted(start, "deposit", 0, 1, amount, W.Slip("d", "d", ""));
    W.MoveMovesMoney(start, "deposit", 0, 1, amount, W.Slip("d", "d", ""), 1);
  }

  lemma {:induction false} OpenGuards(b: Books, amount: nat)
    requires b == Books(ROWS, [], [])
    ensures Balance(b, 1) == 0
    ensures LineGuard(b, LineInput(0, Debit, amount)).None? && LineGuard(b, LineInput(1, Credit, amount)).None?
  {
  }

  /** A settlement of 60 under a fresh key takes the money while the wallet has it. */
  lemma {:induction false} SixtyPaid(st: C.State, key: string)
    requires |st.cards| == 1 && st.cards[0] == C.Card(ADA, C.CardStatus.Active, 100, 100)
    requires st.books.accounts == ROWS && 60 <= Balance(st.books, 1)
    requires W.Unused(st.books.journal, key)
    ensures C.TakeMoney(st, Sixty(key)).1.Done? && C.TakeMoney(st, Sixty(key)).0.accounts == ROWS
    ensures var before, after := st.books.journal, C.TakeMoney(st, Sixty(key)).0.journal;
            && |after| == |before| + 1 && after[..|before|] == before
            && after[|before|].key == key && after[|before|].reference == key
  {
    hide Post;
    Resolves(ROWS);
    assert LineGuard(st.books, LineInput(1, Debit, 60)).None? && LineGuard(st.books, LineInput(0, Credit, 60)).None?;
    hide LineGuard;
    hide Balance;
    W.MoveAccepted(st.books, "card_settlement", 1, 0, 60, W.Slip(key, key, "Card settlement"));
  }

  /** And it is approved while no row counts against the day. */
  lemma {:induction false} SixtyTakes(st: C.State, key: string)
    requires |st.cards| == 1 && st.cards[0] == C.Card(ADA, C.CardStatus.Active, 100, 100) && st.rows == []
    requires st.books.accounts == ROWS && 60 <= Balance(st.books, 1)
    requires W.Unused(st.books.journal, key)
    ensures K.Takes(st, Sixty(key))
  {
    hide Balance;
    hide C.TakeMoney;
    SixtyPaid(st, key);
    Resolves(ROWS);
  }

  lemma {:induction false} CardHolderRows(amount: nat)
    ensures CardHolder(amount).rows == [] && CardHolder(amount).charges == []
    ensures CardHolder(amount).cards == [C.Card(ADA, C.CardStatus.Active, 100, 100)]
  {
  }

  function LostSixty(amount: nat): C.State {
    C.Happen(CardHolder(amount), C.Settle(Sixty("c1"), AnswerLost))
  }

  /** The money is gone, and the service has nothing to show for it. */
  lemma {:induction false} LostSixtyHolds(amount: nat)
    requires 60 <= amount
    ensures K.Takes(CardHolder(amount), Sixty("c1"))
    ensures var lost := LostSixty(amount);
            && lost.cards == CardHolder(amount).cards && lost.rows == []
            && lost.books.accounts == ROWS && Balance(lost.books, 1) == amount - 60
            && W.Unused(lost.books.journal, "c2")
  {
    hide Balance;
    hide CardHolder;
    hide C.TakeMoney;
    CardHolderHolds(amount);
    CardHolderRows(amount);
    var st := CardHolder(amount);
    SixtyTakes(st, "c1");
    SixtyPaid(st, "c1");
    K.TakenFromWallet(st, Sixty("c1"), 1);
    assert LostSixty(amount).books == C.TakeMoney(st, Sixty("c1")).0;
  }

  /** With 100 in the wallet, 60 is taken and the answer lost: the retry is declined, leaves no row and changes nothing. */
  lemma {:induction false} LostChargeNotRepaired()
    ensures var lost := LostSixty(100);
            && lost.rows == [] && 1 < |lost.books.accounts| && Balance(lost.books, 1) == 40
            && C.Happen(lost, C.Settle(Sixty("c1"), Answered)) == lost
  {
    hide Balance;
    hide CardHolder;
    hide K.Takes;
    hide C.Happen;
    hide C.SumSettledToday;
    LostSixtyHolds(100);
    CardHolderHolds(100);
    CardHolderRows(100);
    K.RetryRepairsExactly(CardHolder(100), Sixty("c1"), Sixty("c1"), 1);
  }

  /** With 200 in the wallet, the first answer lost, two charges of 60 pass on one day under a daily limit of 100. */
  lemma {:induction false} LostChargePassesLimit()
    ensures var after := C.Happen(LostSixty(200), C.Settle(Sixty("c2"), Answered));
            0 < |after.cards| && after.cards[0].dailyLimit == 100 && K.TakenOn(after, 0, 0) == 120
  {
    hide Balance;
    hide CardHolder;
    hide K.Takes;
    hide C.Happen;
    LostSixtyHolds(200);
    CardHolderRows(200);
    SixtyTakes(LostSixty(200), "c2");
    K.LostChargeEscapesExactly(CardHolder(200), Sixty("c1"), Sixty("c2"), Answered);
    SettlingKeepsCards(LostSixty(200), Sixty("c2"));
  }

  lemma {:induction false} SettlingKeepsCards(st: C.State, s: C.Settlement)
    ensures C.Happen(st, C.Settle(s, Answered)).cards == st.cards
  {
    hide C.TakeMoney;
    hide C.Authorize;
  }

  /** With 200 in the wallet, two settlements of 60 approved on one reading both go through under a daily limit of 100. */
  lemma {:induction false} OverlapPassesLimit()
    ensures var after := KR.StepAll(KR.System(CardHolder(200), []), KR.Overlapped([Sixty("c1"), Sixty("c2")])).state;
            0 < |after.cards| && after.cards[0].dailyLimit == 100 && C.SpentOn(after.rows, 0, 0) == 120
  {
    hide Balance;
    hide CardHolder;
    hide C.TakeMoney;
    hide KR.StepAll;
    CardHolderHolds(200);
    CardHolderRows(200);
    var st := CardHolder(200);
    var first, second := Sixty("c1"), Sixty("c2");
    var both := [first, second];
    SixtyTakes(st, "c1");
    SixtyTakes(st, "c2");
    SixtyPaid(st, "c1");
    K.TakenFromWallet(st, first, 1);
    var between := C.Capture(st, first, Answered);
    SixtyPaid(between, "c2");
    assert both[..0] == [] && both[..1] == [first] && [first][..0] == [];
    assert KR.CaptureAll(st, [], 0) == st;
    assert KR.CaptureAll(st, [first], 0) == between;
    assert KR.AllTaken(st, both, 0);
    SumPair(first, second, KR.AMOUNT);
    TwoSixties(st, both);
    KR.OverlapExceedsExactly(st, both, 0, 0);
  }

  lemma {:induction false} TwoSixties(st: C.State, both: seq<C.Settlement>)
    requires both == [Sixty("c1"), Sixty("c2")] && st.rows == []
    requires K.Takes(st, Sixty("c1")) && K.Takes(st, Sixty("c2"))
    ensures KR.AllApproved(st, both, 0)
    ensures forall i :: 0 <= i < |both| ==> C.DayOf(both[i].createdAt) == 0 && !C.HasRow(st.rows, both[i].slip.key)
    ensures forall i, k :: 0 <= i < k < |both| ==> both[i].slip.key != both[k].slip.key
  {
    assert |"c1"| == 2 && "c1"[1] != "c2"[1];
  }
}
