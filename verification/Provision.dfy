/**
 * Loan-loss provisioning (services/ledger/internal/accrual/accrual.go). Each
 * pass posts the shortfall between a loan's target reserve and what its
 * metadata says is reserved, under a key made from the target.
 */
module Provision {
  import opened Sums
  import opened Domain
  import opened Ledger
  import opened LedgerRuns
  import opened Overdraft
  import opened Accrual
  import opened Loan
  import W = Wallet

  // ---- Targets ----

  function ProvisionRateBps(bucket: Bucket): int {
    match bucket
    case Current => 0
    case UpTo30 => 100
    case UpTo60 => 1000
    case UpTo90 => 2500
    case Over90 => 5000
  }

  function TargetOf(balance: int, maturity: Option<int>, asOf: int): int {
    Quotient(balance * ProvisionRateBps(BucketOf(DaysPastDue(maturity, asOf))), 10_000)
  }

  /** Waiting never lowers a target, and no target reserves more than half the balance. */
  lemma {:induction false} TargetGrowsWithAge(balance: nat, maturity: Option<int>, asOf: int, later: int)
    requires asOf <= later
    ensures 0 <= TargetOf(balance, maturity, asOf) <= TargetOf(balance, maturity, later) <= balance / 2
  {
    var early, late := DaysPastDue(maturity, asOf), DaysPastDue(maturity, later);
    assert early <= late;
    var r, q := ProvisionRateBps(BucketOf(early)), ProvisionRateBps(BucketOf(late));
    assert 0 <= r <= q <= 5000;
    assert balance * r <= balance * q <= balance * 5000;
  }

  const DAY_NS := 86_400_000_000_000

  /**
   * What is to be reserved against a loan: nothing until a full day after it
   * was due, then a hundredth of what is owed, a tenth from the 31st day, a
   * quarter from the 61st and half from the 91st.
   */
  function ExpectedLoss(balance: int, maturity: Option<int>, asOf: int): int {
    if balance <= 0 || maturity.None? || asOf < maturity.value + DAY_NS then 0
    else if asOf < maturity.value + 31 * DAY_NS then balance / 100
    else if asOf < maturity.value + 61 * DAY_NS then balance / 10
    else if asOf < maturity.value + 91 * DAY_NS then balance / 4
    else balance / 2
  }

  /** The bucket, its rate and the division come to the expected loss, for every balance and at every time. */
  lemma {:induction false} TargetIsExpectedLoss(balance: nat, maturity: Option<int>, asOf: int)
    ensures DAY_NS == 24 * 60 * 60 * 1_000_000_000
    ensures TargetOf(balance, maturity, asOf) == ExpectedLoss(balance, maturity, asOf)
  {
    var days := DaysPastDue(maturity, asOf);
    assert days == 0 <==> maturity.None? || asOf < maturity.value + DAY_NS;
  }

  /**
   * Targets do fall. A repayment lowers its loan's target if and only if what
   * it is worth at the loan's rate is more than the target had rounded away.
   */
  lemma {:induction false} RepaymentLowersTarget(b: Books, customer: string, loan: nat, wallet: nat, amount: int, slip: W.Slip, asOf: int)
    requires IsLoan(b, loan) && b.accounts[loan].normal == Debit
    requires W.ByCustomer(b.accounts, customer, W.WALLET) == Some(wallet) && wallet != loan
    requires TakeRepayment(b, customer, loan, amount, slip).0 != b && amount <= Balance(b, loan)
    ensures var after := TakeRepayment(b, customer, loan, amount, slip).0;
            var maturity := b.accounts[loan].terms.maturity;
            var rate := ProvisionRateBps(BucketOf(DaysPastDue(maturity, asOf)));
            && after.accounts == b.accounts
            && TargetOf(Balance(after, loan), maturity, asOf) <= TargetOf(Balance(b, loan), maturity, asOf)
            && (TargetOf(Balance(after, loan), maturity, asOf) < TargetOf(Balance(b, loan), maturity, asOf)
                <==> Balance(b, loan) * rate % 10_000 < amount * rate)
  {
    hide TargetOf;
    W.MoveMovesMoney(b, "loan_repayment", wallet, loan, amount, slip, loan);
    LessIsLower(Balance(b, loan), amount, b.accounts[loan].terms.maturity, asOf);
  }

  lemma {:induction false} LessIsLower(balance: nat, amount: nat, maturity: Option<int>, asOf: int)
    requires amount <= balance
    ensures var rate := ProvisionRateBps(BucketOf(DaysPastDue(maturity, asOf)));
            && TargetOf(balance - amount, maturity, asOf) <= TargetOf(balance, maturity, asOf)
            && (TargetOf(balance - amount, maturity, asOf) < TargetOf(balance, maturity, asOf)
                <==> balance * rate % 10_000 < amount * rate)
  {
    var rate := ProvisionRateBps(BucketOf(DaysPastDue(maturity, asOf)));
    assert (balance - amount) * rate == balance * rate - amount * rate;
    Scaled(amount, rate);
    Scaled(balance - amount, rate);
  }

  lemma {:induction false} Scaled(x: nat, y: nat)
    ensures 0 <= x * y
  {
  }

  // ---- Keys ----

  function Prefix(loan: nat): string {
    "loan-provision:" + Decimal(loan) + ":"
  }

  function ProvisionKey(loan: nat, target: nat): string {
    Prefix(loan) + Decimal(target)
  }

  lemma {:induction false} DecimalInjective(a: nat, b: nat)
    requires Decimal(a) == Decimal(b)
    ensures a == b
  {
    var x, y := Decimal(a), Decimal(b);
    assert x[|x| - 1] == DIGITS[a % 10] && y[|y| - 1] == DIGITS[b % 10];
    if 10 <= a && 10 <= b {
      assert x[..|x| - 1] == Decimal(a / 10) && y[..|y| - 1] == Decimal(b / 10);
      DecimalInjective(a / 10, b / 10);
    }
  }

  lemma {:induction false} KeyPerTarget(loan: nat, s: nat, t: nat)
    requires ProvisionKey(loan, s) == ProvisionKey(loan, t)
    ensures s == t
  {
    var n := |Prefix(loan)|;
    assert ProvisionKey(loan, s)[n..] == Decimal(s) && ProvisionKey(loan, t)[n..] == Decimal(t);
    DecimalInjective(s, t);
  }

  // ---- One pass over one loan ----

  /** The system accounts provisions are posted between. */
  datatype Accounts = Accounts(expense: nat, reserve: nat)

  function ProvisionMove(accounts: Accounts, key: string, delta: int): PostInput {
    W.Move("loan_loss_provision", accounts.expense, accounts.reserve, delta, W.Slip(key, key, "Loan loss provision"))
  }

  /**
   * Raises the reserve from what `listed` says is provisioned to `target`.
   * `listed` is the loan's metadata as read when the pass began; `written` is
   * whether the ignored metadata update went through.
   */
  function RaiseTo(b: Books, loan: nat, accounts: Accounts, listed: Terms, target: int, written: bool, key: string): (after: Books)
    requires listed.Loan?
    ensures |after.accounts| == |b.accounts|
  {
    var delta := target - listed.provisionedKobo;
    if delta <= 0 then b
    else
      var (posted, reply) := Post(b, ProvisionMove(accounts, key, delta));
      if reply.Posted? && written then SetTerms(posted, loan, listed.(provisionedKobo := target)).0 else posted
  }

  /** The key is a parameter so that keying by target can be compared with keying by date. */
  function TickUnder(b: Books, loan: nat, accounts: Accounts, listed: Terms, asOf: int, written: bool, key: string): (after: Books)
    requires loan < |b.accounts| && listed.Loan?
    ensures |after.accounts| == |b.accounts|
  {
    if Balance(b, loan) <= 0 then b
    else RaiseTo(b, loan, accounts, listed, TargetOf(Balance(b, loan), listed.maturity, asOf), written, key)
  }

  function KeyNow(b: Books, loan: nat, listed: Terms, asOf: int): string
    requires loan < |b.accounts| && listed.Loan?
  {
    if Balance(b, loan) <= 0 then ""
    else
      TargetNonNegative(Balance(b, loan), listed.maturity, asOf);
      ProvisionKey(loan, TargetOf(Balance(b, loan), listed.maturity, asOf))
  }

  lemma {:induction false} TargetNonNegative(balance: nat, maturity: Option<int>, asOf: int)
    ensures 0 <= TargetOf(balance, maturity, asOf)
  {
    TargetGrowsWithAge(balance, maturity, asOf, asOf);
  }

  function Tick(b: Books, loan: nat, accounts: Accounts, listed: Terms, asOf: int, written: bool): (after: Books)
    requires loan < |b.accounts| && listed.Loan?
    ensures |after.accounts| == |b.accounts|
  {
    TickUnder(b, loan, accounts, listed, asOf, written, KeyNow(b, loan, listed, asOf))
  }

  /** A pass up to its posting: the books it leaves, and the metadata it has yet to write. */
  function PostShortfall(b: Books, loan: nat, accounts: Accounts, listed: Terms, asOf: int): (Books, Option<Terms>)
    requires loan < |b.accounts| && listed.Loan?
  {
    var target := TargetOf(Balance(b, loan), listed.maturity, asOf);
    var delta := target - listed.provisionedKobo;
    if Balance(b, loan) <= 0 || delta <= 0 then (b, None)
    else
      var (after, reply) := Post(b, ProvisionMove(accounts, KeyNow(b, loan, listed, asOf), delta));
      (after, if reply.Posted? then Some(listed.(provisionedKobo := target)) else None)
  }

  /** A pass whose write goes through at once is its posting and then its write. */
  lemma {:induction false} TickInTwo(b: Books, loan: nat, accounts: Accounts, listed: Terms, asOf: int, written: bool)
    requires loan < |b.accounts| && listed.Loan?
    ensures var (after, terms) := PostShortfall(b, loan, accounts, listed, asOf);
            Tick(b, loan, accounts, listed, asOf, written)
            == if terms.Some? && written then SetTerms(after, loan, terms.value).0 else after
  {
    hide TargetOf;
    hide Balance;
    hide KeyNow;
    hide Post;
  }

  method PostLoanProvision(store: LedgerStore, loan: nat, accounts: Accounts, listed: Terms, asOf: int, written: bool)
    requires loan < |store.accounts| && listed.Loan?
    modifies store
    ensures store.View() == Tick(old(store.View()), loan, accounts, listed, asOf, written)
  {
    var balance := Balance(store.View(), loan);
    if balance <= 0 {
      return;
    }
    TargetNonNegative(balance, listed.maturity, asOf);
    var rateBps := ProvisionRateBps(BucketOf(DaysPastDue(listed.maturity, asOf)));
    var target := Quotient(balance * rateBps, 10_000);
    var delta := target - listed.provisionedKobo;
    if delta <= 0 {
      return;
    }
    var reply := store.PostJournalEntry(ProvisionMove(accounts, ProvisionKey(loan, target), delta));
    if !reply.Posted? {
      return;
    }
    if written {
      var updated := store.UpdateTerms(loan, listed.(provisionedKobo := target));
    }
  }

  // ---- The reserve on the books ----

  /** What an entry keyed as one of this loan's provisions adds to the reserve. */
  function Reserving(loan: nat, reserve: nat): Entry -> int {
    (e: Entry) => if Prefix(loan) <= e.key then Amount(e.lines, reserve, Credit) else 0
  }

  function Reserved(b: Books, loan: nat, reserve: nat): int {
    Sum(b.journal, Reserving(loan, reserve))
  }

  function Provisioned(b: Books, loan: nat): int
    requires loan < |b.accounts|
  {
    if b.accounts[loan].terms.Loan? then b.accounts[loan].terms.provisionedKobo else 0
  }

  /** Every target ever posted for the loan is covered by the reserve. */
  ghost predicate TargetsCovered(b: Books, loan: nat, reserve: nat) {
    forall t: nat :: FindKey(b.journal, ProvisionKey(loan, t)).Some? ==> t <= Reserved(b, loan, reserve)
  }

  /** A provision posting either writes the shortfall or finds its key taken or is refused. */
  lemma {:induction false} ProvisionPosts(b: Books, loan: nat, accounts: Accounts, t: nat, delta: int)
    requires 0 < delta && accounts.expense != accounts.reserve
    ensures var key := ProvisionKey(loan, t);
            var (after, reply) := Post(b, ProvisionMove(accounts, key, delta));
            && after.accounts == b.accounts
            && (after.journal == b.journal
                || (&& reply.Posted?
                    && FindKey(b.journal, key).None?
                    && |after.journal| == |b.journal| + 1
                    && after.journal[..|b.journal|] == b.journal
                    && after.journal[|b.journal|].key == key
                    && Reserved(after, loan, accounts.reserve) == Reserved(b, loan, accounts.reserve) + delta))
            && (after.journal == b.journal && reply.Posted? ==> FindKey(b.journal, key).Some?)
  {
    var key := ProvisionKey(loan, t);
    var input := ProvisionMove(accounts, key, delta);
    var slip := W.Slip(key, key, "Loan loss provision");
    W.MoveWellFormed("loan_loss_provision", accounts.expense, accounts.reserve, delta, slip);
    var after := Post(b, input).0;
    if after.journal != b.journal {
      var e := after.journal[|b.journal|];
      W.MoveSums("loan_loss_provision", accounts.expense, accounts.reserve, delta, slip, accounts.reserve, Credit);
      StoredNet(input, accounts.reserve, Credit);
      assert after.journal == b.journal + [e];
      SumAppend(b.journal, e, Reserving(loan, accounts.reserve));
      assert Prefix(loan) <= key;
    }
  }

  lemma {:induction false} RaiseCovers(b: Books, loan: nat, accounts: Accounts, listed: Terms, target: nat, written: bool)
    requires loan < |b.accounts| && listed.Loan? && accounts.expense != accounts.reserve
    requires 0 <= listed.provisionedKobo <= Reserved(b, loan, accounts.reserve)
    requires 0 <= Provisioned(b, loan) <= Reserved(b, loan, accounts.reserve)
    requires TargetsCovered(b, loan, accounts.reserve)
    ensures var after := RaiseTo(b, loan, accounts, listed, target, written, ProvisionKey(loan, target));
            && loan < |after.accounts|
            && TargetsCovered(after, loan, accounts.reserve)
            && Reserved(b, loan, accounts.reserve) <= Reserved(after, loan, accounts.reserve)
            && 0 <= Provisioned(after, loan) <= Reserved(after, loan, accounts.reserve)
  {
    var delta := target - listed.provisionedKobo;
    if 0 < delta {
      var posted := Post(b, ProvisionMove(accounts, ProvisionKey(loan, target), delta)).0;
      ProvisionPosts(b, loan, accounts, target, delta);
      PostCovers(b, posted, loan, accounts.reserve, target);
      var after := RaiseTo(b, loan, accounts, listed, target, written, ProvisionKey(loan, target));
      assert after.journal == posted.journal;
    }
  }

  /** A tick keyed by target, whatever it read and whether or not its write is lost. */
  lemma {:induction false} TickCovers(b: Books, loan: nat, accounts: Accounts, listed: Terms, asOf: int, written: bool)
    requires loan < |b.accounts| && listed.Loan? && accounts.expense != accounts.reserve
    requires 0 <= listed.provisionedKobo <= Reserved(b, loan, accounts.reserve)
    requires 0 <= Provisioned(b, loan) <= Reserved(b, loan, accounts.reserve)
    requires TargetsCovered(b, loan, accounts.reserve)
    ensures var after := Tick(b, loan, accounts, listed, asOf, written);
            && loan < |after.accounts|
            && TargetsCovered(after, loan, accounts.reserve)
            && Reserved(b, loan, accounts.reserve) <= Reserved(after, loan, accounts.reserve)
            && 0 <= Provisioned(after, loan) <= Reserved(after, loan, accounts.reserve)
  {
    if 0 < Balance(b, loan) {
      TargetNonNegative(Balance(b, loan), listed.maturity, asOf);
      RaiseCovers(b, loan, accounts, listed, TargetOf(Balance(b, loan), listed.maturity, asOf), written);
    }
  }

  lemma {:induction false} PostCovers(b: Books, posted: Books, loan: nat, reserve: nat, target: nat)
    requires TargetsCovered(b, loan, reserve)
    requires posted.journal == b.journal
             || (&& |posted.journal| == |b.journal| + 1
                 && posted.journal[..|b.journal|] == b.journal
                 && posted.journal[|b.journal|].key == ProvisionKey(loan, target)
                 && Reserved(b, loan, reserve) <= Reserved(posted, loan, reserve)
                 && target <= Reserved(posted, loan, reserve))
    ensures TargetsCovered(posted, loan, reserve)
  {
    if posted.journal != b.journal {
      forall t: nat | FindKey(posted.journal, ProvisionKey(loan, t)).Some?
        ensures t <= Reserved(posted, loan, reserve)
      {
        if ProvisionKey(loan, t) == ProvisionKey(loan, target) {
          KeyPerTarget(loan, t, target);
        }
      }
    }
  }

  // ---- Whole histories ----

  /**
   * A pass posts against the metadata as it stood at history position
   * `listedAt`; what a pass has yet to write may be written at any later time,
   * overtaken by other passes, or never.
   */
  datatype Event = Pass(listedAt: nat, asOf: int) | Write(k: nat) | Traffic(request: Request)

  /** Every state so far, and the metadata that passes have yet to write. */
  datatype Course = Course(history: seq<Books>, unwritten: seq<Terms>)

  /** Other traffic keeps clear of the loan's provision keys and does not touch what it has provisioned. */
  ghost predicate Clear(b: Books, request: Request, loan: nat) {
    var after := Step(b, request).0;
    && (|after.journal| > |b.journal| ==>
          !(Prefix(loan) <= after.journal[|b.journal|].key) && !(Prefix(loan) <= after.journal[|b.journal|].reference))
    && (loan < |b.accounts| ==>
          && Provisioned(after, loan) == Provisioned(b, loan)
          && after.accounts[loan].terms.Loan? == b.accounts[loan].terms.Loan?)
  }

  function Now(course: Course): Books
    requires 0 < |course.history|
  {
    course.history[|course.history| - 1]
  }

  function After(course: Course, loan: nat, accounts: Accounts, e: Event): (after: Course)
    requires 0 < |course.history|
    ensures |after.history| == |course.history| + 1 && after.history[..|course.history|] == course.history
  {
    var (history, unwritten) := (course.history, course.unwritten);
    var now := Now(course);
    match e
    case Pass(listedAt, asOf) =>
      var listing := history[if listedAt < |history| then listedAt else |history| - 1];
      if loan < |now.accounts| && loan < |listing.accounts| && listing.accounts[loan].terms.Loan? then
        var (after, terms) := PostShortfall(now, loan, accounts, listing.accounts[loan].terms, asOf);
        Course(history + [after], if terms.Some? then unwritten + [terms.value] else unwritten)
      else Course(history + [now], unwritten)
    case Write(k) =>
      if k < |unwritten| then Course(history + [SetTerms(now, loan, unwritten[k]).0], unwritten[..k] + unwritten[k + 1..])
      else Course(history + [now], unwritten)
    case Traffic(request) => Course(history + [Step(now, request).0], unwritten)
  }

  function AfterAll(b: Books, loan: nat, accounts: Accounts, events: seq<Event>): (course: Course)
    ensures |course.history| == |events| + 1 && course.history[0] == b
  {
    if events == [] then Course([b], [])
    else After(AfterAll(b, loan, accounts, events[..|events| - 1]), loan, accounts, events[|events| - 1])
  }

  ghost predicate TrafficClear(b: Books, loan: nat, accounts: Accounts, events: seq<Event>) {
    forall i :: 0 <= i < |events| && events[i].Traffic? ==>
      Clear(AfterAll(b, loan, accounts, events).history[i], events[i].request, loan)
  }

  /** Nothing provisioned yet, on the books or in the metadata. */
  ghost predicate Untouched(b: Books, loan: nat) {
    && loan < |b.accounts| && Provisioned(b, loan) == 0
    && forall i :: 0 <= i < |b.journal| ==> !(Prefix(loan) <= b.journal[i].key)
  }

  lemma {:induction false} NothingReserved(journal: seq<Entry>, loan: nat, reserve: nat)
    requires forall i :: 0 <= i < |journal| ==> !(Prefix(loan) <= journal[i].key)
    ensures Sum(journal, Reserving(loan, reserve)) == 0
  {
    if journal != [] {
      NothingReserved(journal[..|journal| - 1], loan, reserve);
    }
  }

  lemma {:induction false} TrafficCovers(b: Books, request: Request, loan: nat, reserve: nat)
    requires loan < |b.accounts| && Clear(b, request, loan)
    requires TargetsCovered(b, loan, reserve)
    ensures var after := Step(b, request).0;
            && loan < |after.accounts|
            && Reserved(after, loan, reserve) == Reserved(b, loan, reserve)
            && Provisioned(after, loan) == Provisioned(b, loan)
            && TargetsCovered(after, loan, reserve)
  {
    StepShape(b, request);
    var after := Step(b, request).0;
    if after.journal != b.journal {
      var e := after.journal[|b.journal|];
      assert after.journal == b.journal + [e];
      SumAppend(b.journal, e, Reserving(loan, reserve));
      forall t: nat | FindKey(after.journal, ProvisionKey(loan, t)).Some?
        ensures t <= Reserved(after, loan, reserve)
      {
        assert Prefix(loan) <= ProvisionKey(loan, t);
      }
    }
  }

  /** The reserve in the last state covers everything any state of the history has claimed, and all that is yet to be written. */
  ghost predicate Covered(course: Course, loan: nat, reserve: nat)
    requires 0 < |course.history|
  {
    var now := Now(course);
    && TargetsCovered(now, loan, reserve)
    && (forall i :: 0 <= i < |course.history| ==>
          && loan < |course.history[i].accounts|
          && 0 <= Provisioned(course.history[i], loan) <= Reserved(now, loan, reserve)
          && Reserved(course.history[i], loan, reserve) <= Reserved(now, loan, reserve))
    && forall k :: 0 <= k < |course.unwritten| ==>
         course.unwritten[k].Loan? && 0 <= course.unwritten[k].provisionedKobo <= Reserved(now, loan, reserve)
  }

  /** A posting covers what it leaves to be written. */
  lemma {:induction false} ShortfallCovers(b: Books, loan: nat, accounts: Accounts, listed: Terms, asOf: int)
    requires loan < |b.accounts| && listed.Loan? && accounts.expense != accounts.reserve
    requires 0 <= listed.provisionedKobo <= Reserved(b, loan, accounts.reserve)
    requires 0 <= Provisioned(b, loan) <= Reserved(b, loan, accounts.reserve)
    requires TargetsCovered(b, loan, accounts.reserve)
    ensures var (after, terms) := PostShortfall(b, loan, accounts, listed, asOf);
            && loan < |after.accounts|
            && TargetsCovered(after, loan, accounts.reserve)
            && Reserved(b, loan, accounts.reserve) <= Reserved(after, loan, accounts.reserve)
            && 0 <= Provisioned(after, loan) <= Reserved(after, loan, accounts.reserve)
            && (terms.Some? ==>
                  terms.value.Loan? && 0 <= terms.value.provisionedKobo <= Reserved(after, loan, accounts.reserve))
  {
    hide Tick;
    hide TargetsCovered;
    hide PostShortfall;
    TickInTwo(b, loan, accounts, listed, asOf, false);
    TickInTwo(b, loan, accounts, listed, asOf, true);
    TickCovers(b, loan, accounts, listed, asOf, false);
    TickCovers(b, loan, accounts, listed, asOf, true);
    ShortfallTerms(b, loan, accounts, listed, asOf);
  }

  lemma {:induction false} ShortfallTerms(b: Books, loan: nat, accounts: Accounts, listed: Terms, asOf: int)
    requires loan < |b.accounts| && listed.Loan?
    ensures PostShortfall(b, loan, accounts, listed, asOf).1.Some? ==> PostShortfall(b, loan, accounts, listed, asOf).1.value.Loan?
  {
    hide TargetOf;
    hide Balance;
    hide KeyNow;
    hide Post;
  }

  lemma {:induction false} WriteCovers(b: Books, loan: nat, reserve: nat, terms: Terms)
    requires loan < |b.accounts| && TargetsCovered(b, loan, reserve)
    requires terms.Loan? && 0 <= terms.provisionedKobo <= Reserved(b, loan, reserve)
    ensures var after := SetTerms(b, loan, terms).0;
            && loan < |after.accounts|
            && TargetsCovered(after, loan, reserve)
            && Reserved(after, loan, reserve) == Reserved(b, loan, reserve)
            && 0 <= Provisioned(after, loan) <= Reserved(b, loan, reserve)
  {
  }

  lemma {:induction false} EventCovers(course: Course, loan: nat, accounts: Accounts, e: Event)
    requires 0 < |course.history| && accounts.expense != accounts.reserve
    requires Covered(course, loan, accounts.reserve)
    requires e.Traffic? ==> Clear(Now(course), e.request, loan)
    ensures Covered(After(course, loan, accounts, e), loan, accounts.reserve)
  {
    hide PostShortfall;
    hide Step;
    hide SetTerms;
    hide TargetsCovered;
    hide Reserved;
    var n := |course.history|;
    match e
    case Pass(listedAt, asOf) =>
      var listed := course.history[if listedAt < n then listedAt else n - 1].accounts[loan].terms;
      if listed.Loan? {
        ShortfallCovers(Now(course), loan, accounts, listed, asOf);
      }
    case Write(k) =>
      if k < |course.unwritten| {
        WriteCovers(Now(course), loan, accounts.reserve, course.unwritten[k]);
      }
    case Traffic(request) => TrafficCovers(Now(course), request, loan, accounts.reserve);
  }

  /**
   * Keyed by target, provisioning never understates. Whatever sequence of
   * passes and other traffic, with stale listings and metadata writes delayed,
   * overtaken or lost, the reserve posted for a loan only grows, is at least
   * what any metadata it ever had or may yet have says is provisioned, and at
   * least every target ever posted.
   */
  lemma {:induction false} NeverUnderstated(b: Books, loan: nat, accounts: Accounts, events: seq<Event>)
    requires Untouched(b, loan) && accounts.expense != accounts.reserve
    requires TrafficClear(b, loan, accounts, events)
    ensures Covered(AfterAll(b, loan, accounts, events), loan, accounts.reserve)
  {
    hide After;
    if events == [] {
      NothingReserved(b.journal, loan, accounts.reserve);
      NoTargets(b, loan, accounts.reserve);
    } else {
      var n := |events| - 1;
      var before := AfterAll(b, loan, accounts, events[..n]);
      var whole := AfterAll(b, loan, accounts, events);
      assert whole.history[..n + 1] == before.history;
      forall i | 0 <= i < n && events[..n][i].Traffic?
        ensures Clear(before.history[i], events[..n][i].request, loan)
      {
        assert whole.history[i] == before.history[i];
      }
      NeverUnderstated(b, loan, accounts, events[..n]);
      assert whole.history[n] == before.history[n];
      EventCovers(before, loan, accounts, events[n]);
    }
  }

  lemma {:induction false} NoTargets(b: Books, loan: nat, reserve: nat)
    requires Untouched(b, loan)
    ensures TargetsCovered(b, loan, reserve)
  {
    forall t: nat | FindKey(b.journal, ProvisionKey(loan, t)).Some?
      ensures t <= Reserved(b, loan, reserve)
    {
      assert Prefix(loan) <= ProvisionKey(loan, t);
    }
  }

  // ---- With no write lost, the reserve is the highest target seen ----

  /** Provisions can be posted: both system accounts are active, and the key is used as a reference by its own entry only. */
  ghost predicate CanProvision(b: Books, loan: nat, accounts: Accounts) {
    && loan < |b.accounts| && accounts.expense < |b.accounts| && accounts.reserve < |b.accounts|
    && accounts.expense != accounts.reserve
    && b.accounts[accounts.expense].status == Active && b.accounts[accounts.expense].allowNegative
    && b.accounts[accounts.reserve].status == Active && b.accounts[accounts.reserve].allowNegative
    && forall t: nat :: ReferenceUsed(b.journal, ProvisionKey(loan, t)) ==> FindKey(b.journal, ProvisionKey(loan, t)).Some?
  }

  /** The target a pass over the current listing would aim at; 0 when nothing is owed. */
  function TargetNow(b: Books, loan: nat, asOf: int): int
    requires loan < |b.accounts| && b.accounts[loan].terms.Loan?
  {
    if Balance(b, loan) <= 0 then 0 else TargetOf(Balance(b, loan), b.accounts[loan].terms.maturity, asOf)
  }

  function Max(x: int, y: int): int {
    if x < y then y else x
  }

  /** Reserve and metadata agree, and every posted target is within them. */
  ghost predicate Agrees(b: Books, loan: nat, accounts: Accounts, peak: int) {
    && CanProvision(b, loan, accounts)
    && b.accounts[loan].terms.Loan?
    && Provisioned(b, loan) == Reserved(b, loan, accounts.reserve) == peak
    && 0 <= peak
    && TargetsCovered(b, loan, accounts.reserve)
  }

  lemma {:induction false} FreshRaise(b: Books, loan: nat, accounts: Accounts, target: nat, peak: int)
    requires Agrees(b, loan, accounts, peak) && peak < target
    ensures Agrees(RaiseTo(b, loan, accounts, b.accounts[loan].terms, target, true, ProvisionKey(loan, target)),
                   loan, accounts, target)
  {
    var delta := target - peak;
    var key := ProvisionKey(loan, target);
    var input := ProvisionMove(accounts, key, delta);
    assert FindKey(b.journal, key).None? && !ReferenceUsed(b.journal, key);
    W.MoveWellFormed("loan_loss_provision", accounts.expense, accounts.reserve, delta, W.Slip(key, key, "Loan loss provision"));
    assert LineGuard(b, input.lines[0]).None? && LineGuard(b, input.lines[1]).None?;
    ProvisionPosts(b, loan, accounts, target, delta);
    var posted := Post(b, input).0;
    PostCovers(b, posted, loan, accounts.reserve, target);
    KeysStillOwn(b, posted, loan, target);
    var after := RaiseTo(b, loan, accounts, b.accounts[loan].terms, target, true, key);
    assert after.journal == posted.journal;
  }

  /** A pass that reads current metadata and whose write goes through leaves the reserve at the higher of peak and target. */
  lemma {:induction false} FreshTickTracksPeak(b: Books, loan: nat, accounts: Accounts, asOf: int, peak: int)
    requires Agrees(b, loan, accounts, peak)
    ensures Agrees(Tick(b, loan, accounts, b.accounts[loan].terms, asOf, true), loan, accounts,
                   Max(peak, TargetNow(b, loan, asOf)))
  {
    if 0 < Balance(b, loan) {
      TargetNonNegative(Balance(b, loan), b.accounts[loan].terms.maturity, asOf);
      if peak < TargetNow(b, loan, asOf) {
        FreshRaise(b, loan, accounts, TargetNow(b, loan, asOf), peak);
      }
    }
  }

  /** What a pass leaves in the reserve of a loan whose metadata is in step: the expected loss, or what was there if that was more. */
  lemma {:induction false} ReserveAfterPass(b: Books, loan: nat, accounts: Accounts, asOf: int)
    requires Agrees(b, loan, accounts, Reserved(b, loan, accounts.reserve))
    ensures var terms := b.accounts[loan].terms;
            var after := Tick(b, loan, accounts, terms, asOf, true);
            && loan < |after.accounts|
            && Reserved(after, loan, accounts.reserve)
               == Max(Reserved(b, loan, accounts.reserve), ExpectedLoss(Balance(b, loan), terms.maturity, asOf))
            && Provisioned(after, loan) == Reserved(after, loan, accounts.reserve)
  {
    hide Balance;
    hide TargetOf;
    hide ExpectedLoss;
    hide Tick;
    var terms := b.accounts[loan].terms;
    FreshTickTracksPeak(b, loan, accounts, asOf, Reserved(b, loan, accounts.reserve));
    if 0 < Balance(b, loan) {
      TargetIsExpectedLoss(Balance(b, loan), terms.maturity, asOf);
    } else {
      NothingExpected(Balance(b, loan), terms.maturity, asOf);
    }
  }

  lemma {:induction false} NothingExpected(balance: int, maturity: Option<int>, asOf: int)
    requires balance <= 0
    ensures ExpectedLoss(balance, maturity, asOf) == 0
  {
  }

  lemma {:induction false} KeysStillOwn(b: Books, posted: Books, loan: nat, target: nat)
    requires forall t: nat :: ReferenceUsed(b.journal, ProvisionKey(loan, t)) ==> FindKey(b.journal, ProvisionKey(loan, t)).Some?
    requires |posted.journal| == |b.journal| + 1 && posted.journal[..|b.journal|] == b.journal
    requires posted.journal[|b.journal|].key == posted.journal[|b.journal|].reference
    ensures forall t: nat :: ReferenceUsed(posted.journal, ProvisionKey(loan, t)) ==>
              FindKey(posted.journal, ProvisionKey(loan, t)).Some?
  {
    forall t: nat | ReferenceUsed(posted.journal, ProvisionKey(loan, t))
      ensures FindKey(posted.journal, ProvisionKey(loan, t)).Some?
    {
      var i :| 0 <= i < |posted.journal| && posted.journal[i].reference == ProvisionKey(loan, t);
      if i < |b.journal| {
        assert b.journal[i].reference == ProvisionKey(loan, t);
      }
    }
  }

  /** A pass over the current listing, whose metadata write may be lost; or other traffic. */
  datatype PeakStep = FreshPass(asOf: int, written: bool) | OtherTraffic(request: Request)

  function Play(b: Books, loan: nat, accounts: Accounts, steps: seq<PeakStep>): Books {
    if steps == [] then b
    else
      var before := Play(b, loan, accounts, steps[..|steps| - 1]);
      match steps[|steps| - 1]
      case FreshPass(asOf, written) =>
        if loan < |before.accounts| && before.accounts[loan].terms.Loan?
        then Tick(before, loan, accounts, before.accounts[loan].terms, asOf, written) else before
      case OtherTraffic(request) => Step(before, request).0
  }

  /** The highest target any pass of the run aimed at, 0 if none was positive. */
  function PeakTarget(b: Books, loan: nat, accounts: Accounts, steps: seq<PeakStep>): int {
    if steps == [] then 0
    else
      var init := steps[..|steps| - 1];
      var before := Play(b, loan, accounts, init);
      var peak := PeakTarget(b, loan, accounts, init);
      var last := steps[|steps| - 1];
      if last.FreshPass? && loan < |before.accounts| && before.accounts[loan].terms.Loan?
      then Max(peak, TargetNow(before, loan, last.asOf)) else peak
  }

  ghost predicate AllClear(b: Books, loan: nat, accounts: Accounts, steps: seq<PeakStep>) {
    forall i :: 0 <= i < |steps| && steps[i].OtherTraffic? ==>
      var before := Play(b, loan, accounts, steps[..i]);
      && Clear(before, steps[i].request, loan)
      && (steps[i].request.StatusRequest? ==> steps[i].request.target !in [accounts.expense, accounts.reserve])
  }

  lemma {:induction false} TrafficAgrees(b: Books, loan: nat, accounts: Accounts, peak: int, request: Request)
    requires Agrees(b, loan, accounts, peak) && Clear(b, request, loan)
    requires request.StatusRequest? ==> request.target !in [accounts.expense, accounts.reserve]
    ensures Agrees(Step(b, request).0, loan, accounts, peak)
  {
    TrafficCovers(b, request, loan, accounts.reserve);
    StepShape(b, request);
    var after := Step(b, request).0;
    assert after.accounts[accounts.expense].status == b.accounts[accounts.expense].status;
    assert after.accounts[accounts.reserve].status == b.accounts[accounts.reserve].status;
    if after.journal != b.journal {
      ReferencesStillOwn(b, after, loan);
    }
  }

  lemma {:induction false} ReferencesStillOwn(b: Books, after: Books, loan: nat)
    requires forall t: nat :: ReferenceUsed(b.journal, ProvisionKey(loan, t)) ==> FindKey(b.journal, ProvisionKey(loan, t)).Some?
    requires |after.journal| == |b.journal| + 1 && after.journal[..|b.journal|] == b.journal
    requires !(Prefix(loan) <= after.journal[|b.journal|].reference)
    ensures forall t: nat :: ReferenceUsed(after.journal, ProvisionKey(loan, t)) ==>
              FindKey(after.journal, ProvisionKey(loan, t)).Some?
  {
    forall t: nat | ReferenceUsed(after.journal, ProvisionKey(loan, t))
      ensures FindKey(after.journal, ProvisionKey(loan, t)).Some?
    {
      assert Prefix(loan) <= ProvisionKey(loan, t);
      var i :| 0 <= i < |after.journal| && after.journal[i].reference == ProvisionKey(loan, t);
      assert b.journal[i].reference == ProvisionKey(loan, t);
    }
  }

  /** With current listings and no lost writes, the reserve and the metadata both equal the highest target ever seen. */
  lemma {:induction false} ReserveIsPeakTarget(b: Books, loan: nat, accounts: Accounts, steps: seq<PeakStep>)
    requires Agrees(b, loan, accounts, 0)
    requires AllClear(b, loan, accounts, steps) && forall i :: 0 <= i < |steps| && steps[i].FreshPass? ==> steps[i].written
    ensures Agrees(Play(b, loan, accounts, steps), loan, accounts, PeakTarget(b, loan, accounts, steps))
  {
    if steps != [] {
      var n := |steps| - 1;
      var init := steps[..n];
      forall i | 0 <= i < |init| && init[i].OtherTraffic?
        ensures var before := Play(b, loan, accounts, init[..i]);
                && Clear(before, init[i].request, loan)
                && (init[i].request.StatusRequest? ==> init[i].request.target !in [accounts.expense, accounts.reserve])
      {
        assert init[..i] == steps[..i] && init[i] == steps[i];
      }
      ReserveIsPeakTarget(b, loan, accounts, init);
      var before := Play(b, loan, accounts, init);
      var peak := PeakTarget(b, loan, accounts, init);
      match steps[n] {
        case FreshPass(asOf, _) => FreshTickTracksPeak(before, loan, accounts, asOf, peak);
        case OtherTraffic(request) => TrafficAgrees(before, loan, accounts, peak, request);
      }
    }
  }

  // ---- Why the key must be the target ----

  /**
   * Keyed by date instead, two passes on one day whose targets differ leave the
   * metadata ahead of the books by exactly the difference, in every ledger.
   */
  lemma {:induction false} DateKeyUnderstates(b: Books, loan: nat, accounts: Accounts, morning: int, evening: int, dayKey: string)
    requires Agrees(b, loan, accounts, 0) && loan !in [accounts.expense, accounts.reserve]
    requires W.Unused(b.journal, dayKey) && Prefix(loan) <= dayKey
    requires 0 < TargetNow(b, loan, morning) < TargetNow(b, loan, evening)
    ensures var first := TickUnder(b, loan, accounts, b.accounts[loan].terms, morning, true, dayKey);
            && loan < |first.accounts| && first.accounts[loan].terms.Loan?
            && var second := TickUnder(first, loan, accounts, first.accounts[loan].terms, evening, true, dayKey);
               && loan < |second.accounts|
               && Provisioned(second, loan) - Reserved(second, loan, accounts.reserve)
                  == TargetNow(b, loan, evening) - TargetNow(b, loan, morning)
  {
    hide Post;
    hide TargetOf;
    hide FindKey;
    hide Balance;
    hide Reserved;
    hide LineGuard;
    var t, u := TargetNow(b, loan, morning), TargetNow(b, loan, evening);
    var slip := W.Slip(dayKey, dayKey, "Loan loss provision");
    ProvisionUnrefused(b, loan, accounts, t);
    W.MoveAccepted(b, "loan_loss_provision", accounts.expense, accounts.reserve, t, slip);
    FirstOfDay(b, loan, accounts, t, dayKey);
    W.MoveMovesMoney(b, "loan_loss_provision", accounts.expense, accounts.reserve, t, slip, loan);
    var posted := Post(b, ProvisionMove(accounts, dayKey, t)).0;
    var first := TickUnder(b, loan, accounts, b.accounts[loan].terms, morning, true, dayKey);
    assert first.journal == posted.journal;
    SameJournal(first, posted, loan, accounts.reserve);
    LaterThatDay(first, accounts, u - t, dayKey);
    var second := TickUnder(first, loan, accounts, first.accounts[loan].terms, evening, true, dayKey);
    assert second.journal == first.journal;
    SameJournal(second, first, loan, accounts.reserve);
  }

  lemma {:induction false} ProvisionUnrefused(b: Books, loan: nat, accounts: Accounts, delta: int)
    requires CanProvision(b, loan, accounts)
    ensures LineGuard(b, LineInput(accounts.expense, Debit, delta)).None?
    ensures LineGuard(b, LineInput(accounts.reserve, Credit, delta)).None?
  {
  }

  lemma {:induction false} SameJournal(a: Books, b: Books, loan: nat, reserve: nat)
    requires a.journal == b.journal && loan < |a.accounts| && loan < |b.accounts|
    requires a.accounts[loan].normal == b.accounts[loan].normal
    ensures Balance(a, loan) == Balance(b, loan)
    ensures Reserved(a, loan, reserve) == Reserved(b, loan, reserve)
  {
  }

  lemma {:induction false} LaterThatDay(b: Books, accounts: Accounts, delta: int, dayKey: string)
    requires FindKey(b.journal, dayKey).Some? && 0 < delta
    ensures var (after, reply) := Post(b, ProvisionMove(accounts, dayKey, delta));
            after == b && reply.Posted?
  {
    W.MoveWellFormed("loan_loss_provision", accounts.expense, accounts.reserve, delta, W.Slip(dayKey, dayKey, "Loan loss provision"));
  }

  lemma {:induction false} FirstOfDay(b: Books, loan: nat, accounts: Accounts, t: int, dayKey: string)
    requires accounts.expense != accounts.reserve && Prefix(loan) <= dayKey
    requires Post(b, ProvisionMove(accounts, dayKey, t)).0 != b
    ensures var posted := Post(b, ProvisionMove(accounts, dayKey, t)).0;
            && Reserved(posted, loan, accounts.reserve) == Reserved(b, loan, accounts.reserve) + t
            && FindKey(posted.journal, dayKey).Some?
  {
    var input := ProvisionMove(accounts, dayKey, t);
    var posted := Post(b, input).0;
    var e := posted.journal[|b.journal|];
    W.MoveSums("loan_loss_provision", accounts.expense, accounts.reserve, t, W.Slip(dayKey, dayKey, "Loan loss provision"), accounts.reserve, Credit);
    StoredNet(input, accounts.reserve, Credit);
    assert posted.journal == b.journal + [e];
    SumAppend(b.journal, e, Reserving(loan, accounts.reserve));
  }
}
