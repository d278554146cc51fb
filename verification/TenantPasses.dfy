/**
 * What a whole accrual pass over a tenant does: each pocket and loan gets its
 * own day's interest, each loan's reserve its own shortfall, and nothing else
 * moves but the tenant's system accounts.
 */
module TenantPasses {
  import opened Sums
  import opened Domain
  import opened Ledger
  import opened Accrual
  import opened AccrualPass
  import opened Provision
  import W = Wallet
  import Loan

  // ---- Keys of different accounts never meet ----

  lemma {:induction false} DecimalHasNoColon(n: nat)
    ensures forall k :: 0 <= k < |Decimal(n)| ==> Decimal(n)[k] != ':'
  {
    if 10 <= n {
      DecimalHasNoColon(n / 10);
    }
  }

  /** A number followed by a colon can be read back from the front of any string. */
  lemma {:induction false} DecimalReadsBack(a: nat, b: nat, tail: string)
    requires Decimal(a) + ":" <= Decimal(b) + ":" + tail
    ensures a == b
  {
    hide Decimal;
    DecimalHasNoColon(a);
    DecimalHasNoColon(b);
    var x, y := Decimal(a), Decimal(b);
    var whole := y + ":" + tail;
    assert forall k :: 0 <= k < |x| ==> whole[k] == (x + ":")[k] == x[k];
    assert forall k :: 0 <= k < |y| ==> whole[k] == y[k];
    assert whole[|x|] == (x + ":")[|x|] == ':' && whole[|y|] == ':';
    assert |x| == |y|;
    assert x == y;
    DecimalInjective(a, b);
  }

  lemma {:induction false} ProvisionKeysApart(loan: nat, other: nat, t: nat)
    requires Prefix(loan) <= ProvisionKey(other, t)
    ensures loan == other
  {
    hide Decimal;
    var head := "loan-provision:";
    var whole := ProvisionKey(other, t);
    assert whole == head + (Decimal(other) + ":" + Decimal(t));
    assert whole[|head|..] == Decimal(other) + ":" + Decimal(t);
    assert Prefix(loan)[|head|..] == Decimal(loan) + ":";
    DecimalReadsBack(loan, other, Decimal(t));
  }

  lemma {:induction false} InterestIsNoProvision(kind: Kind, account: nat, day: string, loan: nat)
    ensures !(Prefix(loan) <= InterestKey(kind, account, day))
  {
    hide Decimal;
    var key, prefix := InterestKey(kind, account, day), Prefix(loan);
    if kind.SavingsInterest? {
      assert key[0] == 'i' && prefix[0] == 'l';
    } else {
      assert key[5] == 'i' && prefix[5] == 'p';
    }
  }

  lemma {:induction false} InterestKindsApart(account: nat, other: nat, day: string)
    ensures InterestKey(SavingsInterest, account, day) != InterestKey(LoanInterest, other, day)
  {
    hide Decimal;
    assert InterestKey(SavingsInterest, account, day)[0] == 'i' && InterestKey(LoanInterest, other, day)[0] == 'l';
  }

  // ---- What one loan's day leaves the other loans ----

  /** `after` leaves account `a` as it was: its balance, its reserve, and every key the pass could use for it. */
  ghost predicate LeavesAlone(b: Books, after: Books, a: nat, reserve: nat, day: string) {
    && a < |b.accounts| && a < |after.accounts|
    && Balance(after, a) == Balance(b, a)
    && Reserved(after, a, reserve) == Reserved(b, a, reserve)
    && (forall kind :: W.Unused(b.journal, InterestKey(kind, a, day)) ==> W.Unused(after.journal, InterestKey(kind, a, day)))
    && (forall t: nat :: KeyTaken(after, a, t) <==> KeyTaken(b, a, t))
  }

  /** A provision of loan `a` towards target `t` would not be written. */
  predicate KeyTaken(b: Books, a: nat, t: nat) {
    FindKey(b.journal, ProvisionKey(a, t)).Some? || ReferenceUsed(b.journal, ProvisionKey(a, t))
  }

  /** One entry, under one key and reference, that is none of account `a`'s. */
  ghost predicate OneApart(b: Books, after: Books, a: nat, key: string, day: string) {
    && |after.journal| == |b.journal| + 1 && after.journal[..|b.journal|] == b.journal
    && after.journal[|b.journal|].key == key && after.journal[|b.journal|].reference == key
    && !(Prefix(a) <= key)
    && (forall kind :: InterestKey(kind, a, day) != key)
  }

  lemma {:induction false} ApartLeavesAlone(b: Books, after: Books, a: nat, reserve: nat, key: string, day: string)
    requires a < |b.accounts| && a < |after.accounts|
    requires OneApart(b, after, a, key, day) && Balance(after, a) == Balance(b, a)
    ensures LeavesAlone(b, after, a, reserve, day)
  {
    hide Balance;
    hide InterestKey;
    hide KeyTaken;
    var e := after.journal[|b.journal|];
    assert after.journal == b.journal + [e];
    SumAppend(b.journal, e, Reserving(a, reserve));
    forall t: nat ensures KeyTaken(after, a, t) <==> KeyTaken(b, a, t) {
      KeyStays(b, after, a, t);
    }
  }

  lemma {:induction false} KeyStays(b: Books, after: Books, a: nat, t: nat)
    requires |after.journal| == |b.journal| + 1 && after.journal[..|b.journal|] == b.journal
    requires !(Prefix(a) <= after.journal[|b.journal|].key) && !(Prefix(a) <= after.journal[|b.journal|].reference)
    ensures KeyTaken(after, a, t) <==> KeyTaken(b, a, t)
  {
    hide Decimal;
    var key := ProvisionKey(a, t);
    assert Prefix(a) <= key;
    if ReferenceUsed(b.journal, key) {
      var i :| 0 <= i < |b.journal| && b.journal[i].reference == key;
      assert after.journal[i].reference == key;
    }
    if ReferenceUsed(after.journal, key) {
      var i :| 0 <= i < |after.journal| && after.journal[i].reference == key;
      assert i < |b.journal| && b.journal[i].reference == key;
    }
  }

  lemma {:induction false} AloneTwice(b: Books, middle: Books, after: Books, a: nat, reserve: nat, day: string)
    requires LeavesAlone(b, middle, a, reserve, day) && LeavesAlone(middle, after, a, reserve, day)
    ensures LeavesAlone(b, after, a, reserve, day)
  {
    hide Balance;
    hide Reserved;
    hide W.Unused;
    hide KeyTaken;
  }

  lemma {:induction false} AloneAtFirst(b: Books, a: nat, reserve: nat, day: string)
    requires a < |b.accounts|
    ensures LeavesAlone(b, b, a, reserve, day)
  {
  }

  /** Interest on one account leaves every other but the counter account alone. */
  lemma {:induction false} InterestLeavesAlone(b: Books, kind: Kind, account: nat, counter: nat, rateBps: nat, day: string, a: nat, reserve: nat)
    requires Accruing(b, kind, account, counter) && 0 <= Balance(b, account)
    requires W.Unused(b.journal, InterestKey(kind, account, day))
    requires a < |b.accounts| && a != account && a != counter
    ensures LeavesAlone(b, AccrueDay(b, kind, account, counter, rateBps, day), a, reserve, day)
  {
    hide Balance;
    hide DailyInterest;
    hide Reserved;
    hide LeavesAlone;
    var after := AccrueDay(b, kind, account, counter, rateBps, day);
    InterestPosts(b, kind, account, counter, rateBps, day);
    OthersUntouched(b, kind, account, counter, rateBps, day, a);
    if after == b {
      AloneAtFirst(b, a, reserve, day);
    } else {
      hide AccrueDay;
      InterestKeysApart(kind, account, a, day);
      InterestIsNoProvision(kind, account, day, a);
      ApartLeavesAlone(b, after, a, reserve, InterestKey(kind, account, day), day);
    }
  }

  lemma {:induction false} InterestKeysApart(kind: Kind, account: nat, a: nat, day: string)
    requires a != account
    ensures forall other :: InterestKey(other, a, day) != InterestKey(kind, account, day)
  {
    hide InterestKey;
    forall other ensures InterestKey(other, a, day) != InterestKey(kind, account, day) {
      if other == kind {
        if InterestKey(kind, a, day) == InterestKey(kind, account, day) {
          InterestKeyPerAccount(kind, a, account, day);
        }
      } else if kind.SavingsInterest? {
        InterestKindsApart(account, a, day);
      } else {
        InterestKindsApart(a, account, day);
      }
    }
  }

  // ---- A loan's provision ----

  /** The shortfall a pass posts to a loan's reserve, given what the loan owes by then. */
  function Due(b: Books, loan: nat, listed: Terms, asOf: int, balance: int): int {
    if balance <= 0 || !listed.Loan? then 0
    else
      TargetNonNegative(balance, listed.maturity, asOf);
      var target := TargetOf(balance, listed.maturity, asOf);
      if target <= listed.provisionedKobo || KeyTaken(b, loan, target) then 0 else target - listed.provisionedKobo
  }

  /** The accounts provisions are posted between are active and may go negative. */
  ghost predicate CanReserve(b: Books, accounts: Accounts) {
    && accounts.expense < |b.accounts| && accounts.reserve < |b.accounts| && accounts.expense != accounts.reserve
    && b.accounts[accounts.expense].status == Active && b.accounts[accounts.expense].allowNegative
    && b.accounts[accounts.reserve].status == Active && b.accounts[accounts.reserve].allowNegative
  }

  /** Only terms change. */
  ghost predicate RowsKept(b: Books, after: Books) {
    && |after.accounts| == |b.accounts|
    && forall a :: 0 <= a < |b.accounts| ==> after.accounts[a] == b.accounts[a].(terms := after.accounts[a].terms)
  }

  lemma {:induction false} ProvisionKeyNot(loan: nat, target: nat, a: nat, day: string)
    requires a != loan
    ensures !(Prefix(a) <= ProvisionKey(loan, target))
    ensures forall kind :: InterestKey(kind, a, day) != ProvisionKey(loan, target)
  {
    hide Decimal;
    if Prefix(a) <= ProvisionKey(loan, target) {
      ProvisionKeysApart(a, loan, target);
    }
    forall kind ensures InterestKey(kind, a, day) != ProvisionKey(loan, target) {
      InterestIsNoProvision(kind, a, day, loan);
      assert Prefix(loan) <= ProvisionKey(loan, target);
    }
  }

  /** A posting towards `target` is written exactly when its key is free. */
  lemma {:induction false} ProvisionWritten(b: Books, loan: nat, accounts: Accounts, target: nat, delta: int)
    requires CanReserve(b, accounts) && 0 < delta
    ensures var key := ProvisionKey(loan, target);
            var after := Post(b, ProvisionMove(accounts, key, delta)).0;
            && after.accounts == b.accounts
            && Reserved(after, loan, accounts.reserve)
               == Reserved(b, loan, accounts.reserve) + (if KeyTaken(b, loan, target) then 0 else delta)
            && (after.journal == b.journal
                || (&& |after.journal| == |b.journal| + 1 && after.journal[..|b.journal|] == b.journal
                    && after.journal[|b.journal|].key == key && after.journal[|b.journal|].reference == key))
  {
    hide Decimal;
    hide Balance;
    hide Reserved;
    var key := ProvisionKey(loan, target);
    var slip := W.Slip(key, key, "Loan loss provision");
    ProvisionPosts(b, loan, accounts, target, delta);
    assert LineGuard(b, LineInput(accounts.expense, Debit, delta)).None? && LineGuard(b, LineInput(accounts.reserve, Credit, delta)).None?;
    W.MoveWellFormed("loan_loss_provision", accounts.expense, accounts.reserve, delta, slip);
    if !KeyTaken(b, loan, target) {
      W.MoveAccepted(b, "loan_loss_provision", accounts.expense, accounts.reserve, delta, slip);
    }
    SameReserve(b, Post(b, ProvisionMove(accounts, key, delta)).0, loan, accounts.reserve);
  }

  lemma {:induction false} SameReserve(b: Books, after: Books, loan: nat, reserve: nat)
    ensures after.journal == b.journal ==> Reserved(after, loan, reserve) == Reserved(b, loan, reserve)
  {
  }

  /** What a pass posts for one loan: its shortfall, and nothing on any account but the two system ones. */
  lemma {:induction false} TickPays(b: Books, loan: nat, accounts: Accounts, listed: Terms, asOf: int, written: bool, day: string, a: nat)
    requires loan < |b.accounts| && listed.Loan? && CanReserve(b, accounts)
    requires a < |b.accounts| && a != accounts.expense && a != accounts.reserve
    ensures var after := Tick(b, loan, accounts, listed, asOf, written);
            && RowsKept(b, after)
            && Reserved(after, loan, accounts.reserve)
               == Reserved(b, loan, accounts.reserve) + Due(b, loan, listed, asOf, Balance(b, loan))
            && Balance(after, a) == Balance(b, a)
            && (a != loan ==> LeavesAlone(b, after, a, accounts.reserve, day))
  {
    hide TargetOf;
    hide Post;
    hide Decimal;
    hide KeyTaken;
    hide LeavesAlone;
    hide Balance;
    hide Reserved;
    var after := Tick(b, loan, accounts, listed, asOf, written);
    var balance := Balance(b, loan);
    AloneAtFirst(b, a, accounts.reserve, day);
    if 0 < balance && listed.provisionedKobo < TargetOf(balance, listed.maturity, asOf) {
      TargetNonNegative(balance, listed.maturity, asOf);
      var target := TargetOf(balance, listed.maturity, asOf);
      var delta, key := target - listed.provisionedKobo, ProvisionKey(loan, target);
      ProvisionWritten(b, loan, accounts, target, delta);
      var posted := Post(b, ProvisionMove(accounts, key, delta)).0;
      assert after.journal == posted.journal;
      SameReserve(posted, after, loan, accounts.reserve);
      PostedElsewhere(b, after, accounts, key, delta, a);
      if a != loan {
        ProvisionKeyNot(loan, target, a, day);
        if after.journal == b.journal {
          SameJournalAlone(b, after, a, accounts.reserve, day);
        } else {
          ApartLeavesAlone(b, after, a, accounts.reserve, key, day);
        }
      }
    }
  }

  lemma {:induction false} SameJournalAlone(b: Books, after: Books, a: nat, reserve: nat, day: string)
    requires after.journal == b.journal && RowsKept(b, after) && a < |b.accounts|
    ensures LeavesAlone(b, after, a, reserve, day)
  {
  }

  /** A provision moves no third account's balance. */
  lemma {:induction false} PostedElsewhere(b: Books, after: Books, accounts: Accounts, key: string, delta: int, a: nat)
    requires a < |b.accounts| && a != accounts.expense && a != accounts.reserve
    requires after.journal == Post(b, ProvisionMove(accounts, key, delta)).0.journal && RowsKept(b, after)
    ensures Balance(after, a) == Balance(b, a)
  {
    hide Post;
    var posted := Post(b, ProvisionMove(accounts, key, delta)).0;
    PostKeepsRows(b, ProvisionMove(accounts, key, delta));
    if posted != b {
      W.MoveMovesMoney(b, "loan_loss_provision", accounts.expense, accounts.reserve, delta,
                       W.Slip(key, key, "Loan loss provision"), a);
    }
    assert Balance(after, a) == Balance(posted, a);
  }

  lemma {:induction false} PostKeepsRows(b: Books, input: PostInput)
    ensures Post(b, input).0.accounts == b.accounts
  {
    hide Balance;
  }

  // ---- One loan's day ----

  /** A loan can have its interest and its provision today. */
  ghost predicate LoanReady(b: Books, loan: nat, listed: Terms, income: nat, accounts: Option<Accounts>, day: string) {
    && Accruing(b, LoanInterest, loan, income) && 0 <= Balance(b, loan) && 0 <= RateOf(listed)
    && W.Unused(b.journal, InterestKey(LoanInterest, loan, day))
    && (accounts.Some? ==> CanReserve(b, accounts.value) && loan != accounts.value.expense && loan != accounts.value.reserve)
  }

  function ReserveOf(accounts: Option<Accounts>): nat {
    if accounts.Some? then accounts.value.reserve else 0
  }

  predicate Outside(a: nat, income: nat, accounts: Option<Accounts>) {
    a != income && (accounts.Some? ==> a != accounts.value.expense && a != accounts.value.reserve)
  }

  /** What the loan owes once its interest is on it. */
  function Owing(b: Books, loan: nat, listed: Terms): int
    requires loan < |b.accounts|
  {
    Balance(b, loan) + DailyInterest(Balance(b, loan), RateOf(listed))
  }

  lemma {:induction false} OwnInterest(b: Books, loan: nat, listed: Terms, income: nat, accounts: Option<Accounts>, day: string)
    requires LoanReady(b, loan, listed, income, accounts, day)
    ensures var accrued := AccrueDay(b, LoanInterest, loan, income, RateOf(listed), day);
            && Balance(accrued, loan) == Owing(b, loan, listed)
            && Reserved(accrued, loan, ReserveOf(accounts)) == Reserved(b, loan, ReserveOf(accounts))
            && forall t: nat :: KeyTaken(accrued, loan, t) <==> KeyTaken(b, loan, t)
  {
    hide Balance;
    hide DailyInterest;
    hide KeyTaken;
    var accrued := AccrueDay(b, LoanInterest, loan, income, RateOf(listed), day);
    InterestPosts(b, LoanInterest, loan, income, RateOf(listed), day);
    if accrued != b {
      hide AccrueDay;
      hide InterestKey;
      InterestIsNoProvision(LoanInterest, loan, day, loan);
      var e := accrued.journal[|b.journal|];
      assert accrued.journal == b.journal + [e];
      SumAppend(b.journal, e, Reserving(loan, ReserveOf(accounts)));
      forall t: nat ensures KeyTaken(accrued, loan, t) <==> KeyTaken(b, loan, t) {
        KeyStays(b, accrued, loan, t);
      }
    }
  }

  lemma {:induction false} SameDue(b: Books, after: Books, loan: nat, listed: Terms, asOf: int, balance: int)
    requires forall t: nat :: KeyTaken(after, loan, t) <==> KeyTaken(b, loan, t)
    ensures Due(after, loan, listed, asOf, balance) == Due(b, loan, listed, asOf, balance)
  {
    hide KeyTaken;
    hide TargetOf;
    if 0 < balance && listed.Loan? {
      TargetNonNegative(balance, listed.maturity, asOf);
      var target: nat := TargetOf(balance, listed.maturity, asOf);
      assert KeyTaken(after, loan, target) <==> KeyTaken(b, loan, target);
    }
  }

  lemma {:induction false} NoDueWithoutTerms(b: Books, loan: nat, listed: Terms, asOf: int, balance: int)
    requires !listed.Loan?
    ensures Due(b, loan, listed, asOf, balance) == 0
  {
  }

  lemma {:induction false} LoanDayOwn(b: Books, loan: nat, listed: Terms, income: nat, accounts: Option<Accounts>, day: string, asOf: int, written: bool)
    requires LoanReady(b, loan, listed, income, accounts, day)
    ensures var after := LoanDay(b, loan, listed, income, accounts, day, asOf, written);
            && RowsKept(b, after)
            && Balance(after, loan) == Owing(b, loan, listed)
            && (accounts.Some? ==>
                  Reserved(after, loan, accounts.value.reserve)
                  == Reserved(b, loan, accounts.value.reserve) + Due(b, loan, listed, asOf, Owing(b, loan, listed)))
  {
    hide AccrueDay;
    hide Tick;
    hide TargetOf;
    hide KeyTaken;
    hide Balance;
    hide Reserved;
    OwnInterest(b, loan, listed, income, accounts, day);
    var accrued := AccrueDay(b, LoanInterest, loan, income, RateOf(listed), day);
    SameDue(b, accrued, loan, listed, asOf, Owing(b, loan, listed));
    if !listed.Loan? {
      NoDueWithoutTerms(b, loan, listed, asOf, Owing(b, loan, listed));
    } else if accounts.Some? {
      hide Due;
      TickPays(accrued, loan, accounts.value, listed, asOf, written, day, loan);
    }
  }

  lemma {:induction false} LoanDayOthers(b: Books, loan: nat, listed: Terms, income: nat, accounts: Option<Accounts>, day: string, asOf: int, written: bool, a: nat)
    requires LoanReady(b, loan, listed, income, accounts, day)
    requires a < |b.accounts| && a != loan && Outside(a, income, accounts)
    ensures LeavesAlone(b, LoanDay(b, loan, listed, income, accounts, day, asOf, written), a, ReserveOf(accounts), day)
  {
    hide AccrueDay;
    hide Tick;
    hide LeavesAlone;
    hide Balance;
    var reserve := ReserveOf(accounts);
    var accrued := AccrueDay(b, LoanInterest, loan, income, RateOf(listed), day);
    InterestLeavesAlone(b, LoanInterest, loan, income, RateOf(listed), day, a, reserve);
    if accounts.Some? && listed.Loan? {
      TickPays(accrued, loan, accounts.value, listed, asOf, written, day, a);
      AloneTwice(b, accrued, Tick(accrued, loan, accounts.value, listed, asOf, written), a, reserve, day);
    }
  }

  // ---- The passes ----

  ghost predicate LoansReady(b: Books, listing: seq<Account>, ids: seq<nat>, income: nat, accounts: Option<Accounts>, day: string) {
    && |listing| <= |b.accounts|
    && (forall i :: 0 <= i < |ids| ==> ids[i] < |listing| && LoanReady(b, ids[i], listing[ids[i]].terms, income, accounts, day))
    && (forall i, k :: 0 <= i < k < |ids| ==> ids[i] != ids[k])
  }

  /** A loan left alone by what came before is as ready as it was, and as much is due for it. */
  lemma {:induction false} StillReady(b: Books, before: Books, loan: nat, listed: Terms, income: nat, accounts: Option<Accounts>, day: string, asOf: int)
    requires LoanReady(b, loan, listed, income, accounts, day) && RowsKept(b, before)
    requires LeavesAlone(b, before, loan, ReserveOf(accounts), day)
    ensures LoanReady(before, loan, listed, income, accounts, day)
    ensures Owing(before, loan, listed) == Owing(b, loan, listed)
    ensures Due(before, loan, listed, asOf, Owing(b, loan, listed)) == Due(b, loan, listed, asOf, Owing(b, loan, listed))
  {
    hide Balance;
    hide DailyInterest;
    hide TargetOf;
    hide KeyTaken;
    hide Reserved;
    hide W.Unused;
    SameDue(b, before, loan, listed, asOf, Owing(b, loan, listed));
  }

  /** Every listed loan gets its own interest and provision, whatever the others get; everybody else is left alone. */
  lemma {:induction false} LoanPassPays(b: Books, listing: seq<Account>, ids: seq<nat>, income: nat, accounts: Option<Accounts>, day: string, asOf: int, written: nat -> bool, a: nat)
    requires LoansReady(b, listing, ids, income, accounts, day)
    requires a < |b.accounts| && Outside(a, income, accounts)
    ensures var after := LoanPass(b, listing, ids, income, accounts, day, asOf, written);
            && RowsKept(b, after)
            && (if a in ids then
                  && Balance(after, a) == Owing(b, a, listing[a].terms)
                  && (accounts.Some? ==>
                        Reserved(after, a, accounts.value.reserve)
                        == Reserved(b, a, accounts.value.reserve) + Due(b, a, listing[a].terms, asOf, Owing(b, a, listing[a].terms)))
                else LeavesAlone(b, after, a, ReserveOf(accounts), day))
  {
    hide LoanDay;
    hide LoanReady;
    hide LeavesAlone;
    hide Balance;
    hide Reserved;
    hide Due;
    hide Owing;
    if ids == [] {
      AloneAtFirst(b, a, ReserveOf(accounts), day);
    } else {
      var n := |ids| - 1;
      var init, last := ids[..n], ids[n];
      var terms := listing[last].terms;
      assert last !in init;
      LastOutside(b, listing, ids, income, accounts, day);
      LoanPassPays(b, listing, init, income, accounts, day, asOf, written, a);
      LoanPassPays(b, listing, init, income, accounts, day, asOf, written, last);
      var before := LoanPass(b, listing, init, income, accounts, day, asOf, written);
      StillReady(b, before, last, terms, income, accounts, day, asOf);
      LoanDayOwn(before, last, terms, income, accounts, day, asOf, written(last));
      LastPays(b, before, last, terms, accounts, day);
      if a != last {
        LoanDayOthers(before, last, terms, income, accounts, day, asOf, written(last), a);
        var after := LoanDay(before, last, terms, income, accounts, day, asOf, written(last));
        AloneColumns(before, after, a, ReserveOf(accounts), day);
        if a !in init {
          AloneTwice(b, before, after, a, ReserveOf(accounts), day);
        }
      }
    }
  }

  lemma {:induction false} LastOutside(b: Books, listing: seq<Account>, ids: seq<nat>, income: nat, accounts: Option<Accounts>, day: string)
    requires LoansReady(b, listing, ids, income, accounts, day) && ids != []
    ensures ids[|ids| - 1] < |b.accounts| && Outside(ids[|ids| - 1], income, accounts)
  {
    assert LoanReady(b, ids[|ids| - 1], listing[ids[|ids| - 1]].terms, income, accounts, day);
  }

  lemma {:induction false} LastPays(b: Books, before: Books, loan: nat, listed: Terms, accounts: Option<Accounts>, day: string)
    requires LeavesAlone(b, before, loan, ReserveOf(accounts), day)
    ensures Reserved(before, loan, ReserveOf(accounts)) == Reserved(b, loan, ReserveOf(accounts))
  {
  }

  lemma {:induction false} AloneColumns(b: Books, after: Books, a: nat, reserve: nat, day: string)
    requires LeavesAlone(b, after, a, reserve, day)
    ensures a < |b.accounts| && a < |after.accounts|
    ensures Balance(after, a) == Balance(b, a) && Reserved(after, a, reserve) == Reserved(b, a, reserve)
  {
  }

  lemma {:induction false} InterestPassLeavesAlone(b: Books, kind: Kind, listing: seq<Account>, ids: seq<nat>, counter: nat, day: string, a: nat, reserve: nat)
    requires ReadyToAccrue(b, kind, listing, ids, counter, day)
    requires a < |b.accounts| && a != counter && a !in ids
    ensures LeavesAlone(b, InterestPass(b, kind, listing, ids, counter, day), a, reserve, day)
  {
    hide AccrueDay;
    hide LeavesAlone;
    hide Balance;
    hide DailyInterest;
    hide W.Unused;
    if ids == [] {
      AloneAtFirst(b, a, reserve, day);
    } else {
      var init, last := ids[..|ids| - 1], ids[|ids| - 1];
      assert last !in init;
      InterestPassLeavesAlone(b, kind, listing, init, counter, day, a, reserve);
      PassPaysEach(b, kind, listing, init, counter, day, last);
      var before := InterestPass(b, kind, listing, init, counter, day);
      assert Accruing(before, kind, last, counter);
      InterestLeavesAlone(before, kind, last, counter, RateOf(listing[last].terms), day, a, reserve);
      AloneTwice(b, before, AccrueDay(before, kind, last, counter, RateOf(listing[last].terms), day), a, reserve, day);
    }
  }

  // ---- The whole tenant ----

  function Pockets(b: Books): seq<nat> {
    Listed(b.accounts, W.SAVINGS, |b.accounts|)
  }

  function Loans(b: Books): seq<nat> {
    Listed(b.accounts, Loan.LOAN, |b.accounts|)
  }

  /** The four accounts a pass posts against. */
  predicate IsSystem(b: Books, a: nat) {
    || W.ByNumber(b.accounts, INTEREST_EXPENSE) == Some(a)
    || W.ByNumber(b.accounts, INTEREST_INCOME) == Some(a)
    || W.ByNumber(b.accounts, LOAN_LOSS_PROVISION) == Some(a)
    || W.ByNumber(b.accounts, LOAN_LOSS_RESERVE) == Some(a)
  }

  /** The tenant has the accounts its products need, in use as seeded, and today's interest is still to be posted. */
  ghost predicate TenantReady(b: Books, day: string) {
    var expense, income := W.ByNumber(b.accounts, INTEREST_EXPENSE), W.ByNumber(b.accounts, INTEREST_INCOME);
    && (Pockets(b) != [] ==> expense.Some? && ReadyToAccrue(b, SavingsInterest, b.accounts, Pockets(b), expense.value, day))
    && (Loans(b) != [] ==> income.Some? && LoansReady(b, b.accounts, Loans(b), income.value, ReserveAccounts(b.accounts), day))
    && (forall a :: a in Pockets(b) || a in Loans(b) ==> !IsSystem(b, a))
  }

  lemma {:induction false} ListedApart(b: Books, a: nat)
    ensures a in Pockets(b) ==> a !in Loans(b)
  {
    hide Listed;
    if a in Pockets(b) {
      forall k | 0 <= k < |Loans(b)| ensures Loans(b)[k] != a {
        assert b.accounts[Loans(b)[k]].product == Loan.LOAN;
      }
    }
  }

  /** What one day's pass adds to an account. */
  function OwnDay(b: Books, a: nat): int
    requires a < |b.accounts|
  {
    if a in Pockets(b) || a in Loans(b) then DailyInterest(Balance(b, a), RateOf(b.accounts[a].terms)) else 0
  }

  /**
   * A pass over a tenant gives every active pocket and loan exactly its own
   * day's interest and moves no other account but the four system ones; and
   * each loan's reserve grows by exactly its own shortfall.
   */
  lemma {:induction false} TenantPassPays(b: Books, day: string, asOf: int, written: nat -> bool, a: nat)
    requires TenantReady(b, day) && a < |b.accounts| && !IsSystem(b, a)
    ensures var after := TenantPass(b, day, asOf, written);
            var accounts := ReserveAccounts(b.accounts);
            && a < |after.accounts|
            && Balance(after, a) == Balance(b, a) + OwnDay(b, a)
            && (a in Loans(b) && accounts.Some? ==>
                  Reserved(after, a, accounts.value.reserve)
                  == Reserved(b, a, accounts.value.reserve)
                     + Due(b, a, b.accounts[a].terms, asOf, Owing(b, a, b.accounts[a].terms)))
  {
    hide Balance;
    hide DailyInterest;
    hide Reserved;
    hide Due;
    hide LeavesAlone;
    hide LoansReady;
    hide ReadyToAccrue;
    hide InterestPass;
    hide LoanPass;
    hide Listed;
    var accounts := ReserveAccounts(b.accounts);
    var reserve := ReserveOf(accounts);
    var expense, income := W.ByNumber(b.accounts, INTEREST_EXPENSE), W.ByNumber(b.accounts, INTEREST_INCOME);
    ListedApart(b, a);
    AloneAtFirst(b, a, reserve, day);
    var accrued := if Pockets(b) == [] then b else InterestPass(b, SavingsInterest, b.accounts, Pockets(b), expense.value, day);
    SavingsPart(b, day, a);
    if Loans(b) != [] {
      LoansStillReady(b, accrued, day, asOf, a);
      LoanPassPays(accrued, b.accounts, Loans(b), income.value, accounts, day, asOf, written, a);
      var after := LoanPass(accrued, b.accounts, Loans(b), income.value, accounts, day, asOf, written);
      if a !in Loans(b) {
        AloneColumns(accrued, after, a, reserve, day);
      }
    }
  }

  /** The savings half of the pass. */
  lemma {:induction false} SavingsPart(b: Books, day: string, a: nat)
    requires TenantReady(b, day) && a < |b.accounts| && !IsSystem(b, a)
    ensures var expense := W.ByNumber(b.accounts, INTEREST_EXPENSE);
            var accrued := if Pockets(b) == [] then b else InterestPass(b, SavingsInterest, b.accounts, Pockets(b), expense.value, day);
            && accrued.accounts == b.accounts
            && (a in Pockets(b) ==>
                  Balance(accrued, a) == Balance(b, a) + DailyInterest(Balance(b, a), RateOf(b.accounts[a].terms)))
            && (a !in Pockets(b) ==> LeavesAlone(b, accrued, a, ReserveOf(ReserveAccounts(b.accounts)), day)
                                     && Balance(accrued, a) == Balance(b, a))
  {
    hide Balance;
    hide DailyInterest;
    hide LeavesAlone;
    hide ReadyToAccrue;
    hide LoansReady;
    hide Listed;
    var reserve := ReserveOf(ReserveAccounts(b.accounts));
    var expense := W.ByNumber(b.accounts, INTEREST_EXPENSE);
    AloneAtFirst(b, a, reserve, day);
    if Pockets(b) != [] {
      hide InterestPass;
      PassPaysEach(b, SavingsInterest, b.accounts, Pockets(b), expense.value, day, a);
      if a !in Pockets(b) {
        InterestPassLeavesAlone(b, SavingsInterest, b.accounts, Pockets(b), expense.value, day, a, reserve);
      }
    }
  }

  /** After the savings half every loan is as ready as before, and as much is due for it. */
  lemma {:induction false} LoansStillReady(b: Books, accrued: Books, day: string, asOf: int, a: nat)
    requires TenantReady(b, day) && Loans(b) != [] && a < |b.accounts| && !IsSystem(b, a)
    requires accrued == if Pockets(b) == [] then b
                        else InterestPass(b, SavingsInterest, b.accounts, Pockets(b), W.ByNumber(b.accounts, INTEREST_EXPENSE).value, day)
    ensures var accounts := ReserveAccounts(b.accounts);
            var income := W.ByNumber(b.accounts, INTEREST_INCOME).value;
            && LoansReady(accrued, b.accounts, Loans(b), income, accounts, day)
            && Outside(a, income, accounts)
            && (a in Loans(b) ==>
                  && Owing(accrued, a, b.accounts[a].terms) == Owing(b, a, b.accounts[a].terms)
                  && Reserved(accrued, a, ReserveOf(accounts)) == Reserved(b, a, ReserveOf(accounts))
                  && Due(accrued, a, b.accounts[a].terms, asOf, Owing(b, a, b.accounts[a].terms))
                     == Due(b, a, b.accounts[a].terms, asOf, Owing(b, a, b.accounts[a].terms)))
  {
    hide Balance;
    hide DailyInterest;
    hide Reserved;
    hide Due;
    hide Owing;
    hide LeavesAlone;
    hide LoanReady;
    hide ReadyToAccrue;
    hide InterestPass;
    hide Listed;
    var accounts := ReserveAccounts(b.accounts);
    var income := W.ByNumber(b.accounts, INTEREST_INCOME).value;
    var ids := Loans(b);
    forall i | 0 <= i < |ids|
      ensures LoanReady(accrued, ids[i], b.accounts[ids[i]].terms, income, accounts, day)
      ensures Owing(accrued, ids[i], b.accounts[ids[i]].terms) == Owing(b, ids[i], b.accounts[ids[i]].terms)
      ensures Reserved(accrued, ids[i], ReserveOf(accounts)) == Reserved(b, ids[i], ReserveOf(accounts))
      ensures Due(accrued, ids[i], b.accounts[ids[i]].terms, asOf, Owing(b, ids[i], b.accounts[ids[i]].terms))
              == Due(b, ids[i], b.accounts[ids[i]].terms, asOf, Owing(b, ids[i], b.accounts[ids[i]].terms))
    {
      var loan := ids[i];
      assert loan in ids;
      ListedApart(b, loan);
      SavingsPart(b, day, loan);
      StillReady(b, accrued, loan, b.accounts[loan].terms, income, accounts, day, asOf);
      AloneColumns(b, accrued, loan, ReserveOf(accounts), day);
    }
  }

  // ---- What the system accounts move ----

  function InterestOf(b: Books, listing: seq<Account>): nat -> int {
    (a: nat) => if a < |b.accounts| && a < |listing| then DailyInterest(Balance(b, a), RateOf(listing[a].terms)) else 0
  }

  function DueOf(b: Books, listing: seq<Account>, asOf: int): nat -> int {
    (a: nat) =>
      if a < |b.accounts| && a < |listing| then Due(b, a, listing[a].terms, asOf, Owing(b, a, listing[a].terms)) else 0
  }

  /** The normal side that makes interest of a kind raise its counter account: an expense or an income. */
  function CounterSide(kind: Kind): Side {
    if kind.SavingsInterest? then Debit else Credit
  }

  lemma {:induction false} CounterDay(b: Books, kind: Kind, account: nat, counter: nat, rateBps: nat, day: string)
    requires Accruing(b, kind, account, counter) && 0 <= Balance(b, account)
    requires W.Unused(b.journal, InterestKey(kind, account, day))
    requires b.accounts[counter].normal == CounterSide(kind)
    ensures var after := AccrueDay(b, kind, account, counter, rateBps, day);
            Balance(after, counter) == Balance(b, counter) + DailyInterest(Balance(b, account), rateBps)
  {
    hide Balance;
    hide DailyInterest;
    hide InterestKey;
    InterestPosts(b, kind, account, counter, rateBps, day);
    var interest := DailyInterest(Balance(b, account), rateBps);
    NonNegativeInterest(Balance(b, account), rateBps);
    if AccrueDay(b, kind, account, counter, rateBps, day) != b {
      hide Post;
      var input := InterestMove(kind, account, counter, interest, day);
      W.MoveMovesMoney(b, input.entryType, input.lines[0].account, input.lines[1].account, input.lines[0].amount,
                       W.Slip(input.reference, input.key, input.description), counter);
    }
  }

  lemma {:induction false} NonNegativeInterest(balance: nat, rateBps: nat)
    ensures 0 <= DailyInterest(balance, rateBps)
  {
    DailyInterestIsFloor(balance, rateBps);
  }

  /** The account all of a pass's interest is posted against moves by its sum. */
  lemma {:induction false} InterestPassCounter(b: Books, kind: Kind, listing: seq<Account>, ids: seq<nat>, counter: nat, day: string)
    requires ReadyToAccrue(b, kind, listing, ids, counter, day) && counter < |b.accounts|
    requires b.accounts[counter].normal == CounterSide(kind)
    ensures Balance(InterestPass(b, kind, listing, ids, counter, day), counter)
            == Balance(b, counter) + Sum(ids, InterestOf(b, listing))
  {
    hide AccrueDay;
    hide Balance;
    hide DailyInterest;
    hide W.Unused;
    if ids != [] {
      var init, last := ids[..|ids| - 1], ids[|ids| - 1];
      assert last !in init;
      InterestPassCounter(b, kind, listing, init, counter, day);
      PassPaysEach(b, kind, listing, init, counter, day, last);
      var before := InterestPass(b, kind, listing, init, counter, day);
      assert Accruing(before, kind, last, counter);
      CounterDay(before, kind, last, counter, RateOf(listing[last].terms), day);
    }
  }

  /** Expenses are debit-normal; income and the reserve are credit-normal. */
  predicate ReserveSides(b: Books, accounts: Accounts) {
    && accounts.expense < |b.accounts| && b.accounts[accounts.expense].normal == Debit
    && accounts.reserve < |b.accounts| && b.accounts[accounts.reserve].normal == Credit
  }

  /** A provision moves its expense and the reserve's balance by what it reserves. */
  lemma {:induction false} PostBalances(b: Books, loan: nat, accounts: Accounts, target: nat, delta: int)
    requires CanReserve(b, accounts) && ReserveSides(b, accounts) && 0 < delta
    ensures var after := Post(b, ProvisionMove(accounts, ProvisionKey(loan, target), delta)).0;
            var reserved := Reserved(after, loan, accounts.reserve) - Reserved(b, loan, accounts.reserve);
            && after.accounts == b.accounts
            && Balance(after, accounts.expense) == Balance(b, accounts.expense) + reserved
            && Balance(after, accounts.reserve) == Balance(b, accounts.reserve) + reserved
  {
    hide Balance;
    hide Reserved;
    hide Decimal;
    var key := ProvisionKey(loan, target);
    var after := Post(b, ProvisionMove(accounts, key, delta)).0;
    ProvisionPosts(b, loan, accounts, target, delta);
    SameReserve(b, after, loan, accounts.reserve);
    if after.journal == b.journal {
      SameBalance(b, after, accounts.expense);
      SameBalance(b, after, accounts.reserve);
    } else {
      hide Post;
      var slip := W.Slip(key, key, "Loan loss provision");
      W.MoveMovesMoney(b, "loan_loss_provision", accounts.expense, accounts.reserve, delta, slip, accounts.expense);
      W.MoveMovesMoney(b, "loan_loss_provision", accounts.expense, accounts.reserve, delta, slip, accounts.reserve);
    }
  }

  lemma {:induction false} SameBalance(b: Books, after: Books, a: nat)
    requires a < |b.accounts| && a < |after.accounts| && after.accounts[a].normal == b.accounts[a].normal
    requires after.journal == b.journal
    ensures Balance(after, a) == Balance(b, a)
  {
  }

  /** What a pass over one loan does to the two accounts it provisions between. */
  lemma {:induction false} TickSystem(b: Books, loan: nat, accounts: Accounts, listed: Terms, asOf: int, written: bool)
    requires loan < |b.accounts| && listed.Loan? && CanReserve(b, accounts) && ReserveSides(b, accounts)
    requires loan != accounts.expense && loan != accounts.reserve
    ensures var after := Tick(b, loan, accounts, listed, asOf, written);
            var due := Due(b, loan, listed, asOf, Balance(b, loan));
            && RowsKept(b, after)
            && Balance(after, accounts.expense) == Balance(b, accounts.expense) + due
            && Balance(after, accounts.reserve) == Balance(b, accounts.reserve) + due
  {
    hide Balance;
    hide Reserved;
    hide TargetOf;
    hide Due;
    hide Post;
    hide Decimal;
    TickPays(b, loan, accounts, listed, asOf, written, "", loan);
    var after := Tick(b, loan, accounts, listed, asOf, written);
    var balance := Balance(b, loan);
    if 0 < balance && listed.provisionedKobo < TargetOf(balance, listed.maturity, asOf) {
      TargetNonNegative(balance, listed.maturity, asOf);
      var target := TargetOf(balance, listed.maturity, asOf);
      var delta := target - listed.provisionedKobo;
      PostBalances(b, loan, accounts, target, delta);
      var posted := Post(b, ProvisionMove(accounts, ProvisionKey(loan, target), delta)).0;
      SameReserve(posted, after, loan, accounts.reserve);
      SameBalance(posted, after, accounts.expense);
      SameBalance(posted, after, accounts.reserve);
    }
  }

  /** What one loan's day does to the three system accounts it moves. */
  ghost predicate LoanSystemMoved(b: Books, after: Books, income: nat, accounts: Option<Accounts>, interest: int, due: int) {
    && |after.accounts| == |b.accounts| && income < |b.accounts|
    && Balance(after, income) == Balance(b, income) + interest
    && (accounts.Some? ==>
          && accounts.value.expense < |b.accounts| && accounts.value.reserve < |b.accounts|
          && Balance(after, accounts.value.expense) == Balance(b, accounts.value.expense) + due
          && Balance(after, accounts.value.reserve) == Balance(b, accounts.value.reserve) + due)
  }

  ghost predicate LoanSides(b: Books, income: nat, accounts: Option<Accounts>) {
    && income < |b.accounts| && b.accounts[income].normal == Credit
    && (accounts.Some? ==>
          && ReserveSides(b, accounts.value) && income != accounts.value.expense && income != accounts.value.reserve)
  }

  lemma {:induction false} LoanDaySystem(b: Books, loan: nat, listed: Terms, income: nat, accounts: Option<Accounts>, day: string, asOf: int, written: bool)
    requires LoanReady(b, loan, listed, income, accounts, day) && LoanSides(b, income, accounts)
    ensures LoanSystemMoved(b, LoanDay(b, loan, listed, income, accounts, day, asOf, written), income, accounts,
                            DailyInterest(Balance(b, loan), RateOf(listed)), Due(b, loan, listed, asOf, Owing(b, loan, listed)))
  {
    hide AccrueDay;
    hide Tick;
    hide Balance;
    hide Due;
    hide DailyInterest;
    hide W.Unused;
    hide KeyTaken;
    hide Reserved;
    var rateBps := RateOf(listed);
    OwnInterest(b, loan, listed, income, accounts, day);
    CounterDay(b, LoanInterest, loan, income, rateBps, day);
    var accrued := AccrueDay(b, LoanInterest, loan, income, rateBps, day);
    SameDue(b, accrued, loan, listed, asOf, Owing(b, loan, listed));
    if accounts.Some? {
      OthersUntouched(b, LoanInterest, loan, income, rateBps, day, accounts.value.expense);
      OthersUntouched(b, LoanInterest, loan, income, rateBps, day, accounts.value.reserve);
      if listed.Loan? {
        TickSystem(accrued, loan, accounts.value, listed, asOf, written);
        TickPays(accrued, loan, accounts.value, listed, asOf, written, day, income);
      } else {
        NoDueWithoutTerms(b, loan, listed, asOf, Owing(b, loan, listed));
      }
    }
  }

  lemma {:induction false} SystemMovedTwice(b: Books, before: Books, after: Books, income: nat, accounts: Option<Accounts>, x: int, y: int, u: int, v: int)
    requires LoanSystemMoved(b, before, income, accounts, x, y) && LoanSystemMoved(before, after, income, accounts, u, v)
    ensures LoanSystemMoved(b, after, income, accounts, x + u, y + v)
  {
    hide Balance;
  }

  lemma {:induction false} SystemUnmoved(b: Books, income: nat, accounts: Option<Accounts>)
    requires LoanSides(b, income, accounts)
    ensures LoanSystemMoved(b, b, income, accounts, 0, 0)
  {
    hide Balance;
  }

  lemma {:induction false} SidesKept(b: Books, after: Books, income: nat, accounts: Option<Accounts>)
    requires LoanSides(b, income, accounts) && RowsKept(b, after)
    ensures LoanSides(after, income, accounts)
  {
  }

  /** Income moves by the sum of the loans' interest, the provision expense and the reserve by the sum of their shortfalls. */
  lemma {:induction false} LoanPassSystem(b: Books, listing: seq<Account>, ids: seq<nat>, income: nat, accounts: Option<Accounts>, day: string, asOf: int, written: nat -> bool)
    requires LoansReady(b, listing, ids, income, accounts, day) && LoanSides(b, income, accounts)
    ensures LoanSystemMoved(b, LoanPass(b, listing, ids, income, accounts, day, asOf, written), income, accounts,
                            Sum(ids, InterestOf(b, listing)), Sum(ids, DueOf(b, listing, asOf)))
  {
    hide LoanDay;
    hide LoanReady;
    hide LoanSides;
    hide LoanSystemMoved;
    hide LeavesAlone;
    hide Balance;
    hide Reserved;
    hide Due;
    hide DailyInterest;
    if ids == [] {
      SystemUnmoved(b, income, accounts);
    } else {
      var n := |ids| - 1;
      var init, last := ids[..n], ids[n];
      var terms := listing[last].terms;
      assert last !in init;
      LastOutside(b, listing, ids, income, accounts, day);
      LoanPassSystem(b, listing, init, income, accounts, day, asOf, written);
      LoanPassPays(b, listing, init, income, accounts, day, asOf, written, last);
      var before := LoanPass(b, listing, init, income, accounts, day, asOf, written);
      StillReady(b, before, last, terms, income, accounts, day, asOf);
      AloneColumns(b, before, last, ReserveOf(accounts), day);
      SidesKept(b, before, income, accounts);
      LoanDaySystem(before, last, terms, income, accounts, day, asOf, written(last));
      var after := LoanDay(before, last, terms, income, accounts, day, asOf, written(last));
      SystemMovedTwice(b, before, after, income, accounts,
                       Sum(init, InterestOf(b, listing)), Sum(init, DueOf(b, listing, asOf)),
                       InterestOf(b, listing)(last), DueOf(b, listing, asOf)(last));
    }
  }

  /** The system accounts a tenant has are an expense, an income, an expense and a reserve. */
  predicate Seeded(b: Books) {
    var expense, income := W.ByNumber(b.accounts, INTEREST_EXPENSE), W.ByNumber(b.accounts, INTEREST_INCOME);
    && (expense.Some? ==> b.accounts[expense.value].normal == Debit)
    && (income.Some? ==> b.accounts[income.value].normal == Credit)
    && (ReserveAccounts(b.accounts).Some? ==> ReserveSides(b, ReserveAccounts(b.accounts).value))
  }

  const SYSTEM := {INTEREST_EXPENSE, INTEREST_INCOME, LOAN_LOSS_PROVISION, LOAN_LOSS_RESERVE}

  lemma {:induction false} SystemApart(b: Books)
    ensures forall number, other :: number in SYSTEM && other in SYSTEM && W.ByNumber(b.accounts, number).Some? ==>
              W.ByNumber(b.accounts, number) == W.ByNumber(b.accounts, other) ==> number == other
  {
  }

  /** The savings half moves its expense by the pockets' interest, and no loan and no other system account. */
  lemma {:induction false} SavingsSystem(b: Books, day: string)
    requires TenantReady(b, day) && Seeded(b)
    ensures var expense, income := W.ByNumber(b.accounts, INTEREST_EXPENSE), W.ByNumber(b.accounts, INTEREST_INCOME);
            var accounts := ReserveAccounts(b.accounts);
            var accrued := if Pockets(b) == [] then b else InterestPass(b, SavingsInterest, b.accounts, Pockets(b), expense.value, day);
            && accrued.accounts == b.accounts
            && (expense.Some? ==>
                  Balance(accrued, expense.value) == Balance(b, expense.value) + Sum(Pockets(b), InterestOf(b, b.accounts)))
            && (income.Some? ==> Balance(accrued, income.value) == Balance(b, income.value))
            && (accounts.Some? ==>
                  && Balance(accrued, accounts.value.expense) == Balance(b, accounts.value.expense)
                  && Balance(accrued, accounts.value.reserve) == Balance(b, accounts.value.reserve))
  {
    hide Balance;
    hide DailyInterest;
    hide ReadyToAccrue;
    hide LoansReady;
    hide Listed;
    hide W.ByNumber;
    var expense, income := W.ByNumber(b.accounts, INTEREST_EXPENSE), W.ByNumber(b.accounts, INTEREST_INCOME);
    var accounts := ReserveAccounts(b.accounts);
    SystemApart(b);
    if Pockets(b) != [] {
      hide InterestPass;
      InterestPassCounter(b, SavingsInterest, b.accounts, Pockets(b), expense.value, day);
      if income.Some? {
        PassPaysEach(b, SavingsInterest, b.accounts, Pockets(b), expense.value, day, income.value);
      }
      if accounts.Some? {
        PassPaysEach(b, SavingsInterest, b.accounts, Pockets(b), expense.value, day, accounts.value.expense);
        PassPaysEach(b, SavingsInterest, b.accounts, Pockets(b), expense.value, day, accounts.value.reserve);
      }
    }
  }

  /** The loans' interest and shortfalls are after the savings half what they were before it. */
  lemma {:induction false} SameLoanSums(b: Books, accrued: Books, day: string, asOf: int)
    requires TenantReady(b, day) && Loans(b) != []
    requires accrued == if Pockets(b) == [] then b
                        else InterestPass(b, SavingsInterest, b.accounts, Pockets(b), W.ByNumber(b.accounts, INTEREST_EXPENSE).value, day)
    ensures LoansReady(accrued, b.accounts, Loans(b), W.ByNumber(b.accounts, INTEREST_INCOME).value, ReserveAccounts(b.accounts), day)
    ensures Sum(Loans(b), InterestOf(accrued, b.accounts)) == Sum(Loans(b), InterestOf(b, b.accounts))
    ensures Sum(Loans(b), DueOf(accrued, b.accounts, asOf)) == Sum(Loans(b), DueOf(b, b.accounts, asOf))
  {
    hide Balance;
    hide DailyInterest;
    hide Due;
    hide Owing;
    hide Reserved;
    hide LeavesAlone;
    hide LoansReady;
    hide ReadyToAccrue;
    hide InterestPass;
    hide Listed;
    var ids := Loans(b);
    forall i | 0 <= i < |ids|
      ensures InterestOf(accrued, b.accounts)(ids[i]) == InterestOf(b, b.accounts)(ids[i])
      ensures DueOf(accrued, b.accounts, asOf)(ids[i]) == DueOf(b, b.accounts, asOf)(ids[i])
    {
      assert ids[i] in ids;
      ListedApart(b, ids[i]);
      SavingsPart(b, day, ids[i]);
      LoansStillReady(b, accrued, day, asOf, ids[i]);
    }
    assert ids[0] in ids;
    LoansStillReady(b, accrued, day, asOf, ids[0]);
    SumPointwise(ids, InterestOf(accrued, b.accounts), ids, InterestOf(b, b.accounts));
    SumPointwise(ids, DueOf(accrued, b.accounts, asOf), ids, DueOf(b, b.accounts, asOf));
  }

  /**
   * And the four system accounts move by exactly the sums: the interest expense
   * by all pockets' interest, the income by all loans', the provision expense
   * and the reserve each by all loans' shortfalls.
   */
  lemma {:induction false} TenantPassSystem(b: Books, day: string, asOf: int, written: nat -> bool)
    requires TenantReady(b, day) && Seeded(b)
    ensures var after := TenantPass(b, day, asOf, written);
            var expense, income := W.ByNumber(b.accounts, INTEREST_EXPENSE), W.ByNumber(b.accounts, INTEREST_INCOME);
            var accounts := ReserveAccounts(b.accounts);
            && |after.accounts| == |b.accounts|
            && (expense.Some? ==>
                  Balance(after, expense.value) == Balance(b, expense.value) + Sum(Pockets(b), InterestOf(b, b.accounts)))
            && (income.Some? ==>
                  Balance(after, income.value) == Balance(b, income.value) + Sum(Loans(b), InterestOf(b, b.accounts)))
            && (accounts.Some? ==>
                  && Balance(after, accounts.value.expense)
                     == Balance(b, accounts.value.expense) + Sum(Loans(b), DueOf(b, b.accounts, asOf))
                  && Balance(after, accounts.value.reserve)
                     == Balance(b, accounts.value.reserve) + Sum(Loans(b), DueOf(b, b.accounts, asOf)))
  {
    hide Balance;
    hide DailyInterest;
    hide ReadyToAccrue;
    hide LoansReady;
    hide LeavesAlone;
    hide Listed;
    hide LoanPass;
    hide InterestPass;
    hide InterestOf;
    hide DueOf;
    hide W.ByNumber;
    var expense, income := W.ByNumber(b.accounts, INTEREST_EXPENSE), W.ByNumber(b.accounts, INTEREST_INCOME);
    var accounts := ReserveAccounts(b.accounts);
    var ids := Loans(b);
    SavingsSystem(b, day);
    var accrued := if Pockets(b) == [] then b else InterestPass(b, SavingsInterest, b.accounts, Pockets(b), expense.value, day);
    if ids != [] {
      SystemApart(b);
      SameLoanSums(b, accrued, day, asOf);
      LoanPassSystem(accrued, b.accounts, ids, income.value, accounts, day, asOf, written);
      if expense.Some? {
        LoanPassPays(accrued, b.accounts, ids, income.value, accounts, day, asOf, written, expense.value);
        AloneColumns(accrued, LoanPass(accrued, b.accounts, ids, income.value, accounts, day, asOf, written),
                     expense.value, ReserveOf(accounts), day);
      }
    }
  }

  /** What an account's own day comes to, by its terms: the pocket's or the loan's yearly rate on its balance, and nothing for others. */
  lemma {:induction false} OwnDayExactly(b: Books, a: nat)
    requires a < |b.accounts| && 0 <= Balance(b, a)
    requires 0 <= RateOf(b.accounts[a].terms)
    ensures var row := b.accounts[a];
            OwnDay(b, a)
            == if row.status != Active then 0
               else if row.product == "savings_locked" || row.product == "loan" then
                 (match row.terms
                  case Savings(rateBps, _) => Balance(b, a) * rateBps / 3_650_000
                  case Loan(_, rateBps, _, _, _) => Balance(b, a) * rateBps / 3_650_000
                  case NoTerms => 0)
               else 0
  {
    hide Balance;
    hide DailyInterest;
    ListedExactly(b.accounts, W.SAVINGS, |b.accounts|, a);
    ListedExactly(b.accounts, Loan.LOAN, |b.accounts|, a);
    DailyInterestIsFloor(Balance(b, a), RateOf(b.accounts[a].terms));
  }

  /**
   * A tenant with pockets but no interest expense account, or loans but no
   * interest income account, gets no pass at all; one without both loan-loss
   * accounts gets its interest and no provisions.
   */
  lemma {:induction false} MissingAccounts(b: Books, day: string, asOf: int, written: nat -> bool)
    ensures (Pockets(b) != [] && W.ByNumber(b.accounts, "SYS-INTEREST-EXPENSE").None?)
            || (Loans(b) != [] && W.ByNumber(b.accounts, "SYS-INTEREST-INCOME").None?)
            ==> TenantPass(b, day, asOf, written) == b
    ensures ReserveAccounts(b.accounts).None?
            <==> W.ByNumber(b.accounts, "SYS-LOAN-LOSS-PROVISION").None? || W.ByNumber(b.accounts, "SYS-LOAN-LOSS-RESERVE").None?
    ensures ReserveAccounts(b.accounts).Some? ==>
              && Some(ReserveAccounts(b.accounts).value.expense) == W.ByNumber(b.accounts, "SYS-LOAN-LOSS-PROVISION")
              && Some(ReserveAccounts(b.accounts).value.reserve) == W.ByNumber(b.accounts, "SYS-LOAN-LOSS-RESERVE")
    ensures forall loan: nat, listed, income: nat, once ::
              loan < |b.accounts| && ReserveAccounts(b.accounts).None? ==>
                LoanDay(b, loan, listed, income, ReserveAccounts(b.accounts), day, asOf, once)
                == AccrueDay(b, LoanInterest, loan, income, RateOf(listed), day)
  {
    hide W.ByNumber;
    hide InterestPass;
    hide LoanPass;
    hide Listed;
    hide AccrueDay;
  }
}
