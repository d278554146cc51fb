/** Daily interest on savings pockets and loans (services/ledger/internal/accrual/accrual.go). */
module Accrual {
  import opened Domain
  import opened Ledger
  import opened Wallet

  // ---- One day's interest ----

  /** Integer division as the source does it: towards zero. */
  function Quotient(a: int, d: int): int
    requires 0 < d
  {
    if 0 <= a then a / d else -(-a / d)
  }

  function DailyInterest(balance: int, rateBps: int): int {
    Quotient(Quotient(balance * rateBps, 10_000), 365)
  }

  /** Dividing twice loses nothing over dividing once, and never rounds up. */
  lemma {:induction false} DailyInterestIsFloor(balance: nat, rateBps: nat)
    ensures DailyInterest(balance, rateBps) == balance * rateBps / 3_650_000
    ensures 3_650_000 * DailyInterest(balance, rateBps) <= balance * rateBps
    ensures balance * rateBps < 3_650_000 * DailyInterest(balance, rateBps) + 3_650_000
  {
  }

  /** The balance after `n` days of posted interest and no other movement. */
  function Compounded(balance: nat, rateBps: nat, n: nat): (b: nat)
    ensures balance <= b
  {
    if n == 0 then balance
    else
      var before := Compounded(balance, rateBps, n - 1);
      DailyInterestIsFloor(before, rateBps);
      before + DailyInterest(before, rateBps)
  }

  // ---- Against exact compounding ----

  function Power(x: real, n: nat): real {
    if n == 0 then 1.0 else Power(x, n - 1) * x
  }

  /** The daily rate as an exact fraction. */
  function Rate(rateBps: nat): real {
    rateBps as real / 3_650_000.0
  }

  /** One day: the posted interest is the exact interest less a lag below one kobo. */
  lemma {:induction false} DayLag(balance: nat, rateBps: nat)
    ensures var exact := balance as real * Rate(rateBps);
            exact - 1.0 < DailyInterest(balance, rateBps) as real <= exact
  {
    DailyInterestIsFloor(balance, rateBps);
    var product := balance * rateBps;
    assert balance as real * Rate(rateBps) == product as real / 3_650_000.0;
  }

  lemma {:induction false} Scaled(x: real, y: real, r: real)
    requires x <= y && 0.0 <= r
    ensures x * r <= y * r
  {
  }

  lemma {:induction false} Undivided(x: real, y: real, r: real)
    requires 0.0 < r && x * r <= y
    ensures x <= y / r
  {
    var q := y / r;
    assert q * r == y;
    assert (x - q) * r == x * r - q * r;
  }

  /** How the lag behind exact compounding grows over one day; `xr` and `pr` are a day's exact and `posted * r`. */
  lemma {:induction false} LagStep(exact: real, posted: real, interest: real, r: real, power: real)
    requires 0.0 < r && posted <= exact && (exact - posted) * r <= power - 1.0
    requires posted * r - 1.0 < interest <= posted * r
    ensures posted + interest <= exact + exact * r
    ensures (exact + exact * r - (posted + interest)) * r <= power + power * r - 1.0
  {
    var lag := exact - posted;
    var grown := lag * r;
    var short := posted * r - interest;
    assert grown == exact * r - posted * r;
    Scaled(0.0, lag, r);
    Scaled(grown, power - 1.0, r);
    Scaled(short, 1.0, r);
    assert (power - 1.0) * r == power * r - r;
    assert exact + exact * r - (posted + interest) == lag + grown + short;
    assert (lag + grown + short) * r == lag * r + grown * r + short * r;
  }

  /** One day's exact growth. */
  function Grown(x: real, r: real): real {
    x + x * r
  }

  /** The exact balance after n days, a day at a time. */
  function Exact(balance: nat, rateBps: nat, n: nat): real {
    if n == 0 then balance as real else Grown(Exact(balance, rateBps, n - 1), Rate(rateBps))
  }

  /** (1 + r)^n, a day at a time. */
  function Growth(rateBps: nat, n: nat): real {
    if n == 0 then 1.0 else Grown(Growth(rateBps, n - 1), Rate(rateBps))
  }

  lemma {:induction false} GrowthIsPower(rateBps: nat, n: nat)
    ensures Growth(rateBps, n) == Power(1.0 + Rate(rateBps), n)
  {
    if n != 0 {
      GrowthIsPower(rateBps, n - 1);
      Distribute(Growth(rateBps, n - 1), Rate(rateBps));
    }
  }

  lemma {:induction false} Distribute(x: real, r: real)
    ensures x * (1.0 + r) == x + x * r
  {
  }

  lemma {:induction false} ExactIsPower(balance: nat, rateBps: nat, n: nat)
    ensures Exact(balance, rateBps, n) == balance as real * Power(1.0 + Rate(rateBps), n)
  {
    GrowthIsPower(rateBps, n);
    if n != 0 {
      ExactIsPower(balance, rateBps, n - 1);
      GrowthIsPower(rateBps, n - 1);
      Regroup(balance as real, Growth(rateBps, n - 1), Rate(rateBps));
    }
  }

  lemma {:induction false} Regroup(x: real, y: real, r: real)
    ensures x * y + (x * y) * r == x * (y + y * r)
  {
  }

  /** `posted` is at or below `exact`, by a lag of at most (power - 1) / r. */
  ghost predicate Lags(exact: real, posted: nat, r: real, power: real) {
    posted as real <= exact && (exact - posted as real) * r <= power - 1.0
  }

  lemma {:induction false} LagAfterDay(exact: real, posted: nat, rateBps: nat, power: real)
    requires 0 < rateBps && Lags(exact, posted, Rate(rateBps), power)
    ensures 0 <= DailyInterest(posted, rateBps)
    ensures Lags(Grown(exact, Rate(rateBps)), posted + DailyInterest(posted, rateBps), Rate(rateBps), Grown(power, Rate(rateBps)))
  {
    DailyInterestIsFloor(posted, rateBps);
    DayLag(posted, rateBps);
    LagStep(exact, posted as real, DailyInterest(posted, rateBps) as real, Rate(rateBps), power);
  }

  lemma {:induction false} NoLagYet(balance: nat, r: real)
    ensures Lags(balance as real, balance, r, 1.0)
  {
  }

  lemma {:induction false} CompoundedLags(balance: nat, rateBps: nat, n: nat)
    requires 0 < rateBps
    ensures Lags(Exact(balance, rateBps, n), Compounded(balance, rateBps, n), Rate(rateBps), Growth(rateBps, n))
  {
    hide Lags;
    hide DailyInterest;
    hide Rate;
    hide Grown;
    if n == 0 {
      NoLagYet(balance, Rate(rateBps));
    } else {
      CompoundedLags(balance, rateBps, n - 1);
      LagAfterDay(Exact(balance, rateBps, n - 1), Compounded(balance, rateBps, n - 1), rateBps, Growth(rateBps, n - 1));
    }
  }

  lemma {:induction false} LagBound(exact: real, posted: nat, r: real, power: real)
    requires Lags(exact, posted, r, power) && 0.0 < r
    ensures posted as real <= exact && exact - posted as real <= (power - 1.0) / r
  {
    Undivided(exact - posted as real, power - 1.0, r);
  }

  /**
   * Posted compounding never pays more than exact compounding, and after n
   * days lags it by at most ((1 + r)^n - 1) / r kobo.
   */
  lemma {:induction false} CompoundingLag(balance: nat, rateBps: nat, n: nat)
    requires 0 < rateBps
    ensures var r, power := Rate(rateBps), Power(1.0 + Rate(rateBps), n);
            var exact, posted := balance as real * power, Compounded(balance, rateBps, n) as real;
            && posted <= exact
            && exact - posted <= (power - 1.0) / r
  {
    assert 0.0 < Rate(rateBps);
    hide Rate;
    hide Power;
    hide Exact;
    hide Growth;
    hide Compounded;
    hide Lags;
    CompoundedLags(balance, rateBps, n);
    ExactIsPower(balance, rateBps, n);
    GrowthIsPower(rateBps, n);
    LagBound(Exact(balance, rateBps, n), Compounded(balance, rateBps, n), Rate(rateBps), Growth(rateBps, n));
  }

  // ---- Posting a day's interest ----

  /** Savings interest is owed to the customer, loan interest by the customer. */
  datatype Kind = SavingsInterest | LoanInterest

  function Decimal(n: nat): (s: string)
    ensures 0 < |s|
  {
    if n < 10 then [DIGITS[n]] else Decimal(n / 10) + [DIGITS[n % 10]]
  }

  const DIGITS := "0123456789"

  function InterestKey(kind: Kind, account: nat, day: string): string {
    (if kind.SavingsInterest? then "interest:" else "loan-interest:") + Decimal(account) + ":" + day
  }

  lemma {:induction false} InterestKeyPerDay(kind: Kind, account: nat, day: string, other: string)
    requires day != other
    ensures InterestKey(kind, account, day) != InterestKey(kind, account, other)
  {
    var prefix := (if kind.SavingsInterest? then "interest:" else "loan-interest:") + Decimal(account) + ":";
    assert (prefix + day)[|prefix|..] == day && (prefix + other)[|prefix|..] == other;
  }

  /** `counter` is the tenant's interest expense or interest income account. */
  function InterestMove(kind: Kind, account: nat, counter: nat, amount: int, day: string): PostInput {
    var key := InterestKey(kind, account, day);
    match kind
    case SavingsInterest =>
      Move("interest_accrual", counter, account, amount, Slip(key, key, "Daily interest accrual (" + day + ")"))
    case LoanInterest =>
      Move("loan_interest_accrual", account, counter, amount, Slip(key, key, "Daily loan interest accrual (" + day + ")"))
  }

  function RateOf(terms: Terms): int {
    match terms
    case Savings(rate, _) => rate
    case Loan(_, rate, _, _, _) => rate
    case NoTerms => 0
  }

  /** One account's interest for one day. The rate is the one listed when the pass began. */
  function AccrueDay(b: Books, kind: Kind, account: nat, counter: nat, rateBps: int, day: string): (after: Books)
    requires account < |b.accounts|
    ensures after.accounts == b.accounts
  {
    var balance := Balance(b, account);
    if balance <= 0 then b
    else
      var interest := DailyInterest(balance, rateBps);
      if interest <= 0 then b
      else Post(b, InterestMove(kind, account, counter, interest, day)).0
  }

  method PostInterest(store: LedgerStore, kind: Kind, account: nat, counter: nat, rateBps: int, day: string)
    requires account < |store.accounts|
    modifies store
    ensures store.View() == AccrueDay(old(store.View()), kind, account, counter, rateBps, day)
  {
    var balance := Balance(store.View(), account);
    if balance <= 0 {
      return;
    }
    var interest := Quotient(Quotient(balance * rateBps, 10_000), 365);
    if interest <= 0 {
      return;
    }
    var reply := store.PostJournalEntry(InterestMove(kind, account, counter, interest, day));
  }

  // ---- Many passes, reruns included ----

  /** Interest can be posted to `account`: both accounts are active and on the sides the chart seeds. */
  ghost predicate Accruing(b: Books, kind: Kind, account: nat, counter: nat) {
    && account < |b.accounts| && counter < |b.accounts| && account != counter
    && b.accounts[account].status == Active && b.accounts[counter].status == Active
    && b.accounts[counter].allowNegative
    && b.accounts[account].normal == if kind.SavingsInterest? then Credit else Debit
  }

  function AccrueDays(b: Books, kind: Kind, account: nat, counter: nat, rateBps: int, days: seq<string>): (after: Books)
    requires account < |b.accounts|
    ensures after.accounts == b.accounts
  {
    if days == [] then b
    else
      var before := AccrueDays(b, kind, account, counter, rateBps, days[..|days| - 1]);
      AccrueDay(before, kind, account, counter, rateBps, days[|days| - 1])
  }

  /** How many different days a list of passes covers. */
  function DistinctDays(days: seq<string>): nat {
    if days == [] then 0
    else
      var init := days[..|days| - 1];
      DistinctDays(init) + if days[|days| - 1] in init then 0 else 1
  }

  lemma {:induction false} InterestUnrefused(b: Books, kind: Kind, account: nat, counter: nat, interest: int)
    requires Accruing(b, kind, account, counter)
    ensures var debit, credit := if kind.SavingsInterest? then counter else account, if kind.SavingsInterest? then account else counter;
            && LineGuard(b, LineInput(debit, Debit, interest)).None?
            && LineGuard(b, LineInput(credit, Credit, interest)).None?
  {
    hide Balance;
  }

  lemma {:induction false} InterestPosts(b: Books, kind: Kind, account: nat, counter: nat, rateBps: nat, day: string)
    requires Accruing(b, kind, account, counter) && 0 <= Balance(b, account)
    requires Unused(b.journal, InterestKey(kind, account, day))
    ensures var after := AccrueDay(b, kind, account, counter, rateBps, day);
            && Balance(after, account) == Balance(b, account) + DailyInterest(Balance(b, account), rateBps)
            && (DailyInterest(Balance(b, account), rateBps) > 0 ==>
                  && |after.journal| == |b.journal| + 1
                  && after.journal[..|b.journal|] == b.journal
                  && after.journal[|b.journal|].key == InterestKey(kind, account, day)
                  && after.journal[|b.journal|].reference == InterestKey(kind, account, day))
  {
    hide Post;
    hide LineGuard;
    hide DailyInterest;
    hide Balance;
    hide Decimal;
    var balance := Balance(b, account);
    DailyInterestIsFloor(balance, rateBps);
    var interest := DailyInterest(balance, rateBps);
    if interest > 0 {
      var input := InterestMove(kind, account, counter, interest, day);
      var debit, credit := input.lines[0].account, input.lines[1].account;
      var slip := Slip(input.reference, input.key, input.description);
      InterestUnrefused(b, kind, account, counter, interest);
      MoveAccepted(b, input.entryType, debit, credit, interest, slip);
      MoveMovesMoney(b, input.entryType, debit, credit, interest, slip, account);
    }
  }

  /** Running a day again changes nothing once its entry exists. */
  lemma {:induction false} RerunIsNoOp(b: Books, kind: Kind, account: nat, counter: nat, rateBps: int, day: string)
    requires account < |b.accounts| && FindKey(b.journal, InterestKey(kind, account, day)).Some?
    ensures AccrueDay(b, kind, account, counter, rateBps, day) == b
  {
  }

  /** Days in `days` have been accrued; the keys of all other days are untouched. */
  ghost predicate Tracks(b: Books, kind: Kind, account: nat, rateBps: nat, days: seq<string>) {
    && account < |b.accounts|
    && (forall day :: day !in days ==> Unused(b.journal, InterestKey(kind, account, day)))
    && (forall day :: day in days ==>
          FindKey(b.journal, InterestKey(kind, account, day)).Some?
          || DailyInterest(Balance(b, account), rateBps) == 0)
  }

  /** Interest for one day leaves the keys of every other day as they were. */
  lemma {:induction false} OtherDays(before: Books, after: Books, kind: Kind, account: nat, day: string, other: string)
    requires other != day
    requires after.journal == before.journal
             || (&& |after.journal| == |before.journal| + 1
                 && after.journal[..|before.journal|] == before.journal
                 && after.journal[|before.journal|].key == InterestKey(kind, account, day)
                 && after.journal[|before.journal|].reference == InterestKey(kind, account, day))
    ensures Unused(before.journal, InterestKey(kind, account, other)) ==>
              Unused(after.journal, InterestKey(kind, account, other))
    ensures FindKey(before.journal, InterestKey(kind, account, other)).Some? ==>
              FindKey(after.journal, InterestKey(kind, account, other)).Some?
  {
    InterestKeyPerDay(kind, account, day, other);
  }

  lemma {:induction false} NewDay(b: Books, kind: Kind, account: nat, counter: nat, rateBps: nat, days: seq<string>, day: string)
    requires Accruing(b, kind, account, counter) && 0 <= Balance(b, account)
    requires Tracks(b, kind, account, rateBps, days) && day !in days
    ensures var after := AccrueDay(b, kind, account, counter, rateBps, day);
            && Tracks(after, kind, account, rateBps, days + [day])
            && Balance(after, account) == Balance(b, account) + DailyInterest(Balance(b, account), rateBps)
  {
    InterestPosts(b, kind, account, counter, rateBps, day);
    DailyInterestIsFloor(Balance(b, account), rateBps);
    var after := AccrueDay(b, kind, account, counter, rateBps, day);
    forall other | other !in days + [day]
      ensures Unused(after.journal, InterestKey(kind, account, other))
    {
      OtherDays(b, after, kind, account, day, other);
    }
    forall other | other in days + [day]
      ensures FindKey(after.journal, InterestKey(kind, account, other)).Some?
              || DailyInterest(Balance(after, account), rateBps) == 0
    {
      if other != day {
        OtherDays(b, after, kind, account, day, other);
      }
    }
  }

  lemma {:induction false} OldDay(b: Books, kind: Kind, account: nat, counter: nat, rateBps: nat, days: seq<string>, day: string)
    requires Tracks(b, kind, account, rateBps, days) && day in days
    ensures AccrueDay(b, kind, account, counter, rateBps, day) == b
    ensures Tracks(b, kind, account, rateBps, days + [day])
  {
    if FindKey(b.journal, InterestKey(kind, account, day)).Some? {
      RerunIsNoOp(b, kind, account, counter, rateBps, day);
    }
    assert forall other :: other in days + [day] <==> other in days;
  }

  lemma {:induction false} AnyDay(b: Books, kind: Kind, account: nat, counter: nat, rateBps: nat, days: seq<string>, day: string, start: nat, n: nat)
    requires Accruing(b, kind, account, counter) && Balance(b, account) == Compounded(start, rateBps, n)
    requires Tracks(b, kind, account, rateBps, days)
    ensures var after := AccrueDay(b, kind, account, counter, rateBps, day);
            && Tracks(after, kind, account, rateBps, days + [day])
            && Balance(after, account) == Compounded(start, rateBps, if day in days then n else n + 1)
  {
    if day in days {
      OldDay(b, kind, account, counter, rateBps, days, day);
    } else {
      NewDay(b, kind, account, counter, rateBps, days, day);
    }
  }

  /**
   * However often each day's pass is rerun, and in whatever order the passes
   * come, the account ends at the compounded balance for the number of
   * different days.
   */
  lemma {:induction false} AccruedIsCompounded(b: Books, kind: Kind, account: nat, counter: nat, rateBps: nat, days: seq<string>)
    requires Accruing(b, kind, account, counter) && 0 <= Balance(b, account)
    requires Tracks(b, kind, account, rateBps, [])
    ensures var after := AccrueDays(b, kind, account, counter, rateBps, days);
            && Tracks(after, kind, account, rateBps, days)
            && Balance(after, account) == Compounded(Balance(b, account), rateBps, DistinctDays(days))
  {
    hide AccrueDay;
    hide Tracks;
    hide Balance;
    hide DailyInterest;
    if days != [] {
      var init, day := days[..|days| - 1], days[|days| - 1];
      assert init + [day] == days;
      AccruedIsCompounded(b, kind, account, counter, rateBps, init);
      var before := AccrueDays(b, kind, account, counter, rateBps, init);
      assert Accruing(before, kind, account, counter);
      AnyDay(before, kind, account, counter, rateBps, init, day, Balance(b, account), DistinctDays(init));
    }
  }
}
