/**
 * Completing a checkout session (services/checkout/src/services/
 * checkoutWebhookService.js and checkoutSessionService.js). Webhooks, redirect
 * verifications, cancellations and lazy expiries race on one session row; each
 * database or ledger call is a step of its own, so what a caller read may be
 * stale by the time it writes.
 */
module Checkout {
  import opened Sums
  import opened Network
  import D = Domain
  import L = Ledger
  import R = LedgerRuns
  import W = Wallet
  import Service = WalletService
  import O = Overdraft

  datatype SessionStatus = Pending | Processing | Paid | Expired | Cancelled

  /** The columns that never change, with the accounts the merchant and the float resolve to. */
  datatype Session = Session(
    id: string,
    reference: string,
    merchant: string,
    amountKobo: int,
    expiresAt: int,
    account: nat,
    float: nat)

  /** Where a caller stands between two of its calls. */
  datatype Caller = Gone | Claimed | Credited | Failing | Cancelling | Expiring

  /** The session's row and delivery rows, the ledger, and everyone part-way through. */
  datatype State = State(status: SessionStatus, deliveries: seq<string>, books: L.Books, callers: seq<Caller>)

  datatype Event =
    | BeginCompletion
    | CallLedger(caller: nat, transport: Transport)
    | Settle(caller: nat, commit: Transport)
    | Revert(caller: nat)
    | BeginCancel
    | WriteCancel(caller: nat)
    | BeginExpire(now: int)
    | WriteExpire(caller: nat)
    | Crash(caller: nat)
    | Elsewhere(request: L.Request)

  const COMPLETED := "checkout.session.completed"

  function KeyOf(s: Session): string {
    "checkout:" + s.id
  }

  function Deposit(s: Session): W.Operation {
    W.ConfirmDeposit(s.merchant, s.amountKobo, W.Slip(s.reference, KeyOf(s), "Checkout payment " + s.reference))
  }

  function Goes(st: State, i: nat, next: Caller): State
    requires i < |st.callers|
  {
    st.(callers := st.callers[i := next])
  }

  function Joins(st: State, caller: Caller): State {
    st.(callers := st.callers + [caller])
  }

  /** Inserts the delivery row unless one of its type is already there. */
  function Upsert(deliveries: seq<string>): seq<string> {
    if COMPLETED in deliveries then deliveries else deliveries + [COMPLETED]
  }

  /** An event that does not apply changes nothing. */
  function Happen(s: Session, st: State, e: Event): State {
    match e
    case BeginCompletion =>
      if st.status == Pending then Joins(st.(status := Processing), Claimed) else st
    case CallLedger(i, transport) =>
      if |st.callers| <= i || st.callers[i] != Claimed then st
      else if transport == NotSent then Goes(st, i, Failing)
      else
        var (after, outcome) := W.Apply(st.books, Deposit(s));
        Goes(st.(books := after), i, if transport == Answered && outcome.Done? then Credited else Failing)
    case Settle(i, commit) =>
      if |st.callers| <= i || st.callers[i] != Credited then st
      else if commit == NotSent then Goes(st, i, Failing)
      else Goes(st.(status := Paid, deliveries := Upsert(st.deliveries)), i, if commit == Answered then Gone else Failing)
    case Revert(i) =>
      if |st.callers| <= i || st.callers[i] != Failing then st
      else Goes(if st.status == Processing then st.(status := Pending) else st, i, Gone)
    case BeginCancel =>
      if st.status == Pending || st.status == Processing then Joins(st, Cancelling) else st
    case WriteCancel(i) =>
      if |st.callers| <= i || st.callers[i] != Cancelling then st else Goes(st.(status := Cancelled), i, Gone)
    case BeginExpire(now) =>
      if st.status == Pending && s.expiresAt < now then Joins(st, Expiring) else st
    case WriteExpire(i) =>
      if |st.callers| <= i || st.callers[i] != Expiring then st else Goes(st.(status := Expired), i, Gone)
    case Crash(i) =>
      if |st.callers| <= i then st else Goes(st, i, Gone)
    case Elsewhere(request) =>
      st.(books := L.Step(st.books, request).0)
  }

  function HappenAll(s: Session, st: State, events: seq<Event>): State {
    if events == [] then st else Happen(s, HappenAll(s, st, events[..|events| - 1]), events[|events| - 1])
  }

  // ---- At most one completion in flight ----

  predicate InFlight(c: Caller) {
    c == Claimed || c == Credited || c == Failing
  }

  const FLYING: Caller -> int := (c: Caller) => if InFlight(c) then 1 else 0

  /** While the session is pending no completion is in flight, and never more than one is. */
  ghost predicate Exclusive(st: State) {
    Sum(st.callers, FLYING) <= if st.status == Pending then 0 else 1
  }

  /** Moving one caller on keeps exclusion, unless a flight starts or the session turns pending under one. */
  lemma {:induction false} MoveOnKept(st: State, after: State, i: nat, next: Caller)
    requires Exclusive(st) && i < |st.callers| && after.callers == st.callers[i := next]
    requires InFlight(next) ==> InFlight(st.callers[i])
    requires after.status == Pending && st.status != Pending ==> InFlight(st.callers[i]) && !InFlight(next)
    ensures Exclusive(after)
  {
    SumUpdate(st.callers, i, next, FLYING);
  }

  lemma {:induction false} JoinKept(s: Session, st: State, e: Event)
    requires Exclusive(st) && (e.BeginCompletion? || e.BeginCancel? || e.BeginExpire?)
    ensures Exclusive(Happen(s, st, e))
  {
    SumAppend(st.callers, Claimed, FLYING);
    SumAppend(st.callers, Cancelling, FLYING);
    SumAppend(st.callers, Expiring, FLYING);
  }

  lemma {:induction false} CallKept(s: Session, st: State, i: nat, transport: Transport)
    requires Exclusive(st)
    ensures Exclusive(Happen(s, st, CallLedger(i, transport)))
  {
    var after := Happen(s, st, CallLedger(i, transport));
    if after != st {
      MoveOnKept(st, after, i, after.callers[i]);
    }
  }

  lemma {:induction false} WriteKept(s: Session, st: State, e: Event)
    requires Exclusive(st) && (e.Settle? || e.Revert? || e.WriteCancel? || e.WriteExpire? || e.Crash?)
    ensures Exclusive(Happen(s, st, e))
  {
    var after := Happen(s, st, e);
    if e.caller < |st.callers| && after != st {
      MoveOnKept(st, after, e.caller, after.callers[e.caller]);
    }
  }

  lemma {:induction false} ExclusiveKept(s: Session, st: State, e: Event)
    requires Exclusive(st)
    ensures Exclusive(Happen(s, st, e))
  {
    match e
    case CallLedger(i, transport) => CallKept(s, st, i, transport);
    case Elsewhere(_) =>
    case BeginCompletion => JoinKept(s, st, e);
    case BeginCancel => JoinKept(s, st, e);
    case BeginExpire(_) => JoinKept(s, st, e);
    case Settle(_, _) => WriteKept(s, st, e);
    case Revert(_) => WriteKept(s, st, e);
    case WriteCancel(_) => WriteKept(s, st, e);
    case WriteExpire(_) => WriteKept(s, st, e);
    case Crash(_) => WriteKept(s, st, e);
  }

  // ---- The merchant is credited once, exactly ----

  /** What the entries under the session's key put on the merchant's account. */
  function Crediting(s: Session): D.Entry -> int {
    (e: D.Entry) => if e.key == KeyOf(s) then L.Net(e.lines, s.account, D.Credit) else 0
  }

  function Credit(s: Session, books: L.Books): int {
    Sum(books.journal, Crediting(s))
  }

  predicate HasEntry(s: Session, books: L.Books) {
    L.FindKey(books.journal, KeyOf(s)).Some?
  }

  /** The merchant's wallet and the float account resolve to the session's accounts. */
  ghost predicate Resolved(s: Session, books: L.Books) {
    && W.ByCustomer(books.accounts, s.merchant, W.WALLET) == D.Some(s.account)
    && W.ByNumber(books.accounts, W.FLOAT) == D.Some(s.float)
    && s.account != s.float
  }

  /** The session's own entry is the only thing the ledger holds for it, and it is exact. */
  ghost predicate CreditExact(s: Session, books: L.Books) {
    && Resolved(s, books)
    && Credit(s, books) == if HasEntry(s, books) then s.amountKobo else 0
  }

  /** The deposit writes nothing or one entry, under the session's key and for exactly its amount. */
  lemma {:induction false} DepositShape(s: Session, books: L.Books)
    requires Resolved(s, books)
    ensures var (after, outcome) := W.Apply(books, Deposit(s));
            && after.accounts == books.accounts
            && (after == books ==> outcome.Done? ==> HasEntry(s, books))
            && (after != books ==>
                  && !HasEntry(s, books)
                  && |after.journal| == |books.journal| + 1
                  && after.journal[..|books.journal|] == books.journal
                  && after.journal[|books.journal|].key == KeyOf(s)
                  && L.Net(after.journal[|books.journal|].lines, s.account, D.Credit) == s.amountKobo)
  {
    var after := W.Apply(books, Deposit(s)).0;
    var slip := W.Slip(s.reference, KeyOf(s), "Checkout payment " + s.reference);
    W.MoveWellFormed("deposit", s.float, s.account, s.amountKobo, slip);
    if after != books {
      DepositNet(s, slip);
    }
  }

  lemma {:induction false} DepositNet(s: Session, slip: W.Slip)
    requires s.account != s.float && 0 < s.amountKobo
    ensures var input := W.Move("deposit", s.float, s.account, s.amountKobo, slip);
            && L.LinesError(input.lines).None?
            && L.Net(L.NewEntry(input, D.None).lines, s.account, D.Credit) == s.amountKobo
  {
    var input := W.Move("deposit", s.float, s.account, s.amountKobo, slip);
    W.MoveWellFormed("deposit", s.float, s.account, s.amountKobo, slip);
    W.MoveSums("deposit", s.float, s.account, s.amountKobo, slip, s.account, D.Credit);
    W.MoveSums("deposit", s.float, s.account, s.amountKobo, slip, s.account, D.Debit);
    O.StoredNet(input, s.account, D.Credit);
    O.StoredNet(input, s.account, D.Debit);
  }

  lemma {:induction false} DepositExact(s: Session, books: L.Books)
    requires CreditExact(s, books)
    ensures var (after, outcome) := W.Apply(books, Deposit(s));
            && CreditExact(s, after)
            && (HasEntry(s, books) ==> after == books)
            && (outcome.Done? ==> HasEntry(s, after))
  {
    hide W.Apply;
    hide L.Net;
    var after := W.Apply(books, Deposit(s)).0;
    DepositShape(s, books);
    if after != books {
      SumAppend(books.journal, after.journal[|books.journal|], Crediting(s));
      assert after.journal == books.journal + [after.journal[|books.journal|]];
    }
  }

  /** Other ledger traffic never writes under the session's key. */
  lemma {:induction false} TrafficExact(s: Session, books: L.Books, request: L.Request)
    requires CreditExact(s, books) && R.KeyOf(request) != D.Some(KeyOf(s))
    ensures CreditExact(s, L.Step(books, request).0)
    ensures HasEntry(s, L.Step(books, request).0) == HasEntry(s, books)
  {
    hide L.Step;
    hide L.Net;
    R.StepShape(books, request);
    W.ResolutionStable(books, request, s.merchant, W.WALLET, W.FLOAT);
    var after := L.Step(books, request).0;
    if after.journal != books.journal {
      SumAppend(books.journal, after.journal[|books.journal|], Crediting(s));
      assert after.journal[..|books.journal|] == books.journal;
    }
  }

  // ---- The whole-run invariant ----

  ghost predicate Evidence(s: Session, st: State) {
    && CreditExact(s, st.books)
    && (st.deliveries == [] || st.deliveries == [COMPLETED])
    && (st.status == Paid ==> st.deliveries == [COMPLETED])
    && (st.deliveries != [] ==> HasEntry(s, st.books))
    && (forall i :: 0 <= i < |st.callers| && st.callers[i] == Credited ==> HasEntry(s, st.books))
  }

  lemma {:induction false} EvidenceKept(s: Session, st: State, e: Event)
    requires Evidence(s, st)
    requires e.Elsewhere? ==> R.KeyOf(e.request) != D.Some(KeyOf(s))
    ensures Evidence(s, Happen(s, st, e))
  {
    hide CreditExact;
    hide HasEntry;
    hide W.Apply;
    hide L.Step;
    match e
    case CallLedger(i, transport) => DepositExact(s, st.books);
    case Elsewhere(request) => TrafficExact(s, st.books, request);
    case _ =>
  }

  /** A session just created, on any ledger with no entry under its key. */
  ghost predicate Fresh(s: Session, st: State) {
    && st.status == Pending && st.deliveries == [] && st.callers == []
    && Resolved(s, st.books)
    && forall i :: 0 <= i < |st.books.journal| ==> st.books.journal[i].key != KeyOf(s)
  }

  lemma {:induction false} NothingCredited(s: Session, journal: seq<D.Entry>)
    requires forall i :: 0 <= i < |journal| ==> journal[i].key != KeyOf(s)
    ensures Sum(journal, Crediting(s)) == 0
  {
    if journal != [] {
      NothingCredited(s, journal[..|journal| - 1]);
    }
  }

  lemma {:induction false} RunKept(s: Session, st: State, events: seq<Event>)
    requires Fresh(s, st)
    requires forall i :: 0 <= i < |events| && events[i].Elsewhere? ==> R.KeyOf(events[i].request) != D.Some(KeyOf(s))
    ensures Exclusive(HappenAll(s, st, events)) && Evidence(s, HappenAll(s, st, events))
  {
    if events == [] {
      NothingCredited(s, st.books.journal);
    } else {
      var init := events[..|events| - 1];
      RunKept(s, st, init);
      ExclusiveKept(s, HappenAll(s, st, init), events[|events| - 1]);
      EvidenceKept(s, HappenAll(s, st, init), events[|events| - 1]);
    }
  }

  /**
   * In every interleaving of completions, cancellations and expiries, with
   * stale reads, lost ledger answers, failed transactions and crashes: a
   * pending session has no completion in flight; no two completions ever are;
   * the merchant has been credited nothing or exactly the session's amount; a
   * paid session has its ledger entry and exactly one delivery row.
   */
  lemma {:induction false} CompletionSafe(s: Session, st: State, events: seq<Event>)
    requires Fresh(s, st)
    requires forall i :: 0 <= i < |events| && events[i].Elsewhere? ==> R.KeyOf(events[i].request) != D.Some(KeyOf(s))
    ensures var after := HappenAll(s, st, events);
            && (after.status == Pending ==> forall i :: 0 <= i < |after.callers| ==> !InFlight(after.callers[i]))
            && (forall i, k :: 0 <= i < k < |after.callers| && InFlight(after.callers[i]) ==> !InFlight(after.callers[k]))
            && (Credit(s, after.books) == 0 || Credit(s, after.books) == s.amountKobo)
            && (after.status == Paid ==>
                  HasEntry(s, after.books) && Credit(s, after.books) == s.amountKobo && after.deliveries == [COMPLETED])
            && |after.deliveries| <= 1
  {
    RunKept(s, st, events);
    var after := HappenAll(s, st, events);
    forall i | 0 <= i < |after.callers| && InFlight(after.callers[i])
      ensures 1 <= Sum(after.callers, FLYING)
      ensures forall k :: 0 <= k < |after.callers| && k != i && InFlight(after.callers[k]) ==> 2 <= Sum(after.callers, FLYING)
    {
      FlyingCounts(after.callers, i);
    }
  }

  lemma {:induction false} FlyingCounts(callers: seq<Caller>, i: nat)
    requires i < |callers| && InFlight(callers[i])
    ensures 1 <= Sum(callers, FLYING)
    ensures forall k :: 0 <= k < |callers| && k != i && InFlight(callers[k]) ==> 2 <= Sum(callers, FLYING)
  {
    SumRemove(callers, i, FLYING);
    var rest := callers[..i] + callers[i + 1..];
    SumNonNegative(rest, FLYING);
    forall k | 0 <= k < |callers| && k != i && InFlight(callers[k])
      ensures 2 <= Sum(callers, FLYING)
    {
      var at := if k < i then k else k - 1;
      assert rest[at] == callers[k];
      SumRemove(rest, at, FLYING);
      SumNonNegative(rest[..at] + rest[at + 1..], FLYING);
    }
  }

  // ---- When paid is final ----

  /** Nobody is about to write a status decided on an earlier reading. */
  predicate NoStaleWriter(st: State) {
    forall i :: 0 <= i < |st.callers| ==> st.callers[i] != Cancelling && st.callers[i] != Expiring
  }

  lemma {:induction false} PaidStays(s: Session, st: State, events: seq<Event>)
    requires st.status == Paid && NoStaleWriter(st)
    ensures HappenAll(s, st, events).status == Paid && NoStaleWriter(HappenAll(s, st, events))
  {
    if events != [] {
      PaidStays(s, st, events[..|events| - 1]);
    }
  }

  /** From a paid session: paid is final in every continuation if and only if no stale writer is in flight. */
  lemma {:induction false} PaidFinalExactly(s: Session, st: State)
    requires st.status == Paid
    ensures NoStaleWriter(st) <==> forall events :: HappenAll(s, st, events).status == Paid
  {
    if NoStaleWriter(st) {
      forall events ensures HappenAll(s, st, events).status == Paid {
        PaidStays(s, st, events);
      }
    } else {
      var i :| 0 <= i < |st.callers| && (st.callers[i] == Cancelling || st.callers[i] == Expiring);
      var e := if st.callers[i] == Cancelling then WriteCancel(i) else WriteExpire(i);
      LastEvent(s, st, [], e);
      assert [] + [e] == [e];
      assert HappenAll(s, st, [e]).status != Paid;
    }
  }

  lemma {:induction false} LastEvent(s: Session, st: State, events: seq<Event>, e: Event)
    ensures HappenAll(s, st, events + [e]) == Happen(s, HappenAll(s, st, events), e)
  {
    assert (events + [e])[..|events|] == events;
  }

  lemma {:induction false} TwoEvents(s: Session, st: State, a: Event, b: Event)
    ensures HappenAll(s, st, [a, b]) == Happen(s, Happen(s, st, a), b)
  {
    LastEvent(s, st, [], a);
    LastEvent(s, st, [a], b);
    assert [] + [a] == [a] && [a] + [b] == [a, b];
  }

  lemma {:induction false} FourEvents(s: Session, st: State, a: Event, b: Event, c: Event, d: Event)
    ensures HappenAll(s, st, [a, b, c, d]) == Happen(s, Happen(s, Happen(s, Happen(s, st, a), b), c), d)
  {
    TwoEvents(s, st, a, b);
    LastEvent(s, st, [a, b], c);
    LastEvent(s, st, [a, b, c], d);
    assert [a, b] + [c] == [a, b, c] && [a, b, c] + [d] == [a, b, c, d];
  }

  lemma {:induction false} Overtaken(s: Session, st: State)
    requires st.status == Pending && st.callers == []
    ensures Happen(s, Happen(s, st, BeginCompletion), BeginCancel)
            == State(Processing, st.deliveries, st.books, [Claimed, Cancelling])
  {
  }

  lemma {:induction false} AnsweredCall(s: Session, st: State)
    requires st.callers == [Claimed, Cancelling] && W.Apply(st.books, Deposit(s)).1.Done?
    ensures Happen(s, st, CallLedger(0, Answered))
            == State(st.status, st.deliveries, W.Apply(st.books, Deposit(s)).0, [Credited, Cancelling])
  {
  }

  lemma {:induction false} CommittedSettle(s: Session, st: State)
    requires st.callers == [Credited, Cancelling] && st.deliveries == []
    ensures Happen(s, st, Settle(0, Answered)) == State(Paid, [COMPLETED], st.books, [Gone, Cancelling])
  {
  }

  /** One completion, overtaken by a cancel that read the session while it was processing. */
  lemma {:induction false} PaidBehindCancel(s: Session, st: State)
    requires Fresh(s, st) && W.Apply(st.books, Deposit(s)).1.Done?
    ensures HappenAll(s, st, [BeginCompletion, BeginCancel, CallLedger(0, Answered), Settle(0, Answered)])
            == State(Paid, [COMPLETED], W.Apply(st.books, Deposit(s)).0, [Gone, Cancelling])
  {
    FourEvents(s, st, BeginCompletion, BeginCancel, CallLedger(0, Answered), Settle(0, Answered));
    Overtaken(s, st);
    AnsweredCall(s, State(Processing, [], st.books, [Claimed, Cancelling]));
    CommittedSettle(s, State(Processing, [], W.Apply(st.books, Deposit(s)).0, [Credited, Cancelling]));
  }

  /**
   * A stale cancel does overwrite paid: whenever the ledger would accept the
   * deposit, this interleaving is paid and then ends cancelled, credited in full
   * and with the merchant's delivery queued.
   */
  lemma {:induction false} StaleCancelOverwritesPaid(s: Session, st: State)
    requires Fresh(s, st) && W.Apply(st.books, Deposit(s)).1.Done?
    ensures var events := [BeginCompletion, BeginCancel, CallLedger(0, Answered), Settle(0, Answered)];
            var after := HappenAll(s, st, events + [WriteCancel(1)]);
            && HappenAll(s, st, events).status == Paid
            && after.status == Cancelled
            && after.deliveries == [COMPLETED]
            && Credit(s, after.books) == s.amountKobo
  {
    PaidBehindCancel(s, st);
    NothingCredited(s, st.books.journal);
    DepositExact(s, st.books);
    LastEvent(s, st, [BeginCompletion, BeginCancel, CallLedger(0, Answered), Settle(0, Answered)], WriteCancel(1));
  }

  // ---- The handlers, run through without interleaving ----

  class CheckoutDesk {
    const session: Session
    const ledger: L.LedgerStore
    var status: SessionStatus
    var deliveries: seq<string>

    constructor (session: Session, ledger: L.LedgerStore)
      ensures this.session == session && this.ledger == ledger && status == Pending && deliveries == []
    {
      this.session, this.ledger, status, deliveries := session, ledger, Pending, [];
    }

    function View(): State
      reads this, ledger
    {
      State(status, deliveries, ledger.View(), [])
    }

    /** The state a handler leaves once it has finished. */
    static function Done(st: State): State {
      st.(callers := [])
    }

    /** Completes the session, or puts it back to pending when the ledger or the transaction fails. */
    method CompleteSession(transport: Transport, commit: Transport) returns (handled: bool)
      modifies this, ledger
      ensures View() == Done(HappenAll(session, old(View()), [BeginCompletion, CallLedger(0, transport), Settle(0, commit), Revert(0)]))
      ensures handled <==> old(status) != Pending || (status == Paid && commit == Answered)
    {
      ghost var before := View();
      ghost var events := [BeginCompletion, CallLedger(0, transport), Settle(0, commit), Revert(0)];
      FourEvents(session, before, BeginCompletion, CallLedger(0, transport), Settle(0, commit), Revert(0));
      if status != Pending {
        return true;
      }
      status := Processing;
      var credited := false;
      if transport != NotSent {
        var outcome := ConfirmDeposit();
        credited := transport == Answered && outcome.Done?;
      }
      if credited && commit != NotSent {
        status := Paid;
        if COMPLETED !in deliveries {
          deliveries := deliveries + [COMPLETED];
        }
        if commit == Answered {
          return true;
        }
      }
      if status == Processing {
        status := Pending;
      }
      return false;
    }

    method ConfirmDeposit() returns (outcome: W.Outcome)
      modifies ledger
      ensures (ledger.View(), outcome) == W.Apply(old(ledger.View()), Deposit(session))
    {
      var slip := W.Slip(session.reference, KeyOf(session), "Checkout payment " + session.reference);
      outcome := Service.ConfirmDeposit(ledger, session.merchant, session.amountKobo, slip);
    }

    method Cancel() returns (ok: bool)
      modifies this`status
      ensures View() == Done(HappenAll(session, old(View()), [BeginCancel, WriteCancel(0)]))
      ensures ok <==> old(status) == Pending || old(status) == Processing
    {
      TwoEvents(session, View(), BeginCancel, WriteCancel(0));
      if status != Pending && status != Processing {
        return false;
      }
      status := Cancelled;
      return true;
    }

    /** Reading a session expires it first if its time is up. */
    method ExpireIfDue(now: int) returns (expired: bool)
      modifies this`status
      ensures View() == Done(HappenAll(session, old(View()), [BeginExpire(now), WriteExpire(0)]))
      ensures expired <==> old(status) == Pending && session.expiresAt < now
    {
      TwoEvents(session, View(), BeginExpire(now), WriteExpire(0));
      if status == Pending && now > session.expiresAt {
        status := Expired;
        return true;
      }
      return false;
    }
  }
}
