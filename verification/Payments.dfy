/**
 * Outbound settlement (services/payments/src/services/settlementService.js)
 * composed with the ledger. A payout's wallet debit is already in the journal;
 * if the provider fails the payout, the debit is reversed. Every database,
 * provider or ledger call is a step of its own, so any number of initiations,
 * webhooks, polls and refunds may interleave, each acting on a row it read
 * earlier.
 */
module Payments {
  import opened Sums
  import opened Network
  import D = Domain
  import L = Ledger
  import R = LedgerRuns

  datatype Status = Pending | Resolved | Failed

  datatype Way = Inbound | Outbound

  datatype Attempt = Attempt(
    way: Way,
    provider: string,
    reference: string,
    debit: D.Option<nat>,
    createdAt: int,
    status: Status)

  /** What a provider says when asked to pay out or asked about a payout. */
  datatype Answer = Completed | Declined | InProgress | Errored

  /** How the ledger's reversal call goes, and the order it reads the debit's lines back in. */
  datatype Call = Call(transport: Transport, reason: string, loaded: seq<D.Line>)

  /** Where a caller stands between two of its calls; each is about one attempt. */
  datatype Caller =
    | Gone
    | Initiating(attempt: nat)
    | Polling(attempt: nat)
    | Resolving(attempt: nat)
    | Reversing(attempt: nat)
    | Failing(attempt: nat)

  /** `logged` holds the attempts whose reversal call was seen to fail: the error goes to the log and no further. */
  datatype State = State(attempts: seq<Attempt>, books: L.Books, logged: set<nat>, callers: seq<Caller>)

  datatype Event =
    | BeginPayout(provider: string, reference: string, debit: D.Option<nat>, now: int)
    | BeginDeposit(provider: string, reference: string, now: int)
    | Webhook(provider: string, reference: string, success: bool)
    | BeginPoll(attempt: nat)
    | Hear(caller: nat, answer: Answer, refundDue: bool)
    | CallLedger(caller: nat, call: Call)
    | Write(caller: nat)
    | Crash(caller: nat)
    | Elsewhere(request: L.Request)

  /** The provider is not part of the key. */
  function RefundKey(tenant: string, reference: string): string {
    tenant + ":reverse:" + reference
  }

  function FindAttempt(attempts: seq<Attempt>, provider: string, reference: string): (a: D.Option<nat>)
    ensures a.Some? ==> a.value < |attempts| && attempts[a.value].provider == provider && attempts[a.value].reference == reference
    ensures a.None? ==> forall i :: 0 <= i < |attempts| ==> attempts[i].provider != provider || attempts[i].reference != reference
  {
    if attempts == [] then D.None
    else
      var last := |attempts| - 1;
      var earlier := FindAttempt(attempts[..last], provider, reference);
      if earlier.Some? then earlier
      else if attempts[last].provider == provider && attempts[last].reference == reference then D.Some(last)
      else D.None
  }

  /** An outbound attempt still waiting for its outcome. */
  predicate Open(attempts: seq<Attempt>, a: nat) {
    a < |attempts| && attempts[a].way == Outbound && attempts[a].status == Pending
  }

  function Marked(attempts: seq<Attempt>, a: nat, status: Status): seq<Attempt> {
    if a < |attempts| then attempts[a := attempts[a].(status := status)] else attempts
  }

  /** The reversal call: the books after it, and whether the caller sees it succeed. */
  function Refund(tenant: string, books: L.Books, debit: nat, reference: string, call: Call): (L.Books, bool) {
    if call.transport == NotSent then (books, false)
    else
      var (after, reply) := L.Reverse(books, L.ReverseInput(debit, call.reason, RefundKey(tenant, reference)), call.loaded);
      (after, call.transport == Answered && reply.Posted?)
  }

  function Goes(st: State, i: nat, next: Caller): State
    requires i < |st.callers|
  {
    st.(callers := st.callers[i := next])
  }

  function Joins(st: State, caller: Caller): State {
    st.(callers := st.callers + [caller])
  }

  /** What a caller does next once its provider has answered. */
  function AfterHearing(caller: Caller, answer: Answer, refundDue: bool): Caller {
    match caller
    case Initiating(a) =>
      if answer == Completed then Resolving(a) else if answer == Errored then Reversing(a) else Gone
    case Polling(a) =>
      if answer == Completed then Resolving(a)
      else if answer == Declined || (answer == InProgress && refundDue) then Reversing(a)
      else Gone
    case Gone => caller
    case Resolving(_) => caller
    case Reversing(_) => caller
    case Failing(_) => caller
  }

  /** An event that does not apply changes nothing. */
  function Happen(tenant: string, st: State, e: Event): State {
    match e
    case BeginPayout(provider, reference, debit, now) =>
      if FindAttempt(st.attempts, provider, reference).Some? then st
      else
        Joins(st.(attempts := st.attempts + [Attempt(Outbound, provider, reference, debit, now, Pending)]),
              Initiating(|st.attempts|))
    case BeginDeposit(provider, reference, now) =>
      if FindAttempt(st.attempts, provider, reference).Some? then st
      else st.(attempts := st.attempts + [Attempt(Inbound, provider, reference, D.None, now, Pending)])
    case Webhook(provider, reference, success) =>
      var found := FindAttempt(st.attempts, provider, reference);
      if found.None? || !Open(st.attempts, found.value) then st
      else Joins(st, if success then Resolving(found.value) else Reversing(found.value))
    case BeginPoll(a) =>
      if Open(st.attempts, a) then Joins(st, Polling(a)) else st
    case Hear(i, answer, refundDue) =>
      if |st.callers| <= i then st else Goes(st, i, AfterHearing(st.callers[i], answer, refundDue))
    case CallLedger(i, call) =>
      if |st.callers| <= i || !st.callers[i].Reversing? || |st.attempts| <= st.callers[i].attempt then st
      else
        var a := st.callers[i].attempt;
        if st.attempts[a].debit.None? then Goes(st, i, Failing(a))
        else
          var (after, seen) := Refund(tenant, st.books, st.attempts[a].debit.value, st.attempts[a].reference, call);
          Goes(st.(books := after, logged := if seen then st.logged else st.logged + {a}), i, Failing(a))
    case Write(i) =>
      if |st.callers| <= i then st
      else if st.callers[i].Resolving? then
        Goes(st.(attempts := Marked(st.attempts, st.callers[i].attempt, Resolved)), i, Gone)
      else if st.callers[i].Failing? then
        Goes(st.(attempts := Marked(st.attempts, st.callers[i].attempt, Failed)), i, Gone)
      else st
    case Crash(i) =>
      if |st.callers| <= i then st else Goes(st, i, Gone)
    case Elsewhere(request) =>
      st.(books := L.Step(st.books, request).0)
  }

  function HappenAll(tenant: string, st: State, events: seq<Event>): State {
    if events == [] then st
    else Happen(tenant, HappenAll(tenant, st, events[..|events| - 1]), events[|events| - 1])
  }

  // ---- The ledger call ----

  lemma {:induction false} RefundSound(tenant: string, books: L.Books, debit: nat, reference: string, call: Call)
    requires R.Sound(books)
    ensures R.Sound(Refund(tenant, books, debit, reference, call).0)
  {
    if call.transport != NotSent {
      R.StepSound(books, L.ReverseRequest(L.ReverseInput(debit, call.reason, RefundKey(tenant, reference)), call.loaded));
    }
  }

  /** The only entry a refund can add is a reversal of the debit under the refund's own key. */
  lemma {:induction false} RefundShape(tenant: string, books: L.Books, debit: nat, reference: string, call: Call)
    ensures var (after, seen) := Refund(tenant, books, debit, reference, call);
            var key := RefundKey(tenant, reference);
            if after.journal == books.journal then
              seen ==> L.FindKey(books.journal, key).Some?
            else
              && L.FindKey(books.journal, key).None?
              && |after.journal| == |books.journal| + 1
              && after.journal[..|books.journal|] == books.journal
              && after.journal[|books.journal|].key == key
              && after.journal[|books.journal|].reversalOf == D.Some(debit)
  {
  }

  // ---- Any interleaving: one refund at most ----

  lemma {:induction false} HappenSound(tenant: string, st: State, e: Event)
    requires R.Sound(st.books)
    ensures R.Sound(Happen(tenant, st, e).books)
  {
    match e
    case CallLedger(i, call) =>
      if i < |st.callers| && st.callers[i].Reversing? && st.callers[i].attempt < |st.attempts| {
        var attempt := st.attempts[st.callers[i].attempt];
        if attempt.debit.Some? {
          RefundSound(tenant, st.books, attempt.debit.value, attempt.reference, call);
        }
      }
    case Elsewhere(request) => R.StepSound(st.books, request);
    case BeginPayout(_, _, _, _) =>
    case BeginDeposit(_, _, _) =>
    case Webhook(_, _, _) =>
    case BeginPoll(_) =>
    case Hear(_, _, _) =>
    case Write(_) =>
    case Crash(_) =>
  }

  lemma {:induction false} RunSound(tenant: string, st: State, events: seq<Event>)
    requires R.Sound(st.books)
    ensures R.Sound(HappenAll(tenant, st, events).books)
  {
    if events != [] {
      RunSound(tenant, st, events[..|events| - 1]);
      HappenSound(tenant, HappenAll(tenant, st, events[..|events| - 1]), events[|events| - 1]);
    }
  }

  /** What the reversals of entry `debit` do to an account. */
  function Returned(debit: nat, account: nat, normal: D.Side): D.Entry -> int {
    (e: D.Entry) => if e.reversalOf == D.Some(debit) then L.Net(e.lines, account, normal) else 0
  }

  lemma {:induction false} NothingReturned(journal: seq<D.Entry>, debit: nat, account: nat, normal: D.Side)
    requires !L.HasReversal(journal, debit)
    ensures Sum(journal, Returned(debit, account, normal)) == 0
  {
    if journal != [] {
      var last := |journal| - 1;
      assert journal[last].reversalOf != D.Some(debit);
      assert !L.HasReversal(journal[..last], debit) by {
        assert forall i :: 0 <= i < last ==> journal[..last][i] == journal[i];
      }
      NothingReturned(journal[..last], debit, account, normal);
    }
  }

  /** Reversals give an account back all that the entry took from it, once, or nothing. */
  lemma {:induction false} ReturnedOnceOrNever(journal: seq<D.Entry>, debit: nat, account: nat, normal: D.Side)
    requires R.Chained(journal) && debit < |journal|
    ensures Sum(journal, Returned(debit, account, normal))
            == if L.HasReversal(journal, debit) then -L.Net(journal[debit].lines, account, normal) else 0
  {
    if L.HasReversal(journal, debit) {
      var k :| 0 <= k < |journal| && journal[k].reversalOf == D.Some(debit);
      var rest := journal[..k] + journal[k + 1..];
      SumRemove(journal, k, Returned(debit, account, normal));
      R.UndoesNegates(journal[k].lines, journal[debit].lines, account, normal);
      OnlyReversal(journal, debit, k);
      NothingReturned(rest, debit, account, normal);
    } else {
      NothingReturned(journal, debit, account, normal);
    }
  }

  lemma {:induction false} OnlyReversal(journal: seq<D.Entry>, debit: nat, k: nat)
    requires R.Chained(journal) && k < |journal| && journal[k].reversalOf == D.Some(debit)
    ensures !L.HasReversal(journal[..k] + journal[k + 1..], debit)
  {
    var rest := journal[..k] + journal[k + 1..];
    forall i | 0 <= i < |rest| ensures rest[i].reversalOf != D.Some(debit) {
      var at := if i < k then i else i + 1;
      assert rest[i] == journal[at];
      assert journal[at].reversalOf == D.Some(debit) ==> at == k;
    }
  }

  /**
   * Whatever initiations, webhooks, polls, refunds, crashes and other ledger
   * traffic interleave, over every account a debit is given back exactly once
   * or not at all.
   */
  lemma {:induction false} RefundedAtMostOnce(tenant: string, st: State, events: seq<Event>, debit: nat, account: nat, normal: D.Side)
    requires R.Sound(st.books)
    requires debit < |HappenAll(tenant, st, events).books.journal|
    ensures var journal := HappenAll(tenant, st, events).books.journal;
            Sum(journal, Returned(debit, account, normal))
            == if L.HasReversal(journal, debit) then -L.Net(journal[debit].lines, account, normal) else 0
  {
    RunSound(tenant, st, events);
    ReturnedOnceOrNever(HappenAll(tenant, st, events).books.journal, debit, account, normal);
  }

  // ---- When an outcome is final ----

  /** A caller who may still write the other outcome for attempt `a`. */
  predicate Threatens(caller: Caller, a: nat, status: Status) {
    || caller == Initiating(a)
    || caller == Polling(a)
    || (status == Resolved && (caller == Reversing(a) || caller == Failing(a)))
    || (status == Failed && caller == Resolving(a))
  }

  predicate Unthreatened(st: State, a: nat, status: Status) {
    forall i :: 0 <= i < |st.callers| ==> !Threatens(st.callers[i], a, status)
  }

  predicate Standing(st: State, a: nat, status: Status) {
    a < |st.attempts| && st.attempts[a].status == status
  }

  lemma {:induction false} OutcomeStaysStep(tenant: string, st: State, e: Event, a: nat, status: Status)
    requires status != Pending && Standing(st, a, status) && Unthreatened(st, a, status)
    ensures Standing(Happen(tenant, st, e), a, status) && Unthreatened(Happen(tenant, st, e), a, status)
  {
    var after := Happen(tenant, st, e);
    forall i | 0 <= i < |after.callers| ensures !Threatens(after.callers[i], a, status) {
      if i < |st.callers| {
        assert !Threatens(st.callers[i], a, status);
      }
    }
  }

  lemma {:induction false} OutcomeStays(tenant: string, st: State, events: seq<Event>, a: nat, status: Status)
    requires status != Pending && Standing(st, a, status) && Unthreatened(st, a, status)
    ensures Standing(HappenAll(tenant, st, events), a, status) && Unthreatened(HappenAll(tenant, st, events), a, status)
  {
    if events != [] {
      OutcomeStays(tenant, st, events[..|events| - 1], a, status);
      OutcomeStaysStep(tenant, HappenAll(tenant, st, events[..|events| - 1]), events[|events| - 1], a, status);
    }
  }

  lemma {:induction false} LastEvent(tenant: string, st: State, events: seq<Event>, e: Event)
    ensures HappenAll(tenant, st, events + [e]) == Happen(tenant, HappenAll(tenant, st, events), e)
  {
    assert (events + [e])[..|events|] == events;
  }

  lemma {:induction false} TwoEvents(tenant: string, st: State, a: Event, b: Event)
    ensures HappenAll(tenant, st, [a, b]) == Happen(tenant, Happen(tenant, st, a), b)
  {
    hide Happen;
    LastEvent(tenant, st, [], a);
    LastEvent(tenant, st, [a], b);
    assert [] + [a] == [a] && [a] + [b] == [a, b];
  }

  lemma {:induction false} ThreeEvents(tenant: string, st: State, a: Event, b: Event, c: Event)
    ensures HappenAll(tenant, st, [a, b, c]) == Happen(tenant, Happen(tenant, Happen(tenant, st, a), b), c)
  {
    hide Happen;
    TwoEvents(tenant, st, a, b);
    LastEvent(tenant, st, [a, b], c);
    assert [a, b] + [c] == [a, b, c];
  }

  const UNSENT := Call(NotSent, "", [])

  /** How a caller who threatens an outcome can carry it out. */
  function Overwriting(i: nat, caller: Caller, status: Status): seq<Event> {
    [Hear(i, if status == Resolved then if caller.Initiating? then Errored else Declined else Completed, false),
     CallLedger(i, UNSENT),
     Write(i)]
  }

  lemma {:induction false} ThreatCarriedOut(tenant: string, st: State, a: nat, status: Status, i: nat)
    requires status != Pending && Standing(st, a, status)
    requires i < |st.callers| && Threatens(st.callers[i], a, status)
    ensures !Standing(HappenAll(tenant, st, Overwriting(i, st.callers[i], status)), a, status)
  {
    var events := Overwriting(i, st.callers[i], status);
    ThreeEvents(tenant, st, events[0], events[1], events[2]);
    assert events == [events[0], events[1], events[2]];
    var heard := Happen(tenant, st, events[0]);
    assert heard.attempts == st.attempts && heard.callers[i] == AfterHearing(st.callers[i], events[0].answer, false);
    var called := Happen(tenant, heard, events[1]);
    assert called.attempts == st.attempts;
    assert called.callers[i] == if status == Resolved then Failing(a) else Resolving(a);
  }

  /** A terminal outcome is final in every continuation if and only if nobody who read the attempt earlier may still write the other one. */
  lemma {:induction false} FinalExactly(tenant: string, st: State, a: nat, status: Status)
    requires status != Pending && Standing(st, a, status)
    ensures Unthreatened(st, a, status) <==> forall events :: Standing(HappenAll(tenant, st, events), a, status)
  {
    if Unthreatened(st, a, status) {
      forall events ensures Standing(HappenAll(tenant, st, events), a, status) {
        OutcomeStays(tenant, st, events, a, status);
      }
    } else {
      var i :| 0 <= i < |st.callers| && Threatens(st.callers[i], a, status);
      ThreatCarriedOut(tenant, st, a, status, i);
    }
  }
}
