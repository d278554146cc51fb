/**
 * What a payout's status says about its debit. With handlers run one at a time
 * and references never used on two providers, pending and resolved payouts keep
 * their debit, and a failed one has it back unless the reversal call was logged
 * as failed.
 */
module Refunds {
  import opened Network
  import opened Payments
  import opened Settlement
  import D = Domain
  import L = Ledger
  import R = LedgerRuns

  /** Nothing has reversed the payout's debit, nor used the key its refund would have. */
  ghost predicate Untouched(tenant: string, journal: seq<D.Entry>, a: Attempt) {
    && L.FindKey(journal, RefundKey(tenant, a.reference)).None?
    && (a.debit.Some? ==> !L.HasReversal(journal, a.debit.value))
  }

  /** No two payouts share a reference, whatever their providers, or a debit. */
  ghost predicate Apart(a: Attempt, b: Attempt) {
    a.way == Outbound && b.way == Outbound ==> a.reference != b.reference && (a.debit.Some? ==> a.debit != b.debit)
  }

  ghost predicate AllApart(attempts: seq<Attempt>) {
    forall i, k :: 0 <= i < |attempts| && 0 <= k < |attempts| && i != k ==> Apart(attempts[i], attempts[k])
  }

  /** The status of payout `i` tells the truth about its debit. */
  ghost predicate Truthful(tenant: string, st: State, i: nat)
    requires i < |st.attempts|
  {
    var a := st.attempts[i];
    a.way == Outbound ==>
      if a.status == Failed then a.debit.Some? ==> L.HasReversal(st.books.journal, a.debit.value) || i in st.logged
      else Untouched(tenant, st.books.journal, a)
  }

  ghost predicate AllTruthful(tenant: string, st: State) {
    forall i: nat :: i < |st.attempts| ==> Truthful(tenant, st, i)
  }

  // ---- What the rest of the world may do ----

  /** Ledger traffic that leaves payouts alone: it neither uses a refund's key nor reverses a payout's debit. */
  ghost predicate Quiet(tenant: string, attempts: seq<Attempt>, request: L.Request) {
    forall i :: 0 <= i < |attempts| && attempts[i].way == Outbound ==>
      && R.KeyOf(request) != D.Some(RefundKey(tenant, attempts[i].reference))
      && (request.ReverseRequest? ==> attempts[i].debit != D.Some(request.reverse.entryId))
  }

  /** A new payout comes with a reference and a debit of its own. */
  ghost predicate Allowed(tenant: string, st: State, h: Handler) {
    match h
    case InitiatePayout(provider, reference, debit, now, _, _) =>
      var row := Attempt(Outbound, provider, reference, debit, now, Pending);
      FindAttempt(st.attempts, provider, reference).None? ==>
        && Untouched(tenant, st.books.journal, row)
        && forall i :: 0 <= i < |st.attempts| ==> Apart(st.attempts[i], row) && Apart(row, st.attempts[i])
    case LedgerTraffic(request) => Quiet(tenant, st.attempts, request)
    case OutboundOutcome(_, _, _, _) => true
    case Check(_, _, _, _) => true
    case Deposit(_, _, _) => true
  }

  ghost predicate AllowedRun(tenant: string, st: State, handlers: seq<Handler>) {
    handlers == []
    || var init := handlers[..|handlers| - 1];
       AllowedRun(tenant, st, init) && Allowed(tenant, HandleAll(tenant, st, init), handlers[|handlers| - 1])
  }

  // ---- Steps keep statuses truthful ----

  lemma {:induction false} KeysApart(tenant: string, a: string, b: string)
    ensures RefundKey(tenant, a) == RefundKey(tenant, b) <==> a == b
  {
    var prefix := tenant + ":reverse:";
    assert (prefix + a)[|prefix|..] == a && (prefix + b)[|prefix|..] == b;
  }

  /** An entry under another key that reverses something else leaves a payout as it was. */
  lemma {:induction false} OthersUntouched(tenant: string, before: seq<D.Entry>, after: seq<D.Entry>, a: Attempt)
    requires after == before
             || (|after| == |before| + 1 && after[..|before|] == before
                 && after[|before|].key != RefundKey(tenant, a.reference)
                 && (a.debit.Some? ==> after[|before|].reversalOf != a.debit))
    ensures Untouched(tenant, before, a) ==> Untouched(tenant, after, a)
    ensures a.debit.Some? && L.HasReversal(before, a.debit.value) ==> L.HasReversal(after, a.debit.value)
  {
    if after != before {
      assert forall i :: 0 <= i < |before| ==> after[i] == before[i];
    }
  }

  /** What a refund of attempt `a` leaves behind: its own debit reversed or the failure logged, and nothing else touched. */
  lemma {:induction false} GivenBack(tenant: string, st: State, a: nat, call: Call)
    requires AllApart(st.attempts) && AllTruthful(tenant, st) && Open(st.attempts, a)
    ensures AllTruthful(tenant, ReverseAndFail(tenant, st, a, call))
  {
    var attempt := st.attempts[a];
    var after := ReverseAndFail(tenant, st, a, call);
    assert Truthful(tenant, st, a);
    if attempt.debit.Some? {
      RefundShape(tenant, st.books, attempt.debit.value, attempt.reference, call);
    }
    forall i: nat | i < |after.attempts| ensures Truthful(tenant, after, i) {
      OneGivenBack(tenant, st, a, call, i);
    }
  }

  lemma {:induction false} OneGivenBack(tenant: string, st: State, a: nat, call: Call, i: nat)
    requires AllApart(st.attempts) && Open(st.attempts, a) && i < |st.attempts|
    requires Truthful(tenant, st, a) && Truthful(tenant, st, i)
    ensures Truthful(tenant, ReverseAndFail(tenant, st, a, call), i)
  {
    hide Refund;
    hide L.FindKey;
    var attempt := st.attempts[a];
    if attempt.debit.Some? {
      var after := Refund(tenant, st.books, attempt.debit.value, attempt.reference, call).0;
      RefundShape(tenant, st.books, attempt.debit.value, attempt.reference, call);
      if i != a {
        assert Apart(st.attempts[i], attempt) && Apart(attempt, st.attempts[i]);
        KeysApart(tenant, st.attempts[i].reference, attempt.reference);
        if st.attempts[i].way == Outbound {
          OthersUntouched(tenant, st.books.journal, after.journal, st.attempts[i]);
        }
      } else if after.journal != st.books.journal {
        assert after.journal[|st.books.journal|].reversalOf == D.Some(attempt.debit.value);
        assert L.HasReversal(after.journal, attempt.debit.value);
      }
    }
  }

  lemma {:induction false} ConcludedTruthful(tenant: string, st: State, a: nat, verdict: Verdict, call: Call)
    requires AllApart(st.attempts) && AllTruthful(tenant, st) && Open(st.attempts, a)
    ensures AllTruthful(tenant, Conclude(tenant, st, a, verdict, call))
    ensures AllApart(Conclude(tenant, st, a, verdict, call).attempts)
  {
    hide ReverseAndFail;
    ApartAfter(tenant, st, a, verdict, call);
    if verdict == GiveBack {
      GivenBack(tenant, st, a, call);
    } else {
      var after := Conclude(tenant, st, a, verdict, call);
      forall i: nat | i < |after.attempts| ensures Truthful(tenant, after, i) {
        assert Truthful(tenant, st, i);
      }
    }
  }

  lemma {:induction false} ApartAfter(tenant: string, st: State, a: nat, verdict: Verdict, call: Call)
    requires AllApart(st.attempts) && a < |st.attempts|
    ensures AllApart(Conclude(tenant, st, a, verdict, call).attempts)
  {
    hide Conclude;
    ConcludeShape(tenant, st, a, verdict, call);
    var after := Conclude(tenant, st, a, verdict, call).attempts;
    forall i, k | 0 <= i < |after| && 0 <= k < |after| && i != k ensures Apart(after[i], after[k]) {
      assert Apart(st.attempts[i], st.attempts[k]);
    }
  }

  lemma {:induction false} BegunTruthful(tenant: string, st: State, row: Attempt)
    requires AllApart(st.attempts) && AllTruthful(tenant, st)
    requires row.way == Inbound || (row.status == Pending && Untouched(tenant, st.books.journal, row))
    requires forall i :: 0 <= i < |st.attempts| ==> Apart(st.attempts[i], row) && Apart(row, st.attempts[i])
    ensures AllTruthful(tenant, st.(attempts := st.attempts + [row]))
    ensures AllApart(st.attempts + [row])
  {
    var begun := st.(attempts := st.attempts + [row]);
    forall i: nat | i < |begun.attempts| ensures Truthful(tenant, begun, i) {
      if i < |st.attempts| {
        assert Truthful(tenant, st, i);
      }
    }
  }

  lemma {:induction false} TrafficTruthful(tenant: string, st: State, request: L.Request)
    requires AllTruthful(tenant, st) && Quiet(tenant, st.attempts, request)
    ensures AllTruthful(tenant, st.(books := L.Step(st.books, request).0))
  {
    hide L.FindKey;
    var books := L.Step(st.books, request).0;
    R.StepOrigin(st.books, request);
    forall i: nat | i < |st.attempts| ensures Truthful(tenant, st.(books := books), i) {
      assert Truthful(tenant, st, i);
      if st.attempts[i].way == Outbound {
        OthersUntouched(tenant, st.books.journal, books.journal, st.attempts[i]);
      }
    }
  }

  lemma {:induction false} HandledTruthful(tenant: string, st: State, h: Handler)
    requires AllApart(st.attempts) && AllTruthful(tenant, st) && Allowed(tenant, st, h)
    ensures AllApart(Handle(tenant, st, h).attempts) && AllTruthful(tenant, Handle(tenant, st, h))
  {
    hide Conclude;
    hide L.Step;
    hide AllTruthful;
    hide AllApart;
    match h
    case InitiatePayout(provider, reference, debit, now, answer, call) =>
      if FindAttempt(st.attempts, provider, reference).None? {
        var row := Attempt(Outbound, provider, reference, debit, now, Pending);
        BegunTruthful(tenant, st, row);
        ConcludedTruthful(tenant, st.(attempts := st.attempts + [row]), |st.attempts|, OnInitiating(answer), call);
      }
    case OutboundOutcome(provider, reference, success, call) =>
      var found := FindAttempt(st.attempts, provider, reference);
      if found.Some? && Open(st.attempts, found.value) {
        ConcludedTruthful(tenant, st, found.value, if success then Accept else GiveBack, call);
      }
    case Check(a, answer, refundDue, call) =>
      if Open(st.attempts, a) {
        ConcludedTruthful(tenant, st, a, OnPolling(answer, refundDue), call);
      }
    case Deposit(provider, reference, now) =>
      if FindAttempt(st.attempts, provider, reference).None? {
        BegunTruthful(tenant, st, Attempt(Inbound, provider, reference, D.None, now, Pending));
      }
    case LedgerTraffic(request) => TrafficTruthful(tenant, st, request);
  }

  /**
   * Over every run of whole handlers, pending and resolved payouts have their
   * debit unreversed, and every failed payout has it reversed or the failed
   * reversal call logged.
   */
  lemma {:induction false} StatusesTruthful(tenant: string, st: State, handlers: seq<Handler>)
    requires AllApart(st.attempts) && AllTruthful(tenant, st)
    requires AllowedRun(tenant, st, handlers)
    ensures AllApart(HandleAll(tenant, st, handlers).attempts)
    ensures AllTruthful(tenant, HandleAll(tenant, st, handlers))
  {
    hide Handle;
    hide Allowed;
    if handlers != [] {
      var init := handlers[..|handlers| - 1];
      StatusesTruthful(tenant, st, init);
      HandledTruthful(tenant, HandleAll(tenant, st, init), handlers[|handlers| - 1]);
    }
  }

  // ---- A reference shared by two providers ----

  /**
   * A refund call that is answered without error gives the debit back if and
   * only if its key was free: the key names the reference and not the provider,
   * so a second payout under the same reference gets the first one's answer.
   */
  lemma {:induction false} RefundExactly(tenant: string, st: State, a: nat, call: Call)
    requires Open(st.attempts, a) && st.attempts[a].debit.Some? && a !in st.logged
    requires !L.HasReversal(st.books.journal, st.attempts[a].debit.value)
    ensures var after := ReverseAndFail(tenant, st, a, call);
            a !in after.logged ==>
              (L.HasReversal(after.books.journal, st.attempts[a].debit.value)
               <==> L.FindKey(st.books.journal, RefundKey(tenant, st.attempts[a].reference)).None?)
  {
    hide Refund;
    hide L.FindKey;
    var attempt := st.attempts[a];
    var after := ReverseAndFail(tenant, st, a, call);
    RefundShape(tenant, st.books, attempt.debit.value, attempt.reference, call);
    if after.books.journal != st.books.journal {
      assert after.books.journal[|st.books.journal|].reversalOf == attempt.debit;
    }
  }

  /**
   * A payout under a reference another provider's refund has already used fails
   * without a word in the log, and its debit is not given back.
   */
  lemma {:induction false} SharedReferenceStrandsRefund(tenant: string, st: State, provider: string, reference: string, debit: nat, now: int, call: Call)
    requires FindAttempt(st.attempts, provider, reference).None? && |st.attempts| !in st.logged
    requires L.FindKey(st.books.journal, RefundKey(tenant, reference)).Some?
    requires !L.HasReversal(st.books.journal, debit) && call.transport == Answered
    ensures var after := Handle(tenant, st, InitiatePayout(provider, reference, D.Some(debit), now, Errored, call));
            && Standing(after, |st.attempts|, Failed)
            && after.logged == st.logged
            && !L.HasReversal(after.books.journal, debit)
  {
    assert Refund(tenant, st.books, debit, reference, call) == (st.books, true);
  }

  // ---- Paid out and refunded ----

  /**
   * Left to interleave, a poll that read the payout before its failure webhook
   * can report success afterwards: the payout ends resolved with its debit
   * given back.
   */
  lemma {:induction false} StalePollResolvesRefunded(tenant: string, st: State, a: nat, call: Call)
    requires st.callers == [] && Open(st.attempts, a) && st.attempts[a].debit.Some?
    requires FindAttempt(st.attempts, st.attempts[a].provider, st.attempts[a].reference) == D.Some(a)
    requires L.FindKey(st.books.journal, RefundKey(tenant, st.attempts[a].reference)).None?
    requires Refund(tenant, st.books, st.attempts[a].debit.value, st.attempts[a].reference, call).1
    ensures var attempt := st.attempts[a];
            var failing := [BeginPoll(a), Webhook(attempt.provider, attempt.reference, false), CallLedger(1, call), Write(1)];
            var after := HappenAll(tenant, HappenAll(tenant, st, failing), [Hear(0, Completed, false), Write(0)]);
            && Standing(HappenAll(tenant, st, failing), a, Failed)
            && Standing(after, a, Resolved)
            && L.HasReversal(after.books.journal, attempt.debit.value)
  {
    var attempt := st.attempts[a];
    var debit := attempt.debit.value;
    var failing := [BeginPoll(a), Webhook(attempt.provider, attempt.reference, false), CallLedger(1, call), Write(1)];
    FourthEvent(tenant, st, failing[0], failing[1], failing[2], failing[3]);
    ThreeEvents(tenant, Happen(tenant, st, failing[0]), failing[1], failing[2], failing[3]);
    var after := HappenAll(tenant, st, failing);
    FailedBehindPoll(tenant, st, a, call);
    RefundShape(tenant, st.books, debit, attempt.reference, call);
    assert after.books.journal[|st.books.journal|].reversalOf == D.Some(debit);
    ResolvedLate(tenant, after, a);
  }

  lemma {:induction false} FailedBehindPoll(tenant: string, st: State, a: nat, call: Call)
    requires st.callers == [] && Open(st.attempts, a) && st.attempts[a].debit.Some?
    requires FindAttempt(st.attempts, st.attempts[a].provider, st.attempts[a].reference) == D.Some(a)
    requires Refund(tenant, st.books, st.attempts[a].debit.value, st.attempts[a].reference, call).1
    ensures var attempt := st.attempts[a];
            var called := Happen(tenant, Happen(tenant, Happen(tenant, st, BeginPoll(a)),
                                                Webhook(attempt.provider, attempt.reference, false)), CallLedger(1, call));
            Happen(tenant, called, Write(1))
            == State(Marked(st.attempts, a, Failed), Refund(tenant, st.books, attempt.debit.value, attempt.reference, call).0,
                     st.logged, [Polling(a), Gone])
  {
    hide Refund;
    var attempt := st.attempts[a];
    var polled := Happen(tenant, st, BeginPoll(a));
    assert polled == st.(callers := [Polling(a)]);
    var told := Happen(tenant, polled, Webhook(attempt.provider, attempt.reference, false));
    assert told == st.(callers := [Polling(a), Reversing(a)]);
    var called := Happen(tenant, told, CallLedger(1, call));
    assert called.callers == [Polling(a), Failing(a)];
  }

  lemma {:induction false} ResolvedLate(tenant: string, st: State, a: nat)
    requires st.callers == [Polling(a), Gone] && a < |st.attempts|
    ensures HappenAll(tenant, st, [Hear(0, Completed, false), Write(0)])
            == st.(callers := [Gone, Gone], attempts := Marked(st.attempts, a, Resolved))
  {
    hide Refund;
    TwoEvents(tenant, st, Hear(0, Completed, false), Write(0));
    assert Happen(tenant, st, Hear(0, Completed, false)) == st.(callers := [Resolving(a), Gone]);
  }
}
