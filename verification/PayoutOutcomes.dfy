/**
 * What becomes of a payout: the status each answer of its provider leads to,
 * and, over every interleaving, that no payout is resolved or failed unless
 * somebody was told so.
 */
module PayoutOutcomes {
  import opened Network
  import opened Payments
  import opened Settlement
  import opened Reconciliation
  import D = Domain
  import L = Ledger

  // ---- One handler ----

  /** The status a payout ends with, by the answer its initiation got. */
  function Initiated(answer: Answer): Status {
    match answer
    case Completed => Resolved
    case Errored => Failed
    case InProgress => Pending
    case Declined => Pending
  }

  /** What giving a payout's debit back does to the books. */
  function GivenBack(tenant: string, books: L.Books, debit: D.Option<nat>, reference: string, call: Call): L.Books {
    if debit.None? || call.transport == NotSent then books
    else L.Reverse(books, L.ReverseInput(debit.value, call.reason, tenant + ":reverse:" + reference), call.loaded).0
  }

  /** Giving a debit back is logged as failed unless it was answered with success. */
  predicate Unconfirmed(tenant: string, books: L.Books, debit: D.Option<nat>, reference: string, call: Call) {
    debit.Some?
    && (call.transport != Answered
        || !L.Reverse(books, L.ReverseInput(debit.value, call.reason, tenant + ":reverse:" + reference), call.loaded).1.Posted?)
  }

  /** A new payout's row, and its money: only an error at initiation gives the debit back. */
  lemma {:induction false} InitiationOutcome(tenant: string, st: State, provider: string, reference: string, debit: D.Option<nat>, now: int, answer: Answer, call: Call)
    ensures var known := exists a :: 0 <= a < |st.attempts| && st.attempts[a].provider == provider && st.attempts[a].reference == reference;
            var after := Handle(tenant, st, InitiatePayout(provider, reference, debit, now, answer, call));
            if known then after == st
            else
              && after.attempts == st.attempts + [Attempt(Outbound, provider, reference, debit, now, Initiated(answer))]
              && after.books == (if answer == Errored then GivenBack(tenant, st.books, debit, reference, call) else st.books)
              && after.logged == st.logged + (if answer == Errored && Unconfirmed(tenant, st.books, debit, reference, call)
                                              then {|st.attempts|} else {})
  {
    hide L.Reverse;
    var row := Attempt(Outbound, provider, reference, debit, now, Pending);
    assert (st.attempts + [row])[|st.attempts| := row.(status := Initiated(answer))]
           == st.attempts + [row.(status := Initiated(answer))];
  }

  /** An inbound payment's row, which no outbound outcome ever touches. */
  lemma {:induction false} DepositOutcome(tenant: string, st: State, provider: string, reference: string, now: int)
    ensures var known := exists a :: 0 <= a < |st.attempts| && st.attempts[a].provider == provider && st.attempts[a].reference == reference;
            var after := Handle(tenant, st, Deposit(provider, reference, now));
            after == if known then st
                     else st.(attempts := st.attempts + [Attempt(Inbound, provider, reference, D.None, now, Pending)])
  {
  }

  /** The status an open payout ends with, by the answer a poll got. */
  function Polled(answer: Answer, overdue: bool): Status {
    match answer
    case Completed => Resolved
    case Declined => Failed
    case InProgress => if overdue then Failed else Pending
    case Errored => Pending
  }

  lemma {:induction false} PollOutcome(tenant: string, st: State, a: nat, answer: Answer, overdue: bool, call: Call)
    requires Open(st.attempts, a)
    ensures var attempt := st.attempts[a];
            var after := Handle(tenant, st, Check(a, answer, overdue, call));
            && after.attempts == st.attempts[a := attempt.(status := Polled(answer, overdue))]
            && after.books == (if Polled(answer, overdue) == Failed
                               then GivenBack(tenant, st.books, attempt.debit, attempt.reference, call) else st.books)
            && after.logged == st.logged + (if Polled(answer, overdue) == Failed
                                               && Unconfirmed(tenant, st.books, attempt.debit, attempt.reference, call)
                                            then {a} else {})
  {
    hide L.Reverse;
  }

  /** A webhook decides an open outbound payout both ways, and changes nothing else. */
  lemma {:induction false} WebhookOutcome(tenant: string, st: State, provider: string, reference: string, success: bool, call: Call)
    ensures var found := FindAttempt(st.attempts, provider, reference);
            var after := Handle(tenant, st, OutboundOutcome(provider, reference, success, call));
            if found.None? || st.attempts[found.value].way != Outbound || st.attempts[found.value].status != Pending then after == st
            else
              var attempt := st.attempts[found.value];
              && after.attempts == st.attempts[found.value := attempt.(status := if success then Resolved else Failed)]
              && after.books == (if success then st.books
                                 else GivenBack(tenant, st.books, attempt.debit, attempt.reference, call))
              && after.logged == st.logged + (if !success && Unconfirmed(tenant, st.books, attempt.debit, attempt.reference, call)
                                              then {found.value} else {})
  {
    hide L.Reverse;
  }

  /**
   * One reconciliation pass over a pending payout, in minutes of its age: left
   * alone while not yet stale; then resolved or failed as its provider says, or
   * failed once it is old enough to be refunded; an erring provider decides
   * nothing.
   */
  lemma {:induction false} PassOutcome(tenant: string, config: Config, st: State, now: int, world: World, a: nat)
    requires a < |st.attempts| && st.attempts[a].way == Outbound && st.attempts[a].status == Pending
    ensures var age := now - st.attempts[a].createdAt;
            var stale, overdue := config.staleMinutes * 60_000 < age, config.autoRefundMinutes * 60_000 <= age;
            Pass(tenant, config, st, now, world).attempts[a].status
            == if !stale then Pending
               else
                 match world.answer(a)
                 case Completed => Resolved
                 case Declined => Failed
                 case InProgress => if overdue then Failed else Pending
                 case Errored => Pending
  {
    hide Pass;
    PassPointwise(tenant, config, st, now, world, a);
  }

  // ---- Every interleaving ----

  /** The event tells somebody that payout `a` went through. */
  predicate TellsSuccess(st: State, e: Event, a: nat) {
    || (e.Webhook? && e.success && FindAttempt(st.attempts, e.provider, e.reference) == D.Some(a))
    || (e.Hear? && e.answer == Completed && e.caller < |st.callers|
        && (st.callers[e.caller] == Initiating(a) || st.callers[e.caller] == Polling(a)))
  }

  /** The event tells somebody that payout `a` failed, errored when it was initiated, or is overdue. */
  predicate TellsFailure(st: State, e: Event, a: nat) {
    || (e.Webhook? && !e.success && FindAttempt(st.attempts, e.provider, e.reference) == D.Some(a))
    || (e.Hear? && e.caller < |st.callers| && st.callers[e.caller] == Initiating(a) && e.answer == Errored)
    || (e.Hear? && e.caller < |st.callers| && st.callers[e.caller] == Polling(a)
        && (e.answer == Declined || (e.answer == InProgress && e.refundDue)))
  }

  predicate Tells(st: State, e: Event, a: nat, success: bool) {
    if success then TellsSuccess(st, e, a) else TellsFailure(st, e, a)
  }

  ghost predicate Told(tenant: string, st: State, events: seq<Event>, a: nat, success: bool) {
    exists i :: 0 <= i < |events| && Tells(HappenAll(tenant, st, events[..i]), events[i], a, success)
  }

  lemma {:induction false} ToldByLast(tenant: string, st: State, events: seq<Event>, a: nat, success: bool)
    requires events != []
    ensures var n := |events| - 1;
            Told(tenant, st, events, a, success)
            <==> Told(tenant, st, events[..n], a, success) || Tells(HappenAll(tenant, st, events[..n]), events[n], a, success)
  {
    hide HappenAll;
    hide Tells;
    var n := |events| - 1;
    var init := events[..n];
    assert forall i :: 0 <= i < n ==> init[..i] == events[..i] && init[i] == events[i];
    if Told(tenant, st, init, a, success) {
      var i :| 0 <= i < n && Tells(HappenAll(tenant, st, init[..i]), init[i], a, success);
      assert Tells(HappenAll(tenant, st, events[..i]), events[i], a, success);
    }
  }

  /** Whether payout `a` stands, or a caller is about to make it stand, one way or the other. */
  predicate Headed(st: State, a: nat, success: bool) {
    || (a < |st.attempts| && st.attempts[a].status == (if success then Resolved else Failed))
    || (exists i :: 0 <= i < |st.callers| && HeadedBy(st.callers[i], a, success))
  }

  predicate HeadedBy(c: Caller, a: nat, success: bool) {
    if success then c == Resolving(a) else c == Reversing(a) || c == Failing(a)
  }

  /** Only being told sends a payout either way. */
  lemma {:induction false} HeadedStep(tenant: string, st: State, e: Event, a: nat, success: bool)
    requires Headed(Happen(tenant, st, e), a, success)
    ensures Headed(st, a, success) || Tells(st, e, a, success)
  {
    hide Refund;
    var after := Happen(tenant, st, e);
    if i :| 0 <= i < |after.callers| && HeadedBy(after.callers[i], a, success) {
      if i < |st.callers| && HeadedBy(st.callers[i], a, success) {
        assert Headed(st, a, success);
      }
    }
    if e.Write? && e.caller < |st.callers| {
      assert HeadedBy(st.callers[e.caller], a, success) ==> Headed(st, a, success);
    }
    if e.CallLedger? && e.caller < |st.callers| {
      assert HeadedBy(st.callers[e.caller], a, success) ==> Headed(st, a, success);
    }
  }

  /**
   * In every interleaving from an empty table a payout is resolved only if a
   * webhook or an answer said it went through, and failed only if one said it
   * did not, its initiation erred, or a poll found it overdue.
   */
  lemma {:induction false} OnlyAsTold(tenant: string, st: State, events: seq<Event>, a: nat, success: bool)
    requires st.attempts == [] && st.callers == []
    requires Headed(HappenAll(tenant, st, events), a, success)
    ensures Told(tenant, st, events, a, success)
  {
    hide Happen;
    hide Tells;
    if events != [] {
      var n := |events| - 1;
      HeadedStep(tenant, HappenAll(tenant, st, events[..n]), events[n], a, success);
      if Headed(HappenAll(tenant, st, events[..n]), a, success) {
        OnlyAsTold(tenant, st, events[..n], a, success);
      }
      ToldByLast(tenant, st, events, a, success);
    }
  }
}
