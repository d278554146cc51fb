/**
 * Settlement handlers run one at a time (services/payments/src/services/
 * settlementService.js): each is a schedule of the steps in Payments with
 * nobody in between.
 */
module Settlement {
  import opened Payments
  import D = Domain
  import L = Ledger

  datatype Handler =
    | InitiatePayout(provider: string, reference: string, debit: D.Option<nat>, now: int, answer: Answer, call: Call)
    | OutboundOutcome(provider: string, reference: string, success: bool, call: Call)
    | Check(attempt: nat, answer: Answer, refundDue: bool, call: Call)
    | Deposit(provider: string, reference: string, now: int)
    | LedgerTraffic(request: L.Request)

  // ---- What a handler does ----

  function Resolve(st: State, a: nat): State {
    st.(attempts := Marked(st.attempts, a, Resolved))
  }

  /** Reverses the debit if there is one, and marks the attempt failed whatever came of that. */
  function ReverseAndFail(tenant: string, st: State, a: nat, call: Call): State
    requires a < |st.attempts|
  {
    var attempt := st.attempts[a];
    if attempt.debit.None? then st.(attempts := Marked(st.attempts, a, Failed))
    else
      var (after, seen) := Refund(tenant, st.books, attempt.debit.value, attempt.reference, call);
      st.(attempts := Marked(st.attempts, a, Failed), books := after,
          logged := if seen then st.logged else st.logged + {a})
  }

  datatype Verdict = Accept | GiveBack | Wait

  function OnInitiating(answer: Answer): Verdict {
    if answer == Completed then Accept else if answer == Errored then GiveBack else Wait
  }

  function OnPolling(answer: Answer, refundDue: bool): Verdict {
    if answer == Completed then Accept
    else if answer == Declined || (answer == InProgress && refundDue) then GiveBack
    else Wait
  }

  function Conclude(tenant: string, st: State, a: nat, verdict: Verdict, call: Call): State
    requires a < |st.attempts|
  {
    match verdict
    case Accept => Resolve(st, a)
    case GiveBack => ReverseAndFail(tenant, st, a, call)
    case Wait => st
  }

  function Handle(tenant: string, st: State, h: Handler): State {
    match h
    case InitiatePayout(provider, reference, debit, now, answer, call) =>
      if FindAttempt(st.attempts, provider, reference).Some? then st
      else
        var row := Attempt(Outbound, provider, reference, debit, now, Pending);
        Conclude(tenant, st.(attempts := st.attempts + [row]), |st.attempts|, OnInitiating(answer), call)
    case OutboundOutcome(provider, reference, success, call) =>
      var found := FindAttempt(st.attempts, provider, reference);
      if found.None? || !Open(st.attempts, found.value) then st
      else Conclude(tenant, st, found.value, if success then Accept else GiveBack, call)
    case Check(a, answer, refundDue, call) =>
      if !Open(st.attempts, a) then st else Conclude(tenant, st, a, OnPolling(answer, refundDue), call)
    case Deposit(provider, reference, now) =>
      Happen(tenant, st, BeginDeposit(provider, reference, now))
    case LedgerTraffic(request) =>
      Happen(tenant, st, Elsewhere(request))
  }

  function HandleAll(tenant: string, st: State, handlers: seq<Handler>): State {
    if handlers == [] then st
    else Handle(tenant, HandleAll(tenant, st, handlers[..|handlers| - 1]), handlers[|handlers| - 1])
  }

  // ---- Handlers are schedules of steps ----

  /** The steps a handler takes when nobody interrupts it. */
  function Schedule(h: Handler): seq<Event> {
    match h
    case InitiatePayout(provider, reference, debit, now, answer, call) =>
      [BeginPayout(provider, reference, debit, now), Hear(0, answer, false), CallLedger(0, call), Write(0)]
    case OutboundOutcome(provider, reference, success, call) =>
      [Webhook(provider, reference, success), CallLedger(0, call), Write(0)]
    case Check(a, answer, refundDue, call) =>
      [BeginPoll(a), Hear(0, answer, refundDue), CallLedger(0, call), Write(0)]
    case Deposit(provider, reference, now) => [BeginDeposit(provider, reference, now)]
    case LedgerTraffic(request) => [Elsewhere(request)]
  }

  lemma {:induction false} FourthEvent(tenant: string, st: State, a: Event, b: Event, c: Event, d: Event)
    ensures HappenAll(tenant, st, [a, b, c, d]) == HappenAll(tenant, Happen(tenant, st, a), [b, c, d])
  {
    hide Happen;
    ThreeEvents(tenant, st, a, b, c);
    LastEvent(tenant, st, [a, b, c], d);
    ThreeEvents(tenant, Happen(tenant, st, a), b, c, d);
    assert [a, b, c] + [d] == [a, b, c, d];
  }

  /** From the only caller's reading of the provider's answer to the end of the handler. */
  lemma {:induction false} Heard(tenant: string, st: State, a: nat, caller: Caller, answer: Answer, refundDue: bool, call: Call)
    requires a < |st.attempts| && st.callers == [caller]
    requires caller == Initiating(a) || caller == Polling(a)
    ensures HappenAll(tenant, st, [Hear(0, answer, refundDue), CallLedger(0, call), Write(0)]).(callers := [])
            == Conclude(tenant, st.(callers := []), a,
                        if caller.Initiating? then OnInitiating(answer) else OnPolling(answer, refundDue), call)
  {
    ThreeEvents(tenant, st, Hear(0, answer, refundDue), CallLedger(0, call), Write(0));
    var next := AfterHearing(caller, answer, refundDue);
    var heard := Happen(tenant, st, Hear(0, answer, refundDue));
    assert heard == st.(callers := [next]);
    Concluded(tenant, heard, a, next, call);
  }

  lemma {:induction false} Concluded(tenant: string, st: State, a: nat, caller: Caller, call: Call)
    requires a < |st.attempts| && st.callers == [caller]
    requires caller == Gone || caller == Resolving(a) || caller == Reversing(a)
    ensures Happen(tenant, Happen(tenant, st, CallLedger(0, call)), Write(0)).(callers := [])
            == Conclude(tenant, st.(callers := []), a,
                        if caller.Gone? then Wait else if caller.Resolving? then Accept else GiveBack, call)
  {
    if caller.Reversing? {
      var called := Happen(tenant, st, CallLedger(0, call));
      assert called.callers == [Failing(a)];
      assert called.attempts == st.attempts;
    }
  }

  /** Run without interruption, a handler's steps do what the handler does. */
  lemma {:induction false} HandlerIsSchedule(tenant: string, st: State, h: Handler)
    requires st.callers == []
    ensures HappenAll(tenant, st, Schedule(h)).(callers := []) == Handle(tenant, st, h)
  {
    var events := Schedule(h);
    match h
    case InitiatePayout(provider, reference, debit, now, answer, call) =>
      InitiationIsSchedule(tenant, st, h);
    case OutboundOutcome(provider, reference, success, call) =>
      OutcomeIsSchedule(tenant, st, h);
    case Check(a, answer, refundDue, call) =>
      CheckIsSchedule(tenant, st, h);
    case Deposit(_, _, _) =>
      LastEvent(tenant, st, [], events[0]);
      assert [] + events == events;
    case LedgerTraffic(_) =>
      LastEvent(tenant, st, [], events[0]);
      assert [] + events == events;
  }

  /** A lone caller's steps do nothing when there is no caller. */
  lemma {:induction false} NobodyThere(tenant: string, st: State, answer: Answer, refundDue: bool, call: Call)
    requires st.callers == []
    ensures HappenAll(tenant, st, [Hear(0, answer, refundDue), CallLedger(0, call), Write(0)]) == st
  {
    ThreeEvents(tenant, st, Hear(0, answer, refundDue), CallLedger(0, call), Write(0));
  }

  lemma {:induction false} InitiationIsSchedule(tenant: string, st: State, h: Handler)
    requires st.callers == [] && h.InitiatePayout?
    ensures HappenAll(tenant, st, Schedule(h)).(callers := []) == Handle(tenant, st, h)
  {
    var events := Schedule(h);
    FourthEvent(tenant, st, events[0], events[1], events[2], events[3]);
    if FindAttempt(st.attempts, h.provider, h.reference).Some? {
      NobodyThere(tenant, st, h.answer, false, h.call);
    } else {
      var begun := Happen(tenant, st, events[0]);
      assert begun.callers == [Initiating(|st.attempts|)];
      Heard(tenant, begun, |st.attempts|, Initiating(|st.attempts|), h.answer, false, h.call);
    }
  }

  lemma {:induction false} CheckIsSchedule(tenant: string, st: State, h: Handler)
    requires st.callers == [] && h.Check?
    ensures HappenAll(tenant, st, Schedule(h)).(callers := []) == Handle(tenant, st, h)
  {
    var events := Schedule(h);
    FourthEvent(tenant, st, events[0], events[1], events[2], events[3]);
    if Open(st.attempts, h.attempt) {
      var begun := Happen(tenant, st, events[0]);
      assert begun.callers == [Polling(h.attempt)];
      Heard(tenant, begun, h.attempt, Polling(h.attempt), h.answer, h.refundDue, h.call);
    } else {
      NobodyThere(tenant, st, h.answer, h.refundDue, h.call);
    }
  }

  lemma {:induction false} OutcomeIsSchedule(tenant: string, st: State, h: Handler)
    requires st.callers == [] && h.OutboundOutcome?
    ensures HappenAll(tenant, st, Schedule(h)).(callers := []) == Handle(tenant, st, h)
  {
    var events := Schedule(h);
    ThreeEvents(tenant, st, events[0], events[1], events[2]);
    var found := FindAttempt(st.attempts, h.provider, h.reference);
    if found.Some? && Open(st.attempts, found.value) {
      var begun := Happen(tenant, st, events[0]);
      var caller := if h.success then Resolving(found.value) else Reversing(found.value);
      assert begun == st.(callers := [caller]);
      Concluded(tenant, begun, found.value, caller, h.call);
    }
  }

  // ---- Terminal outcomes stay ----

  lemma {:induction false} ConcludeShape(tenant: string, st: State, a: nat, verdict: Verdict, call: Call)
    requires a < |st.attempts|
    ensures var after := Conclude(tenant, st, a, verdict, call);
            && after.attempts == Marked(st.attempts, a, match verdict
                                                        case Accept => Resolved
                                                        case GiveBack => Failed
                                                        case Wait => st.attempts[a].status)
            && after.callers == st.callers
  {
  }

  /** The open attempt a handler is about, if any. */
  function Concerns(st: State, h: Handler): D.Option<nat> {
    match h
    case OutboundOutcome(provider, reference, _, _) =>
      var found := FindAttempt(st.attempts, provider, reference);
      if found.Some? && Open(st.attempts, found.value) then found else D.None
    case Check(a, _, _, _) => if Open(st.attempts, a) then D.Some(a) else D.None
    case InitiatePayout(_, _, _, _, _, _) => D.None
    case Deposit(_, _, _) => D.None
    case LedgerTraffic(_) => D.None
  }

  /** A handler changes the status of the attempt it is about, or adds one row stamped with its time, or changes no row. */
  lemma {:induction false} HandleShape(tenant: string, st: State, h: Handler)
    ensures var before, after := st.attempts, Handle(tenant, st, h).attempts;
            if Concerns(st, h).Some? then
              var a := Concerns(st, h).value;
              && |after| == |before|
              && after == before[a := before[a].(status := after[a].status)]
              && (h.Check? && h.answer == Errored ==> after == before)
            else
              after == before
              || ((h.InitiatePayout? || h.Deposit?) && |after| == |before| + 1
                  && after[..|before|] == before && after[|before|].createdAt == h.now)
  {
    hide Conclude;
    match h
    case InitiatePayout(provider, reference, debit, now, answer, call) =>
      var begun := st.(attempts := st.attempts + [Attempt(Outbound, provider, reference, debit, now, Pending)]);
      ConcludeShape(tenant, begun, |st.attempts|, OnInitiating(answer), call);
    case OutboundOutcome(provider, reference, success, call) =>
      var found := FindAttempt(st.attempts, provider, reference);
      if found.Some? {
        ConcludeShape(tenant, st, found.value, if success then Accept else GiveBack, call);
      }
    case Check(other, answer, refundDue, call) =>
      if Open(st.attempts, other) {
        ConcludeShape(tenant, st, other, OnPolling(answer, refundDue), call);
      }
    case Deposit(_, _, _) =>
    case LedgerTraffic(_) =>
  }

  lemma {:induction false} TerminalStep(tenant: string, st: State, h: Handler, a: nat)
    requires a < |st.attempts| && st.attempts[a].status != Pending
    ensures a < |Handle(tenant, st, h).attempts| && Handle(tenant, st, h).attempts[a] == st.attempts[a]
  {
    hide Handle;
    HandleShape(tenant, st, h);
  }

  /** When handlers run one at a time, resolved and failed are terminal. */
  lemma {:induction false} TerminalStays(tenant: string, st: State, handlers: seq<Handler>, a: nat)
    requires a < |st.attempts| && st.attempts[a].status != Pending
    ensures a < |HandleAll(tenant, st, handlers).attempts|
    ensures HandleAll(tenant, st, handlers).attempts[a] == st.attempts[a]
  {
    hide Handle;
    if handlers != [] {
      TerminalStays(tenant, st, handlers[..|handlers| - 1], a);
      TerminalStep(tenant, HandleAll(tenant, st, handlers[..|handlers| - 1]), handlers[|handlers| - 1], a);
    }
  }
}
