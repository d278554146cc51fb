/** The settlement service and its reconciliation job, doing what the specification functions say. */
module PaymentsService {
  import opened Network
  import opened Payments
  import opened Settlement
  import opened Reconciliation
  import D = Domain
  import L = Ledger

  /** What a reconciliation pass reports for a payout. */
  datatype Action = ActedResolved | ActedReversed | StillPending | Skipped | AutoRefunded

  datatype Report = Report(attempt: nat, action: Action)

  /** What checking one payout is reported as, before any refund for its age. */
  function Acted(answer: Answer): Action {
    match answer
    case Completed => ActedResolved
    case Declined => ActedReversed
    case InProgress => StillPending
    case Errored => Skipped
  }

  /** A payout still in progress past its deadline is refunded for its age. */
  function Reported(answer: Answer, overdue: bool): Action {
    if answer == InProgress && overdue then AutoRefunded else Acted(answer)
  }

  class PaymentsDesk {
    const tenant: string
    const ledger: L.LedgerStore
    var attempts: seq<Attempt>
    var logged: set<nat>

    constructor (tenant: string, ledger: L.LedgerStore)
      ensures this.tenant == tenant && this.ledger == ledger && attempts == [] && logged == {}
    {
      this.tenant, this.ledger, attempts, logged := tenant, ledger, [], {};
    }

    function View(): State
      reads this, ledger
    {
      State(attempts, ledger.View(), logged, [])
    }

    method MarkFailed(a: nat)
      requires a < |attempts|
      modifies this`attempts
      ensures attempts == Marked(old(attempts), a, Failed)
    {
      attempts := attempts[a := attempts[a].(status := Failed)];
    }

    method ReverseAndFail(a: nat, call: Call)
      requires a < |attempts|
      modifies this`attempts, this`logged, ledger
      ensures View() == Settlement.ReverseAndFail(tenant, old(View()), a, call)
    {
      if attempts[a].debit.Some? {
        if call.transport == NotSent {
          logged := logged + {a};
        } else {
          var input := L.ReverseInput(attempts[a].debit.value, call.reason, RefundKey(tenant, attempts[a].reference));
          var reply := ledger.ReverseJournalEntry(input, call.loaded);
          if call.transport != Answered || !reply.Posted? {
            logged := logged + {a};
          }
        }
      }
      MarkFailed(a);
    }

    method InitiatePayout(provider: string, reference: string, debit: D.Option<nat>, now: int, answer: Answer, call: Call)
        returns (attempt: nat, failed: bool)
      modifies this`attempts, this`logged, ledger
      ensures View() == Handle(tenant, old(View()), Settlement.InitiatePayout(provider, reference, debit, now, answer, call))
      ensures attempt < |attempts| && attempts[attempt].provider == provider && attempts[attempt].reference == reference
      ensures failed <==> FindAttempt(old(attempts), provider, reference).None? && answer == Errored
      ensures failed ==> attempts[attempt].status == Failed
    {
      var existing := FindAttempt(attempts, provider, reference);
      if existing.Some? {
        return existing.value, false;
      }
      attempt, failed := |attempts|, false;
      attempts := attempts + [Attempt(Outbound, provider, reference, debit, now, Pending)];
      match answer
      case Errored =>
        ReverseAndFail(attempt, call);
        failed := true;
      case Completed =>
        attempts := attempts[attempt := attempts[attempt].(status := Resolved)];
      case InProgress =>
      case Declined =>
    }

    method HandleOutboundOutcome(provider: string, reference: string, success: bool, call: Call)
        returns (handled: bool, reversed: bool)
      modifies this`attempts, this`logged, ledger
      ensures View() == Handle(tenant, old(View()), OutboundOutcome(provider, reference, success, call))
      ensures handled <==> exists a :: 0 <= a < |old(attempts)| && FindAttempt(old(attempts), provider, reference) == D.Some(a)
                                       && old(attempts)[a].way == Outbound
      ensures reversed <==> exists a :: 0 <= a < |old(attempts)| && FindAttempt(old(attempts), provider, reference) == D.Some(a)
                                        && Open(old(attempts), a) && !success
    {
      var found := FindAttempt(attempts, provider, reference);
      if found.None? || attempts[found.value].way != Outbound {
        return false, false;
      }
      if attempts[found.value].status != Pending {
        return true, false;
      }
      var action := ApplyOutboundOutcome(found.value, if success then Completed else Declined, call);
      return true, action == ActedReversed;
    }

    /** Both a webhook and a poll end here. */
    method ApplyOutboundOutcome(a: nat, outcome: Answer, call: Call) returns (action: Action)
      requires a < |attempts| && outcome != Errored
      modifies this`attempts, this`logged, ledger
      ensures View() == Conclude(tenant, old(View()), a, OnPolling(outcome, false), call)
      ensures action == if outcome == Completed then ActedResolved else if outcome == Declined then ActedReversed else StillPending
    {
      if outcome == Completed {
        attempts := attempts[a := attempts[a].(status := Resolved)];
        return ActedResolved;
      }
      if outcome == Declined {
        ReverseAndFail(a, call);
        return ActedReversed;
      }
      return StillPending;
    }

    method ReconcileOutboundAttempt(a: nat, answer: Answer, call: Call) returns (action: Action)
      requires a < |attempts|
      modifies this`attempts, this`logged, ledger
      ensures View() == Conclude(tenant, old(View()), a, OnPolling(answer, false), call)
      ensures action == Acted(answer)
    {
      if answer == Errored {
        return Skipped;
      }
      action := ApplyOutboundOutcome(a, answer, call);
    }

    /** One pass: polls every stale pending payout and refunds those past the deadline. */
    method ReconcileTenant(config: Config, now: int, world: World) returns (reports: seq<Report>)
      modifies this`attempts, this`logged, ledger
      ensures View() == Pass(tenant, config, old(View()), now, world)
      ensures |reports| == |Selected(config, old(attempts), now, |old(attempts)|)|
      ensures forall i :: 0 <= i < |reports| ==>
                && reports[i].attempt == Selected(config, old(attempts), now, |old(attempts)|)[i]
                && reports[i].action == Reported(world.answer(reports[i].attempt), RefundDue(config, old(attempts)[reports[i].attempt], now))
    {
      hide Handle;
      hide Conclude;
      hide Settlement.ReverseAndFail;
      hide Selected;
      hide RefundDue;
      hide CheckOf;
      hide Reported;
      ghost var start := View();
      var rows := attempts;
      var pending := Selected(config, attempts, now, |attempts|);
      assert pending[..0] == [];
      reports := [];
      for i := 0 to |pending|
        invariant rows == start.attempts && pending == Selected(config, rows, now, |rows|)
        invariant View() == Checked(tenant, config, start, pending[..i], now, world)
        invariant |reports| == i
        invariant forall k :: 0 <= k < i ==>
                    && reports[k].attempt == pending[k]
                    && reports[k].action == Reported(world.answer(pending[k]), RefundDue(config, rows[pending[k]], now))
      {
        var a := pending[i];
        CheckedPointwise(tenant, config, start, pending[..i], now, world, a);
        assert pending[..i + 1][..i] == pending[..i];
        assert Open(rows, a);
        ghost var before := View();
        var action := ReconcileOutboundAttempt(a, world.answer(a), world.call(a));
        if action == StillPending && RefundDue(config, rows[a], now) {
          WaitIsNothing(tenant, before, a, world.call(a));
          ReverseAndFail(a, world.call(a));
          action := AutoRefunded;
        }
        CheckConcludes(tenant, config, before, a, rows[a], now, world);
        ReportedAs(world.answer(a), RefundDue(config, rows[a], now));
        reports := reports + [Report(a, action)];
      }
      assert pending[..|pending|] == pending;
    }
  }

  lemma {:induction false} ReportedAs(answer: Answer, overdue: bool)
    ensures Reported(answer, overdue) == if Acted(answer) == StillPending && overdue then AutoRefunded else Acted(answer)
  {
  }

  lemma {:induction false} WaitIsNothing(tenant: string, st: State, a: nat, call: Call)
    requires a < |st.attempts|
    ensures Conclude(tenant, st, a, Wait, call) == st
  {
  }

  /** Polling and then refunding what is still pending past its deadline is the one check of the specification. */
  lemma {:induction false} CheckConcludes(tenant: string, config: Config, st: State, a: nat, row: Attempt, now: int, world: World)
    requires Open(st.attempts, a)
    ensures Handle(tenant, st, CheckOf(config, a, row, now, world))
            == if world.answer(a) == InProgress && RefundDue(config, row, now)
               then Settlement.ReverseAndFail(tenant, st, a, world.call(a))
               else Conclude(tenant, st, a, OnPolling(world.answer(a), false), world.call(a))
  {
    hide Refund;
  }
}
