/**
 * The reconciliation pass (services/payments/src/services/
 * reconciliationService.js): stale payouts are polled, and refunded once past
 * the resolution deadline. Times are in milliseconds, the settings in minutes.
 */
module Reconciliation {
  import opened Payments
  import opened Settlement

  const MINUTE := 60_000

  datatype Config = Config(staleMinutes: int, autoRefundMinutes: int) {

    /** The age past which a payout is both stale and due for refund. */
    function Deadline(): int {
      MINUTE * if staleMinutes < autoRefundMinutes then autoRefundMinutes else staleMinutes
    }
  }

  /** What one pass hears: the provider's answer for each payout, and how each reversal call goes. */
  datatype World = World(answer: nat -> Answer, call: nat -> Call)

  predicate Stale(config: Config, a: Attempt, now: int) {
    a.createdAt < now - config.staleMinutes * MINUTE
  }

  predicate RefundDue(config: Config, a: Attempt, now: int) {
    config.autoRefundMinutes * MINUTE <= now - a.createdAt
  }

  /** The stale pending payouts among the first `n` attempts, in order. */
  function Selected(config: Config, attempts: seq<Attempt>, now: int, n: nat): (ids: seq<nat>)
    requires n <= |attempts|
    ensures forall a :: a in ids <==> 0 <= a < n && Open(attempts, a) && Stale(config, attempts[a], now)
    ensures forall i :: 0 <= i < |ids| ==> Open(attempts, ids[i])
    ensures forall i, k :: 0 <= i < k < |ids| ==> ids[i] != ids[k]
  {
    if n == 0 then []
    else
      var earlier := Selected(config, attempts, now, n - 1);
      if Open(attempts, n - 1) && Stale(config, attempts[n - 1], now) then earlier + [n - 1] else earlier
  }

  function CheckOf(config: Config, a: nat, attempt: Attempt, now: int, world: World): Handler {
    Check(a, world.answer(a), RefundDue(config, attempt, now), world.call(a))
  }

  /** Checks the listed payouts one after another. */
  function Checked(tenant: string, config: Config, st: State, ids: seq<nat>, now: int, world: World): (after: State)
    requires forall i :: 0 <= i < |ids| ==> Open(st.attempts, ids[i])
    ensures |after.attempts| == |st.attempts|
  {
    if ids == [] then st
    else
      var last := ids[|ids| - 1];
      assert Open(st.attempts, last);
      var before := Checked(tenant, config, st, ids[..|ids| - 1], now, world);
      Handle(tenant, before, CheckOf(config, last, st.attempts[last], now, world))
  }

  function Pass(tenant: string, config: Config, st: State, now: int, world: World): State {
    Checked(tenant, config, st, Selected(config, st.attempts, now, |st.attempts|), now, world)
  }

  // ---- What a pass does to each payout ----

  function StatusAfter(answer: Answer, refundDue: bool): Status {
    match OnPolling(answer, refundDue)
    case Accept => Resolved
    case GiveBack => Failed
    case Wait => Pending
  }

  lemma {:induction false} CheckShape(tenant: string, config: Config, st: State, a: nat, attempt: Attempt, now: int, world: World)
    requires Open(st.attempts, a)
    ensures Handle(tenant, st, CheckOf(config, a, attempt, now, world)).attempts
            == Marked(st.attempts, a, StatusAfter(world.answer(a), RefundDue(config, attempt, now)))
  {
    hide Conclude;
    ConcludeShape(tenant, st, a, OnPolling(world.answer(a), RefundDue(config, attempt, now)), world.call(a));
  }

  lemma {:induction false} CheckedPointwise(tenant: string, config: Config, st: State, ids: seq<nat>, now: int, world: World, a: nat)
    requires forall i :: 0 <= i < |ids| ==> Open(st.attempts, ids[i])
    requires forall i, k :: 0 <= i < k < |ids| ==> ids[i] != ids[k]
    requires a < |st.attempts|
    ensures Checked(tenant, config, st, ids, now, world).attempts[a]
            == if a in ids then st.attempts[a].(status := StatusAfter(world.answer(a), RefundDue(config, st.attempts[a], now)))
               else st.attempts[a]
  {
    hide Handle;
    if ids != [] {
      var last, init := ids[|ids| - 1], ids[..|ids| - 1];
      CheckedPointwise(tenant, config, st, init, now, world, a);
      CheckedPointwise(tenant, config, st, init, now, world, last);
      var before := Checked(tenant, config, st, init, now, world);
      assert last !in init;
      CheckShape(tenant, config, before, last, st.attempts[last], now, world);
    }
  }

  /**
   * A pass decides every payout independently of the others: one that is
   * pending and stale takes the outcome its provider's answer and its age
   * dictate, and every other row is left exactly as it was.
   */
  lemma {:induction false} PassPointwise(tenant: string, config: Config, st: State, now: int, world: World, a: nat)
    requires a < |st.attempts|
    ensures Pass(tenant, config, st, now, world).attempts[a]
            == if Open(st.attempts, a) && Stale(config, st.attempts[a], now)
               then st.attempts[a].(status := StatusAfter(world.answer(a), RefundDue(config, st.attempts[a], now)))
               else st.attempts[a]
  {
    hide Checked;
    CheckedPointwise(tenant, config, st, Selected(config, st.attempts, now, |st.attempts|), now, world, a);
  }

  /** A pass cut short by an error has decided the payouts it reached as a whole pass would, and touched no other row. */
  lemma {:induction false} CutShortPointwise(tenant: string, config: Config, st: State, now: int, world: World, n: nat, a: nat)
    requires a < |st.attempts| && n <= |Selected(config, st.attempts, now, |st.attempts|)|
    ensures var reached := Selected(config, st.attempts, now, |st.attempts|)[..n];
            Checked(tenant, config, st, reached, now, world).attempts[a]
            == if a in reached then Pass(tenant, config, st, now, world).attempts[a] else st.attempts[a]
  {
    hide Checked;
    var selected := Selected(config, st.attempts, now, |st.attempts|);
    CheckedPointwise(tenant, config, st, selected[..n], now, world, a);
    CheckedPointwise(tenant, config, st, selected, now, world, a);
  }

  /** A pending payout stays pending exactly when it is not yet stale, its provider errs, or it is in progress before its deadline. */
  lemma {:induction false} StillPendingExactly(tenant: string, config: Config, st: State, now: int, world: World, a: nat)
    requires Open(st.attempts, a)
    ensures Pass(tenant, config, st, now, world).attempts[a].status == Pending
            <==> || !Stale(config, st.attempts[a], now)
                 || world.answer(a) == Errored
                 || (world.answer(a) == InProgress && !RefundDue(config, st.attempts[a], now))
  {
    hide Pass;
    PassPointwise(tenant, config, st, now, world, a);
  }

  // ---- Time ----

  /** One thing happening at one time: a whole pass, or any other handler. */
  datatype Moment =
    | PassAt(at: int, world: World)
    | HandledAt(at: int, handler: Handler)

  function Act(tenant: string, config: Config, st: State, m: Moment): State {
    match m
    case PassAt(at, world) => Pass(tenant, config, st, at, world)
    case HandledAt(_, handler) => Handle(tenant, st, handler)
  }

  function ActAll(tenant: string, config: Config, st: State, moments: seq<Moment>): State {
    if |moments| == 0 then st
    else Act(tenant, config, ActAll(tenant, config, st, moments[..|moments| - 1]), moments[|moments| - 1])
  }

  /** The clock only moves forward, and new rows carry the time they are written. */
  ghost predicate Timely(moments: seq<Moment>) {
    && (forall i, k :: 0 <= i < k < |moments| ==> moments[i].at <= moments[k].at)
    && (forall i :: 0 <= i < |moments| && moments[i].HandledAt? ==>
          && (moments[i].handler.InitiatePayout? ==> moments[i].handler.now == moments[i].at)
          && (moments[i].handler.Deposit? ==> moments[i].handler.now == moments[i].at))
  }

  /** Rows are only added, with the time of the moment, and only their status ever changes. */
  lemma {:induction false} ActRows(tenant: string, config: Config, st: State, m: Moment, a: nat)
    requires Timely([m]) && a < |Act(tenant, config, st, m).attempts|
    ensures |st.attempts| <= |Act(tenant, config, st, m).attempts|
    ensures var row := Act(tenant, config, st, m).attempts[a];
            if a < |st.attempts| then row == st.attempts[a].(status := row.status) else row.createdAt == m.at
  {
    hide Handle;
    hide Checked;
    assert [m][0] == m;
    match m
    case PassAt(at, world) => PassPointwise(tenant, config, st, at, world, a);
    case HandledAt(_, handler) => HandleShape(tenant, st, handler);
  }

  lemma {:induction false} ActTerminal(tenant: string, config: Config, st: State, m: Moment, a: nat)
    requires a < |st.attempts| && st.attempts[a].status != Pending
    ensures a < |Act(tenant, config, st, m).attempts| && Act(tenant, config, st, m).attempts[a] == st.attempts[a]
  {
    hide Handle;
    hide Checked;
    match m
    case PassAt(at, world) => PassPointwise(tenant, config, st, at, world, a);
    case HandledAt(_, handler) => TerminalStep(tenant, st, handler, a);
  }

  lemma {:induction false} TimelyPrefix(moments: seq<Moment>, k: nat)
    requires Timely(moments) && k < |moments|
    ensures Timely(moments[..k]) && Timely([moments[k]])
  {
  }

  /** A row present at the end was either there before moment `k`, or is no older than it. */
  lemma {:induction false} RowsInOrder(tenant: string, config: Config, st: State, moments: seq<Moment>, k: nat, a: nat)
    requires Timely(moments) && k < |moments|
    requires a < |ActAll(tenant, config, st, moments).attempts|
    ensures var early, row := ActAll(tenant, config, st, moments[..k]), ActAll(tenant, config, st, moments).attempts[a];
            if a < |early.attempts| then row == early.attempts[a].(status := row.status) else moments[k].at <= row.createdAt
    decreases |moments|
  {
    hide Act;
    var last := |moments| - 1;
    var init := moments[..last];
    TimelyPrefix(moments, last);
    ActRows(tenant, config, ActAll(tenant, config, st, init), moments[last], a);
    if k < last {
      assert init[..k] == moments[..k];
      if a < |ActAll(tenant, config, st, init).attempts| {
        RowsInOrder(tenant, config, st, init, k, a);
      } else {
        RowsGrow(tenant, config, st, init, k);
      }
    }
  }

  lemma {:induction false} RowsGrow(tenant: string, config: Config, st: State, moments: seq<Moment>, k: nat)
    requires Timely(moments) && k <= |moments|
    ensures |ActAll(tenant, config, st, moments[..k]).attempts| <= |ActAll(tenant, config, st, moments).attempts|
    decreases |moments|
  {
    hide Act;
    var last := |moments| - 1;
    if k == |moments| {
      assert moments[..k] == moments;
    } else {
      var init := moments[..last];
      TimelyPrefix(moments, last);
      assert init[..k] == moments[..k];
      RowsGrow(tenant, config, st, init, k);
      var before := ActAll(tenant, config, st, init);
      ActGrows(tenant, config, before, moments[last]);
    }
  }

  lemma {:induction false} ActGrows(tenant: string, config: Config, st: State, m: Moment)
    requires Timely([m])
    ensures |st.attempts| <= |Act(tenant, config, st, m).attempts|
  {
    hide Handle;
    if m.HandledAt? {
      HandleShape(tenant, st, m.handler);
    }
  }

  lemma {:induction false} TerminalFrom(tenant: string, config: Config, st: State, moments: seq<Moment>, k: nat, a: nat)
    requires k <= |moments|
    requires a < |ActAll(tenant, config, st, moments[..k]).attempts|
    requires ActAll(tenant, config, st, moments[..k]).attempts[a].status != Pending
    ensures a < |ActAll(tenant, config, st, moments).attempts|
    ensures ActAll(tenant, config, st, moments).attempts[a] == ActAll(tenant, config, st, moments[..k]).attempts[a]
    decreases |moments|
  {
    hide Act;
    if k == |moments| {
      assert moments[..k] == moments;
    } else {
      var init := moments[..|moments| - 1];
      assert init[..k] == moments[..k];
      TerminalFrom(tenant, config, st, init, k, a);
      ActTerminal(tenant, config, ActAll(tenant, config, st, init), moments[|moments| - 1], a);
    }
  }

  /** In every stretch of length `gap` between `since` and `until`, some pass runs. */
  ghost predicate PassesWithin(moments: seq<Moment>, gap: int, since: int, until: int) {
    forall t :: since <= t && t + gap <= until ==> PassIn(moments, t, gap)
  }

  ghost predicate PassIn(moments: seq<Moment>, start: int, gap: int) {
    exists k :: 0 <= k < |moments| && moments[k].PassAt? && start <= moments[k].at <= start + gap
  }

  /**
   * If passes are never more than `gap` apart and the provider never errs when
   * polled about payout `a`, the payout is no longer pending once it is older
   * than its deadline plus `gap`, whatever else ran.
   */
  lemma {:induction false} SettledInTime(tenant: string, config: Config, st: State, moments: seq<Moment>, gap: int, until: int, a: nat)
    requires Timely(moments) && 0 <= gap
    requires a < |ActAll(tenant, config, st, moments).attempts|
    requires ActAll(tenant, config, st, moments).attempts[a].way == Outbound
    requires forall k :: 0 <= k < |moments| && moments[k].PassAt? ==> moments[k].world.answer(a) != Errored
    requires var created := ActAll(tenant, config, st, moments).attempts[a].createdAt;
             && created + config.Deadline() + gap < until
             && 0 <= config.Deadline()
             && PassesWithin(moments, gap, created + config.Deadline() + 1, until)
    ensures ActAll(tenant, config, st, moments).attempts[a].status != Pending
  {
    hide Act;
    var row := ActAll(tenant, config, st, moments).attempts[a];
    assert PassIn(moments, until - gap, gap);
    var k :| 0 <= k < |moments| && moments[k].PassAt? && until - gap <= moments[k].at <= until;
    RowsInOrder(tenant, config, st, moments, k, a);
    var early := ActAll(tenant, config, st, moments[..k]);
    assert moments[..k + 1][..k] == moments[..k];
    var passed := ActAll(tenant, config, st, moments[..k + 1]);
    assert passed == Act(tenant, config, early, moments[k]);
    PassSettles(tenant, config, early, moments[k], a);
    TerminalFrom(tenant, config, st, moments, k + 1, a);
  }

  /** A pass that hears about a payout past its deadline leaves it settled. */
  lemma {:induction false} PassSettles(tenant: string, config: Config, st: State, m: Moment, a: nat)
    requires a < |st.attempts| && st.attempts[a].way == Outbound && m.PassAt? && m.world.answer(a) != Errored
    requires st.attempts[a].createdAt + config.Deadline() < m.at
    ensures a < |Act(tenant, config, st, m).attempts| && Act(tenant, config, st, m).attempts[a].status != Pending
  {
    hide Checked;
    PassPointwise(tenant, config, st, m.at, m.world, a);
  }

  // ---- A provider that keeps failing to answer ----

  /** Nothing but polls that err concerns payout `a`. */
  ghost predicate OnlyErrors(st: State, m: Moment, a: nat)
    requires a < |st.attempts|
  {
    match m
    case PassAt(_, world) => world.answer(a) == Errored
    case HandledAt(_, h) =>
      match h
      case OutboundOutcome(provider, reference, _, _) =>
        provider != st.attempts[a].provider || reference != st.attempts[a].reference
      case Check(other, answer, _, _) => other != a || answer == Errored
      case InitiatePayout(_, _, _, _, _, _) => true
      case Deposit(_, _, _) => true
      case LedgerTraffic(_) => true
  }

  lemma {:induction false} ErrorsChangeNothing(tenant: string, config: Config, st: State, m: Moment, a: nat)
    requires Open(st.attempts, a) && OnlyErrors(st, m, a)
    ensures a < |Act(tenant, config, st, m).attempts| && Act(tenant, config, st, m).attempts[a] == st.attempts[a]
  {
    hide Handle;
    hide Checked;
    match m
    case PassAt(at, world) => PassPointwise(tenant, config, st, at, world, a);
    case HandledAt(_, handler) => HandleShape(tenant, st, handler);
  }

  /** However old it grows and however many passes run, a payout whose provider errs on every poll is never refunded. */
  lemma {:induction false} ErringProviderNeverRefunds(tenant: string, config: Config, st: State, moments: seq<Moment>, a: nat)
    requires Open(st.attempts, a)
    requires forall k :: 0 <= k < |moments| ==> OnlyErrors(st, moments[k], a)
    ensures a < |ActAll(tenant, config, st, moments).attempts|
    ensures ActAll(tenant, config, st, moments).attempts[a] == st.attempts[a]
  {
    hide Act;
    if |moments| != 0 {
      var last := |moments| - 1;
      ErringProviderNeverRefunds(tenant, config, st, moments[..last], a);
      ErrorsChangeNothing(tenant, config, ActAll(tenant, config, st, moments[..last]), moments[last], a);
    }
  }
}
