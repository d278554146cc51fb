/** Concrete checkouts and payouts in which stale and shared readings do their harm. */
module PaymentWitnesses {
  import opened Domain
  import opened Ledger
  import opened Network
  import opened Witnesses
  import LedgerRuns
  import W = Wallet
  import Q = LoanClosing
  import K = Checkout
  import P = Payments
  import S = Settlement
  import F = Refunds

  // ---- A cancel that read the session before it was paid ----

  const SESSION := K.Session("s1", "ref", ADA, 100, 0, 1, 0)

  function Opened(): K.State {
    K.State(K.Pending, [], Books(ROWS, [], []), [])
  }

  /** The customer's payment is credited in full, the merchant's delivery is queued, and the session ends cancelled. */
  lemma {:induction false} PaidEndsCancelled()
    ensures var events := [K.BeginCompletion, K.BeginCancel, K.CallLedger(0, Answered), K.Settle(0, Answered)];
            var after := K.HappenAll(SESSION, Opened(), events + [K.WriteCancel(1)]);
            && K.HappenAll(SESSION, Opened(), events).status == K.Paid
            && after.status == K.Cancelled && after.deliveries == [K.COMPLETED]
            && K.Credit(SESSION, after.books) == 100
  {
    hide K.HappenAll;
    DepositDone();
    K.StaleCancelOverwritesPaid(SESSION, Opened());
  }

  lemma {:induction false} DepositDone()
    ensures K.Fresh(SESSION, Opened()) && W.Apply(Opened().books, K.Deposit(SESSION)).1.Done?
  {
    hide Post;
    hide LineGuard;
    var b := Books(ROWS, [], []);
    Resolves(ROWS);
    OpenGuards(b, 100);
    W.MoveAccepted(b, "deposit", 0, 1, 100, W.Slip("ref", K.KeyOf(SESSION), "Checkout payment " + SESSION.reference));
  }

  // ---- Two payouts ----

  const TENANT := "t"
  const FIRST := W.Slip("p1", "p1", "Payout")
  const SECOND := W.Slip("p2", "p2", "Payout")
  const REVERSAL := P.Call(Answered, "dispute", [])

  /** The customer's wallet holds 200, of which two payouts have taken 60 each. */
  function Withdrawn(): Books {
    Taken(Taken(CardHolder(200).books, FIRST), SECOND)
  }

  function Taken(b: Books, slip: W.Slip): Books {
    Post(b, W.Move("withdrawal", 1, 0, 60, slip)).0
  }

  /** Taking 60 adds one entry of two lines, from the wallet to the float. */
  lemma {:induction false} TakenHolds(b: Books, slip: W.Slip)
    requires b.accounts == ROWS && 60 <= Balance(b, 1)
    requires FindKey(b.journal, slip.key).None? && !ReferenceUsed(b.journal, slip.reference)
    ensures var after := Taken(b, slip);
            && after.accounts == ROWS && Balance(after, 1) == Balance(b, 1) - 60
            && |after.journal| == |b.journal| + 1 && after.journal[..|b.journal|] == b.journal
            && var e := after.journal[|b.journal|];
               && e.key == slip.key && e.reference == slip.reference && e.reversalOf == None
               && |e.lines| == 2
               && e.lines[0].account == 1 && e.lines[0].direction == Debit && e.lines[0].amount == 60
               && e.lines[1].account == 0 && e.lines[1].direction == Credit && e.lines[1].amount == 60
  {
    assert LineGuard(b, LineInput(1, Debit, 60)).None? && LineGuard(b, LineInput(0, Credit, 60)).None?;
    hide Balance;
    hide LineGuard;
    W.MoveWellFormed("withdrawal", 1, 0, 60, slip);
    W.MoveAccepted(b, "withdrawal", 1, 0, 60, slip);
    W.MoveMovesMoney(b, "withdrawal", 1, 0, 60, slip, 1);
  }

  /** `e` is a payout's debit of 60. */
  predicate IsDebit(e: Entry, key: string) {
    && e.key == key && e.reference == key && e.reversalOf == None
    && |e.lines| == 2
    && e.lines[0].account == 1 && e.lines[0].direction == Debit && e.lines[0].amount == 60
    && e.lines[1].account == 0 && e.lines[1].direction == Credit && e.lines[1].amount == 60
  }

  lemma {:induction false} WithdrawnHolds()
    ensures var b := Withdrawn();
            && b.accounts == ROWS && |b.journal| == 3 && Balance(b, 1) == 80
            && b.journal[0].key == "d" && b.journal[0].reference == "d" && b.journal[0].reversalOf == None
            && IsDebit(b.journal[1], "p1") && IsDebit(b.journal[2], "p2")
  {
    hide Balance;
    hide CardHolder;
    hide Taken;
    CardHolderHolds(200);
    DepositUnlinked();
    var b := CardHolder(200).books;
    TakenHolds(b, FIRST);
    TakenHolds(Taken(b, FIRST), SECOND);
  }

  lemma {:induction false} DepositUnlinked()
    requires |CardHolder(200).books.journal| == 1
    ensures CardHolder(200).books.journal[0].reversalOf == None
  {
    hide GuardError;
    hide LinesError;
  }

  /** A payout whose refund's key is free gets its 60 back. */
  lemma {:induction false} RefundLands(b: Books, debit: nat, reference: string)
    requires b.accounts == ROWS && debit < |b.journal| && IsDebit(b.journal[debit], b.journal[debit].key)
    requires !HasReversal(b.journal, debit) && !ReferenceUsed(b.journal, b.journal[debit].reference + "-REV")
    requires FindKey(b.journal, P.RefundKey(TENANT, reference)).None?
    ensures var (after, seen) := P.Refund(TENANT, b, debit, reference, REVERSAL);
            && seen && after.accounts == ROWS && HasReversal(after.journal, debit)
            && |after.journal| == |b.journal| + 1 && after.journal[..|b.journal|] == b.journal
            && after.journal[|b.journal|].reversalOf == Some(debit)
            && after.journal[|b.journal|].key == P.RefundKey(TENANT, reference)
  {
    hide Balance;
    hide Reverse;
    hide P.RefundKey;
    var key := P.RefundKey(TENANT, reference);
    Q.ReversalLands(b, 0, debit, key, []);
    var after := P.Refund(TENANT, b, debit, reference, REVERSAL).0;
    P.RefundShape(TENANT, b, debit, reference, REVERSAL);
    FloatMoved(b, after);
    assert after.journal[|b.journal|].reversalOf == Some(debit);
    var request := ReverseRequest(ReverseInput(debit, "dispute", key), []);
    LedgerRuns.StepShape(b, request);
    assert Step(b, request) == Reverse(b, ReverseInput(debit, "dispute", key), []);
  }

  lemma {:induction false} FloatMoved(b: Books, after: Books)
    requires 0 < |b.accounts| && after.accounts == b.accounts && Balance(after, 0) != Balance(b, 0)
    ensures after.journal != b.journal
  {
  }

  // ---- One reference with two providers ----

  /** The first payout failed and was given back under the reference's key. */
  function FirstFailed(): P.State {
    S.Handle(TENANT, P.State([], Withdrawn(), {}, []), S.InitiatePayout("a", "r", Some(1), 0, P.Errored, REVERSAL))
  }

  lemma {:induction false} FirstIsRefunded()
    ensures var st := FirstFailed();
            && st.attempts == [P.Attempt(P.Outbound, "a", "r", Some(1), 0, P.Failed)] && st.logged == {}
            && FindKey(st.books.journal, P.RefundKey(TENANT, "r")).Some?
            && HasReversal(st.books.journal, 1) && !HasReversal(st.books.journal, 2)
  {
    hide Withdrawn;
    hide P.Refund;
    hide P.RefundKey;
    WithdrawnHolds();
    FreeRefund();
    RefundLands(Withdrawn(), 1, "r");
    var row := P.Attempt(P.Outbound, "a", "r", Some(1), 0, P.Pending);
    var journal := P.Refund(TENANT, Withdrawn(), 1, "r", REVERSAL).0.journal;
    assert [] + [row] == [row];
    assert FirstFailed().books.journal == journal;
    assert journal[3].key == P.RefundKey(TENANT, "r");
  }

  lemma {:induction false} FreeRefund()
    ensures var b := Withdrawn();
            && |b.journal| == 3 && FindKey(b.journal, P.RefundKey(TENANT, "r")).None?
            && !ReferenceUsed(b.journal, b.journal[1].reference + "-REV")
            && !HasReversal(b.journal, 1) && !HasReversal(b.journal, 2)
  {
    hide Withdrawn;
    WithdrawnHolds();
    assert |P.RefundKey(TENANT, "r")| == 11 && |"p1" + "-REV"| == 6;
  }

  /** The second provider's payout under the same reference fails, keeps its 60, and nothing is logged. */
  lemma {:induction false} SecondIsStranded()
    ensures var after := S.Handle(TENANT, FirstFailed(), S.InitiatePayout("b", "r", Some(2), 0, P.Errored, REVERSAL));
            && P.Standing(after, 1, P.Failed) && after.logged == {}
            && HasReversal(FirstFailed().books.journal, 1) && !HasReversal(after.books.journal, 2)
  {
    hide FirstFailed;
    hide S.Handle;
    FirstIsRefunded();
    F.SharedReferenceStrandsRefund(TENANT, FirstFailed(), "b", "r", 2, 0, REVERSAL);
  }

  // ---- A poll older than the failure webhook ----

  /** The payout ends resolved, and given back. */
  lemma {:induction false} ResolvedAndRefunded()
    ensures var st := P.State([P.Attempt(P.Outbound, "a", "r", Some(1), 0, P.Pending)], Withdrawn(), {}, []);
            var failing := [P.BeginPoll(0), P.Webhook("a", "r", false), P.CallLedger(1, REVERSAL), P.Write(1)];
            var after := P.HappenAll(TENANT, P.HappenAll(TENANT, st, failing), [P.Hear(0, P.Completed, false), P.Write(0)]);
            && P.Standing(after, 0, P.Resolved) && HasReversal(after.books.journal, 1)
  {
    hide Withdrawn;
    hide P.HappenAll;
    hide P.Refund;
    hide P.RefundKey;
    WithdrawnHolds();
    FreeRefund();
    RefundLands(Withdrawn(), 1, "r");
    var st := P.State([P.Attempt(P.Outbound, "a", "r", Some(1), 0, P.Pending)], Withdrawn(), {}, []);
    F.StalePollResolvesRefunded(TENANT, st, 0, REVERSAL);
  }
}
