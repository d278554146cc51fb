/**
 * What becomes of a checkout session: how one completion ends, that none is
 * stranded, and that retrying a failed one ends paid and credited once.
 */
module CheckoutOutcomes {
  import opened Sums
  import opened Network
  import opened Checkout
  import L = Ledger
  import LO = LedgerOutcomes
  import W = Wallet

  // ---- One handler ----

  /** The ledger's side of a completion: the deposit's books, and whether it succeeded. */
  function Deposited(s: Session, books: L.Books): (L.Books, bool) {
    var (after, outcome) := W.Apply(books, Deposit(s));
    (after, outcome.Done?)
  }

  /**
   * One completion with nobody in between: a pending session ends paid, with
   * its delivery queued, exactly when the deposit was answered with success and
   * the commit happened, and is otherwise pending again; any other session is
   * left alone.
   */
  lemma {:induction false} CompletionOutcome(s: Session, st: State, transport: Transport, commit: Transport)
    requires st.callers == []
    ensures var (books, done) := Deposited(s, st.books);
            var paid := transport == Answered && done && commit != NotSent;
            Complete(s, st, transport, commit)
            == if st.status != Pending then st
               else State(if paid then Paid else Pending,
                          if paid && COMPLETED !in st.deliveries then st.deliveries + [COMPLETED] else st.deliveries,
                          if transport == NotSent then st.books else books,
                          [])
  {
    hide W.Apply;
    FourEvents(s, st, BeginCompletion, CallLedger(0, transport), Settle(0, commit), Revert(0));
  }

  /** A whole completion, its caller gone at the end. */
  function Complete(s: Session, st: State, transport: Transport, commit: Transport): State {
    HappenAll(s, st, [BeginCompletion, CallLedger(0, transport), Settle(0, commit), Revert(0)]).(callers := [])
  }

  /** A cancel of a session not yet decided, and of no other; an expiry of a pending one past its time, and of no other. */
  lemma {:induction false} EndingOutcome(s: Session, st: State, now: int)
    requires st.callers == []
    ensures HappenAll(s, st, [BeginCancel, WriteCancel(0)]).status
            == if st.status == Pending || st.status == Processing then Cancelled else st.status
    ensures HappenAll(s, st, [BeginExpire(now), WriteExpire(0)]).status
            == if st.status == Pending && s.expiresAt < now then Expired else st.status
  {
    TwoEvents(s, st, BeginCancel, WriteCancel(0));
    TwoEvents(s, st, BeginExpire(now), WriteExpire(0));
  }

  /** What a completion deposits: the session's amount, from the float to the merchant's wallet, under a key of the session's own. */
  lemma {:induction false} DepositExactlyAmount(s: Session, books: L.Books)
    ensures var w, float := W.ByCustomer(books.accounts, s.merchant, "wallet"), W.ByNumber(books.accounts, "SYS-FLOAT");
            var slip := W.Slip(s.reference, "checkout:" + s.id, "Checkout payment " + s.reference);
            Deposited(s, books).0
            == if w.Some? && float.Some? && LO.Accepted(books, float.value, w.value, s.amountKobo, slip)
               then LO.Written(books, "deposit", float.value, w.value, s.amountKobo, slip) else books
  {
    LO.DepositExactly(books, s.merchant, s.amountKobo, W.Slip(s.reference, "checkout:" + s.id, "Checkout payment " + s.reference));
  }

  // ---- No session is stranded ----

  /** While the session is processing, some completion is in flight. */
  ghost predicate Attended(st: State) {
    st.status == Processing ==> exists i :: 0 <= i < |st.callers| && InFlight(st.callers[i])
  }

  lemma {:induction false} StepAttended(s: Session, st: State, e: Event)
    requires Attended(st) && Exclusive(st) && !e.Crash?
    ensures Attended(Happen(s, st, e))
  {
    hide W.Apply;
    hide L.Step;
    var after := Happen(s, st, e);
    if after.status == Processing {
      if e.BeginCompletion? && st.status == Pending {
        assert after.callers[|st.callers|] == Claimed;
      } else {
        var i :| 0 <= i < |st.callers| && InFlight(st.callers[i]);
        assert i < |after.callers| && InFlight(after.callers[i]);
      }
    }
  }

  /** Without a crash, every processing session has its completion in flight; only a crash can strand one. */
  lemma {:induction false} NeverStranded(s: Session, st: State, events: seq<Event>)
    requires Attended(st) && Exclusive(st)
    requires forall i :: 0 <= i < |events| ==> !events[i].Crash?
    ensures Attended(HappenAll(s, st, events)) && Exclusive(HappenAll(s, st, events))
  {
    hide Happen;
    if events != [] {
      var n := |events| - 1;
      NeverStranded(s, st, events[..n]);
      StepAttended(s, HappenAll(s, st, events[..n]), events[n]);
      ExclusiveKept(s, HappenAll(s, st, events[..n]), events[n]);
    }
  }

  /** A caller that fails puts a processing session back to pending. */
  lemma {:induction false} FailurePutsBack(s: Session, st: State, i: nat)
    requires i < |st.callers| && st.callers[i] == Failing
    ensures Happen(s, st, Revert(i)).status == if st.status == Processing then Pending else st.status
  {
  }

  // ---- Retrying ----

  datatype Try = Try(transport: Transport, commit: Transport)

  function CompleteAll(s: Session, st: State, tries: seq<Try>): State {
    if tries == [] then st
    else
      var last := tries[|tries| - 1];
      Complete(s, CompleteAll(s, st, tries[..|tries| - 1]), last.transport, last.commit)
  }

  lemma {:induction false} TriesEvidence(s: Session, st: State, tries: seq<Try>)
    requires Fresh(s, st)
    ensures var after := CompleteAll(s, st, tries);
            && after.callers == [] && Evidence(s, after)
            && (after.status == Pending || after.status == Paid)
            && (after.deliveries == [COMPLETED] <==> after.status == Paid)
  {
    hide Complete;
    hide CreditExact;
    hide HasEntry;
    hide W.Apply;
    if tries == [] {
      FreshEvidence(s, st);
    } else {
      var n := |tries| - 1;
      var before := CompleteAll(s, st, tries[..n]);
      TriesEvidence(s, st, tries[..n]);
      CompletionOutcome(s, before, tries[n].transport, tries[n].commit);
      DepositExact(s, before.books);
    }
  }

  lemma {:induction false} FreshEvidence(s: Session, st: State)
    requires Fresh(s, st)
    ensures Evidence(s, st)
  {
    NothingCredited(s, st.books.journal);
  }

  /** A deposit that is under the session's key already is answered with success every time. */
  lemma {:induction false} LandedIsDone(s: Session, books: L.Books)
    requires Resolved(s, books) && HasEntry(s, books) && 0 < s.amountKobo
    ensures Deposited(s, books) == (books, true)
  {
    W.MoveWellFormed("deposit", s.float, s.account, s.amountKobo,
                     W.Slip(s.reference, KeyOf(s), "Checkout payment " + s.reference));
  }

  /**
   * After any number of completions, however they went, the session is paid or
   * pending; if it is pending, one more that the ledger accepts or has accepted
   * before ends it paid, with one delivery, and credited exactly once.
   */
  lemma {:induction false} RetryEndsPaid(s: Session, st: State, tries: seq<Try>)
    requires Fresh(s, st) && 0 < s.amountKobo
    ensures var before := CompleteAll(s, st, tries);
            var after := Complete(s, before, Answered, Answered);
            && (before.status == Paid || before.status == Pending)
            && (before.status == Paid ==> after == before)
            && (Deposited(s, before.books).1 || HasEntry(s, before.books) || before.status == Paid ==>
                  after.status == Paid && after.deliveries == [COMPLETED] && Credit(s, after.books) == s.amountKobo)
  {
    hide Complete;
    hide W.Apply;
    var before := CompleteAll(s, st, tries);
    TriesEvidence(s, st, tries);
    CompletionOutcome(s, before, Answered, Answered);
    DepositExact(s, before.books);
    if HasEntry(s, before.books) {
      LandedIsDone(s, before.books);
    }
  }
}
