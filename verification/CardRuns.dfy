/**
 * Card settlements under full interleaving: each is an authorisation, a ledger
 * call and the writing of a row, any of which may come between another's.
 */
module CardRuns {
  import opened Sums
  import opened Network
  import opened Cards
  import opened CardLedger
  import D = Domain
  import L = Ledger
  import R = LedgerRuns
  import W = Wallet

  /** A settlement between two of its steps: approved, or charged and yet to be written down. */
  datatype Caller = Gone | Cleared(settlement: Settlement) | Charged(settlement: Settlement)

  datatype System = System(state: State, callers: seq<Caller>)

  datatype Move =
    | Begin(settlement: Settlement)
    | Call(caller: nat, transport: Transport)
    | WriteRow(caller: nat)
    | Crash(caller: nat)
    | Other(event: Event)

  function Goes(sys: System, i: nat, next: Caller): System
    requires i < |sys.callers|
  {
    sys.(callers := sys.callers[i := next])
  }

  predicate At(sys: System, i: nat, stage: Caller -> bool) {
    i < |sys.callers| && stage(sys.callers[i])
  }

  const IS_CLEARED: Caller -> bool := (c: Caller) => c.Cleared?
  const IS_CHARGED: Caller -> bool := (c: Caller) => c.Charged?

  /** A move that does not apply changes nothing. */
  function Step(sys: System, m: Move): System {
    match m
    case Begin(s) =>
      if !Authorize(sys.state, s.card, s.amount, s.now).Approved? then sys
      else sys.(callers := sys.callers + [Cleared(s)])
    case Call(i, transport) =>
      if !At(sys, i, IS_CLEARED) || |sys.state.cards| <= sys.callers[i].settlement.card then sys
      else
        var s := sys.callers[i].settlement;
        var heard := transport == Answered && TakeMoney(sys.state, s).1.Done?;
        Goes(sys.(state := Capture(sys.state, s, transport).(rows := sys.state.rows)), i, if heard then Charged(s) else Gone)
    case WriteRow(i) =>
      if !At(sys, i, IS_CHARGED) then sys
      else Goes(sys.(state := sys.state.(rows := Upsert(sys.state.rows, sys.callers[i].settlement))), i, Gone)
    case Crash(i) =>
      if |sys.callers| <= i then sys else Goes(sys, i, Gone)
    case Other(e) =>
      if e.Settle? then sys else sys.(state := Happen(sys.state, e))
  }

  function StepAll(sys: System, moves: seq<Move>): System {
    if moves == [] then sys else Step(StepAll(sys, moves[..|moves| - 1]), moves[|moves| - 1])
  }

  lemma {:induction false} LastMove(sys: System, moves: seq<Move>, m: Move)
    ensures StepAll(sys, moves + [m]) == Step(StepAll(sys, moves), m)
  {
    hide Step;
    assert (moves + [m])[..|moves|] == moves;
  }

  lemma {:induction false} MovesConcat(sys: System, first: seq<Move>, rest: seq<Move>)
    ensures StepAll(sys, first + rest) == StepAll(StepAll(sys, first), rest)
  {
    hide Step;
    if rest == [] {
      assert first + rest == first;
    } else {
      MovesConcat(sys, first, rest[..|rest| - 1]);
      assert (first + rest)[..|first + rest| - 1] == first + rest[..|rest| - 1];
    }
  }

  /** With nobody in between, settling is its three steps. */
  lemma {:induction false} SettleIsSchedule(st: State, s: Settlement, transport: Transport)
    ensures StepAll(System(st, []), [Begin(s), Call(0, transport), WriteRow(0)]).state == Happen(st, Settle(s, transport))
  {
    hide TakeMoney;
    hide Authorize;
    LastMove(System(st, []), [], Begin(s));
    LastMove(System(st, []), [Begin(s)], Call(0, transport));
    LastMove(System(st, []), [Begin(s), Call(0, transport)], WriteRow(0));
    assert [] + [Begin(s)] == [Begin(s)] && [Begin(s)] + [Call(0, transport)] == [Begin(s), Call(0, transport)];
    assert [Begin(s), Call(0, transport)] + [WriteRow(0)] == [Begin(s), Call(0, transport), WriteRow(0)];
    if Authorize(st, s.card, s.amount, s.now).Approved? {
      ApprovedIsCard(st, s);
      assert Step(System(st, []), Begin(s)) == System(st, [Cleared(s)]);
    }
  }

  // ---- How far overlapping settlements can pass the daily limit ----

  /** What a settlement in flight may still add to a card's rows of one day. */
  function Pending(card: nat, day: int): Caller -> int {
    (c: Caller) =>
      if c != Gone && c.settlement.card == card && DayOf(c.settlement.createdAt) == day && 0 < c.settlement.amount
      then c.settlement.amount else 0
  }

  function InFlight(sys: System, card: nat, day: int): int {
    Sum(sys.callers, Pending(card, day))
  }

  /** The settlement is about this card and day, and is approved. */
  predicate Approves(sys: System, m: Move, card: nat, day: int) {
    && m.Begin? && m.settlement.card == card && DayOf(m.settlement.createdAt) == day
    && Authorize(sys.state, card, m.settlement.amount, m.settlement.now).Approved?
  }

  function Larger(x: int, y: int): int {
    if x < y then y else x
  }

  /** The most that was in flight for a card and day when another settlement of theirs was approved. */
  function Overlap(sys: System, moves: seq<Move>, card: nat, day: int): int {
    if moves == [] then 0
    else
      var init := moves[..|moves| - 1];
      var before := StepAll(sys, init);
      var most := Overlap(sys, init, card, day);
      if Approves(before, moves[|moves| - 1], card, day) then Larger(most, InFlight(before, card, day)) else most
  }

  ghost predicate CallerWithin(st: State, c: Caller) {
    c != Gone ==>
      && c.settlement.card < |st.cards|
      && c.settlement.amount <= st.cards[c.settlement.card].singleLimit
      && (c.Charged? ==> 0 < c.settlement.amount)
  }

  ghost predicate CallersWithin(sys: System) {
    forall i :: 0 <= i < |sys.callers| ==> CallerWithin(sys.state, sys.callers[i])
  }

  /** A row is stamped no earlier than its limits were checked. */
  predicate StampedMove(m: Move) {
    m.Begin? ==> m.settlement.now <= m.settlement.createdAt
  }

  /** The day's rows and what is in flight stay within the limit and `overlap`. */
  ghost predicate Bounded(sys: System, card: nat, day: int, overlap: int) {
    && RowsWithin(sys.state) && CallersWithin(sys) && 0 <= overlap
    && (card < |sys.state.cards| ==>
          SpentOn(sys.state.rows, card, day) + InFlight(sys, card, day) <= Larger(0, sys.state.cards[card].dailyLimit) + overlap)
  }

  lemma {:induction false} InFlightPositive(sys: System, card: nat, day: int)
    ensures 0 <= InFlight(sys, card, day)
  {
    SumNonNegative(sys.callers, Pending(card, day));
  }

  lemma {:induction false} BeginBounded(sys: System, s: Settlement, card: nat, day: int, overlap: int)
    requires Bounded(sys, card, day, overlap) && s.now <= s.createdAt
    ensures var before := InFlight(sys, card, day);
            Bounded(Step(sys, Begin(s)), card, day, if Approves(sys, Begin(s), card, day) then Larger(overlap, before) else overlap)
  {
    hide SpentOn;
    hide DayOf;
    hide SumSettledToday;
    InFlightPositive(sys, card, day);
    if Authorize(sys.state, s.card, s.amount, s.now).Approved? {
      SumAppend(sys.callers, Cleared(s), Pending(card, day));
      assert CallerWithin(sys.state, Cleared(s));
      if s.card == card && DayOf(s.createdAt) == day {
        DayOrder(s.now, s.createdAt);
        DayBelowSince(sys.state, card, s.now, day);
      }
    }
  }

  lemma {:induction false} DayOrder(now: int, at: int)
    requires now <= at
    ensures DayOf(now) <= DayOf(at)
  {
  }

  /** A caller that leaves takes nothing more, and the one it becomes takes no more than it did. */
  lemma {:induction false} GoesBounded(sys: System, i: nat, next: Caller, st: State, card: nat, day: int, overlap: int)
    requires Bounded(sys, card, day, overlap) && i < |sys.callers|
    requires st.cards == sys.state.cards && st.rows == sys.state.rows
    requires CallerWithin(st, next) && (next == Gone || (sys.callers[i] != Gone && next.settlement == sys.callers[i].settlement))
    ensures Bounded(Goes(sys.(state := st), i, next), card, day, overlap)
  {
    hide SpentOn;
    hide DayOf;
    SumUpdate(sys.callers, i, next, Pending(card, day));
    var after := sys.callers[i := next];
    forall k | 0 <= k < |after| ensures CallerWithin(st, after[k]) {
      assert CallerWithin(sys.state, sys.callers[k]);
    }
  }

  lemma {:induction false} CallBounded(sys: System, i: nat, transport: Transport, card: nat, day: int, overlap: int)
    requires Bounded(sys, card, day, overlap)
    ensures Bounded(Step(sys, Call(i, transport)), card, day, overlap)
  {
    hide TakeMoney;
    hide Bounded;
    if At(sys, i, IS_CLEARED) && sys.callers[i].settlement.card < |sys.state.cards| {
      var s := sys.callers[i].settlement;
      var st := Capture(sys.state, s, transport).(rows := sys.state.rows);
      var next := if transport == Answered && TakeMoney(sys.state, s).1.Done? then Charged(s) else Gone;
      if next.Charged? {
        TakenIsPositive(sys.state, s);
        CallerAt(sys, i, card, day, overlap);
      }
      GoesBounded(sys, i, next, st, card, day, overlap);
    }
  }

  lemma {:induction false} CallerAt(sys: System, i: nat, card: nat, day: int, overlap: int)
    requires Bounded(sys, card, day, overlap) && i < |sys.callers|
    ensures CallerWithin(sys.state, sys.callers[i])
  {
  }

  /** Writing a row moves its amount from what is in flight to what is written. */
  lemma {:induction false} WriteBounded(sys: System, i: nat, card: nat, day: int, overlap: int)
    requires Bounded(sys, card, day, overlap)
    ensures Bounded(Step(sys, WriteRow(i)), card, day, overlap)
  {
    hide DayOf;
    hide HasRow;
    if At(sys, i, IS_CHARGED) {
      var s := sys.callers[i].settlement;
      assert CallerWithin(sys.state, sys.callers[i]);
      SumUpdate(sys.callers, i, Gone, Pending(card, day));
      SumAppend(sys.state.rows, Row(s.card, s.amount, s.slip.key, s.createdAt), SettledOn(card, day));
      var after := Step(sys, WriteRow(i));
      forall k | 0 <= k < |after.callers| ensures CallerWithin(after.state, after.callers[k]) {
        assert CallerWithin(sys.state, sys.callers[k]);
      }
    }
  }

  /** A card just issued has no rows and nothing in flight. */
  lemma {:induction false} IssueBounded(sys: System, e: Event, card: nat, day: int, overlap: int)
    requires Bounded(sys, card, day, overlap) && e.Issue?
    ensures Bounded(Step(sys, Other(e)), card, day, overlap)
  {
    hide DayOf;
    hide SpentOn;
    if card == |sys.state.cards| {
      SpentByNobody(sys.state, card, day, |sys.state.rows|);
      NobodyInFlight(sys, card, day, |sys.callers|);
    }
    var after := Step(sys, Other(e));
    forall k | 0 <= k < |after.callers| ensures CallerWithin(after.state, after.callers[k]) {
      assert CallerWithin(sys.state, sys.callers[k]);
    }
  }

  lemma {:induction false} NobodyInFlight(sys: System, card: nat, day: int, n: nat)
    requires CallersWithin(sys) && |sys.state.cards| <= card && n <= |sys.callers|
    ensures Sum(sys.callers[..n], Pending(card, day)) == 0
    ensures n == |sys.callers| ==> InFlight(sys, card, day) == 0
  {
    hide DayOf;
    assert sys.callers[..|sys.callers|] == sys.callers;
    if n != 0 {
      NobodyInFlight(sys, card, day, n - 1);
      assert sys.callers[..n][..n - 1] == sys.callers[..n - 1];
      assert CallerWithin(sys.state, sys.callers[n - 1]);
    }
  }

  lemma {:induction false} OtherBounded(sys: System, e: Event, card: nat, day: int, overlap: int)
    requires Bounded(sys, card, day, overlap)
    ensures Bounded(Step(sys, Other(e)), card, day, overlap)
  {
    hide SpentOn;
    hide L.Step;
    if e.Issue? {
      IssueBounded(sys, e, card, day, overlap);
    } else if !e.Settle? {
      var after := Step(sys, Other(e));
      forall k | 0 <= k < |after.callers| ensures CallerWithin(after.state, after.callers[k]) {
        assert CallerWithin(sys.state, sys.callers[k]);
      }
    }
  }

  lemma {:induction false} MoveBounded(sys: System, m: Move, card: nat, day: int, overlap: int)
    requires Bounded(sys, card, day, overlap) && StampedMove(m)
    ensures Bounded(Step(sys, m), card, day,
                    if Approves(sys, m, card, day) then Larger(overlap, InFlight(sys, card, day)) else overlap)
  {
    hide Bounded;
    hide InFlight;
    hide Authorize;
    match m
    case Begin(s) => BeginBounded(sys, s, card, day, overlap);
    case Call(i, transport) => CallBounded(sys, i, transport, card, day, overlap);
    case WriteRow(i) => WriteBounded(sys, i, card, day, overlap);
    case Crash(i) =>
      if i < |sys.callers| {
        GoesBounded(sys, i, Gone, sys.state, card, day, overlap);
      }
    case Other(e) => OtherBounded(sys, e, card, day, overlap);
  }

  ghost function Begun(books: L.Books): System {
    System(Opening(books), [])
  }

  /**
   * In every interleaving of settlements, crashes, lost answers and other
   * traffic, a card's rows of a UTC day pass its daily limit by no more than
   * was in flight for that card and day when another settlement was approved.
   */
  lemma {:induction false} OverlapBoundsExcess(books: L.Books, moves: seq<Move>, card: nat, day: int)
    requires forall i :: 0 <= i < |moves| ==> StampedMove(moves[i])
    ensures var sys := StepAll(Begun(books), moves);
            && Bounded(sys, card, day, Overlap(Begun(books), moves, card, day))
            && (card < |sys.state.cards| ==>
                  SpentOn(sys.state.rows, card, day)
                  <= Larger(0, sys.state.cards[card].dailyLimit) + Overlap(Begun(books), moves, card, day))
  {
    hide Step;
    hide Approves;
    if moves != [] {
      var init := moves[..|moves| - 1];
      OverlapBoundsExcess(books, init, card, day);
      MoveBounded(StepAll(Begun(books), init), moves[|moves| - 1], card, day, Overlap(Begun(books), init, card, day));
    }
    InFlightPositive(StepAll(Begun(books), moves), card, day);
  }

  /** So the limit holds on rows while no settlement is approved with another of its card and day in flight. */
  lemma {:induction false} NoOverlapNoExcess(books: L.Books, moves: seq<Move>, card: nat, day: int)
    requires forall i :: 0 <= i < |moves| ==> StampedMove(moves[i])
    requires forall i :: 0 <= i < |moves| ==>
               var before := StepAll(Begun(books), moves[..i]);
               Approves(before, moves[i], card, day) ==> InFlight(before, card, day) == 0
    requires card < |StepAll(Begun(books), moves).state.cards|
    ensures var st := StepAll(Begun(books), moves).state;
            SpentOn(st.rows, card, day) <= Larger(0, st.cards[card].dailyLimit)
  {
    OverlapBoundsExcess(books, moves, card, day);
    NothingOverlaps(Begun(books), moves, card, day);
  }

  lemma {:induction false} NothingOverlaps(sys: System, moves: seq<Move>, card: nat, day: int)
    requires forall i :: 0 <= i < |moves| ==>
               var before := StepAll(sys, moves[..i]);
               Approves(before, moves[i], card, day) ==> InFlight(before, card, day) == 0
    ensures Overlap(sys, moves, card, day) == 0
  {
    hide StepAll;
    hide Approves;
    hide InFlight;
    if moves != [] {
      var n := |moves| - 1;
      assert forall i :: 0 <= i < n ==> moves[..n][..i] == moves[..i] && moves[..n][i] == moves[i];
      NothingOverlaps(sys, moves[..n], card, day);
      assert Approves(StepAll(sys, moves[..n]), moves[n], card, day) ==> InFlight(StepAll(sys, moves[..n]), card, day) == 0;
    }
  }

  // ---- Overlapping settlements ----

  /** Captures settlements that were all approved on an earlier reading. */
  function CaptureAll(st: State, settlements: seq<Settlement>, card: nat): (after: State)
    requires card < |st.cards| && forall i :: 0 <= i < |settlements| ==> settlements[i].card == card
    ensures after.cards == st.cards
  {
    if settlements == [] then st
    else Capture(CaptureAll(st, settlements[..|settlements| - 1], card), settlements[|settlements| - 1], Answered)
  }

  const AMOUNT: Settlement -> int := (s: Settlement) => s.amount

  /** The ledger accepts each of them in turn. */
  ghost predicate AllTaken(st: State, settlements: seq<Settlement>, card: nat)
    requires card < |st.cards| && forall i :: 0 <= i < |settlements| ==> settlements[i].card == card
  {
    forall i :: 0 <= i < |settlements| ==> TakeMoney(CaptureAll(st, settlements[..i], card), settlements[i]).1.Done?
  }

  lemma {:induction false} CapturedKeys(st: State, settlements: seq<Settlement>, card: nat, key: string)
    requires card < |st.cards| && forall i :: 0 <= i < |settlements| ==> settlements[i].card == card
    requires !HasRow(st.rows, key) && forall i :: 0 <= i < |settlements| ==> settlements[i].slip.key != key
    ensures !HasRow(CaptureAll(st, settlements, card).rows, key)
  {
    hide TakeMoney;
    hide HasRow;
    if settlements != [] {
      var n := |settlements| - 1;
      CapturedKeys(st, settlements[..n], card, key);
      UpsertKeys(CaptureAll(st, settlements[..n], card).rows, settlements[n], key);
    }
  }

  /** One more settlement under a new key adds its row. */
  lemma {:induction false} CapturedRow(st: State, s: Settlement, day: int)
    requires s.card < |st.cards| && TakeMoney(st, s).1.Done? && !HasRow(st.rows, s.slip.key) && DayOf(s.createdAt) == day
    ensures SpentOn(Capture(st, s, Answered).rows, s.card, day) == SpentOn(st.rows, s.card, day) + s.amount
  {
    hide TakeMoney;
    hide DayOf;
    SumAppend(st.rows, Row(s.card, s.amount, s.slip.key, s.createdAt), SettledOn(s.card, day));
  }

  lemma {:induction false} InitTaken(st: State, settlements: seq<Settlement>, card: nat)
    requires card < |st.cards| && forall i :: 0 <= i < |settlements| ==> settlements[i].card == card
    requires AllTaken(st, settlements, card) && settlements != []
    ensures var n := |settlements| - 1;
            && AllTaken(st, settlements[..n], card)
            && TakeMoney(CaptureAll(st, settlements[..n], card), settlements[n]).1.Done?
  {
    hide TakeMoney;
    hide CaptureAll;
    var init := settlements[..|settlements| - 1];
    assert forall i :: 0 <= i < |init| ==> init[..i] == settlements[..i] && init[i] == settlements[i];
  }

  lemma {:induction false} CapturedRows(st: State, settlements: seq<Settlement>, card: nat, day: int)
    requires card < |st.cards| && forall i :: 0 <= i < |settlements| ==> settlements[i].card == card
    requires AllTaken(st, settlements, card)
    requires forall i :: 0 <= i < |settlements| ==>
               DayOf(settlements[i].createdAt) == day && !HasRow(st.rows, settlements[i].slip.key)
    requires forall i, k :: 0 <= i < k < |settlements| ==> settlements[i].slip.key != settlements[k].slip.key
    ensures SpentOn(CaptureAll(st, settlements, card).rows, card, day) == SpentOn(st.rows, card, day) + Sum(settlements, AMOUNT)
  {
    hide TakeMoney;
    hide DayOf;
    hide HasRow;
    hide SpentOn;
    hide Capture;
    if settlements != [] {
      var n := |settlements| - 1;
      var init, last := settlements[..n], settlements[n];
      InitTaken(st, settlements, card);
      hide AllTaken;
      CapturedRows(st, init, card, day);
      CapturedKeys(st, init, card, last.slip.key);
      CapturedRow(CaptureAll(st, init, card), last, day);
    }
  }

  function Begins(settlements: seq<Settlement>): (moves: seq<Move>)
    ensures |moves| == |settlements|
  {
    seq(|settlements|, i requires 0 <= i < |settlements| => Begin(settlements[i]))
  }

  /** The first `n` callers are charged and written down one after another. */
  function Captures(n: nat): seq<Move> {
    if n == 0 then [] else Captures(n - 1) + [Call(n - 1, Answered), WriteRow(n - 1)]
  }

  /** Everybody is approved before anybody is charged. */
  function Overlapped(settlements: seq<Settlement>): seq<Move> {
    Begins(settlements) + Captures(|settlements|)
  }

  /** The first `n` have left. */
  function Callers(settlements: seq<Settlement>, n: nat): (callers: seq<Caller>)
    ensures |callers| == |settlements|
  {
    seq(|settlements|, i requires 0 <= i < |settlements| => if i < n then Gone else Cleared(settlements[i]))
  }

  ghost predicate AllApproved(st: State, settlements: seq<Settlement>, card: nat) {
    forall i :: 0 <= i < |settlements| ==>
      settlements[i].card == card && Authorize(st, card, settlements[i].amount, settlements[i].now).Approved?
  }

  lemma {:induction false} AllBegin(st: State, settlements: seq<Settlement>, card: nat)
    requires AllApproved(st, settlements, card)
    ensures StepAll(System(st, []), Begins(settlements)) == System(st, Callers(settlements, 0))
  {
    hide Authorize;
    if settlements == [] {
      assert Callers(settlements, 0) == [];
    } else {
      var n := |settlements| - 1;
      AllBegin(st, settlements[..n], card);
      assert Begins(settlements)[..n] == Begins(settlements[..n]);
      assert Callers(settlements, 0) == Callers(settlements[..n], 0) + [Cleared(settlements[n])];
      assert Authorize(st, card, settlements[n].amount, settlements[n].now).Approved?;
    }
  }

  lemma {:induction false} OneCaptured(sys: System, i: nat)
    requires i < |sys.callers| && sys.callers[i].Cleared? && sys.callers[i].settlement.card < |sys.state.cards|
    requires TakeMoney(sys.state, sys.callers[i].settlement).1.Done?
    ensures StepAll(sys, [Call(i, Answered), WriteRow(i)])
            == Goes(sys.(state := Capture(sys.state, sys.callers[i].settlement, Answered)), i, Gone)
  {
    hide TakeMoney;
    LastMove(sys, [], Call(i, Answered));
    LastMove(sys, [Call(i, Answered)], WriteRow(i));
    assert [] + [Call(i, Answered)] == [Call(i, Answered)];
    assert [Call(i, Answered)] + [WriteRow(i)] == [Call(i, Answered), WriteRow(i)];
    var s := sys.callers[i].settlement;
    var called := Step(sys, Call(i, Answered));
    assert called == Goes(sys.(state := Capture(sys.state, s, Answered).(rows := sys.state.rows)), i, Charged(s));
    var written := Step(called, WriteRow(i));
    assert written.callers == sys.callers[i := Gone];
    assert written.state == Capture(sys.state, s, Answered);
  }

  lemma {:induction false} AllCaptured(st: State, settlements: seq<Settlement>, card: nat, n: nat)
    requires n <= |settlements| && card < |st.cards| && forall i :: 0 <= i < |settlements| ==> settlements[i].card == card
    requires AllTaken(st, settlements, card)
    ensures StepAll(System(st, Callers(settlements, 0)), Captures(n))
            == System(CaptureAll(st, settlements[..n], card), Callers(settlements, n))
  {
    hide Step;
    hide Capture;
    hide TakeMoney;
    if n != 0 {
      AllCaptured(st, settlements, card, n - 1);
      var before := System(CaptureAll(st, settlements[..n - 1], card), Callers(settlements, n - 1));
      MovesConcat(System(st, Callers(settlements, 0)), Captures(n - 1), [Call(n - 1, Answered), WriteRow(n - 1)]);
      assert TakeMoney(CaptureAll(st, settlements[..n - 1], card), settlements[n - 1]).1.Done?;
      OneCaptured(before, n - 1);
      assert settlements[..n][..n - 1] == settlements[..n - 1];
      assert Callers(settlements, n - 1)[n - 1 := Gone] == Callers(settlements, n);
    }
  }

  /**
   * Any number of settlements approved on one reading, under keys of their own,
   * and then accepted by the ledger one after another, together pass the card's
   * daily limit exactly when what was spent plus all their amounts does.
   */
  lemma {:induction false} OverlapExceedsExactly(st: State, settlements: seq<Settlement>, card: nat, day: int)
    requires card < |st.cards| && AllApproved(st, settlements, card)
    requires AllTaken(st, settlements, card)
    requires forall i :: 0 <= i < |settlements| ==>
               DayOf(settlements[i].createdAt) == day && !HasRow(st.rows, settlements[i].slip.key)
    requires forall i, k :: 0 <= i < k < |settlements| ==> settlements[i].slip.key != settlements[k].slip.key
    ensures var after := StepAll(System(st, []), Overlapped(settlements)).state;
            && after.cards == st.cards
            && SpentOn(after.rows, card, day) == SpentOn(st.rows, card, day) + Sum(settlements, AMOUNT)
            && (after.cards[card].dailyLimit < SpentOn(after.rows, card, day)
                <==> st.cards[card].dailyLimit < SpentOn(st.rows, card, day) + Sum(settlements, AMOUNT))
  {
    hide Step;
    hide StepAll;
    hide DayOf;
    hide SpentOn;
    hide Authorize;
    hide HasRow;
    AllBegin(st, settlements, card);
    AllCaptured(st, settlements, card, |settlements|);
    assert settlements[..|settlements|] == settlements;
    MovesConcat(System(st, []), Begins(settlements), Captures(|settlements|));
    CapturedRows(st, settlements, card, day);
  }

  // ---- Rows are backed by entries in every interleaving ----

  ghost predicate CallerProper(book: Book, journal: seq<D.Entry>, c: Caller) {
    c != Gone ==>
      && c.settlement.slip.key in book.keys && c.settlement.amount == book.amount(c.settlement.slip.key)
      && (c.Charged? ==> HasEntry(journal, c.settlement.slip.key))
  }

  /** Entries under the cards' keys are their settlements; every row, and every caller who was charged, has its entry. */
  ghost predicate Backed(book: Book, sys: System) {
    && EntriesApart(book, sys.state.books.journal)
    && RowsFaithful(book, sys.state)
    && forall i :: 0 <= i < |sys.callers| ==> CallerProper(book, sys.state.books.journal, sys.callers[i])
  }

  ghost predicate ProperMove(book: Book, m: Move) {
    && (m.Begin? ==> Proper(book, Settle(m.settlement, Answered)))
    && (m.Other? ==> Proper(book, m.event))
  }

  /** The journal keeps its entries. */
  ghost predicate Keeps(before: seq<D.Entry>, after: seq<D.Entry>) {
    forall key :: HasEntry(before, key) ==> HasEntry(after, key)
  }

  lemma {:induction false} StillBacked(book: Book, sys: System, st: State)
    requires Backed(book, sys) && st.rows == sys.state.rows
    requires EntriesApart(book, st.books.journal) && Keeps(sys.state.books.journal, st.books.journal)
    ensures Backed(book, sys.(state := st))
  {
    hide L.FindKey;
    forall i | 0 <= i < |sys.callers| ensures CallerProper(book, st.books.journal, sys.callers[i]) {
      assert CallerProper(book, sys.state.books.journal, sys.callers[i]);
    }
  }

  lemma {:induction false} GoesBacked(book: Book, sys: System, i: nat, next: Caller)
    requires Backed(book, sys) && i < |sys.callers| && CallerProper(book, sys.state.books.journal, next)
    ensures Backed(book, Goes(sys, i, next))
  {
    hide L.FindKey;
    hide HasEntry;
  }

  lemma {:induction false} CallBacked(book: Book, sys: System, i: nat, transport: Transport)
    requires Backed(book, sys)
    ensures Backed(book, Step(sys, Call(i, transport)))
  {
    hide TakeMoney;
    hide L.FindKey;
    hide HasEntry;
    if At(sys, i, IS_CLEARED) && sys.callers[i].settlement.card < |sys.state.cards| {
      var s := sys.callers[i].settlement;
      assert CallerProper(book, sys.state.books.journal, sys.callers[i]);
      var st := Capture(sys.state, s, transport).(rows := sys.state.rows);
      CaptureApart(book, sys.state, s, transport);
      forall key ensures HasEntry(sys.state.books.journal, key) ==> HasEntry(st.books.journal, key) {
        CaptureKeys(sys.state, s, transport, key);
      }
      CaptureKeys(sys.state, s, transport, s.slip.key);
      hide Capture;
      StillBacked(book, sys, st);
      var heard := transport == Answered && TakeMoney(sys.state, s).1.Done?;
      GoesBacked(book, sys.(state := st), i, if heard then Charged(s) else Gone);
    }
  }

  lemma {:induction false} WriteBacked(book: Book, sys: System, i: nat)
    requires Backed(book, sys)
    ensures Backed(book, Step(sys, WriteRow(i)))
  {
    hide L.FindKey;
    hide HasEntry;
    if At(sys, i, IS_CHARGED) {
      var s := sys.callers[i].settlement;
      assert CallerProper(book, sys.state.books.journal, sys.callers[i]);
      var rows := Upsert(sys.state.rows, s);
      forall k | 0 <= k < |sys.state.rows| ensures rows[k] == sys.state.rows[k] && (rows != sys.state.rows ==> rows[k].key != s.slip.key) {}
      GoesBacked(book, sys.(state := sys.state.(rows := rows)), i, Gone);
    }
  }

  lemma {:induction false} OtherBacked(book: Book, sys: System, e: Event)
    requires Backed(book, sys) && Proper(book, e)
    ensures Backed(book, Step(sys, Other(e)))
  {
    hide L.FindKey;
    hide HasEntry;
    hide L.Step;
    if !e.Settle? {
      var st := Happen(sys.state, e);
      var before, after := sys.state.books.journal, st.books.journal;
      if e.Elsewhere? {
        R.StepOrigin(sys.state.books, e.request);
      }
      forall key ensures HasEntry(before, key) ==> HasEntry(after, key) {
        if after != before {
          AppendedKeys(before, after, key);
        }
      }
      StillBacked(book, sys, st);
    }
  }

  /**
   * In every interleaving each key has at most one row, every row has its entry
   * for the one amount of its key, and no other entry is a card settlement.
   */
  lemma {:induction false} RowsBacked(book: Book, books: L.Books, moves: seq<Move>)
    requires NoneYet(book, books)
    requires forall i :: 0 <= i < |moves| ==> ProperMove(book, moves[i])
    ensures Backed(book, StepAll(Begun(books), moves))
  {
    hide Step;
    hide RowsFaithful;
    hide CallerProper;
    if moves == [] {
      NothingBacked(book, books);
    } else {
      RowsBacked(book, books, moves[..|moves| - 1]);
      MoveBacked(book, StepAll(Begun(books), moves[..|moves| - 1]), moves[|moves| - 1]);
    }
  }

  lemma {:induction false} NothingBacked(book: Book, books: L.Books)
    requires NoneYet(book, books)
    ensures Backed(book, Begun(books))
  {
  }

  lemma {:induction false} MoveBacked(book: Book, sys: System, m: Move)
    requires Backed(book, sys) && ProperMove(book, m)
    ensures Backed(book, Step(sys, m))
  {
    hide Authorize;
    hide HasEntry;
    hide RowsFaithful;
    hide EntriesApart;
    match m
    case Begin(s) =>
    case Call(i, transport) => CallBacked(book, sys, i, transport);
    case WriteRow(i) => WriteBacked(book, sys, i);
    case Crash(i) =>
      if i < |sys.callers| {
        GoesBacked(book, sys, i, Gone);
      }
    case Other(e) => OtherBacked(book, sys, e);
  }

  // ---- What the ledger takes, in every interleaving ----

  /** The row that writing a charge down would add. */
  function RowOf(c: Charge): Row {
    Row(c.card, c.amount, c.key, c.at)
  }

  function WrittenOn(rows: seq<Row>, card: nat, day: int): Charge -> int {
    (c: Charge) => if c.card == card && DayOf(c.at) == day && RowOf(c) in rows then c.amount else 0
  }

  function UnwrittenOn(rows: seq<Row>, card: nat, day: int): Charge -> int {
    (c: Charge) => if c.card == card && DayOf(c.at) == day && RowOf(c) !in rows then c.amount else 0
  }

  /** Each key is charged at most once, with its entry, and the charges written down are within the rows. */
  ghost predicate Ledgered(st: State, card: nat, day: int) {
    && (forall i :: 0 <= i < |st.charges| ==> HasEntry(st.books.journal, st.charges[i].key))
    && (forall i, k :: 0 <= i < k < |st.charges| ==> st.charges[i].key != st.charges[k].key)
    && Sum(st.charges, WrittenOn(st.rows, card, day)) <= SpentOn(st.rows, card, day)
  }

  function MatchingOn(row: Row, card: nat, day: int): Charge -> int {
    (c: Charge) => if RowOf(c) == row && row.card == card && DayOf(row.at) == day then row.amount else 0
  }

  lemma {:induction false} OneMatches(charges: seq<Charge>, row: Row, card: nat, day: int)
    requires forall i, k :: 0 <= i < k < |charges| ==> charges[i].key != charges[k].key
    requires 0 <= row.amount
    ensures Sum(charges, MatchingOn(row, card, day)) <= if row.card == card && DayOf(row.at) == day then row.amount else 0
    ensures (forall i :: 0 <= i < |charges| ==> charges[i].key != row.key) ==> Sum(charges, MatchingOn(row, card, day)) == 0
  {
    hide DayOf;
    if charges != [] {
      OneMatches(charges[..|charges| - 1], row, card, day);
    }
  }

  lemma {:induction false} HasItsKey(rows: seq<Row>, row: Row)
    ensures row in rows ==> HasRow(rows, row.key)
  {
    if row in rows {
      var i :| 0 <= i < |rows| && rows[i] == row;
      assert rows[i].key == row.key;
    }
  }

  /** Writing one row down adds at most its amount to what is written. */
  lemma {:induction false} WriteLedgered(st: State, s: Settlement, card: nat, day: int)
    requires Ledgered(st, card, day) && 0 < s.amount
    ensures Ledgered(st.(rows := Upsert(st.rows, s)), card, day)
  {
    hide DayOf;
    hide HasEntry;
    var row := Row(s.card, s.amount, s.slip.key, s.createdAt);
    var rows := Upsert(st.rows, s);
    if rows != st.rows {
      HasItsKey(st.rows, row);
      forall c | c in st.charges
        ensures WrittenOn(rows, card, day)(c) == WrittenOn(st.rows, card, day)(c) + MatchingOn(row, card, day)(c)
      {
        assert RowOf(c) in rows <==> RowOf(c) in st.rows || RowOf(c) == row;
      }
      SumSplit(st.charges, WrittenOn(rows, card, day), WrittenOn(st.rows, card, day), MatchingOn(row, card, day));
      OneMatches(st.charges, row, card, day);
      SumAppend(st.rows, row, SettledOn(card, day));
    }
  }

  /** A new charge has no row yet. */
  lemma {:induction false} CallLedgered(book: Book, st: State, s: Settlement, transport: Transport, card: nat, day: int)
    requires Ledgered(st, card, day) && RowsFaithful(book, st) && s.card < |st.cards|
    ensures Ledgered(Capture(st, s, transport).(rows := st.rows), card, day)
  {
    hide TakeMoney;
    hide DayOf;
    hide HasEntry;
    hide W.Apply;
    var after := Capture(st, s, transport).(rows := st.rows);
    MoneyShape(st, s);
    if transport != NotSent && after.books.journal != st.books.journal {
      var charge := Charge(s.card, s.amount, s.slip.key, s.createdAt, transport == Answered);
      forall i | 0 <= i < |st.rows| ensures st.rows[i] != RowOf(charge) {
        assert HasEntry(st.books.journal, st.rows[i].key);
      }
      SumAppend(st.charges, charge, WrittenOn(st.rows, card, day));
      forall i | 0 <= i < |after.charges| ensures HasEntry(after.books.journal, after.charges[i].key) {
        CaptureKeys(st, s, transport, after.charges[i].key);
      }
    }
  }

  lemma {:induction false} StillLedgered(st: State, after: State, card: nat, day: int)
    requires Ledgered(st, card, day) && after.charges == st.charges && after.rows == st.rows
    requires Keeps(st.books.journal, after.books.journal)
    ensures Ledgered(after, card, day)
  {
    hide HasEntry;
  }

  lemma {:induction false} OtherKeeps(st: State, e: Event)
    requires !e.Settle?
    ensures var after := Happen(st, e);
            after.charges == st.charges && after.rows == st.rows && Keeps(st.books.journal, after.books.journal)
  {
    hide L.Step;
    hide L.FindKey;
    var before, after := st.books.journal, Happen(st, e).books.journal;
    if e.Elsewhere? {
      R.StepOrigin(st.books, e.request);
    }
    forall key ensures HasEntry(before, key) ==> HasEntry(after, key) {
      if after != before {
        AppendedKeys(before, after, key);
      }
    }
  }

  lemma {:induction false} MoveLedgered(book: Book, sys: System, m: Move, card: nat, day: int, overlap: int)
    requires Backed(book, sys) && Bounded(sys, card, day, overlap) && Ledgered(sys.state, card, day)
    ensures Ledgered(Step(sys, m).state, card, day)
  {
    hide Ledgered;
    hide Authorize;
    hide Capture;
    hide TakeMoney;
    hide Happen;
    match m
    case Begin(_) =>
    case Call(i, transport) =>
      if At(sys, i, IS_CLEARED) && sys.callers[i].settlement.card < |sys.state.cards| {
        CallLedgered(book, sys.state, sys.callers[i].settlement, transport, card, day);
      }
    case WriteRow(i) =>
      if At(sys, i, IS_CHARGED) {
        CallerAt(sys, i, card, day, overlap);
        WriteLedgered(sys.state, sys.callers[i].settlement, card, day);
      }
    case Crash(_) =>
    case Other(e) =>
      if !e.Settle? {
        OtherKeeps(sys.state, e);
        StillLedgered(sys.state, Happen(sys.state, e), card, day);
      }
  }

  lemma {:induction false} RunLedgered(book: Book, books: L.Books, moves: seq<Move>, card: nat, day: int)
    requires NoneYet(book, books)
    requires forall i :: 0 <= i < |moves| ==> ProperMove(book, moves[i]) && StampedMove(moves[i])
    ensures Ledgered(StepAll(Begun(books), moves).state, card, day)
  {
    hide Step;
    hide Bounded;
    hide Backed;
    hide Overlap;
    if moves != [] {
      var init := moves[..|moves| - 1];
      RunLedgered(book, books, init, card, day);
      RowsBacked(book, books, init);
      OverlapBoundsExcess(books, init, card, day);
      MoveLedgered(book, StepAll(Begun(books), init), moves[|moves| - 1], card, day, Overlap(Begun(books), init, card, day));
    }
  }

  /**
   * In every interleaving, what the ledger takes for a card on a UTC day is
   * within its daily limit, but for what was in flight when another settlement
   * was approved and for the charges that have not been written down.
   */
  lemma {:induction false} LedgerExcess(book: Book, books: L.Books, moves: seq<Move>, card: nat, day: int)
    requires NoneYet(book, books)
    requires forall i :: 0 <= i < |moves| ==> ProperMove(book, moves[i]) && StampedMove(moves[i])
    requires card < |StepAll(Begun(books), moves).state.cards|
    ensures var st := StepAll(Begun(books), moves).state;
            TakenOn(st, card, day)
            <= Larger(0, st.cards[card].dailyLimit) + Overlap(Begun(books), moves, card, day)
               + Sum(st.charges, UnwrittenOn(st.rows, card, day))
  {
    hide Step;
    hide StepAll;
    hide Overlap;
    hide Bounded;
    hide DayOf;
    RunLedgered(book, books, moves, card, day);
    OverlapBoundsExcess(books, moves, card, day);
    var st := StepAll(Begun(books), moves).state;
    SumSplit(st.charges, ChargedOn(card, day), WrittenOn(st.rows, card, day), UnwrittenOn(st.rows, card, day));
  }
}
