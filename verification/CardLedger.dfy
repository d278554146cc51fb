/**
 * The cards service's rows against what the ledger really took. The limits are
 * checked on rows alone, so money taken while the answer was lost escapes them
 * until a retry writes its row, and a retry has to be approved again.
 */
module CardLedger {
  import opened Sums
  import opened Network
  import opened Cards
  import D = Domain
  import L = Ledger
  import R = LedgerRuns
  import W = Wallet

  // ---- Rows, charges and ledger entries agree ----

  /** An entry that takes `amount` from one account to another as a card settlement. */
  predicate Settles(e: D.Entry, amount: int) {
    && e.entryType == SETTLEMENT
    && |e.lines| == 2
    && e.lines[0].direction == D.Debit && e.lines[0].amount == amount
    && e.lines[1].direction == D.Credit && e.lines[1].amount == amount
  }

  /** The keys the cards service uses, and the one amount each of them carries. */
  datatype Book = Book(keys: set<string>, amount: string -> int)

  ghost predicate HasEntry(journal: seq<D.Entry>, key: string) {
    L.FindKey(journal, key).Some?
  }

  predicate HasCharge(charges: seq<Charge>, key: string) {
    exists i :: 0 <= i < |charges| && charges[i].key == key
  }

  /** Every entry under a card's key is that settlement, and no other entry is a settlement. */
  ghost predicate EntriesApart(book: Book, journal: seq<D.Entry>) {
    forall i :: 0 <= i < |journal| ==>
      if journal[i].key in book.keys then Settles(journal[i], book.amount(journal[i].key))
      else journal[i].entryType != SETTLEMENT
  }

  /** Every row is backed by an entry, and no key has two rows. */
  ghost predicate RowsFaithful(book: Book, st: State) {
    && (forall i :: 0 <= i < |st.rows| ==>
          && st.rows[i].key in book.keys
          && st.rows[i].amount == book.amount(st.rows[i].key)
          && HasEntry(st.books.journal, st.rows[i].key))
    && (forall i, k :: 0 <= i < k < |st.rows| ==> st.rows[i].key != st.rows[k].key)
  }

  /** Every key's entry was one charge, and a charge that was answered has its row. */
  ghost predicate ChargesFaithful(book: Book, st: State) {
    && (forall i :: 0 <= i < |st.charges| ==>
          && st.charges[i].key in book.keys
          && st.charges[i].amount == book.amount(st.charges[i].key)
          && HasEntry(st.books.journal, st.charges[i].key)
          && (st.charges[i].answered ==> HasRow(st.rows, st.charges[i].key)))
    && (forall i, k :: 0 <= i < k < |st.charges| ==> st.charges[i].key != st.charges[k].key)
    && (forall key :: key in book.keys && HasEntry(st.books.journal, key) ==> HasCharge(st.charges, key))
  }

  ghost predicate Matched(book: Book, st: State) {
    EntriesApart(book, st.books.journal) && RowsFaithful(book, st) && ChargesFaithful(book, st)
  }

  /** A settlement uses one of the keys with its one amount; other traffic uses neither the keys nor the entry type. */
  ghost predicate Proper(book: Book, e: Event) {
    match e
    case Settle(s, _) => s.slip.key in book.keys && s.amount == book.amount(s.slip.key)
    case Elsewhere(request) =>
      && (R.KeyOf(request).Some? ==> R.KeyOf(request).value !in book.keys)
      && (request.PostRequest? ==> request.post.entryType != SETTLEMENT)
    case Issue(_, _, _) => true
    case Freeze(_) => true
    case Unfreeze(_) => true
    case Close(_) => true
  }

  lemma {:induction false} AppendedKeys(journal: seq<D.Entry>, longer: seq<D.Entry>, key: string)
    requires |longer| == |journal| + 1 && longer[..|journal|] == journal
    ensures HasEntry(longer, key) <==> HasEntry(journal, key) || longer[|journal|].key == key
  {
  }

  /** The ledger adds nothing, or the settlement under its own unused key; when it is done its key has an entry. */
  lemma {:induction false} MoneyShape(st: State, s: Settlement)
    requires s.card < |st.cards|
    ensures var (after, outcome) := TakeMoney(st, s);
            var before := st.books.journal;
            && (outcome.Done? ==> HasEntry(after.journal, s.slip.key))
            && (after.journal == before
                || (&& |after.journal| == |before| + 1
                    && after.journal[..|before|] == before
                    && outcome.Done?
                    && !HasEntry(before, s.slip.key)
                    && after.journal[|before|].key == s.slip.key
                    && Settles(after.journal[|before|], s.amount)))
  {
    hide L.Balance;
    var accounts, customer := st.books.accounts, st.cards[s.card].customer;
    var id, float := W.ByCustomer(accounts, customer, W.WALLET), W.ByNumber(accounts, W.FLOAT);
    if id.Some? && float.Some? {
      W.MoveWellFormed(SETTLEMENT, id.value, float.value, s.amount, s.slip);
    }
  }

  lemma {:induction false} UpsertKeys(rows: seq<Row>, s: Settlement, key: string)
    ensures HasRow(Upsert(rows, s), key) <==> HasRow(rows, key) || key == s.slip.key
  {
    var after := Upsert(rows, s);
    if HasRow(rows, key) {
      var i :| 0 <= i < |rows| && rows[i].key == key;
      assert after[i].key == key;
    }
    if after != rows {
      assert after[|rows|].key == s.slip.key;
    }
  }

  lemma {:induction false} AppendedCharge(charges: seq<Charge>, charge: Charge, key: string)
    ensures HasCharge(charges + [charge], key) <==> HasCharge(charges, key) || key == charge.key
  {
    var after := charges + [charge];
    assert after[|charges|].key == charge.key;
    if HasCharge(charges, key) {
      var i :| 0 <= i < |charges| && charges[i].key == key;
      assert after[i].key == key;
    }
  }

  /** What a capture does to the keys of all three tables. */
  lemma {:induction false} CaptureKeys(st: State, s: Settlement, transport: Transport, key: string)
    requires s.card < |st.cards|
    ensures var after := Capture(st, s, transport);
            var reached := transport != NotSent && TakeMoney(st, s).1.Done?;
            && (HasEntry(after.books.journal, key) <==> HasEntry(st.books.journal, key) || (reached && key == s.slip.key))
            && (HasRow(after.rows, key) <==> HasRow(st.rows, key) || (reached && transport == Answered && key == s.slip.key))
            && (HasCharge(after.charges, key)
                <==> HasCharge(st.charges, key) || (key == s.slip.key && after.books.journal != st.books.journal))
  {
    hide W.Apply;
    hide L.FindKey;
    hide TakeMoney;
    MoneyShape(st, s);
    UpsertKeys(st.rows, s, key);
    AppendedCharge(st.charges, Charge(s.card, s.amount, s.slip.key, s.createdAt, transport == Answered), key);
    var before, after := st.books.journal, TakeMoney(st, s).0.journal;
    if after != before {
      AppendedKeys(before, after, key);
    }
  }

  lemma {:induction false} CaptureApart(book: Book, st: State, s: Settlement, transport: Transport)
    requires EntriesApart(book, st.books.journal) && Proper(book, Settle(s, transport)) && s.card < |st.cards|
    ensures EntriesApart(book, Capture(st, s, transport).books.journal)
  {
    hide W.Apply;
    hide TakeMoney;
    MoneyShape(st, s);
  }

  lemma {:induction false} CaptureRowsFaithful(book: Book, st: State, s: Settlement, transport: Transport)
    requires RowsFaithful(book, st) && Proper(book, Settle(s, transport)) && s.card < |st.cards|
    ensures RowsFaithful(book, Capture(st, s, transport))
  {
    hide W.Apply;
    hide L.FindKey;
    hide TakeMoney;
    var after := Capture(st, s, transport);
    forall i | 0 <= i < |after.rows| ensures HasEntry(after.books.journal, after.rows[i].key) {
      CaptureKeys(st, s, transport, after.rows[i].key);
      if i < |st.rows| {
        assert HasEntry(st.books.journal, st.rows[i].key);
      }
    }
    forall i, k | 0 <= i < k < |after.rows| ensures after.rows[i].key != after.rows[k].key {
      if k == |st.rows| {
        assert after.rows[i] == st.rows[i];
      }
    }
  }

  lemma {:induction false} CaptureChargesFaithful(book: Book, st: State, s: Settlement, transport: Transport)
    requires ChargesFaithful(book, st) && Proper(book, Settle(s, transport)) && s.card < |st.cards|
    ensures ChargesFaithful(book, Capture(st, s, transport))
  {
    hide W.Apply;
    hide L.FindKey;
    hide TakeMoney;
    hide HasCharge;
    hide HasRow;
    MoneyShape(st, s);
    var after := Capture(st, s, transport);
    forall key ensures
        && (HasEntry(st.books.journal, key) ==> HasEntry(after.books.journal, key))
        && (HasRow(st.rows, key) ==> HasRow(after.rows, key))
        && (key in book.keys && HasEntry(after.books.journal, key) ==> HasCharge(after.charges, key))
    {
      CaptureKeys(st, s, transport, key);
    }
    CaptureKeys(st, s, transport, s.slip.key);
  }

  /** Other traffic keeps every entry, and adds none under a card's key. */
  lemma {:induction false} TrafficKeys(book: Book, books: L.Books, request: L.Request)
    requires Proper(book, Elsewhere(request))
    ensures var before, after := books.journal, L.Step(books, request).0.journal;
            && (forall key :: HasEntry(before, key) ==> HasEntry(after, key))
            && (forall key :: key in book.keys && HasEntry(after, key) ==> HasEntry(before, key))
  {
    hide L.FindKey;
    hide L.Step;
    hide HasEntry;
    var before, after := books.journal, L.Step(books, request).0.journal;
    R.StepOrigin(books, request);
    if after != before {
      forall key ensures HasEntry(after, key) <==> HasEntry(before, key) || key == after[|before|].key {
        AppendedKeys(before, after, key);
      }
    }
  }

  lemma {:induction false} TrafficApart(book: Book, books: L.Books, request: L.Request)
    requires EntriesApart(book, books.journal) && Proper(book, Elsewhere(request))
    ensures EntriesApart(book, L.Step(books, request).0.journal)
  {
    hide L.Step;
    hide Settles;
    R.StepOrigin(books, request);
  }

  lemma {:induction false} TrafficMatched(book: Book, st: State, request: L.Request)
    requires Matched(book, st) && Proper(book, Elsewhere(request))
    ensures Matched(book, st.(books := L.Step(st.books, request).0))
  {
    hide L.FindKey;
    hide L.Step;
    hide HasRow;
    hide HasCharge;
    hide HasEntry;
    hide EntriesApart;
    TrafficKeys(book, st.books, request);
    TrafficApart(book, st.books, request);
  }

  lemma {:induction false} HappenMatched(book: Book, st: State, e: Event)
    requires Matched(book, st) && Proper(book, e)
    ensures Matched(book, Happen(st, e))
  {
    hide Capture;
    hide L.Step;
    hide Authorize;
    match e
    case Settle(s, transport) =>
      if Authorize(st, s.card, s.amount, s.now).Approved? {
        ApprovedIsCard(st, s);
        CaptureApart(book, st, s, transport);
        CaptureRowsFaithful(book, st, s, transport);
        CaptureChargesFaithful(book, st, s, transport);
      }
    case Elsewhere(request) => TrafficMatched(book, st, request);
    case Issue(_, _, _) =>
    case Freeze(_) =>
    case Unfreeze(_) =>
    case Close(_) =>
  }

  lemma {:induction false} ApprovedIsCard(st: State, s: Settlement)
    requires Authorize(st, s.card, s.amount, s.now).Approved?
    ensures s.card < |st.cards|
  {
  }

  /** The ledger has no settlement yet, and no entry under a card's key. */
  ghost predicate NoneYet(book: Book, books: L.Books) {
    forall i :: 0 <= i < |books.journal| ==>
      books.journal[i].key !in book.keys && books.journal[i].entryType != SETTLEMENT
  }

  ghost function Opening(books: L.Books): State {
    State([], [], books, [])
  }

  /**
   * Over every run of whole settlements, each key has at most one entry, one charge and one row, all
   * for its one amount; every row and every charge has its entry; every charge
   * that was answered has its row.
   */
  lemma {:induction false} RowsMatchEntries(book: Book, books: L.Books, events: seq<Event>)
    requires NoneYet(book, books)
    requires forall i :: 0 <= i < |events| ==> Proper(book, events[i])
    ensures Matched(book, HappenAll(Opening(books), events))
  {
    hide Happen;
    if events != [] {
      RowsMatchEntries(book, books, events[..|events| - 1]);
      HappenMatched(book, HappenAll(Opening(books), events[..|events| - 1]), events[|events| - 1]);
    }
  }

  // ---- Exactly which charges have rows ----

  /** The event is a settlement under `key` that is approved and that the ledger accepts or has accepted. */
  ghost predicate Reaches(st: State, e: Event, key: string) {
    && e.Settle? && e.settlement.slip.key == key && e.transport != NotSent
    && Authorize(st, e.settlement.card, e.settlement.amount, e.settlement.now).Approved?
    && e.settlement.card < |st.cards|
    && TakeMoney(st, e.settlement).1.Done?
  }

  ghost predicate Captures(st: State, e: Event, key: string) {
    Reaches(st, e, key) && e.transport == Answered
  }

  lemma {:induction false} HappenKeys(book: Book, st: State, e: Event, key: string)
    requires Proper(book, e) && key in book.keys
    ensures HasEntry(Happen(st, e).books.journal, key) <==> HasEntry(st.books.journal, key) || Reaches(st, e, key)
    ensures HasRow(Happen(st, e).rows, key) <==> HasRow(st.rows, key) || Captures(st, e, key)
  {
    hide Capture;
    hide Authorize;
    hide TakeMoney;
    hide L.Step;
    hide L.FindKey;
    match e
    case Settle(s, transport) =>
      if Authorize(st, s.card, s.amount, s.now).Approved? {
        ApprovedIsCard(st, s);
        CaptureKeys(st, s, transport, key);
      }
    case Elsewhere(request) =>
      R.StepOrigin(st.books, request);
      var before, after := st.books.journal, L.Step(st.books, request).0.journal;
      if after != before {
        AppendedKeys(before, after, key);
      }
    case Issue(_, _, _) =>
    case Freeze(_) =>
    case Unfreeze(_) =>
    case Close(_) =>
  }

  ghost predicate SomeReaches(books: L.Books, events: seq<Event>, key: string) {
    exists i :: 0 <= i < |events| && Reaches(HappenAll(Opening(books), events[..i]), events[i], key)
  }

  ghost predicate SomeCaptures(books: L.Books, events: seq<Event>, key: string) {
    exists i :: 0 <= i < |events| && Captures(HappenAll(Opening(books), events[..i]), events[i], key)
  }

  /** A longer run has reached or captured a key when its last event does or the run before it had. */
  lemma {:induction false} SomeByLast(books: L.Books, events: seq<Event>, key: string)
    requires events != []
    ensures var init, e := events[..|events| - 1], events[|events| - 1];
            var st := HappenAll(Opening(books), init);
            && (SomeReaches(books, events, key) <==> SomeReaches(books, init, key) || Reaches(st, e, key))
            && (SomeCaptures(books, events, key) <==> SomeCaptures(books, init, key) || Captures(st, e, key))
  {
    hide Reaches;
    hide HappenAll;
    hide Happen;
    var n := |events| - 1;
    var init := events[..n];
    assert forall i :: 0 <= i < n ==> init[..i] == events[..i] && init[i] == events[i];
    assert events[..n] == init;
    if SomeReaches(books, init, key) {
      var i :| 0 <= i < n && Reaches(HappenAll(Opening(books), init[..i]), init[i], key);
      assert Reaches(HappenAll(Opening(books), events[..i]), events[i], key);
    }
    if SomeCaptures(books, init, key) {
      var i :| 0 <= i < n && Captures(HappenAll(Opening(books), init[..i]), init[i], key);
      assert Captures(HappenAll(Opening(books), events[..i]), events[i], key);
    }
  }

  /**
   * A key has an entry exactly when some sending of it was approved and reached
   * the ledger, and a row exactly when some sending of it was approved, reached
   * the ledger and was answered.
   */
  lemma {:induction false} RowExactlyWhenCaptured(book: Book, books: L.Books, events: seq<Event>, key: string)
    requires NoneYet(book, books) && key in book.keys
    requires forall i :: 0 <= i < |events| ==> Proper(book, events[i])
    ensures HasEntry(HappenAll(Opening(books), events).books.journal, key) <==> SomeReaches(books, events, key)
    ensures HasRow(HappenAll(Opening(books), events).rows, key) <==> SomeCaptures(books, events, key)
  {
    hide Happen;
    hide Reaches;
    if events != [] {
      var init := events[..|events| - 1];
      RowExactlyWhenCaptured(book, books, init, key);
      HappenKeys(book, HappenAll(Opening(books), init), events[|events| - 1], key);
      SomeByLast(books, events, key);
    }
  }

  // ---- What the ledger takes in a day ----

  function ChargedOn(card: nat, day: int): Charge -> int {
    (c: Charge) => if c.card == card && DayOf(c.at) == day then c.amount else 0
  }

  function AnsweredOn(card: nat, day: int): Charge -> int {
    (c: Charge) => if c.card == card && DayOf(c.at) == day && c.answered then c.amount else 0
  }

  function UnansweredOn(card: nat, day: int): Charge -> int {
    (c: Charge) => if c.card == card && DayOf(c.at) == day && !c.answered then c.amount else 0
  }

  /** What the ledger took for a card on one UTC day. */
  function TakenOn(st: State, card: nat, day: int): int {
    Sum(st.charges, ChargedOn(card, day))
  }

  ghost predicate AnsweredWithin(st: State) {
    forall card: nat, day :: Sum(st.charges, AnsweredOn(card, day)) <= SpentOn(st.rows, card, day)
  }

  lemma {:induction false} CaptureAnswered(book: Book, st: State, s: Settlement, transport: Transport)
    requires AnsweredWithin(st) && RowsFaithful(book, st) && s.card < |st.cards|
    ensures AnsweredWithin(Capture(st, s, transport))
  {
    hide W.Apply;
    hide L.FindKey;
    hide TakeMoney;
    hide DayOf;
    var after := Capture(st, s, transport);
    CaptureRows(st, s, transport);
    MoneyShape(st, s);
    var charge := Charge(s.card, s.amount, s.slip.key, s.createdAt, transport == Answered);
    var row := Row(s.card, s.amount, s.slip.key, s.createdAt);
    if after.books.journal != st.books.journal && transport == Answered {
      FreshKeyHasNoRow(book, st, s.slip.key);
    }
    forall card: nat, day ensures Sum(after.charges, AnsweredOn(card, day)) <= SpentOn(after.rows, card, day) {
      assert Sum(st.charges, AnsweredOn(card, day)) <= SpentOn(st.rows, card, day);
      SumAppend(st.charges, charge, AnsweredOn(card, day));
      SumAppend(st.rows, row, SettledOn(card, day));
    }
  }

  lemma {:induction false} FreshKeyHasNoRow(book: Book, st: State, key: string)
    requires RowsFaithful(book, st) && !HasEntry(st.books.journal, key)
    ensures !HasRow(st.rows, key)
  {
    hide L.FindKey;
    forall i | 0 <= i < |st.rows| ensures st.rows[i].key != key {
      assert HasEntry(st.books.journal, st.rows[i].key);
    }
  }

  lemma {:induction false} RunAnswered(book: Book, books: L.Books, events: seq<Event>)
    requires NoneYet(book, books)
    requires forall i :: 0 <= i < |events| ==> Proper(book, events[i])
    ensures AnsweredWithin(HappenAll(Opening(books), events))
  {
    hide Capture;
    hide Authorize;
    hide L.Step;
    hide Matched;
    if events != [] {
      var init, e := events[..|events| - 1], events[|events| - 1];
      RunAnswered(book, books, init);
      var st := HappenAll(Opening(books), init);
      RowsMatchEntries(book, books, init);
      MatchedRows(book, st);
      if e.Settle? && Authorize(st, e.settlement.card, e.settlement.amount, e.settlement.now).Approved? {
        ApprovedIsCard(st, e.settlement);
        CaptureAnswered(book, st, e.settlement, e.transport);
      }
    }
  }

  lemma {:induction false} MatchedRows(book: Book, st: State)
    requires Matched(book, st)
    ensures RowsFaithful(book, st)
  {
  }

  /**
   * What the ledger takes for a card on a UTC day is within the daily limit,
   * save for the charges of that day whose answer was lost: those come on top.
   */
  lemma {:induction false} LedgerWithinLimits(book: Book, books: L.Books, events: seq<Event>, card: nat, day: int)
    requires NoneYet(book, books)
    requires forall i :: 0 <= i < |events| ==> Proper(book, events[i]) && Stamped(events[i])
    requires card < |HappenAll(Opening(books), events).cards|
    ensures var st := HappenAll(Opening(books), events);
            var limit := if st.cards[card].dailyLimit < 0 then 0 else st.cards[card].dailyLimit;
            TakenOn(st, card, day) <= limit + Sum(st.charges, UnansweredOn(card, day))
  {
    hide Happen;
    hide DayOf;
    LimitsHold(books, events);
    RunAnswered(book, books, events);
    var st := HappenAll(Opening(books), events);
    SumSplit(st.charges, ChargedOn(card, day), AnsweredOn(card, day), UnansweredOn(card, day));
    assert Sum(st.charges, AnsweredOn(card, day)) <= SpentOn(st.rows, card, day);
  }

  /** A settlement that moves money in the ledger. */
  ghost predicate Takes(st: State, s: Settlement) {
    && Authorize(st, s.card, s.amount, s.now).Approved?
    && s.card < |st.cards|
    && TakeMoney(st, s).0.journal != st.books.journal
  }

  /**
   * A charge whose answer is lost leaves what the next check counts as it was.
   * So two settlements of one day, the first one's answer lost, take more than
   * the limit exactly when what was taken before and both amounts exceed it,
   * though each was approved.
   */
  lemma {:induction false} LostChargeEscapesExactly(st: State, a: Settlement, b: Settlement, transport: Transport)
    requires Takes(st, a)
    requires var lost := Happen(st, Settle(a, AnswerLost));
             && Takes(lost, b) && a.card == b.card && transport != NotSent
    requires DayOf(a.createdAt) == DayOf(b.createdAt)
    ensures var lost := Happen(st, Settle(a, AnswerLost));
            var after := Happen(lost, Settle(b, transport));
            var day := DayOf(a.createdAt);
            && SumSettledToday(lost, b.card, b.now) == SumSettledToday(st, b.card, b.now)
            && TakenOn(after, a.card, day) == TakenOn(st, a.card, day) + a.amount + b.amount
            && a.card < |after.cards|
            && (after.cards[a.card].dailyLimit < TakenOn(after, a.card, day)
                <==> st.cards[a.card].dailyLimit < TakenOn(st, a.card, day) + a.amount + b.amount)
  {
    hide TakeMoney;
    hide Authorize;
    hide DayOf;
    hide TakenOn;
    hide Happen;
    var day := DayOf(a.createdAt);
    TakenOnMore(st, a, AnswerLost, day);
    TakenOnMore(Happen(st, Settle(a, AnswerLost)), b, transport, day);
    LostLeavesRows(st, a);
  }

  lemma {:induction false} LostLeavesRows(st: State, s: Settlement)
    ensures Happen(st, Settle(s, AnswerLost)).rows == st.rows && Happen(st, Settle(s, AnswerLost)).cards == st.cards
  {
    hide TakeMoney;
    hide Authorize;
  }

  lemma {:induction false} TakenOnMore(st: State, s: Settlement, transport: Transport, day: int)
    requires Takes(st, s) && transport != NotSent && DayOf(s.createdAt) == day
    ensures var after := Happen(st, Settle(s, transport));
            TakenOn(after, s.card, day) == TakenOn(st, s.card, day) + s.amount && after.cards == st.cards
  {
    hide TakeMoney;
    hide Authorize;
    hide DayOf;
    SumAppend(st.charges, Charge(s.card, s.amount, s.slip.key, s.createdAt, transport == Answered), ChargedOn(s.card, day));
  }

  // ---- Retrying ----

  /** The wallet a card draws on is an ordinary one: credit-normal, and not the float account. */
  ghost predicate OrdinaryWallet(books: L.Books, customer: string, wallet: nat) {
    && W.ByCustomer(books.accounts, customer, W.WALLET) == D.Some(wallet)
    && books.accounts[wallet].normal == D.Credit
    && W.ByNumber(books.accounts, W.FLOAT) != D.Some(wallet)
  }

  lemma {:induction false} TakenFromWallet(st: State, s: Settlement, wallet: nat)
    requires Takes(st, s) && OrdinaryWallet(st.books, st.cards[s.card].customer, wallet)
    ensures var after := TakeMoney(st, s).0;
            && after.accounts == st.books.accounts
            && L.Balance(after, wallet) == L.Balance(st.books, wallet) - s.amount
            && W.ByNumber(st.books.accounts, W.FLOAT).Some? && 0 < s.amount
  {
    hide Authorize;
    hide L.Balance;
    var float := W.ByNumber(st.books.accounts, W.FLOAT);
    if float.Some? {
      W.MoveMovesMoney(st.books, SETTLEMENT, wallet, float.value, s.amount, s.slip, wallet);
    }
  }

  /**
   * A settlement that took money is sent again. The retry is approved if and
   * only if, before the first sending, the wallet held twice the amount and the
   * day had room for it, counted once more if its row is already there.
   */
  lemma {:induction false} RetryApprovedExactly(st: State, s: Settlement, transport: Transport, retry: Settlement, wallet: nat)
    requires Takes(st, s) && transport != NotSent && !HasRow(st.rows, s.slip.key)
    requires OrdinaryWallet(st.books, st.cards[s.card].customer, wallet)
    requires retry.card == s.card && retry.amount == s.amount
    ensures var after := Happen(st, Settle(s, transport));
            var counted := if transport == Answered && StartOfDay(retry.now) <= s.createdAt then s.amount else 0;
            Authorize(after, retry.card, retry.amount, retry.now).Approved?
            <==> && SumSettledToday(st, s.card, retry.now) + counted + s.amount <= st.cards[s.card].dailyLimit
                 && 2 * s.amount <= L.Balance(st.books, wallet)
  {
    hide TakeMoney;
    hide L.Balance;
    hide StartOfDay;
    var after := Happen(st, Settle(s, transport));
    TakenFromWallet(st, s, wallet);
    MoneyShape(st, s);
    SumAppend(st.rows, Row(s.card, s.amount, s.slip.key, s.createdAt), SettledSince(s.card, StartOfDay(retry.now)));
    SameDecision(st, after, s, retry, wallet);
  }

  /** The checks that do not depend on what was taken are passed again. */
  lemma {:induction false} SameDecision(st: State, after: State, s: Settlement, retry: Settlement, wallet: nat)
    requires Authorize(st, s.card, s.amount, s.now).Approved?
    requires s.card < |st.cards| && after.cards == st.cards && after.books.accounts == st.books.accounts
    requires W.ByCustomer(st.books.accounts, st.cards[s.card].customer, W.WALLET) == D.Some(wallet)
    requires retry.card == s.card && retry.amount == s.amount
    ensures Authorize(after, retry.card, retry.amount, retry.now).Approved?
            <==> && SumSettledToday(after, s.card, retry.now) + s.amount <= st.cards[s.card].dailyLimit
                 && s.amount <= L.Balance(after.books, wallet)
  {
    hide L.Balance;
    hide SumSettledToday;
  }

  /**
   * A charge whose answer was lost gets its row from a retry if and only if the
   * day has room for it and, before the charge, the wallet held twice its
   * amount. Otherwise the retry is declined and changes nothing.
   */
  lemma {:induction false} RetryRepairsExactly(st: State, s: Settlement, retry: Settlement, wallet: nat)
    requires Takes(st, s) && !HasRow(st.rows, s.slip.key)
    requires OrdinaryWallet(st.books, st.cards[s.card].customer, wallet)
    requires retry.card == s.card && retry.amount == s.amount && retry.slip.key == s.slip.key
    ensures var lost := Happen(st, Settle(s, AnswerLost));
            var after := Happen(lost, Settle(retry, Answered));
            var room := SumSettledToday(st, s.card, retry.now) + s.amount <= st.cards[s.card].dailyLimit;
            && (HasRow(after.rows, s.slip.key) <==> room && 2 * s.amount <= L.Balance(st.books, wallet))
            && (!HasRow(after.rows, s.slip.key) ==> after == lost)
  {
    hide TakeMoney;
    hide L.Balance;
    hide Authorize;
    hide SumSettledToday;
    RetryApprovedExactly(st, s, AnswerLost, retry, wallet);
    var lost := Happen(st, Settle(s, AnswerLost));
    TakenFromWallet(st, s, wallet);
    MoneyShape(st, s);
    ReplayDone(lost, retry, wallet);
    CaptureKeys(lost, retry, Answered, s.slip.key);
  }

  lemma {:induction false} ReplayDone(st: State, s: Settlement, wallet: nat)
    requires s.card < |st.cards| && OrdinaryWallet(st.books, st.cards[s.card].customer, wallet)
    requires W.ByNumber(st.books.accounts, W.FLOAT).Some? && 0 < s.amount
    requires HasEntry(st.books.journal, s.slip.key)
    ensures TakeMoney(st, s).1.Done?
  {
    W.MoveWellFormed(SETTLEMENT, wallet, W.ByNumber(st.books.accounts, W.FLOAT).value, s.amount, s.slip);
  }

  /**
   * Whenever later it is sent, and whatever came in between, a retry of a charge
   * that has no row writes it if and only if it is approved then, and in no case
   * charges again.
   */
  lemma {:induction false} LaterRetryRepairsExactly(st: State, retry: Settlement, wallet: nat)
    requires retry.card < |st.cards| && OrdinaryWallet(st.books, st.cards[retry.card].customer, wallet)
    requires W.ByNumber(st.books.accounts, W.FLOAT).Some? && 0 < retry.amount
    requires HasEntry(st.books.journal, retry.slip.key) && !HasRow(st.rows, retry.slip.key)
    ensures var after := Happen(st, Settle(retry, Answered));
            && (HasRow(after.rows, retry.slip.key) <==> Authorize(st, retry.card, retry.amount, retry.now).Approved?)
            && (!HasRow(after.rows, retry.slip.key) ==> after == st)
            && after.books.journal == st.books.journal
  {
    hide TakeMoney;
    hide Authorize;
    hide L.FindKey;
    ReplayDone(st, retry, wallet);
    MoneyShape(st, retry);
    CaptureKeys(st, retry, Answered, retry.slip.key);
  }
}
