/** What every run of the ledger keeps: soundness of the tables and the trial balance. */
module LedgerRuns {
  import opened Sums
  import opened Domain
  import opened Ledger

  function BySide(side: Side): Line -> int {
    (l: Line) => if l.direction == side then l.amount else 0
  }

  /** The line that undoes `l`. */
  function Mirror(l: Line): Line {
    l.(direction := l.direction.Opposite())
  }

  function MirrorAll(lines: seq<Line>): (mirrored: seq<Line>)
    ensures |mirrored| == |lines|
  {
    seq(|lines|, i requires 0 <= i < |lines| => Mirror(lines[i]))
  }

  // ---- Soundness ----

  ghost predicate EntrySound(accounts: nat, e: Entry) {
    && 2 <= |e.lines|
    && e.currency != ""
    && (forall l :: l in e.lines ==> l.account < accounts && 0 < l.amount && l.currency == e.currency)
    && Sum(e.lines, BySide(Debit)) == Sum(e.lines, BySide(Credit))
  }

  /** `mirrored` is a reordering of `lines` with every side flipped. */
  ghost predicate Undoes(mirrored: seq<Line>, lines: seq<Line>) {
    exists order :: multiset(order) == multiset(lines) && mirrored == MirrorAll(order)
  }

  /** Reversals point back to an earlier entry, undo it line for line, and never share a target. */
  ghost predicate Chained(journal: seq<Entry>) {
    && (forall i :: 0 <= i < |journal| && journal[i].reversalOf.Some? ==>
          journal[i].reversalOf.value < i && Undoes(journal[i].lines, journal[journal[i].reversalOf.value].lines))
    && (forall i, k :: 0 <= i < k < |journal| && journal[k].reversalOf.Some? ==>
          journal[i].reversalOf != journal[k].reversalOf)
  }

  ghost predicate Sound(b: Books) {
    && (forall i :: 0 <= i < |b.journal| ==> EntrySound(|b.accounts|, b.journal[i]))
    && Chained(b.journal)
    && (forall i, k :: 0 <= i < k < |b.journal| ==>
          b.journal[i].key != b.journal[k].key && b.journal[i].reference != b.journal[k].reference)
    && |b.outbox| == |b.journal|
    && (forall i :: 0 <= i < |b.journal| ==> b.outbox[i] == EventOf(i, b.journal[i]))
  }

  // ---- The shape of a step ----

  /** The key a request would write an entry under. */
  function KeyOf(r: Request): Option<string> {
    match r
    case PostRequest(post) => Some(post.key)
    case ReverseRequest(reverse, _) => Some(reverse.key)
    case _ => None
  }

  /** `after` keeps every account's fixed columns; it may add accounts at the end. */
  ghost predicate AccountsKept(before: seq<Account>, after: seq<Account>) {
    && |before| <= |after|
    && forall a :: 0 <= a < |before| ==>
         && after[a].normal == before[a].normal
         && after[a].allowNegative == before[a].allowNegative
         && after[a].product == before[a].product
         && after[a].customer == before[a].customer
         && after[a].number == before[a].number
  }

  /** Every step appends at most one entry, under the request's own unused key, and rewrites nothing. */
  lemma {:induction false} StepShape(b: Books, r: Request)
    ensures var (after, reply) := Step(b, r);
            && AccountsKept(b.accounts, after.accounts)
            && ((after.journal == b.journal && after.outbox == b.outbox)
                || (&& |after.journal| == |b.journal| + 1
                    && after == Append(b, after.journal[|b.journal|])
                    && reply == Posted(|b.journal|)
                    && KeyOf(r) == Some(after.journal[|b.journal|].key)
                    && FindKey(b.journal, after.journal[|b.journal|].key).None?))
  {
    hide Balance;
    hide FirstBadLine;
    hide LineGuard;
    hide LinesError;
    hide GuardError;
    hide LoadLines;
    hide ReferenceUsed;
  }

  /** An entry carries its request's key, and reverses only what the request names. */
  lemma {:induction false} StepOrigin(b: Books, r: Request)
    ensures var after := Step(b, r).0.journal;
            after == b.journal
            || (&& |after| == |b.journal| + 1
                && after[..|b.journal|] == b.journal
                && KeyOf(r) == Some(after[|b.journal|].key)
                && after[|b.journal|].reversalOf == (if r.ReverseRequest? then Some(r.reverse.entryId) else None)
                && after[|b.journal|].entryType == if r.PostRequest? then r.post.entryType else "reversal")
  {
    hide Balance;
  }

  /** A successful post or reversal replies with the entry stored under the request's key. */
  lemma {:induction false} PostedUnderKey(b: Books, r: Request)
    requires Step(b, r).1.Posted?
    ensures var (after, reply) := Step(b, r);
            && KeyOf(r).Some?
            && reply.id < |after.journal|
            && after.journal[reply.id].key == KeyOf(r).value
  {
    StepShape(b, r);
  }

  // ---- Steps keep soundness ----

  lemma {:induction false} StoredSound(input: PostInput, accounts: nat)
    requires LinesError(input.lines).None?
    requires forall i :: 0 <= i < |input.lines| ==> input.lines[i].account < accounts
    ensures EntrySound(accounts, NewEntry(input, None))
  {
    var stored := Stored(input.lines, CurrencyOf(input));
    SumPointwise(stored, BySide(Debit), input.lines, InputOn(Debit));
    SumPointwise(stored, BySide(Credit), input.lines, InputOn(Credit));
  }

  lemma {:induction false} ChainedAppend(journal: seq<Entry>, e: Entry)
    requires Chained(journal)
    requires e.reversalOf.Some? ==>
               && e.reversalOf.value < |journal|
               && !HasReversal(journal, e.reversalOf.value)
               && Undoes(e.lines, journal[e.reversalOf.value].lines)
    ensures Chained(journal + [e])
  {
  }

  lemma {:induction false} SoundAppend(b: Books, e: Entry)
    requires Sound(b) && EntrySound(|b.accounts|, e)
    requires Chained(b.journal + [e])
    requires FindKey(b.journal, e.key).None? && !ReferenceUsed(b.journal, e.reference)
    ensures Sound(Append(b, e))
  {
  }

  lemma {:induction false} WriteSound(b: Books, input: PostInput, reversalOf: Option<nat>)
    requires Sound(b)
    requires reversalOf.Some? ==>
               && reversalOf.value < |b.journal|
               && !HasReversal(b.journal, reversalOf.value)
               && (LinesError(input.lines).None? ==>
                     Undoes(Stored(input.lines, CurrencyOf(input)), b.journal[reversalOf.value].lines))
    ensures Sound(PostWithin(b, input, reversalOf).0)
  {
    if PostWithin(b, input, reversalOf).0 != b {
      forall i | 0 <= i < |input.lines|
        ensures input.lines[i].account < |b.accounts|
      {
        assert LineGuard(b, input.lines[i]).None?;
      }
      StoredSound(input, |b.accounts|);
      var e := NewEntry(input, reversalOf);
      assert e.lines == NewEntry(input, None).lines;
      ChainedAppend(b.journal, e);
      SoundAppend(b, e);
    }
  }

  /** Storing the flipped lines of an entry undoes it, whatever order they were read back in. */
  lemma {:induction false} ReversalUndoes(e: Entry, input: ReverseInput, loaded: seq<Line>, accounts: nat)
    requires EntrySound(accounts, e)
    ensures var r := ReversalInput(e, input, loaded);
            LinesError(r.lines).None? ==> Undoes(Stored(r.lines, CurrencyOf(r)), e.lines)
  {
    var r := ReversalInput(e, input, loaded);
    if LinesError(r.lines).None? {
      var order := LoadLines(e, loaded);
      forall i | 0 <= i < |order|
        ensures Stored(r.lines, CurrencyOf(r))[i] == MirrorAll(order)[i]
      {
        assert order[i] in multiset(order);
        assert order[i] in e.lines;
      }
      assert Stored(r.lines, CurrencyOf(r)) == MirrorAll(order);
    }
  }

  lemma {:induction false} StepSound(b: Books, r: Request)
    requires Sound(b)
    ensures Sound(Step(b, r).0)
  {
    match r
    case PostRequest(post) =>
      WriteSound(b, post, None);
    case ReverseRequest(reverse, loaded) =>
      var after := Reverse(b, reverse, loaded).0;
      if after != b {
        var original := b.journal[reverse.entryId];
        ReversalUndoes(original, reverse, loaded, |b.accounts|);
        WriteSound(b, ReversalInput(original, reverse, loaded), Some(reverse.entryId));
      }
    case OpenRequest(row) =>
    case StatusRequest(target, status) =>
    case TermsRequest(target, terms) =>
  }

  lemma {:induction false} RunSound(b: Books, requests: seq<Request>)
    requires Sound(b)
    ensures Sound(Run(b, requests).0)
  {
    if requests != [] {
      var init := requests[..|requests| - 1];
      RunSound(b, init);
      StepSound(Run(b, init).0, requests[|requests| - 1]);
    }
  }

  // ---- Balances ----

  lemma {:induction false} BalanceAfterAppend(b: Books, e: Entry, account: nat)
    requires account < |b.accounts|
    ensures Balance(Append(b, e), account) == Balance(b, account) + Net(e.lines, account, b.accounts[account].normal)
  {
    var after := Append(b, e);
    assert after.journal[..|after.journal| - 1] == b.journal;
    var normal := b.accounts[account].normal;
    SumConcat(Lines(b.journal), e.lines, On(account, normal));
    SumConcat(Lines(b.journal), e.lines, On(account, normal.Opposite()));
  }

  lemma {:induction false} MirrorAmount(lines: seq<Line>, account: nat, side: Side)
    ensures Amount(MirrorAll(lines), account, side) == Amount(lines, account, side.Opposite())
  {
    SumPointwise(MirrorAll(lines), On(account, side), lines, On(account, side.Opposite()));
  }

  /** Whatever undoes lines moves every account by exactly the opposite amount. */
  lemma {:induction false} UndoesNegates(mirrored: seq<Line>, lines: seq<Line>, account: nat, side: Side)
    requires Undoes(mirrored, lines)
    ensures Amount(mirrored, account, side) == Amount(lines, account, side.Opposite())
    ensures Net(mirrored, account, side) == -Net(lines, account, side)
  {
    var order :| multiset(order) == multiset(lines) && mirrored == MirrorAll(order);
    MirrorAmount(order, account, side);
    MirrorAmount(order, account, side.Opposite());
    SumPermutation(order, lines, On(account, side));
    SumPermutation(order, lines, On(account, side.Opposite()));
  }

  // ---- The trial balance ----

  /** The balances of the first `n` accounts whose normal side is `side`. */
  function SideTotal(b: Books, side: Side, n: nat): int
    requires n <= |b.accounts|
  {
    if n == 0 then 0
    else SideTotal(b, side, n - 1) + if b.accounts[n - 1].normal == side then Balance(b, n - 1) else 0
  }

  function Below(n: nat, side: Side): Line -> int {
    (l: Line) => if l.account < n && l.direction == side then l.amount else 0
  }

  lemma {:induction false} BelowNext(lines: seq<Line>, n: nat, side: Side)
    ensures Sum(lines, Below(n + 1, side)) == Sum(lines, Below(n, side)) + Amount(lines, n, side)
  {
    SumSplit(lines, Below(n + 1, side), Below(n, side), On(n, side));
  }

  lemma {:induction false} SideTotalsBelow(b: Books, n: nat)
    requires n <= |b.accounts|
    ensures SideTotal(b, Debit, n) - SideTotal(b, Credit, n)
            == Sum(Lines(b.journal), Below(n, Debit)) - Sum(Lines(b.journal), Below(n, Credit))
  {
    if n == 0 {
      SumPointwise(Lines(b.journal), Below(0, Debit), Lines(b.journal), Below(0, Credit));
    } else {
      SideTotalsBelow(b, n - 1);
      BelowNext(Lines(b.journal), n - 1, Debit);
      BelowNext(Lines(b.journal), n - 1, Credit);
    }
  }

  lemma {:induction false} LinesBalanced(journal: seq<Entry>, accounts: nat)
    requires forall i :: 0 <= i < |journal| ==> EntrySound(accounts, journal[i])
    ensures forall l :: l in Lines(journal) ==> l.account < accounts
    ensures Sum(Lines(journal), BySide(Debit)) == Sum(Lines(journal), BySide(Credit))
  {
    if journal != [] {
      var init, last := journal[..|journal| - 1], journal[|journal| - 1];
      LinesBalanced(init, accounts);
      assert EntrySound(accounts, last);
      SumConcat(Lines(init), last.lines, BySide(Debit));
      SumConcat(Lines(init), last.lines, BySide(Credit));
    }
  }

  /** Debit-normal accounts, together, always hold what credit-normal accounts do. */
  lemma {:induction false} TrialBalance(b: Books)
    requires Sound(b)
    ensures SideTotal(b, Debit, |b.accounts|) == SideTotal(b, Credit, |b.accounts|)
  {
    var lines, n := Lines(b.journal), |b.accounts|;
    LinesBalanced(b.journal, n);
    SideTotalsBelow(b, n);
    forall side: Side ensures Sum(lines, Below(n, side)) == Sum(lines, BySide(side)) {
      SumPointwise(lines, Below(n, side), lines, BySide(side));
    }
  }

  function InCurrency(currency: string, side: Side): Line -> int {
    (l: Line) => if l.currency == currency && l.direction == side then l.amount else 0
  }

  lemma {:induction false} EntryCurrency(e: Entry, accounts: nat, currency: string)
    requires EntrySound(accounts, e)
    ensures Sum(e.lines, InCurrency(currency, Debit)) == Sum(e.lines, InCurrency(currency, Credit))
  {
    if e.currency == currency {
      SumPointwise(e.lines, InCurrency(currency, Debit), e.lines, BySide(Debit));
      SumPointwise(e.lines, InCurrency(currency, Credit), e.lines, BySide(Credit));
    } else {
      SumPointwise(e.lines, InCurrency(currency, Debit), e.lines, InCurrency(currency, Credit));
    }
  }

  lemma {:induction false} CurrencyBalanced(journal: seq<Entry>, accounts: nat, currency: string)
    requires forall i :: 0 <= i < |journal| ==> EntrySound(accounts, journal[i])
    ensures Sum(Lines(journal), InCurrency(currency, Debit)) == Sum(Lines(journal), InCurrency(currency, Credit))
  {
    if journal != [] {
      var init, last := journal[..|journal| - 1], journal[|journal| - 1];
      CurrencyBalanced(init, accounts, currency);
      EntryCurrency(last, accounts, currency);
      SumConcat(Lines(init), last.lines, InCurrency(currency, Debit));
      SumConcat(Lines(init), last.lines, InCurrency(currency, Credit));
    }
  }

  /** In every ledger any run of requests can reach, the books balance, as a whole and currency by currency. */
  lemma {:induction false} RunsBalance(requests: seq<Request>, currency: string)
    ensures var b := Run(EMPTY, requests).0;
            && SideTotal(b, Debit, |b.accounts|) == SideTotal(b, Credit, |b.accounts|)
            && Sum(Lines(b.journal), InCurrency(currency, Debit)) == Sum(Lines(b.journal), InCurrency(currency, Credit))
  {
    RunSound(EMPTY, requests);
    var b := Run(EMPTY, requests).0;
    TrialBalance(b);
    CurrencyBalanced(b.journal, |b.accounts|, currency);
  }
}
