/**
 * The double-entry engine (services/ledger/internal/ledger/service.go and
 * services/ledger/internal/account/account.go) for one tenant.
 *
 * Accounts and entries are identified by their position in the tables, in
 * order of creation. Every `dbctx.WithTenant` call is one atomic step. The
 * functions say what a step does to the tables; `LedgerStore` does it.
 */
module Ledger {
  import opened Sums
  import opened Domain

  datatype Error =
    | TooFewLines
    | NonPositiveAmount
    | InvalidDirection(text: string)
    | Unbalanced(debits: int, credits: int)
    | AccountNotFound(account: nat)
    | AccountNotActive(account: nat, status: Status)
    | InsufficientBalance(account: nat, has: int, needs: int)
    | JournalEntryNotFound
    | AlreadyReversed
    | ReferenceTaken
    | AccountNumberTaken

  datatype Reply = Posted(id: nat) | Opened(account: nat) | Updated | Rejected(error: Error)

  datatype PostInput = PostInput(
    reference: string,
    key: string,
    entryType: string,
    currency: string,
    description: string,
    lines: seq<LineInput>)

  datatype ReverseInput = ReverseInput(entryId: nat, reason: string, key: string)

  datatype Books = Books(accounts: seq<Account>, journal: seq<Entry>, outbox: seq<Event>)

  // ---- Derived balances ----

  /** The ledger_lines table: every entry's lines, in insertion order. */
  function Lines(journal: seq<Entry>): seq<Line> {
    if journal == [] then [] else Lines(journal[..|journal| - 1]) + journal[|journal| - 1].lines
  }

  function On(account: nat, side: Side): Line -> int {
    (l: Line) => if l.account == account && l.direction == side then l.amount else 0
  }

  /** The sum of an account's lines on one side. */
  function Amount(lines: seq<Line>, account: nat, side: Side): int {
    Sum(lines, On(account, side))
  }

  /** What lines do to an account whose normal side is `normal`. */
  function Net(lines: seq<Line>, account: nat, normal: Side): int {
    Amount(lines, account, normal) - Amount(lines, account, normal.Opposite())
  }

  function Balance(b: Books, account: nat): int
    requires account < |b.accounts|
  {
    Net(Lines(b.journal), account, b.accounts[account].normal)
  }

  // ---- Validation ----

  function InputOn(side: Side): LineInput -> int {
    (l: LineInput) => if l.direction == side then l.amount else 0
  }

  function BadLine(l: LineInput): Option<Error> {
    if l.amount <= 0 then Some(NonPositiveAmount)
    else if l.direction.Unrecognised? then Some(InvalidDirection(l.direction.text))
    else None
  }

  /** The first offending line decides the error. */
  function FirstBadLine(lines: seq<LineInput>): (e: Option<Error>)
    ensures e.None? <==> forall i :: 0 <= i < |lines| ==> BadLine(lines[i]).None?
    ensures e.Some? ==> exists i :: 0 <= i < |lines| && BadLine(lines[i]) == e && FirstBadLine(lines[..i]).None?
  {
    if lines == [] then None
    else
      var init := lines[..|lines| - 1];
      var e := FirstBadLine(init);
      assert forall i :: 0 <= i < |init| ==> init[..i] == lines[..i];
      if e.Some? then e else BadLine(lines[|lines| - 1])
  }

  function LinesError(lines: seq<LineInput>): (e: Option<Error>)
    ensures e.None? <==>
            && 2 <= |lines|
            && (forall i :: 0 <= i < |lines| ==> 0 < lines[i].amount && !lines[i].direction.Unrecognised?)
            && Sum(lines, InputOn(Debit)) == Sum(lines, InputOn(Credit))
  {
    if |lines| < 2 then Some(TooFewLines)
    else
      var bad := FirstBadLine(lines);
      var debits, credits := Sum(lines, InputOn(Debit)), Sum(lines, InputOn(Credit));
      if bad.Some? then bad
      else if debits != credits then Some(Unbalanced(debits, credits))
      else None
  }

  // ---- Guards ----

  /** Each line is checked against the balance before the entry, not after the lines above it. */
  function LineGuard(b: Books, l: LineInput): Option<Error> {
    if |b.accounts| <= l.account then Some(AccountNotFound(l.account))
    else
      var acc := b.accounts[l.account];
      if acc.status != Active then Some(AccountNotActive(l.account, acc.status))
      else if l.direction != acc.normal && !acc.allowNegative && Balance(b, l.account) - l.amount < 0 then
        Some(InsufficientBalance(l.account, Balance(b, l.account), l.amount))
      else None
  }

  function GuardError(b: Books, lines: seq<LineInput>): (e: Option<Error>)
    ensures e.None? <==> forall i :: 0 <= i < |lines| ==> LineGuard(b, lines[i]).None?
  {
    if lines == [] then None
    else
      var e := GuardError(b, lines[..|lines| - 1]);
      if e.Some? then e else LineGuard(b, lines[|lines| - 1])
  }

  /** The first refusal among a prefix of the lines is the first refusal of them all. */
  lemma {:induction false} GuardErrorPrefix(b: Books, lines: seq<LineInput>, n: nat)
    requires n <= |lines| && GuardError(b, lines[..n]).Some?
    ensures GuardError(b, lines) == GuardError(b, lines[..n])
    decreases |lines|
  {
    if n == |lines| {
      assert lines[..n] == lines;
    } else {
      var init := lines[..|lines| - 1];
      assert init[..n] == lines[..n];
      GuardErrorPrefix(b, init, n);
    }
  }

  lemma {:induction false} FirstBadLinePrefix(lines: seq<LineInput>, n: nat)
    requires n <= |lines| && FirstBadLine(lines[..n]).Some?
    ensures FirstBadLine(lines) == FirstBadLine(lines[..n])
    decreases |lines|
  {
    if n == |lines| {
      assert lines[..n] == lines;
    } else {
      var init := lines[..|lines| - 1];
      assert init[..n] == lines[..n];
      FirstBadLinePrefix(init, n);
    }
  }

  // ---- Lookups ----

  function FindKey(journal: seq<Entry>, key: string): (id: Option<nat>)
    ensures id.Some? ==> id.value < |journal| && journal[id.value].key == key
    ensures id.None? ==> forall i :: 0 <= i < |journal| ==> journal[i].key != key
  {
    if journal == [] then None
    else
      var earlier := FindKey(journal[..|journal| - 1], key);
      if earlier.Some? then earlier
      else if journal[|journal| - 1].key == key then Some(|journal| - 1)
      else None
  }

  predicate ReferenceUsed(journal: seq<Entry>, reference: string) {
    exists i :: 0 <= i < |journal| && journal[i].reference == reference
  }

  predicate HasReversal(journal: seq<Entry>, id: nat) {
    exists i :: 0 <= i < |journal| && journal[i].reversalOf == Some(id)
  }

  // ---- Posting ----

  function CurrencyOf(input: PostInput): string {
    if input.currency == "" then "NGN" else input.currency
  }

  function Stored(lines: seq<LineInput>, currency: string): (stored: seq<Line>)
    requires forall i :: 0 <= i < |lines| ==> !lines[i].direction.Unrecognised?
    ensures |stored| == |lines|
  {
    seq(|lines|, i requires 0 <= i < |lines| =>
      Line(lines[i].account, lines[i].direction, lines[i].amount, currency))
  }

  function NewEntry(input: PostInput, reversalOf: Option<nat>): Entry
    requires LinesError(input.lines).None?
  {
    var currency := CurrencyOf(input);
    Entry(input.reference, input.key, input.entryType, currency, input.description, reversalOf,
          Stored(input.lines, currency))
  }

  function EventOf(id: nat, e: Entry): Event {
    Event(id, e.entryType, e.reference, e.currency, |e.lines|)
  }

  function Append(b: Books, e: Entry): Books {
    b.(journal := b.journal + [e], outbox := b.outbox + [EventOf(|b.journal|, e)])
  }

  /** The shared write path of a fresh post and a reversal. */
  function PostWithin(b: Books, input: PostInput, reversalOf: Option<nat>): (Books, Reply) {
    var invalid := LinesError(input.lines);
    if invalid.Some? then (b, Rejected(invalid.value))
    else
      var existing := FindKey(b.journal, input.key);
      if existing.Some? then (b, Posted(existing.value))
      else
        var refusal := GuardError(b, input.lines);
        if refusal.Some? then (b, Rejected(refusal.value))
        else if ReferenceUsed(b.journal, input.reference) then (b, Rejected(ReferenceTaken))
        else (Append(b, NewEntry(input, reversalOf)), Posted(|b.journal|))
  }

  function Post(b: Books, input: PostInput): (Books, Reply) {
    PostWithin(b, input, None)
  }

  // ---- Reversing ----

  /**
   * An entry's lines are read back ordered by a timestamp they all share, so
   * the database may return them in any order: `loaded` is the order it chose.
   */
  function LoadLines(e: Entry, loaded: seq<Line>): (lines: seq<Line>)
    ensures multiset(lines) == multiset(e.lines)
  {
    if multiset(loaded) == multiset(e.lines) then loaded else e.lines
  }

  function Flipped(lines: seq<Line>): (flipped: seq<LineInput>)
    ensures |flipped| == |lines|
  {
    seq(|lines|, i requires 0 <= i < |lines| =>
      LineInput(lines[i].account, lines[i].direction.Opposite(), lines[i].amount))
  }

  function ReversalInput(original: Entry, input: ReverseInput, loaded: seq<Line>): PostInput {
    PostInput(original.reference + "-REV", input.key, "reversal", original.currency,
              "Reversal: " + input.reason, Flipped(LoadLines(original, loaded)))
  }

  function Reverse(b: Books, input: ReverseInput, loaded: seq<Line>): (Books, Reply) {
    var existing := FindKey(b.journal, input.key);
    if existing.Some? then (b, Posted(existing.value))
    else if |b.journal| <= input.entryId then (b, Rejected(JournalEntryNotFound))
    else if HasReversal(b.journal, input.entryId) then (b, Rejected(AlreadyReversed))
    else PostWithin(b, ReversalInput(b.journal[input.entryId], input, loaded), Some(input.entryId))
  }

  // ---- Accounts ----

  function Open(b: Books, account: Account): (Books, Reply) {
    if exists i :: 0 <= i < |b.accounts| && b.accounts[i].number == account.number then
      (b, Rejected(AccountNumberTaken))
    else
      (b.(accounts := b.accounts + [account]), Opened(|b.accounts|))
  }

  function SetStatus(b: Books, account: nat, status: Status): (Books, Reply) {
    if |b.accounts| <= account then (b, Rejected(AccountNotFound(account)))
    else (b.(accounts := b.accounts[account := b.accounts[account].(status := status)]), Updated)
  }

  function SetTerms(b: Books, account: nat, terms: Terms): (Books, Reply) {
    if |b.accounts| <= account then (b, Rejected(AccountNotFound(account)))
    else (b.(accounts := b.accounts[account := b.accounts[account].(terms := terms)]), Updated)
  }

  // ---- Runs ----

  datatype Request =
    | PostRequest(post: PostInput)
    | ReverseRequest(reverse: ReverseInput, loaded: seq<Line>)
    | OpenRequest(row: Account)
    | StatusRequest(target: nat, status: Status)
    | TermsRequest(target: nat, terms: Terms)

  function Step(b: Books, r: Request): (Books, Reply) {
    match r
    case PostRequest(post) => Post(b, post)
    case ReverseRequest(reverse, loaded) => Reverse(b, reverse, loaded)
    case OpenRequest(row) => Open(b, row)
    case StatusRequest(target, status) => SetStatus(b, target, status)
    case TermsRequest(target, terms) => SetTerms(b, target, terms)
  }

  const EMPTY := Books([], [], [])

  function Run(b: Books, requests: seq<Request>): (r: (Books, seq<Reply>))
    ensures |r.1| == |requests|
  {
    if requests == [] then (b, [])
    else
      var before := Run(b, requests[..|requests| - 1]);
      var last := Step(before.0, requests[|requests| - 1]);
      (last.0, before.1 + [last.1])
  }

  // ---- The store ----

  class LedgerStore {
    var accounts: seq<Account>
    var journal: seq<Entry>
    var outbox: seq<Event>

    function View(): Books
      reads this
    {
      Books(accounts, journal, outbox)
    }

    constructor ()
      ensures View() == EMPTY
    {
      accounts, journal, outbox := [], [], [];
    }

    static method ValidateLines(lines: seq<LineInput>) returns (error: Option<Error>)
      ensures error == LinesError(lines)
    {
      if |lines| < 2 {
        return Some(TooFewLines);
      }
      var debitTotal, creditTotal := 0, 0;
      for i := 0 to |lines|
        invariant FirstBadLine(lines[..i]).None?
        invariant debitTotal == Sum(lines[..i], InputOn(Debit))
        invariant creditTotal == Sum(lines[..i], InputOn(Credit))
      {
        var l := lines[i];
        assert lines[..i + 1][..i] == lines[..i];
        if l.amount <= 0 {
          FirstBadLinePrefix(lines, i + 1);
          return Some(NonPositiveAmount);
        }
        match l.direction {
          case Debit => debitTotal := debitTotal + l.amount;
          case Credit => creditTotal := creditTotal + l.amount;
          case Unrecognised(text) =>
            FirstBadLinePrefix(lines, i + 1);
            return Some(InvalidDirection(text));
        }
      }
      assert lines[..|lines|] == lines;
      if debitTotal != creditTotal {
        return Some(Unbalanced(debitTotal, creditTotal));
      }
      return None;
    }

    method WriteOutboxEvent(id: nat, e: Entry)
      modifies this`outbox
      ensures outbox == old(outbox) + [EventOf(id, e)]
    {
      outbox := outbox + [Event(id, e.entryType, e.reference, e.currency, |e.lines|)];
    }

    /** The guard loop: the first line that may not be posted decides. */
    method CheckGuards(lines: seq<LineInput>) returns (refusal: Option<Error>)
      ensures refusal == GuardError(View(), lines)
    {
      for i := 0 to |lines|
        invariant GuardError(View(), lines[..i]).None?
      {
        var line := lines[i];
        assert lines[..i + 1][..i] == lines[..i];
        if |accounts| <= line.account {
          GuardErrorPrefix(View(), lines, i + 1);
          return Some(AccountNotFound(line.account));
        }
        var acc := accounts[line.account];
        if acc.status != Active {
          GuardErrorPrefix(View(), lines, i + 1);
          return Some(AccountNotActive(line.account, acc.status));
        }
        var reducesBalance := line.direction != acc.normal;
        if reducesBalance && !acc.allowNegative {
          var has := Balance(View(), line.account);
          if has - line.amount < 0 {
            GuardErrorPrefix(View(), lines, i + 1);
            return Some(InsufficientBalance(line.account, has, line.amount));
          }
        }
      }
      assert lines[..|lines|] == lines;
      return None;
    }

    method PostWithinTx(input: PostInput, reversalOf: Option<nat>) returns (reply: Reply)
      modifies this
      ensures (View(), reply) == PostWithin(old(View()), input, reversalOf)
    {
      var invalid := ValidateLines(input.lines);
      if invalid.Some? {
        return Rejected(invalid.value);
      }
      var existing := FindKey(journal, input.key);
      if existing.Some? {
        return Posted(existing.value);
      }
      var currency := if input.currency == "" then "NGN" else input.currency;
      var refusal := CheckGuards(input.lines);
      if refusal.Some? {
        return Rejected(refusal.value);
      }
      if ReferenceUsed(journal, input.reference) {
        return Rejected(ReferenceTaken);
      }
      var id := |journal|;
      var lines: seq<Line> := [];
      for i := 0 to |input.lines|
        invariant lines == Stored(input.lines, currency)[..i]
      {
        var line := input.lines[i];
        lines := lines + [Line(line.account, line.direction, line.amount, currency)];
      }
      assert lines == Stored(input.lines, currency);
      var entry := Entry(input.reference, input.key, input.entryType, currency, input.description, reversalOf, lines);
      journal := journal + [entry];
      WriteOutboxEvent(id, entry);
      return Posted(id);
    }

    method PostJournalEntry(input: PostInput) returns (reply: Reply)
      modifies this
      ensures (View(), reply) == Post(old(View()), input)
    {
      var invalid := ValidateLines(input.lines);
      if invalid.Some? {
        return Rejected(invalid.value);
      }
      reply := PostWithinTx(input, None);
    }

    method ReverseJournalEntry(input: ReverseInput, loaded: seq<Line>) returns (reply: Reply)
      modifies this
      ensures (View(), reply) == Reverse(old(View()), input, loaded)
    {
      var existing := FindKey(journal, input.key);
      if existing.Some? {
        return Posted(existing.value);
      }
      if |journal| <= input.entryId {
        return Rejected(JournalEntryNotFound);
      }
      var original := journal[input.entryId];
      if HasReversal(journal, input.entryId) {
        return Rejected(AlreadyReversed);
      }
      var lines := LoadLines(original, loaded);
      var flipped: seq<LineInput> := [];
      for i := 0 to |lines|
        invariant flipped == Flipped(lines)[..i]
      {
        flipped := flipped + [LineInput(lines[i].account, lines[i].direction.Opposite(), lines[i].amount)];
      }
      assert flipped == Flipped(lines);
      var reversal := PostInput(original.reference + "-REV", input.key, "reversal", original.currency,
                                "Reversal: " + input.reason, flipped);
      reply := PostWithinTx(reversal, Some(input.entryId));
    }

    method OpenAccount(account: Account) returns (reply: Reply)
      modifies this`accounts
      ensures (View(), reply) == Open(old(View()), account)
    {
      if exists i :: 0 <= i < |accounts| && accounts[i].number == account.number {
        return Rejected(AccountNumberTaken);
      }
      accounts := accounts + [account];
      return Opened(|accounts| - 1);
    }

    method UpdateStatus(account: nat, status: Status) returns (reply: Reply)
      modifies this`accounts
      ensures (View(), reply) == SetStatus(old(View()), account, status)
    {
      if |accounts| <= account {
        return Rejected(AccountNotFound(account));
      }
      accounts := accounts[account := accounts[account].(status := status)];
      return Updated;
    }

    method UpdateTerms(account: nat, terms: Terms) returns (reply: Reply)
      modifies this`accounts
      ensures (View(), reply) == SetTerms(old(View()), account, terms)
    {
      if |accounts| <= account {
        return Rejected(AccountNotFound(account));
      }
      accounts := accounts[account := accounts[account].(terms := terms)];
      return Updated;
    }
  }
}
