/**
 * The balance guard. Each line is checked against the balance before the
 * entry, so an entry that draws twice on one account can overdraw it; these
 * lemmas say exactly which entries can, and that no others ever do.
 */
module Overdraft {
  import opened Sums
  import opened Domain
  import opened Ledger
  import opened LedgerRuns

  /** No account is named twice on the same side. */
  predicate NamesOnce(lines: seq<LineInput>) {
    forall i, k :: 0 <= i < k < |lines| ==>
      lines[i].account != lines[k].account || lines[i].direction != lines[k].direction
  }

  function OnInput(account: nat, side: Side): LineInput -> int {
    (l: LineInput) => if l.account == account && l.direction == side then l.amount else 0
  }

  /** The largest single line on one side of an account, 0 if there is none. */
  function Largest(lines: seq<LineInput>, account: nat, side: Side): (m: int)
    ensures forall i :: 0 <= i < |lines| && lines[i].account == account && lines[i].direction == side ==> lines[i].amount <= m
    ensures m == 0 || exists i :: 0 <= i < |lines| && lines[i].account == account && lines[i].direction == side && lines[i].amount == m
  {
    if lines == [] then 0
    else
      var m := Largest(lines[..|lines| - 1], account, side);
      var l := lines[|lines| - 1];
      if l.account == account && l.direction == side && m < l.amount then l.amount else m
  }

  /** An entry takes no more from an account, all told, than its largest single line does. */
  predicate Covered(lines: seq<LineInput>, account: nat, normal: Side) {
    Sum(lines, OnInput(account, normal.Opposite())) - Sum(lines, OnInput(account, normal))
    <= Largest(lines, account, normal.Opposite())
  }

  // ---- One post ----

  lemma {:induction false} StoredNet(input: PostInput, account: nat, side: Side)
    requires LinesError(input.lines).None?
    ensures Amount(NewEntry(input, None).lines, account, side) == Sum(input.lines, OnInput(account, side))
  {
    SumPointwise(NewEntry(input, None).lines, On(account, side), input.lines, OnInput(account, side));
  }

  /** The guards admit an entry only when the largest line it draws is there. */
  lemma {:induction false} GuardsCoverLargest(b: Books, lines: seq<LineInput>, account: nat)
    requires GuardError(b, lines).None? && account < |b.accounts| && !b.accounts[account].allowNegative
    requires 0 <= Balance(b, account)
    ensures Largest(lines, account, b.accounts[account].normal.Opposite()) <= Balance(b, account)
  {
    var opposite := b.accounts[account].normal.Opposite();
    var m := Largest(lines, account, opposite);
    if m != 0 {
      var i :| 0 <= i < |lines| && lines[i].account == account && lines[i].direction == opposite && lines[i].amount == m;
      assert LineGuard(b, lines[i]).None?;
    }
  }

  /** What a post writes, when it writes, moves each balance by the entry's net. */
  lemma {:induction false} PostMoves(b: Books, input: PostInput, reversalOf: Option<nat>, account: nat)
    requires account < |b.accounts| && PostWithin(b, input, reversalOf).0 != b
    ensures LinesError(input.lines).None? && GuardError(b, input.lines).None?
    ensures var after := PostWithin(b, input, reversalOf).0;
            && after.accounts == b.accounts
            && Balance(after, account)
               == Balance(b, account)
                  + Sum(input.lines, OnInput(account, b.accounts[account].normal))
                  - Sum(input.lines, OnInput(account, b.accounts[account].normal.Opposite()))
  {
    var e := NewEntry(input, reversalOf);
    assert e.lines == NewEntry(input, None).lines;
    BalanceAfterAppend(b, e, account);
    StoredNet(input, account, b.accounts[account].normal);
    StoredNet(input, account, b.accounts[account].normal.Opposite());
  }

  lemma {:induction false} CoveredStaysSolvent(b: Books, input: PostInput, reversalOf: Option<nat>, account: nat)
    requires account < |b.accounts| && !b.accounts[account].allowNegative && 0 <= Balance(b, account)
    requires Covered(input.lines, account, b.accounts[account].normal)
    ensures var after := PostWithin(b, input, reversalOf).0;
            account < |after.accounts| && 0 <= Balance(after, account)
  {
    if PostWithin(b, input, reversalOf).0 != b {
      PostMoves(b, input, reversalOf, account);
      GuardsCoverLargest(b, input.lines, account);
    }
  }

  /** Posting `input` does not take a solvent account below zero in ledger `b`. */
  ghost predicate KeepsSolvent(b: Books, input: PostInput, account: nat, normal: Side) {
    (&& Sound(b)
     && account < |b.accounts|
     && b.accounts[account].normal == normal
     && !b.accounts[account].allowNegative
     && 0 <= Balance(b, account))
    ==>
      var after := Post(b, input).0;
      account < |after.accounts| && 0 <= Balance(after, account)
  }

  function Row(a: nat, account: nat, normal: Side): Account {
    Account(seq(a, _ => 'x'), None, "wallet", normal, Active, a != account, NoTerms)
  }

  /** Enough active accounts for `lines`; all but `account` may go negative. */
  function Rows(n: nat, account: nat, normal: Side): (rows: seq<Account>)
    ensures |rows| == n
    ensures forall a :: 0 <= a < n ==> rows[a] == Row(a, account, normal)
  {
    seq(n, a requires 0 <= a => Row(a, account, normal))
  }

  function AccountBound(lines: seq<LineInput>, account: nat): (n: nat)
    ensures account < n && forall i :: 0 <= i < |lines| ==> lines[i].account < n
  {
    if lines == [] then account + 1
    else
      var m := AccountBound(lines[..|lines| - 1], account);
      if m <= lines[|lines| - 1].account then lines[|lines| - 1].account + 1 else m
  }

  /** The opening deposit that leaves `account` with exactly `amount`. */
  function Deposit(input: PostInput, account: nat, normal: Side, float: nat, amount: int): PostInput {
    PostInput(input.reference + "0", input.key + "0", "deposit", "", "",
              [LineInput(account, normal, amount), LineInput(float, normal.Opposite(), amount)])
  }

  function Start(input: PostInput, account: nat, normal: Side): Books {
    Books(Rows(AccountBound(input.lines, account) + 1, account, normal), [], [])
  }

  /** A ledger in which `account` holds exactly the largest single amount `input` draws on it. */
  function Tight(input: PostInput, account: nat, normal: Side): Books {
    Post(Start(input, account, normal),
         Deposit(input, account, normal, AccountBound(input.lines, account), Largest(input.lines, account, normal.Opposite()))).0
  }

  lemma {:induction false} TightHolds(input: PostInput, account: nat, normal: Side)
    requires 0 < Largest(input.lines, account, normal.Opposite())
    ensures var b := Tight(input, account, normal);
            && Sound(b)
            && b.accounts == Start(input, account, normal).accounts
            && |b.journal| == 1 && b.journal[0].key == input.key + "0" && b.journal[0].reference == input.reference + "0"
            && Balance(b, account) == Largest(input.lines, account, normal.Opposite())
  {
    var m := Largest(input.lines, account, normal.Opposite());
    var float := AccountBound(input.lines, account);
    var start := Start(input, account, normal);
    var deposit := Deposit(input, account, normal, float, m);
    DepositValid(input, account, normal, float, m);
    assert LineGuard(start, deposit.lines[0]).None?;
    assert LineGuard(start, deposit.lines[1]).None?;
    WriteSound(start, deposit, None);
    PostMoves(start, deposit, None, account);
    DepositNet(input, account, normal, float, m);
  }

  lemma {:induction false} TightAccepts(input: PostInput, account: nat, normal: Side)
    requires LinesError(input.lines).None?
    requires 0 < Largest(input.lines, account, normal.Opposite())
    ensures Post(Tight(input, account, normal), input).0 != Tight(input, account, normal)
  {
    TightHolds(input, account, normal);
    var b := Tight(input, account, normal);
    forall i | 0 <= i < |input.lines|
      ensures LineGuard(b, input.lines[i]).None?
    {
      var l := input.lines[i];
      assert b.accounts[l.account] == Row(l.account, account, normal);
    }
    assert |b.journal[0].key| != |input.key| && |b.journal[0].reference| != |input.reference|;
    assert Post(b, input).1 == Posted(1);
  }

  lemma {:induction false} DepositValid(input: PostInput, account: nat, normal: Side, float: nat, m: int)
    requires 0 < m && account != float
    ensures LinesError(Deposit(input, account, normal, float, m).lines).None?
  {
    var lines := Deposit(input, account, normal, float, m).lines;
    forall side: Side ensures Sum(lines, InputOn(side)) == m {
      SumPair(lines[0], lines[1], InputOn(side));
      assert lines == [lines[0], lines[1]];
    }
  }

  lemma {:induction false} DepositNet(input: PostInput, account: nat, normal: Side, float: nat, m: int)
    requires account != float
    ensures var lines := Deposit(input, account, normal, float, m).lines;
            && Sum(lines, OnInput(account, normal)) == m
            && Sum(lines, OnInput(account, normal.Opposite())) == 0
  {
    var lines := Deposit(input, account, normal, float, m).lines;
    forall side: Side ensures Sum(lines, OnInput(account, side)) == if side == normal then m else 0 {
      SumPair(lines[0], lines[1], OnInput(account, side));
      assert lines == [lines[0], lines[1]];
    }
  }

  /**
   * The exact condition. A well-formed entry is safe for an account in every
   * ledger if and only if it is covered; an uncovered one overdraws the
   * account in some ledger that accepts it.
   */
  lemma {:induction false} SafeExactlyWhenCovered(input: PostInput, account: nat, normal: Side)
    requires LinesError(input.lines).None?
    ensures Covered(input.lines, account, normal) <==> forall b :: KeepsSolvent(b, input, account, normal)
  {
    if Covered(input.lines, account, normal) {
      forall b ensures KeepsSolvent(b, input, account, normal) {
        if Sound(b) && account < |b.accounts| && b.accounts[account].normal == normal
           && !b.accounts[account].allowNegative && 0 <= Balance(b, account) {
          CoveredStaysSolvent(b, input, None, account);
        }
      }
    } else {
      UncoveredDraws(input.lines, account, normal);
      TightHolds(input, account, normal);
      TightAccepts(input, account, normal);
      var b := Tight(input, account, normal);
      PostMoves(b, input, None, account);
      assert !KeepsSolvent(b, input, account, normal);
    }
  }

  lemma {:induction false} UncoveredDraws(lines: seq<LineInput>, account: nat, normal: Side)
    requires forall i :: 0 <= i < |lines| ==> 0 < lines[i].amount
    requires !Covered(lines, account, normal)
    ensures 0 < Largest(lines, account, normal.Opposite())
  {
    if Largest(lines, account, normal.Opposite()) <= 0 {
      SumPointwise(lines, OnInput(account, normal.Opposite()), lines, (l: LineInput) => 0);
      AllZero(lines);
      SumNonNegative(lines, OnInput(account, normal));
    }
  }

  lemma {:induction false} AllZero(lines: seq<LineInput>)
    ensures Sum(lines, (l: LineInput) => 0) == 0
  {
    if lines != [] {
      AllZero(lines[..|lines| - 1]);
    }
  }

  // ---- Whole runs ----

  function One(account: nat, side: Side): Line -> int {
    (l: Line) => if l.account == account && l.direction == side then 1 else 0
  }

  function OneInput(account: nat, side: Side): LineInput -> int {
    (l: LineInput) => if l.account == account && l.direction == side then 1 else 0
  }

  /** `NamesOnce` on stored lines, in a form that reordering and flipping preserve. */
  ghost predicate StoredOnce(lines: seq<Line>) {
    forall account: nat, side: Side :: Sum(lines, One(account, side)) <= 1
  }

  lemma {:induction false} NamesOnceCounts(lines: seq<LineInput>, account: nat, side: Side)
    requires NamesOnce(lines)
    ensures 0 <= Sum(lines, OneInput(account, side)) <= 1
    ensures Sum(lines, OneInput(account, side)) == 1 ==>
              exists i :: 0 <= i < |lines| && lines[i].account == account && lines[i].direction == side
  {
    if lines != [] {
      var init := lines[..|lines| - 1];
      NamesOnceCounts(init, account, side);
      if Sum(init, OneInput(account, side)) == 1 {
        var i :| 0 <= i < |init| && init[i].account == account && init[i].direction == side;
        assert lines[i] == init[i];
      }
      var l := lines[|lines| - 1];
      if l.account == account && l.direction == side {
        assert lines[|lines| - 1].account == account;
      }
    }
  }

  lemma {:induction false} CountedOnceDraw(lines: seq<LineInput>, account: nat, side: Side)
    requires forall i :: 0 <= i < |lines| ==> 0 < lines[i].amount
    requires Sum(lines, OneInput(account, side)) <= 1
    ensures 0 <= Sum(lines, OneInput(account, side))
    ensures Sum(lines, OneInput(account, side)) == 0 ==> Sum(lines, OnInput(account, side)) == 0
    ensures Sum(lines, OnInput(account, side)) <= Largest(lines, account, side)
  {
    if lines != [] {
      var init := lines[..|lines| - 1];
      CountNonNegative(init, account, side);
      CountedOnceDraw(init, account, side);
    }
  }

  lemma {:induction false} CountNonNegative(lines: seq<LineInput>, account: nat, side: Side)
    ensures 0 <= Sum(lines, OneInput(account, side))
  {
    SumNonNegative(lines, OneInput(account, side));
  }

  /** An entry that names no account twice on a side is covered everywhere. */
  lemma {:induction false} OnceIsCovered(lines: seq<LineInput>, account: nat, normal: Side)
    requires forall i :: 0 <= i < |lines| ==> 0 < lines[i].amount
    requires Sum(lines, OneInput(account, normal.Opposite())) <= 1
    ensures Covered(lines, account, normal)
  {
    CountedOnceDraw(lines, account, normal.Opposite());
    SumNonNegative(lines, OnInput(account, normal));
  }

  /** The whole-run invariant. */
  ghost predicate Solvent(b: Books) {
    && Sound(b)
    && (forall i :: 0 <= i < |b.journal| ==> StoredOnce(b.journal[i].lines))
    && (forall a :: 0 <= a < |b.accounts| && !b.accounts[a].allowNegative ==> 0 <= Balance(b, a))
  }

  lemma {:induction false} WriteSolvent(b: Books, input: PostInput, reversalOf: Option<nat>)
    requires Solvent(b)
    requires Sound(PostWithin(b, input, reversalOf).0)
    requires forall account: nat, side: Side :: Sum(input.lines, OneInput(account, side)) <= 1
    ensures Solvent(PostWithin(b, input, reversalOf).0)
  {
    hide Balance;
    hide GuardError;
    var after := PostWithin(b, input, reversalOf).0;
    if after != b {
      var e := NewEntry(input, reversalOf);
      forall account: nat, side: Side
        ensures Sum(e.lines, One(account, side)) <= 1
      {
        SumPointwise(e.lines, One(account, side), input.lines, OneInput(account, side));
      }
      assert StoredOnce(e.lines);
      forall a | 0 <= a < |after.accounts| && !after.accounts[a].allowNegative
        ensures 0 <= Balance(after, a)
      {
        OnceIsCovered(input.lines, a, b.accounts[a].normal);
        CoveredStaysSolvent(b, input, reversalOf, a);
      }
    }
  }

  lemma {:induction false} FlippedOnce(e: Entry, loaded: seq<Line>, account: nat, side: Side)
    requires StoredOnce(e.lines)
    ensures Sum(Flipped(LoadLines(e, loaded)), OneInput(account, side)) <= 1
  {
    var order := LoadLines(e, loaded);
    SumPointwise(Flipped(order), OneInput(account, side), order, One(account, side.Opposite()));
    SumPermutation(order, e.lines, One(account, side.Opposite()));
  }

  /** Opening an account or changing a status or terms leaves every old balance alone. */
  lemma {:induction false} NewRowsSolvent(b: Books, r: Request)
    requires Solvent(b) && !r.PostRequest? && !r.ReverseRequest?
    ensures Solvent(Step(b, r).0)
  {
    StepSound(b, r);
    var after := Step(b, r).0;
    forall a | 0 <= a < |after.accounts| && !after.accounts[a].allowNegative
      ensures 0 <= Balance(after, a)
    {
      if a == |b.accounts| {
        UntouchedBalance(b, after, a);
      } else {
        assert Balance(after, a) == Balance(b, a);
      }
    }
  }

  lemma {:induction false} UntouchedBalance(b: Books, after: Books, a: nat)
    requires Sound(b) && after.journal == b.journal && |b.accounts| <= a < |after.accounts|
    ensures Balance(after, a) == 0
  {
    LinesBalanced(b.journal, |b.accounts|);
    var lines, normal := Lines(b.journal), after.accounts[a].normal;
    SumPointwise(lines, On(a, normal), lines, On(a, normal.Opposite()));
  }

  lemma {:induction false} StepSolvent(b: Books, r: Request)
    requires Solvent(b)
    requires r.PostRequest? ==> NamesOnce(r.post.lines)
    ensures Solvent(Step(b, r).0)
  {
    StepSound(b, r);
    match r
    case PostRequest(post) =>
      forall account: nat, side: Side ensures Sum(post.lines, OneInput(account, side)) <= 1 {
        NamesOnceCounts(post.lines, account, side);
      }
      WriteSolvent(b, post, None);
    case ReverseRequest(reverse, loaded) =>
      if Reverse(b, reverse, loaded).0 != b {
        var original := b.journal[reverse.entryId];
        var input := ReversalInput(original, reverse, loaded);
        forall account: nat, side: Side ensures Sum(input.lines, OneInput(account, side)) <= 1 {
          FlippedOnce(original, loaded, account, side);
        }
        WriteSolvent(b, input, Some(reverse.entryId));
      }
    case OpenRequest(_) => NewRowsSolvent(b, r);
    case StatusRequest(_, _) => NewRowsSolvent(b, r);
    case TermsRequest(_, _) => NewRowsSolvent(b, r);
  }

  /**
   * Over every run whose posts name no account twice on a side, reversals and
   * reversals of reversals included, no guarded account is ever below zero.
   */
  lemma {:induction false} RunSolvent(requests: seq<Request>)
    requires forall i :: 0 <= i < |requests| && requests[i].PostRequest? ==> NamesOnce(requests[i].post.lines)
    ensures Solvent(Run(EMPTY, requests).0)
  {
    if requests != [] {
      var init := requests[..|requests| - 1];
      RunSolvent(init);
      StepSolvent(Run(EMPTY, init).0, requests[|requests| - 1]);
    }
  }
}
