/**
 * Reversals can themselves be reversed. Each original entry heads a chain;
 * every link undoes the one before it, so only the parity of a chain's length
 * matters to any balance.
 */
module Reversals {
  import opened Sums
  import opened Domain
  import opened Ledger
  import opened LedgerRuns

  /** Enough for chains to be well founded: every reversal points back. */
  ghost predicate Linked(journal: seq<Entry>) {
    forall i :: 0 <= i < |journal| && journal[i].reversalOf.Some? ==> journal[i].reversalOf.value < i
  }

  /** The original entry at the head of the chain entry `i` belongs to. */
  ghost function Root(journal: seq<Entry>, i: nat): (root: nat)
    requires Linked(journal) && i < |journal|
    ensures root <= i && journal[root].reversalOf.None?
    decreases i
  {
    if journal[i].reversalOf.None? then i else Root(journal, journal[i].reversalOf.value)
  }

  /** How many reversals lie between entry `i` and the head of its chain. */
  ghost function Depth(journal: seq<Entry>, i: nat): nat
    requires Linked(journal) && i < |journal|
    decreases i
  {
    if journal[i].reversalOf.None? then 0 else 1 + Depth(journal, journal[i].reversalOf.value)
  }

  /** The number of reversals, among the first `m` entries, in the chain headed by `root`. */
  ghost function ChainLength(journal: seq<Entry>, root: nat, m: nat): nat
    requires Linked(journal) && m <= |journal|
  {
    if m == 0 then 0
    else ChainLength(journal, root, m - 1) + if m - 1 != root && Root(journal, m - 1) == root then 1 else 0
  }

  // ---- Appending leaves earlier chains as they were ----

  lemma {:induction false} ChainedPrefix(journal: seq<Entry>, e: Entry)
    requires Chained(journal + [e])
    ensures Chained(journal)
    ensures e.reversalOf.Some? ==>
              && e.reversalOf.value < |journal|
              && !HasReversal(journal, e.reversalOf.value)
              && Undoes(e.lines, journal[e.reversalOf.value].lines)
  {
    var longer := journal + [e];
    assert longer[|journal|] == e;
    forall i | 0 <= i < |journal| && journal[i].reversalOf.Some?
      ensures journal[i].reversalOf.value < i && Undoes(journal[i].lines, journal[journal[i].reversalOf.value].lines)
    {
      assert longer[i] == journal[i];
    }
    forall i, k | 0 <= i < k < |journal| && journal[k].reversalOf.Some?
      ensures journal[i].reversalOf != journal[k].reversalOf
    {
      assert longer[i] == journal[i] && longer[k] == journal[k];
    }
    if e.reversalOf.Some? {
      forall i | 0 <= i < |journal|
        ensures journal[i].reversalOf != Some(e.reversalOf.value)
      {
        assert longer[i] == journal[i];
      }
    }
  }

  lemma {:induction false} ChainedLinked(journal: seq<Entry>)
    requires Chained(journal)
    ensures Linked(journal)
  {
  }

  lemma {:induction false} SameRoots(journal: seq<Entry>, e: Entry, i: nat)
    requires Linked(journal) && Linked(journal + [e]) && i < |journal|
    ensures Root(journal + [e], i) == Root(journal, i)
    ensures Depth(journal + [e], i) == Depth(journal, i)
    decreases i
  {
    if journal[i].reversalOf.Some? {
      SameRoots(journal, e, journal[i].reversalOf.value);
    }
  }

  lemma {:induction false} SameLengths(journal: seq<Entry>, e: Entry, root: nat, m: nat)
    requires Linked(journal) && Linked(journal + [e]) && m <= |journal|
    ensures ChainLength(journal + [e], root, m) == ChainLength(journal, root, m)
  {
    if m != 0 {
      SameLengths(journal, e, root, m - 1);
      SameRoots(journal, e, m - 1);
    }
  }

  // ---- Chains are lines: they never branch ----

  /** A chain holds at most one entry at each depth. */
  lemma {:induction false} OnePerDepth(journal: seq<Entry>, x: nat, y: nat)
    requires Chained(journal) && x < |journal| && y < |journal|
    requires Root(journal, x) == Root(journal, y) && Depth(journal, x) == Depth(journal, y)
    ensures x == y
    decreases x
  {
    if journal[x].reversalOf.Some? {
      OnePerDepth(journal, journal[x].reversalOf.value, journal[y].reversalOf.value);
    }
  }

  lemma {:induction false} NoLaterMembers(journal: seq<Entry>, root: nat, m: nat)
    requires Linked(journal) && m <= |journal| && m <= root
    ensures ChainLength(journal, root, m) == 0
  {
    if m != 0 {
      NoLaterMembers(journal, root, m - 1);
    }
  }

  /** The entry no reversal points at is the last of its chain: its depth is the chain's whole length. */
  lemma {:induction false} UnreversedIsLast(journal: seq<Entry>, t: nat)
    requires Chained(journal) && t < |journal| && !HasReversal(journal, t)
    ensures Depth(journal, t) == ChainLength(journal, Root(journal, t), |journal|)
    decreases |journal|
  {
    hide Chained;
    hide Undoes;
    ChainedLinked(journal);
    var n := |journal| - 1;
    var init, e := journal[..n], journal[n];
    assert journal == init + [e];
    ChainedPrefix(init, e);
    ChainedLinked(init);
    SameLengths(init, e, Root(journal, t), n);
    if t == n {
      if e.reversalOf.None? {
        NoLaterMembers(journal, n, n);
      } else {
        var u := e.reversalOf.value;
        SameRoots(init, e, u);
        UnreversedIsLast(init, u);
      }
    } else {
      SameRoots(init, e, t);
      assert !HasReversal(init, t) by {
        assert forall i :: 0 <= i < n ==> init[i] == journal[i];
      }
      UnreversedIsLast(init, t);
      if e.reversalOf.Some? {
        var u := e.reversalOf.value;
        SameRoots(init, e, u);
        if Root(init, u) == Root(init, t) {
          UnreversedIsLast(init, u);
          OnePerDepth(init, u, t);
        }
      }
    }
  }

  // ---- Parity decides the balance ----

  /** What the originals with an even number of reversals do to an account. */
  ghost function EvenChains(journal: seq<Entry>, m: nat, account: nat, normal: Side): int
    requires Linked(journal) && m <= |journal|
  {
    if m == 0 then 0
    else
      EvenChains(journal, m - 1, account, normal)
      + if journal[m - 1].reversalOf.None? && ChainLength(journal, m - 1, |journal|) % 2 == 0
        then Net(journal[m - 1].lines, account, normal)
        else 0
  }

  /** Entry `i` does what its chain's head does, with the sign of its depth. */
  lemma {:induction false} DepthGivesSign(journal: seq<Entry>, i: nat, account: nat, normal: Side)
    requires Chained(journal) && i < |journal|
    ensures Net(journal[i].lines, account, normal)
            == if Depth(journal, i) % 2 == 0 then Net(journal[Root(journal, i)].lines, account, normal)
               else -Net(journal[Root(journal, i)].lines, account, normal)
    decreases i
  {
    if journal[i].reversalOf.Some? {
      var u := journal[i].reversalOf.value;
      UndoesNegates(journal[i].lines, journal[u].lines, account, normal);
      DepthGivesSign(journal, u, account, normal);
    }
  }

  /** Appending `e` can only change the parity of the one chain it joins. */
  lemma {:induction false} EvenChainsAppend(journal: seq<Entry>, e: Entry, m: nat, account: nat, normal: Side)
    requires Linked(journal) && Linked(journal + [e]) && m <= |journal|
    ensures var longer := journal + [e];
            var joined := Root(longer, |journal|);
            EvenChains(longer, m, account, normal) - EvenChains(journal, m, account, normal)
            == if joined < m then
                 if ChainLength(journal, joined, |journal|) % 2 == 0
                 then -Net(journal[joined].lines, account, normal)
                 else Net(journal[joined].lines, account, normal)
               else 0
  {
    if m != 0 {
      EvenChainsAppend(journal, e, m - 1, account, normal);
      SameLengths(journal, e, m - 1, |journal|);
    }
  }

  lemma {:induction false} NetAppend(journal: seq<Entry>, e: Entry, account: nat, normal: Side)
    ensures Net(Lines(journal + [e]), account, normal) == Net(Lines(journal), account, normal) + Net(e.lines, account, normal)
  {
    assert (journal + [e])[..|journal|] == journal;
    SumConcat(Lines(journal), e.lines, On(account, normal));
    SumConcat(Lines(journal), e.lines, On(account, normal.Opposite()));
  }

  /**
   * The net of all lines ever written is the net of those originals whose
   * chain has an even number of reversals.
   */
  lemma {:induction false} JournalNetIsEvenChains(journal: seq<Entry>, account: nat, normal: Side)
    requires Chained(journal)
    ensures Net(Lines(journal), account, normal) == EvenChains(journal, |journal|, account, normal)
  {
    if journal == [] {
    } else {
      hide Net;
      hide Chained;
      hide Undoes;
      var n := |journal| - 1;
      var init, e := journal[..n], journal[n];
      assert journal == init + [e];
      ChainedPrefix(init, e);
      ChainedLinked(journal);
      ChainedLinked(init);
      JournalNetIsEvenChains(init, account, normal);
      NetAppend(init, e, account, normal);
      EvenChainsAppend(init, e, n, account, normal);
      SameLengths(init, e, n, n);
      if e.reversalOf.None? {
        NoLaterMembers(init, n, n);
      } else {
        var u := e.reversalOf.value;
        SameRoots(init, e, u);
        UnreversedIsLast(init, u);
        DepthGivesSign(init, u, account, normal);
        UndoesNegates(e.lines, journal[u].lines, account, normal);
      }
    }
  }

  /** In every reachable ledger a balance is the sum over the evenly reversed originals alone. */
  lemma {:induction false} BalanceIsEvenChains(requests: seq<Request>, account: nat)
    requires account < |Run(EMPTY, requests).0.accounts|
    ensures var b := Run(EMPTY, requests).0;
            && Chained(b.journal)
            && Balance(b, account)
               == EvenChains(b.journal, |b.journal|, account, b.accounts[account].normal)
  {
    RunSound(EMPTY, requests);
    var b := Run(EMPTY, requests).0;
    JournalNetIsEvenChains(b.journal, account, b.accounts[account].normal);
  }
}
