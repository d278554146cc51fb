/**
 * Provisioning when metadata writes are lost: the reserve is then more than the
 * highest target, by exactly what a small tally says.
 */
module LostWrites {
  import opened Sums
  import opened Domain
  import opened Ledger
  import opened LedgerRuns
  import opened Provision
  import W = Wallet

  // ---- The tally ----

  /** What a pass aims at, and whether its metadata write goes through. */
  datatype Aim = Aim(target: int, written: bool)

  /** The targets that have an entry, what is reserved, and what the metadata says is. */
  datatype Tally = Tally(posted: set<int>, reserved: int, provisioned: int)

  const NOTHING := Tally({}, 0, 0)

  /** A pass posts the shortfall unless its target has an entry, and then writes the target down. */
  function Pass(t: Tally, aim: Aim): Tally {
    if aim.target <= t.provisioned then t
    else
      Tally(t.posted + {aim.target},
            if aim.target in t.posted then t.reserved else t.reserved + aim.target - t.provisioned,
            if aim.written then aim.target else t.provisioned)
  }

  function PassAll(aims: seq<Aim>): Tally {
    if aims == [] then NOTHING else Pass(PassAll(aims[..|aims| - 1]), aims[|aims| - 1])
  }

  const TARGET: Aim -> int := (aim: Aim) => aim.target

  /** With every write lost, passes whose targets keep rising reserve the sum of them all. */
  lemma {:induction false} LostWritesAddUp(aims: seq<Aim>)
    requires forall i :: 0 <= i < |aims| ==> 0 < aims[i].target && !aims[i].written
    requires forall i, k :: 0 <= i < k < |aims| ==> aims[i].target < aims[k].target
    ensures PassAll(aims).provisioned == 0 && PassAll(aims).reserved == Sum(aims, TARGET)
    ensures forall u :: u in PassAll(aims).posted ==> exists i :: 0 <= i < |aims| && aims[i].target == u
  {
    if aims != [] {
      var n := |aims| - 1;
      var init := aims[..n];
      LostWritesAddUp(init);
      assert forall u :: u in PassAll(init).posted ==> u < aims[n].target;
      forall u | u in PassAll(aims).posted ensures exists i :: 0 <= i < |aims| && aims[i].target == u {
        if u in PassAll(init).posted {
          var i :| 0 <= i < |init| && init[i].target == u;
          assert aims[i].target == u;
        } else {
          assert aims[n].target == u;
        }
      }
    }
  }

  /** Whatever is lost, the reserve covers the metadata and every posted target, and no pass adds more than its own target. */
  lemma {:induction false} TallyBounds(aims: seq<Aim>)
    ensures var t := PassAll(aims);
            && 0 <= t.provisioned <= t.reserved <= Sum(aims, (aim: Aim) => if aim.target < 0 then 0 else aim.target)
            && (forall u :: u in t.posted ==> 0 < u <= t.reserved)
            && (t.provisioned == 0 || t.provisioned in t.posted)
  {
    if aims != [] {
      TallyBounds(aims[..|aims| - 1]);
    }
  }

  // ---- The books follow the tally ----

  /** The books' reserve, metadata and provision entries are the tally's. */
  ghost predicate Tallies(b: Books, loan: nat, accounts: Accounts, t: Tally) {
    && CanProvision(b, loan, accounts)
    && b.accounts[loan].terms.Loan?
    && Provisioned(b, loan) == t.provisioned && 0 <= t.provisioned
    && Reserved(b, loan, accounts.reserve) == t.reserved
    && forall u: nat :: FindKey(b.journal, ProvisionKey(loan, u)).Some? <==> u in t.posted
  }

  /** The pass leaves only keys of its own target new. */
  lemma {:induction false} KeysAfter(b: Books, posted: Books, loan: nat, target: nat)
    requires |posted.journal| == |b.journal| + 1 && posted.journal[..|b.journal|] == b.journal
    requires posted.journal[|b.journal|].key == ProvisionKey(loan, target)
    ensures forall u: nat :: FindKey(posted.journal, ProvisionKey(loan, u)).Some?
                             <==> FindKey(b.journal, ProvisionKey(loan, u)).Some? || u == target
  {
    forall u: nat
      ensures FindKey(posted.journal, ProvisionKey(loan, u)).Some?
              <==> FindKey(b.journal, ProvisionKey(loan, u)).Some? || u == target
    {
      if ProvisionKey(loan, u) == ProvisionKey(loan, target) {
        KeyPerTarget(loan, u, target);
      }
    }
  }

  /** Posting towards a target that has no entry yet. */
  lemma {:induction false} NewTarget(b: Books, loan: nat, accounts: Accounts, t: Tally, target: nat)
    requires Tallies(b, loan, accounts, t) && t.provisioned < target && target !in t.posted
    ensures var (posted, reply) := Post(b, ProvisionMove(accounts, ProvisionKey(loan, target), target - t.provisioned));
            && reply.Posted? && posted.accounts == b.accounts
            && Tallies(posted, loan, accounts, Tally(t.posted + {target}, t.reserved + target - t.provisioned, t.provisioned))
  {
    hide Balance;
    var delta, key := target - t.provisioned, ProvisionKey(loan, target);
    assert FindKey(b.journal, key).None? && !ReferenceUsed(b.journal, key);
    ProvisionUnrefused(b, loan, accounts, delta);
    W.MoveAccepted(b, "loan_loss_provision", accounts.expense, accounts.reserve, delta, W.Slip(key, key, "Loan loss provision"));
    ProvisionPosts(b, loan, accounts, target, delta);
    var posted := Post(b, ProvisionMove(accounts, key, delta)).0;
    KeysAfter(b, posted, loan, target);
    KeysStillOwn(b, posted, loan, target);
  }

  /** Posting towards a target that has its entry changes nothing and is answered as a success. */
  lemma {:induction false} OldTarget(b: Books, accounts: Accounts, key: string, delta: int)
    requires FindKey(b.journal, key).Some? && 0 < delta
    ensures var (posted, reply) := Post(b, ProvisionMove(accounts, key, delta));
            reply.Posted? && posted == b
  {
    W.MoveWellFormed("loan_loss_provision", accounts.expense, accounts.reserve, delta, W.Slip(key, key, "Loan loss provision"));
  }

  lemma {:induction false} WrittenTallies(b: Books, loan: nat, accounts: Accounts, t: Tally, target: nat)
    requires Tallies(b, loan, accounts, t)
    ensures Tallies(SetTerms(b, loan, b.accounts[loan].terms.(provisionedKobo := target)).0, loan, accounts, t.(provisioned := target))
  {
  }

  lemma {:induction false} PassTallies(b: Books, loan: nat, accounts: Accounts, t: Tally, asOf: int, written: bool)
    requires Tallies(b, loan, accounts, t)
    ensures Tallies(Tick(b, loan, accounts, b.accounts[loan].terms, asOf, written), loan, accounts,
                    Pass(t, Aim(TargetNow(b, loan, asOf), written)))
  {
    hide Tallies;
    hide Balance;
    hide TargetOf;
    hide Post;
    hide Pass;
    TalliesProvisioned(b, loan, accounts, t);
    var terms, target := b.accounts[loan].terms, TargetNow(b, loan, asOf);
    if 0 < Balance(b, loan) {
      TargetNonNegative(Balance(b, loan), terms.maturity, asOf);
      assert Tick(b, loan, accounts, terms, asOf, written) == RaiseTo(b, loan, accounts, terms, target, written, ProvisionKey(loan, target));
      RaiseTallies(b, loan, accounts, t, target, written);
    } else {
      NothingDue(t, written);
    }
  }

  lemma {:induction false} NothingDue(t: Tally, written: bool)
    requires 0 <= t.provisioned
    ensures Pass(t, Aim(0, written)) == t
  {
  }

  lemma {:induction false} RaiseTallies(b: Books, loan: nat, accounts: Accounts, t: Tally, target: nat, written: bool)
    requires Tallies(b, loan, accounts, t)
    ensures Tallies(RaiseTo(b, loan, accounts, b.accounts[loan].terms, target, written, ProvisionKey(loan, target)),
                    loan, accounts, Pass(t, Aim(target, written)))
  {
    hide Tallies;
    hide Post;
    hide SetTerms;
    TalliesProvisioned(b, loan, accounts, t);
    if t.provisioned < target {
      if target in t.posted {
        PostedHasKey(b, loan, accounts, t, target);
        OldTarget(b, accounts, ProvisionKey(loan, target), target - t.provisioned);
        SamePosted(b, loan, accounts, t, target);
      } else {
        NewTarget(b, loan, accounts, t, target);
      }
      var posted := Post(b, ProvisionMove(accounts, ProvisionKey(loan, target), target - t.provisioned)).0;
      assert posted.accounts == b.accounts;
      var tally := Pass(t, Aim(target, false));
      assert Tallies(posted, loan, accounts, tally);
      WrittenTallies(posted, loan, accounts, tally, target);
    }
  }

  lemma {:induction false} TalliesProvisioned(b: Books, loan: nat, accounts: Accounts, t: Tally)
    requires Tallies(b, loan, accounts, t)
    ensures loan < |b.accounts| && b.accounts[loan].terms.Loan? && b.accounts[loan].terms.provisionedKobo == t.provisioned >= 0
  {
  }

  lemma {:induction false} PostedHasKey(b: Books, loan: nat, accounts: Accounts, t: Tally, target: nat)
    requires Tallies(b, loan, accounts, t) && target in t.posted
    ensures FindKey(b.journal, ProvisionKey(loan, target)).Some?
  {
  }

  lemma {:induction false} SamePosted(b: Books, loan: nat, accounts: Accounts, t: Tally, target: nat)
    requires Tallies(b, loan, accounts, t) && target in t.posted
    ensures Tallies(b, loan, accounts, t.(posted := t.posted + {target}))
  {
    assert t.posted + {target} == t.posted;
  }

  lemma {:induction false} TrafficTallies(b: Books, loan: nat, accounts: Accounts, t: Tally, request: Request)
    requires Tallies(b, loan, accounts, t) && Clear(b, request, loan)
    requires request.StatusRequest? ==> request.target !in [accounts.expense, accounts.reserve]
    ensures Tallies(Step(b, request).0, loan, accounts, t)
  {
    StepShape(b, request);
    var after := Step(b, request).0;
    assert after.accounts[accounts.expense].status == b.accounts[accounts.expense].status;
    assert after.accounts[accounts.reserve].status == b.accounts[accounts.reserve].status;
    if after.journal != b.journal {
      ReferencesStillOwn(b, after, loan);
      var e := after.journal[|b.journal|];
      assert after.journal == b.journal + [e];
      SumAppend(b.journal, e, Reserving(loan, accounts.reserve));
      assert forall u: nat :: Prefix(loan) <= ProvisionKey(loan, u);
    }
  }

  /** The aims of a run's passes, in order. */
  function Aims(b: Books, loan: nat, accounts: Accounts, steps: seq<PeakStep>): seq<Aim> {
    if steps == [] then []
    else
      var init, last := steps[..|steps| - 1], steps[|steps| - 1];
      var before := Play(b, loan, accounts, init);
      if last.FreshPass? && loan < |before.accounts| && before.accounts[loan].terms.Loan?
      then Aims(b, loan, accounts, init) + [Aim(TargetNow(before, loan, last.asOf), last.written)]
      else Aims(b, loan, accounts, init)
  }

  lemma {:induction false} ClearInit(b: Books, loan: nat, accounts: Accounts, steps: seq<PeakStep>)
    requires AllClear(b, loan, accounts, steps) && steps != []
    ensures AllClear(b, loan, accounts, steps[..|steps| - 1])
    ensures var last := steps[|steps| - 1];
            last.OtherTraffic? ==>
              && Clear(Play(b, loan, accounts, steps[..|steps| - 1]), last.request, loan)
              && (last.request.StatusRequest? ==> last.request.target !in [accounts.expense, accounts.reserve])
  {
    hide Play;
    hide Clear;
    var init := steps[..|steps| - 1];
    assert forall i :: 0 <= i < |init| ==> init[..i] == steps[..i] && init[i] == steps[i];
  }

  /** Whatever writes are lost, the reserve, the metadata and the entries are exactly what the tally of the passes' aims says. */
  lemma {:induction false} ReserveIsTally(b: Books, loan: nat, accounts: Accounts, steps: seq<PeakStep>)
    requires Tallies(b, loan, accounts, NOTHING)
    requires AllClear(b, loan, accounts, steps)
    ensures Tallies(Play(b, loan, accounts, steps), loan, accounts, PassAll(Aims(b, loan, accounts, steps)))
  {
    hide Tallies;
    hide Tick;
    hide Step;
    hide TargetNow;
    hide AllClear;
    hide Clear;
    hide Pass;
    if steps != [] {
      var n := |steps| - 1;
      var init := steps[..n];
      ClearInit(b, loan, accounts, steps);
      ReserveIsTally(b, loan, accounts, init);
      var before := Play(b, loan, accounts, init);
      var aims := Aims(b, loan, accounts, init);
      TalliesProvisioned(before, loan, accounts, PassAll(aims));
      match steps[n] {
        case FreshPass(asOf, written) =>
          var aim := Aim(TargetNow(before, loan, asOf), written);
          PassTallies(before, loan, accounts, PassAll(aims), asOf, written);
          assert (aims + [aim])[..|aims|] == aims;
        case OtherTraffic(request) => TrafficTallies(before, loan, accounts, PassAll(aims), request);
      }
    }
  }
}
