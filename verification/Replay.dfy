/**
 * Idempotency over whole runs: repeating a request that has already succeeded,
 * any number of times and at any later moments, cannot be told from not
 * repeating it.
 */
module Replay {
  import opened Domain
  import opened Ledger
  import opened LedgerRuns

  // ---- An answered request stays answered ----

  /** The journal already holds entry `id` under the request's key. */
  ghost predicate Answered(b: Books, r: Request, id: nat) {
    && KeyOf(r).Some?
    && FindKey(b.journal, KeyOf(r).value) == Some(id)
    && (r.PostRequest? ==> LinesError(r.post.lines).None?)
  }

  lemma {:induction false} AnsweredIsAbsorbed(b: Books, r: Request, id: nat)
    requires Answered(b, r, id)
    ensures Step(b, r) == (b, Posted(id))
  {
  }

  lemma {:induction false} SuccessIsAnswered(b: Books, r: Request)
    requires Step(b, r).1.Posted?
    ensures Answered(Step(b, r).0, r, Step(b, r).1.id)
  {
    StepShape(b, r);
    var (after, reply) := Step(b, r);
    if after.journal != b.journal {
      assert after.journal[..|b.journal|] == b.journal;
    }
  }

  lemma {:induction false} AnsweredForever(b: Books, r: Request, id: nat, later: Request)
    requires Answered(b, r, id)
    ensures Answered(Step(b, later).0, r, id)
  {
    StepShape(b, later);
    var after := Step(b, later).0;
    if after.journal != b.journal {
      assert after.journal[..|b.journal|] == b.journal;
    }
  }

  lemma {:induction false} SuccessStaysAnswered(b: Books, requests: seq<Request>, k: nat)
    requires k < |requests| && Run(b, requests).1[k].Posted?
    ensures Answered(Run(b, requests).0, requests[k], Run(b, requests).1[k].id)
    decreases |requests|
  {
    var last := |requests| - 1;
    var init := requests[..last];
    if k == last {
      SuccessIsAnswered(Run(b, init).0, requests[k]);
    } else {
      SuccessStaysAnswered(b, init, k);
      AnsweredForever(Run(b, init).0, requests[k], Run(b, init).1[k].id, requests[last]);
    }
  }

  // ---- Erasing copies from a run ----

  /** The same request, but that the database may read a reversed entry's lines back in another order. */
  predicate SameRequest(a: Request, b: Request) {
    a == b || (a.ReverseRequest? && b.ReverseRequest? && a.reverse == b.reverse)
  }

  lemma {:induction false} AnsweredAlike(b: Books, r: Request, s: Request, id: nat)
    requires SameRequest(r, s) && Answered(b, r, id)
    ensures Answered(b, s, id)
  {
  }

  /** A request sent for the first time, or sent again after it succeeded. */
  datatype Sent = First(request: Request) | Again(request: Request)

  function All(sent: seq<Sent>): (requests: seq<Request>)
    ensures |requests| == |sent|
    ensures forall i :: 0 <= i < |sent| ==> requests[i] == sent[i].request
  {
    seq(|sent|, i requires 0 <= i < |sent| => sent[i].request)
  }

  function Firsts(sent: seq<Sent>): seq<Request> {
    if sent == [] then []
    else
      var init := Firsts(sent[..|sent| - 1]);
      var last := sent[|sent| - 1];
      if last.First? then init + [last.request] else init
  }

  /** The replies that answered first sendings. */
  function FirstReplies(sent: seq<Sent>, replies: seq<Reply>): seq<Reply>
    requires |sent| == |replies|
  {
    if sent == [] then []
    else
      var last := |sent| - 1;
      var init := FirstReplies(sent[..last], replies[..last]);
      if sent[last].First? then init + [replies[last]] else init
  }

  /** Copy `i` repeats the earlier sending `k`, which had succeeded. */
  ghost predicate Repeats(b: Books, sent: seq<Sent>, i: nat, k: nat)
    requires i < |sent|
  {
    && k < i
    && sent[k].First? && SameRequest(sent[k].request, sent[i].request)
    && Run(b, All(sent)).1[k].Posted?
  }

  /** Every copy repeats some success. */
  ghost predicate OnlySuccessesRepeated(b: Books, sent: seq<Sent>) {
    forall i :: 0 <= i < |sent| && sent[i].Again? ==> exists k: nat :: Repeats(b, sent, i, k)
  }

  lemma {:induction false} RepeatsInPrefix(b: Books, sent: seq<Sent>, i: nat, k: nat)
    requires i < |sent| - 1
    ensures Repeats(b, sent, i, k) <==> Repeats(b, sent[..|sent| - 1], i, k)
  {
    var init := sent[..|sent| - 1];
    assert All(sent)[..|sent| - 1] == All(init);
  }

  /**
   * The run with the copies and the run without them end in the same books,
   * give every first sending the same reply, and give each copy the reply its
   * original had.
   */
  lemma {:induction false} ReplayErasure(b: Books, sent: seq<Sent>)
    requires OnlySuccessesRepeated(b, sent)
    ensures Run(b, All(sent)).0 == Run(b, Firsts(sent)).0
    ensures FirstReplies(sent, Run(b, All(sent)).1) == Run(b, Firsts(sent)).1
    ensures forall i: nat, k: nat :: i < |sent| && sent[i].Again? && Repeats(b, sent, i, k) ==>
              Run(b, All(sent)).1[i] == Run(b, All(sent)).1[k]
    decreases |sent|
  {
    if sent != [] {
      var last := |sent| - 1;
      var init := sent[..last];
      assert All(sent)[..last] == All(init);
      var before := Run(b, All(init));
      assert Run(b, All(sent)).1[..last] == before.1;
      forall i | 0 <= i < |init| && init[i].Again?
        ensures exists k: nat :: Repeats(b, init, i, k)
      {
        var k: nat :| Repeats(b, sent, i, k);
        RepeatsInPrefix(b, sent, i, k);
      }
      ReplayErasure(b, init);
      forall i: nat, k: nat | i < |sent| && sent[i].Again? && Repeats(b, sent, i, k)
        ensures Run(b, All(sent)).1[i] == Run(b, All(sent)).1[k]
      {
        if i < last {
          RepeatsInPrefix(b, sent, i, k);
        } else {
          CopyAbsorbed(b, sent, k);
        }
      }
      if sent[last].Again? {
        var k: nat :| Repeats(b, sent, last, k);
        CopyAbsorbed(b, sent, k);
      } else {
        assert Firsts(sent)[..|Firsts(init)|] == Firsts(init);
      }
    }
  }

  lemma {:induction false} CopyAbsorbed(b: Books, sent: seq<Sent>, k: nat)
    requires 0 < |sent| && Repeats(b, sent, |sent| - 1, k)
    ensures var before := Run(b, All(sent[..|sent| - 1]));
            Run(b, All(sent)) == (before.0, before.1 + [before.1[k]])
  {
    var init := sent[..|sent| - 1];
    assert All(sent)[..|sent| - 1] == All(init);
    var before := Run(b, All(init));
    SuccessStaysAnswered(b, All(init), k);
    AnsweredAlike(before.0, sent[k].request, sent[|sent| - 1].request, before.1[k].id);
    AnsweredIsAbsorbed(before.0, sent[|sent| - 1].request, before.1[k].id);
  }

  /** So no key ever has two entries, and entries and outbox events pair off one to one. */
  lemma {:induction false} OneEntryOneEvent(requests: seq<Request>)
    ensures var b := Run(EMPTY, requests).0;
            && (forall i, k :: 0 <= i < |b.journal| && 0 <= k < |b.journal| && b.journal[i].key == b.journal[k].key ==> i == k)
            && |b.outbox| == |b.journal|
            && (forall i :: 0 <= i < |b.journal| ==>
                  && b.outbox[i].entryId == i
                  && b.outbox[i].reference == b.journal[i].reference
                  && b.outbox[i].lineCount == |b.journal[i].lines|)
  {
    RunSound(EMPTY, requests);
  }
}
