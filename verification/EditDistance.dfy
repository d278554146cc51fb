/**
 * Edit distance (services/compliance/src/services/screeningService.js): the
 * one-row in-place table computes the fewest insertions, deletions and
 * replacements that turn one string into the other.
 */
module EditDistance {
  import opened Domain

  // ---- Edit scripts ----

  datatype Edit = Keep | Insert(c: char) | Delete | Replace(c: char)

  /** What a script makes of a string, if it fits it exactly. */
  function Apply(script: seq<Edit>, a: string): Option<string> {
    if script == [] then
      if a == [] then Some([]) else None
    else
      var init, last := script[..|script| - 1], script[|script| - 1];
      if last.Insert? then Then(Apply(init, a), [last.c])
      else if a == [] then None
      else
        var rest := Apply(init, a[..|a| - 1]);
        match last
        case Delete => rest
        case Keep => Then(rest, [a[|a| - 1]])
        case Replace(c) => Then(rest, [c])
  }

  function Then(s: Option<string>, tail: string): Option<string> {
    if s.None? then None else Some(s.value + tail)
  }

  /** Keeping a character is free; every other edit costs one. */
  function Cost(script: seq<Edit>): nat {
    if script == [] then 0
    else Cost(script[..|script| - 1]) + if script[|script| - 1].Keep? then 0 else 1
  }

  // ---- The recurrence ----

  function Min3(x: nat, y: nat, z: nat): (m: nat)
    ensures m <= x && m <= y && m <= z && (m == x || m == y || m == z)
  {
    if x <= y && x <= z then x else if y <= z then y else z
  }

  /** On equal last characters the diagonal is taken outright. */
  function Distance(a: string, b: string): nat
    decreases |a| + |b|
  {
    if a == [] then |b|
    else if b == [] then |a|
    else
      var a', b' := a[..|a| - 1], b[..|b| - 1];
      if a[|a| - 1] == b[|b| - 1] then Distance(a', b')
      else 1 + Min3(Distance(a', b'), Distance(a', b), Distance(a, b'))
  }

  lemma {:induction false} Symmetric(a: string, b: string)
    ensures Distance(a, b) == Distance(b, a)
    decreases |a| + |b|
  {
    if a != [] && b != [] {
      var a', b' := a[..|a| - 1], b[..|b| - 1];
      Symmetric(a', b');
      Symmetric(a', b);
      Symmetric(a, b');
    }
  }

  /** One more character moves the distance by at most one, either way. */
  lemma {:induction false} Neighbours(a: string, b: string)
    requires a != []
    ensures Distance(a, b) <= Distance(a[..|a| - 1], b) + 1
    ensures Distance(a[..|a| - 1], b) <= Distance(a, b) + 1
    decreases |a| + |b|
  {
    if b != [] {
      var a', b' := a[..|a| - 1], b[..|b| - 1];
      Symmetric(a', b);
      Symmetric(a', b');
      Symmetric(a, b);
      Symmetric(a, b');
      Neighbours(a, b');
      Neighbours(b, a');
    }
  }

  // ---- The recurrence is the minimum over scripts ----

  /** A cheapest script. */
  function Cheapest(a: string, b: string): seq<Edit>
    decreases |a| + |b|
  {
    if a == [] && b == [] then []
    else if a == [] then Cheapest(a, b[..|b| - 1]) + [Insert(b[|b| - 1])]
    else if b == [] then Cheapest(a[..|a| - 1], b) + [Delete]
    else
      var a', b' := a[..|a| - 1], b[..|b| - 1];
      var c := b[|b| - 1];
      if a[|a| - 1] == c then Cheapest(a', b') + [Keep]
      else
        var m := Min3(Distance(a', b'), Distance(a', b), Distance(a, b'));
        if m == Distance(a', b') then Cheapest(a', b') + [Replace(c)]
        else if m == Distance(a', b) then Cheapest(a', b) + [Delete]
        else Cheapest(a, b') + [Insert(c)]
  }

  /** The cheapest script ends with one edit of its last characters. */
  lemma {:induction false} CheapestEnds(a: string, b: string)
    requires a != [] || b != []
    ensures var script := Cheapest(a, b);
            var a' := if a == [] then a else a[..|a| - 1];
            var b' := if b == [] then b else b[..|b| - 1];
            && script != []
            && var init, last := script[..|script| - 1], script[|script| - 1];
               || (a != [] && b != [] && init == Cheapest(a', b')
                   && last == if a[|a| - 1] == b[|b| - 1] then Keep else Replace(b[|b| - 1]))
               || (a != [] && init == Cheapest(a', b) && last == Delete)
               || (b != [] && init == Cheapest(a, b') && last == Insert(b[|b| - 1]))
  {
    hide Distance;
  }

  lemma {:induction false} CheapestApplies(a: string, b: string)
    ensures Apply(Cheapest(a, b), a) == Some(b)
    decreases |a| + |b|
  {
    hide Distance;
    hide Cheapest;
    if a == [] && b == [] {
      EmptyApplies();
    } else {
      CheapestEnds(a, b);
      var script := Cheapest(a, b);
      var last := script[|script| - 1];
      assert b != [] ==> b == b[..|b| - 1] + [b[|b| - 1]];
      if last.Insert? {
        CheapestApplies(a, b[..|b| - 1]);
      } else if last.Delete? {
        CheapestApplies(a[..|a| - 1], b);
      } else {
        CheapestApplies(a[..|a| - 1], b[..|b| - 1]);
      }
    }
  }

  lemma {:induction false} EmptyApplies()
    ensures Apply(Cheapest([], []), []) == Some([])
  {
  }

  lemma {:induction false} CheapestCosts(a: string, b: string)
    ensures Cost(Cheapest(a, b)) == Distance(a, b)
    decreases |a| + |b|
  {
    if a != [] && b != [] { CheapestCosts(a[..|a| - 1], b[..|b| - 1]); }
    if a != [] { CheapestCosts(a[..|a| - 1], b); }
    if b != [] { CheapestCosts(a, b[..|b| - 1]); }
    if a != [] || b != [] {
      CheapestEnds(a, b);
    }
  }

  lemma {:induction false} CheapestReaches(a: string, b: string)
    ensures Apply(Cheapest(a, b), a) == Some(b)
    ensures Cost(Cheapest(a, b)) == Distance(a, b)
  {
    CheapestApplies(a, b);
    CheapestCosts(a, b);
  }

  lemma {:induction false} NoCheaper(script: seq<Edit>, a: string, b: string)
    requires Apply(script, a) == Some(b)
    ensures Distance(a, b) <= Cost(script)
    decreases |script|
  {
    if script != [] {
      var init, last := script[..|script| - 1], script[|script| - 1];
      if last.Insert? {
        var b' := b[..|b| - 1];
        assert Apply(init, a) == Some(b');
        NoCheaper(init, a, b');
        Neighbours(b, a);
        Symmetric(a, b);
        Symmetric(a, b');
      } else {
        var a' := a[..|a| - 1];
        if last.Delete? {
          NoCheaper(init, a', b);
          Neighbours(a, b);
        } else {
          var b' := b[..|b| - 1];
          assert Apply(init, a') == Some(b');
          NoCheaper(init, a', b');
        }
      }
    }
  }

  /** `d` is the fewest edits that turn `a` into `b`. */
  ghost predicate FewestEdits(a: string, b: string, d: nat) {
    && (exists script :: Apply(script, a) == Some(b) && Cost(script) == d)
    && (forall script :: Apply(script, a) == Some(b) ==> d <= Cost(script))
  }

  lemma {:induction false} DistanceIsFewestEdits(a: string, b: string)
    ensures FewestEdits(a, b, Distance(a, b))
  {
    CheapestReaches(a, b);
    forall script | Apply(script, a) == Some(b) ensures Distance(a, b) <= Cost(script) {
      NoCheaper(script, a, b);
    }
  }

  // ---- The one-row table ----

  /** The table cell for the first `i` characters of `a` and `j` of `b`. */
  ghost function Cell(a: string, b: string, i: nat, j: nat): nat
    requires i <= |a| && j <= |b|
  {
    Distance(a[..i], b[..j])
  }

  lemma {:induction false} CellRecurrence(a: string, b: string, i: nat, j: nat)
    requires 0 < i <= |a| && 0 < j <= |b|
    ensures Cell(a, b, i, j)
            == if a[i - 1] == b[j - 1] then Cell(a, b, i - 1, j - 1)
               else 1 + Min3(Cell(a, b, i - 1, j - 1), Cell(a, b, i - 1, j), Cell(a, b, i, j - 1))
  {
    assert a[..i][..i - 1] == a[..i - 1] && b[..j][..j - 1] == b[..j - 1];
  }

  method Table(a: string, b: string) returns (d: nat)
    requires a != [] && b != []
    ensures d == Cell(a, b, |a|, |b|)
  {
    var m, n := |a|, |b|;
    var dp := new nat[n + 1];
    for j := 0 to n + 1
      invariant forall k :: 0 <= k < j ==> dp[k] == Cell(a, b, 0, k)
    {
      dp[j] := j;
    }
    for i := 1 to m + 1
      invariant forall k :: 0 <= k <= n ==> dp[k] == Cell(a, b, i - 1, k)
    {
      var prev := dp[0];
      dp[0] := i;
      for j := 1 to n + 1
        invariant prev == Cell(a, b, i - 1, j - 1)
        invariant forall k :: 0 <= k < j ==> dp[k] == Cell(a, b, i, k)
        invariant forall k :: j <= k <= n ==> dp[k] == Cell(a, b, i - 1, k)
      {
        CellRecurrence(a, b, i, j);
        var temp := dp[j];
        dp[j] := if a[i - 1] == b[j - 1] then prev else 1 + Min3(prev, dp[j], dp[j - 1]);
        prev := temp;
      }
    }
    return dp[n];
  }

  method Levenshtein(a: string, b: string) returns (d: nat)
    ensures d == Distance(a, b)
    ensures FewestEdits(a, b, d)
  {
    DistanceIsFewestEdits(a, b);
    if |a| == 0 {
      return |b|;
    }
    if |b| == 0 {
      return |a|;
    }
    d := Table(a, b);
    assert a[..|a|] == a && b[..|b|] == b;
  }

  // ---- Distance is a metric ----

  /** Runs one script after another, cancelling insertions that are then deleted. */
  function Compose(f: seq<Edit>, g: seq<Edit>): seq<Edit>
    decreases |f| + |g|
  {
    if g != [] && g[|g| - 1].Insert? then Compose(f, g[..|g| - 1]) + [g[|g| - 1]]
    else if f != [] && f[|f| - 1].Delete? then Compose(f[..|f| - 1], g) + [Delete]
    else if f == [] || g == [] then []
    else
      var rest := Compose(f[..|f| - 1], g[..|g| - 1]);
      var first, second := f[|f| - 1], g[|g| - 1];
      match second
      case Delete => if first.Insert? then rest else rest + [Delete]
      case Replace(c) => rest + [if first.Insert? then Insert(c) else Replace(c)]
      case _ => rest + [first]
  }

  lemma {:induction false} ComposeReaches(f: seq<Edit>, g: seq<Edit>, a: string, b: string, c: string)
    requires Apply(f, a) == Some(b) && Apply(g, b) == Some(c)
    ensures Apply(Compose(f, g), a) == Some(c)
    ensures Cost(Compose(f, g)) <= Cost(f) + Cost(g)
    decreases |f| + |g|
  {
    var f' := if f == [] then f else f[..|f| - 1];
    var g' := if g == [] then g else g[..|g| - 1];
    if g != [] && g[|g| - 1].Insert? {
      ComposeReaches(f, g', a, b, c[..|c| - 1]);
      assert Compose(f, g)[..|Compose(f, g)| - 1] == Compose(f, g');
    } else if f != [] && f[|f| - 1].Delete? {
      ComposeReaches(f', g, a[..|a| - 1], b, c);
      assert Compose(f, g)[..|Compose(f, g)| - 1] == Compose(f', g);
    } else if f != [] && g != [] {
      ComposeBoth(f, g, a, b, c);
      var a' := if f[|f| - 1].Insert? then a else a[..|a| - 1];
      var c' := if g[|g| - 1].Delete? then c else c[..|c| - 1];
      ComposeReaches(f', g', a', b[..|b| - 1], c');
      var rest := Compose(f', g');
      if !(f[|f| - 1].Insert? && g[|g| - 1].Delete?) {
        assert Compose(f, g)[..|rest|] == rest;
      }
    }
  }

  /** When the first script ends by writing a character the second ends by consuming, both steps peel off. */
  lemma {:induction false} ComposeBoth(f: seq<Edit>, g: seq<Edit>, a: string, b: string, c: string)
    requires f != [] && g != [] && !f[|f| - 1].Delete? && !g[|g| - 1].Insert?
    requires Apply(f, a) == Some(b) && Apply(g, b) == Some(c)
    ensures b != []
    ensures !f[|f| - 1].Insert? ==> a != []
    ensures !g[|g| - 1].Delete? ==> c != []
    ensures Apply(f[..|f| - 1], if f[|f| - 1].Insert? then a else a[..|a| - 1]) == Some(b[..|b| - 1])
    ensures Apply(g[..|g| - 1], b[..|b| - 1]) == Some(if g[|g| - 1].Delete? then c else c[..|c| - 1])
  {
    var a' := if f[|f| - 1].Insert? then a else a[..|a| - 1];
    var written := Apply(f[..|f| - 1], a').value;
    assert b[..|b| - 1] == written;
    var final := Apply(g[..|g| - 1], b[..|b| - 1]).value;
    if !g[|g| - 1].Delete? {
      assert c[..|c| - 1] == final;
    }
  }

  lemma {:induction false} FreeScriptsKeep(script: seq<Edit>, a: string)
    requires Apply(script, a).Some? && Cost(script) == 0
    ensures Apply(script, a) == Some(a)
  {
    if script != [] {
      FreeScriptsKeep(script[..|script| - 1], a[..|a| - 1]);
      assert a == a[..|a| - 1] + [a[|a| - 1]];
    }
  }

  /** Zero exactly on equal strings, symmetric, and never longer by a detour. */
  lemma {:induction false} DistanceIsMetric(a: string, b: string, c: string)
    ensures Distance(a, b) == 0 <==> a == b
    ensures Distance(a, b) == Distance(b, a)
    ensures Distance(a, c) <= Distance(a, b) + Distance(b, c)
  {
    Symmetric(a, b);
    CheapestReaches(a, b);
    CheapestReaches(b, c);
    if Distance(a, b) == 0 {
      FreeScriptsKeep(Cheapest(a, b), a);
    }
    if a == b {
      SelfDistance(a);
    }
    ComposeReaches(Cheapest(a, b), Cheapest(b, c), a, b, c);
    NoCheaper(Compose(Cheapest(a, b), Cheapest(b, c)), a, c);
  }

  lemma {:induction false} SelfDistance(a: string)
    ensures Distance(a, a) == 0
  {
    if a != [] {
      SelfDistance(a[..|a| - 1]);
    }
  }
}
