/**
 * Sanctions matching (services/compliance/src/services/screeningService.js).
 * Names are taken after lower-casing and canonical decomposition.
 */
module Screening {
  import opened Domain
  import opened EditDistance

  const FUZZY_MATCH_MAX_DISTANCE := 2

  // ---- Normal names ----

  predicate IsSpace(c: char) {
    c in " \t\n\r" || c as int in {11, 12, 0xa0, 0x1680, 0x2028, 0x2029, 0x202f, 0x205f, 0x3000, 0xfeff}
    || 0x2000 <= c as int <= 0x200a
  }

  predicate IsAlphanumeric(c: char) {
    'a' <= c <= 'z' || '0' <= c <= '9'
  }

  /** Drops combining marks and everything else that is not a letter, digit or space. */
  function Strip(s: string): string {
    if s == [] then []
    else
      var c := s[|s| - 1];
      Strip(s[..|s| - 1]) + if IsAlphanumeric(c) || IsSpace(c) then [c] else []
  }

  /** Turns every run of spaces into one blank. */
  function Collapse(s: string): string {
    if s == [] then []
    else
      var rest, c := Collapse(s[..|s| - 1]), s[|s| - 1];
      if !IsSpace(c) then rest + [c]
      else if rest != [] && rest[|rest| - 1] == ' ' then rest
      else rest + " "
  }

  function Trim(s: string): string {
    var start := if s != [] && s[0] == ' ' then s[1..] else s;
    if start != [] && start[|start| - 1] == ' ' then start[..|start| - 1] else start
  }

  function NormalizeName(name: string): string {
    Trim(Collapse(Strip(name)))
  }

  /** Words of letters and digits, one blank between neighbours, none at either end. */
  predicate IsNormal(s: string) {
    && (forall i :: 0 <= i < |s| ==> IsAlphanumeric(s[i]) || s[i] == ' ')
    && (forall i :: 0 <= i < |s| - 1 ==> s[i] != ' ' || s[i + 1] != ' ')
    && (s != [] ==> s[0] != ' ' && s[|s| - 1] != ' ')
  }

  predicate IsCollapsed(s: string) {
    && (forall i :: 0 <= i < |s| ==> IsAlphanumeric(s[i]) || s[i] == ' ')
    && (forall i :: 0 <= i < |s| - 1 ==> s[i] != ' ' || s[i + 1] != ' ')
  }

  lemma {:induction false} StripKeepsOnly(s: string)
    ensures forall c :: c in Strip(s) ==> IsAlphanumeric(c) || IsSpace(c)
  {
    if s != [] {
      StripKeepsOnly(s[..|s| - 1]);
    }
  }

  lemma {:induction false} CollapseCollapses(s: string)
    requires forall c :: c in s ==> IsAlphanumeric(c) || IsSpace(c)
    ensures IsCollapsed(Collapse(s))
  {
    if s != [] {
      CollapseCollapses(s[..|s| - 1]);
    }
  }

  lemma {:induction false} AlphanumericIsNoSpace(c: char)
    requires IsAlphanumeric(c)
    ensures !IsSpace(c) && c != ' '
  {
  }

  lemma {:induction false} StripUnchanged(s: string)
    requires forall i :: 0 <= i < |s| ==> IsAlphanumeric(s[i]) || s[i] == ' '
    ensures Strip(s) == s
  {
    if s != [] {
      StripUnchanged(s[..|s| - 1]);
      assert s == s[..|s| - 1] + [s[|s| - 1]];
    }
  }

  lemma {:induction false} CollapseUnchanged(s: string)
    requires IsCollapsed(s)
    ensures Collapse(s) == s
  {
    if s != [] {
      var init, c := s[..|s| - 1], s[|s| - 1];
      CollapseUnchanged(init);
      assert s == init + [c];
      if c != ' ' {
        AlphanumericIsNoSpace(c);
      }
    }
  }

  /** The letters and digits of a string, in order. */
  function Letters(s: string): string {
    if s == [] then []
    else Letters(s[..|s| - 1]) + if IsAlphanumeric(s[|s| - 1]) then [s[|s| - 1]] else []
  }

  lemma {:induction false} LettersConcat(s: string, t: string)
    ensures Letters(s + t) == Letters(s) + Letters(t)
  {
    if t == [] {
      assert s + t == s;
    } else {
      assert (s + t)[..|s + t| - 1] == s + t[..|t| - 1];
      LettersConcat(s, t[..|t| - 1]);
    }
  }

  lemma {:induction false} StripKeepsLetters(s: string)
    ensures Letters(Strip(s)) == Letters(s)
  {
    if s != [] {
      var c := s[|s| - 1];
      StripKeepsLetters(s[..|s| - 1]);
      LettersConcat(Strip(s[..|s| - 1]), if IsAlphanumeric(c) || IsSpace(c) then [c] else []);
      OneLetter(c);
    }
  }

  lemma {:induction false} OneLetter(c: char)
    ensures Letters([c]) == if IsAlphanumeric(c) then [c] else []
  {
    assert [c][..0] == [];
  }

  lemma {:induction false} CollapseKeepsLetters(s: string)
    ensures Letters(Collapse(s)) == Letters(s)
  {
    if s != [] {
      var c := s[|s| - 1];
      CollapseKeepsLetters(s[..|s| - 1]);
      LettersConcat(Collapse(s[..|s| - 1]), [c]);
      LettersConcat(Collapse(s[..|s| - 1]), " ");
      OneLetter(c);
      OneLetter(' ');
      if IsAlphanumeric(c) {
        AlphanumericIsNoSpace(c);
      }
    }
  }

  lemma {:induction false} TrimKeepsLetters(s: string)
    ensures Letters(Trim(s)) == Letters(s)
  {
    OneLetter(' ');
    var start := if s != [] && s[0] == ' ' then s[1..] else s;
    if s != [] && s[0] == ' ' {
      assert s == [' '] + start;
      LettersConcat([' '], start);
    }
    if start != [] && start[|start| - 1] == ' ' {
      assert start == start[..|start| - 1] + [' '];
      LettersConcat(start[..|start| - 1], [' ']);
    }
  }

  /** Normalising gives a normal name with the same letters and digits in the same order, and does nothing to one that already is. */
  lemma {:induction false} NormalizeNormalizes(name: string)
    ensures IsNormal(NormalizeName(name))
    ensures Letters(NormalizeName(name)) == Letters(name)
    ensures IsNormal(name) ==> NormalizeName(name) == name
  {
    StripKeepsLetters(name);
    CollapseKeepsLetters(Strip(name));
    TrimKeepsLetters(Collapse(Strip(name)));
    StripKeepsOnly(name);
    CollapseCollapses(Strip(name));
    if IsNormal(name) {
      StripUnchanged(name);
      CollapseUnchanged(name);
    }
  }

  // ---- Matching ----

  datatype Watched = Watched(id: nat, fullName: string, aliases: seq<string>, listSource: string)

  datatype Match = Match(id: nat, fullName: string, listSource: string)

  datatype Case = SanctionsHit(user: string, matched: seq<Match>, screenedName: string)

  function Candidates(w: Watched): seq<string> {
    [w.fullName] + w.aliases
  }

  /** Some name of the entry is, once normalised, within the tolerance of `normal`. */
  ghost predicate Near(w: Watched, normal: string) {
    exists i :: 0 <= i < |Candidates(w)| && NearName(Candidates(w)[i], normal)
  }

  ghost predicate NearName(candidate: string, normal: string) {
    NormalizeName(candidate) != [] && Distance(NormalizeName(candidate), normal) <= FUZZY_MATCH_MAX_DISTANCE
  }

  function MatchOf(w: Watched): Match {
    Match(w.id, w.fullName, w.listSource)
  }

  /** The matching entries, in list order, each once. */
  ghost function Matches(entries: seq<Watched>, normal: string): seq<Match> {
    if entries == [] then []
    else
      var init, w := entries[..|entries| - 1], entries[|entries| - 1];
      Matches(init, normal) + if Near(w, normal) then [MatchOf(w)] else []
  }

  /** A hit is reported exactly when some listed name is near the screened one. */
  lemma {:induction false} MatchesExact(entries: seq<Watched>, normal: string)
    ensures Matches(entries, normal) != [] <==> exists i :: 0 <= i < |entries| && Near(entries[i], normal)
  {
    if entries != [] {
      MatchesExact(entries[..|entries| - 1], normal);
    }
  }

  /** What screening a name reports. */
  ghost function Screened(entries: seq<Watched>, fullName: string): seq<Match> {
    if NormalizeName(fullName) == [] then [] else Matches(entries, NormalizeName(fullName))
  }

  lemma {:induction false} NearIsMatched(entries: seq<Watched>, normal: string, i: nat)
    requires i < |entries| && Near(entries[i], normal)
    ensures MatchOf(entries[i]) in Matches(entries, normal)
  {
    var last := |entries| - 1;
    if i < last {
      assert entries[i] == entries[..last][i];
      NearIsMatched(entries[..last], normal, i);
    }
  }

  /** Some script of at most two edits turns the name as written into the candidate, both normalised. */
  ghost predicate Misspells(candidate: string, written: string) {
    exists script ::
      Apply(script, NormalizeName(written)) == Some(NormalizeName(candidate)) && Cost(script) <= 2
  }

  lemma {:induction false} MisspellingIsNear(candidate: string, written: string)
    ensures NearName(candidate, NormalizeName(written)) <==> NormalizeName(candidate) != [] && Misspells(candidate, written)
  {
    var listed, normal := NormalizeName(candidate), NormalizeName(written);
    Symmetric(listed, normal);
    CheapestReaches(normal, listed);
    if Misspells(candidate, written) {
      var script :| Apply(script, normal) == Some(listed) && Cost(script) <= 2;
      NoCheaper(script, normal, listed);
    }
  }

  /**
   * A misspelling of a listed name by at most two edits is reported if and only
   * if the name as written has any letter, digit or word left once normalised.
   */
  lemma {:induction false} MisspellingCaughtExactly(entries: seq<Watched>, i: nat, alias: nat, written: string)
    requires i < |entries| && alias < |Candidates(entries[i])|
    requires NormalizeName(Candidates(entries[i])[alias]) != [] && Misspells(Candidates(entries[i])[alias], written)
    ensures MatchOf(entries[i]) in Screened(entries, written) <==> NormalizeName(written) != []
  {
    MisspellingIsNear(Candidates(entries[i])[alias], written);
    if NormalizeName(written) != [] {
      NearIsMatched(entries, NormalizeName(written), i);
    }
  }

  /** A hit is reported exactly when the written name is not empty and misspells some listed one by at most two edits. */
  lemma {:induction false} HitExactly(entries: seq<Watched>, written: string)
    ensures Screened(entries, written) != []
            <==> && NormalizeName(written) != []
                 && exists i :: 0 <= i < |entries| && Misspelt(entries[i], written)
  {
    var normal := NormalizeName(written);
    MatchesExact(entries, normal);
    forall i | 0 <= i < |entries| ensures Near(entries[i], normal) <==> Misspelt(entries[i], written) {
      forall k | 0 <= k < |Candidates(entries[i])|
        ensures NearName(Candidates(entries[i])[k], normal)
                <==> NormalizeName(Candidates(entries[i])[k]) != [] && Misspells(Candidates(entries[i])[k], written)
      {
        MisspellingIsNear(Candidates(entries[i])[k], written);
      }
    }
  }

  /** The written name misspells some name of the entry. */
  ghost predicate Misspelt(w: Watched, written: string) {
    exists k :: 0 <= k < |Candidates(w)| && NormalizeName(Candidates(w)[k]) != [] && Misspells(Candidates(w)[k], written)
  }

  /** The written name is within two edits of the entry's full name or one of its aliases. */
  ghost predicate Named(w: Watched, written: string) {
    || (NormalizeName(w.fullName) != [] && Misspells(w.fullName, written))
    || (exists i :: 0 <= i < |w.aliases| && NormalizeName(w.aliases[i]) != [] && Misspells(w.aliases[i], written))
  }

  lemma {:induction false} NamedIsMisspelt(w: Watched, written: string)
    ensures Named(w, written) <==> Misspelt(w, written)
  {
    hide Misspells;
    hide NormalizeName;
    var names := Candidates(w);
    assert names[0] == w.fullName;
    if i :| 0 <= i < |w.aliases| && NormalizeName(w.aliases[i]) != [] && Misspells(w.aliases[i], written) {
      assert names[i + 1] == w.aliases[i];
    }
    if k :| 0 <= k < |names| && NormalizeName(names[k]) != [] && Misspells(names[k], written) {
      if 0 < k {
        assert names[k] == w.aliases[k - 1];
      }
    }
  }

  /** What is reported: the id, name and source of exactly the entries so named, in list order. */
  ghost function Reported(entries: seq<Watched>, written: string): seq<Match> {
    if entries == [] then []
    else
      var w := entries[|entries| - 1];
      Reported(entries[..|entries| - 1], written)
      + if Named(w, written) then [Match(w.id, w.fullName, w.listSource)] else []
  }

  lemma {:induction false} ScreenedIsReported(entries: seq<Watched>, written: string)
    ensures Screened(entries, written) == if NormalizeName(written) == [] then [] else Reported(entries, written)
  {
    hide Misspells;
    hide NormalizeName;
    hide Near;
    hide Named;
    if entries != [] {
      var w := entries[|entries| - 1];
      ScreenedIsReported(entries[..|entries| - 1], written);
      NamedIsMisspelt(w, written);
      NearIsMisspelt(w, written);
    }
  }

  lemma {:induction false} NearIsMisspelt(w: Watched, written: string)
    ensures Near(w, NormalizeName(written)) <==> Misspelt(w, written)
  {
    forall k | 0 <= k < |Candidates(w)|
      ensures NearName(Candidates(w)[k], NormalizeName(written))
              <==> NormalizeName(Candidates(w)[k]) != [] && Misspells(Candidates(w)[k], written)
    {
      MisspellingIsNear(Candidates(w)[k], written);
    }
  }

  /** The characters that part words: Unicode's spaces, tabs and line ends. */
  const SEPARATORS := {9, 10, 11, 12, 13, 32, 0xa0, 0x1680, 0x2000, 0x2001, 0x2002, 0x2003, 0x2004, 0x2005, 0x2006, 0x2007,
                       0x2008, 0x2009, 0x200a, 0x2028, 0x2029, 0x202f, 0x205f, 0x3000, 0xfeff}

  /** Between two letters or digits a separator reads as one blank, a letter or digit as itself, and anything else as nothing. */
  lemma {:induction false} BetweenLetters(x: char, c: char, y: char)
    requires 'a' <= x <= 'z' || '0' <= x <= '9'
    requires 'a' <= y <= 'z' || '0' <= y <= '9'
    ensures NormalizeName([x, c, y])
            == if c as int in SEPARATORS then [x, ' ', y]
               else if 'a' <= c <= 'z' || '0' <= c <= '9' then [x, c, y] else [x, y]
  {
    SpacesAreSeparators(c);
    SpacesAreSeparators(x);
    SpacesAreSeparators(y);
    hide IsSpace;
    StripThree(x, c, y);
    if IsSpace(c) {
      CollapseThree(x, c, y);
      assert Trim([x, ' ', y]) == [x, ' ', y];
    } else if IsAlphanumeric(c) {
      CollapseUnchanged([x, c, y]);
    } else {
      CollapseUnchanged([x, y]);
    }
  }

  lemma {:induction false} SpacesAreSeparators(c: char)
    ensures IsSpace(c) <==> c as int in SEPARATORS
    ensures IsAlphanumeric(c) ==> !IsSpace(c)
  {
  }

  lemma {:induction false} StripThree(x: char, c: char, y: char)
    requires IsAlphanumeric(x) && IsAlphanumeric(y)
    ensures Strip([x, c, y]) == if IsAlphanumeric(c) || IsSpace(c) then [x, c, y] else [x, y]
  {
    hide IsSpace;
    assert [x, c, y][..2] == [x, c] && [x, c][..1] == [x] && [x][..0] == [];
    assert Strip([x]) == [x];
    assert Strip([x, c]) == if IsAlphanumeric(c) || IsSpace(c) then [x, c] else [x];
  }

  lemma {:induction false} CollapseThree(x: char, c: char, y: char)
    requires !IsSpace(x) && IsSpace(c) && !IsSpace(y) && x != ' '
    ensures Collapse([x, c, y]) == [x, ' ', y]
  {
    hide IsSpace;
    assert [x, c, y][..2] == [x, c] && [x, c][..1] == [x] && [x][..0] == [];
    assert Collapse([x]) == [x];
    assert Collapse([x, c]) == [x, ' '];
  }

  lemma {:induction false} NothingLeft()
    ensures NormalizeName("?") == ""
  {
    assert "?"[..0] == "";
    assert Strip("?") == "";
  }

  lemma {:induction false} TwoInsertions(x: char, y: char)
    ensures Apply([Insert(x), Insert(y)], "") == Some([x, y]) && Cost([Insert(x), Insert(y)]) == 2
  {
    hide Distance;
    var script := [Insert(x), Insert(y)];
    assert script[..1] == [Insert(x)] && script[..1][..0] == [];
    assert [] + [x] == [x];
    assert Apply([], "") == Some("") && Cost([]) == 0;
    assert Apply(script[..1], "") == Some([x]) && Cost(script[..1]) == 1;
    assert [x] + [y] == [x, y];
  }

  /** "?" is two edits from the listed name "li", and is not reported. */
  lemma {:induction false} EmptiedNameMissed(id: nat, source: string)
    ensures Misspells("li", "?") && NormalizeName("li") == "li"
    ensures Screened([Watched(id, "li", [], source)], "?") == []
  {
    hide NormalizeName;
    hide Apply;
    NothingLeft();
    NormalizeNormalizes("li");
    TwoInsertions('l', 'i');
    assert Apply([Insert('l'), Insert('i')], NormalizeName("?")) == Some(NormalizeName("li"));
  }

  class ScreeningService {
    var watchlist: seq<Watched>
    var cases: seq<Case>

    method ScreenSanctions(user: string, fullName: string) returns (hit: bool, matchedEntries: seq<Match>)
      modifies this`cases
      ensures matchedEntries == Screened(watchlist, fullName)
      ensures hit <==> NormalizeName(fullName) != [] && exists i :: 0 <= i < |watchlist| && Near(watchlist[i], NormalizeName(fullName))
      ensures cases == if hit then old(cases) + [SanctionsHit(user, matchedEntries, fullName)] else old(cases)
    {
      var normalized := NormalizeName(fullName);
      matchedEntries := [];
      if normalized == [] {
        return false, [];
      }
      for i := 0 to |watchlist|
        invariant matchedEntries == Matches(watchlist[..i], normalized)
        invariant cases == old(cases)
      {
        var entry := watchlist[i];
        var near := NearAny(entry, normalized);
        if near {
          matchedEntries := matchedEntries + [Match(entry.id, entry.fullName, entry.listSource)];
        }
        assert watchlist[..i + 1][..i] == watchlist[..i];
      }
      assert watchlist[..|watchlist|] == watchlist;
      MatchesExact(watchlist, normalized);
      hit := |matchedEntries| > 0;
      if hit {
        cases := cases + [SanctionsHit(user, matchedEntries, fullName)];
      }
    }

    /** The inner loop over an entry's names, which stops at the first near one. */
    static method NearAny(entry: Watched, normalized: string) returns (near: bool)
      ensures near <==> Near(entry, normalized)
    {
      hide Distance;
      hide NormalizeName;
      var candidates := Candidates(entry);
      for i := 0 to |candidates|
        invariant forall k :: 0 <= k < i ==> !NearName(candidates[k], normalized)
      {
        var candidate := NormalizeName(candidates[i]);
        if candidate != [] {
          if candidate == normalized {
            SelfDistance(candidate);
            return true;
          }
          var d := Levenshtein(candidate, normalized);
          if d <= FUZZY_MATCH_MAX_DISTANCE {
            return true;
          }
        }
      }
      return false;
    }
  }
}
