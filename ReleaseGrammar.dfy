/**
 * The three release-title patterns of `internal/changelog/releaseHeading.go`,
 * written out as the matches Go's `regexp` finds (RE2 syntax, leftmost-first
 * submatch choice, `$` at the end of the text, `.` not matching a newline).
 * A match is the list `FindStringSubmatch` returns: the whole text, then one
 * entry per group.
 */
module ReleaseGrammar {
  import opened Wrappers
  import opened Strings
  import opened Dates
  import opened Sequences

  predicate AllSpace(s: string) {
    forall i :: 0 <= i < |s| ==> IsSpace(s[i])
  }

  /** The end of the run of `\s` starting at `i`. */
  function SkipSpaces(s: string, i: nat): (r: nat)
    requires i <= |s|
    ensures i <= r <= |s|
    ensures forall k :: i <= k < r ==> IsSpace(s[k])
    ensures r == |s| || !IsSpace(s[r])
    decreases |s| - i
  {
    if i == |s| || !IsSpace(s[i]) then i else SkipSpaces(s, i + 1)
  }

  /** The end of the run of `\S` starting at `i`. */
  function SkipNonSpaces(s: string, i: nat): (r: nat)
    requires i <= |s|
    ensures i <= r <= |s|
    ensures forall k :: i <= k < r ==> !IsSpace(s[k])
    ensures r == |s| || IsSpace(s[r])
    decreases |s| - i
  {
    if i == |s| || IsSpace(s[i]) then i else SkipNonSpaces(s, i + 1)
  }

  /** A run of spaces is determined by where it stops. */
  lemma {:induction false} SkipSpacesAt(s: string, i: nat, r: nat)
    requires i <= r <= |s|
    requires forall k :: i <= k < r ==> IsSpace(s[k])
    requires r == |s| || !IsSpace(s[r])
    ensures SkipSpaces(s, i) == r
    decreases r - i
  {
    if i < r {
      SkipSpacesAt(s, i + 1, r);
    }
  }

  lemma {:induction false} SkipNonSpacesAt(s: string, i: nat, r: nat)
    requires i <= r <= |s|
    requires forall k :: i <= k < r ==> !IsSpace(s[k])
    requires r == |s| || IsSpace(s[r])
    ensures SkipNonSpaces(s, i) == r
    decreases r - i
  {
    if i < r {
      SkipNonSpacesAt(s, i + 1, r);
    }
  }

  // ^\[\s*Unreleased\s*\]$

  predicate MatchUnreleased(s: string) {
    && |s| >= 2 && s[0] == '[' && s[|s| - 1] == ']'
    && var a := SkipSpaces(s, 1);
       a + 10 <= |s| - 1 && s[a..a + 10] == "Unreleased" && SkipSpaces(s, a + 10) == |s| - 1
  }

  /** The Unreleased pattern accepts exactly "[", spaces, "Unreleased", spaces, "]". */
  lemma UnreleasedShape(s: string)
    ensures MatchUnreleased(s) <==>
              exists w1, w2 :: AllSpace(w1) && AllSpace(w2) && s == "[" + w1 + "Unreleased" + w2 + "]"
  {
    if MatchUnreleased(s) {
      var a := SkipSpaces(s, 1);
      UnreleasedParts(s, a);
    }
    forall w1, w2 | AllSpace(w1) && AllSpace(w2) && s == "[" + w1 + "Unreleased" + w2 + "]"
      ensures MatchUnreleased(s)
    {
      UnreleasedOf(w1, w2);
    }
  }

  lemma UnreleasedParts(s: string, a: nat)
    requires MatchUnreleased(s) && a == SkipSpaces(s, 1)
    ensures AllSpace(s[1..a]) && AllSpace(s[a + 10..|s| - 1])
    ensures s == "[" + s[1..a] + "Unreleased" + s[a + 10..|s| - 1] + "]"
  {
    var w1, w2 := s[1..a], s[a + 10..|s| - 1];
    forall i | 0 <= i < |w1| ensures IsSpace(w1[i]) {
      assert w1[i] == s[1 + i];
    }
    forall i | 0 <= i < |w2| ensures IsSpace(w2[i]) {
      assert w2[i] == s[a + 10 + i];
    }
    UnreleasedCut(s, a);
  }

  lemma UnreleasedCut(s: string, a: nat)
    requires 1 <= a && a + 10 <= |s| - 1 && s[0] == '[' && s[|s| - 1] == ']' && s[a..a + 10] == "Unreleased"
    ensures s == "[" + s[1..a] + "Unreleased" + s[a + 10..|s| - 1] + "]"
  {
    FiveCuts(s, 1, a, a + 10, |s| - 1);
    assert s[..1] == "[";
    assert s[|s| - 1..] == "]";
  }

  lemma UnreleasedOf(w1: string, w2: string)
    requires AllSpace(w1) && AllSpace(w2)
    ensures MatchUnreleased("[" + w1 + "Unreleased" + w2 + "]")
  {
    var s := "[" + w1 + "Unreleased" + w2 + "]";
    var a := 1 + |w1|;
    assert s[a..a + 10] == "Unreleased";
    assert forall k :: 1 <= k < a ==> s[k] == w1[k - 1];
    SkipSpacesAt(s, 1, a);
    assert forall k :: a + 10 <= k < |s| - 1 ==> s[k] == w2[k - a - 10];
    SkipSpacesAt(s, a + 10, |s| - 1);
  }

  // ^\[\s*(?P<semver>\S+?)\s*\]\s+-\s+(?P<date>\d\d\d\d-\d\d-\d\d)(?:\s+(?P<label>.+))?$

  /**
   * What `(?:\s+(?P<label>.+))?$` makes of the text after the date: the
   * label, "" when the group is skipped, `None` when nothing matches. The
   * greedy `\s+` takes the longest run of spaces that still leaves a non-empty
   * label without a newline.
   */
  function LabelOf(u: string): (r: Option<string>) {
    if |u| == 0 then Some("")
    else if !IsSpace(u[0]) then None
    else
      var w := SkipSpaces(u, 0);
      if w < |u| then (if '\n' in u[w..] then None else Some(u[w..]))
      else if |u| >= 2 && u[|u| - 1] != '\n' then Some(u[|u| - 1..])
      else None
  }

  /** `k` spaces can open the label group with the label `u[k..]`. */
  predicate LabelSplit(u: string, k: nat) {
    1 <= k < |u| && AllSpace(u[..k]) && '\n' !in u[k..]
  }

  /**
   * The label group matches exactly when some split works, and then the
   * label comes from the split with the most leading spaces.
   */
  lemma LabelOfSplits(u: string)
    requires |u| > 0
    ensures LabelOf(u).Some? <==> exists k: nat :: LabelSplit(u, k)
    ensures LabelOf(u).Some? ==>
              exists k: nat :: LabelSplit(u, k) && LabelOf(u).value == u[k..]
                          && forall k': nat :: LabelSplit(u, k') ==> k' <= k
  {
    if LabelOf(u).Some? {
      var w := SkipSpaces(u, 0);
      var k := if w < |u| then w else |u| - 1;
      assert LabelSplit(u, k);
      forall k': nat | LabelSplit(u, k') ensures k' <= k {
        SpacePrefix(u, k');
      }
    }
    if exists k: nat :: LabelSplit(u, k) {
      var k: nat :| LabelSplit(u, k);
      var w := SkipSpaces(u, 0);
      assert u[..k][0] == u[0];
      if w < |u| {
        SpacePrefix(u, k);
        assert '\n' !in u[w..] by {
          forall i | w <= i < |u| ensures u[i] != '\n' { assert u[k..][i - k] == u[i]; }
        }
      } else {
        assert u[k..][|u| - 1 - k] == u[|u| - 1];
      }
    }
  }

  lemma SpacePrefix(u: string, k: nat)
    requires k <= |u| && AllSpace(u[..k])
    ensures forall i :: 0 <= i < k ==> IsSpace(u[i])
  {
    forall i | 0 <= i < k ensures IsSpace(u[i]) {
      assert u[..k][i] == u[i];
    }
  }

  /** The text after the `semver` group ending at `j`: the date and the label, if the rest of the pattern matches. */
  function MatchTail(s: string, j: nat): (r: Option<(string, string)>)
    requires j <= |s|
  {
    var a := SkipSpaces(s, j);
    if a == |s| || s[a] != ']' then None
    else
      var b := SkipSpaces(s, a + 1);
      if b == a + 1 || b == |s| || s[b] != '-' then None
      else
        var c := SkipSpaces(s, b + 1);
        if c == b + 1 || c + 10 > |s| || !IsoShape(s[c..c + 10]) then None
        else
          match LabelOf(s[c + 10..])
          case None => None
          case Some(text) => Some((s[c..c + 10], text))
  }

  /** The first `k` in `j..e` at which `p` holds. */
  function FirstWhere(p: nat -> bool, j: nat, e: nat): (r: Option<nat>)
    requires j <= e
    ensures r.Some? ==> j <= r.value <= e && p(r.value)
    decreases e - j
  {
    if p(j) then Some(j)
    else if j == e then None
    else FirstWhere(p, j + 1, e)
  }

  /** `FirstWhere` finds the leftmost such `k`, and finds none only when there is none. */
  lemma {:induction false} FirstWhereLeftmost(p: nat -> bool, j: nat, e: nat)
    requires j <= e
    ensures FirstWhere(p, j, e).Some? ==> forall k :: j <= k < FirstWhere(p, j, e).value ==> !p(k)
    ensures FirstWhere(p, j, e).None? ==> forall k :: j <= k <= e ==> !p(k)
    decreases e - j
  {
    if !p(j) && j < e {
      FirstWhereLeftmost(p, j + 1, e);
    }
  }

  /** Where `p` first holds is what `FirstWhere` finds. */
  lemma {:induction false} FirstWhereIs(p: nat -> bool, j: nat, e: nat, r: nat)
    requires j <= r <= e && p(r)
    requires forall k :: j <= k < r ==> !p(k)
    ensures FirstWhere(p, j, e) == Some(r)
    decreases r - j
  {
    if j < r {
      FirstWhereIs(p, j + 1, e, r);
    }
  }

  /** The ends a `semver` group can have: those after which the rest of the pattern matches. */
  function TailEnds(s: string): nat -> bool {
    (k: nat) => k <= |s| && MatchTail(s, k).Some?
  }

  /** The lazy `\S+?`: the first end in `j..e` after which the rest of the pattern matches. */
  function FirstTail(s: string, j: nat, e: nat): (r: Option<nat>)
    requires j <= e <= |s|
    ensures r.Some? ==> j <= r.value <= e && MatchTail(s, r.value).Some?
  {
    FirstWhere(TailEnds(s), j, e)
  }

  /** No earlier end lets the rest of the pattern match: `FirstTail` is the leftmost end. */
  lemma FirstTailLeftmost(s: string, j: nat, e: nat)
    requires j <= e <= |s|
    ensures FirstTail(s, j, e).Some? ==> forall k :: j <= k < FirstTail(s, j, e).value ==> MatchTail(s, k).None?
    ensures FirstTail(s, j, e).None? ==> forall k :: j <= k <= e ==> MatchTail(s, k).None?
  {
    FirstWhereLeftmost(TailEnds(s), j, e);
    forall k | j <= k <= e ensures TailEnds(s)(k) == MatchTail(s, k).Some? {
    }
  }

  /** The group names of the bracketed pattern, as `SubexpNames` lists them. */
  const BracketedNames: seq<string> := ["", "semver", "date", "label"]

  function MatchBracketed(s: string): (r: Option<seq<string>>)
    ensures r.Some? ==> |r.value| == |BracketedNames| && r.value[0] == s
    ensures r.Some? ==> IsoShape(r.value[2])
  {
    if |s| == 0 || s[0] != '[' then None
    else
      var i := SkipSpaces(s, 1);
      var e := SkipNonSpaces(s, i);
      if e == i then None
      else
        match FirstTail(s, i + 1, e)
        case None => None
        case Some(j) =>
          var (date, text) := MatchTail(s, j).value;
          Some([s, s[i..j], date, text])
  }

  // ^(?P<semver>\S+?)\s+-\s+(?P<date>\d\d\d\d-\d\d-\d\d)\s+\[\s*YANKED\s*]?$

  /** The group names of the YANKED pattern. */
  const YankedNames: seq<string> := ["", "semver", "date"]

  function MatchYanked(s: string): (r: Option<seq<string>>)
    ensures r.Some? ==> |r.value| == |YankedNames| && r.value[0] == s
    ensures r.Some? ==> IsoShape(r.value[2])
  {
    var e := SkipNonSpaces(s, 0);
    var a := SkipSpaces(s, e);
    if e == 0 || a == e || a == |s| || s[a] != '-' then None
    else
      match YankedDate(s, a + 1)
      case None => None
      case Some(b) => Some([s, s[..e], s[b..b + 10]])
  }

  /** `\s+(?P<date>\d\d\d\d-\d\d-\d\d)` and the marker after it, from `i`: where the date starts. */
  function YankedDate(s: string, i: nat): (r: Option<nat>)
    requires i <= |s|
    ensures r.Some? ==> i < r.value && r.value + 10 <= |s| && IsoShape(s[r.value..r.value + 10])
  {
    var b := SkipSpaces(s, i);
    if b == i || b + 10 > |s| || !IsoShape(s[b..b + 10]) then None
    else if YankedMarker(s, b + 10) then Some(b)
    else None
  }

  /** `\s+\[\s*YANKED\s*]?$` from `i`. */
  predicate YankedMarker(s: string, i: nat)
    requires i <= |s|
  {
    var c := SkipSpaces(s, i);
    && c != i && c < |s| && s[c] == '['
    && var d := SkipSpaces(s, c + 1);
       && d + 6 <= |s| && s[d..d + 6] == "YANKED"
       && var f := SkipSpaces(s, d + 6);
          f == |s| || (s[f] == ']' && f + 1 == |s|)
  }

  // The titles the patterns are written for

  /** A non-empty run of non-space characters without ']', as a version string is. */
  predicate Word(v: string) {
    |v| > 0 && forall i :: 0 <= i < |v| ==> !IsSpace(v[i]) && v[i] != ']'
  }

  /** A label written after one space is read back whole. */
  lemma LabelAfterSpace(text: string)
    requires |text| > 0 && !IsSpace(text[0]) && '\n' !in text
    ensures LabelOf(" " + text) == Some(text)
  {
    var u := " " + text;
    SkipSpacesAt(u, 0, 1);
    assert u[1..] == text;
  }

  /** "[v] - date" followed by text the label group accepts is split into exactly those parts. */
  lemma BracketedMatch(v: string, date: string, u: string)
    requires Word(v) && IsoShape(date) && LabelOf(u).Some?
    ensures var s := "[" + v + "] - " + date + u;
            MatchBracketed(s) == Some([s, v, date, LabelOf(u).value])
  {
    var s := "[" + v + "] - " + date + u;
    var n := |v|;
    BracketedLayout(s, v, date, u);
    SkipSpacesAt(s, 1, 1);
    SkipNonSpacesAt(s, 1, n + 2);
    NoTailInWord(s, 2, n);
    BracketedTail(s, n, date, u);
    FirstTailIs(s, 2, n + 2, n + 1);
  }

  /** Inside a run of characters that are neither spaces nor ']', the rest of the pattern cannot start. */
  lemma NoTailInWord(s: string, lo: nat, hi: nat)
    requires hi < |s| && forall k :: lo <= k <= hi ==> !IsSpace(s[k]) && s[k] != ']'
    ensures forall k :: lo <= k <= hi ==> MatchTail(s, k).None?
  {
    forall k | lo <= k <= hi ensures MatchTail(s, k).None? {
      SkipSpacesAt(s, k, k);
    }
  }

  lemma BracketedLayout(s: string, v: string, date: string, u: string)
    requires Word(v) && IsoShape(date) && s == "[" + v + "] - " + date + u
    ensures var n := |v|;
            && |s| == n + 15 + |u| && s[0] == '['
            && (forall k :: 1 <= k <= n ==> s[k] == v[k - 1])
            && s[1..n + 1] == v
            && s[n + 1] == ']' && s[n + 2] == ' ' && s[n + 3] == '-' && s[n + 4] == ' '
            && s[n + 5..n + 15] == date && s[n + 15..] == u && IsDigit(s[n + 5])
  {
    var n := |v|;
    assert s[n + 5] == date[0];
    assert date[..4][0] == date[0];
  }

  lemma BracketedTail(s: string, n: nat, date: string, u: string)
    requires |s| == n + 15 + |u| && s[n + 1] == ']' && s[n + 2] == ' ' && s[n + 3] == '-' && s[n + 4] == ' '
    requires s[n + 5..n + 15] == date && s[n + 15..] == u && IsDigit(s[n + 5])
    requires IsoShape(date) && LabelOf(u).Some?
    ensures MatchTail(s, n + 1) == Some((date, LabelOf(u).value))
  {
    SkipSpacesAt(s, n + 1, n + 1);
    SkipSpacesAt(s, n + 2, n + 3);
    SkipSpacesAt(s, n + 4, n + 5);
  }

  lemma FirstTailIs(s: string, j: nat, e: nat, r: nat)
    requires j <= r <= e <= |s| && MatchTail(s, r).Some?
    requires forall k :: j <= k < r ==> MatchTail(s, k).None?
    ensures FirstTail(s, j, e) == Some(r)
  {
    FirstWhereIs(TailEnds(s), j, e, r);
  }

  /** "v - date [YANKED]" is split into the version and the date. */
  lemma YankedMatch(v: string, date: string)
    requires Word(v) && IsoShape(date)
    ensures var s := v + " - " + date + " [YANKED]";
            MatchYanked(s) == Some([s, v, date])
  {
    var s := v + " - " + date + " [YANKED]";
    var n := |v|;
    YankedLayout(s, v, date);
    SkipNonSpacesAt(s, 0, n);
    SkipSpacesAt(s, n, n + 1);
    SkipSpacesAt(s, n + 2, n + 3);
    YankedMarkerAt(s, n + 13);
    assert YankedDate(s, n + 2) == Some(n + 3);
  }

  lemma YankedMarkerAt(s: string, i: nat)
    requires i + 9 == |s| && s[i] == ' ' && s[i + 1] == '[' && s[i + 2..i + 8] == "YANKED" && s[i + 8] == ']'
    ensures YankedMarker(s, i)
  {
    SkipSpacesAt(s, i, i + 1);
    SkipSpacesAt(s, i + 2, i + 2);
    SkipSpacesAt(s, i + 8, i + 8);
  }

  lemma YankedLayout(s: string, v: string, date: string)
    requires Word(v) && IsoShape(date) && s == v + " - " + date + " [YANKED]"
    ensures var n := |v|;
            && |s| == n + 22 && s[..n] == v && (forall k :: 0 <= k < n ==> s[k] == v[k])
            && s[n] == ' ' && s[n + 1] == '-' && s[n + 2] == ' '
            && s[n + 3..n + 13] == date && IsDigit(s[n + 3])
            && s[n + 13] == ' ' && s[n + 14] == '[' && s[n + 15..n + 21] == "YANKED" && s[n + 21] == ']'
  {
    var n := |v|;
    assert s[n + 3] == date[0];
    assert date[..4][0] == date[0];
  }

  // [\s*YANKED\s*]

  /** A character of the class `[\s*YANKED\s*]`. */
  predicate YankedClass(c: char) {
    IsSpace(c) || c == '*' || c == 'Y' || c == 'A' || c == 'N' || c == 'K' || c == 'E' || c == 'D'
  }

  /** `regexp.MatchString("[\s*YANKED\s*]", label)`: some character of the label is in the class. */
  predicate ContainsYankedClass(text: string) {
    exists i | 0 <= i < |text| :: YankedClass(text[i])
  }

  /**
   * `subexp`: the match of the first group called `name`, or "" when there is
   * none (a group that did not take part matches "" too).
   */
  function Subexp(groups: seq<string>, matches: seq<string>, name: string): (r: string)
    requires |matches| == |groups|
    ensures name !in groups ==> r == ""
  {
    if |groups| == 0 then ""
    else if groups[0] == name then matches[0]
    else Subexp(groups[1..], matches[1..], name)
  }

  /** The group `subexp` picks is the first one of that name. */
  lemma {:induction false} SubexpFirst(groups: seq<string>, matches: seq<string>, name: string, k: nat)
    requires |matches| == |groups| && k < |groups| && groups[k] == name && name !in groups[..k]
    ensures Subexp(groups, matches, name) == matches[k]
    decreases k
  {
    if k > 0 {
      assert groups[0] == groups[..k][0];
      assert groups[1..][..k - 1] == groups[1..k];
      assert name !in groups[1..k] by {
        forall i | 0 <= i < k - 1 ensures groups[1..k][i] != name { assert groups[1..k][i] == groups[..k][i + 1]; }
      }
      SubexpFirst(groups[1..], matches[1..], name, k - 1);
    }
  }

  /** The names of the bracketed pattern are distinct, so each group is found at its own position. */
  lemma BracketedGroups(m: seq<string>)
    requires |m| == |BracketedNames|
    ensures Subexp(BracketedNames, m, "semver") == m[1]
    ensures Subexp(BracketedNames, m, "date") == m[2]
    ensures Subexp(BracketedNames, m, "label") == m[3]
  {
    var g := BracketedNames;
    assert g[1..] == ["semver", "date", "label"] && g[2..] == ["date", "label"] && g[3..] == ["label"];
    SubexpSkip(g, m, "semver");
    SubexpSkip(g, m, "date");
    SubexpSkip(g[1..], m[1..], "date");
    SubexpSkip(g, m, "label");
    SubexpSkip(g[1..], m[1..], "label");
    SubexpSkip(g[2..], m[2..], "label");
  }

  /** `subexp` passes over a first group of another name. */
  lemma SubexpSkip(groups: seq<string>, matches: seq<string>, name: string)
    requires |matches| == |groups| && |groups| > 0 && groups[0] != name
    ensures Subexp(groups, matches, name) == Subexp(groups[1..], matches[1..], name)
  {
  }

  lemma YankedGroups(m: seq<string>)
    requires |m| == |YankedNames|
    ensures Subexp(YankedNames, m, "semver") == m[1]
    ensures Subexp(YankedNames, m, "date") == m[2]
    ensures Subexp(YankedNames, m, "label") == ""
  {
    var g := YankedNames;
    assert g[1..] == ["semver", "date"] && g[2..] == ["date"];
    SubexpSkip(g, m, "semver");
    SubexpSkip(g, m, "date");
    SubexpSkip(g[1..], m[1..], "date");
    assert "label" !in g;
  }
}
