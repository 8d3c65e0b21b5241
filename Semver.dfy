/**
 * Semantic versions as the `github.com/blang/semver` library parses, prints
 * and orders them: `Make` (strict parse), `String`, and the precedence of
 * section 11 of Semantic Versioning 2.0.0 (`Compare`, `LTE`, `EQ`).
 * Numbers are Go `uint64`s.
 */
module Semver {
  import opened Wrappers
  import opened Strings
  import opened Sequences

  const Uint64Limit: nat := 0x1_0000_0000_0000_0000

  /** A pre-release identifier: numeric, or alphanumeric with at least one non-digit. */
  datatype PRVersion = Num(n: nat) | Alnum(s: string)

  datatype Version = Version(major: nat, minor: nat, patch: nat, pre: seq<PRVersion>, build: seq<string>)

  /** The zero value `semver.Version{}` (0.0.0). */
  const Zero := Version(0, 0, 0, [], [])

  /** Letters, digits and '-', the characters allowed in pre-release and build identifiers. */
  predicate IsAlnum(c: char) {
    IsDigit(c) || 'a' <= c <= 'z' || 'A' <= c <= 'Z' || c == '-'
  }

  predicate AllAlnum(s: string) {
    forall i :: 0 <= i < |s| ==> IsAlnum(s[i])
  }

  predicate HasLeadingZero(s: string) {
    |s| > 1 && s[0] == '0'
  }

  /** A version number: digits only, no leading zero, fits into a `uint64`. */
  function ParseNumber(s: string): (r: Option<nat>)
    ensures r.Some? <==> |s| > 0 && AllDigits(s) && !HasLeadingZero(s) && DecimalValue(s) < Uint64Limit
    ensures r.Some? ==> r.value == DecimalValue(s) && r.value < Uint64Limit
  {
    if |s| > 0 && AllDigits(s) && !HasLeadingZero(s) && DecimalValue(s) < Uint64Limit
    then Some(DecimalValue(s)) else None
  }

  /** `NewPRVersion`. */
  function ParsePR(s: string): (r: Option<PRVersion>)
    ensures r.Some? && r.value.Num? ==> AllDigits(s) && r.value.n < Uint64Limit
    ensures r.Some? && r.value.Alnum? ==> r.value.s == s && !AllDigits(s)
    ensures r.None? <==> |s| == 0 || !AllAlnum(s) || (AllDigits(s) && ParseNumber(s).None?)
  {
    if |s| == 0 then None
    else if AllDigits(s) then
      match ParseNumber(s)
      case Some(n) => Some(Num(n))
      case None => None
    else if AllAlnum(s) then Some(Alnum(s))
    else None
  }

  function ParsePRs(parts: seq<string>): (r: Option<seq<PRVersion>>)
    ensures r.Some? ==> |r.value| == |parts|
    ensures r.Some? <==> forall i :: 0 <= i < |parts| ==> ParsePR(parts[i]).Some?
    ensures r.Some? ==> forall i :: 0 <= i < |parts| ==> r.value[i] == ParsePR(parts[i]).value
  {
    if |parts| == 0 then Some([])
    else
      match ParsePR(parts[0])
      case None => None
      case Some(p) =>
        match ParsePRs(parts[1..])
        case None =>
          assert !forall i :: 0 <= i < |parts| ==> ParsePR(parts[i]).Some? by {
            var i :| 0 <= i < |parts| - 1 && ParsePR(parts[1..][i]).None?;
            assert ParsePR(parts[i + 1]).None?;
          }
          None
        case Some(ps) => Some([p] + ps)
  }

  predicate ValidBuild(s: string) {
    |s| > 0 && AllAlnum(s)
  }

  /** `strings.SplitN(s, ".", 3)` when it yields three parts. */
  function SplitN3(s: string): (r: Option<(string, string, string)>)
    ensures r.Some? ==> s == r.value.0 + "." + r.value.1 + "." + r.value.2
    ensures r.Some? ==> '.' !in r.value.0 && '.' !in r.value.1
  {
    var dot1 := IndexOf(s, '.');
    if dot1 < 0 then None
    else
      var rest := s[dot1 + 1..];
      var dot2 := IndexOf(rest, '.');
      if dot2 < 0 then None
      else
        CutAround(s, dot1);
        CutAround(rest, dot2);
        Associative(s[..dot1] + ".", rest[..dot2] + ".", rest[dot2 + 1..]);
        Associative(s[..dot1] + ".", rest[..dot2], ".");
        Some((s[..dot1], rest[..dot2], rest[dot2 + 1..]))
  }

  /**
   * The third part cut at the first '+' (build metadata follows) and then at
   * the first '-' (the pre-release follows): patch numeral, pre-release parts, build parts.
   */
  function SplitPatch(patchPart: string): (string, seq<string>, seq<string>) {
    var plus := IndexOf(patchPart, '+');
    var build := if plus < 0 then [] else Split(patchPart[plus + 1..], '.');
    var beforeBuild := if plus < 0 then patchPart else patchPart[..plus];
    var minus := IndexOf(beforeBuild, '-');
    var pre := if minus < 0 then [] else Split(beforeBuild[minus + 1..], '.');
    var patchStr := if minus < 0 then beforeBuild else beforeBuild[..minus];
    (patchStr, pre, build)
  }

  /** `semver.Make`: a malformed string is `None`. */
  function Parse(s: string): (r: Option<Version>)
    ensures r.Some? ==> r.value.major < Uint64Limit && r.value.minor < Uint64Limit && r.value.patch < Uint64Limit
    ensures r.Some? ==> forall i :: 0 <= i < |r.value.build| ==> ValidBuild(r.value.build[i])
    ensures |s| == 0 ==> r.None?
  {
    if |s| == 0 then None
    else
      match SplitN3(s)
      case None => None
      case Some((majorStr, minorStr, patchPart)) =>
        var (patchStr, pre, build) := SplitPatch(patchPart);
        match (ParseNumber(majorStr), ParseNumber(minorStr), ParseNumber(patchStr), ParsePRs(pre))
        case (Some(major), Some(minor), Some(patch), Some(prs)) =>
          if forall i :: 0 <= i < |build| ==> ValidBuild(build[i]) then Some(Version(major, minor, patch, prs, build))
          else None
        case _ => None
  }

  function PRString(p: PRVersion): string {
    match p
    case Num(n) => NatToString(n)
    case Alnum(s) => s
  }

  function PRStrings(ps: seq<PRVersion>): (r: seq<string>)
    ensures |r| == |ps|
    ensures forall i :: 0 <= i < |ps| ==> r[i] == PRString(ps[i])
  {
    if |ps| == 0 then [] else [PRString(ps[0])] + PRStrings(ps[1..])
  }

  /** The pre-release suffix `String` prints: nothing, or '-' and the parts joined by '.'. */
  function PreSuffix(parts: seq<string>): string {
    if |parts| == 0 then "" else "-" + Join(parts, ".")
  }

  /** The build suffix `String` prints: nothing, or '+' and the parts joined by '.'. */
  function BuildSuffix(parts: seq<string>): string {
    if |parts| == 0 then "" else "+" + Join(parts, ".")
  }

  /** `Version.String`: `major.minor.patch`, then `-pre`, then `+build`. */
  function ToString(v: Version): string {
    NatToString(v.major) + "." + NatToString(v.minor) + "." + NatToString(v.patch)
    + PreSuffix(PRStrings(v.pre))
    + BuildSuffix(v.build)
  }

  /** The versions `Make` can produce. */
  predicate Valid(v: Version) {
    && v.major < Uint64Limit && v.minor < Uint64Limit && v.patch < Uint64Limit
    && (forall i :: 0 <= i < |v.pre| ==> ValidPR(v.pre[i]))
    && (forall i :: 0 <= i < |v.build| ==> ValidBuild(v.build[i]))
  }

  predicate ValidPR(p: PRVersion) {
    match p
    case Num(n) => n < Uint64Limit
    case Alnum(s) => |s| > 0 && AllAlnum(s) && !AllDigits(s)
  }

  // Precedence (section 11 of Semantic Versioning 2.0.0)

  function CompareNat(a: nat, b: nat): int {
    if a == b then 0 else if a > b then 1 else -1
  }

  /** Byte-wise string comparison, as Go's `==` and `>` on strings. */
  function CompareString(a: string, b: string): int {
    if a == b then 0 else if LessEq(a, b) then -1 else 1
  }

  /** `PRVersion.Compare`: numbers numerically, strings lexically, a number below a string. */
  function ComparePR(a: PRVersion, b: PRVersion): int {
    match (a, b)
    case (Num(x), Num(y)) => CompareNat(x, y)
    case (Num(_), Alnum(_)) => -1
    case (Alnum(_), Num(_)) => 1
    case (Alnum(x), Alnum(y)) => CompareString(x, y)
  }

  /** The element-wise part of the pre-release comparison; a proper prefix is smaller. */
  function ComparePRs(a: seq<PRVersion>, b: seq<PRVersion>): int {
    if |a| == 0 && |b| == 0 then 0
    else if |a| == 0 then -1
    else if |b| == 0 then 1
    else if ComparePR(a[0], b[0]) != 0 then ComparePR(a[0], b[0])
    else ComparePRs(a[1..], b[1..])
  }

  /** `Version.Compare`: build metadata is ignored, a version without pre-release is above one with. */
  function Compare(v: Version, o: Version): int {
    if v.major != o.major then CompareNat(v.major, o.major)
    else if v.minor != o.minor then CompareNat(v.minor, o.minor)
    else if v.patch != o.patch then CompareNat(v.patch, o.patch)
    else if |v.pre| == 0 && |o.pre| == 0 then 0
    else if |v.pre| == 0 then 1
    else if |o.pre| == 0 then -1
    else ComparePRs(v.pre, o.pre)
  }

  predicate LTE(v: Version, o: Version) {
    Compare(v, o) <= 0
  }

  predicate EQ(v: Version, o: Version) {
    Compare(v, o) == 0
  }

  // Properties of the precedence

  lemma {:induction false} ComparePRsAntisymmetric(a: seq<PRVersion>, b: seq<PRVersion>)
    ensures ComparePRs(a, b) == -ComparePRs(b, a)
    ensures -1 <= ComparePRs(a, b) <= 1
  {
    if |a| > 0 && |b| > 0 {
      ComparePRAntisymmetric(a[0], b[0]);
      ComparePRsAntisymmetric(a[1..], b[1..]);
    }
  }

  lemma ComparePRAntisymmetric(a: PRVersion, b: PRVersion)
    ensures ComparePR(a, b) == -ComparePR(b, a)
    ensures -1 <= ComparePR(a, b) <= 1
  {
    if a.Alnum? && b.Alnum? && a.s != b.s {
      LessEqTotal(a.s, b.s);
      if LessEq(a.s, b.s) && LessEq(b.s, a.s) { LessEqAntisymmetric(a.s, b.s); }
    }
  }

  /** Precedence is antisymmetric: swapping the operands negates the result, which is -1, 0 or 1. */
  lemma CompareAntisymmetric(v: Version, o: Version)
    ensures Compare(v, o) == -Compare(o, v)
    ensures -1 <= Compare(v, o) <= 1
  {
    ComparePRsAntisymmetric(v.pre, o.pre);
  }

  lemma {:induction false} ComparePRsReflexive(a: seq<PRVersion>)
    ensures ComparePRs(a, a) == 0
  {
    if |a| > 0 { ComparePRsReflexive(a[1..]); }
  }

  /** Every version has the precedence of itself, whatever its build metadata. */
  lemma CompareIgnoresBuild(v: Version, build: seq<string>)
    ensures Compare(v, v.(build := build)) == 0
    ensures EQ(v, v.(build := build)) && LTE(v, v.(build := build))
  {
    ComparePRsReflexive(v.pre);
  }

  lemma {:induction false} ComparePRsTransitive(a: seq<PRVersion>, b: seq<PRVersion>, c: seq<PRVersion>)
    requires ComparePRs(a, b) <= 0 && ComparePRs(b, c) <= 0
    ensures ComparePRs(a, c) <= 0
  {
    if |a| > 0 && |b| > 0 && |c| > 0 {
      ComparePRTransitive(a[0], b[0], c[0]);
      if ComparePR(a[0], b[0]) == 0 && ComparePR(b[0], c[0]) == 0 {
        ComparePRsTransitive(a[1..], b[1..], c[1..]);
      }
    }
  }

  lemma ComparePRTransitive(a: PRVersion, b: PRVersion, c: PRVersion)
    ensures ComparePR(a, b) <= 0 && ComparePR(b, c) <= 0 ==> ComparePR(a, c) <= 0
    ensures ComparePR(a, b) == 0 ==> a == b
    ensures ComparePR(a, b) < 0 && ComparePR(b, c) <= 0 ==> ComparePR(a, c) < 0
    ensures ComparePR(a, b) <= 0 && ComparePR(b, c) < 0 ==> ComparePR(a, c) < 0
  {
    if a.Alnum? && b.Alnum? && c.Alnum? {
      if LessEq(a.s, b.s) && LessEq(b.s, c.s) {
        LessEqTransitive(a.s, b.s, c.s);
        if a.s == c.s { LessEqAntisymmetric(a.s, b.s); }
      }
    }
  }

  /** `LTE` is transitive, so releases checked pairwise are ordered as a whole. */
  lemma LTETransitive(u: Version, v: Version, w: Version)
    requires LTE(u, v) && LTE(v, w)
    ensures LTE(u, w)
  {
    if u.major == v.major == w.major && u.minor == v.minor == w.minor && u.patch == v.patch == w.patch
      && |u.pre| > 0 && |v.pre| > 0 && |w.pre| > 0
    {
      ComparePRsTransitive(u.pre, v.pre, w.pre);
    }
  }

  // Parsing what `String` prints

  lemma IndexOfAt(a: string, c: char, b: string)
    requires c !in a
    ensures IndexOf(a + [c] + b, c) == |a|
    ensures (a + [c] + b)[..|a|] == a && (a + [c] + b)[|a| + 1..] == b
  {
    var s := a + [c] + b;
    assert s[..|a|] == a;
    assert s[|a|] == c;
  }

  lemma DigitsHaveNo(s: string, c: char)
    requires AllDigits(s) && !IsDigit(c)
    ensures c !in s
  {
  }

  lemma AlnumHaveNo(s: string, c: char)
    requires AllAlnum(s) && !IsAlnum(c)
    ensures c !in s
  {
  }

  lemma ParseNumberOfString(n: nat)
    requires n < Uint64Limit
    ensures ParseNumber(NatToString(n)) == Some(n)
  {
    NatToStringValue(n);
  }

  lemma ParsePROfString(p: PRVersion)
    requires ValidPR(p)
    ensures ParsePR(PRString(p)) == Some(p)
  {
    if p.Num? { ParseNumberOfString(p.n); }
  }

  lemma ParsePRsOfStrings(ps: seq<PRVersion>)
    requires forall i :: 0 <= i < |ps| ==> ValidPR(ps[i])
    ensures ParsePRs(PRStrings(ps)) == Some(ps)
  {
    var strs := PRStrings(ps);
    forall i | 0 <= i < |ps| ensures ParsePR(strs[i]) == Some(ps[i]) {
      ParsePROfString(ps[i]);
    }
    var r := ParsePRs(strs);
    assert r.Some?;
    assert r.value == ps;
  }

  lemma PRStringsHaveNo(ps: seq<PRVersion>, c: char)
    requires forall i :: 0 <= i < |ps| ==> ValidPR(ps[i])
    requires !IsAlnum(c)
    ensures forall i :: 0 <= i < |ps| ==> c !in PRStrings(ps)[i]
  {
    forall i | 0 <= i < |ps| ensures c !in PRStrings(ps)[i] {
      match ps[i]
      case Num(n) => DigitsHaveNo(NatToString(n), c);
      case Alnum(s) => AlnumHaveNo(s, c);
    }
  }

  lemma BuildsHaveNo(bs: seq<string>, c: char)
    requires forall i :: 0 <= i < |bs| ==> ValidBuild(bs[i])
    requires !IsAlnum(c)
    ensures forall i :: 0 <= i < |bs| ==> c !in bs[i]
  {
    forall i | 0 <= i < |bs| ensures c !in bs[i] { AlnumHaveNo(bs[i], c); }
  }

  lemma SplitN3Of(a: string, b: string, c: string)
    requires '.' !in a && '.' !in b
    ensures SplitN3(a + "." + b + "." + c) == Some((a, b, c))
  {
    IndexOfAt(a, '.', b + "." + c);
    assert a + "." + b + "." + c == a + ['.'] + (b + "." + c);
    IndexOfAt(b, '.', c);
  }

  lemma SplitPatchParts(P: string, preStrs: seq<string>, build: seq<string>)
    requires '+' !in P && '-' !in P
    requires forall i :: 0 <= i < |preStrs| ==> '+' !in preStrs[i] && '.' !in preStrs[i]
    requires forall i :: 0 <= i < |build| ==> '.' !in build[i]
    ensures SplitPatch(P + PreSuffix(preStrs)
                         + BuildSuffix(build))
         == (P, preStrs, build)
  {
    var preS := PreSuffix(preStrs);
    var buildS := BuildSuffix(build);
    NoPlusBeforeBuild(P, preStrs);
    BuildCut(P + preS, build);
    PreCut(P, preStrs);
    SplitPatchOf(P + preS + buildS, P + preS, P, preStrs, build);
  }

  lemma NoPlusBeforeBuild(P: string, preStrs: seq<string>)
    requires '+' !in P
    requires forall i :: 0 <= i < |preStrs| ==> '+' !in preStrs[i]
    ensures '+' !in P + PreSuffix(preStrs)
  {
    JoinMember(preStrs, ".", '+');
  }

  /** `SplitPatch` from the two cuts it makes: at the first '+', then at the first '-'. */
  lemma SplitPatchOf(patchPart: string, beforeBuild: string, P: string, pre: seq<string>, build: seq<string>)
    requires var plus := IndexOf(patchPart, '+');
             (if plus < 0 then [] else Split(patchPart[plus + 1..], '.')) == build
             && (if plus < 0 then patchPart else patchPart[..plus]) == beforeBuild
    requires var minus := IndexOf(beforeBuild, '-');
             (if minus < 0 then [] else Split(beforeBuild[minus + 1..], '.')) == pre
             && (if minus < 0 then beforeBuild else beforeBuild[..minus]) == P
    ensures SplitPatch(patchPart) == (P, pre, build)
  {
  }

  lemma BuildCut(beforeBuild: string, build: seq<string>)
    requires '+' !in beforeBuild
    requires forall i :: 0 <= i < |build| ==> '.' !in build[i]
    ensures var patchPart := beforeBuild + BuildSuffix(build);
            var plus := IndexOf(patchPart, '+');
            (if plus < 0 then [] else Split(patchPart[plus + 1..], '.')) == build
            && (if plus < 0 then patchPart else patchPart[..plus]) == beforeBuild
  {
    if |build| > 0 {
      IndexOfAt(beforeBuild, '+', Join(build, "."));
      assert beforeBuild + ("+" + Join(build, ".")) == beforeBuild + ['+'] + Join(build, ".");
      SplitJoin(build, '.');
    }
  }

  lemma PreCut(P: string, preStrs: seq<string>)
    requires '-' !in P
    requires forall i :: 0 <= i < |preStrs| ==> '.' !in preStrs[i]
    ensures var beforeBuild := P + PreSuffix(preStrs);
            var minus := IndexOf(beforeBuild, '-');
            (if minus < 0 then [] else Split(beforeBuild[minus + 1..], '.')) == preStrs
            && (if minus < 0 then beforeBuild else beforeBuild[..minus]) == P
  {
    if |preStrs| > 0 {
      IndexOfAt(P, '-', Join(preStrs, "."));
      assert P + ("-" + Join(preStrs, ".")) == P + ['-'] + Join(preStrs, ".");
      SplitJoin(preStrs, '.');
    }
  }

  lemma ParseParts(s: string, a: string, b: string, c: string, v: Version, preStrs: seq<string>)
    requires |s| > 0 && SplitN3(s) == Some((a, b, c))
    requires SplitPatch(c) == (NatToString(v.patch), preStrs, v.build)
    requires ParseNumber(a) == Some(v.major) && ParseNumber(b) == Some(v.minor)
    requires ParseNumber(NatToString(v.patch)) == Some(v.patch) && ParsePRs(preStrs) == Some(v.pre)
    requires forall i :: 0 <= i < |v.build| ==> ValidBuild(v.build[i])
    ensures Parse(s) == Some(v)
  {
  }

  /** `Make` reads back every version it can produce from what `String` prints. */
  lemma ParseToString(v: Version)
    requires Valid(v)
    ensures Parse(ToString(v)) == Some(v)
  {
    var M, m := NatToString(v.major), NatToString(v.minor);
    var patchPart := NatToString(v.patch)
                     + PreSuffix(PRStrings(v.pre))
                     + BuildSuffix(v.build);
    var p, pre, build := NatToString(v.patch), PreSuffix(PRStrings(v.pre)), BuildSuffix(v.build);
    Associative(M + "." + m + ".", p, pre);
    Associative(M + "." + m + ".", p + pre, build);
    assert ToString(v) == M + "." + m + "." + patchPart;
    DigitsHaveNo(M, '.');
    DigitsHaveNo(m, '.');
    SplitN3Of(M, m, patchPart);
    DigitsHaveNo(NatToString(v.patch), '+');
    DigitsHaveNo(NatToString(v.patch), '-');
    PRStringsHaveNo(v.pre, '+');
    PRStringsHaveNo(v.pre, '.');
    BuildsHaveNo(v.build, '.');
    SplitPatchParts(NatToString(v.patch), PRStrings(v.pre), v.build);
    ParseNumberOfString(v.major);
    ParseNumberOfString(v.minor);
    ParseNumberOfString(v.patch);
    ParsePRsOfStrings(v.pre);
    ParseParts(ToString(v), M, m, patchPart, v, PRStrings(v.pre));
  }

  // The characters `String` prints

  /** Letters, digits, '-', '.' and '+': no space and no bracket. */
  predicate VersionText(s: string) {
    forall i :: 0 <= i < |s| ==> IsAlnum(s[i]) || s[i] == '.' || s[i] == '+'
  }

  lemma VersionTextConcat(a: string, b: string)
    requires VersionText(a) && VersionText(b)
    ensures VersionText(a + b)
  {
    forall i | 0 <= i < |a + b| ensures IsAlnum((a + b)[i]) || (a + b)[i] == '.' || (a + b)[i] == '+' {
      if i < |a| { assert (a + b)[i] == a[i]; } else { assert (a + b)[i] == b[i - |a|]; }
    }
  }

  lemma {:induction false} JoinVersionText(parts: seq<string>)
    requires forall i :: 0 <= i < |parts| ==> AllAlnum(parts[i])
    ensures VersionText(Join(parts, "."))
  {
    if |parts| > 1 {
      JoinVersionText(parts[1..]);
      VersionTextConcat(parts[0], ".");
      VersionTextConcat(parts[0] + ".", Join(parts[1..], "."));
    }
  }

  /** `String` prints a numeral first, then only letters, digits, '-', '.' and '+'. */
  lemma ToStringText(v: Version)
    requires Valid(v)
    ensures VersionText(ToString(v)) && |ToString(v)| > 0 && IsDigit(ToString(v)[0])
  {
    var M, m, p := NatToString(v.major), NatToString(v.minor), NatToString(v.patch);
    VersionTextConcat(M, ".");
    VersionTextConcat(M + ".", m);
    VersionTextConcat(M + "." + m, ".");
    VersionTextConcat(M + "." + m + ".", p);
    var core := M + "." + m + "." + p;
    var pre := PreSuffix(PRStrings(v.pre));
    var build := BuildSuffix(v.build);
    if |v.pre| > 0 {
      forall i | 0 <= i < |v.pre| ensures AllAlnum(PRStrings(v.pre)[i]) {
        assert ValidPR(v.pre[i]);
      }
      JoinVersionText(PRStrings(v.pre));
      VersionTextConcat("-", Join(PRStrings(v.pre), "."));
    }
    if |v.build| > 0 {
      JoinVersionText(v.build);
      VersionTextConcat("+", Join(v.build, "."));
    }
    VersionTextConcat(core, pre);
    VersionTextConcat(core + pre, build);
    assert ToString(v) == core + pre + build;
    assert ToString(v)[0] == M[0];
  }
}
