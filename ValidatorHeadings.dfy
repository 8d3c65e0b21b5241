/**
 * The headings of the validator's older revision (`internal/validator/headings.go`;
 * `internal/validator/stack.go` repeats the same declarations, lines 13-180,
 * and is modelled by this module too). Headings know only their `Name` and
 * `AsPath`; the change kinds and their levels are a fixed table.
 */
module ValidatorHeadings {
  import opened Wrappers
  import opened Errors
  import opened Strings
  import Headings
  import opened Dates
  import opened Semver
  import opened ChangeMap
  import ChangeHeading
  import opened ReleaseGrammar
  import ChangeKind
  import SemverIdentifier
  import ReleaseHeading

  datatype Heading =
    /** Level 1, the title of the changelog. */
    | Title(name: string)
    /** Level 2; an Unreleased section has the zero date and the zero version. */
    | Release(name: string, unreleased: bool, yanked: bool, date: Dates.Date, version: Semver.Version)
    /** Level 3, a group of changes. */
    | Change(name: string)
  {
    function Name(): string { name }

    function AsPath(): (r: string)
      ensures r == "{" + Name() + "}"
    {
      Headings.AsPath(name)
    }
  }

  /** `isRelease`: dated, not Unreleased, no pre-release and no build metadata. */
  predicate IsRelease(r: Heading)
    requires r.Release?
  {
    r.date != ZeroTime && !r.unreleased && |r.version.pre| == 0 && |r.version.build| == 0
  }

  /** `newTitle`. */
  function NewTitle(s: string): (r: Result<Heading, Error>)
    ensures r.Ok? <==> s != ""
    ensures r.Ok? ==> r.value == Title(s)
    ensures r.Err? ==> r.error == EmptyTitle
  {
    if s == "" then Err(EmptyTitle) else Ok(Title(s))
  }

  /**
   * `newRelease`: the three title forms of the changelog package, tried in the
   * same order with the same checks; no label is kept.
   */
  function NewRelease(s: string): (r: Result<Heading, Error>)
    ensures r.Ok? ==> r.value.Release? && r.value.name == s
    ensures r.Ok? ==> (r.value.unreleased <==> MatchUnreleased(s))
    ensures r.Err? ==> r.error in {IllegalDate(s), YankedVersionInBrackets(s), IllegalVersion(s), UnknownReleaseHeader(s)}
  {
    if MatchUnreleased(s) then
      Ok(Release(s, true, false, ZeroTime, Zero))
    else if MatchBracketed(s).Some? then
      var m := MatchBracketed(s).value;
      match ParseDate(Subexp(BracketedNames, m, "date"))
      case None => Err(IllegalDate(s))
      case Some(date) =>
        if ContainsYankedClass(Subexp(BracketedNames, m, "label")) then Err(YankedVersionInBrackets(s))
        else
          match Semver.Parse(Subexp(BracketedNames, m, "semver"))
          case None => Err(IllegalVersion(s))
          case Some(version) => Ok(Release(s, false, false, date, version))
    else if MatchYanked(s).Some? then
      var m := MatchYanked(s).value;
      match ParseDate(Subexp(YankedNames, m, "date"))
      case None => Err(IllegalDate(s))
      case Some(date) =>
        match Semver.Parse(Subexp(YankedNames, m, "semver"))
        case None => Err(IllegalVersion(s))
        case Some(version) => Ok(Release(s, false, true, date, version))
    else Err(UnknownReleaseHeader(s))
  }

  /**
   * The two revisions read release titles alike: the same titles are
   * accepted, with the same fields, and the others are refused with the same error.
   */
  lemma NewReleaseAgrees(s: string)
    ensures var old_r, new_r := NewRelease(s), ReleaseHeading.NewRelease(s);
            && (old_r.Ok? <==> new_r.Ok?)
            && (old_r.Err? ==> old_r.error == new_r.error)
            && (old_r.Ok? ==>
                  && old_r.value.unreleased == new_r.value.unreleased
                  && old_r.value.yanked == new_r.value.yanked
                  && old_r.value.date == new_r.value.date
                  && old_r.value.version == new_r.value.version
                  && (IsRelease(old_r.value) <==> new_r.value.IsRelease()))
  {
    if MatchUnreleased(s) {
    } else if MatchBracketed(s).Some? {
      var m := MatchBracketed(s).value;
      var date, text, ver := Subexp(BracketedNames, m, "date"), Subexp(BracketedNames, m, "label"), Subexp(BracketedNames, m, "semver");
      assert NewRelease(s) ==
        if ParseDate(date).None? then Err(IllegalDate(s))
        else if ContainsYankedClass(text) then Err(YankedVersionInBrackets(s))
        else if Semver.Parse(ver).None? then Err(IllegalVersion(s))
        else Ok(Release(s, false, false, ParseDate(date).value, Semver.Parse(ver).value));
      assert ReleaseHeading.NewRelease(s) ==
        if ParseDate(date).None? then Err(IllegalDate(s))
        else if ContainsYankedClass(text) then Err(YankedVersionInBrackets(s))
        else if Semver.Parse(ver).None? then Err(IllegalVersion(s))
        else Ok(ReleaseHeading.Release(s, text, false, false, ParseDate(date).value, Semver.Parse(ver).value));
    } else if MatchYanked(s).Some? {
      var m := MatchYanked(s).value;
      var date, ver := Subexp(YankedNames, m, "date"), Subexp(YankedNames, m, "semver");
      assert NewRelease(s) ==
        if ParseDate(date).None? then Err(IllegalDate(s))
        else if Semver.Parse(ver).None? then Err(IllegalVersion(s))
        else Ok(Release(s, false, true, ParseDate(date).value, Semver.Parse(ver).value));
      assert ReleaseHeading.NewRelease(s) ==
        if ParseDate(date).None? then Err(IllegalDate(s))
        else if Semver.Parse(ver).None? then Err(IllegalVersion(s))
        else Ok(ReleaseHeading.Release(s, "", false, true, ParseDate(date).value, Semver.Parse(ver).value));
    }
  }

  // The levels, as in `semverMajor` … `semverBuild`.
  const SemverMajor := 0
  const SemverMinor := 1
  const SemverPatch := 2
  const SemverPrerelease := 3
  const SemverBuild := 4

  /** The package-level `changeKind`: the built-in kinds and their levels. */
  const ChangeKinds: map<string, int> := map[
    "Added" := SemverMajor, "Removed" := SemverMajor,
    "Changed" := SemverMinor, "Deprecated" := SemverMinor,
    "Fixed" := SemverPatch, "Security" := SemverPatch]

  /** The fixed table holds the same kinds, at the same levels, as the registry's built-in table. */
  lemma ChangeKindsAgree()
    ensures ChangeKinds.Keys == ChangeKind.DefaultTable.Keys
    ensures forall k :: k in ChangeKinds ==> ChangeKinds[k] == ChangeKind.DefaultTable[k].semver as int
  {
  }

  /**
   * `newChange`: each kind is tried as the pattern `^kind$`; the kinds are
   * plain words, so a title is accepted exactly when it is one of them.
   */
  function NewChange(s: string): (r: Result<Heading, Error>)
    ensures r.Ok? <==> s in ChangeKinds
    ensures r.Ok? ==> r.value == Change(s)
    ensures r.Err? ==> r.error == UnknownChangeHeading(s)
  {
    if s in ChangeKinds then Ok(Change(s)) else Err(UnknownChangeHeading(s))
  }

  /** The fixed table accepts the same change titles as the registry's built-in table. */
  lemma NewChangeAgrees(s: string)
    ensures NewChange(s).Ok? <==> ChangeHeading.NewChange(ChangeKind.DefaultTable, s).Ok?
  {
    ChangeKindsAgree();
  }

  /** The kinds at `level`. */
  function KindsAt(m: map<string, int>, level: int): (r: set<string>)
    ensures forall k :: k in r <==> k in m && m[k] == level
  {
    set k | k in m && m[k] == level
  }

  /** `keysFor`: every key at `level`, each once, in map order. */
  method KeysFor(m: map<string, int>, level: int) returns (result: seq<string>)
    ensures Distinct(result)
    ensures forall k :: k in result <==> k in KindsAt(m, level)
  {
    result := [];
    var remaining := m.Keys;
    while remaining != {}
      invariant remaining <= m.Keys
      invariant Distinct(result)
      invariant forall k :: k in result <==> k in m && k !in remaining && m[k] == level
      decreases remaining
    {
      var k :| k in remaining;
      if m[k] == level {
        DistinctConcat(result, [k]);
        result := result + [k];
      }
      remaining := remaining - {k};
    }
  }

  /** Each key between double quotes. */
  function Quoted(keys: seq<string>): seq<string> {
    seq(|keys|, i requires 0 <= i < |keys| => "\"" + keys[i] + "\"")
  }

  /**
   * `keysOf`: every key once, quoted, separated by ", ", in map order (so
   * only known to be some listing of the keys).
   */
  method KeysOf(m: map<string, int>) returns (r: string, ghost order: seq<string>)
    ensures Enumerates(order, m.Keys)
    ensures r == Join(Quoted(order), ", ")
  {
    r := "";
    order := [];
    var remaining := m.Keys;
    while remaining != {}
      invariant remaining <= m.Keys
      invariant Distinct(order)
      invariant forall k :: k in order <==> k in m && k !in remaining
      invariant r == Join(Quoted(order), ", ")
      invariant |order| == 0 <==> |r| == 0
      decreases remaining
    {
      var k :| k in remaining;
      QuotedJoinSnoc(order, k);
      if |r| > 0 {
        r := r + ", ";
      }
      r := r + "\"" + k + "\"";
      DistinctConcat(order, [k]);
      order := order + [k];
      remaining := remaining - {k};
    }
  }

  lemma QuotedJoinSnoc(keys: seq<string>, k: string)
    ensures |Join(Quoted(keys), ", ")| == 0 <==> |keys| == 0
    ensures Join(Quoted(keys + [k]), ", ")
            == Join(Quoted(keys), ", ") + (if |keys| == 0 then "" else ", ") + "\"" + k + "\""
  {
    var q := Quoted(keys);
    assert Quoted(keys + [k]) == q + ["\"" + k + "\""];
    JoinSnocWith(q, "\"" + k + "\"", ", ");
    if |keys| > 0 {
      assert |q[0]| > 0;
      JoinNonEmpty(q, ", ");
    }
  }

  lemma JoinNonEmpty(parts: seq<string>, sep: string)
    requires |parts| > 0 && |parts[0]| > 0
    ensures |Join(parts, sep)| > 0
  {
  }

  /**
   * `nextRelease`: the levels are searched major, then minor, then patch; the
   * first level with a marked kind decides. The new version has no pre-release
   * or build part; numbers are `uint64`s.
   */
  function NextRelease(c: ChangeMap, v: Semver.Version): Semver.Version {
    if exists k | k in KindsAt(ChangeKinds, SemverMajor) :: k in c && c[k] then Semver.Version((v.major + 1) % Uint64Limit, 0, 0, [], [])
    else if exists k | k in KindsAt(ChangeKinds, SemverMinor) :: k in c && c[k] then Semver.Version(v.major, (v.minor + 1) % Uint64Limit, 0, [], [])
    else if exists k | k in KindsAt(ChangeKinds, SemverPatch) :: k in c && c[k] then Semver.Version(v.major, v.minor, (v.patch + 1) % Uint64Limit, [], [])
    else v
  }

  /** The older `nextRelease` and the registry-driven `NextRelease` agree on the built-in kinds. */
  lemma NextReleaseAgrees(c: ChangeMap, r: ReleaseHeading.Release)
    ensures NextRelease(c, r.version) == r.NextRelease(ChangeKind.DefaultTable, c)
  {
    ChangeKindsAgree();
    assert KindsAt(ChangeKinds, SemverMajor) == ChangeKind.KeysWith(ChangeKind.DefaultTable, SemverIdentifier.Major);
    assert KindsAt(ChangeKinds, SemverMinor) == ChangeKind.KeysWith(ChangeKind.DefaultTable, SemverIdentifier.Minor);
    assert KindsAt(ChangeKinds, SemverPatch) == ChangeKind.KeysWith(ChangeKind.DefaultTable, SemverIdentifier.Patch);
  }

  /** From 0.0.0: 1.0.0 for "Added", 0.1.0 for "Changed", 0.0.1 for "Fixed", unchanged for nothing. */
  lemma NextReleaseFromZero()
    ensures NextRelease(map["Added" := true], Zero) == Semver.Version(1, 0, 0, [], [])
    ensures NextRelease(map["Changed" := true], Zero) == Semver.Version(0, 1, 0, [], [])
    ensures NextRelease(map["Fixed" := true], Zero) == Semver.Version(0, 0, 1, [], [])
    ensures NextRelease(map[], Zero) == Zero
  {
    assert "Added" in KindsAt(ChangeKinds, SemverMajor);
    assert "Changed" in KindsAt(ChangeKinds, SemverMinor);
    assert "Fixed" in KindsAt(ChangeKinds, SemverPatch);
  }
}
