/**
 * The level-2 heading of a release (`internal/changelog/releaseHeading.go`):
 * an Unreleased section, a dated release with an optional label, or a dated
 * release that was withdrawn ("YANKED").
 */
module ReleaseHeading {
  import opened Wrappers
  import opened Errors
  import opened Strings
  import opened Headings
  import opened Dates
  import opened Semver
  import opened SemverIdentifier
  import opened ChangeMap
  import opened ChangeKind
  import opened ReleaseGrammar

  /** `Release`; an Unreleased section has the zero date and the zero version. */
  datatype Release = Release(name: string, labelText: string, unreleased: bool, yanked: bool, date: Dates.Date, version: Semver.Version) {
    function Name(): string { name }
    function Title(): string { name }
    function DisplayTitle(): string { name }
    function Kind(): HeadingKind { ReleaseHeading }
    function String(): string { AsPath(name) }
    function Date(): string { Format(date) }
    function Label(): string { labelText }
    function Version(): string { ToString(version) }

    /** A dated, final release: not Unreleased, no pre-release, no build metadata. */
    predicate IsRelease() {
      HasBeenReleased() && !unreleased && |version.pre| == 0 && |version.build| == 0
    }

    predicate Unreleased() { unreleased }
    predicate Yanked() { yanked }

    /** A date other than the zero time was given. */
    predicate HasBeenReleased() { date != ZeroTime }

    /** The release carries `next` by precedence (build metadata ignored). */
    predicate HasRelease(next: Semver.Version) { EQ(version, next) }

    /**
     * `NextRelease(ChangeMap)`: the version after this one for the change
     * kinds marked in `c`, the most severe increment registered in `t` winning.
     */
    function NextRelease(t: Table, c: ChangeMap): Semver.Version {
      if exists k | k in KeysWith(t, Major) :: k in c && c[k] then Semver.Version((version.major + 1) % Uint64Limit, 0, 0, [], [])
      else if exists k | k in KeysWith(t, Minor) :: k in c && c[k] then Semver.Version(version.major, (version.minor + 1) % Uint64Limit, 0, [], [])
      else if exists k | k in KeysWith(t, Patch) :: k in c && c[k] then Semver.Version(version.major, version.minor, (version.patch + 1) % Uint64Limit, [], [])
      else version
    }

    /** `SortsBefore`: this release must be no older and of strictly higher precedence than `other`. */
    function SortsBefore(other: Release): (r: Option<Error>)
      ensures r.None? <==> !Before(date, other.date) && Compare(version, other.version) > 0
    {
      if Before(date, other.date) then Some(ShouldBeOlder(other.name, name))
      else if LTE(version, other.version) then Some(ShouldSortBefore(other.name, name))
      else None
    }

    // Queries the validator and the query engine use whose definitions are
    // not part of the shown sources; each is the analogue above it names.

    /** `IsNewerThan`: `SortsBefore`. */
    function IsNewerThan(other: Release): Option<Error> { SortsBefore(other) }
    /** `ReleaseIs`: `HasRelease`. */
    predicate ReleaseIs(next: Semver.Version) { HasRelease(next) }
    predicate IsMajorVersionZero() { version.major == 0 }
    predicate HasBeenYanked() { yanked }
    /** A dated release whose version has a pre-release part. */
    predicate IsPrerelease() { HasBeenReleased() && !unreleased && |version.pre| > 0 }
    /** `NextRelease(Identifier)`. */
    function NextReleaseAt(increment: Identifier): Semver.Version { NextVersion(version, increment) }
  }

  /**
   * The version one increment above `v`: the lower parts reset, the
   * pre-release and build parts dropped, `uint64` arithmetic wrapping; the
   * other identifiers leave `v` as it is.
   */
  function NextVersion(v: Semver.Version, increment: Identifier): Semver.Version {
    if increment == Major then Semver.Version((v.major + 1) % Uint64Limit, 0, 0, [], [])
    else if increment == Minor then Semver.Version(v.major, (v.minor + 1) % Uint64Limit, 0, [], [])
    else if increment == Patch then Semver.Version(v.major, v.minor, (v.patch + 1) % Uint64Limit, [], [])
    else v
  }

  /**
   * `newRelease`: the Unreleased form first, then the bracketed form (date,
   * then label, then version checked), then the YANKED form (date, then version).
   */
  function NewRelease(s: string): (r: Result<Release, Error>)
    ensures r.Ok? ==> r.value.name == s && r.value.Kind() == ReleaseHeading
    ensures r.Ok? ==> (r.value.unreleased <==> MatchUnreleased(s))
    ensures r.Ok? && r.value.unreleased ==>
              !r.value.yanked && r.value.labelText == "" && !r.value.HasBeenReleased() && !r.value.IsRelease()
    ensures r.Ok? && !r.value.unreleased ==> ValidDate(r.value.date)
    ensures r.Ok? && r.value.yanked ==> r.value.labelText == "" && MatchYanked(s).Some?
    ensures r.Ok? ==> !ContainsYankedClass(r.value.labelText)
    ensures r.Err? ==> r.error in {IllegalDate(s), YankedVersionInBrackets(s), IllegalVersion(s), UnknownReleaseHeader(s)}
    ensures r == Err(UnknownReleaseHeader(s)) <==>
              !MatchUnreleased(s) && MatchBracketed(s).None? && MatchYanked(s).None?
  {
    if MatchUnreleased(s) then
      Ok(Release(s, "", true, false, ZeroTime, Zero))
    else if MatchBracketed(s).Some? then
      var m := MatchBracketed(s).value;
      match ParseDate(Subexp(BracketedNames, m, "date"))
      case None => Err(IllegalDate(s))
      case Some(date) =>
        var labelText := Subexp(BracketedNames, m, "label");
        if ContainsYankedClass(labelText) then Err(YankedVersionInBrackets(s))
        else
          match Semver.Parse(Subexp(BracketedNames, m, "semver"))
          case None => Err(IllegalVersion(s))
          case Some(version) => Ok(Release(s, labelText, false, false, date, version))
    else if MatchYanked(s).Some? then
      var m := MatchYanked(s).value;
      match ParseDate(Subexp(YankedNames, m, "date"))
      case None => Err(IllegalDate(s))
      case Some(date) =>
        match Semver.Parse(Subexp(YankedNames, m, "semver"))
        case None => Err(IllegalVersion(s))
        case Some(version) => Ok(Release(s, "", false, true, date, version))
    else Err(UnknownReleaseHeader(s))
  }

  // The three title forms

  /** An Unreleased title, spaces allowed inside the brackets only, gives an undated release. */
  lemma UnreleasedTitle(w1: string, w2: string)
    requires AllSpace(w1) && AllSpace(w2)
    ensures var s := "[" + w1 + "Unreleased" + w2 + "]";
            NewRelease(s) == Ok(Release(s, "", true, false, ZeroTime, Zero))
            && !NewRelease(s).value.IsRelease() && !NewRelease(s).value.HasBeenReleased()
  {
    UnreleasedOf(w1, w2);
  }

  /** The title `[v] - date`, then a space and the tag unless the tag is empty. */
  function BracketedTitle(v: string, date: string, tag: string): string {
    "[" + v + "] - " + date + (if tag == "" then "" else " " + tag)
  }

  /**
   * A bracketed title is checked in this order: the date must exist, the
   * label must hold no character of `[\s*YANKED\s*]`, the version must parse.
   */
  lemma BracketedOrder(v: string, date: string, tag: string)
    requires Word(v) && v[0] != 'U' && IsoShape(date)
    requires tag == "" || (!IsSpace(tag[0]) && '\n' !in tag)
    ensures var s := BracketedTitle(v, date, tag);
            NewRelease(s) ==
              if ParseDate(date).None? then Err(IllegalDate(s))
              else if ContainsYankedClass(tag) then Err(YankedVersionInBrackets(s))
              else if Semver.Parse(v).None? then Err(IllegalVersion(s))
              else Ok(Release(s, tag, false, false, ParseDate(date).value, Semver.Parse(v).value))
  {
    var s := BracketedTitle(v, date, tag);
    BracketedSplit(v, date, tag);
    assert s[1] == v[0];
    NotUnreleased(s, v);
    BracketedCascade(s, [s, v, date, tag]);
  }

  lemma BracketedSplit(v: string, date: string, tag: string)
    requires Word(v) && IsoShape(date)
    requires tag == "" || (!IsSpace(tag[0]) && '\n' !in tag)
    ensures var s := BracketedTitle(v, date, tag);
            MatchBracketed(s) == Some([s, v, date, tag])
  {
    var s := BracketedTitle(v, date, tag);
    var u := if tag == "" then "" else " " + tag;
    if tag != "" { LabelAfterSpace(tag); }
    assert s == "[" + v + "] - " + date + u;
    BracketedMatch(v, date, u);
  }

  /** Once the bracketed pattern matched, `newRelease` checks its groups in order. */
  lemma BracketedCascade(s: string, m: seq<string>)
    requires !MatchUnreleased(s) && MatchBracketed(s) == Some(m)
    ensures NewRelease(s) ==
              if ParseDate(m[2]).None? then Err(IllegalDate(s))
              else if ContainsYankedClass(m[3]) then Err(YankedVersionInBrackets(s))
              else if Semver.Parse(m[1]).None? then Err(IllegalVersion(s))
              else Ok(Release(s, m[3], false, false, ParseDate(m[2]).value, Semver.Parse(m[1]).value))
  {
    BracketedGroups(m);
  }

  /** Once only the YANKED pattern matched, `newRelease` checks its groups in order. */
  lemma YankedCascade(s: string, m: seq<string>)
    requires !MatchUnreleased(s) && MatchBracketed(s).None? && MatchYanked(s) == Some(m)
    ensures NewRelease(s) ==
              if ParseDate(m[2]).None? then Err(IllegalDate(s))
              else if Semver.Parse(m[1]).None? then Err(IllegalVersion(s))
              else Ok(Release(s, "", false, true, ParseDate(m[2]).value, Semver.Parse(m[1]).value))
  {
    YankedGroups(m);
  }

  lemma NotUnreleased(s: string, v: string)
    requires |v| > 0 && !IsSpace(v[0]) && v[0] != 'U' && |s| > 1 && s[1] == v[0]
    ensures !MatchUnreleased(s)
  {
    SkipSpacesAt(s, 1, 1);
    if |s| >= 12 { assert s[1..11][0] == s[1]; }
  }

  /** The title `v - date [YANKED]`. */
  function YankedTitle(v: string, date: string): string {
    v + " - " + date + " [YANKED]"
  }

  /** A YANKED title is checked in this order: the date must exist, the version must parse. */
  lemma YankedOrder(v: string, date: string)
    requires Word(v) && v[0] != '[' && IsoShape(date)
    ensures var s := YankedTitle(v, date);
            NewRelease(s) ==
              if ParseDate(date).None? then Err(IllegalDate(s))
              else if Semver.Parse(v).None? then Err(IllegalVersion(s))
              else Ok(Release(s, "", false, true, ParseDate(date).value, Semver.Parse(v).value))
  {
    var s := YankedTitle(v, date);
    YankedMatch(v, date);
    assert s[0] == v[0];
    YankedCascade(s, [s, v, date]);
  }

  /** Printing a release title and reading it back gives the version, the date and the tag. */
  lemma BracketedRoundTrip(v: Semver.Version, d: Dates.Date, tag: string)
    requires Semver.Valid(v) && ValidDate(d)
    requires tag == "" || (!IsSpace(tag[0]) && '\n' !in tag)
    requires !ContainsYankedClass(tag)
    ensures var s := BracketedTitle(ToString(v), Format(d), tag);
            NewRelease(s) == Ok(Release(s, tag, false, false, d, v))
  {
    VersionWord(v);
    FormatShape(d);
    ParseFormat(d);
    ParseToString(v);
    BracketedOrder(ToString(v), Format(d), tag);
  }

  lemma YankedRoundTrip(v: Semver.Version, d: Dates.Date)
    requires Semver.Valid(v) && ValidDate(d)
    ensures var s := YankedTitle(ToString(v), Format(d));
            NewRelease(s) == Ok(Release(s, "", false, true, d, v))
  {
    VersionWord(v);
    FormatShape(d);
    ParseFormat(d);
    ParseToString(v);
    YankedOrder(ToString(v), Format(d));
  }

  lemma VersionWord(v: Semver.Version)
    requires Semver.Valid(v)
    ensures Word(ToString(v)) && ToString(v)[0] != 'U' && ToString(v)[0] != '['
  {
    ToStringText(v);
  }

  /**
   * A bracketed version followed by the marker "[YANKED]", as in
   * "[1.2.3] - 2020-04-15 [YANKED]", is refused: the marker holds letters of
   * the class, so a yanked version cannot stand between brackets.
   */
  lemma YankedMarkerInBrackets(v: Semver.Version, d: Dates.Date)
    requires Semver.Valid(v) && ValidDate(d)
    ensures var s := BracketedTitle(ToString(v), Format(d), "[YANKED]");
            NewRelease(s) == Err(YankedVersionInBrackets(s))
  {
    VersionWord(v);
    FormatShape(d);
    ParseFormat(d);
    assert YankedClass("[YANKED]"[1]);
    BracketedOrder(ToString(v), Format(d), "[YANKED]");
  }

  // Version arithmetic

  /**
   * With the registry well formed and every recorded change kind marked,
   * `NextRelease` applies the increment `IncrementFor` finds.
   */
  lemma NextReleaseApplies(r: Release, t: Table, c: ChangeMap, increment: Identifier, trigger: string)
    requires WellFormed(t) && (forall k :: k in c ==> c[k])
    requires IsIncrementFor(t, c, increment, trigger)
    ensures r.NextRelease(t, c) == NextVersion(r.version, increment)
  {
    if increment == Major {
      assert trigger in KeysWith(t, Major);
    } else if increment == Minor {
      assert trigger in KeysWith(t, Minor);
    } else if increment == Patch {
      assert trigger in KeysWith(t, Patch);
    }
  }

  /** From 0.0.0 with the default registry: 1.0.0 for "Added", 0.1.0 for "Changed", 0.0.1 for "Fixed", 0.0.0 for nothing. */
  lemma NextReleaseFromZero()
    ensures var r := Release("", "", false, false, ZeroTime, Zero);
            && r.NextRelease(DefaultTable, map["Added" := true]) == Semver.Version(1, 0, 0, [], [])
            && r.NextRelease(DefaultTable, map["Changed" := true]) == Semver.Version(0, 1, 0, [], [])
            && r.NextRelease(DefaultTable, map["Fixed" := true]) == Semver.Version(0, 0, 1, [], [])
            && r.NextRelease(DefaultTable, map[]) == Zero
  {
    assert "Added" in KeysWith(DefaultTable, Major);
    assert "Changed" in KeysWith(DefaultTable, Minor);
    assert "Fixed" in KeysWith(DefaultTable, Patch);
  }

  /** Below the `uint64` limit, a major, minor or patch increment raises the precedence. */
  lemma NextVersionIncreases(v: Semver.Version, increment: Identifier)
    requires increment == Major || increment == Minor || increment == Patch
    requires v.major + 1 < Uint64Limit && v.minor + 1 < Uint64Limit && v.patch + 1 < Uint64Limit
    ensures Compare(NextVersion(v, increment), v) > 0
    ensures |NextVersion(v, increment).pre| == 0 && |NextVersion(v, increment).build| == 0
  {
  }

  /** At the `uint64` limit the major number wraps around to 0, as Go's unsigned addition does. */
  lemma NextMajorWraps(v: Semver.Version)
    requires v.major == Uint64Limit - 1
    ensures NextVersion(v, Major) == Semver.Version(0, 0, 0, [], [])
  {
  }

  // Ordering between releases

  /**
   * `SortsBefore` is a strict order: no release sorts before itself, two
   * releases never sort before each other, and the order is transitive.
   */
  lemma SortsBeforeStrictOrder(a: Release, b: Release, c: Release)
    ensures a.SortsBefore(a).Some?
    ensures a.SortsBefore(b).None? ==> b.SortsBefore(a).Some?
    ensures a.SortsBefore(b).None? && b.SortsBefore(c).None? ==> a.SortsBefore(c).None?
  {
    CompareIgnoresBuild(a.version, a.version.build);
    assert a.version.(build := a.version.build) == a.version;
    CompareAntisymmetric(a.version, b.version);
    CompareAntisymmetric(b.version, c.version);
    CompareAntisymmetric(a.version, c.version);
    BeforeStrictTotal(a.date, b.date, c.date);
    BeforeStrictTotal(c.date, b.date, a.date);
    if a.SortsBefore(b).None? && b.SortsBefore(c).None? {
      if LTE(a.version, c.version) {
        LTETransitive(b.version, a.version, c.version);
      }
    }
  }
}
