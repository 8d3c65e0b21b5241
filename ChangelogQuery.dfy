/**
 * The first query node of the middle revision (`internal/query/changelogQuery.go`):
 * it matches the introduction, and either writes its title (`title`) or
 * passes on to a release node (`releases[N]...`).
 */
module ChangelogQuery {
  import opened Wrappers
  import opened Errors
  import opened Strings
  import opened HeadingsFactory
  import ReleaseQuery

  /** `changelogQuery`: whether it has the title projection. */
  datatype ChangelogQuery = ChangelogQuery(projectsTitle: bool)

  /** The nodes `newIntroductionQuery` appends: its own, then those of a release query. */
  datatype IntroductionChain = IntroductionChain(introduction: ChangelogQuery, release: Option<ReleaseQuery.ReleaseChain>)

  /** A segment `releases[...]`. */
  predicate IsReleases(s: string) {
    HasPrefix(s, "releases[") && HasSuffix(s, "]")
  }

  function ReleasesSelector(s: string): (r: string)
    requires IsReleases(s)
    ensures s == "releases[" + r + "]"
  {
    assert "releases[" == "releases" + "[";
    BracketContent("releases[", s)
  }

  /**
   * `newIntroductionQuery`: `title` must be the last segment and compiles
   * to the title node; `releases[N]` compiles to a pass-through node and
   * hands `N` and the rest to a release query, passing its errors on.
   */
  method NewIntroductionQuery(name: string, queryElements: seq<string>) returns (r: Result<IntroductionChain, Error>)
    ensures name == "title" ==>
              if |queryElements| > 0 then r == Err(NothingAfterTitle)
              else r == Ok(IntroductionChain(ChangelogQuery(true), None))
    ensures name != "title" && IsReleases(name) ==>
              && (r.Ok? ==> r.value.introduction == ChangelogQuery(false) && r.value.release.Some?)
              && (r.Err? ==> Atoi(ReleasesSelector(name)).None? || |queryElements| > 0)
    ensures name != "title" && IsReleases(name) ==>
              var p := ReleaseQuery.Plan(ReleasesSelector(name), queryElements);
              && (r.Ok? <==> p.Ok?)
              && (r.Err? ==> r.error == p.error)
              && (r.Ok? ==> && fresh(r.value.release.value.release)
                            && r.value.release.value.release.cursor == 0
                            && p.value == ReleaseQuery.ReleasePlan(r.value.release.value.release.index,
                                                                   r.value.release.value.release.enter,
                                                                   r.value.release.value.change))
    ensures name != "title" && IsReleases(name) && Atoi(ReleasesSelector(name)).None? ==>
              r == Err(ReleaseSelectorParse(ReleasesSelector(name)))
    ensures name != "title" && IsReleases(name) && Atoi(ReleasesSelector(name)).Some? && |queryElements| == 0 ==>
              && r.Ok? && fresh(r.value.release.value.release)
              && r.value.release.value.release.index == Atoi(ReleasesSelector(name)).value
              && r.value.release.value.release.enter == Some(ReleaseQuery.Summary)
    ensures name != "title" && !IsReleases(name) ==> r == Err(QueryAttributeNotRecognized(name))
  {
    if name == "title" {
      if |queryElements| > 0 {
        return Err(NothingAfterTitle);
      }
      return Ok(IntroductionChain(ChangelogQuery(true), None));
    }
    if IsReleases(name) {
      var release := ReleaseQuery.NewReleaseQuery(ReleasesSelector(name), queryElements);
      if release.Err? {
        return Err(release.error);
      }
      return Ok(IntroductionChain(ChangelogQuery(false), Some(release.value)));
    }
    return Err(QueryAttributeNotRecognized(name));
  }

  /** "releases[0]" followed by "version" plans the first release, projecting its version. */
  lemma ReleasesZeroVersion()
    ensures IsReleases("releases[0]") && ReleasesSelector("releases[0]") == "0"
    ensures ReleaseQuery.Plan(ReleasesSelector("releases[0]"), ["version"])
            == Ok(ReleaseQuery.ReleasePlan(0, Some(ReleaseQuery.VersionOf), None))
  {
    assert IsReleases("releases[0]") && ReleasesSelector("releases[0]") == "0" by {
      var s := "releases[0]";
      assert s == "releases[" + "0" + "]";
      var sel := ReleasesSelector(s);
      assert |sel| == 1 && sel[0] == s[9] == '0';
    }
    ReleaseQuery.VersionPlan();
  }

  /**
   * `Select`: false for anything but the introduction; true for it when
   * there is no projection; otherwise its title is written and the node
   * stays where it is.
   */
  function Select(q: ChangelogQuery, heading: Heading): (r: (bool, string))
    ensures r.0 <==> heading.IntroductionOf? && !q.projectsTitle
    ensures r.1 != "" ==> heading.IntroductionOf? && q.projectsTitle
    ensures heading.IntroductionOf? && q.projectsTitle ==> r.1 == heading.Title()
  {
    if !heading.IntroductionOf? then (false, "")
    else if !q.projectsTitle then (true, "")
    else (false, heading.Title())
  }
}
