/**
 * The changelog checker (`internal/validator/validator.go`). The Markdown
 * walk is given as the events the checker reacts to: a heading or list item
 * entered, its text, its level when left, and the end of the document. Each
 * handler answers `None` to go on or the error that stops the walk.
 */
module Validator {
  import opened Wrappers
  import opened Errors
  import opened Strings
  import Headings
  import opened Semver
  import opened SemverIdentifier
  import opened ChangeMap
  import opened ChangeKind
  import opened ReleaseHeading
  import opened HeadingsFactory
  import opened Changelog

  /** The checker's own bookkeeping, the fields its handlers update. */
  datatype Progress = Progress(
    hasIntroductionHeading: bool,
    h1Released: bool,
    h1Unreleased: bool,
    changes: ChangeMap,
    hasChangeDescriptions: bool,
    previousRelease: Release)

  /** The zero `changelog.Release`: undated, so never a final release. */
  const NoRelease := Release("", "", false, false, Dates.ZeroTime, Semver.Zero)

  /**
   * `validateReleaseHeading`: a dated release may be yanked only after a
   * release or an Unreleased section; an Unreleased section is refused in
   * release mode, after another one, and after a release that was not yanked.
   */
  function ReleaseOrderError(releaseMode: bool, st: Progress, rel: Release, path: string): Option<Error> {
    if rel.HasBeenReleased() then
      if rel.HasBeenYanked() && !st.h1Released && !st.h1Unreleased then Some(YankedFirst(path)) else None
    else if releaseMode then Some(UnreleasedInReleaseMode(path))
    else if st.h1Unreleased then Some(MultipleUnreleased(path))
    else if st.h1Released then Some(UnreleasedAfterRelease(path))
    else None
  }

  /** The order checks accept a release exactly in the situations the design allows. */
  lemma ReleaseOrderAccepts(releaseMode: bool, st: Progress, rel: Release, path: string)
    ensures ReleaseOrderError(releaseMode, st, rel, path).None? <==>
              if rel.HasBeenReleased() then !rel.yanked || st.h1Released || st.h1Unreleased
              else !releaseMode && !st.h1Unreleased && !st.h1Released
  {
  }

  /**
   * The version check between the newer release `prev`, already read, and
   * the release `cur` below it: `inc` is the increment of the changes listed
   * under `prev`, `trigger` the kind that called for it.
   */
  function VersionCheck(prev: Release, cur: Release, inc: Identifier, trigger: string): Option<Error> {
    if inc == Build then Some(OnlyBuildChanges(prev.Title()))
    else if prev.IsNewerThan(cur).Some? then prev.IsNewerThan(cur)
    else
      var next := cur.NextReleaseAt(inc);
      if prev.ReleaseIs(next) then None
      else if cur.IsMajorVersionZero() && inc == Major then
        var nextMinor := cur.NextReleaseAt(Minor);
        if prev.ReleaseIs(nextMinor) then None
        else Some(ShouldHaveVersions(prev.Title(), ToString(nextMinor), ToString(next), trigger))
      else Some(ShouldHaveVersion(prev.Title(), ToString(next), trigger))
  }

  /**
   * Two consecutive final releases pass exactly when the changes call for
   * more than build metadata, the newer one is no older and of higher
   * precedence, and it carries the next version for that increment (for a
   * 0.x release a major change may also be released as a minor one).
   */
  lemma VersionCheckAccepts(prev: Release, cur: Release, inc: Identifier, trigger: string)
    ensures VersionCheck(prev, cur, inc, trigger).None? <==>
              && inc != Build
              && !Dates.Before(prev.date, cur.date) && Compare(prev.version, cur.version) > 0
              && (EQ(prev.version, NextVersion(cur.version, inc))
                  || (cur.version.major == 0 && inc == Major && EQ(prev.version, NextVersion(cur.version, Minor))))
  {
  }

  /** An accepted pair of releases is in strictly decreasing precedence, newest first. */
  lemma AcceptedReleasesDecrease(prev: Release, cur: Release, inc: Identifier, trigger: string)
    requires VersionCheck(prev, cur, inc, trigger).None?
    ensures Compare(prev.version, cur.version) > 0 && Compare(cur.version, prev.version) < 0
  {
    VersionCheckAccepts(prev, cur, inc, trigger);
    CompareAntisymmetric(prev.version, cur.version);
  }

  /** The bookkeeping after a release section is accepted. */
  function Accepted(st: Progress, rel: Release): (r: Progress)
    ensures r.previousRelease == rel && r.changes == map[] && !r.hasChangeDescriptions
    ensures r.hasIntroductionHeading == st.hasIntroductionHeading
    ensures r.h1Unreleased <==> st.h1Unreleased || !rel.HasBeenReleased()
    ensures r.h1Released <==> st.h1Released || (rel.HasBeenReleased() && !rel.HasBeenYanked())
  {
    var st' := st.(hasChangeDescriptions := false, changes := map[], previousRelease := rel);
    if !rel.HasBeenReleased() then st'.(h1Unreleased := true)
    else if !rel.HasBeenYanked() then st'.(h1Released := true)
    else st'
  }

  /** Once an Unreleased section was accepted, every later one is refused. */
  lemma SecondUnreleasedRefused(releaseMode: bool, st: Progress, u1: Release, u2: Release, path: string)
    requires !u1.HasBeenReleased() && !u2.HasBeenReleased()
    ensures ReleaseOrderError(releaseMode, Accepted(st, u1), u2, path).Some?
  {
  }

  /** Once a release that was not yanked was accepted, an Unreleased section is refused. */
  lemma UnreleasedAfterReleaseRefused(releaseMode: bool, st: Progress, rel: Release, u: Release, path: string)
    requires rel.HasBeenReleased() && !rel.HasBeenYanked() && !u.HasBeenReleased()
    ensures ReleaseOrderError(releaseMode, Accepted(st, rel), u, path).Some?
  {
  }

  /** A yanked release is refused as the first release of the changelog. */
  lemma YankedFirstRefused(releaseMode: bool, st: Progress, rel: Release, path: string)
    requires !st.h1Released && !st.h1Unreleased && rel.HasBeenReleased() && rel.HasBeenYanked()
    ensures ReleaseOrderError(releaseMode, st, rel, path) == Some(YankedFirst(path))
  {
  }

  /** ASCII lower case, the part of `bytes.ToLower` an address scheme needs. */
  function LowerAscii(s: string): (r: string)
    ensures |r| == |s|
    ensures forall i :: 0 <= i < |s| ==> r[i] == if 'A' <= s[i] <= 'Z' then (s[i] as int + 32) as char else s[i]
  {
    seq(|s|, i requires 0 <= i < |s| => if 'A' <= s[i] <= 'Z' then (s[i] as int + 32) as char else s[i])
  }

  /** An e-mail autolink is written with a scheme unless it already has one. */
  predicate NeedsMailto(url: string, isEmail: bool) {
    isEmail && !HasPrefix(LowerAscii(url), "mailto:")
  }

  /** An address written "MailTo:" keeps its own scheme; a bare one gains "mailto:". */
  lemma MailtoCaseInsensitive()
    ensures !NeedsMailto("MailTo:a@b.c", true)
    ensures NeedsMailto("a@b.c", true) && !NeedsMailto("a@b.c", false)
  {
    assert LowerAscii("MailTo:a@b.c")[..7] == "mailto:";
    assert |LowerAscii("a@b.c")| < |"mailto:"|;
  }

  /** `Validator`. */
  class Validator {
    const release: bool
    /** The registry the checker and its heading factory share. */
    const changeKind: ChangeKind
    var text: string
    var hasIntroductionHeading: bool
    var h1Released: bool
    var h1Unreleased: bool
    var changes: ChangeMap
    var hasChangeDescriptions: bool
    const changelog: Changelog
    var previousRelease: Release

    function State(): Progress
      reads this
    {
      Progress(hasIntroductionHeading, h1Released, h1Unreleased, changes, hasChangeDescriptions, previousRelease)
    }

    /**
     * What holds between events: the factory reads the checker's registry,
     * the open headings are kind-indexed, the introduction is open once its
     * heading was read, the recorded changes are registered kinds, there is
     * no Unreleased section in release mode, and `previousRelease` is the
     * release section open, if any.
     */
    ghost predicate Valid()
      reads this, changelog, changeKind
    {
      && changelog.headingsFactory.changeKind == changeKind.changes
      && changelog.Valid()
      && (hasIntroductionHeading <==> |changelog.headings| > 0)
      && (forall k :: k in changes ==> changes[k] && k in changeKind.changes)
      && (h1Unreleased ==> !release)
      && (|changelog.headings| >= 2 ==> changelog.headings[1] == ReleaseOf(previousRelease))
    }

    /** `NewValidator`: the options' release mode, registry and optional listener. */
    constructor (releaseMode: bool, changeKind: ChangeKind, listener: Option<ListenerId>)
      ensures release == releaseMode && this.changeKind == changeKind
      ensures fresh(changelog)
      ensures changelog.headingsFactory == HeadingsFactory(changeKind.changes)
      ensures changelog.headings == [] && changelog.notifications == []
      ensures changelog.listeners == if listener.Some? then [listener.value] else []
      ensures text == "" && State() == Progress(false, false, false, map[], false, NoRelease)
      ensures Valid()
    {
      release := releaseMode;
      this.changeKind := changeKind;
      var c := new Changelog(HeadingsFactory(changeKind.changes));
      if listener.Some? {
        c.Listener([listener.value]);
      }
      changelog := c;
      text := "";
      hasIntroductionHeading := false;
      h1Released := false;
      h1Unreleased := false;
      changes := map[];
      hasChangeDescriptions := false;
      previousRelease := NoRelease;
    }

    /** The changelog's own calls: what `Section(kind, text)` did to it. */
    twostate predicate Sectioned(kind: Headings.HeadingKind)
      reads this, changelog
    {
      && changelog.headingsFactory == old(changelog.headingsFactory)
      && changelog.listeners == old(changelog.listeners)
      && SectionEffect(changelog.listeners, kind,
                       SectionResult(changelog.headingsFactory, old(changelog.headings), kind, old(text)),
                       old(changelog.headings), old(changelog.notifications), changelog.headings, changelog.notifications)
    }

    /** The changelog is as it was. */
    twostate predicate Untouched()
      reads this, changelog
    {
      && changelog.headingsFactory == old(changelog.headingsFactory)
      && changelog.listeners == old(changelog.listeners)
      && changelog.headings == old(changelog.headings)
      && changelog.notifications == old(changelog.notifications)
    }

    /** `visitHeading` and `visitListItem` entering: the text starts anew. */
    method EnterBlock()
      modifies this
      ensures text == "" && State() == old(State())
    {
      text := "";
    }

    /**
     * `visitText` entering: the segment, then, unless the text is raw, "  \n"
     * for a hard line break or " " for a soft one.
     */
    method VisitText(value: string, isRaw: bool, hardLineBreak: bool, softLineBreak: bool)
      modifies this
      ensures text == old(text) + value +
                (if isRaw then "" else if hardLineBreak then "  \n" else if softLineBreak then " " else "")
      ensures State() == old(State())
    {
      text := text + value;
      if !isRaw {
        if hardLineBreak {
          text := text + "  \n";
        } else if softLineBreak {
          text := text + " ";
        }
      }
    }

    /** `visitLink` entering: the opening bracket of the link's text. */
    method EnterLink()
      modifies this
      ensures text == old(text) + "[" && State() == old(State())
    {
      text := text + "[";
    }

    /** `visitLink` leaving: the destination, and the title in double quotes when there is one. */
    method ExitLink(destination: string, title: Option<string>)
      modifies this
      ensures text == old(text) + "](" + destination
                + (if title.Some? then " \"" + title.value + "\"" else "") + ")"
      ensures State() == old(State())
    {
      text := text + "](" + destination;
      if title.Some? {
        text := text + " \"" + title.value + "\"";
      }
      text := text + ")";
    }

    /**
     * `visitAutoLink` entering: the address in angle brackets; an e-mail
     * address not already starting with "mailto:", in any case, gains it.
     */
    method EnterAutoLink(url: string, isEmail: bool)
      modifies this
      ensures text == old(text) + "<" + (if NeedsMailto(url, isEmail) then "mailto:" else "") + url + ">"
      ensures State() == old(State())
    {
      text := text + "<";
      if isEmail && !HasPrefix(LowerAscii(url), "mailto:") {
        text := text + "mailto:";
      }
      text := text + url + ">";
    }

    /** The contract of `visitHeading1`. */
    twostate predicate Heading1Step(new err: Option<Error>)
      reads this, changelog
    {
      && text == old(text)
      && Sectioned(Headings.IntroductionHeading)
      && var r := SectionResult(changelog.headingsFactory, old(changelog.headings), Headings.IntroductionHeading, text);
         if r.Err? then err == Some(r.error) && State() == old(State())
         else err.None? && State() == old(State()).(hasIntroductionHeading := true)
    }

    /** `visitHeading1`: the introduction; every open section is left. */
    method VisitHeading1() returns (err: Option<Error>)
      requires Valid()
      modifies this, changelog
      ensures Heading1Step(err)
      ensures err.None? ==> Valid()
    {
      var r := changelog.Section(Headings.IntroductionHeading, text);
      if r.Err? {
        return Some(r.error);
      }
      hasIntroductionHeading := true;
      err := None;
    }

    /** The contract of `visitHeading2`, once the section is open: the order checks, the version check, the bookkeeping. */
    twostate predicate ReleaseChecked(rel: Release, new err: Option<Error>)
      reads this, changelog, changeKind
    {
      var st := old(State());
      var e := ReleaseOrderError(release, st, rel, PathOf(changelog.headings));
      if e.Some? then err == e && State() == st
      else if st.previousRelease.IsRelease() && rel.IsRelease() then
        exists inc, trigger :: IsIncrementFor(changeKind.changes, st.changes, inc, trigger)
          && err == VersionCheck(st.previousRelease, rel, inc, trigger)
          && State() == if err.Some? then st else Accepted(st, rel)
      else err.None? && State() == Accepted(st, rel)
    }

    /** The contract of `visitHeading2`. */
    twostate predicate Heading2Step(new err: Option<Error>)
      reads this, changelog, changeKind
    {
      && text == old(text)
      && if (old(changelog.Release()) || old(changelog.Change())) && !old(hasChangeDescriptions) then
           err == Some(NoChangeDescriptions(PathOf(old(changelog.headings)))) && Untouched() && State() == old(State())
         else
           && Sectioned(Headings.ReleaseHeading)
           && var r := SectionResult(changelog.headingsFactory, old(changelog.headings), Headings.ReleaseHeading, text);
              if r.Err? then err == Some(r.error) && State() == old(State())
              else r.value.ReleaseOf? && ReleaseChecked(r.value.release, err)
    }

    /**
     * `visitHeading2`: a release. The section before it must have had a
     * change description; then the release is read, its place checked and,
     * between two final releases, its version.
     */
    method VisitHeading2() returns (err: Option<Error>)
      requires Valid()
      modifies this, changelog
      ensures Heading2Step(err)
      ensures err.None? ==> Valid()
    {
      if (changelog.Release() || changelog.Change()) && !hasChangeDescriptions {
        return Some(NoChangeDescriptions(PathOf(changelog.headings)));
      }
      var r := changelog.Section(Headings.ReleaseHeading, text);
      if r.Err? {
        return Some(r.error);
      }
      err := CheckRelease(r.value.release);
    }

    /** The body of `visitHeading2` once the section is open. */
    method CheckRelease(rel: Release) returns (err: Option<Error>)
      modifies this
      ensures ReleaseChecked(rel, err)
      ensures err.None? ==> State() == Accepted(old(State()), rel)
      ensures text == old(text)
    {
      err := ValidateReleaseHeading(rel);
      if err.Some? {
        return err;
      }
      ghost var st := State();
      if previousRelease.IsRelease() && rel.IsRelease() {
        var increment, trigger := changeKind.IncrementFor(changes);
        err := VersionCheck(previousRelease, rel, increment, trigger);
        if err.Some? {
          return err;
        }
      }
      if !rel.HasBeenReleased() {
        h1Unreleased := true;
      } else if !rel.HasBeenYanked() {
        h1Released := true;
      }
      hasChangeDescriptions := false;
      changes := map[];
      previousRelease := rel;
      assert State() == Accepted(st, rel);
    }

    /** `validateReleaseHeading`. */
    method ValidateReleaseHeading(rel: Release) returns (err: Option<Error>)
      ensures err == ReleaseOrderError(release, State(), rel, PathOf(changelog.headings))
    {
      if rel.HasBeenReleased() {
        if rel.HasBeenYanked() {
          if !h1Released && !h1Unreleased {
            return Some(YankedFirst(PathOf(changelog.headings)));
          }
        }
      } else {
        if release {
          return Some(UnreleasedInReleaseMode(PathOf(changelog.headings)));
        }
        if h1Unreleased {
          return Some(MultipleUnreleased(PathOf(changelog.headings)));
        }
        if h1Released {
          return Some(UnreleasedAfterRelease(PathOf(changelog.headings)));
        }
      }
      err := None;
    }

    /** The contract of `visitHeading3`. */
    twostate predicate Heading3Step(new err: Option<Error>)
      reads this, changelog
    {
      && text == old(text)
      && if old(changelog.Introduction()) then
           err == Some(ChangeOutsideRelease(PathOf(old(changelog.headings)))) && Untouched() && State() == old(State())
         else if old(changelog.Change()) && !old(hasChangeDescriptions) then
           err == Some(NoChangeDescriptions(PathOf(old(changelog.headings)))) && Untouched() && State() == old(State())
         else
           && Sectioned(Headings.ChangeHeading)
           && var r := SectionResult(changelog.headingsFactory, old(changelog.headings), Headings.ChangeHeading, text);
              if r.Err? then err == Some(r.error) && State() == old(State())
              else
                && r.value.ChangeOf?
                && var title := r.value.change.Title();
                   if title in old(changes) && old(changes)[title] then
                     err == Some(MultipleChangeHeadings(title, PathOf(changelog.headings))) && State() == old(State())
                   else
                     err.None? && State() == old(State()).(changes := old(changes)[title := true], hasChangeDescriptions := false)
    }

    /**
     * `visitHeading3`: a change group, refused directly under the
     * introduction, after a group without description, and when its kind was
     * already listed in this release.
     */
    method VisitHeading3() returns (err: Option<Error>)
      requires Valid()
      modifies this, changelog
      ensures Heading3Step(err)
      ensures err.None? ==> Valid()
    {
      if changelog.Introduction() {
        return Some(ChangeOutsideRelease(PathOf(changelog.headings)));
      }
      if changelog.Change() && !hasChangeDescriptions {
        return Some(NoChangeDescriptions(PathOf(changelog.headings)));
      }
      var r := changelog.Section(Headings.ChangeHeading, text);
      if r.Err? {
        return Some(r.error);
      }
      var change := r.value.change;
      err := ValidateChangeHeading(change.Title());
      if err.Some? {
        return err;
      }
      hasChangeDescriptions := false;
    }

    /** `validateChangeHeading`: a kind may head one group per release. */
    method ValidateChangeHeading(title: string) returns (err: Option<Error>)
      modifies this
      ensures title in old(changes) && old(changes)[title] ==>
                err == Some(MultipleChangeHeadings(title, PathOf(changelog.headings))) && State() == old(State())
      ensures !(title in old(changes) && old(changes)[title]) ==>
                err.None? && State() == old(State()).(changes := old(changes)[title := true])
      ensures text == old(text)
    {
      if title in changes && changes[title] {
        return Some(MultipleChangeHeadings(title, PathOf(changelog.headings)));
      }
      changes := changes[title := true];
      err := None;
    }

    /**
     * `visitHeading` leaving: a heading below level 1 before the
     * introduction's is refused, and so is a level other than 1, 2 and 3.
     */
    method ExitHeading(level: int) returns (err: Option<Error>)
      requires Valid()
      modifies this, changelog
      ensures !old(hasIntroductionHeading) && level > 1 ==>
                err == Some(IntroductionMissing) && Untouched() && State() == old(State())
      ensures (old(hasIntroductionHeading) || level <= 1) && !(1 <= level <= 3) ==>
                err == Some(HeadingLevelUnsupported(level)) && Untouched() && State() == old(State())
      ensures level == 1 ==> Heading1Step(err)
      ensures level == 2 && old(hasIntroductionHeading) ==> Heading2Step(err)
      ensures level == 3 && old(hasIntroductionHeading) ==> Heading3Step(err)
      ensures text == old(text)
      ensures err.None? ==> Valid()
    {
      if !hasIntroductionHeading && level > 1 {
        return Some(IntroductionMissing);
      }
      if level == 1 {
        err := VisitHeading1();
      } else if level == 2 {
        err := VisitHeading2();
      } else if level == 3 {
        err := VisitHeading3();
      } else {
        err := Some(HeadingLevelUnsupported(level));
      }
    }

    /** `visitListItem` leaving: inside a change group the item becomes a change description. */
    method ExitListItem() returns (err: Option<Error>)
      requires Valid()
      modifies this, changelog
      ensures text == old(text)
      ensures !old(changelog.Change()) ==> err.None? && Untouched() && State() == old(State())
      ensures old(changelog.Change()) ==>
                && Sectioned(Headings.ChangeDescription)
                && var r := SectionResult(changelog.headingsFactory, old(changelog.headings), Headings.ChangeDescription, text);
                   if r.Err? then err == Some(r.error) && State() == old(State())
                   else err.None? && State() == old(State()).(hasChangeDescriptions := true)
      ensures err.None? ==> Valid()
    {
      if changelog.Change() {
        var r := changelog.Section(Headings.ChangeDescription, text);
        if r.Err? {
          return Some(r.error);
        }
        hasChangeDescriptions := true;
      }
      err := None;
    }

    /**
     * `visitDocument` leaving: a changelog needs a release or an Unreleased
     * section, and its last group a description; then every open section is left.
     */
    method ExitDocument() returns (err: Option<Error>)
      modifies changelog
      ensures changelog.headingsFactory == old(changelog.headingsFactory) && changelog.listeners == old(changelog.listeners)
      ensures changelog.headings == old(changelog.headings)
      ensures !h1Released && !h1Unreleased ==>
                err == Some(NoReleaseDefined) && changelog.notifications == old(changelog.notifications)
      ensures (h1Released || h1Unreleased) && (old(changelog.Release()) || old(changelog.Change())) && !hasChangeDescriptions ==>
                err == Some(NoChangeDescriptions(PathOf(changelog.headings))) && changelog.notifications == old(changelog.notifications)
      ensures (h1Released || h1Unreleased) && !((old(changelog.Release()) || old(changelog.Change())) && !hasChangeDescriptions) ==>
                err.None? && changelog.notifications == old(changelog.notifications)
                               + Fanout(changelog.listeners, ExitsFrom(changelog.headings, 0))
    {
      if !h1Released && !h1Unreleased {
        return Some(NoReleaseDefined);
      }
      if (changelog.Release() || changelog.Change()) && !hasChangeDescriptions {
        return Some(NoChangeDescriptions(PathOf(changelog.headings)));
      }
      changelog.Close();
      err := None;
    }
  }
}
