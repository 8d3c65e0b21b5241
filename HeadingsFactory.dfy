/**
 * The `Heading` interface and its factory (`internal/changelog/headings.go`,
 * `internal/changelog/headingsFactory.go`). The four heading structs become
 * the variants of one datatype; the interface methods dispatch on the variant.
 */
module HeadingsFactory {
  import opened Wrappers
  import opened Errors
  import opened Headings
  import opened ChangeKind
  import opened IntroductionHeading
  import opened ReleaseHeading
  import opened ChangeHeading
  import opened ChangeItem

  datatype Heading =
    | IntroductionOf(introduction: Introduction)
    | ReleaseOf(release: Release)
    | ChangeOf(change: Change)
    | ItemOf(item: ChangeItem)
  {
    function Title(): string {
      match this
      case IntroductionOf(h) => h.Title()
      case ReleaseOf(h) => h.Title()
      case ChangeOf(h) => h.Title()
      case ItemOf(h) => h.Title()
    }

    function DisplayTitle(): string {
      match this
      case IntroductionOf(h) => h.DisplayTitle()
      case ReleaseOf(h) => h.DisplayTitle()
      case ChangeOf(h) => h.DisplayTitle()
      case ItemOf(h) => h.DisplayTitle()
    }

    function Kind(): HeadingKind {
      match this
      case IntroductionOf(h) => h.Kind()
      case ReleaseOf(h) => h.Kind()
      case ChangeOf(h) => h.Kind()
      case ItemOf(h) => h.Kind()
    }

    /** `String`: the path segment of the heading. */
    function String(): string {
      match this
      case IntroductionOf(h) => h.String()
      case ReleaseOf(h) => h.String()
      case ChangeOf(h) => h.String()
      case ItemOf(h) => h.String()
    }
  }

  /**
   * `HeadingsFactory`: builds headings, consulting the change-kind registry
   * for level-3 titles. The registry is held as its current table.
   */
  datatype HeadingsFactory = HeadingsFactory(changeKind: Table) {
    /** `NewHeading`: the constructor for `kind`; any other kind is refused. */
    function NewHeading(kind: HeadingKind, title: string): (r: Result<Heading, Error>)
      ensures r.Ok? ==> r.value.Kind() == kind && r.value.Title() == title
      ensures r.Ok? ==> r.value.String() == AsPath(title)
      ensures !(Headings.IntroductionHeading <= kind <= Headings.ChangeDescription) ==> r == Err(UnknownHeadingKind(kind as int))
      ensures kind == Headings.IntroductionHeading ==> (r.Ok? <==> title != "")
      ensures kind == Headings.ReleaseHeading ==> (r.Ok? <==> NewRelease(title).Ok?)
      ensures kind == Headings.ChangeHeading ==> (r.Ok? <==> title != "" && title in changeKind)
      ensures kind == Headings.ChangeDescription ==> (r.Ok? <==> title != "")
      ensures kind == Headings.IntroductionHeading && r.Ok? ==> r.value.IntroductionOf? && NewIntroduction(title) == Ok(r.value.introduction)
      ensures kind == Headings.ReleaseHeading && r.Ok? ==> r.value.ReleaseOf? && NewRelease(title) == Ok(r.value.release)
      ensures kind == Headings.ChangeHeading && r.Ok? ==> r.value.ChangeOf? && NewChange(changeKind, title) == Ok(r.value.change)
      ensures kind == Headings.ChangeDescription && r.Ok? ==> r.value.ItemOf? && NewChangeItem(title) == Ok(r.value.item)
    {
      if kind == Headings.IntroductionHeading then
        match NewIntroduction(title)
        case Ok(h) => Ok(IntroductionOf(h))
        case Err(e) => Err(e)
      else if kind == Headings.ReleaseHeading then
        match NewRelease(title)
        case Ok(h) => Ok(ReleaseOf(h))
        case Err(e) => Err(e)
      else if kind == Headings.ChangeHeading then
        match NewChange(changeKind, title)
        case Ok(h) => Ok(ChangeOf(h))
        case Err(e) => Err(e)
      else if kind == Headings.ChangeDescription then
        match NewChangeItem(title)
        case Ok(h) => Ok(ItemOf(h))
        case Err(e) => Err(e)
      else Err(UnknownHeadingKind(kind as int))
    }
  }

  /**
   * Every failure is the error of the constructor the kind selects, so the
   * factory adds no failure of its own for the four kinds.
   */
  lemma NewHeadingErrors(f: HeadingsFactory, kind: HeadingKind, title: string)
    ensures kind == Headings.IntroductionHeading && f.NewHeading(kind, title).Err? ==> f.NewHeading(kind, title).error == EmptyIntroduction
    ensures kind == Headings.ReleaseHeading && f.NewHeading(kind, title).Err? ==> f.NewHeading(kind, title).error == NewRelease(title).error
    ensures kind == Headings.ChangeHeading && f.NewHeading(kind, title).Err? ==> f.NewHeading(kind, title).error == NewChange(f.changeKind, title).error
    ensures kind == Headings.ChangeDescription && f.NewHeading(kind, title).Err? ==> f.NewHeading(kind, title).error == EmptyChangeDescription
  {
  }

  /** Kind -1 is refused, whatever the title. */
  lemma NewHeadingUnknown(f: HeadingsFactory, title: string)
    ensures f.NewHeading(-1, title) == Err(UnknownHeadingKind(-1))
  {
  }
}
