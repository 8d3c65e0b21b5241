/** The level-1 heading that opens a changelog (`internal/changelog/introductionHeading.go`). */
module IntroductionHeading {
  import opened Wrappers
  import opened Errors
  import opened Headings

  datatype Introduction = Introduction(heading: HeadingRecord) {
    function Title(): string { heading.title }
    function DisplayTitle(): string { Title() }
    function Kind(): HeadingKind { heading.kind }
    function String(): string { AsPath(heading.title) }
  }

  /** `newIntroduction`: any non-empty title. */
  function NewIntroduction(title: string): (r: Result<Introduction, Error>)
    ensures r.Ok? <==> title != ""
    ensures r.Ok? ==> r.value.Title() == title && r.value.DisplayTitle() == title
    ensures r.Ok? ==> r.value.Kind() == IntroductionHeading && r.value.String() == "{" + title + "}"
    ensures r.Err? ==> r.error == EmptyIntroduction
  {
    if title == "" then Err(EmptyIntroduction)
    else Ok(Introduction(HeadingRecord(title, IntroductionHeading)))
  }
}
