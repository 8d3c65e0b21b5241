/** One change description, a list item under a change heading (`internal/changelog/changeItem.go`). */
module ChangeItem {
  import opened Wrappers
  import opened Errors
  import opened Headings

  datatype ChangeItem = ChangeItem(heading: HeadingRecord) {
    function Title(): string { heading.title }
    function DisplayTitle(): string { Title() }
    function Kind(): HeadingKind { heading.kind }
    function String(): string { AsPath(heading.title) }
  }

  /** `newChangeItem`: any non-empty description. */
  function NewChangeItem(title: string): (r: Result<ChangeItem, Error>)
    ensures r.Ok? <==> title != ""
    ensures r.Ok? ==> r.value.Title() == title && r.value.DisplayTitle() == title
    ensures r.Ok? ==> r.value.Kind() == ChangeDescription && r.value.String() == "{" + title + "}"
    ensures r.Err? ==> r.error == EmptyChangeDescription
  {
    if title == "" then Err(EmptyChangeDescription)
    else Ok(ChangeItem(HeadingRecord(title, ChangeDescription)))
  }
}
