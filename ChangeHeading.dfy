/** The level-3 heading naming a change kind (`internal/changelog/changeHeading.go`). */
module ChangeHeading {
  import opened Wrappers
  import opened Errors
  import opened Strings
  import opened Headings
  import opened ChangeKind

  /** A change heading keeps the emoji the registry gave its kind. */
  datatype Change = Change(heading: HeadingRecord, emoji: string) {
    function Title(): string { heading.title }

    /** The title, preceded by the emoji and a space when the kind has one. */
    function DisplayTitle(): string {
      if emoji == "" then heading.title else emoji + " " + heading.title
    }

    function Kind(): HeadingKind { heading.kind }
    function String(): string { AsPath(heading.title) }
  }

  /**
   * `newChange`: the title must be non-empty and registered; the registry's
   * error is passed through unchanged.
   */
  function NewChange(t: Table, title: string): (r: Result<Change, Error>)
    ensures r.Ok? <==> title != "" && IsSupported(t, title).None?
    ensures title == "" ==> r == Err(EmptyChange)
    ensures title != "" && EmojiFor(t, title).Err? ==> r == Err(EmojiFor(t, title).error)
    ensures r.Ok? ==> r.value.Title() == title && r.value.Kind() == ChangeHeading
    ensures r.Ok? ==> r.value.emoji == t[title].emoji && r.value.String() == "{" + title + "}"
  {
    if title == "" then Err(EmptyChange)
    else
      match EmojiFor(t, title)
      case Err(e) => Err(e)
      case Ok(emoji) => Ok(Change(HeadingRecord(title, ChangeHeading), emoji))
  }

  /**
   * The display title always ends with the title, shows it alone exactly when
   * there is no emoji, and otherwise starts with the emoji and a space.
   */
  lemma DisplayTitleShape(h: Change)
    ensures HasSuffix(h.DisplayTitle(), h.Title())
    ensures h.DisplayTitle() == h.Title() <==> h.emoji == ""
    ensures h.emoji != "" ==> HasPrefix(h.DisplayTitle(), h.emoji + " ")
  {
    if h.emoji != "" {
      assert h.DisplayTitle()[|h.DisplayTitle()| - |h.Title()|..] == h.Title();
      assert |h.DisplayTitle()| > |h.Title()|;
    }
  }

  /** In the default registry every kind is shown without decoration, and titles are case-sensitive. */
  lemma DefaultChanges()
    ensures NewChange(DefaultTable, "Added").Ok?
    ensures NewChange(DefaultTable, "Added").value.DisplayTitle() == "Added"
    ensures NewChange(DefaultTable, "added") == Err(UnknownChangeHeading("added"))
  {
  }
}
