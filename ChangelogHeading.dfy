/** The level-1 heading of the earlier heading model (`internal/changelog/changelogHeading.go`). */
module ChangelogHeading {
  import opened Wrappers
  import opened Errors
  import opened Headings

  datatype Changelog = Changelog(title: string) {
    function Name(): string { title }
    function AsPath(): string { Headings.AsPath(title) }
  }

  /** `newChangelog`: any non-empty title. */
  function NewChangelog(s: string): (r: Result<Changelog, Error>)
    ensures r.Ok? <==> s != ""
    ensures r.Ok? ==> r.value.Name() == s && r.value.AsPath() == "{" + s + "}"
    ensures r.Err? ==> r.error == EmptyChangelog
  {
    if s == "" then Err(EmptyChangelog) else Ok(Changelog(s))
  }
}
