/** The section kinds of a changelog and what every heading shares (`internal/changelog/headings.go`). */
module Headings {

  /** A Go `int` enumeration: the nesting depth of a section. */
  newtype HeadingKind = int

  const IntroductionHeading: HeadingKind := 0
  const ReleaseHeading: HeadingKind := 1
  const ChangeHeading: HeadingKind := 2
  const ChangeDescription: HeadingKind := 3

  /** The embedded `heading` struct: a title and a kind. */
  datatype HeadingRecord = HeadingRecord(title: string, kind: HeadingKind)

  /** `asPath`: the title between braces, the path segment of one heading. */
  function AsPath(name: string): (r: string)
    ensures |r| == |name| + 2 && r[0] == '{' && r[|r| - 1] == '}' && r[1..|r| - 1] == name
  {
    "{" + name + "}"
  }

  /** Distinct titles give distinct path segments. */
  lemma AsPathInjective(a: string, b: string)
    requires AsPath(a) == AsPath(b)
    ensures a == b
  {
    assert a == AsPath(a)[1..|AsPath(a)| - 1];
  }
}
