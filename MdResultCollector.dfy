/**
 * The Markdown result collector (`internal/output/mdResultCollector.go`; the
 * copy in `internal/query/mdResultCollector.go` differs only in the case of
 * its method names). Each written value becomes one line, headed by the
 * Markdown marker of the heading opened last.
 */
module MdResultCollector {
  import opened Strings
  import opened Headings
  import opened HeadingsFactory

  /**
   * The kinds Go can slice a marker for: `"###"[:kind+1]` panics for a
   * kind below -1 or above a change group; kind -1 slices "" and gets a
   * bare space.
   */
  predicate HasLineStart(kind: HeadingKind) {
    -1 <= kind <= ChangeDescription
  }

  /** `lineStart`: "- " for a change description, otherwise one '#' per level and a space. */
  function LineStart(kind: HeadingKind): (r: string)
    requires HasLineStart(kind)
    ensures kind == ChangeDescription ==> r == "- "
    ensures kind < ChangeDescription ==>
              && |r| == kind as int + 2 && r[|r| - 1] == ' '
              && forall i :: 0 <= i < |r| - 1 ==> r[i] == '#'
  {
    if kind == ChangeDescription then "- " else "###"[..kind + 1] + " "
  }

  /** The markers of the introduction, a release and a change group. */
  lemma LineStarts()
    ensures LineStart(Headings.IntroductionHeading) == "# "
    ensures LineStart(Headings.ReleaseHeading) == "## "
    ensures LineStart(Headings.ChangeHeading) == "### "
    ensures LineStart(-1) == " "
  {
    assert "###"[..1] == "#" && "###"[..2] == "##" && "###"[..3] == "###";
  }

  /** `mdResultCollector`: the text written so far and the marker of the next line. */
  class MdCollector {
    var result: string
    var prefix: string

    /** The zero value the factories return. */
    constructor ()
      ensures result == "" && prefix == ""
    {
      result := "";
      prefix := "";
    }

    /** `Result`: the text without its one trailing newline. */
    function Result(): string
      reads this
    {
      TrimSuffix(result, "\n")
    }

    /** `open`: the heading's marker heads the next line; nothing is written. */
    method Open(heading: Heading)
      requires HasLineStart(heading.Kind())
      modifies this
      ensures prefix == LineStart(heading.Kind()) && result == old(result)
    {
      prefix := LineStart(heading.Kind());
    }

    /** `close`, `setCollection` and `array` leave the collector as it is. */
    method Close(heading: Heading)
      ensures result == old(result) && prefix == old(prefix)
    {
    }

    method SetCollection()
      ensures result == old(result) && prefix == old(prefix)
    {
    }

    method Array(name: string)
      ensures result == old(result) && prefix == old(prefix)
    {
    }

    /** `set`: one line, the marker then the value; the marker is used up. */
    method Set(value: string)
      modifies this
      ensures result == old(result) + old(prefix) + value + "\n" && prefix == ""
    {
      result := result + prefix;
      result := result + value;
      result := result + "\n";
      prefix := "";
    }

    /** `setField`: only the title is written, as `set` writes it. */
    method SetField(name: string, value: string)
      modifies this
      ensures name == "title" ==> result == old(result) + old(prefix) + value + "\n" && prefix == ""
      ensures name != "title" ==> result == old(result) && prefix == old(prefix)
    {
      if name == "title" {
        result := result + prefix;
        result := result + value;
        result := result + "\n";
        prefix := "";
      }
    }
  }
}
