/**
 * The query node for change descriptions (`internal/query/changeItemQuery.go`):
 * the last node of a chain, which writes each description it meets as a
 * quoted string followed by a comma.
 */
module ChangeItemQuery {
  import opened Wrappers
  import opened Errors
  import opened HeadingsFactory
  import ChangeItem

  // Go's `%q` on a string, for the escapes a title can need

  /** The escape `strconv.Quote` writes for a quote, a backslash, a tab, a newline or a carriage return. */
  function EscapeChar(c: char): (r: string)
    ensures |r| == 1 <==> c != '"' && c != '\\' && c != '\t' && c != '\n' && c != '\r'
    ensures |r| == 1 ==> r == [c]
    ensures |r| != 1 ==> |r| == 2 && r[0] == '\\'
  {
    match c
    case '"' => "\\\""
    case '\\' => "\\\\"
    case '\t' => "\\t"
    case '\n' => "\\n"
    case '\r' => "\\r"
    case _ => [c]
  }

  function Escape(s: string): string
    decreases |s|
  {
    if |s| == 0 then "" else EscapeChar(s[0]) + Escape(s[1..])
  }

  /** The text between the quotes read back, `None` on an unescaped quote or an unknown escape. */
  function Unescape(s: string): Option<string>
    decreases |s|
  {
    if |s| == 0 then Some("")
    else if s[0] == '"' then None
    else if s[0] != '\\' then
      match Unescape(s[1..])
      case None => None
      case Some(t) => Some([s[0]] + t)
    else if |s| < 2 then None
    else
      var c := match s[1]
        case '"' => Some('"')
        case '\\' => Some('\\')
        case 't' => Some('\t')
        case 'n' => Some('\n')
        case 'r' => Some('\r')
        case _ => None;
      if c.None? then None
      else match Unescape(s[2..])
        case None => None
        case Some(t) => Some([c.value] + t)
  }

  /** Escaping loses nothing: the escaped text reads back as the original. */
  lemma {:induction false} UnescapeEscape(s: string)
    ensures Unescape(Escape(s)) == Some(s)
    decreases |s|
  {
    if |s| > 0 {
      UnescapeEscape(s[1..]);
      var e := EscapeChar(s[0]);
      var rest := Escape(s[1..]);
      assert Escape(s) == e + rest;
      if |e| == 1 {
        assert (e + rest)[0] == s[0] && (e + rest)[1..] == rest;
      } else {
        assert (e + rest)[0] == '\\' && (e + rest)[1] == e[1] && (e + rest)[2..] == rest;
      }
      assert [s[0]] + s[1..] == s;
    }
  }

  function Quote(s: string): string {
    "\"" + Escape(s) + "\""
  }

  /** The node's one projection: `fmt.Sprintf("%q,", title)`. */
  datatype ItemProjection = QuotedTitle

  function Projection(p: ItemProjection, item: ChangeItem.ChangeItem): (r: string)
    ensures |r| >= 3 && r[0] == '"' && r[|r| - 2] == '"' && r[|r| - 1] == ','
    ensures Unescape(r[1..|r| - 2]) == Some(item.Title())
  {
    var r := Quote(item.Title()) + ",";
    UnescapeEscape(item.Title());
    assert r[1..|r| - 2] == Escape(item.Title());
    r
  }

  /** `changeItemQuery`: its enter and exit projections. */
  datatype ChangeItemQuery = ChangeItemQuery(enter: Option<ItemProjection>, exit: Option<ItemProjection>)

  /**
   * `newChangeItemQuery`: no selector and no further segment are
   * supported; the node appended writes each description on enter.
   */
  function NewChangeItemQuery(name: string, queryElements: seq<string>): (r: Result<ChangeItemQuery, Error>)
    ensures r.Ok? <==> name == "" && |queryElements| == 0
    ensures name != "" ==> r == Err(ChangeSelectorNotSupported(name))
    ensures name == "" && |queryElements| > 0 ==> r == Err(AttributeSelectorNotSupported(queryElements))
    ensures r.Ok? ==> r.value == ChangeItemQuery(Some(QuotedTitle), None)
  {
    if name != "" then Err(ChangeSelectorNotSupported(name))
    else if |queryElements| > 0 then Err(AttributeSelectorNotSupported(queryElements))
    else Ok(ChangeItemQuery(Some(QuotedTitle), None))
  }

  /** What the node writes for a projection, when it has one. */
  function Written(p: Option<ItemProjection>, heading: Heading): string
    requires heading.ItemOf?
  {
    if p.Some? then Projection(p.value, heading.item) else ""
  }

  /** `Enter`: true exactly for a description, with the enter projection's text (none without one). */
  function Enter(q: ChangeItemQuery, heading: Heading): (r: (bool, string))
    ensures r.0 <==> heading.ItemOf?
    ensures !r.0 || q.enter.None? ==> r.1 == ""
    ensures r.0 && q.enter.Some? ==> |r.1| >= 3 && r.1[|r.1| - 1] == ',' && Unescape(r.1[1..|r.1| - 2]) == Some(heading.Title())
  {
    if heading.ItemOf? then (true, Written(q.enter, heading)) else (false, "")
  }

  /** `Exit`: the same test, with the exit projection. */
  function Exit(q: ChangeItemQuery, heading: Heading): (r: (bool, string))
    ensures r.0 <==> heading.ItemOf?
    ensures !r.0 || q.exit.None? ==> r.1 == ""
    ensures r.0 && q.exit.Some? ==> |r.1| >= 3 && r.1[|r.1| - 1] == ',' && Unescape(r.1[1..|r.1| - 2]) == Some(heading.Title())
  {
    if heading.ItemOf? then (true, Written(q.exit, heading)) else (false, "")
  }

  /** The compiled node writes a description it enters, and nothing when it leaves it. */
  lemma CompiledNodeWritesOnEnter(heading: Heading)
    requires heading.ItemOf?
    ensures var q := NewChangeItemQuery("", []).value;
            Enter(q, heading) == (true, Quote(heading.Title()) + ",") && Exit(q, heading) == (true, "")
  {
  }
}
