/**
 * The query node for change groups (`internal/query/changeQuery.go`). With
 * nothing after `changes[]` it writes each group's title and the array its
 * descriptions go to, and appends a description node; `title` writes only
 * the group's title; `descriptions[...]` hands the rest to the
 * description node.
 */
module ChangeQuery {
  import opened Wrappers
  import opened Errors
  import opened Strings
  import opened HeadingsFactory
  import opened Format
  import opened JsonResultCollector
  import opened QueryOutputFormat
  import Headings
  import ChangeItemQuery

  /** `changeQuery`: the projections it embeds. */
  datatype ChangeQuery = ChangeQuery(projections: Projections)

  /** The projection with nothing after `changes[]`: the title as a field, then the array "changes". */
  function TitleAndChanges(h: Heading): seq<Op> {
    if h.ChangeOf? then [SetFieldOp("title", h.Title()), ArrayOp("changes")] else []
  }

  /** The projection of `changes[].title`: the title as the value. */
  function TitleOnly(h: Heading): seq<Op> {
    if h.ChangeOf? then [SetOp(h.Title())] else []
  }

  /** The nodes `newChangeQuery` appends: its own, then a description node when there is one. */
  datatype ChangeChain = ChangeChain(change: ChangeQuery, item: Option<ChangeItemQuery.ChangeItemQuery>)

  /** A segment `descriptions[...]`. */
  predicate IsDescriptions(s: string) {
    HasPrefix(s, "descriptions[") && HasSuffix(s, "]")
  }

  /** `selector`: the text between the opening bracket and the closing one at the end. */
  function Selector(s: string): (r: string)
    requires IsDescriptions(s)
    ensures s == "descriptions[" + r + "]"
  {
    assert "descriptions[" == "descriptions" + "[";
    BracketContent("descriptions[", s)
  }

  /**
   * `newChangeQuery`: a selector is not supported. Nothing further: title
   * and changes, plus a description node. `descriptions[...]`: the rest is
   * the description node's to compile, and its errors are passed on.
   * `title`: the title alone. Anything else is refused.
   */
  function NewChangeQuery(name: string, queryElements: seq<string>): (r: Result<ChangeChain, Error>)
    ensures name != "" ==> r == Err(ChangeSelectorNotSupported(name))
    ensures name == "" && |queryElements| == 0 ==>
              && r.Ok? && r.value.change.projections == Projections(Some(TitleAndChanges), None, false)
              && r.value.item == Some(ChangeItemQuery.NewChangeItemQuery("", []).value)
    ensures name == "" && |queryElements| > 0 && IsDescriptions(queryElements[0]) ==>
              var item := ChangeItemQuery.NewChangeItemQuery(Selector(queryElements[0]), queryElements[1..]);
              && (r.Ok? <==> item.Ok?)
              && (r.Ok? ==> r.value == ChangeChain(ChangeQuery(NoProjections), Some(item.value)))
              && (r.Err? ==> r.error == item.error)
    ensures name == "" && |queryElements| > 0 && queryElements[0] == "title" ==>
              r == Ok(ChangeChain(ChangeQuery(Projections(Some(TitleOnly), None, false)), None))
    ensures name == "" && |queryElements| > 0 && !IsDescriptions(queryElements[0]) && queryElements[0] != "title" ==>
              r == Err(ChangeAttributeNotRecognized(queryElements[0]))
  {
    if name != "" then Err(ChangeSelectorNotSupported(name))
    else if |queryElements| == 0 then
      Ok(ChangeChain(ChangeQuery(Projections(Some(TitleAndChanges), None, false)), Some(ChangeItemQuery.NewChangeItemQuery("", []).value)))
    else if IsDescriptions(queryElements[0]) then
      match ChangeItemQuery.NewChangeItemQuery(Selector(queryElements[0]), queryElements[1..])
      case Err(e) => Err(e)
      case Ok(item) => Ok(ChangeChain(ChangeQuery(NoProjections), Some(item)))
    else if queryElements[0] == "title" then
      Ok(ChangeChain(ChangeQuery(Projections(Some(TitleOnly), None, false)), None))
    else Err(ChangeAttributeNotRecognized(queryElements[0]))
  }

  /**
   * A `descriptions[...]` segment compiles only as `descriptions[]` with
   * nothing after it, and then gives the description node alone.
   */
  lemma {:induction false} DescriptionsSegment(s: string, rest: seq<string>)
    requires IsDescriptions(s)
    ensures NewChangeQuery("", [s] + rest).Ok? <==> s == "descriptions[]" && rest == []
    ensures NewChangeQuery("", [s] + rest).Ok? ==>
              NewChangeQuery("", [s] + rest).value == ChangeChain(ChangeQuery(NoProjections), Some(ChangeItemQuery.ChangeItemQuery(Some(ChangeItemQuery.QuotedTitle), None)))
  {
    var q := [s] + rest;
    assert q[0] == s && q[1..] == rest;
    var sel := Selector(s);
    if s == "descriptions[]" {
      assert |sel| == 0;
    }
  }

  /** Neither `title` nor anything else accepts a selector on `changes`. */
  lemma SelectorRefused(name: string, queryElements: seq<string>)
    requires name != ""
    ensures NewChangeQuery(name, queryElements).Err?
  {
  }

  /** `title` does not look at what follows it. */
  lemma TitleIgnoresTrailingSegments(rest: seq<string>)
    ensures NewChangeQuery("", ["title"] + rest) == Ok(ChangeChain(ChangeQuery(Projections(Some(TitleOnly), None, false)), None))
  {
    assert !IsDescriptions("title");
  }

  /** `Enter`: a change group is taken, with the enter projection; anything else is not. */
  function Enter(q: ChangeQuery, heading: Heading): (r: (bool, Option<Project>))
    ensures r.0 <==> heading.ChangeOf?
    ensures !heading.ChangeOf? ==> r.1.None?
    ensures heading.ChangeOf? ==> r.1 == q.projections.enter
  {
    if heading.ChangeOf? then (true, q.projections.enter) else (false, None)
  }

  /** `Exit`: the same test, with the exit projection. */
  function Exit(q: ChangeQuery, heading: Heading): (r: (bool, Option<Project>))
    ensures r.0 <==> heading.ChangeOf?
    ensures !heading.ChangeOf? ==> r.1.None?
    ensures heading.ChangeOf? ==> r.1 == q.projections.exit
  {
    if heading.ChangeOf? then (true, q.projections.exit) else (false, None)
  }

  /**
   * Written into a freshly opened JSON frame, the projection of `changes[]`
   * makes the group an object with its title and an empty "changes" array,
   * and makes that array the one its descriptions are folded into.
   */
  lemma {:induction false} TitleAndChangesInJson(rs: seq<Frame>, c: bool, h: Heading)
    requires h.ChangeOf?
    ensures var st := JsonState(rs + [Frame(Nil, "", Headings.ChangeHeading)], c);
            Run(st, TitleAndChanges(h)) ==
              Some(JsonState(rs + [Frame(Obj(map["title" := Str(h.Title()), "changes" := Arr([])]), "changes", Headings.ChangeHeading)], c))
  {
    var frames := rs + [Frame(Nil, "", Headings.ChangeHeading)];
    var ops := TitleAndChanges(h);
    var st1 := Applied(JsonState(frames, c), ops[0]);
    var top1 := Frame(Obj(map["title" := Str(h.Title())]), "", Headings.ChangeHeading);
    assert frames[..|frames| - 1] == rs;
    assert st1 == JsonState(rs + [top1], c);
    var st2 := Applied(st1, ops[1]);
    var top2 := Frame(Obj(map["title" := Str(h.Title()), "changes" := Arr([])]), "changes", Headings.ChangeHeading);
    assert (rs + [top1])[..|rs|] == rs;
    assert map["title" := Str(h.Title())]["changes" := Arr([])] == map["title" := Str(h.Title()), "changes" := Arr([])];
    assert st2 == JsonState(rs + [top2], c);
    assert ops[1..][0] == ops[1] && ops[1..][1..] == [];
    assert Run(st1, ops[1..]) == Run(st2, []);
  }

  /** In Markdown the same projection writes the title as a level-3 heading line. */
  lemma {:induction false} TitleAndChangesInMarkdown(r: string, h: Heading)
    requires h.ChangeOf?
    ensures Run(MdState(r, "### "), TitleAndChanges(h)) == Some(MdState(r + "### " + h.Title() + "\n", ""))
  {
    var ops := TitleAndChanges(h);
    var st1 := Applied(MdState(r, "### "), ops[0]);
    assert st1 == MdState(r + "### " + h.Title() + "\n", "");
    assert ops[1..][0] == ops[1] && ops[1..][1..] == [];
    assert Run(st1, ops[1..]) == Run(st1, []);
  }
}
