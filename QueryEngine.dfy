/**
 * The query engine of the oldest revision (`internal/query/queryEngine.go`).
 * A query compiles to a chain of nodes; each heading is offered to the
 * current node only, and a node that selects the heading passes the turn
 * to the next one, which is reset. The nodes write into a text buffer.
 */
module QueryEngine {
  import opened Wrappers
  import opened Errors
  import opened Strings
  import opened ChangelogStack
  import opened ReleaseHeading
  import RQ = ReleaseQuery
  import CQ = ChangelogQuery

  /** What this revision's release node writes. */
  datatype ReleaseProjection = Summary | DateOf | LabelOf | StatusOf | VersionOf

  /** This revision's `status`: Unreleased, else yanked, else released. */
  function Status(r: Release): (s: string)
    ensures s == "unreleased" <==> r.Unreleased()
    ensures s == "yanked" <==> !r.Unreleased() && r.Yanked()
    ensures s == "released" <==> !r.Unreleased() && !r.Yanked()
  {
    if r.Unreleased() then "unreleased"
    else if r.Yanked() then "yanked"
    else "released"
  }

  function Projection(p: ReleaseProjection, r: Release): string {
    match p
    case Summary => RQ.SummaryJson(r.Version(), r.Date())
    case DateOf => r.Date()
    case LabelOf => r.Label()
    case StatusOf => Status(r)
    case VersionOf => r.Version()
  }

  /** A node as the compiler lays it out: the title node, the pass-through node, or a release node. */
  datatype Shape = TitleNode | PassNode | ReleaseNode(index: int, project: Option<ReleaseProjection>)

  /** The node writes something; such a node is never done with. */
  predicate ShapeProjects(s: Shape) {
    s.TitleNode? || (s.ReleaseNode? && s.project.Some?)
  }

  /**
   * `Select` of a node with the given cursor: whether the heading is
   * selected, what is written, and the node's new cursor. The changelog
   * nodes look at the title only; a release node counts releases and
   * writes the one at its index. A node that writes never selects.
   */
  function SelectOutcome(s: Shape, cursor: int, heading: StackHeading): (r: (bool, string, int))
    ensures ShapeProjects(s) ==> !r.0
    ensures !s.ReleaseNode? ==> r.2 == cursor && (r.0 <==> s.PassNode? && heading.TitleOf?)
    ensures s.ReleaseNode? ==> r.2 == cursor + (if heading.ReleaseOf? then 1 else 0)
    ensures s.ReleaseNode? ==> (r.0 <==> heading.ReleaseOf? && cursor == s.index && s.project.None?)
    ensures r.1 != "" ==> ShapeProjects(s)
  {
    match s
    case ReleaseNode(index, project) =>
      if !heading.ReleaseOf? then (false, "", cursor)
      else
        var selected := cursor == index;
        (selected && project.None?, if selected && project.Some? then Projection(project.value, heading.release) else "", cursor + 1)
    case PassNode => (heading.TitleOf?, "", cursor)
    case TitleNode => (false, if heading.TitleOf? then heading.title.Name() else "", cursor)
  }

  /** The nodes a compiler appends, and its error; Go appends before it fails, so both can be there. */
  datatype Compiled = Compiled(nodes: seq<Shape>, err: Option<Error>)

  /** The release part of the attribute segment. */
  function AttributeProjection(name: string): (r: Option<ReleaseProjection>)
    ensures r.Some? <==> name == "date" || name == "label" || name == "status" || name == "version"
  {
    match name
    case "date" => Some(DateOf)
    case "label" => Some(LabelOf)
    case "status" => Some(StatusOf)
    case "version" => Some(VersionOf)
    case _ => None
  }

  /** `newReleaseQuery`: one release node, writing a summary or the one attribute asked for. */
  function CompileRelease(name: string, queryElements: seq<string>): (r: Compiled)
    ensures r.err.None? <==> Atoi(name).Some? && (|queryElements| == 0 || AttributeProjection(queryElements[0]).Some?)
    ensures r.err.None? ==> |r.nodes| == 1 && r.nodes[0].ReleaseNode? && ShapeProjects(r.nodes[0]) && r.nodes[0].index == Atoi(name).value
    ensures Atoi(name).None? ==> r == Compiled([], Some(ReleaseSelectorParse(name)))
    ensures r.err.Some? ==> r.nodes == []
  {
    match Atoi(name)
    case None => Compiled([], Some(ReleaseSelectorParse(name)))
    case Some(i) =>
      if |queryElements| == 0 then Compiled([ReleaseNode(i, Some(Summary))], None)
      else
        var p := AttributeProjection(queryElements[0]);
        if p.None? then Compiled([], Some(ReleaseAttributeNotRecognized(queryElements[0])))
        else Compiled([ReleaseNode(i, p)], None)
  }

  /** `newChangelogQuery`: `title` alone, or a pass-through node followed by a release query. */
  function CompileChangelog(name: string, queryElements: seq<string>): (r: Compiled)
    ensures r.err.None? ==> |r.nodes| > 0 && ShapeProjects(r.nodes[|r.nodes| - 1])
    ensures r.err.None? ==> forall i :: 0 <= i < |r.nodes| - 1 ==> !r.nodes[i].ReleaseNode?
    ensures name == "title" ==> r == (if |queryElements| > 0 then Compiled([], Some(NothingAfterTitle)) else Compiled([TitleNode], None))
    ensures name != "title" && !CQ.IsReleases(name) ==> r == Compiled([], Some(QueryAttributeNotRecognized(name)))
  {
    if name == "title" then
      if |queryElements| > 0 then Compiled([], Some(NothingAfterTitle)) else Compiled([TitleNode], None)
    else if CQ.IsReleases(name) then
      var c := CompileRelease(CQ.ReleasesSelector(name), queryElements);
      Compiled([PassNode] + c.nodes, c.err)
    else Compiled([], Some(QueryAttributeNotRecognized(name)))
  }

  /** `NewQueryEngine`'s compilation: nothing for an empty query, else the first segment's compiler on the rest. */
  function Compile(query: string): (r: Result<seq<Shape>, Error>)
    ensures query == "" ==> r == Ok([])
    ensures r.Ok? && query != "" ==> |r.value| > 0 && ShapeProjects(r.value[|r.value| - 1])
  {
    if |query| == 0 then Ok([])
    else
      var elements := Split(query, '.');
      var c := CompileChangelog(elements[0], elements[1..]);
      if c.err.Some? then Err(c.err.value) else Ok(c.nodes)
  }

  /** `releases[1].version` compiles to the pass-through node and a release node for index 1. */
  lemma ReleaseVersionCompiles(name: string)
    requires CQ.IsReleases(name) && CQ.ReleasesSelector(name) == "1"
    ensures CompileChangelog(name, ["version"]) == Compiled([PassNode, ReleaseNode(1, Some(VersionOf))], None)
  {
    AtoiNatToString(1);
    assert NatToString(1) == "1";
    assert ["version"][0] == "version";
  }

  /** A release selector that is not a number fails after the pass-through node is appended. */
  lemma BadSelectorKeepsPassNode(name: string, queryElements: seq<string>)
    requires CQ.IsReleases(name) && Atoi(CQ.ReleasesSelector(name)).None?
    ensures CompileChangelog(name, queryElements) == Compiled([PassNode], Some(ReleaseSelectorParse(CQ.ReleasesSelector(name))))
  {
    assert name != "title" by {
      assert name[..9] == "releases[";
    }
  }

  /** A query node of this revision. */
  datatype Query = ChangelogSelect(projectsTitle: bool) | ReleaseSelect(release: ReleaseQuery)

  function ShapeOf(q: Query): Shape {
    match q
    case ChangelogSelect(p) => if p then TitleNode else PassNode
    case ReleaseSelect(rq) => ReleaseNode(rq.index, rq.project)
  }

  function Shapes(qs: seq<Query>): (r: seq<Shape>)
    ensures |r| == |qs| && forall i :: 0 <= i < |qs| ==> r[i] == ShapeOf(qs[i])
  {
    if |qs| == 0 then [] else Shapes(qs[..|qs| - 1]) + [ShapeOf(qs[|qs| - 1])]
  }

  function CursorOf(q: Query): int
    reads if q.ReleaseSelect? then {q.release} else {}
  {
    if q.ReleaseSelect? then q.release.cursor else 0
  }

  /** `releaseQuery`: the count of releases met, the selector and the projection. */
  class ReleaseQuery {
    var cursor: int
    const index: int
    const project: Option<ReleaseProjection>

    constructor (index: int, project: Option<ReleaseProjection>)
      ensures this.index == index && this.project == project && cursor == 0
    {
      this.index := index;
      this.project := project;
      cursor := 0;
    }

    method Select(heading: StackHeading) returns (selected: bool, written: string)
      modifies this
      ensures (selected, written, cursor) == SelectOutcome(ReleaseNode(index, project), old(cursor), heading)
    {
      if !heading.ReleaseOf? {
        return false, "";
      }
      var isSelected := cursor == index;
      cursor := cursor + 1;
      written := if isSelected && project.Some? then Projection(project.value, heading.release) else "";
      selected := isSelected && project.None?;
    }

    method Reset()
      modifies this
      ensures cursor == 0
    {
      cursor := 0;
    }
  }

  /** `QueryEngine`: the chain and the node whose turn it is. */
  class QueryEngine {
    var queries: seq<Query>
    var current: int

    constructor ()
      ensures queries == [] && current == 0
    {
      queries := [];
      current := 0;
    }

    /** The release nodes' objects; only the last node can be one. */
    function Repr(): set<object>
      reads this
    {
      if |queries| > 0 && queries[|queries| - 1].ReleaseSelect? then {queries[|queries| - 1].release} else {}
    }

    /**
     * The chain as compiled: only the last node is a release node, and it
     * writes something, so the turn never passes beyond it.
     */
    predicate Valid()
      reads this
    {
      && (|queries| == 0 ==> current == 0)
      && (|queries| > 0 ==> 0 <= current < |queries| && ShapeProjects(ShapeOf(queries[|queries| - 1])))
      && (forall i :: 0 <= i < |queries| - 1 ==> queries[i].ChangelogSelect?)
    }

    method NewReleaseQuery(name: string, queryElements: seq<string>) returns (err: Option<Error>)
      modifies this
      ensures current == old(current) && err == CompileRelease(name, queryElements).err
      ensures |queries| >= |old(queries)| && queries[..|old(queries)|] == old(queries)
      ensures Shapes(queries[|old(queries)|..]) == CompileRelease(name, queryElements).nodes
      ensures forall i :: |old(queries)| <= i < |queries| ==>
                queries[i].ReleaseSelect? && fresh(queries[i].release) && queries[i].release.cursor == 0
    {
      var i := Atoi(name);
      if i.None? {
        return Some(ReleaseSelectorParse(name));
      }
      var f: ReleaseProjection := Summary;
      if |queryElements| > 0 {
        match queryElements[0] {
          case "date" => f := DateOf;
          case "label" => f := LabelOf;
          case "status" => f := StatusOf;
          case "version" => f := VersionOf;
          case _ => return Some(ReleaseAttributeNotRecognized(queryElements[0]));
        }
      }
      var rq := new ReleaseQuery(i.value, Some(f));
      queries := queries + [ReleaseSelect(rq)];
      assert queries[|old(queries)|..] == [ReleaseSelect(rq)];
      return None;
    }

    method NewChangelogQuery(name: string, queryElements: seq<string>) returns (err: Option<Error>)
      modifies this
      ensures current == old(current) && err == CompileChangelog(name, queryElements).err
      ensures |queries| >= |old(queries)| && queries[..|old(queries)|] == old(queries)
      ensures Shapes(queries[|old(queries)|..]) == CompileChangelog(name, queryElements).nodes
      ensures forall i :: |old(queries)| <= i < |queries| && queries[i].ReleaseSelect? ==>
                fresh(queries[i].release) && queries[i].release.cursor == 0
    {
      if name == "title" {
        if |queryElements| > 0 {
          return Some(NothingAfterTitle);
        }
        queries := queries + [ChangelogSelect(true)];
        assert queries[|old(queries)|..] == [ChangelogSelect(true)];
        return None;
      }
      if CQ.IsReleases(name) {
        ghost var before := queries;
        queries := queries + [ChangelogSelect(false)];
        ghost var withPass := queries;
        err := NewReleaseQuery(CQ.ReleasesSelector(name), queryElements);
        AppendedShapes(before, withPass, queries);
        assert queries[|before|] == withPass[|before|] && !queries[|before|].ReleaseSelect?;
        return err;
      }
      return Some(QueryAttributeNotRecognized(name));
    }

    /**
     * `Apply`: the heading is offered to the current node; when it selects
     * it, the turn passes to the next node, which is reset.
     */
    method Apply(heading: StackHeading) returns (written: string)
      requires Valid()
      modifies this, Repr()
      ensures Valid() && queries == old(queries)
      ensures old(current) == |queries| ==> written == "" && current == old(current)
      ensures old(current) < |queries| ==>
                var q := queries[old(current)];
                var o := SelectOutcome(ShapeOf(q), old(CursorOf(q)), heading);
                && written == o.1
                && current == old(current) + (if o.0 then 1 else 0)
                && (q.ReleaseSelect? ==> q.release.cursor == o.2)
                && (o.0 && queries[current].ReleaseSelect? ==> queries[current].release.cursor == 0)
    {
      written := "";
      if current < |queries| {
        var selected;
        selected, written := SelectNode(queries[current], heading);
        if selected {
          current := current + 1;
          ResetNode(queries[current]);
        }
      }
    }
  }

  /** Shapes after a pass-through node and then more nodes are appended. */
  lemma AppendedShapes(before: seq<Query>, withPass: seq<Query>, after: seq<Query>)
    requires withPass == before + [ChangelogSelect(false)]
    requires |after| >= |withPass| && after[..|withPass|] == withPass
    ensures |after| >= |before| && after[..|before|] == before
    ensures Shapes(after[|before|..]) == [PassNode] + Shapes(after[|withPass|..])
  {
    assert after[..|before|] == withPass[..|before|];
    var tail := after[|before|..];
    assert tail[0] == ChangelogSelect(false);
    assert tail[1..] == after[|withPass|..];
    var l := Shapes(tail);
    var r := [PassNode] + Shapes(after[|withPass|..]);
    assert |l| == |r|;
    forall i | 0 <= i < |l| ensures l[i] == r[i] {
      if i > 0 {
        assert tail[i] == after[|withPass|..][i - 1];
      }
    }
  }

  /** The interface call `Select` on a node. */
  method SelectNode(q: Query, heading: StackHeading) returns (selected: bool, written: string)
    modifies if q.ReleaseSelect? then {q.release} else {}
    ensures (selected, written) == (SelectOutcome(ShapeOf(q), old(CursorOf(q)), heading).0, SelectOutcome(ShapeOf(q), old(CursorOf(q)), heading).1)
    ensures q.ReleaseSelect? ==> q.release.cursor == SelectOutcome(ShapeOf(q), old(CursorOf(q)), heading).2
  {
    match q
    case ChangelogSelect(p) =>
      if !heading.TitleOf? {
        return false, "";
      }
      if !p {
        return true, "";
      }
      return false, heading.title.Name();
    case ReleaseSelect(rq) =>
      selected, written := rq.Select(heading);
  }

  /** The interface call `Reset`: a release node's count starts again; a changelog node has none. */
  method ResetNode(q: Query)
    modifies if q.ReleaseSelect? then {q.release} else {}
    ensures q.ReleaseSelect? ==> q.release.cursor == 0
  {
    if q.ReleaseSelect? {
      q.release.Reset();
    }
  }

  /**
   * `NewQueryEngine`: the chain compiled from the query, every node at
   * its start; a compile error is returned instead of an engine.
   */
  method NewQueryEngine(query: string) returns (r: Result<QueryEngine, Error>)
    ensures Compile(query).Err? ==> r == Err(Compile(query).error)
    ensures Compile(query).Ok? ==>
              && r.Ok? && fresh(r.value) && r.value.Valid() && r.value.current == 0
              && Shapes(r.value.queries) == Compile(query).value
              && forall i :: 0 <= i < |r.value.queries| ==> CursorOf(r.value.queries[i]) == 0
  {
    var qe := new QueryEngine();
    if |query| > 0 {
      var queryElements := Split(query, '.');
      var err := qe.NewChangelogQuery(queryElements[0], queryElements[1..]);
      if err.Some? {
        return Err(err.value);
      }
      assert qe.queries[0..] == qe.queries;
    }
    return Ok(qe);
  }
}
