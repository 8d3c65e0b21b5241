/**
 * The query node for releases (`internal/query/releaseQuery.go`). The node
 * counts the releases it meets; only the one whose position (from 0) is the
 * selector is taken, and only that one is written.
 */
module ReleaseQuery {
  import opened Wrappers
  import opened Errors
  import opened Strings
  import opened HeadingsFactory
  import opened ReleaseHeading
  import ChangeQuery

  /** What the node writes for its release. */
  datatype ReleaseProjection = Summary | DateOf | LabelOf | StatusOf | VersionOf

  /** The `status` projection: never released, else yanked, else a pre-release, else released. */
  function Status(r: Release): (s: string)
    ensures s == "unreleased" <==> !r.HasBeenReleased()
    ensures s == "yanked" <==> r.HasBeenReleased() && r.HasBeenYanked()
    ensures s == "prereleased" <==> r.HasBeenReleased() && !r.HasBeenYanked() && r.IsPrerelease()
    ensures s == "released" <==> r.HasBeenReleased() && !r.HasBeenYanked() && !r.IsPrerelease()
  {
    if !r.HasBeenReleased() then "unreleased"
    else if r.HasBeenYanked() then "yanked"
    else if r.IsPrerelease() then "prereleased"
    else "released"
  }

  /** A JSON string for text that needs no escaping. */
  function JsonString(s: string): string {
    "\"" + s + "\""
  }

  /** `json.Marshal` of `{Version, Date}` with the date left out when it is empty (`omitempty`). */
  function SummaryJson(version: string, date: string): string {
    "{\"version\":" + JsonString(version) + (if date == "" then "" else ",\"date\":" + JsonString(date)) + "}"
  }

  function Projection(p: ReleaseProjection, r: Release): string {
    match p
    case Summary => SummaryJson(r.Version(), r.Date())
    case DateOf => r.Date()
    case LabelOf => r.Label()
    case StatusOf => Status(r)
    case VersionOf => r.Version()
  }

  /** A release's date is never empty (an Unreleased section has the zero date), so the summary always has one. */
  lemma SummaryAlwaysDated(r: Release)
    ensures Projection(Summary, r) == "{\"version\":\"" + r.Version() + "\",\"date\":\"" + r.Date() + "\"}"
  {
    assert |r.Date()| == 10;
  }

  /** The attribute segments a release accepts, and what each writes. */
  function AttributeProjection(name: string): (r: Option<ReleaseProjection>)
    ensures r.Some? <==> name == "date" || name == "label" || name == "status" || name == "version"
  {
    match name
    case "date" => Some(DateOf)
    case "label" => Some(LabelOf)
    case "status" => Some(StatusOf)
    case "version" => Some(VersionOf)
    case _ => None
  }

  /** What `Enter` does with the cursor: every release moves it on, the one at `index` is taken. */
  function Step(cursor: int, index: int, heading: Heading): (r: (int, bool))
    ensures !heading.ReleaseOf? ==> r == (cursor, false)
    ensures heading.ReleaseOf? ==> r.0 == cursor + 1 && (r.1 <==> cursor == index)
  {
    if heading.ReleaseOf? then (cursor + 1, cursor == index) else (cursor, false)
  }

  /** The number of releases among the headings. */
  function Releases(hs: seq<Heading>): nat {
    if |hs| == 0 then 0 else Releases(hs[..|hs| - 1]) + (if hs[|hs| - 1].ReleaseOf? then 1 else 0)
  }

  /** Whether `Enter` takes each heading, from a cursor at `cursor`. */
  function Selections(cursor: int, index: int, hs: seq<Heading>): (r: seq<bool>)
    ensures |r| == |hs|
    decreases |hs|
  {
    if |hs| == 0 then []
    else
      var (next, selected) := Step(cursor, index, hs[0]);
      [selected] + Selections(next, index, hs[1..])
  }

  lemma {:induction false} ReleasesCons(hs: seq<Heading>)
    requires |hs| > 0
    ensures Releases(hs) == (if hs[0].ReleaseOf? then 1 else 0) + Releases(hs[1..])
    decreases |hs|
  {
    if |hs| > 1 {
      ReleasesCons(hs[..|hs| - 1]);
      assert hs[..|hs| - 1][1..] == hs[1..][..|hs[1..]| - 1];
      assert hs[..|hs| - 1][0] == hs[0];
    } else {
      assert hs[..0] == [] && hs[1..] == [];
    }
  }

  /**
   * The heading at position `i` is taken exactly when it is a release and
   * the releases before it bring the cursor to `index`.
   */
  lemma {:induction false} SelectsTheIndexthRelease(cursor: int, index: int, hs: seq<Heading>, i: int)
    requires 0 <= i < |hs|
    ensures Selections(cursor, index, hs)[i] <==> hs[i].ReleaseOf? && cursor + Releases(hs[..i]) == index
    decreases i
  {
    if i > 0 {
      var next := Step(cursor, index, hs[0]).0;
      SelectsTheIndexthRelease(next, index, hs[1..], i - 1);
      ReleasesCons(hs[..i]);
      assert hs[..i][1..] == hs[1..][..i - 1] && hs[..i][0] == hs[0];
    } else {
      assert hs[..0] == [];
    }
  }

  lemma {:induction false} ReleasesMonotone(hs: seq<Heading>, i: int, j: int)
    requires 0 <= i < j <= |hs| && hs[i].ReleaseOf?
    ensures Releases(hs[..j]) >= Releases(hs[..i]) + 1
    decreases j
  {
    assert hs[..j][..j - 1] == hs[..j - 1];
    if j - 1 > i {
      ReleasesMonotone(hs, i, j - 1);
    } else {
      assert hs[..j][j - 1] == hs[i];
    }
  }

  /** From a reset cursor, at most one heading is ever taken. */
  lemma AtMostOneSelected(index: int, hs: seq<Heading>, i: int, j: int)
    requires 0 <= i < j < |hs|
    requires Selections(0, index, hs)[i]
    ensures !Selections(0, index, hs)[j]
  {
    SelectsTheIndexthRelease(0, index, hs, i);
    SelectsTheIndexthRelease(0, index, hs, j);
    ReleasesMonotone(hs, i, j);
  }

  /** `releaseQuery`: the releases met so far, the selector, and the projections. */
  class ReleaseQuery {
    var cursor: int
    const index: int
    var enter: Option<ReleaseProjection>
    var exit: Option<ReleaseProjection>

    constructor (index: int)
      ensures this.index == index && cursor == 0 && enter.None? && exit.None?
    {
      this.index := index;
      cursor := 0;
      enter := None;
      exit := None;
    }

    /** `Enter`: every release moves the cursor on; the selected one is taken and its projection written. */
    method Enter(heading: Heading) returns (selected: bool, written: string)
      modifies this
      ensures (cursor, selected) == Step(old(cursor), index, heading)
      ensures enter == old(enter) && exit == old(exit)
      ensures written == (if selected && enter.Some? then Projection(enter.value, heading.release) else "")
    {
      if !heading.ReleaseOf? {
        return false, "";
      }
      selected := cursor == index;
      cursor := cursor + 1;
      if !selected {
        return false, "";
      }
      written := if enter.Some? then Projection(enter.value, heading.release) else "";
    }

    /** `Exit`: every release is taken, with the exit projection written when there is one. */
    function Exit(heading: Heading): (r: (bool, string))
      reads this
      ensures r.0 <==> heading.ReleaseOf?
      ensures !heading.ReleaseOf? || exit.None? ==> r.1 == ""
    {
      if !heading.ReleaseOf? then (false, "")
      else (true, if exit.Some? then Projection(exit.value, heading.release) else "")
    }
  }

  /** The nodes `newReleaseQuery` appends: its own, then those of a change query. */
  datatype ReleaseChain = ReleaseChain(release: ReleaseQuery, change: Option<ChangeQuery.ChangeChain>)

  /** A segment `changes[...]`. */
  predicate IsChanges(s: string) {
    HasPrefix(s, "changes[") && HasSuffix(s, "]")
  }

  function ChangesSelector(s: string): (r: string)
    requires IsChanges(s)
    ensures s == "changes[" + r + "]"
  {
    assert "changes[" == "changes" + "[";
    BracketContent("changes[", s)
  }

  /** What `newReleaseQuery` builds, as a value: the selector, the enter projection and the change nodes. */
  datatype ReleasePlan = ReleasePlan(index: int, enter: Option<ReleaseProjection>, change: Option<ChangeQuery.ChangeChain>)

  /**
   * The outcome of `newReleaseQuery` without the allocation of its node:
   * the selector must be an integer; nothing further gives the summary;
   * `changes[...]` passes the change query's outcome on; any other segment
   * must be one of the four attributes.
   */
  function Plan(name: string, queryElements: seq<string>): (r: Result<ReleasePlan, Error>)
    ensures Atoi(name).None? ==> r == Err(ReleaseSelectorParse(name))
    ensures r.Ok? ==> Atoi(name) == Some(r.value.index)
    ensures Atoi(name).Some? && |queryElements| == 0 ==> r.Ok? && r.value.enter == Some(Summary) && r.value.change.None?
    ensures Atoi(name).Some? && |queryElements| > 0 && IsChanges(queryElements[0]) ==>
              var c := ChangeQuery.NewChangeQuery(ChangesSelector(queryElements[0]), queryElements[1..]);
              && (r.Ok? <==> c.Ok?)
              && (r.Ok? ==> r.value.enter.None? && r.value.change == Some(c.value))
              && (r.Err? ==> r.error == c.error)
    ensures Atoi(name).Some? && |queryElements| > 0 && !IsChanges(queryElements[0]) ==>
              var p := AttributeProjection(queryElements[0]);
              && (r.Ok? <==> p.Some?)
              && (r.Ok? ==> r.value.enter == p && r.value.change.None?)
              && (r.Err? ==> r.error == ReleaseAttributeNotRecognized(queryElements[0]))
  {
    match Atoi(name)
    case None => Err(ReleaseSelectorParse(name))
    case Some(i) =>
      if |queryElements| == 0 then Ok(ReleasePlan(i, Some(Summary), None))
      else if IsChanges(queryElements[0]) then
        match ChangeQuery.NewChangeQuery(ChangesSelector(queryElements[0]), queryElements[1..])
        case Err(e) => Err(e)
        case Ok(c) => Ok(ReleasePlan(i, None, Some(c)))
      else
        match AttributeProjection(queryElements[0])
        case None => Err(ReleaseAttributeNotRecognized(queryElements[0]))
        case Some(p) => Ok(ReleasePlan(i, Some(p), None))
  }

  /** Selector "0" with the segment "version" plans the first release, projecting its version. */
  lemma VersionPlan()
    ensures Plan("0", ["version"]) == Ok(ReleasePlan(0, Some(VersionOf), None))
  {
    AtoiNatToString(0);
    assert !IsChanges("version") by {
      assert !HasPrefix("version", "changes[");
    }
  }

  /**
   * `newReleaseQuery`: the selector must be an integer. With nothing
   * further the release is written as a summary; `changes[...]` hands the
   * rest to a change query, passing its errors on; otherwise the segment
   * must name an attribute.
   */
  method NewReleaseQuery(name: string, queryElements: seq<string>) returns (r: Result<ReleaseChain, Error>)
    ensures Atoi(name).None? ==> r == Err(ReleaseSelectorParse(name))
    ensures r.Ok? ==>
              && Atoi(name).Some? && fresh(r.value.release) && r.value.release.index == Atoi(name).value
              && r.value.release.cursor == 0 && r.value.release.exit.None?
    ensures Atoi(name).Some? && |queryElements| == 0 ==>
              r.Ok? && r.value.release.enter == Some(Summary) && r.value.change.None?
    ensures Atoi(name).Some? && |queryElements| > 0 && IsChanges(queryElements[0]) ==>
              var c := ChangeQuery.NewChangeQuery(ChangesSelector(queryElements[0]), queryElements[1..]);
              && (r.Ok? <==> c.Ok?)
              && (r.Ok? ==> r.value.release.enter.None? && r.value.change == Some(c.value))
              && (r.Err? ==> r.error == c.error)
    ensures Atoi(name).Some? && |queryElements| > 0 && !IsChanges(queryElements[0]) ==>
              var p := AttributeProjection(queryElements[0]);
              && (r.Ok? <==> p.Some?)
              && (r.Ok? ==> r.value.release.enter == p && r.value.change.None?)
              && (r.Err? ==> r.error == ReleaseAttributeNotRecognized(queryElements[0]))
    ensures r.Ok? <==> Plan(name, queryElements).Ok?
    ensures r.Err? ==> r.error == Plan(name, queryElements).error
    ensures r.Ok? ==> Plan(name, queryElements).value
                      == ReleasePlan(r.value.release.index, r.value.release.enter, r.value.change)
  {
    var i := Atoi(name);
    if i.None? {
      return Err(ReleaseSelectorParse(name));
    }
    var queryMe := new ReleaseQuery(i.value);
    if |queryElements| == 0 {
      queryMe.enter := Some(Summary);
      return Ok(ReleaseChain(queryMe, None));
    }
    if IsChanges(queryElements[0]) {
      var c := ChangeQuery.NewChangeQuery(ChangesSelector(queryElements[0]), queryElements[1..]);
      if c.Err? {
        return Err(c.error);
      }
      return Ok(ReleaseChain(queryMe, Some(c.value)));
    }
    match queryElements[0] {
      case "date" => queryMe.enter := Some(DateOf);
      case "label" => queryMe.enter := Some(LabelOf);
      case "status" => queryMe.enter := Some(StatusOf);
      case "version" => queryMe.enter := Some(VersionOf);
      case _ => return Err(ReleaseAttributeNotRecognized(queryElements[0]));
    }
    return Ok(ReleaseChain(queryMe, None));
  }
}
