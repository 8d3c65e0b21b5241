/**
 * The older path tracker of the `changelog` package (`internal/changelog/stack.go`):
 * a stack of headings that know their `Name` and `AsPath`, without listeners.
 * Its headings are the level-1 `Changelog`, a release and a change.
 */
module ChangelogStack {
  import opened Wrappers
  import opened Errors
  import Headings
  import opened ChangeKind
  import opened ChangelogHeading
  import opened ReleaseHeading
  import opened ChangeHeading

  /** A heading of this revision: what `Name` and `AsPath` are asked of. */
  datatype StackHeading =
    | TitleOf(title: Changelog)
    | ReleaseOf(release: Release)
    | ChangeOf(change: Change)
  {
    function Name(): string {
      match this
      case TitleOf(h) => h.Name()
      case ReleaseOf(h) => h.Name()
      case ChangeOf(h) => h.Title()
    }

    function AsPath(): (r: string)
      ensures r == Headings.AsPath(Name())
    {
      match this
      case TitleOf(h) => h.AsPath()
      case ReleaseOf(h) => h.String()
      case ChangeOf(h) => h.String()
    }

    /** The depth that builds a heading of this variant. */
    function Depth(): nat {
      match this
      case TitleOf(_) => 0
      case ReleaseOf(_) => 1
      case ChangeOf(_) => 2
    }
  }

  /**
   * The package-level `NewHeading` this revision's `ResetTo` calls: depth 0
   * builds the title, 1 a release, 2 a change checked against the built-in
   * kinds; any other depth is refused.
   */
  function NewHeading(depth: Headings.HeadingKind, name: string): (r: Result<StackHeading, Error>)
    ensures r.Ok? ==> r.value.Name() == name && r.value.Depth() as int == depth as int
    ensures depth == 0 ==> (r.Ok? <==> name != "")
    ensures depth == 1 ==> (r.Ok? <==> NewRelease(name).Ok?)
    ensures depth == 2 ==> (r.Ok? <==> name in DefaultTable)
    ensures !(0 <= depth <= 2) ==> r == Err(UnknownHeadingKind(depth as int))
  {
    if depth == 0 then
      match NewChangelog(name)
      case Ok(h) => Ok(TitleOf(h))
      case Err(e) => Err(e)
    else if depth == 1 then
      match NewRelease(name)
      case Ok(h) => Ok(ReleaseOf(h))
      case Err(e) => Err(e)
    else if depth == 2 then
      match NewChange(DefaultTable, name)
      case Ok(h) => Ok(ChangeOf(h))
      case Err(e) => Err(e)
    else Err(UnknownHeadingKind(depth as int))
  }

  /** The path of a list of headings: their `AsPath`, bottom first. */
  function PathOf(hs: seq<StackHeading>): string {
    if |hs| == 0 then "" else PathOf(hs[..|hs| - 1]) + hs[|hs| - 1].AsPath()
  }

  /** A path has one "{name}" per heading: it is empty exactly for the empty list. */
  lemma {:induction false} PathOfEmpty(hs: seq<StackHeading>)
    ensures PathOf(hs) == "" <==> |hs| == 0
    ensures |PathOf(hs)| >= 2 * |hs|
    decreases |hs|
  {
    if |hs| > 0 {
      PathOfEmpty(hs[..|hs| - 1]);
    }
  }

  lemma PathOfSnoc(hs: seq<StackHeading>, h: StackHeading)
    ensures PathOf(hs + [h]) == PathOf(hs) + Headings.AsPath(h.Name())
  {
    assert (hs + [h])[..|hs|] == hs;
  }

  /** Every heading sits at the depth that builds its variant. */
  predicate Layered(hs: seq<StackHeading>) {
    forall i :: 0 <= i < |hs| ==> hs[i].Depth() == i
  }

  /** `Stack`. */
  class Stack {
    var s: seq<StackHeading>

    /** `NewStack`: an empty stack. */
    constructor ()
      ensures s == []
    {
      s := [];
    }

    function Depth(): nat
      reads this
    {
      |s|
    }

    predicate Empty()
      reads this
    {
      Depth() == 0
    }

    /** `Title`: only the title is open. */
    predicate Title()
      reads this
    {
      Depth() == 1
    }

    /** `Release`: the title and a release are open. */
    predicate Release()
      reads this
    {
      Depth() == 2
    }

    /** `Change`: the title, a release and a change are open. */
    predicate Change()
      reads this
    {
      Depth() == 3
    }

    /** `push`: `v` goes on top. */
    method Push(v: StackHeading)
      modifies this
      ensures s == old(s) + [v]
    {
      s := s + [v];
    }

    /** `pop`: removes the top heading and returns it; fails on an empty stack, changing nothing. */
    method Pop() returns (r: Result<StackHeading, Error>)
      modifies this
      ensures |old(s)| == 0 ==> r == Err(EmptyStack) && s == old(s)
      ensures |old(s)| > 0 ==> r == Ok(old(s)[|old(s)| - 1]) && s == old(s)[..|old(s)| - 1]
    {
      var l := Depth();
      if l == 0 {
        return Err(EmptyStack);
      }
      r := Ok(s[l - 1]);
      s := s[..l - 1];
    }

    /** `Peek`: the top heading, or an error on an empty stack. */
    function Peek(): (r: Result<StackHeading, Error>)
      reads this
      ensures r.Ok? <==> |s| > 0
      ensures r.Ok? ==> r.value == s[|s| - 1]
      ensures r.Err? ==> r.error == EmptyStack
    {
      if Depth() == 0 then Err(EmptyStack) else Ok(s[Depth() - 1])
    }

    /**
     * `ResetTo`: replaces the headings at `depth` and above by a new heading
     * built from `name`. A depth past the top, or a heading that cannot be
     * built, fails and leaves the stack as it was.
     */
    method ResetTo(depth: Headings.HeadingKind, name: string) returns (r: Result<StackHeading, Error>)
      modifies this
      ensures depth as int > |old(s)| ==> r == Err(ResetTooDeep(depth as int, |old(s)|)) && s == old(s)
      ensures depth as int <= |old(s)| && NewHeading(depth, name).Err? ==> r == NewHeading(depth, name) && s == old(s)
      ensures depth as int <= |old(s)| && NewHeading(depth, name).Ok? ==>
                r == NewHeading(depth, name) && 0 <= depth as int && s == old(s)[..depth] + [r.value]
      ensures old(Layered(s)) ==> Layered(s)
    {
      if depth as int > Depth() {
        return Err(ResetTooDeep(depth as int, Depth()));
      }
      r := NewHeading(depth, name);
      if r.Err? {
        return r;
      }
      s := s[..depth];
      Push(r.value);
    }

    /** `AsPath`: the path of the open headings, bottom first. */
    method AsPath() returns (path: string)
      ensures path == PathOf(s)
    {
      path := "";
      var i := 0;
      while i < |s|
        invariant 0 <= i <= |s|
        invariant path == PathOf(s[..i])
      {
        assert s[..i + 1][..i] == s[..i];
        path := path + s[i].AsPath();
        i := i + 1;
      }
      assert s[..i] == s;
    }
  }

  /** `push` then `pop` hands back the pushed heading and restores the stack. */
  method PushPop(st: Stack, v: StackHeading) returns (r: Result<StackHeading, Error>)
    modifies st
    ensures r == Ok(v) && st.s == old(st.s)
  {
    st.Push(v);
    r := st.Pop();
    assert (old(st.s) + [v])[..|old(st.s)|] == old(st.s);
  }

  /** Resetting an empty stack to a level below the title fails. */
  method ResetEmptyTooDeep(st: Stack, depth: Headings.HeadingKind, name: string) returns (r: Result<StackHeading, Error>)
    requires st.s == [] && depth > 0
    modifies st
    ensures r == Err(ResetTooDeep(depth as int, 0)) && st.s == []
  {
    r := st.ResetTo(depth, name);
  }

  /** Resetting to the title depth on a non-empty title leaves just that title, whatever was open. */
  lemma ResetToTitlePath(old_s: seq<StackHeading>, name: string)
    requires name != ""
    ensures NewHeading(0, name).Ok?
    ensures PathOf(old_s[..0] + [NewHeading(0, name).value]) == "{" + name + "}"
  {
    var h := NewHeading(0, name).value;
    assert old_s[..0] + [h] == [h];
    assert PathOf([h]) == PathOf([h][..0]) + h.AsPath();
  }
}
