/**
 * The validator's older path tracker (`internal/validator/stack.go`): the
 * same stack as the changelog package's, whose `ResetTo` builds the heading
 * first and then pops down to the requested depth one heading at a time.
 */
module ValidatorStack {
  import opened Wrappers
  import opened Errors
  import opened ValidatorHeadings

  // `titleHeading`, `releaseHeading`, `changeHeading`.
  const TitleDepth := 0
  const ReleaseDepth := 1
  const ChangeDepth := 2

  /**
   * One stack slot: a heading, or `None` for the nil interface value that
   * `ResetTo` pushes when asked for a depth outside 0..2.
   */
  type Slot = Option<Heading>

  /** The `switch` of `ResetTo`: depths 0, 1, 2 build a heading; any other depth builds nil. */
  function Build(depth: int, name: string): (r: Result<Slot, Error>)
    ensures depth == TitleDepth ==> r == (match NewTitle(name) case Ok(h) => Ok(Some(h)) case Err(e) => Err(e))
    ensures depth == ReleaseDepth ==> r == (match NewRelease(name) case Ok(h) => Ok(Some(h)) case Err(e) => Err(e))
    ensures depth == ChangeDepth ==> r == (match NewChange(name) case Ok(h) => Ok(Some(h)) case Err(e) => Err(e))
    ensures !(0 <= depth <= 2) ==> r == Ok(None)
  {
    var built :=
      if depth == TitleDepth then NewTitle(name)
      else if depth == ReleaseDepth then NewRelease(name)
      else if depth == ChangeDepth then NewChange(name)
      else Ok(Title(""));
    if !(0 <= depth <= 2) then Ok(None)
    else match built
      case Ok(h) => Ok(Some(h))
      case Err(e) => Err(e)
  }

  /** The headings kept below depth `d`: all of them down to `d`, none for a negative `d`. */
  function Kept(s: seq<Slot>, d: int): (r: seq<Slot>)
    requires d <= |s|
    ensures |r| == if d < 0 then 0 else d
  {
    if d < 0 then [] else s[..d]
  }

  /** The path of the slots, bottom first; a nil slot would make `AsPath` panic. */
  function PathOf(s: seq<Slot>): string
    requires forall i :: 0 <= i < |s| ==> s[i].Some?
  {
    if |s| == 0 then "" else PathOf(s[..|s| - 1]) + s[|s| - 1].value.AsPath()
  }

  /** The path of a stack with one slot more ends in that slot's "{name}". */
  lemma {:induction false} PathOfSnoc(s: seq<Slot>, h: Heading)
    requires forall i :: 0 <= i < |s| ==> s[i].Some?
    ensures PathOf(s + [Some(h)]) == PathOf(s) + "{" + h.Name() + "}"
  {
    assert (s + [Some(h)])[..|s|] == s;
  }

  /** `stack`. */
  class Stack {
    var s: seq<Slot>

    /** `NewStack`. */
    constructor ()
      ensures s == []
    {
      s := [];
    }

    function Depth(): nat
      reads this
    {
      |s|
    }

    predicate Empty() reads this { Depth() == 0 }
    predicate Title() reads this { Depth() == 1 }
    predicate Release() reads this { Depth() == 2 }
    predicate Change() reads this { Depth() == 3 }

    /** `push`. */
    method Push(v: Slot)
      modifies this
      ensures s == old(s) + [v]
    {
      s := s + [v];
    }

    /** `pop`: the top slot, removed; an empty stack is an error and stays empty. */
    method Pop() returns (r: Result<Slot, Error>)
      modifies this
      ensures |old(s)| == 0 ==> r == Err(EmptyStack) && s == old(s)
      ensures |old(s)| > 0 ==> r == Ok(old(s)[|old(s)| - 1]) && s == old(s)[..|old(s)| - 1]
    {
      var l := Depth();
      if l == 0 {
        return Err(EmptyStack);
      }
      r := Ok(s[l - 1]);
      s := s[..l - 1];
    }

    /** `Peek`: the top slot, or an error on an empty stack; the depth is unchanged. */
    function Peek(): (r: Result<Slot, Error>)
      reads this
      ensures r.Ok? <==> |s| > 0
      ensures r.Ok? ==> r.value == s[|s| - 1]
      ensures r.Err? ==> r.error == EmptyStack
    {
      if Depth() == 0 then Err(EmptyStack) else Ok(s[Depth() - 1])
    }

    /**
     * `ResetTo`: a depth past the top fails; then the heading is built, and a
     * failure leaves the stack as it was; then the stack is popped down to
     * `depth` (to empty for a negative depth, the extra pops failing quietly)
     * and the new slot pushed.
     */
    method ResetTo(depth: int, name: string) returns (r: Result<Slot, Error>)
      modifies this
      ensures depth > |old(s)| ==> r == Err(ResetTooDeep(depth, |old(s)|)) && s == old(s)
      ensures depth <= |old(s)| && Build(depth, name).Err? ==> r == Build(depth, name) && s == old(s)
      ensures depth <= |old(s)| && Build(depth, name).Ok? ==>
                r == Build(depth, name) && s == Kept(old(s), depth) + [r.value]
    {
      if depth > Depth() {
        return Err(ResetTooDeep(depth, Depth()));
      }
      r := Build(depth, name);
      if r.Err? {
        return r;
      }
      var i := Depth();
      while i > depth
        invariant depth <= i <= |old(s)|
        invariant s == Kept(old(s), i)
        decreases i - depth
      {
        var _ := Pop();
        i := i - 1;
      }
      Push(r.value);
    }

    /** `AsPath`: the "{name}" of every slot, bottom first. */
    method AsPath() returns (path: string)
      requires forall i :: 0 <= i < |s| ==> s[i].Some?
      ensures path == PathOf(s)
    {
      path := "";
      var i := 0;
      while i < |s|
        invariant 0 <= i <= |s|
        invariant path == PathOf(s[..i])
      {
        assert s[..i + 1][..i] == s[..i];
        path := path + s[i].value.AsPath();
        i := i + 1;
      }
      assert s[..i] == s;
    }
  }

  /** Resetting to the title with a non-empty name leaves exactly that title, whatever was open. */
  lemma ResetToTitleLeavesTitle(before: seq<Slot>, name: string)
    requires name != ""
    ensures Build(TitleDepth, name) == Ok(Some(Title(name)))
    ensures Kept(before, TitleDepth) + [Some(Title(name))] == [Some(Title(name))]
  {
  }

  /** A reset to a depth the `switch` does not know leaves a nil slot on top, which no path can be formed over. */
  lemma ResetToUnknownDepthPushesNil(before: seq<Slot>, depth: int, name: string)
    requires depth <= |before| && !(0 <= depth <= 2)
    ensures Build(depth, name) == Ok(None)
    ensures var after := Kept(before, depth) + [None];
            |after| > 0 && after[|after| - 1].None?
  {
  }
}
