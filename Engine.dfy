/**
 * The query engine of the newest revision (`internal/query/engine.go`). The
 * query compiles to a chain of nodes, one per heading level. While the
 * changelog is walked, `current` points at the node the next heading is
 * matched against; on entering or leaving a heading the engine looks back
 * from `current` for the first node that accepts it, and lets that node
 * project the heading into the output.
 */
module Engine {
  import opened Wrappers
  import opened Errors
  import opened Strings
  import opened HeadingsFactory
  import opened Format
  import opened QueryOutputFormat
  import QueryParser
  import JsonResultCollector

  /**
   * A compiled node: the `Query` methods the engine calls (`Accept`,
   * `Enter`, `Exit`, `isCollection`). Projections are the collector calls
   * they make.
   */
  datatype Node = Node(
    accept: Heading -> bool,
    enter: Heading -> (bool, Option<Project>),
    exit: Heading -> (bool, Option<Project>),
    isCollection: bool)

  /** Some node of the chain produces a collection. */
  predicate HasCollection(queries: seq<Node>) {
    exists i :: 0 <= i < |queries| && queries[i].isCollection
  }

  /** The cursor points into the chain, or is 0 for an empty chain. */
  predicate InChain(queries: seq<Node>, current: int) {
    if |queries| == 0 then current == 0 else 0 <= current < |queries|
  }

  /** The nearest node at or below `cur` that accepts the heading, or -1. */
  function Locate(queries: seq<Node>, cur: int, heading: Heading): (r: int)
    requires -1 <= cur < |queries|
    ensures -1 <= r <= cur
    ensures r >= 0 ==> queries[r].accept(heading)
    ensures forall j :: r < j <= cur ==> !queries[j].accept(heading)
    decreases cur + 1
  {
    if cur == -1 then -1
    else if queries[cur].accept(heading) then cur
    else Locate(queries, cur - 1, heading)
  }

  /** The output after a projection: the heading opened, then the projection's calls; `None` on a Go panic. */
  function Projected(st: SinkState, heading: Heading, project: Project): Option<SinkState> {
    if CanOpen(st, heading) then Run(AfterOpen(st, heading), project(heading)) else None
  }

  /**
   * `Enter`: the new cursor and output. Nothing changes when no node at or
   * below the cursor accepts the heading. Otherwise the cursor moves to the
   * accepting node; if that node takes the heading, its projection (if any)
   * is written and the cursor advances, but never past the last node.
   */
  function EnterOutcome(queries: seq<Node>, current: int, st: SinkState, heading: Heading): (r: (int, Option<SinkState>))
    requires InChain(queries, current)
    ensures InChain(queries, r.0)
    ensures |queries| == 0 ==> r == (current, Some(st))
    ensures |queries| > 0 && (forall j :: 0 <= j <= current ==> !queries[j].accept(heading)) ==> r == (current, Some(st))
    ensures |queries| > 0 && Locate(queries, current, heading) >= 0 ==>
              var k := Locate(queries, current, heading);
              && r.0 == (if queries[k].enter(heading).0 && k + 1 < |queries| then k + 1 else k)
              && r.1 == (if !queries[k].enter(heading).0 || queries[k].enter(heading).1.None? then Some(st)
                         else Projected(st, heading, queries[k].enter(heading).1.value))
  {
    if current == |queries| then (current, Some(st))
    else
      var k := Locate(queries, current, heading);
      if k == -1 then (current, Some(st))
      else EnterStep(queries, k, st, heading)
  }

  /** What `Enter` does once node `k` has accepted the heading. */
  function EnterStep(queries: seq<Node>, k: nat, st: SinkState, heading: Heading): (int, Option<SinkState>)
    requires k < |queries|
  {
    var (ok, project) := queries[k].enter(heading);
    if !ok then (k, Some(st))
    else
      var out := if project.Some? then Projected(st, heading, project.value) else Some(st);
      (if k + 1 < |queries| then k + 1 else k, out)
  }

  /**
   * `Exit`: the cursor moves to the accepting node and the heading is
   * closed exactly once, after the node's exit projection when it takes the
   * heading and has one. Nothing changes when no node accepts it.
   */
  function ExitOutcome(queries: seq<Node>, current: int, st: SinkState, heading: Heading): (r: (int, Option<SinkState>))
    requires InChain(queries, current)
    ensures InChain(queries, r.0)
    ensures |queries| == 0 ==> r == (current, Some(st))
    ensures |queries| > 0 && (forall j :: 0 <= j <= current ==> !queries[j].accept(heading)) ==> r == (current, Some(st))
    ensures |queries| > 0 && Locate(queries, current, heading) >= 0 ==>
              var k := Locate(queries, current, heading);
              var (ok, project) := queries[k].exit(heading);
              var written := if ok && project.Some? then Projected(st, heading, project.value) else Some(st);
              && r.0 == k
              && r.1 == (if written.Some? && CanClose(written.value) then Some(AfterClose(written.value)) else None)
  {
    if current == |queries| then (current, Some(st))
    else
      var k := Locate(queries, current, heading);
      if k == -1 then (current, Some(st))
      else
        var (ok, project) := queries[k].exit(heading);
        var written := if ok && project.Some? then Projected(st, heading, project.value) else Some(st);
        (k, if written.Some? && CanClose(written.value) then Some(AfterClose(written.value)) else None)
  }

  /** A heading entered (`true`) or left (`false`). */
  datatype Event = Event(entering: bool, heading: Heading)

  /** The cursor and output after a sequence of events, `None` once the output would panic. */
  function Walk(queries: seq<Node>, current: int, st: SinkState, events: seq<Event>): (r: (int, Option<SinkState>))
    requires InChain(queries, current)
    decreases |events|
  {
    if |events| == 0 then (current, Some(st))
    else
      var e := events[0];
      var step := if e.entering then EnterOutcome(queries, current, st, e.heading) else ExitOutcome(queries, current, st, e.heading);
      if step.1.None? then (step.0, None) else Walk(queries, step.0, step.1.value, events[1..])
  }

  /** However the changelog is walked, the cursor never leaves the chain. */
  lemma {:induction false} WalkStaysInChain(queries: seq<Node>, current: int, st: SinkState, events: seq<Event>)
    requires InChain(queries, current)
    ensures InChain(queries, Walk(queries, current, st, events).0)
    decreases |events|
  {
    if |events| > 0 {
      var e := events[0];
      var step := if e.entering then EnterOutcome(queries, current, st, e.heading) else ExitOutcome(queries, current, st, e.heading);
      if step.1.Some? {
        WalkStaysInChain(queries, step.0, step.1.value, events[1..]);
      }
    }
  }

  /** With an empty query, every walk leaves the output as it was. */
  lemma {:induction false} EmptyChainWritesNothing(st: SinkState, events: seq<Event>)
    ensures Walk([], 0, st, events) == (0, Some(st))
    decreases |events|
  {
    if |events| > 0 {
      EmptyChainWritesNothing(st, events[1..]);
    }
  }

  /** `Engine`: the output, the compiled chain and the cursor. */
  class Engine {
    const output: Sink
    const queries: seq<Node>
    var current: int

    constructor (output: Sink, queries: seq<Node>)
      ensures this.output == output && this.queries == queries && current == 0
    {
      this.output := output;
      this.queries := queries;
      current := 0;
    }

    predicate Valid()
      reads this
    {
      InChain(queries, current)
    }

    /** `HasQuery`: the query was not empty, so the chain has nodes. */
    function HasQuery(): (r: bool)
      reads this
      ensures r <==> |queries| > 0
    {
      |queries| > 0
    }

    function Result(): JsonResultCollector.Rendered
      reads output.Target()
    {
      Format.Result(output)
    }

    /** The backward search of `Enter` and `Exit`: the accepting node at or below the cursor, or -1. */
    method Search(heading: Heading) returns (k: int)
      requires Valid() && |queries| > 0
      ensures k == Locate(queries, current, heading)
    {
      var cur := current;
      while true
        invariant 0 <= cur <= current
        invariant Locate(queries, cur, heading) == Locate(queries, current, heading)
        decreases cur
      {
        if queries[cur].accept(heading) {
          return cur;
        }
        if cur == 0 {
          return -1;
        }
        cur := cur - 1;
      }
    }

    /** The heading opened and projected into the output. */
    method Project(heading: Heading, project: Project)
      requires Projected(StateOf(output), heading, project).Some?
      modifies output.Target()
      ensures StateOf(output) == Projected(old(StateOf(output)), heading, project).value
    {
      Format.Open(output, heading);
      Apply(output, project(heading));
    }

    method Enter(heading: Heading)
      requires Valid() && EnterOutcome(queries, current, StateOf(output), heading).1.Some?
      modifies this, output.Target()
      ensures Valid()
      ensures (current, Some(StateOf(output))) == EnterOutcome(queries, old(current), old(StateOf(output)), heading)
    {
      ghost var st := StateOf(output);
      if current == |queries| {
        return;
      }
      var k := Search(heading);
      if k == -1 {
        return;
      }
      assert EnterOutcome(queries, current, st, heading) == EnterStep(queries, k, st, heading);
      EnterAt(k, heading);
    }

    /** `Enter` once node `k` has accepted the heading. */
    method EnterAt(k: nat, heading: Heading)
      requires k < |queries| && EnterStep(queries, k, StateOf(output), heading).1.Some?
      modifies this, output.Target()
      ensures Valid()
      ensures (current, Some(StateOf(output))) == EnterStep(queries, k, old(StateOf(output)), heading)
    {
      current := k;
      var (ok, project) := queries[current].enter(heading);
      if !ok {
        return;
      }
      if project.Some? {
        Project(heading, project.value);
      }
      if current + 1 < |queries| {
        current := current + 1;
      }
    }

    method Exit(heading: Heading)
      requires Valid() && ExitOutcome(queries, current, StateOf(output), heading).1.Some?
      modifies this, output.Target()
      ensures Valid()
      ensures (current, Some(StateOf(output))) == ExitOutcome(queries, old(current), old(StateOf(output)), heading)
    {
      if current == |queries| {
        return;
      }
      var k := Search(heading);
      if k == -1 {
        return;
      }
      current := k;
      var (ok, project) := queries[current].exit(heading);
      if ok && project.Some? {
        Project(heading, project.value);
      }
      Format.Close(output, heading);
    }
  }

  /**
   * `NewEngine`. The chain the query compiles to is what `compile` gives
   * for the query's dot-separated segments (an empty query compiles to no
   * nodes); the output is switched to collection mode exactly when some
   * node is a collection.
   */
  method NewEngine(query: string, outputFormat: Sink, compile: seq<string> -> Result<seq<Node>, Error>)
    returns (r: Result<Engine, Error>)
    modifies outputFormat.Target()
    ensures query == "" ==> r.Ok? && r.value.queries == []
    ensures query != "" && compile(Split(query, '.')).Err? ==> r == Err(compile(Split(query, '.')).error)
    ensures query != "" && compile(Split(query, '.')).Ok? ==> r.Ok? && r.value.queries == compile(Split(query, '.')).value
    ensures r.Ok? ==> fresh(r.value) && r.value.Valid() && r.value.current == 0 && r.value.output == outputFormat
    ensures StateOf(outputFormat) ==
              if r.Ok? && HasCollection(r.value.queries) then AfterSetCollection(old(StateOf(outputFormat)))
              else old(StateOf(outputFormat))
  {
    var queries: seq<Node> := [];
    if |query| > 0 {
      var compiled := compile(Split(query, '.'));
      if compiled.Err? {
        return Err(compiled.error);
      }
      queries := compiled.value;
      var i := 0;
      while i < |queries|
        invariant 0 <= i <= |queries|
        invariant forall j :: 0 <= j < i ==> !queries[j].isCollection
        invariant StateOf(outputFormat) == old(StateOf(outputFormat))
      {
        if queries[i].isCollection {
          Format.SetCollection(outputFormat);
          break;
        }
        i := i + 1;
      }
    }
    var qe := new Engine(outputFormat, queries);
    return Ok(qe);
  }

  /** This revision's `parseName`: `isList` for a bracketed segment, and a trailing '/' on a bare name is a missing bracket. */
  datatype ParsedName = ParsedName(name: string, selector: string, isList: bool, isRecursive: bool)

  function ParseName(element: string): (r: Result<ParsedName, Error>)
    ensures r.Ok? && !r.value.isList ==> r.value.name == element && r.value.selector == "" && !r.value.isRecursive
  {
    var open := IndexOf(element, '[');
    var close := IndexOf(element, ']');
    if open != -1 && close < open then Err(MissingClosingBracket(element))
    else if open == -1 && close != -1 then Err(MissingOpeningBracket(element))
    else
      var isList := open != -1;
      var isRecursive := HasSuffix(element, "/");
      if !isList && isRecursive then Err(MissingClosingBracket(element))
      else if isList then Ok(ParsedName(element[..open], element[open + 1..close], true, isRecursive))
      else Ok(ParsedName(element, "", false, false))
  }

  /**
   * Both revisions of `parseName` read every segment the same way; they
   * differ only in the error for a bare name ending in '/'.
   */
  lemma ParsersAgree(element: string)
    ensures var older := QueryParser.ParseName(element); var newer := ParseName(element);
            && (newer.Ok? <==> older.Ok?)
            && (newer.Ok? ==> newer.value == ParsedName(older.value.name, older.value.selector, !older.value.isScalar, older.value.isRecursive))
            && (newer.Err? && older.error != ScalarRecursion(element) ==> newer.error == older.error)
            && (older == Err(ScalarRecursion(element)) ==> newer == Err(MissingClosingBracket(element)))
  {
  }

  /** `elementIsFinal`: a scalar that is the last segment. */
  function ElementIsFinal(name: string, isList: bool, elements: seq<string>): (r: Option<Error>)
    ensures r.None? <==> !isList && |elements| == 0
    ensures isList ==> r == Some(ScalarAttribute(name))
    ensures !isList && |elements| > 0 ==> r == Some(NoFurtherElement(name))
  {
    if isList then Some(ScalarAttribute(name))
    else if |elements| != 0 then Some(NoFurtherElement(name))
    else None
  }

  /** `elementIsCollection`: a bracketed segment. */
  function ElementIsCollection(name: string, isList: bool): (r: Option<Error>)
    ensures r.None? <==> isList
    ensures !isList ==> r == Some(CollectionAttribute(name))
  {
    if !isList then Some(CollectionAttribute(name)) else None
  }
}
