/**
 * The query package's plug-in types (`internal/query/outputFormat.go`): the
 * calls a projection makes on a result collector, and the `projections`
 * record every query node of this revision embeds. The collectors are the
 * ones of the `Format` module; `newOutputFormat` is `Format.NewFormat`.
 */
module QueryOutputFormat {
  import opened Wrappers
  import opened HeadingsFactory
  import opened JsonResultCollector
  import opened Format

  /** One `resultCollector` call: `set`, `setField` or `array`. */
  datatype Op = SetOp(value: string) | SetFieldOp(name: string, value: string) | ArrayOp(name: string)

  /** `project`: the collector calls a projection makes for a heading. */
  type Project = Heading -> seq<Op>

  /** `projections`; a nil projection is `None`. */
  datatype Projections = Projections(enter: Option<Project>, exit: Option<Project>, collection: bool)

  /** The zero value of `projections`: no projection, not a collection. */
  const NoProjections := Projections(None, None, false)

  /** The call can be made without a Go panic. */
  predicate CanApply(st: SinkState, op: Op) {
    if op.SetOp? then CanSet(st) else CanSetField(st)
  }

  function Applied(st: SinkState, op: Op): SinkState
    requires CanApply(st, op)
  {
    match op
    case SetOp(v) => AfterSet(st, v)
    case SetFieldOp(n, v) => AfterSetField(st, n, v)
    case ArrayOp(n) => AfterArray(st, n)
  }

  /** The state after the calls in order, or `None` when one of them would panic. */
  function Run(st: SinkState, ops: seq<Op>): Option<SinkState>
    decreases |ops|
  {
    if |ops| == 0 then Some(st)
    else if CanApply(st, ops[0]) then Run(Applied(st, ops[0]), ops[1..])
    else None
  }

  /** Running two call lists one after the other is running their concatenation. */
  lemma {:induction false} RunConcat(st: SinkState, a: seq<Op>, b: seq<Op>)
    ensures Run(st, a + b) == (if Run(st, a).Some? then Run(Run(st, a).value, b) else None)
    decreases |a|
  {
    if |a| > 0 {
      assert (a + b)[0] == a[0];
      assert (a + b)[1..] == a[1..] + b;
      if CanApply(st, a[0]) {
        RunConcat(Applied(st, a[0]), a[1..], b);
      }
    } else {
      assert a + b == b;
    }
  }

  /** A projection neither opens nor closes a JSON frame, nor changes the collection mode. */
  lemma {:induction false} RunKeepsFrames(rs: seq<Frame>, c: bool, ops: seq<Op>)
    requires Run(JsonState(rs, c), ops).Some?
    ensures var st := Run(JsonState(rs, c), ops).value;
            st.JsonState? && |st.results| == |rs| && st.collection == c
            && forall k :: 0 <= k < |rs| - 1 ==> st.results[k] == rs[k]
    decreases |ops|
  {
    if |ops| > 0 {
      var st := Applied(JsonState(rs, c), ops[0]);
      AppliedKeepsFrames(rs, c, ops[0]);
      assert st == JsonState(st.results, c);
      RunKeepsFrames(st.results, c, ops[1..]);
    }
  }

  /** One call changes only the top JSON frame. */
  lemma AppliedKeepsFrames(rs: seq<Frame>, c: bool, op: Op)
    requires CanApply(JsonState(rs, c), op)
    ensures var st := Applied(JsonState(rs, c), op);
            st.JsonState? && |st.results| == |rs| && st.collection == c
            && forall k :: 0 <= k < |rs| - 1 ==> st.results[k] == rs[k]
  {
    var rs' := Applied(JsonState(rs, c), op).results;
    assert rs'[..|rs| - 1] == rs[..|rs| - 1];
    forall k | 0 <= k < |rs| - 1 ensures rs'[k] == rs[k] {
      assert rs'[..|rs| - 1][k] == rs[..|rs| - 1][k];
    }
  }

  /** In Markdown a projection only appends to the text written so far. */
  lemma {:induction false} RunAppendsText(r: string, p: string, ops: seq<Op>)
    ensures Run(MdState(r, p), ops).Some?
    ensures var st := Run(MdState(r, p), ops).value; st.MdState? && r <= st.result
    decreases |ops|
  {
    if |ops| > 0 {
      var st := Applied(MdState(r, p), ops[0]);
      RunAppendsText(st.result, st.prefix, ops[1..]);
    }
  }

  /** `project(rc, heading)`: the projection's calls made on the sink. */
  method Apply(s: Sink, ops: seq<Op>)
    requires Run(StateOf(s), ops).Some?
    modifies s.Target()
    ensures StateOf(s) == Run(old(StateOf(s)), ops).value
  {
    var i := 0;
    while i < |ops|
      invariant 0 <= i <= |ops|
      invariant Run(StateOf(s), ops[i..]) == Run(old(StateOf(s)), ops)
    {
      assert ops[i..][0] == ops[i] && ops[i..][1..] == ops[i + 1..];
      ApplyOne(s, ops[i]);
      i := i + 1;
    }
  }

  /** One collector call made on the sink. */
  method ApplyOne(s: Sink, op: Op)
    requires CanApply(StateOf(s), op)
    modifies s.Target()
    ensures StateOf(s) == Applied(old(StateOf(s)), op)
  {
    match op
    case SetOp(v) => Format.Set(s, v);
    case SetFieldOp(n, v) => Format.SetField(s, n, v);
    case ArrayOp(n) => Format.Array(s, n);
  }
}
