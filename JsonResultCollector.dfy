/**
 * The JSON result collector (`internal/output/jsonResultCollector.go`; the
 * copy in `internal/query/jsonResultCollector.go` differs only in the case of
 * its method names). Every heading a projection writes to opens a frame; a
 * closed frame's value is folded into the frame below it, so that the first
 * frame ends up holding the whole result.
 */
module JsonResultCollector {
  import opened Headings
  import opened HeadingsFactory

  /** The Go values the collector stores: `nil`, a string, `[]interface{}`, `map[string]interface{}`. */
  datatype Value = Nil | Str(s: string) | Arr(items: seq<Value>) | Obj(fields: map<string, Value>)

  /** `jsonResult`: a value, the field later values are appended to, and the heading kind. */
  datatype Frame = Frame(value: Value, name: string, kind: HeadingKind)

  /** What `Result` gives: a string returned as it is, or the value `json.Marshal` encodes. */
  datatype Rendered = Raw(text: string) | Marshalled(value: Value)

  /** `Result` over the frames: the first frame's value once every heading is closed. */
  function Render(results: seq<Frame>, collection: bool): Rendered {
    if |results| == 0 then Raw(if collection then "[]" else "")
    else match results[0].value
      case Nil => Raw("{}")
      case Str(s) => Raw(s)
      case _ => Marshalled(results[0].value)
  }

  /** `open`: one more frame, with no value yet. */
  function Opened(results: seq<Frame>, kind: HeadingKind): (r: seq<Frame>)
    ensures |r| == |results| + 1 && r[..|results|] == results
    ensures r[|results|] == Frame(Nil, "", kind)
  {
    results + [Frame(Nil, "", kind)]
  }

  /** The top frame's value replaced, everything else kept. */
  function WithTop(results: seq<Frame>, top: Frame): (r: seq<Frame>)
    requires |results| > 0
    ensures |r| == |results| && r[..|r| - 1] == results[..|r| - 1] && r[|r| - 1] == top
  {
    results[..|results| - 1] + [top]
  }

  /** A value `setField` and `array` can write into: a map, or nothing yet (a map is then made). */
  predicate IsMapTarget(v: Value) {
    v.Nil? || v.Obj?
  }

  function FieldsOf(v: Value): map<string, Value> {
    if v.Obj? then v.fields else map[]
  }

  /** `set`: the top frame's value becomes the string. */
  function SetValue(results: seq<Frame>, value: string): (r: seq<Frame>)
    requires |results| > 0
    ensures |r| == |results| && r[..|r| - 1] == results[..|r| - 1]
    ensures r[|r| - 1].value == Str(value)
    ensures r[|r| - 1].name == results[|r| - 1].name && r[|r| - 1].kind == results[|r| - 1].kind
  {
    WithTop(results, results[|results| - 1].(value := Str(value)))
  }

  /** `setField`: the one field set in the top frame's map, the other fields kept. */
  function SetFieldValue(results: seq<Frame>, name: string, value: string): (r: seq<Frame>)
    requires |results| > 0 && IsMapTarget(results[|results| - 1].value)
    ensures |r| == |results| && r[..|r| - 1] == results[..|r| - 1]
    ensures var top := results[|r| - 1]; var v := r[|r| - 1].value;
            && v.Obj? && v.fields == FieldsOf(top.value)[name := Str(value)]
            && r[|r| - 1].name == top.name && r[|r| - 1].kind == top.kind
  {
    var top := results[|results| - 1];
    WithTop(results, top.(value := Obj(FieldsOf(top.value)[name := Str(value)])))
  }

  /** `setField` adds or overwrites the one field and keeps every other field of the top map. */
  lemma SetFieldKeepsOthers(results: seq<Frame>, name: string, value: string)
    requires |results| > 0 && IsMapTarget(results[|results| - 1].value)
    ensures var top := results[|results| - 1]; var v := SetFieldValue(results, name, value)[|results| - 1].value;
            && v.Obj? && v.fields.Keys == FieldsOf(top.value).Keys + {name} && v.fields[name] == Str(value)
            && (forall k :: k in v.fields && k != name ==> v.fields[k] == FieldsOf(top.value)[k])
  {
  }

  /** `array`: the field set to an empty array and recorded as the one later values go to. */
  function ArrayValue(results: seq<Frame>, name: string): (r: seq<Frame>)
    requires |results| > 0 && IsMapTarget(results[|results| - 1].value)
    ensures |r| == |results| && r[..|r| - 1] == results[..|r| - 1]
    ensures var top := results[|r| - 1]; var v := r[|r| - 1].value;
            && v.Obj? && v.fields == FieldsOf(top.value)[name := Arr([])]
            && r[|r| - 1].name == name && r[|r| - 1].kind == top.kind
  {
    var top := results[|results| - 1];
    WithTop(results, Frame(Obj(FieldsOf(top.value)[name := Arr([])]), name, top.kind))
  }

  /** `array` sets the one field to an empty array and keeps every other field of the top map. */
  lemma ArrayKeepsOthers(results: seq<Frame>, name: string)
    requires |results| > 0 && IsMapTarget(results[|results| - 1].value)
    ensures var top := results[|results| - 1]; var v := ArrayValue(results, name)[|results| - 1].value;
            && v.Obj? && v.fields.Keys == FieldsOf(top.value).Keys + {name} && v.fields[name] == Arr([])
            && (forall k :: k in v.fields && k != name ==> v.fields[k] == FieldsOf(top.value)[k])
  {
  }

  /** The elements of the array stored under `name`, none when there is no array there. */
  function ArrayField(m: map<string, Value>, name: string): seq<Value> {
    if name in m && m[name].Arr? then m[name].items else []
  }

  /**
   * A frame a closed value can be folded into: an array in collection mode,
   * or a map. Anything else makes `close` assign into a nil map, a panic.
   */
  predicate Foldable(parent: Frame, collection: bool) {
    (parent.value.Arr? && collection) || parent.value.Obj?
  }

  /** The parent after `v` is folded into it. */
  function Folded(parent: Frame, v: Value, collection: bool): (r: Frame)
    requires Foldable(parent, collection)
    ensures r.name == parent.name && r.kind == parent.kind
    ensures parent.value.Arr? && collection ==> r.value == Arr(parent.value.items + [v])
    ensures !(parent.value.Arr? && collection) ==>
              r.value == Obj(parent.value.fields[parent.name := Arr(ArrayField(parent.value.fields, parent.name) + [v])])
  {
    if parent.value.Arr? && collection then parent.(value := Arr(parent.value.items + [v]))
    else
      var m := parent.value.fields;
      parent.(value := Obj(m[parent.name := Arr(ArrayField(m, parent.name) + [v])]))
  }

  /** Folded into a map, the value is appended to the array of the parent's field, and the other fields stay. */
  lemma FoldedKeepsOthers(parent: Frame, v: Value, collection: bool)
    requires Foldable(parent, collection) && !(parent.value.Arr? && collection)
    ensures var r := Folded(parent, v, collection);
            && r.value.Obj? && r.value.fields.Keys == parent.value.fields.Keys + {parent.name}
            && r.value.fields[parent.name] == Arr(ArrayField(parent.value.fields, parent.name) + [v])
            && (forall k :: k in r.value.fields && k != parent.name ==> r.value.fields[k] == parent.value.fields[k])
  {
  }

  /** `close` does not panic: a non-root frame with a value has somewhere to go. */
  predicate Closable(results: seq<Frame>, collection: bool) {
    |results| >= 2 && !results[|results| - 1].value.Nil? ==> Foldable(results[|results| - 2], collection)
  }

  /**
   * `close`: nothing without frames or when the top frame has no value (that
   * frame then stays); the root frame is only wrapped in an array in
   * collection mode; any other frame is popped and its value folded into
   * its parent.
   */
  function Closed(results: seq<Frame>, collection: bool): (r: seq<Frame>)
    requires Closable(results, collection)
    ensures |r| == |results| || |r| == |results| - 1
    ensures 0 < |r| ==> r[..|r| - 1] == results[..|r| - 1]
    ensures |r| < |results| <==> |results| >= 2 && !results[|results| - 1].value.Nil?
  {
    var i := |results| - 1;
    if i == -1 then results
    else
      var v := results[i].value;
      if v.Nil? then results
      else if i == 0 then
        if !v.Arr? && collection then [Frame(Arr([v]), "", Headings.IntroductionHeading)] else results
      else
        var rest := results[..i];
        WithTop(rest, Folded(rest[i - 1], v, collection))
  }

  /** A value projected under an opened heading lands at the end of the parent's array. */
  lemma ProjectedValueAppended(results: seq<Frame>, kind: HeadingKind, value: string)
    requires |results| > 0 && results[|results| - 1].value.Arr?
    ensures var r := Closed(SetValue(Opened(results, kind), value), true);
            && |r| == |results| && r[..|r| - 1] == results[..|r| - 1]
            && r[|r| - 1].value == Arr(results[|results| - 1].value.items + [Str(value)])
  {
    var o := SetValue(Opened(results, kind), value);
    assert o[..|results|] == results;
  }

  /** An opened heading that nothing was written to keeps its frame when closed. */
  lemma UnwrittenFrameStays(results: seq<Frame>, kind: HeadingKind, collection: bool)
    ensures Closed(Opened(results, kind), collection) == Opened(results, kind)
  {
  }

  /** In collection mode the root value is wrapped once: a second close leaves it. */
  lemma RootWrappedOnce(v: Value, name: string, kind: HeadingKind)
    requires !v.Nil? && !v.Arr?
    ensures Closed([Frame(v, name, kind)], true) == [Frame(Arr([v]), "", Headings.IntroductionHeading)]
    ensures Closed(Closed([Frame(v, name, kind)], true), true) == Closed([Frame(v, name, kind)], true)
  {
  }

  /** Without frames the result is "[]" in collection mode and "" otherwise; a root nothing was written to gives "{}". */
  lemma EmptyResults(collection: bool, kind: HeadingKind)
    ensures Render([], collection) == Raw(if collection then "[]" else "")
    ensures Render(Opened([], kind), collection) == Raw("{}")
  {
  }

  /** A string set on the root frame is the result as it is, without JSON quoting. */
  lemma RootStringIsResult(kind: HeadingKind, value: string, collection: bool)
    ensures Render(SetValue(Opened([], kind), value), collection) == Raw(value)
  {
  }

  /** `jsonResultCollector`: the open frames and whether the result is a collection. */
  class JsonCollector {
    var results: seq<Frame>
    var collection: bool

    /** The zero value the factories return. */
    constructor ()
      ensures results == [] && !collection
    {
      results := [];
      collection := false;
    }

    function Result(): Rendered
      reads this
    {
      Render(results, collection)
    }

    method Open(heading: Heading)
      modifies this
      ensures results == Opened(old(results), heading.Kind()) && collection == old(collection)
    {
      results := results + [Frame(Nil, "", heading.Kind())];
    }

    method Close(heading: Heading)
      requires Closable(results, collection)
      modifies this
      ensures collection == old(collection)
      ensures results == Closed(old(results), collection)
    {
      var i := |results| - 1;
      if i == -1 {
        return;
      }
      var newValue := results[i].value;
      if newValue.Nil? {
        return;
      }
      if i == 0 {
        if !newValue.Arr? && collection {
          results := [Frame(Arr([newValue]), "", Headings.IntroductionHeading)];
        }
        return;
      }
      results := results[..i];
      i := i - 1;
      var parent := results[i];
      if parent.value.Arr? && collection {
        results := results[i := parent.(value := Arr(parent.value.items + [newValue]))];
        return;
      }
      var result := parent.value.fields;
      var items := if parent.name in result && result[parent.name].Arr? then result[parent.name].items else [];
      results := results[i := parent.(value := Obj(result[parent.name := Arr(items + [newValue])]))];
    }

    method SetCollection()
      modifies this
      ensures collection && results == old(results)
    {
      collection := true;
    }

    /** `set`; without an open frame Go indexes out of range. */
    method Set(value: string)
      requires |results| > 0
      modifies this
      ensures results == SetValue(old(results), value) && collection == old(collection)
    {
      var i := |results| - 1;
      results := results[i := results[i].(value := Str(value))];
    }

    /** `setField`; the top value must be a map or nothing, or Go assigns into a nil map. */
    method SetField(name: string, value: string)
      requires |results| > 0 && IsMapTarget(results[|results| - 1].value)
      modifies this
      ensures results == SetFieldValue(old(results), name, value) && collection == old(collection)
    {
      var i := |results| - 1;
      var result := if results[i].value.Nil? then map[] else results[i].value.fields;
      results := results[i := results[i].(value := Obj(result[name := Str(value)]))];
    }

    /** `array`; the same demand as `setField`. */
    method Array(name: string)
      requires |results| > 0 && IsMapTarget(results[|results| - 1].value)
      modifies this
      ensures results == ArrayValue(old(results), name) && collection == old(collection)
    {
      var i := |results| - 1;
      var result := if results[i].value.Nil? then map[] else results[i].value.fields;
      results := results[i := Frame(Obj(result[name := Arr([])]), name, results[i].kind)];
    }
  }
}
