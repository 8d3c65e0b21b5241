/**
 * The output plug-in (`internal/output/format.go`). The `Format` interface
 * has two implementations; a `Sink` is one of them, and each interface
 * method dispatches on it. `SinkState` is what either one holds, and the
 * functions below say what each call does to it.
 */
module Format {
  import opened Wrappers
  import opened Errors
  import opened Strings
  import opened HeadingsFactory
  import ChangeKind
  import opened JsonResultCollector
  import opened MdResultCollector

  datatype Sink = JsonSink(json: JsonCollector) | MdSink(md: MdCollector)
  {
    /** The collector object the sink writes to. */
    function Target(): object {
      if JsonSink? then json else md
    }
  }

  datatype SinkState = JsonState(results: seq<Frame>, collection: bool) | MdState(result: string, prefix: string)

  function StateOf(s: Sink): SinkState
    reads s.Target()
  {
    match s
    case JsonSink(j) => JsonState(j.results, j.collection)
    case MdSink(m) => MdState(m.result, m.prefix)
  }

  /** The calls Go can make without a panic. */
  predicate CanOpen(st: SinkState, heading: Heading) {
    st.MdState? ==> HasLineStart(heading.Kind())
  }

  predicate CanClose(st: SinkState) {
    st.JsonState? ==> Closable(st.results, st.collection)
  }

  predicate CanSet(st: SinkState) {
    st.JsonState? ==> |st.results| > 0
  }

  predicate CanSetField(st: SinkState) {
    st.JsonState? ==> |st.results| > 0 && IsMapTarget(st.results[|st.results| - 1].value)
  }

  function AfterOpen(st: SinkState, heading: Heading): SinkState
    requires CanOpen(st, heading)
  {
    match st
    case JsonState(rs, c) => JsonState(Opened(rs, heading.Kind()), c)
    case MdState(r, _) => MdState(r, LineStart(heading.Kind()))
  }

  function AfterClose(st: SinkState): SinkState
    requires CanClose(st)
  {
    match st
    case JsonState(rs, c) => JsonState(Closed(rs, c), c)
    case MdState(_, _) => st
  }

  function AfterSetCollection(st: SinkState): SinkState {
    match st
    case JsonState(rs, _) => JsonState(rs, true)
    case MdState(_, _) => st
  }

  function AfterSet(st: SinkState, value: string): SinkState
    requires CanSet(st)
  {
    match st
    case JsonState(rs, c) => JsonState(SetValue(rs, value), c)
    case MdState(r, p) => MdState(r + p + value + "\n", "")
  }

  function AfterSetField(st: SinkState, name: string, value: string): SinkState
    requires CanSetField(st)
  {
    match st
    case JsonState(rs, c) => JsonState(SetFieldValue(rs, name, value), c)
    case MdState(r, p) => if name == "title" then MdState(r + p + value + "\n", "") else st
  }

  function AfterArray(st: SinkState, name: string): SinkState
    requires CanSetField(st)
  {
    match st
    case JsonState(rs, c) => JsonState(ArrayValue(rs, name), c)
    case MdState(_, _) => st
  }

  /** `Result`; the Markdown text is returned as it is. */
  function ResultOf(st: SinkState): Rendered {
    match st
    case JsonState(rs, c) => Render(rs, c)
    case MdState(r, _) => Raw(TrimSuffix(r, "\n"))
  }

  /** The state of a freshly made collector of each kind. */
  predicate Fresh(st: SinkState) {
    st == JsonState([], false) || st == MdState("", "")
  }

  method Open(s: Sink, heading: Heading)
    requires CanOpen(StateOf(s), heading)
    modifies s.Target()
    ensures StateOf(s) == AfterOpen(old(StateOf(s)), heading)
  {
    match s
    case JsonSink(j) => j.Open(heading);
    case MdSink(m) => m.Open(heading);
  }

  method Close(s: Sink, heading: Heading)
    requires CanClose(StateOf(s))
    modifies s.Target()
    ensures StateOf(s) == AfterClose(old(StateOf(s)))
  {
    match s
    case JsonSink(j) => j.Close(heading);
    case MdSink(m) => m.Close(heading);
  }

  method SetCollection(s: Sink)
    modifies s.Target()
    ensures StateOf(s) == AfterSetCollection(old(StateOf(s)))
  {
    match s
    case JsonSink(j) => j.SetCollection();
    case MdSink(m) => m.SetCollection();
  }

  method Set(s: Sink, value: string)
    requires CanSet(StateOf(s))
    modifies s.Target()
    ensures StateOf(s) == AfterSet(old(StateOf(s)), value)
  {
    match s
    case JsonSink(j) => j.Set(value);
    case MdSink(m) => m.Set(value);
  }

  method SetField(s: Sink, name: string, value: string)
    requires CanSetField(StateOf(s))
    modifies s.Target()
    ensures StateOf(s) == AfterSetField(old(StateOf(s)), name, value)
  {
    match s
    case JsonSink(j) => j.SetField(name, value);
    case MdSink(m) => m.SetField(name, value);
  }

  method Array(s: Sink, name: string)
    requires CanSetField(StateOf(s))
    modifies s.Target()
    ensures StateOf(s) == AfterArray(old(StateOf(s)), name)
  {
    match s
    case JsonSink(j) => j.Array(name);
    case MdSink(m) => m.Array(name);
  }

  function Result(s: Sink): Rendered
    reads s.Target()
  {
    ResultOf(StateOf(s))
  }

  /**
   * `NewFormat`: a new JSON collector for "json", a new Markdown collector
   * for "md" (names compared exactly), an error naming anything else.
   */
  method NewFormat(formatName: string) returns (r: Result<Sink, Error>)
    ensures formatName == "json" ==> r.Ok? && r.value.JsonSink? && fresh(r.value.json)
    ensures formatName == "md" ==> r.Ok? && r.value.MdSink? && fresh(r.value.md)
    ensures r.Ok? ==> fresh(r.value.Target()) && Fresh(StateOf(r.value)) && Result(r.value) == Raw("")
    ensures formatName != "json" && formatName != "md" ==> r == Err(UnrecognizedOutputFormat(formatName))
  {
    if formatName == "json" {
      var j := new JsonCollector();
      return Ok(JsonSink(j));
    } else if formatName == "md" {
      var m := new MdCollector();
      return Ok(MdSink(m));
    }
    return Err(UnrecognizedOutputFormat(formatName));
  }

  /**
   * `newHeading` of the tests: the heading the factory over the default
   * change kinds builds; the tests only ask for headings it accepts.
   */
  function TestHeading(kind: Headings.HeadingKind, title: string): (h: Heading)
    requires HeadingsFactory(ChangeKind.DefaultTable).NewHeading(kind, title).Ok?
    ensures h.Kind() == kind && h.Title() == title
    ensures kind == Headings.ChangeHeading ==> h.ChangeOf? && title in ChangeKind.DefaultTable
  {
    HeadingsFactory(ChangeKind.DefaultTable).NewHeading(kind, title).value
  }

  /** Opening and closing a heading with nothing projected gives "{}" in JSON and "" in Markdown. */
  method NoOutputDefined(formatName: string) returns (r: Rendered)
    requires formatName == "json" || formatName == "md"
    ensures formatName == "json" ==> r == Raw("{}")
    ensures formatName == "md" ==> r == Raw("")
  {
    var of := NewFormat(formatName);
    var h := TestHeading(Headings.IntroductionHeading, "Changelog");
    Open(of.value, h);
    Close(of.value, h);
    r := Result(of.value);
  }

  /** The introduction's title as a field: an object in JSON, a level-1 line in Markdown. */
  method IntroductionTitle(formatName: string) returns (r: Rendered)
    requires formatName == "json" || formatName == "md"
    ensures formatName == "json" ==> r == Marshalled(Obj(map["title" := Str("Changelog")]))
    ensures formatName == "md" ==> r == Raw("# Changelog")
  {
    var of := NewFormat(formatName);
    var h := TestHeading(Headings.IntroductionHeading, "Changelog");
    ghost var st := StateOf(of.value);
    if st.JsonState? {
      TitleInJson(st, h);
    } else {
      TitleInMarkdown(st, h);
    }
    Open(of.value, h);
    SetField(of.value, "title", "Changelog");
    assert StateOf(of.value) == AfterSetField(AfterOpen(st, h), "title", "Changelog");
    Close(of.value, h);
    r := Result(of.value);
  }

  /** The calls of `IntroductionTitle` are allowed on a fresh JSON collector, and give one object. */
  lemma TitleInJson(st: SinkState, h: Heading)
    requires st == JsonState([], false) && h.Kind() == Headings.IntroductionHeading
    ensures CanOpen(st, h) && CanSetField(AfterOpen(st, h))
    ensures CanClose(AfterSetField(AfterOpen(st, h), "title", "Changelog"))
    ensures ResultOf(AfterClose(AfterSetField(AfterOpen(st, h), "title", "Changelog")))
            == Marshalled(Obj(map["title" := Str("Changelog")]))
  {
    assert map[]["title" := Str("Changelog")] == map["title" := Str("Changelog")];
  }

  /** The calls of `IntroductionTitle` are allowed on a fresh Markdown collector, and give one title line. */
  lemma TitleInMarkdown(st: SinkState, h: Heading)
    requires st == MdState("", "") && h.Kind() == Headings.IntroductionHeading
    ensures CanOpen(st, h) && CanSetField(AfterOpen(st, h))
    ensures CanClose(AfterSetField(AfterOpen(st, h), "title", "Changelog"))
    ensures ResultOf(AfterClose(AfterSetField(AfterOpen(st, h), "title", "Changelog"))) == Raw("# Changelog")
  {
    LineStarts();
  }

  /** A change description set as a value: the bare string in JSON, a list line in Markdown. */
  method ChangeDescription(formatName: string) returns (r: Rendered)
    requires formatName == "json" || formatName == "md"
    ensures formatName == "json" ==> r == Raw("foo")
    ensures formatName == "md" ==> r == Raw("- foo")
  {
    var of := NewFormat(formatName);
    var h := TestHeading(Headings.ChangeDescription, "foo");
    DescriptionStates(StateOf(of.value), h);
    Open(of.value, h);
    Set(of.value, "foo");
    Close(of.value, h);
    r := Result(of.value);
  }

  /** The calls of `ChangeDescription` are allowed on a fresh collector, and give its results. */
  lemma DescriptionStates(st: SinkState, h: Heading)
    requires Fresh(st) && h.Kind() == Headings.ChangeDescription
    ensures CanOpen(st, h) && CanSet(AfterOpen(st, h)) && CanClose(AfterSet(AfterOpen(st, h), "foo"))
    ensures st.JsonState? ==> ResultOf(AfterClose(AfterSet(AfterOpen(st, h), "foo"))) == Raw("foo")
    ensures st.MdState? ==> ResultOf(AfterClose(AfterSet(AfterOpen(st, h), "foo"))) == Raw("- foo")
  {
    if st.MdState? {
      assert "" + "- " + "foo" + "\n" == "- foo\n";
    }
  }

  /**
   * Two descriptions under a change that declared the array "changes": both
   * land in that array in JSON, and become two list lines in Markdown.
   */
  method LoneArray(formatName: string) returns (r: Rendered)
    requires formatName == "json" || formatName == "md"
    ensures formatName == "json" ==> r == Marshalled(Obj(map["changes" := Arr([Str("foo"), Str("bar")])]))
    ensures formatName == "md" ==> r == Raw("- foo\n- bar")
  {
    var of := NewFormat(formatName);
    var s := of.value;
    var h := TestHeading(Headings.ChangeHeading, "Added");
    var d := TestHeading(Headings.ChangeDescription, "ignored");
    ChangesDeclared(StateOf(s), h);
    Open(s, h);
    Array(s, "changes");
    DescriptionStep(StateOf(s), d, [], "foo");
    WriteDescription(s, d, "foo");
    DescriptionStep(StateOf(s), d, [] + [Str("foo")], "bar");
    WriteDescription(s, d, "bar");
    ChangesClosed(StateOf(s));
    Close(s, h);
    r := Result(s);
  }

  /** The JSON state while the change's frame holds `items` in its field "changes". */
  function ChangesState(items: seq<Value>): SinkState {
    JsonState([Frame(Obj(map["changes" := Arr(items)]), "changes", Headings.ChangeHeading)], false)
  }

  /** A change opened on a fresh collector, then "changes" declared as its array. */
  lemma ChangesDeclared(st: SinkState, h: Heading)
    requires Fresh(st) && h.Kind() == Headings.ChangeHeading
    ensures CanOpen(st, h) && CanSetField(AfterOpen(st, h))
    ensures st.JsonState? ==> AfterArray(AfterOpen(st, h), "changes") == ChangesState([])
    ensures st.MdState? ==> AfterArray(AfterOpen(st, h), "changes") == MdState("", "### ")
  {
    LineStarts();
  }

  /**
   * A description written under that change: appended to the array in JSON,
   * a list line in Markdown.
   */
  lemma DescriptionStep(st: SinkState, d: Heading, items: seq<Value>, value: string)
    requires d.Kind() == Headings.ChangeDescription && (st.MdState? || st == ChangesState(items))
    ensures CanOpen(st, d) && CanSet(AfterOpen(st, d)) && CanClose(AfterSet(AfterOpen(st, d), value))
    ensures st.JsonState? ==> AfterClose(AfterSet(AfterOpen(st, d), value)) == ChangesState(items + [Str(value)])
    ensures st.MdState? ==> AfterClose(AfterSet(AfterOpen(st, d), value)) == MdState(st.result + "- " + value + "\n", "")
  {
    if st.JsonState? {
      DescriptionIntoArray(st.results, "changes", items, value);
    }
  }

  /** The change closed after both descriptions: the result each format gives. */
  lemma ChangesClosed(st: SinkState)
    requires st == ChangesState([] + [Str("foo")] + [Str("bar")]) || st == MdState("" + "- " + "foo" + "\n" + "- " + "bar" + "\n", "")
    ensures CanClose(st)
    ensures st.JsonState? ==> ResultOf(AfterClose(st)) == Marshalled(Obj(map["changes" := Arr([Str("foo"), Str("bar")])]))
    ensures st.MdState? ==> ResultOf(AfterClose(st)) == Raw("- foo\n- bar")
  {
    if st.MdState? {
      assert st.result == "- foo\n- bar\n";
    } else {
      assert [] + [Str("foo")] + [Str("bar")] == [Str("foo"), Str("bar")];
    }
  }

  /** A change description opened, set to `value` and closed. */
  method WriteDescription(s: Sink, d: Heading, value: string)
    requires d.Kind() == Headings.ChangeDescription
    requires CanClose(AfterSet(AfterOpen(StateOf(s), d), value))
    modifies s.Target()
    ensures StateOf(s) == AfterClose(AfterSet(AfterOpen(old(StateOf(s)), d), value))
  {
    Open(s, d);
    Set(s, value);
    Close(s, d);
  }

  /** A described value under a frame whose array field is `items` is appended to it. */
  lemma DescriptionIntoArray(rs: seq<Frame>, name: string, items: seq<Value>, value: string)
    requires rs == [Frame(Obj(map[name := Arr(items)]), name, Headings.ChangeHeading)]
    ensures Closed(SetValue(Opened(rs, Headings.ChangeDescription), value), false)
            == [Frame(Obj(map[name := Arr(items + [Str(value)])]), name, Headings.ChangeHeading)]
  {
    var o := SetValue(Opened(rs, Headings.ChangeDescription), value);
    assert o == rs + [Frame(Str(value), "", Headings.ChangeDescription)];
    assert o[..1] == rs;
    var m := map[name := Arr(items)];
    assert ArrayField(m, name) == items;
    assert m[name := Arr(items + [Str(value)])] == map[name := Arr(items + [Str(value)])];
  }
}
