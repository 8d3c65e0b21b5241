/**
 * The listener that writes down what it is told (`internal/changelog/recorder.go`),
 * one line per call, as `"Enter "` or `"Exit "` followed by the heading's path segment.
 */
module Recorder {
  import opened HeadingsFactory
  import opened Changelog
  import opened Sequences

  /** The line recorded for one call. */
  function Line(e: Event): (r: string)
    ensures e.Enter? ==> r == "Enter " + e.heading.String()
    ensures e.Exit? ==> r == "Exit " + e.heading.String()
  {
    match e
    case Enter(h) => "Enter " + h.String()
    case Exit(h) => "Exit " + h.String()
  }

  /** The lines recorded for a series of calls, in order. */
  function Log(evs: seq<Event>): seq<string> {
    Map(Line, evs)
  }

  /** A line tells which method was called and the path segment of its heading. */
  lemma LineDecodes(e1: Event, e2: Event)
    requires Line(e1) == Line(e2)
    ensures e1.Enter? == e2.Enter?
    ensures e1.heading.String() == e2.heading.String()
  {
    var l := Line(e1);
    assert l[1] == (if e1.Enter? then 'n' else 'x');
    assert l[1] == (if e2.Enter? then 'n' else 'x');
    var n := if e1.Enter? then 6 else 5;
    assert l[n..] == e1.heading.String();
    assert l[n..] == e2.heading.String();
  }

  lemma LogConcat(a: seq<Event>, b: seq<Event>)
    ensures Log(a + b) == Log(a) + Log(b)
  {
    MapConcat(Line, a, b);
  }

  /** `recorder`: the lines written so far. */
  class Recorder {
    var events: seq<string>

    /** `recorder{}`: nothing recorded yet. */
    constructor ()
      ensures events == []
    {
      events := [];
    }

    /** `Enter`: adds one line; the earlier lines stay as they were. */
    method Enter(h: Heading)
      modifies this
      ensures events == old(events) + [Line(Event.Enter(h))]
    {
      events := events + ["Enter " + h.String()];
    }

    /** `Exit`: adds one line; the earlier lines stay as they were. */
    method Exit(h: Heading)
      modifies this
      ensures events == old(events) + [Line(Event.Exit(h))]
    {
      events := events + ["Exit " + h.String()];
    }

    /** The `Listener` call that `e` stands for. */
    method Receive(e: Event)
      modifies this
      ensures events == old(events) + [Line(e)]
    {
      match e
      case Enter(h) => Enter(h);
      case Exit(h) => Exit(h);
    }

    /** Receives a series of calls, one after the other. */
    method ReceiveAll(evs: seq<Event>)
      modifies this
      ensures events == old(events) + Log(evs)
    {
      var i := 0;
      while i < |evs|
        invariant 0 <= i <= |evs|
        invariant events == old(events) + Log(evs[..i])
      {
        LogConcat(evs[..i], [evs[i]]);
        assert evs[..i + 1] == evs[..i] + [evs[i]];
        Receive(evs[i]);
        i := i + 1;
      }
      assert evs[..i] == evs;
    }
  }

  /**
   * Going back to depth zero from three open headings records three exits,
   * deepest first, then the entry of the new heading.
   */
  lemma ResetToIntroductionLog(a: Heading, b: Heading, c: Heading, h: Heading)
    ensures Log(ExitsFrom([a, b, c], 0) + [Event.Enter(h)])
            == ["Exit " + c.String(), "Exit " + b.String(), "Exit " + a.String(), "Enter " + h.String()]
  {
    var ex := ExitsFrom([a, b, c], 0);
    var evs := ex + [Event.Enter(h)];
    assert evs[0] == Event.Exit(c) && evs[1] == Event.Exit(b) && evs[2] == Event.Exit(a) && evs[3] == Event.Enter(h);
    FourElements(evs);
    LogOfFour(evs[0], evs[1], evs[2], evs[3]);
  }

  lemma LogOfFour(e0: Event, e1: Event, e2: Event, e3: Event)
    ensures Log([e0, e1, e2, e3]) == [Line(e0), Line(e1), Line(e2), Line(e3)]
  {
  }

  /** Going back to depth one from three open headings leaves the first one open. */
  lemma ResetToReleaseLog(a: Heading, b: Heading, c: Heading, h: Heading)
    ensures Log(ExitsFrom([a, b, c], 1) + [Event.Enter(h)])
            == ["Exit " + c.String(), "Exit " + b.String(), "Enter " + h.String()]
  {
    var evs := ExitsFrom([a, b, c], 1) + [Event.Enter(h)];
    assert evs == [Event.Exit(c), Event.Exit(b), Event.Enter(h)];
  }
}
