/**
 * The traversal state of a changelog (`internal/changelog/changelog.go`):
 * the open headings, one per depth, and the listeners told as sections are
 * entered and left.
 *
 * Listeners are Go interface values called for their effect. Here a
 * listener is an identity, and the changelog keeps `notifications`, the
 * calls made so far, in order: which listener was called, with `Enter` or
 * `Exit`, and on which heading. What a listener does with a call is its own
 * business (the recorder of `Recorder` is one).
 */
module Changelog {
  import opened Wrappers
  import opened Errors
  import Headings
  import opened HeadingsFactory
  import opened Sequences

  /** The identity of one registered listener. */
  type ListenerId = nat

  /** One `Listener` method call. */
  datatype Event = Enter(heading: Heading) | Exit(heading: Heading)

  /** `Enter(h)` or `Exit(h)` called on listener `listener`. */
  datatype Notification = Notification(listener: ListenerId, event: Event)

  /** One event told to every listener, in registration order. */
  function Deliver(ls: seq<ListenerId>, e: Event): (r: seq<Notification>)
    ensures |r| == |ls|
    ensures forall i :: 0 <= i < |ls| ==> r[i] == Notification(ls[i], e)
  {
    if |ls| == 0 then [] else [Notification(ls[0], e)] + Deliver(ls[1..], e)
  }

  /** Events told one after the other, each to every listener. */
  function Fanout(ls: seq<ListenerId>, evs: seq<Event>): seq<Notification> {
    if |evs| == 0 then [] else Deliver(ls, evs[0]) + Fanout(ls, evs[1..])
  }

  lemma {:induction false} FanoutSnoc(ls: seq<ListenerId>, evs: seq<Event>, e: Event)
    ensures Fanout(ls, evs + [e]) == Fanout(ls, evs) + Deliver(ls, e)
    decreases |evs|
  {
    if |evs| == 0 {
      assert evs + [e] == [e];
      assert Fanout(ls, [e]) == Deliver(ls, e) + Fanout(ls, []);
    } else {
      assert (evs + [e])[1..] == evs[1..] + [e];
      FanoutSnoc(ls, evs[1..], e);
    }
  }

  lemma {:induction false} FanoutConcat(ls: seq<ListenerId>, a: seq<Event>, b: seq<Event>)
    ensures Fanout(ls, a + b) == Fanout(ls, a) + Fanout(ls, b)
    decreases |a|
  {
    if |a| == 0 {
      EmptyConcat(a, b);
    } else {
      ConsConcat(a, b);
      FanoutConcat(ls, a[1..], b);
      Associative(Deliver(ls, a[0]), Fanout(ls, a[1..]), Fanout(ls, b));
    }
  }

  /**
   * The `Exit` calls for the open headings at index `k` and above, deepest
   * first: what `Section` sends before truncating to `k` and `Close` sends
   * for `k == 0`.
   */
  function ExitsFrom(hs: seq<Heading>, k: nat): (r: seq<Event>)
    requires k <= |hs|
    ensures |r| == |hs| - k
    ensures forall i :: 0 <= i < |r| ==> r[i] == Exit(hs[|hs| - 1 - i])
    decreases |hs| - k
  {
    if k == |hs| then [] else ExitsFrom(hs, k + 1) + [Exit(hs[k])]
  }

  /** One more `Exit` told to every listener extends the exits sent so far by one level. */
  lemma ExitStep(ls: seq<ListenerId>, hs: seq<Heading>, i: nat, ns0: seq<Notification>,
                 ns1: seq<Notification>, ns2: seq<Notification>)
    requires i < |hs|
    requires ns1 == ns0 + Fanout(ls, ExitsFrom(hs, i + 1))
    requires ns2 == ns1 + Deliver(ls, Exit(hs[i]))
    ensures ns2 == ns0 + Fanout(ls, ExitsFrom(hs, i))
  {
    var exits := ExitsFrom(hs, i + 1);
    FanoutSnoc(ls, exits, Exit(hs[i]));
    Associative(ns0, Fanout(ls, exits), Deliver(ls, Exit(hs[i])));
  }

  /** The notifications addressed to listener `l`, in the order they were made. */
  function Received(ns: seq<Notification>, l: ListenerId): seq<Event> {
    if |ns| == 0 then []
    else (if ns[0].listener == l then [ns[0].event] else []) + Received(ns[1..], l)
  }

  lemma {:induction false} ReceivedConcat(a: seq<Notification>, b: seq<Notification>, l: ListenerId)
    ensures Received(a + b, l) == Received(a, l) + Received(b, l)
    decreases |a|
  {
    if |a| == 0 {
      EmptyConcat(a, b);
    } else {
      ConsConcat(a, b);
      ReceivedConcat(a[1..], b, l);
      Associative(if a[0].listener == l then [a[0].event] else [], Received(a[1..], l), Received(b, l));
    }
  }

  lemma {:induction false} ReceivedDeliver(ls: seq<ListenerId>, e: Event, l: ListenerId)
    requires multiset(ls)[l] == 1
    ensures Received(Deliver(ls, e), l) == [e]
    decreases |ls|
  {
    assert ls == [ls[0]] + ls[1..];
    assert multiset(ls) == multiset{ls[0]} + multiset(ls[1..]);
    if ls[0] == l {
      AbsentReceivesNothing(ls[1..], e, l);
    } else {
      ReceivedDeliver(ls[1..], e, l);
    }
  }

  lemma {:induction false} AbsentReceivesNothing(ls: seq<ListenerId>, e: Event, l: ListenerId)
    requires l !in ls
    ensures Received(Deliver(ls, e), l) == []
    decreases |ls|
  {
    if |ls| > 0 {
      assert ls[1..][..] == ls[1..];
      AbsentReceivesNothing(ls[1..], e, l);
    }
  }

  /**
   * Every listener registered once receives every event, in the order the
   * changelog sends them: fan-out neither drops, repeats nor reorders.
   */
  lemma {:induction false} FanoutReceived(ls: seq<ListenerId>, evs: seq<Event>, l: ListenerId)
    requires multiset(ls)[l] == 1
    ensures Received(Fanout(ls, evs), l) == evs
    decreases |evs|
  {
    if |evs| > 0 {
      ReceivedConcat(Deliver(ls, evs[0]), Fanout(ls, evs[1..]), l);
      ReceivedDeliver(ls, evs[0], l);
      FanoutReceived(ls, evs[1..], l);
      assert evs == [evs[0]] + evs[1..];
    }
  }

  /**
   * What a listener can make of the calls it receives: `Enter` opens a
   * heading, `Exit` closes the innermost one, which must be the heading
   * named. `None` when an `Exit` names any other heading.
   */
  function Replay(hs: seq<Heading>, evs: seq<Event>): Option<seq<Heading>>
    decreases |evs|
  {
    if |evs| == 0 then Some(hs)
    else match evs[0]
      case Enter(h) => Replay(hs + [h], evs[1..])
      case Exit(h) =>
        if |hs| > 0 && hs[|hs| - 1] == h then Replay(hs[..|hs| - 1], evs[1..]) else None
  }

  lemma {:induction false} ReplayExits(hs: seq<Heading>, k: nat, tail: seq<Event>)
    requires k <= |hs|
    ensures Replay(hs, ExitsFrom(hs, k) + tail) == Replay(hs[..k], tail)
    decreases |hs| - k
  {
    if k == |hs| {
      assert ExitsFrom(hs, k) + tail == tail;
      assert hs[..k] == hs;
    } else {
      var rest := [Exit(hs[k])] + tail;
      assert ExitsFrom(hs, k) + tail == ExitsFrom(hs, k + 1) + rest;
      ReplayExits(hs, k + 1, rest);
      assert hs[..k + 1][..k] == hs[..k];
    }
  }

  /**
   * The calls `Section` makes take a listener that follows them from the old
   * open headings to the new ones: listeners see the same path as the changelog.
   */
  lemma SectionReplay(hs: seq<Heading>, k: nat, h: Heading)
    requires k <= |hs|
    ensures Replay(hs, ExitsFrom(hs, k) + [Enter(h)]) == Some(hs[..k] + [h])
  {
    ReplayExits(hs, k, [Enter(h)]);
    assert [Enter(h)][1..] == [];
  }

  /** The calls `Close` makes leave a listener following them with nothing open. */
  lemma CloseReplay(hs: seq<Heading>)
    ensures Replay(hs, ExitsFrom(hs, 0)) == Some([])
  {
    ReplayExits(hs, 0, []);
    assert ExitsFrom(hs, 0) + [] == ExitsFrom(hs, 0);
  }

  /** The `String` of a list of headings: their path segments, outermost first. */
  function PathOf(hs: seq<Heading>): string {
    if |hs| == 0 then "" else PathOf(hs[..|hs| - 1]) + hs[|hs| - 1].String()
  }

  /** The path of a changelog begins with the path of any of its ancestors. */
  lemma {:induction false} PathOfPrefix(hs: seq<Heading>, k: nat)
    requires k <= |hs|
    ensures |PathOf(hs[..k])| <= |PathOf(hs)| && PathOf(hs)[..|PathOf(hs[..k])|] == PathOf(hs[..k])
    decreases |hs|
  {
    if k == |hs| {
      assert hs[..k] == hs;
    } else {
      var p := hs[..|hs| - 1];
      PathOfPrefix(p, k);
      assert p[..k] == hs[..k];
      var a, b := PathOf(p), hs[|hs| - 1].String();
      assert PathOf(hs) == a + b;
      assert (a + b)[..|a|] == a;
    }
  }

  /** A path segment per open heading: every segment is at least "{}". */
  lemma {:induction false} PathOfLength(hs: seq<Heading>)
    ensures |PathOf(hs)| >= 2 * |hs|
    decreases |hs|
  {
    if |hs| > 0 {
      PathOfLength(hs[..|hs| - 1]);
    }
  }

  /** Every open heading sits at the index its kind names. */
  predicate KindIndexed(hs: seq<Heading>) {
    forall i :: 0 <= i < |hs| ==> hs[i].Kind() as int == i
  }

  /** Truncating to depth `k` and opening a heading of kind `k` keeps the headings kind-indexed. */
  lemma KindIndexedAfter(hs: seq<Heading>, k: nat, h: Heading)
    requires k <= |hs| && h.Kind() as int == k
    ensures KindIndexed(hs) ==> KindIndexed(hs[..k] + [h])
  {
  }

  /** What `Section(kind, title)` returns when `hs` are open. */
  function SectionResult(f: HeadingsFactory, hs: seq<Heading>, kind: Headings.HeadingKind, title: string): (r: Result<Heading, Error>)
    ensures r.Ok? ==> 0 <= kind as int <= |hs| && r == f.NewHeading(kind, title)
  {
    if kind as int > |hs| then Err(RollBack(|hs|, kind as int)) else f.NewHeading(kind, title)
  }

  /**
   * The effect of `Section(kind, title)` on the open headings and on the
   * calls made, from `hs0`/`ns0` to `hs1`/`ns1`: none on failure; otherwise
   * the list is truncated to `kind` and the new heading added, and the exits
   * and the entry are told to every listener.
   */
  ghost predicate SectionEffect(ls: seq<ListenerId>, kind: Headings.HeadingKind, r: Result<Heading, Error>,
                                hs0: seq<Heading>, ns0: seq<Notification>, hs1: seq<Heading>, ns1: seq<Notification>)
  {
    if r.Err? then hs1 == hs0 && ns1 == ns0
    else
      && 0 <= kind as int <= |hs0|
      && hs1 == hs0[..kind] + [r.value]
      && ns1 == ns0 + Fanout(ls, ExitsFrom(hs0, kind as nat) + [Enter(r.value)])
  }

  /** `Changelog`: the headings currently open and the registered listeners. */
  class Changelog {
    var headingsFactory: HeadingsFactory
    var headings: seq<Heading>
    var listeners: seq<ListenerId>
    /** The listener calls made so far. */
    var notifications: seq<Notification>

    /** The open heading at index `i` is a section of depth `i`. */
    predicate Valid()
      reads this
    {
      KindIndexed(headings)
    }

    /** `NewChangelog`: nothing open, no listener. */
    constructor (headingsFactory: HeadingsFactory)
      ensures this.headingsFactory == headingsFactory
      ensures headings == [] && listeners == [] && notifications == []
      ensures Valid()
    {
      this.headingsFactory := headingsFactory;
      headings := [];
      listeners := [];
      notifications := [];
    }

    /** `Listener`: registers `ls` after those already registered. */
    method Listener(ls: seq<ListenerId>)
      modifies this
      ensures listeners == old(listeners) + ls
      ensures headingsFactory == old(headingsFactory) && headings == old(headings)
      ensures notifications == old(notifications)
    {
      listeners := listeners + ls;
    }

    /** `Introduction`: in the introduction, that is, at depth one. */
    function Introduction(): (r: bool)
      reads this
      ensures r ==> |headings| > 0
      ensures Valid() ==> (r <==> |headings| == 1)
    {
      |headings| > 0 && headings[|headings| - 1].Kind() == Headings.IntroductionHeading
    }

    /** `Release`: in a release section, that is, at depth two. */
    function Release(): (r: bool)
      reads this
      ensures r ==> |headings| > 0
      ensures Valid() ==> (r <==> |headings| == 2)
    {
      |headings| > 0 && headings[|headings| - 1].Kind() == Headings.ReleaseHeading
    }

    /** `Change`: in a change section or on one of its descriptions, at depth three or four. */
    function Change(): (r: bool)
      reads this
      ensures r ==> |headings| > 0
      ensures Valid() ==> (r <==> |headings| == 3 || |headings| == 4)
    {
      |headings| > 0
      && (headings[|headings| - 1].Kind() == Headings.ChangeHeading
          || headings[|headings| - 1].Kind() == Headings.ChangeDescription)
    }

    /** Tells every listener, in registration order, about one event. */
    method Notify(e: Event)
      modifies this
      ensures notifications == old(notifications) + Deliver(listeners, e)
      ensures headingsFactory == old(headingsFactory) && headings == old(headings) && listeners == old(listeners)
    {
      var j := 0;
      while j < |listeners|
        invariant 0 <= j <= |listeners|
        invariant notifications == old(notifications) + Deliver(listeners, e)[..j]
        invariant headingsFactory == old(headingsFactory) && headings == old(headings) && listeners == old(listeners)
      {
        TakeSnoc(Deliver(listeners, e), j);
        Associative(old(notifications), Deliver(listeners, e)[..j], [Notification(listeners[j], e)]);
        notifications := notifications + [Notification(listeners[j], e)];
        j := j + 1;
      }
      assert Deliver(listeners, e)[..j] == Deliver(listeners, e);
    }

    /** Sends `Exit` for the open headings from the deepest down to index `k`. */
    method ExitDownTo(k: nat)
      requires k <= |headings|
      modifies this
      ensures headingsFactory == old(headingsFactory) && headings == old(headings) && listeners == old(listeners)
      ensures notifications == old(notifications) + Fanout(listeners, ExitsFrom(headings, k))
    {
      var i := |headings| - 1;
      while i >= k
        invariant k - 1 <= i < |headings|
        invariant notifications == old(notifications) + Fanout(listeners, ExitsFrom(headings, i + 1))
        invariant headingsFactory == old(headingsFactory) && headings == old(headings) && listeners == old(listeners)
        decreases i
      {
        ghost var before := notifications;
        Notify(Exit(headings[i]));
        ExitStep(listeners, headings, i, old(notifications), before, notifications);
        i := i - 1;
      }
    }

    /** `Close`: `Exit` for every open heading, deepest first; the headings stay open. */
    method Close()
      modifies this
      ensures headingsFactory == old(headingsFactory) && headings == old(headings) && listeners == old(listeners)
      ensures notifications == old(notifications) + Fanout(listeners, ExitsFrom(headings, 0))
    {
      ExitDownTo(0);
    }

    /**
     * `Section`: moves to a new section of depth `kind`. Going deeper than one
     * level below the current depth is refused, and so is a heading the
     * factory will not build; both leave everything as it was. Otherwise the
     * headings at `kind` and deeper are left (deepest first), the new heading
     * takes their place, and it is entered.
     */
    method Section(kind: Headings.HeadingKind, title: string) returns (r: Result<Heading, Error>)
      modifies this
      ensures headingsFactory == old(headingsFactory) && listeners == old(listeners)
      ensures r == SectionResult(headingsFactory, old(headings), kind, title)
      ensures SectionEffect(listeners, kind, r, old(headings), old(notifications), headings, notifications)
      ensures old(Valid()) ==> Valid()
    {
      r := SectionResult(headingsFactory, headings, kind, title);
      if r.Err? {
        return r;
      }
      var h := r.value;
      ghost var hs0, ns0 := headings, notifications;
      ghost var exits := ExitsFrom(hs0, kind as nat);
      ExitDownTo(kind as nat);
      ghost var ns1 := notifications;
      KindIndexedAfter(headings, kind as nat, h);
      headings := headings[..kind] + [h];
      Notify(Enter(h));
      FanoutSnoc(listeners, exits, Enter(h));
      Associative(ns0, Fanout(listeners, exits), Deliver(listeners, Enter(h)));
    }

    /** `String`: the path of the open headings, outermost first. */
    method String() returns (path: string)
      ensures path == PathOf(headings)
    {
      path := "";
      var i := 0;
      while i < |headings|
        invariant 0 <= i <= |headings|
        invariant path == PathOf(headings[..i])
      {
        assert headings[..i + 1][..i] == headings[..i];
        path := path + headings[i].String();
        i := i + 1;
      }
      assert headings[..i] == headings;
    }
  }
}
