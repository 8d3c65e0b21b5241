/**
 * The query segment parser (`internal/query/parser.go`). A segment is a
 * name, optionally followed by a bracketed selector (`name[]`, `name[N]`),
 * and optionally ending in `/` to ask for recursion. A configuration lists
 * the names a node accepts, and whether each is a scalar.
 */
module QueryParser {
  import opened Wrappers
  import opened Errors
  import opened Strings
  import opened QueryOutputFormat

  /** What `parseName` finds in one segment. */
  datatype ParsedName = ParsedName(name: string, selector: string, isScalar: bool, isRecursive: bool)

  /**
   * `parseName`: the text before the first '[' and between it and the first
   * ']' when there is a '['; the whole segment when there are no brackets.
   */
  function ParseName(element: string): (r: Result<ParsedName, Error>)
    ensures r.Ok? ==> r.value.isRecursive == HasSuffix(element, "/")
    ensures r.Ok? && r.value.isScalar ==>
              r.value.name == element && r.value.selector == "" && '[' !in element && ']' !in element
    ensures r.Ok? && !r.value.isScalar ==>
              && '[' !in r.value.name && ']' !in r.value.name && ']' !in r.value.selector
              && r.value.name + "[" + r.value.selector + "]" <= element
    ensures '[' in element && (']' !in element || IndexOf(element, ']') < IndexOf(element, '[')) <==>
              r == Err(MissingClosingBracket(element))
    ensures '[' !in element && ']' in element <==> r == Err(MissingOpeningBracket(element))
    ensures '[' !in element && ']' !in element && HasSuffix(element, "/") <==> r == Err(ScalarRecursion(element))
  {
    var isRecursive := HasSuffix(element, "/");
    var open := IndexOf(element, '[');
    var close := IndexOf(element, ']');
    if open != -1 then
      if close < open then Err(MissingClosingBracket(element))
      else Ok(Bracketed(element, open, close, isRecursive))
    else if close != -1 then Err(MissingOpeningBracket(element))
    else if isRecursive then Err(ScalarRecursion(element))
    else Ok(ParsedName(element, "", true, false))
  }

  /** The collection read from `element` whose first '[' is at `open` and first ']' at `close`. */
  function Bracketed(element: string, open: nat, close: nat, isRecursive: bool): (p: ParsedName)
    requires open < close < |element| && element[open] == '[' && element[close] == ']'
    requires '[' !in element[..open] && ']' !in element[..close]
    ensures !p.isScalar && p.isRecursive == isRecursive
    ensures '[' !in p.name && ']' !in p.name && ']' !in p.selector
    ensures p.name + "[" + p.selector + "]" <= element
  {
    var name := element[..open];
    var selector := element[open + 1..close];
    assert element[..close + 1] == name + "[" + selector + "]";
    assert element[..close][..open] == name;
    ParsedName(name, selector, false, isRecursive)
  }

  /** A bare name without brackets or a trailing '/' is read back as that scalar. */
  lemma ScalarRoundTrip(name: string)
    requires '[' !in name && ']' !in name && !HasSuffix(name, "/")
    ensures ParseName(name) == Ok(ParsedName(name, "", true, false))
  {
  }

  /**
   * `name[selector]` followed by anything is read back as the collection
   * `name` with that selector; it is recursive when it ends in '/'.
   */
  lemma CollectionRoundTrip(name: string, selector: string, rest: string)
    requires '[' !in name && ']' !in name && ']' !in selector
    ensures ParseName(name + "[" + selector + "]" + rest)
            == Ok(ParsedName(name, selector, false, HasSuffix(name + "[" + selector + "]" + rest, "/")))
  {
    var e := name + "[" + selector + "]" + rest;
    var close := |name| + 1 + |selector|;
    BracketsOf(e, name, selector, rest, |name|, close);
    ParseNameAt(e, |name|, close);
    BracketedIs(e, |name|, close, HasSuffix(e, "/"), name, selector);
  }

  /** With the brackets found at `open` and `close`, the segment is read as a collection. */
  lemma ParseNameAt(e: string, open: nat, close: nat)
    requires IndexOf(e, '[') == open && IndexOf(e, ']') == close && open < close
    ensures open < close < |e| && e[open] == '[' && e[close] == ']'
    ensures '[' !in e[..open] && ']' !in e[..close]
    ensures ParseName(e) == Ok(Bracketed(e, open, close, HasSuffix(e, "/")))
  {
  }

  /** The collection read between the brackets is made of the name before them and the text between them. */
  lemma BracketedIs(e: string, open: nat, close: nat, isRecursive: bool, name: string, selector: string)
    requires open < close < |e| && e[open] == '[' && e[close] == ']'
    requires '[' !in e[..open] && ']' !in e[..close]
    requires e[..open] == name && e[open + 1..close] == selector
    ensures Bracketed(e, open, close, isRecursive) == ParsedName(name, selector, false, isRecursive)
  {
  }

  /** Where the brackets of `name[selector]rest` are, and what lies before and between them. */
  lemma BracketsOf(e: string, name: string, selector: string, rest: string, open: nat, close: nat)
    requires '[' !in name && ']' !in name && ']' !in selector
    requires e == name + "[" + selector + "]" + rest && open == |name| && close == open + 1 + |selector|
    ensures IndexOf(e, '[') == open && IndexOf(e, ']') == close
    ensures e[..open] == name && e[open + 1..close] == selector
  {
    assert e[..open] == name && e[open] == '[';
    assert forall i :: 0 <= i < open ==> e[i] == name[i];
    FirstIndex(e, '[', open);
    assert e[open + 1..close] == selector && e[close] == ']';
    assert forall i :: open < i < close ==> e[i] == selector[i - open - 1];
    FirstIndex(e, ']', close);
  }

  /** The position of the first `c` is `k` when `s[k]` is `c` and no `c` comes before it. */
  lemma FirstIndex(s: string, c: char, k: int)
    requires 0 <= k < |s| && s[k] == c && forall i :: 0 <= i < k ==> s[i] != c
    ensures IndexOf(s, c) == k
  {
  }

  /** `expectedElement`: whether the name is a scalar, its projections and its node factory. */
  datatype ExpectedElement<F> = ExpectedElement(isScalar: bool, enter: Option<Project>, exit: Option<Project>, queryFactory: F)

  /** `parserConfiguration`: the node's name, for error messages, and the names it accepts. */
  datatype ParserConfiguration<F> = ParserConfiguration(name: string, elements: map<string, ExpectedElement<F>>)

  /** `parsedElement`: what the next node factory is given. */
  datatype ParsedElement<F> = ParsedElement(selector: string, isRecursive: bool, queryFactory: F)

  /** The segment's shape agrees with the expected element's, and a scalar is the last segment. */
  predicate ShapeFits<F>(e: ExpectedElement<F>, p: ParsedName, count: nat) {
    if e.isScalar then p.isScalar && count == 1 else !p.isScalar
  }

  /**
   * `parseElement` on the first segment, with the number of segments left
   * (it must be called with at least one). A parse error is passed on as it
   * is; then the name must be known and the shape must fit.
   */
  function ParseElement<F>(config: ParserConfiguration<F>, queryElements: seq<string>): (r: Result<(ParsedElement<F>, Projections), Error>)
    requires |queryElements| > 0
    ensures ParseName(queryElements[0]).Err? ==> r == Err(ParseName(queryElements[0]).error)
    ensures r.Ok? <==>
              && ParseName(queryElements[0]).Ok?
              && ParseName(queryElements[0]).value.name in config.elements
              && ShapeFits(config.elements[ParseName(queryElements[0]).value.name], ParseName(queryElements[0]).value, |queryElements|)
    ensures ParseName(queryElements[0]).Ok? && ParseName(queryElements[0]).value.name !in config.elements ==>
              r == Err(AttributeNotRecognized(ParseName(queryElements[0]).value.name, config.name))
    ensures r.Ok? ==>
              var p := ParseName(queryElements[0]).value;
              var e := config.elements[p.name];
              && r.value.0 == ParsedElement(p.selector, p.isRecursive, e.queryFactory)
              && r.value.1.enter == e.enter && r.value.1.exit == e.exit
              && (r.value.1.collection <==> !p.isScalar && p.selector == "")
  {
    match ParseName(queryElements[0])
    case Err(e) => Err(e)
    case Ok(p) =>
      if p.name in config.elements then
        var e := config.elements[p.name];
        if e.isScalar && !p.isScalar then Err(ScalarAttribute(p.name))
        else if e.isScalar && |queryElements| != 1 then Err(NoFurtherElement(p.name))
        else if !e.isScalar && p.isScalar then Err(CollectionAttribute(p.name))
        else Ok((ParsedElement(p.selector, p.isRecursive, e.queryFactory), Projections(e.enter, e.exit, !p.isScalar && p.selector == "")))
      else Err(AttributeNotRecognized(p.name, config.name))
  }

  /** The three shape mismatches, each with its own error. */
  lemma ShapeErrors<F>(config: ParserConfiguration<F>, queryElements: seq<string>)
    requires |queryElements| > 0 && ParseName(queryElements[0]).Ok?
    requires ParseName(queryElements[0]).value.name in config.elements
    ensures var p := ParseName(queryElements[0]).value; var e := config.elements[p.name];
            && (e.isScalar && !p.isScalar ==> ParseElement(config, queryElements) == Err(ScalarAttribute(p.name)))
            && (e.isScalar && p.isScalar && |queryElements| > 1 ==> ParseElement(config, queryElements) == Err(NoFurtherElement(p.name)))
            && (!e.isScalar && p.isScalar ==> ParseElement(config, queryElements) == Err(CollectionAttribute(p.name)))
  {
  }

  /** `name[]` of a collection attribute selects every element: the projection is a collection. */
  lemma {:induction false} EmptySelectorIsCollection<F>(config: ParserConfiguration<F>, name: string, rest: seq<string>)
    requires '[' !in name && ']' !in name && name in config.elements && !config.elements[name].isScalar
    ensures var r := ParseElement(config, [name + "[]"] + rest);
            r.Ok? && r.value.1.collection && r.value.0.selector == "" && !r.value.0.isRecursive
  {
    CollectionRoundTrip(name, "", "");
    assert name + "[" + "" + "]" + "" == name + "[]";
    assert ([name + "[]"] + rest)[0] == name + "[]";
  }
}
