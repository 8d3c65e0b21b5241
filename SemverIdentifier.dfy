/**
 * The named parts of a semantic version (`internal/semver/Identifier.go`):
 * a Go `int` enumeration whose order is significance, major first.
 */
module SemverIdentifier {
  import opened Wrappers
  import opened Errors

  newtype Identifier = int

  const Major: Identifier := 0
  const Minor: Identifier := 1
  const Patch: Identifier := 2
  const Prerelease: Identifier := 3
  const Build: Identifier := 4
  /** One past the last identifier; also what a failed `NewIdentifier` returns. */
  const EndOfEnum: Identifier := 5
  const StartOfEnum: Identifier := Major

  predicate Defined(id: Identifier) {
    StartOfEnum <= id < EndOfEnum
  }

  /** `String`: the lower-case name; any other value panics in the source. */
  function String(id: Identifier): (r: string)
    requires Defined(id)
    ensures r in {"major", "minor", "patch", "prerelease", "build"}
  {
    if id == Major then "major"
    else if id == Minor then "minor"
    else if id == Patch then "patch"
    else if id == Prerelease then "prerelease"
    else "build"
  }

  /** `NewIdentifier`: only the exact lower-case names are accepted. */
  function NewIdentifier(name: string): (r: (Identifier, Option<Error>))
    ensures r.1.None? <==> name in {"major", "minor", "patch", "prerelease", "build"}
    ensures r.1.None? ==> Defined(r.0)
    ensures r.1.Some? ==> r.0 == EndOfEnum && r.1 == Some(InvalidIdentifier(name))
  {
    if name == "major" then (Major, None)
    else if name == "minor" then (Minor, None)
    else if name == "patch" then (Patch, None)
    else if name == "prerelease" then (Prerelease, None)
    else if name == "build" then (Build, None)
    else (EndOfEnum, Some(InvalidIdentifier(name)))
  }

  /** Names and identifiers correspond one to one. */
  lemma RoundTrip(id: Identifier, name: string)
    ensures Defined(id) ==> NewIdentifier(String(id)) == (id, None)
    ensures NewIdentifier(name).1.None? ==> String(NewIdentifier(name).0) == name
  {
  }

  /** The first failure of `f` over the identifiers in order, if any. */
  function FirstFailure(f: Identifier -> Option<Error>, from: Identifier): Option<Error>
    requires StartOfEnum <= from <= EndOfEnum
    decreases EndOfEnum - from
  {
    if from == EndOfEnum then None
    else if f(from).Some? then f(from)
    else FirstFailure(f, from + 1)
  }

  /** `ForEach`: calls `f` on every identifier, major first, stopping at the first error. */
  method ForEach(f: Identifier -> Option<Error>) returns (err: Option<Error>, ghost visited: seq<Identifier>)
    ensures err == FirstFailure(f, StartOfEnum)
    ensures err.None? <==> forall id :: Defined(id) ==> f(id).None?
    ensures err.Some? ==> |visited| > 0 && err == f(visited[|visited| - 1])
    ensures forall k :: 0 <= k < |visited| ==> visited[k] == k as Identifier
    ensures forall k :: 0 <= k < |visited| - 1 ==> f(visited[k]).None?
  {
    var i := StartOfEnum;
    visited := [];
    while i < EndOfEnum
      invariant StartOfEnum <= i <= EndOfEnum
      invariant |visited| == i as int
      invariant forall k :: 0 <= k < |visited| ==> visited[k] == k as Identifier
      invariant forall id :: StartOfEnum <= id < i ==> f(id).None?
      invariant FirstFailure(f, StartOfEnum) == FirstFailure(f, i)
    {
      visited := visited + [i];
      var e := f(i);
      if e.Some? {
        return e, visited;
      }
      i := i + 1;
    }
    err := None;
  }
}
