/**
 * The registry of change kinds (`internal/changelog/changeKind.go`): which
 * level-3 headings a changelog may use, the semantic-version increment each
 * one calls for, and the emoji shown with it.
 */
module ChangeKind {
  import opened Wrappers
  import opened Errors
  import opened Strings
  import opened SemverIdentifier
  import opened ChangeMap

  /** What the registry records for one change kind. */
  datatype Entry = Entry(semver: Identifier, emoji: string)

  type Table = map<string, Entry>

  /** `newChangeKind`: the built-in kinds of Keep a Changelog, without emoji. */
  const DefaultTable: Table := map[
    "Added" := Entry(Major, ""), "Removed" := Entry(Major, ""),
    "Changed" := Entry(Minor, ""), "Deprecated" := Entry(Minor, ""),
    "Fixed" := Entry(Patch, ""), "Security" := Entry(Patch, "")]

  /** Every increment in the table is one of the five identifiers. */
  ghost predicate WellFormed(t: Table) {
    forall k :: k in t ==> Defined(t[k].semver)
  }

  /** `IsSupported`: a title is a change kind exactly when it is a key, compared case-sensitively. */
  function IsSupported(t: Table, title: string): (r: Option<Error>)
    ensures r.None? <==> title in t
    ensures r.Some? ==> r.value == UnknownChangeHeading(title)
  {
    if title in t then None else Some(UnknownChangeHeading(title))
  }

  /** `emojiFor`: the emoji registered for a title; fails exactly as `IsSupported` does. */
  function EmojiFor(t: Table, title: string): (r: Result<string, Error>)
    ensures r.Ok? <==> IsSupported(t, title).None?
    ensures r.Ok? ==> r.value == t[title].emoji
    ensures r.Err? ==> Some(r.error) == IsSupported(t, title)
  {
    if title in t then Ok(t[title].emoji) else Err(UnknownChangeHeading(title))
  }

  /** The change kinds registered at one increment. */
  function KeysWith(t: Table, kind: Identifier): (r: set<string>)
    ensures forall k :: k in r <==> k in t && t[k].semver == kind
  {
    set k | k in t && t[k].semver == kind
  }

  /** The change kinds whose increment is one of the five identifiers. */
  function DefinedKeys(t: Table): (r: set<string>)
    ensures WellFormed(t) ==> r == t.Keys
  {
    set k | k in t && Defined(t[k].semver)
  }

  /**
   * What `IncrementFor` promises: `inc` is the most severe (smallest)
   * increment among the registered kinds present in `c`, or `Build` when none
   * is; `trigger` is a present kind with that increment, or "" for `Build`.
   * Keys of `c` that are not registered play no part.
   */
  ghost predicate IsIncrementFor(t: Table, c: ChangeMap, inc: Identifier, trigger: string) {
    && inc <= Build
    && (forall k :: k in c && k in t ==> inc <= t[k].semver)
    && (inc < Build ==> trigger in c && trigger in t && t[trigger].semver == inc)
    && (inc == Build ==> trigger == "")
  }

  /** The increment is determined by the registry and the changes; only the trigger may vary with map order. */
  lemma IncrementUnique(t: Table, c: ChangeMap, inc1: Identifier, trigger1: string, inc2: Identifier, trigger2: string)
    requires IsIncrementFor(t, c, inc1, trigger1)
    requires IsIncrementFor(t, c, inc2, trigger2)
    ensures inc1 == inc2
  {
    if inc1 < Build {
      assert inc2 <= t[trigger1].semver;
    }
    if inc2 < Build {
      assert inc1 <= t[trigger2].semver;
    }
  }

  /** The entry a successful three-argument `add` stores; an unnamed entry is refused. */
  function AddEntry(t: Table, name: string, increment: Identifier, emoji: string): (r: Result<Table, Error>)
    ensures r.Ok? <==> name != ""
    ensures r.Ok? ==> r.value == t[name := Entry(increment, emoji)]
    ensures r.Err? ==> r.error == EmptyEntryName
  {
    if name == "" then Err(EmptyEntryName) else Ok(t[name := Entry(increment, emoji)])
  }

  /** `ChangeKind`: the registry object, shared by reference between the factory and the validator. */
  class ChangeKind {
    var changes: Table

    /** `newChangeKind`. */
    constructor Default()
      ensures changes == DefaultTable
    {
      changes := DefaultTable;
    }

    /** `&ChangeKind{changes: make(...)}`, the target a file is loaded into. */
    constructor Empty()
      ensures changes == map[]
    {
      changes := map[];
    }

    /** `IncrementFor`: one pass over the changes, keeping the most severe registered increment. */
    method IncrementFor(c: ChangeMap) returns (increment: Identifier, trigger: string)
      ensures IsIncrementFor(changes, c, increment, trigger)
    {
      increment := Build;
      trigger := "";
      var remaining := c.Keys;
      while remaining != {}
        invariant remaining <= c.Keys
        invariant increment <= Build
        invariant forall k :: k in c && k !in remaining && k in changes ==> increment <= changes[k].semver
        invariant increment < Build ==> trigger in c && trigger in changes && changes[trigger].semver == increment
        invariant increment == Build ==> trigger == ""
        decreases remaining
      {
        var k :| k in remaining;
        if k in changes && changes[k].semver < increment {
          increment := changes[k].semver;
          trigger := k;
        }
        remaining := remaining - {k};
      }
    }

    /** The two-argument `add`: sets `name` to `increment`, an entry without emoji; nothing else changes. */
    method Add(name: string, increment: Identifier)
      modifies this
      ensures changes == old(changes)[name := Entry(increment, "")]
    {
      changes := changes[name := Entry(increment, "")];
    }

    /** The three-argument `add` the loader calls; on failure the registry is unchanged. */
    method AddChecked(name: string, increment: Identifier, emoji: string) returns (err: Option<Error>)
      modifies this
      ensures var r := AddEntry(old(changes), name, increment, emoji);
              if r.Ok? then err.None? && changes == r.value else err == Some(r.error) && changes == old(changes)
    {
      if name == "" {
        return Some(EmptyEntryName);
      }
      changes := changes[name := Entry(increment, emoji)];
      err := None;
    }

    /** `keysFor`: the kinds registered at `kind`, each once, in map order. */
    method KeysFor(kind: Identifier) returns (result: seq<string>)
      ensures Distinct(result)
      ensures forall k :: k in result <==> k in KeysWith(changes, kind)
    {
      result := [];
      var remaining := changes.Keys;
      while remaining != {}
        invariant remaining <= changes.Keys
        invariant Distinct(result)
        invariant forall k :: k in result <==> k in changes && k !in remaining && changes[k].semver == kind
        decreases remaining
      {
        var k :| k in remaining;
        if changes[k].semver == kind {
          DistinctConcat(result, [k]);
          result := result + [k];
        }
        remaining := remaining - {k};
      }
    }

    /** `keysOf`: every kind once, gathered identifier by identifier, sorted ascending and joined by ", ". */
    method KeysOf() returns (r: string)
      ensures r == Join(SortedKeys(DefinedKeys(changes)), ", ")
    {
      var result: seq<string> := [];
      var i := StartOfEnum;
      while i < EndOfEnum
        invariant StartOfEnum <= i <= EndOfEnum
        invariant Distinct(result)
        invariant forall k :: k in result <==> k in changes && StartOfEnum <= changes[k].semver < i
      {
        var ks := KeysFor(i);
        DistinctConcat(result, ks);
        result := result + ks;
        i := i + 1;
      }
      var sorted := Sort(result);
      SortDistinct(result);
      assert forall k :: k in sorted <==> k in multiset(result);
      SortedUnique(sorted, SortedKeys(DefinedKeys(changes)));
      r := Join(sorted, ", ");
    }
  }

  /** The kinds of the default registry in ascending order. */
  const DefaultListing: seq<string> := ["Added", "Changed", "Deprecated", "Fixed", "Removed", "Security"]

  /** The default registry lists its kinds as the error message for an unknown heading shows them. */
  lemma DefaultKeysOf()
    ensures SortedKeys(DefinedKeys(DefaultTable)) == DefaultListing
  {
    DefaultListingSorted();
    DefaultListingKeys();
    SortedUnique(DefaultListing, SortedKeys(DefinedKeys(DefaultTable)));
  }

  lemma DefaultListingSorted()
    ensures Sorted(DefaultListing) && Distinct(DefaultListing)
  {
    var s := DefaultListing;
    assert s[0][0] == 'A' && s[1][0] == 'C' && s[2][0] == 'D' && s[3][0] == 'F' && s[4][0] == 'R' && s[5][0] == 'S';
    SortedByFirstChar(s);
  }

  lemma DefaultListingKeys()
    ensures forall x :: x in DefaultListing <==> x in DefinedKeys(DefaultTable)
  {
    assert WellFormed(DefaultTable);
    assert DefinedKeys(DefaultTable) == DefaultTable.Keys;
  }
}
