/**
 * Loading and saving the change-kind registry (`internal/changelog/changeKindJson.go`,
 * and `NewChangeKind` of `internal/changelog/changeKind.go`). The JSON text
 * itself is not modelled: the loader starts from the decoded document, the
 * saver stops at the list of records `json.Marshal` would print.
 */
module ChangeKindJson {
  import opened Wrappers
  import opened Errors
  import opened Strings
  import opened SemverIdentifier
  import opened ChangeKind
  import opened Sequences

  /** `ChangeKindDto`: one record; a field missing from the file decodes as "". */
  datatype Dto = Dto(name: string, increment: string, emoji: string)

  /** What `json.Unmarshal` makes of a registry file: a list of records, or anything else. */
  datatype Document = EntryList(entries: seq<Dto>) | NotAnEntryList

  function Names(dtos: seq<Dto>): (r: seq<string>)
    ensures |r| == |dtos| && forall i :: 0 <= i < |dtos| ==> r[i] == dtos[i].name
  {
    if |dtos| == 0 then [] else [dtos[0].name] + Names(dtos[1..])
  }

  /** A record the loader accepts: a name and one of the five increment names. */
  predicate Acceptable(d: Dto) {
    d.name != "" && NewIdentifier(d.increment).1.None?
  }

  /** The error a record the loader refuses is reported with. */
  function Refusal(d: Dto): (r: Error)
    requires !Acceptable(d)
    ensures NewIdentifier(d.increment).1.Some? ==> r == EntryParse(d.name, InvalidIdentifier(d.increment))
  {
    var (inc, err) := NewIdentifier(d.increment);
    if err.Some? then EntryParse(d.name, err.value) else EmptyEntryName
  }

  /**
   * The loop of `UnmarshalJSON`: records are added in list order; the first
   * failure stops the loop and is returned, with the records before it
   * already in the registry.
   */
  function Apply(t: Table, entries: seq<Dto>): (r: (Table, Option<Error>))
    decreases |entries|
  {
    if |entries| == 0 then (t, None)
    else
      var d := entries[0];
      var (inc, err) := NewIdentifier(d.increment);
      if err.Some? then (t, Some(EntryParse(d.name, err.value)))
      else
        match AddEntry(t, d.name, inc, d.emoji)
        case Err(e) => (t, Some(e))
        case Ok(t') => Apply(t', entries[1..])
  }

  /** `UnmarshalJSON` over a decoded document. */
  function Unmarshal(t: Table, doc: Document): (Table, Option<Error>) {
    match doc
    case NotAnEntryList => (t, Some(NotAList))
    case EntryList(entries) => Apply(t, entries)
  }

  /** Loading fails exactly when some record is refused, and then with the first refused record's error. */
  lemma {:induction false} ApplyOutcome(t: Table, entries: seq<Dto>)
    ensures Apply(t, entries).1.None? <==> forall i :: 0 <= i < |entries| ==> Acceptable(entries[i])
    ensures forall i :: 0 <= i < |entries| && !Acceptable(entries[i]) && (forall j :: 0 <= j < i ==> Acceptable(entries[j]))
              ==> Apply(t, entries).1 == Some(Refusal(entries[i]))
    decreases |entries|
  {
    if |entries| > 0 {
      var d := entries[0];
      if Acceptable(d) {
        var t' := t[d.name := Entry(NewIdentifier(d.increment).0, d.emoji)];
        ApplyOutcome(t', entries[1..]);
        assert Apply(t, entries) == Apply(t', entries[1..]);
        forall i | 1 <= i < |entries| ensures entries[1..][i - 1] == entries[i] {
        }
      }
    }
  }

  /** `dtos` is what `MarshalJSON` emits for `t`: one record per entry, with the increment's name and the emoji. */
  ghost predicate Describes(dtos: seq<Dto>, t: Table)
    requires WellFormed(t)
  {
    && Distinct(Names(dtos))
    && (forall k :: k in Names(dtos) <==> k in t)
    && Records(dtos, t)
  }

  /** Every record names an entry and carries that entry's increment name and emoji. */
  ghost predicate Records(dtos: seq<Dto>, t: Table)
    requires WellFormed(t)
  {
    forall i :: 0 <= i < |dtos| ==>
      (dtos[i].name in t && dtos[i].increment == String(t[dtos[i].name].semver) && dtos[i].emoji == t[dtos[i].name].emoji)
  }

  lemma RecordsSnoc(dtos: seq<Dto>, t: Table, name: string)
    requires WellFormed(t) && Records(dtos, t) && name in t
    ensures Records(dtos + [Dto(name, String(t[name].semver), t[name].emoji)], t)
  {
  }

  /** `MarshalJSON`: the records of every entry, sorted by name. */
  method MarshalJSON(ck: ChangeKind) returns (dtos: seq<Dto>)
    requires WellFormed(ck.changes)
    ensures Describes(dtos, ck.changes)
    ensures Names(dtos) == SortedKeys(ck.changes.Keys)
  {
    var sorted := SortedNames(ck.changes);
    dtos := [];
    var i := 0;
    while i < |sorted|
      invariant 0 <= i <= |sorted|
      invariant Names(dtos) == sorted[..i]
      invariant Records(dtos, ck.changes)
    {
      var e := ck.changes[sorted[i]];
      NamesSnoc(dtos, Dto(sorted[i], String(e.semver), e.emoji));
      RecordsSnoc(dtos, ck.changes, sorted[i]);
      dtos := dtos + [Dto(sorted[i], String(e.semver), e.emoji)];
      TakeSnoc(sorted, i);
      i := i + 1;
    }
    assert sorted[..i] == sorted;
  }

  /** The keys of the registry, sorted; `sort.Sort(ByName{...})` orders the records by these. */
  method SortedNames(t: Table) returns (sorted: seq<string>)
    ensures sorted == SortedKeys(t.Keys)
  {
    var names: seq<string> := [];
    var remaining := t.Keys;
    while remaining != {}
      invariant remaining <= t.Keys
      invariant Distinct(names)
      invariant forall k :: k in names <==> k in t && k !in remaining
      decreases remaining
    {
      var k :| k in remaining;
      DistinctConcat(names, [k]);
      names := names + [k];
      remaining := remaining - {k};
    }
    sorted := Sort(names);
    SortDistinct(names);
    assert forall k :: k in sorted <==> k in multiset(names);
    SortedUnique(sorted, SortedKeys(t.Keys));
  }

  lemma NamesSnoc(dtos: seq<Dto>, d: Dto)
    ensures Names(dtos + [d]) == Names(dtos) + [d.name]
  {
  }

  /** `UnmarshalJSON`: applies the records to the registry in place. */
  method UnmarshalJSON(ck: ChangeKind, doc: Document) returns (err: Option<Error>)
    modifies ck
    ensures (ck.changes, err) == Unmarshal(old(ck.changes), doc)
  {
    if doc.NotAnEntryList? {
      return Some(NotAList);
    }
    var entries := doc.entries;
    var i := 0;
    while i < |entries|
      invariant 0 <= i <= |entries|
      invariant Apply(old(ck.changes), entries) == Apply(ck.changes, entries[i..])
    {
      var d := entries[i];
      assert entries[i..] == [d] + entries[i + 1..];
      var inc, e := NewIdentifier(d.increment).0, NewIdentifier(d.increment).1;
      if e.Some? {
        return Some(EntryParse(d.name, e.value));
      }
      err := ck.AddChecked(d.name, inc, d.emoji);
      if err.Some? {
        return err;
      }
      i := i + 1;
    }
    err := None;
  }

  /** Loading what `MarshalJSON` emitted into an empty registry gives the registry back. */
  lemma MarshalRoundTrip(t: Table, dtos: seq<Dto>)
    requires WellFormed(t) && "" !in t
    requires Describes(dtos, t)
    ensures Apply(map[], dtos) == (t, None)
  {
    RoundTripFrom(map[], dtos, t);
  }

  lemma {:induction false} RoundTripFrom(acc: Table, dtos: seq<Dto>, t: Table)
    requires WellFormed(t) && "" !in t
    requires Distinct(Names(dtos)) && Records(dtos, t)
    requires forall k :: k in acc ==> k in t && acc[k] == t[k] && k !in Names(dtos)
    requires forall k :: k in t ==> k in acc || k in Names(dtos)
    ensures Apply(acc, dtos) == (t, None)
    decreases |dtos|
  {
    if |dtos| == 0 {
      assert acc == t;
    } else {
      var d := dtos[0];
      ApplyFirst(acc, dtos, t[d.name]);
      NamesTail(dtos);
      DistinctTail(Names(dtos));
      RecordsTail(dtos, t);
      AddedFirst(acc, dtos, t);
      RoundTripFrom(acc[d.name := t[d.name]], dtos[1..], t);
    }
  }

  lemma NamesTail(dtos: seq<Dto>)
    requires |dtos| > 0
    ensures Names(dtos)[0] == dtos[0].name && Names(dtos)[1..] == Names(dtos[1..])
  {
    ConsConcat([dtos[0].name], Names(dtos[1..]));
  }

  lemma RecordsTail(dtos: seq<Dto>, t: Table)
    requires WellFormed(t) && |dtos| > 0 && Records(dtos, t)
    ensures dtos[0].name in t && Records(dtos[1..], t)
  {
    var rest := dtos[1..];
    forall i | 0 <= i < |rest| ensures rest[i] == dtos[i + 1] { }
  }

  /** Adding the entry of the first record moves its name from the names still to load into the registry. */
  lemma AddedFirst(acc: Table, dtos: seq<Dto>, t: Table)
    requires |dtos| > 0 && dtos[0].name in t && dtos[0].name !in Names(dtos[1..])
    requires forall k :: k in acc ==> k in t && acc[k] == t[k] && k !in Names(dtos)
    requires forall k :: k in t ==> k in acc || k in Names(dtos)
    ensures var acc' := acc[dtos[0].name := t[dtos[0].name]];
            && (forall k :: k in acc' ==> k in t && acc'[k] == t[k] && k !in Names(dtos[1..]))
            && (forall k :: k in t ==> k in acc' || k in Names(dtos[1..]))
  {
    var x, rest := dtos[0].name, Names(dtos[1..]);
    assert Names(dtos) == [x] + rest;
    var acc' := acc[x := t[x]];
    forall k | k in acc' ensures k in t && acc'[k] == t[k] && k !in rest {
      if k != x {
        assert k !in [x] + rest;
      }
    }
    forall k | k in t ensures k in acc' || k in rest {
      if k !in acc && k != x {
        assert k in [x] + rest;
      }
    }
  }

  /** A first record carrying a defined entry's increment name and emoji adds that entry. */
  lemma ApplyFirst(acc: Table, dtos: seq<Dto>, e: Entry)
    requires |dtos| > 0 && dtos[0].name != "" && Defined(e.semver)
    requires dtos[0].increment == String(e.semver) && dtos[0].emoji == e.emoji
    ensures Apply(acc, dtos) == Apply(acc[dtos[0].name := e], dtos[1..])
  {
    SemverIdentifier.RoundTrip(e.semver, dtos[0].increment);
  }

  /**
   * `NewChangeKind` (`internal/changelog/changeKind.go`): no file name gives
   * the default registry; otherwise the file's contents, as read and decoded
   * by the caller (`None` when reading failed), are loaded into an empty one.
   */
  method NewChangeKind(fileName: string, contents: Option<Document>) returns (ck: ChangeKind?, err: Option<Error>)
    ensures fileName == "" ==> err.None? && ck != null && fresh(ck) && ck.changes == DefaultTable
    ensures fileName != "" && contents.None? ==> err == Some(ReadFailed(fileName)) && ck == null
    ensures fileName != "" && contents.Some? ==>
              var (t, e) := Unmarshal(map[], contents.value);
              err == e && (e.None? ==> ck != null && fresh(ck) && ck.changes == t) && (e.Some? ==> ck == null)
  {
    if fileName == "" {
      ck := new ChangeKind.Default();
      return ck, None;
    }
    if contents.None? {
      return null, Some(ReadFailed(fileName));
    }
    ck := new ChangeKind.Empty();
    err := UnmarshalJSON(ck, contents.value);
    if err.Some? {
      ck := null;
    }
  }

  /** The registry file of two records loads as those two kinds, listed "Added, Fixed". */
  lemma LoadTwoEntries()
    ensures var (t, err) := Unmarshal(map[], EntryList([Dto("Added", "major", ""), Dto("Fixed", "patch", "")]));
            err.None? && t == map["Added" := Entry(Major, ""), "Fixed" := Entry(Patch, "")]
            && SortedKeys(DefinedKeys(t)) == ["Added", "Fixed"]
  {
    var t := map["Added" := Entry(Major, ""), "Fixed" := Entry(Patch, "")];
    var es := [Dto("Added", "major", ""), Dto("Fixed", "patch", "")];
    assert Apply(map[], es) == Apply(map["Added" := Entry(Major, "")], es[1..]);
    assert Apply(map["Added" := Entry(Major, "")], es[1..]) == (t, None);
    TwoKeysListed(t);
  }

  lemma TwoKeysListed(t: Table)
    requires t == map["Added" := Entry(Major, ""), "Fixed" := Entry(Patch, "")]
    ensures SortedKeys(DefinedKeys(t)) == ["Added", "Fixed"]
  {
    assert DefinedKeys(t) == {"Added", "Fixed"};
    assert LessEq("Added", "Fixed");
    ListedAs(DefinedKeys(t), ["Added", "Fixed"]);
  }

  /** Increment names are case-sensitive: the first record with "Major" stops the load, naming that record. */
  lemma LoadCapitalisedIncrement()
    ensures Unmarshal(map[], EntryList([Dto("Added", "Major", ""), Dto("Fixed", "Patch", "")])).1
            == Some(EntryParse("Added", InvalidIdentifier("Major")))
  {
  }
}
