# clq — a Dafny model of the changelog checker and query engine

clq reads a `CHANGELOG.md` written in the Keep a Changelog style. It
checks the document's heading structure and release discipline. It can
also answer a query over the document, such as `releases[0].version`, and
write the answer as JSON or Markdown.

This project models the core of clq in Dafny and proves properties of that
model:

- **Headings.** The four heading kinds (introduction, release, change
  group, change description) and the factory that builds them from a
  heading's text. A release title is read by three grammars, the same ones
  the regular expressions of `internal/changelog/releaseHeading.go`
  describe: Unreleased, bracketed, and yanked. The model also has the
  semantic versions and ISO dates those titles carry.
- **Change kinds.** The registry of change kinds maps each group title to
  the semantic-version increment it calls for, plus an emoji. The model
  covers the registry's JSON form and the increment a set of changes calls
  for.
- **Changelog path.** The path tracker (`Changelog`, and the older `Stack`
  of both the `changelog` and the `validator` packages) keeps the headings
  currently open. It notifies its listeners of every heading entered and
  left, and prints the path as `{a}{b}{c}`.
- **Validator.** The Markdown renderer checks that:
  - the introduction comes first;
  - there is at most one `[Unreleased]`, and it comes before every release;
  - a yanked release does not come first;
  - releases are sorted by date and version;
  - each version follows from the previous one and the change kinds under
    it;
  - no change group repeats within a release;
  - every release and change group has descriptions.
- **Query engine.** Both revisions are modelled:
  - the parser of query segments (`name[selector]`, `name[]/`) and the chain
    of query nodes (changelog, release, change, description);
  - the cursored walk that enters and leaves headings;
  - the older `queryEngine` with its release cursor.
- **Output.** The JSON and Markdown result collectors, as the state they
  keep and the text they give.

Go's heading interface becomes one union datatype. The classes whose
fields Go updates in place become Dafny classes:
- `Changelog`, the stacks, `Recorder`, `Validator`, `ChangeKind`;
- both collectors;
- `Engine`, `QueryEngine` and `ReleaseQuery`.

Each class method is specified through a pure function of the old state.
The properties are proved about those functions.

The module layout follows the Go files: one module for each core file. A
few shared modules stand in for the libraries the code calls:
- `Wrappers` holds `Option` and `Result`;
- `Errors` has one constructor for each error the code can return;
- `Strings` stands in for the parts of `strings` and `strconv` that are
  used;
- `Semver` stands in for `blang/semver`;
- `Dates` stands in for `time.Parse` and `Format` with layout `2006-01-02`;
- `ReleaseGrammar` holds the three release-title regular expressions.

## Model

| member | source | states |
|---|---|---|
| SemverIdentifier.String | internal/semver/Identifier.go:20-35 | each defined identifier prints as one of "major", "minor", "patch", "prerelease", "build" |
| SemverIdentifier.NewIdentifier | internal/semver/Identifier.go:37-52 | a name is accepted exactly when it is one of the five names; anything else gives the end-of-enum marker and an invalid-identifier error |
| SemverIdentifier.RoundTrip | internal/semver/Identifier.go:20-52 | reading back a printed identifier gives the identifier, and printing a read name gives the name |
| SemverIdentifier.ForEach | internal/semver/Identifier.go:54-61 | visits the identifiers in order and stops at the first error; there is no error exactly when the callback accepts every defined identifier |
| Headings.AsPath | internal/changelog/headings.go:29-31 | the path of a name is that name between braces |
| Headings.AsPathInjective | internal/changelog/headings.go:29-31 | two names with the same path are the same name |
| IntroductionHeading.NewIntroduction | internal/changelog/introductionHeading.go:12-17 | succeeds exactly for a non-empty title; the heading reports that title, its kind and the path `{title}` |
| ChangelogHeading.NewChangelog | internal/changelog/changelogHeading.go:12-17 | succeeds exactly for a non-empty name, with path `{name}`; the empty name gives the empty-changelog error |
| ChangeItem.NewChangeItem | internal/changelog/changeItem.go:10-15 | succeeds exactly for a non-empty description; the heading reports it as its title and has the description kind |
| ChangeHeading.NewChange | internal/changelog/changeHeading.go:11-21 | succeeds exactly for a non-empty title the registry knows; it carries the registry's emoji; the empty title and an unknown title get their own errors |
| ChangeHeading.DisplayTitleShape | internal/changelog/changeHeading.go:23-28 | the display title ends with the title, equals it exactly when there is no emoji, and otherwise starts with the emoji and a space |
| ChangeHeading.DefaultChanges | internal/changelog/changeHeading_test.go:9-28 | with the default registry "Added" is accepted and shown undecorated, and the lower-case "added" is refused as unknown |
| ChangeMap.String | internal/changelog/changeMap.go:8-14 | the text joins, with ", ", an enumeration of the map's keys with each key once; it is empty for an empty map and the key itself for a one-key map |
| ChangeMap.EnumeratesSmall | internal/changelog/changeMap.go:8-14 | an enumeration of no keys is empty, and one of one key is that key alone |
| ChangeKind.IsSupported | internal/changelog/changeKind.go:43-48 | no error exactly when the title is in the registry, else the unknown-change-heading error |
| ChangeKind.EmojiFor | internal/changelog/changeHeading.go:17-20 | the emoji of a known title, and the unknown-heading error otherwise |
| ChangeKind.KeysWith | internal/changelog/changeKind.go:77-85 | exactly the titles registered with the given increment |
| ChangeKind.DefinedKeys | internal/changelog/changeKind.go:67-75 | the titles collected over every defined increment are all the registered titles |
| ChangeKind.IncrementUnique | internal/changelog/changeKind.go:51-61 | the smallest increment among the present kinds is determined by the input: two results meeting the contract agree |
| ChangeKind.AddEntry | internal/changelog/changeKindJson.go:44-47 | adding a named entry sets that title's increment and emoji and keeps the rest; an empty name is refused |
| ChangeKind.ChangeKind.Default | internal/changelog/changeKind.go:38-40 | the default registry: Added and Removed are major, Changed and Deprecated minor, Fixed and Security patch |
| ChangeKind.ChangeKind.Empty | internal/changelog/changeKind.go:31 | the registry a file is loaded into starts empty |
| ChangeKind.ChangeKind.IncrementFor | internal/changelog/changeKind.go:51-61 | returns the smallest increment of any present, registered kind, and a kind that has it; with no such kind, the build increment and "" |
| ChangeKind.ChangeKind.Add | internal/changelog/changeKind.go:63-65 | the registry gains or overwrites that title, and nothing else changes |
| ChangeKind.ChangeKind.AddChecked | internal/changelog/changeKindJson.go:44-47 | the registry becomes what AddEntry gives, or stays as it was with AddEntry's error |
| ChangeKind.ChangeKind.KeysFor | internal/changelog/changeKind.go:77-85 | each title registered with the increment, once, and no other |
| ChangeKind.ChangeKind.KeysOf | internal/changelog/changeKind.go:67-75 | all registered titles, sorted and joined with ", " |
| ChangeKind.DefaultKeysOf | internal/changelog/changeKind.go:39 | the default registry lists "Added, Changed, Deprecated, Fixed, Removed, Security" |
| ChangeKind.DefaultListingSorted | internal/changelog/changeKind.go:73 | that listing is sorted and has no repeats |
| ChangeKind.DefaultListingKeys | internal/changelog/changeKind.go:39 | the listing holds exactly the default registry's titles |
| ChangeKindJson.Names | internal/changelog/changeKindJson.go:11-16 | the names of the records, in order |
| ChangeKindJson.Refusal | internal/changelog/changeKindJson.go:39-43 | a record with an unknown increment is refused with a parse error naming the record and the increment |
| ChangeKindJson.ApplyOutcome | internal/changelog/changeKindJson.go:35-50 | loading succeeds exactly when every record is acceptable; otherwise the error is that of the first record refused |
| ChangeKindJson.MarshalJSON | internal/changelog/changeKindJson.go:25-33 | one record for each registry entry with its increment's name and emoji, sorted by name |
| ChangeKindJson.SortedNames | internal/changelog/changeKindJson.go:30 | the registry's names in sorted order |
| ChangeKindJson.UnmarshalJSON | internal/changelog/changeKindJson.go:35-50 | the registry and error become what loading the document into the old registry gives |
| ChangeKindJson.MarshalRoundTrip | internal/changelog/changeKindJson.go:25-50 | loading what MarshalJSON writes, into an empty registry, gives back the registry without error |
| ChangeKindJson.RoundTripFrom | internal/changelog/changeKindJson.go:35-50 | loading records that describe the rest of a registry into a part of it completes the registry |
| ChangeKindJson.NewChangeKind | internal/changelog/changeKind.go:21-36 | no file name gives the default registry; an unreadable file gives the read error; otherwise the file's records are loaded into an empty registry |
| ChangeKindJson.LoadTwoEntries | internal/changelog/changeKindJson_test.go:24-32 | a file of "Added" major and "Fixed" patch loads as just those two kinds |
| ChangeKindJson.TwoKeysListed | internal/changelog/changeKindJson_test.go:24-32 | that registry lists its kinds as "Added", "Fixed" |
| ChangeKindJson.LoadCapitalisedIncrement | internal/changelog/changeKindJson_test.go:40-47 | increment names are case-sensitive: "Major" stops the load at the first record |
| HeadingsFactory.HeadingsFactory.NewHeading | internal/changelog/headingsFactory.go:16-28 | each kind builds its own heading, with the same success condition and result as that kind's constructor; any other kind is refused |
| HeadingsFactory.NewHeadingErrors | internal/changelog/headingsFactory.go:16-28 | every failure is the error of the constructor the kind selects |
| HeadingsFactory.NewHeadingUnknown | internal/changelog/headingsFactory.go:26-27 | a kind outside the four gives the unknown-kind error |
| ReleaseGrammar.SkipSpaces | internal/changelog/releaseHeading.go:25 | the end of the run of white space that starts at a position |
| ReleaseGrammar.SkipNonSpaces | internal/changelog/releaseHeading.go:21 | the end of the run of non-space characters that starts at a position |
| ReleaseGrammar.UnreleasedShape | internal/changelog/releaseHeading.go:25 | the Unreleased grammar matches exactly "[", white space, "Unreleased", white space, "]" |
| ReleaseGrammar.UnreleasedOf | internal/changelog/releaseHeading.go:25 | every title of that shape matches |
| ReleaseGrammar.LabelOfSplits | internal/changelog/releaseHeading.go:29 | the optional label group matches exactly when the rest is empty, or is white space followed by a non-empty label without a line break; the label is the text after the white space |
| ReleaseGrammar.FirstTail | internal/changelog/releaseHeading.go:29 | the leftmost end of the version group after which the rest of the bracketed grammar matches, which is what a lazy `\S+?` picks |
| ReleaseGrammar.MatchBracketed | internal/changelog/releaseHeading.go:29-30 | a match gives the whole title and three groups, and the date group has the ISO shape |
| ReleaseGrammar.MatchYanked | internal/changelog/releaseHeading.go:48-49 | a match gives the whole title and two groups, and the date group has the ISO shape |
| ReleaseGrammar.LabelAfterSpace | internal/changelog/releaseHeading.go:29 | " text" gives the label "text" |
| ReleaseGrammar.BracketedMatch | internal/changelog/releaseHeading.go:29-30 | "[v] - date" followed by a label part matches with groups v, date and the label |
| ReleaseGrammar.YankedMatch | internal/changelog/releaseHeading.go:48-49 | "v - date [YANKED]" matches with groups v and date |
| ReleaseGrammar.Subexp | internal/changelog/releaseHeading.go:134-142 | the match of the first group of that name, or "" when no group has it |
| ReleaseGrammar.BracketedGroups | internal/changelog/releaseHeading.go:29-36 | the semver, date and label names select the first, second and third groups |
| ReleaseGrammar.YankedGroups | internal/changelog/releaseHeading.go:48-55 | the semver and date names select their groups; a label is absent |
| ReleaseHeading.NewRelease | internal/changelog/releaseHeading.go:24-63 | an accepted title is the release's name; unreleased exactly when the Unreleased grammar matches; otherwise a valid date; a yanked release has no label; the label never holds a letter of the YANKED class; the errors are the four the code can give, "unknown" exactly when no grammar matches |
| ReleaseHeading.UnreleasedTitle | internal/changelog/releaseHeading.go:25-27 | any Unreleased title gives an undated, unversioned, unreleased release of that name |
| ReleaseHeading.BracketedOrder | internal/changelog/releaseHeading.go:29-46 | a bracketed title is checked in order: date, then the YANKED class in the label, then the version |
| ReleaseHeading.BracketedCascade | internal/changelog/releaseHeading.go:28-46 | a title the bracketed grammar matches gets that branch's result |
| ReleaseHeading.YankedCascade | internal/changelog/releaseHeading.go:47-61 | a title only the yanked grammar matches gets that branch's result |
| ReleaseHeading.YankedOrder | internal/changelog/releaseHeading.go:48-61 | a yanked title is checked in order: date, then version |
| ReleaseHeading.BracketedRoundTrip | internal/changelog/releaseHeading.go:29-44 | the title written from a version, a date and a label reads back as those three |
| ReleaseHeading.YankedRoundTrip | internal/changelog/releaseHeading.go:48-59 | the yanked title written from a version and a date reads back as a yanked release of them |
| ReleaseHeading.YankedMarkerInBrackets | internal/changelog/releaseHeading.go:37-39 | "[v] - date [YANKED]" is refused: the version of a yanked release cannot stand between brackets |
| ReleaseHeading.Release.SortsBefore | internal/changelog/releaseHeading.go:124-132 | no error exactly when this release is not dated before the other and its version is greater |
| ReleaseHeading.SortsBeforeStrictOrder | internal/changelog/releaseHeading.go:124-132 | "sorts before" is irreflexive, asymmetric and transitive |
| ReleaseHeading.NextReleaseApplies | internal/changelog/releaseHeading.go:105-122 | the next version is the current one bumped by the increment IncrementFor gives for the changes |
| ReleaseHeading.NextReleaseFromZero | internal/changelog/releaseHeading_test.go:22-38 | from 0.0.0, Added gives 1.0.0, Changed 0.1.0, Fixed 0.0.1, and no change leaves it |
| ReleaseHeading.NextVersionIncreases | internal/changelog/releaseHeading.go:105-122 | a major, minor or patch bump gives a strictly greater version without pre-release or build parts |
| ReleaseHeading.NextMajorWraps | internal/changelog/releaseHeading.go:108 | bumping the largest 64-bit major wraps it to 0 |
| Dates.DaysIn | internal/changelog/releaseHeading.go:32 | a month has 28 to 31 days |
| Dates.ParseDate | internal/changelog/releaseHeading.go:32-35 | a parsed date is a valid calendar date and its text has the ISO shape |
| Dates.Format | internal/changelog/releaseHeading.go:73-75 | a formatted date has ten characters |
| Dates.FormatShape | internal/changelog/releaseHeading.go:73-75 | a formatted date has the shape `dddd-dd-dd` |
| Dates.ParseFormat | internal/changelog/releaseHeading.go:32-75 | parsing a formatted valid date gives it back |
| Dates.BeforeStrictTotal | internal/changelog/releaseHeading.go:125 | "before" is irreflexive, asymmetric, transitive and total on distinct dates |
| Semver.ParseNumber | internal/changelog/releaseHeading.go:40 | a version number is non-empty digits, without a leading zero, below 2^64, and its value is the decimal value |
| Semver.ParsePR | internal/changelog/releaseHeading.go:40 | a pre-release part is numeric (then a valid number) or alphanumeric, and the empty part is refused |
| Semver.ParsePRs | internal/changelog/releaseHeading.go:40 | the pre-release list parses exactly when every part does, part by part |
| Semver.SplitN3 | internal/changelog/releaseHeading.go:40 | the version splits at its first two dots |
| Semver.Parse | internal/changelog/releaseHeading.go:40-43 | a parsed version has 64-bit numbers and valid build parts; the empty text is refused |
| Semver.ParseToString | internal/changelog/releaseHeading.go:81-83 | the printed form of a valid version parses back to it |
| Semver.ToStringText | internal/changelog/releaseHeading.go:81-83 | the printed form is non-empty version text that starts with a digit |
| Semver.CompareAntisymmetric | internal/changelog/releaseHeading.go:128 | comparison is antisymmetric and gives -1, 0 or 1 |
| Semver.CompareIgnoresBuild | internal/changelog/releaseHeading.go:101-103 | build metadata does not take part in comparison or equality |
| Semver.LTETransitive | internal/changelog/releaseHeading.go:128 | "less or equal" is transitive |
| Strings.TrimSuffix | internal/output/mdResultCollector.go:15-17 | the suffix is removed when present, else the text is kept |
| Strings.TrimConcatLines | internal/output/mdResultCollector.go:15-17 | lines each ended by "\n", with the last "\n" trimmed, are the lines joined by "\n" |
| Strings.IndexOf | internal/query/parser.go:52-53 | the first position of the character, or -1 exactly when it is absent |
| Strings.BracketContent | internal/query/changeQuery.go:30 | the text between the opening bracket after the prefix and the final "]" |
| Strings.Split | internal/query/engine.go:23 | the pieces contain no separator |
| Strings.JoinSplit | internal/query/engine.go:23 | joining the pieces with the separator gives back the text |
| Strings.SplitJoin | internal/query/engine.go:23 | splitting parts joined by a separator they lack gives back the parts |
| Strings.Sort | internal/changelog/changeKind.go:73 | the result is sorted and a permutation of the input |
| Strings.SortedKeys | internal/changelog/changeKind.go:67-75 | the keys of a set, sorted and without repeats |
| Strings.SortedUnique | internal/changelog/changeKind.go:73 | two sorted, repeat-free lists of the same elements are equal |
| Strings.NatToString | internal/query/releaseQuery.go:13 | decimal digits, without a leading zero |
| Strings.Atoi | internal/query/releaseQuery.go:13-16 | a text is accepted exactly when, after one optional "+" or "-", it is a non-empty run of ASCII digits whose signed value fits in 64 bits; the value is then those digits read in decimal, negated after "-" |
| Strings.AtoiRefusals | internal/query/releaseQuery.go:13-16 | "abc", "1x", a lone sign and a leading space are refused |
| Strings.AtoiSigned | internal/query/releaseQuery.go:13-16 | a leading "+" is accepted, "-0" is 0, and leading zeros are read as digits |
| Strings.AtoiRange | internal/query/releaseQuery.go:13-16 | one past the largest 64-bit integer is refused, while the smallest one is accepted |
| Strings.AtoiNatToString | internal/query/releaseQuery.go:13 | the decimal form of a 64-bit natural number reads back as it |
| Strings.AtoiNegative | internal/query/releaseQuery.go:13 | a minus sign before a decimal form reads back as the negated value |
| Changelog.Deliver | internal/changelog/changelog.go:73-79 | one notification for each listener, in registration order, each carrying the event |
| Changelog.FanoutSnoc | internal/changelog/changelog.go:73-79 | delivering one more event appends its deliveries |
| Changelog.FanoutConcat | internal/changelog/changelog.go:73-79 | delivering two event lists one after the other is delivering their concatenation |
| Changelog.ExitsFrom | internal/changelog/changelog.go:66-71 | leaving down to depth k exits the open headings above k, deepest first |
| Changelog.ReceivedConcat | internal/changelog/changelog.go:73-79 | what one listener receives from two notification lists is the concatenation of what it receives from each |
| Changelog.ReceivedDeliver | internal/changelog/changelog.go:73-79 | a listener registered once receives an event exactly once |
| Changelog.AbsentReceivesNothing | internal/changelog/changelog.go:73-79 | a listener that is not registered receives nothing |
| Changelog.FanoutReceived | internal/changelog/changelog.go:73-79 | a listener registered once receives every event, in order |
| Changelog.ReplayExits | internal/changelog/changelog.go:66-71 | a listener replaying the exits down to depth k sees the headings below k still open |
| Changelog.SectionReplay | internal/changelog/changelog.go:60-81 | a listener that replays what Section sends sees the new open headings: the ones kept, then the new heading |
| Changelog.CloseReplay | internal/changelog/changelog.go:49-55 | after Close a listener sees no heading open |
| Changelog.PathOfPrefix | internal/changelog/changelog.go:83-89 | the path of the first k headings is a prefix of the whole path |
| Changelog.PathOfLength | internal/changelog/changelog.go:83-89 | each open heading adds at least its two braces to the path |
| Changelog.KindIndexedAfter | internal/changelog/changelog.go:60-81 | the heading at each depth keeps the kind of that depth when Section adds a heading of the matching kind |
| Changelog.SectionResult | internal/changelog/changelog.go:60-81 | Section succeeds only for a kind at most the current depth, and then with the factory's heading |
| Changelog.Changelog.constructor | internal/changelog/changelog.go:18-20 | the changelog starts with no heading, no listener and no notification |
| Changelog.Changelog.Listener | internal/changelog/changelog.go:24-26 | the listeners are appended, and nothing else changes |
| Changelog.Changelog.Introduction | internal/changelog/changelog.go:29-31 | true exactly when only the introduction is open |
| Changelog.Changelog.Release | internal/changelog/changelog.go:34-36 | true exactly when a release is the deepest heading open |
| Changelog.Changelog.Change | internal/changelog/changelog.go:39-41 | true exactly when a change group, or a description under it, is open |
| Changelog.Changelog.Notify | internal/changelog/changelog.go:73-79 | every listener is told the event, and nothing else changes |
| Changelog.Changelog.ExitDownTo | internal/changelog/changelog.go:66-71 | every listener is told of the exits down to depth k, and the headings are not touched |
| Changelog.Changelog.Close | internal/changelog/changelog.go:49-55 | every listener is told that each open heading is left, deepest first |
| Changelog.Changelog.Section | internal/changelog/changelog.go:60-81 | too deep a kind and a factory error leave the changelog as it was; otherwise the headings at and above the kind's depth are left (listeners told, deepest first), the new heading is entered (listeners told), and it is returned |
| Changelog.Changelog.String | internal/changelog/changelog.go:83-89 | the concatenated paths of the open headings |
| ChangelogStack.StackHeading.AsPath | internal/changelog/stack.go:72-78 | a heading's path is its name between braces |
| ChangelogStack.NewHeading | internal/changelog/stack.go:63-64 | depth 0 builds a changelog title, 1 a release, 2 a default-registry change, each with its own success condition; any other depth is refused |
| ChangelogStack.PathOfEmpty | internal/changelog/stack.go:72-78 | the path is empty exactly when the stack is |
| ChangelogStack.PathOfSnoc | internal/changelog/stack.go:72-78 | pushing a heading appends its path |
| ChangelogStack.Stack.constructor | internal/changelog/stack.go:12-14 | a new stack is empty |
| ChangelogStack.Stack.Push | internal/changelog/stack.go:36-38 | the heading is appended |
| ChangelogStack.Stack.Pop | internal/changelog/stack.go:40-48 | an empty stack gives the empty-stack error and stays; otherwise the top heading is removed and returned |
| ChangelogStack.Stack.Peek | internal/changelog/stack.go:50-56 | the top heading, or the empty-stack error |
| ChangelogStack.Stack.ResetTo | internal/changelog/stack.go:58-70 | too deep a reset and a construction error leave the stack; otherwise the stack is cut to the depth and the new heading pushed; the kind at each depth is preserved |
| ChangelogStack.Stack.AsPath | internal/changelog/stack.go:72-78 | the stack's path |
| ChangelogStack.PushPop | internal/changelog/stack_test.go:70-81 | a push and then a pop return the pushed heading and restore the stack |
| ChangelogStack.ResetEmptyTooDeep | internal/changelog/stack_test.go:148-152 | resetting an empty stack to a non-zero depth fails |
| ChangelogStack.ResetToTitlePath | internal/changelog/stack_test.go:154-171 | resetting to depth 0 leaves just the new title, whose path is `{name}` |
| Recorder.Line | internal/changelog/recorder.go:12-18 | an entry is recorded as "Enter" and an exit as "Exit", followed by the heading's path |
| Recorder.LineDecodes | internal/changelog/recorder.go:12-18 | the recorded line tells entry from exit and gives the heading's path |
| Recorder.LogConcat | internal/changelog/recorder.go:12-18 | recording two event lists in turn records their concatenation |
| Recorder.Recorder.constructor | internal/changelog/recorder.go:8-10 | a new recorder has recorded nothing |
| Recorder.Recorder.Enter | internal/changelog/recorder.go:12-14 | the entry line is appended |
| Recorder.Recorder.Exit | internal/changelog/recorder.go:16-18 | the exit line is appended |
| Recorder.Recorder.Receive | internal/changelog/recorder.go:12-18 | one event's line is appended |
| Recorder.Recorder.ReceiveAll | internal/changelog/recorder.go:12-18 | the lines of all the events are appended in order |
| Recorder.ResetToIntroductionLog | internal/changelog/changelog_test.go:81-105 | resetting three open headings to depth zero records three exits, deepest first, then the entry |
| Recorder.ResetToReleaseLog | internal/changelog/changelog_test.go:107-130 | resetting to depth one records the exits of the two deepest headings, then the entry |
| ValidatorHeadings.Heading.AsPath | internal/validator/headings.go:174-176 | a heading's path is its name between braces |
| ValidatorHeadings.NewTitle | internal/validator/headings.go:22-27 | a non-empty name gives the title; the empty name gives the empty-title error |
| ValidatorHeadings.NewRelease | internal/validator/headings.go:48-86 | an accepted title names the release, which is unreleased exactly when the Unreleased grammar matches; the errors are the four the code can give |
| ValidatorHeadings.NewReleaseAgrees | internal/validator/headings.go:48-86 | this copy accepts and refuses the same titles as the changelog package's release constructor, with the same parts |
| ValidatorHeadings.ChangeKindsAgree | internal/validator/headings.go:130 | its built-in kinds are the default registry's, with the same increments |
| ValidatorHeadings.NewChange | internal/validator/headings.go:113-121 | a known kind gives the change heading; else the unknown-change-heading error |
| ValidatorHeadings.NewChangeAgrees | internal/validator/headings.go:113-121 | it accepts exactly the titles the changelog package's change constructor accepts with the default registry |
| ValidatorHeadings.KindsAt | internal/validator/headings.go:145-153 | exactly the kinds registered at the level |
| ValidatorHeadings.KeysFor | internal/validator/headings.go:145-153 | each kind registered at the level, once, and no other |
| ValidatorHeadings.KeysOf | internal/validator/headings.go:132-143 | every kind, quoted, joined by ", ", in an enumeration of the map's keys |
| ValidatorHeadings.NextReleaseAgrees | internal/validator/headings.go:155-172 | its next version is the changelog package's next version with the default registry |
| ValidatorHeadings.NextReleaseFromZero | internal/validator/headings_test.go:28-43 | from 0.0.0: 1.0.0 for Added, 0.1.0 for Changed, 0.0.1 for Fixed, unchanged for nothing |
| ValidatorStack.Build | internal/validator/stack.go:230-255 | depth 0, 1 and 2 build a title, a release and a change, with those constructors' errors; any other depth gives an empty slot |
| ValidatorStack.Kept | internal/validator/stack.go:230-255 | the slots a reset keeps, as many as the depth |
| ValidatorStack.PathOfSnoc | internal/validator/stack.go:257-263 | pushing a heading appends `{name}` to the path |
| ValidatorStack.Stack.constructor | internal/validator/stack.go:186-188 | a new stack is empty |
| ValidatorStack.Stack.Push | internal/validator/stack.go:209-211 | the slot is appended |
| ValidatorStack.Stack.Pop | internal/validator/stack.go:213-221 | an empty stack gives the empty-stack error and stays; otherwise the top slot is removed and returned |
| ValidatorStack.Stack.Peek | internal/validator/stack.go:223-229 | the top slot, or the empty-stack error |
| ValidatorStack.Stack.ResetTo | internal/validator/stack.go:230-255 | too deep a reset and a construction error leave the stack; otherwise it is cut to the depth and the new slot pushed |
| ValidatorStack.Stack.AsPath | internal/validator/stack.go:257-263 | the stack's path |
| ValidatorStack.ResetToTitleLeavesTitle | internal/validator/stack_test.go:168-183 | resetting to the title leaves exactly that title, whatever was open |
| ValidatorStack.ResetToUnknownDepthPushesNil | internal/validator/stack.go:230-255 | a depth the switch does not know leaves an empty slot on top |
| Validator.ReleaseOrderAccepts | internal/validator/validator.go:151-170 | a dated release is refused only when it is yanked and comes first; an Unreleased section only in release mode, after another Unreleased, or after a release |
| Validator.SecondUnreleasedRefused | internal/validator/validator.go:162-164 | a second Unreleased section is refused |
| Validator.UnreleasedAfterReleaseRefused | internal/validator/validator.go:165-167 | an Unreleased section after a release is refused |
| Validator.YankedFirstRefused | internal/validator/validator.go:152-157 | a yanked release that comes first gets the yanked-first error |
| Validator.VersionCheckAccepts | internal/validator/validator.go:118-138 | two consecutive releases pass exactly when: the changes call for more than a build; the previous release sorts before this one; and its version is this one bumped by the increment (under 0.x a major bump may be a minor one) |
| Validator.AcceptedReleasesDecrease | internal/validator/validator.go:124-126 | an accepted pair has strictly decreasing versions |
| Validator.Accepted | internal/validator/validator.go:140-148 | after a release: Unreleased seen if it was not released; a release seen if it was released and not yanked; changes and descriptions reset; it becomes the previous release |
| Validator.LowerAscii | internal/validator/validator.go:206 | ASCII upper-case letters become lower-case, and every other character stays |
| Validator.MailtoCaseInsensitive | internal/validator/validator.go:206-208 | on sample addresses: an e-mail link already starting with "MailTo:" gains no scheme, whatever its case; a bare one gains "mailto:"; a link that is not an e-mail address gains nothing |
| Validator.Validator.constructor | internal/validator/validator.go:30-45 | the changelog is built with the configured registry and listener; there is no text and no progress |
| Validator.Validator.EnterBlock | internal/validator/validator.go:236-240 | the collected text is emptied, and nothing else changes |
| Validator.Validator.VisitText | internal/validator/validator.go:259-274 | the segment is appended and, unless raw, "  \n" for a hard break or " " for a soft one |
| Validator.Validator.EnterLink | internal/validator/validator.go:217-218 | "[" is appended |
| Validator.Validator.ExitLink | internal/validator/validator.go:219-229 | "](", the destination, the quoted title when there is one, and ")" are appended |
| Validator.Validator.EnterAutoLink | internal/validator/validator.go:201-213 | the link is written between angle brackets, with "mailto:" added for an e-mail address without it |
| Validator.Validator.VisitHeading1 | internal/validator/validator.go:95-102 | the introduction is entered through Section, and its error stops validation; on success the introduction is recorded |
| Validator.Validator.VisitHeading2 | internal/validator/validator.go:104-149 | refused when the previous release or change is without descriptions; otherwise the release is entered, its order and version are checked, and the progress becomes Accepted's |
| Validator.Validator.CheckRelease | internal/validator/validator.go:114-148 | the order check, then the version check between two releases; on success the progress is Accepted's |
| Validator.Validator.ValidateReleaseHeading | internal/validator/validator.go:151-170 | the error is the release-order rule's verdict |
| Validator.Validator.VisitHeading3 | internal/validator/validator.go:172-191 | refused under the introduction only, or when the previous change has no descriptions; otherwise the change is entered and recorded, and a repeat is refused |
| Validator.Validator.ValidateChangeHeading | internal/validator/validator.go:193-199 | a change group already in this release is refused; otherwise it is recorded |
| Validator.Validator.ExitHeading | internal/validator/validator.go:72-93 | a heading below level 1 before the introduction is refused, as is a level other than 1 to 3; otherwise the level's step is taken |
| Validator.Validator.ExitListItem | internal/validator/validator.go:237-250 | under a change group the text is entered as a description and recorded; elsewhere nothing changes |
| Validator.Validator.ExitDocument | internal/validator/validator.go:59-70 | refused without any release, or when the last release or change has no descriptions; otherwise the changelog is closed |
| JsonResultCollector.Opened | internal/output/jsonResultCollector.go:39-42 | one more frame, without a value, of the heading's kind |
| JsonResultCollector.SetValue | internal/output/jsonResultCollector.go:78-80 | the top frame's value becomes the string, and every other frame stays |
| JsonResultCollector.SetFieldValue | internal/output/jsonResultCollector.go:82-89 | the top frame's map gains or overwrites that one field, and keeps the other fields |
| JsonResultCollector.ArrayValue | internal/output/jsonResultCollector.go:91-99 | the field becomes an empty array and is where later values go |
| JsonResultCollector.Folded | internal/output/jsonResultCollector.go:55-71 | a closed value is appended to the parent's array in collection mode, else to the array under the parent's field, and the other fields stay |
| JsonResultCollector.Closed | internal/output/jsonResultCollector.go:44-72 | a frame is popped exactly when it is not the root and has a value; the frames below it stay |
| JsonResultCollector.ProjectedValueAppended | internal/output/jsonResultCollector.go:44-80 | a value set under a heading opened below an array lands at the end of that array |
| JsonResultCollector.UnwrittenFrameStays | internal/output/jsonResultCollector.go:47-50 | closing a frame that received nothing leaves it |
| JsonResultCollector.RootWrappedOnce | internal/output/jsonResultCollector.go:51-54 | in collection mode a root value is wrapped in an array once, and a second close leaves it |
| JsonResultCollector.EmptyResults | internal/output/jsonResultCollector.go:21-30 | without frames the result is "[]" in collection mode and "" otherwise; a root without value gives "{}" |
| JsonResultCollector.RootStringIsResult | internal/output/jsonResultCollector.go:31-33 | a string set on the root is the result as it is |
| JsonResultCollector.JsonCollector.constructor | internal/output/jsonResultCollector.go:15-19 | no frames, not a collection |
| JsonResultCollector.JsonCollector.Open | internal/output/jsonResultCollector.go:39-42 | the frames become Opened's |
| JsonResultCollector.JsonCollector.Close | internal/output/jsonResultCollector.go:44-72 | the frames become Closed's |
| JsonResultCollector.JsonCollector.SetCollection | internal/output/jsonResultCollector.go:74-76 | the collector is in collection mode and the frames stay |
| JsonResultCollector.JsonCollector.Set | internal/output/jsonResultCollector.go:78-80 | the frames become SetValue's |
| JsonResultCollector.JsonCollector.SetField | internal/output/jsonResultCollector.go:82-89 | the frames become SetFieldValue's |
| JsonResultCollector.JsonCollector.Array | internal/output/jsonResultCollector.go:91-99 | the frames become ArrayValue's |
| MdResultCollector.LineStart | internal/output/mdResultCollector.go:23-30 | "- " for a description, else as many "#" as the level plus one, then a space (a bare space for kind -1); other kinds make Go's slice panic |
| MdResultCollector.LineStarts | internal/output/mdResultCollector.go:23-30 | "# ", "## " and "### " for the introduction, a release and a change |
| MdResultCollector.MdCollector.constructor | internal/output/mdResultCollector.go:10-13 | no text, no prefix |
| MdResultCollector.MdCollector.Open | internal/output/mdResultCollector.go:19-21 | the prefix becomes the heading's line start |
| MdResultCollector.MdCollector.Close | internal/output/mdResultCollector.go:32-33 | nothing changes |
| MdResultCollector.MdCollector.SetCollection | internal/output/mdResultCollector.go:35-36 | nothing changes |
| MdResultCollector.MdCollector.Array | internal/output/mdResultCollector.go:54-55 | nothing changes |
| MdResultCollector.MdCollector.Set | internal/output/mdResultCollector.go:38-43 | the prefix, the value and a line break are appended, and the prefix is used up |
| MdResultCollector.MdCollector.SetField | internal/output/mdResultCollector.go:45-52 | only the "title" field is written, as Set writes it |
| Format.Open | internal/output/format.go:15-16 | the collector's state becomes the one its own Open gives |
| Format.Close | internal/output/format.go:17-18 | the collector's state becomes the one its own Close gives |
| Format.SetCollection | internal/output/format.go:19-21 | the collector's state becomes the one its own SetCollection gives |
| Format.Set | internal/output/format.go:22 | the collector's state becomes the one its own Set gives |
| Format.SetField | internal/output/format.go:23 | the collector's state becomes the one its own SetField gives |
| Format.Array | internal/output/format.go:24 | the collector's state becomes the one its own Array gives |
| Format.NewFormat | internal/output/format.go:27-36 | "json" and "md" give a fresh collector of that kind, whose result is empty; any other name is refused |
| Format.TestHeading | internal/output/outputFormat_test.go:85-94 | the heading the factory over the default change kinds builds, of the given kind and title; the helper is only called where the factory accepts |
| Format.NoOutputDefined | internal/output/outputFormat_test.go:16-21 | opening and closing a heading with nothing written gives "{}" in JSON and "" in Markdown |
| Format.IntroductionTitle | internal/output/outputFormat_test.go:23-31 | the introduction's title as a field gives {"title": "Changelog"} in JSON and "# Changelog" in Markdown |
| Format.ChangeDescription | internal/output/outputFormat_test.go:53-61 | a description set as a value gives "foo" in JSON and "- foo" in Markdown |
| Format.LoneArray | internal/output/outputFormat_test.go:63-83 | two descriptions under an array field give {"changes": ["foo", "bar"]} in JSON and "- foo\n- bar" in Markdown |
| Format.TitleInJson | internal/output/outputFormat_test.go:23-31 | on a fresh JSON collector the introduction's open, title field and close are all allowed and give the object {"title": "Changelog"} |
| Format.TitleInMarkdown | internal/output/outputFormat_test.go:23-31 | on a fresh Markdown collector the same calls give the line "# Changelog" |
| Format.DescriptionStates | internal/output/outputFormat_test.go:53-61 | on a fresh collector a description's open, set and close are allowed and give "foo" in JSON and "- foo" in Markdown |
| Format.ChangesDeclared | internal/output/outputFormat_test.go:66-68 | opening a change and declaring "changes" leaves one frame whose "changes" field is the empty array in JSON, and the prefix "### " in Markdown |
| Format.DescriptionStep | internal/output/outputFormat_test.go:69-80 | each description written under that change is appended to the "changes" array in JSON, and adds one "- " line in Markdown |
| Format.ChangesClosed | internal/output/outputFormat_test.go:81-82 | closing the change after "foo" and "bar" gives {"changes": ["foo", "bar"]} in JSON and "- foo\n- bar" in Markdown |
| Format.WriteDescription | internal/output/format.go:15-22 | a description opened, set and closed leaves the state those three calls give |
| Format.DescriptionIntoArray | internal/output/jsonResultCollector.go:44-80 | a description written under a frame whose field holds an array is appended to that array |
| QueryOutputFormat.RunConcat | internal/query/outputFormat.go:31-32 | running two lists of collector calls in turn is running their concatenation |
| QueryOutputFormat.RunKeepsFrames | internal/query/outputFormat.go:23-29 | a projection neither opens nor closes a JSON frame, nor changes the collection mode |
| QueryOutputFormat.RunAppendsText | internal/query/outputFormat.go:23-29 | in Markdown a projection never fails and only appends text |
| QueryOutputFormat.Apply | internal/query/outputFormat.go:31-32 | the sink's state becomes what the projection's calls give |
| QueryOutputFormat.ApplyOne | internal/query/outputFormat.go:25-29 | the sink's state becomes what the one call gives |
| QueryParser.ParseName | internal/query/parser.go:51-79 | a bare name is scalar; a bracketed one is "name[selector]"; recursive exactly when it ends in "/"; an unclosed or misplaced bracket, a missing opening bracket, and a recursive scalar each get their own error |
| QueryParser.ScalarRoundTrip | internal/query/parser.go:51-79 | a bare name without brackets or "/" reads back as that scalar |
| QueryParser.CollectionRoundTrip | internal/query/parser.go:51-79 | "name[selector]" followed by a tail reads back as name and selector |
| QueryParser.ParseElement | internal/query/parser.go:26-49 | the segment must parse, be a name the node accepts, and have the scalar or collection shape that name expects (a scalar ending the query); on success it gives the selector, the factory and the name's projections, a collection when the selector is empty |
| QueryParser.ShapeErrors | internal/query/parser.go:31-41 | each of the three shape mismatches has its own error |
| QueryParser.EmptySelectorIsCollection | internal/query/parser.go:43-44 | "name[]" of a collection name projects a collection |
| Engine.Locate | internal/query/engine.go:46-74 | the nearest node at or above the root end of the chain, up to the cursor, that accepts the heading, or -1 when none does |
| Engine.EnterOutcome | internal/query/engine.go:46-74 | with no query or no accepting node nothing changes; otherwise the cursor moves on past the accepting node (staying on the last one), and its projection is written |
| Engine.ExitOutcome | internal/query/engine.go:77-100 | with no query or no accepting node nothing changes; otherwise the cursor goes back to the accepting node and its exit projection is written |
| Engine.WalkStaysInChain | internal/query/engine.go:46-100 | however the headings are entered and left, the cursor stays in the chain |
| Engine.EmptyChainWritesNothing | internal/query/engine.go:36-38 | with an empty query nothing is ever written |
| Engine.Engine.constructor | internal/query/engine.go:21 | the engine holds the output and the nodes, with the cursor at the first node |
| Engine.Engine.HasQuery | internal/query/engine.go:38 | true exactly when there is a node |
| Engine.Engine.Search | internal/query/engine.go:46-74 | the node Locate finds |
| Engine.Engine.Project | internal/query/engine.go:46-74 | the output becomes the heading opened and the projection's calls made |
| Engine.Engine.Enter | internal/query/engine.go:46-74 | the cursor and output become EnterOutcome's |
| Engine.Engine.Exit | internal/query/engine.go:77-100 | the cursor and output become ExitOutcome's |
| Engine.NewEngine | internal/query/engine.go:20-34 | the empty query gives no nodes; otherwise the nodes compiled from the dot-separated segments, or the compiler's error; the output is put in collection mode exactly when some node is a collection |
| Engine.ParseName | internal/query/engine.go:102-127 | a bare name is that name without selector and not recursive |
| Engine.ParsersAgree | internal/query/engine.go:102-127 | this revision's name parser agrees with the other revision's one |
| Engine.ElementIsFinal | internal/query/engine.go:129-137 | fine exactly for a scalar that ends the query; a collection and a scalar followed by more get their own errors |
| Engine.ElementIsCollection | internal/query/engine.go:139-144 | fine exactly for a bracketed segment |
| ChangeItemQuery.EscapeChar | internal/query/changeItemQuery.go:17-19 | a quote, a backslash, a tab, a line feed and a carriage return become a backslash escape; every other character stays |
| ChangeItemQuery.UnescapeEscape | internal/query/changeItemQuery.go:17-19 | the escaped text reads back as the original |
| ChangeItemQuery.Projection | internal/query/changeItemQuery.go:17-19 | the description is written as a quoted string, then a comma, whose content reads back as the description |
| ChangeItemQuery.NewChangeItemQuery | internal/query/changeItemQuery.go:10-22 | only "descriptions[]" with nothing after it is supported; a selector and a further segment each get their own error |
| ChangeItemQuery.Enter | internal/query/changeItemQuery.go:29-39 | a description is taken, and with a projection its quoted title is written |
| ChangeItemQuery.Exit | internal/query/changeItemQuery.go:41-51 | a description is taken on leaving too, with the exit projection |
| ChangeItemQuery.CompiledNodeWritesOnEnter | internal/query/changeItemQuery_test.go:43-54 | the compiled node writes a description when it enters it and nothing when it leaves |
| ChangeQuery.Selector | internal/query/changeQuery.go:30 | the text between "descriptions[" and the final "]" |
| ChangeQuery.NewChangeQuery | internal/query/changeQuery.go:10-47 | a selector is refused; with nothing after: title and changes array plus a description node; "descriptions[...]" hands on to the description node with its errors; "title": the title alone; anything else is refused |
| ChangeQuery.DescriptionsSegment | internal/query/changeQuery.go:28-35 | a "descriptions[...]" segment compiles only as "descriptions[]" with nothing after it |
| ChangeQuery.SelectorRefused | internal/query/changeQuery.go:11-13 | any selector on changes is refused |
| ChangeQuery.TitleIgnoresTrailingSegments | internal/query/changeQuery.go:36-42 | "title" compiles to the title projection whatever follows it |
| ChangeQuery.Enter | internal/query/changeQuery.go:53-58 | a change group is taken, with the enter projection, and nothing else is |
| ChangeQuery.Exit | internal/query/changeQuery.go:60-65 | a change group is taken, with the exit projection, and nothing else is |
| ChangeQuery.TitleAndChangesInJson | internal/query/changeQuery.go:16-24 | in JSON the change group becomes an object with its title and an empty "changes" array that its descriptions go to |
| ChangeQuery.TitleAndChangesInMarkdown | internal/query/changeQuery.go:16-24 | in Markdown the title is written as a level-3 line |
| ReleaseQuery.Status | internal/query/releaseQuery.go:47-59 | "unreleased" for an undated release, else "yanked", else "prereleased" for a pre-release, else "released", each exactly in its case |
| ReleaseQuery.SummaryAlwaysDated | internal/query/releaseQuery.go:21-31 | the summary always carries the version and the date |
| ReleaseQuery.AttributeProjection | internal/query/releaseQuery.go:40-62 | exactly "date", "label", "status" and "version" are attributes |
| ReleaseQuery.Step | internal/query/releaseQuery.go:74-89 | only a release moves the cursor on, and it is taken exactly when the cursor was at the index |
| ReleaseQuery.Selections | internal/query/releaseQuery.go:74-89 | one verdict for each heading walked |
| ReleaseQuery.SelectsTheIndexthRelease | internal/query/releaseQuery.go:74-89 | a heading is taken exactly when it is a release and the releases before it bring the cursor to the index |
| ReleaseQuery.ReleasesMonotone | internal/query/releaseQuery.go:74-89 | a release counts towards every later position |
| ReleaseQuery.AtMostOneSelected | internal/query/releaseQuery.go:74-89 | from a reset cursor at most one heading is taken |
| ReleaseQuery.ReleaseQuery.constructor | internal/query/releaseQuery.go:18-19 | the node for the index, with its cursor at 0 and no projection |
| ReleaseQuery.ReleaseQuery.Enter | internal/query/releaseQuery.go:74-89 | the cursor and verdict are Step's; the selected release's projection is written |
| ReleaseQuery.ReleaseQuery.Exit | internal/query/releaseQuery.go:91-100 | every release is taken on leaving, with the exit projection |
| ReleaseQuery.ChangesSelector | internal/query/releaseQuery.go:33-38 | the text between "changes[" and the final "]" |
| ReleaseQuery.Plan | internal/query/releaseQuery.go:12-65 | the selector must be an integer; nothing further gives the summary; "changes[...]" hands on to a change query with its errors; otherwise the segment must be one of the four attributes |
| ReleaseQuery.VersionPlan | internal/query/releaseQuery.go:12-65 | selector "0" followed by "version" gives index 0 and the version projection |
| ReleaseQuery.NewReleaseQuery | internal/query/releaseQuery.go:12-65 | the selector must be an integer; nothing further gives the summary; "changes[...]" hands on to a change query with its errors; otherwise the attribute must be known; the node built is a fresh one at cursor 0 and agrees with ReleaseQuery.Plan |
| ChangelogQuery.ReleasesSelector | internal/query/changelogQuery.go:21-23 | the text between "releases[" and the final "]" |
| ChangelogQuery.NewIntroductionQuery | internal/query/changelogQuery.go:11-29 | "title" must end the query; "releases[N]" fails exactly when the release query for N and the remaining segments fails, with its error, and otherwise gives a pass-through node followed by a fresh release node whose index, enter projection and change nodes are those ReleaseQuery.Plan gives; anything else is refused |
| ChangelogQuery.ReleasesZeroVersion | internal/query/changelogQuery.go:21-23 | "releases[0]" followed by "version" selects release 0 and projects its version |
| ChangelogQuery.Select | internal/query/changelogQuery.go:35-46 | only the introduction is taken, when there is no projection; with the title projection its title is written instead |
| QueryEngine.Status | internal/query/queryEngine.go:104-113 | "unreleased", "yanked" or "released", each exactly in its case |
| QueryEngine.AttributeProjection | internal/query/queryEngine.go:90-121 | exactly "date", "label", "status" and "version" are attributes |
| QueryEngine.SelectOutcome | internal/query/queryEngine.go:65-76 | a projecting node never passes on; only the pass-through node selects the title; a release node counts releases and selects the one at its index when it does not project; only a projecting node writes |
| QueryEngine.CompileRelease | internal/query/queryEngine.go:80-121 | success exactly for an integer selector and no attribute or a known one, giving one projecting release node for that index; a bad selector gives the parse error |
| QueryEngine.CompileChangelog | internal/query/queryEngine.go:41-59 | on success the last node projects and no node before it is a release node; "title" must end the query; unknown names are refused |
| QueryEngine.Compile | internal/query/queryEngine.go:23-32 | the empty query gives no nodes; a compiled query ends with a projecting node |
| QueryEngine.ReleaseVersionCompiles | internal/query/queryEngine_test.go:63-73 | "releases[1].version" compiles to the pass-through node and a version node for index 1 |
| QueryEngine.BadSelectorKeepsPassNode | internal/query/queryEngine.go:50-56 | a selector that is not a number fails after the pass-through node is appended |
| QueryEngine.Shapes | internal/query/queryEngine.go:60-63 | the shape of each node, in order |
| QueryEngine.ReleaseQuery.constructor | internal/query/queryEngine.go:118 | the node for the index and projection, with its cursor at 0 |
| QueryEngine.ReleaseQuery.Select | internal/query/queryEngine.go:129-141 | the verdict, text and new cursor are SelectOutcome's |
| QueryEngine.ReleaseQuery.Reset | internal/query/queryEngine.go:143-145 | the cursor goes back to 0 |
| QueryEngine.QueryEngine.constructor | internal/query/queryEngine.go:24 | no nodes, cursor at 0 |
| QueryEngine.QueryEngine.NewReleaseQuery | internal/query/queryEngine.go:80-121 | the nodes compiled are appended after the kept ones, with fresh release nodes at cursor 0, and the error is CompileRelease's |
| QueryEngine.QueryEngine.NewChangelogQuery | internal/query/queryEngine.go:41-59 | the same, for CompileChangelog |
| QueryEngine.QueryEngine.Apply | internal/query/queryEngine.go:34-39 | the current node selects as SelectOutcome says; a selection moves on to the next node and resets it; the chain's invariant is kept |
| QueryEngine.SelectNode | internal/query/queryEngine.go:65-76 | any node selects as SelectOutcome says for its shape |
| QueryEngine.ResetNode | internal/query/queryEngine.go:143-145 | a release node's cursor goes back to 0 |
| QueryEngine.NewQueryEngine | internal/query/queryEngine.go:23-32 | the compiler's error, or an engine whose node shapes are Compile's, with the cursor and every release cursor at 0 |

## Left out

- Reading files, the command line and goldmark's Markdown parsing are outside the model. The validator's visitors take the text and events that goldmark would hand them.
- `json.Marshal` is outside the model. The JSON result is the value that would be marshalled. Only the release summary and the description's quoting are written out as text.
- ChangeItemQuery.EscapeChar: `%q` quoting is modelled for the five characters clq's descriptions can contain (quote, backslash, tab, line feed, carriage return). Go's escapes for other control and non-printable characters are not modelled.
- Go's map iteration order is unspecified. `ChangeMap.String`, `ValidatorHeadings.KeysOf` and the loops over the registry are therefore specified for any enumeration of the keys.
- Listeners are interface values. The changelog records each notification as a (listener, event) pair, and the recorder is one listener's view of them.
- `emojiFor`, the three-argument `add`, `NextRelease(increment)`, `IsNewerThan`, `ReleaseIs`, `IsMajorVersionZero`, `HasBeenYanked` and `IsPrerelease` are called by the code but are not part of this model's sources. They are defined after `releaseHeading.go` and `changeKind.go`: `IsNewerThan` is `SortsBefore`, a pre-release is a released version with pre-release parts, and the emoji comes from the registry entry. The three-argument `add` that the loader calls refuses an empty name and otherwise sets the entry, overwriting one of the same name.
- The registry is a map value inside the heading factory. The aliasing between the validator's `ChangeKind` object and the factory's copy is not modelled.
- `NewHeadingFactory` is the datatype's own constructor.
- `internal/validator/stack.go` repeats the constructors of `internal/validator/headings.go`. Both are modelled once, by `ValidatorHeadings`.
- ChangelogStack.NewHeading: the package-level `NewHeading(depth, name)` that `internal/changelog/stack.go` calls is not part of this model's sources. It is assumed to build, at depth 0, the level-1 `Changelog` heading (refusing an empty name); at depth 1, a release through `NewRelease`; at depth 2, a change checked against the six default change kinds; and to refuse any other depth as an unknown heading kind.
- Every Go panic is a precondition: a nil-map write in the JSON collector, indexing an empty stack, and a type assertion on a heading.
- `strings.ToLower` on the e-mail scheme is modelled for ASCII letters only.
- The compiling functions of the middle query revision are pure, and their errors discard the nodes. The nodes Go appends before it fails are not modelled, except in the older `queryEngine`.
- The newest engine's nodes are abstract (acceptance and projections), and the compiler is a parameter of `NewEngine`. A node keeps no state of its own: the chain is a constant list of values, so `Enter` and `Exit` cannot change a node (a node counting the releases it has seen cannot be expressed in this engine; the counting release node is modelled in `ReleaseQuery` and `QueryEngine`).
- ChangeQuery.TitleIgnoresTrailingSegments: the code ignores what follows "title", while `internal/query/changeQuery_test.go` TestChangeQueryUnsupportedTitle expects an error. The model follows the code.
- The collectors under `internal/query/` are the same as those under `internal/output/`, apart from the case of their method names. They are modelled once.
- `NewOutputFormat`, in both `internal/output/outputFormat.go` and `internal/query/outputFormat.go`, is the same switch as `NewFormat`, and is modelled by `Format.NewFormat`. Only the error wording differs.
- Error messages are one constructor each, with their arguments. Their wording is not modelled.
- The introduction's `Name` is modelled as its `Title`.
- A release's date is never empty text, because the zero time formats as "0001-01-01". The `omitempty` on the summary's date therefore never applies.
- `strconv.Atoi` accepts a leading sign, as Go's does, so "releases[-1]" compiles and selects nothing.
- The older `queryEngine.Apply` indexes `queries[current+1]` after the last node selects. The `Valid` invariant (only the last node projects, and a projecting node never selects) shows this never happens, rather than modelling a panic.
- `internal/changelog/changelog_test.go:127-130` expects "[YANKED]" in an output the code cannot produce. It is not modelled.
