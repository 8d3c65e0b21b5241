/**
 * The errors the core reports. Each constructor stands for one message the
 * source formats, and carries the values the message quotes; the wording of
 * the messages is not modelled.
 */
module Errors {

  datatype Error =
    // semantic-version identifiers
    | InvalidIdentifier(name: string)
    // heading constructors
    | EmptyIntroduction
    | EmptyChangelog
    | EmptyChange
    | EmptyChangeDescription
    | EmptyTitle
    | IllegalDate(title: string)
    | YankedVersionInBrackets(title: string)
    | IllegalVersion(title: string)
    | UnknownReleaseHeader(title: string)
    | UnknownChangeHeading(title: string)
    | UnknownHeadingKind(kind: int)
    | ShouldBeOlder(later: string, earlier: string)
    | ShouldSortBefore(later: string, earlier: string)
    // change-kind registry loading
    | ReadFailed(fileName: string)
    | NotAList
    | EntryParse(name: string, cause: Error)
    | EmptyEntryName
    // changelog path and stacks
    | RollBack(depth: int, kind: int)
    | ResetTooDeep(depth: int, size: int)
    | EmptyStack
    // validator
    | IntroductionMissing
    | HeadingLevelUnsupported(level: int)
    | NoReleaseDefined
    | NoChangeDescriptions(path: string)
    | YankedFirst(path: string)
    | UnreleasedInReleaseMode(path: string)
    | MultipleUnreleased(path: string)
    | UnreleasedAfterRelease(path: string)
    | ChangeOutsideRelease(path: string)
    | MultipleChangeHeadings(title: string, path: string)
    | OnlyBuildChanges(title: string)
    | ShouldHaveVersion(title: string, version: string, trigger: string)
    | ShouldHaveVersions(title: string, minor: string, major: string, trigger: string)
    // queries
    | MissingClosingBracket(element: string)
    | MissingOpeningBracket(element: string)
    | ScalarRecursion(element: string)
    | ScalarAttribute(name: string)
    | NoFurtherElement(name: string)
    | CollectionAttribute(name: string)
    | AttributeNotRecognized(name: string, parent: string)
    | NothingAfterTitle
    | QueryAttributeNotRecognized(name: string)
    | ReleaseSelectorParse(selector: string)
    | ReleaseAttributeNotRecognized(name: string)
    | ChangeSelectorNotSupported(selector: string)
    | ChangeAttributeNotRecognized(name: string)
    | AttributeSelectorNotSupported(elements: seq<string>)
    // output formats
    | UnrecognizedOutputFormat(name: string)
}
