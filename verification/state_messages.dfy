/** The closed set of broadcastable state objects (`IImmutableStateObject` implementors).
    A C# type test `x is T` becomes a test of the message's kind. */
module StateMessages {
  import opened Wrappers
  import opened Emoji
  import opened MainWindowStates

  /** A text edit in the commit-message box, with the `:search` being typed (if any). */
  datatype CommitMessageEditOperation = CommitMessageEditOperation(
    message: Option<string>,
    selectionStartIndex: int,
    searchIndex: int,
    searchTerm: Option<string>
  )

  datatype Message =
    | MainWindow(state: MainWindowState)
    | CommitMessageEdit(edit: CommitMessageEditOperation)
    | SuggestionSelected(emoji: SemanticEmoji)
    | LoadFile(filePath: Option<string>)

  /** The concrete type of a message, the `T` of `RegisterLast<T>`. */
  datatype Kind = MainWindowStateKind | CommitMessageEditKind | SuggestionSelectedKind | LoadFileKind

  function KindOf(m: Message): Kind {
    match m
    case MainWindow(_) => MainWindowStateKind
    case CommitMessageEdit(_) => CommitMessageEditKind
    case SuggestionSelected(_) => SuggestionSelectedKind
    case LoadFile(_) => LoadFileKind
  }

  /** `m is T`. */
  predicate IsKind(m: Message, k: Kind) {
    KindOf(m) == k
  }
}
