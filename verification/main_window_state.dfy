/** The immutable view state of the main window and its copy-with operations.
    Every `WithX` goes through the defaults-merging constructor, where a null argument
    means "keep the default"; so a reference field can be replaced but never cleared. */
module MainWindowStates {
  import opened Wrappers
  import opened Emoji

  /** An opaque reference to a command object held by the state (`IRxCommand`). */
  datatype CommandRef = CommandRef(id: nat)

  /** The `(index, term)` tuple: where the current `:search` ends and its text. */
  datatype SearchTerm = SearchTerm(index: int, term: Option<string>)

  /** The value of `SearchTerm` when nothing is being searched: `(0, null)`. */
  const NoSearch: SearchTerm := SearchTerm(0, None)

  datatype MainWindowState = MainWindowState(
    message: Option<string>,
    hasUserEdited: bool,
    selectionStart: int,
    focus: bool,
    close: bool,
    searchTerm: SearchTerm,
    save: Option<CommandRef>,
    help: Option<CommandRef>,
    settings: Option<CommandRef>,
    suggestions: Option<seq<SemanticEmoji>>
  )

  /** The optional arguments of the merging constructor; `None` is a null argument. */
  datatype StateArgs = StateArgs(
    message: Option<string>,
    hasUserEdited: Option<bool>,
    selectionStart: Option<int>,
    focus: Option<bool>,
    close: Option<bool>,
    save: Option<CommandRef>,
    help: Option<CommandRef>,
    settings: Option<CommandRef>,
    suggestions: Option<seq<SemanticEmoji>>,
    searchTerm: Option<SearchTerm>
  )

  /** All arguments null. */
  const NoArgs: StateArgs := StateArgs(None, None, None, None, None, None, None, None, None, None)

  /** The parameterless constructor: every field holds its type's default value. */
  function Empty(): (s: MainWindowState)
    ensures s.message.None? && s.save.None? && s.help.None? && s.settings.None? && s.suggestions.None?
    ensures !s.hasUserEdited && !s.focus && !s.close && s.selectionStart == 0
    ensures s.searchTerm == NoSearch
  {
    MainWindowState(None, false, 0, false, false, SearchTerm(0, None), None, None, None, None)
  }

  /** The value `defaults?.F` of a field read through a possibly null `defaults`. */
  function FromDefaults<T>(defaults: Option<MainWindowState>, field: MainWindowState -> T): Option<T> {
    match defaults
    case Some(d) => Some(field(d))
    case None => None
  }

  /** The merging constructor: each field is the explicit argument if given, else the field of
      `defaults` if there are defaults, else the fallback (false, 0, `(0, null)` or null). */
  function Merge(defaults: Option<MainWindowState>, args: StateArgs): (s: MainWindowState)
    ensures args.message.Some? ==> s.message == args.message
    ensures args.message.None? ==> s.message == (if defaults.Some? then defaults.value.message else None)
    ensures args.hasUserEdited.Some? ==> s.hasUserEdited == args.hasUserEdited.value
    ensures args.hasUserEdited.None? ==> s.hasUserEdited == (defaults.Some? && defaults.value.hasUserEdited)
    ensures args.selectionStart.Some? ==> s.selectionStart == args.selectionStart.value
    ensures args.selectionStart.None? ==> s.selectionStart == (if defaults.Some? then defaults.value.selectionStart else 0)
    ensures args.focus.Some? ==> s.focus == args.focus.value
    ensures args.focus.None? ==> s.focus == (defaults.Some? && defaults.value.focus)
    ensures args.close.Some? ==> s.close == args.close.value
    ensures args.close.None? ==> s.close == (defaults.Some? && defaults.value.close)
    ensures args.save.Some? ==> s.save == args.save
    ensures args.save.None? ==> s.save == (if defaults.Some? then defaults.value.save else None)
    ensures args.help.Some? ==> s.help == args.help
    ensures args.help.None? ==> s.help == (if defaults.Some? then defaults.value.help else None)
    ensures args.settings.Some? ==> s.settings == args.settings
    ensures args.settings.None? ==> s.settings == (if defaults.Some? then defaults.value.settings else None)
    ensures args.suggestions.Some? ==> s.suggestions == args.suggestions
    ensures args.suggestions.None? ==> s.suggestions == (if defaults.Some? then defaults.value.suggestions else None)
    ensures args.searchTerm.Some? ==> s.searchTerm == args.searchTerm.value
    ensures args.searchTerm.None? ==> s.searchTerm == (if defaults.Some? then defaults.value.searchTerm else NoSearch)
  {
    MainWindowState(
      message := args.message.Or(match defaults case Some(d) => d.message case None => None),
      hasUserEdited := args.hasUserEdited.Or(FromDefaults(defaults, (d: MainWindowState) => d.hasUserEdited)).OrElse(false),
      selectionStart := args.selectionStart.Or(FromDefaults(defaults, (d: MainWindowState) => d.selectionStart)).OrElse(0),
      focus := args.focus.Or(FromDefaults(defaults, (d: MainWindowState) => d.focus)).OrElse(false),
      close := args.close.Or(FromDefaults(defaults, (d: MainWindowState) => d.close)).OrElse(false),
      searchTerm := args.searchTerm.Or(FromDefaults(defaults, (d: MainWindowState) => d.searchTerm)).OrElse(SearchTerm(0, None)),
      save := args.save.Or(match defaults case Some(d) => d.save case None => None),
      help := args.help.Or(match defaults case Some(d) => d.help case None => None),
      settings := args.settings.Or(match defaults case Some(d) => d.settings case None => None),
      suggestions := args.suggestions.Or(match defaults case Some(d) => d.suggestions case None => None)
    )
  }

  /** Copying with no explicit argument reproduces the defaults exactly, and constructing with
      neither defaults nor arguments gives the same state as the parameterless constructor. */
  lemma MergeWithoutArgs(d: MainWindowState)
    ensures Merge(Some(d), NoArgs) == d
    ensures Merge(None, NoArgs) == Empty()
  {
  }

  function WithMessage(s: MainWindowState, message: Option<string>): (r: MainWindowState)
    ensures r == if message.Some? then s.(message := message) else s
  {
    Merge(Some(s), NoArgs.(message := message))
  }

  function WithHasUserEdited(s: MainWindowState, hasUserEdited: bool): (r: MainWindowState)
    ensures r == s.(hasUserEdited := hasUserEdited)
  {
    Merge(Some(s), NoArgs.(hasUserEdited := Some(hasUserEdited)))
  }

  function WithSelectionStart(s: MainWindowState, selectionStart: int): (r: MainWindowState)
    ensures r == s.(selectionStart := selectionStart)
  {
    Merge(Some(s), NoArgs.(selectionStart := Some(selectionStart)))
  }

  function WithFocus(s: MainWindowState, focus: bool): (r: MainWindowState)
    ensures r == s.(focus := focus)
  {
    Merge(Some(s), NoArgs.(focus := Some(focus)))
  }

  function WithClose(s: MainWindowState, close: bool): (r: MainWindowState)
    ensures r == s.(close := close)
  {
    Merge(Some(s), NoArgs.(close := Some(close)))
  }

  function WithSave(s: MainWindowState, save: Option<CommandRef>): (r: MainWindowState)
    ensures r == if save.Some? then s.(save := save) else s
  {
    Merge(Some(s), NoArgs.(save := save))
  }

  function WithHelp(s: MainWindowState, help: Option<CommandRef>): (r: MainWindowState)
    ensures r == if help.Some? then s.(help := help) else s
  {
    Merge(Some(s), NoArgs.(help := help))
  }

  function WithSettings(s: MainWindowState, settings: Option<CommandRef>): (r: MainWindowState)
    ensures r == if settings.Some? then s.(settings := settings) else s
  {
    Merge(Some(s), NoArgs.(settings := settings))
  }

  function WithSuggestions(s: MainWindowState, suggestions: Option<seq<SemanticEmoji>>): (r: MainWindowState)
    ensures r == if suggestions.Some? then s.(suggestions := suggestions) else s
  {
    Merge(Some(s), NoArgs.(suggestions := suggestions))
  }

  /** The tuple argument is never null, so the search term is always replaced, even by
      `(index, null)`. */
  function WithSearchTerm(s: MainWindowState, index: int, term: Option<string>): (r: MainWindowState)
    ensures r == s.(searchTerm := SearchTerm(index, term))
  {
    Merge(Some(s), NoArgs.(searchTerm := Some(SearchTerm(index, term))))
  }

  /** The message and the suggestion list, once set, can never be cleared again by a
      copy-with. */
  lemma ReferenceFieldsNeverCleared(s: MainWindowState, m: Option<string>, l: Option<seq<SemanticEmoji>>)
    ensures s.message.Some? ==> WithMessage(s, m).message.Some?
    ensures s.suggestions.Some? ==> WithSuggestions(s, l).suggestions.Some?
  {
  }

  /** A command, once set, can never be cleared again by a copy-with. */
  lemma CommandsNeverCleared(s: MainWindowState, c: Option<CommandRef>)
    ensures s.save.Some? ==> WithSave(s, c).save.Some?
    ensures s.help.Some? ==> WithHelp(s, c).help.Some?
    ensures s.settings.Some? ==> WithSettings(s, c).settings.Some?
  {
  }

  /** Applying the same copy-with of the message or the suggestions twice is the same as
      applying it once. */
  lemma WithReferenceIdempotent(s: MainWindowState, m: Option<string>, l: Option<seq<SemanticEmoji>>)
    ensures WithMessage(WithMessage(s, m), m) == WithMessage(s, m)
    ensures WithSuggestions(WithSuggestions(s, l), l) == WithSuggestions(s, l)
  {
  }

  /** Applying the same copy-with of a command twice is the same as applying it once. */
  lemma WithCommandIdempotent(s: MainWindowState, c: Option<CommandRef>)
    ensures WithSave(WithSave(s, c), c) == WithSave(s, c)
    ensures WithHelp(WithHelp(s, c), c) == WithHelp(s, c)
    ensures WithSettings(WithSettings(s, c), c) == WithSettings(s, c)
  {
  }

  /** Applying the same copy-with of a flag twice is the same as applying it once. */
  lemma WithFlagIdempotent(s: MainWindowState, b: bool)
    ensures WithHasUserEdited(WithHasUserEdited(s, b), b) == WithHasUserEdited(s, b)
    ensures WithFocus(WithFocus(s, b), b) == WithFocus(s, b)
    ensures WithClose(WithClose(s, b), b) == WithClose(s, b)
  {
  }

  /** Applying the same copy-with of the caret or the search term twice is the same as
      applying it once. */
  lemma WithPositionIdempotent(s: MainWindowState, i: int, t: Option<string>)
    ensures WithSelectionStart(WithSelectionStart(s, i), i) == WithSelectionStart(s, i)
    ensures WithSearchTerm(WithSearchTerm(s, i, t), i, t) == WithSearchTerm(s, i, t)
  {
  }
}
