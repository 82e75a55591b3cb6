/** The state transforms of `MainWindowViewDispatcher`: each handler maps the current
    `LastState` and an operation to the next state. File contents arrive as strings, and the
    culture-dependent `ToLower`/`ToUpper` are per-character maps passed in. */
module MainWindow {
  import opened Wrappers
  import opened Seqs
  import opened Strings
  import opened Emoji
  import opened MainWindowStates
  import opened StateMessages

  /** The state dispatched by the constructor: the three commands and the full emoji list,
      every other field at its fallback. */
  function InitialState(save: CommandRef, help: CommandRef, settings: CommandRef,
                        blessed: seq<SemanticEmoji>): (s: MainWindowState)
    ensures s.save == Some(save) && s.help == Some(help) && s.settings == Some(settings)
    ensures s.suggestions == Some(blessed)
    ensures s.message.None? && !s.hasUserEdited && s.selectionStart == 0
    ensures !s.focus && !s.close && s.searchTerm == NoSearch
  {
    Merge(None, NoArgs.(save := Some(save), help := Some(help), settings := Some(settings),
                        suggestions := Some(blessed)))
  }

  // ---------------------------------------------------------------- suggestions

  /** `operation.SearchTerm?.Trim(':')`. */
  function StripColons(term: Option<string>): Option<string> {
    match term
    case Some(t) => Some(TrimChar(t, ':'))
    case None => None
  }

  /** An emoji matches the needle when its lower-cased shortcode or description contains it. */
  predicate Matches(lower: char -> char, needle: string, e: SemanticEmoji) {
    Contains(MapChars(e.shortCode, lower), needle) || Contains(MapChars(e.description, lower), needle)
  }

  /** The emoji of `blessed` that match the needle, in list order. */
  function Suggestions(lower: char -> char, needle: string, blessed: seq<SemanticEmoji>): (r: seq<SemanticEmoji>)
    ensures IsSubsequence(r, blessed)
    ensures forall e :: e in r <==> e in blessed && Matches(lower, needle, e)
    ensures forall e :: multiset(r)[e] == if Matches(lower, needle, e) then multiset(blessed)[e] else 0
  {
    var r := Filter(e => Matches(lower, needle, e), blessed);
    FilterIsSubsequence(e => Matches(lower, needle, e), blessed);
    forall e ensures e in r <==> e in blessed && Matches(lower, needle, e) {
      FilterMembership(e => Matches(lower, needle, e), blessed, e);
    }
    forall e ensures multiset(r)[e] == if Matches(lower, needle, e) then multiset(blessed)[e] else 0 {
      FilterCount(e => Matches(lower, needle, e), blessed, e);
    }
    r
  }

  /** `UpdateCommitMessage`. A search term that is null or blank once its colons are removed
      resets the suggestions to the full list and clears the search; otherwise the suggestions
      are the matching emoji and the search term is kept as typed. Either way the message
      (unless null) and the selection are taken from the edit and the state is user-edited. */
  function UpdateCommitMessage(last: MainWindowState, blessed: seq<SemanticEmoji>,
                               op: CommitMessageEditOperation, lower: char -> char): (s: MainWindowState)
    ensures s.hasUserEdited && s.selectionStart == op.selectionStartIndex
    ensures s.message == (if op.message.Some? then op.message else last.message)
    ensures s.focus == last.focus && s.close == last.close
    ensures s.save == last.save && s.help == last.help && s.settings == last.settings
    ensures IsNullOrWhiteSpace(StripColons(op.searchTerm)) ==>
              s.suggestions == Some(blessed) && s.searchTerm == NoSearch
    ensures !IsNullOrWhiteSpace(StripColons(op.searchTerm)) ==>
              var needle := Trim(MapChars(StripColons(op.searchTerm).value, lower));
              && s.searchTerm == SearchTerm(op.searchIndex, op.searchTerm)
              && s.suggestions.Some?
              && IsSubsequence(s.suggestions.value, blessed)
              && (forall e :: e in s.suggestions.value <==> e in blessed && Matches(lower, needle, e))
              && (forall e :: multiset(s.suggestions.value)[e]
                               == if Matches(lower, needle, e) then multiset(blessed)[e] else 0)
  {
    var searchTerm := StripColons(op.searchTerm);
    if IsNullOrWhiteSpace(searchTerm) then
      var s1 := WithSuggestions(last, Some(blessed));
      var s2 := WithSearchTerm(s1, 0, None);
      var s3 := WithMessage(s2, op.message);
      var s4 := WithHasUserEdited(s3, true);
      WithSelectionStart(s4, op.selectionStartIndex)
    else
      var needle := Trim(MapChars(searchTerm.value, lower));
      var s1 := WithSuggestions(last, Some(Suggestions(lower, needle, blessed)));
      var s2 := WithSearchTerm(s1, op.searchIndex, op.searchTerm);
      var s3 := WithMessage(s2, op.message);
      var s4 := WithHasUserEdited(s3, true);
      WithSelectionStart(s4, op.selectionStartIndex)
  }

  // ---------------------------------------------------------------- choosing a suggestion

  /** The `UseSuggestion` branch taken while a search term `(i, t)` is active: the `|t|`
      characters ending at `i` are replaced by the emoji and the caret is put right after it.
      `Substring` throws if either cut lies outside the message; a null message throws. */
  function SpliceSuggestion(last: MainWindowState, emoji: SemanticEmoji): (r: Result<MainWindowState>)
    requires !IsNullOrWhiteSpace(last.searchTerm.term)
    ensures last.message.None? ==> r == Failure(NullReference)
    ensures last.message.Some? ==>
              var i, t, m := last.searchTerm.index, last.searchTerm.term.value, last.message.value;
              var cut := i + 1 - |t|;
              && (r.Failure? <==> !(0 <= cut <= |m| && 0 <= i + 1 <= |m|))
              && (r.Failure? ==> r.error == ArgumentOutOfRange)
    ensures r.Success? ==>
              var i, t, m := last.searchTerm.index, last.searchTerm.term.value, last.message.value;
              var cut := i + 1 - |t|;
              && last.message.Some? && r.value.message.Some?
              && var m' := r.value.message.value;
              && |m'| == cut + |emoji.emoji| + (|m| - (i + 1))
              && m'[..cut] == m[..cut]
              && m'[cut..cut + |emoji.emoji|] == emoji.emoji
              && m'[cut + |emoji.emoji|..] == m[i + 1..]
              && r.value == last.(message := r.value.message, hasUserEdited := true,
                                  selectionStart := cut + |emoji.emoji|, searchTerm := NoSearch)
  {
    var i, t := last.searchTerm.index, last.searchTerm.term.value;
    var cut := i + 1 - |t|;
    match last.message
    case None => Failure(NullReference)
    case Some(m) =>
      if !(0 <= cut <= |m|) || !(0 <= i + 1 <= |m|) then Failure(ArgumentOutOfRange)
      else
        var newMessage := m[..cut] + emoji.emoji + m[i + 1..];
        assert newMessage[..cut] == m[..cut];
        assert newMessage[cut..cut + |emoji.emoji|] == emoji.emoji;
        assert newMessage[cut + |emoji.emoji|..] == m[i + 1..];
        var s1 := WithMessage(last, Some(newMessage));
        var s2 := WithHasUserEdited(s1, true);
        var s3 := WithSelectionStart(s2, cut + |emoji.emoji|);
        Success(WithSearchTerm(s3, 0, None))
  }

  /** The `UseSuggestion` branch taken without a search term: the emoji is appended to the
      message (null counts as ""), after one separating space unless the message is empty or
      already ends in a space, and the caret goes to the end. */
  function AppendSuggestion(last: MainWindowState, emoji: SemanticEmoji): (s: MainWindowState)
    ensures var m := last.message.OrElse("");
            && s.message.Some?
            && var m' := s.message.value;
            && StartsWith(m', m) && EndsWith(m', emoji.emoji)
            && |m'| == |m| + |emoji.emoji| + (if |m| > 0 && !EndsWith(m, " ") then 1 else 0)
            && (|m'| > |m| + |emoji.emoji| ==> m'[|m|] == ' ')
            && s == last.(message := s.message, hasUserEdited := true,
                          selectionStart := |m'|, searchTerm := NoSearch)
  {
    var newMessage := AppendEmoji(last.message.OrElse(""), emoji.emoji);
    var s1 := WithMessage(last, Some(newMessage));
    var s2 := WithHasUserEdited(s1, true);
    var s3 := WithSelectionStart(s2, |newMessage|);
    WithSearchTerm(s3, 0, None)
  }

  /** The message with the emoji appended, separated by a space when needed. */
  function AppendEmoji(m: string, e: string): (m': string)
    ensures StartsWith(m', m) && EndsWith(m', e)
    ensures |m'| == |m| + |e| + (if |m| > 0 && !EndsWith(m, " ") then 1 else 0)
    ensures |m'| > |m| + |e| ==> m'[|m|] == ' '
  {
    var spaced := if |m| > 0 && !EndsWith(m, " ") then m + " " else m;
    var m' := spaced + e;
    assert m'[..|m|] == m;
    assert m'[|m'| - |e|..] == e;
    m'
  }

  /** `UseSuggestion`: splices the emoji over the active search term, or appends it when
      there is none; either way the state becomes user-edited and the search is cleared. */
  function UseSuggestion(last: MainWindowState, emoji: SemanticEmoji): (r: Result<MainWindowState>)
    ensures IsNullOrWhiteSpace(last.searchTerm.term) ==> r.Success?
    ensures last.searchTerm.term.None? ==> r.Success?
    ensures r.Success? ==>
              && r.value.hasUserEdited && r.value.searchTerm == NoSearch && r.value.message.Some?
              && r.value.focus == last.focus && r.value.close == last.close
              && r.value.suggestions == last.suggestions
  {
    if !IsNullOrWhiteSpace(last.searchTerm.term) then SpliceSuggestion(last, emoji)
    else Success(AppendSuggestion(last, emoji))
  }

  /** When the search term really is the text that ends at its index, choosing a suggestion
      replaces exactly that occurrence of the term by the emoji. */
  lemma UseSuggestionReplacesTerm(last: MainWindowState, emoji: SemanticEmoji, m: string)
    requires last.message == Some(m) && !IsNullOrWhiteSpace(last.searchTerm.term)
    requires OccursAt(m, last.searchTerm.term.value, last.searchTerm.index + 1 - |last.searchTerm.term.value|)
    ensures var t, cut := last.searchTerm.term.value, last.searchTerm.index + 1 - |last.searchTerm.term.value|;
            UseSuggestion(last, emoji).Success?
            && m == m[..cut] + t + m[cut + |t|..]
            && UseSuggestion(last, emoji).value.message == Some(m[..cut] + emoji.emoji + m[cut + |t|..])
  {
    var t, cut := last.searchTerm.term.value, last.searchTerm.index + 1 - |last.searchTerm.term.value|;
    var r := UseSuggestion(last, emoji);
    var m' := r.value.message.value;
    assert m' == m'[..cut] + m'[cut..cut + |emoji.emoji|] + m'[cut + |emoji.emoji|..];
  }

  /** Appending to a message that already ends in a space adds no second space. */
  lemma AppendAfterSpaceAddsNoSpace(last: MainWindowState, emoji: SemanticEmoji, m: string)
    requires last.message == Some(m) && EndsWith(m, " ") && IsNullOrWhiteSpace(last.searchTerm.term)
    ensures UseSuggestion(last, emoji) == Success(last.(message := Some(m + emoji.emoji), hasUserEdited := true,
                                                        selectionStart := |m| + |emoji.emoji|,
                                                        searchTerm := NoSearch))
  {
    var r := UseSuggestion(last, emoji);
    var m' := r.value.message.value;
    assert m' == m'[..|m|] + m'[|m|..];
    assert m'[|m|..] == emoji.emoji;
  }

  // ---------------------------------------------------------------- loading a commit file

  const RefPrefix: string := "ref: refs/heads/"

  /** `GetBranchName`: when `HEAD` exists and starts with "ref:", its text with every
      "ref: refs/heads/" removed and white space trimmed; otherwise null. */
  function GetBranchName(headContents: Option<string>): (r: Option<string>)
    ensures r.Some? <==> headContents.Some? && StartsWith(headContents.value, "ref:")
    ensures r.Some? ==> |r.value| <= |headContents.value|
  {
    match headContents
    case Some(h) =>
      if StartsWith(h, "ref:") then Some(Trim(RemoveAll(h, RefPrefix))) else None
    case None => None
  }

  /** A symbolic `HEAD` as git writes it, "ref: refs/heads/" then the branch name then a line
      break (any trailing white space), yields exactly the branch name, provided the name has
      no white space at its ends and does not itself contain "ref: refs/heads/". */
  lemma BranchOfSymbolicHead(b: string, w: string)
    requires IndexOf(b, RefPrefix) == -1
    requires |b| > 0 ==> !IsWhiteSpace(b[0]) && !IsWhiteSpace(b[|b| - 1])
    requires forall i :: 0 <= i < |w| ==> IsWhiteSpace(w[i])
    ensures GetBranchName(Some(RefPrefix + (b + w))) == Some(b)
  {
    HeadStartsWithRef(b + w);
    StripPatternAndTrim(RefPrefix, b, w);
    SymbolicBranchName(RefPrefix + (b + w));
  }

  /** A `HEAD` starting with "ref:" names the trimmed text left once the prefix is removed. */
  lemma SymbolicBranchName(h: string)
    requires StartsWith(h, "ref:")
    ensures GetBranchName(Some(h)) == Some(Trim(RemoveAll(h, RefPrefix)))
  {
  }

  /** The usual `HEAD` of a branch "main". */
  lemma BranchOfMainHead()
    ensures GetBranchName(Some(RefPrefix + "main\n")) == Some("main")
  {
    assert "main" + "\n" == "main\n";
    BranchOfSymbolicHead("main", "\n");
  }

  lemma HeadStartsWithRef(b: string)
    ensures StartsWith(RefPrefix + b, "ref:")
  {
    var h := RefPrefix + b;
    assert h[..4] == RefPrefix[..4];
    assert RefPrefix[..4] == "ref:";
  }

  /** The ticket: the upper-cased text after the branch's last '/', or "" when the branch is
      null or has no '/'. */
  function TicketOf(branch: Option<string>, upper: char -> char): (r: string)
    ensures branch.None? || '/' !in branch.value ==> r == ""
    ensures branch.Some? && '/' in branch.value ==>
              var k := LastIndexOf(branch.value, '/');
              0 <= k && r == MapChars(branch.value[k + 1..], upper) && '/' !in branch.value[k + 1..]
  {
    match branch
    case Some(b) =>
      if Contains(b, "/") then
        ContainsSlash(b);
        MapChars(b[LastIndexOf(b, '/') + 1..], upper)
      else
        ContainsSlash(b);
        ""
    case None => ""
  }

  lemma ContainsSlash(b: string)
    ensures Contains(b, "/") <==> '/' in b
  {
    if Contains(b, "/") {
      var i := IndexOf(b, "/");
      assert OccursAt(b, "/", i);
      assert b[i] == b[i..i + 1][0];
    }
    if '/' in b {
      var i :| 0 <= i < |b| && b[i] == '/';
      assert OccursAt(b, "/", i);
    }
  }

  /** A line counts as content when it is non-empty and not a '#' comment. */
  predicate IsContentLine(line: string) {
    |line| > 0 && !StartsWith(line, "#")
  }

  /** Whether any line of the text (split on '\n') is content. */
  predicate HasContent(text: string) {
    exists line :: line in Split(text, '\n') && IsContentLine(line)
  }

  /** Branches that never get a ticket prefix. */
  predicate IsPlainBranch(branch: Option<string>) {
    branch.None? || branch.value in {"dev", "test", "master"}
  }

  /** The ticket prefix rule of `Load`: a text with no content lines, on a branch other than
      dev, test or master, gets "TICKET: " in front unless it already starts with the ticket. */
  function PrefixCommitText(text: string, branch: Option<string>, upper: char -> char): (r: string)
    ensures var ticket := TicketOf(branch, upper);
            && (r != text <==> !HasContent(text) && !IsPlainBranch(branch) && !StartsWith(text, ticket))
            && (r != text ==> r == ticket + ": " + text)
  {
    var ticket := TicketOf(branch, upper);
    if !HasContent(text) && !IsPlainBranch(branch) && !StartsWith(text, ticket) then
      assert |ticket + ": " + text| > |text|;
      ticket + ": " + text
    else text
  }

  /** A branch without '/' yields the empty ticket, and every text starts with "", so it
      never gets a prefix. */
  lemma NoSlashNoPrefix(text: string, branch: Option<string>, upper: char -> char)
    requires branch.None? || '/' !in branch.value
    ensures PrefixCommitText(text, branch, upper) == text
  {
    assert StartsWith(text, "");
  }

  /** Prefixing is idempotent: a prefixed text starts with its ticket. */
  lemma PrefixIdempotent(text: string, branch: Option<string>, upper: char -> char)
    ensures var r := PrefixCommitText(text, branch, upper);
            PrefixCommitText(r, branch, upper) == r
  {
    var ticket := TicketOf(branch, upper);
    var r := PrefixCommitText(text, branch, upper);
    if r != text {
      assert (ticket + ": " + text)[..|ticket|] == ticket;
      assert StartsWith(r, ticket);
    }
  }

  /** The files `Load` reads: the commit message and, if present, the repository's `HEAD`. */
  datatype LoadedFile = LoadedFile(commitText: string, headContents: Option<string>)

  /** `Load`: when the file exists, the (possibly prefixed) text becomes the message, the
      state is not user-edited, focus is requested and the caret goes to the end of the first
      line (0 if there is no newline). A missing file changes nothing. */
  function Load(last: MainWindowState, file: Option<LoadedFile>, upper: char -> char): (s: MainWindowState)
    ensures file.None? ==> s == last
    ensures file.Some? ==>
              var text := PrefixCommitText(file.value.commitText, GetBranchName(file.value.headContents), upper);
              var nl := IndexOf(text, "\n");
              && s == last.(message := Some(text), hasUserEdited := false, focus := true,
                            selectionStart := s.selectionStart)
              && 0 <= s.selectionStart <= |text|
              && (nl >= 0 ==> s.selectionStart == nl && text[nl] == '\n' && '\n' !in text[..nl])
              && (nl < 0 ==> s.selectionStart == 0 && '\n' !in text)
  {
    match file
    case None => last
    case Some(f) =>
      var branch := GetBranchName(f.headContents);
      var text := PrefixCommitText(f.commitText, branch, upper);
      var nl := IndexOf(text, "\n");
      NewlineIndex(text);
      var s1 := WithMessage(last, Some(text));
      var s2 := WithHasUserEdited(s1, false);
      var s3 := WithSelectionStart(s2, if nl < 0 then 0 else nl);
      WithFocus(s3, true)
  }

  lemma NewlineIndex(text: string)
    ensures var nl := IndexOf(text, "\n");
            && (nl >= 0 ==> text[nl] == '\n' && '\n' !in text[..nl])
            && (nl < 0 ==> '\n' !in text)
  {
    var nl := IndexOf(text, "\n");
    if nl >= 0 {
      assert OccursAt(text, "\n", nl);
      forall j | 0 <= j < nl ensures text[j] != '\n' {
        assert !OccursAt(text, "\n", j);
      }
    } else {
      forall j | 0 <= j < |text| ensures text[j] != '\n' {
        assert !OccursAt(text, "\n", j);
      }
    }
  }

  // ---------------------------------------------------------------- saving

  /** `SaveImpl`: writes the message to the loaded file, if one was loaded (a null message
      writes an empty file), and requests the window to close. */
  function Save(last: MainWindowState, filePath: Option<string>): (r: (MainWindowState, Option<(string, string)>))
    ensures r.0 == last.(close := true)
    ensures filePath.None? <==> r.1.None?
    ensures filePath.Some? ==> r.1 == Some((filePath.value, last.message.OrElse("")))
  {
    var write := match filePath
      case Some(p) => Some((p, last.message.OrElse("")))
      case None => None;
    (WithClose(last, true), write)
  }
}
