/** The `MainWindowViewDispatcher` object as a whole: a view dispatcher tracking
    `MainWindowState`, the two handlers its constructor registers on itself, the `Load`
    handler it registers on the global dispatcher, and the loaded file path. A handler runs
    on the last element of each batch its registration is delivered; these registrations are
    never paused, so every batch is the single message just dispatched (`DispatchKeepsHandler`)
    and a handler runs exactly for the messages of its kind. The state it computes is
    dispatched back onto the view dispatcher. */
module MainWindowDispatchers {
  import opened Wrappers
  import opened Seqs
  import opened Emoji
  import opened MainWindowStates
  import opened StateMessages
  import opened MainWindow
  import R = Registrations
  import G = GlobalDispatchers
  import V = ViewDispatchers

  /** What the window's surroundings supply: the commands for help and settings, the command
      wrapping `SaveImpl`, the parsed emoji list, the culture's casing, and the file system
      as a function from a path to the files `Load` reads (`None` when the path does not
      exist). */
  datatype Environment = Environment(
    save: CommandRef,
    help: CommandRef,
    settings: CommandRef,
    blessed: seq<SemanticEmoji>,
    lower: char -> char,
    upper: char -> char,
    files: string -> Option<LoadedFile>
  )

  datatype MainWindowDispatcher = MainWindowDispatcher(
    view: V.ViewDispatcher,        // the base ViewDispatcher<MainWindowState>
    editHandle: nat,               // RegisterLast<CommitMessageEditOperation>(UpdateCommitMessage)
    suggestionHandle: nat,         // RegisterLast<SuggestionSelectedOperation>(UseSuggestion)
    global: G.Dispatcher,          // Curfew.Dispatcher, as this window sees it
    loadHandle: nat,               // RegisterLast<LoadFileOperation>(Load) on the global dispatcher
    filePath: Option<string>,      // the path of the loaded commit message file
    written: seq<(string, string)>  // the (path, text) pairs SaveImpl has written, in order
  )

  /** Registration `h` of `d` is an active `RegisterLast` registration for kind `k`. */
  ghost predicate Handles(d: G.Dispatcher, h: nat, k: Kind) {
    && h < |d.registrations|
    && d.registrations[h].attached && d.registrations[h].emit && d.registrations[h].queue == []
    && (forall m :: d.registrations[h].accepts(m) <==> IsKind(m, k))
  }

  /** The constructor's registrations are in place and `LastState` holds a window state. */
  ghost predicate Valid(w: MainWindowDispatcher) {
    && V.Valid(w.view) && w.view.tracked == MainWindowStateKind && w.view.lastState.Some?
    && Handles(w.view.base, w.editHandle, CommitMessageEditKind)
    && Handles(w.view.base, w.suggestionHandle, SuggestionSelectedKind)
    && Handles(w.global, w.loadHandle, LoadFileKind)
  }

  /** `LastState`. */
  function LastState(w: MainWindowDispatcher): MainWindowState
    requires Valid(w)
  {
    w.view.lastState.value.state
  }

  /** The constructor: dispatches the initial state, then registers the edit and suggestion
      handlers on itself and the load handler on the global dispatcher. */
  function New(env: Environment, shared: G.Dispatcher): (w: MainWindowDispatcher)
    ensures && Valid(w)
            && LastState(w) == InitialState(env.save, env.help, env.settings, env.blessed)
            && w.global.registrations[..w.loadHandle] == shared.registrations
    ensures w.filePath.None? && w.written == []
  {
    var vd := V.Dispatch(V.New(MainWindowStateKind), MainWindow(InitialState(env.save, env.help, env.settings, env.blessed)));
    var (b1, eh) := G.RegisterLast(vd.base, CommitMessageEditKind);
    var (b2, sh) := G.RegisterLast(b1, SuggestionSelectedKind);
    assert b2.registrations[eh] == b1.registrations[eh];
    var (g1, lh) := G.RegisterLast(shared, LoadFileKind);
    MainWindowDispatcher(vd.(base := b2), eh, sh, g1, lh, None, [])
  }

  /** Dispatching keeps a handler registration active and filtered, and delivers it exactly
      the messages of its kind, each as a batch of one. */
  lemma DispatchKeepsHandler(d: G.Dispatcher, h: nat, k: Kind, m: Message)
    requires Handles(d, h, k)
    ensures Handles(G.Dispatch(d, m), h, k)
    ensures var log, log' := d.registrations[h].delivered, G.Dispatch(d, m).registrations[h].delivered;
            && (IsKind(m, k) ==> log' == log + [[m]])
            && (!IsKind(m, k) ==> log' == log)
  {
    assert d.registrations[h].queue + [m] == [m];
  }

  /** Dispatches the state a handler produced (if any) onto the view dispatcher. */
  function Publish(w: MainWindowDispatcher, s: Option<MainWindowState>): (w': MainWindowDispatcher)
    requires Valid(w)
    ensures Valid(w')
    ensures s.Some? ==> LastState(w') == s.value
    ensures s.None? ==> w' == w
    ensures w'.filePath == w.filePath && w'.written == w.written && w'.global == w.global
  {
    match s
    case None => w
    case Some(state) =>
      var m := MainWindow(state);
      DispatchKeepsHandler(w.view.base, w.editHandle, CommitMessageEditKind, m);
      DispatchKeepsHandler(w.view.base, w.suggestionHandle, SuggestionSelectedKind, m);
      w.(view := V.Dispatch(w.view, m))
  }

  /** `Dispatch` on the window's own dispatcher: `LastState` and the two handler
      registrations see the message; a handler that is delivered it computes a new state
      from `LastState` and dispatches it. A `LoadFileOperation` sent here reaches no handler,
      because `Load` listens on the global dispatcher. */
  function Dispatch(env: Environment, w: MainWindowDispatcher, m: Message): (r: Result<MainWindowDispatcher>)
    requires Valid(w)
    ensures r.Success? ==> Valid(r.value) && r.value.filePath == w.filePath && r.value.written == w.written
    ensures m.MainWindow? ==> r.Success? && LastState(r.value) == m.state
    ensures m.CommitMessageEdit? ==>
              r.Success? && LastState(r.value) == UpdateCommitMessage(LastState(w), env.blessed, m.edit, env.lower)
    ensures m.SuggestionSelected? ==>
              var u := UseSuggestion(LastState(w), m.emoji);
              && (u.Failure? ==> r == Failure(u.error))
              && (u.Success? ==> r.Success? && LastState(r.value) == u.value)
    ensures m.LoadFile? ==> r.Success? && LastState(r.value) == LastState(w)
  {
    var last := LastState(w);
    DispatchKeepsHandler(w.view.base, w.editHandle, CommitMessageEditKind, m);
    DispatchKeepsHandler(w.view.base, w.suggestionHandle, SuggestionSelectedKind, m);
    var w1 := w.(view := V.Dispatch(w.view, m));
    match m
    case CommitMessageEdit(op) => Success(Publish(w1, Some(UpdateCommitMessage(last, env.blessed, op, env.lower))))
    case SuggestionSelected(e) =>
      (match UseSuggestion(last, e)
       case Failure(err) => Failure(err)
       case Success(s) => Success(Publish(w1, Some(s))))
    case _ => Success(w1)
  }

  /** `Load` as a handler of the global dispatcher: a null path throws; a path that exists
      is remembered and its text loaded into the state; any other path changes nothing. */
  function LoadHandler(env: Environment, w: MainWindowDispatcher, m: Message): (r: Result<MainWindowDispatcher>)
    requires Valid(w)
    ensures m.LoadFile? && m.filePath.None? ==> r == Failure(ArgumentNull)
    ensures m.LoadFile? && m.filePath.Some? ==> r.Success? && Valid(r.value) && r.value.written == w.written
    ensures !m.LoadFile? ==> r == Success(w)
  {
    match m
    case LoadFile(None) => Failure(ArgumentNull)
    case LoadFile(Some(path)) =>
      (match env.files(path)
       case None => Success(w)
       case Some(f) => Success(Publish(w.(filePath := Some(path)), Some(Load(LastState(w), Some(f), env.upper)))))
    case _ => Success(w)
  }

  /** Dispatching on the global dispatcher: the `Load` registration is delivered every
      `LoadFileOperation` and runs `Load` on it; nothing else reaches this window. */
  function DispatchGlobal(env: Environment, w: MainWindowDispatcher, m: Message): (r: Result<MainWindowDispatcher>)
    requires Valid(w)
    ensures r.Success? ==> Valid(r.value) && r.value.written == w.written
    ensures !m.LoadFile? ==> r.Success? && LastState(r.value) == LastState(w) && r.value.filePath == w.filePath
    ensures m.LoadFile? && m.filePath.None? ==> r == Failure(ArgumentNull)
    ensures m.LoadFile? && m.filePath.Some? && env.files(m.filePath.value).None? ==>
              r.Success? && LastState(r.value) == LastState(w) && r.value.filePath == w.filePath
    ensures m.LoadFile? && m.filePath.Some? && env.files(m.filePath.value).Some? ==>
              && r.Success? && r.value.filePath == m.filePath
              && LastState(r.value) == Load(LastState(w), env.files(m.filePath.value), env.upper)
  {
    DispatchKeepsHandler(w.global, w.loadHandle, LoadFileKind, m);
    LoadHandler(env, w.(global := G.Dispatch(w.global, m)), m)
  }

  /** `SaveImpl`, run by the save command: writes the message to the loaded file if there is
      one, then dispatches the state with `Close` set. */
  function Save(w: MainWindowDispatcher): (w': MainWindowDispatcher)
    requires Valid(w)
    ensures Valid(w') && LastState(w').close && w'.filePath == w.filePath
    ensures LastState(w') == LastState(w).(close := true)
    ensures w.filePath.None? ==> w'.written == w.written
    ensures w.filePath.Some? ==>
              w'.written == w.written + [(w.filePath.value, LastState(w).message.OrElse(""))]
  {
    var (s, write) := MainWindow.Save(LastState(w), w.filePath);
    var w1 := w.(written := w.written + match write case Some(p) => [p] case None => []);
    Publish(w1, Some(s))
  }

  /** Loading an existing file and then saving writes the loaded (possibly ticket-prefixed)
      text back to the same path. */
  lemma LoadThenSaveWritesLoadedText(env: Environment, w: MainWindowDispatcher, path: string)
    requires Valid(w) && env.files(path).Some?
    ensures var r := DispatchGlobal(env, w, LoadFile(Some(path)));
            var f := env.files(path).value;
            && r.Success?
            && Save(r.value).written
               == w.written + [(path, PrefixCommitText(f.commitText, GetBranchName(f.headContents), env.upper))]
  {
  }

  /** An edit followed by saving writes exactly the edited message. */
  lemma EditThenSaveWritesEdit(env: Environment, w: MainWindowDispatcher, op: CommitMessageEditOperation, path: string, text: string)
    requires Valid(w) && w.filePath == Some(path) && op.message == Some(text)
    ensures var r := Dispatch(env, w, CommitMessageEdit(op));
            r.Success? && Save(r.value).written == w.written + [(path, text)]
  {
  }
}
