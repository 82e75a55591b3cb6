# Craft core in Dafny

Craft is a small Windows commit-message editor. Git opens it as its editor. It loads
`COMMIT_EDITMSG`, suggests emoji while the user types `:shortcode`, prefixes the message with
the ticket named by the branch, and writes the message back on save. Its core is a small
state-management library called Curfew:

- a global dispatcher that broadcasts immutable state objects;
- registrations that can be paused, resumed and unregistered;
- view dispatchers that remember the last state of their own type;
- `RxCommand`, a reactive command with a gate, an "is executing" stream, default values and
  combinators.

On top of Curfew sit the main window's state record and the main window's view dispatcher.
This project models that core as immutable Dafny datatypes and pure functions, and proves
what each operation promises.

| file | module | models |
|---|---|---|
| `wrappers.dfy` | `Wrappers` | `null` as `Option`; a thrown exception as `Result` |
| `seqs.dfy`, `strings.dfy` | `Seqs`, `Strings` | the LINQ and `System.String` operations the core uses (`Where`, `Last`, `Trim`, `Split`, `Replace`, `IndexOf`, …) |
| `registration.dfy` | `Registrations` | `Registration<T>`: pause, resume, unregister, and the queue of held messages |
| `global_dispatcher.dfy` | `GlobalDispatchers` | `GlobalDispatcher`: `Dispatch`, `Register`, `RegisterLast` |
| `view_dispatcher.dfy` | `ViewDispatchers` | `ViewDispatcher<T>` and its `LastState` |
| `command.dfy` | `Commands` | `RxCommand<TInput, TOutput>`: gate, `InvokeAsync` split into begin and complete, `ICommand`, factories |
| `command_combinators.dfy` | `CommandCombinators` | `Combine`, `AsParameterized`, `AsCommand` |
| `main_window_state.dfy` | `MainWindowStates` | `MainWindowState`: the defaults-merging constructor and the `WithX` copies |
| `state_messages.dfy` | `StateMessages` | the closed set of broadcast state objects and their run-time types |
| `emoji.dfy` | `Emoji` | `SemanticEmoji` and `ShortCodeToEmoji` |
| `main_window.dfy` | `MainWindow` | the main window's handlers as functions of `LastState` |
| `main_window_dispatcher.dfy` | `MainWindowDispatchers` | the main window dispatcher object, with its handlers wired onto the dispatchers |
| `disposables.dfy` | `Disposables` | `ActionOnDispose` |

## Modelling choices

- **Messages.** A broadcast message is one of the four state types the core defines, so
  `T` in `RegisterLast<T>` becomes a `Kind`. Rx subscriptions are modelled as follows:
  - a registration records the batches it has delivered;
  - running a handler is the caller acting on the last element of a new batch.
- **Commands.** A command invocation is split into `Begin` (the locked gate check, then
  `IsExecuting` becomes true) and `Complete` (the result is published, then `IsExecuting`
  becomes false). Between the two, other invocations may start, and that is how overlapping
  calls are modelled.
- **External gate.** The `canExecute` observable a caller passes in is modelled as replaying
  its most recent value (`Gate(latest)`); `None` means it has not produced one yet. The
  command's effective gate is the four-way choice of the constructor, in `EffectiveGate`.
- **Type defaults.** `default(TOutput)` and `default(TInput)` are values the command stores
  (`typeDefault`, `inputDefault`), because Dafny has no per-type default value.
- **Actions.** A command's action is a function from its input to `Returned(v)` or `Threw`.
- **Environment as parameters.** The EmojiOne shortname converter, the culture's
  `ToLower`/`ToUpper`, and the file system are parameters.
- **Commands inside the state.** `IRxCommand` values stored in `MainWindowState` are opaque
  `CommandRef`s.
- **Code over specification.** When a command's action throws, `InvokeAsync` returns
  `default(TOutput)`, not the configured `defaultValue()` (`RxCommand.cs:173`), although the
  constructor's own doc comment describes `defaultValue` as "the return value for when the
  method fails to execute" (`RxCommand.cs:91`). The model follows the code:
  `Commands.Complete` and `Commands.FailureReturnsTypeDefault`. The configured default is
  returned only when the gate denies the call.

## Model

| member | source | states |
|---|---|---|
| Registrations.New | Craft/Curfew/Registration.cs:14-25 | a new registration is attached and emitting, with nothing queued and nothing delivered |
| Registrations.Emit | Craft/Curfew/Registration.cs:61-69 | while emitting, the whole queue is delivered as one batch and the queue is emptied; while paused, nothing changes |
| Registrations.Resume | Craft/Curfew/Registration.cs:27-34 | turns emitting back on and delivers the queue as one batch, even an empty one |
| Registrations.Pause | Craft/Curfew/Registration.cs:36-54 | stops emitting and keeps the queue and the delivery log |
| Registrations.Unregister | Craft/Curfew/Registration.cs:56-59 | detaches the registration and leaves its queue, log and emitting flag as they were |
| Registrations.OnCompleted | Craft/Curfew/Registration.cs:84-87 | completion of the stream is the same as unregistering |
| Registrations.OnNext | Craft/Curfew/Registration.cs:71-78 | an incoming message is delivered with the queue when emitting, and appended to the queue when paused |
| Registrations.Offer | Craft/Curfew/Registration.cs:71-78 | a detached registration, or one whose predicate rejects the message, is unchanged; an active one with an empty queue delivers exactly `[m]` |
| Registrations.OperationsPreserveValid | Craft/Curfew/Registration.cs:27-78 | every operation keeps the invariant: nothing is queued while emitting, and everything queued or delivered passed the predicate |
| Registrations.RunDeliversFilteredArrivals | Craft/Curfew/Registration.cs:27-78 | over any run of arrivals, pauses, resumes and unregistrations, the delivered batches followed by the queue are exactly the accepted arrivals received while attached, in order |
| Registrations.NoLossNoDuplication | Craft/Curfew/Registration.cs:27-78 | from a new registration, no accepted message is lost, duplicated or reordered |
| Registrations.DetachedIgnoresArrivals | Craft/Curfew/Registration.cs:56-59 | after unregistering, arrivals change nothing |
| Registrations.ArrivalsOf | Craft/Curfew/Registration.cs:71-78 | a sequence of messages becomes the same messages as arrival events, one for one |
| Registrations.ObservedArrivals | Craft/Curfew/Registration.cs:71-78 | with arrivals alone, an attached registration observes every message and a detached one none |
| Registrations.ArrivalsKeepFlags | Craft/Curfew/Registration.cs:71-78 | arrivals never pause, resume or detach a registration |
| Registrations.PausedQueuesThenResumeFlushes | Craft/Curfew/Registration.cs:27-54 | while paused, accepted arrivals are only queued; the next resume delivers all of them in one batch |
| Registrations.ActiveDeliversSingletons | Craft/Curfew/Registration.cs:61-78 | an active registration with an empty queue delivers each accepted message as a batch of one and stays empty |
| Registrations.UnregisterIdempotent | Craft/Curfew/Registration.cs:56-59 | unregistering twice is the same as unregistering once |
| GlobalDispatchers.New | Craft/Curfew/GlobalDispatcher.cs:15-18 | a new dispatcher has no registrations |
| GlobalDispatchers.Dispatch | Craft/Curfew/GlobalDispatcher.cs:20-23 | every registration sees the message: attached registrations that accept it deliver it (or queue it while paused), and all others are unchanged |
| GlobalDispatchers.DispatchPreservesValid | Craft/Curfew/GlobalDispatcher.cs:20-23 | dispatching keeps every registration's invariant |
| GlobalDispatchers.Register | Craft/Curfew/GlobalDispatcher.cs:30-33 | adds one new active registration with the given predicate, returns its handle, and leaves the others untouched |
| GlobalDispatchers.RegisterAll | Craft/Curfew/GlobalDispatcher.cs:25-28 | the one-argument `Register` accepts every message; the source declares it but never calls it |
| GlobalDispatchers.RegisterLast | Craft/Curfew/GlobalDispatcher.cs:35-39 | `RegisterLast<T>` accepts exactly the messages of type `T` |
| GlobalDispatchers.OfKind | Craft/Curfew/GlobalDispatcher.cs:38 | the `x is T` filter holds of a message exactly when the message is of kind `T` |
| GlobalDispatchers.RegisterLastWhere | Craft/Curfew/GlobalDispatcher.cs:41-45 | `RegisterLast<T>(predicate, …)` accepts exactly the messages of type `T` that satisfy the predicate |
| GlobalDispatchers.LastOfBatch | Craft/Curfew/GlobalDispatcher.cs:38 | a handler receives the batch's last element; an empty batch throws (`Last()` on an empty array) |
| GlobalDispatchers.Update | Craft/Curfew/Registration.cs:27-59 | acting on one registration by its handle leaves every other registration unchanged |
| GlobalDispatchers.Pause | Craft/Curfew/Registration.cs:36-54 | pausing handle `h` stops its deliveries and keeps its queue, log and subscription; every other registration is unchanged |
| GlobalDispatchers.Resume | Craft/Curfew/Registration.cs:27-34 | resuming handle `h` delivers its whole queue as one batch and makes it active; every other registration is unchanged |
| GlobalDispatchers.Unregister | Craft/Curfew/Registration.cs:56-59 | unregistering handle `h` detaches it and keeps its queue, log and flag; every other registration is unchanged |
| GlobalDispatchers.UnregisteredIgnoresDispatches | Craft/Curfew/Registration.cs:56-59 | after unregistering, no later dispatch changes that registration |
| GlobalDispatchers.DispatchAll | Craft/Curfew/GlobalDispatcher.cs:20-23 | a run of dispatches keeps the number of registrations |
| GlobalDispatchers.DispatchAllIsRun | Craft/Curfew/GlobalDispatcher.cs:20-23 | a run of dispatches acts on each registration exactly as the same run of arrivals acts on that registration alone |
| GlobalDispatchers.DispatchAllDeliversFiltered | Craft/Curfew/GlobalDispatcher.cs:20-23 | over a run of dispatches, each registration's deliveries followed by its queue grow by exactly the accepted messages, in order (nothing if detached) |
| GlobalDispatchers.PausedRegisterLastCoalesces | Craft/Curfew/GlobalDispatcher.cs:35-39 | if a `RegisterLast` registration is paused while `x` and `y` are dispatched, resuming it runs the handler once, on `y` |
| GlobalDispatchers.PausedLogUnchanged | Craft/Curfew/Registration.cs:36-54 | nothing is delivered to a paused registration, whatever is dispatched |
| GlobalDispatchers.ResumeOnEmptyQueueFailsForLast | Craft/Curfew/Registration.cs:27-34 | resuming with an empty queue delivers an empty batch, on which a `RegisterLast` handler's `Last()` throws |
| ViewDispatchers.New | Craft/Curfew/ViewDispatcher.cs:18-23 | `LastState` starts absent, and the internal `RegisterLast` registration is active and filtered to the view's state type |
| ViewDispatchers.UpdateLastState | Craft/Curfew/ViewDispatcher.cs:28-31 | the handler stores the last element of the batch it is given |
| ViewDispatchers.Dispatch | Craft/Curfew/ViewDispatcher.cs:20-31 | `LastState` becomes the message exactly when it has the tracked type and is otherwise unchanged; user registrations see the message too |
| ViewDispatchers.DispatchAll | Craft/Curfew/ViewDispatcher.cs:20-31 | any run of dispatches keeps the view dispatcher's invariant |
| ViewDispatchers.LastStateIsMostRecent | Craft/Curfew/ViewDispatcher.cs:18-31 | after any run of dispatches, `LastState` is the most recently dispatched state of the tracked type, or what it was before |
| ViewDispatchers.MostRecent | Craft/Curfew/ViewDispatcher.cs:18 | the reference definition: a value that differs from the prior one was dispatched and has the tracked type |
| ViewDispatchers.MostRecentCons | Craft/Curfew/ViewDispatcher.cs:18 | the most recent match is found by scanning forward from the first message |
| ViewDispatchers.AbsentUntilFirstTrackedDispatch | Craft/Curfew/ViewDispatcher.cs:18-23 | `LastState` stays absent until a state of the tracked type is dispatched |
| ViewDispatchers.NoneOfKind | Craft/Curfew/ViewDispatcher.cs:18 | with no message of the tracked type there is no most recent one |
| ViewDispatchers.RedispatchLastStateIsStable | Craft/Curfew/ViewDispatcher.cs:28-31 | dispatching `LastState` again leaves `LastState` unchanged |
| Commands.GateFormula | Craft/Curfew/RxCommand.cs:99-113 | the effective gate: unknown only while an external gate has not produced a value; otherwise it is (simultaneous execution allowed, or not executing) and (no external gate, or its latest value) |
| Commands.Refresh | Craft/Curfew/RxCommand.cs:177-183 | a gate value updates `canExecuteValue`, and updates `isAllowedToExecute` only once `InvokeAsync` has subscribed |
| Commands.New | Craft/Curfew/RxCommand.cs:94-118 | a new command is not executing and is allowed to execute; `ICommand.CanExecute` reports the gate's first value, or false when there is none |
| Commands.SubscribeResults | Craft/Curfew/RxCommand.cs:125-128 | subscribing to the results invokes nothing: results, started inputs, `IsExecuting` and both gate caches are unchanged |
| Commands.SubscribedReceives | Craft/Curfew/RxCommand.cs:159-171 | after subscribing, every notification reaches the subscriber until the stream has ended with an error, and none after that |
| Commands.GateEmits | Craft/Curfew/RxCommand.cs:177-183 | a new external value `v` makes the gate (simultaneous allowed, or not executing) and `v`, seen by `CanExecute` and, once subscribed, by `InvokeAsync` |
| Commands.Subscribe | Craft/Curfew/RxCommand.cs:143-147 | the first invocation subscribes to the gate; later ones do not subscribe again |
| Commands.Begin | Craft/Curfew/RxCommand.cs:139-154 | a denied call returns the configured default value and starts nothing; an allowed call starts the action with its input and sets `IsExecuting` |
| Commands.Notify | Craft/Curfew/RxCommand.cs:159-171 | a result is published only if someone subscribed, and never after an error has terminated the subject |
| Commands.Complete | Craft/Curfew/RxCommand.cs:156-174 | the call returns the action's value, or `default(TOutput)` if the action threw; it publishes the value or the error and clears `IsExecuting` |
| Commands.Invoke | Craft/Curfew/RxCommand.cs:139-175 | a whole invocation: when denied, the configured default and nothing run; otherwise the action runs once with the input and `IsExecuting` goes true then false |
| Commands.ExclusiveBeginPreservesValid | Craft/Curfew/RxCommand.cs:139-154 | for a command without simultaneous execution whose gate has a value, starting keeps at most one invocation in flight and the cached permission equal to the effective gate |
| Commands.ExclusiveCompletePreservesValid | Craft/Curfew/RxCommand.cs:156-174 | completing keeps the exclusivity invariant, with or without an external gate |
| Commands.ExclusiveGateEmitsPreservesValid | Craft/Curfew/RxCommand.cs:177-183 | a new external gate value keeps the exclusivity invariant |
| Commands.ExclusiveRunNeverOverlaps | Craft/Curfew/RxCommand.cs:92-113 | over any interleaving of begins, completions and external gate values, a command without simultaneous execution whose gate has a value never has two invocations in flight |
| Commands.NewExclusiveValid | Craft/Curfew/RxCommand.cs:94-118 | a new command without simultaneous execution starts exclusive exactly when it has no external gate or one that already has a value |
| Commands.ExecutingDeniesInvoke | Craft/Curfew/RxCommand.cs:92-93 | while an invocation of an exclusive command is executing, any further call returns the default value and starts nothing |
| Commands.OverlappingInvokeIsDenied | Craft/Curfew/RxCommand.cs:139-154 | two calls without awaiting the first: if the gate allows the first, it runs and the second returns the default value; otherwise both return the default value and nothing runs |
| Commands.RefreshIsConsistent | Craft/Curfew/RxCommand.cs:177-183 | after the gate is refreshed, the stored permission agrees with the effective gate |
| Commands.BeginPreservesConsistent | Craft/Curfew/RxCommand.cs:139-154 | starting keeps the stored permission in step with the gate |
| Commands.CompletePreservesConsistent | Craft/Curfew/RxCommand.cs:156-174 | completing keeps the stored permission in step with the gate |
| Commands.GateEmitsPreservesConsistent | Craft/Curfew/RxCommand.cs:177-183 | an external gate value keeps the stored permission in step with the gate |
| Commands.NewIsConsistent | Craft/Curfew/RxCommand.cs:94-118 | a new command starts with its stored permission in step with the gate |
| Commands.SimultaneousInvokesBothRun | Craft/Curfew/RxCommand.cs:100-103 | with simultaneous execution allowed and no external gate, two overlapping calls both run |
| Commands.SilentGateAllowsOverlap | Craft/Curfew/RxCommand.cs:81-112 | while an external gate has produced no value, even a command without simultaneous execution lets overlapping calls run, because `isAllowedToExecute` starts true |
| Commands.DoubleInvokeScenario | Craft/Curfew/RxCommand.cs:94-175 | with default −1, an action that doubles, and a second call made while the first runs: the first returns 10 for 5 and the second returns −1 |
| Commands.FailureReturnsTypeDefault | Craft/Curfew/RxCommand.cs:166-174 | a throwing action returns `default(TOutput)`, publishes an error, and ends execution |
| Commands.CanExecute | Craft/Curfew/RxCommand.cs:199-215 | `ICommand.CanExecute` answers the effective gate's latest value, and false while the gate has produced none |
| Commands.RunKeepsConsistent | Craft/Curfew/RxCommand.cs:139-215 | any interleaving of begins, completions and gate values keeps both gate caches in step with the gate |
| Commands.CanExecuteReportsGate | Craft/Curfew/RxCommand.cs:199-215 | in every state reachable from the constructor, `CanExecute` answers the effective gate's latest value, and false before the gate has one |
| Commands.Execute | Craft/Curfew/RxCommand.cs:217-220 | `ICommand.Execute` invokes with the parameter, or with `default(TInput)` when the parameter is null; a parameter of another run-time type fails with `InvalidCastException` and invokes nothing |
| Commands.InvokeWithoutInput | Craft/Curfew/RxCommand.cs:185-188 | the input-less interfaces invoke with `default(TInput)` |
| Commands.CreateCommand | Craft/Curfew/RxCommand.cs:575-645 | the `RxCommand` factories build a command with no configured default, whose default is `Unit` |
| Commands.CreateFunction | Craft/Curfew/RxCommand.cs:659-740 | the `RxFunction` factories build a function whose default is the configured value or `default(TOutput)` |
| CommandCombinators.InvokeReturns | Craft/Curfew/RxCommand.cs:139-175 | an invocation returns the reference value: the action's value, `default(TOutput)` on failure, the default value when denied |
| CommandCombinators.NewCombined | Craft/Curfew/RxCommand.cs:575-605 | a combinator's command does not allow simultaneous execution and has no gate and no configured default |
| CommandCombinators.CombineInvoke | Craft/Curfew/RxCommand.cs:296-522 | in any state of the combined command, it checks its own gate: if denied, it returns the default value and invokes neither operand; if allowed, it runs `first`, then `second` (each under its own gate, `second` whatever `first` did) and returns the chosen combination of their results |
| CommandCombinators.CombinedOverlapIsDenied | Craft/Curfew/RxCommand.cs:139-151 | a call to an exclusive combined command while an earlier call of it is still running returns its default value and invokes neither operand |
| CommandCombinators.SecondCombinedCallWhileFirstRuns | Craft/Curfew/RxCommand.cs:360-418 | a second call to a freshly combined command, made before the first has completed, returns `default(TOutput)` and leaves both operands untouched |
| CommandCombinators.RunOperands | Craft/Curfew/RxCommand.cs:296-522 | the combined action runs `first` with its input, then `second` with an input that may use `first`'s result, and each returns what an uninterrupted invocation returns |
| CommandCombinators.Combine | Craft/Curfew/RxCommand.cs:296-351 | combining two commands starts each operand with its input when its gate allows, and returns `Unit` |
| CommandCombinators.CombineThenFunction | Craft/Curfew/RxCommand.cs:360-418 | a command followed by a function returns the function's result; a call the combined command's gate denies (for instance one made while an earlier call is still running) returns the default value and invokes neither operand |
| CommandCombinators.CombineFunctionThen | Craft/Curfew/RxCommand.cs:427-489 | a function followed by a command returns the function's result, after the command has run; a denied call, such as an overlapping one, returns the default value and invokes neither operand |
| CommandCombinators.Pipe | Craft/Curfew/RxCommand.cs:498-522 | a function piped into a function feeds the first one's result to the second and returns the second one's result; a denied call, such as an overlapping one, returns the default value and invokes neither |
| CommandCombinators.AdaptInvoke | Craft/Curfew/RxCommand.cs:529-562 | in any state of the adapter, it checks its own gate: if denied, it returns the default value and leaves the wrapped command alone; otherwise it invokes the wrapped command with the chosen input and maps its result |
| CommandCombinators.AdaptedOverlapIsDenied | Craft/Curfew/RxCommand.cs:539-542 | a call to an exclusive adapter while an earlier call of it is still running returns its default value and leaves the wrapped command alone |
| CommandCombinators.AsCommand | Craft/Curfew/RxCommand.cs:559-562 | `AsCommand` of a function with input invokes the function with the command's own input when the adapter's gate allows, and leaves the function untouched when it denies |
| CommandCombinators.AsCommandWithoutInput | Craft/Curfew/RxCommand.cs:549-552 | `AsCommand` of a function without input invokes the function with the function's own `default(TInput)` (through `InvokeAsync()`, RxCommand.cs:185-188) when the adapter's gate allows, and leaves it untouched when it denies |
| CommandCombinators.AsParameterized | Craft/Curfew/RxCommand.cs:539-542 | `AsParameterized` of a function ignores its `Unit` input, invokes the function with `default(TInput)` and returns its result when the adapter's gate allows; a denied call returns the default value and leaves the function untouched. The adapter is exclusive and has no external gate, so a call made while an earlier one is still running is always denied (`AdaptedOverlapIsDenied`) |
| CommandCombinators.SecondRunsAfterDeniedFirst | Craft/Curfew/RxCommand.cs:296-303 | when the first command is denied, the second still runs |
| CommandCombinators.PipeAfterFailureFeedsTypeDefault | Craft/Curfew/RxCommand.cs:498-505 | when the first function throws, the second receives `default(TOutput)`, not the first function's configured default |
| MainWindowStates.Empty | Craft/ViewDispatchers/MainWindow/MainWindowState.cs:24-26 | the parameterless constructor: null references, false flags, position 0, and search term `(0, null)` |
| MainWindowStates.Merge | Craft/ViewDispatchers/MainWindow/MainWindowState.cs:44-67 | each field is the argument if given, otherwise the defaults' value, otherwise the fallback |
| MainWindowStates.MergeWithoutArgs | Craft/ViewDispatchers/MainWindow/MainWindowState.cs:44-67 | with no arguments, the constructor copies the defaults (or builds the empty state when there are none) |
| MainWindowStates.WithMessage | Craft/ViewDispatchers/MainWindow/MainWindowState.cs:69 | replaces the message; a null message keeps the old one |
| MainWindowStates.WithHasUserEdited | Craft/ViewDispatchers/MainWindow/MainWindowState.cs:70 | replaces only `HasUserEdited` |
| MainWindowStates.WithSelectionStart | Craft/ViewDispatchers/MainWindow/MainWindowState.cs:71 | replaces only `SelectionStart` |
| MainWindowStates.WithFocus | Craft/ViewDispatchers/MainWindow/MainWindowState.cs:72 | replaces only `Focus` |
| MainWindowStates.WithClose | Craft/ViewDispatchers/MainWindow/MainWindowState.cs:73 | replaces only `Close` |
| MainWindowStates.WithSave | Craft/ViewDispatchers/MainWindow/MainWindowState.cs:74 | replaces `Save`; null keeps the old command |
| MainWindowStates.WithHelp | Craft/ViewDispatchers/MainWindow/MainWindowState.cs:75 | replaces `Help`; null keeps the old command |
| MainWindowStates.WithSettings | Craft/ViewDispatchers/MainWindow/MainWindowState.cs:76 | replaces `Settings`; null keeps the old command |
| MainWindowStates.WithSuggestions | Craft/ViewDispatchers/MainWindow/MainWindowState.cs:77 | replaces `Suggestions`; null keeps the old list |
| MainWindowStates.WithSearchTerm | Craft/ViewDispatchers/MainWindow/MainWindowState.cs:78 | always replaces the search term, with a null term too |
| MainWindowStates.ReferenceFieldsNeverCleared | Craft/ViewDispatchers/MainWindow/MainWindowState.cs:57-65 | no `WithX` can turn a non-null message or suggestion list back into null |
| MainWindowStates.CommandsNeverCleared | Craft/ViewDispatchers/MainWindow/MainWindowState.cs:61-63 | no `WithX` can turn a non-null command back into null |
| MainWindowStates.WithReferenceIdempotent | Craft/ViewDispatchers/MainWindow/MainWindowState.cs:69-77 | applying `WithMessage` or `WithSuggestions` twice is the same as applying it once |
| MainWindowStates.WithCommandIdempotent | Craft/ViewDispatchers/MainWindow/MainWindowState.cs:74-76 | applying `WithSave`, `WithHelp` or `WithSettings` twice is the same as applying it once |
| MainWindowStates.WithFlagIdempotent | Craft/ViewDispatchers/MainWindow/MainWindowState.cs:70-73 | applying `WithHasUserEdited`, `WithFocus` or `WithClose` twice is the same as applying it once |
| MainWindowStates.WithPositionIdempotent | Craft/ViewDispatchers/MainWindow/MainWindowState.cs:71-78 | applying `WithSelectionStart` or `WithSearchTerm` twice is the same as applying it once |
| Emoji.ShortCodeToEmoji | Craft/ViewDispatchers/MainWindow/MainWindowViewDispatcher.cs:170-188 | the six alias shortcodes convert as their targets; every other shortcode converts as itself |
| Emoji.AliasRendersAsTarget | Craft/ViewDispatchers/MainWindow/MainWindowViewDispatcher.cs:172-186 | an alias gives the same emoji as the shortcode it stands for |
| Emoji.NewSemanticEmoji | Craft/ViewDispatchers/MainWindow/SemanticEmoji.cs:16-21 | the constructor keeps the shortcode and description and derives the emoji through `ShortCodeToEmoji` |
| Emoji.DisplayString | Craft/ViewDispatchers/MainWindow/SemanticEmoji.cs:14 | the display string is the emoji, one space, then the description |
| MainWindow.InitialState | Craft/ViewDispatchers/MainWindow/MainWindowViewDispatcher.cs:32-37 | the first state holds the three commands and the full emoji list, with every other field at its fallback |
| MainWindow.Suggestions | Craft/ViewDispatchers/MainWindow/MainWindowViewDispatcher.cs:59-62 | the suggestions are exactly the emoji whose lower-cased shortcode or description contains the term, in list order, each kept as many times as it occurs in the list |
| Seqs.FilterCount | Craft/ViewDispatchers/MainWindow/MainWindowViewDispatcher.cs:59-62 | `Where` keeps each element as many times as it occurs when the predicate holds for it, and drops it otherwise |
| MainWindow.UpdateCommitMessage | Craft/ViewDispatchers/MainWindow/MainWindowViewDispatcher.cs:44-76 | a term that is blank after trimming colons resets the suggestions and clears the search; otherwise the suggestions are exactly the matching emoji in list order, each as many times as it occurs in the list, and the term is kept as typed; either way the selection and the edited flag come from the edit, and so does the message unless the edit's message is null, which keeps the old one |
| MainWindow.SpliceSuggestion | Craft/ViewDispatchers/MainWindow/MainWindowViewDispatcher.cs:80-91 | the emoji replaces the characters between `index + 1 − term.Length` and `index + 1`, and the caret lands after it; a null message or an out-of-range index throws |
| MainWindow.AppendSuggestion | Craft/ViewDispatchers/MainWindow/MainWindowViewDispatcher.cs:92-106 | with no search term, the emoji is appended, after one space unless the message is empty or already ends in a space, and the caret goes to the end |
| MainWindow.AppendEmoji | Craft/ViewDispatchers/MainWindow/MainWindowViewDispatcher.cs:94-99 | the new message starts with the old one and ends with the emoji, with one space between them exactly when the old message is non-empty and does not end in a space |
| MainWindow.UseSuggestion | Craft/ViewDispatchers/MainWindow/MainWindowViewDispatcher.cs:78-107 | choosing a suggestion always clears the search and marks the message edited; only the splice branch can throw |
| MainWindow.UseSuggestionReplacesTerm | Craft/ViewDispatchers/MainWindow/MainWindowViewDispatcher.cs:80-91 | when the term is at the recorded position, choosing a suggestion replaces exactly that term with the emoji |
| MainWindow.AppendAfterSpaceAddsNoSpace | Craft/ViewDispatchers/MainWindow/MainWindowViewDispatcher.cs:95-98 | no extra space is inserted after a message that already ends in one |
| MainWindow.GetBranchName | Craft/ViewDispatchers/MainWindow/MainWindowViewDispatcher.cs:190-203 | there is a branch name exactly when `HEAD` exists and starts with `ref:`, and it is no longer than `HEAD` |
| MainWindow.BranchOfSymbolicHead | Craft/ViewDispatchers/MainWindow/MainWindowViewDispatcher.cs:189-200 | for `HEAD` = `ref: refs/heads/` + b + trailing white space (the line break git writes), where b has no white space at its ends and does not contain the prefix, the branch is b |
| MainWindow.BranchOfMainHead | Craft/ViewDispatchers/MainWindow/MainWindowViewDispatcher.cs:189-200 | the `HEAD` of branch main, with its line break, names "main" |
| MainWindow.SymbolicBranchName | Craft/ViewDispatchers/MainWindow/MainWindowViewDispatcher.cs:197-199 | a `HEAD` starting with `ref:` names the trimmed text left after removing every `ref: refs/heads/` |
| Strings.StripPatternAndTrim | Craft/ViewDispatchers/MainWindow/MainWindowViewDispatcher.cs:197-199 | removing every copy of a prefix that occurs only at the front, then trimming, leaves exactly the text between the prefix and the trailing white space |
| MainWindow.HeadStartsWithRef | Craft/ViewDispatchers/MainWindow/MainWindowViewDispatcher.cs:197 | a symbolic `HEAD` passes the `ref:` test |
| MainWindow.TicketOf | Craft/ViewDispatchers/MainWindow/MainWindowViewDispatcher.cs:127-132 | the ticket is the upper-cased text after the last `/` of the branch, or empty when there is no branch or no `/` |
| MainWindow.ContainsSlash | Craft/ViewDispatchers/MainWindow/MainWindowViewDispatcher.cs:129 | `branch.Contains("/")` holds exactly when the branch has a `/` character |
| MainWindow.PrefixCommitText | Craft/ViewDispatchers/MainWindow/MainWindowViewDispatcher.cs:134-156 | the text gains `ticket: ` exactly when it has no content line, the branch is not null, `dev`, `test` or `master`, and the text does not already start with the ticket |
| MainWindow.NoSlashNoPrefix | Craft/ViewDispatchers/MainWindow/MainWindowViewDispatcher.cs:127-156 | without a `/` in the branch the ticket is empty and the text is never prefixed |
| MainWindow.PrefixIdempotent | Craft/ViewDispatchers/MainWindow/MainWindowViewDispatcher.cs:138-156 | prefixing already-prefixed text changes nothing |
| MainWindow.Load | Craft/ViewDispatchers/MainWindow/MainWindowViewDispatcher.cs:109-168 | a missing file changes nothing; otherwise the (possibly prefixed) text becomes the message, the state is not user-edited, focus is requested, and the caret is at the first newline or at 0 |
| MainWindow.NewlineIndex | Craft/ViewDispatchers/MainWindow/MainWindowViewDispatcher.cs:161 | `IndexOf("\n")` is the position of the first newline, or −1 when there is none |
| MainWindow.Save | Craft/ViewDispatchers/MainWindow/MainWindowViewDispatcher.cs:205-212 | with a loaded path, the message is written there (empty for null); either way the window is asked to close |
| MainWindowDispatchers.New | Craft/ViewDispatchers/MainWindow/MainWindowViewDispatcher.cs:27-42 | after construction, `LastState` is the initial state, the two local handlers are registered and active, and `Load` is registered on the global dispatcher after its existing registrations |
| MainWindowDispatchers.DispatchKeepsHandler | Craft/Curfew/GlobalDispatcher.cs:35-39 | a never-paused `RegisterLast` handler is delivered each message of its type as a batch of one, and nothing else |
| MainWindowDispatchers.Publish | Craft/Curfew/ViewDispatcher.cs:20-31 | a handler's `Dispatch(state)` makes that state the new `LastState` |
| MainWindowDispatchers.Dispatch | Craft/ViewDispatchers/MainWindow/MainWindowViewDispatcher.cs:39-107 | an edit sets `LastState` to `UpdateCommitMessage` of the previous state; a chosen suggestion sets it to `UseSuggestion`'s state, or throws that function's exception; a load request sent to the window's own dispatcher does nothing |
| MainWindowDispatchers.LoadHandler | Craft/ViewDispatchers/MainWindow/MainWindowViewDispatcher.cs:109-124 | a null path throws; an existing path is remembered and loaded; a missing one changes nothing |
| MainWindowDispatchers.DispatchGlobal | Craft/ViewDispatchers/MainWindow/MainWindowViewDispatcher.cs:109-168 | a load request on the global dispatcher loads an existing file into `LastState` and remembers its path; any other message leaves the window as it was |
| MainWindowDispatchers.Save | Craft/ViewDispatchers/MainWindow/MainWindowViewDispatcher.cs:205-212 | saving writes the current message to the remembered path (nothing without one) and makes the closing state the new `LastState` |
| MainWindowDispatchers.LoadThenSaveWritesLoadedText | Craft/ViewDispatchers/MainWindow/MainWindowViewDispatcher.cs:109-212 | loading a file and then saving writes the loaded, possibly prefixed, text back to the same path |
| MainWindowDispatchers.EditThenSaveWritesEdit | Craft/ViewDispatchers/MainWindow/MainWindowViewDispatcher.cs:44-212 | after an edit, saving writes exactly the edited message |
| Disposables.New | Craft/Utils/ActionOnDispose.cs:17-20 | constructing does not run the action |
| Disposables.Dispose | Craft/Utils/ActionOnDispose.cs:22-29 | the first call runs the action and marks the object disposed only if the action completed; once disposed, calls do nothing |
| Disposables.UntilFirstSuccess | Craft/Utils/ActionOnDispose.cs:22-29 | the reference count: the attempts up to and including the first that completes |
| Disposables.ActionRunsUntilFirstSuccess | Craft/Utils/ActionOnDispose.cs:22-29 | over repeated `Dispose` calls, the action runs once per call until it first completes and never afterwards; the object ends disposed exactly when some call completed |
| Disposables.DisposedStaysPut | Craft/Utils/ActionOnDispose.cs:24 | once disposed, further `Dispose` calls change nothing |
| Disposables.DisposeTwiceRunsOnce | Craft/Utils/ActionOnDispose.cs:22-29 | disposing twice after a successful first call runs the action once |

## Left out

- Concurrency is left out: the `lock` in `InvokeAsync`, the static lock shared by every registration
  (`Registration.cs:18`), and
  thread scheduling. An `await` that suspends is modelled only through the separate
  `Begin`/`Complete` steps.
- Rx internals are left out: `Lazy`, `Subject`, `ReplaySubject` and `SelectMany`
  re-subscription. The external gate is assumed to replay its latest value (a
  `BehaviorSubject`). A cold or non-replaying observable passed as `canExecute` may behave
  differently.
- `Registration.OnError` (Registration.cs:80-82) does nothing, so it has no model member.
- `canExecuteChanged` event subscribers are left out. Only the stored `canExecuteValue` is
  modelled.
- The blocking `Invoke` extensions (`Wait()`/`.Result`, RxCommand.cs:255-288) and the
  `RunAsync` fire-and-forget helper are left out. Under the atomic-action model they equal
  `Commands.Invoke`.
- The outer command does not wait for the inner tasks in two kinds of combinator. `Combine`
  of two commands wraps an `async` lambda in `Create(Action)` (`RxCommand.cs:298-351`).
  `AsCommand` of a function and `AsParameterized` of a command call the wrapped
  `InvokeAsync` and discard its task (`RxCommand.cs:529-532`, `549-552`, `559-562`). Inner
  actions are atomic here, so the model runs them to completion inside the outer
  invocation.
- `Combine(c, c)`, a command combined with itself, is left out. The operands are separate
  values in the model, so aliasing of one command's state is not represented.
- `ParseEmoji` and its CSV file, and all file I/O, are left out. The emoji list, `HEAD` and
  `COMMIT_EDITMSG` contents are parameters (`Environment`, `LoadedFile`).
- EmojiOne's shortname conversion is a parameter, `convert`.
- The culture-sensitive `ToLower`/`ToUpper` are character-mapping parameters.
- `StartsWith`, `EndsWith` and `IndexOf` are culture-sensitive in the source and ordinal
  here.
- `char.IsWhiteSpace` is modelled by its fixed list of code points.
- SpliceSuggestion: strings are sequences of Unicode scalar values here, while C#'s
  `Length`, `Substring` and `SelectionStart` count UTF-16 code units. When the message holds
  a character outside the Basic Multilingual Plane (an emoji such as U+1F600) before the
  caret, the cut positions and the new caret differ from the source's; for text within
  that plane they agree.
- AppendSuggestion: the caret is placed at the message's length in scalar values, not in
  UTF-16 code units, so it differs from the source's whenever the message holds a character
  outside the Basic Multilingual Plane.
- Load: the caret index after loading, and the position `IndexOf` finds, are counted in
  scalar values, not in UTF-16 code units; they match the source's only while the loaded
  text stays within the Basic Multilingual Plane.
- Integers are unbounded. `SelectionStart` and `SearchTerm.index` are 32-bit in the source,
  but the model does not wrap `index + 1` or the caret arithmetic of `UseSuggestion` at
  2^31. Only a search index near `int.MaxValue`, which no text box produces, would differ.
- Handler exceptions other than those the model names are left out. The model names the
  `NullReferenceException` and `ArgumentOutOfRangeException` of `UseSuggestion`, the null
  path of `Load`, and `Last()` of an empty batch. How an exception unwinds through Rx
  subscribers is not modelled; the exception is simply returned to the dispatching caller.
- A null `SuggestionSelectedOperation.Emoji`, and a null `ShortCode` or `Description` in an
  emoji, are excluded by the types. The emoji list always comes from the CSV and has both
  columns.
- `Curfew.cs` (the static global dispatcher instance), `IMainWindowDependencies`, the WPF
  views and the program entry point are not part of this model.
- Strings.RemoveAll: its contract only bounds the length. The property the branch name
  needs, that `Replace` is the identity when the prefix is absent and strips a leading copy
  of it, is stated by `Strings.RemoveAllAbsent` and `Strings.RemoveAllPrefix`.
- MainWindowDispatchers.Dispatch: a handler runs after the whole dispatch of the incoming
  message has finished, rather than nested inside it. The resulting states are the same.
  The incoming message is an edit or a suggestion, never a `MainWindowState`. The handlers
  produce a `MainWindowState`, which the edit and suggestion registrations reject. Two
  registrations do accept it: the view dispatcher's own `LastState` tracker
  (`Craft/Curfew/ViewDispatcher.cs:22`) and the window's `SetState`
  (`Craft/Views/Windows/MainWindow.xaml.cs:35`). The nested dispatch therefore only updates
  `LastState` and the view. `SetState` detaches its text-changed handler while it writes
  (`MainWindow.xaml.cs:40-71`), so it dispatches nothing further.
