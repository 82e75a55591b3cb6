/** `RxCommand<TInput, TOutput>`: an invokable unit of work with a gate, an `IsExecuting`
    stream and a result stream. The asynchronous `InvokeAsync` is split into two steps so that
    concurrent invocations become interleavings: `Begin` (gate check, then `IsExecuting` true
    and the action starts) and `Complete` (the action returned a value or threw). */
module Commands {
  import opened Wrappers

  /** The `Unit` type of `System.Reactive`. */
  datatype Unit = Unit

  /** The external `canExecute` observable: none given, or given together with the latest
      value it has produced (`None` before its first value). */
  datatype Gate = NoGate | Gate(latest: Option<bool>)

  /** What the result stream has carried: a value, or the error that ends it. */
  datatype Notification<O> = Next(value: O) | Error

  /** How the action finished. */
  datatype Outcome<O> = Returned(value: O) | Threw

  datatype Command<I, O> = Command(
    allowSimultaneousExecution: bool,
    external: Gate,
    defaultValue: Option<O>,          // the defaultValue factory's value; None if not supplied
    typeDefault: O,                   // default(TOutput)
    inputDefault: I,                  // default(TInput)
    isExecuting: bool,                // the latest value of the IsExecuting replay subject
    executingLog: seq<bool>,          // every value IsExecuting has produced
    subscribed: bool,                 // isSubscribedToCanExecute
    isAllowedToExecute: bool,         // the cached gate consulted by InvokeAsync
    canExecuteValue: bool,            // the cached gate answered by ICommand.CanExecute
    resultObserved: bool,             // whether the result subject has been created
    results: seq<Notification<O>>,    // what the result subject has emitted
    started: seq<I>,                  // the inputs the action has been started with
    inFlight: nat                     // invocations begun and not yet completed
  )

  /** The latest value the effective gate (`CanInvoke`) has produced, if any:
      - simultaneous execution allowed, no gate: `Observable.Return(true)`;
      - simultaneous execution allowed, gate `g`: `g` itself;
      - exclusive, no gate: the negation of `IsExecuting`;
      - exclusive, gate `g`: `!IsExecuting && g`, once `g` has produced a value. */
  function EffectiveGate<I, O>(c: Command<I, O>): Option<bool> {
    if c.allowSimultaneousExecution then
      match c.external
      case NoGate => Some(true)
      case Gate(latest) => latest
    else
      match c.external
      case NoGate => Some(!c.isExecuting)
      case Gate(latest) =>
        match latest
        case Some(g) => Some(!c.isExecuting && g)
        case None => None
  }

  /** The gate formula: whenever the effective gate has a value, it is the external gate's
      value (true when there is none), further conjoined with "not executing" unless
      simultaneous execution is allowed; it lacks a value only while a given gate is silent. */
  lemma GateFormula<I, O>(c: Command<I, O>)
    ensures EffectiveGate(c).None? <==> c.external.Gate? && c.external.latest.None?
    ensures EffectiveGate(c).Some? ==>
              EffectiveGate(c).value
              == ((c.allowSimultaneousExecution || !c.isExecuting)
                  && (c.external.NoGate? || c.external.latest.value))
  {
  }

  /** The gate emits: both caches take its value (`InvokeAsync`'s cache only once it has
      subscribed). A gate without a value emits nothing. */
  function Refresh<I, O>(c: Command<I, O>): (c': Command<I, O>)
    ensures EffectiveGate(c).Some? ==> c'.canExecuteValue == EffectiveGate(c).value
    ensures EffectiveGate(c).Some? && c.subscribed ==> c'.isAllowedToExecute == EffectiveGate(c).value
    ensures EffectiveGate(c).None? ==> c' == c
    ensures !c.subscribed ==> c'.isAllowedToExecute == c.isAllowedToExecute
    ensures c' == c.(isAllowedToExecute := c'.isAllowedToExecute, canExecuteValue := c'.canExecuteValue)
  {
    match EffectiveGate(c)
    case Some(g) =>
      c.(isAllowedToExecute := if c.subscribed then g else c.isAllowedToExecute, canExecuteValue := g)
    case None => c
  }

  /** The constructor: not executing (the replay subject starts with false), not yet
      subscribed to the gate, cached permission true; `ICommand` subscribes to the gate at
      once (`OnCreated`). */
  function New<I, O>(allowSimultaneousExecution: bool, external: Gate, defaultValue: Option<O>,
                     typeDefault: O, inputDefault: I): (c: Command<I, O>)
    ensures !c.isExecuting && c.executingLog == [false] && c.inFlight == 0
    ensures !c.subscribed && c.isAllowedToExecute
    ensures c.canExecuteValue == EffectiveGate(c).OrElse(false)
    ensures c.started == [] && c.results == [] && !c.resultObserved
    ensures c.allowSimultaneousExecution == allowSimultaneousExecution && c.external == external
    ensures c.defaultValue == defaultValue && c.typeDefault == typeDefault && c.inputDefault == inputDefault
  {
    Refresh(Command(allowSimultaneousExecution, external, defaultValue, typeDefault, inputDefault,
                    false, [false], false, true, false, false, [], [], 0))
  }

  /** `defaultValue()`: the supplied factory's value, or `default(TOutput)` without one. */
  function DefaultOf<I, O>(c: Command<I, O>): O {
    c.defaultValue.OrElse(c.typeDefault)
  }

  /** `Subscribe` to the results: creates the result subject, so from now on every
      notification reaches the subscriber until the stream ends; subscribing invokes nothing. */
  function SubscribeResults<I, O>(c: Command<I, O>): (c': Command<I, O>)
    ensures c'.results == c.results && c'.started == c.started
    ensures c'.isExecuting == c.isExecuting && c'.inFlight == c.inFlight
    ensures c'.isAllowedToExecute == c.isAllowedToExecute && c'.canExecuteValue == c.canExecuteValue
  {
    c.(resultObserved := true)
  }

  /** After subscribing, a notification reaches the subscriber unless the stream has ended
      with an error. */
  lemma SubscribedReceives<I, O>(c: Command<I, O>, n: Notification<O>)
    ensures !Terminated(c.results) ==> Notify(SubscribeResults(c), n).results == c.results + [n]
    ensures Terminated(c.results) ==> Notify(SubscribeResults(c), n).results == c.results
  {
  }

  /** The external gate produces `v`. */
  function GateEmits<I, O>(c: Command<I, O>, v: bool): (c': Command<I, O>)
    requires c.external.Gate?
    ensures c'.external == Gate(Some(v))
    ensures c'.canExecuteValue == ((c.allowSimultaneousExecution || !c.isExecuting) && v)
    ensures c.subscribed ==> c'.isAllowedToExecute == c'.canExecuteValue
    ensures !c.subscribed ==> c'.isAllowedToExecute == c.isAllowedToExecute
    ensures c'.isExecuting == c.isExecuting && c'.started == c.started && c'.inFlight == c.inFlight
  {
    Refresh(c.(external := Gate(Some(v))))
  }

  /** The first step of `InvokeAsync`: subscribes to the gate if this is the first call, then
      consults the cached permission. */
  function Subscribe<I, O>(c: Command<I, O>): (c': Command<I, O>)
    ensures c'.subscribed
    ensures c.subscribed ==> c' == c
  {
    if c.subscribed then c else Refresh(c.(subscribed := true))
  }

  /** Whether `Begin` would run the action. */
  predicate Allows<I, O>(c: Command<I, O>) {
    Subscribe(c).isAllowedToExecute
  }

  /** The result of `Begin`: denied with the value returned to the caller, or started. */
  datatype Begun<O> = Denied(value: O) | Started

  /** `Begin`: a denied invocation returns `defaultValue()`, leaves `IsExecuting` alone and
      does not run the action; an allowed one broadcasts `IsExecuting = true` and starts the
      action with `input`. */
  function Begin<I, O>(c: Command<I, O>, input: I): (res: (Command<I, O>, Begun<O>))
    ensures res.0.subscribed
    ensures c.subscribed ==> (Allows(c) <==> c.isAllowedToExecute)
    ensures !Allows(c) ==>
              && res.1 == Denied(DefaultOf(c))
              && res.0.started == c.started && res.0.executingLog == c.executingLog
              && res.0.isExecuting == c.isExecuting && res.0.inFlight == c.inFlight
              && res.0.results == c.results
    ensures Allows(c) ==>
              && res.1 == Started
              && res.0.started == c.started + [input]
              && res.0.isExecuting && res.0.executingLog == c.executingLog + [true]
              && res.0.inFlight == c.inFlight + 1 && res.0.results == c.results
    ensures res.0.allowSimultaneousExecution == c.allowSimultaneousExecution
    ensures res.0.external == c.external && res.0.resultObserved == c.resultObserved
    ensures res.0.defaultValue == c.defaultValue && res.0.typeDefault == c.typeDefault
  {
    var c1 := Subscribe(c);
    if !c1.isAllowedToExecute then
      (c1, Denied(DefaultOf(c)))
    else
      var c2 := c1.(isExecuting := true, executingLog := c1.executingLog + [true],
                    started := c1.started + [input], inFlight := c1.inFlight + 1);
      (Refresh(c2), Started)
  }

  /** The result subject has ended with an error; Rx then ignores further notifications. */
  predicate Terminated<O>(results: seq<Notification<O>>) {
    exists i :: 0 <= i < |results| && results[i].Error?
  }

  /** Sends a notification to the result subject, if it exists and has not ended. */
  function Notify<I, O>(c: Command<I, O>, n: Notification<O>): (c': Command<I, O>)
    ensures c.resultObserved && !Terminated(c.results) ==> c'.results == c.results + [n]
    ensures !c.resultObserved || Terminated(c.results) ==> c'.results == c.results
    ensures c' == c.(results := c'.results)
  {
    if c.resultObserved && !Terminated(c.results) then c.(results := c.results + [n]) else c
  }

  /** `Complete`: the action finished. A returned value is emitted on the result stream and
      returned; a thrown exception is not propagated but sent as the stream's error, and
      `default(TOutput)` is returned (not `defaultValue()`). Either way `IsExecuting`
      becomes false. */
  function Complete<I, O>(c: Command<I, O>, outcome: Outcome<O>): (res: (Command<I, O>, O))
    requires c.inFlight > 0
    ensures outcome.Returned? ==> res.1 == outcome.value
    ensures outcome.Threw? ==> res.1 == c.typeDefault
    ensures !res.0.isExecuting && res.0.executingLog == c.executingLog + [false]
    ensures res.0.inFlight == c.inFlight - 1
    ensures c.resultObserved && !Terminated(c.results) ==>
              res.0.results == c.results + [if outcome.Returned? then Next(outcome.value) else Error]
    ensures !c.resultObserved || Terminated(c.results) ==> res.0.results == c.results
    ensures res.0.started == c.started && res.0.subscribed == c.subscribed
    ensures res.0.allowSimultaneousExecution == c.allowSimultaneousExecution
    ensures res.0.external == c.external && res.0.resultObserved == c.resultObserved
    ensures res.0.defaultValue == c.defaultValue && res.0.typeDefault == c.typeDefault
  {
    match outcome
    case Returned(v) =>
      var c1 := Notify(c, Next(v));
      var c2 := c1.(isExecuting := false, executingLog := c1.executingLog + [false], inFlight := c1.inFlight - 1);
      (Refresh(c2), v)
    case Threw =>
      var c1 := Notify(c, Error);
      var c2 := c1.(isExecuting := false, executingLog := c1.executingLog + [false], inFlight := c1.inFlight - 1);
      (Refresh(c2), c.typeDefault)
  }

  /** `InvokeAsync` when nothing interleaves with it: `Begin`, then `Complete` with the
      action's outcome on the input. */
  function Invoke<I, O>(c: Command<I, O>, input: I, run: I -> Outcome<O>): (res: (Command<I, O>, O))
    ensures !Allows(c) ==>
              && res.1 == DefaultOf(c)
              && res.0.started == c.started && res.0.executingLog == c.executingLog
              && res.0.results == c.results
    ensures Allows(c) ==>
              && res.0.started == c.started + [input]
              && res.0.executingLog == c.executingLog + [true, false] && !res.0.isExecuting
              && res.1 == (match run(input) case Returned(v) => v case Threw => c.typeDefault)
    ensures res.0.subscribed && res.0.inFlight == c.inFlight
  {
    var (c1, b) := Begin(c, input);
    match b
    case Denied(v) => (c1, v)
    case Started =>
      assert c1.executingLog + [false] == c.executingLog + [true, false];
      Complete(c1, run(input))
  }

  /** The states of an exclusive command whose effective gate has a value (no external gate,
      or one that has produced a value): at most one invocation in flight, exactly while
      `IsExecuting` is true, and once subscribed the cached permission is the effective gate,
      which includes "not executing". */
  ghost predicate ExclusiveValid<I, O>(c: Command<I, O>) {
    && !c.allowSimultaneousExecution
    && (c.external.NoGate? || c.external.latest.Some?)
    && c.inFlight <= 1
    && (c.isExecuting <==> c.inFlight == 1)
    && (c.subscribed ==> EffectiveGate(c) == Some(c.isAllowedToExecute))
    && (!c.subscribed ==> c.inFlight == 0)
  }

  /** Mutual exclusion: without simultaneous execution, at most one invocation is ever in
      flight, whatever the interleaving of steps. */
  lemma ExclusiveBeginPreservesValid<I, O>(c: Command<I, O>, input: I)
    requires ExclusiveValid(c)
    ensures ExclusiveValid(Begin(c, input).0)
  {
  }

  lemma ExclusiveCompletePreservesValid<I, O>(c: Command<I, O>, outcome: Outcome<O>)
    requires ExclusiveValid(c) && c.inFlight > 0
    ensures ExclusiveValid(Complete(c, outcome).0)
  {
  }

  lemma ExclusiveGateEmitsPreservesValid<I, O>(c: Command<I, O>, v: bool)
    requires ExclusiveValid(c) && c.external.Gate?
    ensures ExclusiveValid(GateEmits(c, v))
  {
  }

  /** One step of an interleaving: an invocation begins, the oldest in-flight action finishes
      (ignored when none is in flight), or the external gate produces a value (ignored when
      there is no external gate). */
  datatype Step<I, O> = BeginStep(input: I) | CompleteStep(outcome: Outcome<O>) | GateStep(v: bool)

  function RunSteps<I, O>(c: Command<I, O>, steps: seq<Step<I, O>>): Command<I, O>
    decreases |steps|
  {
    if |steps| == 0 then c
    else
      var c1 := match steps[0]
        case BeginStep(x) => Begin(c, x).0
        case CompleteStep(o) => if c.inFlight > 0 then Complete(c, o).0 else c
        case GateStep(v) => if c.external.Gate? then GateEmits(c, v) else c;
      RunSteps(c1, steps[1..])
  }

  /** Under any interleaving of invocations and gate values, an exclusive command whose gate
      has a value never has more than one action in flight. */
  lemma {:induction false} ExclusiveRunNeverOverlaps<I, O>(c: Command<I, O>, steps: seq<Step<I, O>>)
    requires ExclusiveValid(c)
    ensures ExclusiveValid(RunSteps(c, steps)) && RunSteps(c, steps).inFlight <= 1
    decreases |steps|
  {
    if |steps| > 0 {
      match steps[0]
      case BeginStep(x) =>
        ExclusiveBeginPreservesValid(c, x);
        ExclusiveRunNeverOverlaps(Begin(c, x).0, steps[1..]);
      case CompleteStep(o) =>
        if c.inFlight > 0 {
          ExclusiveCompletePreservesValid(c, o);
        }
        ExclusiveRunNeverOverlaps(if c.inFlight > 0 then Complete(c, o).0 else c, steps[1..]);
      case GateStep(v) =>
        if c.external.Gate? {
          ExclusiveGateEmitsPreservesValid(c, v);
        }
        ExclusiveRunNeverOverlaps(if c.external.Gate? then GateEmits(c, v) else c, steps[1..]);
    }
  }

  /** A freshly created exclusive command satisfies `ExclusiveValid` unless its external gate
      is silent; `SilentGateAllowsOverlap` shows what happens then. */
  lemma NewExclusiveValid<I, O>(external: Gate, defaultValue: Option<O>, typeDefault: O, inputDefault: I)
    ensures ExclusiveValid(New(false, external, defaultValue, typeDefault, inputDefault))
            <==> external.NoGate? || external.latest.Some?
  {
  }

  /** The promise of the constructor's `allowSimultaneousExecution` documentation: while an
      invocation of an exclusive command is executing, every further call returns
      `defaultValue()` and does not start the action. */
  lemma ExecutingDeniesInvoke<I, O>(c: Command<I, O>, y: I)
    requires ExclusiveValid(c) && c.isExecuting
    ensures Begin(c, y).1 == Denied(DefaultOf(c))
    ensures Begin(c, y).0.started == c.started && Begin(c, y).0.inFlight == 1
  {
  }

  /** Two calls without awaiting the first: when the gate lets the first run, the second is
      denied with the default value; when it does not, both are denied. */
  lemma OverlappingInvokeIsDenied<I, O>(c: Command<I, O>, x: I, y: I)
    requires ExclusiveValid(c) && !c.isExecuting
    ensures var (c1, b1) := Begin(c, x);
            var (c2, b2) := Begin(c1, y);
            (c.external.NoGate? || c.external.latest.value) ==>
              && b1 == Started && b2 == Denied(DefaultOf(c))
              && c2.started == c.started + [x]
    ensures var (c1, b1) := Begin(c, x);
            var (c2, b2) := Begin(c1, y);
            !(c.external.NoGate? || c.external.latest.value) ==>
              && b1 == Denied(DefaultOf(c)) && b2 == Denied(DefaultOf(c))
              && c2.started == c.started
  {
  }

  /** Both caches agree with the effective gate whenever it has a value (the cache used by
      `InvokeAsync` only once subscribed), and the cache stays true until the first update. */
  ghost predicate Consistent<I, O>(c: Command<I, O>) {
    && (EffectiveGate(c).Some? ==> c.canExecuteValue == EffectiveGate(c).value)
    && (c.subscribed && EffectiveGate(c).Some? ==> c.isAllowedToExecute == EffectiveGate(c).value)
    && (!c.subscribed ==> c.isAllowedToExecute)
    && (EffectiveGate(c).None? ==> !c.canExecuteValue)
  }

  /** After the gate emits, both caches agree with it. */
  lemma RefreshIsConsistent<I, O>(c: Command<I, O>)
    requires !c.subscribed ==> c.isAllowedToExecute
    requires EffectiveGate(c).None? ==> !c.canExecuteValue
    ensures Consistent(Refresh(c))
  {
  }

  /** `Begin` preserves `Consistent`. */
  lemma BeginPreservesConsistent<I, O>(c: Command<I, O>, input: I)
    requires Consistent(c)
    ensures Consistent(Begin(c, input).0)
  {
    if !c.subscribed {
      RefreshIsConsistent(c.(subscribed := true));
    }
    var c1 := Subscribe(c);
    if c1.isAllowedToExecute {
      RefreshIsConsistent(c1.(isExecuting := true, executingLog := c1.executingLog + [true],
                              started := c1.started + [input], inFlight := c1.inFlight + 1));
    }
  }

  /** `Complete` preserves `Consistent`. */
  lemma CompletePreservesConsistent<I, O>(c: Command<I, O>, outcome: Outcome<O>)
    requires Consistent(c) && c.inFlight > 0
    ensures Consistent(Complete(c, outcome).0)
  {
    var c1 := Notify(c, if outcome.Returned? then Next(outcome.value) else Error);
    RefreshIsConsistent(c1.(isExecuting := false, executingLog := c1.executingLog + [false], inFlight := c1.inFlight - 1));
  }

  /** A value from the external gate preserves `Consistent`. */
  lemma GateEmitsPreservesConsistent<I, O>(c: Command<I, O>, v: bool)
    requires Consistent(c) && c.external.Gate?
    ensures Consistent(GateEmits(c, v))
  {
    RefreshIsConsistent(c.(external := Gate(Some(v))));
  }

  lemma NewIsConsistent<I, O>(allowSimultaneousExecution: bool, external: Gate, defaultValue: Option<O>, typeDefault: O,
                              inputDefault: I)
    ensures Consistent(New(allowSimultaneousExecution, external, defaultValue, typeDefault, inputDefault))
  {
  }

  /** With simultaneous execution allowed and no external gate, overlapping calls both run. */
  lemma SimultaneousInvokesBothRun<I, O>(c: Command<I, O>, x: I, y: I)
    requires Consistent(c) && c.allowSimultaneousExecution && c.external.NoGate?
    ensures var (c1, b1) := Begin(c, x);
            var (c2, b2) := Begin(c1, y);
            && b1 == Started && b2 == Started
            && c2.started == c.started + [x, y]
  {
    BeginPreservesConsistent(c, x);
  }

  /** An exclusive command whose external gate has not produced a value yet never updates its
      cached permission, so overlapping calls both run: the exclusion relies on the gate
      emitting. */
  lemma SilentGateAllowsOverlap<I, O>(c: Command<I, O>, x: I, y: I)
    requires !c.allowSimultaneousExecution && c.external == Gate(None) && c.isAllowedToExecute
    ensures var (c1, b1) := Begin(c, x);
            var (c2, b2) := Begin(c1, y);
            && b1 == Started && b2 == Started && c2.inFlight == c.inFlight + 2
  {
  }

  /** A concrete scenario: an exclusive command doubling its input with default -1,
      invoked twice without awaiting the first; the second call returns -1 and the first 10. */
  lemma DoubleInvokeScenario()
    ensures var c := New(false, NoGate, Some(-1), 0, 0);
            var (c1, b1) := Begin(c, 5);
            var (c2, b2) := Begin(c1, 5);
            var (c3, r1) := Complete(c2, Returned(5 * 2));
            && b1 == Started && b2 == Denied(-1) && r1 == 10
            && c3.started == [5] && !c3.isExecuting
  {
    var c := New(false, NoGate, Some(-1), 0, 0);
    assert ExclusiveValid(c);
  }

  /** A failing action does not surface as a failure: the call returns `default(TOutput)` even
      when a different `defaultValue` is configured, `IsExecuting` ends false, and an observed
      result stream ends with the error. */
  lemma FailureReturnsTypeDefault<I, O>(c: Command<I, O>, input: I)
    requires c.resultObserved && !Terminated(c.results)
    requires c.inFlight == 0 && Allows(c)
    ensures var (c1, r) := Invoke(c, input, _ => Threw);
            && r == c.typeDefault && !c1.isExecuting
            && c1.results == c.results + [Error] && Terminated(c1.results)
  {
    var c1 := Invoke(c, input, _ => Threw).0;
    assert c1.results[|c.results|].Error?;
  }

  /** `ICommand.CanExecute`: the latest value of the effective gate, and false before it has
      produced one (the cached field starts false). Every reachable command is `Consistent`
      (`NewIsConsistent`, `RunKeepsConsistent`). */
  function CanExecute<I, O>(c: Command<I, O>): (b: bool)
    requires Consistent(c)
    ensures EffectiveGate(c).Some? ==> b == EffectiveGate(c).value
    ensures EffectiveGate(c).None? ==> !b
  {
    c.canExecuteValue
  }

  /** Every interleaving of steps keeps `Consistent`. */
  lemma {:induction false} RunKeepsConsistent<I, O>(c: Command<I, O>, steps: seq<Step<I, O>>)
    requires Consistent(c)
    ensures Consistent(RunSteps(c, steps))
    decreases |steps|
  {
    if |steps| > 0 {
      match steps[0]
      case BeginStep(x) =>
        BeginPreservesConsistent(c, x);
        RunKeepsConsistent(Begin(c, x).0, steps[1..]);
      case CompleteStep(o) =>
        if c.inFlight > 0 {
          CompletePreservesConsistent(c, o);
        }
        RunKeepsConsistent(if c.inFlight > 0 then Complete(c, o).0 else c, steps[1..]);
      case GateStep(v) =>
        if c.external.Gate? {
          GateEmitsPreservesConsistent(c, v);
        }
        RunKeepsConsistent(if c.external.Gate? then GateEmits(c, v) else c, steps[1..]);
    }
  }

  /** Whatever happened since construction, `ICommand.CanExecute` answers the effective gate's
      latest value, and false while the gate has produced none. */
  lemma CanExecuteReportsGate<I, O>(allowSimultaneousExecution: bool, external: Gate, defaultValue: Option<O>,
                                    typeDefault: O, inputDefault: I, steps: seq<Step<I, O>>)
    ensures var c := RunSteps(New(allowSimultaneousExecution, external, defaultValue, typeDefault, inputDefault), steps);
            && Consistent(c)
            && (EffectiveGate(c).Some? ==> CanExecute(c) == EffectiveGate(c).value)
            && (EffectiveGate(c).None? ==> !CanExecute(c))
  {
    var c0 := New(allowSimultaneousExecution, external, defaultValue, typeDefault, inputDefault);
    NewIsConsistent(allowSimultaneousExecution, external, defaultValue, typeDefault, inputDefault);
    RunKeepsConsistent(c0, steps);
  }

  /** The untyped `object` parameter `ICommand.Execute` receives: null, a value of the
      command's input type, or a value of some other run-time type. */
  datatype Argument<I> = NullArgument | Typed(value: I) | OtherType

  /** `ICommand.Execute(parameter)`: invokes with the parameter, or `default(TInput)` for a
      null parameter, and discards the result. A parameter of another run-time type fails the
      cast `(TInput)parameter` before anything is invoked. */
  function Execute<I, O>(c: Command<I, O>, parameter: Argument<I>, run: I -> Outcome<O>): (r: Result<Command<I, O>>)
    ensures parameter.OtherType? <==> r == Failure(InvalidCast)
    ensures r.Success? && Allows(c) && parameter.NullArgument? ==> r.value.started == c.started + [c.inputDefault]
    ensures r.Success? && Allows(c) && parameter.Typed? ==> r.value.started == c.started + [parameter.value]
    ensures r.Success? && !Allows(c) ==> r.value.started == c.started
  {
    match parameter
    case OtherType => Failure(InvalidCast)
    case NullArgument => Success(Invoke(c, c.inputDefault, run).0)
    case Typed(v) => Success(Invoke(c, v, run).0)
  }

  /** The unparameterised `InvokeAsync()`: invokes with `default(TInput)`. */
  function InvokeWithoutInput<I, O>(c: Command<I, O>, run: I -> Outcome<O>): (res: (Command<I, O>, O))
    ensures Allows(c) ==> res.0.started == c.started + [c.inputDefault]
    ensures !Allows(c) ==> res.1 == DefaultOf(c)
  {
    Invoke(c, c.inputDefault, run)
  }

  /** `RxCommand.Create` / `CreateAsync` (with or without input): exclusive unless asked,
      no output, so a denied call yields `Unit`. */
  function CreateCommand<I>(external: Gate, allowSimultaneousExecution: bool, inputDefault: I): (c: Command<I, Unit>)
    ensures c.defaultValue.None? && DefaultOf(c) == Unit
    ensures !c.isExecuting && c.isAllowedToExecute && !c.subscribed
    ensures c.allowSimultaneousExecution == allowSimultaneousExecution && c.external == external
  {
    New(allowSimultaneousExecution, external, None, Unit, inputDefault)
  }

  /** `RxFunction.Create` / `CreateAsync` (with or without input): as `CreateCommand`, plus
      the optional default value. */
  function CreateFunction<I, O>(external: Gate, defaultValue: Option<O>, allowSimultaneousExecution: bool,
                                typeDefault: O, inputDefault: I): (c: Command<I, O>)
    ensures DefaultOf(c) == defaultValue.OrElse(typeDefault) && c.typeDefault == typeDefault
    ensures !c.isExecuting && c.isAllowedToExecute && !c.subscribed
    ensures c.allowSimultaneousExecution == allowSimultaneousExecution && c.external == external
  {
    New(allowSimultaneousExecution, external, defaultValue, typeDefault, inputDefault)
  }
}
