/** The `Combine`, `AsParameterized` and `AsCommand` extensions. Each builds a new command
    (exclusive, no external gate, no default value) whose action invokes the operands; an
    operand's own gate, default value and failure handling apply as usual, and the operands
    are invoked to completion one after the other. */
module CommandCombinators {
  import opened Wrappers
  import opened Commands

  /** What an uninterrupted invocation returns: the action's value, `default(TOutput)` when
      the action throws, and `defaultValue()` when the gate denies it. */
  function Returns<I, O>(c: Command<I, O>, input: I, run: I -> Outcome<O>): O {
    if !Allows(c) then DefaultOf(c)
    else match run(input)
      case Returned(v) => v
      case Threw => c.typeDefault
  }

  /** `Invoke` returns exactly what `Returns` describes. */
  lemma InvokeReturns<I, O>(c: Command<I, O>, input: I, run: I -> Outcome<O>)
    ensures Invoke(c, input, run).1 == Returns(c, input, run)
  {
  }

  /** The inputs an operand's action is started with during one invocation. */
  function StartedWith<I, O>(c: Command<I, O>, input: I): seq<I> {
    if Allows(c) then [input] else []
  }

  /** The command a combinator creates around its operands. */
  function NewCombined<X, O>(typeDefault: O, inputDefault: X): (c: Command<X, O>)
    ensures !c.allowSimultaneousExecution && c.external == NoGate && DefaultOf(c) == typeDefault
    ensures ExclusiveValid(c)
  {
    New(false, NoGate, None, typeDefault, inputDefault)
  }

  /** The states of the combined command and its two operands after one invocation, and the
      value it returned. */
  datatype Combined<X, O, I1, A, I2, B> =
    Combined(outer: Command<X, O>, first: Command<I1, A>, second: Command<I2, B>, output: O)

  /** One invocation of a combined command: its own gate first; if allowed, `first` is
      invoked with `in1(x)`, then `second` with `in2(x, a)` where `a` is what `first`
      returned (whether it ran, was denied or failed), and the result is `pick(a, b)`. */
  function CombineInvoke<X, O, I1, A, I2, B>(
    outer: Command<X, O>, x: X,
    first: Command<I1, A>, run1: I1 -> Outcome<A>, in1: X -> I1,
    second: Command<I2, B>, run2: I2 -> Outcome<B>, in2: (X, A) -> I2,
    pick: (A, B) -> O): (r: Combined<X, O, I1, A, I2, B>)
    ensures !Allows(outer) ==>
              r.first == first && r.second == second && r.output == DefaultOf(outer)
              && r.outer.started == outer.started
    ensures Allows(outer) ==>
              var a := Returns(first, in1(x), run1);
              var b := Returns(second, in2(x, a), run2);
              && r.first.started == first.started + StartedWith(first, in1(x))
              && r.second.started == second.started + StartedWith(second, in2(x, a))
              && r.output == pick(a, b)
              && r.outer.started == outer.started + [x]
              && r.outer.executingLog == outer.executingLog + [true, false]
  {
    var (o1, begun) := Begin(outer, x);
    match begun
    case Denied(v) => Combined(o1, first, second, v)
    case Started =>
      var ops := RunOperands(x, first, run1, in1, second, run2, in2);
      var (o2, out) := Complete(o1, Returned(pick(ops.a, ops.b)));
      Combined(o2, ops.first, ops.second, out)
  }

  /** A call to an exclusive combined command while an earlier call of it is still running is
      denied: it returns the combined command's default value and invokes neither operand. */
  lemma CombinedOverlapIsDenied<X, O, I1, A, I2, B>(
    outer: Command<X, O>, x: X,
    first: Command<I1, A>, run1: I1 -> Outcome<A>, in1: X -> I1,
    second: Command<I2, B>, run2: I2 -> Outcome<B>, in2: (X, A) -> I2,
    pick: (A, B) -> O)
    requires ExclusiveValid(outer) && outer.isExecuting
    ensures var r := CombineInvoke(outer, x, first, run1, in1, second, run2, in2, pick);
            && r.output == DefaultOf(outer) && r.first == first && r.second == second
            && r.outer.started == outer.started && r.outer.inFlight == 1
  {
    ExecutingDeniesInvoke(outer, x);
  }

  /** A second call to a freshly combined command, made before the first has completed,
      returns `default(TOutput)` and leaves the operands as the first call found them. */
  lemma SecondCombinedCallWhileFirstRuns<X, O, I1, A, I2, B>(
    typeDefault: O, inputDefault: X, x: X, y: X,
    first: Command<I1, A>, run1: I1 -> Outcome<A>, in1: X -> I1,
    second: Command<I2, B>, run2: I2 -> Outcome<B>, in2: (X, A) -> I2,
    pick: (A, B) -> O)
    ensures var (running, begun) := Begin(NewCombined(typeDefault, inputDefault), x);
            var r := CombineInvoke(running, y, first, run1, in1, second, run2, in2, pick);
            && begun == Started
            && r.output == typeDefault && r.first == first && r.second == second
            && r.outer.started == [x]
  {
    var c := NewCombined(typeDefault, inputDefault);
    ExclusiveBeginPreservesValid(c, x);
    CombinedOverlapIsDenied(Begin(c, x).0, y, first, run1, in1, second, run2, in2, pick);
  }

  /** The two operands' states after the combined action ran, and what each returned. */
  datatype Operands<I1, A, I2, B> = Operands(first: Command<I1, A>, a: A, second: Command<I2, B>, b: B)

  /** The combined action: `first` with `in1(x)`, then `second` with `in2(x, a)`. */
  function RunOperands<X, I1, A, I2, B>(
    x: X,
    first: Command<I1, A>, run1: I1 -> Outcome<A>, in1: X -> I1,
    second: Command<I2, B>, run2: I2 -> Outcome<B>, in2: (X, A) -> I2): (r: Operands<I1, A, I2, B>)
    ensures r.a == Returns(first, in1(x), run1)
    ensures r.b == Returns(second, in2(x, r.a), run2)
    ensures r.first.started == first.started + StartedWith(first, in1(x))
    ensures r.second.started == second.started + StartedWith(second, in2(x, r.a))
  {
    var (f1, a) := Invoke(first, in1(x), run1);
    var (s1, b) := Invoke(second, in2(x, a), run2);
    Operands(f1, a, s1, b)
  }

  /** `Combine` of two commands (with or without input): runs `first`, then `second`, and
      returns `Unit`; `second` runs by its own gate even when `first` was denied or failed. */
  function Combine<X, I1, I2>(
    outer: Command<X, Unit>, x: X,
    first: Command<I1, Unit>, run1: I1 -> Outcome<Unit>, in1: X -> I1,
    second: Command<I2, Unit>, run2: I2 -> Outcome<Unit>, in2: X -> I2): (r: Combined<X, Unit, I1, Unit, I2, Unit>)
    ensures r.output == Unit
    ensures Allows(outer) ==>
              && r.first.started == first.started + StartedWith(first, in1(x))
              && r.second.started == second.started + StartedWith(second, in2(x))
    ensures !Allows(outer) ==> r.first == first && r.second == second
  {
    CombineInvoke(outer, x, first, run1, in1, second, run2, (x', _) => in2(x'), (_, _) => Unit)
  }

  /** `Combine` of a command and then a function: returns the function's result. */
  function CombineThenFunction<X, I1, I2, B>(
    outer: Command<X, B>, x: X,
    first: Command<I1, Unit>, run1: I1 -> Outcome<Unit>, in1: X -> I1,
    second: Command<I2, B>, run2: I2 -> Outcome<B>, in2: X -> I2): (r: Combined<X, B, I1, Unit, I2, B>)
    ensures Allows(outer) ==>
              && r.output == Returns(second, in2(x), run2)
              && r.first.started == first.started + StartedWith(first, in1(x))
              && r.second.started == second.started + StartedWith(second, in2(x))
    ensures !Allows(outer) ==> r.output == DefaultOf(outer) && r.first == first && r.second == second
  {
    CombineInvoke(outer, x, first, run1, in1, second, run2, (x', _) => in2(x'), (_, b) => b)
  }

  /** `Combine` of a function and then a command: returns the function's result. */
  function CombineFunctionThen<X, I1, A, I2>(
    outer: Command<X, A>, x: X,
    first: Command<I1, A>, run1: I1 -> Outcome<A>, in1: X -> I1,
    second: Command<I2, Unit>, run2: I2 -> Outcome<Unit>, in2: X -> I2): (r: Combined<X, A, I1, A, I2, Unit>)
    ensures Allows(outer) ==>
              && r.output == Returns(first, in1(x), run1)
              && r.first.started == first.started + StartedWith(first, in1(x))
              && r.second.started == second.started + StartedWith(second, in2(x))
    ensures !Allows(outer) ==> r.output == DefaultOf(outer) && r.first == first && r.second == second
  {
    CombineInvoke(outer, x, first, run1, in1, second, run2, (x', _) => in2(x'), (a, _) => a)
  }

  /** `Combine` of two functions as a pipe: the first function's result (its value, its
      default when denied, or `default(TOutput)` when it failed) is the second's input, and
      the second's result is returned. */
  function Pipe<X, I1, A, B>(
    outer: Command<X, B>, x: X,
    first: Command<I1, A>, run1: I1 -> Outcome<A>, in1: X -> I1,
    second: Command<A, B>, run2: A -> Outcome<B>): (r: Combined<X, B, I1, A, A, B>)
    ensures Allows(outer) ==>
              var a := Returns(first, in1(x), run1);
              && r.output == Returns(second, a, run2)
              && r.first.started == first.started + StartedWith(first, in1(x))
              && r.second.started == second.started + StartedWith(second, a)
    ensures !Allows(outer) ==> r.output == DefaultOf(outer) && r.first == first && r.second == second
  {
    CombineInvoke(outer, x, first, run1, in1, second, run2, (_, a) => a, (_, b) => b)
  }

  /** The states of an adapter and the command it wraps after one invocation, and the value
      the adapter returned. */
  datatype Adapted<X, O, I, A> = Adapted(outer: Command<X, O>, inner: Command<I, A>, output: O)

  /** One invocation of an adapter: its own gate; if allowed, the wrapped command is invoked
      with `input(x)` and its result mapped by `output`. */
  function AdaptInvoke<X, O, I, A>(
    outer: Command<X, O>, x: X,
    inner: Command<I, A>, run: I -> Outcome<A>, input: X -> I, output: A -> O): (r: Adapted<X, O, I, A>)
    ensures !Allows(outer) ==> r.inner == inner && r.output == DefaultOf(outer)
    ensures Allows(outer) ==>
              && r.inner.started == inner.started + StartedWith(inner, input(x))
              && r.output == output(Returns(inner, input(x), run))
              && r.outer.started == outer.started + [x]
  {
    var (o1, begun) := Begin(outer, x);
    match begun
    case Denied(v) => Adapted(o1, inner, v)
    case Started =>
      var (i1, a) := Invoke(inner, input(x), run);
      var (o2, out) := Complete(o1, Returned(output(a)));
      Adapted(o2, i1, out)
  }

  /** A call to an exclusive adapter while an earlier call of it is still running is denied:
      it returns the adapter's default value and leaves the wrapped command alone. */
  lemma AdaptedOverlapIsDenied<X, O, I, A>(
    outer: Command<X, O>, x: X,
    inner: Command<I, A>, run: I -> Outcome<A>, input: X -> I, output: A -> O)
    requires ExclusiveValid(outer) && outer.isExecuting
    ensures var r := AdaptInvoke(outer, x, inner, run, input, output);
            && r.output == DefaultOf(outer) && r.inner == inner
            && r.outer.started == outer.started && r.outer.inFlight == 1
  {
    ExecutingDeniesInvoke(outer, x);
  }

  /** `AsCommand` of a function with input: a command that invokes the function with its own
      input and discards the function's result. */
  function AsCommand<I, A>(outer: Command<I, Unit>, x: I, fn: Command<I, A>, run: I -> Outcome<A>): (r: Adapted<I, Unit, I, A>)
    ensures Allows(outer) ==> r.inner.started == fn.started + StartedWith(fn, x)
    ensures !Allows(outer) ==> r.inner == fn
  {
    AdaptInvoke(outer, x, fn, run, x' => x', _ => Unit)
  }

  /** `AsCommand` of a function without input: a command without input that invokes the
      function through its unparameterised `InvokeAsync()`, that is with the function's own
      `default(TInput)`, and discards the function's result. */
  function AsCommandWithoutInput<I, A>(outer: Command<Unit, Unit>, fn: Command<I, A>, run: I -> Outcome<A>): (r: Adapted<Unit, Unit, I, A>)
    ensures Allows(outer) ==> r.inner.started == fn.started + StartedWith(fn, fn.inputDefault)
    ensures !Allows(outer) ==> r.inner == fn
  {
    AdaptInvoke(outer, Unit, fn, run, _ => fn.inputDefault, _ => Unit)
  }

  /** `AsParameterized`: a command taking a `Unit` input that it ignores, invoking the
      wrapped function with `default(TInput)` and returning its result. */
  function AsParameterized<I, A>(outer: Command<Unit, A>, fn: Command<I, A>, run: I -> Outcome<A>): (r: Adapted<Unit, A, I, A>)
    ensures Allows(outer) ==>
              && r.inner.started == fn.started + StartedWith(fn, fn.inputDefault)
              && r.output == Returns(fn, fn.inputDefault, run)
    ensures !Allows(outer) ==> r.inner == fn && r.output == DefaultOf(outer)
  {
    AdaptInvoke(outer, Unit, fn, run, _ => fn.inputDefault, a => a)
  }

  /** A combined command whose first operand is denied still runs its second operand. */
  lemma SecondRunsAfterDeniedFirst<X, I1, I2>(
    outer: Command<X, Unit>, x: X,
    first: Command<I1, Unit>, run1: I1 -> Outcome<Unit>, in1: X -> I1,
    second: Command<I2, Unit>, run2: I2 -> Outcome<Unit>, in2: X -> I2)
    requires Allows(outer) && !Allows(first) && Allows(second)
    ensures var r := Combine(outer, x, first, run1, in1, second, run2, in2);
            r.first.started == first.started && r.second.started == second.started + [in2(x)]
  {
  }

  /** A pipe whose first function fails feeds `default(TOutput)` of the first function, not
      its configured default value, to the second. */
  lemma PipeAfterFailureFeedsTypeDefault<X, I1, A, B>(
    outer: Command<X, B>, x: X,
    first: Command<I1, A>, in1: X -> I1,
    second: Command<A, B>, run2: A -> Outcome<B>)
    requires Allows(outer) && Allows(first) && Allows(second)
    ensures Pipe(outer, x, first, _ => Threw, in1, second, run2).second.started
            == second.started + [first.typeDefault]
  {
  }
}
