/** `GlobalDispatcher`: one broadcast stream of state messages and the registrations
    subscribed to it. A registration handle is its position in `registrations`. */
module GlobalDispatchers {
  import opened Wrappers
  import opened Seqs
  import opened StateMessages
  import R = Registrations

  datatype Dispatcher = Dispatcher(registrations: seq<R.Registration<Message>>)

  /** Every registration of the dispatcher satisfies the registration invariant. */
  ghost predicate Valid(d: Dispatcher) {
    forall h :: 0 <= h < |d.registrations| ==> R.Valid(d.registrations[h])
  }

  /** The constructor: a fresh stream with no subscribers. */
  function New(): (d: Dispatcher)
    ensures d.registrations == []
    ensures Valid(d)
  {
    Dispatcher([])
  }

  /** `Dispatch`: publishes `m` to every registration of this dispatcher. Each attached
      registration whose predicate accepts `m` receives it (delivered at once if active,
      queued if paused); every other registration is unchanged. */
  function Dispatch(d: Dispatcher, m: Message): (d': Dispatcher)
    ensures |d'.registrations| == |d.registrations|
    ensures forall h :: 0 <= h < |d.registrations| ==>
              var r, r' := d.registrations[h], d'.registrations[h];
              && r'.accepts == r.accepts && r'.emit == r.emit && r'.attached == r.attached
              && (!r.attached || !r.accepts(m) ==> r' == r)
              && (r.attached && r.accepts(m) && r.emit ==>
                    r'.queue == [] && r'.delivered == r.delivered + [r.queue + [m]])
              && (r.attached && r.accepts(m) && !r.emit ==>
                    r'.queue == r.queue + [m] && r'.delivered == r.delivered)
  {
    Dispatcher(seq(|d.registrations|, h requires 0 <= h < |d.registrations| => R.Offer(d.registrations[h], m)))
  }

  /** Dispatching keeps every registration valid. */
  lemma DispatchPreservesValid(d: Dispatcher, m: Message)
    requires Valid(d)
    ensures Valid(Dispatch(d, m))
  {
    forall h | 0 <= h < |d.registrations| ensures R.Valid(Dispatch(d, m).registrations[h]) {
      R.OperationsPreserveValid(d.registrations[h], m);
    }
  }

  /** `Register(predicate, process)`: subscribes a new, active registration and returns its
      handle; the existing registrations are untouched. */
  function Register(d: Dispatcher, accepts: Message -> bool): (res: (Dispatcher, nat))
    ensures res.1 == |d.registrations|
    ensures res.0.registrations == d.registrations + [R.New(accepts)]
  {
    (Dispatcher(d.registrations + [R.New(accepts)]), |d.registrations|)
  }

  /** `Register(process)`: a registration that accepts every message. */
  function RegisterAll(d: Dispatcher): (res: (Dispatcher, nat))
    ensures && res.1 == |d.registrations| && |res.0.registrations| == |d.registrations| + 1
            && res.0.registrations[..res.1] == d.registrations
            && (forall m: Message :: res.0.registrations[res.1].accepts(m))
  {
    Register(d, _ => true)
  }

  /** `RegisterLast<T>(process)`: a registration that admits exactly the messages of kind `k`. */
  function RegisterLast(d: Dispatcher, k: Kind): (res: (Dispatcher, nat))
    ensures && res.1 == |d.registrations| && |res.0.registrations| == |d.registrations| + 1
            && res.0.registrations[..res.1] == d.registrations
            && (forall m :: res.0.registrations[res.1].accepts(m) <==> IsKind(m, k))
            && res.0.registrations[res.1].emit && res.0.registrations[res.1].queue == []
  {
    Register(d, OfKind(k))
  }

  /** The filter `RegisterLast<T>` subscribes with: "the message is a `T`". */
  function OfKind(k: Kind): (p: Message -> bool)
    ensures forall m :: p(m) <==> IsKind(m, k)
  {
    m => IsKind(m, k)
  }

  /** `RegisterLast<T>(predicate, process)`: admits a message exactly when it is of kind `k`
      and satisfies `p`. */
  function RegisterLastWhere(d: Dispatcher, k: Kind, p: Message -> bool): (res: (Dispatcher, nat))
    ensures && res.1 == |d.registrations| && |res.0.registrations| == |d.registrations| + 1
            && res.0.registrations[..res.1] == d.registrations
            && (forall m :: res.0.registrations[res.1].accepts(m) <==> IsKind(m, k) && p(m))
  {
    Register(d, m => IsKind(m, k) && p(m))
  }

  /** What a `RegisterLast` handler is called with for one delivered batch: its last
      element; `Last()` of an empty batch throws. */
  function LastOfBatch(batch: seq<Message>): (r: Result<Message>)
    ensures |batch| == 0 <==> r == Failure(EmptySequence)
    ensures |batch| > 0 ==> r.Success? && r.value == batch[|batch| - 1] && r.value in batch
  {
    if |batch| == 0 then Failure(EmptySequence) else Success(Last(batch))
  }

  /** Replaces the registration with handle `h`. */
  function Update(d: Dispatcher, h: nat, r: R.Registration<Message>): (d': Dispatcher)
    requires h < |d.registrations|
    ensures |d'.registrations| == |d.registrations| && d'.registrations[h] == r
    ensures forall j :: 0 <= j < |d.registrations| && j != h ==> d'.registrations[j] == d.registrations[j]
  {
    Dispatcher(d.registrations[h := r])
  }

  /** Every registration other than `h` is the same in `d'` as in `d`. */
  ghost predicate OthersUnchanged(d: Dispatcher, d': Dispatcher, h: nat) {
    && |d'.registrations| == |d.registrations|
    && forall j :: 0 <= j < |d.registrations| && j != h ==> d'.registrations[j] == d.registrations[j]
  }

  /** `Pause` on the handle `h`: registration `h` stops delivering and keeps its queue, its log
      and its subscription. */
  function Pause(d: Dispatcher, h: nat): (d': Dispatcher)
    requires h < |d.registrations|
    ensures && OthersUnchanged(d, d', h)
            && var r, r' := d.registrations[h], d'.registrations[h];
            && !r'.emit && r'.queue == r.queue && r'.delivered == r.delivered
            && r'.attached == r.attached && r'.accepts == r.accepts
  {
    Update(d, h, R.Pause(d.registrations[h]))
  }

  /** `Resume` on the handle `h`: registration `h` delivers its whole queue as one batch and is
      active again. */
  function Resume(d: Dispatcher, h: nat): (d': Dispatcher)
    requires h < |d.registrations|
    ensures && OthersUnchanged(d, d', h)
            && var r, r' := d.registrations[h], d'.registrations[h];
            && r'.emit && r'.queue == [] && r'.delivered == r.delivered + [r.queue]
            && r'.attached == r.attached && r'.accepts == r.accepts
  {
    Update(d, h, R.Resume(d.registrations[h]))
  }

  /** `Unregister` on the handle `h`: registration `h` is detached, keeping its queue, log and
      flag. */
  function Unregister(d: Dispatcher, h: nat): (d': Dispatcher)
    requires h < |d.registrations|
    ensures && OthersUnchanged(d, d', h)
            && var r, r' := d.registrations[h], d'.registrations[h];
            && !r'.attached && r'.queue == r.queue && r'.delivered == r.delivered
            && r'.emit == r.emit && r'.accepts == r.accepts
  {
    Update(d, h, R.Unregister(d.registrations[h]))
  }

  /** `Dispatch` applied to each message in turn. */
  function DispatchAll(d: Dispatcher, ms: seq<Message>): (d': Dispatcher)
    ensures |d'.registrations| == |d.registrations|
    decreases |ms|
  {
    if |ms| == 0 then d else DispatchAll(Dispatch(d, ms[0]), ms[1..])
  }

  /** A run of dispatches acts on each registration as the same run of arrivals. */
  lemma {:induction false} DispatchAllIsRun(d: Dispatcher, ms: seq<Message>, h: nat)
    requires h < |d.registrations|
    ensures DispatchAll(d, ms).registrations[h] == R.Run(d.registrations[h], R.ArrivalsOf(ms))
    decreases |ms|
  {
    if |ms| > 0 {
      var d1 := Dispatch(d, ms[0]);
      assert d1.registrations[h] == R.Offer(d.registrations[h], ms[0]);
      assert R.ArrivalsOf(ms)[1..] == R.ArrivalsOf(ms[1..]);
      DispatchAllIsRun(d1, ms[1..], h);
    }
  }

  /** Over any run of dispatches, each registration's delivered batches followed by its
      queue grow by exactly the messages it accepts, in dispatch order; a detached
      registration gains nothing. */
  lemma DispatchAllDeliversFiltered(d: Dispatcher, ms: seq<Message>, h: nat)
    requires h < |d.registrations|
    ensures var r, r' := d.registrations[h], DispatchAll(d, ms).registrations[h];
            && r'.accepts == r.accepts && r'.emit == r.emit && r'.attached == r.attached
            && Flatten(r'.delivered) + r'.queue
               == Flatten(r.delivered) + r.queue + (if r.attached then Filter(r.accepts, ms) else [])
  {
    var r := d.registrations[h];
    DispatchAllIsRun(d, ms, h);
    R.RunDeliversFilteredArrivals(r, R.ArrivalsOf(ms));
    R.ObservedArrivals(r.attached, ms);
    R.ArrivalsKeepFlags(r, ms);
  }

  /** Coalescing: two messages of the tracked kind dispatched to a paused `RegisterLast`
      registration reach its handler, on resume, as one call with the later message. */
  lemma PausedRegisterLastCoalesces(d: Dispatcher, x: string, y: string)
    ensures var (d1, h) := RegisterLast(d, LoadFileKind);
            var d2 := Resume(DispatchAll(Pause(d1, h), [LoadFile(Some(x)), LoadFile(Some(y))]), h);
            var log := d2.registrations[h].delivered;
            |log| == 1 && LastOfBatch(log[0]) == Success(LoadFile(Some(y)))
  {
    var (d1, h) := RegisterLast(d, LoadFileKind);
    var ms := [LoadFile(Some(x)), LoadFile(Some(y))];
    var p := Pause(d1, h);
    DispatchAllDeliversFiltered(p, ms, h);
    var q := DispatchAll(p, ms);
    assert Filter(p.registrations[h].accepts, ms) == ms;
    assert q.registrations[h].delivered == [] by {
      assert Flatten(q.registrations[h].delivered) + q.registrations[h].queue == ms;
      PausedLogUnchanged(p, ms, h);
    }
    assert Flatten(q.registrations[h].delivered) == [];
    assert q.registrations[h].queue == ms;
  }

  /** While a registration stays paused its delivery log does not change. */
  lemma {:induction false} PausedLogUnchanged(d: Dispatcher, ms: seq<Message>, h: nat)
    requires h < |d.registrations| && !d.registrations[h].emit
    ensures DispatchAll(d, ms).registrations[h].delivered == d.registrations[h].delivered
    decreases |ms|
  {
    if |ms| > 0 {
      PausedLogUnchanged(Dispatch(d, ms[0]), ms[1..], h);
    }
  }

  /** `Resume` on an empty queue still calls the handler, with an empty batch; for a
      `RegisterLast` handler that call fails, because `Last()` of an empty array throws. */
  lemma ResumeOnEmptyQueueFailsForLast(d: Dispatcher, h: nat)
    requires h < |d.registrations| && d.registrations[h].queue == []
    ensures var log := Resume(d, h).registrations[h].delivered;
            |log| == |d.registrations[h].delivered| + 1 && LastOfBatch(log[|log| - 1]) == Failure(EmptySequence)
  {
  }

  /** Once unregistered, a registration is untouched by every later dispatch. */
  lemma UnregisteredIgnoresDispatches(d: Dispatcher, h: nat, ms: seq<Message>)
    requires h < |d.registrations|
    ensures DispatchAll(Unregister(d, h), ms).registrations[h] == Unregister(d, h).registrations[h]
  {
    var u := Unregister(d, h);
    DispatchAllIsRun(u, ms, h);
    R.DetachedIgnoresArrivals(u.registrations[h], ms);
  }
}
