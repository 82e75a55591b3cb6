/** One subscriber's view of a dispatcher's stream (`Registration`): a FIFO queue, the `emit`
    flag (active or paused), and whether the stream subscription is still attached. The
    handler is modelled by the log of batches it has been called with. */
module Registrations {
  import opened Seqs

  datatype Registration<!M> = Registration(
    accepts: M -> bool,          // the predicate the stream is filtered with
    queue: seq<M>,               // messages received but not yet handed to the handler
    emit: bool,                  // true while active, false while paused
    attached: bool,              // false once the stream subscription is disposed
    delivered: seq<seq<M>>       // every batch the handler has been called with, in order
  )

  /** Filters `queue` and `delivered` hold exactly what was received: every element of either
      satisfies the predicate, and while active nothing waits in the queue. */
  ghost predicate Valid<M>(r: Registration<M>) {
    && (r.emit ==> r.queue == [])
    && (forall x :: x in r.queue ==> r.accepts(x))
    && (forall b, x :: b in r.delivered && x in b ==> r.accepts(x))
  }

  /** The constructor: subscribes the filtered stream, starts active with an empty queue. */
  function New<M>(accepts: M -> bool): (r: Registration<M>)
    ensures r.emit && r.attached
    ensures r.queue == [] && r.delivered == []
    ensures r.accepts == accepts
    ensures Valid(r)
  {
    Registration(accepts, [], true, true, [])
  }

  /** `Emit`: when active, hands the whole queue to the handler as one batch and clears it;
      when paused, does nothing. */
  function Emit<M>(r: Registration<M>): (r': Registration<M>)
    ensures r.emit ==> r'.queue == [] && r'.delivered == r.delivered + [r.queue]
    ensures !r.emit ==> r' == r
    ensures r'.accepts == r.accepts && r'.emit == r.emit && r'.attached == r.attached
  {
    if r.emit then r.(queue := [], delivered := r.delivered + [r.queue]) else r
  }

  /** `Resume`: becomes active and flushes the queue as one batch, even an empty one. */
  function Resume<M>(r: Registration<M>): (r': Registration<M>)
    ensures r'.emit && r'.queue == []
    ensures r'.delivered == r.delivered + [r.queue]
    ensures r'.accepts == r.accepts && r'.attached == r.attached
  {
    Emit(r.(emit := true))
  }

  /** `Pause`: stops delivery; the queue and the log are untouched. */
  function Pause<M>(r: Registration<M>): (r': Registration<M>)
    ensures !r'.emit
    ensures r'.queue == r.queue && r'.delivered == r.delivered
    ensures r'.accepts == r.accepts && r'.attached == r.attached
  {
    r.(emit := false)
  }

  /** `Unregister`: disposes the stream subscription. The queue, the flag and the log are
      kept, so a later `Resume` still flushes whatever was queued. */
  function Unregister<M>(r: Registration<M>): (r': Registration<M>)
    ensures !r'.attached
    ensures r'.queue == r.queue && r'.delivered == r.delivered && r'.emit == r.emit
    ensures r'.accepts == r.accepts
  {
    r.(attached := false)
  }

  /** `OnCompleted`: the stream ended; the subscription is disposed just like `Unregister`. */
  function OnCompleted<M>(r: Registration<M>): (r': Registration<M>)
    ensures r' == Unregister(r)
  {
    r.(attached := false)
  }

  /** `OnNext`: enqueues the message and emits. */
  function OnNext<M>(r: Registration<M>, m: M): (r': Registration<M>)
    ensures r.emit ==> r'.queue == [] && r'.delivered == r.delivered + [r.queue + [m]]
    ensures !r.emit ==> r'.queue == r.queue + [m] && r'.delivered == r.delivered
    ensures r'.accepts == r.accepts && r'.emit == r.emit && r'.attached == r.attached
  {
    Emit(r.(queue := r.queue + [m]))
  }

  /** A message published on the stream: it reaches `OnNext` only through the attached,
      filtered subscription. */
  function Offer<M>(r: Registration<M>, m: M): (r': Registration<M>)
    ensures !r.attached || !r.accepts(m) ==> r' == r
    ensures r.attached && r.accepts(m) && r.emit && r.queue == [] ==>
              r'.queue == [] && r'.delivered == r.delivered + [[m]]
    ensures r.attached && r.accepts(m) && !r.emit ==>
              r'.queue == r.queue + [m] && r'.delivered == r.delivered
    ensures r'.accepts == r.accepts && r'.emit == r.emit && r'.attached == r.attached
  {
    if r.attached && r.accepts(m) then
      assert r.emit && r.queue == [] ==> r.queue + [m] == [m];
      OnNext(r, m)
    else r
  }

  /** Every operation preserves `Valid`. */
  lemma OperationsPreserveValid<M>(r: Registration<M>, m: M)
    requires Valid(r)
    ensures Valid(Offer(r, m))
    ensures Valid(Resume(r))
    ensures Valid(Pause(r))
    ensures Valid(Unregister(r))
  {
    var o := Offer(r, m);
    if r.attached && r.accepts(m) && r.emit {
      assert r.queue + [m] == [m];
      forall b, x | b in o.delivered && x in b ensures o.accepts(x) {
        if b !in r.delivered {
          assert b == [m];
        }
      }
    }
    var s := Resume(r);
    forall b, x | b in s.delivered && x in b ensures s.accepts(x) {
      if b !in r.delivered {
        assert b == r.queue;
      }
    }
  }

  /** The steps that can happen to a registration. */
  datatype Event<M> = Arrive(m: M) | PauseEvent | ResumeEvent | UnregisterEvent

  function Step<M>(r: Registration<M>, e: Event<M>): Registration<M> {
    match e
    case Arrive(m) => Offer(r, m)
    case PauseEvent => Pause(r)
    case ResumeEvent => Resume(r)
    case UnregisterEvent => Unregister(r)
  }

  function Run<M>(r: Registration<M>, events: seq<Event<M>>): Registration<M>
    decreases |events|
  {
    if |events| == 0 then r else Run(Step(r, events[0]), events[1..])
  }

  /** The messages published while the subscription is attached, given whether it starts
      attached: after an unregistration no later arrival is observed. */
  function Observed<M>(attached: bool, events: seq<Event<M>>): seq<M>
    decreases |events|
  {
    if |events| == 0 then []
    else match events[0]
      case Arrive(m) => (if attached then [m] else []) + Observed(attached, events[1..])
      case UnregisterEvent => Observed(false, events[1..])
      case _ => Observed(attached, events[1..])
  }

  /** No loss, duplication or reordering: what the handler has been given, followed by what
      is still queued, is exactly the filtered sequence of the messages observed. */
  lemma {:induction false} RunDeliversFilteredArrivals<M>(r: Registration<M>, events: seq<Event<M>>)
    ensures Flatten(Run(r, events).delivered) + Run(r, events).queue
         == Flatten(r.delivered) + r.queue + Filter(r.accepts, Observed(r.attached, events))
    ensures Run(r, events).accepts == r.accepts
    decreases |events|
  {
    if |events| > 0 {
      var s := Step(r, events[0]);
      RunDeliversFilteredArrivals(s, events[1..]);
      var rest := Observed(s.attached, events[1..]);
      match events[0]
      case Arrive(m) =>
        FilterAppend(r.accepts, if r.attached then [m] else [], rest);
        if r.attached && r.accepts(m) {
          if r.emit {
            FlattenSnoc(r.delivered, r.queue + [m]);
          }
        }
      case PauseEvent =>
      case ResumeEvent =>
        FlattenSnoc(r.delivered, r.queue);
      case UnregisterEvent =>
    }
  }

  /** The key invariant from construction: the concatenated batches plus the queue equal the
      filtered arrivals up to the unregistration. */
  lemma NoLossNoDuplication<M>(accepts: M -> bool, events: seq<Event<M>>)
    ensures Flatten(Run(New(accepts), events).delivered) + Run(New(accepts), events).queue
         == Filter(accepts, Observed(true, events))
  {
    RunDeliversFilteredArrivals(New(accepts), events);
  }

  /** Once unregistered, arrivals change neither the queue nor the delivery log. */
  lemma {:induction false} DetachedIgnoresArrivals<M>(r: Registration<M>, ms: seq<M>)
    requires !r.attached
    ensures Run(r, ArrivalsOf(ms)) == r
    decreases |ms|
  {
    if |ms| > 0 {
      assert ArrivalsOf(ms)[1..] == ArrivalsOf(ms[1..]);
      DetachedIgnoresArrivals(r, ms[1..]);
    }
  }

  /** One arrival event per message, in order. */
  function ArrivalsOf<M>(ms: seq<M>): (es: seq<Event<M>>)
    ensures |es| == |ms|
    ensures forall i :: 0 <= i < |ms| ==> es[i] == Arrive(ms[i])
  {
    seq(|ms|, i requires 0 <= i < |ms| => Arrive(ms[i]))
  }

  /** A run of arrivals alone observes every message when attached and none otherwise. */
  lemma {:induction false} ObservedArrivals<M>(attached: bool, ms: seq<M>)
    ensures Observed(attached, ArrivalsOf(ms)) == if attached then ms else []
    decreases |ms|
  {
    if |ms| > 0 {
      assert ArrivalsOf(ms)[1..] == ArrivalsOf(ms[1..]);
      ObservedArrivals(attached, ms[1..]);
      assert ms == [ms[0]] + ms[1..];
    }
  }

  /** Arrivals never pause, resume or detach a registration. */
  lemma {:induction false} ArrivalsKeepFlags<M>(r: Registration<M>, ms: seq<M>)
    ensures Run(r, ArrivalsOf(ms)).emit == r.emit && Run(r, ArrivalsOf(ms)).attached == r.attached
    decreases |ms|
  {
    if |ms| > 0 {
      assert ArrivalsOf(ms)[1..] == ArrivalsOf(ms[1..]);
      ArrivalsKeepFlags(Offer(r, ms[0]), ms[1..]);
    }
  }

  /** While paused and attached, arrivals queue up in order and nothing is delivered; the
      next `Resume` hands them over as a single batch. */
  lemma {:induction false} PausedQueuesThenResumeFlushes<M>(r: Registration<M>, ms: seq<M>)
    requires r.attached && !r.emit
    ensures Run(r, ArrivalsOf(ms)).queue == r.queue + Filter(r.accepts, ms)
    ensures Run(r, ArrivalsOf(ms)).delivered == r.delivered
    ensures Resume(Run(r, ArrivalsOf(ms))).delivered == r.delivered + [r.queue + Filter(r.accepts, ms)]
    decreases |ms|
  {
    if |ms| > 0 {
      var s := Offer(r, ms[0]);
      assert ArrivalsOf(ms)[1..] == ArrivalsOf(ms[1..]);
      PausedQueuesThenResumeFlushes(s, ms[1..]);
      assert ms == [ms[0]] + ms[1..];
      FilterAppend(r.accepts, [ms[0]], ms[1..]);
    }
  }

  /** While active and attached, each accepted arrival is delivered at once as a one-element
      batch and the queue stays empty. */
  lemma ActiveDeliversSingletons<M>(r: Registration<M>, m: M)
    requires r.attached && r.emit && r.queue == []
    ensures r.accepts(m) ==> Offer(r, m).delivered == r.delivered + [[m]]
    ensures Offer(r, m).queue == []
  {
  }

  /** Unregistering twice is the same as unregistering once. */
  lemma UnregisterIdempotent<M>(r: Registration<M>)
    ensures Unregister(Unregister(r)) == Unregister(r)
  {
  }
}
