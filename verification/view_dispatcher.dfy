/** `ViewDispatcher<TViewState>`: a dispatcher that also remembers the last state of one kind
    dispatched on it. The constructor registers, before anything else, a `RegisterLast`
    registration whose handler stores the delivered value into `LastState`; its handle is
    discarded, so that registration is never paused or unregistered. */
module ViewDispatchers {
  import opened Wrappers
  import opened Seqs
  import opened StateMessages
  import R = Registrations
  import G = GlobalDispatchers

  datatype ViewDispatcher = ViewDispatcher(
    tracked: Kind,                       // TViewState
    tracker: R.Registration<Message>,    // the internal RegisterLast<TViewState> registration
    base: G.Dispatcher,                  // the registrations made by users of the dispatcher
    lastState: Option<Message>           // LastState; None is default(TViewState)
  )

  /** The internal registration stays active, attached and filtered to the tracked kind, and
      `LastState` holds a value of the tracked kind. */
  ghost predicate Valid(vd: ViewDispatcher) {
    && vd.tracker.attached && vd.tracker.emit && vd.tracker.queue == []
    && (forall m :: vd.tracker.accepts(m) <==> IsKind(m, vd.tracked))
    && (vd.lastState.Some? ==> IsKind(vd.lastState.value, vd.tracked))
  }

  /** The constructor: `LastState` is absent until a value of the tracked kind is dispatched. */
  function New(tracked: Kind): (vd: ViewDispatcher)
    ensures vd.lastState == None
    ensures vd.tracked == tracked && vd.base == G.New()
    ensures Valid(vd)
  {
    var (d, _) := G.RegisterLast(G.New(), tracked);
    ViewDispatcher(tracked, d.registrations[0], G.New(), None)
  }

  /** `UpdateLastState`, the internal handler: stores the last element of the batch. */
  function UpdateLastState(vd: ViewDispatcher, batch: seq<Message>): (vd': ViewDispatcher)
    requires |batch| > 0
    ensures vd'.lastState == Some(batch[|batch| - 1])
    ensures vd'.tracked == vd.tracked && vd'.tracker == vd.tracker && vd'.base == vd.base
  {
    vd.(lastState := Some(Last(batch)))
  }

  /** `Dispatch` on a view dispatcher: the internal registration sees the message first and
      its handler runs when a batch is delivered; then the users' registrations see it. */
  function Dispatch(vd: ViewDispatcher, m: Message): (vd': ViewDispatcher)
    requires Valid(vd)
    ensures Valid(vd')
    ensures IsKind(m, vd.tracked) ==> vd'.lastState == Some(m)
    ensures !IsKind(m, vd.tracked) ==> vd'.lastState == vd.lastState
    ensures vd'.tracked == vd.tracked && vd'.base == G.Dispatch(vd.base, m)
  {
    var t := R.Offer(vd.tracker, m);
    var vd1 := vd.(tracker := t, base := G.Dispatch(vd.base, m));
    if |t.delivered| > |vd.tracker.delivered| then
      assert t.delivered == vd.tracker.delivered + [[m]];
      UpdateLastState(vd1, Last(t.delivered))
    else
      vd1
  }

  /** `Dispatch` applied to each message in turn. */
  function DispatchAll(vd: ViewDispatcher, ms: seq<Message>): (vd': ViewDispatcher)
    requires Valid(vd)
    ensures Valid(vd') && vd'.tracked == vd.tracked
    decreases |ms|
  {
    if |ms| == 0 then vd else DispatchAll(Dispatch(vd, ms[0]), ms[1..])
  }

  /** After any run of dispatches, `LastState` is the most recently dispatched value of the
      tracked kind, or what it was before if none was dispatched. */
  lemma {:induction false} LastStateIsMostRecent(vd: ViewDispatcher, ms: seq<Message>)
    requires Valid(vd)
    ensures DispatchAll(vd, ms).lastState == MostRecent(ms, vd.tracked, vd.lastState)
    decreases |ms|
  {
    if |ms| > 0 {
      var vd1 := Dispatch(vd, ms[0]);
      LastStateIsMostRecent(vd1, ms[1..]);
      MostRecentCons(ms, vd.tracked, vd.lastState);
    }
  }

  /** The most recent message of kind `k` in `ms`, scanning from the end, or `prior`. */
  function MostRecent(ms: seq<Message>, k: Kind, prior: Option<Message>): (r: Option<Message>)
    ensures r.Some? && r != prior ==> r.value in ms && IsKind(r.value, k)
    decreases |ms|
  {
    if |ms| == 0 then prior
    else if IsKind(Last(ms), k) then Some(Last(ms))
    else MostRecent(ms[..|ms| - 1], k, prior)
  }

  /** Peeling the first message off: it only matters when no later message has kind `k`. */
  lemma {:induction false} MostRecentCons(ms: seq<Message>, k: Kind, prior: Option<Message>)
    requires |ms| > 0
    ensures MostRecent(ms, k, prior)
         == MostRecent(ms[1..], k, if IsKind(ms[0], k) then Some(ms[0]) else prior)
    decreases |ms|
  {
    if |ms| > 1 {
      assert ms[1..][..|ms[1..]| - 1] == ms[..|ms| - 1][1..];
      if !IsKind(Last(ms), k) {
        MostRecentCons(ms[..|ms| - 1], k, prior);
      }
    }
  }

  /** Before any value of the tracked kind has been dispatched, `LastState` is absent. */
  lemma AbsentUntilFirstTrackedDispatch(k: Kind, ms: seq<Message>)
    requires forall i :: 0 <= i < |ms| ==> !IsKind(ms[i], k)
    ensures DispatchAll(New(k), ms).lastState == None
  {
    LastStateIsMostRecent(New(k), ms);
    NoneOfKind(ms, k);
  }

  lemma {:induction false} NoneOfKind(ms: seq<Message>, k: Kind)
    requires forall i :: 0 <= i < |ms| ==> !IsKind(ms[i], k)
    ensures MostRecent(ms, k, None) == None
    decreases |ms|
  {
    if |ms| > 0 {
      NoneOfKind(ms[..|ms| - 1], k);
    }
  }

  /** Re-dispatching `LastState` leaves `LastState` unchanged. */
  lemma RedispatchLastStateIsStable(vd: ViewDispatcher)
    requires Valid(vd) && vd.lastState.Some?
    ensures Dispatch(vd, vd.lastState.value).lastState == vd.lastState
  {
  }
}
