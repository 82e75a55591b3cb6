/** `ActionOnDispose`: a disposable that runs a deferred action the first time it is disposed.
    The action is abstracted to whether it throws; a throwing action propagates before the
    object is marked disposed, so a later `Dispose` runs it again. */
module Disposables {

  /** `disposed` is the object's flag; `runs` counts how often the action has been started. */
  datatype ActionOnDispose = ActionOnDispose(disposed: bool, runs: nat)

  /** Construction stores the action without running it. */
  function New(): (d: ActionOnDispose)
    ensures !d.disposed && d.runs == 0
  {
    ActionOnDispose(false, 0)
  }

  /** One `Dispose` call whose action (if it is started) throws when `throws` holds: the new
      state and whether the call threw. */
  function Dispose(d: ActionOnDispose, throws: bool): (r: (ActionOnDispose, bool))
    ensures d.disposed ==> r == (d, false)
    ensures !d.disposed ==> r.0.runs == d.runs + 1 && r.0.disposed == !throws && r.1 == throws
  {
    if d.disposed then (d, false)
    else (ActionOnDispose(!throws, d.runs + 1), throws)
  }

  /** A series of `Dispose` calls, `attempts[i]` saying whether the action would throw at the
      i-th call. */
  function DisposeAll(d: ActionOnDispose, attempts: seq<bool>): ActionOnDispose
    decreases |attempts|
  {
    if |attempts| == 0 then d
    else DisposeAll(Dispose(d, attempts[0]).0, attempts[1..])
  }

  /** The number of attempts up to and including the first one whose action completes (all of
      them when every one throws). */
  function UntilFirstSuccess(attempts: seq<bool>): (n: nat)
    ensures n <= |attempts|
    ensures forall i :: 0 <= i < n - 1 ==> attempts[i]
    ensures n < |attempts| ==> n > 0 && !attempts[n - 1]
  {
    if |attempts| == 0 then 0
    else if !attempts[0] then 1
    else 1 + UntilFirstSuccess(attempts[1..])
  }

  /** Starting undisposed, the action is started once per call until it first completes and
      never after; the object ends disposed exactly when some call completed. */
  lemma {:induction false} ActionRunsUntilFirstSuccess(d: ActionOnDispose, attempts: seq<bool>)
    requires !d.disposed
    ensures DisposeAll(d, attempts).runs == d.runs + UntilFirstSuccess(attempts)
    ensures DisposeAll(d, attempts).disposed <==> exists i :: 0 <= i < |attempts| && !attempts[i]
    decreases |attempts|
  {
    if |attempts| > 0 {
      var next := Dispose(d, attempts[0]).0;
      if attempts[0] {
        ActionRunsUntilFirstSuccess(next, attempts[1..]);
        if exists i :: 0 <= i < |attempts[1..]| && !attempts[1..][i] {
          var i :| 0 <= i < |attempts[1..]| && !attempts[1..][i];
          assert !attempts[i + 1];
        }
        if exists i :: 0 <= i < |attempts| && !attempts[i] {
          var i :| 0 <= i < |attempts| && !attempts[i];
          assert !attempts[1..][i - 1];
        }
      } else {
        DisposedStaysPut(next, attempts[1..]);
      }
    }
  }

  /** Once disposed, further `Dispose` calls change nothing. */
  lemma {:induction false} DisposedStaysPut(d: ActionOnDispose, attempts: seq<bool>)
    requires d.disposed
    ensures DisposeAll(d, attempts) == d
    decreases |attempts|
  {
    if |attempts| > 0 {
      DisposedStaysPut(d, attempts[1..]);
    }
  }

  /** A second `Dispose` after one that completed does not run the action again. */
  lemma DisposeTwiceRunsOnce(throws: bool)
    ensures DisposeAll(New(), [false, throws]).runs == 1
  {
    DisposedStaysPut(Dispose(New(), false).0, [throws]);
  }
}
