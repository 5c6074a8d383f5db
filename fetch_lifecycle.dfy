/**
 * The `useFetch` hook: a `{data, loading, error}` record driven by calls of
 * `fetchData`, each of which aborts the previous call's controller, marks the
 * state loading, awaits the fetcher and then writes its outcome.
 *
 * The fetcher is never handed the controller's signal, and the write after
 * the await never looks at which controller is current: a call that was
 * superseded still writes its outcome when it settles.
 */
module FetchLifecycle {
  import opened Wrappers

  datatype FetchState<T> = FetchState(data: Option<T>, loading: bool, error: Option<string>)

  /** What a rejected fetcher promise carries: an `Error` object, or any other thrown value. */
  datatype Thrown = ErrorObject(name: string, message: string) | OtherValue

  datatype Outcome<T> = Resolved(value: T) | Rejected(reason: Thrown)

  /** The state before the first call settles. */
  function Initial<T>(): FetchState<T>
  {
    FetchState(None, true, None)
  }

  /** The update made at the start of every call: loading, no error, data kept. */
  function Started<T>(s: FetchState<T>): FetchState<T>
  {
    s.(loading := true, error := None)
  }

  /** A rejection is written to the state only when it is an `Error` not named "AbortError". */
  predicate Surfaces(reason: Thrown)
  {
    reason.ErrorObject? && reason.name != "AbortError"
  }

  /** The update made when a call settles. */
  function Settled<T>(s: FetchState<T>, o: Outcome<T>): FetchState<T>
  {
    match o
    case Resolved(v) => FetchState(Some(v), false, None)
    case Rejected(e) => if Surfaces(e) then FetchState(None, false, Some(e.message)) else s
  }

  /**
   * Data and error are never both set, and a state that is not loading
   * holds one of them.
   */
  ghost predicate Consistent<T>(s: FetchState<T>)
  {
    !(s.data.Some? && s.error.Some?) && (!s.loading ==> s.data.Some? || s.error.Some?)
  }

  lemma InitialConsistent<T>()
    ensures Consistent(Initial<T>())
    ensures Initial<T>().loading && Initial<T>().data.None? && Initial<T>().error.None?
  {}

  lemma {:induction false} StartedSettledConsistent<T>(s: FetchState<T>, o: Outcome<T>)
    requires Consistent(s)
    ensures Consistent(Started(s)) && Consistent(Settled(s, o))
  {}

  /**
   * One call from start to settlement: loading ends exactly when the call
   * resolves or its rejection surfaces; the error is the rejection's
   * message; the data is the resolved value, dropped on a surfaced error and
   * kept otherwise.
   */
  lemma {:induction false} OneCall<T>(s: FetchState<T>, o: Outcome<T>)
    ensures var r := Settled(Started(s), o);
      && (r.loading <==> o.Rejected? && !Surfaces(o.reason))
      && (r.error.Some? <==> o.Rejected? && Surfaces(o.reason))
      && (r.error.Some? ==> r.error.value == o.reason.message)
      && (o.Resolved? ==> r.data == Some(o.value))
      && (o.Rejected? && Surfaces(o.reason) ==> r.data.None?)
      && (o.Rejected? && !Surfaces(o.reason) ==> r.data == s.data)
  {}

  // ---------------------------------------------------------------------
  // Runs of calls, as sequences of events

  /**
   * `Begin` is the synchronous part of a call; `Finish(call, o)` is call
   * number `call` (counting Begins from 0) settling with `o`.
   */
  datatype Event<T> = Begin | Finish(call: nat, outcome: Outcome<T>)

  function Replay<T>(s: FetchState<T>, events: seq<Event<T>>): FetchState<T>
  {
    if events == [] then s
    else
      var prev := Replay(s, events[..|events| - 1]);
      match events[|events| - 1]
      case Begin => Started(prev)
      case Finish(_, o) => Settled(prev, o)
  }

  /** An outcome that replaces the whole state when it arrives. */
  predicate Decisive<T>(o: Outcome<T>)
  {
    o.Resolved? || Surfaces(o.reason)
  }

  /**
   * The state after a run is the one written by the last decisive
   * settlement, whichever call it belongs to, provided only swallowed
   * rejections settle after it.
   */
  lemma {:induction false} LastDecisiveFinishWins<T>(s: FetchState<T>, events: seq<Event<T>>, i: nat, any: FetchState<T>)
    requires i < |events| && events[i].Finish? && Decisive(events[i].outcome)
    requires forall j :: i < j < |events| ==> events[j].Finish? && !Decisive(events[j].outcome)
    ensures Replay(s, events) == Settled(any, events[i].outcome)
  {
    if i < |events| - 1 {
      LastDecisiveFinishWins(s, events[..|events| - 1], i, any);
    }
  }

  /** Every state a run passes through is consistent. */
  lemma {:induction false} ReplayConsistent<T>(s: FetchState<T>, events: seq<Event<T>>)
    requires Consistent(s)
    ensures Consistent(Replay(s, events))
  {
    if events != [] {
      ReplayConsistent(s, events[..|events| - 1]);
      var prev := Replay(s, events[..|events| - 1]);
      match events[|events| - 1]
      case Begin => StartedSettledConsistent(prev, Rejected(OtherValue));
      case Finish(_, o) => StartedSettledConsistent(prev, o);
    }
  }

  /**
   * Two calls overlap and the first, already superseded and aborted, settles
   * last: its value is what the hook ends up holding.
   */
  lemma SupersededCallWins<T>(a: T, b: T)
    ensures Replay(Initial(), [Begin, Begin, Finish(1, Resolved(b)), Finish(0, Resolved(a))]).data == Some(a)
  {}

  /** A call whose fetcher throws an AbortError leaves the hook loading for good. */
  lemma AbortErrorLeavesLoading<T>(s: FetchState<T>, message: string)
    ensures Replay(s, [Begin, Finish(0, Rejected(ErrorObject("AbortError", message)))]).loading
  {}

  // ---------------------------------------------------------------------
  // The hook as an object

  class AbortController {
    var aborted: bool

    constructor ()
      ensures !aborted
    {
      aborted := false;
    }

    method Abort()
      modifies this
      ensures aborted
    {
      aborted := true;
    }
  }

  /** The hook's state cell and its `abortControllerRef`. */
  class FetchHook<T> {
    var state: FetchState<T>
    var controller: AbortController?
    /** Every controller the hook has created, oldest first. */
    ghost var issued: seq<AbortController>

    /** Only the newest controller can be live; the state is consistent. */
    ghost predicate Valid()
      reads this, issued
    {
      && Consistent(state)
      && (controller == null <==> issued == [])
      && (controller != null ==> controller == issued[|issued| - 1])
      && (forall i :: 0 <= i < |issued| - 1 ==> issued[i].aborted)
    }

    constructor ()
      ensures Valid()
      ensures state == Initial() && controller == null && issued == []
    {
      state := Initial();
      controller := null;
      issued := [];
    }

    /**
     * `fetchData` up to its await (also what `refetch`, the interval and
     * the window listeners run). Returns the call's own controller.
     */
    method FetchData() returns (call: AbortController)
      requires Valid()
      modifies this, controller
      ensures Valid()
      ensures fresh(call) && !call.aborted && controller == call
      ensures issued == old(issued) + [call]
      ensures old(controller) != null ==> old(controller).aborted
      ensures state == Started(old(state))
    {
      if controller != null {
        controller.Abort();
      }
      call := new AbortController();
      controller := call;
      issued := issued + [call];
      state := Started(state);
    }

    /**
     * The rest of `fetchData` for the call owning `call`, once the fetcher
     * settles with `o`. The controller is not consulted.
     */
    method Settle(call: AbortController, o: Outcome<T>)
      requires Valid()
      modifies this`state
      ensures Valid()
      ensures state == Settled(old(state), o)
    {
      StartedSettledConsistent(state, o);
      state := Settled(state, o);
    }

    /** The effect's cleanup, run on unmount and before the dependencies' next run. */
    method Cleanup()
      requires Valid()
      modifies controller
      ensures Valid()
      ensures forall i :: 0 <= i < |issued| ==> issued[i].aborted
      ensures state == old(state)
    {
      if controller != null {
        controller.Abort();
      }
    }
  }

  /** The superseded-call run of SupersededCallWins, played on the object. */
  method SupersededCallOnHook<T>(a: T, b: T) returns (final: FetchState<T>, first: AbortController, second: AbortController)
    ensures first.aborted && !second.aborted
    ensures final == FetchState(Some(a), false, None)
  {
    var hook := new FetchHook<T>();
    first := hook.FetchData();
    second := hook.FetchData();
    hook.Settle(second, Resolved(b));
    hook.Settle(first, Resolved(a));
    final := hook.state;
  }

  // ---------------------------------------------------------------------
  // Revalidation triggers

  /** `refreshInterval && refreshInterval > 0` */
  predicate IntervalEnabled(refreshInterval: Option<real>)
  {
    refreshInterval.Some? && refreshInterval.value != 0.0 && refreshInterval.value > 0.0
  }

  /** The timer and window listeners the hook's other two effects keep installed. */
  class Revalidation {
    /** The period of the installed interval timer, if any. */
    var interval: Option<real>
    var focusListener: bool
    var onlineListener: bool

    constructor ()
      ensures interval.None? && !focusListener && !onlineListener
    {
      interval := None;
      focusListener := false;
      onlineListener := false;
    }

    /** The interval effect re-run: the old timer is cleared and at most one new one set. */
    method OnRefreshIntervalChange(refreshInterval: Option<real>)
      modifies this`interval
      ensures interval == (if IntervalEnabled(refreshInterval) then refreshInterval else None)
      ensures interval.Some? ==> interval.value > 0.0
    {
      interval := None;
      if IntervalEnabled(refreshInterval) {
        interval := refreshInterval;
      }
    }

    /** The listener effect re-run: both listeners removed, then each added when its flag is set. */
    method OnFlagsChange(revalidateOnFocus: bool, revalidateOnReconnect: bool)
      modifies this`focusListener, this`onlineListener
      ensures focusListener == revalidateOnFocus && onlineListener == revalidateOnReconnect
    {
      focusListener := false;
      onlineListener := false;
      if revalidateOnFocus {
        focusListener := true;
      }
      if revalidateOnReconnect {
        onlineListener := true;
      }
    }

    /** Unmount: every cleanup runs. */
    method Unmount()
      modifies this
      ensures interval.None? && !focusListener && !onlineListener
    {
      interval := None;
      focusListener := false;
      onlineListener := false;
    }
  }
}
