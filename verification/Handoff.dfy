/** The cancellation-safe handoff: one caller awaits one inner task, and may be cancelled any number
    of times at any moment.

    The event loop interleaves three events: the inner task ends, someone cancels the caller, the
    caller runs until its next await. A cancellation that arrives while the caller is already
    scheduled with a result still wins, as it does in the event loop. */
module Handoff {

  /** The inner task. It can also be cancelled by someone else than its caller. */
  datatype Inner<T> = Running | Produced(value: T) | Raised | InnerCancelled

  /** The caller: at its first await, in the loop that drains the inner task, or at its end. `due` is a
      cancellation that has not been delivered yet. */
  datatype Caller<T> =
    | Awaiting(due: bool)
    | Draining(due: bool)
    | Returned(value: T)
    | PropagatedError
    | PropagatedCancellation

  /** `cleaned` is every value handed to the clean-up, in order. */
  datatype State<T> = State(inner: Inner<T>, caller: Caller<T>, cancels: nat, cleaned: seq<T>, hasCleanup: bool)

  datatype Event<T> = Ends(inner: Inner<T>) | Cancel | Runs

  predicate Finished<T>(c: Caller<T>) {
    c.Returned? || c.PropagatedError? || c.PropagatedCancellation?
  }

  predicate Enabled<T>(s: State<T>, event: Event<T>) {
    match event
    case Ends(inner) => s.inner.Running? && !inner.Running?
    case Cancel => !Finished(s.caller)
    case Runs => !Finished(s.caller) && (s.caller.due || !s.inner.Running?)
  }

  /** The handler of a cancellation: wait on while the inner task runs, then hand its value to the
      clean-up and pass the cancellation on. */
  function Drain<T>(s: State<T>): State<T> {
    match s.inner
    case Running => s.(caller := Draining(false))
    case Produced(v) =>
      s.(caller := PropagatedCancellation, cleaned := if s.hasCleanup then s.cleaned + [v] else s.cleaned)
    case _ => s.(caller := PropagatedCancellation)
  }

  function Step<T>(s: State<T>, event: Event<T>): State<T>
    requires Enabled(s, event)
  {
    match event
    case Ends(inner) => s.(inner := inner)
    case Cancel => s.(caller := s.caller.(due := true), cancels := s.cancels + 1)
    case Runs =>
      if s.caller.Draining? || s.caller.due then Drain(s)
      else match s.inner
        case Produced(v) => s.(caller := Returned(v))
        case Raised => s.(caller := PropagatedError)
        case _ => Drain(s)
  }

  function Start<T>(hasCleanup: bool): State<T> {
    State(Running, Awaiting(false), 0, [], hasCleanup)
  }

  ghost predicate Run<T(!new)>(states: seq<State<T>>, events: seq<Event<T>>) {
    && |states| == |events| + 1
    && (states[0] == Start(true) || states[0] == Start(false))
    && forall i :: 0 <= i < |events| ==> Enabled(states[i], events[i]) && states[i + 1] == Step(states[i], events[i])
  }

  function CountCancels<T>(events: seq<Event<T>>): nat {
    if events == [] then 0
    else CountCancels(events[..|events| - 1]) + if events[|events| - 1].Cancel? then 1 else 0
  }

  /** What holds in every state: control comes back only after the inner task is done; a value is
      delivered only if the caller was never cancelled; and a produced value is delivered, or handed
      to the clean-up once, or still in the inner task, never two of these. */
  ghost predicate Protected<T>(s: State<T>) {
    && (Finished(s.caller) ==> !s.inner.Running?)
    && (s.caller.Awaiting? ==> s.caller.due == (s.cancels > 0))
    && (s.caller.Draining? ==> s.cancels > 0)
    && (s.caller.Returned? ==> s.cancels == 0 && s.inner == Produced(s.caller.value))
    && (s.caller.PropagatedError? ==> s.cancels == 0 && s.inner.Raised?)
    && (s.caller.PropagatedCancellation? ==> s.cancels > 0 || s.inner.InnerCancelled?)
    && s.cleaned ==
       if s.caller.PropagatedCancellation? && s.inner.Produced? && s.hasCleanup then [s.inner.value] else []
  }

  lemma StepProtected<T>(s: State<T>, event: Event<T>)
    requires Protected(s) && Enabled(s, event)
    ensures Protected(Step(s, event))
  {
  }

  /** In every interleaving, every state is protected, and it knows exactly how often the caller was
      cancelled. */
  lemma {:induction false} EveryInterleaving<T(!new)>(states: seq<State<T>>, events: seq<Event<T>>)
    requires Run(states, events)
    ensures Protected(states[|events|])
    ensures states[|events|].cancels == CountCancels(events)
    ensures states[|events|].hasCleanup == states[0].hasCleanup
    decreases |events|
  {
    var n := |events|;
    if n > 0 {
      var fewer, prefix := events[..n - 1], states[..n];
      assert forall i :: 0 <= i < n - 1 ==> fewer[i] == events[i] && prefix[i + 1] == states[i + 1];
      EveryInterleaving(prefix, fewer);
      StepProtected(states[n - 1], events[n - 1]);
      assert states[n - 1 + 1] == Step(states[n - 1], events[n - 1]);
    }
  }

  /** The fate of a value, for every run that has ended: without a cancellation it is returned and
      not cleaned up; with one it is handed to the clean-up exactly once, if there is one, and not
      returned. */
  lemma FateOfTheValue<T(!new)>(states: seq<State<T>>, events: seq<Event<T>>, value: T)
    requires Run(states, events) && Finished(states[|events|].caller)
    requires states[|events|].inner == Produced(value)
    ensures var s := states[|events|];
      if CountCancels(events) == 0
      then s.caller == Returned(value) && s.cleaned == []
      else s.caller.PropagatedCancellation? && s.cleaned == if s.hasCleanup then [value] else []
  {
    EveryInterleaving(states, events);
  }

  /** The caller is never stuck: once the inner task is done, its next turn is its last, whatever
      cancellations are still due. */
  lemma EndsOnceInnerIsDone<T(!new)>(states: seq<State<T>>, events: seq<Event<T>>)
    requires Run(states, events) && !Finished(states[|events|].caller) && !states[|events|].inner.Running?
    ensures Enabled(states[|events|], Runs) && Finished(Step(states[|events|], Runs).caller)
  {
  }
}
