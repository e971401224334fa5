/** Deactivating waits for a device change and a child exit, in whatever order and number they arrive. */
module Rendezvous {
  import opened Wrappers
  import opened Events
  import opened Trace
  import opened SlotModel

  datatype Arrival = Change(change: StateChange) | Exit

  function EventOf(a: Arrival): Event {
    match a
    case Change(change) => Udev(change)
    case Exit => SubprocessStopped
  }

  /** The last device change seen, starting from the one given to the constructor, if any. */
  function LastChange(first: Option<StateChange>, arrivals: seq<Arrival>): Option<StateChange> {
    if arrivals == [] then first
    else
      var a := arrivals[|arrivals| - 1];
      if a.Change? then Some(a.change) else LastChange(first, arrivals[..|arrivals| - 1])
  }

  predicate Met(s: Slot, arrivals: seq<Arrival>)
    requires s.state.Deactivating?
  {
    LastChange(s.state.udev, arrivals).Some? && (s.state.stopped || Exit in arrivals)
  }

  function Feed(s: Slot, arrivals: seq<Arrival>, env: Env): (r: Slot)
    requires s.notification.Some? && (s.state.Deactivating? || s.state.Ready?)
    ensures r.notification.Some? && (r.state.Deactivating? || r.state.Ready?)
  {
    if arrivals == [] then s
    else Dispatch(Feed(s, arrivals[..|arrivals| - 1], env), EventOf(arrivals[|arrivals| - 1]), env).0
  }

  function Waiting(s: Slot, arrivals: seq<Arrival>): Slot
    requires s.state.Deactivating?
  {
    s.(state := Deactivating(s.state.owned, LastChange(s.state.udev, arrivals), s.state.stopped || Exit in arrivals))
  }

  /** The slot handed on to Ready, with an error unless `change` is a removal. */
  function Finished(s: Slot, change: StateChange, env: Env): Slot
    requires s.state.Deactivating? && s.notification.Some?
  {
    var code := if change.Removed? then 0 else ECONNREFUSED;
    var w := s.(state := Deactivating(s.state.owned, Some(change), true));
    ChangeState(Notify(w, code), Ready(if code == 0 then None else Some(code)), env)
  }

  /** One arrival completes the pair or is only remembered. */
  lemma Arrive(w: Slot, a: Arrival, env: Env)
    requires w.state.Deactivating? && w.notification.Some?
    ensures var udev := if a.Change? then Some(a.change) else w.state.udev;
            var stopped := w.state.stopped || a.Exit?;
            Dispatch(w, EventOf(a), env).0 == (if udev.Some? && stopped then Finished(w, udev.value, env)
                                               else w.(state := Deactivating(w.state.owned, udev, stopped)))
  {
    hide Replay, ChangeState;
  }

  lemma {:induction false} Waits(s: Slot, arrivals: seq<Arrival>, env: Env)
    requires s.state.Deactivating? && s.notification.Some? && !Met(s, arrivals)
    ensures Feed(s, arrivals, env) == Waiting(s, arrivals)
  {
    hide Replay, ChangeState, Dispatch;
    if arrivals != [] {
      var before := arrivals[..|arrivals| - 1];
      var a := arrivals[|arrivals| - 1];
      assert arrivals == before + [a];
      assert Exit in arrivals <==> Exit in before || a.Exit?;
      Waits(s, before, env);
      Arrive(Waiting(s, before), a, env);
    }
  }

  /**
   The state is left at the first arrival that completes the pair and at no other; what the slot becomes
   depends only on the last change seen by then, and later arrivals change nothing any more.
   */
  lemma {:induction false} Leaves(s: Slot, arrivals: seq<Arrival>, k: nat, env: Env)
    requires s.state.Deactivating? && s.notification.Some?
    requires 0 < k <= |arrivals| && Met(s, arrivals[..k]) && !Met(s, arrivals[..k - 1])
    ensures Feed(s, arrivals, env) == Finished(s, LastChange(s.state.udev, arrivals[..k]).value, env)
    ensures var r := Feed(s, arrivals, env);
            && r.state.Ready?
            && (r.state.error.None? <==> LastChange(s.state.udev, arrivals[..k]) == Some(Removed))
  {
    hide Replay;
    var before := arrivals[..|arrivals| - 1];
    var a := arrivals[|arrivals| - 1];
    if k < |arrivals| {
      assert before[..k] == arrivals[..k] && before[..k - 1] == arrivals[..k - 1];
      Leaves(s, before, k, env);
    } else {
      assert arrivals[..k] == arrivals == before + [arrivals[k - 1]];
      assert Exit in arrivals <==> Exit in before || a.Exit?;
      Waits(s, before, env);
      Arrive(Waiting(s, before), a, env);
    }
  }

  /** Neither the order nor the number of arrivals matters, only the last change before the pair was complete. */
  lemma OrderIsIrrelevant(s: Slot, a: seq<Arrival>, i: nat, b: seq<Arrival>, j: nat, env: Env)
    requires s.state.Deactivating? && s.notification.Some?
    requires 0 < i <= |a| && Met(s, a[..i]) && !Met(s, a[..i - 1])
    requires 0 < j <= |b| && Met(s, b[..j]) && !Met(s, b[..j - 1])
    requires LastChange(s.state.udev, a[..i]) == LastChange(s.state.udev, b[..j])
    ensures Feed(s, a, env) == Feed(s, b, env)
  {
    Leaves(s, a, i, env);
    Leaves(s, b, j, env);
  }
}
