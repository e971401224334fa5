/** Safety of one slot over whole runs: every sequence of events, calls, exits and timer completions. */
module SlotRuns {
  import opened Wrappers
  import opened Events
  import opened Trace
  import opened SlotModel
  import opened SlotSafety

  /** What the D-Bus methods of a slot in `config.mode` can send it. */
  predicate WellFormed(config: MountPoint, i: Input) {
    i.OnEvent? && i.event.Mount? ==>
      if i.event.target.Some? then Unmounted(i.event.target.value) else config.mode.Proxy?
  }

  lemma ChangeStateFrame(s: Slot, st: State, env: Env)
    requires CanEnter(s, st)
    ensures var r := ChangeState(s, st, env);
            && r.name == s.name && r.config == s.config && r.additionalInfo == s.additionalInfo
            && (Owns(r.state) ==> SameRequest(s.target, r.target))
            && (!st.Activating? ==> PhaseOf(r.state) == PhaseOf(st))
            && (st.Activating? ==> r.state.Activating? || r.state.Ready?)
            && (st.Active? || st.Ready? ==> r.state == st)
            && (st.Deactivating? ==> r.state == Deactivating(NOTHING, st.udev, st.stopped))
            && (s.notification.Some? ==> r.notification.Some?)
  {
    hide Replay;
    var e := Emit(ReleaseState(s.(state := st), s.state), Entered(PhaseOf(st)));
    if st.Activating? {
      var a := Activate(e, env);
      assert Continues(e, a.slot);
    }
  }

  lemma DispatchFrame(s: Slot, e: Event, env: Env)
    requires Good(s) && Legal(s, OnEvent(e, env))
    ensures var r := Dispatch(s, e, env).0;
            && r.name == s.name && r.config == s.config && r.additionalInfo == s.additionalInfo
            && (Owns(s.state) && Owns(r.state) ==> SameRequest(s.target, r.target))
            && (!Owns(s.state) && Owns(r.state) ==> s.state.Ready? && e.Mount? && SameRequest(e.target, r.target))
            && (r.state.Initial? ==> s.state.Initial?)
  {
    hide Replay, ChangeState;
    var (h, outcome) := Handle(s, e, env);
    if outcome.Goto? {
      ChangeStateFrame(h, outcome.next, env);
    }
  }

  lemma StepFrame(s: Slot, i: Input)
    requires Good(s) && Legal(s, i)
    ensures var r := Step(s, i);
            && r.name == s.name && r.config == s.config
            && (r.additionalInfo != s.additionalInfo ==> i.MountCall? && s.state.Ready? && r.additionalInfo == i.info)
            && (Owns(s.state) && Owns(r.state) ==> SameRequest(s.target, r.target))
            && (!Owns(s.state) && Owns(r.state) ==>
                  s.state.Ready? && i.OnEvent? && i.event.Mount? && SameRequest(i.event.target, r.target))
            && (r.state.Initial? ==> s.state.Initial?)
  {
    hide Replay, Dispatch;
    if i.OnEvent? {
      DispatchFrame(s, i.event, i.env);
    } else if i.ChildExit? {
      DispatchFrame(s.(exitCode := i.exitCode), SubprocessStopped, i.env);
    }
  }

  predicate AllWellFormed(config: MountPoint, inputs: seq<Input>) {
    forall i :: 0 <= i < |inputs| ==> WellFormed(config, inputs[i])
  }

  /** Nothing the D-Bus methods send can make activation read a target that is not there. */
  lemma WellFormedIsLegal(s: Slot, i: Input)
    requires Good(s) && WellFormed(s.config, i)
    ensures Legal(s, i)
  {
  }

  /** A slot after a whole run, which started from `s`. */
  function Run(s: Slot, inputs: seq<Input>): (r: Slot)
    requires Good(s) && AllWellFormed(s.config, inputs)
    ensures Good(r) && r.config == s.config && r.name == s.name
  {
    if inputs == [] then s
    else
      var q := Run(s, inputs[..|inputs| - 1]);
      var i := inputs[|inputs| - 1];
      StepIsGood(q, i);
      StepFrame(q, i);
      Step(q, i)
  }

  lemma FreshIsGood(name: string, config: MountPoint)
    ensures Good(Fresh(name, config))
  {
  }

  /** A slot after a whole run from its construction. */
  function Life(name: string, config: MountPoint, inputs: seq<Input>): (r: Slot)
    requires AllWellFormed(config, inputs)
    ensures Good(r) && r.config == config && r.name == name
  {
    FreshIsGood(name, config);
    Run(Fresh(name, config), inputs)
  }

  /** Ownership in every run: what was acquired and not released is exactly what the fields hold. */
  lemma RunConserves(name: string, config: MountPoint, inputs: seq<Input>, r: Resource)
    requires AllWellFormed(config, inputs)
    ensures var s := Life(name, config, inputs);
            && Outstanding(s.log, r) == One(match r
                                            case Directory => HasShare(s)
                                            case MountedShare => HasShare(s)
                                            case Child => HasChild(s)
                                            case UsbGadget => HasGadget(s))
            && (s.state.Initial? || s.state.Ready? ==> Outstanding(s.log, r) == 0)
  {
    Conservation(Life(name, config, inputs).log, r);
  }

  /**
   Notifications in every run: each start was answered by one signal, was cleared by a timer
   completion, or is still pending, and only Activating and Deactivating leave one pending.
   */
  lemma RunNotifies(name: string, config: MountPoint, inputs: seq<Input>)
    requires AllWellFormed(config, inputs)
    ensures var s := Life(name, config, inputs);
            && Count(s.log, Started) == Signals(s.log) + Count(s.log, Cleared) + One(Pending(s))
            && (Pending(s) ==> s.state.Activating? || s.state.Deactivating?)
  {
    NotificationConservation(Life(name, config, inputs).log);
  }

  /** In every run each start comes to exactly one end before the slot next settles. */
  lemma RunEndsEachStartOnce(name: string, config: MountPoint, inputs: seq<Input>)
    requires AllWellFormed(config, inputs)
    ensures var log := Life(name, config, inputs).log;
            forall i: nat, j: nat :: SettlesNext(log, i, j) ==> Outcomes(log[..j]) == Outcomes(log[..i]) + 1
  {
    hide Replay;
    var log := Life(name, config, inputs).log;
    forall i: nat, j: nat | SettlesNext(log, i, j)
      ensures Outcomes(log[..j]) == Outcomes(log[..i]) + 1
    {
      OneOutcomePerStart(log, i, j);
    }
  }

  /** In every run a mount answered with success is mounted exactly if the slot was not deactivated on the way. */
  lemma RunSuccessMeansMountedIff(name: string, config: MountPoint, inputs: seq<Input>)
    requires AllWellFormed(config, inputs)
    ensures var log := Life(name, config, inputs).log;
            forall i: nat, j: nat :: SuccessfulMount(log, i, j) ==> MountedUnlessDeactivated(log, i, j)
  {
    hide Replay, SuccessfulMount, MountedUnlessDeactivated;
    var log := Life(name, config, inputs).log;
    forall i: nat, j: nat | SuccessfulMount(log, i, j)
      ensures MountedUnlessDeactivated(log, i, j)
    {
      SuccessMeansMountedIff(log, i, j);
    }
  }

  /** In every run resources are given up in order, and all of them before the next mount is accepted. */
  lemma RunTearsDownInOrder(name: string, config: MountPoint, inputs: seq<Input>)
    requires AllWellFormed(config, inputs)
    ensures var log := Life(name, config, inputs).log;
            forall i :: 0 <= i < |log| ==> ReleasedInOrder(log, i)
  {
    hide Replay, ReleasedInOrder;
    var log := Life(name, config, inputs).log;
    forall i | 0 <= i < |log|
      ensures ReleasedInOrder(log, i)
    {
      TeardownOrder(log, i);
    }
  }

  /** Mounts in every run: as many entries to Ready as registrations and accepted mounts have come back. */
  lemma RunSettles(name: string, config: MountPoint, inputs: seq<Input>)
    requires AllWellFormed(config, inputs)
    ensures var s := Life(name, config, inputs);
            && Count(s.log, Entered(InReady)) == 1 + Count(s.log, Accepted) - One(!s.state.Ready?)
            && Count(s.log, Entered(InActive)) <= Count(s.log, Accepted)
  {
    RunShape(Life(name, config, inputs).log);
  }

  /** The target that the last accepted mount of a run asked for. */
  function LastAccepted(s: Slot, inputs: seq<Input>): Option<Target>
    requires Good(s) && AllWellFormed(s.config, inputs)
  {
    if inputs == [] then None
    else
      var i := inputs[|inputs| - 1];
      var before := inputs[..|inputs| - 1];
      if i.OnEvent? && i.event.Mount? && Run(s, before).state.Ready? then i.event.target else LastAccepted(s, before)
  }

  /** From acceptance until Ready clears it, the target is the one that was accepted, and a legacy slot has one. */
  lemma {:induction false} RunKeepsTarget(s: Slot, inputs: seq<Input>)
    requires Good(s) && !Owns(s.state) && AllWellFormed(s.config, inputs)
    ensures var r := Run(s, inputs);
            && (Owns(r.state) ==> SameRequest(LastAccepted(s, inputs), r.target))
            && (Owns(r.state) && !s.config.mode.Proxy? ==> r.target.Some?)
            && (!Owns(r.state) ==> r.target.None?)
  {
    if inputs != [] {
      var before := inputs[..|inputs| - 1];
      RunKeepsTarget(s, before);
      StepFrame(Run(s, before), inputs[|inputs| - 1]);
    }
  }
}
