/** A slot inside a run of the system is a run of its own, and what the whole system keeps holds for it. */
module Projections {
  import opened Wrappers
  import opened Events
  import opened Monitor
  import opened SlotModel
  import opened SlotSafety
  import opened SlotRuns
  import opened LocalMedia
  import opened Systems
  import opened SystemRuns
  import CredentialPipe
  import SlotSignals
  import Trace

  // ----- the monitor -----

  /** The kernel events of a run, in order. */
  function KernelEvents(actions: seq<Action>): seq<KernelEvent> {
    if actions == [] then []
    else
      var a := actions[|actions| - 1];
      KernelEvents(actions[..|actions| - 1]) + if a.Kernel? then [a.event] else []
  }

  lemma OnlyKernelIsObserved(sys: System, a: Action)
    requires Coupled(sys) && Permitted(sys, a)
    ensures Next(sys, a).devices == if a.Kernel? then Observe(sys.devices, a.event) else sys.devices
  {
    hide Trace.Replay, Dispatch, Observe, EdgeOf, MountAnswer, Current, Coupled;
  }

  /** In every run what is recorded is what the kernel's events, and nothing else, have made of it. */
  lemma {:induction false} RecordFollowsKernel(sys: System, actions: seq<Action>)
    requires Coupled(sys) && AllPermitted(sys, actions)
    ensures RunSystem(sys, actions).devices == ObserveAll(sys.devices, KernelEvents(actions))
  {
    hide Next, Coupled, Permitted, Observe;
    if actions != [] {
      var before := actions[..|actions| - 1];
      var a := actions[|actions| - 1];
      RecordFollowsKernel(sys, before);
      StaysPermitted(sys, RunSystem(sys, before), a);
      assert Permitted(sys, a);
      OnlyKernelIsObserved(RunSystem(sys, before), a);
      if a.Kernel? {
        assert KernelEvents(actions)[..|KernelEvents(actions)| - 1] == KernelEvents(before);
      } else {
        assert KernelEvents(actions) == KernelEvents(before);
      }
    }
  }

  /**
   In every run the last size the kernel has reported for an active slot's device, garbled events aside, was
   positive; so it was for a deactivating slot that has seen no change, and as the change says for one that has.
   */
  lemma SizeInEveryRun(mountPoints: map<string, MountPoint>, actions: seq<Action>, n: string)
    requires forall m :: m in mountPoints ==> !mountPoints[m].mode.Local?
    requires AllPermitted(Boot(mountPoints), actions) && n in mountPoints
    ensures n in Reached(mountPoints, actions).slots
    ensures var state := Reached(mountPoints, actions).slots[n].state;
            var positive := LastPositive(Boot(mountPoints).devices, KernelEvents(actions), mountPoints[n].device);
            && (mountPoints[n].device.Nbd? ==>
                  (positive <==> EndsPositive(KernelEvents(actions), mountPoints[n].device.number)))
            && (state.Active? ==> positive)
            && (state.Deactivating? && state.udev.None? ==> positive)
            && (state.Deactivating? && state.udev.Some? ==> (positive <==> state.udev == Some(Inserted)))
  {
    BootIsCoupled(mountPoints);
    RecordFollowsKernel(Boot(mountPoints), actions);
    RecordedIsLastAccepted(Boot(mountPoints).devices, KernelEvents(actions), mountPoints[n].device);
    if mountPoints[n].device.Nbd? {
      LastPositiveIff(Boot(mountPoints).devices, KernelEvents(actions), mountPoints[n].device.number);
    }
    CouplingInEveryRun(mountPoints, actions, n);
  }

  // ----- one slot -----

  /** What an action of the system comes to for one slot. */
  function InputsFor(sys: System, a: Action, n: string): seq<Input>
    requires n in sys.slots
  {
    match a
    case Kernel(event, envs) =>
      var edge := EdgeOf(sys.devices, event);
      if edge.Some? && edge.value.device == sys.slots[n].config.device
      then [OnEvent(Udev(edge.value.change), envs(n))] else []
    case Client(name, input) => if name == n then [input] else []
    case LocalMount(path, rw, files, env) =>
      if MountAnswer(sys.slots, files, path, rw) == Granted(n)
      then [MountCall("LMEDIA"), OnEvent(Mount(Some(LocalTarget(path, rw))), env)] else []
    case LocalUnmount(files, env) => if Current(sys.slots, files) == Some(n) then [OnEvent(Unmount, env)] else []
  }

  function InputsOf(sys: System, actions: seq<Action>, n: string): seq<Input>
    requires Coupled(sys) && AllPermitted(sys, actions) && n in sys.slots
  {
    if actions == [] then []
    else
      var before := actions[..|actions| - 1];
      InputsOf(sys, before, n) + InputsFor(RunSystem(sys, before), actions[|actions| - 1], n)
  }

  lemma {:induction false} RunConcat(s: Slot, a: seq<Input>, b: seq<Input>)
    requires Good(s) && AllWellFormed(s.config, a) && AllWellFormed(s.config, b)
    ensures AllWellFormed(s.config, a + b) && Run(s, a + b) == Run(Run(s, a), b)
  {
    hide Trace.Replay, Step, Good, WellFormed;
    if b == [] {
      assert a + b == a;
    } else {
      var before := b[..|b| - 1];
      RunConcat(s, a, before);
      assert (a + b)[..|a + b| - 1] == a + before;
    }
  }

  lemma RunOne(s: Slot, i: Input)
    requires Good(s) && WellFormed(s.config, i)
    ensures Legal(s, i) && Run(s, [i]) == Step(s, i)
  {
    hide Trace.Replay, Step;
    assert [i][..0] == [];
    WellFormedIsLegal(s, i);
  }

  /** Logins are as the credential pipe hands them over. */
  predicate LoginsAsRead(inputs: seq<Input>) {
    forall i :: 0 <= i < |inputs| && inputs[i].OnEvent? && inputs[i].event.Mount? && inputs[i].event.target.Some?
                ==> AsRead(inputs[i].event.target.value)
  }

  lemma InputsAreWellFormed(sys: System, a: Action, n: string)
    requires Coupled(sys) && Permitted(sys, a) && n in sys.slots
    ensures AllWellFormed(sys.slots[n].config, InputsFor(sys, a, n)) && LoginsAsRead(InputsFor(sys, a, n))
  {
    hide Trace.Replay, Good, CoupledTo, MountAnswer, Current, EdgeOf;
  }

  lemma LendIsRun(s: Slot, path: string, rw: bool, env: Env)
    requires Good(s) && s.state.Ready?
    ensures var inputs := [MountCall("LMEDIA"), OnEvent(Mount(Some(LocalTarget(path, rw))), env)];
            AllWellFormed(s.config, inputs) && Run(s, inputs) == Lend(s, path, rw, env)
  {
    hide Trace.Replay, Dispatch;
    var call, mount := MountCall("LMEDIA"), OnEvent(Mount(Some(LocalTarget(path, rw))), env);
    RunOne(s, call);
    RunOne(Step(s, call), mount);
    RunConcat(s, [call], [mount]);
    assert [call] + [mount] == [call, mount];
  }

  /** One action of the system is, for every slot, a few inputs of its own, or none. */
  lemma NextProjects(sys: System, a: Action, n: string)
    requires Coupled(sys) && Permitted(sys, a) && n in sys.slots
    ensures AllWellFormed(sys.slots[n].config, InputsFor(sys, a, n))
    ensures n in Next(sys, a).slots && Next(sys, a).slots[n] == Run(sys.slots[n], InputsFor(sys, a, n))
  {
    hide Trace.Replay, Good, CoupledTo, Dispatch, MountAnswer, Current, EdgeOf;
    InputsAreWellFormed(sys, a, n);
    var s := sys.slots[n];
    match a
    case Kernel(event, envs) =>
      var edge := EdgeOf(sys.devices, event);
      if edge.Some? && edge.value.device == s.config.device {
        RunOne(s, OnEvent(Udev(edge.value.change), envs(n)));
      }
    case Client(name, input) =>
      if name == n {
        RunOne(s, input);
      }
    case LocalMount(path, rw, files, env) =>
      if MountAnswer(sys.slots, files, path, rw) == Granted(n) {
        LendIsRun(s, path, rw, env);
      }
    case LocalUnmount(files, env) =>
      if Current(sys.slots, files) == Some(n) {
        RunOne(s, OnEvent(Unmount, env));
      }
  }

  lemma SlotIsGood(sys: System, n: string)
    requires Coupled(sys) && n in sys.slots
    ensures Good(sys.slots[n])
  {
  }

  /** A whole run of the system is, for every slot, a run of its own inputs. */
  lemma {:induction false} RunProjects(sys: System, actions: seq<Action>, n: string)
    requires Coupled(sys) && AllPermitted(sys, actions) && n in sys.slots
    ensures var inputs := InputsOf(sys, actions, n);
            && AllWellFormed(sys.slots[n].config, inputs) && LoginsAsRead(inputs)
            && RunSystem(sys, actions).slots[n] == Run(sys.slots[n], inputs)
  {
    hide Next, Coupled, Permitted, WellFormed, InputsFor, Good, Step;
    if actions == [] {
      assert InputsOf(sys, actions, n) == [];
    } else {
      var before := actions[..|actions| - 1];
      var a := actions[|actions| - 1];
      RunProjects(sys, before, n);
      var q := RunSystem(sys, before);
      StaysPermitted(sys, q, a);
      assert Permitted(sys, a);
      InputsAreWellFormed(q, a, n);
      NextProjects(q, a, n);
      SlotIsGood(sys, n);
      RunConcat(sys.slots[n], InputsOf(sys, before, n), InputsFor(q, a, n));
    }
  }

  lemma {:induction false} LastAcceptedAsRead(s: Slot, inputs: seq<Input>)
    requires Good(s) && AllWellFormed(s.config, inputs) && LoginsAsRead(inputs)
    ensures LastAccepted(s, inputs).Some? ==> AsRead(LastAccepted(s, inputs).value)
  {
    hide Trace.Replay, Step, Good, WellFormed, AsRead;
    if inputs != [] {
      LastAcceptedAsRead(s, inputs[..|inputs| - 1]);
    }
  }

  // ----- every run from start-up -----

  /** The inputs of one slot in a run from start-up. */
  function OwnInputs(mountPoints: map<string, MountPoint>, actions: seq<Action>, n: string): (inputs: seq<Input>)
    requires forall m :: m in mountPoints ==> !mountPoints[m].mode.Local?
    requires AllPermitted(Boot(mountPoints), actions) && n in mountPoints
    ensures Good(Registered(n, mountPoints[n])) && Registered(n, mountPoints[n]).config == mountPoints[n]
    ensures AllWellFormed(mountPoints[n], inputs) && LoginsAsRead(inputs)
    ensures n in Reached(mountPoints, actions).slots
    ensures Reached(mountPoints, actions).slots[n] == Run(Registered(n, mountPoints[n]), inputs)
  {
    hide Trace.Replay, Registered, RunSystem, InputsOf, Run;
    BootIsCoupled(mountPoints);
    RegisteredIsGood(n, mountPoints[n]);
    RunProjects(Boot(mountPoints), actions, n);
    InputsOf(Boot(mountPoints), actions, n)
  }

  /**
   In every run of the system every slot holds the target of the last mount it accepted, for as long as it is mounted
   or on its way; a legacy slot has one all that time, and no slot has one otherwise.
   */
  lemma TargetInEveryRun(mountPoints: map<string, MountPoint>, actions: seq<Action>, n: string)
    requires forall m :: m in mountPoints ==> !mountPoints[m].mode.Local?
    requires AllPermitted(Boot(mountPoints), actions) && n in mountPoints
    ensures n in Reached(mountPoints, actions).slots
    ensures var s := Reached(mountPoints, actions).slots[n];
            var inputs := OwnInputs(mountPoints, actions, n);
            && (Owns(s.state) ==> SameRequest(LastAccepted(Registered(n, mountPoints[n]), inputs), s.target))
            && (Owns(s.state) && mountPoints[n].mode.Legacy? ==> s.target.Some?)
            && (!Owns(s.state) ==> s.target.None?)
  {
    hide Trace.Replay, Registered, Run, Good, LastAccepted, OwnInputs;
    RegisteredIsGood(n, mountPoints[n]);
    RunKeepsTarget(Registered(n, mountPoints[n]), OwnInputs(mountPoints, actions, n));
  }

  /** In every run whatever login a slot holds comes out of the credential pipe as it would go in. */
  lemma LoginsGoRoundInEveryRun(mountPoints: map<string, MountPoint>, actions: seq<Action>, n: string)
    requires forall m :: m in mountPoints ==> !mountPoints[m].mode.Local?
    requires AllPermitted(Boot(mountPoints), actions) && n in mountPoints
    ensures n in Reached(mountPoints, actions).slots
    ensures var target := Reached(mountPoints, actions).slots[n].target;
            target.Some? && target.value.credentials.Some? ==>
              var login := target.value.credentials.value;
              CredentialPipe.Decode(CredentialPipe.Message(login.user, login.password)) == Some(login)
  {
    hide Trace.Replay, Registered, Run, Good, LastAccepted, OwnInputs, CredentialPipe.Decode, CredentialPipe.Message;
    TargetInEveryRun(mountPoints, actions, n);
    RegisteredIsGood(n, mountPoints[n]);
    LastAcceptedAsRead(Registered(n, mountPoints[n]), OwnInputs(mountPoints, actions, n));
    var target := Reached(mountPoints, actions).slots[n].target;
    if target.Some? && target.value.credentials.Some? {
      CredentialPipe.RoundTripIff(target.value.credentials.value.user, target.value.credentials.value.password);
    }
  }

  /** In every run a request that is pending has its wait in flight, or a timeout about to be run. */
  lemma AwaitedInEveryRun(mountPoints: map<string, MountPoint>, actions: seq<Action>, n: string)
    requires forall m :: m in mountPoints ==> !mountPoints[m].mode.Local?
    requires AllPermitted(Boot(mountPoints), actions) && n in mountPoints
    ensures n in Reached(mountPoints, actions).slots
    ensures SlotSignals.Awaited(Reached(mountPoints, actions).slots[n])
  {
    hide Trace.Replay, Registered, Run, OwnInputs;
    RegisteredIsGood(n, mountPoints[n]);
    SlotSignals.RunStaysAwaited(Registered(n, mountPoints[n]), OwnInputs(mountPoints, actions, n));
  }

  // ----- a mount that comes too late -----

  const ONE_PROXY := map["Slot_0" := MountPoint(Nbd(0), Proxy, 0)]

  /** From start-up: the device gets a size, and only then is its slot mounted. */
  const SIZE_THEN_MOUNT := [
    Kernel(KernelEvent(Some("change"), Some("nbd0"), Size(1)), (_: string) => ALL_FINE),
    Client("Slot_0", OnEvent(Mount(None), ALL_FINE))]

  /** So a slot can come to be on its way with its device recorded as inserted already, and nowhere to go but Ready. */
  lemma MountAfterInsertion()
    ensures && (forall n :: n in ONE_PROXY ==> !ONE_PROXY[n].mode.Local?)
            && AllPermitted(Boot(ONE_PROXY), SIZE_THEN_MOUNT)
            && BoundForReady(Reached(ONE_PROXY, SIZE_THEN_MOUNT), "Slot_0")
            && Reached(ONE_PROXY, SIZE_THEN_MOUNT).slots["Slot_0"].state.Activating?
  {
    hide Trace.Replay, Registered, Next, Coupled, BoundForReady;
    var actions := SIZE_THEN_MOUNT;
    var sys := Boot(ONE_PROXY);
    BootIsCoupled(ONE_PROXY);
    RegisteredIsGood("Slot_0", ONE_PROXY["Slot_0"]);
    assert actions[..1] == [actions[0]] && actions[..1][..0] == [];
    NextKeepsCoupling(sys, actions[0]);
    assert RunSystem(sys, actions[..1]) == Next(sys, actions[0]);
    assert Reached(ONE_PROXY, actions) == Next(Next(sys, actions[0]), actions[1]);
    SizeIsRecorded(sys);
    MountIsTooLate(Next(sys, actions[0]));
  }

  lemma MountIsTooLate(sys: System)
    requires Coupled(sys) && "Slot_0" in sys.slots && sys.slots["Slot_0"].state.Ready?
    requires sys.slots["Slot_0"].config == ONE_PROXY["Slot_0"]
    requires Nbd(0) in sys.devices && sys.devices[Nbd(0)] == Inserted
    ensures Permitted(sys, SIZE_THEN_MOUNT[1])
    ensures var r := Next(sys, SIZE_THEN_MOUNT[1]);
            BoundForReady(r, "Slot_0") && r.slots["Slot_0"].state.Activating?
  {
    hide Trace.Replay, Dispatch, Good, CoupledTo;
    SlotIsGood(sys, "Slot_0");
    SlotSignals.PlainMount(sys.slots["Slot_0"], ALL_FINE);
  }

  /** A slot in Ready takes no notice of its device. */
  lemma SizeIsRecorded(sys: System)
    requires Coupled(sys) && "Slot_0" in sys.slots
    requires sys.slots["Slot_0"].state.Ready? && sys.slots["Slot_0"].config.device == Nbd(0)
    ensures var r := Next(sys, SIZE_THEN_MOUNT[0]);
            && Nbd(0) in r.devices && r.devices[Nbd(0)] == Inserted
            && "Slot_0" in r.slots && r.slots["Slot_0"] == sys.slots["Slot_0"]
  {
    hide Trace.Replay, ChangeState, Good, CoupledTo;
    assert DeviceNamed("nbd0") == Nbd(0);
  }
}
