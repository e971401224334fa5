/** Safety of the whole system over every interleaving of its actions, from start-up on. */
module SystemRuns {
  import opened Wrappers
  import opened Events
  import opened Monitor
  import opened SlotModel
  import opened SlotSafety
  import opened SlotRuns
  import opened LocalMedia
  import opened Systems
  import Trace

  // ----- runs -----

  predicate SameConfigs(a: System, b: System) {
    a.slots.Keys == b.slots.Keys && forall n :: n in a.slots ==> a.slots[n].config == b.slots[n].config
  }

  lemma DeliverFrame(s: Slot, edge: Edge, env: Env)
    requires Good(s) && !s.state.Initial?
    ensures Deliver(s, edge, env).config == s.config
    ensures HoldsLocal(Deliver(s, edge, env)) ==> HoldsLocal(s)
  {
    hide Trace.Replay, ChangeState, Handle;
    var i := OnEvent(Udev(edge.change), env);
    StepIsGood(s, i);
    StepFrame(s, i);
  }

  /** A slot comes to hold a local target only by accepting a mount that asks for one. */
  lemma StepFrameLocal(s: Slot, i: Input)
    requires Good(s) && Legal(s, i)
    ensures Step(s, i).config == s.config
    ensures HoldsLocal(Step(s, i)) && !HoldsLocal(s) ==>
              && s.state.Ready? && i.OnEvent? && i.event.Mount? && i.event.target.Some?
              && IsLocalFile(i.event.target.value.imgUrl)
  {
    hide Trace.Replay, ChangeState, Handle;
    StepIsGood(s, i);
    StepFrame(s, i);
  }

  lemma NextKeepsConfigs(sys: System, a: Action)
    requires Coupled(sys) && Permitted(sys, a)
    ensures SameConfigs(sys, Next(sys, a))
  {
    hide Trace.Replay, ChangeState, Handle, Dispatch, CoupledTo, MountAnswer, Current, Observe, EdgeOf;
    match a
    case Kernel(event, envs) =>
      var edge := EdgeOf(sys.devices, event);
      if edge.Some? {
        forall n | n in sys.slots {
          DeliverFrame(sys.slots[n], edge.value, envs(n));
        }
      }
    case Client(name, input) =>
      if name in sys.slots {
        ClientIsLegal(sys.slots[name], input);
        StepFrameLocal(sys.slots[name], input);
      }
    case LocalMount(path, rw, files, env) =>
      var answer := MountAnswer(sys.slots, files, path, rw);
      if answer.Granted? {
        var s := sys.slots[answer.slot].(additionalInfo := "LMEDIA");
        StepFrameLocal(s, OnEvent(Mount(Some(LocalTarget(path, rw))), env));
      }
    case LocalUnmount(files, env) =>
      var name := Current(sys.slots, files);
      if name.Some? {
        StepFrameLocal(sys.slots[name.value], OnEvent(Unmount, env));
      }
  }

  predicate AllPermitted(sys: System, actions: seq<Action>) {
    forall i :: 0 <= i < |actions| ==> Permitted(sys, actions[i])
  }

  function RunSystem(sys: System, actions: seq<Action>): (r: System)
    requires Coupled(sys) && AllPermitted(sys, actions)
    ensures Coupled(r) && SameConfigs(sys, r)
  {
    if actions == [] then sys
    else
      var q := RunSystem(sys, actions[..|actions| - 1]);
      var a := actions[|actions| - 1];
      assert Permitted(sys, a);
      NextKeepsCoupling(q, a);
      NextKeepsConfigs(q, a);
      Next(q, a)
  }

  // ----- start-up -----

  /** Registration asks nothing of the operating system, so any answers do. */
  function Registered(name: string, config: MountPoint): Slot {
    Dispatch(Fresh(name, config), Register, ALL_FINE).0
  }

  function DevicesOf(mountPoints: map<string, MountPoint>): set<Device> {
    set n | n in mountPoints :: mountPoints[n].device
  }

  function Boot(mountPoints: map<string, MountPoint>): System {
    System(map d | d in DevicesOf(mountPoints) :: Removed,
           map n | n in mountPoints :: Registered(n, mountPoints[n]))
  }

  lemma BootNone()
    ensures Boot(map[]) == System(map[], map[])
  {
  }

  /** One more slot is one more device to watch, unless another slot has it watched already. */
  lemma BootOneMore(mountPoints: map<string, MountPoint>, name: string, config: MountPoint)
    requires name !in mountPoints
    ensures var b := Boot(mountPoints);
            var devices := if config.device in b.devices then b.devices else b.devices[config.device := Removed];
            Boot(mountPoints[name := config]) == System(devices, b.slots[name := Registered(name, config)])
    ensures Boot(mountPoints).slots.Keys == mountPoints.Keys
  {
    hide Registered;
    var more := mountPoints[name := config];
    assert DevicesOf(more) == DevicesOf(mountPoints) + {config.device} by {
      assert forall n :: n in mountPoints ==> more[n] == mountPoints[n];
      assert more[name].device == config.device;
    }
  }

  lemma RegisteredIsGood(name: string, config: MountPoint)
    ensures var s := Registered(name, config);
            Good(s) && s.state == Ready(None) && s.name == name && s.config == config && s.target.None?
  {
    hide Trace.Replay, ChangeState;
    FreshIsGood(name, config);
    var i := OnEvent(Register, ALL_FINE);
    StepIsGood(Fresh(name, config), i);
    StepFrame(Fresh(name, config), i);
    var (h, outcome) := Handle(Fresh(name, config), Register, ALL_FINE);
    ChangeStateFrame(h, Ready(None), ALL_FINE);
  }

  /** The system starts in agreement: everything removed, every slot Ready. */
  lemma BootIsCoupled(mountPoints: map<string, MountPoint>)
    requires forall n :: n in mountPoints ==> !mountPoints[n].mode.Local?
    ensures Coupled(Boot(mountPoints)) && AtMostOneLocal(Boot(mountPoints))
  {
    hide Trace.Replay, Registered;
    var sys := Boot(mountPoints);
    forall n | n in sys.slots
      ensures Sound(sys.devices, n, sys.slots[n]) && !HoldsLocal(sys.slots[n])
    {
      RegisteredIsGood(n, mountPoints[n]);
    }
  }

  // ----- what the coupling is for -----

  /** An active slot is only ever told that its device is gone. */
  lemma ActiveSeesOnlyRemovals(sys: System, event: KernelEvent, n: string)
    requires Coupled(sys) && n in sys.slots && sys.slots[n].state.Active?
    requires EdgeOf(sys.devices, event).Some?
    requires EdgeOf(sys.devices, event).value.device == sys.slots[n].config.device
    ensures EdgeOf(sys.devices, event).value.change == Removed
  {
  }

  lemma LeaveByArrival(s: Slot, e: Event, env: Env)
    requires Good(s) && s.state.Deactivating? && Legal(s, OnEvent(e, env))
    requires Dispatch(s, e, env).0.state.Ready?
    ensures e.Udev? || (e.SubprocessStopped? && s.state.udev.Some?)
    ensures var last := if e.Udev? then e.change else s.state.udev.value;
            Dispatch(s, e, env).0.state.error == if last.Removed? then None else Some(ECONNREFUSED)
  {
    hide Trace.Replay;
    var (h, outcome) := Handle(s, e, env);
    if outcome.Goto? {
      ChangeStateFrame(h, outcome.next, env);
    }
  }

  lemma ReadyMatchesRecord(sys: System, a: Action, n: string)
    requires Coupled(sys) && Permitted(sys, a) && n in sys.slots
    requires sys.slots[n].state.Deactivating?
    requires n in Next(sys, a).slots && Next(sys, a).slots[n].state.Ready?
    requires sys.slots[n].config.device in Next(sys, a).devices
    ensures var error := Next(sys, a).slots[n].state.error;
            var recorded := Next(sys, a).devices[sys.slots[n].config.device];
            && (error == Some(ECONNREFUSED) <==> recorded == Inserted)
            && (error == None <==> recorded == Removed)
  {
    hide Trace.Replay, ChangeState, Handle, Dispatch, MountAnswer, Current, DeviceNamed;
    var s := sys.slots[n];
    match a
    case Kernel(event, envs) =>
      var edge := EdgeOf(sys.devices, event);
      if edge.Some? && edge.value.device == s.config.device {
        LeaveByArrival(s, Udev(edge.value.change), envs(n));
      }
    case Client(name, input) =>
      if name == n && input.OnEvent? {
        ClientIsLegal(s, input);
        LeaveByArrival(s, input.event, input.env);
      } else if name == n && input.ChildExit? {
        LeaveByArrival(s.(exitCode := input.exitCode), SubprocessStopped, input.env);
      }
    case LocalMount(path, rw, files, env) =>
    case LocalUnmount(files, env) =>
      if Current(sys.slots, files) == Some(n) {
        LeaveByArrival(s, Unmount, env);
      }
  }

  /** A deactivation ends in error exactly when the device is, by then, back again. */
  lemma UnexpectedStateExactly(sys: System, a: Action, n: string)
    requires Coupled(sys) && Permitted(sys, a) && n in sys.slots && sys.slots[n].state.Deactivating?
    ensures var r := Next(sys, a);
            && n in r.slots && sys.slots[n].config.device in r.devices
            && (r.slots[n].state.Ready? ==>
                  var error, recorded := r.slots[n].state.error, r.devices[sys.slots[n].config.device];
                  (error == Some(ECONNREFUSED) <==> recorded == Inserted) && (error == None <==> recorded == Removed))
  {
    hide Trace.Replay, Next, Good, CoupledTo, Permitted;
    NextKeepsConfigs(sys, a);
    NextKeepsCoupling(sys, a);
    if Next(sys, a).slots[n].state.Ready? {
      ReadyMatchesRecord(sys, a, n);
    }
  }

  // ----- becoming Active -----

  /** A slot on its way moves on to Active only by an insertion, and never once it is being deactivated. */
  lemma MovesOn(s: Slot, i: Input)
    requires Good(s) && Legal(s, i) && (s.state.Activating? || s.state.Deactivating?)
    ensures var r := Step(s, i).state;
            && (r.Active? <==>
                  s.state.Activating? && i.OnEvent? && i.event == Udev(Inserted) && i.env.gadgetStatus == 0)
            && (r.Activating? ==> s.state.Activating? && !(i.OnEvent? && i.event.Udev?))
            && !r.Initial?
  {
    hide Trace.Replay, ChangeState, Notify;
    if i.OnEvent? || i.ChildExit? {
      var e := if i.OnEvent? then i.event else SubprocessStopped;
      var t := if i.ChildExit? then s.(exitCode := i.exitCode) else s;
      var (h, outcome) := Handle(t, e, i.env);
      if outcome.Goto? {
        ChangeStateFrame(h, outcome.next, i.env);
      }
    }
  }

  /** A kernel event mounts a slot exactly if it is a positive size of its device, so far recorded as removed. */
  lemma KernelMountsIff(sys: System, event: KernelEvent, envs: string -> Env, n: string)
    requires Coupled(sys) && n in sys.slots && sys.slots[n].state.Activating?
    ensures var r := Next(sys, Kernel(event, envs));
            var device := sys.slots[n].config.device;
            && n in r.slots && device in sys.devices
            && (r.slots[n].state.Active? <==>
                  && device.Nbd? && Accepts(event, device.number) && event.size.sectors > 0
                  && sys.devices[device] == Removed && envs(n).gadgetStatus == 0)
            && (device.Nbd? && !Accepts(event, device.number) ==> r.slots[n] == sys.slots[n])
  {
    hide Trace.Replay, Dispatch, DeviceNamed, Reported, EdgeOf, Observe, Accepts;
    var device := sys.slots[n].config.device;
    if device.Nbd? {
      EventTouchesOne(sys.devices, event, device.number);
    } else {
      KnownOnly(sys.devices, event);
    }
    var edge := EdgeOf(sys.devices, event);
    if edge.Some? {
      MovesOn(sys.slots[n], OnEvent(Udev(edge.value.change), envs(n)));
    }
  }

  /** On its way back to Ready, whatever it was asked for: no insertion can come before the next removal. */
  predicate BoundForReady(sys: System, n: string) {
    && n in sys.slots && sys.slots[n].config.device in sys.devices
    && (sys.slots[n].state.Deactivating?
        || (sys.slots[n].state.Activating? && sys.devices[sys.slots[n].config.device] == Inserted))
  }

  lemma StaysBoundForReady(sys: System, a: Action, n: string)
    requires Coupled(sys) && Permitted(sys, a) && BoundForReady(sys, n)
    ensures var r := Next(sys, a);
            BoundForReady(r, n) || (n in r.slots && r.slots[n].state.Ready?)
  {
    hide Trace.Replay, Dispatch, MountAnswer, Current, DeviceNamed;
    var s := sys.slots[n];
    match a
    case Kernel(event, envs) =>
      var edge := EdgeOf(sys.devices, event);
      if edge.Some? && edge.value.device == s.config.device {
        MovesOn(s, OnEvent(Udev(edge.value.change), envs(n)));
        StepFrame(s, OnEvent(Udev(edge.value.change), envs(n)));
      }
    case Client(name, input) =>
      if name == n {
        ClientIsLegal(s, input);
        MovesOn(s, input);
        StepFrame(s, input);
      }
    case LocalMount(path, rw, files, env) =>
    case LocalUnmount(files, env) =>
      if Current(sys.slots, files) == Some(n) {
        MovesOn(s, OnEvent(Unmount, env));
        StepFrame(s, OnEvent(Unmount, env));
      }
  }

  predicate NeverReady(sys: System, actions: seq<Action>, n: string)
    requires Coupled(sys) && AllPermitted(sys, actions) && n in sys.slots
  {
    forall k :: 0 <= k <= |actions| ==> !RunSystem(sys, actions[..k]).slots[n].state.Ready?
  }

  /**
   A mount accepted while its device is already recorded as inserted comes to nothing: however a run goes on, the
   slot is back in Ready before it can be Active.
   */
  lemma {:induction false} InsertedBeforeMountComesToNothing(sys: System, actions: seq<Action>, n: string)
    requires Coupled(sys) && AllPermitted(sys, actions) && n in sys.slots && BoundForReady(sys, n)
    ensures NeverReady(sys, actions, n) ==> BoundForReady(RunSystem(sys, actions), n)
  {
    hide Next, Coupled, BoundForReady;
    if actions != [] && NeverReady(sys, actions, n) {
      var before := actions[..|actions| - 1];
      assert forall k :: 0 <= k <= |before| ==> before[..k] == actions[..k];
      InsertedBeforeMountComesToNothing(sys, before, n);
      StaysPermitted(sys, RunSystem(sys, before), actions[|actions| - 1]);
      StaysBoundForReady(RunSystem(sys, before), actions[|actions| - 1], n);
      assert actions[..|actions|] == actions;
    }
  }

  // ----- mutual exclusion of local media -----

  predicate AtMostOneLocal(sys: System) {
    && (forall m, n :: m in sys.slots && n in sys.slots && HoldsLocal(sys.slots[m]) && HoldsLocal(sys.slots[n])
                       ==> m == n)
    && (forall n :: n in sys.slots && HoldsLocal(sys.slots[n]) ==> n in SLOT_ORDER)
  }

  /** Local targets come from Local.Mount only, and the file being served is still there when it is called. */
  predicate PlaysByTheRules(sys: System, a: Action) {
    match a
    case Client(_, OnEvent(Mount(target), _)) => target.Some? ==> !IsLocalFile(target.value.imgUrl)
    case LocalMount(_, _, files, _) =>
      forall n :: n in sys.slots && HoldsLocal(sys.slots[n]) ==> sys.slots[n].target.value.imgUrl in files.existing
    case _ => true
  }

  /** What a mount of a local file needs in order not to fail at once: the guards of activation, in order. */
  predicate LocalTakesHold(config: MountPoint, rw: bool, env: Env) {
    && (config.mode.Proxy?
        || ((env.socketDirExists || (env.socketDirError == 0 && env.socketPermError == 0)) && config.slotNumber >= 0))
    && env.fileExists && env.fileRegular && env.fileStatError == 0 && (rw ==> env.fileWritable)
    && env.oldSocketCleared && env.childSpawned
  }

  predicate SomeLocal(sys: System) {
    exists n :: n in sys.slots && HoldsLocal(sys.slots[n])
  }

  /** The two ways to a second local target, or to one the service cannot see. */
  predicate Breaks(sys: System, a: Action) {
    match a
    case LocalMount(path, rw, files, env) =>
      var answer := MountAnswer(sys.slots, files, path, rw);
      answer.Granted? && SomeLocal(sys) && LocalTakesHold(sys.slots[answer.slot].config, rw, env)
    case Client(name, OnEvent(Mount(Some(t)), env)) =>
      && name in sys.slots && sys.slots[name].state.Ready? && IsLocalFile(t.imgUrl)
      && LocalTakesHold(sys.slots[name].config, t.rw, env)
      && (SomeLocal(sys) || name !in SLOT_ORDER)
    case _ => false
  }

  /** A slot in Ready that is asked to mount a local file comes to hold it exactly if nothing makes activation fail. */
  lemma TakesHoldIff(s: Slot, t: Target, env: Env)
    requires Good(s) && s.state.Ready? && Unmounted(t) && IsLocalFile(t.imgUrl)
    ensures HoldsLocal(Dispatch(s, Mount(Some(t)), env).0) <==> LocalTakesHold(s.config, t.rw, env)
  {
    hide Trace.Replay, Dispatch, Notify, IsLocalFile;
    AcceptUnfolds(s, Some(t), env);
    var e := Admitted(s, Some(t));
    assert Continues(e, Activate(e, env).slot);
    assert Activate(e, env).failure.None? <==> LocalTakesHold(s.config, t.rw, env);
  }

  /** Exclusion can only be lost by a slot that comes to hold a local target. */
  lemma FewerLocals(sys: System, r: System)
    requires AtMostOneLocal(sys) && r.slots.Keys == sys.slots.Keys
    requires forall n :: n in r.slots && HoldsLocal(r.slots[n]) ==> HoldsLocal(sys.slots[n])
    ensures AtMostOneLocal(r)
  {
  }

  /** One slot more holds a local target: the only one, where the service looks, or exclusion is lost. */
  lemma OneMoreLocal(sys: System, r: System, name: string)
    requires AtMostOneLocal(sys) && name in sys.slots && !HoldsLocal(sys.slots[name])
    requires name in r.slots && r.slots == sys.slots[name := r.slots[name]] && HoldsLocal(r.slots[name])
    ensures AtMostOneLocal(r) <==> !SomeLocal(sys) && name in SLOT_ORDER
  {
    if AtMostOneLocal(r) {
      forall n | n in sys.slots
        ensures !HoldsLocal(sys.slots[n])
      {
        assert n != name ==> r.slots[n] == sys.slots[n];
      }
    }
  }

  /** Local.Mount keeps exclusion unless it is granted beside an older local target and then takes hold. */
  lemma LocalMountKeepsExclusionIff(sys: System, path: string, rw: bool, files: Files, env: Env)
    requires Coupled(sys) && AtMostOneLocal(sys)
    ensures var a := LocalMount(path, rw, files, env);
            AtMostOneLocal(Next(sys, a)) <==> !Breaks(sys, a)
  {
    hide Trace.Replay, Dispatch, MountAnswer, AtMostOneLocal, SomeLocal, IsLocalFile, LocalTakesHold;
    var answer := MountAnswer(sys.slots, files, path, rw);
    if answer.Granted? {
      GrantedIff(sys.slots, files, path, rw);
      var s := sys.slots[answer.slot].(additionalInfo := "LMEDIA");
      TakesHoldIff(s, LocalTarget(path, rw), env);
      var r := Next(sys, LocalMount(path, rw, files, env));
      if LocalTakesHold(s.config, rw, env) {
        OneMoreLocal(sys, r, answer.slot);
      } else {
        FewerLocals(sys, r);
      }
    }
  }

  lemma ClientKeepsExclusionIff(sys: System, name: string, input: Input)
    requires Coupled(sys) && Permitted(sys, Client(name, input)) && AtMostOneLocal(sys)
    ensures var a := Client(name, input);
            AtMostOneLocal(Next(sys, a)) <==> !Breaks(sys, a)
  {
    hide Trace.Replay, Dispatch, AtMostOneLocal, SomeLocal, IsLocalFile, LocalTakesHold;
    if name in sys.slots {
      var s, r := sys.slots[name], Next(sys, Client(name, input));
      ClientIsLegal(s, input);
      StepFrameLocal(s, input);
      if input.OnEvent? && input.event.Mount? && input.event.target.Some? && s.state.Ready?
         && IsLocalFile(input.event.target.value.imgUrl) {
        TakesHoldIff(s, input.event.target.value, input.env);
        if HoldsLocal(r.slots[name]) {
          OneMoreLocal(sys, r, name);
        } else {
          FewerLocals(sys, r);
        }
      } else {
        FewerLocals(sys, r);
      }
    }
  }

  /**
   Exactly which action costs exclusion, for every action there is: a granted local mount that takes hold while an
   older file is only out of sight, or a legacy slot's own mount of a local path that takes hold beside another, or
   where the service does not look.
   */
  lemma NextKeepsExclusionIff(sys: System, a: Action)
    requires Coupled(sys) && Permitted(sys, a) && AtMostOneLocal(sys)
    ensures AtMostOneLocal(Next(sys, a)) <==> !Breaks(sys, a)
  {
    hide Trace.Replay, Dispatch, AtMostOneLocal;
    match a
    case Kernel(event, envs) =>
      var edge := EdgeOf(sys.devices, event);
      if edge.Some? {
        forall n | n in sys.slots {
          DeliverFrame(sys.slots[n], edge.value, envs(n));
        }
      }
      FewerLocals(sys, Next(sys, a));
    case Client(name, input) =>
      ClientKeepsExclusionIff(sys, name, input);
    case LocalMount(path, rw, files, env) =>
      LocalMountKeepsExclusionIff(sys, path, rw, files, env);
    case LocalUnmount(files, env) =>
      var name := Current(sys.slots, files);
      if name.Some? {
        StepFrameLocal(sys.slots[name.value], OnEvent(Unmount, env));
      }
      FewerLocals(sys, Next(sys, a));
  }

  /** The service's check does not reach this: a legacy slot's own mount of a local path is not asked about others. */
  lemma LegacyMountIgnoresExclusion(sys: System, name: string, t: Target, env: Env)
    requires Coupled(sys) && AtMostOneLocal(sys) && name in sys.slots
    requires sys.slots[name].state.Ready? && sys.slots[name].config.mode.Legacy?
    requires Unmounted(t) && IsLocalFile(t.imgUrl) && AsRead(t)
    ensures var a := Client(name, OnEvent(Mount(Some(t)), env));
            && Permitted(sys, a)
            && (AtMostOneLocal(Next(sys, a)) <==>
                  (LocalTakesHold(sys.slots[name].config, t.rw, env) ==> !SomeLocal(sys) && name in SLOT_ORDER))
  {
    hide Trace.Replay, Next, AtMostOneLocal, LocalTakesHold, SomeLocal, CoupledTo, Good;
    NextKeepsExclusionIff(sys, Client(name, OnEvent(Mount(Some(t)), env)));
  }

  lemma RulesDoNotBreak(sys: System, a: Action)
    requires AtMostOneLocal(sys) && PlaysByTheRules(sys, a)
    ensures !Breaks(sys, a)
  {
    if a.LocalMount? && MountAnswer(sys.slots, a.files, a.path, a.rw).Granted? {
      GrantedIff(sys.slots, a.files, a.path, a.rw);
    }
  }

  lemma NextKeepsExclusion(sys: System, a: Action)
    requires Coupled(sys) && Permitted(sys, a) && AtMostOneLocal(sys) && PlaysByTheRules(sys, a)
    ensures AtMostOneLocal(Next(sys, a))
  {
    hide Trace.Replay, Next, AtMostOneLocal, PlaysByTheRules, Breaks;
    NextKeepsExclusionIff(sys, a);
    RulesDoNotBreak(sys, a);
  }

  /** What a granted mount that takes hold leaves behind. */
  lemma LentHolds(sys: System, path: string, rw: bool, files: Files, env: Env)
    requires Coupled(sys) && MountAnswer(sys.slots, files, path, rw).Granted?
    requires LocalTakesHold(sys.slots[MountAnswer(sys.slots, files, path, rw).slot].config, rw, env)
    ensures var slot := MountAnswer(sys.slots, files, path, rw).slot;
            var r := Next(sys, LocalMount(path, rw, files, env));
            && slot in r.slots && r.slots == sys.slots[slot := r.slots[slot]]
            && HoldsLocal(r.slots[slot]) && r.slots[slot].target.value.imgUrl == path
  {
    hide Trace.Replay, Dispatch, MountAnswer, IsLocalFile, LocalTakesHold;
    GrantedIff(sys.slots, files, path, rw);
    var slot := MountAnswer(sys.slots, files, path, rw).slot;
    var s := sys.slots[slot].(additionalInfo := "LMEDIA");
    TakesHoldIff(s, LocalTarget(path, rw), env);
    var i := OnEvent(Mount(Some(LocalTarget(path, rw))), env);
    StepIsGood(s, i);
    StepFrame(s, i);
  }

  // ----- exclusion lost -----

  const TWO_PROXIES := map["Slot_0" := MountPoint(Nbd(0), Proxy, 0), "Slot_1" := MountPoint(Nbd(1), Proxy, 1)]

  /** A mount of a file that is the only one there is. */
  function MountOf(path: string): Action {
    LocalMount(path, false, Files({path}, {path}, {}), ALL_FINE)
  }

  /** A run that loses it: the first file is deleted while it is served, and a second is mounted. */
  lemma DeletedFileLosesExclusion()
    ensures var actions := [MountOf("/tmp/lmedia/a"), MountOf("/tmp/lmedia/b")];
            && (forall n :: n in TWO_PROXIES ==> !TWO_PROXIES[n].mode.Local?)
            && AllPermitted(Boot(TWO_PROXIES), actions)
            && !AtMostOneLocal(Reached(TWO_PROXIES, actions))
  {
    hide Trace.Replay, Next, Dispatch, Registered, Coupled, AtMostOneLocal, Breaks, MountAnswer;
    var first, second := MountOf("/tmp/lmedia/a"), MountOf("/tmp/lmedia/b");
    var actions := [first, second];
    var sys := Boot(TWO_PROXIES);
    BootIsCoupled(TWO_PROXIES);
    NextKeepsCoupling(sys, first);
    assert actions[..1] == [first] && actions[..1][..0] == [];
    assert RunSystem(sys, [first]) == Next(sys, first);
    assert Reached(TWO_PROXIES, actions) == Next(Next(sys, first), second);
    ServesFirst();
    SecondBreaks(Next(sys, first));
    NextKeepsExclusionIff(sys, first);
    NextKeepsExclusionIff(Next(sys, first), second);
  }

  /** Some slot serves `path`, and nothing else is served; some other is free; all are in proxy mode. */
  predicate ServesOnly(sys: System, path: string) {
    && SomeLocal(sys)
    && (exists n :: n in SLOT_ORDER && Free(sys.slots, n))
    && (forall n :: n in sys.slots && HoldsLocal(sys.slots[n]) ==> sys.slots[n].target.value.imgUrl == path)
    && (forall n :: n in sys.slots ==> sys.slots[n].config.mode.Proxy?)
  }

  lemma BothReady()
    ensures var sys := Boot(TWO_PROXIES);
            && Coupled(sys) && AtMostOneLocal(sys) && !SomeLocal(sys)
            && (forall n :: n in sys.slots ==> n in SLOT_ORDER && Free(sys.slots, n) && sys.slots[n].config.mode.Proxy?)
            && SLOT_ORDER[0] in sys.slots && SLOT_ORDER[1] in sys.slots
  {
    hide Trace.Replay, Registered, Coupled;
    BootIsCoupled(TWO_PROXIES);
    RegisteredIsGood("Slot_0", TWO_PROXIES["Slot_0"]);
    RegisteredIsGood("Slot_1", TWO_PROXIES["Slot_1"]);
    assert SLOT_ORDER[0] == "Slot_0" && SLOT_ORDER[1] == "Slot_1";
  }

  lemma ServesFirst()
    ensures Coupled(Boot(TWO_PROXIES)) && !Breaks(Boot(TWO_PROXIES), MountOf("/tmp/lmedia/a"))
    ensures ServesOnly(Next(Boot(TWO_PROXIES), MountOf("/tmp/lmedia/a")), "/tmp/lmedia/a")
  {
    hide Trace.Replay, Next, Dispatch, Boot, Coupled, MountAnswer;
    BothReady();
    var sys := Boot(TWO_PROXIES);
    var path := "/tmp/lmedia/a";
    var files := Files({path}, {path}, {});
    assert LOCAL_PREFIX <= path;
    GrantedIff(sys.slots, files, path, false);
    var slot := MountAnswer(sys.slots, files, path, false).slot;
    LentHolds(sys, path, false, files, ALL_FINE);
    var r := Next(sys, MountOf(path));
    assert Free(r.slots, SLOT_ORDER[1]);
    NextKeepsConfigs(sys, MountOf(path));
  }

  lemma SecondBreaks(sys: System)
    requires ServesOnly(sys, "/tmp/lmedia/a")
    ensures Breaks(sys, MountOf("/tmp/lmedia/b"))
  {
    hide MountAnswer;
    var path := "/tmp/lmedia/b";
    GrantedIff(sys.slots, Files({path}, {path}, {}), path, false);
  }

  predicate AllPlayByTheRules(sys: System, actions: seq<Action>)
    requires Coupled(sys) && AllPermitted(sys, actions)
  {
    actions == []
    || (AllPlayByTheRules(sys, actions[..|actions| - 1])
        && PlaysByTheRules(RunSystem(sys, actions[..|actions| - 1]), actions[|actions| - 1]))
  }

  lemma {:induction false} RunKeepsExclusion(sys: System, actions: seq<Action>)
    requires Coupled(sys) && AllPermitted(sys, actions) && AtMostOneLocal(sys) && AllPlayByTheRules(sys, actions)
    ensures AtMostOneLocal(RunSystem(sys, actions))
  {
    hide Next, Coupled, PlaysByTheRules, AtMostOneLocal;
    if actions != [] {
      var before := actions[..|actions| - 1];
      var a := actions[|actions| - 1];
      RunKeepsExclusion(sys, before);
      StaysPermitted(sys, RunSystem(sys, before), a);
      assert Permitted(sys, a);
      NextKeepsExclusion(RunSystem(sys, before), a);
    }
  }

  lemma StaysPermitted(sys: System, r: System, a: Action)
    requires SameConfigs(sys, r)
    ensures Permitted(sys, a) <==> Permitted(r, a)
  {
  }

  // ----- every run from start-up -----

  /** The system after `actions`, from a loaded configuration on. */
  function Reached(mountPoints: map<string, MountPoint>, actions: seq<Action>): (r: System)
    requires forall n :: n in mountPoints ==> !mountPoints[n].mode.Local?
    requires AllPermitted(Boot(mountPoints), actions)
    ensures Coupled(r) && SameConfigs(Boot(mountPoints), r)
  {
    BootIsCoupled(mountPoints);
    RunSystem(Boot(mountPoints), actions)
  }

  /** At most one slot holds a local target, and it is one the service looks at. */
  lemma ExclusionInEveryRun(mountPoints: map<string, MountPoint>, actions: seq<Action>)
    requires forall n :: n in mountPoints ==> !mountPoints[n].mode.Local?
    requires AllPermitted(Boot(mountPoints), actions)
    ensures Coupled(Boot(mountPoints))
    ensures AllPlayByTheRules(Boot(mountPoints), actions) ==> AtMostOneLocal(Reached(mountPoints, actions))
  {
    BootIsCoupled(mountPoints);
    if AllPlayByTheRules(Boot(mountPoints), actions) {
      RunKeepsExclusion(Boot(mountPoints), actions);
    }
  }

  /**
   Wherever a run has led: an active slot's device is recorded as inserted, a deactivating slot that has
   seen no change still has its device, and one that has seen a change has seen the latest.
   */
  lemma CouplingInEveryRun(mountPoints: map<string, MountPoint>, actions: seq<Action>, n: string)
    requires forall m :: m in mountPoints ==> !mountPoints[m].mode.Local?
    requires AllPermitted(Boot(mountPoints), actions) && n in mountPoints
    ensures var r := Reached(mountPoints, actions);
            && n in r.slots && mountPoints[n].device in r.devices && Good(r.slots[n])
            && var recorded := r.devices[mountPoints[n].device];
               var state := r.slots[n].state;
            && (state.Active? ==> recorded == Inserted)
            && (state.Deactivating? && state.udev.None? ==> recorded == Inserted)
            && (state.Deactivating? && state.udev.Some? ==> recorded == state.udev.value)
  {
    RegisteredIsGood(n, mountPoints[n]);
  }

  /** In every run ListAvailableSlots, GetCurrentMount and Local.Mount see the same slots. */
  lemma ScansAgreeInEveryRun(
    mountPoints: map<string, MountPoint>, actions: seq<Action>, files: Files, path: string, rw: bool)
    requires forall n :: n in mountPoints ==> !mountPoints[n].mode.Local?
    requires AllPermitted(Boot(mountPoints), actions)
    ensures var slots := Reached(mountPoints, actions).slots;
            var ready := ReadyOnes(slots, SLOT_ORDER);
            var answer := MountAnswer(slots, files, path, rw);
            && Available(slots) == ready
            && (answer == Rejected(EBUSY)
                <==> Current(slots, files).Some? || (Mountable(files, path, rw) && ready == []))
            && (answer.Granted? ==> answer.slot == ready[0])
  {
    hide MountAnswer, Available, Current, Mountable, ReadyOnes;
    ScansAgree(Reached(mountPoints, actions).slots, files, path, rw);
  }

  /** The three balances of a slot's history. */
  predicate Balanced(s: Slot) {
    && (forall r: Trace.Resource :: Trace.Outstanding(s.log, r) == Trace.One(Trace.Holds(LedgerOf(s), r)))
    && Trace.Count(s.log, Trace.Started)
       == Trace.Signals(s.log) + Trace.Count(s.log, Trace.Cleared) + Trace.One(Pending(s))
    && Trace.Count(s.log, Trace.Entered(Trace.InReady))
       == 1 + Trace.Count(s.log, Trace.Accepted) - Trace.One(!s.state.Ready?)
  }

  lemma GoodIsBalanced(s: Slot)
    requires Good(s)
    ensures Balanced(s)
  {
    hide Trace.Replay, Trace.Outstanding;
    forall r: Trace.Resource {
      Trace.Conservation(s.log, r);
    }
    Trace.NotificationConservation(s.log);
    Trace.RunShape(s.log);
  }

  /** The history of every slot in every run of the system keeps the rules, and agrees with the slot's fields. */
  lemma HistoryInEveryRun(mountPoints: map<string, MountPoint>, actions: seq<Action>, n: string)
    requires forall m :: m in mountPoints ==> !mountPoints[m].mode.Local?
    requires AllPermitted(Boot(mountPoints), actions) && n in mountPoints
    ensures n in Reached(mountPoints, actions).slots && Balanced(Reached(mountPoints, actions).slots[n])
  {
    hide Balanced;
    CouplingInEveryRun(mountPoints, actions, n);
    GoodIsBalanced(Reached(mountPoints, actions).slots[n]);
  }

  /** So the order of teardown holds at every point of the history of every slot. */
  lemma TeardownInEveryRun(mountPoints: map<string, MountPoint>, actions: seq<Action>, n: string)
    requires forall m :: m in mountPoints ==> !mountPoints[m].mode.Local?
    requires AllPermitted(Boot(mountPoints), actions) && n in mountPoints
    ensures n in Reached(mountPoints, actions).slots
    ensures var log := Reached(mountPoints, actions).slots[n].log;
            forall i :: 0 <= i < |log| ==> Trace.ReleasedInOrder(log, i)
  {
    hide Trace.Replay, Trace.ReleasedInOrder;
    CouplingInEveryRun(mountPoints, actions, n);
    var log := Reached(mountPoints, actions).slots[n].log;
    forall i | 0 <= i < |log|
      ensures Trace.ReleasedInOrder(log, i)
    {
      Trace.TeardownOrder(log, i);
    }
  }

  /** Nor is any slot, in any run, told of a success that is not one, but for a deactivation in between. */
  lemma SuccessInEveryRun(mountPoints: map<string, MountPoint>, actions: seq<Action>, n: string)
    requires forall m :: m in mountPoints ==> !mountPoints[m].mode.Local?
    requires AllPermitted(Boot(mountPoints), actions) && n in mountPoints
    ensures n in Reached(mountPoints, actions).slots
    ensures var log := Reached(mountPoints, actions).slots[n].log;
            forall i: nat, j: nat :: Trace.SuccessfulMount(log, i, j) ==> Trace.MountedUnlessDeactivated(log, i, j)
  {
    hide Trace.Replay, Trace.SuccessfulMount, Trace.MountedUnlessDeactivated;
    CouplingInEveryRun(mountPoints, actions, n);
    var log := Reached(mountPoints, actions).slots[n].log;
    forall i: nat, j: nat | Trace.SuccessfulMount(log, i, j)
      ensures Trace.MountedUnlessDeactivated(log, i, j)
    {
      Trace.SuccessMeansMountedIff(log, i, j);
    }
  }
}
