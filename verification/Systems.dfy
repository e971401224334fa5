/** All slots together with the device monitor that drives them. */
module Systems {
  import opened Wrappers
  import opened Events
  import opened Monitor
  import opened SlotModel
  import opened SlotSafety
  import opened SlotRuns
  import opened LocalMedia
  import opened CredentialPipe

  datatype System = System(devices: Devices, slots: Registry)

  datatype Action =
    | Kernel(event: KernelEvent, envs: string -> Env)
    | Client(name: string, input: Input)
    | LocalMount(path: string, rw: bool, files: Files, env: Env)
    | LocalUnmount(files: Files, env: Env)

  /** The reader of the credential pipe accepts no others. */
  predicate AsRead(t: Target) {
    t.credentials.Some? ==> NUL !in t.credentials.value.user && NUL !in t.credentials.value.password
  }

  /**
   What a slot's own D-Bus interface, its children and its timer can send it; device changes only come from the
   monitor, and logins only from the credential pipe.
   */
  predicate FromOutside(config: MountPoint, i: Input) {
    i.OnEvent? ==>
      match i.event
      case Mount(target) =>
        if config.mode.Proxy? then target.None?
        else target.Some? && Unmounted(target.value) && AsRead(target.value)
      case Unmount => true
      case SubprocessStopped => true
      case Udev(_) => false
      case Register => false
  }

  /** No loaded configuration has a slot in local mode. */
  predicate SlotInPlace(devices: Devices, name: string, s: Slot) {
    Good(s) && !s.state.Initial? && !s.config.mode.Local? && s.name == name && s.config.device in devices
  }

  /** What a slot believes about its device agrees with the monitor. */
  predicate CoupledTo(s: Slot, recorded: StateChange) {
    match s.state
    case Active(_) => recorded == Inserted
    case Deactivating(_, udev, _) => recorded == if udev.None? then Inserted else udev.value
    case _ => true
  }

  predicate Sound(devices: Devices, name: string, s: Slot) {
    SlotInPlace(devices, name, s) && CoupledTo(s, devices[s.config.device])
  }

  /** The invariant of the whole system. */
  predicate Coupled(sys: System) {
    && (forall d :: d in sys.devices ==> sys.devices[d] != NotMonitored)
    && (forall n :: n in sys.slots ==> Sound(sys.devices, n, sys.slots[n]))
  }

  predicate Permitted(sys: System, a: Action) {
    a.Client? && a.name in sys.slots ==> FromOutside(sys.slots[a.name].config, a.input)
  }

  function Deliver(s: Slot, edge: Edge, env: Env): Slot
    requires s.notification.Some?
  {
    if s.config.device == edge.device then Dispatch(s, Udev(edge.change), env).0 else s
  }

  predicate AllRegistered(slots: Registry) {
    forall n :: n in slots ==> slots[n].notification.Some?
  }

  /** The slots once those in `names` have been told. */
  function Told(slots: Registry, names: seq<string>, edge: Edge, envs: string -> Env): Registry
    requires AllRegistered(slots)
  {
    map n | n in slots :: if n in names then Deliver(slots[n], edge, envs(n)) else slots[n]
  }

  lemma TellNext(slots: Registry, names: seq<string>, name: string, edge: Edge, envs: string -> Env)
    requires AllRegistered(slots) && name in slots && name !in names
    ensures Told(slots, names, edge, envs)[name := Deliver(slots[name], edge, envs(name))]
         == Told(slots, names + [name], edge, envs)
    ensures name in Told(slots, names, edge, envs) && Told(slots, names, edge, envs)[name] == slots[name]
  {
    hide Deliver;
  }

  lemma TellNone(slots: Registry, edge: Edge, envs: string -> Env)
    requires AllRegistered(slots)
    ensures Told(slots, [], edge, envs) == slots
  {
  }

  lemma TellAll(slots: Registry, names: seq<string>, edge: Edge, envs: string -> Env)
    requires AllRegistered(slots) && forall n :: n in slots ==> n in names
    ensures Told(slots, names, edge, envs) == map n | n in slots :: Deliver(slots[n], edge, envs(n))
  {
    hide Deliver;
  }

  function Lend(s: Slot, path: string, rw: bool, env: Env): Slot
    requires s.notification.Some?
  {
    Dispatch(s.(additionalInfo := "LMEDIA"), Mount(Some(LocalTarget(path, rw))), env).0
  }

  function Next(sys: System, a: Action): System
    requires Coupled(sys) && Permitted(sys, a)
  {
    match a
    case Kernel(event, envs) =>
      var edge := EdgeOf(sys.devices, event);
      var devices := Observe(sys.devices, event);
      if edge.None? then sys.(devices := devices)
      else System(devices, map n | n in sys.slots :: Deliver(sys.slots[n], edge.value, envs(n)))
    case Client(name, input) =>
      if name in sys.slots then sys.(slots := sys.slots[name := Step(sys.slots[name], input)]) else sys
    case LocalMount(path, rw, files, env) =>
      var answer := MountAnswer(sys.slots, files, path, rw);
      if answer.Granted?
      then sys.(slots := sys.slots[answer.slot := Lend(sys.slots[answer.slot], path, rw, env)])
      else sys
    case LocalUnmount(files, env) =>
      var name := Current(sys.slots, files);
      if name.Some?
      then sys.(slots := sys.slots[name.value := Dispatch(sys.slots[name.value], Unmount, env).0])
      else sys
  }

  /** What Local.Mount does to the system depends only on its answer. */
  lemma LocalMountStep(sys: System, path: string, rw: bool, files: Files, env: Env)
    requires Coupled(sys)
    ensures var answer := MountAnswer(sys.slots, files, path, rw);
            var next := Next(sys, LocalMount(path, rw, files, env));
            && (answer.Rejected? ==> next == sys)
            && (answer.Granted? ==>
                  && Free(sys.slots, answer.slot) && sys.slots[answer.slot].notification.Some?
                  && next.devices == sys.devices
                  && next.slots == sys.slots[answer.slot := Lend(sys.slots[answer.slot], path, rw, env)])
  {
    hide Trace.Replay, Dispatch, MountAnswer;
  }

  /** A slot that holds a target can be unmounted when Active, and at no other time. */
  lemma UnmountRefusedIff(s: Slot, env: Env)
    requires Good(s) && s.target.Some?
    ensures Dispatch(s, Unmount, env).1 == if s.state.Active? then None else Some(EBUSY)
  {
    hide Trace.Replay, ChangeState;
  }

  // ----- one slot, one step -----

  lemma UdevKeepsCoupling(s: Slot, before: StateChange, after: StateChange, env: Env)
    requires Good(s) && !s.state.Initial? && CoupledTo(s, before) && before != after
    ensures CoupledTo(Dispatch(s, Udev(after), env).0, after)
  {
    hide Trace.Replay;
    var (h, outcome) := Handle(s, Udev(after), env);
    if outcome.Goto? {
      ChangeStateFrame(h, outcome.next, env);
    }
  }

  lemma OtherStepsKeepCoupling(s: Slot, i: Input, recorded: StateChange)
    requires Good(s) && !s.state.Initial? && Legal(s, i) && CoupledTo(s, recorded)
    requires i.OnEvent? ==> !i.event.Udev?
    ensures CoupledTo(Step(s, i), recorded)
  {
    hide Trace.Replay;
    if i.OnEvent? || i.ChildExit? {
      var e := if i.OnEvent? then i.event else SubprocessStopped;
      var t := if i.ChildExit? then s.(exitCode := i.exitCode) else s;
      var (h, outcome) := Handle(t, e, i.env);
      if outcome.Goto? {
        ChangeStateFrame(h, outcome.next, i.env);
      }
    }
  }

  // ----- one system step -----

  lemma DeliverIsSound(devices: Devices, name: string, s: Slot, edge: Edge, env: Env)
    requires Sound(devices, name, s) && edge.device in devices && devices[edge.device] != edge.change
    ensures Sound(devices[edge.device := edge.change], name, Deliver(s, edge, env))
  {
    hide Trace.Replay, ChangeState, Handle;
    if s.config.device == edge.device {
      var i := OnEvent(Udev(edge.change), env);
      StepIsGood(s, i);
      StepFrame(s, i);
      UdevKeepsCoupling(s, devices[edge.device], edge.change, env);
    }
  }

  lemma StepIsSound(devices: Devices, name: string, s: Slot, i: Input)
    requires Sound(devices, name, s) && Legal(s, i) && (i.OnEvent? ==> !i.event.Udev?)
    ensures Sound(devices, name, Step(s, i))
  {
    hide Trace.Replay, ChangeState, Handle;
    StepIsGood(s, i);
    StepFrame(s, i);
    OtherStepsKeepCoupling(s, i, devices[s.config.device]);
  }

  lemma LendIsSound(devices: Devices, name: string, s: Slot, path: string, rw: bool, env: Env)
    requires Sound(devices, name, s) && s.state.Ready?
    ensures Sound(devices, name, Lend(s, path, rw, env))
  {
    hide Trace.Replay, ChangeState, Handle;
    StepIsSound(devices, name, s.(additionalInfo := "LMEDIA"), OnEvent(Mount(Some(LocalTarget(path, rw))), env));
  }

  lemma KernelKeepsCoupling(sys: System, event: KernelEvent, envs: string -> Env)
    requires Coupled(sys)
    ensures Coupled(Next(sys, Kernel(event, envs)))
  {
    hide Trace.Replay, Deliver;
    var edge := EdgeOf(sys.devices, event);
    if edge.Some? {
      forall n | n in sys.slots
        ensures Sound(Observe(sys.devices, event), n, Deliver(sys.slots[n], edge.value, envs(n)))
      {
        DeliverIsSound(sys.devices, n, sys.slots[n], edge.value, envs(n));
      }
    } else {
      assert Observe(sys.devices, event) == sys.devices;
    }
  }

  /** Monitor and slots stay in agreement through every action, whatever the environment answers. */
  lemma NextKeepsCoupling(sys: System, a: Action)
    requires Coupled(sys) && Permitted(sys, a)
    ensures Coupled(Next(sys, a))
  {
    hide Trace.Replay, ChangeState, Handle, Dispatch, Good, CoupledTo;
    match a
    case Kernel(event, envs) =>
      KernelKeepsCoupling(sys, event, envs);
    case Client(name, input) =>
      if name in sys.slots {
        ClientIsLegal(sys.slots[name], input);
        StepIsSound(sys.devices, name, sys.slots[name], input);
      }
    case LocalMount(path, rw, files, env) =>
      var answer := MountAnswer(sys.slots, files, path, rw);
      if answer.Granted? {
        LendIsSound(sys.devices, answer.slot, sys.slots[answer.slot], path, rw, env);
      }
    case LocalUnmount(files, env) =>
      var name := Current(sys.slots, files);
      if name.Some? {
        ClientIsLegal(sys.slots[name.value], OnEvent(Unmount, env));
        StepIsSound(sys.devices, name.value, sys.slots[name.value], OnEvent(Unmount, env));
      }
  }

  lemma ClientIsLegal(s: Slot, i: Input)
    requires Good(s) && FromOutside(s.config, i)
    ensures Legal(s, i)
  {
  }
}
