/** The slot as the program runs it: objects updated in place, proved against SlotModel. */
module Slots {
  import opened Wrappers
  import opened Events
  import opened Trace
  import Model = SlotModel
  import Monitor

  type State = Model.State

  /** One Completion signal and the timer that may give up on it. */
  class NotificationWrapper {
    /** The slot on whose object the signal is sent. */
    const path: string
    var started: bool
    var armed: bool
    var aborted: nat
    var expired: nat

    ghost function View(): Model.Notification
      reads this
    {
      Model.Notification(started, armed, aborted, expired)
    }

    constructor (path: string)
      ensures View() == Model.SILENT && this.path == path
    {
      this.path := path;
      started, armed, aborted, expired := false, false, 0, 0;
    }

    /** Cancelling only queues the completion of the wait; it runs later. */
    method CancelTimer()
      modifies this
      ensures View() == Model.CancelWait(old(View()))
    {
      if armed {
        aborted := aborted + 1;
      }
      armed := false;
    }

    method Start()
      modifies this
      ensures View() == Model.CancelWait(old(View())).(started := true, armed := true)
    {
      started := true;
      CancelTimer();
      armed := true;
    }

    /** Hands `status` to the signal sender, unless nothing was started. */
    method Notify(status: int) returns (sent: Option<int>)
      modifies this
      ensures sent == if old(started) then Some(status) else None
      ensures View() == if old(started) then Model.CancelWait(old(View())).(started := false) else old(View())
    {
      if started {
        CancelTimer();
        started := false;
        return Some(status);
      }
      return None;
    }

    /** The completion handler of an expired wait: its own notification always comes too late. */
    method RunExpired() returns (sent: Option<int>)
      requires expired > 0
      modifies this
      ensures sent == None
      ensures View() == old(View()).(expired := old(expired) - 1, started := false)
    {
      expired := expired - 1;
      started := false;
      sent := Notify(EBUSY);
    }

    method RunAborted()
      requires aborted > 0
      modifies this
      ensures View() == old(View()).(aborted := old(aborted) - 1, started := false)
    {
      aborted := aborted - 1;
      started := false;
    }
  }

  class MountPointStateMachine {
    const name: string
    const config: MountPoint
    var additionalInfo: string
    var completionNotification: NotificationWrapper?
    var target: Option<Target>
    var state: State
    var exitCode: int
    ghost var log: seq<Entry>

    ghost function View(): Model.Slot
      reads this, completionNotification
    {
      Model.Slot(
        name, config, additionalInfo,
        if completionNotification == null then None else Some(completionNotification.View()),
        target, state, exitCode, log)
    }

    /** A slot has its device watched from the start. */
    constructor (devMonitor: Monitor.DeviceMonitor, name: string, config: MountPoint)
      modifies devMonitor
      ensures View() == Model.Fresh(name, config)
      ensures this.name == name && this.config == config && completionNotification == null
      ensures devMonitor.devices == if config.device in old(devMonitor.devices) then old(devMonitor.devices)
                                    else old(devMonitor.devices)[config.device := Removed]
    {
      this.name, this.config, additionalInfo := name, config, "";
      completionNotification, target, state, exitCode := null, None, Model.Initial, -1;
      log := [];
      new;
      devMonitor.AddDevice(config.device);
    }

    // ----- acquiring and releasing -----

    method DestroyGadget(gadget: Option<Gadget>)
      modifies this`log
      ensures View() == Model.ReleaseGadget(old(View()), gadget)
    {
      if gadget.Some? {
        log := log + [GadgetRemoved];
      }
    }

    /** A process that never started is not asked to stop. */
    method DestroyProcess(process: Option<Process>)
      modifies this`log
      ensures View() == Model.ReleaseProcess(old(View()), process)
    {
      if process.Some? && process.value.spawned {
        log := log + [StopRequested];
      }
    }

    method DestroyState(old': State)
      modifies this`log
      ensures View() == Model.ReleaseState(old(View()), old')
    {
      if Model.Owns(old') {
        DestroyGadget(old'.owned.gadget);
        DestroyProcess(old'.owned.process);
      }
    }

    /** A share is unmounted by its destructor, and its directory destroyed with it. */
    method DestroyShare(share: Option<Share>)
      modifies this`log
      ensures View() == Model.ReleaseShare(old(View()), share)
    {
      if share.Some? {
        log := log + [ShareUnmounted];
        log := log + [DirectoryRemoved];
      }
    }

    method ClearTarget()
      modifies this`log, this`target
      ensures View() == Model.ReleaseTarget(old(View()))
    {
      if target.Some? {
        DestroyShare(target.value.mountPointNfs);
        DestroyShare(target.value.mountPoint);
      }
      target := None;
    }

    // ----- notification -----

    method NotificationInitialize()
      modifies this`completionNotification
      ensures View() == old(View()).(notification := Some(Model.SILENT))
      ensures completionNotification != null && fresh(completionNotification) && completionNotification.path == name
    {
      completionNotification := new NotificationWrapper(name);
    }

    method NotificationStart()
      requires completionNotification != null
      modifies this`log, completionNotification
      ensures View() == Model.StartNotification(old(View()))
    {
      completionNotification.Start();
      log := log + [Started];
    }

    method Notify(code: int)
      requires completionNotification != null
      modifies this`log, completionNotification
      ensures View() == Model.Notify(old(View()), code)
    {
      var sent := completionNotification.Notify(code);
      if sent.Some? {
        log := log + [Signal(sent.value)];
      }
    }

    /** Ready notifies from its constructor, while the state it replaces is still in place. */
    method ConstructReady(code: int) returns (ready: State)
      requires completionNotification != null
      modifies this`log, completionNotification
      ensures View() == Model.Notify(old(View()), code)
      ensures ready == Model.Ready(if code == 0 then None else Some(code))
    {
      Notify(code);
      ready := Model.Ready(if code == 0 then None else Some(code));
    }

    // ----- entering Activating -----

    method SpawnNbdKit(env: Env) returns (process: Option<Process>)
      modifies this`log
      ensures process == if env.oldSocketCleared && env.childSpawned then Some(Process(true)) else None
      ensures View() == if process.Some? then Model.Emit(old(View()), ProcessSpawned) else old(View())
    {
      if !env.oldSocketCleared {
        return None;
      }
      if !env.childSpawned {
        return None;
      }
      log := log + [ProcessSpawned];
      return Some(Process(true));
    }

    method ServeWithNbdKit(env: Env, failure: int) returns (next: Option<State>)
      requires completionNotification != null && state.Activating? && state.owned.process.None? && failure != 0
      modifies this`log, this`state, completionNotification
      ensures (View(), next) == Model.Conclude(Model.SpawnNbdKit(old(View()), env, failure))
    {
      var process := SpawnNbdKit(env);
      state := Model.Activating(state.owned.(process := process));
      if process.None? {
        var ready := ConstructReady(failure);
        return Some(ready);
      }
      return None;
    }

    method MountLocalFile(env: Env) returns (next: Option<State>)
      requires completionNotification != null && target.Some? && state.Activating? && state.owned.process.None?
      modifies this`log, this`state, completionNotification
      ensures (View(), next) == Model.Conclude(Model.MountLocalFile(old(View()), env))
    {
      if !env.fileExists {
        var ready := ConstructReady(ENOENT);
        return Some(ready);
      }
      if !env.fileRegular {
        var ready := ConstructReady(EINVAL);
        return Some(ready);
      }
      if env.fileStatError != 0 {
        var ready := ConstructReady(env.fileStatError);
        return Some(ready);
      }
      if target.value.rw && !env.fileWritable {
        var ready := ConstructReady(EACCES);
        return Some(ready);
      }
      next := ServeWithNbdKit(env, ECANCELED);
    }

    /** The directory is created first; a mount that fails leaves only the directory to destroy. */
    method AcquireShare(env: Env, error: int) returns (share: Option<Share>, failure: int)
      modifies this`log
      ensures share.Some? <==> env.directoryCreated && error == 0
      ensures share.Some? ==> share.value == Share("/tmp/" + name)
                              && View() == Model.Emit(Model.Emit(old(View()), DirectoryCreated), ShareMounted)
      ensures share.None? ==>
                if env.directoryCreated
                then failure == error
                     && View() == Model.Emit(Model.Emit(old(View()), DirectoryCreated), DirectoryRemoved)
                else failure == ENOENT && View() == old(View())
    {
      if !env.directoryCreated {
        return None, ENOENT;
      }
      log := log + [DirectoryCreated];
      if error != 0 {
        log := log + [DirectoryRemoved];
        return None, error;
      }
      log := log + [ShareMounted];
      return Some(Share("/tmp/" + name)), 0;
    }

    method MountSmbShare(env: Env) returns (next: Option<State>)
      requires completionNotification != null && target.Some? && state.Activating? && state.owned.process.None?
      modifies this`log, this`state, this`target, completionNotification
      ensures (View(), next)
           == Model.Conclude(Model.MountShare(old(View()), env, false, Model.SmbError(old(target).value, env)))
    {
      var error := if target.value.credentials.Some? && ',' in target.value.credentials.value.user
                   then EINVAL else env.mountError;
      var share, failure := AcquireShare(env, error);
      if share.None? {
        var ready := ConstructReady(failure);
        return Some(ready);
      }
      target := Some(target.value.(mountPoint := share));
      next := ServeWithNbdKit(env, ECANCELED);
    }

    method MountNfsShare(env: Env) returns (next: Option<State>)
      requires completionNotification != null && target.Some? && state.Activating? && state.owned.process.None?
      modifies this`log, this`state, this`target, completionNotification
      ensures (View(), next) == Model.Conclude(Model.MountShare(old(View()), env, true, env.mountError))
    {
      var share, failure := AcquireShare(env, env.mountError);
      if share.None? {
        var ready := ConstructReady(failure);
        return Some(ready);
      }
      target := Some(target.value.(mountPointNfs := share));
      next := ServeWithNbdKit(env, ECANCELED);
    }

    method ActivateProxyMode(env: Env) returns (next: Option<State>)
      requires completionNotification != null && state.Activating? && state.owned.process.None?
      modifies this`log, this`state, completionNotification
      ensures (View(), next) == Model.Conclude(Model.ActivateProxyMode(old(View()), env))
    {
      if target.Some? && IsLocalFile(target.value.imgUrl) {
        next := MountLocalFile(env);
        return;
      }
      state := Model.Activating(state.owned.(process := Some(Process(false))));
      if !env.childSpawned {
        var ready := ConstructReady(ECANCELED);
        return Some(ready);
      }
      state := Model.Activating(state.owned.(process := Some(Process(true))));
      log := log + [ProcessSpawned];
      return None;
    }

    method ActivateLegacyMode(env: Env) returns (next: Option<State>)
      requires completionNotification != null && target.Some? && state.Activating? && state.owned.process.None?
      modifies this`log, this`state, this`target, completionNotification
      ensures (View(), next) == Model.Conclude(Model.ActivateLegacyMode(old(View()), env))
    {
      if !env.socketDirExists {
        if env.socketDirError != 0 {
          var ready := ConstructReady(env.socketDirError);
          return Some(ready);
        }
        if env.socketPermError != 0 {
          var ready := ConstructReady(env.socketPermError);
          return Some(ready);
        }
      }
      if config.slotNumber < 0 {
        var ready := ConstructReady(ECONNREFUSED);
        return Some(ready);
      }
      if IsLocalFile(target.value.imgUrl) {
        next := MountLocalFile(env);
      } else if HasScheme("smb://", target.value.imgUrl) {
        if !HasLogin(target.value) {
          var ready := ConstructReady(ECONNREFUSED);
          return Some(ready);
        }
        next := MountSmbShare(env);
      } else if HasScheme("https://", target.value.imgUrl) {
        if !HasLogin(target.value) {
          var ready := ConstructReady(ECONNREFUSED);
          return Some(ready);
        }
        next := ServeWithNbdKit(env, EINVAL);
      } else if HasScheme("nfs://", target.value.imgUrl) {
        next := MountNfsShare(env);
      } else {
        var ready := ConstructReady(EINVAL);
        return Some(ready);
      }
    }

    // ----- changing state -----

    method OnEnter(env: Env) returns (next: Option<State>)
      requires Model.CanEnter(View(), state)
      requires state.Activating? ==> state.owned == Model.NOTHING
      modifies this, completionNotification
      ensures completionNotification == old(completionNotification)
      ensures (View(), next) == Model.OnEnter(old(View()), env)
    {
      next := None;
      match state
      case Initial =>
      case Ready(_) => ClearTarget();
      case Active(_) =>
      case Deactivating(owned, udev, stopped) =>
        state := Model.Deactivating(Model.NOTHING, udev, stopped);
        DestroyGadget(owned.gadget);
        DestroyProcess(owned.process);
      case Activating(_) =>
        exitCode := -1;
        if config.mode.Proxy? {
          next := ActivateProxyMode(env);
        } else {
          next := ActivateLegacyMode(env);
        }
    }

    method ChangeState(newState: State, env: Env)
      requires Model.CanEnter(View(), newState)
      requires newState.Activating? ==> newState.owned == Model.NOTHING
      modifies this, completionNotification
      ensures completionNotification == old(completionNotification)
      ensures View() == Model.ChangeState(old(View()), newState, env)
      decreases Model.Rank(newState)
    {
      var previous := state;
      state := newState;
      DestroyState(previous);
      log := log + [Entered(Model.PhaseOf(newState))];
      var next := OnEnter(env);
      if next.Some? {
        ChangeState(next.value, env);
      }
    }

    // ----- handling events -----

    method Evaluate() returns (next: Option<State>)
      requires completionNotification != null && state.Deactivating?
      modifies this`log, completionNotification
      ensures (View(), if next.None? then Model.Stay else Model.Goto(next.value)) == Model.Evaluate(old(View()))
    {
      if state.udev.Some? && state.stopped {
        var ready := ConstructReady(if state.udev.value.Removed? then 0 else ECONNREFUSED);
        return Some(ready);
      }
      return None;
    }

    /** What the state owned, with the state left owning nothing. */
    method MoveOut() returns (owned: Model.Owned)
      requires state.Activating? || state.Active?
      modifies this`state
      ensures owned == old(state).owned && View() == Model.MoveOut(old(View()))
    {
      owned := state.owned;
      state := if state.Activating? then Model.Activating(Model.NOTHING) else Model.Active(Model.NOTHING);
    }

    method HandleInActivating(e: Event, env: Env) returns (outcome: Model.Outcome)
      requires completionNotification != null && state.Activating?
      modifies this`log, this`state, completionNotification
      ensures (View(), outcome) == Model.HandleInActivating(old(View()), e, env)
    {
      match e
      case Udev(change) =>
        if change.Inserted? {
          var previous := state.owned.gadget;
          var gadget := Gadget(env.gadgetStatus);
          log := log + [GadgetConfigured];
          state := Model.Activating(state.owned.(gadget := Some(gadget)));
          DestroyGadget(previous);
          if gadget.status != 0 {
            var ready := ConstructReady(if gadget.status == -2 then ERANGE else EINVAL);
            return Model.Goto(ready);
          }
          var owned := MoveOut();
          Notify(0);
          return Model.Goto(Model.Active(owned));
        }
        var owned := MoveOut();
        return Model.Goto(Model.Deactivating(owned, Some(change), false));
      case SubprocessStopped =>
        var https := target.Some? && HasScheme("https://", target.value.imgUrl);
        var ready := ConstructReady(if https then EPROTO else ENOENT);
        return Model.Goto(ready);
      case _ =>
        return Model.Refuse(EBUSY);
    }

    method HandleInActive(e: Event) returns (outcome: Model.Outcome)
      requires completionNotification != null && state.Active?
      modifies this`log, this`state, completionNotification
      ensures (View(), outcome) == Model.HandleInActive(old(View()), e)
    {
      match e
      case Udev(change) =>
        var owned := MoveOut();
        return Model.Goto(Model.Deactivating(owned, Some(change), false));
      case SubprocessStopped =>
        var owned := MoveOut();
        return Model.Goto(Model.Deactivating(owned, None, true));
      case Unmount =>
        NotificationStart();
        var owned := MoveOut();
        return Model.Goto(Model.Deactivating(owned, None, false));
      case Mount(_) =>
        return Model.Refuse(EPERM);
      case Register =>
        return Model.Refuse(EOPNOTSUPP);
    }

    method HandleInDeactivating(e: Event) returns (outcome: Model.Outcome)
      requires completionNotification != null && state.Deactivating?
      modifies this`log, this`state, completionNotification
      ensures (View(), outcome) == Model.HandleInDeactivating(old(View()), e)
    {
      match e {
        case Udev(change) =>
          state := Model.Deactivating(state.owned, Some(change), state.stopped);
        case SubprocessStopped =>
          state := Model.Deactivating(state.owned, state.udev, true);
        case _ =>
          return Model.Refuse(EBUSY);
      }
      var next := Evaluate();
      outcome := if next.None? then Model.Stay else Model.Goto(next.value);
    }

    method HandleInReady(e: Event) returns (outcome: Model.Outcome)
      requires completionNotification != null && state.Ready?
      modifies this`log, this`target, completionNotification
      ensures forall env :: (View(), outcome) == Model.Handle(old(View()), e, env)
    {
      match e
      case Mount(newTarget) =>
        log := log + [Accepted];
        NotificationStart();
        if newTarget.Some? {
          target := newTarget;
        }
        return Model.Goto(Model.Activating(Model.NOTHING));
      case Unmount =>
        return Model.Refuse(EPERM);
      case _ =>
        return Model.Stay;
    }

    method HandleEvent(e: Event, env: Env) returns (outcome: Model.Outcome)
      requires state.Initial? || completionNotification != null
      modifies this, completionNotification
      ensures (View(), outcome) == Model.Handle(old(View()), e, env)
      ensures completionNotification == old(completionNotification) 
              || (old(state).Initial? && e.Register? && completionNotification != null
                  && fresh(completionNotification) && completionNotification.path == name)
    {
      match state
      case Initial =>
        if e.Register? {
          NotificationInitialize();
          var ready := ConstructReady(0);
          return Model.Goto(ready);
        }
        return Model.Stay;
      case Ready(_) =>
        outcome := HandleInReady(e);
      case Activating(_) =>
        outcome := HandleInActivating(e, env);
      case Active(_) =>
        outcome := HandleInActive(e);
      case Deactivating(_, _, _) =>
        outcome := HandleInDeactivating(e);
    }

    /** Delivers one event; `refused` is the error thrown back at the caller, if any. */
    method EmitEvent(e: Event, env: Env) returns (refused: Option<int>)
      requires Model.Admissible(View(), e)
      modifies this, completionNotification
      ensures (View(), refused) == Model.Dispatch(old(View()), e, env)
      ensures completionNotification == old(completionNotification) 
              || (old(state).Initial? && e.Register? && completionNotification != null
                  && fresh(completionNotification) && completionNotification.path == name)
    {
      var outcome := HandleEvent(e, env);
      match outcome
      case Stay =>
        return None;
      case Goto(next) =>
        ChangeState(next, env);
        return None;
      case Refuse(code) =>
        return Some(code);
    }

    /** Device changes concern only the slot that serves the device. */
    method EmitUdevStateChangeEvent(device: Device, change: StateChange, env: Env)
      requires Model.Admissible(View(), Udev(change))
      modifies this, completionNotification
      ensures View() == if config.device == device then Model.Dispatch(old(View()), Udev(change), env).0
                        else old(View())
      ensures completionNotification == old(completionNotification)
    {
      if config.device == device {
        var _ := EmitEvent(Udev(change), env);
      }
    }

    // ----- what else reaches a slot -----

    method SetAdditionalInfo(info: string)
      modifies this`additionalInfo
      ensures View() == old(View()).(additionalInfo := info)
    {
      additionalInfo := info;
    }

    /** The first half of a Mount call, before the call may have to wait for its credentials. */
    method BeginMount(info: string)
      modifies this`additionalInfo
      ensures View() == Model.Step(old(View()), Model.MountCall(info))
    {
      if state.Ready? {
        SetAdditionalInfo(info);
      }
    }

    /** What the local-media service does to the slot it has chosen. */
    method AcceptLocal(localTarget: Target, env: Env)
      requires completionNotification != null
      modifies this, completionNotification
      ensures View()
           == Model.Dispatch(old(View()).(additionalInfo := "LMEDIA"), Mount(Some(localTarget)), env).0
      ensures completionNotification == old(completionNotification)
    {
      SetAdditionalInfo("LMEDIA");
      var _ := EmitEvent(Mount(Some(localTarget)), env);
    }

    /** The exit callback of a child records the exit code before it reports the exit. */
    method OnExit(code: int, env: Env)
      requires Model.Admissible(View(), SubprocessStopped)
      modifies this, completionNotification
      ensures View() == Model.Step(old(View()), Model.ChildExit(code, env))
      ensures completionNotification == old(completionNotification)
    {
      exitCode := code;
      var _ := EmitEvent(SubprocessStopped, env);
    }

    method OnTimerExpired()
      requires completionNotification != null && completionNotification.armed
      modifies completionNotification
      ensures View() == Model.Step(old(View()), Model.TimerExpires)
    {
      completionNotification.armed := false;
      completionNotification.expired := completionNotification.expired + 1;
    }

    /** Runs the oldest queued completion of an aborted or of an expired wait. */
    method RunCompletion(wasAborted: bool)
      requires completionNotification != null
      requires if wasAborted then completionNotification.aborted > 0 else completionNotification.expired > 0
      modifies this`log, completionNotification
      ensures View() == Model.Step(old(View()), if wasAborted then Model.RunAborted else Model.RunExpired)
    {
      ghost var pending := completionNotification.started;
      if wasAborted {
        completionNotification.RunAborted();
      } else {
        var sent := completionNotification.RunExpired();
        assert sent == None;
      }
      if pending {
        log := log + [Cleared];
      }
    }

    /** Any input at all, once the slot is registered; a completion that is not queued is not run. */
    method Take(i: Model.Input)
      requires completionNotification != null && !state.Initial? && Model.Legal(View(), i)
      modifies this, completionNotification
      ensures View() == Model.Step(old(View()), i)
      ensures completionNotification == old(completionNotification)
    {
      hide Model.Dispatch;
      match i
      case OnEvent(event, env) =>
        var _ := EmitEvent(event, env);
      case MountCall(info) =>
        BeginMount(info);
      case ChildExit(exitCode, env) =>
        OnExit(exitCode, env);
      case TimerExpires =>
        if completionNotification.armed {
          OnTimerExpired();
        }
      case RunAborted =>
        if completionNotification.aborted > 0 {
          RunCompletion(true);
        }
      case RunExpired =>
        if completionNotification.expired > 0 {
          RunCompletion(false);
        }
    }
  }
}
