/** What every slot keeps in every run: the coupling of its state with its history and its resources. */
module SlotSafety {
  import opened Wrappers
  import opened Events
  import opened Trace
  import opened SlotModel

  predicate Pending(s: Slot) {
    s.notification.Some? && s.notification.value.started
  }

  predicate HasShare(s: Slot) {
    s.target.Some? && !Unmounted(s.target.value)
  }

  predicate HasChild(s: Slot) {
    Owns(s.state) && s.state.owned.process.Some? && s.state.owned.process.value.spawned
  }

  predicate HasGadget(s: Slot) {
    Owns(s.state) && s.state.owned.gadget.Some?
  }

  /** What the slot's fields say is outstanding. */
  function LedgerOf(s: Slot): Ledger {
    Ledger(PhaseOf(s.state), false, Pending(s), false, HasShare(s), HasShare(s), HasChild(s), HasGadget(s))
  }

  /** A share is never mounted twice over for one target. */
  predicate OneShare(s: Slot) {
    s.target.Some? ==> s.target.value.mountPoint.None? || s.target.value.mountPointNfs.None?
  }

  /** The fields tell the truth about the history. */
  predicate Faithful(s: Slot) {
    Replay(s.log) == Some(LedgerOf(s)) && OneShare(s)
  }

  /** What a state owns between two events. */
  predicate AtRest(st: State) {
    match st
    case Initial => true
    case Ready(_) => true
    case Activating(owned) => owned == Owned(Some(Process(true)), None)
    case Active(owned) => owned == Owned(Some(Process(true)), Some(Gadget(0)))
    case Deactivating(owned, udev, stopped) => owned == NOTHING && !(udev.Some? && stopped)
  }

  /** The invariant of a slot between two events. */
  predicate Good(s: Slot) {
    && Faithful(s)
    && AtRest(s.state)
    && (s.state.Initial? <==> s.notification.None?)
    && (s.state.Initial? || s.state.Ready? ==> s.target.None?)
    && (Pending(s) ==> s.state.Activating? || s.state.Deactivating?)
    && (Owns(s.state) && !s.config.mode.Proxy? ==> s.target.Some?)
  }

  lemma SpawnIsFaithful(s: Slot, spawned: bool, failure: int)
    requires Faithful(s) && s.state == Activating(NOTHING)
    ensures var a := Spawn(s, spawned, failure);
            && Faithful(a.slot)
            && a.slot.state.owned == (if spawned then Owned(Some(Process(true)), None) else NOTHING)
            && (a.failure.None? <==> spawned)
  {
    hide Replay;
  }

  lemma MountShareIsFaithful(s: Slot, env: Env, nfs: bool, error: int)
    requires Faithful(s) && s.state == Activating(NOTHING) && s.target.Some? && Unmounted(s.target.value)
    ensures var a := MountShare(s, env, nfs, error);
            && Faithful(a.slot)
            && a.slot.state.owned == (if a.failure.None? then Owned(Some(Process(true)), None) else NOTHING)
            && a.slot.state.Activating?
  {
    hide Replay;
    if env.directoryCreated && error == 0 {
      var share := Some(Share("/tmp/" + s.name));
      var t := if nfs then s.target.value.(mountPointNfs := share) else s.target.value.(mountPoint := share);
      var m := Emit(Emit(s, DirectoryCreated), ShareMounted).(target := Some(t));
      SpawnIsFaithful(m, env.oldSocketCleared && env.childSpawned, ECANCELED);
    }
  }

  /** An activation that succeeded owns a child and no gadget; one that failed owns neither. */
  predicate WellActivated(a: Activation) {
    && Faithful(a.slot) && !HasGadget(a.slot)
    && (a.failure.None? ==> a.slot.state == Activating(Owned(Some(Process(true)), None)))
    && (a.failure.Some? ==> !HasChild(a.slot))
  }

  lemma LocalFileIsFaithful(s: Slot, env: Env)
    requires Faithful(s) && s.state == Activating(NOTHING) && s.target.Some?
    ensures WellActivated(MountLocalFile(s, env))
  {
    hide Replay, Spawn;
    SpawnIsFaithful(s, env.oldSocketCleared && env.childSpawned, ECANCELED);
  }

  lemma LegacyIsFaithful(s: Slot, env: Env)
    requires Faithful(s) && s.state == Activating(NOTHING) && s.target.Some? && Unmounted(s.target.value)
    ensures WellActivated(ActivateLegacyMode(s, env))
  {
    hide Replay, Spawn, MountShare, MountLocalFile;
    LocalFileIsFaithful(s, env);
    SpawnIsFaithful(s, env.oldSocketCleared && env.childSpawned, EINVAL);
    MountShareIsFaithful(s, env, false, SmbError(s.target.value, env));
    MountShareIsFaithful(s, env, true, env.mountError);
  }

  lemma ProxyIsFaithful(s: Slot, env: Env)
    requires Faithful(s) && s.state == Activating(NOTHING)
    ensures WellActivated(ActivateProxyMode(s, env))
  {
    hide Replay, MountLocalFile;
    if s.target.Some? {
      LocalFileIsFaithful(s, env);
    }
    SpawnIsFaithful(s, env.childSpawned, ECANCELED);
  }

  lemma ActivateIsFaithful(s: Slot, env: Env)
    requires Faithful(s) && s.state == Activating(NOTHING) && (s.target.Some? ==> Unmounted(s.target.value))
    requires s.config.mode.Proxy? || s.target.Some?
    ensures WellActivated(Activate(s, env))
  {
    hide Replay, ActivateLegacyMode, ActivateProxyMode;
    var r := s.(exitCode := -1);
    if r.config.mode.Proxy? {
      ProxyIsFaithful(r, env);
    } else {
      LegacyIsFaithful(r, env);
    }
  }

  /** A success that is signalled has to be made good at once, which the fields do not yet show. */
  lemma NotifyReplay(s: Slot, code: int)
    requires Faithful(s) && s.notification.Some?
    requires Pending(s) ==> s.state.Activating? || (s.state.Deactivating? && s.state.owned == NOTHING)
    ensures var n := Notify(s, code);
            && Replay(n.log) == Some(LedgerOf(n).(promised := Pending(s) && code == 0))
            && OneShare(n) && !Pending(n)
  {
    hide Replay;
  }

  lemma ReleaseOwnedReplay(s: Slot, owned: Owned)
    requires Replay(s.log).Some?
    requires var l := Replay(s.log).value;
             && !l.promised && l.process == (owned.process.Some? && owned.process.value.spawned)
             && l.gadget == owned.gadget.Some?
    ensures Replay(ReleaseOwned(s, owned).log) == Some(Replay(s.log).value.(process := false, gadget := false))
  {
    hide Replay;
  }

  lemma ReleaseTargetReplay(s: Slot)
    requires Replay(s.log).Some? && OneShare(s)
    requires var l := Replay(s.log).value;
             !l.promised && !l.process && !l.gadget && l.share == l.directory == HasShare(s)
    ensures Replay(ReleaseTarget(s).log) == Some(Replay(s.log).value.(share := false, directory := false))
  {
    hide Replay;
  }

  lemma EnterReadyReplay(n: Slot, st: State, promised: bool)
    requires Replay(n.log) == Some(LedgerOf(n).(promised := promised)) && !Pending(n) && st.Ready?
    requires n.state.Initial? || n.state.Activating? || n.state.Deactivating?
    requires promised ==> n.state.Deactivating? && n.state.owned == NOTHING
    ensures Replay(Emit(ReleaseState(n.(state := st), n.state), Entered(InReady)).log)
         == Some(Ledger(InReady, false, false, false, HasShare(n), HasShare(n), false, false))
  {
    hide Replay;
    if Owns(n.state) && n.state.owned != NOTHING {
      ReleaseOwnedReplay(n.(state := st), n.state.owned);
    }
  }

  /** Whatever is owned on the way to Ready is given back there, in order. */
  lemma ReadyIsGood(s: Slot, code: int, env: Env)
    requires Faithful(s) && s.notification.Some?
    requires (s.state.Activating? && code != 0) || (s.state.Deactivating? && s.state.owned == NOTHING)
             || (s.state.Initial? && s.target.None? && !Pending(s))
    ensures Good(ChangeState(Notify(s, code), Ready(if code == 0 then None else Some(code)), env))
  {
    hide Replay;
    NotifyReplay(s, code);
    var n := Notify(s, code);
    var st := Ready(if code == 0 then None else Some(code));
    EnterReadyReplay(n, st, Pending(s) && code == 0);
    var e := Emit(ReleaseState(n.(state := st), n.state), Entered(InReady));
    assert e.target == n.target && e.state == st && e.notification == n.notification;
    ReleaseTargetReplay(e);
  }

  lemma DeactivateUnfolds(s: Slot, udev: Option<StateChange>, stopped: bool, env: Env)
    requires s.state.Activating? || s.state.Active?
    ensures var m := s.(state := Deactivating(NOTHING, udev, stopped));
            ChangeState(MoveOut(s), Deactivating(s.state.owned, udev, stopped), env)
            == ReleaseOwned(Emit(m, Entered(InDeactivating)), s.state.owned)
  {
    hide Replay;
  }

  lemma DeactivateIsGood(s: Slot, udev: Option<StateChange>, stopped: bool, env: Env)
    requires s.state.Activating? || s.state.Active?
    requires Faithful(s) && AtRest(s.state) && s.notification.Some? && !(udev.Some? && stopped)
    requires !s.config.mode.Proxy? ==> s.target.Some?
    ensures Good(ChangeState(MoveOut(s), Deactivating(s.state.owned, udev, stopped), env))
  {
    hide Replay, ChangeState, ReleaseOwned;
    DeactivateUnfolds(s, udev, stopped, env);
    var e := Emit(s.(state := Deactivating(NOTHING, udev, stopped)), Entered(InDeactivating));
    ReleaseOwnedReplay(e, s.state.owned);
  }

  /** The slot on its way into Activating, with the mount accepted and its notification started. */
  function Admitted(s: Slot, target: Option<Target>): Slot
    requires s.notification.Some?
  {
    var b := StartNotification(Emit(s, Accepted));
    var m := if target.Some? then b.(target := target) else b;
    Emit(m.(state := Activating(NOTHING)), Entered(InActivating))
  }

  lemma AdmittedIsFaithful(s: Slot, target: Option<Target>)
    requires Good(s) && s.state.Ready? && (target.Some? ==> Unmounted(target.value))
    ensures Faithful(Admitted(s, target))
  {
    hide Replay;
  }

  lemma AcceptUnfolds(s: Slot, target: Option<Target>, env: Env)
    requires s.notification.Some? && s.state.Ready? && Legal(s, OnEvent(Mount(target), env)) && s.target.None?
    ensures var e := Admitted(s, target);
            && CanEnter(e, Activating(NOTHING))
            && var a := Activate(e, env);
               Dispatch(s, Mount(target), env).0
               == (if a.failure.None? then a.slot
                   else ChangeState(Notify(a.slot, a.failure.value), Ready(a.failure), env))
  {
    hide Replay, Activate;
  }

  lemma AcceptIsGood(s: Slot, target: Option<Target>, env: Env)
    requires Good(s) && s.state.Ready? && (target.Some? ==> Unmounted(target.value))
    requires s.config.mode.Proxy? || target.Some?
    ensures Good(Dispatch(s, Mount(target), env).0)
  {
    hide Replay, Activate, Dispatch, ChangeState;
    AcceptUnfolds(s, target, env);
    AdmittedIsFaithful(s, target);
    var e := Admitted(s, target);
    ActivateIsFaithful(e, env);
    var a := Activate(e, env);
    if a.failure.Some? {
      FailureIsNotZero(e, env);
      ReadyIsGood(a.slot, a.failure.value, env);
    }
  }

  lemma FailureIsNotZero(s: Slot, env: Env)
    requires s.state.Activating? && (s.config.mode.Proxy? || s.target.Some?)
    ensures Activate(s, env).failure.Some? ==> Activate(s, env).failure.value != 0
  {
    hide Replay;
  }

  lemma InsertionIsGood(s: Slot, env: Env)
    requires Good(s) && s.state.Activating?
    ensures Good(Dispatch(s, Udev(Inserted), env).0)
  {
    hide Replay, ChangeState, Notify;
    var gadget := Some(Gadget(env.gadgetStatus));
    var g := Emit(s, GadgetConfigured).(state := Activating(s.state.owned.(gadget := gadget)));
    if env.gadgetStatus == 0 {
      MountedIsGood(g, env);
    } else {
      ReadyIsGood(g, if env.gadgetStatus == -2 then ERANGE else EINVAL, env);
    }
  }

  /** Child and gadget move on to Active, where the success that is signalled on the way is made good. */
  lemma MountedIsGood(g: Slot, env: Env)
    requires Faithful(g) && g.state == Activating(Owned(Some(Process(true)), Some(Gadget(0)))) && g.notification.Some?
    requires !g.config.mode.Proxy? ==> g.target.Some?
    ensures Good(ChangeState(Notify(MoveOut(g), 0), Active(g.state.owned), env))
  {
    hide Replay;
    NotifyReplay(g, 0);
    assert Notify(MoveOut(g), 0) == MoveOut(Notify(g, 0));
  }

  lemma ActivatingIsGood(s: Slot, e: Event, env: Env)
    requires Good(s) && Legal(s, OnEvent(e, env)) && s.state.Activating?
    ensures Good(Dispatch(s, e, env).0)
  {
    hide Replay;
    match e
    case Udev(Inserted) => InsertionIsGood(s, env);
    case Udev(change) => DeactivateIsGood(s, Some(change), false, env);
    case SubprocessStopped =>
      ReadyIsGood(s, if s.target.Some? && HasScheme("https://", s.target.value.imgUrl) then EPROTO else ENOENT, env);
    case _ =>
  }

  lemma ActiveIsGood(s: Slot, e: Event, env: Env)
    requires Good(s) && Legal(s, OnEvent(e, env)) && s.state.Active?
    ensures Good(Dispatch(s, e, env).0)
  {
    hide Replay;
    match e
    case Udev(change) => DeactivateIsGood(s, Some(change), false, env);
    case SubprocessStopped => DeactivateIsGood(s, None, true, env);
    case Unmount => DeactivateIsGood(StartNotification(s), None, false, env);
    case _ =>
  }

  lemma DeactivatingIsGood(s: Slot, e: Event, env: Env)
    requires Good(s) && Legal(s, OnEvent(e, env)) && s.state.Deactivating?
    ensures Good(Dispatch(s, e, env).0)
  {
    hide Replay;
    var h := match e
      case Udev(change) => s.(state := Deactivating(NOTHING, Some(change), s.state.stopped))
      case SubprocessStopped => s.(state := Deactivating(NOTHING, s.state.udev, true))
      case _ => s;
    if h.state.udev.Some? && h.state.stopped {
      ReadyIsGood(h, if h.state.udev.value.Removed? then 0 else ECONNREFUSED, env);
    }
  }

  lemma DispatchIsGood(s: Slot, e: Event, env: Env)
    requires Good(s) && Legal(s, OnEvent(e, env))
    ensures Good(Dispatch(s, e, env).0)
  {
    hide Replay;
    match s.state
    case Initial =>
      if e.Register? {
        ReadyIsGood(s.(notification := Some(SILENT)), 0, env);
      }
    case Ready(_) =>
      if e.Mount? {
        AcceptIsGood(s, e.target, env);
      }
    case Activating(_) => ActivatingIsGood(s, e, env);
    case Active(_) => ActiveIsGood(s, e, env);
    case Deactivating(_, _, _) => DeactivatingIsGood(s, e, env);
  }

  /** One step of anything keeps the invariant. */
  lemma StepIsGood(s: Slot, i: Input)
    requires Good(s) && Legal(s, i)
    ensures Good(Step(s, i))
  {
    hide Replay;
    match i
    case OnEvent(event, env) => DispatchIsGood(s, event, env);
    case ChildExit(exitCode, env) => DispatchIsGood(s.(exitCode := exitCode), SubprocessStopped, env);
    case _ =>
  }
}
