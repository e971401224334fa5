/** What one event does to one slot: the specification the imperative MountPointStateMachine is proved against. */
module SlotModel {
  import opened Wrappers
  import opened Events
  import opened Trace

  /**
   `armed` is a timer wait in flight; `aborted` and `expired` count finished waits whose
   completion handler has not run yet.
   */
  datatype Notification = Notification(started: bool, armed: bool, aborted: nat, expired: nat)

  datatype Owned = Owned(process: Option<Process>, gadget: Option<Gadget>)

  const NOTHING := Owned(None, None)

  datatype State =
    | Initial
    | Ready(error: Option<int>)
    | Activating(owned: Owned)
    | Active(owned: Owned)
    | Deactivating(owned: Owned, udev: Option<StateChange>, stopped: bool)

  datatype Slot = Slot(
    name: string, config: MountPoint, additionalInfo: string, notification: Option<Notification>,
    target: Option<Target>, state: State, exitCode: int, log: seq<Entry>)

  datatype Outcome = Stay | Goto(next: State) | Refuse(code: int)

  const SILENT := Notification(false, false, 0, 0)

  function Fresh(name: string, config: MountPoint): Slot {
    Slot(name, config, "", None, None, Initial, -1, [])
  }

  function PhaseOf(st: State): Phase {
    match st
    case Initial => InInitial
    case Ready(_) => InReady
    case Activating(_) => InActivating
    case Active(_) => InActive
    case Deactivating(_, _, _) => InDeactivating
  }

  predicate Owns(st: State) {
    st.Activating? || st.Active? || st.Deactivating?
  }

  function Emit(s: Slot, e: Entry): (r: Slot)
    ensures r == s.(log := s.log + [e])
    ensures Replay(r.log) == Then(Replay(s.log), e)
  {
    assert (s.log + [e])[..|s.log|] == s.log;
    s.(log := s.log + [e])
  }

  // ----- notification -----

  /** Cancelling a wait that is in flight leaves its completion queued. */
  function CancelWait(n: Notification): Notification {
    n.(armed := false, aborted := n.aborted + One(n.armed))
  }

  function StartNotification(s: Slot): (r: Slot)
    requires s.notification.Some?
    ensures r == s.(log := r.log, notification := r.notification) && r.notification.Some?
  {
    Emit(s.(notification := Some(CancelWait(s.notification.value).(started := true, armed := true))), Started)
  }

  function Notify(s: Slot, code: int): (r: Slot)
    requires s.notification.Some?
    ensures r == s.(log := r.log, notification := r.notification) && r.notification.Some?
  {
    if s.notification.value.started then
      Emit(s.(notification := Some(CancelWait(s.notification.value).(started := false))), Signal(code))
    else s
  }

  // ----- releasing what is owned -----

  function ReleaseGadget(s: Slot, gadget: Option<Gadget>): (r: Slot)
    ensures r == s.(log := r.log)
  {
    if gadget.Some? then Emit(s, GadgetRemoved) else s
  }

  function ReleaseProcess(s: Slot, process: Option<Process>): (r: Slot)
    ensures r == s.(log := r.log)
  {
    if process.Some? && process.value.spawned then Emit(s, StopRequested) else s
  }

  function ReleaseShare(s: Slot, share: Option<Share>): (r: Slot)
    ensures r == s.(log := r.log)
  {
    if share.Some? then Emit(Emit(s, ShareUnmounted), DirectoryRemoved) else s
  }

  function ReleaseTarget(s: Slot): (r: Slot)
    ensures r == s.(log := r.log, target := None)
  {
    if s.target.None? then s
    else ReleaseShare(ReleaseShare(s, s.target.value.mountPointNfs), s.target.value.mountPoint).(target := None)
  }

  /** Members are destroyed in reverse order of declaration: the gadget goes before the process. */
  function ReleaseOwned(s: Slot, owned: Owned): (r: Slot)
    ensures r == s.(log := r.log)
  {
    ReleaseProcess(ReleaseGadget(s, owned.gadget), owned.process)
  }

  function ReleaseState(s: Slot, st: State): (r: Slot)
    ensures r == s.(log := r.log)
  {
    if Owns(st) then ReleaseOwned(s, st.owned) else s
  }

  // ----- entering Activating -----

  /** What activation leaves behind: the slot with its acquisitions, and the error it failed with. */
  datatype Activation = Activation(slot: Slot, failure: Option<int>)

  /** Activation only ever changes what the slot owns, and reads everything else. */
  predicate Continues(s: Slot, r: Slot) {
    && r.state.Activating?
    && r.name == s.name && r.config == s.config && r.additionalInfo == s.additionalInfo
    && r.notification == s.notification
    && SameRequest(s.target, r.target)
  }

  function Spawn(s: Slot, spawned: bool, failure: int): (a: Activation)
    requires s.state.Activating?
    ensures Continues(s, a.slot)
  {
    if spawned then
      var running := Activating(s.state.owned.(process := Some(Process(true))));
      Activation(Emit(s, ProcessSpawned).(state := running), None)
    else Activation(s, Some(failure))
  }

  function SpawnNbdKit(s: Slot, env: Env, failure: int): (a: Activation)
    requires s.state.Activating?
    ensures Continues(s, a.slot)
  {
    Spawn(s, env.oldSocketCleared && env.childSpawned, failure)
  }

  function MountLocalFile(s: Slot, env: Env): (a: Activation)
    requires s.state.Activating? && s.target.Some?
    ensures Continues(s, a.slot)
  {
    if !env.fileExists then Activation(s, Some(ENOENT))
    else if !env.fileRegular then Activation(s, Some(EINVAL))
    else if env.fileStatError != 0 then Activation(s, Some(env.fileStatError))
    else if s.target.value.rw && !env.fileWritable then Activation(s, Some(EACCES))
    else SpawnNbdKit(s, env, ECANCELED)
  }

  /** `error` is what the share's own mount call reports; a share that failed gives its directory back at once. */
  function MountShare(s: Slot, env: Env, nfs: bool, error: int): (a: Activation)
    requires s.state.Activating? && s.target.Some?
    ensures Continues(s, a.slot)
  {
    if !env.directoryCreated then Activation(s, Some(ENOENT))
    else
      var d := Emit(s, DirectoryCreated);
      if error != 0 then Activation(Emit(d, DirectoryRemoved), Some(error))
      else
        var share := Some(Share("/tmp/" + s.name));
        var t := if nfs then s.target.value.(mountPointNfs := share) else s.target.value.(mountPoint := share);
        SpawnNbdKit(Emit(d, ShareMounted).(target := Some(t)), env, ECANCELED)
  }

  /** A user name with a comma is turned down before anything is mounted. */
  function SmbError(t: Target, env: Env): int {
    if t.credentials.Some? && ',' in t.credentials.value.user then EINVAL else env.mountError
  }

  function ActivateLegacyMode(s: Slot, env: Env): (a: Activation)
    requires s.state.Activating? && s.target.Some?
    ensures Continues(s, a.slot)
  {
    var t := s.target.value;
    if !env.socketDirExists && env.socketDirError != 0 then Activation(s, Some(env.socketDirError))
    else if !env.socketDirExists && env.socketPermError != 0 then Activation(s, Some(env.socketPermError))
    else if s.config.slotNumber < 0 then Activation(s, Some(ECONNREFUSED))
    else if IsLocalFile(t.imgUrl) then MountLocalFile(s, env)
    else if HasScheme("smb://", t.imgUrl) then
      if !HasLogin(t) then Activation(s, Some(ECONNREFUSED)) else MountShare(s, env, false, SmbError(t, env))
    else if HasScheme("https://", t.imgUrl) then
      if !HasLogin(t) then Activation(s, Some(ECONNREFUSED)) else SpawnNbdKit(s, env, EINVAL)
    else if HasScheme("nfs://", t.imgUrl) then MountShare(s, env, true, env.mountError)
    else Activation(s, Some(EINVAL))
  }

  function ActivateProxyMode(s: Slot, env: Env): (a: Activation)
    requires s.state.Activating?
    ensures Continues(s, a.slot)
  {
    if s.target.Some? && IsLocalFile(s.target.value.imgUrl) then MountLocalFile(s, env)
    else
      var a := Spawn(s, env.childSpawned, ECANCELED);
      if a.failure.None? then a
      else a.(slot := s.(state := Activating(s.state.owned.(process := Some(Process(false))))))
  }

  function Activate(s: Slot, env: Env): (a: Activation)
    requires s.state.Activating? && (s.config.mode.Proxy? || s.target.Some?)
    ensures Continues(s, a.slot)
  {
    var r := s.(exitCode := -1);
    if r.config.mode.Proxy? then ActivateProxyMode(r, env) else ActivateLegacyMode(r, env)
  }

  // ----- changing state -----

  /** Only Activating can hand over to a further state when entered, and then to Ready. */
  function Rank(st: State): nat {
    if st.Activating? then 1 else 0
  }

  predicate CanEnter(s: Slot, st: State) {
    st.Activating? ==> s.notification.Some? && (s.config.mode.Proxy? || s.target.Some?)
  }

  /** A failed activation notifies from the constructor of the Ready state it hands over to. */
  function Conclude(a: Activation): (Slot, Option<State>)
    requires a.slot.notification.Some?
  {
    if a.failure.None? then (a.slot, None) else (Notify(a.slot, a.failure.value), Some(Ready(a.failure)))
  }

  function OnEnter(s: Slot, env: Env): (r: (Slot, Option<State>))
    requires CanEnter(s, s.state)
    ensures r.1.Some? ==> Rank(r.1.value) < Rank(s.state)
  {
    match s.state
    case Initial => (s, None)
    case Ready(_) => (ReleaseTarget(s), None)
    case Active(_) => (s, None)
    case Deactivating(owned, udev, stopped) =>
      (ReleaseOwned(s.(state := Deactivating(NOTHING, udev, stopped)), owned), None)
    case Activating(_) => Conclude(Activate(s, env))
  }

  /** The new state is in place before the old one is destroyed, and entered after that. */
  function ChangeState(s: Slot, st: State, env: Env): Slot
    requires CanEnter(s, st)
    decreases Rank(st)
  {
    var (e, next) := OnEnter(Emit(ReleaseState(s.(state := st), s.state), Entered(PhaseOf(st))), env);
    if next.Some? then ChangeState(e, next.value, env) else e
  }

  // ----- handling events -----

  function BecomeReady(s: Slot, code: int): (Slot, Outcome)
    requires s.notification.Some?
  {
    (Notify(s, code), Goto(Ready(if code == 0 then None else Some(code))))
  }

  function Evaluate(s: Slot): (Slot, Outcome)
    requires s.notification.Some? && s.state.Deactivating?
  {
    if s.state.udev.Some? && s.state.stopped then
      BecomeReady(s, if s.state.udev.value.Removed? then 0 else ECONNREFUSED)
    else (s, Stay)
  }

  /** Moving the process and the gadget on leaves the old state with neither. */
  function MoveOut(s: Slot): Slot
    requires s.state.Activating? || s.state.Active?
  {
    s.(state := if s.state.Activating? then Activating(NOTHING) else Active(NOTHING))
  }

  function HandleInActivating(s: Slot, e: Event, env: Env): (Slot, Outcome)
    requires s.notification.Some? && s.state.Activating?
  {
    match e
    case Udev(Inserted) =>
      var gadget := Some(Gadget(env.gadgetStatus));
      var configured := Emit(s, GadgetConfigured).(state := Activating(s.state.owned.(gadget := gadget)));
      var g := ReleaseGadget(configured, s.state.owned.gadget);
      if env.gadgetStatus == -2 then BecomeReady(g, ERANGE)
      else if env.gadgetStatus != 0 then BecomeReady(g, EINVAL)
      else (Notify(MoveOut(g), 0), Goto(Active(s.state.owned.(gadget := gadget))))
    case Udev(change) => (MoveOut(s), Goto(Deactivating(s.state.owned, Some(change), false)))
    case SubprocessStopped =>
      BecomeReady(s, if s.target.Some? && HasScheme("https://", s.target.value.imgUrl) then EPROTO else ENOENT)
    case _ => (s, Refuse(EBUSY))
  }

  function HandleInActive(s: Slot, e: Event): (Slot, Outcome)
    requires s.notification.Some? && s.state.Active?
  {
    match e
    case Udev(change) => (MoveOut(s), Goto(Deactivating(s.state.owned, Some(change), false)))
    case SubprocessStopped => (MoveOut(s), Goto(Deactivating(s.state.owned, None, true)))
    case Unmount =>
      (MoveOut(StartNotification(s)), Goto(Deactivating(s.state.owned, None, false)))
    case Mount(_) => (s, Refuse(EPERM))
    case Register => (s, Refuse(EOPNOTSUPP))
  }

  function HandleInDeactivating(s: Slot, e: Event): (Slot, Outcome)
    requires s.notification.Some? && s.state.Deactivating?
  {
    match e
    case Udev(change) => Evaluate(s.(state := Deactivating(s.state.owned, Some(change), s.state.stopped)))
    case SubprocessStopped => Evaluate(s.(state := Deactivating(s.state.owned, s.state.udev, true)))
    case _ => (s, Refuse(EBUSY))
  }

  function Handle(s: Slot, e: Event, env: Env): (Slot, Outcome)
    requires s.state.Initial? || s.notification.Some?
  {
    match s.state
    case Initial =>
      if e.Register? then BecomeReady(s.(notification := Some(SILENT)), 0) else (s, Stay)
    case Ready(_) =>
      (match e
       case Mount(target) =>
         var b := StartNotification(Emit(s, Accepted));
         (if target.Some? then b.(target := target) else b, Goto(Activating(NOTHING)))
       case Unmount => (s, Refuse(EPERM))
       case _ => (s, Stay))
    case Activating(_) => HandleInActivating(s, e, env)
    case Active(_) => HandleInActive(s, e)
    case Deactivating(_, _, _) => HandleInDeactivating(s, e)
  }

  /** A mount on anything but a proxy slot has to bring a target: legacy activation reads it unchecked. */
  predicate Admissible(s: Slot, e: Event) {
    && (s.state.Initial? || s.notification.Some?)
    && (e.Mount? && s.state.Ready? ==> s.config.mode.Proxy? || s.target.Some? || e.target.Some?)
  }

  /** The effect of one event, and the error it is refused with, if it is. */
  function Dispatch(s: Slot, e: Event, env: Env): (Slot, Option<int>)
    requires Admissible(s, e)
  {
    hide Replay;
    var (h, outcome) := Handle(s, e, env);
    match outcome
    case Stay => (h, None)
    case Goto(next) => (ChangeState(h, next, env), None)
    case Refuse(code) => (h, Some(code))
  }

  // ----- everything that can happen to a slot -----

  datatype Input =
    | OnEvent(event: Event, env: Env)
    | MountCall(info: string)
    | ChildExit(exitCode: int, env: Env)
    | TimerExpires
    | RunAborted
    | RunExpired

  /** A completion handler always clears `started`, so the notify it may go on to is suppressed. */
  function Complete(s: Slot, n: Notification): Slot {
    if n.started then Emit(s.(notification := Some(n.(started := false))), Cleared)
    else s.(notification := Some(n))
  }

  predicate Legal(s: Slot, i: Input) {
    match i
    case OnEvent(event, _) =>
      && Admissible(s, event)
      && (event.Mount? && event.target.Some? ==> Unmounted(event.target.value))
    case ChildExit(_, _) => Admissible(s, SubprocessStopped)
    case _ => true
  }

  function Step(s: Slot, i: Input): Slot
    requires Legal(s, i)
  {
    match i
    case OnEvent(event, env) => Dispatch(s, event, env).0
    case MountCall(info) => if s.state.Ready? then s.(additionalInfo := info) else s
    case ChildExit(exitCode, env) => Dispatch(s.(exitCode := exitCode), SubprocessStopped, env).0
    case TimerExpires =>
      if s.notification.Some? && s.notification.value.armed then
        var n := s.notification.value;
        s.(notification := Some(n.(armed := false, expired := n.expired + 1)))
      else s
    case RunAborted =>
      if s.notification.Some? && s.notification.value.aborted > 0 then
        var n := s.notification.value;
        Complete(s, n.(aborted := n.aborted - 1))
      else s
    case RunExpired =>
      if s.notification.Some? && s.notification.value.expired > 0 then
        var n := s.notification.value;
        Complete(s, n.(expired := n.expired - 1))
      else s
  }
}
