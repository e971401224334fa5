/** What every event comes to in every state: who is refused and why, where a slot goes, which error it records. */
module SlotTable {
  import opened Wrappers
  import opened Events
  import opened Trace
  import opened SlotModel
  import opened SlotSafety
  import opened SlotRuns
  import opened SlotSignals

  // ----- mounts -----

  /** Something a mount depends on, and the error it fails with otherwise. */
  datatype Guard = Guard(holds: bool, error: int)

  function SocketGuards(config: MountPoint, env: Env): seq<Guard> {
    [Guard(env.socketDirExists || env.socketDirError == 0, env.socketDirError),
     Guard(env.socketDirExists || env.socketPermError == 0, env.socketPermError),
     Guard(config.slotNumber >= 0, ECONNREFUSED)]
  }

  /** An old socket has to go, and nbdkit to start. */
  function ServerGuard(env: Env, error: int): Guard {
    Guard(env.oldSocketCleared && env.childSpawned, error)
  }

  function FileGuards(rw: bool, env: Env): seq<Guard> {
    [Guard(env.fileExists, ENOENT),
     Guard(env.fileRegular, EINVAL),
     Guard(env.fileStatError == 0, env.fileStatError),
     Guard(rw ==> env.fileWritable, EACCES),
     ServerGuard(env, ECANCELED)]
  }

  function LoginGuard(credentials: Option<Login>): Guard {
    Guard(credentials.Some? && credentials.value.user != "" && credentials.value.password != "", ECONNREFUSED)
  }

  function CifsGuards(credentials: Option<Login>, env: Env): seq<Guard> {
    [LoginGuard(credentials),
     Guard(env.directoryCreated, ENOENT),
     Guard(credentials.Some? ==> ',' !in credentials.value.user, EINVAL),
     Guard(env.mountError == 0, env.mountError),
     ServerGuard(env, ECANCELED)]
  }

  function NfsGuards(env: Env): seq<Guard> {
    [Guard(env.directoryCreated, ENOENT),
     Guard(env.mountError == 0, env.mountError),
     ServerGuard(env, ECANCELED)]
  }

  function SchemeGuards(t: Target, env: Env): seq<Guard> {
    if "/tmp/lmedia/" <= t.imgUrl then FileGuards(t.rw, env)
    else if "smb://" <= t.imgUrl then CifsGuards(t.credentials, env)
    else if "https://" <= t.imgUrl then [LoginGuard(t.credentials), ServerGuard(env, EINVAL)]
    else if "nfs://" <= t.imgUrl then NfsGuards(env)
    else [Guard(false, EINVAL)]
  }

  /** All a mount depends on, in the order in which it is looked at. */
  function Guards(config: MountPoint, target: Option<Target>, env: Env): seq<Guard>
    requires config.mode.Proxy? || target.Some?
  {
    if !config.mode.Proxy? then SocketGuards(config, env) + SchemeGuards(target.value, env)
    else if target.Some? && "/tmp/lmedia/" <= target.value.imgUrl then FileGuards(target.value.rw, env)
    else [Guard(env.childSpawned, ECANCELED)]
  }

  predicate AllHold(guards: seq<Guard>) {
    forall i :: 0 <= i < |guards| ==> guards[i].holds
  }

  /** `k` is the first that does not hold. */
  predicate FirstFails(guards: seq<Guard>, k: nat) {
    k < |guards| && !guards[k].holds && forall i :: 0 <= i < k ==> guards[i].holds
  }

  /** A failure is that of the first guard that does not hold, and success means that all of them do. */
  ghost predicate Decides(guards: seq<Guard>, failure: Option<int>) {
    && (failure.None? <==> AllHold(guards))
    && (forall k: nat :: FirstFails(guards, k) ==> failure == Some(guards[k].error))
  }

  /** The error of the first guard, from `k` on, that does not hold. */
  function Fault(guards: seq<Guard>, k: nat): (fault: Option<int>)
    requires k <= |guards|
    ensures fault.None? <==> forall i :: k <= i < |guards| ==> guards[i].holds
    ensures fault.Some? ==> exists i :: k <= i < |guards| && !guards[i].holds && fault.value == guards[i].error
                                        && forall j :: k <= j < i ==> guards[j].holds
    decreases |guards| - k
  {
    if k == |guards| then None else if guards[k].holds then Fault(guards, k + 1) else Some(guards[k].error)
  }

  lemma FaultSteps(guards: seq<Guard>)
    ensures forall k {:trigger Fault(guards, k)} :: 0 <= k < |guards| ==>
              Fault(guards, k) == if guards[k].holds then Fault(guards, k + 1) else Some(guards[k].error)
    ensures Fault(guards, |guards|) == None
  {
    forall k {:trigger Fault(guards, k)} | 0 <= k < |guards|
      ensures Fault(guards, k) == if guards[k].holds then Fault(guards, k + 1) else Some(guards[k].error)
    {
    }
  }

  lemma FaultDecides(guards: seq<Guard>)
    ensures Decides(guards, Fault(guards, 0))
  {
    var fault := Fault(guards, 0);
    forall k: nat | FirstFails(guards, k)
      ensures fault == Some(guards[k].error)
    {
      assert fault.Some?;
      var i :| 0 <= i < |guards| && !guards[i].holds && fault.value == guards[i].error
               && forall j :: 0 <= j < i ==> guards[j].holds;
      assert i == k;
    }
  }

  lemma {:induction false} FaultConcat(a: seq<Guard>, b: seq<Guard>, k: nat)
    requires k <= |a|
    ensures Fault(a + b, k) == if Fault(a, k).Some? then Fault(a, k) else Fault(b, 0)
    decreases |a| - k
  {
    if k == |a| {
      FaultShift(a, b, 0);
    } else {
      FaultConcat(a, b, k + 1);
    }
  }

  lemma {:induction false} FaultShift(a: seq<Guard>, b: seq<Guard>, k: nat)
    requires k <= |b|
    ensures Fault(a + b, |a| + k) == Fault(b, k)
    decreases |b| - k
  {
    if k < |b| {
      FaultShift(a, b, k + 1);
    }
  }

  lemma FileFault(s: Slot, env: Env)
    requires s.state.Activating? && s.target.Some?
    ensures Fault(FileGuards(s.target.value.rw, env), 0) == MountLocalFile(s, env).failure
  {
    hide Replay;
    FaultSteps(FileGuards(s.target.value.rw, env));
  }

  lemma CifsFault(s: Slot, env: Env)
    requires s.state.Activating? && s.target.Some?
    ensures var t := s.target.value;
            Fault(CifsGuards(t.credentials, env), 0)
            == if !HasLogin(t) then Some(ECONNREFUSED) else MountShare(s, env, false, SmbError(t, env)).failure
  {
    hide Replay;
    FaultSteps(CifsGuards(s.target.value.credentials, env));
  }

  lemma NfsFault(s: Slot, env: Env)
    requires s.state.Activating? && s.target.Some?
    ensures Fault(NfsGuards(env), 0) == MountShare(s, env, true, env.mountError).failure
  {
    hide Replay;
    FaultSteps(NfsGuards(env));
  }

  lemma SocketFault(config: MountPoint, env: Env)
    ensures Fault(SocketGuards(config, env), 0)
         == if !env.socketDirExists && env.socketDirError != 0 then Some(env.socketDirError)
            else if !env.socketDirExists && env.socketPermError != 0 then Some(env.socketPermError)
            else if config.slotNumber < 0 then Some(ECONNREFUSED) else None
  {
    FaultSteps(SocketGuards(config, env));
  }

  /** Past the socket directory and the slot number, the scheme of the image decides. */
  lemma SchemeFault(s: Slot, env: Env)
    requires s.state.Activating? && s.target.Some? && Fault(SocketGuards(s.config, env), 0) == None
    ensures Fault(SchemeGuards(s.target.value, env), 0) == ActivateLegacyMode(s, env).failure
  {
    hide Replay, SocketGuards, CifsGuards, NfsGuards, FileGuards, MountLocalFile, MountShare, SmbError;
    FaultSteps(SchemeGuards(s.target.value, env));
    SocketFault(s.config, env);
    FileFault(s, env);
    CifsFault(s, env);
    NfsFault(s, env);
  }

  lemma LegacyFault(s: Slot, env: Env)
    requires s.state.Activating? && s.target.Some?
    ensures Fault(SocketGuards(s.config, env) + SchemeGuards(s.target.value, env), 0)
         == ActivateLegacyMode(s, env).failure
  {
    hide Replay, SocketGuards, SchemeGuards, MountLocalFile, MountShare, SmbError;
    FaultConcat(SocketGuards(s.config, env), SchemeGuards(s.target.value, env), 0);
    SocketFault(s.config, env);
    if Fault(SocketGuards(s.config, env), 0) == None {
      SchemeFault(s, env);
    }
  }

  /** What activation fails with, if it does. */
  lemma ActivationDecides(s: Slot, env: Env)
    requires s.state.Activating? && (s.config.mode.Proxy? || s.target.Some?)
    ensures Decides(Guards(s.config, s.target, env), Activate(s, env).failure)
  {
    hide Replay, ActivateLegacyMode, MountLocalFile, FileGuards, SocketGuards, SchemeGuards, Decides;
    var r := s.(exitCode := -1);
    var guards := Guards(s.config, s.target, env);
    FaultSteps(guards);
    if !s.config.mode.Proxy? {
      LegacyFault(r, env);
    } else if s.target.Some? {
      FileFault(r, env);
    }
    FaultDecides(guards);
  }

  /** One child is running, and no gadget is configured yet. */
  const JUST_STARTED := Activating(Owned(Some(Process(true)), None))

  /**
   What an accepted mount comes to: the slot is on its way with its child running if and only if all guards hold, and
   otherwise back in Ready with the error of the first that does not.
   */
  lemma MountOutcome(s: Slot, target: Option<Target>, env: Env)
    requires Good(s) && s.state.Ready? && Legal(s, OnEvent(Mount(target), env))
    ensures var (r, refused) := Dispatch(s, Mount(target), env);
            var guards := Guards(s.config, target, env);
            && refused == None
            && (AllHold(guards) <==> r.state == JUST_STARTED)
            && (AllHold(guards) <==> !r.state.Ready?)
            && (forall k: nat :: FirstFails(guards, k) ==> r.state == Ready(Some(guards[k].error)))
            && r.exitCode == -1
  {
    hide Replay, Activate, Guards, ChangeState, AllHold, FirstFails, Notify;
    AcceptUnfolds(s, target, env);
    AdmittedIsFaithful(s, target);
    var e := Admitted(s, target);
    ActivateIsFaithful(e, env);
    ActivationDecides(e, env);
    ActivationResetsCode(e, env);
    var a := Activate(e, env);
    if a.failure.Some? {
      ChangeStateFrame(Notify(a.slot, a.failure.value), Ready(a.failure), env);
      ExitCodeStays(Notify(a.slot, a.failure.value), Ready(a.failure), env);
      NotifyKeepsCode(a.slot, a.failure.value);
    }
  }

  lemma NotifyKeepsCode(s: Slot, code: int)
    requires s.notification.Some?
    ensures Notify(s, code).exitCode == s.exitCode
  {
  }

  lemma ActivationResetsCode(s: Slot, env: Env)
    requires s.state.Activating? && (s.config.mode.Proxy? || s.target.Some?)
    ensures Activate(s, env).slot.exitCode == -1
  {
    hide Replay;
  }

  lemma ExitCodeStays(s: Slot, st: State, env: Env)
    requires !st.Activating?
    ensures ChangeState(s, st, env).exitCode == s.exitCode
  {
    hide Replay;
  }

  // ----- refusals -----

  /** Which error a slot turns an event down with: the state and the kind of event decide, and nothing else. */
  lemma RefusedIff(s: Slot, e: Event, env: Env)
    requires Good(s) && Legal(s, OnEvent(e, env))
    ensures var (r, refused) := Dispatch(s, e, env);
            && (e.Mount? ==>
                  && (refused.Some? <==> s.state.Activating? || s.state.Active? || s.state.Deactivating?)
                  && (refused.Some? ==> refused.value == if s.state.Active? then 1 else 16))
            && (e.Unmount? ==>
                  && (refused.Some? <==> !s.state.Initial? && !s.state.Active?)
                  && (refused.Some? ==> refused.value == if s.state.Ready? then 1 else 16))
            && (e.Register? ==>
                  && (refused.Some? <==> s.state.Activating? || s.state.Active? || s.state.Deactivating?)
                  && (refused.Some? ==> refused.value == if s.state.Active? then 95 else 16))
            && (e.Udev? || e.SubprocessStopped? ==> refused.None?)
            && (refused.Some? ==> r == s)
  {
    hide Replay, ChangeState, Notify;
  }

  // ----- where a slot goes -----

  /** Before it is registered a slot ignores everything, and in Ready all but mounts. */
  lemma IdleIgnores(s: Slot, e: Event, env: Env)
    requires Good(s) && Legal(s, OnEvent(e, env)) && (s.state.Initial? || s.state.Ready?)
    requires if s.state.Initial? then !e.Register? else !e.Mount?
    ensures Dispatch(s, e, env).0 == s
  {
    hide Replay;
  }

  lemma RegistrationIsReady(s: Slot, env: Env)
    requires Good(s) && s.state.Initial?
    ensures Dispatch(s, Register, env).0.state == Ready(None)
  {
    hide Replay, ChangeState, Notify;
    var (h, outcome) := Handle(s, Register, env);
    ChangeStateFrame(h, outcome.next, env);
  }

  /** The events that move a slot in Activating, and where to; what went wrong is told apart by the error. */
  lemma ActivatingGoes(s: Slot, e: Event, env: Env)
    requires Good(s) && Legal(s, OnEvent(e, env)) && s.state.Activating?
    ensures var (r, refused) := Dispatch(s, e, env);
            var status := env.gadgetStatus;
            && (e == Udev(Inserted) && status == 0 ==> r.state == Active(Owned(Some(Process(true)), Some(Gadget(0)))))
            && (e == Udev(Inserted) && status == -2 ==> r.state == Ready(Some(34)))
            && (e == Udev(Inserted) && status != 0 && status != -2 ==> r.state == Ready(Some(22)))
            && (e.Udev? && e.change != Inserted ==> r.state == Deactivating(NOTHING, Some(e.change), false))
            && (e.SubprocessStopped? ==>
                  r.state == Ready(Some(if s.target.Some? && "https://" <= s.target.value.imgUrl then 71 else 2)))
            && (!e.Udev? && !e.SubprocessStopped? ==> refused.Some?)
  {
    hide Replay, ChangeState, Notify;
    var (h, outcome) := Handle(s, e, env);
    if outcome.Goto? {
      ChangeStateFrame(h, outcome.next, env);
    }
  }

  /** Any change, exit or unmount deactivates an active slot, and is remembered as far as it counts there. */
  lemma ActiveGoes(s: Slot, e: Event, env: Env)
    requires Good(s) && Legal(s, OnEvent(e, env)) && s.state.Active?
    ensures var (r, refused) := Dispatch(s, e, env);
            && (e.Udev? ==> r.state == Deactivating(NOTHING, Some(e.change), false))
            && (e.SubprocessStopped? ==> r.state == Deactivating(NOTHING, None, true))
            && (e.Unmount? ==> r.state == Deactivating(NOTHING, None, false) && Pending(r))
            && (e.Mount? || e.Register? ==> refused.Some?)
  {
    hide Replay, ChangeState;
    var (h, outcome) := Handle(s, e, env);
    if outcome.Goto? {
      ChangeStateFrame(h, outcome.next, env);
      EntryKeepsNotification(h, outcome.next, env);
    }
  }

  /** A deactivating slot waits for the other of the two kinds, or is through. */
  lemma DeactivatingGoes(s: Slot, e: Event, env: Env)
    requires Good(s) && Legal(s, OnEvent(e, env)) && s.state.Deactivating?
    ensures var (r, refused) := Dispatch(s, e, env);
            var (udev, stopped) := (s.state.udev, s.state.stopped);
            && (e.Udev? && !stopped ==> r.state == Deactivating(NOTHING, Some(e.change), false))
            && (e.Udev? && stopped ==> r.state == Ready(if e.change == Removed then None else Some(111)))
            && (e.SubprocessStopped? && udev.None? ==> r.state == Deactivating(NOTHING, None, true))
            && (e.SubprocessStopped? && udev.Some? ==>
                  r.state == Ready(if udev.value == Removed then None else Some(111)))
            && (!e.Udev? && !e.SubprocessStopped? ==> refused.Some?)
  {
    hide Replay, ChangeState, Notify;
    var (h, outcome) := Handle(s, e, env);
    if outcome.Goto? {
      ChangeStateFrame(h, outcome.next, env);
    }
  }

  // ----- what a slot remembers -----

  /** The exit code is that of the last exit, until a mount is accepted. */
  lemma ExitCodeAfter(s: Slot, i: Input)
    requires Good(s) && Legal(s, i)
    ensures Step(s, i).exitCode == if i.ChildExit? then i.exitCode
                                   else if s.state.Ready? && i.OnEvent? && i.event.Mount? then -1
                                   else s.exitCode
  {
    hide Replay, ChangeState, Notify, Dispatch;
    if i.OnEvent? && i.event.Mount? && s.state.Ready? {
      MountOutcome(s, i.event.target, i.env);
    } else if i.OnEvent? {
      ExitCodeKept(s, i.event, i.env);
    } else if i.ChildExit? {
      ExitCodeKept(s.(exitCode := i.exitCode), SubprocessStopped, i.env);
    }
  }

  lemma ExitCodeKept(s: Slot, e: Event, env: Env)
    requires Good(s) && Legal(s, OnEvent(e, env)) && !(s.state.Ready? && e.Mount?)
    ensures Dispatch(s, e, env).0.exitCode == s.exitCode
  {
    hide Replay, ChangeState;
    var (h, outcome) := Handle(s, e, env);
    if outcome.Goto? {
      ExitCodeStays(h, outcome.next, env);
    }
  }

  /** A Mount call records its client in Ready and nowhere else, and does nothing more. */
  lemma MountCallRecords(s: Slot, info: string)
    requires Good(s)
    ensures Step(s, MountCall(info)) == if s.state.Ready? then s.(additionalInfo := info) else s
  {
  }

  /** Waits of the notification timer that have not been completed. */
  function OpenWaits(s: Slot): nat {
    if s.notification.None? then 0
    else One(s.notification.value.armed) + s.notification.value.aborted + s.notification.value.expired
  }

  /** The request is one that starts a notification. */
  predicate Starts(s: Slot, i: Input) {
    i.OnEvent? && ((s.state.Ready? && i.event.Mount?) || (s.state.Active? && i.event.Unmount?))
  }

  predicate Completes(s: Slot, i: Input) {
    s.notification.Some? && ((i.RunAborted? && s.notification.value.aborted > 0)
                             || (i.RunExpired? && s.notification.value.expired > 0))
  }

  /** Every start opens one wait, and every wait is completed once: nothing else opens or closes any. */
  lemma WaitsAreCompletedOnce(s: Slot, i: Input)
    requires Good(s) && Legal(s, i)
    ensures OpenWaits(Step(s, i)) == OpenWaits(s) + One(Starts(s, i)) - One(Completes(s, i))
  {
    hide Replay, Dispatch;
    if i.OnEvent? {
      OpenWaitsAfter(s, i.event, i.env);
    } else if i.ChildExit? {
      OpenWaitsAfter(s.(exitCode := i.exitCode), SubprocessStopped, i.env);
    }
  }

  lemma OpenWaitsAfter(s: Slot, e: Event, env: Env)
    requires Good(s) && Legal(s, OnEvent(e, env))
    ensures OpenWaits(Dispatch(s, e, env).0) == OpenWaits(s) + One(Starts(s, OnEvent(e, env)))
  {
    hide Replay, ChangeState, Activate;
    var (h, outcome) := Handle(s, e, env);
    if s.state.Ready? && e.Mount? {
      hide Dispatch, Handle;
      AcceptUnfolds(s, e.target, env);
      var a := Activate(Admitted(s, e.target), env);
      assert Continues(Admitted(s, e.target), a.slot);
      if a.failure.Some? {
        EntryKeepsNotification(Notify(a.slot, a.failure.value), Ready(a.failure), env);
      }
    } else if outcome.Goto? {
      EntryKeepsNotification(h, outcome.next, env);
    }
  }
}
