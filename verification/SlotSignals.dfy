/** What a client is told: the code of the Completion signal against the state the slot settles in. */
module SlotSignals {
  import opened Wrappers
  import opened Events
  import opened Trace
  import opened SlotModel
  import opened SlotSafety
  import SlotRuns

  function LastSignal(log: seq<Entry>): Option<int> {
    if log == [] then None
    else if log[|log| - 1].Signal? then Some(log[|log| - 1].code)
    else LastSignal(log[..|log| - 1])
  }

  /** No signal was sent between the two. */
  predicate Quiet(a: Slot, b: Slot) {
    Signals(b.log) == Signals(a.log) && LastSignal(b.log) == LastSignal(a.log)
  }

  /** Exactly one signal was sent between the two, and it carried `code`. */
  predicate Told(a: Slot, b: Slot, code: int) {
    Signals(b.log) == Signals(a.log) + 1 && LastSignal(b.log) == Some(code)
  }

  lemma EmitQuiet(s: Slot, e: Entry)
    requires !e.Signal?
    ensures Quiet(s, Emit(s, e))
  {
    assert (s.log + [e])[..|s.log|] == s.log;
  }

  lemma NotifyTells(s: Slot, code: int)
    requires s.notification.Some?
    ensures if Pending(s) then Told(s, Notify(s, code), code) else Notify(s, code) == s
  {
    assert (s.log + [Signal(code)])[..|s.log|] == s.log;
  }

  lemma ReleaseOwnedQuiet(s: Slot, owned: Owned)
    ensures Quiet(s, ReleaseOwned(s, owned))
  {
    hide Replay, LastSignal, Signals;
    EmitQuiet(s, GadgetRemoved);
    EmitQuiet(ReleaseGadget(s, owned.gadget), StopRequested);
  }

  lemma ReleaseShareQuiet(s: Slot, share: Option<Share>)
    ensures Quiet(s, ReleaseShare(s, share))
  {
    hide Replay, LastSignal, Signals;
    EmitQuiet(s, ShareUnmounted);
    EmitQuiet(Emit(s, ShareUnmounted), DirectoryRemoved);
  }

  lemma ReleaseTargetQuiet(s: Slot)
    ensures Quiet(s, ReleaseTarget(s))
  {
    hide Replay, LastSignal, Signals, ReleaseShare;
    if s.target.Some? {
      ReleaseShareQuiet(s, s.target.value.mountPointNfs);
      ReleaseShareQuiet(ReleaseShare(s, s.target.value.mountPointNfs), s.target.value.mountPoint);
    }
  }

  lemma MountShareQuiet(s: Slot, env: Env, nfs: bool, error: int)
    requires s.state.Activating? && s.target.Some?
    ensures Quiet(s, MountShare(s, env, nfs, error).slot)
  {
    hide Replay, LastSignal, Signals;
    var d := Emit(s, DirectoryCreated);
    EmitQuiet(s, DirectoryCreated);
    EmitQuiet(d, DirectoryRemoved);
    EmitQuiet(d, ShareMounted);
    var share := Some(Share("/tmp/" + s.name));
    var t := if nfs then s.target.value.(mountPointNfs := share) else s.target.value.(mountPoint := share);
    EmitQuiet(Emit(d, ShareMounted).(target := Some(t)), ProcessSpawned);
  }

  lemma ActivateQuiet(s: Slot, env: Env)
    requires s.state.Activating? && (s.config.mode.Proxy? || s.target.Some?)
    ensures Quiet(s, Activate(s, env).slot)
  {
    hide Replay, LastSignal, Signals, MountShare;
    var r := s.(exitCode := -1);
    EmitQuiet(r, ProcessSpawned);
    if r.target.Some? {
      MountShareQuiet(r, env, false, SmbError(r.target.value, env));
      MountShareQuiet(r, env, true, env.mountError);
    }
  }

  lemma InstallQuiet(s: Slot, st: State)
    ensures Quiet(s, Emit(ReleaseState(s.(state := st), s.state), Entered(PhaseOf(st))))
  {
    hide Replay, LastSignal, Signals, ReleaseOwned;
    if Owns(s.state) {
      ReleaseOwnedQuiet(s.(state := st), s.state.owned);
    }
    EmitQuiet(ReleaseState(s.(state := st), s.state), Entered(PhaseOf(st)));
  }

  lemma ChangeStateQuiet(s: Slot, st: State, env: Env)
    requires !st.Activating?
    ensures Quiet(s, ChangeState(s, st, env))
  {
    hide Replay, LastSignal, Signals, ReleaseOwned, ReleaseState, ReleaseTarget;
    InstallQuiet(s, st);
    var e := Emit(ReleaseState(s.(state := st), s.state), Entered(PhaseOf(st)));
    ReleaseTargetQuiet(e);
    if st.Deactivating? {
      ReleaseOwnedQuiet(e.(state := Deactivating(NOTHING, st.udev, st.stopped)), st.owned);
    }
  }

  /** What a settled state stands for in a signal. */
  function CodeOf(st: State): int {
    if st.Ready? && st.error.Some? then st.error.value else 0
  }

  lemma AcceptTells(s: Slot, target: Option<Target>, env: Env)
    requires Good(s) && s.state.Ready? && Legal(s, OnEvent(Mount(target), env))
    ensures var r := Dispatch(s, Mount(target), env).0;
            if r.state.Ready? then Told(s, r, CodeOf(r.state)) else Quiet(s, r)
  {
    hide Replay, LastSignal, Signals, ReleaseOwned, ReleaseTarget, Good;
    var a := Emit(s, Accepted);
    var b := StartNotification(a);
    EmitQuiet(s, Accepted);
    EmitQuiet(a.(notification := b.notification), Started);
    var m := if target.Some? then b.(target := target) else b;
    InstallQuiet(m, Activating(NOTHING));
    var e := Emit(ReleaseState(m.(state := Activating(NOTHING)), m.state), Entered(InActivating));
    ActivateQuiet(e, env);
    var act := Activate(e, env);
    assert Continues(e, act.slot);
    if act.failure.Some? {
      FailureIsNotZero(e, env);
      NotifyTells(act.slot, act.failure.value);
      ChangeStateQuiet(Notify(act.slot, act.failure.value), Ready(act.failure), env);
    }
  }

  lemma DispatchTells(s: Slot, e: Event, env: Env)
    requires Good(s) && Legal(s, OnEvent(e, env)) && !s.state.Ready?
    ensures var r := Dispatch(s, e, env).0;
            if Pending(s) && (r.state.Ready? || r.state.Active?) then Told(s, r, CodeOf(r.state)) else Quiet(s, r)
  {
    hide Replay, LastSignal, Signals, ReleaseOwned, ReleaseTarget, Notify, StartNotification, ReleaseState, OnEnter;
    var (h, outcome) := Handle(s, e, env);
    HandleTells(s, e, env);
    if outcome.Goto? {
      ChangeStateQuiet(h, outcome.next, env);
      SettledPhase(h, outcome.next, env);
    }
  }

  lemma SettledPhase(s: Slot, st: State, env: Env)
    requires !st.Activating?
    ensures var r := ChangeState(s, st, env).state;
            if st.Deactivating? then r.Deactivating? else r == st
  {
    hide Replay;
  }

  /** The only signal of an event is sent by the state that is about to take over, before it does. */
  predicate TellsByItself(s: Slot, h: Slot, outcome: Outcome) {
    && (outcome.Goto? ==> !outcome.next.Activating? && !outcome.next.Initial?)
    && (if Pending(s) && outcome.Goto? && (outcome.next.Ready? || outcome.next.Active?)
        then Told(s, h, CodeOf(outcome.next)) else Quiet(s, h))
    && (!outcome.Goto? ==> && h.state.Initial? == s.state.Initial? && !h.state.Ready?
                           && (h.state.Active? ==> s.state.Active?))
  }

  lemma BecomeReadyTells(s: Slot, code: int)
    requires s.notification.Some?
    ensures var (h, outcome) := BecomeReady(s, code);
            TellsByItself(s, h, outcome)
  {
    hide Replay, LastSignal, Signals;
    NotifyTells(s, code);
  }

  lemma ActivatingTells(s: Slot, e: Event, env: Env)
    requires Good(s) && s.state.Activating?
    ensures var (h, outcome) := HandleInActivating(s, e, env);
            TellsByItself(s, h, outcome)
  {
    hide Replay, LastSignal, Signals;
    match e
    case Udev(Inserted) =>
      var gadget := Some(Gadget(env.gadgetStatus));
      EmitQuiet(s, GadgetConfigured);
      var g := Emit(s, GadgetConfigured).(state := Activating(s.state.owned.(gadget := gadget)));
      if env.gadgetStatus == 0 {
        NotifyTells(MoveOut(g), 0);
      } else {
        BecomeReadyTells(g, if env.gadgetStatus == -2 then ERANGE else EINVAL);
      }
    case Udev(_) =>
    case SubprocessStopped =>
      BecomeReadyTells(s, if s.target.Some? && HasScheme("https://", s.target.value.imgUrl) then EPROTO else ENOENT);
    case _ =>
  }

  lemma HandleTells(s: Slot, e: Event, env: Env)
    requires Good(s) && !s.state.Ready?
    ensures var (h, outcome) := Handle(s, e, env);
            TellsByItself(s, h, outcome)
    ensures s.state.Active? ==> !Pending(s)
  {
    hide Replay, LastSignal, Signals, HandleInActivating, BecomeReady;
    match s.state
    case Initial =>
      BecomeReadyTells(s.(notification := Some(SILENT)), 0);
    case Activating(_) =>
      ActivatingTells(s, e, env);
    case Active(_) =>
      EmitQuiet(s.(notification := StartNotification(s).notification), Started);
    case Deactivating(owned, udev, stopped) =>
      var last := if e.Udev? then Some(e.change) else udev;
      var d := s.(state := Deactivating(owned, last, stopped || e.SubprocessStopped?));
      BecomeReadyTells(d, 0);
      BecomeReadyTells(d, ECONNREFUSED);
  }

  /** The step settles a pending request, or turns a mount down on the spot. */
  predicate Answers(s: Slot, i: Input)
    requires Legal(s, i)
  {
    var r := Step(s, i);
    if s.state.Ready? then i.OnEvent? && i.event.Mount? && r.state.Ready?
    else Pending(s) && (r.state.Ready? || r.state.Active?)
  }

  /**
   A pending request is answered when the slot settles in Ready or Active, by one signal carrying exactly
   the error that Ready records, or 0; a mount that fails on the spot is answered likewise; and no other
   step of any kind sends a signal.
   */
  lemma SettlingIsTold(s: Slot, i: Input)
    requires Good(s) && Legal(s, i)
    ensures var r := Step(s, i);
            if Answers(s, i) then Told(s, r, CodeOf(r.state)) else Quiet(s, r)
  {
    hide Replay, LastSignal, Signals, Dispatch;
    match i
    case OnEvent(event, env) => EventIsTold(s, event, env);
    case ChildExit(exitCode, env) => EventIsTold(s.(exitCode := exitCode), SubprocessStopped, env);
    case RunAborted =>
      EmitQuiet(Step(s, i).(log := s.log), Cleared);
    case RunExpired =>
      EmitQuiet(Step(s, i).(log := s.log), Cleared);
    case _ =>
  }

  lemma EventIsTold(s: Slot, e: Event, env: Env)
    requires Good(s) && Legal(s, OnEvent(e, env))
    ensures var r := Dispatch(s, e, env).0;
            var answered := if s.state.Ready? then e.Mount? && r.state.Ready?
                            else Pending(s) && (r.state.Ready? || r.state.Active?);
            if answered then Told(s, r, CodeOf(r.state)) else Quiet(s, r)
  {
    hide Replay, LastSignal, Signals, ChangeState;
    if !s.state.Ready? {
      DispatchTells(s, e, env);
    } else if e.Mount? {
      AcceptTells(s, e.target, env);
    }
  }

  // ----- what an answer is worth -----

  /** An answer of success comes with the slot mounted exactly if the slot was, until then, being activated. */
  lemma SuccessMeansMountedNow(s: Slot, i: Input)
    requires Good(s) && Legal(s, i)
    ensures var r := Step(s, i);
            Told(s, r, 0) ==> (r.state.Active? <==> s.state.Activating?)
                              && (r.state == Ready(None) <==> s.state.Deactivating?)
  {
    hide Replay, LastSignal, Signals, Dispatch;
    SettlingIsTold(s, i);
    var answered := Told(s, Step(s, i), 0);
    if answered && i.OnEvent? {
      AnsweredFrom(s, i.event, i.env);
    } else if answered && i.ChildExit? {
      AnsweredFrom(s.(exitCode := i.exitCode), SubprocessStopped, i.env);
    }
  }

  /** Where a slot that owes an answer can settle. */
  lemma AnsweredFrom(s: Slot, e: Event, env: Env)
    requires Good(s) && Legal(s, OnEvent(e, env)) && (Pending(s) || s.state.Ready?)
    ensures var r := Dispatch(s, e, env).0;
            && (r.state.Active? ==> s.state.Activating?)
            && (r.state.Ready? && CodeOf(r.state) == 0 ==>
                  r == s || (s.state.Deactivating? && r.state == Ready(None)))
  {
    hide Replay, LastSignal, Signals, ChangeState, StartNotification, Notify;
    var (h, outcome) := Handle(s, e, env);
    if s.state.Ready? && e.Mount? {
      hide Handle;
      AcceptUnfolds(s, e.target, env);
      AcceptedSettles(s, e.target, env);
    } else if outcome.Goto? {
      SlotRuns.ChangeStateFrame(h, outcome.next, env);
    }
  }

  lemma AcceptedSettles(s: Slot, target: Option<Target>, env: Env)
    requires Good(s) && s.state.Ready? && Legal(s, OnEvent(Mount(target), env))
    ensures var r := Dispatch(s, Mount(target), env).0.state;
            r.Activating? || (r.Ready? && r.error.Some? && r.error.value != 0)
  {
    hide Replay, LastSignal, Signals, Activate, Dispatch, ReleaseTarget;
    AcceptUnfolds(s, target, env);
    FailureIsNotZero(Admitted(s, target), env);
    assert Continues(Admitted(s, target), Activate(Admitted(s, target), env).slot);
  }

  /** One way it is not mounted: a slot being activated whose device goes away, and whose child then exits. */
  lemma RemovedThenExitIsSuccess(s: Slot, first: Env, exitCode: int, second: Env)
    requires Good(s) && s.state.Activating? && Pending(s)
    ensures var removed := Step(s, OnEvent(Udev(Removed), first));
            && Legal(removed, ChildExit(exitCode, second))
            && var r := Step(removed, ChildExit(exitCode, second));
               Quiet(s, removed) && Told(removed, r, 0) && r.state == Ready(None)
  {
    hide Replay, LastSignal, Signals, Step, Told, Quiet;
    var removal, exit := OnEvent(Udev(Removed), first), ChildExit(exitCode, second);
    StepIsGood(s, removal);
    RemovalDeactivates(s, first);
    ExitAfterRemoval(Step(s, removal), exitCode, second);
    SettlingIsTold(s, removal);
    SettlingIsTold(Step(s, removal), exit);
  }

  lemma RemovalDeactivates(s: Slot, env: Env)
    requires Good(s) && s.state.Activating?
    ensures var r := Step(s, OnEvent(Udev(Removed), env));
            r.state == Deactivating(NOTHING, Some(Removed), false) && Pending(r) == Pending(s)
  {
    hide Replay, LastSignal, Signals, ChangeState;
    var next := Deactivating(s.state.owned, Some(Removed), false);
    SlotRuns.ChangeStateFrame(MoveOut(s), next, env);
    EntryKeepsNotification(MoveOut(s), next, env);
  }

  lemma ExitAfterRemoval(s: Slot, exitCode: int, env: Env)
    requires Good(s) && s.state == Deactivating(NOTHING, Some(Removed), false)
    ensures Step(s, ChildExit(exitCode, env)).state == Ready(None)
  {
    hide Replay, LastSignal, Signals, ChangeState;
    var (h, outcome) := Handle(s.(exitCode := exitCode), SubprocessStopped, env);
    SlotRuns.ChangeStateFrame(h, Ready(None), env);
  }

  lemma ReleasesGrow(s: Slot, st: State)
    ensures s.log <= ReleaseState(s, st).log && s.log <= ReleaseTarget(s).log
  {
    hide Replay;
  }

  lemma ChangeStateGrows(s: Slot, st: State, env: Env)
    requires !st.Activating?
    ensures s.log <= ChangeState(s, st, env).log
  {
    hide Replay, ReleaseState, ReleaseTarget;
    ReleasesGrow(s.(state := st), s.state);
    var e := Emit(ReleaseState(s.(state := st), s.state), Entered(PhaseOf(st)));
    ReleasesGrow(e, st);
    if st.Deactivating? {
      ReleasesGrow(e.(state := Deactivating(NOTHING, st.udev, st.stopped)), st);
    }
  }

  predicate IsInsertion(s: Slot, i: Input) {
    s.state.Activating? && i.OnEvent? && i.event == Udev(Inserted)
  }

  /** Once a request is pending, its answer goes out before anything is torn down for it. */
  lemma PendingAnswer(s: Slot, i: Input)
    requires Good(s) && Legal(s, i) && Pending(s)
    ensures var r := Step(s, i);
            var at := s.log + if IsInsertion(s, i) then [GadgetConfigured] else [];
            && (r.state.Ready? || r.state.Active? ==> at + [Signal(CodeOf(r.state))] <= r.log)
            && Outstanding(at, Child) == One(s.state.Activating?)
            && Outstanding(at, UsbGadget) == One(IsInsertion(s, i))
            && Outstanding(at, MountedShare) == Outstanding(at, Directory) == One(HasShare(s))
  {
    hide Replay, LastSignal, Signals, Outstanding, Dispatch;
    var at := s.log + if IsInsertion(s, i) then [GadgetConfigured] else [];
    if i.OnEvent? {
      AnswerComesFirst(s, i.event, i.env);
    } else if i.ChildExit? {
      AnswerComesFirst(s.(exitCode := i.exitCode), SubprocessStopped, i.env);
    }
    assert Replay(at) == Some(LedgerOf(s).(gadget := IsInsertion(s, i))) by {
      if IsInsertion(s, i) {
        ReplayInsertion(s);
      }
      assert s.log + [] == s.log;
    }
    forall r: Resource {
      Conservation(at, r);
    }
  }

  /** What a mount needs in order to get as far as a mounted share: the guards of legacy activation up to there. */
  predicate MountsShare(config: MountPoint, t: Target, env: Env) {
    && !config.mode.Proxy? && config.slotNumber >= 0
    && (env.socketDirExists || (env.socketDirError == 0 && env.socketPermError == 0))
    && env.directoryCreated
    && (if HasScheme("smb://", t.imgUrl) then HasLogin(t) && SmbError(t, env) == 0
        else HasScheme("nfs://", t.imgUrl) && env.mountError == 0)
  }

  lemma SchemesDiffer(url: string)
    ensures HasScheme("smb://", url) ==>
              !IsLocalFile(url) && !HasScheme("https://", url) && !HasScheme("nfs://", url)
    ensures HasScheme("nfs://", url) ==> !IsLocalFile(url) && !HasScheme("https://", url)
  {
    assert url != "" && LOCAL_PREFIX <= url ==> url[0] == '/';
    assert url != "" && "smb://" <= url ==> url[0] == 's';
    assert url != "" && "https://" <= url ==> url[0] == 'h';
    assert url != "" && "nfs://" <= url ==> url[0] == 'n';
  }

  lemma ShareAfterActivation(s: Slot, env: Env)
    requires s.state.Activating? && (s.config.mode.Proxy? || s.target.Some?)
    requires s.target.Some? ==> Unmounted(s.target.value)
    ensures HasShare(Activate(s, env).slot) <==> s.target.Some? && MountsShare(s.config, s.target.value, env)
  {
    hide Replay, HasScheme, IsLocalFile, HasLogin, SmbError;
    if s.target.Some? {
      SchemesDiffer(s.target.value.imgUrl);
    }
  }

  /** Where a mount that was just accepted stands when activation has done what it can. */
  function Attempted(s: Slot, target: Option<Target>, env: Env): Slot
    requires s.notification.Some? && CanEnter(Admitted(s, target), Activating(NOTHING))
  {
    Activate(Admitted(s, target), env).slot
  }

  /**
   A mount that fails at once is answered when activation has given up: no child and no gadget are outstanding then,
   and a share with its directory exactly if it could be mounted.
   */
  lemma FailedMountAnswer(s: Slot, target: Option<Target>, env: Env)
    requires Good(s) && s.state.Ready? && Legal(s, OnEvent(Mount(target), env))
    ensures CanEnter(Admitted(s, target), Activating(NOTHING))
    ensures var r := Step(s, OnEvent(Mount(target), env));
            var at := Attempted(s, target, env).log;
            r.state.Ready? ==>
              && at + [Signal(CodeOf(r.state))] <= r.log
              && Outstanding(at, Child) == Outstanding(at, UsbGadget) == 0
              && Outstanding(at, MountedShare) == Outstanding(at, Directory)
                 == One(target.Some? && MountsShare(s.config, target.value, env))
  {
    hide Replay, LastSignal, Signals, Outstanding, Activate, Dispatch, ChangeState, MountsShare;
    AcceptUnfolds(s, target, env);
    AdmittedIsFaithful(s, target);
    var e := Admitted(s, target);
    ActivateIsFaithful(e, env);
    ShareAfterActivation(e, env);
    var a := Activate(e, env);
    assert Continues(e, a.slot);
    if a.failure.Some? {
      var n := Notify(a.slot, a.failure.value);
      SlotRuns.ChangeStateFrame(n, Ready(a.failure), env);
      ChangeStateGrows(n, Ready(a.failure), env);
      forall r: Resource {
        Conservation(a.slot.log, r);
      }
    }
  }

  /** The history up to the answer that a step sends, if it sends one. */
  function UpToAnswer(s: Slot, i: Input): seq<Entry>
    requires Good(s) && Legal(s, i)
  {
    if s.state.Ready? && i.OnEvent? && i.event.Mount? then Attempted(s, i.event.target, i.env).log
    else s.log + if IsInsertion(s, i) then [GadgetConfigured] else []
  }

  /** The share a client's request has got by the time it is answered. */
  predicate SharedByThen(s: Slot, i: Input) {
    HasShare(s)
    || (s.state.Ready? && i.OnEvent? && i.event.Mount? && i.event.target.Some?
        && MountsShare(s.config, i.event.target.value, i.env))
  }

  /**
   What is still outstanding when any answer goes out: the child exactly if the slot was being activated before the
   step, the gadget exactly if it has just been configured, a share with its directory exactly if there was one or
   the mount that fails has got as far as mounting one.
   */
  lemma AnswerBeforeTeardown(s: Slot, i: Input)
    requires Good(s) && Legal(s, i)
    ensures Answers(s, i) ==>
              var at := UpToAnswer(s, i);
              && at + [Signal(CodeOf(Step(s, i).state))] <= Step(s, i).log
              && Outstanding(at, Child) == One(s.state.Activating?)
              && Outstanding(at, UsbGadget) == One(IsInsertion(s, i))
              && Outstanding(at, MountedShare) == Outstanding(at, Directory) == One(SharedByThen(s, i))
  {
    hide Replay, LastSignal, Signals, Outstanding, Step, Attempted, MountsShare;
    if Answers(s, i) {
      if s.state.Ready? {
        FailedMountAnswer(s, i.event.target, i.env);
      } else {
        PendingAnswer(s, i);
      }
    }
  }

  lemma ReplayInsertion(s: Slot)
    requires Good(s) && s.state.Activating?
    ensures Replay(s.log + [GadgetConfigured]) == Some(LedgerOf(s).(gadget := true))
  {
    hide Replay;
    assert Emit(s, GadgetConfigured).log == s.log + [GadgetConfigured];
  }

  lemma AnswerComesFirst(s: Slot, e: Event, env: Env)
    requires Good(s) && Legal(s, OnEvent(e, env)) && Pending(s)
    ensures var r := Dispatch(s, e, env).0;
            var before := if IsInsertion(s, OnEvent(e, env)) then [GadgetConfigured] else [];
            r.state.Ready? || r.state.Active? ==> s.log + before + [Signal(CodeOf(r.state))] <= r.log
  {
    hide Replay, LastSignal, Signals, ChangeState;
    var (h, outcome) := Handle(s, e, env);
    if outcome.Goto? {
      SlotRuns.ChangeStateFrame(h, outcome.next, env);
      ChangeStateGrows(h, outcome.next, env);
    }
    assert s.log + [] == s.log;
  }

  // ----- requests that are never answered -----

  /** A pending request goes unanswered exactly when a finished wait of the timer is run before the slot settles. */
  lemma SignalLostIff(s: Slot, i: Input)
    requires Good(s) && Legal(s, i) && Pending(s)
    ensures !Pending(Step(s, i)) && Quiet(s, Step(s, i))
       <==> (i.RunAborted? && s.notification.value.aborted > 0) || (i.RunExpired? && s.notification.value.expired > 0)
  {
    hide Replay, LastSignal, Signals, Dispatch;
    SettlingIsTold(s, i);
    if i.OnEvent? {
      PendingUntilSettled(s, i.event, i.env);
    } else if i.ChildExit? {
      PendingUntilSettled(s.(exitCode := i.exitCode), SubprocessStopped, i.env);
    }
  }

  lemma PendingUntilSettled(s: Slot, e: Event, env: Env)
    requires Good(s) && Legal(s, OnEvent(e, env)) && Pending(s)
    ensures var r := Dispatch(s, e, env).0;
            r.state.Ready? || r.state.Active? || Pending(r)
  {
    hide Replay;
  }

  /** Something is still to come that will end a pending request: the wait for it runs, or has run out. */
  predicate Awaited(s: Slot) {
    Pending(s) ==> s.notification.value.armed || s.notification.value.expired > 0
  }

  lemma DispatchStaysAwaited(s: Slot, e: Event, env: Env)
    requires Good(s) && Legal(s, OnEvent(e, env)) && Awaited(s)
    ensures Awaited(Dispatch(s, e, env).0)
  {
    hide Replay, LastSignal, Signals, ChangeState, Activate;
    var (h, outcome) := Handle(s, e, env);
    if s.state.Ready? && e.Mount? {
      hide Dispatch, Handle;
      AcceptUnfolds(s, e.target, env);
      var a := Activate(Admitted(s, e.target), env);
      assert Continues(Admitted(s, e.target), a.slot);
      if a.failure.Some? {
        EntryKeepsNotification(Notify(a.slot, a.failure.value), Ready(a.failure), env);
      }
    } else if outcome.Goto? {
      EntryKeepsNotification(h, outcome.next, env);
    }
  }

  lemma EntryKeepsNotification(s: Slot, st: State, env: Env)
    requires !st.Activating?
    ensures ChangeState(s, st, env).notification == s.notification
  {
    hide Replay;
  }

  /** A pending request is never forgotten: until it ends, its wait is in flight or its timeout is about to be run. */
  lemma StepStaysAwaited(s: Slot, i: Input)
    requires Good(s) && Legal(s, i) && Awaited(s)
    ensures Awaited(Step(s, i))
  {
    hide Replay, LastSignal, Signals, Dispatch;
    if i.OnEvent? {
      DispatchStaysAwaited(s, i.event, i.env);
    } else if i.ChildExit? {
      DispatchStaysAwaited(s.(exitCode := i.exitCode), SubprocessStopped, i.env);
    }
  }

  lemma {:induction false} RunStaysAwaited(s: Slot, inputs: seq<Input>)
    requires Good(s) && SlotRuns.AllWellFormed(s.config, inputs) && Awaited(s)
    ensures Awaited(SlotRuns.Run(s, inputs))
  {
    hide Replay, Step, Awaited;
    if inputs != [] {
      var before := inputs[..|inputs| - 1];
      RunStaysAwaited(s, before);
      SlotRuns.WellFormedIsLegal(SlotRuns.Run(s, before), inputs[|inputs| - 1]);
      StepStaysAwaited(SlotRuns.Run(s, before), inputs[|inputs| - 1]);
    }
  }

  /** In every run, therefore, a timeout that is let run ends whatever is pending. */
  lemma TimeoutEndsPending(name: string, config: MountPoint, inputs: seq<Input>)
    requires SlotRuns.AllWellFormed(config, inputs)
    ensures var s := SlotRuns.Life(name, config, inputs);
            Pending(s) ==> !Pending(Step(Step(s, TimerExpires), RunExpired))
  {
    hide Replay;
    SlotRuns.FreshIsGood(name, config);
    RunStaysAwaited(Fresh(name, config), inputs);
  }

  /** A mount takes no finished wait away; one that fails at once adds one, and one that does not is pending. */
  lemma MountKeepsAborts(s: Slot, target: Option<Target>, env: Env)
    requires Good(s) && s.state.Ready? && Legal(s, OnEvent(Mount(target), env))
    ensures var r := Step(s, OnEvent(Mount(target), env));
            && r.notification.Some? && (r.state.Activating? ==> Pending(r))
            && r.notification.value.aborted >= s.notification.value.aborted + One(r.state.Ready?)
  {
    hide Replay, LastSignal, Signals, ReleaseTarget, Activate;
    var b := StartNotification(Emit(s, Accepted));
    var m := if target.Some? then b.(target := target) else b;
    var e := Emit(ReleaseState(m.(state := Activating(NOTHING)), m.state), Entered(InActivating));
    assert Continues(e, Activate(e, env).slot);
  }

  lemma AbortThenInserted(s: Slot, env: Env)
    requires Good(s) && s.state.Activating? && s.notification.value.aborted > 0 && env.gadgetStatus == 0
    ensures var cleared := Step(s, RunAborted);
            && Legal(cleared, OnEvent(Udev(Inserted), env))
            && var r := Step(cleared, OnEvent(Udev(Inserted), env));
            r.state.Active? && Quiet(s, r)
  {
    hide Replay, LastSignal, Signals, ReleaseOwned;
    StepIsGood(s, RunAborted);
    SettlingIsTold(s, RunAborted);
    SettlingIsTold(Step(s, RunAborted), OnEvent(Udev(Inserted), env));
  }

  /** A first mount fails at once, and a second then starts. */
  predicate FailsThenStarts(s: Slot, first: Input, failed: Slot, second: Input, again: Slot) {
    && first.OnEvent? && first.event.Mount? && Legal(s, first) && failed == Step(s, first) && failed.state.Ready?
    && second.OnEvent? && second.event.Mount? && Legal(failed, second) && again == Step(failed, second)
    && again.state.Activating?
  }

  /**
   The wait may even belong to an earlier request. A mount that fails at once leaves a finished wait behind; if that
   is run only after a second mount has started, the second settles in Active without ever being answered.
   */
  lemma StaleAbortLosesSignal(s: Slot, first: Input, failed: Slot, second: Input, again: Slot, env: Env)
    requires Good(s) && s.state.Ready? && env.gadgetStatus == 0
    ensures FailsThenStarts(s, first, failed, second, again) ==>
              && Pending(again) && Legal(Step(again, RunAborted), OnEvent(Udev(Inserted), env))
              && var r := Step(Step(again, RunAborted), OnEvent(Udev(Inserted), env));
                 r.state.Active? && Quiet(again, r)
  {
    hide Replay, LastSignal, Signals, Step, Legal;
    if FailsThenStarts(s, first, failed, second, again) {
      StepIsGood(s, first);
      StepIsGood(failed, second);
      MountKeepsAborts(s, first.event.target, first.env);
      MountKeepsAborts(failed, second.event.target, second.env);
      AbortThenInserted(again, env);
    }
  }

  /** A mount every slot can be asked for. */
  function PlainTarget(mode: Mode): Option<Target> {
    if mode.Proxy? then None else Some(Target("/tmp/lmedia/image", false, None, None, None))
  }

  /**
   Such a pair of mounts exists for every slot that waits in Ready and can be mounted at all, proxy or legacy:
   no child the first time, one the second.
   */
  lemma StaleAbortIsPossible(s: Slot)
    requires Good(s) && s.state.Ready?
    ensures var first := OnEvent(Mount(PlainTarget(s.config.mode)), ALL_FINE.(childSpawned := false));
            var second := OnEvent(Mount(PlainTarget(s.config.mode)), ALL_FINE);
            && Legal(s, first) && Legal(Step(s, first), second)
            && (FailsThenStarts(s, first, Step(s, first), second, Step(Step(s, first), second))
                <==> s.config.mode.Proxy? || s.config.slotNumber >= 0)
  {
    hide Replay, LastSignal, Signals, ChangeState;
    PlainMount(s, ALL_FINE.(childSpawned := false));
    PlainMount(Step(s, OnEvent(Mount(PlainTarget(s.config.mode)), ALL_FINE.(childSpawned := false))), ALL_FINE);
  }

  lemma PlainMount(s: Slot, env: Env)
    requires Good(s) && s.state.Ready?
    requires env == ALL_FINE || env == ALL_FINE.(childSpawned := false)
    ensures var i := OnEvent(Mount(PlainTarget(s.config.mode)), env);
            && Legal(s, i) && Good(Step(s, i)) && Step(s, i).config == s.config
            && (Step(s, i).state.Activating? || Step(s, i).state.Ready?)
            && (Step(s, i).state.Activating? <==>
                  env.childSpawned && (s.config.mode.Proxy? || s.config.slotNumber >= 0))
  {
    hide Replay, LastSignal, Signals, Dispatch, ReleaseTarget;
    var target := PlainTarget(s.config.mode);
    StepIsGood(s, OnEvent(Mount(target), env));
    SlotRuns.StepFrame(s, OnEvent(Mount(target), env));
    AcceptUnfolds(s, target, env);
  }
}
