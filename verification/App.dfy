/** The application object: it builds the slots, hands them device changes and offers the local-media service. */
module Application {
  import opened Wrappers
  import opened Events
  import opened Monitor
  import opened LocalMedia
  import opened Systems
  import opened SystemRuns
  import Model = SlotModel
  import Slots
  import SlotSafety
  import Trace

  class App {
    const devMonitor: DeviceMonitor
    /** The order in which the sorted map of slots is walked. */
    const order: seq<string>
    var mpsm: map<string, Slots.MountPointStateMachine>
    /** The slots and their notifications. */
    ghost var Repr: set<object>

    /** Every slot is an object of its own, with a notification of its own. */
    ghost predicate Separate()
      reads this, Repr
    {
      forall n :: n in mpsm ==>
            && mpsm[n] in Repr && mpsm[n].name == n
            && mpsm[n].completionNotification != null && mpsm[n].completionNotification in Repr
            && mpsm[n].completionNotification.path == n
    }

    ghost predicate Valid()
      reads this, Repr
    {
      && Separate() && this !in Repr && devMonitor !in Repr
      && (forall n :: n in mpsm <==> n in order)
      && (forall i, j :: 0 <= i < j < |order| ==> order[i] != order[j])
    }

    ghost function SlotViews(): Registry
      reads this, Repr
      requires Separate()
    {
      map n | n in mpsm :: mpsm[n].View()
    }

    ghost function View(): System
      reads this, devMonitor, Repr
      requires Separate()
    {
      System(devMonitor.devices, SlotViews())
    }

    /** Builds and registers every slot; from then on each is Ready and every device counts as removed. */
    constructor (mountPoints: map<string, MountPoint>, order: seq<string>)
      requires forall n :: n in mountPoints <==> n in order
      requires forall i, j :: 0 <= i < j < |order| ==> order[i] != order[j]
      ensures Valid() && fresh(devMonitor) && fresh(Repr)
      ensures View() == Boot(mountPoints)
    {
      devMonitor := new DeviceMonitor();
      this.order, mpsm, Repr := order, map[], {};
      new;
      BootNone();
      AddAll(mountPoints);
      hide Separate;
      assert forall n :: n in mpsm <==> n in SlotViews();
      assert forall n :: n in Boot(mountPoints).slots <==> n in mountPoints;
    }

    method AddAll(mountPoints: map<string, MountPoint>)
      requires Separate() && View() == Boot(map[]) && devMonitor !in Repr && this !in Repr
      requires forall n :: n in mountPoints <==> n in order
      requires forall i, j :: 0 <= i < j < |order| ==> order[i] != order[j]
      modifies this, devMonitor
      ensures Separate() && View() == Boot(mountPoints) && devMonitor !in Repr && this !in Repr
      ensures fresh(Repr - old(Repr))
    {
      hide Separate, Boot;
      ghost var added: map<string, MountPoint> := map[];
      for i := 0 to |order|
        invariant Separate() && devMonitor !in Repr && this !in Repr
        invariant fresh(Repr - old(Repr))
        invariant forall n :: n in added <==> n in order[..i]
        invariant forall n :: n in added ==> n in mountPoints && added[n] == mountPoints[n]
        invariant View() == Boot(added)
      {
        assert order[i] !in added;
        assert order[..i + 1] == order[..i] + [order[i]];
        AddSlot(order[i], mountPoints[order[i]], added);
        added := added[order[i] := mountPoints[order[i]]];
      }
      assert added == mountPoints;
    }

    method Insert(name: string, machine: Slots.MountPointStateMachine, ghost notification: Slots.NotificationWrapper)
      requires Separate() && name !in mpsm && machine !in Repr && notification !in Repr
      requires machine.name == name && machine.completionNotification == notification && notification.path == name
      modifies this
      ensures Separate() && Repr == old(Repr) + {machine, notification}
      ensures SlotViews() == old(SlotViews())[name := machine.View()]
    {
      mpsm := mpsm[name := machine];
      Repr := Repr + {machine, notification};
    }

    method AddSlot(name: string, config: MountPoint, ghost added: map<string, MountPoint>)
      requires Separate() && devMonitor !in Repr && View() == Boot(added) && name !in added
      modifies this, devMonitor
      ensures Separate() && devMonitor !in Repr && View() == Boot(added[name := config])
      ensures old(this !in Repr) ==> this !in Repr
      ensures fresh(Repr - old(Repr))
    {
      hide Registered, Boot, Separate;
      BootOneMore(added, name, config);
      assert mpsm.Keys == SlotViews().Keys;
      ghost var before := SlotViews();
      var machine, notification := NewSlot(name, config);
      Insert(name, machine, notification);
    }

    method NewSlot(name: string, config: MountPoint)
      returns (machine: Slots.MountPointStateMachine, ghost notification: Slots.NotificationWrapper)
      modifies devMonitor
      ensures fresh(machine) && fresh(notification)
      ensures machine.name == name && machine.completionNotification == notification && notification.path == name
      ensures machine.View() == Registered(name, config)
      ensures devMonitor.devices == if config.device in old(devMonitor.devices) then old(devMonitor.devices)
                                    else old(devMonitor.devices)[config.device := Removed]
    {
      hide Model.ChangeState, Trace.Replay;
      machine := new Slots.MountPointStateMachine(devMonitor, name, config);
      var _ := machine.EmitEvent(Register, ALL_FINE);
      RegisteredIsGood(name, config);
      notification := machine.completionNotification;
    }

    /** Delivers one event to one slot, as its D-Bus methods and its children's callbacks do. */
    method EmitTo(name: string, e: Event, env: Env) returns (refused: Option<int>)
      requires Valid() && name in mpsm
      requires !SlotViews()[name].state.Initial? && Model.Admissible(SlotViews()[name], e)
      modifies Repr
      ensures Valid()
      ensures SlotViews() == old(SlotViews())[name := Model.Dispatch(old(SlotViews())[name], e, env).0]
      ensures refused == Model.Dispatch(old(SlotViews())[name], e, env).1
    {
      hide Model.Dispatch, Model.Admissible;
      refused := mpsm[name].EmitEvent(e, env);
    }

    method DeliverTo(name: string, edge: Edge, env: Env)
      requires Valid() && name in mpsm && SlotViews()[name].notification.Some?
      modifies Repr
      ensures Valid()
      ensures SlotViews() == old(SlotViews())[name := Deliver(old(SlotViews())[name], edge, env)]
    {
      hide Model.Dispatch;
      mpsm[name].EmitUdevStateChangeEvent(edge.device, edge.change, env);
    }

    /** The monitor's callback: the change is passed on to every slot, one after the other. */
    method Broadcast(edge: Edge, envs: string -> Env)
      requires Valid() && AllRegistered(SlotViews())
      modifies Repr
      ensures Valid()
      ensures SlotViews() == Told(old(SlotViews()), order, edge, envs)
    {
      hide Deliver, Told, Separate;
      ghost var before := SlotViews();
      TellNone(before, edge, envs);
      assert order[..0] == [];
      for i := 0 to |order|
        invariant Valid()
        invariant SlotViews() == Told(before, order[..i], edge, envs)
      {
        assert order[..i + 1] == order[..i] + [order[i]];
        TellNext(before, order[..i], order[i], edge, envs);
        DeliverTo(order[i], edge, envs(order[i]));
      }
      assert order[..|order|] == order;
    }

    /** A kernel event that changes what the monitor has recorded reaches every slot. */
    method OnKernelEvent(event: KernelEvent, envs: string -> Env)
      requires Valid() && Coupled(View())
      modifies devMonitor, Repr
      ensures Valid()
      ensures View() == Next(old(View()), Kernel(event, envs))
    {
      hide Deliver, Trace.Replay, CoupledTo;
      ghost var before := SlotViews();
      assert AllRegistered(before);
      var edge := devMonitor.Process(event);
      if edge.Some? {
        Broadcast(edge.value, envs);
        TellAll(before, order, edge.value, envs);
      }
    }

    // ----- the local-media service -----

    method FindServing(files: Files) returns (name: Option<string>)
      requires Valid()
      ensures name == Current(SlotViews(), files)
    {
      var i := 0;
      while i < |SLOT_ORDER|
        invariant 0 <= i <= |SLOT_ORDER|
        invariant Current(SlotViews(), files) == CurrentFrom(SlotViews(), files, i)
      {
        if SLOT_ORDER[i] in mpsm {
          var machine := mpsm[SLOT_ORDER[i]];
          if machine.target.Some? && IsLocalFile(machine.target.value.imgUrl)
             && machine.target.value.imgUrl in files.existing {
            return Some(SLOT_ORDER[i]);
          }
        }
        i := i + 1;
      }
      return None;
    }

    /** The slot and path of the local file being served, or the empty string. */
    method GetCurrentMount(files: Files) returns (status: string)
      requires Valid()
      ensures status == "" <==> Current(SlotViews(), files).None?
      ensures var c := Current(SlotViews(), files);
              c.Some? ==> status == c.value + ":" + SlotViews()[c.value].target.value.imgUrl
    {
      var name := FindServing(files);
      if name.None? {
        return "";
      }
      return name.value + ":" + mpsm[name.value].target.value.imgUrl;
    }

    method ListAvailableSlots() returns (available: seq<string>)
      requires Valid()
      ensures available == Available(SlotViews())
    {
      hide AvailableFrom;
      available := [];
      var i := 0;
      while i < |SLOT_ORDER|
        invariant 0 <= i <= |SLOT_ORDER|
        invariant Available(SlotViews()) == available + AvailableFrom(SlotViews(), i)
      {
        AvailableStep(SlotViews(), i, available);
        if SLOT_ORDER[i] in mpsm {
          var machine := mpsm[SLOT_ORDER[i]];
          if machine.state.Ready? && machine.target.None? {
            available := available + [SLOT_ORDER[i]];
          }
        }
        i := i + 1;
      }
      AvailableEnd(SlotViews());
    }

    method FindFree() returns (name: Option<string>)
      requires Valid()
      ensures name == if Available(SlotViews()) == [] then None else Some(Available(SlotViews())[0])
      ensures name.Some? ==> Free(SlotViews(), name.value)
    {
      hide AvailableFrom;
      var i := 0;
      while i < |SLOT_ORDER|
        invariant 0 <= i <= |SLOT_ORDER|
        invariant Available(SlotViews()) == [] + AvailableFrom(SlotViews(), i)
      {
        AvailableStep(SlotViews(), i, []);
        if SLOT_ORDER[i] in mpsm {
          var machine := mpsm[SLOT_ORDER[i]];
          if machine.state.Ready? && machine.target.None? {
            return Some(SLOT_ORDER[i]);
          }
        }
        i := i + 1;
      }
      AvailableEnd(SlotViews());
      return None;
    }

    method LendSlot(name: string, path: string, rw: bool, env: Env)
      requires Valid() && name in mpsm && SlotViews()[name].state.Ready? && SlotViews()[name].notification.Some?
      modifies Repr
      ensures Valid()
      ensures SlotViews() == old(SlotViews())[name := Lend(old(SlotViews())[name], path, rw, env)]
    {
      hide Model.Dispatch;
      mpsm[name].AcceptLocal(LocalTarget(path, rw), env);
    }

    method CheckLocal(path: string, rw: bool, files: Files) returns (refusal: Option<int>)
      requires Valid()
      ensures refusal == Refusal(SlotViews(), files, path, rw)
    {
      var serving := FindServing(files);
      if serving.Some? {
        return Some(EBUSY);
      }
      if !IsLocalFile(path) {
        return Some(EINVAL);
      }
      if path !in files.existing {
        return Some(ENOENT);
      }
      if path !in files.regular {
        return Some(EINVAL);
      }
      if path in files.cdImages && rw {
        return Some(EPERM);
      }
      return None;
    }

    /** Takes the first free slot, unless the request or the state of the slots forbids it. */
    method MountLocal(path: string, rw: bool, files: Files, env: Env) returns (answer: Answer)
      requires Valid() && Coupled(View())
      modifies Repr
      ensures Valid()
      ensures answer == MountAnswer(old(SlotViews()), files, path, rw)
      ensures View() == Next(old(View()), LocalMount(path, rw, files, env))
    {
      hide Separate, Refusal, Available, Lend, Coupled, Next;
      LocalMountStep(View(), path, rw, files, env);
      var refusal := CheckLocal(path, rw, files);
      if refusal.Some? {
        return Rejected(refusal.value);
      }
      var free := FindFree();
      if free.None? {
        return Rejected(EBUSY);
      }
      LendSlot(free.value, path, rw, env);
      return Granted(free.value);
    }

    /** Unmounts the slot that GetCurrentMount names, if there is one; only an active slot does not refuse. */
    method UnmountLocal(files: Files, env: Env) returns (found: bool, refused: Option<int>)
      requires Valid() && Coupled(View())
      modifies Repr
      ensures Valid()
      ensures var current := Current(old(SlotViews()), files);
              && (found <==> current.Some?)
              && refused == if found && !old(SlotViews())[current.value].state.Active? then Some(EBUSY) else None
      ensures View() == Next(old(View()), LocalUnmount(files, env))
    {
      hide Separate, Model.Dispatch, SlotSafety.Good, CoupledTo, Current;
      var name := FindServing(files);
      if name.None? {
        return false, None;
      }
      CurrentServes(SlotViews(), files);
      ClientIsLegal(SlotViews()[name.value], Model.OnEvent(Unmount, env));
      UnmountRefusedIff(SlotViews()[name.value], env);
      refused := EmitTo(name.value, Unmount, env);
      return true, refused;
    }

    // ----- whatever happens -----

    /** One input of one slot, from its D-Bus interface, its children or its timer. */
    method Drive(name: string, input: Model.Input)
      requires Valid() && name in mpsm
      requires !SlotViews()[name].state.Initial? && Model.Legal(SlotViews()[name], input)
      modifies Repr
      ensures Valid()
      ensures SlotViews() == old(SlotViews())[name := Model.Step(old(SlotViews())[name], input)]
    {
      hide Model.Step, Model.Legal;
      mpsm[name].Take(input);
    }

    method OnClient(name: string, input: Model.Input)
      requires Valid() && Coupled(View()) && Permitted(View(), Client(name, input))
      modifies Repr
      ensures Valid()
      ensures View() == Next(old(View()), Client(name, input))
    {
      hide Separate, Model.Step, SlotSafety.Good, CoupledTo, Model.Legal;
      if name in mpsm {
        ClientIsLegal(SlotViews()[name], input);
        Drive(name, input);
      }
    }

    /** Any action at all: the objects do what the system does. */
    method Act(a: Action)
      requires Valid() && Coupled(View()) && Permitted(View(), a)
      modifies devMonitor, Repr
      ensures Valid()
      ensures View() == Next(old(View()), a) && Coupled(View())
    {
      hide Next, Coupled, Permitted, Separate;
      NextKeepsCoupling(View(), a);
      match a
      case Kernel(event, envs) =>
        OnKernelEvent(event, envs);
      case Client(name, input) =>
        OnClient(name, input);
      case LocalMount(path, rw, files, env) =>
        var _ := MountLocal(path, rw, files, env);
      case LocalUnmount(files, env) =>
        var _, _ := UnmountLocal(files, env);
    }

    /** Any sequence of actions: the objects go through the run of the system. */
    method ActAll(actions: seq<Action>)
      requires Valid() && Coupled(View()) && AllPermitted(View(), actions)
      modifies devMonitor, Repr
      ensures Valid() && Coupled(View())
      ensures View() == RunSystem(old(View()), actions)
    {
      hide Next, Coupled, Permitted, Separate;
      ghost var start := View();
      assert actions[..0] == [];
      for i := 0 to |actions|
        invariant Valid() && Coupled(View())
        invariant View() == RunSystem(start, actions[..i])
      {
        assert actions[..i + 1][..i] == actions[..i];
        assert Permitted(start, actions[i]);
        StaysPermitted(start, View(), actions[i]);
        Act(actions[i]);
      }
      assert actions[..|actions|] == actions;
    }
  }
}
