/** The global service that lends any free slot to a file of the BMC itself. */
module LocalMedia {
  import opened Wrappers
  import opened Events
  import opened SlotModel
  import opened SlotSafety

  const SLOT_ORDER: seq<string> := ["Slot_0", "Slot_1", "Slot_2", "Slot_3"]

  type Registry = map<string, Slot>

  /** What the file system answers during one call. */
  datatype Files = Files(existing: set<string>, regular: set<string>, cdImages: set<string>)

  datatype Answer = Granted(slot: string) | Rejected(code: int)

  predicate HoldsLocal(s: Slot) {
    s.target.Some? && IsLocalFile(s.target.value.imgUrl)
  }

  /** The slot has a local target whose file can still be found. */
  predicate Serves(registry: Registry, files: Files, name: string) {
    name in registry && HoldsLocal(registry[name]) && registry[name].target.value.imgUrl in files.existing
  }

  predicate Free(registry: Registry, name: string) {
    name in registry && registry[name].state.Ready? && registry[name].target.None?
  }

  /** The first slot of the order, from `i` on, that serves a local file. */
  function CurrentFrom(registry: Registry, files: Files, i: nat): (c: Option<string>)
    requires i <= |SLOT_ORDER|
    ensures c.Some? ==> Serves(registry, files, c.value)
    decreases |SLOT_ORDER| - i
  {
    if i == |SLOT_ORDER| then None
    else if Serves(registry, files, SLOT_ORDER[i]) then Some(SLOT_ORDER[i])
    else CurrentFrom(registry, files, i + 1)
  }

  function Current(registry: Registry, files: Files): (c: Option<string>)
    ensures c.Some? ==> Serves(registry, files, c.value)
  {
    CurrentFrom(registry, files, 0)
  }

  function AvailableFrom(registry: Registry, i: nat): (names: seq<string>)
    requires i <= |SLOT_ORDER|
    ensures forall n :: n in names ==> Free(registry, n)
    decreases |SLOT_ORDER| - i
  {
    if i == |SLOT_ORDER| then []
    else (if Free(registry, SLOT_ORDER[i]) then [SLOT_ORDER[i]] else []) + AvailableFrom(registry, i + 1)
  }

  function Available(registry: Registry): (names: seq<string>)
    ensures forall n :: n in names ==> Free(registry, n)
  {
    AvailableFrom(registry, 0)
  }

  /** The checks of Local.Mount before it looks for a slot, in order. */
  function Refusal(registry: Registry, files: Files, path: string, rw: bool): Option<int> {
    if Current(registry, files).Some? then Some(EBUSY)
    else if !IsLocalFile(path) then Some(EINVAL)
    else if path !in files.existing then Some(ENOENT)
    else if path !in files.regular then Some(EINVAL)
    else if path in files.cdImages && rw then Some(EPERM)
    else None
  }

  function MountAnswer(registry: Registry, files: Files, path: string, rw: bool): (answer: Answer)
    ensures answer.Granted? ==> Free(registry, answer.slot)
  {
    var refusal := Refusal(registry, files, path, rw);
    if refusal.Some? then Rejected(refusal.value)
    else if Available(registry) == [] then Rejected(EBUSY)
    else Granted(Available(registry)[0])
  }

  function LocalTarget(path: string, rw: bool): Target {
    Target(path, rw, None, None, None)
  }

  // ----- what the scans mean -----

  lemma CurrentFromMeaning(registry: Registry, files: Files, i: nat)
    requires i <= |SLOT_ORDER|
    ensures var c := CurrentFrom(registry, files, i);
            && (c.Some? ==> c.value in SLOT_ORDER[i..] && Serves(registry, files, c.value))
            && (c.None? ==> forall j :: i <= j < |SLOT_ORDER| ==> !Serves(registry, files, SLOT_ORDER[j]))
    decreases |SLOT_ORDER| - i
  {
    if i < |SLOT_ORDER| {
      CurrentFromMeaning(registry, files, i + 1);
    }
  }

  lemma CurrentServes(registry: Registry, files: Files)
    ensures Current(registry, files).Some? ==> Serves(registry, files, Current(registry, files).value)
  {
  }

  /** The names of `order` that satisfy being registered and Ready, in order. */
  function ReadyOnes(registry: Registry, order: seq<string>): seq<string> {
    if order == [] then []
    else
      var rest := ReadyOnes(registry, order[1..]);
      if order[0] in registry && registry[order[0]].state.Ready? then [order[0]] + rest else rest
  }

  lemma {:induction false} AvailableFromIsReady(registry: Registry, i: nat)
    requires i <= |SLOT_ORDER| && forall n :: n in registry ==> Good(registry[n])
    ensures AvailableFrom(registry, i) == ReadyOnes(registry, SLOT_ORDER[i..])
    decreases |SLOT_ORDER| - i
  {
    if i < |SLOT_ORDER| {
      AvailableFromIsReady(registry, i + 1);
      assert SLOT_ORDER[i..][1..] == SLOT_ORDER[i + 1..];
    }
  }

  /** In every reachable registry the free slots are simply the registered ones that are Ready, in order. */
  lemma AvailableIsReady(registry: Registry)
    requires forall n :: n in registry ==> Good(registry[n])
    ensures Available(registry) == ReadyOnes(registry, SLOT_ORDER)
  {
    AvailableFromIsReady(registry, 0);
    assert SLOT_ORDER[0..] == SLOT_ORDER;
  }

  lemma {:induction false} AvailableFromMeaning(registry: Registry, i: nat)
    requires i <= |SLOT_ORDER|
    ensures forall n :: n in AvailableFrom(registry, i) <==> n in SLOT_ORDER[i..] && Free(registry, n)
    decreases |SLOT_ORDER| - i
  {
    if i < |SLOT_ORDER| {
      AvailableFromMeaning(registry, i + 1);
      assert SLOT_ORDER[i..] == [SLOT_ORDER[i]] + SLOT_ORDER[i + 1..];
    }
  }

  /** One round of the collecting loop. */
  lemma AvailableStep(registry: Registry, i: nat, collected: seq<string>)
    requires i < |SLOT_ORDER|
    ensures collected + AvailableFrom(registry, i)
         == (if Free(registry, SLOT_ORDER[i]) then collected + [SLOT_ORDER[i]] else collected)
            + AvailableFrom(registry, i + 1)
  {
  }

  lemma AvailableEnd(registry: Registry)
    ensures AvailableFrom(registry, |SLOT_ORDER|) == []
  {
  }

  predicate Mountable(files: Files, path: string, rw: bool) {
    IsLocalFile(path) && path in files.existing && path in files.regular && !(path in files.cdImages && rw)
  }

  /**
   Exactly when Local.Mount succeeds: no slot of the order serves a local file, the file may be served,
   and some slot of the order is free; it then uses the first free one.
   */
  lemma GrantedIff(registry: Registry, files: Files, path: string, rw: bool)
    ensures MountAnswer(registry, files, path, rw).Granted?
       <==> && (forall n :: n in SLOT_ORDER ==> !Serves(registry, files, n))
            && Mountable(files, path, rw)
            && (exists n :: n in SLOT_ORDER && Free(registry, n))
    ensures MountAnswer(registry, files, path, rw).Granted?
        ==> var slot := MountAnswer(registry, files, path, rw).slot;
            slot == Available(registry)[0] && slot in SLOT_ORDER && Free(registry, slot)
  {
    CurrentFromMeaning(registry, files, 0);
    AvailableFromMeaning(registry, 0);
    assert SLOT_ORDER[0..] == SLOT_ORDER;
    if Available(registry) != [] {
      assert Available(registry)[0] in Available(registry);
    }
  }

  /**
   The scans agree: wherever the slots are in order, a mount is turned down as busy exactly when something is
   already served or nothing is Ready for a request that would otherwise do, and it goes to the first that is Ready.
   */
  lemma ScansAgree(registry: Registry, files: Files, path: string, rw: bool)
    requires forall n :: n in registry ==> Good(registry[n])
    ensures var answer := MountAnswer(registry, files, path, rw);
            var ready := ReadyOnes(registry, SLOT_ORDER);
            && Available(registry) == ready
            && (answer == Rejected(EBUSY)
                <==> Current(registry, files).Some? || (Mountable(files, path, rw) && ready == []))
            && (answer.Granted? <==> Current(registry, files).None? && Mountable(files, path, rw) && ready != [])
            && (answer.Granted? ==> answer.slot == ready[0])
  {
    hide Good, ReadyOnes, AvailableFrom, CurrentFrom;
    AvailableIsReady(registry);
  }

  /** The file served is that of the first slot that serves any. */
  lemma CurrentIsFirst(registry: Registry, files: Files, k: nat)
    requires k < |SLOT_ORDER| && Serves(registry, files, SLOT_ORDER[k])
    requires forall j :: 0 <= j < k ==> !Serves(registry, files, SLOT_ORDER[j])
    ensures Current(registry, files) == Some(SLOT_ORDER[k])
  {
    CurrentFromFirst(registry, files, 0, k);
  }

  lemma {:induction false} CurrentFromFirst(registry: Registry, files: Files, i: nat, k: nat)
    requires i <= k < |SLOT_ORDER| && Serves(registry, files, SLOT_ORDER[k])
    requires forall j :: i <= j < k ==> !Serves(registry, files, SLOT_ORDER[j])
    ensures CurrentFrom(registry, files, i) == Some(SLOT_ORDER[k])
    decreases k - i
  {
    if i < k {
      CurrentFromFirst(registry, files, i + 1, k);
    }
  }

  /** With nothing served, which bad request is turned down with which error, and that no other is for its file. */
  lemma BadRequests(registry: Registry, files: Files, path: string, rw: bool)
    requires Current(registry, files).None?
    ensures var answer := MountAnswer(registry, files, path, rw);
            var local := "/tmp/lmedia/" <= path;
            && (answer == Rejected(22) <==> !local || (path in files.existing && path !in files.regular))
            && (answer == Rejected(2) <==> local && path !in files.existing)
            && (answer == Rejected(1) <==> local && path in files.existing && path in files.regular
                                           && path in files.cdImages && rw)
            && (answer.Rejected? ==> answer.code in {1, 2, 16, 22})
  {
    hide AvailableFrom, CurrentFrom;
  }
}
