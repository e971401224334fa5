/** The externally visible history of one slot and the rules every history has to obey. */
module Trace {
  import opened Wrappers

  datatype Phase = InInitial | InReady | InActivating | InActive | InDeactivating

  datatype Entry =
    | Accepted
    | Started
    | Signal(code: int)
    | Cleared
    | Entered(phase: Phase)
    | DirectoryCreated
    | DirectoryRemoved
    | ShareMounted
    | ShareUnmounted
    | ProcessSpawned
    | StopRequested
    | GadgetConfigured
    | GadgetRemoved

  /** What is outstanding at some point of a history; `promised` means that a success has just been signalled. */
  datatype Ledger = Ledger(
    phase: Phase, admitted: bool, pending: bool, promised: bool,
    directory: bool, share: bool, process: bool, gadget: bool)

  const BLANK := Ledger(InInitial, false, false, false, false, false, false, false)

  predicate NothingHeld(l: Ledger) {
    !l.directory && !l.share && !l.process && !l.gadget
  }

  /** Where a success that is signalled in `phase` leads, at once. */
  function Promise(phase: Phase): Phase {
    if phase == InActivating then InActive else InReady
  }

  /** The rule book: whether `e` may come next, given what is outstanding. */
  predicate Allowed(l: Ledger, e: Entry) {
    (l.promised ==> e == Entered(Promise(l.phase))) && Fits(l, e)
  }

  predicate Fits(l: Ledger, e: Entry) {
    match e
    case Accepted => l.phase == InReady && !l.admitted && !l.pending && NothingHeld(l)
    case Started => !l.pending && ((l.phase == InReady && l.admitted) || l.phase == InActive)
    case Signal(_) => l.pending && (l.phase == InActivating || (l.phase == InDeactivating && !l.process && !l.gadget))
    case Cleared => l.pending && (l.phase == InActivating || l.phase == InDeactivating)
    case Entered(InInitial) => false
    case Entered(InReady) =>
      !l.pending && !l.process && !l.gadget
      && (l.phase == InInitial || l.phase == InActivating || l.phase == InDeactivating)
    case Entered(InActivating) => l.phase == InReady && l.admitted && l.pending && NothingHeld(l)
    case Entered(InActive) => l.phase == InActivating && !l.pending && l.process && l.gadget
    case Entered(InDeactivating) => (l.phase == InActivating && l.process && !l.gadget)
                                    || (l.phase == InActive && l.process && l.gadget)
    case DirectoryCreated => l.phase == InActivating && NothingHeld(l)
    case DirectoryRemoved => l.directory && !l.share && !l.process && !l.gadget
    case ShareMounted => l.phase == InActivating && l.directory && !l.share && !l.process
    case ShareUnmounted => l.share && !l.process && !l.gadget
    case ProcessSpawned => l.phase == InActivating && !l.process && !l.gadget && l.directory == l.share
    case StopRequested => l.process && !l.gadget
    case GadgetConfigured => l.phase == InActivating && l.process && !l.gadget
    case GadgetRemoved => l.gadget
  }

  function Next(l: Ledger, e: Entry): Ledger {
    Enter(l, e).(promised := e == Signal(0))
  }

  function Enter(l: Ledger, e: Entry): Ledger {
    match e
    case Accepted => l.(admitted := true)
    case Started => l.(pending := true)
    case Signal(_) => l.(pending := false)
    case Cleared => l.(pending := false)
    case Entered(p) => l.(phase := p, admitted := false)
    case DirectoryCreated => l.(directory := true)
    case DirectoryRemoved => l.(directory := false)
    case ShareMounted => l.(share := true)
    case ShareUnmounted => l.(share := false)
    case ProcessSpawned => l.(process := true)
    case StopRequested => l.(process := false)
    case GadgetConfigured => l.(gadget := true)
    case GadgetRemoved => l.(gadget := false)
  }

  function Then(l: Option<Ledger>, e: Entry): Option<Ledger> {
    if l.Some? && Allowed(l.value, e) then Some(Next(l.value, e)) else None
  }

  /** The ledger after a whole history, or None if some entry broke a rule. */
  function Replay(log: seq<Entry>): Option<Ledger> {
    if log == [] then Some(BLANK) else Then(Replay(log[..|log| - 1]), log[|log| - 1])
  }

  function Count(log: seq<Entry>, e: Entry): nat {
    if log == [] then 0 else Count(log[..|log| - 1], e) + One(log[|log| - 1] == e)
  }

  /** Completion signals sent, whatever code they carry. */
  function Signals(log: seq<Entry>): nat {
    if log == [] then 0 else Signals(log[..|log| - 1]) + One(log[|log| - 1].Signal?)
  }

  function One(b: bool): nat {
    if b then 1 else 0
  }

  datatype Resource = Directory | MountedShare | Child | UsbGadget

  function Acquire(r: Resource): Entry {
    match r
    case Directory => DirectoryCreated
    case MountedShare => ShareMounted
    case Child => ProcessSpawned
    case UsbGadget => GadgetConfigured
  }

  function Release(r: Resource): Entry {
    match r
    case Directory => DirectoryRemoved
    case MountedShare => ShareUnmounted
    case Child => StopRequested
    case UsbGadget => GadgetRemoved
  }

  predicate Holds(l: Ledger, r: Resource) {
    match r
    case Directory => l.directory
    case MountedShare => l.share
    case Child => l.process
    case UsbGadget => l.gadget
  }

  /** How many of `r` have been acquired and not released. */
  function Outstanding(log: seq<Entry>, r: Resource): int {
    Count(log, Acquire(r)) - Count(log, Release(r))
  }

  lemma StartsEmpty(r: Resource)
    ensures !Holds(BLANK, r)
  {
  }

  lemma HoldsOne(l: Ledger, e: Entry, r: Resource)
    requires Allowed(l, e)
    ensures One(Holds(Next(l, e), r)) == One(Holds(l, r)) + One(e == Acquire(r)) - One(e == Release(r))
  {
  }

  /** Ownership is linear: never two of a kind, never a release of something not held. */
  lemma {:induction false} Conservation(log: seq<Entry>, r: Resource)
    requires Replay(log).Some?
    ensures Outstanding(log, r) == One(Holds(Replay(log).value, r))
  {
    hide Allowed, Next, Holds;
    if log == [] {
      assert !Holds(BLANK, r) by {
        StartsEmpty(r);
      }
    } else {
      Conservation(log[..|log| - 1], r);
      HoldsOne(Replay(log[..|log| - 1]).value, log[|log| - 1], r);
    }
  }

  lemma {:induction false} PrefixReplay(log: seq<Entry>, i: nat)
    requires Replay(log).Some? && i < |log|
    ensures Replay(log[..i]).Some? && Allowed(Replay(log[..i]).value, log[i])
  {
    var shorter := log[..|log| - 1];
    if i < |shorter| {
      PrefixReplay(shorter, i);
      assert shorter[..i] == log[..i];
    }
  }

  /**
   The order of teardown at point `i`, stated on counts alone: a child is stopped only after every gadget is gone,
   a share unmounted only after that, its directory removed only after that, and a mount is accepted
   only when nothing at all is left over from an earlier one.
   */
  predicate ReleasedInOrder(log: seq<Entry>, i: nat)
    requires i < |log|
  {
    && (log[i] in {StopRequested, ShareUnmounted, DirectoryRemoved, Accepted} ==> Outstanding(log[..i], UsbGadget) == 0)
    && (log[i] in {ShareUnmounted, DirectoryRemoved, Accepted} ==> Outstanding(log[..i], Child) == 0)
    && (log[i] in {DirectoryRemoved, Accepted} ==> Outstanding(log[..i], MountedShare) == 0)
    && (log[i] == Accepted ==> Outstanding(log[..i], Directory) == 0)
  }

  lemma TeardownOrder(log: seq<Entry>, i: nat)
    requires Replay(log).Some? && i < |log|
    ensures ReleasedInOrder(log, i)
    ensures log[i] == ShareUnmounted ==> Outstanding(log[..i], MountedShare) == 1
    ensures log[i] == ShareMounted ==> Outstanding(log[..i], Directory) == 1
  {
    hide Allowed, Outstanding;
    PrefixReplay(log, i);
    var l := Replay(log[..i]).value;
    ReleasesInOrder(l, log[i]);
    forall r: Resource {
      Conservation(log[..i], r);
    }
  }

  lemma ReleasesInOrder(l: Ledger, e: Entry)
    requires Allowed(l, e)
    ensures e in {StopRequested, ShareUnmounted, DirectoryRemoved, Accepted} ==> !l.gadget
    ensures e in {ShareUnmounted, DirectoryRemoved, Accepted} ==> !l.process
    ensures e in {DirectoryRemoved, Accepted} ==> !l.share
    ensures e == Accepted ==> !l.directory
    ensures e == ShareUnmounted ==> l.share
    ensures e == ShareMounted ==> l.directory
  {
  }

  /** Every start of a notification ends in one signal, is cleared by a timer completion, or is pending. */
  lemma {:induction false} NotificationConservation(log: seq<Entry>)
    requires Replay(log).Some?
    ensures Count(log, Started)
         == Signals(log) + Count(log, Cleared) + One(Replay(log).value.pending)
  {
    hide Allowed, Next;
    if log != [] {
      NotificationConservation(log[..|log| - 1]);
      PendsOnce(Replay(log[..|log| - 1]).value, log[|log| - 1]);
    }
  }

  lemma PendsOnce(l: Ledger, e: Entry)
    requires Allowed(l, e)
    ensures One(Next(l, e).pending) == One(l.pending) + One(e == Started) - One(e.Signal?) - One(e == Cleared)
  {
  }

  predicate Settles(e: Entry) {
    e == Entered(InReady) || e == Entered(InActive)
  }

  /** Signals and clearings up to `i`: the ways a start comes to an end. */
  function Outcomes(log: seq<Entry>): nat {
    Signals(log) + Count(log, Cleared)
  }

  /** A start has been made and the slot has not settled since. */
  predicate Underway(l: Ledger) {
    (l.phase == InReady && l.admitted && l.pending) || (l.phase == InActive && l.pending)
    || l.phase == InActivating || l.phase == InDeactivating
  }

  lemma StaysUnderway(l: Ledger, e: Entry)
    requires Underway(l) && Allowed(l, e) && !Settles(e)
    ensures e != Started && Underway(Next(l, e))
  {
  }

  lemma StartIsUnderway(l: Ledger)
    requires Allowed(l, Started)
    ensures Underway(Next(l, Started))
  {
  }

  /** Until the slot next settles, no second start can follow the one at `i`. */
  lemma {:induction false} NoSecondStart(log: seq<Entry>, i: nat, j: nat)
    requires Replay(log).Some? && i < j <= |log| && log[i] == Started
    requires forall k :: i < k < j ==> !Settles(log[k])
    ensures Replay(log[..j]).Some? && Underway(Replay(log[..j]).value)
    ensures Count(log[..j], Started) == Count(log[..i], Started) + 1
  {
    hide Allowed, Next, Underway, Settles;
    PrefixReplay(log, j - 1);
    assert log[..j][..j - 1] == log[..j - 1];
    if i + 1 < j {
      NoSecondStart(log, i, j - 1);
      StaysUnderway(Replay(log[..j - 1]).value, log[j - 1]);
    } else {
      StartIsUnderway(Replay(log[..i]).value);
    }
  }

  /** The slot first settles at `j` after the start at `i`. */
  predicate SettlesNext(log: seq<Entry>, i: nat, j: nat) {
    i < j < |log| && log[i] == Started && Settles(log[j]) && forall k :: i < k < j ==> !Settles(log[k])
  }

  /** Between a start and the next entry to Ready or Active lies exactly one signal or clearing. */
  lemma OneOutcomePerStart(log: seq<Entry>, i: nat, j: nat)
    requires Replay(log).Some? && SettlesNext(log, i, j)
    ensures Outcomes(log[..j]) == Outcomes(log[..i]) + 1
  {
    NoSecondStart(log, i, j);
    PrefixReplay(log, i);
    PrefixReplay(log, j);
    NotificationConservation(log[..i]);
    NotificationConservation(log[..j]);
  }

  predicate StartsMount(log: seq<Entry>, i: nat) {
    0 < i < |log| && log[i - 1] == Accepted && log[i] == Started
  }

  /** A mount that has not settled has been deactivated if it is being deactivated: there is no way back. */
  predicate OnItsWay(l: Ledger, deactivated: bool) {
    && (l.phase == InActivating || l.phase == InDeactivating || (l.phase == InReady && l.admitted))
    && (l.phase == InDeactivating <==> deactivated)
  }

  lemma StaysOnItsWay(l: Ledger, e: Entry, deactivated: bool)
    requires OnItsWay(l, deactivated) && Allowed(l, e) && !Settles(e)
    ensures OnItsWay(Next(l, e), deactivated || e == Entered(InDeactivating))
  {
  }

  lemma {:induction false} MountIsOnItsWay(log: seq<Entry>, i: nat, m: nat)
    requires Replay(log).Some? && StartsMount(log, i) && i < m <= |log|
    requires forall k :: i < k < m ==> !Settles(log[k])
    ensures Replay(log[..m]).Some?
    ensures OnItsWay(Replay(log[..m]).value, Entered(InDeactivating) in log[i..m])
  {
    hide OnItsWay, Allowed, Next, Settles;
    PrefixReplay(log, m - 1);
    assert log[..m][..m - 1] == log[..m - 1];
    assert log[i..m] == log[i..m - 1] + [log[m - 1]];
    if i + 1 < m {
      MountIsOnItsWay(log, i, m - 1);
      StaysOnItsWay(Replay(log[..m - 1]).value, log[m - 1], Entered(InDeactivating) in log[i..m - 1]);
    } else {
      PrefixReplay(log, i - 1);
      assert log[..i][..i - 1] == log[..i - 1];
      StartIsOnItsWay(Replay(log[..i - 1]).value);
    }
  }

  lemma StartIsOnItsWay(l: Ledger)
    requires Allowed(l, Accepted)
    ensures OnItsWay(Next(Next(l, Accepted), Started), false)
  {
  }

  lemma SignalFits(l: Ledger, code: int)
    requires Allowed(l, Signal(code))
    ensures l.phase == InActivating || l.phase == InDeactivating
  {
  }

  /** A success that is signalled settles the slot with the very next entry. */
  lemma SuccessSettles(log: seq<Entry>, j: nat, k: nat)
    requires Replay(log).Some? && k < j < |log| && log[k] == Signal(0)
    requires forall t :: k < t < j ==> !Settles(log[t])
    ensures j == k + 1
    ensures Replay(log[..k]).Some? && log[j] == Entered(Promise(Replay(log[..k]).value.phase))
    ensures Replay(log[..k]).value.phase == InActivating || Replay(log[..k]).value.phase == InDeactivating
  {
    hide Fits;
    PrefixReplay(log, k);
    SignalFits(Replay(log[..k]).value, 0);
    PrefixReplay(log, k + 1);
    assert log[..k + 1][..k] == log[..k];
  }

  /** A mount that starts at `i` and settles at `j`, with success signalled in between. */
  predicate SuccessfulMount(log: seq<Entry>, i: nat, j: nat) {
    SettlesNext(log, i, j) && StartsMount(log, i) && Signal(0) in log[i..j]
  }

  predicate MountedUnlessDeactivated(log: seq<Entry>, i: nat, j: nat) {
    i < j < |log| && (log[j] == Entered(InActive) <==> Entered(InDeactivating) !in log[i..j])
  }

  /** What success is worth: a mount so answered is mounted exactly if the slot was not deactivated on the way. */
  lemma SuccessMeansMountedIff(log: seq<Entry>, i: nat, j: nat)
    requires Replay(log).Some? && SuccessfulMount(log, i, j)
    ensures MountedUnlessDeactivated(log, i, j)
  {
    hide Replay, Allowed;
    var k :| i <= k < j && log[k] == Signal(0);
    SuccessSettles(log, j, k);
    MountIsOnItsWay(log, i, k);
    assert log[i..j] == log[i..k] + [log[k]];
  }

  /** How entries to Ready and to Active relate to accepted mounts while `l` is outstanding. */
  predicate Shaped(l: Ledger, readies: nat, actives: nat, accepted: nat) {
    && readies + One(l.phase != InReady || l.admitted) == 1 + accepted
    && actives + One(l.phase == InActivating || l.admitted) <= accepted
    && (l.admitted ==> l.phase == InReady)
  }

  lemma StaysShaped(l: Ledger, e: Entry, readies: nat, actives: nat, accepted: nat)
    requires Shaped(l, readies, actives, accepted) && Allowed(l, e)
    ensures Shaped(Next(l, e), readies + One(e == Entered(InReady)), actives + One(e == Entered(InActive)),
                   accepted + One(e == Accepted))
  {
  }

  /** One entry to Ready by registration, and one more for every accepted mount that came back to it. */
  lemma {:induction false} RunShape(log: seq<Entry>)
    requires Replay(log).Some?
    ensures Shaped(Replay(log).value, Count(log, Entered(InReady)), Count(log, Entered(InActive)), Count(log, Accepted))
  {
    hide Allowed, Next, Shaped;
    if log == [] {
      assert Shaped(BLANK, 0, 0, 0) by {
        StartsShaped();
      }
    } else {
      var before := log[..|log| - 1];
      RunShape(before);
      StaysShaped(Replay(before).value, log[|log| - 1], Count(before, Entered(InReady)),
                  Count(before, Entered(InActive)), Count(before, Accepted));
    }
  }

  lemma StartsShaped()
    ensures Shaped(BLANK, 0, 0, 0)
  {
  }
}
