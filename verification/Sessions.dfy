/** Slots whose session the session manager no longer lists are forgotten and unmounted. */
module Sessions {
  type SessionId = n: int | 0 <= n < 256

  /** One slot and the session it is bound to. */
  datatype Binding = Binding(slot: string, id: SessionId)

  datatype SessionInfo = SessionInfo(
    id: SessionId, ipAddress: string, userName: string, mountType: string, slot: string)

  const INVALID := "INVALID"

  /** The bindings in the order in which the sorted map walks them. */
  type Bindings = seq<Binding>

  predicate DistinctSlots(m: Bindings) {
    forall i, j :: 0 <= i < j < |m| ==> m[i].slot != m[j].slot
  }

  function Ids(m: Bindings): (ids: seq<SessionId>)
    ensures |ids| == |m| && forall i :: 0 <= i < |m| ==> ids[i] == m[i].id
  {
    seq(|m|, i requires 0 <= i < |m| => m[i].id)
  }

  function SlotsOf(m: Bindings): (slots: seq<string>)
    ensures |slots| == |m| && forall i :: 0 <= i < |m| ==> slots[i] == m[i].slot
  {
    seq(|m|, i requires 0 <= i < |m| => m[i].slot)
  }

  function Listed(list: seq<SessionInfo>): (ids: seq<SessionId>)
    ensures |ids| == |list| && forall i :: 0 <= i < |list| ==> ids[i] == list[i].id
  {
    seq(|list|, i requires 0 <= i < |list| => list[i].id)
  }

  // ----- sorting and set difference -----

  predicate Sorted(s: seq<SessionId>) {
    forall i, j :: 0 <= i < j < |s| ==> s[i] <= s[j]
  }

  function InsertSorted(s: seq<SessionId>, x: SessionId): (r: seq<SessionId>)
    requires Sorted(s)
    ensures Sorted(r) && multiset(r) == multiset(s) + multiset{x}
  {
    if s == [] || x <= s[0] then [x] + s
    else
      var t := InsertSorted(s[1..], x);
      StaysSorted(s, x, t);
      [s[0]] + t
  }

  lemma StaysSorted(s: seq<SessionId>, x: SessionId, t: seq<SessionId>)
    requires s != [] && Sorted(s) && s[0] < x && Sorted(t) && multiset(t) == multiset(s[1..]) + multiset{x}
    ensures Sorted([s[0]] + t) && multiset([s[0]] + t) == multiset(s) + multiset{x}
  {
    assert s == [s[0]] + s[1..];
    forall k | 0 <= k < |t|
      ensures s[0] <= t[k]
    {
      assert t[k] in multiset(t);
      assert t[k] == x || t[k] in s[1..];
    }
  }

  /** Any sorting algorithm: a sorted permutation. */
  function Sort(s: seq<SessionId>): (r: seq<SessionId>)
    ensures Sorted(r) && multiset(r) == multiset(s)
  {
    if s == [] then []
    else
      assert s == s[..|s| - 1] + [s[|s| - 1]];
      InsertSorted(Sort(s[..|s| - 1]), s[|s| - 1])
  }

  lemma DropFirst(s: seq<SessionId>, i: nat)
    requires i < |s|
    ensures multiset(s[i..]) == multiset{s[i]} + multiset(s[i + 1..])
  {
    assert s[i..] == [s[i]] + s[i + 1..];
  }

  lemma SmallerIsAbsent(s: seq<SessionId>, i: nat, x: SessionId)
    requires Sorted(s) && i < |s| && x < s[i]
    ensures multiset(s[i..])[x] == 0
  {
    assert forall k :: i <= k < |s| ==> s[k] != x;
    assert x !in s[i..];
  }

  lemma TakeLeft(d: multiset<SessionId>, a: multiset<SessionId>, b: multiset<SessionId>, x: SessionId)
    requires b[x] == 0
    ensures d + multiset{x} + (a - b) == d + (multiset{x} + a - b)
  {
  }

  lemma DropRight(a: multiset<SessionId>, b: multiset<SessionId>, x: SessionId)
    requires a[x] == 0
    ensures a - (multiset{x} + b) == a - b
  {
  }

  lemma DropBoth(a: multiset<SessionId>, b: multiset<SessionId>, x: SessionId)
    ensures (multiset{x} + a) - (multiset{x} + b) == a - b
  {
  }

  /** An id that occurs m times in `a` and n times in `b` is left max(m - n, 0) times. */
  method SetDifference(a: seq<SessionId>, b: seq<SessionId>) returns (d: seq<SessionId>)
    requires Sorted(a) && Sorted(b)
    ensures multiset(d) == multiset(a) - multiset(b)
  {
    d := [];
    var i, j := 0, 0;
    assert a[0..] == a && b[0..] == b;
    while i < |a|
      invariant 0 <= i <= |a| && 0 <= j <= |b|
      invariant multiset(d) + (multiset(a[i..]) - multiset(b[j..])) == multiset(a) - multiset(b)
      decreases |a| - i + |b| - j
    {
      ghost var restA, restB := multiset(a[i + 1..]), multiset(b[j..]);
      DropFirst(a, i);
      if j == |b| || a[i] < b[j] {
        if j < |b| {
          SmallerIsAbsent(b, j, a[i]);
        }
        TakeLeft(multiset(d), restA, restB, a[i]);
        d := d + [a[i]];
        i := i + 1;
      } else {
        DropFirst(b, j);
        restB := multiset(b[j + 1..]);
        if b[j] < a[i] {
          SmallerIsAbsent(a, i, b[j]);
          DropRight(multiset(a[i..]), restB, b[j]);
        } else {
          DropBoth(restA, restB, a[i]);
          i := i + 1;
        }
        j := j + 1;
      }
    }
  }

  // ----- looking up and erasing -----

  /** The first binding of `id`, or the length if there is none. */
  function FirstIndex(m: Bindings, id: SessionId): (i: nat)
    ensures i <= |m| && (i < |m| ==> m[i].id == id) && forall k :: 0 <= k < i ==> m[k].id != id
  {
    if m == [] || m[0].id == id then 0 else 1 + FirstIndex(m[1..], id)
  }

  function FindKey(m: Bindings, id: SessionId): string {
    var i := FirstIndex(m, id);
    if i < |m| then m[i].slot else INVALID
  }

  function Without(m: Bindings, i: nat): Bindings
    requires i < |m|
  {
    m[..i] + m[i + 1..]
  }

  /** What is left of `m`, and the slots unmounted, once the ids in `removed` have been dealt with in turn. */
  function EraseAll(m: Bindings, removed: seq<SessionId>): (Bindings, seq<string>)
    decreases |removed|
  {
    if removed == [] then (m, [])
    else if FindKey(m, removed[0]) == INVALID then EraseAll(m, removed[1..])
    else
      var i := FirstIndex(m, removed[0]);
      var (rest, slots) := EraseAll(Without(m, i), removed[1..]);
      (rest, [m[i].slot] + slots)
  }

  lemma DropOne<T>(s: seq<T>, i: nat)
    requires i < |s|
    ensures multiset(s) == multiset(s[..i] + s[i + 1..]) + multiset{s[i]}
  {
    assert s == s[..i] + [s[i]] + s[i + 1..];
  }

  lemma WithoutCounts(m: Bindings, i: nat)
    requires i < |m|
    ensures multiset(Ids(m)) == multiset(Ids(Without(m, i))) + multiset{m[i].id}
    ensures multiset(SlotsOf(m)) == multiset(SlotsOf(Without(m, i))) + multiset{m[i].slot}
    ensures DistinctSlots(m) ==> DistinctSlots(Without(m, i))
  {
    var w := Without(m, i);
    DropOne(Ids(m), i);
    DropOne(SlotsOf(m), i);
    assert Ids(w) == Ids(m)[..i] + Ids(m)[i + 1..];
    assert SlotsOf(w) == SlotsOf(m)[..i] + SlotsOf(m)[i + 1..];
  }

  /** Slots are unmounted exactly once each, and exactly those that are forgotten. */
  lemma {:induction false} UnmountedAreErased(m: Bindings, removed: seq<SessionId>)
    ensures var (rest, slots) := EraseAll(m, removed);
            multiset(SlotsOf(m)) == multiset(SlotsOf(rest)) + multiset(slots)
    ensures DistinctSlots(m) ==> DistinctSlots(EraseAll(m, removed).0)
    decreases |removed|
  {
    if removed != [] {
      if FindKey(m, removed[0]) == INVALID {
        UnmountedAreErased(m, removed[1..]);
      } else {
        var i := FirstIndex(m, removed[0]);
        WithoutCounts(m, i);
        UnmountedAreErased(Without(m, i), removed[1..]);
      }
    }
  }

  // ----- a slot that happens to be called INVALID -----

  function Bound(m: Bindings, id: SessionId): nat {
    multiset(Ids(m))[id]
  }

  /** Where the slot of that name is, or the length if there is none. */
  function InvalidAt(m: Bindings): (k: nat)
    ensures k <= |m| && (k < |m| ==> m[k].slot == INVALID) && forall i :: 0 <= i < k ==> m[i].slot != INVALID
  {
    if m == [] || m[0].slot == INVALID then 0 else 1 + InvalidAt(m[1..])
  }

  function Times(ids: seq<SessionId>, id: SessionId): nat {
    multiset(ids)[id]
  }

  /** More bindings of its id are to go than stand before it, so a look-up will come upon it. */
  predicate Blocked(m: Bindings, removed: seq<SessionId>) {
    var k := InvalidAt(m);
    k < |m| && Times(removed, m[k].id) > Bound(m[..k], m[k].id)
  }

  /** The next look-up of `id` comes upon it: nothing of that id can be erased any more. */
  predicate StuckOn(m: Bindings, id: SessionId) {
    FirstIndex(m, id) < |m| && m[FirstIndex(m, id)].slot == INVALID
  }

  lemma FirstIndexUnique(m: Bindings, id: SessionId, i: nat)
    requires i < |m| && m[i].id == id && forall k :: 0 <= k < i ==> m[k].id != id
    ensures FirstIndex(m, id) == i
  {
  }

  lemma InvalidAtUnique(m: Bindings, k: nat)
    requires DistinctSlots(m) && k < |m| && m[k].slot == INVALID
    ensures InvalidAt(m) == k
  {
  }

  lemma BoundIsPresent(m: Bindings, id: SessionId)
    ensures Bound(m, id) > 0 <==> FirstIndex(m, id) < |m|
  {
    if Bound(m, id) > 0 {
      assert id in Ids(m);
      var i :| 0 <= i < |m| && Ids(m)[i] == id;
    }
    if FirstIndex(m, id) < |m| {
      assert Ids(m)[FirstIndex(m, id)] == id;
    }
  }

  lemma TimesHead(removed: seq<SessionId>, id: SessionId)
    requires removed != []
    ensures Times(removed, id) == Times(removed[1..], id) + if removed[0] == id then 1 else 0
  {
    assert removed == [removed[0]] + removed[1..];
  }

  lemma BoundWithout(m: Bindings, i: nat, id: SessionId)
    requires i < |m|
    ensures Bound(m, id) == Bound(Without(m, i), id) + if m[i].id == id then 1 else 0
  {
    WithoutCounts(m, i);
  }

  lemma WithoutAt(m: Bindings, i: nat, k: nat)
    requires i < |m| && k < |m| && i != k
    ensures if k < i then Without(m, i)[k] == m[k] else Without(m, i)[k - 1] == m[k]
    ensures if k < i then Without(m, i)[..k] == m[..k] else Without(m, i)[..k - 1] == Without(m[..k], i)
  {
  }

  lemma StillStuck(m: Bindings, i: nat, id: SessionId)
    requires DistinctSlots(m) && StuckOn(m, id) && i < |m| && m[i].id != id
    ensures StuckOn(Without(m, i), id)
  {
    var f := FirstIndex(m, id);
    FirstIndexUnique(Without(m, i), id, if f < i then f else f - 1);
  }

  lemma FindOther(m: Bindings, id: SessionId, r: SessionId)
    requires DistinctSlots(m) && StuckOn(m, id) && r != id && Bound(m, r) > 0
    ensures FindKey(m, r) != INVALID && FirstIndex(m, r) < |m|
  {
    BoundIsPresent(m, r);
    assert FirstIndex(m, r) != FirstIndex(m, id);
  }

  /** From then on the other ids are still dealt with, and this one never. */
  lemma {:induction false} StuckStays(m: Bindings, removed: seq<SessionId>, id: SessionId)
    requires DistinctSlots(m) && StuckOn(m, id)
    requires forall v :: v != id ==> Times(removed, v) <= Bound(m, v)
    ensures var rest := EraseAll(m, removed).0;
            && StuckOn(rest, id)
            && forall v :: Bound(rest, v) == Bound(m, v) - if v == id then 0 else Times(removed, v)
    decreases |removed|
  {
    hide Bound, Times, FirstIndex, Without, DistinctSlots;
    if removed == [] {
      assert forall v :: Times(removed, v) == 0 by {
        NoTimes();
      }
    } else {
      var r := removed[0];
      forall v {
        TimesHead(removed, v);
      }
      if r == id {
        StuckStays(m, removed[1..], id);
      } else {
        FindOther(m, id, r);
        var i := FirstIndex(m, r);
        WithoutCounts(m, i);
        FirstIndexMeaning(m, r);
        StillStuck(m, i, id);
        forall v {
          BoundWithout(m, i, v);
        }
        StuckStays(Without(m, i), removed[1..], id);
      }
    }
  }

  lemma NoTimes()
    ensures forall v :: Times([], v) == 0
  {
  }

  lemma FirstIndexMeaning(m: Bindings, id: SessionId)
    ensures FirstIndex(m, id) < |m| ==> m[FirstIndex(m, id)].id == id
  {
  }

  lemma BlockedShift(m: Bindings, removed: seq<SessionId>)
    requires DistinctSlots(m) && removed != []
    requires FirstIndex(m, removed[0]) < |m| && m[FirstIndex(m, removed[0])].slot != INVALID
    ensures var w := Without(m, FirstIndex(m, removed[0]));
            && (Blocked(m, removed) <==> Blocked(w, removed[1..]))
            && (InvalidAt(m) < |m| <==> InvalidAt(w) < |w|)
            && (InvalidAt(m) < |m| ==> w[InvalidAt(w)] == m[InvalidAt(m)])
  {
    hide Bound, Times;
    var r := removed[0];
    var i, k := FirstIndex(m, r), InvalidAt(m);
    var w := Without(m, i);
    if k < |m| {
      WithoutCounts(m, i);
      WithoutAt(m, i, k);
      InvalidAtUnique(w, if k < i then k else k - 1);
      TimesHead(removed, m[k].id);
      if i < k {
        BoundWithout(m[..k], i, m[k].id);
      }
    } else {
      forall j | 0 <= j < |w|
        ensures w[j].slot != INVALID
      {
        assert w[j] == m[if j < i then j else j + 1];
      }
    }
  }

  /** What erasing comes to: every id in `removed` goes, unless a look-up comes upon a slot called INVALID. */
  lemma {:induction false} EraseLaw(m: Bindings, removed: seq<SessionId>)
    requires DistinctSlots(m) && forall v :: Times(removed, v) <= Bound(m, v)
    ensures !Blocked(m, removed) ==>
              && |EraseAll(m, removed).1| == |removed|
              && forall v :: Bound(EraseAll(m, removed).0, v) == Bound(m, v) - Times(removed, v)
    ensures Blocked(m, removed) ==>
              var id := m[InvalidAt(m)].id;
              var rest := EraseAll(m, removed).0;
              && StuckOn(rest, id) && Bound(rest, id) > Bound(m, id) - Times(removed, id)
              && forall v :: v != id ==> Bound(rest, v) == Bound(m, v) - Times(removed, v)
    decreases |removed|
  {
    hide Bound, Times, FirstIndex, Without, DistinctSlots, InvalidAt, StuckOn;
    if removed == [] {
      NoTimes();
    } else {
      var r := removed[0];
      forall v {
        TimesHead(removed, v);
      }
      BoundIsPresent(m, r);
      FirstIndexMeaning(m, r);
      var i := FirstIndex(m, r);
      if m[i].slot == INVALID {
        InvalidFirst(m, r);
        StuckStays(m, removed[1..], r);
      } else {
        WithoutCounts(m, i);
        BlockedShift(m, removed);
        forall v {
          BoundWithout(m, i, v);
        }
        EraseLaw(Without(m, i), removed[1..]);
      }
    }
  }

  lemma InvalidFirst(m: Bindings, id: SessionId)
    requires DistinctSlots(m) && FirstIndex(m, id) < |m| && m[FirstIndex(m, id)].slot == INVALID
    ensures StuckOn(m, id) && InvalidAt(m) == FirstIndex(m, id) && Bound(m[..InvalidAt(m)], id) == 0
  {
    InvalidAtUnique(m, FirstIndex(m, id));
    assert id !in Ids(m[..InvalidAt(m)]);
  }

  // ----- one whole update -----

  function Min(a: nat, b: nat): nat {
    if a < b then a else b
  }

  predicate IsRemoved(m: Bindings, list: seq<SessionInfo>, removed: seq<SessionId>) {
    multiset(removed) == multiset(Ids(m)) - multiset(Listed(list))
  }

  /** A slot called INVALID stands in the way: more bindings of its id are to go than stand before it. */
  predicate Obstructed(m: Bindings, list: seq<SessionInfo>) {
    var k := InvalidAt(m);
    k < |m| && Times(Listed(list), m[k].id) + Bound(m[..k], m[k].id) < Bound(m, m[k].id)
  }

  /** Every session keeps as many slots as it is listed times, as far as it had them. */
  ghost predicate Reconciled(before: Bindings, list: seq<SessionInfo>, after: Bindings) {
    forall v :: Bound(after, v) == Min(Bound(before, v), Times(Listed(list), v))
  }

  lemma RemovedTimes(m: Bindings, list: seq<SessionInfo>, removed: seq<SessionId>)
    requires IsRemoved(m, list, removed)
    ensures forall v :: Times(removed, v) == Bound(m, v) - Min(Bound(m, v), Times(Listed(list), v))
  {
  }

  /** The exact condition under which an update does its work. */
  lemma ReconcilesIff(m: Bindings, list: seq<SessionInfo>, removed: seq<SessionId>)
    requires DistinctSlots(m) && IsRemoved(m, list, removed)
    ensures Reconciled(m, list, EraseAll(m, removed).0) <==> !Obstructed(m, list)
    ensures !Obstructed(m, list) ==> |EraseAll(m, removed).1| == |removed|
  {
    hide Bound, Times, InvalidAt, EraseAll, StuckOn;
    RemovedTimes(m, list, removed);
    EraseLaw(m, removed);
  }

  /** An update that does not do its work: the only slot there is goes by that name, and its session is gone. */
  lemma InvalidSlotIsKept()
    ensures var m := [Binding(INVALID, 5)];
            && DistinctSlots(m) && Obstructed(m, []) && IsRemoved(m, [], [5])
            && EraseAll(m, [5]) == (m, []) && !Reconciled(m, [], EraseAll(m, [5]).0)
  {
    var m := [Binding(INVALID, 5)];
    assert Ids(m) == [5] && Ids(m[..0]) == [] && Listed([]) == [];
    assert InvalidAt(m) == 0;
    assert FindKey(m, 5) == INVALID;
    ReconcilesIff(m, [], [5]);
  }

  lemma {:induction false} OnlyStuck(m: Bindings, removed: seq<SessionId>, id: SessionId)
    requires StuckOn(m, id) && forall v :: v != id ==> Times(removed, v) == 0
    ensures EraseAll(m, removed) == (m, [])
    decreases |removed|
  {
    if removed != [] {
      TimesHead(removed, removed[0]);
      forall v {
        TimesHead(removed, v);
      }
      OnlyStuck(m, removed[1..], id);
    }
  }

  lemma NothingLeft(removed: seq<SessionId>)
    requires forall v :: Times(removed, v) == 0
    ensures removed == []
  {
    assert forall v: SessionId :: multiset(removed)[v] == Times(removed, v);
    assert multiset(removed) == multiset{};
  }

  /** A second update with the same list finds nothing left to do, obstructed or not. */
  lemma SecondUpdateChangesNothing(
    m: Bindings, list: seq<SessionInfo>, removed: seq<SessionId>, removedNext: seq<SessionId>)
    requires DistinctSlots(m) && IsRemoved(m, list, removed)
    requires IsRemoved(EraseAll(m, removed).0, list, removedNext)
    ensures EraseAll(EraseAll(m, removed).0, removedNext) == (EraseAll(m, removed).0, [])
  {
    hide Bound, InvalidAt, StuckOn;
    RemovedTimes(m, list, removed);
    EraseLaw(m, removed);
    var rest := EraseAll(m, removed).0;
    RemovedTimes(rest, list, removedNext);
    if Blocked(m, removed) {
      OnlyStuck(rest, removedNext, m[InvalidAt(m)].id);
    } else {
      assert forall v :: Times(removedNext, v) == 0;
      NothingLeft(removedNext);
    }
  }

  lemma EraseNone(m: Bindings)
    ensures EraseAll(m, []) == (m, [])
  {
  }

  /** One round of the erasing loop, with `unmounted` collected so far. */
  lemma EraseNext(m: Bindings, removed: seq<SessionId>, i: nat, unmounted: seq<string>)
    requires i < |removed|
    ensures var slot := FindKey(m, removed[i]);
            var at := FirstIndex(m, removed[i]);
            if slot == INVALID then EraseAll(m, removed[i..]) == EraseAll(m, removed[i + 1..])
            else && at < |m| && m[at].slot == slot
                 && EraseAll(m, removed[i..]).0 == EraseAll(Without(m, at), removed[i + 1..]).0
                 && unmounted + EraseAll(m, removed[i..]).1
                    == (unmounted + [slot]) + EraseAll(Without(m, at), removed[i + 1..]).1
  {
    assert removed[i..][1..] == removed[i + 1..];
  }

  /** The map from slots to sessions, and what the session manager's updates do to it. */
  class DbusMonitor {
    var activeSessions: Bindings
    ghost var unmounted: seq<string>

    constructor (bindings: Bindings)
      ensures activeSessions == bindings && unmounted == []
    {
      activeSessions := bindings;
      unmounted := [];
    }

    method FindKeyForValue(value: SessionId) returns (key: string)
      ensures key == FindKey(activeSessions, value)
    {
      var i := 0;
      while i < |activeSessions|
        invariant 0 <= i <= |activeSessions|
        invariant forall k :: 0 <= k < i ==> activeSessions[k].id != value
      {
        if activeSessions[i].id == value {
          FirstIndexUnique(activeSessions, value, i);
          return activeSessions[i].slot;
        }
        i := i + 1;
      }
      return INVALID;
    }

    method Erase(slot: string, ghost at: nat)
      requires DistinctSlots(activeSessions) && at < |activeSessions| && activeSessions[at].slot == slot
      modifies this`activeSessions
      ensures activeSessions == Without(old(activeSessions), at)
    {
      var i := 0;
      while activeSessions[i].slot != slot
        invariant 0 <= i <= at
        decreases at - i
      {
        i := i + 1;
      }
      activeSessions := activeSessions[..i] + activeSessions[i + 1..];
    }

    static method FindRemovedSessionIDs(active: seq<SessionId>, updated: seq<SessionId>)
      returns (removed: seq<SessionId>)
      ensures multiset(removed) == multiset(active) - multiset(updated)
    {
      removed := SetDifference(Sort(active), Sort(updated));
    }

    method HandleSessions(list: seq<SessionInfo>) returns (ghost removed: seq<SessionId>)
      requires DistinctSlots(activeSessions)
      modifies this
      ensures DistinctSlots(activeSessions) && IsRemoved(old(activeSessions), list, removed)
      ensures (activeSessions, unmounted)
           == (EraseAll(old(activeSessions), removed).0, old(unmounted) + EraseAll(old(activeSessions), removed).1)
      ensures Reconciled(old(activeSessions), list, activeSessions) <==> !Obstructed(old(activeSessions), list)
    {
      var updatedSessionIDs := [];
      for i := 0 to |list|
        invariant |updatedSessionIDs| == i && forall k :: 0 <= k < i ==> updatedSessionIDs[k] == list[k].id
      {
        updatedSessionIDs := updatedSessionIDs + [list[i].id];
      }
      assert updatedSessionIDs == Listed(list);
      var activeSessionIDs := [];
      for i := 0 to |activeSessions|
        invariant |activeSessionIDs| == i && forall k :: 0 <= k < i ==> activeSessionIDs[k] == activeSessions[k].id
      {
        activeSessionIDs := activeSessionIDs + [activeSessions[i].id];
      }
      assert activeSessionIDs == Ids(activeSessions);
      var removedIDs := FindRemovedSessionIDs(activeSessionIDs, updatedSessionIDs);
      removed := removedIDs;
      RemoveAll(removedIDs);
      ReconcilesIff(old(activeSessions), list, removed);
    }

    /** The erasing loop: look up, erase, unmount. */
    method RemoveAll(removedIDs: seq<SessionId>)
      requires DistinctSlots(activeSessions)
      modifies this
      ensures DistinctSlots(activeSessions)
      ensures activeSessions == EraseAll(old(activeSessions), removedIDs).0
      ensures unmounted == old(unmounted) + EraseAll(old(activeSessions), removedIDs).1
    {
      hide EraseAll, FindKey, Without, DistinctSlots;
      ghost var all := EraseAll(activeSessions, removedIDs);
      assert removedIDs[0..] == removedIDs;
      for i := 0 to |removedIDs|
        invariant DistinctSlots(activeSessions)
        invariant EraseAll(activeSessions, removedIDs[i..]).0 == all.0
        invariant unmounted + EraseAll(activeSessions, removedIDs[i..]).1 == old(unmounted) + all.1
      {
        EraseNext(activeSessions, removedIDs, i, unmounted);
        var slot := FindKeyForValue(removedIDs[i]);
        if slot != INVALID {
          ghost var at := FirstIndex(activeSessions, removedIDs[i]);
          WithoutCounts(activeSessions, at);
          Erase(slot, at);
          unmounted := unmounted + [slot];
        }
      }
      assert removedIDs[|removedIDs|..] == [];
      EraseNone(activeSessions);
      assert unmounted + [] == unmounted;
    }
  }
}
