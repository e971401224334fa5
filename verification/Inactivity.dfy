/** The inactivity watch of an active slot: one tick a second, until nothing has been read or written for too long. */
module Inactivity {
  import opened Wrappers

  const NANOSECONDS := 1_000_000_000

  /** A run of the timer handler: the clock, counted from its epoch, and the statistics it could read. */
  datatype Tick = Tick(now: nat, stats: Option<string>)

  predicate Increasing(ticks: seq<Tick>) {
    forall i, j :: 0 <= i < j < |ticks| ==> ticks[i].now < ticks[j].now
  }

  /** The last statistics that could be read at all. */
  function LastRead(ticks: seq<Tick>): string {
    if ticks == [] then ""
    else
      var t := ticks[|ticks| - 1];
      if t.stats.Some? then t.stats.value else LastRead(ticks[..|ticks| - 1])
  }

  /** Whether the last tick read something different from what had been read before. */
  predicate ChangesAt(ticks: seq<Tick>)
    requires ticks != []
  {
    var t := ticks[|ticks| - 1];
    t.stats.Some? && t.stats.value != LastRead(ticks[..|ticks| - 1])
  }

  /** The time of the last tick with a change, or the epoch of the clock. */
  function LastChange(ticks: seq<Tick>): nat {
    if ticks == [] then 0
    else if ChangesAt(ticks) then ticks[|ticks| - 1].now
    else LastChange(ticks[..|ticks| - 1])
  }

  /** Idle seconds are whole ones, rounded down. */
  lemma IdleIsWhole(ticks: seq<Tick>)
    requires ticks != [] && Increasing(ticks)
    ensures var nanoseconds := ticks[|ticks| - 1].now - LastChange(ticks);
            0 <= Idle(ticks) * NANOSECONDS <= nanoseconds < (Idle(ticks) + 1) * NANOSECONDS
  {
    LastChangeIsPast(ticks);
  }

  lemma {:induction false} LastChangeIsPast(ticks: seq<Tick>)
    requires ticks != [] && Increasing(ticks)
    ensures LastChange(ticks) <= ticks[|ticks| - 1].now
  {
    if !ChangesAt(ticks) && |ticks| > 1 {
      LastChangeIsPast(ticks[..|ticks| - 1]);
    }
  }

  /** The last tick comes at least `timeout` seconds after the last change. */
  predicate Expired(ticks: seq<Tick>, timeout: int)
    requires ticks != []
  {
    ticks[|ticks| - 1].now >= LastChange(ticks) + timeout * NANOSECONDS
  }

  predicate ExpiredAt(ticks: seq<Tick>, i: nat, timeout: int) {
    i < |ticks| && Expired(ticks[..i + 1], timeout)
  }

  /** Whole seconds since the last change, at the last tick. */
  function Idle(ticks: seq<Tick>): int
    requires ticks != []
  {
    (ticks[|ticks| - 1].now - LastChange(ticks)) / NANOSECONDS
  }

  /** `n` is the first tick, counted from zero, at which the watch expires. */
  predicate FirstExpiry(ticks: seq<Tick>, timeout: int, n: nat) {
    ExpiredAt(ticks, n, timeout) && forall i :: 0 <= i < n ==> !ExpiredAt(ticks, i, timeout)
  }

  // ----- the schedule itself -----

  /** `j` is the nearest tick before `k` that could read any statistics. */
  predicate ReadBefore(ticks: seq<Tick>, j: nat, k: nat) {
    j < k < |ticks| && ticks[j].stats.Some? && forall m :: j < m < k ==> ticks[m].stats.None?
  }

  /** Tick `k` reads something new: not what the nearest earlier reading was, or not an empty text if there was none. */
  ghost predicate ReadsNew(ticks: seq<Tick>, k: nat) {
    && k < |ticks| && ticks[k].stats.Some?
    && (forall j: nat :: ReadBefore(ticks, j, k) ==> ticks[j].stats != ticks[k].stats)
    && ((forall m :: 0 <= m < k ==> ticks[m].stats.None?) ==> ticks[k].stats != Some(""))
  }

  /** By tick `n` the timeout has passed since the epoch of the clock and since every new reading up to then. */
  ghost predicate Due(ticks: seq<Tick>, timeout: int, n: nat) {
    && n < |ticks| && ticks[n].now >= timeout * NANOSECONDS
    && forall k: nat :: k <= n && ReadsNew(ticks, k) ==> ticks[n].now >= ticks[k].now + timeout * NANOSECONDS
  }

  ghost predicate FirstDue(ticks: seq<Tick>, timeout: int, n: nat) {
    Due(ticks, timeout, n) && forall i: nat :: i < n ==> !Due(ticks, timeout, i)
  }

  /** What is remembered as read is what the nearest earlier tick with a reading has read. */
  lemma {:induction false} LastReadMeans(ticks: seq<Tick>, k: nat)
    requires k < |ticks|
    ensures forall j: nat :: ReadBefore(ticks, j, k) ==> LastRead(ticks[..k]) == ticks[j].stats.value
    ensures (forall m :: 0 <= m < k ==> ticks[m].stats.None?) ==> LastRead(ticks[..k]) == ""
    ensures (forall m :: 0 <= m < k ==> ticks[m].stats.None?) || exists j: nat :: ReadBefore(ticks, j, k)
  {
    if k > 0 {
      LastReadMeans(ticks, k - 1);
      assert ticks[..k][..k - 1] == ticks[..k - 1];
      if ticks[k - 1].stats.Some? {
        assert ReadBefore(ticks, k - 1, k);
      } else {
        forall j: nat | ReadBefore(ticks, j, k)
          ensures ReadBefore(ticks, j, k - 1)
        {
        }
        var before := k - 1;
        if exists j: nat :: ReadBefore(ticks, j, before) {
          var j: nat :| ReadBefore(ticks, j, before);
          assert ReadBefore(ticks, j, k);
        }
      }
    }
  }

  lemma ChangesAtNew(ticks: seq<Tick>, k: nat)
    requires k < |ticks|
    ensures ChangesAt(ticks[..k + 1]) <==> ReadsNew(ticks, k)
  {
    LastReadMeans(ticks, k);
    assert ticks[..k + 1][..k] == ticks[..k];
  }

  /** One more tick is the last change, or leaves it where it was. */
  lemma LastChangeNext(ticks: seq<Tick>, n: nat)
    requires n < |ticks|
    ensures LastChange(ticks[..n + 1]) == if ReadsNew(ticks, n) then ticks[n].now else LastChange(ticks[..n])
  {
    ChangesAtNew(ticks, n);
    assert ticks[..n + 1][..n] == ticks[..n];
  }

  /** The last change is the latest new reading, or the epoch. */
  lemma {:induction false} LastChangeMeans(ticks: seq<Tick>, n: nat)
    requires Increasing(ticks) && n <= |ticks|
    ensures forall k: nat :: k < n && ReadsNew(ticks, k) ==> ticks[k].now <= LastChange(ticks[..n])
    ensures LastChange(ticks[..n]) == 0
            || exists k: nat :: k < n && ReadsNew(ticks, k) && ticks[k].now == LastChange(ticks[..n])
  {
    if n > 0 {
      hide LastChange, ReadsNew;
      var last := n - 1;
      LastChangeMeans(ticks, last);
      LastChangeNext(ticks, last);
      forall k: nat | k < n && ReadsNew(ticks, k)
        ensures ticks[k].now <= LastChange(ticks[..n])
      {
        assert k < last ==> ticks[k].now < ticks[last].now;
      }
      if !ReadsNew(ticks, last) && LastChange(ticks[..last]) != 0 {
        var k: nat :| k < last && ReadsNew(ticks, k) && ticks[k].now == LastChange(ticks[..last]);
        assert k < n && ReadsNew(ticks, k);
      }
    }
  }

  /** The watch expires when, on the schedule itself, the unmount is due. */
  lemma ExpiredIffDue(ticks: seq<Tick>, timeout: int, n: nat)
    requires Increasing(ticks)
    ensures ExpiredAt(ticks, n, timeout) <==> Due(ticks, timeout, n)
  {
    if n < |ticks| {
      LastChangeMeans(ticks, n + 1);
    }
  }

  lemma FirstExpiryIffDue(ticks: seq<Tick>, timeout: int, n: nat)
    requires Increasing(ticks)
    ensures FirstExpiry(ticks, timeout, n) <==> FirstDue(ticks, timeout, n)
  {
    hide ExpiredAt, Due;
    forall i: nat {
      ExpiredIffDue(ticks, timeout, i);
    }
  }

  lemma ExpiredHere(ticks: seq<Tick>, timeout: int, n: nat)
    requires n < |ticks|
    ensures ExpiredAt(ticks, n, timeout) <==> Expired(ticks[..n + 1], timeout)
  {
  }

  lemma NoneBeyond(ticks: seq<Tick>, timeout: int)
    ensures forall i :: i >= |ticks| ==> !ExpiredAt(ticks, i, timeout)
  {
  }

  /** Ticks that read nothing new never put the unmount off: once due it stays due until something new is read. */
  lemma StaysDue(ticks: seq<Tick>, timeout: int, n: nat, m: nat)
    requires Increasing(ticks) && n <= m < |ticks| && Due(ticks, timeout, n)
    requires forall k: nat :: n < k <= m ==> !ReadsNew(ticks, k)
    ensures Due(ticks, timeout, m)
  {
  }

  /**
   When the unmount falls due: never before the timeout has passed since the last change, and, from the second
   tick on, less than one gap between ticks after it has.
   */
  lemma Deadline(ticks: seq<Tick>, timeout: int, gap: nat, n: nat)
    requires Increasing(ticks) && n < |ticks| && FirstExpiry(ticks, timeout, n)
    requires forall i :: 0 < i < |ticks| ==> ticks[i].now - ticks[i - 1].now <= gap
    ensures var due := LastChange(ticks[..n + 1]) + timeout * NANOSECONDS;
            due <= ticks[n].now && (n > 0 ==> ticks[n].now < due + gap)
    ensures FirstDue(ticks, timeout, n)
    ensures n > 0 ==>
              || ticks[n].now < timeout * NANOSECONDS + gap
              || exists k: nat :: k <= n && ReadsNew(ticks, k)
                                  && ticks[n].now < ticks[k].now + timeout * NANOSECONDS + gap
  {
    forall i: nat | i <= n {
      ExpiredIffDue(ticks, timeout, i);
    }
    LastChangeMeans(ticks, n + 1);
    if n > 0 {
      assert ticks[..n + 1][..n] == ticks[..n];
      assert !ExpiredAt(ticks, n - 1, timeout);
      LastChangeIsPast(ticks[..n]);
    }
  }

  /** When the very first tick expires: without a timeout, or if nothing new was read, so that the epoch counts. */
  lemma FirstTickExpiresIff(ticks: seq<Tick>, timeout: int)
    requires |ticks| == 1
    ensures Expired(ticks, timeout)
       <==> timeout <= 0
            || ((ticks[0].stats.None? || ticks[0].stats.value == "") && ticks[0].now >= timeout * NANOSECONDS)
  {
    assert ticks[..|ticks| - 1] == [] && LastRead([]) == "" && LastChange([]) == 0;
    assert ChangesAt(ticks) <==> ticks[0].stats.Some? && ticks[0].stats.value != "";
  }

  class ActiveState {
    const inactivityTimeout: int
    var lastAccess: nat
    var lastStats: string
    var remainingInactivityTimeout: int
    var unmountsPosted: nat
    ghost var ticks: seq<Tick>

    ghost predicate Valid()
      reads this
    {
      Increasing(ticks) && lastStats == LastRead(ticks) && lastAccess == LastChange(ticks)
    }

    constructor (inactivityTimeout: int)
      ensures Valid() && ticks == [] && this.inactivityTimeout == inactivityTimeout && unmountsPosted == 0
    {
      this.inactivityTimeout := inactivityTimeout;
      lastAccess, lastStats, remainingInactivityTimeout, unmountsPosted := 0, "", 0, 0;
      ticks := [];
    }

    /** One run of the handler; `rearmed` tells whether there will be another. */
    method OnTick(t: Tick) returns (rearmed: bool)
      requires Valid() && (ticks == [] || ticks[|ticks| - 1].now < t.now)
      modifies this
      ensures Valid() && ticks == old(ticks) + [t]
      ensures rearmed <==> !Expired(ticks, inactivityTimeout)
      ensures rearmed ==> remainingInactivityTimeout + Idle(ticks) == inactivityTimeout
      ensures rearmed ==> remainingInactivityTimeout > 0
      ensures unmountsPosted == old(unmountsPosted) + if rearmed then 0 else 1
    {
      ghost var before := ticks;
      ticks := ticks + [t];
      assert ticks[..|ticks| - 1] == before;
      LastChangeIsPast(ticks);
      if t.stats.Some? && t.stats.value != lastStats {
        lastStats := t.stats.value;
        lastAccess := t.now;
      }
      var timeSinceLastAccess := (t.now - lastAccess) / NANOSECONDS;
      if timeSinceLastAccess >= inactivityTimeout {
        unmountsPosted := unmountsPosted + 1;
        return false;
      }
      remainingInactivityTimeout := inactivityTimeout - timeSinceLastAccess;
      return true;
    }

    /** The whole watch: it posts one unmount, at the first expiry, or none. */
    method Watch(schedule: seq<Tick>) returns (expiry: Option<nat>)
      requires Valid() && ticks == [] && unmountsPosted == 0 && Increasing(schedule)
      modifies this
      ensures expiry.Some? ==> unmountsPosted == 1 && FirstExpiry(schedule, inactivityTimeout, expiry.value)
      ensures forall n: nat :: FirstDue(schedule, inactivityTimeout, n) <==> expiry == Some(n)
      ensures expiry.None? ==> unmountsPosted == 0 && forall n :: !FirstExpiry(schedule, inactivityTimeout, n)
    {
      hide Due, FirstDue, ExpiredAt;
      forall i: nat {
        FirstExpiryIffDue(schedule, inactivityTimeout, i);
      }
      NoneBeyond(schedule, inactivityTimeout);
      var n := 0;
      while n < |schedule|
        invariant 0 <= n <= |schedule| && Valid() && ticks == schedule[..n] && unmountsPosted == 0
        invariant forall i :: 0 <= i < n ==> !ExpiredAt(schedule, i, inactivityTimeout)
      {
        assert schedule[..n + 1] == schedule[..n] + [schedule[n]];
        var rearmed := OnTick(schedule[n]);
        ExpiredHere(schedule, inactivityTimeout, n);
        if !rearmed {
          return Some(n);
        }
        n := n + 1;
      }
      return None;
    }
  }
}
