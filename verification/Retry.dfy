/** Reconnecting a share that went away: a bounded number of Mount calls, with bounded waits in between. */
module Retry {
  import opened Wrappers

  const MIN_RETRY_COUNT := 3
  const MAX_RETRY_COUNT := 6
  const MIN_RETRY_INTERVAL := 15
  const MAX_RETRY_INTERVAL := 30
  const POLLS := 10
  const UINT_MAX := 0xFFFF_FFFF

  /** What a look at the slot finds, unless the look itself fails with an exception. */
  datatype Probe = Up | Down | Throws

  /** How far the Mount call of an attempt gets. */
  datatype Delivery = NotSent | SentAndFailed | SentAndAnswered

  /** All that one attempt meets outside. */
  datatype Attempt = Attempt(before: Probe, delivery: Delivery, polls: nat -> Probe)

  datatype Stored = Stored(url: string, rw: bool, additionalInfo: string)

  datatype Cost = Cost(calls: nat, seconds: nat)

  /** The first poll, from `i` on, that is not Down, or POLLS if there is none. */
  function FirstNews(polls: nat -> Probe, i: nat): (n: nat)
    requires i <= POLLS
    ensures i <= n <= POLLS && (n < POLLS ==> polls(n) != Down) && forall k :: i <= k < n ==> polls(k) == Down
    decreases POLLS - i
  {
    if i == POLLS || polls(i) != Down then i else FirstNews(polls, i + 1)
  }

  /** The attempt ends because the slot is seen to be up, before the call or while polling after it. */
  predicate Succeeds(a: Attempt) {
    a.before == Up
    || (a.before == Down && a.delivery == SentAndAnswered
        && FirstNews(a.polls, 0) < POLLS && a.polls(FirstNews(a.polls, 0)) == Up)
  }

  predicate CallsMount(a: Attempt) {
    a.before == Down && a.delivery != NotSent
  }

  function SecondsSlept(a: Attempt, retryDelay: nat): nat {
    if a.before != Down then 0
    else retryDelay + if a.delivery == SentAndAnswered then FirstNews(a.polls, 0) else 0
  }

  /** What an attempt asks for and finds, poll by poll, counting ten of them. */
  ghost predicate SeenUp(a: Attempt) {
    a.before == Up
    || (a.before == Down && a.delivery == SentAndAnswered
        && exists p: nat :: p < 10 && a.polls(p) == Up && forall q: nat :: q < p ==> a.polls(q) == Down)
  }

  lemma SucceedsIffSeenUp(a: Attempt)
    ensures Succeeds(a) <==> SeenUp(a)
  {
    var news := FirstNews(a.polls, 0);
    if p: nat :| p < 10 && a.polls(p) == Up && forall q: nat :: q < p ==> a.polls(q) == Down {
      assert news == p;
    }
  }

  /** One attempt, with `news` polls before the first that is not Down: what it calls for and how long it sleeps. */
  lemma AttemptCosts(a: Attempt, retryDelay: nat, news: nat)
    requires news <= 10 && (forall q: nat :: q < news ==> a.polls(q) == Down) && (news < 10 ==> a.polls(news) != Down)
    ensures CallsMount(a) <==> a.before == Down && (a.delivery == SentAndFailed || a.delivery == SentAndAnswered)
    ensures SecondsSlept(a, retryDelay) == (if a.before != Down then 0
                                            else if a.delivery == SentAndAnswered then retryDelay + news
                                            else retryDelay)
  {
    assert FirstNews(a.polls, 0) == news;
  }

  function CostOf(attempts: seq<Attempt>, retryDelay: nat): Cost {
    if attempts == [] then Cost(0, 0)
    else
      var c := CostOf(attempts[..|attempts| - 1], retryDelay);
      var a := attempts[|attempts| - 1];
      Cost(c.calls + if CallsMount(a) then 1 else 0, c.seconds + SecondsSlept(a, retryDelay))
  }

  /** Attempts made: up to and including the first that succeeds. */
  function Made(attempts: seq<Attempt>): (n: nat)
    ensures n <= |attempts|
    ensures forall i :: 0 <= i < n - 1 ==> !Succeeds(attempts[i])
    ensures n < |attempts| ==> n > 0 && Succeeds(attempts[n - 1])
  {
    if attempts == [] then 0
    else if Succeeds(attempts[0]) then 1
    else
      var m := Made(attempts[1..]);
      assert forall i :: 0 < i < m ==> attempts[i] == attempts[1..][i - 1];
      1 + m
  }

  /** The attempts made: up to the first that finds the slot up, or all of them. */
  ghost predicate AreMade(attempts: seq<Attempt>, n: nat) {
    && n <= |attempts|
    && (forall i :: 0 <= i < n - 1 ==> !SeenUp(attempts[i]))
    && (n < |attempts| ==> n > 0 && SeenUp(attempts[n - 1]))
  }

  lemma MadeIff(attempts: seq<Attempt>, n: nat)
    ensures Made(attempts) == n <==> AreMade(attempts, n)
  {
    forall i | 0 <= i < |attempts| {
      SucceedsIffSeenUp(attempts[i]);
    }
  }

  /** The attempts of a run that send a Mount call. */
  function CallsIn(attempts: seq<Attempt>): set<nat> {
    set i: nat | i < |attempts| && attempts[i].before == Down && attempts[i].delivery != NotSent
  }

  lemma {:induction false} CallsAreCounted(attempts: seq<Attempt>, retryDelay: nat)
    ensures CostOf(attempts, retryDelay).calls == |CallsIn(attempts)|
  {
    if attempts != [] {
      var before := attempts[..|attempts| - 1];
      CallsAreCounted(before, retryDelay);
      var last := if CallsMount(attempts[|attempts| - 1]) then {|attempts| - 1} else {};
      assert CallsIn(attempts) == CallsIn(before) + last;
    }
  }

  lemma CostNext(attempts: seq<Attempt>, n: nat, retryDelay: nat)
    requires n < |attempts|
    ensures var c := CostOf(attempts[..n], retryDelay);
            CostOf(attempts[..n + 1], retryDelay)
            == Cost(c.calls + if CallsMount(attempts[n]) then 1 else 0,
                    c.seconds + SecondsSlept(attempts[n], retryDelay))
  {
    assert attempts[..n + 1][..n] == attempts[..n];
  }

  function Budget(attempts: nat, retryDelay: nat): nat {
    attempts * (retryDelay + POLLS)
  }

  lemma BudgetGrows(n: nat, m: nat, retryDelay: nat)
    requires n <= m
    ensures Budget(n, retryDelay) <= Budget(m, retryDelay)
    ensures n < m ==> Budget(n, retryDelay) + retryDelay + POLLS <= Budget(m, retryDelay)
  {
    TimesGrows(n, m, retryDelay + POLLS);
  }

  lemma {:induction false} TimesGrows(n: nat, m: nat, k: nat)
    requires n <= m
    ensures n * k <= m * k && (n < m ==> n * k + k <= m * k)
    decreases m - n
  {
    if n < m {
      TimesGrows(n, m - 1, k);
      assert m * k == (m - 1) * k + k;
    }
  }

  lemma {:induction false} CostBound(attempts: seq<Attempt>, retryDelay: nat)
    ensures var c := CostOf(attempts, retryDelay);
            c.calls <= |attempts| && c.seconds <= Budget(|attempts|, retryDelay)
  {
    hide Budget;
    if attempts != [] {
      CostBound(attempts[..|attempts| - 1], retryDelay);
      BudgetGrows(|attempts| - 1, |attempts|, retryDelay);
    } else {
      BudgetGrows(0, 0, retryDelay);
    }
  }

  lemma {:induction false} MadeAt(attempts: seq<Attempt>, n: nat)
    requires n <= |attempts| && forall i :: 0 <= i < n ==> !Succeeds(attempts[i])
    ensures n == |attempts| ==> Made(attempts) == n
    ensures n < |attempts| && Succeeds(attempts[n]) ==> Made(attempts) == n + 1
  {
    if attempts != [] && n > 0 {
      MadeAt(attempts[1..], n - 1);
    }
  }

  predicate AcceptedSettings(retryCount: int, retryInterval: int) {
    MIN_RETRY_COUNT <= retryCount <= MAX_RETRY_COUNT && MIN_RETRY_INTERVAL <= retryInterval <= MAX_RETRY_INTERVAL
  }

  /** With settings that SetAll accepts, a reconnect sleeps at most four minutes. */
  lemma AcceptedSettingsBound(attempts: seq<Attempt>, retryCount: nat, retryInterval: nat)
    requires AcceptedSettings(retryCount, retryInterval) && |attempts| <= retryCount
    ensures CostOf(attempts, retryInterval).seconds <= 240
  {
    CostBound(attempts, retryInterval);
    BudgetGrows(|attempts|, MAX_RETRY_COUNT, retryInterval);
  }

  predicate AnySucceeds(attempts: seq<Attempt>) {
    exists i :: 0 <= i < |attempts| && Succeeds(attempts[i])
  }

  /** The loop comes to an end: by its counter, or by a success. */
  predicate Ends(maxRetries: nat, attempts: seq<Attempt>) {
    if maxRetries < UINT_MAX then |attempts| == maxRetries else AnySucceeds(attempts)
  }

  class Interface {
    var retryCount: nat
    var retryInterval: nat

    constructor (retryCount: nat, retryInterval: nat)
      ensures this.retryCount == retryCount && this.retryInterval == retryInterval
    {
      this.retryCount, this.retryInterval := retryCount, retryInterval;
    }

    /** Values out of range change nothing. */
    method SetAll(newRetryCount: nat, newRetryInterval: nat) returns (accepted: bool)
      modifies this
      ensures accepted <==> AcceptedSettings(newRetryCount, newRetryInterval)
      ensures accepted ==> retryCount == newRetryCount && retryInterval == newRetryInterval
      ensures !accepted ==> retryCount == old(retryCount) && retryInterval == old(retryInterval)
    {
      if newRetryCount < MIN_RETRY_COUNT || newRetryCount > MAX_RETRY_COUNT
         || newRetryInterval < MIN_RETRY_INTERVAL || newRetryInterval > MAX_RETRY_INTERVAL {
        return false;
      }
      if retryCount == newRetryCount && retryInterval == newRetryInterval {
        return true;
      }
      retryCount, retryInterval := newRetryCount, newRetryInterval;
      return true;
    }

    method GetAll() returns (count: nat, interval: nat)
      ensures count == retryCount && interval == retryInterval
    {
      return retryCount, retryInterval;
    }
  }

  /** The credentials kept for Slot_2 and Slot_3, and what a reconnect has cost so far. */
  class Reconnector {
    var creds: array<Option<Stored>>
    var calls: nat
    var seconds: nat

    ghost predicate Valid()
      reads this
    {
      creds.Length == 2
    }

    constructor ()
      ensures Valid() && fresh(creds) && calls == 0 && seconds == 0
    {
      creds := new Option<Stored>[2](_ => None);
      calls, seconds := 0, 0;
    }

    /** One pass of the retry loop; every exception is caught and only ends the pass. */
    method TryOnce(a: Attempt, retryDelay: nat) returns (success: bool)
      modifies this`calls, this`seconds
      ensures success == Succeeds(a)
      ensures calls == old(calls) + (if CallsMount(a) then 1 else 0)
      ensures seconds == old(seconds) + SecondsSlept(a, retryDelay)
    {
      if a.before == Up {
        return true;
      }
      if a.before == Throws {
        return false;
      }
      seconds := seconds + retryDelay;
      if a.delivery == NotSent {
        return false;
      }
      calls := calls + 1;
      if a.delivery == SentAndFailed {
        return false;
      }
      for i := 0 to POLLS
        invariant calls == old(calls) + 1 && seconds == old(seconds) + retryDelay + i
        invariant FirstNews(a.polls, 0) == FirstNews(a.polls, i)
      {
        if a.polls(i) == Up {
          return true;
        }
        if a.polls(i) == Throws {
          return false;
        }
        seconds := seconds + 1;
      }
      return false;
    }

    /**
     `attempts` is what each of the attempts would meet. The counter is unsigned, so with the largest number of
     retries it never exceeds it: the loop then ends only by a success, which has to be among the attempts.
     */
    method RetryMount(slotNumber: int, maxRetries: nat, retryDelay: nat, attempts: seq<Attempt>)
      requires Valid() && calls == 0 && seconds == 0 && slotNumber < 2
      requires maxRetries <= UINT_MAX && Ends(maxRetries, attempts)
      modifies this`calls, this`seconds, creds
      ensures Valid()
      ensures slotNumber < 0 ==> creds[..] == old(creds[..]) && calls == 0 && seconds == 0
      ensures 0 <= slotNumber && old(creds[slotNumber]).Some? ==>
                var made := attempts[..Made(attempts)];
                && Cost(calls, seconds) == CostOf(made, retryDelay)
                && creds[slotNumber] == (if AnySucceeds(attempts) then old(creds[slotNumber]) else None)
      ensures 0 <= slotNumber && old(creds[slotNumber]).None? ==>
                creds[slotNumber] == None && calls == 0 && seconds == 0
      ensures 0 <= slotNumber && old(creds[slotNumber]).Some? ==>
                && (creds[slotNumber].Some? <==> exists i :: 0 <= i < |attempts| && SeenUp(attempts[i]))
                && (forall n: nat :: AreMade(attempts, n) ==> Cost(calls, seconds) == CostOf(attempts[..n], retryDelay))
      ensures forall k :: 0 <= k < 2 && k != slotNumber ==> creds[k] == old(creds[k])
      ensures calls <= |attempts| && seconds <= Budget(|attempts|, retryDelay)
    {
      hide Budget, CostOf, Made, Succeeds, SecondsSlept, CallsMount, SeenUp, AreMade;
      assert creds.Length == 2;
      forall i | 0 <= i < |attempts| {
        SucceedsIffSeenUp(attempts[i]);
      }
      forall n: nat {
        MadeIff(attempts, n);
      }
      BudgetGrows(0, |attempts|, retryDelay);
      if slotNumber < 0 {
        return;
      }
      if creds[slotNumber].Some? {
        var attempt := 1;
        var tries := 0;
        assert CostOf([], retryDelay) == Cost(0, 0) && attempts[..0] == [] by {
          CostOfNone(retryDelay);
        }
        while attempt <= maxRetries
          invariant 0 <= tries <= |attempts| && creds[..] == old(creds[..])
          invariant maxRetries < UINT_MAX ==> attempt == tries + 1
          invariant 0 <= attempt <= UINT_MAX
          invariant forall i :: 0 <= i < tries ==> !Succeeds(attempts[i])
          invariant Cost(calls, seconds) == CostOf(attempts[..tries], retryDelay)
          decreases |attempts| - tries
        {
          assert tries < |attempts|;
          CostNext(attempts, tries, retryDelay);
          MadeAt(attempts, tries);
          CostBound(attempts[..tries + 1], retryDelay);
          BudgetGrows(tries + 1, |attempts|, retryDelay);
          var success := TryOnce(attempts[tries], retryDelay);
          if success {
            return;
          }
          tries := tries + 1;
          attempt := if attempt == UINT_MAX then 0 else attempt + 1;
        }
        assert attempts[..|attempts|] == attempts;
        MadeAt(attempts, |attempts|);
        CostBound(attempts, retryDelay);
      }
      creds[slotNumber] := None;
    }
  }

  lemma CostOfNone(retryDelay: nat)
    ensures CostOf([], retryDelay) == Cost(0, 0)
  {
  }
}
