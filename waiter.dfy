/** `Mininet.waitConnected`: poll every switch that has not yet reported
    `connected()`, until none is left or the accumulated sleep time passes the
    timeout, then re-check the rest once more.

    `connected()` is an oracle: `connected(k, s)` is what switch `s` answers in
    query round `k` (poll passes are rounds 0, 1, ...; the re-check after a
    timeout is the round after the last pass). Time is counted in ticks of
    the sleep `delay`. `fuel` bounds the number of poll passes the model runs,
    because with no timeout the loop need not end; `Waiting` is the state of a
    run that ran out of fuel. Everything is generic in the switch type. */
module Waiter {
  import opened Common

  datatype WaitResult<T> =
    | Waiting
      /** `ok` is the value `waitConnected` returns, `warned` the switches it
          warns about, `lastRound` the last query round. */
    | Finished(ok: bool, warned: seq<T>, lastRound: nat)

  /** One poll pass over `rem`: the switches still not connected, in order. */
  function Poll<T>(rem: seq<T>, round: nat, connected: (nat, T) -> bool): seq<T> {
    Filter(rem, s => !connected(round, s))
  }

  /** A poll pass over a list without repeats leaves a list without repeats. */
  lemma PollNoDups<T>(rem: seq<T>, round: nat, connected: (nat, T) -> bool)
    requires NoDups(rem)
    ensures NoDups(Poll(rem, round, connected))
  {
    FilterNoDups(rem, s => !connected(round, s));
  }

  /** One step of a poll pass that removes connected switches from the live
      list while walking a snapshot of it: after position `j` the list is the
      poll result so far followed by the unvisited rest. */
  lemma PollStep<T>(snapshot: seq<T>, j: nat, round: nat, connected: (nat, T) -> bool)
    requires NoDups(snapshot) && j < |snapshot|
    ensures var s := snapshot[j];
      var before := Poll(snapshot[..j], round, connected) + snapshot[j..];
      var after := Poll(snapshot[..j + 1], round, connected) + snapshot[j + 1..];
      (if connected(round, s) then RemoveFirst(before, s) else before) == after
  {
    var s := snapshot[j];
    var done := Poll(snapshot[..j], round, connected);
    assert snapshot[..j + 1][..j] == snapshot[..j];
    assert snapshot[j..] == [s] + snapshot[j + 1..];
    if connected(round, s) {
      forall i | 0 <= i < |done| ensures done[i] != s {
        assert done[i] in snapshot[..j];
      }
      RemoveAfterPrefix(done, s, snapshot[j + 1..]);
      assert done + snapshot[j..] == done + [s] + snapshot[j + 1..];
      assert Poll(snapshot[..j + 1], round, connected) == done;
    } else {
      assert Poll(snapshot[..j + 1], round, connected) == done + [s];
    }
  }

  /** The final re-check after a timeout, as evidently intended: every
      remaining switch is asked once more; those still not connected are
      warned about and make the result `False`. */
  function Recheck<T>(rem: seq<T>, round: nat, connected: (nat, T) -> bool): WaitResult<T> {
    var left := Poll(rem, round, connected);
    Finished(left == [], left, round)
  }

  /** The loop from a state with `rem` still remaining, `time` ticks slept and
      `round` the next query round. */
  function WaitFrom<T>(rem: seq<T>, round: nat, time: int, timeout: Option<int>, delay: nat,
                       connected: (nat, T) -> bool, fuel: nat): (r: WaitResult<T>)
    ensures r.Finished? ==> r.lastRound >= round && |r.warned| <= |rem|
    decreases fuel
  {
    if fuel == 0 then Waiting
    else
      var left := Poll(rem, round, connected);
      if left == [] then Finished(true, [], round)
      else if timeout.Some? && time > timeout.value then Recheck(left, round + 1, connected)
      else WaitFrom(left, round + 1, time + delay, timeout, delay, connected, fuel - 1)
  }

  /** Switch `s` answered "not connected" in every round from `r0` to `r1`. */
  predicate NeverConnected<T>(s: T, r0: nat, r1: nat, connected: (nat, T) -> bool) {
    forall k :: r0 <= k <= r1 ==> !connected(k, s)
  }

  /** The switches of `rem` that never answered "connected" in any round
      from `r0` to `r1`, in their order. */
  function NeverConnectedIn<T>(rem: seq<T>, r0: nat, r1: nat, connected: (nat, T) -> bool): seq<T> {
    Filter(rem, s => NeverConnected(s, r0, r1, connected))
  }

  /** Filtering by "not connected in round `round`" and then by "never
      connected from round `round + 1` to `last`" is filtering by "never
      connected from `round` to `last`". */
  lemma NeverStep<T>(rem: seq<T>, round: nat, last: nat, connected: (nat, T) -> bool)
    requires round + 1 <= last
    ensures NeverConnectedIn(Poll(rem, round, connected), round + 1, last, connected)
         == NeverConnectedIn(rem, round, last, connected)
  {
    var p0 := s => !connected(round, s);
    var q := s => NeverConnected(s, round + 1, last, connected);
    FilterFilter(rem, p0, q);
    FilterAgree(rem, s => p0(s) && q(s), s => NeverConnected(s, round, last, connected));
  }

  /** One round's poll is "never connected" over that single round. */
  lemma NeverOneRound<T>(rem: seq<T>, round: nat, connected: (nat, T) -> bool)
    ensures Poll(rem, round, connected) == NeverConnectedIn(rem, round, round, connected)
  {
    FilterAgree(rem, s => NeverConnected(s, round, round, connected), s => !connected(round, s));
  }

  /** A run whose first poll pass empties the list warns about nobody. */
  lemma WarnedWhenAllConnect<T>(rem: seq<T>, round: nat, time: int, timeout: Option<int>,
                                delay: nat, connected: (nat, T) -> bool, fuel: nat)
    requires fuel > 0 && Poll(rem, round, connected) == []
    ensures var r := WaitFrom(rem, round, time, timeout, delay, connected, fuel);
      r.Finished? && r.warned == NeverConnectedIn(rem, round, r.lastRound, connected)
  {
    NeverOneRound(rem, round, connected);
  }

  /** A run that times out after its first pass warns about the switches
      that failed that pass and the re-check. */
  lemma WarnedAfterTimeout<T>(rem: seq<T>, round: nat, time: int, timeout: Option<int>,
                              delay: nat, connected: (nat, T) -> bool, fuel: nat)
    requires fuel > 0 && Poll(rem, round, connected) != [] && timeout.Some? && time > timeout.value
    ensures var r := WaitFrom(rem, round, time, timeout, delay, connected, fuel);
      r.Finished? && r.warned == NeverConnectedIn(rem, round, r.lastRound, connected)
  {
    var left := Poll(rem, round, connected);
    NeverOneRound(left, round + 1, connected);
    NeverStep(rem, round, round + 1, connected);
  }

  /** A run that sleeps and polls again warns about what the rest of the run
      warns about, seen from the first round. */
  lemma WarnedAfterSleep<T>(rem: seq<T>, round: nat, time: int, timeout: Option<int>,
                            delay: nat, connected: (nat, T) -> bool, fuel: nat)
    requires fuel > 0 && Poll(rem, round, connected) != [] && !(timeout.Some? && time > timeout.value)
    requires var left := Poll(rem, round, connected);
      var r := WaitFrom(left, round + 1, time + delay, timeout, delay, connected, fuel - 1);
      r.Finished? ==> r.warned == NeverConnectedIn(left, round + 1, r.lastRound, connected)
    ensures var r := WaitFrom(rem, round, time, timeout, delay, connected, fuel);
      r.Finished? ==> r.warned == NeverConnectedIn(rem, round, r.lastRound, connected)
  {
    var left := Poll(rem, round, connected);
    var r := WaitFrom(left, round + 1, time + delay, timeout, delay, connected, fuel - 1);
    if r.Finished? {
      NeverStep(rem, round, r.lastRound, connected);
    }
  }

  /** A finished run warns about exactly the switches that never answered
      "connected" in any round it made, in their order. */
  lemma {:induction false} WarnedNeverConnected<T>(rem: seq<T>, round: nat, time: int, timeout: Option<int>,
                                                   delay: nat, connected: (nat, T) -> bool, fuel: nat)
    ensures var r := WaitFrom(rem, round, time, timeout, delay, connected, fuel);
      r.Finished? ==> r.warned == NeverConnectedIn(rem, round, r.lastRound, connected)
    decreases fuel
  {
    if fuel > 0 {
      var left := Poll(rem, round, connected);
      if left == [] {
        WarnedWhenAllConnect(rem, round, time, timeout, delay, connected, fuel);
      } else if timeout.Some? && time > timeout.value {
        WarnedAfterTimeout(rem, round, time, timeout, delay, connected, fuel);
      } else {
        WarnedNeverConnected(left, round + 1, time + delay, timeout, delay, connected, fuel - 1);
        WarnedAfterSleep(rem, round, time, timeout, delay, connected, fuel);
      }
    }
  }

  /** A finished run reports success exactly when it warns about no switch. */
  lemma {:induction false} WaitOkIffNoWarnings<T>(rem: seq<T>, round: nat, time: int, timeout: Option<int>,
                                                  delay: nat, connected: (nat, T) -> bool, fuel: nat)
    ensures var r := WaitFrom(rem, round, time, timeout, delay, connected, fuel);
      r.Finished? ==> (r.ok <==> r.warned == [])
    decreases fuel
  {
    if fuel > 0 {
      var left := Poll(rem, round, connected);
      if left != [] && !(timeout.Some? && time > timeout.value) {
        WaitOkIffNoWarnings(left, round + 1, time + delay, timeout, delay, connected, fuel - 1);
      }
    }
  }

  /** A finished run warns about exactly the switches that never answered
      "connected" in any round it made, keeps their order, and reports
      success exactly when there are none. */
  lemma WaitExact<T>(rem: seq<T>, round: nat, time: int, timeout: Option<int>, delay: nat,
                     connected: (nat, T) -> bool, fuel: nat)
    ensures var r := WaitFrom(rem, round, time, timeout, delay, connected, fuel);
      r.Finished? ==>
        && r.lastRound >= round
        && r.warned == NeverConnectedIn(rem, round, r.lastRound, connected)
        && (r.ok <==> r.warned == [])
  {
    WarnedNeverConnected(rem, round, time, timeout, delay, connected, fuel);
    WaitOkIffNoWarnings(rem, round, time, timeout, delay, connected, fuel);
  }

  /** `waitConnected()` returns `True` exactly when every switch answered
      "connected" in some round, and then warns about none. */
  lemma WaitOkIffAllConnected<T>(switches: seq<T>, timeout: Option<int>, delay: nat,
                                 connected: (nat, T) -> bool, fuel: nat)
    ensures var r := WaitFrom(switches, 0, 0, timeout, delay, connected, fuel);
      r.Finished? ==>
        (r.ok <==> forall i :: 0 <= i < |switches| ==> !NeverConnected(switches[i], 0, r.lastRound, connected))
  {
    var r := WaitFrom(switches, 0, 0, timeout, delay, connected, fuel);
    WaitExact(switches, 0, 0, timeout, delay, connected, fuel);
    if r.Finished? {
      var never := s => NeverConnected(s, 0, r.lastRound, connected);
      if !r.ok {
        var s := r.warned[0];
        assert s in switches && never(s);
      } else {
        forall i | 0 <= i < |switches|
          ensures !NeverConnected(switches[i], 0, r.lastRound, connected)
        {
          var s := switches[i];
          assert never(s) ==> s in Filter(switches, never);
        }
      }
    }
  }

  /** `remaining` only shrinks: the switches a finished run warns about are
      some of the switches it started with, no more of them, in their order. */
  lemma WarnedAreRemaining<T>(rem: seq<T>, round: nat, time: int, timeout: Option<int>, delay: nat,
                              connected: (nat, T) -> bool, fuel: nat)
    ensures var r := WaitFrom(rem, round, time, timeout, delay, connected, fuel);
      r.Finished? ==> |r.warned| <= |rem| && forall i :: 0 <= i < |r.warned| ==> r.warned[i] in rem
  {
    WaitExact(rem, round, time, timeout, delay, connected, fuel);
  }

  /** With a timeout and a positive delay the loop ends: enough fuel to
      sleep past the timeout always yields a finished run. */
  lemma {:induction false} WaitEndsWithTimeout<T>(rem: seq<T>, round: nat, time: int, t: int, delay: nat,
                                                  connected: (nat, T) -> bool, fuel: nat)
    requires delay >= 1 && fuel >= 1
    requires time > t || (fuel - 1) * delay > t - time
    ensures WaitFrom(rem, round, time, Some(t), delay, connected, fuel).Finished?
    decreases fuel
  {
    var left := Poll(rem, round, connected);
    if left != [] && time <= t {
      assert (fuel - 1) * delay == (fuel - 2) * delay + delay;
      WaitEndsWithTimeout(left, round + 1, time + delay, t, delay, connected, fuel - 1);
    }
  }

  /** Fuel is only a bound: a run that finishes gives the same answer with
      any larger bound. */
  lemma {:induction false} WaitFuelIrrelevant<T>(rem: seq<T>, round: nat, time: int, timeout: Option<int>,
                                                 delay: nat, connected: (nat, T) -> bool, fuel: nat, more: nat)
    requires fuel <= more
    requires WaitFrom(rem, round, time, timeout, delay, connected, fuel).Finished?
    ensures WaitFrom(rem, round, time, timeout, delay, connected, more)
         == WaitFrom(rem, round, time, timeout, delay, connected, fuel)
    decreases fuel
  {
    var left := Poll(rem, round, connected);
    if left != [] && !(timeout.Some? && time > timeout.value) {
      WaitFuelIrrelevant(left, round + 1, time + delay, timeout, delay, connected, fuel - 1, more - 1);
    }
  }

  /** The final re-check as written (`for switch in remaining: ...
      remaining.remove(switch)`): Python's list iterator walks positions
      0, 1, 2, ... of the list it is shrinking, so the switch right after a
      removed one is never asked. `i` is the iterator's position. */
  function RecheckAsWrittenFrom<T(==)>(rem: seq<T>, i: nat, connectedNow: T -> bool): (r: seq<T>)
    ensures |r| <= |rem|
    ensures forall x :: x in r ==> x in rem
    decreases |rem| + 1 - i
  {
    if i >= |rem| then rem
    else if connectedNow(rem[i]) then
      RemoveFirstMembers(rem, rem[i]);
      RecheckAsWrittenFrom(RemoveFirst(rem, rem[i]), i + 1, connectedNow)
    else RecheckAsWrittenFrom(rem, i + 1, connectedNow)
  }

  /** The final re-check as written leaves a connected switch in `remaining`:
      with two remaining switches that are both connected by the time of the
      re-check, the second is skipped, so `waitConnected` returns `False`
      where the corrected re-check returns `True`. */
  lemma RecheckAsWrittenSkips()
    ensures RecheckAsWrittenFrom([1, 2], 0, (s: int) => true) == [2]
    ensures Recheck([1, 2], 0, (k: nat, s: int) => true) == Finished(true, [], 0)
  {
    assert RemoveFirst([1, 2], 1) == [2];
    assert Poll([1, 2], 0, (k: nat, s: int) => true) == [] by {
      var p := (s: int) => !((k: nat, s: int) => true)(0, s);
      assert Filter([1], p) == [];
      assert [1, 2][..1] == [1];
    }
  }
}
