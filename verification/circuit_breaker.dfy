/** The circuit breaker: when calls pass, and how many can pass once it has tripped. */
module CircuitBreakers {
  import opened Text

  datatype CircuitState = Closed | Open | HalfOpen

  datatype Policy = Policy(threshold: int, timeout: real)

  datatype Snapshot = Snapshot(state: CircuitState, failures: nat, openedAt: Option<real>, probe: bool)

  const NEW := Snapshot(Closed, 0, None, false)

  /** What callers do, with the clock they see. */
  datatype Op = Allow(now: real) | Success(now: real) | Failure(countable: bool, now: real)

  // ----- specification -----

  predicate Waiting(policy: Policy, s: Snapshot, now: real) {
    s.state == Open && (if s.openedAt.Some? then now - s.openedAt.value else 0.0) < policy.timeout
  }

  /** A call passes when the circuit is closed, or as the one probe of a half-open circuit. */
  predicate Admits(policy: Policy, s: Snapshot, now: real) {
    s.state == Closed || (!Waiting(policy, s, now) && (s.state == HalfOpen ==> !s.probe))
  }

  function Next(policy: Policy, s: Snapshot, op: Op): Snapshot {
    match op
    case Allow(now) =>
      if s.state == Closed then s
      else if Waiting(policy, s, now) then s.(openedAt := if s.openedAt.Some? then s.openedAt else Some(now))
      else
        var since := if s.openedAt.Some? || s.state == HalfOpen then s.openedAt else Some(now);
        Snapshot(HalfOpen, s.failures, since, true)
    case Success(_) => NEW
    case Failure(countable, now) =>
      if !countable then s.(probe := false)
      else if s.state == HalfOpen || s.failures + 1 >= policy.threshold then
        Snapshot(Open, s.failures + 1, Some(now), false)
      else s.(failures := s.failures + 1, probe := false)
  }

  function After(policy: Policy, s: Snapshot, ops: seq<Op>): Snapshot
    decreases |ops|
  {
    if ops == [] then s else Next(policy, After(policy, s, ops[..|ops| - 1]), ops[|ops| - 1])
  }

  class CircuitBreaker {
    const policy: Policy
    var state: CircuitState
    var failureCount: nat
    var openedAt: Option<real>
    var halfOpenProbeActive: bool

    function Contents(): Snapshot
      reads this
    {
      Snapshot(state, failureCount, openedAt, halfOpenProbeActive)
    }

    constructor (policy: Policy)
      ensures Contents() == NEW && this.policy == policy
    {
      this.policy := policy;
      state, failureCount, openedAt, halfOpenProbeActive := Closed, 0, None, false;
    }

    /** Returns false where the service raises that the circuit is open. */
    method Allow(now: real) returns (admitted: bool)
      modifies this
      ensures Contents() == Next(policy, old(Contents()), Op.Allow(now))
      ensures admitted <==> Admits(policy, old(Contents()), now)
    {
      if state == Closed { return true; }
      if state == Open {
        if openedAt == None { openedAt := Some(now); }
        if now - openedAt.value < policy.timeout { return false; }
        state := HalfOpen;
        halfOpenProbeActive := false;
      }
      if halfOpenProbeActive { return false; }
      halfOpenProbeActive := true;
      return true;
    }

    method RecordSuccess(now: real)
      modifies this
      ensures Contents() == Next(policy, old(Contents()), Op.Success(now))
    {
      state, failureCount, openedAt, halfOpenProbeActive := Closed, 0, None, false;
    }

    method RecordFailure(countable: bool, now: real)
      modifies this
      ensures Contents() == Next(policy, old(Contents()), Op.Failure(countable, now))
    {
      if !countable {
        halfOpenProbeActive := false;
        return;
      }
      failureCount := failureCount + 1;
      if state == HalfOpen || failureCount >= policy.threshold {
        state := Open;
        openedAt := Some(now);
      }
      halfOpenProbeActive := false;
    }
  }

  // ----- every reachable state -----

  /** Closed exactly while the failures stay below the threshold; a probe only while half
      open; a moment of opening whenever not closed, and only then. */
  predicate Consistent(policy: Policy, s: Snapshot) {
    && (s.state == Closed <==> s.failures < policy.threshold)
    && (s.probe ==> s.state == HalfOpen)
    && (s.openedAt.Some? <==> s.state != Closed)
  }

  lemma {:induction false} ReachableIsConsistent(policy: Policy, ops: seq<Op>)
    requires policy.threshold >= 1
    ensures Consistent(policy, After(policy, NEW, ops))
    decreases |ops|
  {
    if ops != [] { ReachableIsConsistent(policy, ops[..|ops| - 1]); }
  }

  /** A breaker whose threshold is not positive starts closed although it counts as tripped:
      every run is consistent exactly for positive thresholds. */
  lemma ConsistentExactlyForPositiveThresholds(policy: Policy)
    ensures policy.threshold >= 1 <==> forall ops :: Consistent(policy, After(policy, NEW, ops))
  {
    if policy.threshold >= 1 {
      forall ops ensures Consistent(policy, After(policy, NEW, ops)) { ReachableIsConsistent(policy, ops); }
    } else {
      assert !Consistent(policy, After(policy, NEW, []));
    }
  }

  // ----- the state is the history -----

  /** The failures that count since the last success. */
  function FailuresSince(ops: seq<Op>): nat
    decreases |ops|
  {
    if ops == [] || ops[|ops| - 1].Success? then 0
    else FailuresSince(ops[..|ops| - 1]) + (if ops[|ops| - 1].Failure? && ops[|ops| - 1].countable then 1 else 0)
  }

  /** The failure at `k` counts, and no success or other failure that counts comes after it. */
  predicate LastFailure(ops: seq<Op>, k: nat) {
    && k < |ops| && ops[k].Failure? && ops[k].countable
    && forall i :: k < i < |ops| ==> ops[i].Allow? || (ops[i].Failure? && !ops[i].countable)
  }

  /** Since the failure at `k` a call has come in after the recovery time. */
  predicate ProbedSince(policy: Policy, ops: seq<Op>, k: nat)
    requires k < |ops|
  {
    exists i :: k < i < |ops| && ops[i].Allow? && ops[i].now - ops[k].now >= policy.timeout
  }

  lemma {:induction false} SomeFailureIsLast(ops: seq<Op>) returns (k: nat)
    requires FailuresSince(ops) > 0
    ensures LastFailure(ops, k)
    decreases |ops|
  {
    var last := ops[|ops| - 1];
    if last.Failure? && last.countable {
      k := |ops| - 1;
    } else {
      k := SomeFailureIsLast(ops[..|ops| - 1]);
    }
  }

  lemma LastFailureBefore(ops: seq<Op>, k: nat)
    requires LastFailure(ops, k) && k < |ops| - 1
    ensures LastFailure(ops[..|ops| - 1], k) && !ops[|ops| - 1].Success?
    ensures FailuresSince(ops) == FailuresSince(ops[..|ops| - 1])
  {
  }

  /** Enough failures have counted; a threshold below one still takes one failure. */
  predicate Tripped(policy: Policy, ops: seq<Op>) {
    FailuresSince(ops) > 0 && FailuresSince(ops) >= policy.threshold
  }

  /** The whole state after any run. Until enough failures have counted since the last success
      the breaker is closed and knows their number. From then on it is open since the last of
      them, or half open once a call has come in after the recovery time; the probe is out
      exactly while a call was the last thing that happened. */
  lemma {:induction false} StateIsHistory(policy: Policy, ops: seq<Op>, k: nat)
    requires Tripped(policy, ops) ==> LastFailure(ops, k)
    ensures var s, n := After(policy, NEW, ops), FailuresSince(ops);
            if !Tripped(policy, ops) then s == Snapshot(Closed, n, None, false)
            else if ProbedSince(policy, ops, k) then
              s == Snapshot(HalfOpen, n, Some(ops[k].now), ops[|ops| - 1].Allow?)
            else s == Snapshot(Open, n, Some(ops[k].now), false)
    decreases |ops|
  {
    if ops != [] {
      var before, last := ops[..|ops| - 1], ops[|ops| - 1];
      if !Tripped(policy, before) {
        StateIsHistory(policy, before, k);
        assert Tripped(policy, ops) ==> k == |ops| - 1;
      } else if !Tripped(policy, ops) || k == |ops| - 1 {
        var j := SomeFailureIsLast(before);
        StateIsHistory(policy, before, j);
      } else {
        LastFailureBefore(ops, k);
        StateIsHistory(policy, before, k);
        if ProbedSince(policy, before, k) {
          var i :| k < i < |before| && before[i].Allow? && before[i].now - before[k].now >= policy.timeout;
          assert ops[i] == before[i];
        }
      }
    }
  }

  /** So a call passes exactly when too few failures have counted since the last success; or
      the recovery time has passed since the last of them and no probe is out. */
  lemma AdmissionIsHistory(policy: Policy, ops: seq<Op>, k: nat, now: real)
    requires Tripped(policy, ops) ==> LastFailure(ops, k)
    ensures Admits(policy, After(policy, NEW, ops), now) <==>
              || FailuresSince(ops) == 0 || FailuresSince(ops) < policy.threshold
              || (if ProbedSince(policy, ops, k) then !ops[|ops| - 1].Allow? else now - ops[k].now >= policy.timeout)
  {
    StateIsHistory(policy, ops, k);
  }

  // ----- after a trip -----

  predicate Ascending(ops: seq<Op>) {
    forall i :: 0 <= i < |ops| - 1 ==> ops[i].now <= ops[i + 1].now
  }

  predicate Monotone(from: real, ops: seq<Op>) {
    (ops != [] ==> from <= ops[0].now) && Ascending(ops)
  }

  /** Neither a success nor a failure that does not count. */
  predicate Failing(ops: seq<Op>) {
    forall i :: 0 <= i < |ops| ==> ops[i].Allow? || (ops[i].Failure? && ops[i].countable)
  }

  predicate Admitted(policy: Policy, s: Snapshot, ops: seq<Op>, i: nat)
    requires i < |ops|
  {
    ops[i].Allow? && Admits(policy, After(policy, s, ops[..i]), ops[i].now)
  }

  function AdmittedCount(policy: Policy, s: Snapshot, ops: seq<Op>): nat
    decreases |ops|
  {
    if ops == [] then 0
    else
      AdmittedCount(policy, s, ops[..|ops| - 1]) + (if Admitted(policy, s, ops, |ops| - 1) then 1 else 0)
  }

  function Latest(from: real, ops: seq<Op>): real {
    if ops == [] then from else ops[|ops| - 1].now
  }

  /** Where a tripped breaker is, if the last probe or the trip was at `t` or later: open since
      then, or waiting for the result of the probe it let through. */
  predicate TrippedSince(s: Snapshot, t: real, now: real) {
    t <= now && (if s.state == Open then s.openedAt.Some? && t <= s.openedAt.value else s.state == HalfOpen && s.probe)
  }

  function Scaled(k: nat, timeout: real): real {
    k as real * timeout
  }

  lemma OneMore(k: nat, timeout: real)
    ensures Scaled(k + 1, timeout) == Scaled(k, timeout) + timeout
  {
  }

  /** The k-th call after a trip passes k recovery times after it at the earliest. */
  lemma {:induction false} ProbesAreSpaced(policy: Policy, s: Snapshot, ops: seq<Op>)
    requires s.state == Open && s.openedAt.Some? && policy.timeout >= 0.0
    requires Failing(ops) && Monotone(s.openedAt.value, ops)
    ensures var t := s.openedAt.value + Scaled(AdmittedCount(policy, s, ops), policy.timeout);
            TrippedSince(After(policy, s, ops), t, Latest(s.openedAt.value, ops))
    decreases |ops|
  {
    if ops != [] {
      var before, op := ops[..|ops| - 1], ops[|ops| - 1];
      assert Failing(before) && Monotone(s.openedAt.value, before);
      ProbesAreSpaced(policy, s, before);
      assert Latest(s.openedAt.value, before) <= op.now;
      OneMore(AdmittedCount(policy, s, before), policy.timeout);
      hide Scaled;
    }
  }

  /** Between two calls that pass, at least the recovery time goes by. */
  lemma ConsecutiveProbesAreApart(policy: Policy, s: Snapshot, ops: seq<Op>, i: nat, j: nat)
    requires s.state == Open && s.openedAt.Some? && policy.timeout >= 0.0
    requires Failing(ops) && Monotone(s.openedAt.value, ops)
    requires i < j < |ops| && Admitted(policy, s, ops, i) && Admitted(policy, s, ops, j)
    ensures ops[j].now - ops[i].now >= policy.timeout
  {
    assert Failing(ops[..i]) && Monotone(s.openedAt.value, ops[..i]);
    ProbesAreSpaced(policy, s, ops[..i]);
    assert ops[..i + 1][..i] == ops[..i];
    assert After(policy, s, ops[..i + 1]).state == HalfOpen && After(policy, s, ops[..i + 1]).probe;
    ProbeBlocksUntilItFails(policy, s, ops, i, j);
  }

  lemma {:induction false} ProbeBlocksUntilItFails(policy: Policy, s: Snapshot, ops: seq<Op>, i: nat, j: nat)
    requires Failing(ops) && Ascending(ops) && policy.timeout >= 0.0
    requires i < j <= |ops| && After(policy, s, ops[..i + 1]).state == HalfOpen && After(policy, s, ops[..i + 1]).probe
    ensures TrippedSince(After(policy, s, ops[..j]), ops[i].now, ops[j - 1].now)
    decreases j
  {
    if j > i + 1 {
      ProbeBlocksUntilItFails(policy, s, ops, i, j - 1);
      assert ops[..j][..j - 1] == ops[..j - 1];
      assert ops[j - 2].now <= ops[j - 2 + 1].now;
    }
  }

  lemma NegativeTimesPositive(x: real, t: real)
    requires x < 0.0 && t > 0.0
    ensures x * t < 0.0
  {
  }

  lemma AtMostSoMany(k: nat, timeout: real, span: real)
    requires timeout > 0.0 && Scaled(k, timeout) <= span
    ensures k <= (span / timeout).Floor
  {
    var gap := span / timeout - k as real;
    assert gap * timeout == span - Scaled(k, timeout);
    if gap < 0.0 { NegativeTimesPositive(gap, timeout); }
  }

  /** At most floor(T / recovery time) calls pass within T of a trip. */
  lemma AdmissionBound(policy: Policy, s: Snapshot, ops: seq<Op>, span: real)
    requires s.state == Open && s.openedAt.Some? && policy.timeout > 0.0
    requires Failing(ops) && Monotone(s.openedAt.value, ops) && Latest(s.openedAt.value, ops) <= s.openedAt.value + span
    ensures AdmittedCount(policy, s, ops) <= (span / policy.timeout).Floor
  {
    ProbesAreSpaced(policy, s, ops);
    AtMostSoMany(AdmittedCount(policy, s, ops), policy.timeout, span);
  }

  /** While a probe is out, what lets the next call pass at once is exactly a success or a
      failure that does not count: the latter hands the probe back without reopening. */
  lemma WhatReleasesTheProbe(policy: Policy, s: Snapshot, op: Op)
    requires s.state == HalfOpen && s.probe && policy.timeout > 0.0
    ensures Admits(policy, Next(policy, s, op), op.now) <==> op.Success? || (op.Failure? && !op.countable)
  {
  }

  /** So the bound fails when failures do not count: any number of calls can pass at one and
      the same moment. */
  lemma {:induction false} UncountedFailuresBreakTheBound(policy: Policy, s: Snapshot, k: nat)
    returns (ops: seq<Op>)
    requires s.state == Open && s.openedAt.Some? && policy.timeout > 0.0
    ensures AdmittedCount(policy, s, ops) == k
    ensures forall i :: 0 <= i < |ops| ==> ops[i].now == s.openedAt.value + policy.timeout
    ensures k > 0 ==> After(policy, s, ops).state == HalfOpen && !After(policy, s, ops).probe
    ensures k == 0 ==> ops == []
    decreases k
  {
    if k == 0 {
      ops := [];
    } else {
      var before := UncountedFailuresBreakTheBound(policy, s, k - 1);
      var t := s.openedAt.value + policy.timeout;
      ops := before + [Op.Allow(t)] + [Op.Failure(false, t)];
      var one := before + [Op.Allow(t)];
      assert ops[..|ops| - 1] == one && one[..|one| - 1] == before;
      assert ops[..|one| - 1] == before;
    }
  }

  /** A waiting breaker lets a call pass as soon as the recovery time is over. */
  lemma RecoveryIsOffered(policy: Policy, s: Snapshot, now: real)
    requires s.state == Open && s.openedAt.Some?
    ensures Admits(policy, s, now) <==> now >= s.openedAt.value + policy.timeout
  {
  }
}
