/**
 The circuit breaker: what its fields say about the calls made so far.
*/
module CircuitBreaker {

  datatype CircuitState = Closed | Open | HalfOpen

  datatype Config = Config(failureThreshold: nat, successThreshold: nat, resetTimeout: nat)

  /** The breaker's fields. Times are readings of a clock. */
  datatype Breaker = Breaker(
    state: CircuitState,
    failureCount: nat,
    successCount: nat,
    totalCount: nat,
    totalFailures: nat,
    rejectedCount: nat,
    halfOpenSuccesses: nat,
    probeInFlight: bool,
    lastFailure: nat,
    stateChanged: nat)

  /** A call, and when it is made. */
  datatype Call =
    | Allow(now: nat)
    | Success(now: nat)
    | Failure(now: nat)
    | Abandon(now: nat)
    | Reset(now: nat)

  function Start(now: nat): Breaker {
    Breaker(Closed, 0, 0, 0, 0, 0, 0, false, 0, now)
  }

  // ---- What each call does ----

  function TransitionTo(b: Breaker, state: CircuitState, now: nat): Breaker {
    if b.state == state then b else b.(state := state, stateChanged := now, halfOpenSuccesses := 0)
  }

  /** The clock has run for the reset timeout since the circuit opened. */
  predicate TimeoutElapsed(c: Config, b: Breaker, now: nat) {
    now - b.stateChanged >= c.resetTimeout
  }

  predicate Admits(c: Config, b: Breaker, now: nat) {
    match b.state
    case Closed => true
    case Open => TimeoutElapsed(c, b, now)
    case HalfOpen => !b.probeInFlight
  }

  function Do(c: Config, b: Breaker, call: Call): Breaker {
    match call
    case Allow(now) =>
      if !Admits(c, b, now) then b.(rejectedCount := b.rejectedCount + 1)
      else if b.state == Closed then b
      else TransitionTo(b, HalfOpen, now).(probeInFlight := true)
    case Success(now) =>
      var d := b.(probeInFlight := false, totalCount := b.totalCount + 1, successCount := b.successCount + 1);
      if b.state == Closed then d.(failureCount := 0)
      else if b.state == Open then d
      else if b.halfOpenSuccesses + 1 >= c.successThreshold then TransitionTo(d, Closed, now)
      else d.(halfOpenSuccesses := b.halfOpenSuccesses + 1)
    case Failure(now) =>
      var d := b.(probeInFlight := false, totalCount := b.totalCount + 1, failureCount := b.failureCount + 1,
                  totalFailures := b.totalFailures + 1, lastFailure := now);
      if b.state == HalfOpen || (b.state == Closed && d.failureCount >= c.failureThreshold)
      then TransitionTo(d, Open, now) else d
    case Abandon(_) => b.(probeInFlight := false)
    case Reset(now) =>
      TransitionTo(b, Closed, now).(
        failureCount := 0, totalFailures := 0, halfOpenSuccesses := 0, probeInFlight := false)
  }

  class CircuitBreaker {
    const config: Config
    var state: CircuitState
    var failureCount: nat
    var successCount: nat
    var totalCount: nat
    var totalFailures: nat
    var rejectedCount: nat
    var halfOpenSuccesses: nat
    var probeInFlight: bool
    var lastFailure: nat
    var stateChanged: nat

    function View(): Breaker
      reads this
    {
      Breaker(state, failureCount, successCount, totalCount, totalFailures, rejectedCount,
              halfOpenSuccesses, probeInFlight, lastFailure, stateChanged)
    }

    constructor (config: Config, now: nat)
      ensures this.config == config && View() == Start(now)
    {
      this.config := config;
      state, failureCount, successCount, totalCount, totalFailures := Closed, 0, 0, 0, 0;
      rejectedCount, halfOpenSuccesses, probeInFlight, lastFailure, stateChanged := 0, 0, false, 0, now;
    }

    method Transition(to: CircuitState, now: nat)
      modifies `state, `stateChanged, `halfOpenSuccesses
      ensures View() == TransitionTo(old(View()), to, now)
    {
      if state != to {
        state := to;
        stateChanged := now;
        halfOpenSuccesses := 0;
      }
    }

    method AllowRequest(now: nat) returns (admitted: bool)
      modifies this
      ensures admitted == Admits(config, old(View()), now)
      ensures View() == Do(config, old(View()), Allow(now))
    {
      match state
      case Closed =>
        return true;
      case Open =>
        if now - stateChanged >= config.resetTimeout {
          Transition(HalfOpen, now);
          probeInFlight := true;
          return true;
        }
        rejectedCount := rejectedCount + 1;
        return false;
      case HalfOpen =>
        if probeInFlight {
          rejectedCount := rejectedCount + 1;
          return false;
        }
        probeInFlight := true;
        return true;
    }

    method RecordSuccess(now: nat)
      modifies this
      ensures View() == Do(config, old(View()), Success(now))
    {
      probeInFlight := false;
      totalCount := totalCount + 1;
      successCount := successCount + 1;
      match state
      case Closed =>
        failureCount := 0;
      case HalfOpen =>
        halfOpenSuccesses := halfOpenSuccesses + 1;
        if halfOpenSuccesses >= config.successThreshold {
          Transition(Closed, now);
        }
      case Open =>
    }

    method RecordFailure(now: nat)
      modifies this
      ensures View() == Do(config, old(View()), Failure(now))
    {
      probeInFlight := false;
      totalCount := totalCount + 1;
      failureCount := failureCount + 1;
      totalFailures := totalFailures + 1;
      lastFailure := now;
      match state
      case Closed =>
        if failureCount >= config.failureThreshold {
          Transition(Open, now);
        }
      case HalfOpen =>
        Transition(Open, now);
      case Open =>
    }

    method AbandonRequest(now: nat)
      modifies this
      ensures View() == Do(config, old(View()), Abandon(now))
    {
      probeInFlight := false;
    }

    method ResetCircuit(now: nat)
      modifies this
      ensures View() == Do(config, old(View()), Reset(now))
    {
      Transition(Closed, now);
      failureCount := 0;
      totalFailures := 0;
      halfOpenSuccesses := 0;
      probeInFlight := false;
    }
  }

  // ---- The fields as a summary of the history ----

  /** The breaker after a sequence of calls. */
  function After(c: Config, start: nat, calls: seq<Call>): Breaker {
    if calls == [] then Start(start) else Do(c, After(c, start, calls[..|calls| - 1]), calls[|calls| - 1])
  }

  /** The k-th call starts the count of failures afresh: a reset, or a success recorded while closed. */
  predicate Clears(c: Config, start: nat, calls: seq<Call>, k: nat)
    requires k < |calls|
  {
    calls[k].Reset? || (calls[k].Success? && After(c, start, calls[..k]).state == Closed)
  }

  /** How many of the calls from k on are failures, successes. */
  function Failures(calls: seq<Call>): nat {
    if calls == [] then 0 else Failures(calls[..|calls| - 1]) + if calls[|calls| - 1].Failure? then 1 else 0
  }

  function Successes(calls: seq<Call>): nat {
    if calls == [] then 0 else Successes(calls[..|calls| - 1]) + if calls[|calls| - 1].Success? then 1 else 0
  }

  /** The last k calls contain no clearing one, and the call before them, if any, is one. */
  ghost predicate LastClear(c: Config, start: nat, calls: seq<Call>, p: nat) {
    && p <= |calls|
    && (p > 0 ==> Clears(c, start, calls, p - 1))
    && (forall k :: p <= k < |calls| ==> !Clears(c, start, calls, k))
  }

  ghost predicate LastReset(calls: seq<Call>, p: nat) {
    && p <= |calls|
    && (p > 0 ==> calls[p - 1].Reset?)
    && (forall k :: p <= k < |calls| ==> !calls[k].Reset?)
  }

  /** The failure count is the failures since the last clearing call: a successful probe clears nothing. */
  lemma {:induction false} FailureCountIs(c: Config, start: nat, calls: seq<Call>, p: nat)
    requires LastClear(c, start, calls, p)
    ensures After(c, start, calls).failureCount == Failures(calls[p..])
  {
    var n := |calls| - 1;
    if p == |calls| {
      assert calls[p..] == [];
    } else {
      var front := calls[..n];
      FailuresOneMore(calls, p);
      assert !Clears(c, start, calls, n);
      forall k | 0 <= k < n ensures Clears(c, start, front, k) == Clears(c, start, calls, k) {
        assert front[..k] == calls[..k];
      }
      FailureCountIs(c, start, front, p);
    }
  }

  /** Calls and successes are counted from the start: no reset clears them. */
  lemma {:induction false} CountsAre(c: Config, start: nat, calls: seq<Call>)
    ensures After(c, start, calls).totalCount == Successes(calls) + Failures(calls)
    ensures After(c, start, calls).successCount == Successes(calls)
  {
    if calls != [] {
      CountsAre(c, start, calls[..|calls| - 1]);
    }
  }

  /** The total of failures is since the last reset. */
  lemma {:induction false} TotalFailuresAre(c: Config, start: nat, calls: seq<Call>, p: nat)
    requires LastReset(calls, p)
    ensures After(c, start, calls).totalFailures == Failures(calls[p..])
  {
    if p == |calls| {
      assert calls[p..] == [];
    } else {
      var n := |calls| - 1;
      FailuresOneMore(calls, p);
      TotalFailuresAre(c, start, calls[..n], p);
    }
  }

  lemma FailuresOneMore(calls: seq<Call>, p: nat)
    requires p < |calls|
    ensures var n := |calls| - 1;
            Failures(calls[p..]) == Failures(calls[..n][p..]) + if calls[n].Failure? then 1 else 0
  {
    var n := |calls| - 1;
    assert calls[p..][..n - p] == calls[..n][p..];
  }

  lemma {:induction false} FindReset(calls: seq<Call>) returns (p: nat)
    ensures LastReset(calls, p)
  {
    if calls == [] || calls[|calls| - 1].Reset? {
      p := |calls|;
    } else {
      p := FindReset(calls[..|calls| - 1]);
    }
  }

  lemma {:induction false} FindClear(c: Config, start: nat, calls: seq<Call>) returns (p: nat)
    ensures LastClear(c, start, calls, p)
  {
    var n := |calls| - 1;
    if calls == [] || Clears(c, start, calls, n) {
      p := |calls|;
    } else {
      p := FindClear(c, start, calls[..n]);
      forall k | 0 <= k < n ensures Clears(c, start, calls[..n], k) == Clears(c, start, calls, k) {
        assert calls[..n][..k] == calls[..k];
      }
    }
  }

  // ---- What every call keeps ----

  /** A probe is only in flight half-open; successes are only counted there, and below
      the threshold; a circuit that is not closed has as many failures as it takes. */
  ghost predicate Inv(c: Config, b: Breaker) {
    && (b.probeInFlight ==> b.state == HalfOpen)
    && (b.state != HalfOpen ==> b.halfOpenSuccesses == 0)
    && (b.state == HalfOpen ==> b.halfOpenSuccesses == 0 || b.halfOpenSuccesses < c.successThreshold)
    && (b.state != Closed ==> b.failureCount >= c.failureThreshold)
  }

  lemma {:induction false} InvAlways(c: Config, start: nat, calls: seq<Call>)
    ensures Inv(c, After(c, start, calls))
  {
    if calls != [] {
      InvAlways(c, start, calls[..|calls| - 1]);
    }
  }

  /** When a successful probe has closed the circuit, the next failure opens it again,
      whatever the threshold: the probe has not reset the count. */
  lemma ProbeForgivesNothing(c: Config, start: nat, calls: seq<Call>, closed: nat, failed: nat)
    requires After(c, start, calls).state == HalfOpen
    requires After(c, start, calls + [Success(closed)]).state == Closed
    ensures After(c, start, calls + [Success(closed), Failure(failed)]).state == Open
  {
    InvAlways(c, start, calls);
    assert (calls + [Success(closed)])[..|calls|] == calls;
    var all := calls + [Success(closed), Failure(failed)];
    assert all[..|all| - 1] == calls + [Success(closed)];
  }

  // ---- Nothing is admitted too early ----

  /** The call that opened the circuit, which has been open ever since. */
  lemma {:induction false} OpenedAt(c: Config, start: nat, calls: seq<Call>) returns (o: nat)
    requires After(c, start, calls).state == Open
    ensures o < |calls| && calls[o].Failure? && After(c, start, calls[..o]).state != Open
    ensures forall m :: o < m <= |calls| ==> After(c, start, calls[..m]).state == Open
    ensures After(c, start, calls).stateChanged == calls[o].now
  {
    var n := |calls| - 1;
    var front := calls[..n];
    assert calls[..|calls|] == calls;
    if After(c, start, front).state == Open {
      o := OpenedAt(c, start, front);
      assert front[..o] == calls[..o];
      forall m | o < m <= |calls| ensures After(c, start, calls[..m]).state == Open {
        if m <= n { assert front[..m] == calls[..m]; }
      }
    } else {
      o := n;
    }
  }

  /** While the circuit is open, a request is admitted exactly from the reset timeout
      after the failure that opened it. */
  lemma AdmittedAfterTimeout(c: Config, start: nat, calls: seq<Call>, now: nat) returns (o: nat)
    requires After(c, start, calls).state == Open
    ensures o < |calls| && calls[o].Failure? && After(c, start, calls[..o]).state != Open
    ensures Admits(c, After(c, start, calls), now) <==> now >= calls[o].now + c.resetTimeout
  {
    o := OpenedAt(c, start, calls);
  }

  // ---- When the circuit changes its state ----

  /** The e-th call made the circuit half-open, and it has been so since. */
  ghost predicate HalfOpenFrom(c: Config, start: nat, calls: seq<Call>, e: nat) {
    && e < |calls|
    && After(c, start, calls[..e]).state == Open
    && forall m :: e < m <= |calls| ==> After(c, start, calls[..m]).state == HalfOpen
  }

  lemma HalfOpenUntil(c: Config, start: nat, calls: seq<Call>, e: nat)
    requires HalfOpenFrom(c, start, calls, e)
    ensures After(c, start, calls).state == HalfOpen
    ensures e < |calls| - 1 ==> HalfOpenFrom(c, start, calls[..|calls| - 1], e)
    ensures e < |calls| - 1 ==> calls[..|calls| - 1][..e] == calls[..e]
    ensures e == |calls| - 1 ==> calls[e].Allow?
  {
    var front := calls[..|calls| - 1];
    assert calls[..|calls|] == calls;
    forall m | 0 <= m <= |front| ensures front[..m] == calls[..m] {
    }
    forall m | e < m <= |front| ensures After(c, start, front[..m]).state == HalfOpen {
      assert After(c, start, calls[..m]).state == HalfOpen;
    }
  }

  /** The successes counted half-open are those recorded since. */
  lemma {:induction false} HalfOpenSuccessesAre(c: Config, start: nat, calls: seq<Call>, e: nat)
    requires HalfOpenFrom(c, start, calls, e)
    ensures After(c, start, calls).halfOpenSuccesses == Successes(calls[e + 1..])
  {
    var n := |calls| - 1;
    HalfOpenUntil(c, start, calls, e);
    if e < n {
      HalfOpenSuccessesAre(c, start, calls[..n], e);
      assert calls[e + 1..][..n - e - 1] == calls[..n][e + 1..];
    } else {
      InvAlways(c, start, calls[..n]);
      assert calls[e + 1..] == [];
    }
  }

  lemma ThenCall(c: Config, start: nat, calls: seq<Call>, call: Call)
    ensures After(c, start, calls + [call]) == Do(c, After(c, start, calls), call)
  {
    assert (calls + [call])[..|calls|] == calls;
  }

  /** A closed circuit opens exactly when a failure brings the failures since the last
      clearing call to the threshold, and leaves its state in no other way. */
  lemma LeavesClosed(c: Config, start: nat, calls: seq<Call>, p: nat, call: Call)
    requires After(c, start, calls).state == Closed && LastClear(c, start, calls, p)
    ensures After(c, start, calls + [call]).state ==
            if call.Failure? && Failures(calls[p..]) + 1 >= c.failureThreshold then Open else Closed
  {
    ThenCall(c, start, calls, call);
    FailureCountIs(c, start, calls, p);
  }

  /** An open one becomes half-open with the first request from the reset timeout after the
      failure that opened it, closed with a reset, and stays open otherwise. */
  lemma LeavesOpen(c: Config, start: nat, calls: seq<Call>, call: Call) returns (o: nat)
    requires After(c, start, calls).state == Open
    ensures o < |calls| && calls[o].Failure? && After(c, start, calls[..o]).state != Open
    ensures forall m :: o < m <= |calls| ==> After(c, start, calls[..m]).state == Open
    ensures After(c, start, calls + [call]).state ==
            if call.Allow? && call.now >= calls[o].now + c.resetTimeout then HalfOpen
            else if call.Reset? then Closed
            else Open
  {
    ThenCall(c, start, calls, call);
    o := OpenedAt(c, start, calls);
  }

  /** A half-open one closes exactly when a success brings the successes since it became so to
      the threshold, or with a reset; it opens with any failure. */
  lemma LeavesHalfOpen(c: Config, start: nat, calls: seq<Call>, e: nat, call: Call)
    requires HalfOpenFrom(c, start, calls, e)
    ensures After(c, start, calls + [call]).state ==
            if call.Reset? || (call.Success? && Successes(calls[e + 1..]) + 1 >= c.successThreshold) then Closed
            else if call.Failure? then Open
            else HalfOpen
  {
    ThenCall(c, start, calls, call);
    HalfOpenUntil(c, start, calls, e);
    HalfOpenSuccessesAre(c, start, calls, e);
  }

  /** Half-open, a request is admitted exactly if the call before it was no request: an outcome
      or an abandonment has come since the probe. */
  lemma {:induction false} AdmittedHalfOpen(c: Config, start: nat, calls: seq<Call>, e: nat, now: nat)
    requires HalfOpenFrom(c, start, calls, e)
    ensures Admits(c, After(c, start, calls), now) <==> !calls[|calls| - 1].Allow?
  {
    HalfOpenUntil(c, start, calls, e);
    assert calls[..|calls|] == calls;
  }

  /** How many requests have been refused. */
  function Refused(c: Config, start: nat, calls: seq<Call>): nat {
    if calls == [] then 0
    else
      var front, last := calls[..|calls| - 1], calls[|calls| - 1];
      Refused(c, start, front) + if last.Allow? && !Admits(c, After(c, start, front), last.now) then 1 else 0
  }

  /** Refusals are counted from the start. */
  lemma {:induction false} RejectionsAre(c: Config, start: nat, calls: seq<Call>)
    ensures After(c, start, calls).rejectedCount == Refused(c, start, calls)
  {
    if calls != [] {
      RejectionsAre(c, start, calls[..|calls| - 1]);
    }
  }

  /** The last failure's time is remembered. */
  lemma {:induction false} LastFailureIs(c: Config, start: nat, calls: seq<Call>, k: nat)
    requires k < |calls| && calls[k].Failure? && forall j :: k < j < |calls| ==> !calls[j].Failure?
    ensures After(c, start, calls).lastFailure == calls[k].now
  {
    if k < |calls| - 1 {
      LastFailureIs(c, start, calls[..|calls| - 1], k);
    }
  }

  // ---- One probe at a time ----

  /** A call with the request it is made for, which the breaker is not told. */
  datatype Use = Use(id: nat, call: Call)

  function Calls(uses: seq<Use>): seq<Call> {
    seq(|uses|, i requires 0 <= i < |uses| => uses[i].call)
  }

  function Used(c: Config, start: nat, uses: seq<Use>): Breaker {
    After(c, start, Calls(uses))
  }

  predicate Admitted(c: Config, b: Breaker, call: Call) {
    call.Allow? && Admits(c, b, call.now)
  }

  predicate Concludes(call: Call) {
    call.Success? || call.Failure? || call.Abandon?
  }

  /** Requests admitted and not concluded. */
  function Out(c: Config, start: nat, uses: seq<Use>): set<nat> {
    if uses == [] then {}
    else
      var front, last := uses[..|uses| - 1], uses[|uses| - 1];
      if Admitted(c, Used(c, start, front), last.call) then Out(c, start, front) + {last.id}
      else if Concludes(last.call) then Out(c, start, front) - {last.id}
      else Out(c, start, front)
  }

  /** Those of them that were admitted while the circuit was open or half-open. */
  function Probes(c: Config, start: nat, uses: seq<Use>): set<nat> {
    if uses == [] then {}
    else
      var front, last := uses[..|uses| - 1], uses[|uses| - 1];
      var b := Used(c, start, front);
      if Admitted(c, b, last.call) && b.state != Closed then Probes(c, start, front) + {last.id}
      else if Concludes(last.call) then Probes(c, start, front) - {last.id}
      else Probes(c, start, front)
  }

  /** No two requests out share an id, and only requests that are out are concluded. */
  ghost predicate WellUsed(c: Config, start: nat, uses: seq<Use>) {
    uses != [] ==>
      var front, last := uses[..|uses| - 1], uses[|uses| - 1];
      && WellUsed(c, start, front)
      && (last.call.Allow? ==> last.id !in Out(c, start, front))
      && (Concludes(last.call) ==> last.id in Out(c, start, front))
  }

  /** The e-th call made the circuit half-open, and it has been so since. */
  ghost predicate HalfOpenSince(c: Config, start: nat, uses: seq<Use>, e: nat) {
    HalfOpenFrom(c, start, Calls(uses), e)
  }

  lemma LastCall(c: Config, start: nat, uses: seq<Use>)
    requires uses != []
    ensures Used(c, start, uses) == Do(c, Used(c, start, uses[..|uses| - 1]), uses[|uses| - 1].call)
  {
    assert Calls(uses)[..|uses| - 1] == Calls(uses[..|uses| - 1]);
  }

  lemma HalfOpenBefore(c: Config, start: nat, uses: seq<Use>, e: nat)
    requires HalfOpenSince(c, start, uses, e)
    ensures Used(c, start, uses).state == HalfOpen
    ensures e < |uses| - 1 ==> HalfOpenSince(c, start, uses[..|uses| - 1], e)
    ensures e < |uses| - 1 ==> uses[..|uses| - 1][..e] == uses[..e]
    ensures Used(c, start, uses[..e]).state == Open
  {
    assert Calls(uses)[..|uses| - 1] == Calls(uses[..|uses| - 1]);
    assert Calls(uses)[..e] == Calls(uses[..e]);
    HalfOpenUntil(c, start, Calls(uses), e);
  }

  /** The requests out are the probe, if one is in flight. */
  ghost predicate OnlyTheProbe(c: Config, start: nat, uses: seq<Use>) {
    && Probes(c, start, uses) == Out(c, start, uses)
    && |Out(c, start, uses)| == if Used(c, start, uses).probeInFlight then 1 else 0
  }

  /** Half-open, a request is admitted if no probe is in flight, and is one; a conclusion ends it. */
  lemma HalfOpenCall(c: Config, b: Breaker, call: Call)
    requires b.state == HalfOpen && Do(c, b, call).state == HalfOpen
    ensures call.Allow? ==> Admitted(c, b, call) == !b.probeInFlight && Do(c, b, call).probeInFlight
    ensures !call.Allow? ==> Concludes(call) && !Do(c, b, call).probeInFlight
  {
  }

  lemma CallKeepsOnlyTheProbe(c: Config, start: nat, uses: seq<Use>)
    requires uses != [] && WellUsed(c, start, uses) && OnlyTheProbe(c, start, uses[..|uses| - 1])
    requires Used(c, start, uses[..|uses| - 1]).state == HalfOpen && Used(c, start, uses).state == HalfOpen
    ensures OnlyTheProbe(c, start, uses)
  {
    var front, last := uses[..|uses| - 1], uses[|uses| - 1];
    var before, out := Used(c, start, front), Out(c, start, front);
    LastCall(c, start, uses);
    HalfOpenCall(c, before, last.call);
    OneOrNone(out, last.id);
    if Admitted(c, before, last.call) {
      assert Out(c, start, uses) == out + {last.id};
    } else if Concludes(last.call) {
      assert Out(c, start, uses) == out - {last.id};
    }
  }

  /** If nothing was outstanding on entering half-open, the only request outstanding is
      the probe, if there is one: at most one probe is out. */
  lemma {:induction false} OneProbe(c: Config, start: nat, uses: seq<Use>, e: nat)
    requires WellUsed(c, start, uses) && HalfOpenSince(c, start, uses, e)
    requires Out(c, start, uses[..e]) == {}
    ensures Probes(c, start, uses) == Out(c, start, uses)
    ensures |Probes(c, start, uses)| == if Used(c, start, uses).probeInFlight then 1 else 0
  {
    var front := uses[..|uses| - 1];
    HalfOpenBefore(c, start, uses, e);
    if e < |uses| - 1 {
      OneProbe(c, start, front, e);
      HalfOpenBefore(c, start, front, e);
      CallKeepsOnlyTheProbe(c, start, uses);
    } else {
      LastCall(c, start, uses);
      ProbesAreOut(c, start, front);
    }
  }

  lemma OneOrNone(s: set<nat>, id: nat)
    requires |s| <= 1
    ensures id in s ==> s - {id} == {}
    ensures |s| == 0 ==> s == {} && |s + {id}| == 1
  {
    if id in s { assert |s - {id}| == 0; }
  }

  lemma {:induction false} ProbesAreOut(c: Config, start: nat, uses: seq<Use>)
    ensures Probes(c, start, uses) <= Out(c, start, uses)
  {
    if uses != [] {
      ProbesAreOut(c, start, uses[..|uses| - 1]);
    }
  }

  lemma OneMore(c: Config, start: nat, uses: seq<Use>, u: Use)
    requires WellUsed(c, start, uses)
    requires u.call.Allow? ==> u.id !in Out(c, start, uses)
    requires Concludes(u.call) ==> u.id in Out(c, start, uses)
    ensures (uses + [u])[..|uses|] == uses
    ensures WellUsed(c, start, uses + [u])
    ensures Used(c, start, uses + [u]) == Do(c, Used(c, start, uses), u.call)
  {
    assert (uses + [u])[..|uses|] == uses;
    LastCall(c, start, uses + [u]);
  }

  lemma StillHalfOpen(c: Config, start: nat, uses: seq<Use>, u: Use, e: nat)
    requires HalfOpenSince(c, start, uses, e) && Used(c, start, uses + [u]).state == HalfOpen
    ensures HalfOpenSince(c, start, uses + [u], e)
  {
    var more := Calls(uses + [u]);
    assert more[..|more|] == more;
    forall m | 0 <= m <= |uses| ensures more[..m] == Calls(uses)[..m] {
    }
    forall m | e < m <= |more| ensures After(c, start, more[..m]).state == HalfOpen {
      if m <= |uses| { assert After(c, start, Calls(uses)[..m]).state == HalfOpen; }
    }
  }

  lemma JustHalfOpen(c: Config, start: nat, uses: seq<Use>)
    requires uses != [] && Used(c, start, uses[..|uses| - 1]).state == Open
    requires Used(c, start, uses).state == HalfOpen
    ensures HalfOpenSince(c, start, uses, |uses| - 1)
  {
    var calls := Calls(uses);
    assert calls[..|calls|] == calls;
    assert calls[..|calls| - 1] == Calls(uses[..|uses| - 1]);
  }

  /** A well-used request or abandonment leaves the circuit half-open. */
  lemma GoesOnHalfOpen(c: Config, start: nat, uses: seq<Use>, u: Use, e: nat)
    requires WellUsed(c, start, uses) && HalfOpenSince(c, start, uses, e)
    requires (u.call.Allow? && u.id !in Out(c, start, uses)) || (u.call.Abandon? && u.id in Out(c, start, uses))
    ensures (uses + [u])[..|uses|] == uses
    ensures WellUsed(c, start, uses + [u]) && HalfOpenSince(c, start, uses + [u], e)
    ensures Used(c, start, uses + [u]) == Do(c, Used(c, start, uses), u.call)
    ensures Used(c, start, uses).state == HalfOpen
  {
    HalfOpenBefore(c, start, uses, e);
    OneMore(c, start, uses, u);
    StillHalfOpen(c, start, uses, u, e);
  }

  lemma {:induction false} Unused(ids: set<nat>) returns (id: nat)
    ensures forall i :: i in ids ==> i < id
  {
    if ids == {} {
      id := 0;
    } else {
      var i :| i in ids;
      id := Unused(ids - {i});
      id := if i < id then id else i + 1;
      assert forall j :: j in ids ==> j == i || j in ids - {i};
    }
  }

  /**
   A request still outstanding when the circuit becomes half-open: its outcome does not
   say that it is not the probe's, and so admits a second probe beside the first.
  */
  lemma StaleOutcomeAdmitsSecondProbe(c: Config, start: nat, uses: seq<Use>, stale: nat, now: nat)
    returns (more: seq<Use>, first: nat, second: nat)
    requires uses != [] && WellUsed(c, start, uses) && HalfOpenSince(c, start, uses, |uses| - 1)
    requires stale in Out(c, start, uses[..|uses| - 1])
    ensures more == uses + [Use(stale, Abandon(now)), Use(second, Allow(now))]
    ensures WellUsed(c, start, more) && HalfOpenSince(c, start, more, |uses| - 1)
    ensures first != second && {first, second} <= Probes(c, start, more)
  {
    var e := |uses| - 1;
    LastCall(c, start, uses);
    HalfOpenBefore(c, start, uses, e);
    first := uses[e].id;
    assert first in Probes(c, start, uses) && first != stale;
    var freed := uses + [Use(stale, Abandon(now))];
    GoesOnHalfOpen(c, start, uses, Use(stale, Abandon(now)), e);
    second := Unused(Out(c, start, freed));
    AsksAgain(c, start, freed, e, first, second, now);
    more := freed + [Use(second, Allow(now))];
    assert more == uses + [Use(stale, Abandon(now)), Use(second, Allow(now))];
  }

  /** With no probe in flight for the breaker, another request is a probe beside the first. */
  lemma AsksAgain(c: Config, start: nat, uses: seq<Use>, e: nat, first: nat, second: nat, now: nat)
    requires WellUsed(c, start, uses) && HalfOpenSince(c, start, uses, e)
    requires !Used(c, start, uses).probeInFlight && first in Probes(c, start, uses)
    requires second !in Out(c, start, uses)
    ensures var more := uses + [Use(second, Allow(now))];
      && WellUsed(c, start, more) && HalfOpenSince(c, start, more, e)
      && first != second && {first, second} <= Probes(c, start, more)
  {
    ProbesAreOut(c, start, uses);
    GoesOnHalfOpen(c, start, uses, Use(second, Allow(now)), e);
  }

  /** However callers that behave go on while the circuit stays half-open, at most one
      probe is out. */
  ghost predicate StaysSingle(c: Config, start: nat, uses: seq<Use>, e: nat) {
    forall more :: uses <= more && WellUsed(c, start, more) && HalfOpenSince(c, start, more, e) ==>
      |Probes(c, start, more)| <= 1
  }

  /** One probe at a time, if and only if nothing is outstanding on entering half-open. */
  lemma OneProbeExactly(c: Config, start: nat, uses: seq<Use>)
    requires uses != [] && WellUsed(c, start, uses) && HalfOpenSince(c, start, uses, |uses| - 1)
    ensures StaysSingle(c, start, uses, |uses| - 1) <==> Out(c, start, uses[..|uses| - 1]) == {}
  {
    var e := |uses| - 1;
    if Out(c, start, uses[..e]) == {} {
      forall more | uses <= more && WellUsed(c, start, more) && HalfOpenSince(c, start, more, e)
        ensures |Probes(c, start, more)| <= 1
      {
        assert more[..e] == uses[..e];
        OneProbe(c, start, more, e);
      }
    } else {
      var stale :| stale in Out(c, start, uses[..e]);
      var more, first, second := StaleOutcomeAdmitsSecondProbe(c, start, uses, stale, 0);
      TwoAreTwo(Probes(c, start, more), first, second);
      assert uses <= more;
    }
  }

  const EAGER := Config(1, 1, 0)

  /** A well-used history of an eager circuit, and where it leads. */
  ghost predicate LeadsTo(uses: seq<Use>, b: Breaker, out: set<nat>) {
    WellUsed(EAGER, 0, uses) && Used(EAGER, 0, uses) == b && Out(EAGER, 0, uses) == out
  }

  lemma Admit(uses: seq<Use>, b: Breaker, out: set<nat>, id: nat)
    requires LeadsTo(uses, b, out) && id !in out && Admits(EAGER, b, 0)
    ensures (uses + [Use(id, Allow(0))])[..|uses|] == uses
    ensures LeadsTo(uses + [Use(id, Allow(0))], Do(EAGER, b, Allow(0)), out + {id})
  {
    OneMore(EAGER, 0, uses, Use(id, Allow(0)));
  }

  lemma Fail(uses: seq<Use>, b: Breaker, out: set<nat>, id: nat)
    requires LeadsTo(uses, b, out) && id in out
    ensures LeadsTo(uses + [Use(id, Failure(0))], Do(EAGER, b, Failure(0)), out - {id})
  {
    OneMore(EAGER, 0, uses, Use(id, Failure(0)));
  }

  /** That a request is still outstanding then does happen: two are admitted, and the failure
      of one opens the circuit. */
  lemma StaleRequestIsPossible() returns (uses: seq<Use>)
    ensures uses != [] && WellUsed(EAGER, 0, uses) && HalfOpenSince(EAGER, 0, uses, |uses| - 1)
    ensures Out(EAGER, 0, uses[..|uses| - 1]) == {1}
  {
    var b := Start(0);
    Admit([], b, {}, 0);
    Admit([] + [Use(0, Allow(0))], b, {0}, 1);
    var both := [] + [Use(0, Allow(0))] + [Use(1, Allow(0))];
    assert {0} + {1} == {0, 1} && {0, 1} - {0} == {1};
    Fail(both, b, {0, 1}, 0);
    var failed := both + [Use(0, Failure(0))];
    Admit(failed, Do(EAGER, b, Failure(0)), {1}, 2);
    uses := failed + [Use(2, Allow(0))];
    JustHalfOpen(EAGER, 0, uses);
  }

  lemma TwoAreTwo(s: set<nat>, a: nat, b: nat)
    requires a != b && {a, b} <= s
    ensures |s| > 1
  {
    assert b in s - {a};
    assert |s - {a}| == |s| - 1;
  }
}
