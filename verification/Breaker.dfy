/** The circuit breaker in front of the external ledger: a three-state machine whose calls start
    in one state and, because they run outside its lock, may finish in another. */
module Breaker {
  import opened Domain

  datatype Mode = Closed | Open | HalfOpen

  datatype Limits = Limits(failureThreshold: int, timeoutSeconds: int, halfOpenMaxCalls: int, successThreshold: int)

  datatype Circuit = Circuit(mode: Mode, failures: nat, successes: nat, openedAt: Option<Time>, probes: nat,
                             calls: nat, totalFailures: nat, totalSuccesses: nat)

  const FRESH := Circuit(Closed, 0, 0, None, 0, 0, 0, 0)

  // ---------------------------------------------------------------------------------------
  // The locked sections
  // ---------------------------------------------------------------------------------------

  function Opened(b: Circuit, now: Time): Circuit { b.(mode := Open, openedAt := Some(now), probes := 0) }

  function HalfOpened(b: Circuit): Circuit { b.(mode := HalfOpen, successes := 0, failures := 0, probes := 0) }

  function Shut(b: Circuit): Circuit {
    b.(mode := Closed, failures := 0, successes := 0, openedAt := None, probes := 0)
  }

  /** Enough time has passed to try again. */
  predicate ResetDue(c: Limits, b: Circuit, now: Time) {
    b.openedAt.Some? && now - b.openedAt.value >= c.timeoutSeconds * SECOND
  }

  /** Whole seconds until a refused caller may try again. */
  function RetryAfter(c: Limits, b: Circuit, now: Time): int {
    if b.openedAt.None? then c.timeoutSeconds
    else Max(0, c.timeoutSeconds * SECOND - (now - b.openedAt.value)) / SECOND
  }

  datatype Admission = Admission(circuit: Circuit, admitted: bool)

  function Admit(c: Limits, b: Circuit, now: Time): Admission {
    var b := b.(calls := b.calls + 1);
    if b.mode.Open? && !ResetDue(c, b, now) then Admission(b, false)
    else
      var b := if b.mode.Open? then HalfOpened(b) else b;
      if b.mode.HalfOpen? && b.probes >= c.halfOpenMaxCalls then Admission(b, false)
      else Admission(if b.mode.HalfOpen? then b.(probes := b.probes + 1) else b, true)
  }

  function OnSuccess(c: Limits, b: Circuit): Circuit {
    var b := b.(successes := b.successes + 1, totalSuccesses := b.totalSuccesses + 1, failures := 0);
    if b.mode.HalfOpen? && b.successes >= c.successThreshold then Shut(b) else b
  }

  function OnFailure(c: Limits, b: Circuit, now: Time): Circuit {
    var b := b.(failures := b.failures + 1, totalFailures := b.totalFailures + 1, successes := 0);
    if b.mode.HalfOpen? || (b.mode.Closed? && b.failures >= c.failureThreshold) then Opened(b, now) else b
  }

  class CircuitBreaker {
    const config: Limits
    var mode: Mode
    var failureCount: nat
    var successCount: nat
    var openedAt: Option<Time>
    var halfOpenCalls: nat
    var totalCalls: nat
    var totalFailures: nat
    var totalSuccesses: nat

    ghost function View(): Circuit
      reads this
    {
      Circuit(mode, failureCount, successCount, openedAt, halfOpenCalls, totalCalls, totalFailures, totalSuccesses)
    }

    constructor (config: Limits)
      ensures View() == FRESH && this.config == config
    {
      this.config := config;
      mode, failureCount, successCount, openedAt := Closed, 0, 0, None;
      halfOpenCalls, totalCalls, totalFailures, totalSuccesses := 0, 0, 0, 0;
    }

    method TransitionToOpen(now: Time)
      modifies this
      ensures View() == Opened(old(View()), now)
    {
      mode := Open;
      openedAt := Some(now);
      halfOpenCalls := 0;
    }

    method TransitionToHalfOpen()
      modifies this
      ensures View() == HalfOpened(old(View()))
    {
      mode := HalfOpen;
      successCount, failureCount, halfOpenCalls := 0, 0, 0;
    }

    method TransitionToClosed()
      modifies this
      ensures View() == Shut(old(View()))
    {
      mode := Closed;
      failureCount, successCount := 0, 0;
      openedAt := None;
      halfOpenCalls := 0;
    }

    method SecondsUntilHalfOpen(now: Time) returns (seconds: int)
      ensures seconds == RetryAfter(config, View(), now)
    {
      if openedAt.None? {
        return config.timeoutSeconds;
      }
      var remaining := config.timeoutSeconds * SECOND - (now - openedAt.value);
      return (if remaining < 0 then 0 else remaining) / SECOND;
    }

    /** The section a call goes through before it may run; a refused caller learns when to retry. */
    method Enter(now: Time) returns (admitted: bool, retryAfter: int)
      modifies this
      ensures Admission(View(), admitted) == Admit(config, old(View()), now)
      ensures !admitted ==> retryAfter == RetryAfter(config, View(), now)
    {
      totalCalls := totalCalls + 1;
      retryAfter := 0;
      if mode.Open? {
        if openedAt.Some? && now - openedAt.value >= config.timeoutSeconds * SECOND {
          TransitionToHalfOpen();
        } else {
          retryAfter := SecondsUntilHalfOpen(now);
          return false, retryAfter;
        }
      }
      if mode.HalfOpen? {
        if halfOpenCalls >= config.halfOpenMaxCalls {
          retryAfter := SecondsUntilHalfOpen(now);
          return false, retryAfter;
        }
        halfOpenCalls := halfOpenCalls + 1;
      }
      admitted := true;
    }

    method RecordSuccess()
      modifies this
      ensures View() == OnSuccess(config, old(View()))
    {
      successCount, totalSuccesses, failureCount := successCount + 1, totalSuccesses + 1, 0;
      if mode.HalfOpen? && successCount >= config.successThreshold {
        TransitionToClosed();
      }
    }

    method RecordFailure(now: Time)
      modifies this
      ensures View() == OnFailure(config, old(View()), now)
    {
      failureCount, totalFailures, successCount := failureCount + 1, totalFailures + 1, 0;
      if mode.HalfOpen? {
        TransitionToOpen(now);
      } else if mode.Closed? {
        if failureCount >= config.failureThreshold {
          TransitionToOpen(now);
        }
      }
    }

    method Reset()
      modifies this
      ensures View() == Shut(old(View()))
    {
      TransitionToClosed();
    }
  }

  // ---------------------------------------------------------------------------------------
  // Runs
  // ---------------------------------------------------------------------------------------

  /** The breaker together with the calls running outside its lock. A call admitted as a probe
      carries the number of its half-open period. Three histories are kept: `recorded`, the outcomes
      since the breaker last closed (true for a success); `admitted`, how many probes each half-open
      period has let through; and `heard`, the successes recorded in the latest half-open period,
      true for those of its own probes and false for late ones of calls admitted earlier. */
  datatype Traffic = Traffic(now: Time, circuit: Circuit, flights: map<CallId, Option<nat>>, nextCall: CallId,
                           recorded: seq<bool>, admitted: seq<nat>, heard: seq<bool>)

  function Init(now: Time): Traffic { Traffic(now, FRESH, map[], 0, [], [], []) }

  datatype Event =
    | Tick(at: Time)
    | Start
    | Succeed(call: CallId)
    | Fail(call: CallId)
    | Leave(call: CallId) // a non-failure exception or a cancellation: nothing is recorded
    | ManualReset

  /** The histories after the circuit has moved to `b`. */
  function Moved(s: Traffic, b: Circuit, outcome: bool): Traffic {
    s.(circuit := b, recorded := if b.mode.Closed? && !s.circuit.mode.Closed? then [] else s.recorded + [outcome])
  }

  function Started(c: Limits, s: Traffic): Traffic {
    var a := Admit(c, s.circuit, s.now);
    var enters := s.circuit.mode.Open? && a.circuit.mode.HalfOpen?;
    var s := if enters then s.(admitted := s.admitted + [0], heard := []) else s;
    if !a.admitted then s.(circuit := a.circuit)
    else if a.circuit.mode.HalfOpen? && s.admitted != [] then
      var n := |s.admitted| - 1;
      s.(circuit := a.circuit, nextCall := s.nextCall + 1,
         admitted := s.admitted[n := s.admitted[n] + 1], flights := s.flights[s.nextCall := Some(n)])
    else
      s.(circuit := a.circuit, nextCall := s.nextCall + 1, flights := s.flights[s.nextCall := None])
  }

  /** The call runs as a probe of the current half-open period. */
  predicate Own(s: Traffic, k: CallId) { k in s.flights && s.flights[k] == Some(|s.admitted| - 1) }

  function Next(c: Limits, s: Traffic, e: Event): Traffic {
    match e
    case Tick(at) => s.(now := Max(s.now, at))
    case Start => Started(c, s)
    case Succeed(k) =>
      if k !in s.flights then s
      else
        Moved(s, OnSuccess(c, s.circuit), true)
          .(flights := s.flights - {k}, heard := if s.circuit.mode.HalfOpen? then s.heard + [Own(s, k)] else s.heard)
    case Fail(k) =>
      if k !in s.flights then s else Moved(s, OnFailure(c, s.circuit, s.now), false).(flights := s.flights - {k})
    case Leave(k) => s.(flights := s.flights - {k})
    case ManualReset => s.(circuit := Shut(s.circuit), recorded := [])
  }

  function Run(c: Limits, s: Traffic, es: seq<Event>): Traffic
    decreases |es|
  {
    if es == [] then s else Next(c, Run(c, s, es[..|es| - 1]), es[|es| - 1])
  }

  lemma RunNothing(c: Limits, s: Traffic)
    ensures Run(c, s, []) == s
  {
  }

  lemma RunOneMore(c: Limits, s: Traffic, es: seq<Event>, e: Event)
    ensures Run(c, s, es + [e]) == Next(c, Run(c, s, es), e)
  {
    assert (es + [e])[..|es|] == es;
  }

  lemma {:induction false} RunAppend(c: Limits, s: Traffic, es: seq<Event>, fs: seq<Event>)
    ensures Run(c, s, es + fs) == Run(c, Run(c, s, es), fs)
    decreases |fs|
  {
    if fs == [] {
      assert es + fs == es;
    } else {
      assert (es + fs)[..|es + fs| - 1] == es + fs[..|fs| - 1];
      RunAppend(c, s, es, fs[..|fs| - 1]);
    }
  }

  // ---------------------------------------------------------------------------------------
  // What every run keeps
  // ---------------------------------------------------------------------------------------

  /** How many failures the history ends with. */
  function Trailing(h: seq<bool>): nat {
    if h == [] || h[|h| - 1] then 0 else Trailing(h[..|h| - 1]) + 1
  }

  ghost predicate Inv(c: Limits, s: Traffic) {
    && (s.circuit.mode.Closed? <==> s.circuit.openedAt.None?)
    && (s.circuit.openedAt.Some? ==> s.circuit.openedAt.value <= s.now)
    && (s.circuit.mode.Closed? ==> s.circuit.failures == Trailing(s.recorded))
    && (s.circuit.mode.HalfOpen? ==> s.admitted != [] && s.circuit.probes == s.admitted[|s.admitted| - 1])
    && (s.circuit.mode.HalfOpen? ==> s.circuit.successes == 0 || s.circuit.successes < c.successThreshold)
    && (forall i :: 0 <= i < |s.admitted| ==> s.admitted[i] <= Max(0, c.halfOpenMaxCalls))
    && (forall k :: k in s.flights ==> k < s.nextCall)
    && (forall k :: k in s.flights && s.flights[k].Some? ==> s.flights[k].value < |s.admitted|)
    && (s.circuit.mode.HalfOpen? ==> s.circuit.successes == |s.heard|)
  }

  lemma StartKeeps(c: Limits, s: Traffic)
    requires Inv(c, s)
    ensures Inv(c, Started(c, s))
  {
    hide Trailing;
  }

  lemma NextKeeps(c: Limits, s: Traffic, e: Event)
    requires Inv(c, s)
    ensures Inv(c, Next(c, s, e))
  {
    hide Started;
    match e {
      case Start => StartKeeps(c, s);
      case Fail(k) => assert (s.recorded + [false])[..|s.recorded|] == s.recorded;
      case _ =>
    }
  }

  lemma {:induction false} RunKeeps(c: Limits, s: Traffic, es: seq<Event>)
    requires Inv(c, s)
    ensures Inv(c, Run(c, s, es))
    decreases |es|
  {
    hide Inv, Next;
    if es == [] {
    } else {
      RunKeeps(c, s, es[..|es| - 1]);
      NextKeeps(c, Run(c, s, es[..|es| - 1]), es[|es| - 1]);
    }
  }

  ghost predicate Reachable(c: Limits, s: Traffic) {
    exists now, es :: s == Run(c, Init(now), es)
  }

  lemma ReachableInv(c: Limits, s: Traffic)
    requires Reachable(c, s)
    ensures Inv(c, s)
  {
    var now, es :| s == Run(c, Init(now), es);
    RunKeeps(c, Init(now), es);
  }

  /** The opening time is unset exactly in CLOSED, and no half-open period lets more than the
      configured number of probes through. */
  lemma OpenedAtAndProbes(c: Limits, s: Traffic, period: nat)
    requires Reachable(c, s)
    ensures s.circuit.openedAt.None? <==> s.circuit.mode.Closed?
    ensures period < |s.admitted| ==> s.admitted[period] <= Max(0, c.halfOpenMaxCalls)
  {
    ReachableInv(c, s);
  }

  // ---------------------------------------------------------------------------------------
  // Opening
  // ---------------------------------------------------------------------------------------

  /** The last `n` outcomes of `h` are all failures. */
  predicate EndsInFailures(h: seq<bool>, n: int) {
    n <= |h| && forall i :: 0 <= i < |h| && |h| - n <= i ==> !h[i]
  }

  lemma {:induction false} TrailingMeans(h: seq<bool>, n: int)
    ensures EndsInFailures(h, n) <==> n <= Trailing(h)
  {
    if h == [] {
    } else {
      var m := |h| - 1;
      TrailingMeans(h[..m], n - 1);
      if h[m] && n >= 1 {
        assert !EndsInFailures(h, n);
      } else if !h[m] {
        assert EndsInFailures(h, n) <==> EndsInFailures(h[..m], n - 1);
      }
    }
  }

  lemma FailureCounts(h: seq<bool>)
    ensures Trailing(h + [false]) == Trailing(h) + 1
  {
    assert (h + [false])[..|h|] == h;
  }

  /** A closed breaker opens exactly when a call fails and, with it, the last `failureThreshold`
      outcomes recorded since it closed (at least one) were all failures; the time is noted. Refusals
      and cancellations are not outcomes. */
  lemma OpensIff(c: Limits, s: Traffic, e: Event)
    requires Reachable(c, s) && s.circuit.mode.Closed?
    ensures !Next(c, s, e).circuit.mode.Closed? <==>
              e.Fail? && e.call in s.flights && EndsInFailures(s.recorded + [false], Max(1, c.failureThreshold))
    ensures Next(c, s, e).circuit.mode.Closed? || Next(c, s, e).circuit.mode.Open?
    ensures Next(c, s, e).circuit.mode.Open? ==> Next(c, s, e).circuit.openedAt == Some(s.now)
  {
    hide Reachable, EndsInFailures, Trailing, Started;
    ReachableInv(c, s);
    FailureCounts(s.recorded);
    TrailingMeans(s.recorded + [false], Max(1, c.failureThreshold));
    ClosedStays(c, s);
  }

  // ---------------------------------------------------------------------------------------
  // Deciding a half-open period
  // ---------------------------------------------------------------------------------------

  /** Short of a manual reset, a half-open breaker closes exactly on the success that completes
      `successThreshold` successes (at least one) recorded in its period, whoever they come from;
      and it reopens exactly when a running call fails, whenever that was admitted. */
  lemma ClosesIff(c: Limits, s: Traffic, e: Event)
    requires Reachable(c, s) && s.circuit.mode.HalfOpen? && !e.ManualReset?
    ensures Next(c, s, e).circuit.mode.Closed? <==>
              e.Succeed? && e.call in s.flights && |s.heard| + 1 == Max(1, c.successThreshold)
    ensures Next(c, s, e).circuit.mode.Open? <==> e.Fail? && e.call in s.flights
    ensures Next(c, s, e).circuit.mode.Open? ==> Next(c, s, e).circuit.openedAt == Some(s.now)
  {
    ReachableInv(c, s);
  }

  /** How many of the successes came from probes of the period itself. */
  function OwnSuccesses(h: seq<bool>): nat {
    if h == [] then 0 else OwnSuccesses(h[..|h| - 1]) + (if h[|h| - 1] then 1 else 0)
  }

  lemma {:induction false} OwnSuccessesBound(h: seq<bool>)
    ensures OwnSuccesses(h) <= |h|
    ensures OwnSuccesses(h) == |h| <==> forall i :: 0 <= i < |h| ==> h[i]
  {
    if h == [] {
    } else {
      var n := |h| - 1;
      OwnSuccessesBound(h[..n]);
      assert (forall i :: 0 <= i < |h| ==> h[i]) <==> h[n] && forall i :: 0 <= i < n ==> h[..n][i];
    }
  }

  /** When a half-open breaker closes, as many probes of its own period as the threshold asks for
      have succeeded if and only if no late success was recorded in the period. */
  lemma ClosedByProbesIff(c: Limits, s: Traffic, e: Event)
    requires Reachable(c, s) && s.circuit.mode.HalfOpen? && !e.ManualReset? && Next(c, s, e).circuit.mode.Closed?
    ensures var heard := Next(c, s, e).heard;
            OwnSuccesses(heard) >= Max(1, c.successThreshold) <==> forall i :: 0 <= i < |heard| ==> heard[i]
  {
    ClosesIff(c, s, e);
    OwnSuccessesBound(Next(c, s, e).heard);
  }

  lemma SixEvents(c: Limits, s: Traffic, a: Event, b: Event, d: Event, e: Event, f: Event, g: Event)
    ensures Run(c, s, [a, b, d, e, f, g]) ==
              Next(c, Next(c, Next(c, Next(c, Next(c, Next(c, s, a), b), d), e), f), g)
  {
    hide Next;
    assert [a, b, d, e, f, g] == [] + [a, b] + [d, e] + [f, g];
    TwoMore(c, s, [], a, b);
    TwoMore(c, s, [] + [a, b], d, e);
    TwoMore(c, s, [] + [a, b] + [d, e], f, g);
  }

  lemma OpenWithOneRunning(c: Limits, now: Time)
    requires c.failureThreshold <= 1
    ensures var s := Next(c, Next(c, Next(c, Init(now), Start), Start), Fail(1));
            && s.circuit.mode.Open? && s.circuit.openedAt == Some(now) && s.now == now
            && s.nextCall == 2 && s.flights == map[0 := None] && s.admitted == []
  {
    var s2 := Next(c, Next(c, Init(now), Start), Start);
    assert s2.flights == map[0 := None, 1 := None];
  }

  /** Late successes do close breakers: two calls start, the second fails and opens the breaker, and
      after the timeout a probe starts; then the first call succeeds and the breaker closes, although
      its only probe is still running. */
  lemma LateSuccessCloses(c: Limits, now: Time) returns (es: seq<Event>)
    requires c.failureThreshold <= 1 && c.successThreshold <= 1 && 1 <= c.halfOpenMaxCalls
    ensures forall e :: e in es ==> !e.ManualReset? && !e.Leave?
    ensures var s := Run(c, Init(now), es);
            s.circuit.mode.Closed? && s.heard == [false] && s.flights == map[2 := Some(0)]
  {
    hide Init, Next;
    var at := now + Max(0, c.timeoutSeconds) * SECOND;
    es := [Start, Start, Fail(1), Tick(at), Start, Succeed(0)];
    SixEvents(c, Init(now), Start, Start, Fail(1), Tick(at), Start, Succeed(0));
    var s3 := Next(c, Next(c, Next(c, Init(now), Start), Start), Fail(1));
    OpenWithOneRunning(c, now);
    ClosedByLateSuccess(c, s3, at);
  }

  lemma ClosedByLateSuccess(c: Limits, s: Traffic, at: Time)
    requires c.successThreshold <= 1 && 1 <= c.halfOpenMaxCalls && at >= s.now
    requires s.circuit.mode.Open? && ResetDue(c, s.circuit, at)
    requires s.nextCall == 2 && s.flights == map[0 := None] && s.admitted == []
    ensures var s' := Next(c, Next(c, Next(c, s, Tick(at)), Start), Succeed(0));
            s'.circuit.mode.Closed? && s'.heard == [false] && s'.flights == map[2 := Some(0)]
  {
    var s2 := Next(c, Next(c, s, Tick(at)), Start);
    assert s2.circuit.mode.HalfOpen? && s2.flights == map[0 := None, 2 := Some(0)];
  }

  // ---------------------------------------------------------------------------------------
  // Admission
  // ---------------------------------------------------------------------------------------

  /** A caller is let in exactly if the breaker is closed, or open since at least the timeout, or
      half-open; and in the last two cases only while the period has let fewer than the configured
      number in, none at all yet if it begins with this caller. An open breaker becomes half-open at
      the first caller after the timeout and at nothing else. */
  lemma AdmittedIff(c: Limits, s: Traffic, e: Event)
    requires Reachable(c, s)
    ensures s.circuit.mode.HalfOpen? ==> s.admitted != []
    ensures s.circuit.mode.Open? ==> s.circuit.openedAt.Some?
    ensures var s' := Next(c, s, e);
            var due := s.circuit.mode.Open? && s.now >= s.circuit.openedAt.value + c.timeoutSeconds * 1_000_000;
            && (s'.nextCall == s.nextCall + 1 || s'.nextCall == s.nextCall)
            && (s'.nextCall == s.nextCall + 1 <==>
                  && e.Start?
                  && (|| s.circuit.mode.Closed?
                      || (due && c.halfOpenMaxCalls >= 1)
                      || (s.circuit.mode.HalfOpen? && s.admitted[|s.admitted| - 1] < c.halfOpenMaxCalls)))
            && (s.circuit.mode.Open? && !e.ManualReset? ==> (s'.circuit.mode.HalfOpen? <==> e.Start? && due))
            && (s.circuit.mode.Open? && !e.ManualReset? ==> s'.circuit.mode.HalfOpen? || s'.circuit.mode.Open?)
            && (!s.circuit.mode.Open? && e.Start? ==> s'.circuit.mode == s.circuit.mode)
  {
    hide Trailing;
    ReachableInv(c, s);
  }

  /** How many calls have started and ended without an outcome, in a run from the start. */
  function Left(c: Limits, now: Time, es: seq<Event>): nat
    decreases |es|
  {
    if es == [] then 0
    else
      var n := |es| - 1;
      Left(c, now, es[..n]) +
      (if es[n].Leave? && es[n].call in Run(c, Init(now), es[..n]).flights then 1 else 0)
  }

  /** How many callers have arrived. */
  function Arrived(es: seq<Event>): nat {
    if es == [] then 0 else Arrived(es[..|es| - 1]) + (if es[|es| - 1].Start? then 1 else 0)
  }

  lemma StartCounts(c: Limits, s: Traffic)
    requires s.nextCall !in s.flights
    ensures var s' := Started(c, s);
            && |s'.flights| - |s.flights| == s'.nextCall - s.nextCall && s'.circuit.calls == s.circuit.calls + 1
            && s'.circuit.totalSuccesses == s.circuit.totalSuccesses
            && s'.circuit.totalFailures == s.circuit.totalFailures
  {
  }

  ghost predicate Balances(s: Traffic, left: nat, arrived: nat) {
    && s.nextCall == |s.flights| + s.circuit.totalSuccesses + s.circuit.totalFailures + left
    && s.circuit.calls == arrived
  }

  lemma OneLess(flights: map<CallId, Option<nat>>, k: CallId)
    ensures |flights - {k}| == |flights| - if k in flights then 1 else 0
  {
    assert (flights - {k}).Keys == flights.Keys - {k};
    assert |flights| == |flights.Keys| && |flights - {k}| == |(flights - {k}).Keys|;
  }

  lemma OutcomeCounts(c: Limits, b: Circuit, now: Time)
    ensures var b' := OnSuccess(c, b);
            && b'.calls == b.calls && b'.totalFailures == b.totalFailures && b'.totalSuccesses == b.totalSuccesses + 1
    ensures var b' := OnFailure(c, b, now);
            && b'.calls == b.calls && b'.totalFailures == b.totalFailures + 1 && b'.totalSuccesses == b.totalSuccesses
  {
  }

  lemma StartBalances(c: Limits, s: Traffic, left: nat, arrived: nat)
    requires Inv(c, s) && Balances(s, left, arrived)
    ensures Balances(Next(c, s, Start), left, arrived + 1)
  {
    hide Started, Inv;
    InvFresh(c, s);
    StartCounts(c, s);
  }

  lemma OutcomeBalances(c: Limits, s: Traffic, e: Event, left: nat, arrived: nat)
    requires (e.Succeed? || e.Fail?) && Balances(s, left, arrived)
    ensures Balances(Next(c, s, e), left, arrived)
  {
    hide OnSuccess, OnFailure, Own;
    OneLess(s.flights, e.call);
    OutcomeCounts(c, s.circuit, s.now);
  }

  lemma LeaveBalances(c: Limits, s: Traffic, k: CallId, left: nat, arrived: nat)
    requires Balances(s, left, arrived)
    ensures Balances(Next(c, s, Leave(k)), left + (if k in s.flights then 1 else 0), arrived)
  {
    OneLess(s.flights, k);
  }

  lemma BalancesNext(c: Limits, s: Traffic, e: Event, left: nat, arrived: nat)
    requires Inv(c, s) && Balances(s, left, arrived)
    ensures Balances(Next(c, s, e), left + (if e.Leave? && e.call in s.flights then 1 else 0),
                     arrived + if e.Start? then 1 else 0)
  {
    match e {
      case Start => hide Next, Inv, Balances; StartBalances(c, s, left, arrived);
      case Succeed(_) => hide Next, Inv, Balances; OutcomeBalances(c, s, e, left, arrived);
      case Fail(_) => hide Next, Inv, Balances; OutcomeBalances(c, s, e, left, arrived);
      case Leave(k) => hide Next, Inv, Balances; LeaveBalances(c, s, k, left, arrived);
      case _ => hide Inv, Started, OnSuccess, OnFailure;
    }
  }

  /** The totals balance: every call let in is running, or was recorded as a success or a failure, or
      ended without an outcome; and every caller that arrived was counted, let in or not. */
  lemma {:induction false} CallsBalance(c: Limits, now: Time, es: seq<Event>)
    ensures var s := Run(c, Init(now), es);
            && s.nextCall == |s.flights| + s.circuit.totalSuccesses + s.circuit.totalFailures + Left(c, now, es)
            && s.circuit.calls == Arrived(es)
    ensures Balances(Run(c, Init(now), es), Left(c, now, es), Arrived(es))
    decreases |es|
  {
    hide Next, Inv;
    if es == [] {
    } else {
      var n := |es| - 1;
      CallsBalance(c, now, es[..n]);
      FreshInv(c, now);
      RunKeeps(c, Init(now), es[..n]);
      BalancesNext(c, Run(c, Init(now), es[..n]), es[n], Left(c, now, es[..n]), Arrived(es[..n]));
    }
  }

  lemma InvFresh(c: Limits, s: Traffic)
    requires Inv(c, s)
    ensures s.nextCall !in s.flights
  {
  }

  /** The events of `n` callers arriving. */
  function Starts(n: nat): seq<Event> { if n == 0 then [] else Starts(n - 1) + [Start] }

  lemma OneArrives(c: Limits, s: Traffic, k: nat)
    requires if k == 0 then s.circuit.mode.Open? && ResetDue(c, s.circuit, s.now)
             else s.circuit.mode.HalfOpen? && s.circuit.probes == Min(k, Max(0, c.halfOpenMaxCalls))
    ensures var s' := Next(c, s, Start);
            && s'.circuit.mode.HalfOpen? && s'.circuit.probes == Min(k + 1, Max(0, c.halfOpenMaxCalls))
            && s'.nextCall == s.nextCall + if k < c.halfOpenMaxCalls then 1 else 0
  {
  }

  /** A half-open period that nothing decides lets exactly the configured number of callers in. */
  lemma {:induction false} AdmitsUpToLimit(c: Limits, s: Traffic, n: nat)
    requires s.circuit.mode.Open? && ResetDue(c, s.circuit, s.now)
    ensures var s' := Run(c, s, Starts(n));
            && s'.nextCall == s.nextCall + Min(n, Max(0, c.halfOpenMaxCalls))
            && (n > 0 ==> s'.circuit.mode.HalfOpen? && s'.circuit.probes == Min(n, Max(0, c.halfOpenMaxCalls)))
            && (n == 0 ==> s' == s)
  {
    hide ResetDue, Next, Run;
    if n == 0 {
      RunNothing(c, s);
    } else {
      AdmitsUpToLimit(c, s, n - 1);
      RunOneMore(c, s, Starts(n - 1), Start);
      OneArrives(c, Run(c, s, Starts(n - 1)), n - 1);
    }
  }

  /** While it is open, and until the timeout has run, a breaker admits nothing; late outcomes of
      earlier calls change neither its state nor the time it opened. */
  lemma {:induction false} StaysOpen(c: Limits, s: Traffic, es: seq<Event>)
    requires s.circuit.mode.Open? && s.circuit.openedAt.Some? && ManualReset !in es
    requires Run(c, s, es).now < s.circuit.openedAt.value + c.timeoutSeconds * SECOND
    ensures var s' := Run(c, s, es);
            && s'.circuit.mode.Open? && s'.circuit.openedAt == s.circuit.openedAt && s'.now >= s.now
            && s'.nextCall == s.nextCall && s'.flights.Keys <= s.flights.Keys
    decreases |es|
  {
    if es == [] {
    } else {
      var n := |es| - 1;
      assert es[n] in es;
      StaysOpen(c, s, es[..n]);
    }
  }

  /** The time a refused caller is told is right to the second: before it has passed an open
      breaker still refuses, one second later it lets a probe be tried. */
  lemma RetryAfterIsRight(c: Limits, b: Circuit, now: Time, at: Time)
    requires b.mode.Open? && b.openedAt.Some? && !ResetDue(c, b, now) && at >= now
    ensures at < now + RetryAfter(c, b, now) * SECOND ==> !ResetDue(c, b, at)
    ensures at >= now + (RetryAfter(c, b, now) + 1) * SECOND ==> ResetDue(c, b, at)
  {
  }

  // ---------------------------------------------------------------------------------------
  // Wedging
  // ---------------------------------------------------------------------------------------

  /** Probes of the current half-open period that are still running. */
  function Probing(s: Traffic): set<CallId> { set k | k in s.flights && Own(s, k) }

  /** HALF_OPEN, with no probe left to admit and none running that could decide. */
  predicate Stuck(c: Limits, s: Traffic) {
    s.circuit.mode.HalfOpen? && s.circuit.probes >= c.halfOpenMaxCalls && Probing(s) == {}
  }

  /** Every probe of the current period is still running or has succeeded. */
  ghost predicate ProbesAccounted(s: Traffic) {
    s.circuit.mode.HalfOpen? ==> s.circuit.probes == |Probing(s)| + OwnSuccesses(s.heard)
  }

  lemma FirstProbe(c: Limits, s: Traffic)
    requires Inv(c, s) && s.circuit.mode.Open?
    ensures ProbesAccounted(Started(c, s))
  {
    hide Trailing, ResetDue;
    var s' := Started(c, s);
    if s'.circuit.mode.HalfOpen? && s'.nextCall > s.nextCall {
      assert Probing(s') == {s.nextCall};
    }
  }

  lemma NextProbe(c: Limits, s: Traffic)
    requires Inv(c, s) && ProbesAccounted(s) && s.circuit.mode.HalfOpen?
    ensures ProbesAccounted(Started(c, s))
  {
    hide Trailing, ResetDue;
    var s' := Started(c, s);
    if s'.nextCall > s.nextCall {
      assert Probing(s') == Probing(s) + {s.nextCall};
    } else {
      assert Probing(s') == Probing(s);
    }
  }

  lemma ClosedStays(c: Limits, s: Traffic)
    requires s.circuit.mode.Closed?
    ensures Started(c, s).circuit.mode.Closed?
  {
  }

  lemma HeardMore(h: seq<bool>, own: bool)
    ensures OwnSuccesses(h + [own]) == OwnSuccesses(h) + if own then 1 else 0
  {
    assert (h + [own])[..|h|] == h;
  }

  lemma ProbingLess(s: Traffic, s': Traffic, k: CallId)
    requires s'.flights == s.flights - {k} && s'.admitted == s.admitted
    ensures |Probing(s')| == |Probing(s)| - if Own(s, k) then 1 else 0
  {
    assert Probing(s') == Probing(s) - {k};
  }

  lemma SuccessAccounted(c: Limits, s: Traffic, k: CallId)
    requires ProbesAccounted(s)
    ensures ProbesAccounted(Next(c, s, Succeed(k)))
  {
    hide OwnSuccesses, Probing, Own;
    if k in s.flights {
      HeardMore(s.heard, Own(s, k));
      ProbingLess(s, Next(c, s, Succeed(k)), k);
    }
  }

  lemma AccountedNext(c: Limits, s: Traffic, e: Event)
    requires Inv(c, s) && ProbesAccounted(s) && !e.Leave?
    ensures ProbesAccounted(Next(c, s, e))
  {
    hide Trailing, Started, OwnSuccesses;
    match e
    case Start =>
      match s.circuit.mode {
        case Open => FirstProbe(c, s);
        case HalfOpen => NextProbe(c, s);
        case Closed => assert Started(c, s).circuit.mode.Closed? by { ClosedStays(c, s); }
      }
    case Succeed(k) => SuccessAccounted(c, s, k);
    case Tick(_) => assert Probing(Next(c, s, e)) == Probing(s);
    case _ =>
  }

  lemma {:induction false} AccountedThroughout(c: Limits, now: Time, es: seq<Event>)
    requires forall e :: e in es ==> !e.Leave?
    ensures ProbesAccounted(Run(c, Init(now), es))
    decreases |es|
  {
    hide Next, Inv, ProbesAccounted;
    if es == [] {
      FreshAccounted(c, now);
    } else {
      var n := |es| - 1;
      AccountedThroughout(c, now, es[..n]);
      FreshInv(c, now);
      RunKeeps(c, Init(now), es[..n]);
      AccountedNext(c, Run(c, Init(now), es[..n]), es[n]);
    }
  }

  lemma FreshInv(c: Limits, now: Time)
    ensures Inv(c, Init(now))
  {
  }

  lemma FreshAccounted(c: Limits, now: Time)
    ensures ProbesAccounted(Init(now))
  {
  }

  /** In no run in which every call ends in a success or a failure does the breaker get stuck. */
  ghost predicate NeverWedges(c: Limits) {
    forall now: Time, es: seq<Event> :: (forall e :: e in es ==> !e.Leave?) ==> !Stuck(c, Run(c, Init(now), es))
  }

  /** From a stuck state with nothing running there is no way out but a manual reset: every call
      is refused for ever. */
  lemma {:induction false} StuckForever(c: Limits, s: Traffic, es: seq<Event>)
    requires Stuck(c, s) && s.flights == map[] && ManualReset !in es
    ensures var s' := Run(c, s, es);
            && Stuck(c, s') && s'.flights == map[] && s'.nextCall == s.nextCall
    decreases |es|
  {
    if es == [] {
    } else {
      var n := |es| - 1;
      assert es[n] in es;
      StuckForever(c, s, es[..n]);
    }
  }

  // Building a run that wedges: enough failures to open, the timeout, and then probes that use up
  // every slot without deciding anything.

  lemma TwoMore(c: Limits, s: Traffic, es: seq<Event>, e: Event, f: Event)
    ensures Run(c, s, es + [e, f]) == Next(c, Next(c, Run(c, s, es), e), f)
  {
    assert (es + [e, f])[..|es| + 1] == es + [e];
    assert (es + [e])[..|es|] == es;
  }

  lemma {:induction false} Failing(c: Limits, now: Time, n: nat) returns (es: seq<Event>)
    requires n < Max(1, c.failureThreshold)
    ensures forall e :: e in es ==> !e.Leave?
    ensures var s := Run(c, Init(now), es);
            s.circuit.mode.Closed? && s.circuit.failures == n && s.flights == map[] && s.now == now
  {
    if n == 0 {
      es := [];
    } else {
      var fs := Failing(c, now, n - 1);
      var s := Run(c, Init(now), fs);
      es := fs + [Start, Fail(s.nextCall)];
      TwoMore(c, Init(now), fs, Start, Fail(s.nextCall));
    }
  }

  /** Any breaker can be brought to the edge of its first half-open period. */
  lemma Opening(c: Limits, now: Time) returns (es: seq<Event>)
    ensures forall e :: e in es ==> !e.Leave?
    ensures var s := Run(c, Init(now), es);
            s.circuit.mode.Open? && ResetDue(c, s.circuit, s.now) && s.flights == map[]
  {
    var fs := Failing(c, now, Max(1, c.failureThreshold) - 1);
    var s := Run(c, Init(now), fs);
    TwoMore(c, Init(now), fs, Start, Fail(s.nextCall));
    var gs := fs + [Start, Fail(s.nextCall)];
    var at := now + Max(0, c.timeoutSeconds) * SECOND;
    es := gs + [Tick(at)];
    assert es[..|gs|] == gs;
  }

  /** From there `n` probes can be used up without a decision: by refusals, or by too few
      successes. */
  lemma {:induction false} UseUp(c: Limits, s: Traffic, n: nat, leave: bool) returns (es: seq<Event>)
    requires s.circuit.mode.Open? && ResetDue(c, s.circuit, s.now) && s.flights == map[]
    requires 1 <= n <= c.halfOpenMaxCalls && (leave || n < c.successThreshold)
    ensures forall e :: e in es ==> !e.ManualReset? && (!leave ==> !e.Leave?)
    ensures var s' := Run(c, s, es);
            && s'.circuit.mode.HalfOpen? && s'.circuit.probes == n && s'.flights == map[]
            && s'.circuit.successes == if leave then 0 else n
    decreases n
  {
    var fs := [];
    if n > 1 {
      fs := UseUp(c, s, n - 1, leave);
    }
    var mid := Run(c, s, fs);
    var end := if leave then Leave(mid.nextCall) else Succeed(mid.nextCall);
    es := fs + [Start, end];
    TwoMore(c, s, fs, Start, end);
  }

  /** A breaker whose half-open period admits no probe, or needs more successes than it admits
      probes, can get stuck; so can any breaker at all, once calls may end in a refusal. */
  lemma GetsStuck(c: Limits, now: Time, leave: bool) returns (es: seq<Event>)
    requires leave || c.halfOpenMaxCalls < 1 || c.successThreshold > c.halfOpenMaxCalls
    ensures forall e :: e in es ==> !leave ==> !e.Leave?
    ensures Stuck(c, Run(c, Init(now), es)) && Run(c, Init(now), es).flights == map[]
  {
    var fs := Opening(c, now);
    var s := Run(c, Init(now), fs);
    var gs := [Start];
    if c.halfOpenMaxCalls >= 1 {
      gs := UseUp(c, s, c.halfOpenMaxCalls, leave);
    } else {
      assert Run(c, s, gs[..0]) == s;
    }
    es := fs + gs;
    RunAppend(c, Init(now), fs, gs);
  }

  /** The settings under which calls that only succeed or fail can never wedge the breaker. */
  lemma NeverWedgesIff(c: Limits)
    ensures NeverWedges(c) <==> 1 <= c.halfOpenMaxCalls && c.successThreshold <= c.halfOpenMaxCalls
  {
    if 1 <= c.halfOpenMaxCalls && c.successThreshold <= c.halfOpenMaxCalls {
      forall now: Time, es: seq<Event> | forall e :: e in es ==> !e.Leave?
        ensures !Stuck(c, Run(c, Init(now), es))
      {
        AccountedThroughout(c, now, es);
        FreshInv(c, now);
        RunKeeps(c, Init(now), es);
        OwnSuccessesBound(Run(c, Init(now), es).heard);
      }
    } else {
      var es := GetsStuck(c, 0, false);
    }
  }

  /** No settings at all protect against refusals: each one that ends a probe uses up its slot
      and decides nothing, so some run leaves the breaker refusing every call for ever. */
  lemma RefusalsWedge(c: Limits, now: Time) returns (es: seq<Event>)
    ensures forall fs: seq<Event> :: ManualReset !in fs ==>
              && Stuck(c, Run(c, Init(now), es + fs))
              && Run(c, Init(now), es + fs).nextCall == Run(c, Init(now), es).nextCall
  {
    es := GetsStuck(c, now, true);
    forall fs: seq<Event> | ManualReset !in fs
      ensures Stuck(c, Run(c, Init(now), es + fs))
      ensures Run(c, Init(now), es + fs).nextCall == Run(c, Init(now), es).nextCall
    {
      RunAppend(c, Init(now), es, fs);
      StuckForever(c, Run(c, Init(now), es), fs);
    }
  }
}
