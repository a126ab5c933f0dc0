/** The in-memory sliding-window rate limiter: a pruned list of timestamps per key. */
module RateLimit {
  import opened Domain

  // ---------------------------------------------------------------------------------------
  // The limiter
  // ---------------------------------------------------------------------------------------

  /** The timestamps later than `start`. */
  function Recent(ts: seq<real>, start: real): (r: seq<real>)
    ensures |r| <= |ts|
  {
    if ts == [] then []
    else
      var n := |ts| - 1;
      Recent(ts[..n], start) + (if ts[n] > start then [ts[n]] else [])
  }

  function Truncated(x: real): int { if x >= 0.0 then x.Floor else -((-x).Floor) }

  type Windows = map<string, seq<real>>

  function WindowOf(ws: Windows, key: string): seq<real> { if key in ws then ws[key] else [] }

  /** One check: the pruned window, with the call in it if it is allowed. */
  function Checked(ws: Windows, key: string, now: real, maxCalls: int, window: int): Windows {
    var kept := Recent(WindowOf(ws, key), now - window as real);
    ws[key := if |kept| < maxCalls then kept + [now] else kept]
  }

  predicate Allows(ws: Windows, key: string, now: real, maxCalls: int, window: int) {
    |Recent(WindowOf(ws, key), now - window as real)| < maxCalls
  }

  class InMemoryRateLimiter {
    var windows: Windows

    constructor ()
      ensures windows == map[]
    {
      windows := map[];
    }

    /** Checks one call. What is reported as remaining is what the window then has room for. */
    method CheckRateLimit(key: string, now: real, maxCalls: int, window: int)
      returns (allowed: bool, remaining: int, resetTime: int)
      modifies this
      ensures allowed == Allows(old(windows), key, now, maxCalls, window)
      ensures windows == Checked(old(windows), key, now, maxCalls, window)
      ensures remaining == Max(0, maxCalls - |windows[key]|)
      ensures var kept := Recent(WindowOf(old(windows), key), now - window as real);
              resetTime == Truncated((if kept == [] then now else kept[0]) + window as real)
    {
      var start := now - window as real;
      var before := if key in windows then windows[key] else [];
      var kept := [];
      for i := 0 to |before|
        invariant kept == Recent(before[..i], start)
      {
        assert before[..i + 1][..i] == before[..i];
        if before[i] > start {
          kept := kept + [before[i]];
        }
      }
      assert before[..|before|] == before;
      windows := windows[key := kept];
      var current := |kept|;
      allowed := current < maxCalls;
      remaining := Max(0, maxCalls - current - (if allowed then 1 else 0));
      if kept != [] {
        resetTime := Truncated(kept[0] + window as real);
      } else {
        resetTime := Truncated(now + window as real);
      }
      if allowed {
        windows := windows[key := windows[key] + [now]];
      }
    }

    method Reset(key: string)
      modifies this
      ensures windows == old(windows) - {key}
    {
      if key in windows {
        windows := windows - {key};
      }
    }
  }

  // ---------------------------------------------------------------------------------------
  // Against the full history
  // ---------------------------------------------------------------------------------------

  datatype Event = Call(key: string, at: real) | Reset(key: string)

  function Run(es: seq<Event>, maxCalls: int, window: int): Windows {
    if es == [] then map[]
    else
      var n := |es| - 1;
      var ws := Run(es[..n], maxCalls, window);
      match es[n]
      case Call(key, at) => Checked(ws, key, at, maxCalls, window)
      case Reset(key) => ws - {key}
  }

  /** How many of the timestamps lie in the interval from `start` (exclusive) to `end` (inclusive). */
  function Within(ts: seq<real>, start: real, end: real): nat {
    if ts == [] then 0
    else
      var n := |ts| - 1;
      Within(ts[..n], start, end) + (if start < ts[n] <= end then 1 else 0)
  }

  /** The reference: every admitted call is remembered, and one is admitted while fewer than
      `maxCalls` were in the window that ends with it. */
  function Admitted(es: seq<Event>, key: string, maxCalls: int, window: int): seq<real> {
    if es == [] then []
    else
      var n := |es| - 1;
      var h := Admitted(es[..n], key, maxCalls, window);
      match es[n]
      case Call(k, at) =>
        if k == key && Within(h, at - window as real, at) < maxCalls then h + [at] else h
      case Reset(k) => if k == key then [] else h
  }

  /** The clock does not run backwards, and has not passed `now`. */
  predicate Ordered(es: seq<Event>, now: real) {
    && (forall i :: 0 <= i < |es| && es[i].Call? ==> es[i].at <= now)
    && (forall i, j :: 0 <= i < j < |es| && es[i].Call? && es[j].Call? ==> es[i].at <= es[j].at)
  }

  predicate AllBy(ts: seq<real>, now: real) { forall i :: 0 <= i < |ts| ==> ts[i] <= now }

  lemma {:induction false} AdmittedBy(es: seq<Event>, key: string, maxCalls: int, window: int, now: real)
    requires Ordered(es, now)
    ensures AllBy(Admitted(es, key, maxCalls, window), now)
  {
    if es == [] {
    } else {
      AdmittedBy(es[..|es| - 1], key, maxCalls, window, now);
    }
  }

  lemma {:induction false} RecentIsWithin(ts: seq<real>, start: real, now: real)
    requires AllBy(ts, now)
    ensures |Recent(ts, start)| == Within(ts, start, now)
  {
    if ts == [] {
    } else {
      RecentIsWithin(ts[..|ts| - 1], start, now);
    }
  }

  lemma RecentOneMore(ts: seq<real>, t: real, start: real)
    ensures Recent(ts + [t], start) == Recent(ts, start) + (if t > start then [t] else [])
  {
    assert (ts + [t])[..|ts|] == ts;
  }

  lemma {:induction false} RecentTwice(ts: seq<real>, a: real, b: real)
    requires a <= b
    ensures Recent(Recent(ts, a), b) == Recent(ts, b)
  {
    if ts == [] {
    } else {
      var n := |ts| - 1;
      RecentTwice(ts[..n], a, b);
      RecentOneMore(Recent(ts[..n], a), ts[n], b);
      assert ts[n] <= a ==> Recent(ts, a) == Recent(ts[..n], a);
    }
  }

  lemma OneMoreCall(h: seq<real>, from: real, at: real, start: real)
    requires from <= start
    ensures Recent(Recent(h, from), start) == Recent(h, start)
    ensures Recent(Recent(h, from) + [at], start) == Recent(h + [at], start)
  {
    RecentTwice(h, from, start);
    RecentOneMore(h, at, start);
    RecentOneMore(Recent(h, from), at, start);
  }

  lemma OrderedPrefix(es: seq<Event>, now: real)
    requires es != [] && Ordered(es, now)
    ensures Ordered(es[..|es| - 1], now)
    ensures var e := es[|es| - 1]; e.Call? ==> e.at <= now && Ordered(es[..|es| - 1], e.at)
  {
  }

  /** Pruning loses nothing that a later check could still see. */
  lemma {:induction false} PrunedHistory(es: seq<Event>, key: string, maxCalls: int, window: int, now: real)
    requires Ordered(es, now)
    ensures var ws, h := Run(es, maxCalls, window), Admitted(es, key, maxCalls, window);
            Recent(WindowOf(ws, key), now - window as real) == Recent(h, now - window as real)
    decreases |es|
  {
    hide Recent, Within, Ordered, AllBy;
    if es == [] {
    } else {
      var n := |es| - 1;
      var ws, h := Run(es[..n], maxCalls, window), Admitted(es[..n], key, maxCalls, window);
      if es[n].key != key {
        OrderedPrefix(es, now);
        PrunedHistory(es[..n], key, maxCalls, window, now);
      } else if es[n].Call? {
        var at := es[n].at;
        OrderedPrefix(es, now);
        PrunedHistory(es[..n], key, maxCalls, window, at);
        AdmittedBy(es[..n], key, maxCalls, window, at);
        RecentIsWithin(h, at - window as real, at);
        OneMoreCall(h, at - window as real, at, now - window as real);
      }
    }
  }

  /** The limiter decides every call as the full history would: it refuses exactly when `maxCalls`
      calls were admitted in the window that ends now. */
  lemma SameDecision(es: seq<Event>, key: string, maxCalls: int, window: int, now: real)
    requires Ordered(es, now)
    ensures var h := Admitted(es, key, maxCalls, window);
            Allows(Run(es, maxCalls, window), key, now, maxCalls, window) <==>
              Within(h, now - window as real, now) < maxCalls
  {
    PrunedHistory(es, key, maxCalls, window, now);
    AdmittedBy(es, key, maxCalls, window, now);
    RecentIsWithin(Admitted(es, key, maxCalls, window), now - window as real, now);
  }

  lemma {:induction false} WithinShrinks(ts: seq<real>, a: real, b: real, c: real, d: real)
    requires c <= a && (b <= d || AllBy(ts, d))
    ensures Within(ts, a, b) <= Within(ts, c, d)
  {
    if ts == [] {
    } else {
      WithinShrinks(ts[..|ts| - 1], a, b, c, d);
    }
  }

  /** No window of the configured length, wherever it ends, holds more than `maxCalls` admitted
      calls of one key. */
  lemma {:induction false} AnyWindowBounded(es: seq<Event>, key: string, maxCalls: int, window: int, now: real, t: real)
    requires Ordered(es, now)
    ensures Within(Admitted(es, key, maxCalls, window), t - window as real, t) <= Max(0, maxCalls)
  {
    if es == [] {
    } else {
      var n := |es| - 1;
      var h, h' := Admitted(es[..n], key, maxCalls, window), Admitted(es, key, maxCalls, window);
      AnyWindowBounded(es[..n], key, maxCalls, window, now, t);
      if es[n].Call? && h' == h + [es[n].at] {
        var at := es[n].at;
        assert h'[..|h|] == h;
        if t >= at {
          AdmittedBy(es[..n], key, maxCalls, window, at);
          WithinShrinks(h, t - window as real, t, at - window as real, at);
        }
      }
    }
  }

  // ---------------------------------------------------------------------------------------
  // The reported reset time
  // ---------------------------------------------------------------------------------------

  predicate Ascending(ts: seq<real>) { forall i, j :: 0 <= i < j < |ts| ==> ts[i] <= ts[j] }

  lemma {:induction false} AdmittedAscending(es: seq<Event>, key: string, maxCalls: int, window: int, now: real)
    requires Ordered(es, now)
    ensures Ascending(Admitted(es, key, maxCalls, window))
  {
    if es == [] {
    } else {
      var n := |es| - 1;
      AdmittedAscending(es[..n], key, maxCalls, window, now);
      if es[n].Call? {
        AdmittedBy(es[..n], key, maxCalls, window, es[n].at);
      }
    }
  }

  lemma {:induction false} RecentAscending(ts: seq<real>, start: real)
    requires Ascending(ts)
    ensures Ascending(Recent(ts, start)) && forall t :: t in Recent(ts, start) ==> t in ts && t > start
  {
    if ts == [] {
    } else {
      var n := |ts| - 1;
      RecentAscending(ts[..n], start);
      var r := Recent(ts[..n], start);
      forall k | 0 <= k < |r| ensures r[k] <= ts[n] {
        assert r[k] in r;
        var i :| 0 <= i < n && ts[..n][i] == r[k];
      }
    }
  }

  /** A full window keeps refusing until its oldest call leaves it, and no longer. */
  lemma {:induction false} FullUntilOldestLeaves(ts: seq<real>, maxCalls: int, window: int, at: real)
    requires ts != [] && |ts| == maxCalls && Ascending(ts)
    ensures |Recent(ts, at - window as real)| >= maxCalls <==> at < ts[0] + window as real
  {
    var n := |ts| - 1;
    if n == 0 {
    } else {
      FullUntilOldestLeaves(ts[..n], maxCalls - 1, window, at);
    }
  }

  /** When a call is refused the window it leaves behind is full. */
  lemma RefusedMeansFull(es: seq<Event>, key: string, maxCalls: int, window: int, now: real)
    requires Ordered(es, now) && maxCalls >= 1
    requires !Allows(Run(es, maxCalls, window), key, now, maxCalls, window)
    ensures var kept := Recent(WindowOf(Run(es, maxCalls, window), key), now - window as real);
            |kept| == maxCalls && Ascending(kept)
  {
    hide Recent, Within, Run, Admitted, Ascending;
    var h := Admitted(es, key, maxCalls, window);
    PrunedHistory(es, key, maxCalls, window, now);
    AdmittedBy(es, key, maxCalls, window, now);
    RecentIsWithin(h, now - window as real, now);
    AnyWindowBounded(es, key, maxCalls, window, now, now);
    AdmittedAscending(es, key, maxCalls, window, now);
    RecentAscending(h, now - window as real);
  }

  lemma TruncatedIsFloor(x: real)
    requires x >= 0.0
    ensures Truncated(x) as real <= x < Truncated(x) as real + 1.0
  {
  }

  /** After a refusal the key stays refused until the oldest call leaves its full window, if no other
      call of the key comes between. The reset time reported is right to the second: a call before
      it is refused again, and one a second after it is let in. */
  lemma ResetTimeIsRight(es: seq<Event>, key: string, maxCalls: int, window: int, now: real, at: real)
    requires Ordered(es, now) && maxCalls >= 1
    requires !Allows(Run(es, maxCalls, window), key, now, maxCalls, window)
    ensures var kept := Recent(WindowOf(Run(es, maxCalls, window), key), now - window as real);
            && |kept| == maxCalls
            && var after := Checked(Run(es, maxCalls, window), key, now, maxCalls, window);
               var leaves := kept[0] + window as real;
               && (Allows(after, key, at, maxCalls, window) <==> at >= leaves)
               && (leaves >= 0.0 && at < Truncated(leaves) as real ==> !Allows(after, key, at, maxCalls, window))
               && (leaves >= 0.0 && at >= Truncated(leaves) as real + 1.0 ==> Allows(after, key, at, maxCalls, window))
  {
    RefusedMeansFull(es, key, maxCalls, window, now);
    hide Recent, Run, Truncated, Ordered, Ascending;
    var kept := Recent(WindowOf(Run(es, maxCalls, window), key), now - window as real);
    FullUntilOldestLeaves(kept, maxCalls, window, at);
    var leaves := kept[0] + window as real;
    if leaves >= 0.0 {
      TruncatedIsFloor(leaves);
    }
  }
}
