/** The lead endpoint's in-memory sliding-window rate limiter: for every
    client address it keeps the times of the requests it let through, drops
    those older than the window on each call, and refuses once the window is
    full. */
module RateLimiting {

  /** The endpoint's defaults: five requests per hour. */
  const DefaultLimit: int := 5
  const DefaultWindowMs: int := 60 * 60 * 1000

  /** The recorded times strictly after `windowStart`, in their order. */
  function InWindow(ts: seq<int>, windowStart: int): (r: seq<int>)
    ensures |r| <= |ts|
    ensures forall t :: t in r <==> t in ts && t > windowStart
  {
    if ts == [] then []
    else (if ts[0] > windowStart then [ts[0]] else []) + InWindow(ts[1..], windowStart)
  }

  /** The outcome of one call: whether the request may go on, and the times
      the limiter keeps for the address afterwards. */
  datatype Decision = Decision(allowed: bool, stored: seq<int>)

  /** One call for an address whose recorded times are `history`: the expired
      times are dropped (and stay dropped even when the request is refused);
      the request is let through, and its time recorded, only while fewer
      than `limit` times remain in the window. */
  function Admit(history: seq<int>, now: int, limit: int, windowMs: int): Decision
  {
    var valid := InWindow(history, now - windowMs);
    if |valid| >= limit then Decision(false, valid) else Decision(true, valid + [now])
  }

  /** The limiter's state: the map from client address to recorded times. */
  class RateLimiter {
    var requests: map<string, seq<int>>

    /** An empty limiter, as at module load. */
    constructor ()
      ensures requests == map[]
    {
      requests := map[];
    }

    /** The times recorded for `ip`; an address never seen has none. */
    function History(ip: string): seq<int>
      reads this
    {
      if ip in requests then requests[ip] else []
    }

    /** No address holds more than `limit` recorded times. */
    predicate WithinLimit(limit: int)
      reads this
    {
      forall ip | ip in requests :: |requests[ip]| <= limit
    }

    /** `rateLimit(ip, limit, windowMs)` at clock value `now`. */
    method RateLimit(ip: string, now: int, limit: int, windowMs: int) returns (allowed: bool)
      modifies this
      ensures allowed == Admit(old(History(ip)), now, limit, windowMs).allowed
      ensures requests == old(requests)[ip := Admit(old(History(ip)), now, limit, windowMs).stored]
      ensures ip in requests
      ensures limit >= 0 && old(WithinLimit(limit)) ==> WithinLimit(limit)
    {
      var windowStart := now - windowMs;
      if ip !in requests {
        requests := requests[ip := []];
      }
      var valid := InWindow(requests[ip], windowStart);
      requests := requests[ip := valid];
      if |valid| >= limit {
        allowed := false;
      } else {
        requests := requests[ip := valid + [now]];
        allowed := true;
      }
      AdmitBounded(old(History(ip)), now, limit, windowMs);
    }
  }

  // ---------------------------------------------------------------------------
  // Properties of one call

  /** Filtering distributes over concatenation. */
  lemma {:induction false} InWindowAppend(a: seq<int>, b: seq<int>, windowStart: int)
    ensures InWindow(a + b, windowStart) == InWindow(a, windowStart) + InWindow(b, windowStart)
  {
    if a == [] {
      assert a + b == b;
    } else {
      assert (a + b)[1..] == a[1..] + b;
      InWindowAppend(a[1..], b, windowStart);
    }
  }

  /** Filtering by a later window start after an earlier one is the same as
      filtering by the later one alone: dropped times stay dropped. */
  lemma {:induction false} InWindowTwice(ts: seq<int>, earlier: int, later: int)
    requires earlier <= later
    ensures InWindow(InWindow(ts, earlier), later) == InWindow(ts, later)
  {
    if ts != [] {
      InWindowTwice(ts[1..], earlier, later);
      var head := if ts[0] > earlier then [ts[0]] else [];
      InWindowAppend(head, InWindow(ts[1..], earlier), later);
    }
  }

  /** A request goes through exactly when fewer than `limit` recorded times
      lie strictly inside the window ending at `now`; the limiter then keeps
      exactly those times plus, for an allowed request, `now`. */
  lemma AdmitIff(history: seq<int>, now: int, limit: int, windowMs: int)
    ensures Admit(history, now, limit, windowMs).allowed <==>
      |InWindow(history, now - windowMs)| < limit
    ensures forall t :: t in Admit(history, now, limit, windowMs).stored <==>
      (t in history && t > now - windowMs) || (t == now && Admit(history, now, limit, windowMs).allowed)
  {
  }

  /** With a positive window, everything kept after a call lies inside the
      window ending at `now`; in particular the boundary time `now - windowMs`
      itself is dropped. */
  lemma AdmitKeepsWindow(history: seq<int>, now: int, limit: int, windowMs: int)
    requires windowMs > 0
    ensures forall t | t in Admit(history, now, limit, windowMs).stored :: now - windowMs < t
  {
    AdmitIff(history, now, limit, windowMs);
  }

  /** An address that held at most `limit` times holds at most `limit`
      afterwards, and an allowed call adds exactly one time to the window. */
  lemma AdmitBounded(history: seq<int>, now: int, limit: int, windowMs: int)
    ensures |history| <= limit ==> |Admit(history, now, limit, windowMs).stored| <= limit
    ensures Admit(history, now, limit, windowMs).allowed ==>
      |Admit(history, now, limit, windowMs).stored| == |InWindow(history, now - windowMs)| + 1
  {
  }

  /** Once every recorded time has left the window, a request goes through
      again (for any positive limit), and only its own time is kept. */
  lemma ExpiredHistoryReadmits(history: seq<int>, now: int, limit: int, windowMs: int)
    requires limit > 0
    requires forall t | t in history :: t <= now - windowMs
    ensures Admit(history, now, limit, windowMs) == Decision(true, [now])
  {
    forall i | 0 <= i < |history| ensures history[i] <= now - windowMs {
      assert history[i] in history;
    }
    NoneInside(history, now - windowMs);
  }

  /** Nothing is kept of times that all lie at or before the window start. */
  lemma {:induction false} NoneInside(ts: seq<int>, windowStart: int)
    requires forall i | 0 <= i < |ts| :: ts[i] <= windowStart
    ensures InWindow(ts, windowStart) == []
  {
    if ts != [] {
      NoneInside(ts[1..], windowStart);
    }
  }

  /** Everything is kept of times that all lie after the window start. */
  lemma {:induction false} AllInside(ts: seq<int>, windowStart: int)
    requires forall i | 0 <= i < |ts| :: ts[i] > windowStart
    ensures InWindow(ts, windowStart) == ts
  {
    if ts != [] {
      AllInside(ts[1..], windowStart);
    }
  }

  // ---------------------------------------------------------------------------
  // Properties of a sequence of calls for one address

  predicate Nondecreasing(ts: seq<int>)
  {
    forall i, j | 0 <= i < j < |ts| :: ts[i] <= ts[j]
  }

  /** The limiter's history for one address after calls at `times`, starting
      from an address never seen, with the times of the requests let through
      and the decision of every call. */
  datatype Trace = Trace(stored: seq<int>, accepted: seq<int>, decisions: seq<bool>)

  function Run(times: seq<int>, limit: int, windowMs: int): (tr: Trace)
    ensures |tr.decisions| == |times|
  {
    if times == [] then Trace([], [], [])
    else
      var prev := Run(times[..|times| - 1], limit, windowMs);
      var now := times[|times| - 1];
      var d := Admit(prev.stored, now, limit, windowMs);
      Trace(d.stored,
            if d.allowed then prev.accepted + [now] else prev.accepted,
            prev.decisions + [d.allowed])
  }

  /** One call keeps the correspondence between what is stored and the
      accepted requests inside the window, as the window moves forward. */
  lemma StepKeepsWindow(stored: seq<int>, accepted: seq<int>, last: int, now: int, limit: int, windowMs: int)
    requires windowMs > 0 && last <= now
    requires stored == InWindow(accepted, last - windowMs)
    ensures var d := Admit(stored, now, limit, windowMs);
      d.stored == InWindow(if d.allowed then accepted + [now] else accepted, now - windowMs)
  {
    InWindowTwice(accepted, last - windowMs, now - windowMs);
    InWindowAppend(accepted, [now], now - windowMs);
  }

  /** With a clock that never goes back and a positive window, what the
      limiter keeps is exactly the accepted requests inside the window ending
      at the latest call. */
  lemma {:induction false} RunKeepsWindow(times: seq<int>, limit: int, windowMs: int)
    requires windowMs > 0 && Nondecreasing(times) && times != []
    ensures Run(times, limit, windowMs).stored ==
      InWindow(Run(times, limit, windowMs).accepted, times[|times| - 1] - windowMs)
  {
    var init := times[..|times| - 1];
    var now := times[|times| - 1];
    var prev := Run(init, limit, windowMs);
    if init == [] {
      StepKeepsWindow([], [], now, now, limit, windowMs);
    } else {
      assert Nondecreasing(init);
      RunKeepsWindow(init, limit, windowMs);
      StepKeepsWindow(prev.stored, prev.accepted, init[|init| - 1], now, limit, windowMs);
    }
  }

  /** The limiter's promise: whenever a call is made, at most `limit` of the
      requests let through so far lie inside the window ending at it. */
  lemma {:induction false} AtMostLimitPerWindow(times: seq<int>, limit: int, windowMs: int)
    requires windowMs > 0 && limit >= 0 && Nondecreasing(times) && times != []
    ensures |InWindow(Run(times, limit, windowMs).accepted, times[|times| - 1] - windowMs)| <= limit
  {
    RunKeepsWindow(times, limit, windowMs);
    RunBounded(times, limit, windowMs);
  }

  lemma {:induction false} RunBounded(times: seq<int>, limit: int, windowMs: int)
    requires limit >= 0
    ensures |Run(times, limit, windowMs).stored| <= limit
  {
    if times != [] {
      var init := times[..|times| - 1];
      RunBounded(init, limit, windowMs);
      AdmitBounded(Run(init, limit, windowMs).stored, times[|times| - 1], limit, windowMs);
    }
  }

  /** The other half of the promise: a call is refused only when `limit`
      requests let through earlier already lie inside its window. */
  lemma {:induction false} RefusedOnlyWhenFull(times: seq<int>, limit: int, windowMs: int)
    requires windowMs > 0 && Nondecreasing(times) && times != []
    ensures var n := |times|;
      Run(times, limit, windowMs).decisions[n - 1] <==>
      |InWindow(Run(times[..n - 1], limit, windowMs).accepted, times[n - 1] - windowMs)| < limit
  {
    var n := |times|;
    var init := times[..n - 1];
    var prev := Run(init, limit, windowMs);
    if init != [] {
      assert Nondecreasing(init);
      RunKeepsWindow(init, limit, windowMs);
      assert init[|init| - 1] <= times[n - 1];
      InWindowTwice(prev.accepted, init[|init| - 1] - windowMs, times[n - 1] - windowMs);
    }
  }

  function Repeat<T>(x: T, n: nat): seq<T>
  {
    seq(n, _ => x)
  }

  lemma RepeatSnoc<T>(x: T, n: nat)
    ensures Repeat(x, n) + [x] == Repeat(x, n + 1)
  {
    assert |Repeat(x, n) + [x]| == n + 1;
  }

  /** One more call at the instant of `k` stored calls: admitted exactly
      when `k < limit`, and then stored alongside them. */
  lemma BurstAdmit(t: int, k: nat, limit: nat, windowMs: int)
    requires windowMs > 0
    ensures Admit(Repeat(t, k), t, limit, windowMs).allowed == (k < limit)
    ensures Admit(Repeat(t, k), t, limit, windowMs).stored ==
      if k < limit then Repeat(t, k + 1) else Repeat(t, k)
  {
    AllInside(Repeat(t, k), t - windowMs);
    RepeatSnoc(t, k);
  }

  /** During a burst of `n` requests at one instant the limiter fills up to
      `limit` copies of that instant and stays there. */
  lemma {:induction false} BurstStored(t: int, n: nat, limit: nat, windowMs: int)
    requires windowMs > 0
    ensures n <= limit ==> Run(Repeat(t, n), limit, windowMs).stored == Repeat(t, n)
    ensures n >= limit ==> Run(Repeat(t, n), limit, windowMs).stored == Repeat(t, limit)
  {
    if n > 0 {
      BurstStored(t, n - 1, limit, windowMs);
      BurstSnoc(t, n - 1, limit, windowMs);
      if n - 1 < limit {
        BurstAdmit(t, n - 1, limit, windowMs);
      } else {
        BurstAdmit(t, limit, limit, windowMs);
      }
    }
  }

  /** One more call appends its decision to the trace. */
  lemma RunSnoc(times: seq<int>, now: int, limit: int, windowMs: int)
    ensures var prev := Run(times, limit, windowMs);
      var d := Admit(prev.stored, now, limit, windowMs);
      Run(times + [now], limit, windowMs).stored == d.stored &&
      Run(times + [now], limit, windowMs).decisions == prev.decisions + [d.allowed]
  {
    assert (times + [now])[..|times|] == times;
  }

  /** One more call in a burst is one more step of the run. */
  lemma BurstSnoc(t: int, n: nat, limit: nat, windowMs: int)
    ensures var prev := Run(Repeat(t, n), limit, windowMs);
      var d := Admit(prev.stored, t, limit, windowMs);
      Run(Repeat(t, n + 1), limit, windowMs).stored == d.stored &&
      Run(Repeat(t, n + 1), limit, windowMs).decisions == prev.decisions + [d.allowed]
  {
    RepeatSnoc(t, n);
    RunSnoc(Repeat(t, n), t, limit, windowMs);
  }

  /** The `n`-th request of a burst at one instant goes through exactly when
      fewer than `limit` went before it. */
  lemma BurstStep(t: int, n: nat, limit: nat, windowMs: int)
    requires windowMs > 0 && n > 0
    ensures Run(Repeat(t, n), limit, windowMs).decisions
         == Run(Repeat(t, n - 1), limit, windowMs).decisions + [n - 1 < limit]
  {
    BurstStored(t, n - 1, limit, windowMs);
    BurstSnoc(t, n - 1, limit, windowMs);
    if n - 1 < limit {
      BurstAdmit(t, n - 1, limit, windowMs);
    } else {
      BurstAdmit(t, limit, limit, windowMs);
    }
  }

  /** A burst of `n` requests at one instant: the first `limit` go through and
      every later one is refused. */
  lemma {:induction false} BurstAtOneInstant(t: int, n: nat, limit: nat, windowMs: int)
    requires windowMs > 0
    ensures forall i | 0 <= i < n :: Run(Repeat(t, n), limit, windowMs).decisions[i] == (i < limit)
  {
    if n > 0 {
      BurstAtOneInstant(t, n - 1, limit, windowMs);
      BurstStep(t, n, limit, windowMs);
    }
  }

  /** After a burst at one instant, however long, the first call once the
      window has passed goes through again. */
  lemma RecoversAfterWindow(t: int, n: nat, later: int, limit: nat, windowMs: int)
    requires windowMs > 0 && limit > 0 && later >= t + windowMs
    ensures Run(Repeat(t, n) + [later], limit, windowMs).decisions[n]
  {
    var times := Repeat(t, n) + [later];
    assert times[..n] == Repeat(t, n);
    BurstStored(t, n, limit, windowMs);
    ExpiredHistoryReadmits(Run(Repeat(t, n), limit, windowMs).stored, later, limit, windowMs);
  }

  /** With the defaults, six requests at the same instant: five go through
      and the sixth is refused. */
  lemma FiveThenRefused(t: int)
    ensures Run([t, t, t, t, t, t], DefaultLimit, DefaultWindowMs).decisions ==
      [true, true, true, true, true, false]
  {
    BurstAtOneInstant(t, 6, 5, DefaultWindowMs);
    assert Repeat(t, 6) == [t, t, t, t, t, t];
  }
}
