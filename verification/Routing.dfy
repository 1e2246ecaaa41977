/** The circuit breaker under fallback and cost-aware routing, and the rate limit it enforces. */
module Routing {
  import opened Text

  // ---- what happened to the providers, oldest first ----

  /** What came of asking the breaker for a provider at time `start`: a refusal, or a call and how it ended. */
  datatype Event = Refused(provider: string, start: real) | Failed(provider: string, start: real, at: real)
    | Succeeded(provider: string, start: real)

  function End(e: Event): real { if e.Failed? then e.at else e.start }

  function Noted(ts: seq<real>, e: Event, p: string): seq<real> {
    if e.provider != p || e.Refused? then ts else if e.Failed? then ts + [e.at] else []
  }

  /** Times of a provider's failures since its last success. */
  function Recent(log: seq<Event>, p: string): seq<real> {
    if log == [] then [] else Noted(Recent(log[..|log| - 1], p), log[|log| - 1], p)
  }

  lemma RecentGrows(log: seq<Event>, e: Event, p: string)
    ensures Recent(log + [e], p) == Noted(Recent(log, p), e, p)
  {
    assert (log + [e])[..|log|] == log;
  }

  predicate Ascending(ts: seq<real>) { forall i, j :: 0 <= i <= j < |ts| ==> ts[i] <= ts[j] }

  /** Any `m + 1` entries span at least `reset`. */
  predicate Spaced(ts: seq<real>, m: nat, reset: real) { forall i, j :: 0 <= i && i + m <= j < |ts| ==> ts[j] - ts[i] >= reset }

  /** What the breaker's counters mean: `c` is the current run of failures, `open` the time it opened. */
  predicate Consistent(ts: seq<real>, c: int, open: Option<real>, clock: real, m: nat, reset: real) {
    && Ascending(ts) && (ts != [] ==> ts[|ts| - 1] <= clock) && 0 <= c <= |ts|
    && (open.Some? ==> c >= m && ts != [] && open.value == ts[|ts| - 1])
    && (open.None? ==> c < m)
    && (0 < c < |ts| ==> ts[|ts| - c] - ts[|ts| - c - 1] >= reset)
    && (c == 0 && ts != [] ==> clock - ts[|ts| - 1] >= reset)
    && Spaced(ts, m, reset)
  }

  /** A failure of a closed provider keeps the counters meaningful and the failures spaced. */
  lemma FailureKeeps(ts: seq<real>, c: int, clock: real, now: real, m: nat, reset: real)
    requires m >= 1 && Consistent(ts, c, None, clock, m, reset) && now >= clock
    ensures Consistent(ts + [now], c + 1, if c + 1 >= m then Some(now) else None, now, m, reset)
  {
    var us := ts + [now];
    forall i, j | 0 <= i && i + m <= j < |us| ensures us[j] - us[i] >= reset {
      if j == |ts| {
        if c == 0 {
          assert ts[i] <= ts[|ts| - 1];
        } else {
          assert i <= |ts| - c - 1;
          assert ts[i] <= ts[|ts| - c - 1];
          assert ts[|ts| - c] <= ts[|ts| - 1];
        }
      }
    }
  }

  lemma ConsistentIsSpaced(ts: seq<real>, c: int, open: Option<real>, clock: real, m: nat, reset: real)
    requires Consistent(ts, c, open, clock, m, reset)
    ensures Spaced(ts, m, reset)
  {
  }

  lemma SuccessIsConsistent(clock: real, m: nat, reset: real)
    requires m >= 1
    ensures Consistent([], 0, None, clock, m, reset)
  {
  }

  /** At every moment of the log, every provider's recent failures are spaced. */
  ghost predicate AllSpaced(log: seq<Event>, m: nat, reset: real) {
    forall p, n :: 0 <= n <= |log| ==> Spaced(Recent(log[..n], p), m, reset)
  }

  // ---- the breaker as a function of what happened ----

  /** The failures counted for a provider, and since when it is open. */
  datatype Gauge = Gauge(count: nat, open: Option<real>)

  /** A failure of an open provider is a retry after the reset: the count starts over. */
  function Told(g: Gauge, e: Event, p: string, m: nat): Gauge {
    if e.provider != p || e.Refused? then g
    else if e.Succeeded? then Gauge(0, None)
    else
      var c := (if g.open.Some? then 0 else g.count) + 1;
      Gauge(c, if c >= m then Some(e.at) else None)
  }

  function GaugeOf(log: seq<Event>, p: string, m: nat): Gauge {
    if log == [] then Gauge(0, None) else Told(GaugeOf(log[..|log| - 1], p, m), log[|log| - 1], p, m)
  }

  lemma GaugeGrows(log: seq<Event>, e: Event, p: string, m: nat)
    ensures GaugeOf(log + [e], p, m) == Told(GaugeOf(log, p, m), e, p, m)
  {
    assert (log + [e])[..|log|] == log;
  }

  /** After such a log, is the provider open at time `t`? */
  predicate OpenAt(log: seq<Event>, p: string, t: real, m: nat, reset: real) {
    var g := GaugeOf(log, p, m);
    g.open.Some? && t - g.open.value < reset
  }

  /** Everything in the log is over by `t`. */
  predicate Over(log: seq<Event>, t: real) { log != [] ==> End(log[|log| - 1]) <= t }

  /** Events follow one another in time, and a provider is refused exactly when it is open. */
  predicate Lawful(log: seq<Event>, m: nat, reset: real) {
    log != [] ==>
      var front, e := log[..|log| - 1], log[|log| - 1];
      && Lawful(front, m, reset) && Over(front, e.start) && e.start <= End(e)
      && (e.Refused? <==> OpenAt(front, e.provider, e.start, m, reset))
  }

  lemma LawfulGrows(log: seq<Event>, e: Event, m: nat, reset: real)
    requires Lawful(log, m, reset) && Over(log, e.start) && e.start <= End(e)
    requires e.Refused? <==> OpenAt(log, e.provider, e.start, m, reset)
    ensures Lawful(log + [e], m, reset) && Over(log + [e], End(e))
  {
    hide OpenAt;
    assert (log + [e])[..|log|] == log;
  }

  lemma {:induction false} LawfulFront(log: seq<Event>, n: nat, m: nat, reset: real)
    requires Lawful(log, m, reset) && n <= |log|
    ensures Lawful(log[..n], m, reset)
    ensures n < |log| ==> && Over(log[..n], log[n].start) && log[n].start <= End(log[n])
                          && (log[n].Refused? <==> OpenAt(log[..n], log[n].provider, log[n].start, m, reset))
  {
    hide OpenAt;
    if n < |log| {
      var front := log[..|log| - 1];
      LawfulFront(front, if n < |front| then n else |front|, m, reset);
      assert front[..n] == log[..n];
    } else {
      assert log[..n] == log;
    }
  }

  /** Once the reset has passed, an open provider counts as closed. */
  lemma HalfOpen(ts: seq<real>, c: int, o: real, clock: real, t: real, m: nat, reset: real)
    requires m >= 1 && Consistent(ts, c, Some(o), clock, m, reset) && t >= clock && t - o >= reset
    ensures Consistent(ts, 0, None, t, m, reset)
  {
  }

  lemma LaterConsistent(ts: seq<real>, c: int, open: Option<real>, clock: real, t: real, m: nat, reset: real)
    requires Consistent(ts, c, open, clock, m, reset) && t >= clock
    ensures Consistent(ts, c, open, t, m, reset)
  {
    hide Ascending, Spaced;
  }

  /** In a lawful log the gauge means what the counters should, at any time after it. */
  lemma {:induction false} GaugeIsConsistent(log: seq<Event>, p: string, t: real, m: nat, reset: real)
    requires m >= 1 && Lawful(log, m, reset) && Over(log, t)
    ensures var g := GaugeOf(log, p, m); Consistent(Recent(log, p), g.count, g.open, t, m, reset)
  {
    if log == [] {
      SuccessIsConsistent(t, m, reset);
    } else {
      hide Consistent;
      var front, e := log[..|log| - 1], log[|log| - 1];
      var g, ts := GaugeOf(front, p, m), Recent(front, p);
      GaugeIsConsistent(front, p, e.start, m, reset);
      if e.provider != p || e.Refused? {
        LaterConsistent(ts, g.count, g.open, e.start, t, m, reset);
      } else if e.Succeeded? {
        SuccessIsConsistent(t, m, reset);
      } else {
        var c := if g.open.Some? then 0 else g.count;
        if g.open.Some? { HalfOpen(ts, g.count, g.open.value, e.start, e.start, m, reset); }
        FailureKeeps(ts, c, e.start, e.at, m, reset);
        LaterConsistent(ts + [e.at], c + 1, if c + 1 >= m then Some(e.at) else None, e.at, t, m, reset);
      }
    }
  }

  /** In a lawful log every provider's failures are spaced at every moment. */
  lemma LawfulIsSpaced(log: seq<Event>, m: nat, reset: real)
    requires m >= 1 && Lawful(log, m, reset)
    ensures AllSpaced(log, m, reset)
  {
    hide Consistent, Lawful, Recent, Spaced, GaugeOf;
    forall p, n | 0 <= n <= |log| ensures Spaced(Recent(log[..n], p), m, reset) {
      LawfulFront(log, n, m, reset);
      var t := if n == 0 then 0.0 else End(log[n - 1]);
      GaugeIsConsistent(log[..n], p, t, m, reset);
      var g := GaugeOf(log[..n], p, m);
      ConsistentIsSpaced(Recent(log[..n], p), g.count, g.open, t, m, reset);
    }
  }

  /** A closed provider is called no sooner than `reset` after the `m`-th last of its failures. */
  lemma CallWaits(ts: seq<real>, c: int, clock: real, now: real, m: nat, reset: real)
    requires m >= 1 && Consistent(ts, c, None, clock, m, reset) && now >= clock && |ts| >= m
    ensures now - ts[|ts| - m] >= reset
  {
    if c == 0 {
      assert ts[|ts| - m] <= ts[|ts| - 1];
    } else {
      assert ts[|ts| - m] <= ts[|ts| - c - 1] && ts[|ts| - c] <= ts[|ts| - 1];
    }
  }

  /** Every call in a lawful log, answered or failed, comes at least `reset` after the `m`-th last failure
      since the provider's last success; every refusal has at least `m` such failures before it, the last of
      them less than `reset` ago. */
  lemma CallsAndRefusals(log: seq<Event>, n: nat, m: nat, reset: real)
    requires m >= 1 && Lawful(log, m, reset) && n < |log|
    ensures var e := log[n]; var ts := Recent(log[..n], e.provider);
            if e.Refused? then |ts| >= m && e.start - ts[|ts| - 1] < reset
            else |ts| >= m ==> e.start - ts[|ts| - m] >= reset
  {
    hide Recent, Lawful, Spaced, Ascending, GaugeOf;
    var e, p := log[n], log[n].provider;
    var ts, g := Recent(log[..n], p), GaugeOf(log[..n], p, m);
    LawfulFront(log, n, m, reset);
    GaugeIsConsistent(log[..n], p, e.start, m, reset);
    if !e.Refused? && |ts| >= m {
      if g.open.Some? {
        HalfOpen(ts, g.count, g.open.value, e.start, e.start, m, reset);
        CallWaits(ts, 0, e.start, e.start, m, reset);
      } else {
        CallWaits(ts, g.count, e.start, e.start, m, reset);
      }
    }
  }

  /** The dictionaries show the gauge, or that its reset has been noticed. */
  predicate Shows(g: Gauge, c: int, open: Option<real>, clock: real, reset: real) {
    || (c == g.count && open == g.open)
    || (g.open.Some? && clock - g.open.value >= reset && c == 0 && open.None?)
  }

  class CircuitBreaker {
    var failures: map<string, int>
    var openSince: map<string, real>
    const max: int
    const reset: real
    /** The last reading of the monotonic clock. */
    var clock: real
    ghost var log: seq<Event>

    constructor (max: int, reset: real)
      ensures this.max == max && this.reset == reset && Valid() && log == []
    {
      this.max, this.reset := max, reset;
      failures, openSince, clock, log := map[], map[], 0.0, [];
    }

    /** Failures in a row that open a provider. */
    function Limit(): (m: nat)
      ensures m >= 1
    {
      if max >= 1 then max else 1
    }

    function CountOf(p: string): int
      reads this
    {
      if p in failures then failures[p] else 0
    }

    function OpenOf(p: string): Option<real>
      reads this
    {
      if p in openSince then Some(openSince[p]) else None
    }

    /** The dictionaries are what the log makes of them, and the log is lawful: so far a provider was refused
        exactly when it was open. */
    ghost predicate Valid()
      reads this
    {
      && (forall p :: Shows(GaugeOf(log, p, Limit()), CountOf(p), OpenOf(p), clock, reset))
      && Lawful(log, Limit(), reset) && Over(log, clock)
    }

    /** So the counters of every provider mean what they should, and at every past moment too its failures
        were spaced. */
    lemma CountersMean(p: string)
      requires Valid()
      ensures Consistent(Recent(log, p), CountOf(p), OpenOf(p), clock, Limit(), reset) && AllSpaced(log, Limit(), reset)
    {
      hide Consistent, Recent, Lawful, AllSpaced, GaugeOf;
      var g := GaugeOf(log, p, Limit());
      GaugeIsConsistent(log, p, clock, Limit(), reset);
      LawfulIsSpaced(log, Limit(), reset);
      if OpenOf(p) != g.open || CountOf(p) != g.count {
        HalfOpen(Recent(log, p), g.count, g.open.value, clock, clock, Limit(), reset);
      }
    }

    /** `time.monotonic()` */
    method Now() returns (now: real)
      modifies this`clock
      ensures now == clock >= old(clock) && (old(Valid()) ==> Valid())
    {
      hide Lawful, GaugeOf;
      now := *;
      if now < clock {
        now := clock;
      }
      clock := now;
    }

    /** The failure of a call made at the last reading. Recorded for a closed provider, as routing always does,
        it keeps the dictionaries and the log as they should be. */
    method RecordFailure(p: string)
      modifies this
      ensures clock >= old(clock) && log == old(log) + [Failed(p, old(clock), clock)]
      ensures old(Valid() && OpenOf(p).None?) ==> Valid()
      ensures failures == old(failures)[p := old(CountOf(p)) + 1]
      ensures openSince == if old(CountOf(p)) + 1 >= max then old(openSince)[p := clock] else old(openSince)
    {
      hide Lawful, GaugeOf;
      ghost var sound, before, called := Valid() && OpenOf(p).None?, log, clock;
      var now := Now();
      failures := failures[p := CountOf(p) + 1];
      if failures[p] >= max {
        openSince := openSince[p := now];
      }
      ghost var e := Failed(p, called, now);
      log := log + [e];
      if sound {
        LawfulGrows(before, e, Limit(), reset);
        forall q ensures Shows(GaugeOf(log, q, Limit()), CountOf(q), OpenOf(q), clock, reset) {
          GaugeGrows(before, e, q, Limit());
        }
      }
    }

    /** The success of a call made at the last reading. */
    method RecordSuccess(p: string)
      modifies this
      ensures clock == old(clock) && log == old(log) + [Succeeded(p, clock)]
      ensures old(Valid() && OpenOf(p).None?) ==> Valid()
      ensures failures == old(failures) - {p} && openSince == old(openSince) - {p}
    {
      hide Lawful, GaugeOf;
      ghost var sound, before, e := Valid() && OpenOf(p).None?, log, Succeeded(p, clock);
      failures := failures - {p};
      openSince := openSince - {p};
      log := log + [e];
      if sound {
        LawfulGrows(before, e, Limit(), reset);
        forall q ensures Shows(GaugeOf(log, q, Limit()), CountOf(q), OpenOf(q), clock, reset) {
          GaugeGrows(before, e, q, Limit());
        }
      }
    }

    /** Closed again only `reset` after it opened; the count then starts over. The answer is what the log says. */
    method IsOpen(p: string) returns (open: bool)
      requires Valid()
      modifies this`failures, this`openSince, this`clock
      ensures Valid() && clock >= old(clock) && log == old(log)
      ensures open == (old(OpenOf(p)).Some? && clock - old(OpenOf(p)).value < reset)
      ensures open == OpenAt(log, p, clock, Limit(), reset)
      ensures open || OpenOf(p).None?
      ensures if old(OpenOf(p)).Some? && !open then failures == old(failures) - {p} && openSince == old(openSince) - {p}
              else failures == old(failures) && openSince == old(openSince)
    {
      hide Lawful, GaugeOf;
      if p !in openSince {
        assert Shows(GaugeOf(log, p, Limit()), CountOf(p), OpenOf(p), clock, reset);
        return false;
      }
      var now := Now();
      assert Shows(GaugeOf(log, p, Limit()), CountOf(p), OpenOf(p), clock, reset);
      if now - openSince[p] >= reset {
        failures := failures - {p};
        openSince := openSince - {p};
        return false;
      }
      return true;
    }

    /** A refusal leaves its mark in the log alone. */
    ghost method NoteRefusal(p: string)
      requires Valid() && OpenAt(log, p, clock, Limit(), reset)
      modifies this`log
      ensures Valid() && log == old(log) + [Refused(p, clock)]
    {
      hide Lawful, GaugeOf, OpenAt;
      var before, e := log, Refused(p, clock);
      log := log + [e];
      LawfulGrows(before, e, Limit(), reset);
      forall q ensures Shows(GaugeOf(log, q, Limit()), CountOf(q), OpenOf(q), clock, reset) {
        GaugeGrows(before, e, q, Limit());
      }
    }
  }

  // ---- the rate limit, over a whole log ----

  predicate NoSuccess(log: seq<Event>, p: string) { forall e :: e in log ==> !(e.Succeeded? && e.provider == p) }

  /** Times of a provider's failures, in order. */
  function Times(log: seq<Event>, p: string): seq<real> {
    if log == [] then []
    else Times(log[..|log| - 1], p) + (var e := log[|log| - 1]; if e.Failed? && e.provider == p then [e.at] else [])
  }

  lemma {:induction false} RecentSegment(log: seq<Event>, i: nat, k: nat, p: string)
    requires i <= k <= |log| && NoSuccess(log[i..k], p)
    ensures Recent(log[..k], p) == Recent(log[..i], p) + Times(log[i..k], p)
    decreases k
  {
    hide Recent, Times;
    if i == k {
      NoTimes(log[i..k], p);
    } else {
      var before, stretch, e := log[i..k - 1], log[i..k], log[k - 1];
      assert stretch == before + [e] && e in stretch;
      assert forall x :: x in before ==> x in stretch;
      RecentSegment(log, i, k - 1, p);
      assert log[..k] == log[..k - 1] + [e];
      RecentGrows(log[..k - 1], e, p);
      TimesGrow(before, e, p);
      if e.Failed? {
        AssocOne(Recent(log[..i], p), Times(before, p), e.at);
      }
    }
  }

  lemma NoTimes(log: seq<Event>, p: string)
    requires log == []
    ensures Times(log, p) == []
  {
  }

  lemma AssocOne(a: seq<real>, b: seq<real>, t: real)
    ensures a + b + [t] == a + (b + [t])
  {
  }

  lemma TimesGrow(log: seq<Event>, e: Event, p: string)
    ensures Times(log + [e], p) == Times(log, p) + (if e.Failed? && e.provider == p then [e.at] else [])
  {
    assert (log + [e])[..|log|] == log;
  }

  lemma {:induction false} TimesEnds(log: seq<Event>, p: string)
    requires log != [] && log[0].Failed? && log[0].provider == p
    ensures Times(log, p) != [] && Times(log, p)[0] == log[0].at
  {
    if |log| > 1 {
      TimesEnds(log[..|log| - 1], p);
    } else {
      assert log[..0] == [] && Times(log[..0], p) == [];
    }
  }

  /** Between two failures of a provider with no success in between, if more than `m` failures fall in
      the stretch then the stretch lasts at least `reset`. */
  lemma RateLimit(log: seq<Event>, p: string, i: nat, j: nat, m: nat, reset: real)
    requires AllSpaced(log, m, reset) && i <= j < |log|
    requires log[i].Failed? && log[i].provider == p && log[j].Failed? && log[j].provider == p
    requires NoSuccess(log[i..j + 1], p) && |Times(log[i..j + 1], p)| >= m + 1
    ensures log[j].at - log[i].at >= reset
  {
    hide Recent, Spaced, AllSpaced;
    var stretch := log[i..j + 1];
    var before, times := Recent(log[..i], p), Times(stretch, p);
    RecentSegment(log, i, j + 1, p);
    TimesEnds(stretch, p);
    assert stretch[|stretch| - 1] == log[j];
    LastTime(stretch, p);
    assert Spaced(Recent(log[..j + 1], p), m, reset) by { SpacedAt(log, p, j + 1, m, reset); }
    SpanOf(before, times, m, reset);
  }

  /** The same of every call: answered or failed, a call that follows a failure, with at least `m` failures and
      no success since, comes at least `reset` after it. */
  lemma CallRate(log: seq<Event>, p: string, i: nat, j: nat, m: nat, reset: real)
    requires m >= 1 && Lawful(log, m, reset) && i < j < |log|
    requires log[i].Failed? && log[i].provider == p && !log[j].Refused? && log[j].provider == p
    requires NoSuccess(log[i..j], p) && |Times(log[i..j], p)| >= m
    ensures log[j].start - log[i].at >= reset
  {
    hide Recent, Lawful, Times;
    var before, times := Recent(log[..i], p), Times(log[i..j], p);
    RecentSegment(log, i, j, p);
    TimesEnds(log[i..j], p);
    CallsAndRefusals(log, j, m, reset);
    var ts := before + times;
    assert ts[|before|] == times[0] == log[i].at;
    LawfulFront(log, j, m, reset);
    GaugeIsConsistent(log[..j], p, log[j].start, m, reset);
  }

  lemma LastTime(log: seq<Event>, p: string)
    requires log != [] && log[|log| - 1].Failed? && log[|log| - 1].provider == p
    ensures Times(log, p) != [] && Times(log, p)[|Times(log, p)| - 1] == log[|log| - 1].at
  {
  }

  lemma SpacedAt(log: seq<Event>, p: string, n: nat, m: nat, reset: real)
    requires AllSpaced(log, m, reset) && n <= |log|
    ensures Spaced(Recent(log[..n], p), m, reset)
  {
  }

  lemma SpanOf(before: seq<real>, times: seq<real>, m: nat, reset: real)
    requires Spaced(before + times, m, reset) && |times| >= m + 1
    ensures times[|times| - 1] - times[0] >= reset
  {
    var all := before + times;
    assert all[|before|] == times[0] && all[|all| - 1] == times[|times| - 1];
  }

  // ---- routing ----

  /** An adapter and its cost estimate for the request. */
  datatype Adapter = Adapter(provider: string, cost: real)

  datatype Answer = Response(content: string) | Exception(message: string)

  datatype Attempt = Skipped(provider: string) | Tried(provider: string, answer: Answer)

  datatype RouteResult = Routed(content: string) | AllFailed(errors: seq<string>)

  function ErrorText(a: Attempt): string
    requires a.Skipped? || a.answer.Exception?
  {
    if a.Skipped? then a.provider + ": circuit breaker open" else a.provider + ": " + a.answer.message
  }

  predicate Unsuccessful(a: Attempt) { a.Skipped? || a.answer.Exception? }

  /** What a chain of attempts returns: the first response, or every error in order. */
  predicate ChainResult(adapters: seq<Adapter>, tried: seq<Attempt>, r: RouteResult) {
    && |tried| <= |adapters| && (forall i :: 0 <= i < |tried| ==> tried[i].provider == adapters[i].provider)
    && match r
       case Routed(content) =>
         tried != [] && tried[|tried| - 1] == Tried(tried[|tried| - 1].provider, Response(content))
         && forall i :: 0 <= i < |tried| - 1 ==> Unsuccessful(tried[i])
       case AllFailed(errors) =>
         |tried| == |adapters| == |errors|
         && (forall i :: 0 <= i < |tried| ==> Unsuccessful(tried[i]))
         && forall i :: 0 <= i < |tried| ==>
              errors[i] == tried[i].provider + ": " + (if tried[i].Skipped? then "circuit breaker open" else tried[i].answer.message)
  }

  /** So far the attempts follow the adapters and none was answered; the errors are theirs. */
  predicate NoneAnswered(adapters: seq<Adapter>, tried: seq<Attempt>, errors: seq<string>) {
    && |tried| == |errors| <= |adapters|
    && forall n :: 0 <= n < |tried| ==> tried[n].provider == adapters[n].provider && Unsuccessful(tried[n]) && errors[n] == ErrorText(tried[n])
  }

  lemma NoAttempts(adapters: seq<Adapter>)
    ensures NoneAnswered(adapters, [], [])
  {
  }

  lemma OneMoreAttempt(adapters: seq<Adapter>, tried: seq<Attempt>, errors: seq<string>, a: Attempt)
    requires NoneAnswered(adapters, tried, errors) && |tried| < |adapters| && a.provider == adapters[|tried|].provider
    ensures Unsuccessful(a) ==> NoneAnswered(adapters, tried + [a], errors + [ErrorText(a)])
    ensures !Unsuccessful(a) ==> ChainResult(adapters, tried + [a], Routed(a.answer.content))
  {
    hide ErrorText;
  }

  lemma NobodyAnswered(adapters: seq<Adapter>, tried: seq<Attempt>, errors: seq<string>)
    requires NoneAnswered(adapters, tried, errors) && |tried| == |adapters|
    ensures ChainResult(adapters, tried, AllFailed(errors))
  {
  }

  /** The event an attempt leaves in the breaker's log. */
  predicate Mirrors(a: Attempt, e: Event) {
    && a.provider == e.provider && (a.Skipped? <==> e.Refused?)
    && (a.Tried? ==> (a.answer.Response? <==> e.Succeeded?))
  }

  /** Attempts one after the other on top of a log: each leaves its event, and is skipped exactly when its
      provider is open at that moment. */
  ghost predicate Decided(log: seq<Event>, tried: seq<Attempt>, events: seq<Event>, m: nat, reset: real) {
    && |tried| == |events|
    && forall n :: 0 <= n < |tried| ==>
         && Mirrors(tried[n], events[n])
         && (tried[n].Skipped? <==> OpenAt(log + events[..n], tried[n].provider, events[n].start, m, reset))
  }

  predicate Within(events: seq<Event>, from: real, to: real) {
    forall n :: 0 <= n < |events| ==> from <= events[n].start <= End(events[n]) <= to
  }

  /** The calls that the attempts amount to: which adapter was called, and what came back. */
  function Called(adapters: seq<Adapter>, tried: seq<Attempt>): seq<(Adapter, Answer)>
    requires |tried| <= |adapters|
  {
    if tried == [] then [] else
      var n := |tried| - 1;
      Called(adapters, tried[..n]) + (if tried[n].Skipped? then [] else [(adapters[n], tried[n].answer)])
  }

  lemma CalledGrows(adapters: seq<Adapter>, tried: seq<Attempt>, a: Attempt)
    requires |tried| < |adapters|
    ensures Called(adapters, tried + [a]) == Called(adapters, tried) + (if a.Skipped? then [] else [(adapters[|tried|], a.answer)])
  {
    assert (tried + [a])[..|tried|] == tried;
  }

  lemma DecidedGrows(log: seq<Event>, tried: seq<Attempt>, events: seq<Event>, a: Attempt, e: Event, m: nat, reset: real)
    requires Decided(log, tried, events, m, reset) && Mirrors(a, e)
    requires a.Skipped? <==> OpenAt(log + events, a.provider, e.start, m, reset)
    ensures Decided(log, tried + [a], events + [e], m, reset)
  {
    hide OpenAt, Mirrors;
    assert (events + [e])[..|events|] == events;
    assert forall n :: 0 <= n < |events| ==> (events + [e])[..n] == events[..n];
  }

  class RoutingEngine {
    const cb: CircuitBreaker
    /** Every adapter call made, with its answer. */
    ghost var calls: seq<(Adapter, Answer)>

    constructor (cb: CircuitBreaker)
      ensures this.cb == cb && calls == []
    {
      this.cb, calls := cb, [];
    }

    /** An adapter may answer or raise; nothing more is known of it. */
    method Invoke(a: Adapter) returns (r: Answer)
      modifies this`calls
      ensures calls == old(calls) + [(a, r)]
    {
      r := *;
      calls := calls + [(a, r)];
    }

    /** One adapter of a chain, at the time of its event: skipped exactly when its breaker is open then, else
        called once and the breaker told. */
    method TryOne(a: Adapter) returns (attempt: Attempt, ghost event: Event)
      requires cb.Valid()
      modifies cb, this`calls
      ensures cb.Valid() && cb.log == old(cb.log) + [event] && event.provider == a.provider && Mirrors(attempt, event)
      ensures old(cb.clock) <= event.start <= End(event) <= cb.clock
      ensures attempt.Skipped? <==> old(cb.OpenOf(a.provider)).Some? && event.start - old(cb.OpenOf(a.provider)).value < cb.reset
      ensures attempt.Skipped? <==> OpenAt(old(cb.log), a.provider, event.start, cb.Limit(), cb.reset)
      ensures calls == old(calls) + (if attempt.Skipped? then [] else [(a, attempt.answer)])
    {
      hide CircuitBreaker.Valid, GaugeOf;
      var open := cb.IsOpen(a.provider);
      if open {
        attempt, event := Skipped(a.provider), Refused(a.provider, cb.clock);
        cb.NoteRefusal(a.provider);
        return;
      }
      var called := cb.Now();
      var answer := Invoke(a);
      attempt := Tried(a.provider, answer);
      if answer.Response? {
        cb.RecordSuccess(a.provider);
        event := Succeeded(a.provider, called);
      } else {
        cb.RecordFailure(a.provider);
        event := Failed(a.provider, called, cb.clock);
      }
    }

    /** `_fallback`, and the second half of `_cost_aware`. */
    method Fallback(adapters: seq<Adapter>) returns (r: RouteResult, ghost tried: seq<Attempt>, ghost events: seq<Event>)
      requires cb.Valid()
      modifies cb, this`calls
      ensures cb.Valid() && ChainResult(adapters, tried, r)
      ensures cb.log == old(cb.log) + events && Decided(old(cb.log), tried, events, cb.Limit(), cb.reset)
      ensures Within(events, old(cb.clock), cb.clock)
      ensures calls == old(calls) + Called(adapters, tried)
    {
      hide CircuitBreaker.Valid, Decided, OpenAt, Called, ChainResult, NoneAnswered;
      ghost var log0, calls0 := cb.log, calls;
      var errors: seq<string> := [];
      tried, events := [], [];
      NothingTried(log0, adapters, cb.Limit(), cb.reset);
      NoAttempts(adapters);
      for i := 0 to |adapters|
        invariant cb.Valid() && cb.log == log0 + events && Decided(log0, tried, events, cb.Limit(), cb.reset)
        invariant old(cb.clock) <= cb.clock && Within(events, old(cb.clock), cb.clock)
        invariant |tried| == |errors| == i && calls == calls0 + Called(adapters, tried)
        invariant NoneAnswered(adapters, tried, errors)
      {
        var attempt, event := TryOne(adapters[i]);
        DecidedGrows(log0, tried, events, attempt, event, cb.Limit(), cb.reset);
        CalledGrows(adapters, tried, attempt);
        OneMoreAttempt(adapters, tried, errors, attempt);
        tried, events := tried + [attempt], events + [event];
        if attempt.Tried? && attempt.answer.Response? {
          return Routed(attempt.answer.content), tried, events;
        }
        errors := errors + [ErrorText(attempt)];
      }
      NobodyAnswered(adapters, tried, errors);
      r := AllFailed(errors);
    }

    /** `_cost_aware`: the eligible adapters, cheapest first, ties in the given order. */
    method CostAware(adapters: seq<Adapter>, minTier: Option<real>)
      returns (r: RouteResult, ghost tried: seq<Attempt>, ghost events: seq<Event>, order: seq<nat>)
      requires cb.Valid()
      modifies cb, this`calls
      ensures cb.Valid() && CheapestFirst(adapters, minTier, order) && ChainResult(Pick(adapters, order), tried, r)
      ensures forall n :: 0 <= n < |order| ==> order[n] < |adapters|
      ensures forall i :: 0 <= i < |adapters| ==> (i in order <==> minTier.None? || adapters[i].cost >= minTier.value)
      ensures forall m, n :: 0 <= m < n < |order| ==>
                var a, b := adapters[order[m]].cost, adapters[order[n]].cost; a < b || (a == b && order[m] < order[n])
      ensures cb.log == old(cb.log) + events && Decided(old(cb.log), tried, events, cb.Limit(), cb.reset)
      ensures Within(events, old(cb.clock), cb.clock)
      ensures calls == old(calls) + Called(Pick(adapters, order), tried)
    {
      hide CheapestFirst;
      order := [];
      NoneEligible(adapters, minTier);
      for i := 0 to |adapters|
        invariant unchanged(cb) && unchanged(this)
        invariant CheapestFirst(adapters[..i], minTier, order)
      {
        assert adapters[..i + 1][..i] == adapters[..i];
        if minTier.Some? && adapters[i].cost < minTier.value {
          SkipTier(adapters[..i + 1], minTier, order);
          continue;
        }
        order := InsertByCost(adapters[..i + 1], minTier, order);
      }
      assert adapters[..|adapters|] == adapters;
      OrderIs(adapters, minTier, order);
      r, tried, events := Fallback(Pick(adapters, order));
    }
  }

  lemma NothingTried(log: seq<Event>, adapters: seq<Adapter>, m: nat, reset: real)
    ensures Decided(log, [], [], m, reset) && Called(adapters, []) == []
  {
  }

  predicate Eligible(a: Adapter, minTier: Option<real>) { minTier.None? || a.cost >= minTier.value }

  predicate Cheaper(adapters: seq<Adapter>, i: nat, j: nat)
    requires i < |adapters| && j < |adapters|
  {
    adapters[i].cost < adapters[j].cost || (adapters[i].cost == adapters[j].cost && i < j)
  }

  /** The stable sort: exactly the eligible positions, each once, by cost and then by position. */
  predicate CheapestFirst(adapters: seq<Adapter>, minTier: Option<real>, order: seq<nat>) {
    && (forall n :: 0 <= n < |order| ==> order[n] < |adapters| && Eligible(adapters[order[n]], minTier))
    && (forall i :: 0 <= i < |adapters| && Eligible(adapters[i], minTier) ==> i in order)
    && (forall m, n :: 0 <= m < n < |order| ==> Cheaper(adapters, order[m], order[n]))
  }

  lemma NoneEligible(adapters: seq<Adapter>, minTier: Option<real>)
    ensures CheapestFirst(adapters[..0], minTier, [])
  {
  }

  lemma OrderIs(adapters: seq<Adapter>, minTier: Option<real>, order: seq<nat>)
    requires CheapestFirst(adapters, minTier, order)
    ensures forall n :: 0 <= n < |order| ==> order[n] < |adapters|
    ensures forall i :: 0 <= i < |adapters| ==> (i in order <==> minTier.None? || adapters[i].cost >= minTier.value)
    ensures forall m, n :: 0 <= m < n < |order| ==>
              var a, b := adapters[order[m]].cost, adapters[order[n]].cost; a < b || (a == b && order[m] < order[n])
  {
  }

  function Pick(adapters: seq<Adapter>, order: seq<nat>): seq<Adapter>
    requires forall n :: 0 <= n < |order| ==> order[n] < |adapters|
  {
    seq(|order|, n requires 0 <= n < |order| => adapters[order[n]])
  }

  lemma SkipTier(adapters: seq<Adapter>, minTier: Option<real>, order: seq<nat>)
    requires adapters != [] && CheapestFirst(adapters[..|adapters| - 1], minTier, order) && !Eligible(adapters[|adapters| - 1], minTier)
    ensures CheapestFirst(adapters, minTier, order)
  {
  }

  /** The newcomer goes behind everything that costs no more. */
  method InsertByCost(adapters: seq<Adapter>, minTier: Option<real>, order: seq<nat>) returns (r: seq<nat>)
    requires adapters != [] && CheapestFirst(adapters[..|adapters| - 1], minTier, order) && Eligible(adapters[|adapters| - 1], minTier)
    ensures CheapestFirst(adapters, minTier, r)
  {
    var last := |adapters| - 1;
    var k := |order|;
    while k > 0 && adapters[order[k - 1]].cost > adapters[last].cost
      invariant 0 <= k <= |order|
      invariant forall n :: k <= n < |order| ==> adapters[order[n]].cost > adapters[last].cost
    {
      k := k - 1;
    }
    r := order[..k] + [last] + order[k..];
    Inserted(adapters, minTier, order, k, r);
  }

  lemma Inserted(adapters: seq<Adapter>, minTier: Option<real>, order: seq<nat>, k: nat, r: seq<nat>)
    requires adapters != [] && CheapestFirst(adapters[..|adapters| - 1], minTier, order) && Eligible(adapters[|adapters| - 1], minTier)
    requires k <= |order| && r == order[..k] + [|adapters| - 1] + order[k..]
    requires forall n :: 0 <= n < |order| ==> order[n] < |adapters| - 1
    requires forall n :: k <= n < |order| ==> adapters[order[n]].cost > adapters[|adapters| - 1].cost
    requires k > 0 ==> adapters[order[k - 1]].cost <= adapters[|adapters| - 1].cost
    ensures CheapestFirst(adapters, minTier, r)
  {
    InsertedOrder(adapters, minTier, order, k, r);
    InsertedMembers(adapters, minTier, order, k, r);
  }

  lemma InsertedOrder(adapters: seq<Adapter>, minTier: Option<real>, order: seq<nat>, k: nat, r: seq<nat>)
    requires adapters != [] && CheapestFirst(adapters[..|adapters| - 1], minTier, order)
    requires k <= |order| && r == order[..k] + [|adapters| - 1] + order[k..]
    requires forall n :: 0 <= n < |order| ==> order[n] < |adapters| - 1
    requires forall n :: k <= n < |order| ==> adapters[order[n]].cost > adapters[|adapters| - 1].cost
    requires k > 0 ==> adapters[order[k - 1]].cost <= adapters[|adapters| - 1].cost
    ensures forall n :: 0 <= n < |r| ==> r[n] < |adapters|
    ensures forall m, n :: 0 <= m < n < |r| ==> Cheaper(adapters, r[m], r[n])
  {
    hide Eligible;
    var front, last := adapters[..|adapters| - 1], |adapters| - 1;
    forall m, n | 0 <= m < n < |r| ensures r[m] < |adapters| && r[n] < |adapters| && Cheaper(adapters, r[m], r[n]) {
      if m != k && n != k {
        var a, b := if m < k then m else m - 1, if n < k then n else n - 1;
        assert r[m] == order[a] && r[n] == order[b] && Cheaper(front, order[a], order[b]);
      } else if m == k {
        assert r[n] == order[n - 1];
      } else {
        assert r[m] == order[m];
        if m < k - 1 { assert Cheaper(front, order[m], order[k - 1]); }
      }
    }
  }

  lemma InsertedMembers(adapters: seq<Adapter>, minTier: Option<real>, order: seq<nat>, k: nat, r: seq<nat>)
    requires adapters != [] && CheapestFirst(adapters[..|adapters| - 1], minTier, order) && Eligible(adapters[|adapters| - 1], minTier)
    requires k <= |order| && r == order[..k] + [|adapters| - 1] + order[k..]
    ensures forall n :: 0 <= n < |r| ==> r[n] < |adapters| && Eligible(adapters[r[n]], minTier)
    ensures forall i :: 0 <= i < |adapters| && Eligible(adapters[i], minTier) ==> i in r
  {
    hide Eligible, Cheaper;
    var front, last := adapters[..|adapters| - 1], |adapters| - 1;
    forall n | 0 <= n < |r| ensures r[n] < |adapters| && Eligible(adapters[r[n]], minTier) {
      if n != k { assert r[n] == order[if n < k then n else n - 1]; }
    }
    forall i | 0 <= i < |adapters| && Eligible(adapters[i], minTier) ensures i in r {
      if i < last {
        assert front[i] == adapters[i];
        var n :| 0 <= n < |order| && order[n] == i;
        assert r[if n < k then n else n + 1] == i;
      } else {
        assert r[k] == last;
      }
    }
  }
}
