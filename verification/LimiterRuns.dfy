/** Runs of the limiter: how many calls a window admits, which calls are never refused, and when pruning
    cannot be noticed. */
module LimiterRuns {
  import opened Limiter

  datatype Event = Call(tenant: string, now: real) | Prune(idle: real, now: real)

  /** The clock does not go back. */
  predicate Ordered(evs: seq<Event>, from: real)
    decreases |evs|
  {
    evs == [] || (from <= evs[0].now && Ordered(evs[1..], evs[0].now))
  }

  function Last(evs: seq<Event>, from: real): real {
    if evs == [] then from else evs[|evs| - 1].now
  }

  function Next(c: Config, s: Levels, ev: Event): Levels {
    match ev
    case Call(t, now) => Allowed(c, s, t, now).1
    case Prune(idle, now) => Pruned(s, idle, now)
  }

  function After(c: Config, s: Levels, evs: seq<Event>): Levels
    decreases |evs|
  {
    if evs == [] then s else After(c, Next(c, s, evs[0]), evs[1..])
  }

  /** The decisions of a run, one per call. */
  function Decisions(c: Config, s: Levels, evs: seq<Event>): seq<bool>
    decreases |evs|
  {
    if evs == [] then []
    else
      var rest := Decisions(c, Next(c, s, evs[0]), evs[1..]);
      if evs[0].Call? then [Allowed(c, s, evs[0].tenant, evs[0].now).0] + rest else rest
  }

  /** The calls of tenant t a run admits. */
  function Admitted(c: Config, s: Levels, evs: seq<Event>, t: string): int
    decreases |evs|
  {
    if evs == [] then 0
    else
      Admitted(c, Next(c, s, evs[0]), evs[1..], t)
      + if evs[0].Call? && evs[0].tenant == t && Allowed(c, s, t, evs[0].now).0 then 1 else 0
  }

  /** Every pruning waits long enough for a bucket to refill. */
  predicate Patient(c: Config, evs: seq<Event>)
    decreases |evs|
  {
    evs == [] || (LongEnough(c, evs[0]) && Patient(c, evs[1..]))
  }

  /** What is earned in this time at this rate. */
  function Earned(time: real, rate: real): real {
    time * rate
  }

  /** burst tokens are earned in this time at this rate. */
  predicate Refills(time: real, rate: real, burst: real) {
    Earned(time, rate) >= burst
  }

  predicate LongEnough(c: Config, ev: Event) {
    ev.Prune? ==> Refills(ev.idle, c.qps as real, c.burst as real)
  }

  // ---------------------------------------------------------------- tokens stay in [0, burst]

  lemma TimesDistributes(a: real, b: real, r: real)
    ensures a * r + b * r == (a + b) * r
  {
  }

  lemma TimesAdds(a: real, b: real, d: real, r: real)
    requires a + b == d
    ensures a * r + b * r == d * r
  {
    TimesDistributes(a, b, r);
    assert (a + b) * r == d * r;
  }

  lemma TimesPositive(a: real, r: real)
    requires a >= 0.0 && r >= 0.0
    ensures a * r >= 0.0
  {
  }

  lemma TimesMonotone(a: real, b: real, r: real)
    requires a <= b && r >= 0.0
    ensures a * r <= b * r
  {
    TimesPositive(b - a, r);
    TimesAdds(a, b - a, b, r);
  }

  ghost predicate InRange(c: Config, s: Levels, now: real) {
    forall t :: t in s ==> 0.0 <= s[t].tokens <= Burst(c) && s[t].last <= now
  }

  lemma RefillRange(c: Config, b: Level, now: real)
    requires Proper(c) && 0.0 <= b.tokens <= Burst(c) && b.last <= now
    ensures b.tokens <= Refilled(c, b, now) <= Burst(c)
  {
    TimesPositive(now - b.last, Rate(c));
  }

  lemma AvailableRange(c: Config, s: Levels, t: string, now: real)
    requires Proper(c) && InRange(c, s, now)
    ensures 0.0 <= Available(c, s, t, now) <= Burst(c)
  {
    if t in s {
      RefillRange(c, s[t], now);
    }
  }

  lemma StepInRange(c: Config, s: Levels, ev: Event, from: real)
    requires Proper(c) && InRange(c, s, from) && from <= ev.now
    ensures InRange(c, Next(c, s, ev), ev.now)
  {
    if ev.Call? {
      AvailableRange(c, s, ev.tenant, ev.now);
    }
  }

  /** In every run every bucket holds between zero and burst tokens. */
  lemma {:induction false} RunsInRange(c: Config, s: Levels, evs: seq<Event>, from: real)
    requires Proper(c) && InRange(c, s, from) && Ordered(evs, from)
    ensures InRange(c, After(c, s, evs), Last(evs, from)) && from <= Last(evs, from)
    decreases |evs|
  {
    if evs != [] {
      StepInRange(c, s, evs[0], from);
      RunsInRange(c, Next(c, s, evs[0]), evs[1..], evs[0].now);
      assert Last(evs, from) == Last(evs[1..], evs[0].now);
    }
  }

  // ---------------------------------------------------------------- how availability evolves

  lemma MinTwice(most: real, x: real, d: real, e: real)
    requires e >= 0.0
    ensures Min(most, Min(most, x + d) + e) == Min(most, x + (d + e))
  {
  }

  /** Waiting refills at the rate, up to burst. */
  lemma WaitingRefills(c: Config, s: Levels, t: string, now: real, later: real)
    requires Proper(c) && InRange(c, s, now) && now <= later
    ensures Available(c, s, t, later) == Min(Burst(c), Available(c, s, t, now) + (later - now) * Rate(c))
    ensures (later - now) * Rate(c) >= 0.0
  {
    TimesPositive(later - now, Rate(c));
    if t in s {
      var b := s[t];
      TimesAdds(now - b.last, later - now, later - b.last, Rate(c));
      MinTwice(Burst(c), b.tokens, (now - b.last) * Rate(c), (later - now) * Rate(c));
    }
  }

  /** A tenant without a bucket has a full one, and pruning takes exactly the buckets idle for longer. */
  lemma PruneIsExact(c: Config, s: Levels, t: string, idle: real, now: real)
    ensures t !in s ==> Available(c, s, t, now) == c.burst as real
    ensures t in Pruned(s, idle, now) <==> t in s && now - s[t].last <= idle
    ensures t in Pruned(s, idle, now) ==> Pruned(s, idle, now)[t] == s[t]
  {
  }

  /** A call takes one token exactly when it is admitted, and nothing from other tenants. */
  lemma CallTakesOne(c: Config, s: Levels, t: string, u: string, now: real)
    requires Proper(c) && InRange(c, s, now) && t != ""
    ensures var (ok, after) := Allowed(c, s, t, now);
            && (ok <==> Available(c, s, t, now) >= 1.0)
            && Available(c, after, u, now) == Available(c, s, u, now) - (if ok && t == u then 1.0 else 0.0)
  {
    AvailableRange(c, s, t, now);
  }

  lemma IdleIsFull(c: Config, b: Level, idle: real, now: real)
    requires Proper(c) && 0.0 <= b.tokens && b.last < now - idle && idle * Rate(c) >= Burst(c)
    ensures Refilled(c, b, now) == Burst(c)
  {
    TimesMonotone(idle, now - b.last, Rate(c));
  }

  /** A patient pruning takes only full buckets. */
  lemma PruneTakesFull(c: Config, s: Levels, t: string, idle: real, now: real)
    requires Proper(c) && InRange(c, s, now) && idle * Rate(c) >= Burst(c)
    ensures Available(c, Pruned(s, idle, now), t, now) == Available(c, s, t, now)
  {
    if t in s && s[t].last < now - idle {
      IdleIsFull(c, s[t], idle, now);
    }
  }

  // ---------------------------------------------------------------- the window bound

  lemma StepBound(c: Config, s: Levels, ev: Event, t: string, from: real)
    requires Proper(c) && InRange(c, s, from) && from <= ev.now && t != "" && LongEnough(c, ev)
    ensures var admitted := if ev.Call? && ev.tenant == t && Allowed(c, s, t, ev.now).0 then 1.0 else 0.0;
            admitted + Available(c, Next(c, s, ev), t, ev.now) <= Available(c, s, t, from) + (ev.now - from) * Rate(c)
  {
    WaitingRefills(c, s, t, from, ev.now);
    match ev
    case Call(u, now) =>
      if u != "" {
        CallTakesOne(c, s, u, t, now);
      }
    case Prune(idle, now) =>
      PruneTakesFull(c, s, t, idle, now);
  }

  lemma {:induction false} RunBound(c: Config, s: Levels, evs: seq<Event>, t: string, from: real)
    requires Proper(c) && InRange(c, s, from) && Ordered(evs, from) && t != "" && Patient(c, evs)
    ensures Within(c, Admitted(c, s, evs, t), Available(c, After(c, s, evs), t, Last(evs, from)),
                   Available(c, s, t, from), from, Last(evs, from))
    decreases |evs|
  {
    if evs != [] {
      var ev, rest, next := evs[0], evs[1..], Next(c, s, evs[0]);
      StepInRange(c, s, ev, from);
      RunBound(c, next, rest, t, ev.now);
      assert Last(rest, ev.now) == Last(evs, from);
      BoundStep(c, s, ev, t, from, Admitted(c, next, rest, t), Admitted(c, s, evs, t),
                Available(c, After(c, s, evs), t, Last(evs, from)), Last(evs, from));
    }
  }

  /** n admitted calls and what is left are covered by what there was and what was earned. */
  predicate Within(c: Config, n: int, left: real, had: real, from: real, last: real) {
    n as real + left <= had + Earned(last - from, Rate(c))
  }

  lemma BoundStep(c: Config, s: Levels, ev: Event, t: string, from: real, n: int, total: int, left: real, last: real)
    requires Proper(c) && InRange(c, s, from) && from <= ev.now && t != "" && LongEnough(c, ev)
    requires Within(c, n, left, Available(c, Next(c, s, ev), t, ev.now), ev.now, last)
    requires total == n + if ev.Call? && ev.tenant == t && Allowed(c, s, t, ev.now).0 then 1 else 0
    ensures Within(c, total, left, Available(c, s, t, from), from, last)
  {
    StepBound(c, s, ev, t, from);
    TimesAdds(ev.now - from, last - ev.now, last - from, Rate(c));
  }

  /** At most burst plus what is earned between start and end. */
  predicate InBound(c: Config, n: int, start: real, end: real) {
    n as real <= c.burst as real + Earned(end - start, c.qps as real)
  }

  lemma WithinIsInBound(c: Config, n: int, left: real, had: real, start: real, end: real)
    requires Within(c, n, left, had, start, end) && 0.0 <= left && had <= Burst(c)
    ensures InBound(c, n, start, end)
  {
  }

  /** In every run, every window of it admits at most burst plus rate times its length. */
  lemma WindowBound(c: Config, before: seq<Event>, window: seq<Event>, t: string, from: real, start: real)
    requires Proper(c) && t != "" && Ordered(before, from) && Last(before, from) <= start && Ordered(window, start)
    requires Patient(c, window)
    ensures var s := After(c, map[], before);
            InBound(c, Admitted(c, s, window, t), start, Last(window, start))
  {
    RunsInRange(c, map[], before, from);
    var s := After(c, map[], before);
    RunsInRange(c, s, window, start);
    RunBound(c, s, window, t, start);
    AvailableRange(c, s, t, start);
    AvailableRange(c, After(c, s, window), t, Last(window, start));
    WithinIsInBound(c, Admitted(c, s, window, t), Available(c, After(c, s, window), t, Last(window, start)),
                    Available(c, s, t, start), start, Last(window, start));
  }

  // ---------------------------------------------------------------- calls that are never refused

  /** At least 1/rate has passed. */
  predicate Due(c: Config, now: real, previous: real) {
    Refills(now - previous, c.qps as real, 1.0)
  }

  /** Calls of t come at least 1/rate apart, the first no earlier than that after the previous one. */
  predicate Spaced(c: Config, evs: seq<Event>, t: string, previous: real)
    decreases |evs|
  {
    if evs == [] then true
    else if evs[0].Call? && evs[0].tenant == t then Due(c, evs[0].now, previous) && Spaced(c, evs[1..], t, evs[0].now)
    else Spaced(c, evs[1..], t, previous)
  }

  function Calls(evs: seq<Event>, t: string): nat {
    if evs == [] then 0
    else Calls(evs[1..], t) + if evs[0].Call? && evs[0].tenant == t then 1 else 0
  }

  /** One token, or what was earned since the previous call. */
  predicate Saved(c: Config, have: real, now: real, previous: real) {
    have >= Min(1.0, (now - previous) * Rate(c))
  }

  lemma SavedWaits(c: Config, s: Levels, t: string, from: real, now: real, previous: real)
    requires Proper(c) && InRange(c, s, from) && from <= now && Saved(c, Available(c, s, t, from), from, previous)
    ensures Saved(c, Available(c, s, t, now), now, previous)
  {
    WaitingRefills(c, s, t, from, now);
    TimesAdds(from - previous, now - from, now - previous, Rate(c));
  }

  lemma SavedAfterCall(c: Config, left: real, now: real)
    requires left >= 0.0
    ensures Saved(c, left, now, now)
  {
    TimesAdds(now - now, 0.0, 0.0, Rate(c));
  }

  lemma SpacedCall(c: Config, s: Levels, u: string, t: string, now: real, previous: real)
    requires Proper(c) && InRange(c, s, now) && t != "" && Saved(c, Available(c, s, t, now), now, previous)
    ensures var left := Available(c, Allowed(c, s, u, now).1, t, now);
            && (u == t && Due(c, now, previous) ==> Allowed(c, s, t, now).0)
            && Saved(c, left, now, if u == t then now else previous)
  {
    if u != "" {
      CallTakesOne(c, s, u, t, now);
    }
    if u == t {
      StepInRange(c, s, Call(t, now), now);
      AvailableRange(c, Next(c, s, Call(t, now)), t, now);
      SavedAfterCall(c, Available(c, Allowed(c, s, t, now).1, t, now), now);
    }
  }

  lemma SpacedStep(c: Config, s: Levels, ev: Event, t: string, from: real, previous: real)
    requires Proper(c) && InRange(c, s, from) && from <= ev.now && t != ""
    requires LongEnough(c, ev) && Saved(c, Available(c, s, t, from), from, previous)
    ensures var mine, left := ev.Call? && ev.tenant == t, Available(c, Next(c, s, ev), t, ev.now);
            && (mine && Due(c, ev.now, previous) ==> Allowed(c, s, t, ev.now).0)
            && Saved(c, left, ev.now, if mine then ev.now else previous)
  {
    SavedWaits(c, s, t, from, ev.now, previous);
    match ev
    case Call(u, now) => SpacedCall(c, s, u, t, now, previous);
    case Prune(idle, now) => PruneTakesFull(c, s, t, idle, now);
  }

  /** Spaced calls are all admitted, whatever other tenants and patient pruning do in between. */
  lemma {:induction false} SpacedCallsAdmitted(c: Config, s: Levels, evs: seq<Event>, t: string, from: real,
                                               previous: real)
    requires Proper(c) && InRange(c, s, from) && Ordered(evs, from) && t != "" && Patient(c, evs)
    requires previous <= from && Spaced(c, evs, t, previous)
    requires Saved(c, Available(c, s, t, from), from, previous)
    ensures Admitted(c, s, evs, t) == Calls(evs, t)
    decreases |evs|
  {
    if evs != [] {
      var ev := evs[0];
      StepInRange(c, s, ev, from);
      SpacedStep(c, s, ev, t, from, previous);
      var mark := if ev.Call? && ev.tenant == t then ev.now else previous;
      SpacedCallsAdmitted(c, Next(c, s, ev), evs[1..], t, ev.now, mark);
    }
  }

  /** In every run, a tenant whose calls after some point come at least 1/rate apart, the first at least that
      long after it, has all of them admitted. */
  lemma SpacedCallsNeverRefused(c: Config, before: seq<Event>, evs: seq<Event>, t: string, from: real, start: real)
    requires Proper(c) && t != "" && Ordered(before, from) && Last(before, from) <= start && Ordered(evs, start)
    requires Patient(c, evs) && Spaced(c, evs, t, start)
    ensures Admitted(c, After(c, map[], before), evs, t) == Calls(evs, t)
  {
    RunsInRange(c, map[], before, from);
    var s := After(c, map[], before);
    AvailableRange(c, s, t, start);
    SpacedCallsAdmitted(c, s, evs, t, start, start);
  }

  // ---------------------------------------------------------------- when pruning is transparent

  /** s and p differ only in buckets that are full: p may lack them. */
  ghost predicate SameButFull(c: Config, s: Levels, p: Levels, now: real) {
    && (forall t :: t in p ==> t in s && s[t] == p[t])
    && (forall t :: t in s && t !in p ==> Refilled(c, s[t], now) == Burst(c))
  }

  lemma FullStaysFull(c: Config, b: Level, now: real, later: real)
    requires Proper(c) && now <= later && b.last <= now && Refilled(c, b, now) == Burst(c)
    ensures Refilled(c, b, later) == Burst(c)
  {
    TimesMonotone(now - b.last, later - b.last, Rate(c));
  }

  lemma StepKeepsSame(c: Config, s: Levels, p: Levels, ev: Event, from: real)
    requires Proper(c) && InRange(c, s, from) && from <= ev.now && SameButFull(c, s, p, from)
    ensures SameButFull(c, Next(c, s, ev), Next(c, p, ev), ev.now)
    ensures ev.Call? ==> Allowed(c, s, ev.tenant, ev.now).0 == Allowed(c, p, ev.tenant, ev.now).0
  {
    forall t | t in s && t !in p ensures Refilled(c, s[t], ev.now) == Burst(c) {
      FullStaysFull(c, s[t], from, ev.now);
    }
  }

  lemma {:induction false} SameDecisions(c: Config, s: Levels, p: Levels, evs: seq<Event>, from: real)
    requires Proper(c) && InRange(c, s, from) && Ordered(evs, from) && SameButFull(c, s, p, from)
    ensures Decisions(c, s, evs) == Decisions(c, p, evs)
    decreases |evs|
  {
    if evs != [] {
      StepInRange(c, s, evs[0], from);
      StepKeepsSame(c, s, p, evs[0], from);
      SameDecisions(c, Next(c, s, evs[0]), Next(c, p, evs[0]), evs[1..], evs[0].now);
    }
  }

  /** Inserting a pruning anywhere in any run changes no later decision for any tenant. */
  ghost predicate Transparent(c: Config, idle: real) {
    forall before, later, from, at ::
      Ordered(before, from) && Last(before, from) <= at && Ordered(later, at) ==>
        Decisions(c, After(c, map[], before), later) == Decisions(c, Pruned(After(c, map[], before), idle, at), later)
  }

  lemma PatientPruneTransparent(c: Config, idle: real, before: seq<Event>, later: seq<Event>, from: real, at: real)
    requires Proper(c) && idle * Rate(c) >= Burst(c)
    requires Ordered(before, from) && Last(before, from) <= at && Ordered(later, at)
    ensures Decisions(c, After(c, map[], before), later) ==
            Decisions(c, Pruned(After(c, map[], before), idle, at), later)
  {
    RunsInRange(c, map[], before, from);
    var s := After(c, map[], before);
    forall t | t in s && s[t].last < at - idle ensures Refilled(c, s[t], at) == Burst(c) {
      IdleIsFull(c, s[t], idle, at);
    }
    SameDecisions(c, s, Pruned(s, idle, at), later, at);
  }

  /** n calls of one tenant at one instant. */
  function Rush(t: string, now: real, n: nat): seq<Event> {
    if n == 0 then [] else [Call(t, now)] + Rush(t, now, n - 1)
  }

  lemma {:induction false} RushOrdered(t: string, now: real, n: nat, from: real)
    requires from <= now
    ensures Ordered(Rush(t, now, n), from) && Last(Rush(t, now, n), now) == now
    ensures forall c :: Patient(c, Rush(t, now, n))
  {
    if n != 0 {
      RushOrdered(t, now, n - 1, now);
      assert Rush(t, now, n)[1..] == Rush(t, now, n - 1);
    }
  }

  /** A rush takes as many tokens as there are whole ones. */
  lemma {:induction false} RushAdmits(c: Config, s: Levels, t: string, now: real, n: nat)
    requires Proper(c) && InRange(c, s, now) && t != "" && Available(c, s, t, now) >= n as real
    ensures Admitted(c, s, Rush(t, now, n), t) == n
    ensures Available(c, After(c, s, Rush(t, now, n)), t, now) == Available(c, s, t, now) - n as real
    decreases n
  {
    if n != 0 {
      var evs := Rush(t, now, n);
      assert evs[1..] == Rush(t, now, n - 1);
      CallTakesOne(c, s, t, t, now);
      StepInRange(c, s, evs[0], now);
      RushAdmits(c, Next(c, s, evs[0]), t, now, n - 1);
    }
  }

  lemma {:induction false} RushTouches(c: Config, s: Levels, t: string, now: real, n: nat)
    requires t != ""
    ensures n > 0 || (t in s && s[t].last == now) ==>
              t in After(c, s, Rush(t, now, n)) && After(c, s, Rush(t, now, n))[t].last == now
    decreases n
  {
    if n != 0 {
      var evs := Rush(t, now, n);
      assert evs[1..] == Rush(t, now, n - 1);
      RushTouches(c, Next(c, s, evs[0]), t, now, n - 1);
    }
  }

  lemma {:induction false} SameDecisionsSameCount(c: Config, s: Levels, p: Levels, t: string, now: real, n: nat)
    requires Decisions(c, s, Rush(t, now, n)) == Decisions(c, p, Rush(t, now, n))
    ensures Admitted(c, s, Rush(t, now, n), t) == Admitted(c, p, Rush(t, now, n), t)
    decreases n
  {
    if n != 0 {
      var evs := Rush(t, now, n);
      assert evs[1..] == Rush(t, now, n - 1);
      var d, e := Decisions(c, s, evs), Decisions(c, p, evs);
      assert d[0] == e[0] && d[1..] == e[1..];
      SameDecisionsSameCount(c, Next(c, s, evs[0]), Next(c, p, evs[0]), t, now, n - 1);
    }
  }

  /** A tenant that spends its burst at time 0 and is pruned can spend it again. */
  lemma BurstThenPrune(c: Config, idle: real, t: string, at: real)
    requires Proper(c) && t != "" && 0.0 <= at && idle < at
    ensures var s := After(c, map[], Rush(t, 0.0, c.burst));
            && InRange(c, s, 0.0) && Available(c, s, t, 0.0) == 0.0
            && Admitted(c, map[], Rush(t, 0.0, c.burst), t) == c.burst
            && Admitted(c, Pruned(s, idle, at), Rush(t, at, c.burst), t) == c.burst
  {
    var n := c.burst;
    RushOrdered(t, 0.0, n, 0.0);
    RushAdmits(c, map[], t, 0.0, n);
    RunsInRange(c, map[], Rush(t, 0.0, n), 0.0);
    RushTouches(c, map[], t, 0.0, n);
    var p := Pruned(After(c, map[], Rush(t, 0.0, n)), idle, at);
    assert t !in p;
    RushAdmits(c, p, t, at, n);
  }

  /** A rush admits no more than there is. */
  lemma RushBound(c: Config, s: Levels, t: string, at: real, n: nat)
    requires Proper(c) && t != "" && InRange(c, s, at)
    ensures Admitted(c, s, Rush(t, at, n), t) as real <= Available(c, s, t, at)
  {
    RushOrdered(t, at, n, at);
    RunBound(c, s, Rush(t, at, n), t, at);
    RunsInRange(c, s, Rush(t, at, n), at);
    AvailableRange(c, After(c, s, Rush(t, at, n)), t, at);
  }

  /** If burst tokens take longer to earn than idle, a tenant that spent its burst at time 0 and comes back
      at time at, pruned or not, is treated differently. */
  lemma ImpatientPruneShows(c: Config, idle: real, t: string, at: real)
    requires Proper(c) && t != "" && 0.0 <= at && idle < at && at * Rate(c) < Burst(c)
    ensures var s := After(c, map[], Rush(t, 0.0, c.burst));
            Decisions(c, s, Rush(t, at, c.burst)) != Decisions(c, Pruned(s, idle, at), Rush(t, at, c.burst))
  {
    var n := c.burst;
    var s := After(c, map[], Rush(t, 0.0, n));
    BurstThenPrune(c, idle, t, at);
    WaitingRefills(c, s, t, 0.0, at);
    RushBound(c, s, t, at, n);
    if Decisions(c, s, Rush(t, at, n)) == Decisions(c, Pruned(s, idle, at), Rush(t, at, n)) {
      SameDecisionsSameCount(c, s, Pruned(s, idle, at), t, at, n);
    }
  }

  /** A time after idle at which a spent bucket is not yet full again. */
  lemma EarlyReturn(c: Config, idle: real) returns (at: real)
    requires Proper(c) && idle * Rate(c) < Burst(c)
    ensures 0.0 <= at && idle < at && at * Rate(c) < Burst(c)
  {
    var earn := Earning(idle, Burst(c), Rate(c));
    var least := if idle < 0.0 then 0.0 else idle;
    at := (least + earn) / 2.0;
    TimesStrict(at, earn, Rate(c));
  }

  /** Pruning is transparent exactly when idle is long enough to refill a bucket. */
  lemma TransparentExactlyWhenPatient(c: Config, idle: real)
    requires Proper(c)
    ensures Transparent(c, idle) <==> Refills(idle, c.qps as real, c.burst as real)
  {
    if idle * Rate(c) >= Burst(c) {
      forall before, later, from, at | Ordered(before, from) && Last(before, from) <= at && Ordered(later, at)
        ensures Decisions(c, After(c, map[], before), later) ==
                Decisions(c, Pruned(After(c, map[], before), idle, at), later)
      {
        PatientPruneTransparent(c, idle, before, later, from, at);
      }
    } else {
      ImpatientIsVisible(c, idle);
    }
  }

  lemma ImpatientIsVisible(c: Config, idle: real)
    requires Proper(c) && idle * Rate(c) < Burst(c)
    ensures !Transparent(c, idle)
  {
    var at := EarlyReturn(c, idle);
    var n := c.burst;
    RushOrdered("t", 0.0, n, 0.0);
    RushOrdered("t", at, n, at);
    ImpatientPruneShows(c, idle, "t", at);
  }

  lemma TimesStrict(a: real, b: real, r: real)
    requires a < b && r > 0.0
    ensures a * r < b * r
  {
    TimesAdds(a, b - a, b, r);
  }

  /** How long it takes to earn burst tokens at rate r. */
  lemma Earning(idle: real, burst: real, r: real) returns (earn: real)
    requires r > 0.0 && burst > 0.0 && idle * r < burst
    ensures earn * r == burst && 0.0 < earn && idle < earn
  {
    earn := burst / r;
    assert earn * r == burst;
    if earn <= 0.0 {
      TimesMonotone(earn, 0.0, r);
    }
    if earn <= idle {
      TimesMonotone(earn, idle, r);
    }
  }

  // ---------------------------------------------------------------- the window bound and pruning

  /** Every pruning of the run uses this idle time. */
  predicate PrunesWith(evs: seq<Event>, idle: real)
    decreases |evs|
  {
    evs == [] || ((evs[0].Prune? ==> evs[0].idle == idle) && PrunesWith(evs[1..], idle))
  }

  lemma {:induction false} PrunesWithPatient(c: Config, evs: seq<Event>, idle: real)
    requires PrunesWith(evs, idle) && idle * Rate(c) >= Burst(c)
    ensures Patient(c, evs)
    decreases |evs|
  {
    if evs != [] {
      PrunesWithPatient(c, evs[1..], idle);
    }
  }

  /** Whenever pruning is used with this idle time, every window of every run keeps the bound. */
  ghost predicate Bounded(c: Config, idle: real) {
    forall before, window, t, from, start | t != "" && Ordered(before, from) && Last(before, from) <= start
        && Ordered(window, start) && PrunesWith(window, idle) ::
      InBound(c, Admitted(c, After(c, map[], before), window, t), start, Last(window, start))
  }

  lemma {:induction false} AdmittedJoin(c: Config, s: Levels, a: seq<Event>, b: seq<Event>, t: string)
    ensures Admitted(c, s, a + b, t) == Admitted(c, s, a, t) + Admitted(c, After(c, s, a), b, t)
    decreases |a|
  {
    if a == [] {
      assert a + b == b;
    } else {
      AdmittedJoin(c, Next(c, s, a[0]), a[1..], b, t);
      assert (a + b)[1..] == a[1..] + b;
    }
  }

  lemma {:induction false} OrderedJoin(a: seq<Event>, b: seq<Event>, from: real)
    requires Ordered(a, from) && Ordered(b, Last(a, from))
    ensures Ordered(a + b, from)
    decreases |a|
  {
    if a == [] {
      assert a + b == b;
    } else {
      assert Last(a, from) == Last(a[1..], a[0].now);
      OrderedJoin(a[1..], b, a[0].now);
      assert (a + b)[1..] == a[1..] + b;
    }
  }

  lemma {:induction false} PrunesJoin(a: seq<Event>, b: seq<Event>, idle: real)
    requires PrunesWith(a, idle) && PrunesWith(b, idle)
    ensures PrunesWith(a + b, idle)
    decreases |a|
  {
    if a == [] {
      assert a + b == b;
    } else {
      PrunesJoin(a[1..], b, idle);
      assert (a + b)[1..] == a[1..] + b;
    }
  }

  lemma {:induction false} RushPrunes(t: string, now: real, n: nat, idle: real)
    ensures PrunesWith(Rush(t, now, n), idle)
    decreases n
  {
    if n != 0 {
      RushPrunes(t, now, n - 1, idle);
      assert Rush(t, now, n)[1..] == Rush(t, now, n - 1);
    }
  }

  /** Two bursts with a pruning between them. */
  function TwoBursts(c: Config, idle: real, t: string, at: real): seq<Event>
    requires Proper(c)
  {
    Rush(t, 0.0, c.burst) + ([Prune(idle, at)] + Rush(t, at, c.burst))
  }

  lemma TwoBurstsRun(c: Config, idle: real, t: string, at: real)
    requires Proper(c) && 0.0 <= at
    ensures Ordered(TwoBursts(c, idle, t, at), 0.0) && PrunesWith(TwoBursts(c, idle, t, at), idle)
    ensures Last(TwoBursts(c, idle, t, at), 0.0) == at
  {
    var n := c.burst;
    RushOrdered(t, 0.0, n, 0.0);
    RushOrdered(t, at, n, at);
    RushPrunes(t, 0.0, n, idle);
    RushPrunes(t, at, n, idle);
    var rest := [Prune(idle, at)] + Rush(t, at, n);
    assert rest[1..] == Rush(t, at, n);
    OrderedJoin(Rush(t, 0.0, n), rest, 0.0);
    PrunesJoin(Rush(t, 0.0, n), rest, idle);
    assert Last(rest, at) == at;
  }

  lemma TwoBurstsExceed(c: Config, idle: real, t: string, at: real)
    requires Proper(c) && t != "" && 0.0 <= at && idle < at && at * Rate(c) < Burst(c)
    ensures !InBound(c, Admitted(c, map[], TwoBursts(c, idle, t, at), t), 0.0, at)
  {
    var n := c.burst;
    var first, rest := Rush(t, 0.0, n), [Prune(idle, at)] + Rush(t, at, n);
    BurstThenPrune(c, idle, t, at);
    assert rest[1..] == Rush(t, at, n);
    AdmittedJoin(c, map[], first, rest, t);
  }

  /** The window bound holds in every run exactly when prunings wait long enough to refill a bucket. */
  lemma BoundedExactlyWhenPatient(c: Config, idle: real)
    requires Proper(c)
    ensures Bounded(c, idle) <==> Refills(idle, c.qps as real, c.burst as real)
  {
    if idle * Rate(c) >= Burst(c) {
      forall before, window, t, from, start | t != "" && Ordered(before, from) && Last(before, from) <= start
          && Ordered(window, start) && PrunesWith(window, idle)
        ensures InBound(c, Admitted(c, After(c, map[], before), window, t), start, Last(window, start))
      {
        PrunesWithPatient(c, window, idle);
        WindowBound(c, before, window, t, from, start);
      }
    } else {
      var at := EarlyReturn(c, idle);
      TwoBurstsRun(c, idle, "t", at);
      TwoBurstsExceed(c, idle, "t", at);
      assert After(c, map[], []) == map[] && Ordered([], 0.0) && Last([], 0.0) == 0.0;
      assert !InBound(c, Admitted(c, After(c, map[], []), TwoBursts(c, idle, "t", at), "t"), 0.0, at);
    }
  }
}
