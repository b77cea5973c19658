/** The per-client rate limiter: what a window lets through, and why the background cleanup
    cannot be noticed. */
module RateLimits {
  import opened Wrappers
  import Arithmetic

  datatype Visitor = Visitor(tokens: int, lastReset: Time)

  type Table = map<string, Visitor>

  datatype Limits = Limits(rate: int, window: Time)

  function Admits(l: Limits, t: Table, ip: string, now: Time): bool {
    ip !in t || now - t[ip].lastReset >= l.window || t[ip].tokens > 0
  }

  function Visited(l: Limits, t: Table, ip: string, now: Time): Table {
    if ip !in t || now - t[ip].lastReset >= l.window then t[ip := Visitor(l.rate - 1, now)]
    else if t[ip].tokens > 0 then t[ip := t[ip].(tokens := t[ip].tokens - 1)]
    else t
  }

  predicate Stale(l: Limits, v: Visitor, now: Time) {
    now - v.lastReset > 2 * l.window
  }

  function Swept(l: Limits, t: Table, now: Time): Table {
    map ip | ip in t && !Stale(l, t[ip], now) :: t[ip]
  }

  class RateLimiter {
    const limits: Limits
    var visitors: Table

    constructor (rate: int, window: Time)
      ensures limits == Limits(rate, window) && visitors == map[]
    {
      limits := Limits(rate, window);
      visitors := map[];
    }

    method Allow(ip: string, now: Time) returns (ok: bool)
      modifies this
      ensures ok == Admits(limits, old(visitors), ip, now)
      ensures visitors == Visited(limits, old(visitors), ip, now)
    {
      if ip !in visitors {
        visitors := visitors[ip := Visitor(limits.rate - 1, now)];
        return true;
      }
      var v := visitors[ip];
      if now - v.lastReset >= limits.window {
        v := v.(tokens := limits.rate - 1);
        v := v.(lastReset := now);
        visitors := visitors[ip := v];
        return true;
      }
      if v.tokens > 0 {
        visitors := visitors[ip := v.(tokens := v.tokens - 1)];
        return true;
      }
      return false;
    }

    method Cleanup(now: Time)
      modifies this
      ensures visitors == Swept(limits, old(visitors), now)
    {
      var todo := visitors.Keys;
      while todo != {}
        invariant todo <= visitors.Keys <= old(visitors).Keys
        invariant forall ip | ip in old(visitors) ::
                    ip in visitors <==> ip in todo || !Stale(limits, old(visitors)[ip], now)
        invariant forall ip | ip in visitors :: visitors[ip] == old(visitors)[ip]
        decreases todo
      {
        var ip :| ip in todo;
        todo := todo - {ip};
        if now - visitors[ip].lastReset > 2 * limits.window {
          visitors := visitors - {ip};
        }
      }
    }
  }

  // -------------------------------------------------------------------------------- runs

  datatype Event = Request(ip: string, at: Time) | Sweep(at: Time)

  predicate InTime(events: seq<Event>, clock: Time) {
    && (forall k | 0 <= k < |events| :: clock <= events[k].at)
    && forall j, k | 0 <= j < k < |events| :: events[j].at <= events[k].at
  }

  function After(l: Limits, t: Table, e: Event): Table {
    if e.Request? then Visited(l, t, e.ip, e.at) else Swept(l, t, e.at)
  }

  /** The answers to the requests of a run, in order. */
  function Decisions(l: Limits, t: Table, events: seq<Event>): seq<bool>
    decreases |events|
  {
    if events == [] then []
    else
      (if events[0].Request? then [Admits(l, t, events[0].ip, events[0].at)] else [])
      + Decisions(l, After(l, t, events[0]), events[1..])
  }

  function Requests(events: seq<Event>): seq<Event> {
    if events == [] then []
    else (if events[0].Request? then [events[0]] else []) + Requests(events[1..])
  }

  // -------------------------------------------------------------------- unnoticed cleanup

  /** The swept table lacks only entries that are past their window anyway. */
  predicate OnlyExpiredMissing(l: Limits, swept: Table, kept: Table, clock: Time) {
    && (forall ip | ip in swept :: ip in kept && swept[ip] == kept[ip])
    && (forall ip | ip in kept :: kept[ip].lastReset <= clock)
    && (forall ip | ip in kept && ip !in swept :: clock - kept[ip].lastReset >= l.window)
  }

  lemma VisitKeepsMissing(l: Limits, swept: Table, kept: Table, clock: Time, ip: string, now: Time)
    requires OnlyExpiredMissing(l, swept, kept, clock) && clock <= now
    ensures Admits(l, swept, ip, now) == Admits(l, kept, ip, now)
    ensures OnlyExpiredMissing(l, Visited(l, swept, ip, now), Visited(l, kept, ip, now), now)
  {
  }

  lemma {:induction false} SweepsChangeNothing(l: Limits, swept: Table, kept: Table, events: seq<Event>, clock: Time)
    requires InTime(events, clock) && OnlyExpiredMissing(l, swept, kept, clock)
    ensures Decisions(l, swept, events) == Decisions(l, kept, Requests(events))
    decreases |events|
  {
    if events != [] {
      var e := events[0];
      if e.Request? {
        VisitKeepsMissing(l, swept, kept, clock, e.ip, e.at);
        SweepsChangeNothing(l, After(l, swept, e), After(l, kept, e), events[1..], e.at);
        assert Requests(events)[1..] == Requests(events[1..]);
      } else {
        SweepsChangeNothing(l, After(l, swept, e), kept, events[1..], e.at);
        assert Requests(events) == Requests(events[1..]);
      }
    }
  }

  /** Cleanups at arbitrary moments leave every decision as it would be without any. */
  lemma CleanupUnnoticed(l: Limits, events: seq<Event>, clock: Time)
    requires InTime(events, clock)
    ensures Decisions(l, map[], events) == Decisions(l, map[], Requests(events))
  {
    SweepsChangeNothing(l, map[], map[], events, clock);
  }

  // ------------------------------------------------------------------------ the guarantee

  /** Requests of a client admitted within [lo, hi]. */
  function Admitted(l: Limits, t: Table, events: seq<Event>, ip: string, lo: Time, hi: Time): nat
    decreases |events|
  {
    if events == [] then 0
    else
      var e := events[0];
      (if e.Request? && e.ip == ip && lo <= e.at <= hi && Admits(l, t, ip, e.at) then 1 else 0)
      + Admitted(l, After(l, t, e), events[1..], ip, lo, hi)
  }

  /** What one window admits: the request that opens it is let through even at a rate below one. */
  function Allowance(l: Limits): int {
    Arithmetic.Max(l.rate, 1)
  }

  predicate TokensInRange(l: Limits, t: Table, ip: string, clock: Time) {
    ip in t ==> t[ip].tokens <= Allowance(l) - 1 && t[ip].lastReset <= clock
  }

  /** How many windows can open within [a, b]. */
  function Slots(w: Time, a: Time, b: Time): nat
    requires w > 0
  {
    if a > b then 0 else (b - a) / w + 1
  }

  /** The earliest moment, from now on and within the interval, for a client's next window. */
  function NextWindow(l: Limits, t: Table, ip: string, lo: Time, clock: Time): Time {
    Arithmetic.Max(Arithmetic.Max(lo, clock), if ip in t then t[ip].lastReset + l.window else clock)
  }

  function Budget(l: Limits, t: Table, ip: string, lo: Time, hi: Time, clock: Time): int
    requires l.window > 0
  {
    (if ip in t then Arithmetic.Max(t[ip].tokens, 0) else 0) + Allowance(l) * Slots(l.window, NextWindow(l, t, ip, lo, clock), hi)
  }

  lemma SlotsShrink(w: Time, a: Time, a': Time, b: Time)
    requires w > 0 && a <= a'
    ensures Slots(w, a', b) <= Slots(w, a, b)
    ensures a <= b && a + w <= a' ==> Slots(w, a', b) + 1 <= Slots(w, a, b)
  {
    if a' <= b {
      Arithmetic.DivMonotone(b - a', b - a, w);
      if a + w <= a' {
        Arithmetic.DivMonotone(b - a', b - a - w, w);
        Arithmetic.DivShift(b - a - w, w);
      }
    }
  }

  /** A request that opens a window. */
  lemma OpeningWithinBudget(l: Limits, t: Table, ip: string, lo: Time, hi: Time, clock: Time, now: Time)
    requires l.window > 0 && TokensInRange(l, t, ip, clock)
    requires lo <= clock <= now <= hi
    requires ip !in t || now - t[ip].lastReset >= l.window
    ensures Budget(l, Visited(l, t, ip, now), ip, lo, hi, now) + 1 <= Budget(l, t, ip, lo, hi, clock)
  {
    var a, a' := NextWindow(l, t, ip, lo, clock), NextWindow(l, Visited(l, t, ip, now), ip, lo, now);
    assert a <= now && a' == now + l.window;
    SlotsShrink(l.window, a, a', hi);
    hide Slots;
    Arithmetic.MulMonotone(Allowance(l), Slots(l.window, a', hi) + 1, Slots(l.window, a, hi));
    Arithmetic.MulMonotone(Allowance(l), Slots(l.window, a', hi), Slots(l.window, a', hi));
  }

  /** Any other event takes at most a token and opens no window. */
  lemma SpendingWithinBudget(l: Limits, t: Table, e: Event, ip: string, lo: Time, hi: Time, clock: Time)
    requires l.window > 0 && TokensInRange(l, t, ip, clock)
    requires lo <= clock <= e.at <= hi
    requires e.Request? && e.ip == ip ==> ip in t && e.at - t[ip].lastReset < l.window
    ensures Budget(l, After(l, t, e), ip, lo, hi, e.at)
            + (if e.Request? && e.ip == ip && Admits(l, t, ip, e.at) then 1 else 0)
            <= Budget(l, t, ip, lo, hi, clock)
  {
    var a, a' := NextWindow(l, t, ip, lo, clock), NextWindow(l, After(l, t, e), ip, lo, e.at);
    assert a <= a';
    SlotsShrink(l.window, a, a', hi);
    hide Slots;
    Arithmetic.MulMonotone(Allowance(l), Slots(l.window, a', hi), Slots(l.window, a, hi));
  }

  /** One event costs the budget what it admits. */
  lemma EventWithinBudget(l: Limits, t: Table, e: Event, ip: string, lo: Time, hi: Time, clock: Time)
    requires l.window > 0 && TokensInRange(l, t, ip, clock)
    requires lo <= clock <= e.at <= hi
    ensures TokensInRange(l, After(l, t, e), ip, e.at)
    ensures Budget(l, After(l, t, e), ip, lo, hi, e.at)
            + (if e.Request? && e.ip == ip && Admits(l, t, ip, e.at) then 1 else 0)
            <= Budget(l, t, ip, lo, hi, clock)
  {
    hide Budget;
    if e.Request? && e.ip == ip && (ip !in t || e.at - t[ip].lastReset >= l.window) {
      OpeningWithinBudget(l, t, ip, lo, hi, clock, e.at);
    } else {
      SpendingWithinBudget(l, t, e, ip, lo, hi, clock);
    }
  }

  lemma {:induction false} WithinBudget(l: Limits, t: Table, events: seq<Event>, ip: string, lo: Time, hi: Time, clock: Time)
    requires l.window > 0 && TokensInRange(l, t, ip, clock)
    requires InTime(events, clock) && lo <= clock
    ensures Admitted(l, t, events, ip, lo, hi) <= Budget(l, t, ip, lo, hi, clock)
    decreases |events|
  {
    Arithmetic.MulMonotone(Allowance(l), 0, Slots(l.window, NextWindow(l, t, ip, lo, clock), hi));
    if events != [] {
      var e := events[0];
      if e.at <= hi {
        EventWithinBudget(l, t, e, ip, lo, hi, clock);
        WithinBudget(l, After(l, t, e), events[1..], ip, lo, hi, e.at);
      } else {
        NoneAfter(l, t, events, ip, lo, hi);
      }
    }
  }

  lemma {:induction false} NoneAfter(l: Limits, t: Table, events: seq<Event>, ip: string, lo: Time, hi: Time)
    requires forall k | 0 <= k < |events| :: hi < events[k].at
    ensures Admitted(l, t, events, ip, lo, hi) == 0
    decreases |events|
  {
    if events != [] {
      NoneAfter(l, After(l, t, events[0]), events[1..], ip, lo, hi);
    }
  }

  lemma {:induction false} IntervalBound(l: Limits, t: Table, events: seq<Event>, ip: string, lo: Time, hi: Time, clock: Time)
    requires l.window > 0 && TokensInRange(l, t, ip, clock)
    requires InTime(events, clock) && lo <= hi
    ensures Admitted(l, t, events, ip, lo, hi) < Allowance(l) * ((hi - lo) / l.window + 2)
    decreases |events|
  {
    var n := (hi - lo) / l.window + 1;
    assert n >= 1;
    Arithmetic.MulMonotone(Allowance(l), n, n + 1);
    Arithmetic.MulMonotone(Allowance(l), 0, n);
    if events != [] {
      var e := events[0];
      if e.at < lo {
        IntervalBound(l, After(l, t, e), events[1..], ip, lo, hi, e.at);
      } else {
        var start := Arithmetic.Max(lo, clock);
        WithinBudget(l, t, events, ip, lo, hi, start);
        SlotsShrink(l.window, lo, NextWindow(l, t, ip, lo, start), hi);
        Arithmetic.MulMonotone(Allowance(l), Slots(l.window, NextWindow(l, t, ip, lo, start), hi), n);
      }
    }
  }

  /** Any interval of length L, placed anywhere in a run with cleanups anywhere, admits fewer than
      rate * (L / window + 2) requests of one client, where a rate below one counts as one. */
  lemma RateGuarantee(l: Limits, events: seq<Event>, ip: string, lo: Time, hi: Time, clock: Time)
    requires l.window > 0 && InTime(events, clock) && lo <= hi
    ensures Admitted(l, map[], events, ip, lo, hi) < Allowance(l) * ((hi - lo) / l.window + 2)
  {
    IntervalBound(l, map[], events, ip, lo, hi, clock);
  }
}
