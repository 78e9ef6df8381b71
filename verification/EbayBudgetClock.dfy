/**
 The budget by the clock alone: which calls share a counter, when it resets, and what a
 day or a window of any length can cost, in plain milliseconds.
 */
module EbayBudgetClock {
  import opened EbayBudget
  import opened EbayBudgetRuns
  import opened EbayRateLimits
  import opened Numbers
  import opened Options

  /** The daily counter of a call, and the other counters it must pass. */
  function Daily(c: Call): Governed
    requires Mapped(c.mapped)
  {
    Windows(c)[0]
  }

  /** Two calls share a daily counter exactly when they are for one resource on one UTC day. */
  lemma SameDayCounter(c: Call, d: Call)
    requires Mapped(c.mapped) && Mapped(d.mapped)
    ensures Daily(c).key == Daily(d).key <==> c.resource == d.resource && c.app / 86_400_000 == d.app / 86_400_000
    ensures forall i | 0 < i < |Windows(d)| :: Daily(c).key != Windows(d)[i].key
  {
    forall i | 0 < i < |Windows(d)| ensures Daily(c).key != Windows(d)[i].key {
      assert ShortList(d.mapped)[i - 1] in ShortList(d.mapped);
    }
  }

  /** eBay reports a daily window with this limit. */
  predicate HasDaily(m: Option<MappedLimit>, limit: real) {
    m.Some? && m.value.daily.Some? && m.value.daily.value.limit == limit
  }

  /** It resets at the next UTC midnight: the least whole number of days above the clock reading. */
  lemma ResetsAtMidnight(c: Call, midnight: int)
    requires Mapped(c.mapped) && midnight % 86_400_000 == 0 && midnight > c.app
    ensures Daily(c).resetAt % 86_400_000 == 0 && c.app < Daily(c).resetAt <= midnight
    ensures Daily(c).windowSeconds == 86_400
    ensures forall limit :: Daily(c).limit == Some(limit) <==> HasDaily(c.mapped, limit)
  {
    var day, k := c.app / 86_400_000, midnight / 86_400_000;
    assert midnight == k * 86_400_000 && c.app == day * 86_400_000 + c.app % 86_400_000;
    assert k > day;
    assert Daily(c).resetAt == (day + 1) * 86_400_000;
    assert Daily(c).resetAt % 86_400_000 == 0 by { WholeDays(day + 1); }
  }

  lemma WholeDays(n: int)
    ensures n * 86_400_000 % 86_400_000 == 0
  {
  }

  /** Two calls share a short counter exactly when they are for one resource in one bucket of that length. */
  lemma SameBucketCounter(c: Call, d: Call, i: nat, j: nat)
    requires Mapped(c.mapped) && Mapped(d.mapped) && 0 < i < |Windows(c)| && 0 < j < |Windows(d)|
    ensures var n := Windows(c)[i].windowSeconds;
            && n > 0 && c.mapped.Some? && i <= |c.mapped.value.shortWindows|
            && n == c.mapped.value.shortWindows[i - 1].seconds
            && Windows(c)[i].limit == Some(c.mapped.value.shortWindows[i - 1].limit)
            && (Windows(c)[i].key == Windows(d)[j].key <==>
                  && c.resource == d.resource && n == Windows(d)[j].windowSeconds
                  && c.app / (n * 1000) == d.app / (n * 1000))
  {
    assert ShortList(c.mapped)[i - 1] in ShortList(c.mapped) && ShortList(d.mapped)[j - 1] in ShortList(d.mapped);
  }

  /** Granted calls of a resource made on the `n`-th stretch of `length` milliseconds. */
  function Made(r: Resource, n: int, length: int): Call -> bool {
    (c: Call) => c.resource == r && n * length <= c.app < (n + 1) * length
  }

  lemma {:induction false} TotalWithin(grants: seq<Call>, p: Call -> bool, q: Call -> bool)
    requires forall c | c in grants && p(c) :: q(c)
    ensures Total(grants, p) <= Total(grants, q)
  {
    if grants == [] {
    } else {
      TotalWithin(grants[..|grants| - 1], p, q);
      assert grants[|grants| - 1] in grants;
    }
  }

  lemma StretchIsQuotient(app: int, n: int, length: nat)
    requires length > 0 && n * length <= app < (n + 1) * length
    ensures app / length == n
  {
    FloorBucket(app, length);
    var q := app / length;
    if q < n {
      SideBySide(q + 1, n, length);
    } else if q > n {
      SideBySide(n + 1, q, length);
    }
  }

  /** With eBay's daily limit fixed, the calls of a resource granted on one UTC day cost at most that limit together. */
  lemma {:induction false} DayCostsAtMostLimit(
      calls: seq<Call>, ahead: nat, late: nat, r: Resource, limit: real, day: int)
    requires ValidRun(calls, ahead, late) && limit >= 0.0
    requires forall c | c in calls && c.resource == r :: HasDaily(c.mapped, limit)
    ensures Total(Run(calls).grants, Made(r, day, 86_400_000)) <= limit.Floor
  {
    var k := DayKey(r, day);
    GrantsAreCalls(calls);
    forall c | c in Run(calls).grants && Made(r, day, 86_400_000)(c) ensures Charging(k)(c) {
      var i :| 0 <= i < |calls| && calls[i] == c;
      StretchIsQuotient(c.app, day, 86_400_000);
      assert Windows(c)[0].key == k;
    }
    TotalWithin(Run(calls).grants, Made(r, day, 86_400_000), Charging(k));
    forall c, i | c in calls && Mapped(c.mapped) && 0 <= i < |Windows(c)| && Windows(c)[i].key == k
      ensures Windows(c)[i].limit == Some(limit)
    {
      assert i == 0;
    }
    FixedLimitHolds(calls, ahead, late, k, limit);
  }

  /** The window of this length is there, with this limit. */
  predicate HasLimit(m: Option<MappedLimit>, seconds: nat, limit: real) {
    && m.Some? && (exists w :: w in m.value.shortWindows && w.seconds == seconds)
    && forall w | w in m.value.shortWindows && w.seconds == seconds :: w.limit == limit
  }

  /** So do those granted in one bucket of any shorter window, at its own limit. */
  lemma {:induction false} BucketCostsAtMostLimit(
      calls: seq<Call>, ahead: nat, late: nat, r: Resource, seconds: nat, limit: real, n: int)
    requires ValidRun(calls, ahead, late) && limit >= 0.0 && seconds > 0
    requires forall c | c in calls && c.resource == r :: HasLimit(c.mapped, seconds, limit)
    ensures Total(Run(calls).grants, Made(r, n, seconds * 1000)) <= limit.Floor
  {
    var k := BucketKey(r, seconds, n);
    GrantsAreCalls(calls);
    forall c | c in Run(calls).grants && Made(r, n, seconds * 1000)(c) ensures Charging(k)(c) {
      var i :| 0 <= i < |calls| && calls[i] == c;
      StretchIsQuotient(c.app, n, seconds * 1000);
      ChargesItsBucket(c, seconds);
    }
    TotalWithin(Run(calls).grants, Made(r, n, seconds * 1000), Charging(k));
    forall c, i | c in calls && Mapped(c.mapped) && 0 <= i < |Windows(c)| && Windows(c)[i].key == k
      ensures Windows(c)[i].limit == Some(limit)
    {
      assert ShortList(c.mapped)[i - 1] in ShortList(c.mapped);
    }
    FixedLimitHolds(calls, ahead, late, k, limit);
  }

  lemma ShortsAreShorter(c: Call)
    requires Mapped(c.mapped)
    ensures forall i | 0 < i < |Windows(c)| :: Windows(c)[i].windowSeconds < 86_400
  {
    forall i | 0 < i < |Windows(c)| ensures Windows(c)[i].windowSeconds < 86_400 {
      assert ShortList(c.mapped)[i - 1] in ShortList(c.mapped);
    }
  }

  /** A refusal by the daily counter is an answer to come back at the next UTC midnight. */
  lemma RefusedUntilMidnight(s: State, c: Call, n: nat, midnight: int)
    requires Mapped(c.mapped) && FirstRefusal(s, c, n) && Windows(c)[n].windowSeconds == 86_400
    requires midnight % 86_400_000 == 0 && c.app < midnight <= c.app + 86_400_000
    ensures n == 0 && Windows(c)[n].resetAt == midnight
  {
    ShortsAreShorter(c);
    ResetsAtMidnight(c, midnight);
    var k, j := midnight / 86_400_000, Daily(c).resetAt / 86_400_000;
    assert midnight == k * 86_400_000 && Daily(c).resetAt == j * 86_400_000;
    assert k <= j;
  }

  // --- ceilings -----------------------------------------------------------------------------------

  /** Interactive calls may use every whole call of the limit. */
  lemma InteractiveUsesAll(limit: real, reservePercent: real)
    requires limit >= 0.0
    ensures var n := EffectiveLimit(limit, reservePercent, Interactive); n as real <= limit < n as real + 1.0
  {
  }

  /**
   Background work leaves `reservePercent` of the limit, counted as 0 below 0 and as 50 above 50, and no whole call
   more.
   */
  lemma BackgroundLeavesReserve(limit: real, reservePercent: real, kept: real)
    requires limit >= 0.0
    requires kept == if reservePercent < 0.0 then 0.0 else if reservePercent > 50.0 then 50.0 else reservePercent
    ensures var n := EffectiveLimit(limit, reservePercent, Background);
            n as real <= limit - limit * kept / 100.0 < n as real + 1.0
  {
    assert Clamp(reservePercent) == kept;
    ShareBounds(limit, kept);
    ShareIs(limit, kept);
  }

  lemma ShareIs(limit: real, kept: real)
    ensures BackgroundShare(limit, kept) == limit - limit * kept / 100.0
  {
    assert limit * (100.0 - kept) == limit * 100.0 - limit * kept;
  }

  /** A limit below zero lets nothing through. */
  lemma NothingBelowZero(limit: real, reservePercent: real, priority: Priority)
    requires limit < 0.0
    ensures EffectiveLimit(limit, reservePercent, priority) == 0
  {
    var kept := Clamp(reservePercent);
    ShareIs(limit, kept);
    assert limit * kept >= limit * 50.0 by { NegativeTimes(limit, kept); }
  }

  lemma NegativeTimes(x: real, y: real)
    requires x < 0.0 && 0.0 <= y <= 50.0
    ensures x * y >= x * 50.0
  {
    assert x * (50.0 - y) <= 0.0 && x * (50.0 - y) == x * 50.0 - x * y;
  }

  /** A job waits out the window that refused it, and at least the minimum. */
  lemma WaitsLongEnough(resetAt: int, now: int, minimum: int)
    ensures var d := DeferralDelayMs(resetAt, now, minimum);
            now + d >= resetAt && d >= minimum && (d == minimum || now + d == resetAt)
  {
  }
}
