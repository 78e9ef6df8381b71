/**
 The eBay call budget: which counters a call must pass, the atomic script that checks
 and charges them, and the clock arithmetic behind both. Times are in milliseconds.
 */
module EbayBudget {
  import opened EbayRateLimits
  import opened Numbers
  import opened Options

  datatype Priority = Interactive | Background

  /** A counter key: the resource with a UTC day, or with a window length and its bucket number. */
  datatype Key = DayKey(resource: Resource, day: int) | BucketKey(resource: Resource, seconds: nat, bucket: int)

  datatype Governed = Governed(windowSeconds: nat, key: Key, limit: Option<real>, ttl: int, resetAt: int)

  const DAY_MS := 86_400_000

  const TTL_GRACE_SECONDS := 3600

  const SHORT_WINDOW_TTL_GRACE_SECONDS := 60

  function CeilDiv(a: int, b: int): int
    requires b > 0
  {
    -((-a) / b)
  }

  /** Interactive calls see the whole limit; background work stops at it less the reserve, clamped to 0..50 percent. */
  function EffectiveLimit(limit: real, reservePercent: real, priority: Priority): int {
    if priority == Interactive then MaxInt(0, limit.Floor)
    else MaxInt(0, BackgroundShare(limit, Clamp(reservePercent)).Floor)
  }

  function Clamp(reservePercent: real): real { MinReal(50.0, MaxReal(0.0, reservePercent)) }

  function BackgroundShare(limit: real, reserve: real): real { limit * (100.0 - reserve) / 100.0 }

  /** Background never gets more than interactive, and never less than half of it, rounded down. */
  lemma ReserveBounds(limit: real, reservePercent: real)
    requires limit >= 0.0
    ensures (limit / 2.0).Floor <= EffectiveLimit(limit, reservePercent, Background)
    ensures EffectiveLimit(limit, reservePercent, Background) <= EffectiveLimit(limit, reservePercent, Interactive)
  {
    ShareBounds(limit, Clamp(reservePercent));
    hide BackgroundShare, Clamp;
    FloorMono(limit / 2.0, BackgroundShare(limit, Clamp(reservePercent)));
    FloorMono(BackgroundShare(limit, Clamp(reservePercent)), limit);
  }

  lemma ShareBounds(limit: real, reserve: real)
    requires limit >= 0.0 && 0.0 <= reserve <= 50.0
    ensures limit / 2.0 <= BackgroundShare(limit, reserve) <= limit
  {
    var product := limit * reserve;
    assert limit * (50.0 - reserve) >= 0.0 && limit * (50.0 - reserve) == 50.0 * limit - product;
    assert product >= 0.0;
    assert limit * (100.0 - reserve) == 100.0 * limit - product;
  }

  lemma FloorMono(x: real, y: real)
    requires x <= y
    ensures x.Floor <= y.Floor
  {
  }

  function ShortWindow(r: Resource, w: Window, now: int): Governed
    requires w.seconds > 0
  {
    var lengthMs := w.seconds * 1000;
    var bucket := now / lengthMs;
    Governed(w.seconds, BucketKey(r, w.seconds, bucket), Some(w.limit),
             w.seconds + SHORT_WINDOW_TTL_GRACE_SECONDS, (bucket + 1) * lengthMs)
  }

  /** `budgetWindow` as the daily counter: keyed by the UTC day, reset at the next midnight, kept an hour longer. */
  function DailyWindow(r: Resource, limit: Option<real>, now: int): Governed {
    var day := now / DAY_MS;
    var resetAt := (day + 1) * DAY_MS;
    Governed(86_400, DayKey(r, day), limit, CeilDiv(resetAt - now, 1000) + TTL_GRACE_SECONDS, resetAt)
  }

  function ShortList(m: Option<MappedLimit>): seq<Window> {
    if m.Some? then m.value.shortWindows else []
  }

  function DailyLimit(m: Option<MappedLimit>): Option<real> {
    if m.Some? && m.value.daily.Some? then Some(m.value.daily.value.limit) else None
  }

  /**
   What reaches the governor from `pickShortWindows`: positive lengths under a day, strictly increasing, limits not
   negative.
   */
  predicate Mapped(m: Option<MappedLimit>) {
    && Ascending(ShortList(m))
    && (forall w | w in ShortList(m) :: 0 < w.seconds < DAILY_WINDOW_MIN_SECONDS && w.limit >= 0.0)
    && (DailyLimit(m).Some? ==> DailyLimit(m).value >= 0.0)
  }

  /** Any parsed answer (positive lengths, limits not negative) maps to something the governor can use. */
  lemma {:induction false} MappingIsMapped(entries: seq<Entry>, r: Resource, m: Option<MappedLimit>)
    requires IsMapping(entries, r, m)
    requires forall w | w in WindowsOf(entries, r) :: w.seconds > 0 && w.limit >= 0.0
    ensures Mapped(m)
  {
  }

  /** `governedWindows`: the daily counter first, always; then one fixed bucket per short window. */
  function GovernedWindows(r: Resource, m: Option<MappedLimit>, now: int): (ws: seq<Governed>)
    requires Mapped(m)
    ensures |ws| == 1 + |ShortList(m)|
  {
    [DailyWindow(r, DailyLimit(m), now)]
      + seq(|ShortList(m)|, i requires 0 <= i < |ShortList(m)| =>
          assert ShortList(m)[i] in ShortList(m); ShortWindow(r, ShortList(m)[i], now))
  }

  /** A counter that keeps watch over a reported window: of its own length, or the daily one, and no looser. */
  predicate Watches(g: Governed, w: Window) {
    && g.limit.Some? && g.limit.value <= w.limit
    && g.windowSeconds == (if w.seconds >= 86_400 then 86_400 else w.seconds)
  }

  /** Every window eBay reports for a resource has a counter that each of its calls must pass. */
  lemma {:induction false} EveryWindowCounted(
      entries: seq<Entry>, r: Resource, m: Option<MappedLimit>, e: Entry, w: Window, now: int)
    requires IsMapping(entries, r, m) && e in entries && Claims(r, e) && w in e.windows
    requires forall x | x in WindowsOf(entries, r) :: x.seconds > 0 && x.limit >= 0.0
    ensures Mapped(m) && exists i :: 0 <= i < |GovernedWindows(r, m, now)| && Watches(GovernedWindows(r, m, now)[i], w)
  {
    hide IsMapping, Claims, WindowsOf, Mapped, GovernedWindows, Watches;
    MappingIsMapped(entries, r, m);
    EveryWindowGoverned(entries, r, m, e, w);
    if IsDaily(w) {
      DailyWatches(r, m, w, now);
    } else {
      var x :| x in m.value.shortWindows && x.seconds == w.seconds && x.limit <= w.limit;
      ShortWatches(r, m, x, w, now);
    }
  }

  lemma DailyWatches(r: Resource, m: Option<MappedLimit>, w: Window, now: int)
    requires Mapped(m) && IsDaily(w) && m.Some? && m.value.daily.Some? && m.value.daily.value.limit <= w.limit
    ensures Watches(GovernedWindows(r, m, now)[0], w)
  {
    hide Mapped;
    assert GovernedWindows(r, m, now)[0] == DailyWindow(r, DailyLimit(m), now);
  }

  lemma ShortWatches(r: Resource, m: Option<MappedLimit>, x: Window, w: Window, now: int)
    requires Mapped(m) && !IsDaily(w) && x in ShortList(m) && x.seconds == w.seconds && x.limit <= w.limit
    ensures exists i :: 0 <= i < |GovernedWindows(r, m, now)| && Watches(GovernedWindows(r, m, now)[i], w)
  {
    var i :| 0 <= i < |ShortList(m)| && ShortList(m)[i] == x;
    var ws := GovernedWindows(r, m, now);
    assert ws[i + 1] == ShortWindow(r, x, now);
    hide Mapped, GovernedWindows;
    assert Watches(ws[i + 1], w);
  }

  method ListGovernedWindows(r: Resource, m: Option<MappedLimit>, now: int) returns (ws: seq<Governed>)
    requires Mapped(m)
    ensures ws == GovernedWindows(r, m, now)
  {
    ws := [DailyWindow(r, DailyLimit(m), now)];
    var shorts := ShortList(m);
    for i := 0 to |shorts|
      invariant |ws| == i + 1 && ws == GovernedWindows(r, m, now)[..i + 1]
    {
      assert shorts[i] in shorts;
      ws := ws + [ShortWindow(r, shorts[i], now)];
    }
  }

  /** One call never names a counter twice, so check-all-then-charge-all cannot overshoot its own check. */
  lemma KeysDistinct(r: Resource, m: Option<MappedLimit>, now: int, i: nat, j: nat)
    requires Mapped(m) && i < j < |GovernedWindows(r, m, now)|
    ensures GovernedWindows(r, m, now)[i].key != GovernedWindows(r, m, now)[j].key
  {
  }

  /** The moment a key's bucket ends. */
  function EndOf(k: Key): int {
    match k
    case DayKey(_, day) => (day + 1) * DAY_MS
    case BucketKey(_, seconds, bucket) => (bucket + 1) * (seconds * 1000)
  }

  /** A key's own slack past its bucket, in milliseconds. */
  function Grace(k: Key): int {
    if k.DayKey? then TTL_GRACE_SECONDS * 1000 else SHORT_WINDOW_TTL_GRACE_SECONDS * 1000
  }

  /**
   A governed window is the bucket its clock reading falls in, and a TTL set then outlives the bucket by the grace.
   */
  lemma WindowHolds(r: Resource, m: Option<MappedLimit>, now: int, i: nat)
    requires Mapped(m) && i < |GovernedWindows(r, m, now)|
    ensures var w := GovernedWindows(r, m, now)[i];
            && EndOf(w.key) == w.resetAt
            && w.resetAt - w.windowSeconds * 1000 <= now < w.resetAt
            && Grace(w.key) == (if i == 0 then 3_600_000 else 60_000)
            && now + w.ttl * 1000 >= EndOf(w.key) + Grace(w.key)
            && w.ttl <= w.windowSeconds + Grace(w.key) / 1000
  {
    var w := GovernedWindows(r, m, now)[i];
    if i == 0 {
      var q := now / DAY_MS;
      assert q * DAY_MS <= now < (q + 1) * DAY_MS;
    } else {
      var s := ShortList(m)[i - 1];
      assert s in ShortList(m);
      FloorBucket(now, s.seconds * 1000);
    }
  }

  lemma FloorBucket(now: int, length: nat)
    requires length > 0
    ensures (now / length) * length <= now < (now / length + 1) * length
    ensures (now / length + 1) * length - length == (now / length) * length
  {
    var q := now / length;
    assert now == q * length + now % length;
  }

  // --- the script -------------------------------------------------------------------------

  datatype Counter = Counter(count: nat, expiry: int)

  type Store = map<Key, Counter>

  /** What GET sees: an expired key is no key. */
  function Used(store: Store, now: int, k: Key): nat {
    if k in store && now < store[k].expiry then store[k].count else 0
  }

  /** INCRBY, then EXPIRE when the total is the cost itself. */
  function ChargeOne(store: Store, now: int, k: Key, ttl: int, cost: nat): Store {
    var total := Used(store, now, k) + cost;
    store[k := Counter(total, if total == cost then now + ttl * 1000 else store[k].expiry)]
  }

  function ChargeAll(store: Store, now: int, ws: seq<Governed>, cost: nat): Store {
    if ws == [] then store
    else ChargeOne(ChargeAll(store, now, ws[..|ws| - 1], cost), now, ws[|ws| - 1].key, ws[|ws| - 1].ttl, cost)
  }

  /** The argument the script gets for a window: its ceiling for this priority, or -1 for count only. */
  function Ceiling(w: Governed, reserve: real, priority: Priority): int {
    if w.limit.None? then -1 else EffectiveLimit(w.limit.value, reserve, priority)
  }

  predicate Refuses(store: Store, now: int, w: Governed, ceiling: int, cost: nat) {
    ceiling >= 0 && Used(store, now, w.key) + cost > ceiling
  }

  class Redis {
    var store: Store
    var clock: int

    /** The acquire script: all windows are checked before any is charged, in one indivisible step. */
    method RunScript(ws: seq<Governed>, ceilings: seq<int>, cost: nat) returns (granted: bool, refusedBy: nat)
      requires |ceilings| == |ws|
      modifies this`store
      ensures granted <==> forall i | 0 <= i < |ws| :: !Refuses(old(store), clock, ws[i], ceilings[i], cost)
      ensures granted ==> store == ChargeAll(old(store), clock, ws, cost)
      ensures !granted ==>
                && store == old(store) && refusedBy < |ws|
                && Refuses(store, clock, ws[refusedBy], ceilings[refusedBy], cost)
                && forall i | 0 <= i < refusedBy :: !Refuses(store, clock, ws[i], ceilings[i], cost)
    {
      refusedBy := 0;
      while refusedBy < |ws|
        invariant refusedBy <= |ws|
        invariant forall i | 0 <= i < refusedBy :: !Refuses(store, clock, ws[i], ceilings[i], cost)
      {
        if ceilings[refusedBy] >= 0 {
          var used := Used(store, clock, ws[refusedBy].key);
          if used + cost > ceilings[refusedBy] {
            return false, refusedBy;
          }
        }
        refusedBy := refusedBy + 1;
      }
      for i := 0 to |ws|
        invariant store == ChargeAll(old(store), clock, ws[..i], cost)
      {
        var k := ws[i].key;
        var total := Used(store, clock, k) + cost;
        var expiry := if total == cost then clock + ws[i].ttl * 1000 else store[k].expiry;
        assert ws[..i + 1][..i] == ws[..i];
        store := store[k := Counter(total, expiry)];
      }
      assert ws[..|ws|] == ws;
      granted := true;
    }
  }

  // --- charging distinct keys ----------------------------------------------------------------

  predicate DistinctKeys(ws: seq<Governed>) {
    forall i, j | 0 <= i < j < |ws| :: ws[i].key != ws[j].key
  }

  predicate Names(ws: seq<Governed>, k: Key) {
    exists i :: 0 <= i < |ws| && ws[i].key == k
  }

  /** Charging touches each named counter exactly once and no other. */
  lemma {:induction false} ChargeAllEffect(store: Store, now: int, ws: seq<Governed>, cost: nat, k: Key)
    requires DistinctKeys(ws)
    ensures !Names(ws, k) ==> (k in ChargeAll(store, now, ws, cost) <==> k in store)
                              && (k in store ==> ChargeAll(store, now, ws, cost)[k] == store[k])
    ensures forall i | 0 <= i < |ws| && ws[i].key == k ::
              k in ChargeAll(store, now, ws, cost)
              && ChargeAll(store, now, ws, cost)[k] == ChargeOne(store, now, k, ws[i].ttl, cost)[k]
  {
    if ws == [] {
    } else {
      var n := |ws| - 1;
      var before := ws[..n];
      ChargeAllEffect(store, now, before, cost, k);
      if ws[n].key == k {
        assert !Names(before, k);
      } else {
        assert forall i | 0 <= i < |ws| && ws[i].key == k :: i < n && before[i] == ws[i];
        if Names(before, k) {
          var i :| 0 <= i < |before| && before[i].key == k;
          assert ws[i].key == k;
        }
      }
    }
  }
}
