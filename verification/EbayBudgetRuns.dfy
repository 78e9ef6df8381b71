/**
 The governor over every run of acquires from any number of replicas: what a bucket can
 spend, what background work leaves to interactive calls, and where a deferred job lands.
 A call carries two clock readings, its own (which picks the buckets) and Redis' (when the
 script runs). A run is timely if the two never drift apart by more than the TTL slack.
 */
module EbayBudgetRuns {
  import opened EbayBudget
  import opened EbayRateLimits
  import opened Numbers
  import opened Options

  datatype Call = Call(
    resource: Resource, priority: Priority, cost: nat, mapped: Option<MappedLimit>, reserve: real,
    app: int, at: int)

  /** Redis' counters and clock, and the history of granted calls. */
  datatype State = State(store: Store, clock: int, grants: seq<Call>)

  const Start := State(map[], 0, [])

  function Windows(c: Call): seq<Governed>
    requires Mapped(c.mapped)
  {
    GovernedWindows(c.resource, c.mapped, c.app)
  }

  predicate Granted(s: State, c: Call)
    requires Mapped(c.mapped)
  {
    forall i | 0 <= i < |Windows(c)| ::
      !Refuses(s.store, c.at, Windows(c)[i], Ceiling(Windows(c)[i], c.reserve, c.priority), c.cost)
  }

  /** `acquire`: the script's effect, as `Redis.RunScript` states it. */
  function Acquire(s: State, c: Call): State
    requires Mapped(c.mapped)
  {
    if Granted(s, c) then State(ChargeAll(s.store, c.at, Windows(c), c.cost), c.at, s.grants + [c])
    else s.(clock := c.at)
  }

  /**
   The app clock runs at most `ahead` before Redis' and the script at most `late` after the reading, within a minute
   in all.
   */
  predicate Timely(c: Call, ahead: nat, late: nat) {
    ahead + late <= 60_000 && c.app - ahead <= c.at <= c.app + late
  }

  predicate ValidRun(calls: seq<Call>, ahead: nat, late: nat) {
    && (forall i | 0 <= i < |calls| :: Mapped(calls[i].mapped) && Timely(calls[i], ahead, late))
    && (forall i, j | 0 <= i < j < |calls| :: calls[i].at <= calls[j].at)
  }

  function Run(calls: seq<Call>): State
    requires forall i | 0 <= i < |calls| :: Mapped(calls[i].mapped)
  {
    if calls == [] then Start else Acquire(Run(calls[..|calls| - 1]), calls[|calls| - 1])
  }

  // --- spending ------------------------------------------------------------------------

  function Total(grants: seq<Call>, p: Call -> bool): nat {
    if grants == [] then 0
    else Total(grants[..|grants| - 1], p) + (if p(grants[|grants| - 1]) then grants[|grants| - 1].cost else 0)
  }

  lemma {:induction false} TotalAppend(grants: seq<Call>, c: Call, p: Call -> bool)
    ensures Total(grants + [c], p) == Total(grants, p) + (if p(c) then c.cost else 0)
  {
    assert (grants + [c])[..|grants|] == grants;
  }

  /** Calls that charge a counter. */
  function Charging(k: Key): Call -> bool {
    (c: Call) => Mapped(c.mapped) && Names(Windows(c), k)
  }

  function ChargingInteractive(k: Key): Call -> bool {
    (c: Call) => Charging(k)(c) && c.priority == Interactive
  }

  function Spent(s: State, k: Key): nat { Total(s.grants, Charging(k)) }

  function SpentInteractive(s: State, k: Key): nat { Total(s.grants, ChargingInteractive(k)) }

  // --- no counter expires while its bucket can still be charged ---------------------------

  /** A counter holds exactly what was granted on it, and outlives its bucket by the slack the clocks leave. */
  ghost predicate Faithful(s: State, ahead: nat) {
    forall k ::
      && (k !in s.store ==> Spent(s, k) == 0)
      && (k in s.store ==> s.store[k].count == Spent(s, k) && s.store[k].expiry >= EndOf(k) + Grace(k) - ahead)
  }

  /** So a timely call reads, for each of its windows, exactly what that bucket has been granted. */
  lemma ReadsSpent(s: State, c: Call, ahead: nat, late: nat, i: nat)
    requires Mapped(c.mapped) && Timely(c, ahead, late) && Faithful(s, ahead) && i < |Windows(c)|
    ensures Used(s.store, c.at, Windows(c)[i].key) == Spent(s, Windows(c)[i].key)
  {
    WindowHolds(c.resource, c.mapped, c.app, i);
    var k := Windows(c)[i].key;
    if k in s.store {
      assert s.store[k].count == Spent(s, k);
    } else {
      assert Spent(s, k) == 0;
    }
  }

  lemma FaithfulAcquire(s: State, c: Call, ahead: nat, late: nat)
    requires Mapped(c.mapped) && Timely(c, ahead, late) && Faithful(s, ahead)
    ensures Faithful(Acquire(s, c), ahead)
  {
    var s', ws := Acquire(s, c), Windows(c);
    if Granted(s, c) {
      DistinctWindows(c);
      hide EndOf, Grace, Granted, DistinctKeys, ChargeAll, Total, Mapped;
      forall k
        ensures k !in s'.store ==> Spent(s', k) == 0
        ensures k in s'.store ==> s'.store[k].count == Spent(s', k) && s'.store[k].expiry >= EndOf(k) + Grace(k) - ahead
      {
        TotalAppend(s.grants, c, Charging(k));
        ChargeAllEffect(s.store, c.at, ws, c.cost, k);
        assert k !in s.store ==> Spent(s, k) == 0;
        assert k in s.store ==> s.store[k].count == Spent(s, k) && s.store[k].expiry >= EndOf(k) + Grace(k) - ahead;
        if Names(ws, k) {
          var i :| 0 <= i < |ws| && ws[i].key == k;
          ReadsSpent(s, c, ahead, late, i);
          WindowHolds(c.resource, c.mapped, c.app, i);
        }
      }
    }
  }

  lemma DistinctWindows(c: Call)
    requires Mapped(c.mapped)
    ensures DistinctKeys(Windows(c))
  {
    forall i, j | 0 <= i < j < |Windows(c)| ensures Windows(c)[i].key != Windows(c)[j].key {
      KeysDistinct(c.resource, c.mapped, c.app, i, j);
    }
  }

  lemma {:induction false} FaithfulRun(calls: seq<Call>, ahead: nat, late: nat)
    requires ValidRun(calls, ahead, late)
    ensures Faithful(Run(calls), ahead)
  {
    if calls == [] {
    } else {
      FaithfulRun(calls[..|calls| - 1], ahead, late);
      FaithfulAcquire(Run(calls[..|calls| - 1]), calls[|calls| - 1], ahead, late);
    }
  }

  // --- the bound -----------------------------------------------------------------------------

  /** The ceiling a call presents for a counter it names. */
  predicate Presents(c: Call, k: Key, most: int) {
    Mapped(c.mapped) &&
    forall i | 0 <= i < |Windows(c)| && Windows(c)[i].key == k ::
      0 <= Ceiling(Windows(c)[i], c.reserve, c.priority) <= most
  }

  /** A granted call leaves each counter it names within the ceiling it presented. */
  lemma GrantWithinCeiling(s: State, c: Call, ahead: nat, late: nat, i: nat)
    requires Mapped(c.mapped) && Timely(c, ahead, late) && Faithful(s, ahead)
    requires i < |Windows(c)|
    ensures Granted(s, c) && Ceiling(Windows(c)[i], c.reserve, c.priority) >= 0 ==>
              Spent(Acquire(s, c), Windows(c)[i].key) <= Ceiling(Windows(c)[i], c.reserve, c.priority)
  {
    ReadsSpent(s, c, ahead, late, i);
    TotalAppend(s.grants, c, Charging(Windows(c)[i].key));
  }

  /** If no call ever presents a ceiling above `most` for a bucket, the bucket never grants more than `most` in all. */
  lemma {:induction false} BucketNeverOverspent(calls: seq<Call>, ahead: nat, late: nat, k: Key, most: nat)
    requires ValidRun(calls, ahead, late)
    requires forall i | 0 <= i < |calls| :: Presents(calls[i], k, most)
    ensures Spent(Run(calls), k) <= most
  {
    if calls == [] {
    } else {
      var before, c := calls[..|calls| - 1], calls[|calls| - 1];
      BucketNeverOverspent(before, ahead, late, k, most);
      FaithfulRun(before, ahead, late);
      var s := Run(before);
      if Granted(s, c) {
        TotalAppend(s.grants, c, Charging(k));
        if Names(Windows(c), k) {
          var i :| 0 <= i < |Windows(c)| && Windows(c)[i].key == k;
          GrantWithinCeiling(s, c, ahead, late, i);
        }
      }
    }
  }

  /**
   With the reported limit fixed, the bucket grants at most that limit, rounded down, whatever the priorities and
   reserves.
   */
  lemma {:induction false} FixedLimitHolds(calls: seq<Call>, ahead: nat, late: nat, k: Key, limit: real)
    requires ValidRun(calls, ahead, late) && limit >= 0.0
    requires forall c, i | c in calls && Mapped(c.mapped) && 0 <= i < |Windows(c)| && Windows(c)[i].key == k ::
               Windows(c)[i].limit == Some(limit)
    ensures Spent(Run(calls), k) <= limit.Floor
  {
    forall n | 0 <= n < |calls| ensures Presents(calls[n], k, limit.Floor) {
      assert calls[n] in calls;
      ReserveBounds(limit, calls[n].reserve);
    }
    BucketNeverOverspent(calls, ahead, late, k, limit.Floor);
  }

  /** Granted calls of a resource whose own clock fell in `[from, from + length)`. */
  function Within(r: Resource, from: int, length: int): Call -> bool {
    (c: Call) => c.resource == r && from <= c.app < from + length
  }

  predicate HasShort(m: Option<MappedLimit>, seconds: nat) {
    exists i :: 0 <= i < |ShortList(m)| && ShortList(m)[i].seconds == seconds
  }

  /** A call governed by a window length charges the bucket its clock falls in. */
  lemma ChargesItsBucket(c: Call, seconds: nat)
    requires Mapped(c.mapped) && HasShort(c.mapped, seconds) && seconds > 0
    ensures Charging(BucketKey(c.resource, seconds, c.app / (seconds * 1000)))(c)
  {
    var i :| 0 <= i < |ShortList(c.mapped)| && ShortList(c.mapped)[i].seconds == seconds;
    assert Windows(c)[i + 1].key == BucketKey(c.resource, seconds, c.app / (seconds * 1000));
  }

  lemma {:induction false} TotalCovered(grants: seq<Call>, p: Call -> bool, q: Call -> bool, r: Call -> bool)
    requires forall c | c in grants && p(c) :: q(c) || r(c)
    ensures Total(grants, p) <= Total(grants, q) + Total(grants, r)
  {
    if grants == [] {
    } else {
      TotalCovered(grants[..|grants| - 1], p, q, r);
      assert grants[|grants| - 1] in grants;
    }
  }

  lemma {:induction false} GrantsAreCalls(calls: seq<Call>)
    requires forall i | 0 <= i < |calls| :: Mapped(calls[i].mapped)
    ensures forall c | c in Run(calls).grants :: c in calls
  {
    if calls == [] {
    } else {
      GrantsAreCalls(calls[..|calls| - 1]);
      assert calls[|calls| - 1] in calls;
    }
  }

  lemma TwoBuckets(app: int, from: int, length: nat)
    requires length > 0 && from <= app < from + length
    ensures app / length == from / length || app / length == from / length + 1
  {
    FloorBucket(app, length);
    FloorBucket(from, length);
    var a, f := app / length, from / length;
    assert (f + 2) * length == (f + 1) * length + length;
    if a < f {
      SideBySide(a + 1, f, length);
    } else if a > f + 1 {
      SideBySide(f + 2, a, length);
    }
  }

  lemma SideBySide(a: int, b: int, length: nat)
    requires a <= b
    ensures a * length <= b * length
  {
  }

  /** Whatever its alignment, an interval as long as a sub-daily window sees at most twice that window's ceiling. */
  lemma {:induction false} IntervalAtMostTwice(
      calls: seq<Call>, ahead: nat, late: nat, r: Resource, seconds: nat, from: int, most: nat)
    requires ValidRun(calls, ahead, late) && seconds > 0
    requires forall c | c in calls && c.resource == r :: HasShort(c.mapped, seconds)
    requires forall i, b | 0 <= i < |calls| :: Presents(calls[i], BucketKey(r, seconds, b), most)
    ensures Total(Run(calls).grants, Within(r, from, seconds * 1000)) <= 2 * most
  {
    var length := seconds * 1000;
    var k1, k2 := BucketKey(r, seconds, from / length), BucketKey(r, seconds, from / length + 1);
    GrantsAreCalls(calls);
    forall c | c in Run(calls).grants && Within(r, from, length)(c) ensures Charging(k1)(c) || Charging(k2)(c) {
      var i :| 0 <= i < |calls| && calls[i] == c;
      ChargesItsBucket(c, seconds);
      TwoBuckets(c.app, from, length);
    }
    TotalCovered(Run(calls).grants, Within(r, from, length), Charging(k1), Charging(k2));
    BucketNeverOverspent(calls, ahead, late, k1, most);
    BucketNeverOverspent(calls, ahead, late, k2, most);
  }

  /** Granted calls of a resource that reached Redis in `[from, from + length)` on its clock. */
  function WithinAt(r: Resource, from: int, length: int): Call -> bool {
    (c: Call) => c.resource == r && from <= c.at < from + length
  }

  /**
   On the one clock all replicas share: the same holds of any interval shorter than the window by the clocks' drift.
   */
  lemma {:induction false} RedisIntervalAtMostTwice(
      calls: seq<Call>, ahead: nat, late: nat, r: Resource, seconds: nat, from: int, most: nat)
    requires ValidRun(calls, ahead, late) && seconds > 0
    requires forall c | c in calls && c.resource == r :: HasShort(c.mapped, seconds)
    requires forall i, b | 0 <= i < |calls| :: Presents(calls[i], BucketKey(r, seconds, b), most)
    ensures Total(Run(calls).grants, WithinAt(r, from, seconds * 1000 - ahead - late)) <= 2 * most
  {
    hide Presents, HasShort, Mapped, Run;
    var at, app := WithinAt(r, from, seconds * 1000 - ahead - late), Within(r, from - late, seconds * 1000);
    var none := (c: Call) => false;
    var grants := Run(calls).grants;
    GrantsAreCalls(calls);
    forall c | c in grants && at(c) ensures app(c) || none(c) {
      var i :| 0 <= i < |calls| && calls[i] == c;
      assert Timely(c, ahead, late);
    }
    TotalCovered(grants, at, app, none);
    TotalNone(grants);
    IntervalAtMostTwice(calls, ahead, late, r, seconds, from - late, most);
  }

  lemma {:induction false} TotalNone(grants: seq<Call>)
    ensures Total(grants, (c: Call) => false) == 0
  {
    if grants == [] {
    } else {
      TotalNone(grants[..|grants| - 1]);
    }
  }

  // --- the interactive reserve -----------------------------------------------------------------

  /** Background calls stop at `ceiling` on this counter. */
  predicate BackgroundStops(c: Call, k: Key, ceiling: int) {
    c.priority == Background ==> Presents(c, k, ceiling)
  }

  /** Everything above the background ceiling was spent by interactive calls. */
  lemma {:induction false} ReserveIsInteractive(calls: seq<Call>, ahead: nat, late: nat, k: Key, ceiling: nat)
    requires ValidRun(calls, ahead, late)
    requires forall i | 0 <= i < |calls| :: BackgroundStops(calls[i], k, ceiling)
    ensures Spent(Run(calls), k) <= ceiling + SpentInteractive(Run(calls), k)
  {
    if calls == [] {
    } else {
      var before, c := calls[..|calls| - 1], calls[|calls| - 1];
      ReserveIsInteractive(before, ahead, late, k, ceiling);
      FaithfulRun(before, ahead, late);
      var s := Run(before);
      if Granted(s, c) {
        TotalAppend(s.grants, c, Charging(k));
        TotalAppend(s.grants, c, ChargingInteractive(k));
        if Names(Windows(c), k) && c.priority == Background {
          var i :| 0 <= i < |Windows(c)| && Windows(c)[i].key == k;
          GrantWithinCeiling(s, c, ahead, late, i);
        }
      }
    }
  }

  /** What a window leaves for interactive use above the background ceilings of the run so far. */
  predicate RoomFor(s: State, c: Call, w: Governed, background: Key -> nat) {
    w.limit.Some? ==>
      SpentInteractive(s, w.key) + c.cost + background(w.key) <= EffectiveLimit(w.limit.value, c.reserve, Interactive)
  }

  /**
   Background work alone can never refuse a seller: an interactive call is granted whenever, in every one of its
   windows, interactive spending including this call fits between the background ceiling and the limit.
   */
  lemma {:induction false} BackgroundNeverStarvesInteractive(
      calls: seq<Call>, c: Call, ahead: nat, late: nat, background: Key -> nat)
    requires ValidRun(calls + [c], ahead, late) && c.priority == Interactive
    requires Mapped(c.mapped)
    requires forall i, j | 0 <= i < |calls| && 0 <= j < |Windows(c)| && Windows(c)[j].limit.Some? ::
               BackgroundStops(calls[i], Windows(c)[j].key, background(Windows(c)[j].key))
    requires (forall i | 0 <= i < |calls| :: Mapped(calls[i].mapped))
             && forall i | 0 <= i < |Windows(c)| :: RoomFor(Run(calls), c, Windows(c)[i], background)
    ensures Granted(Run(calls), c)
  {
    assert forall i | 0 <= i < |calls| :: (calls + [c])[i] == calls[i];
    assert (calls + [c])[|calls|] == c;
    assert ValidRun(calls, ahead, late);
    FaithfulRun(calls, ahead, late);
    var s := Run(calls);
    forall i | 0 <= i < |Windows(c)|
      ensures !Refuses(s.store, c.at, Windows(c)[i], Ceiling(Windows(c)[i], c.reserve, c.priority), c.cost)
    {
      ReadsSpent(s, c, ahead, late, i);
      if Windows(c)[i].limit.Some? {
        ReserveIsInteractive(calls, ahead, late, Windows(c)[i].key, background(Windows(c)[i].key));
      }
      assert RoomFor(s, c, Windows(c)[i], background);
    }
  }

  // --- refusal and deferral ----------------------------------------------------------------------

  function DeferralDelayMs(resetAt: int, now: int, minimum: int): int { MaxInt(minimum, resetAt - now) }

  /** What a window of a call has left, by the record of what was granted on its bucket. */
  ghost predicate HasRoom(s: State, c: Call, w: Governed) {
    Ceiling(w, c.reserve, c.priority) >= 0 ==> Spent(s, w.key) + c.cost <= Ceiling(w, c.reserve, c.priority)
  }

  /** In every timely run a call is granted exactly when each bucket it names can still take its cost. */
  lemma {:induction false} GrantedExactlyWithRoom(calls: seq<Call>, c: Call, ahead: nat, late: nat)
    requires ValidRun(calls, ahead, late) && Mapped(c.mapped) && Timely(c, ahead, late)
    ensures Granted(Run(calls), c) <==> forall i | 0 <= i < |Windows(c)| :: HasRoom(Run(calls), c, Windows(c)[i])
  {
    var s := Run(calls);
    FaithfulRun(calls, ahead, late);
    hide Faithful, Mapped, Run, Timely, Spent;
    forall i | 0 <= i < |Windows(c)|
      ensures HasRoom(s, c, Windows(c)[i])
              <==> !Refuses(s.store, c.at, Windows(c)[i], Ceiling(Windows(c)[i], c.reserve, c.priority), c.cost)
    {
      ReadsSpent(s, c, ahead, late, i);
    }
  }

  // --- the service -------------------------------------------------------------------------------

  datatype Outcome = Allowed | Exhausted(resetAt: int, windowSeconds: nat)

  /** The first window that refuses. */
  ghost predicate FirstRefusal(s: State, c: Call, n: nat)
    requires Mapped(c.mapped)
  {
    && n < |Windows(c)|
    && Refuses(s.store, c.at, Windows(c)[n], Ceiling(Windows(c)[n], c.reserve, c.priority), c.cost)
    && forall i | 0 <= i < n ::
         !Refuses(s.store, c.at, Windows(c)[i], Ceiling(Windows(c)[i], c.reserve, c.priority), c.cost)
  }

  /** `acquire`, with Redis reachable: one step of a run, and a refusal names the first window that refused. */
  method AcquireCall(redis: Redis, c: Call, ghost s: State) returns (outcome: Outcome)
    requires Mapped(c.mapped) && redis.clock == c.at && redis.store == s.store
    modifies redis`store
    ensures redis.store == Acquire(s, c).store
    ensures outcome == Allowed <==> Granted(s, c)
    ensures outcome.Exhausted? ==>
              exists n: nat :: FirstRefusal(s, c, n) && outcome.resetAt == Windows(c)[n].resetAt
                               && outcome.windowSeconds == Windows(c)[n].windowSeconds
  {
    hide Mapped;
    var windows := ListGovernedWindows(c.resource, c.mapped, c.app);
    var ceilings: seq<int> := [];
    for i := 0 to |windows|
      invariant |ceilings| == i
      invariant forall k | 0 <= k < i :: ceilings[k] == Ceiling(windows[k], c.reserve, c.priority)
    {
      ceilings := ceilings + [Ceiling(windows[i], c.reserve, c.priority)];
    }
    hide Ceiling, Refuses;
    var granted, refusedBy := redis.RunScript(windows, ceilings, c.cost);
    if !granted {
      assert FirstRefusal(s, c, refusedBy);
      return Exhausted(windows[refusedBy].resetAt, windows[refusedBy].windowSeconds);
    }
    outcome := Allowed;
  }

  /** A job deferred by the delay of the window that refused it comes back in a later bucket of that window. */
  lemma DeferredLandsLater(c: Call, retry: Call, i: nat, j: nat, minimum: nat)
    requires Mapped(c.mapped) && Mapped(retry.mapped) && i < |Windows(c)| && j < |Windows(retry)|
    requires retry.resource == c.resource && Windows(retry)[j].windowSeconds == Windows(c)[i].windowSeconds
    requires retry.app >= c.app + DeferralDelayMs(Windows(c)[i].resetAt, c.app, minimum)
    ensures EndOf(Windows(retry)[j].key) > EndOf(Windows(c)[i].key)
    ensures Windows(retry)[j].key != Windows(c)[i].key
  {
    assert i > 0 ==> ShortList(c.mapped)[i - 1] in ShortList(c.mapped);
    assert j > 0 ==> ShortList(retry.mapped)[j - 1] in ShortList(retry.mapped);
    WindowHolds(c.resource, c.mapped, c.app, i);
    WindowHolds(retry.resource, retry.mapped, retry.app, j);
  }
}
