/**
 One proxy through a run: slots are spaced and bounded per window, a cooldown is
 exactly a completed streak, and the pruned event list still answers the stats.
 */
module PoolProxies {
  import opened PoolState
  import opened PoolSafety
  import opened Counting

  // --- how one proxy object changes -----------------------------------------------------

  ghost predicate Evolves(p: Proxy, q: Proxy, now: real, cfg: Config) {
    || q == p
    || q == p.(rate := q.rate)
    || q == p.(retired := true)
    || q == p.(threads := p.threads + 1)
    || (p.rate > 0.0 && q == Reserve(p, now).0)
    || (exists refusedUs :: q == Streaked(p, refusedUs, now, cfg))
  }

  lemma EffectEvolves(s: State, eff: Effect, p: nat)
    requires EffectOk(s, eff) && p < |s.proxies|
    ensures |Effected(s, eff).proxies| == |s.proxies|
    ensures Evolves(s.proxies[p], Effected(s, eff).proxies[p], s.now, s.cfg)
  {
    if eff.Judge? {
      assert Evolves(s.proxies[eff.p], Streaked(s.proxies[eff.p], eff.refusedUs, s.now, s.cfg), s.now, s.cfg);
    }
  }

  lemma ProxyStep(s: State, a: Action)
    requires Wf(s) && Enabled(s, a)
    ensures var s' := Apply(s, a);
            && |s.proxies| <= |s'.proxies| && s'.cfg == s.cfg && s.now <= s'.now
            && (forall p | 0 <= p < |s.proxies| :: Evolves(s.proxies[p], s'.proxies[p], s.now, s.cfg))
            && (forall p | |s.proxies| <= p < |s'.proxies| ::
                  s'.proxies[p] == FreshProxy(s'.proxies[p].url, s'.proxies[p].rate))
  {
    var s' := Apply(s, a);
    if a.Step? {
      var eff := Move(s, a.t, a.env).0;
      assert s'.proxies == Effected(s, eff).proxies && s'.now == s.now && s'.cfg == s.cfg;
      forall p | 0 <= p < |s.proxies| ensures Evolves(s.proxies[p], s'.proxies[p], s.now, s.cfg) {
        EffectEvolves(s, eff, p);
      }
    } else {
      OutsideEvolves(s, a);
    }
  }

  lemma OutsideEvolves(s: State, a: Action)
    requires Wf(s) && Enabled(s, a) && !a.Step?
    ensures var s' := Apply(s, a);
            && |s.proxies| <= |s'.proxies| && s'.cfg == s.cfg && s.now <= s'.now
            && (forall p | 0 <= p < |s.proxies| :: Evolves(s.proxies[p], s'.proxies[p], s.now, s.cfg))
            && (forall p | |s.proxies| <= p < |s'.proxies| ::
                  s'.proxies[p] == FreshProxy(s'.proxies[p].url, s'.proxies[p].rate))
  {
  }

  // --- slots ------------------------------------------------------------------------------

  /** Each slot lies no earlier than its reservation and a full gap, at the rate then set, after the one before. */
  ghost predicate Spaced(p: Proxy) {
    && (forall i | 0 <= i < |p.slots| :: p.slots[i].madeAt <= p.slots[i].at && p.slots[i].gap > 0.0)
    && (forall i | 0 <= i < |p.slots| - 1 :: p.slots[i + 1].at >= p.slots[i].at + p.slots[i].gap)
    && (p.slots != [] ==> p.nextSlot == p.slots[|p.slots| - 1].at + p.slots[|p.slots| - 1].gap)
    && (p.slots == [] ==> p.nextSlot == 0.0)
  }

  lemma ReserveSpaced(p: Proxy, now: real)
    requires Spaced(p) && p.rate > 0.0
    ensures Spaced(Reserve(p, now).0)
    ensures Reserve(p, now).0.streak == p.streak && Reserve(p, now).0.answers == p.answers
  {
    assert 1.0 / p.rate > 0.0;
  }

  // --- streaks ----------------------------------------------------------------------------

  /** How many answers in a row, up to now, were refusals. */
  function Trailing(answers: seq<bool>): nat {
    if answers == [] || !answers[|answers| - 1] then 0 else 1 + Trailing(answers[..|answers| - 1])
  }

  ghost predicate StreakKept(p: Proxy, cfg: Config)
    requires cfg.streakLimit >= 1
  {
    p.streak == Trailing(p.answers) % cfg.streakLimit
  }

  lemma ModStep(n: nat, limit: nat)
    requires limit >= 1
    ensures (n + 1) % limit == (if n % limit + 1 >= limit then 0 else n % limit + 1)
  {
    var q, r := n / limit, n % limit;
    assert n == q * limit + r;
    if r + 1 >= limit {
      assert n + 1 == (q + 1) * limit;
      ModUnique(n + 1, limit, q + 1, 0);
    } else {
      ModUnique(n + 1, limit, q, r + 1);
    }
  }

  lemma ModUnique(n: nat, limit: nat, q: nat, r: nat)
    requires limit >= 1 && r < limit && n == q * limit + r
    ensures n % limit == r
  {
    var q', r' := n / limit, n % limit;
    assert n == q' * limit + r';
    assert (q - q') * limit == q * limit - q' * limit && (q' - q) * limit == q' * limit - q * limit;
    if q > q' {
      MulAtLeast(q - q', limit);
    } else if q' > q {
      MulAtLeast(q' - q, limit);
    }
  }

  lemma MulAtLeast(k: nat, d: nat)
    requires k >= 1
    ensures k * d >= d
  {
    if k == 1 {
    } else {
      MulAtLeast(k - 1, d);
      assert k * d == (k - 1) * d + d;
    }
  }

  /** A counted answer starts a cooldown exactly when it completes a further run of `streakLimit` refusals. */
  lemma CoolsExactlyOnStreak(p: Proxy, refusedUs: bool, now: real, cfg: Config)
    requires cfg.streakLimit >= 1 && StreakKept(p, cfg)
    ensures var q := Streaked(p, refusedUs, now, cfg);
            && StreakKept(q, cfg) && q.streak < cfg.streakLimit
            && q.slots == p.slots && q.nextSlot == p.nextSlot
            && q.coolUntil == (if refusedUs && Trailing(q.answers) % cfg.streakLimit == 0
                               then now + cfg.cooldown else p.coolUntil)
  {
    TrailingMore(p.answers, refusedUs);
    hide Trailing;
    var n, limit := Trailing(p.answers), cfg.streakLimit;
    ModStep(n, limit);
    ModZero(limit);
  }

  lemma {:induction false} TrailingMore(answers: seq<bool>, refusedUs: bool)
    ensures Trailing(answers + [refusedUs]) == if refusedUs then Trailing(answers) + 1 else 0
  {
    assert (answers + [refusedUs])[..|answers|] == answers;
  }

  lemma ModZero(limit: nat)
    requires limit >= 1
    ensures 0 % limit == 0
  {}

  // --- both, over every run ---------------------------------------------------------------

  ghost predicate ProxiesOk(s: State)
    requires s.cfg.streakLimit >= 1
  {
    forall p | 0 <= p < |s.proxies| :: Spaced(s.proxies[p]) && StreakKept(s.proxies[p], s.cfg)
  }

  lemma EvolvesOk(x: Proxy, y: Proxy, now: real, cfg: Config)
    requires cfg.streakLimit >= 1 && Spaced(x) && StreakKept(x, cfg) && Evolves(x, y, now, cfg)
    ensures Spaced(y) && StreakKept(y, cfg)
  {
    hide Reserve, Streaked, Trailing;
    if x.rate > 0.0 && y == Reserve(x, now).0 {
      ReserveSpaced(x, now);
    } else if exists refusedUs :: y == Streaked(x, refusedUs, now, cfg) {
      var refusedUs :| y == Streaked(x, refusedUs, now, cfg);
      CoolsExactlyOnStreak(x, refusedUs, now, cfg);
    }
  }

  lemma ProxiesOkStep(s: State, a: Action)
    requires Wf(s) && ProxiesOk(s) && Enabled(s, a)
    ensures Apply(s, a).cfg == s.cfg && ProxiesOk(Apply(s, a))
  {
    ProxyStep(s, a);
    var s' := Apply(s, a);
    ModUnique(0, s.cfg.streakLimit, 0, 0);
    forall p | 0 <= p < |s'.proxies| ensures Spaced(s'.proxies[p]) && StreakKept(s'.proxies[p], s.cfg) {
      if p < |s.proxies| {
        EvolvesOk(s.proxies[p], s'.proxies[p], s.now, s.cfg);
      }
    }
  }

  lemma {:induction false} ProxiesOkRun(s: State, acts: seq<Action>)
    requires Wf(s) && ProxiesOk(s) && Performable(s, acts)
    ensures ProxiesOk(Run(s, acts))
    decreases |acts|
  {
    if acts == [] {
    } else {
      ProxiesOkStep(s, acts[0]);
      WfStep(s, acts[0]);
      ProxiesOkRun(Apply(s, acts[0]), acts[1..]);
    }
  }

  lemma ReachableProxies(s: State)
    requires Reachable(s)
    ensures Wf(s) && ProxiesOk(s)
  {
    var cfg: Config, acts: seq<Action> :|
      cfg.streakLimit >= 1 && Performable(Init(cfg), acts) && s == Run(Init(cfg), acts);
    ProxiesOkRun(Init(cfg), acts);
  }

  function InWindow(a: real, width: real): Slot -> bool {
    (x: Slot) => a <= x.at <= a + width
  }

  predicate Apart(slots: seq<Slot>) {
    forall i, j | 0 <= i < j < |slots| :: slots[j].at >= slots[i].at + slots[i].gap
  }

  lemma ApartBefore(slots: seq<Slot>, n: nat)
    requires Apart(slots) && n <= |slots|
    ensures Apart(slots[..n]) && forall x | x in slots[..n] :: x in slots
  {}

  lemma ApartAt(slots: seq<Slot>, i: nat, j: nat)
    requires Apart(slots) && i < j < |slots|
    ensures slots[j].at >= slots[i].at + slots[i].gap && slots[i] in slots
  {}

  /** The slots of a window climb by a gap each, so the last of `c` of them is `c - 1` gaps past its start. */
  lemma WindowClimbs(slots: seq<Slot>, gap: real, a: real, width: real) returns (last: nat)
    requires Apart(slots) && Count(slots, InWindow(a, width)) > 0
    requires forall x | x in slots && InWindow(a, width)(x) :: x.gap >= gap
    ensures last < |slots| && InWindow(a, width)(slots[last])
    ensures slots[last].at >= a + Times(Count(slots, InWindow(a, width)) - 1, gap)
  {
    var n := |slots| - 1;
    var c := Count(slots[..n], InWindow(a, width));
    ApartBefore(slots, n);
    assert Count(slots, InWindow(a, width)) == c + (if InWindow(a, width)(slots[n]) then 1 else 0);
    hide Apart, Count;
    if !InWindow(a, width)(slots[n]) {
      last := WindowClimbs(slots[..n], gap, a, width);
    } else {
      last := n;
      if c > 0 {
        var before := WindowClimbs(slots[..n], gap, a, width);
        ApartAt(slots, before, n);
        TimesMore(c - 1, gap);
      }
    }
  }

  lemma TimesMore(n: nat, gap: real)
    ensures Times(n + 1, gap) == Times(n, gap) + gap
  {}

  function Times(n: nat, gap: real): real {
    if n == 0 then 0.0 else Times(n - 1, gap) + gap
  }

  lemma {:induction false} TimesIsProduct(n: nat, gap: real)
    ensures Times(n, gap) == n as real * gap
  {
    if n == 0 {
    } else {
      TimesIsProduct(n - 1, gap);
      assert n as real * gap == (n - 1) as real * gap + gap;
    }
  }

  /**
   Any window of length W holds at most floor(rate * W) + 1 slots of one proxy, if each of them was reserved at that
   rate or a lower one, whatever the rate was for slots outside the window.
   */
  lemma RateBoundsWindow(s: State, p: nat, rate: real, a: real, width: real)
    requires Reachable(s) && p < |s.proxies| && rate > 0.0 && width >= 0.0
    requires forall x | x in s.proxies[p].slots && InWindow(a, width)(x) :: x.gap >= 1.0 / rate
    ensures Count(s.proxies[p].slots, InWindow(a, width)) <= (rate * width).Floor + 1
  {
    var slots, c, gap := s.proxies[p].slots, Count(s.proxies[p].slots, InWindow(a, width)), 1.0 / rate;
    if c > 0 {
      forall i, j | 0 <= i < j < |slots| ensures slots[j].at >= slots[i].at + slots[i].gap {
        SlotsNeverCrowd(s, p, i, j);
      }
      var last := WindowClimbs(slots, gap, a, width);
      GapsWithin(c - 1, rate, width);
    } else {
      assert rate * width >= 0.0;
    }
  }

  lemma GapsWithin(n: nat, rate: real, width: real)
    requires rate > 0.0 && Times(n, 1.0 / rate) <= width
    ensures n <= (rate * width).Floor
  {
    var gap := 1.0 / rate;
    TimesIsProduct(n, gap);
    assert gap * rate == 1.0;
    var k := n as real;
    assert (k * gap) * rate == k * (gap * rate) == k;
    MulMono(k * gap, width, rate);
  }

  lemma MulMono(x: real, y: real, z: real)
    requires x <= y && z > 0.0
    ensures x * z <= y * z
  {
  }

  /** Consecutive slots of a proxy are a full gap apart and never precede the moment they were reserved. */
  lemma SlotsNeverCrowd(s: State, p: nat, i: nat, j: nat)
    requires Reachable(s) && p < |s.proxies| && i < j < |s.proxies[p].slots|
    ensures s.proxies[p].slots[j].at >= s.proxies[p].slots[i].at + s.proxies[p].slots[i].gap
    ensures s.proxies[p].slots[j].at >= s.proxies[p].slots[j].madeAt
  {
    ReachableProxies(s);
    SpacedApart(s.proxies[p], i, j);
  }

  lemma SpacedApart(p: Proxy, i: nat, j: nat)
    requires Spaced(p) && i < j < |p.slots|
    ensures p.slots[j].at >= p.slots[i].at + p.slots[i].gap
  {
    assert p.slots[j - 1 + 1].at >= p.slots[j - 1].at + p.slots[j - 1].gap;
    if i + 1 >= j {
    } else {
      SpacedApart(p, i, j - 1);
    }
  }

  // --- stats over the pruned events -----------------------------------------------------------

  /** The kept events are the tail of everything recorded; what was dropped is over a day old. */
  ghost predicate Tail(log: seq<Logged>, events: seq<Event>, now: real) {
    && |events| <= |log|
    && (forall i | 0 <= i < |events| :: events[i] == log[|log| - |events| + i].event)
    && (forall i | 0 <= i < |log| - |events| :: now - log[i].event.ts > 86400.0)
  }

  ghost predicate Pruned(s: State) {
    Tail(s.log, s.events, s.now)
  }

  lemma TailAppend(log: seq<Logged>, events: seq<Event>, now: real, x: Logged)
    requires Tail(log, events, now)
    ensures Tail(log + [x], events + [x.event], now)
  {
  }

  lemma TailCut(log: seq<Logged>, events: seq<Event>, now: real, k: nat)
    requires Tail(log, events, now) && k <= |events|
    requires forall i | 0 <= i < k :: now - events[i].ts > 86400.0
    ensures Tail(log, events[k..], now)
  {
    var cut := |log| - |events|;
    forall i | 0 <= i < cut + k ensures now - log[i].event.ts > 86400.0 {
      if i >= cut { assert events[i - cut] == log[cut + (i - cut)].event; }
    }
  }

  /** The eviction loop drops a prefix, all of it over a day old on the recorder's clock. */
  lemma EvictDropsOld(events: seq<Event>, now: real) returns (k: nat)
    ensures k <= |events| && Evict(events, now) == events[k..]
    ensures forall i | 0 <= i < k :: now - events[i].ts > 86400.0
    ensures k < |events| ==> now - events[k].ts <= 86400.0
  {
    if events != [] && now - events[0].ts > 86400.0 {
      var rest := EvictDropsOld(events[1..], now);
      k := rest + 1;
      assert forall i | 1 <= i < k :: events[i] == events[1..][i - 1];
    } else {
      k := 0;
    }
  }

  lemma PrunedStep(s: State, a: Action)
    requires Wf(s) && AllHonest(s) && Pruned(s) && Enabled(s, a)
    ensures Pruned(Apply(s, a))
  {
    if a.Step? {
      assert Honest(s.now, s.futures, s.threads[a.t]);
      RecordIsStamped(s, a.t, a.env);
      hide Move, Honest, Effected;
      var (eff, pc) := Move(s, a.t, a.env);
      if eff.Record? {
        PrunedRecord(s, eff.event, eff.task);
      } else {
        OtherEffects(s, eff);
      }
    } else {
      PrunedOutside(s, a);
    }
  }

  lemma RecordIsStamped(s: State, t: nat, env: Env)
    requires Wf(s) && t < |s.threads| && CanStep(s, t, env) && Honest(s.now, s.futures, s.threads[t])
    ensures var eff := Move(s, t, env).0; eff.Record? ==> eff.event.ts <= s.now
  {}

  lemma OtherEffects(s: State, eff: Effect)
    requires EffectOk(s, eff) && !eff.Record?
    ensures var m := Effected(s, eff); m.events == s.events && m.log == s.log && m.now == s.now
  {}

  lemma PrunedOutside(s: State, a: Action)
    requires Wf(s) && Pruned(s) && Enabled(s, a) && !a.Step?
    ensures Pruned(Apply(s, a))
  {
    var s' := Apply(s, a);
    assert s'.events == s.events && s'.log == s.log && s'.now >= s.now;
  }

  lemma PrunedRecord(s: State, event: Event, task: bool)
    requires Pruned(s) && event.ts <= s.now
    ensures Pruned(Effected(s, Record(event, task)))
  {
    var all := s.events + [event];
    TailAppend(s.log, s.events, s.now, Logged(event, task));
    var k := EvictDropsOld(all, event.ts);
    TailCut(s.log + [Logged(event, task)], all, s.now, k);
  }

  lemma {:induction false} PrunedRun(s: State, acts: seq<Action>)
    requires Safe(s) && Pruned(s) && Performable(s, acts)
    ensures Pruned(Run(s, acts))
    decreases |acts|
  {
    if acts == [] {
    } else {
      PrunedStep(s, acts[0]);
      SafeStep(s, acts[0]);
      PrunedRun(Apply(s, acts[0]), acts[1..]);
    }
  }

  function StatEvent(at: real, seconds: real, o: Outcome): Event -> bool {
    (e: Event) => at - e.ts <= seconds && e.outcome == o
  }

  function StatLogged(at: real, seconds: real, o: Outcome): Logged -> bool {
    (l: Logged) => at - l.event.ts <= seconds && l.event.outcome == o
  }

  lemma {:induction false} CountTail(log: seq<Logged>, events: seq<Event>, at: real, seconds: real, o: Outcome)
    requires |events| == |log| && forall i | 0 <= i < |log| :: events[i] == log[i].event
    ensures Count(events, StatEvent(at, seconds, o)) == Count(log, StatLogged(at, seconds, o))
  {
    if log == [] {
    } else {
      CountTail(log[..|log| - 1], events[..|log| - 1], at, seconds, o);
    }
  }

  lemma ReachablePruned(s: State)
    requires Reachable(s)
    ensures Pruned(s)
  {
    var cfg: Config, acts: seq<Action> :|
      cfg.streakLimit >= 1 && Performable(Init(cfg), acts) && s == Run(Init(cfg), acts);
    PrunedRun(Init(cfg), acts);
  }

  /**
   A stats window read at clock `at` counts every event ever recorded in it, though old events are
   thrown away, as long as the time passed since that clock read leaves the window inside a day.
   */
  lemma StatsMissNothing(s: State, at: real, seconds: real, o: Outcome)
    requires Reachable(s) && s.now - at + seconds <= 86400.0
    ensures Count(s.events, StatEvent(at, seconds, o)) == Count(s.log, StatLogged(at, seconds, o))
  {
    ReachablePruned(s);
    hide Reachable;
    var cut := |s.log| - |s.events|;
    assert s.log == s.log[..cut] + s.log[cut..];
    CountConcat(s.log[..cut], s.log[cut..], StatLogged(at, seconds, o));
    CountNone(s.log[..cut], StatLogged(at, seconds, o));
    CountTail(s.log[cut..], s.events, at, seconds, o);
  }
}
