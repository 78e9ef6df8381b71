/**
 The pool's own methods, in the form the source has them: an object whose fields
 are reassigned under its lock. Each is proved to be a run of the transition
 system, so what holds of every run holds of it.
 */
module PoolClass {
  import opened Counting
  import opened Numbers
  import opened Options
  import opened PoolRuns
  import opened PoolState

  const THREADS_PER_RPS := 4.0

  const LATENCY_HEADROOM := 1.5

  const HOUR := 3600.0

  function Ceil(x: real): int { -((-x).Floor) }

  /**
   How many pages a second one thread is assumed to need threads for: the fixed figure, or the measured one if
   larger.
   */
  function PerRps(latency: Option<real>): real {
    if latency.Some? && latency.value > 0.0 then MaxReal(THREADS_PER_RPS, latency.value * LATENCY_HEADROOM)
    else THREADS_PER_RPS
  }

  function ThreadsForRate(rate: real, floor: int, cap: int, latency: Option<real>): int {
    MinInt(cap, MaxInt(floor, Ceil(rate * PerRps(latency))))
  }

  /**
   Below its cap the count keeps up with the rate at the per-page time, measured with headroom; it stays within
   [floor, cap].
   */
  lemma ThreadsSustainRate(rate: real, floor: int, cap: int, latency: Option<real>)
    ensures var n := ThreadsForRate(rate, floor, cap, latency);
            && n <= cap && (floor <= cap ==> floor <= n)
            && (n < cap ==> n as real >= rate * PerRps(latency))
            && (floor <= n - 1 ==> (n - 1) as real < rate * PerRps(latency))
    ensures PerRps(latency) >= 4.0 && (latency.Some? ==> PerRps(latency) >= latency.value * 1.5)
    ensures PerRps(latency) == 4.0 || (latency.Some? && PerRps(latency) == latency.value * 1.5)
  {
    CeilAbove(rate * PerRps(latency));
  }

  lemma CeilAbove(x: real)
    ensures x <= Ceil(x) as real < x + 1.0
  {
  }

  lemma CeilMono(x: real, y: real)
    requires x <= y
    ensures Ceil(x) <= Ceil(y)
  {
  }

  lemma MulLe(a: real, b: real, x: real, y: real)
    requires 0.0 < a <= b && 0.0 < x <= y
    ensures a * x <= b * y
  {
    assert a * (y - x) >= 0.0 && a * (y - x) == a * y - a * x;
    assert (b - a) * y >= 0.0 && (b - a) * y == b * y - a * y;
  }

  /** More rate, or a slower measured page, never asks for fewer threads. */
  lemma ThreadsGrowWithRate(r1: real, r2: real, floor: int, cap: int, l1: real, l2: real)
    requires 0.0 < r1 <= r2 && l1 <= l2
    ensures ThreadsForRate(r1, floor, cap, Some(l1)) <= ThreadsForRate(r2, floor, cap, Some(l2))
  {
    var p1, p2 := PerRps(Some(l1)), PerRps(Some(l2));
    assert 0.0 < p1 <= p2;
    hide PerRps;
    MulLe(r1, r2, p1, p2);
    CeilMono(r1 * p1, r2 * p2);
  }

  /** The measured round trips of the last hour, in milliseconds. */
  function RecentLatencies(events: seq<Event>, now: real): seq<real> {
    if events == [] then []
    else
      var rest, e := RecentLatencies(events[..|events| - 1], now), events[|events| - 1];
      if e.latency.Some? && now - e.ts <= HOUR then rest + [e.latency.value] else rest
  }

  function Sum(xs: seq<real>): real {
    if xs == [] then 0.0 else Sum(xs[..|xs| - 1]) + xs[|xs| - 1]
  }

  function RecentLatency(events: seq<Event>, now: real): Option<real> {
    var xs := RecentLatencies(events, now);
    if xs == [] then None else Some(Sum(xs) / (|xs| as real) / 1000.0)
  }

  function Measured(now: real): Event -> bool {
    (e: Event) => e.latency.Some? && now - e.ts <= 3600.0
  }

  /** Milliseconds measured, added up. */
  function Took(events: seq<Event>, now: real): real {
    if events == [] then 0.0
    else
      var e := events[|events| - 1];
      Took(events[..|events| - 1], now) + (if Measured(now)(e) then e.latency.value else 0.0)
  }

  lemma {:induction false} LatenciesAdd(events: seq<Event>, now: real)
    ensures |RecentLatencies(events, now)| == Count(events, Measured(now))
    ensures Sum(RecentLatencies(events, now)) == Took(events, now)
  {
    if events == [] {
    } else {
      var n := |events| - 1;
      LatenciesAdd(events[..n], now);
      if Measured(now)(events[n]) {
        var rest := RecentLatencies(events[..n], now);
        assert (rest + [events[n].latency.value])[..|rest|] == rest;
      }
    }
  }

  /** The latency the pool is sized by is the mean of what was measured in the last hour, in seconds. */
  lemma {:induction false} LatencyIsMean(events: seq<Event>, now: real)
    ensures var n, latency := Count(events, Measured(now)), RecentLatency(events, now);
            && (latency.None? <==> n == 0)
            && (latency.Some? ==> latency.value * 1000.0 * (n as real) == Took(events, now))
  {
    LatenciesAdd(events, now);
    hide RecentLatencies, Sum, Took, Count;
  }

  class ProxyPool {
    const cfg: Config
    const floorThreads: nat
    const maxThreads: nat
    var clock: real
    var queue: multiset<Entry>
    var nextSeq: nat
    var futures: seq<Future>
    var proxies: seq<Proxy>
    var table: map<string, nat>
    var threads: seq<Thread>
    var events: seq<Event>
    var stop: bool
    ghost var log: seq<Logged>

    ghost function View(): State
      reads this
    {
      State(cfg, clock, queue, nextSeq, futures, proxies, table, threads, events, log, stop)
    }

    ghost predicate Valid()
      reads this
    {
      Wf(View()) && TableNames(table, proxies)
    }

    constructor (cfg: Config, floorThreads: nat, maxThreads: nat)
      requires cfg.streakLimit >= 1
      ensures Valid() && View() == Init(cfg)
      ensures this.floorThreads == floorThreads && this.maxThreads == maxThreads
    {
      this.cfg, this.floorThreads, this.maxThreads := cfg, floorThreads, maxThreads;
      clock, queue, nextSeq, futures, proxies := 0.0, multiset{}, 0, [], [];
      table, threads, events, stop, log := map[], [], [], false, [];
    }

    /** `submit` / `submit_call` run without interruption: the future, its tuple queued, the submitter gone. */
    method Submit(lane: Lane, body: nat) returns (fut: nat)
      requires Valid()
      modifies this
      ensures Valid() && fut == |old(futures)| && Reaches(old(View()), View())
      ensures futures == old(futures)
                         + [Future(Entry(LanePriority(lane), old(nextSeq), fut), clock + cfg.timeout, body, None)]
      ensures queue == old(queue) + multiset{Entry(LanePriority(lane), old(nextSeq), fut)}
      ensures nextSeq == old(nextSeq) + 1 && proxies == old(proxies) && table == old(table) && clock == old(clock)
      ensures events == old(events) && log == old(log) && stop == old(stop)
    {
      ghost var s := View();
      ReachSubmit(s, lane, body);
      fut := |futures|;
      var e := Entry(LanePriority(lane), nextSeq, fut);
      futures := futures + [Future(e, clock + cfg.timeout, body, None)];
      nextSeq := nextSeq + 1;
      queue := queue + multiset{e};
      threads := threads + [Thread(Submitter, Submitted)];
      assert View() == Queued(s, lane, body);
    }

    /** The lock section of `wait_turn`. */
    method WaitTurn(p: nat) returns (slot: real)
      requires Valid() && p < |proxies|
      modifies this`proxies
      ensures Valid()
      ensures proxies == old(proxies)[p := Reserve(old(proxies)[p], clock).0]
      ensures slot == Reserve(old(proxies)[p], clock).1
    {
      slot := if proxies[p].nextSlot > clock then proxies[p].nextSlot else clock;
      var gap := 1.0 / proxies[p].rate;
      var reserved := proxies[p].(nextSlot := slot + gap, slots := proxies[p].slots + [Slot(slot, gap, clock)]);
      proxies := proxies[p := reserved];
    }

    /** `_record`: append, then drop the head while it is over a day older than this recorder's clock reading. */
    method Record(event: Event, task: bool)
      requires Valid()
      modifies this`events, this`log
      ensures Valid() && events == Evict(old(events) + [event], event.ts) && log == old(log) + [Logged(event, task)]
    {
      events := events + [event];
      log := log + [Logged(event, task)];
      while events != [] && event.ts - events[0].ts > DAY
        invariant Evict(events, event.ts) == Evict(old(events) + [event], event.ts)
        invariant log == old(log) + [Logged(event, task)]
        decreases |events|
      {
        events := events[1..];
      }
    }

    method Flag(url: string)
      requires Valid() && stop && url in table && table[url] < |proxies|
      modifies this`proxies
      ensures Valid() && Reaches(old(View()), View())
      ensures proxies == old(proxies)[table[url] := old(proxies)[table[url]].(retired := true)]
    {
      ReachSelf(View());
      ReachFlag(View(), View(), table[url]);
      proxies := proxies[table[url] := proxies[table[url]].(retired := true)];
    }

    /** `shutdown`: the stop flag, then every configured proxy retired. */
    method Shutdown()
      requires Valid()
      modifies this`stop, this`proxies
      ensures Valid() && stop && Reaches(old(View()), View())
      ensures Flagging(table, proxies, {})
    {
      ghost var s := View();
      ReachHalt(s);
      FlaggingStart(table, proxies);
      hide Wf, Reaches, Flagging, TableNames;
      stop := true;
      var left := table.Keys;
      while left != {}
        invariant stop && Valid() && Reaches(s, View()) && Flagging(table, proxies, left) && left <= table.Keys
        decreases left
      {
        var url :| url in left;
        ghost var s0 := View();
        NameBound(table, proxies, url);
        Flag(url);
        FlaggingTurn(table, s0.proxies, proxies, left, url);
        ReachTrans(s, s0, View());
        left := left - {url};
      }
    }

    method Drop(url: string)
      requires Valid() && url in table && table[url] < |proxies|
      modifies this`table, this`proxies
      ensures Valid() && Reaches(old(View()), View()) && table == old(table) - {url}
      ensures proxies == old(proxies)[old(table)[url] := old(proxies)[old(table)[url]].(retired := true)]
    {
      ReachSelf(View());
      ReachRetire(View(), View(), url);
      proxies := proxies[table[url] := proxies[table[url]].(retired := true)];
      table := table - {url};
    }

    /** The first loop of `ensure`: proxies no longer wanted leave the table, retired. */
    method RetireUnwanted(wanted: set<string>)
      requires Valid()
      modifies this`table, this`proxies
      ensures Valid() && Reaches(old(View()), View())
      ensures Retiring(old(table), |old(proxies)|, table, proxies, wanted, {})
    {
      ghost var s, t0, n0 := View(), table, |proxies|;
      ReachSelf(s);
      var left := table.Keys - wanted;
      assert Retiring(t0, n0, table, proxies, wanted, left);
      hide Wf, Reaches, Retiring, TableNames;
      while left != {}
        invariant Valid() && Reaches(s, View()) && Retiring(t0, n0, table, proxies, wanted, left)
        decreases left
      {
        var url :| url in left;
        ghost var s0 := View();
        RetiringTurn(t0, n0, table, proxies, wanted, left, url);
        Drop(url);
        ReachTrans(s, s0, View());
        left := left - {url};
      }
    }

    /** The head of one turn of the second loop: the proxy exists and has the rate. */
    method SetRate(url: string, rate: real)
      requires Valid() && rate > 0.0
      modifies this`table, this`proxies
      ensures Valid() && Reaches(old(View()), View()) && View() == Configured(old(View()), url, rate)
    {
      ReachConfigure(View(), url, rate);
      hide Reaches;
      if url !in table {
        table := table[url := |proxies|];
        proxies := proxies + [FreshProxy(url, rate)];
      } else {
        proxies := proxies[table[url] := proxies[table[url]].(rate := rate)];
      }
    }

    method StartThread(url: string)
      requires Valid() && url in table && table[url] < |proxies|
      modifies this`proxies, this`threads
      ensures Valid() && Reaches(old(View()), View()) && threads == old(threads) + [Thread(Worker(table[url]), Top)]
      ensures var p := old(proxies)[table[url]]; proxies == old(proxies)[table[url] := p.(threads := p.threads + 1)]
    {
      ReachSelf(View());
      ReachSpawn(View(), View(), url);
      threads := threads + [Thread(Worker(table[url]), Top)];
      proxies := proxies[table[url] := proxies[table[url]].(threads := proxies[table[url]].threads + 1)];
    }

    /** Its inner loop: threads are only ever added, one at a time, as many as the count rises by. */
    method GrowThreads(url: string, wanted: int)
      requires Valid() && url in table && table[url] < |proxies|
      modifies this`proxies, this`threads
      ensures Valid() && Reaches(old(View()), View())
      ensures |proxies| == |old(proxies)|
      ensures proxies == old(proxies)[table[url] := old(proxies)[table[url]].(threads := proxies[table[url]].threads)]
      ensures proxies[table[url]].threads >= wanted
      ensures proxies[table[url]].threads - old(proxies)[table[url]].threads == |threads| - |old(threads)|
    {
      ghost var s, p := View(), table[url];
      ReachSelf(s);
      hide Wf, Reaches;
      while proxies[table[url]].threads < wanted
        invariant p < |proxies| == |old(proxies)|
        invariant proxies == old(proxies)[p := old(proxies)[p].(threads := proxies[p].threads)]
        invariant proxies[p].threads - old(proxies)[p].threads == |threads| - |old(threads)|
        invariant Valid() && Reaches(s, View())
        decreases wanted - proxies[p].threads
      {
        ghost var s0 := View();
        StartThread(url);
        ReachTrans(s, s0, View());
      }
    }

    /** One turn of `ensure`'s second loop, for one proxy. */
    method ConfigureOne(url: string, rate: real, wanted: int)
      requires Valid() && rate > 0.0
      modifies this`table, this`proxies, this`threads
      ensures Valid() && Reaches(old(View()), View())
      ensures table.Keys == old(table).Keys + {url} && |old(proxies)| <= |proxies|
      ensures forall u | u in old(table) :: table[u] == old(table)[u]
      ensures Sized(proxies, table[url], rate, wanted)
      ensures forall p | 0 <= p < |old(proxies)| && p != table[url] :: proxies[p] == old(proxies)[p]
      ensures url !in old(table) ==> table[url] == |old(proxies)|
    {
      hide Wf, Reaches, TableNames;
      ghost var s := View();
      ConfiguredFacts(s, url, rate);
      SetRate(url, rate);
      hide Configured;
      ghost var s0 := View();
      GrowThreads(url, wanted);
      ReachTrans(s, s0, View());
    }

    /**
     `ensure`: afterwards exactly the given proxies are configured, at this rate and with enough threads; the rest
     are retired.
     */
    method Ensure(urls: seq<string>, rate: real)
      requires Valid() && rate > 0.0
      modifies this`table, this`proxies, this`threads
      ensures Valid() && Reaches(old(View()), View())
      ensures Ensured(old(table), table, proxies, urls, rate,
                      ThreadsForRate(rate, floorThreads, maxThreads, RecentLatency(events, clock)))
    {
      hide Wf, Reaches, ThreadsForRate, RecentLatency, Retiring, Ensuring, Ensured, Sized, TableNames;
      ghost var s, t0, n0 := View(), table, |proxies|;
      var wantedUrls := set url | url in urls;
      RetireUnwanted(wantedUrls);
      var wanted := ThreadsForRate(rate, floorThreads, maxThreads, RecentLatency(events, clock));
      EnsuringStart(t0, n0, table, proxies, urls, rate, wanted);
      for i := 0 to |urls|
        invariant Valid() && Reaches(s, View()) && Ensuring(t0, n0, table, proxies, urls, i, rate, wanted)
      {
        ghost var s0 := View();
        ConfigureOne(urls[i], rate, wanted);
        ReachTrans(s, s0, View());
        EnsuringTurn(s0.table, s0.proxies, table, proxies, urls, i, rate, wanted, t0, n0);
      }
      EnsuringDone(t0, n0, table, proxies, urls, rate, wanted);
    }
  }

  lemma ConfiguredFacts(s: State, url: string, rate: real)
    requires TableNames(s.table, s.proxies)
    ensures var r := Configured(s, url, rate);
            && url in r.table && r.table[url] < |r.proxies| && r.table.Keys == s.table.Keys + {url}
            && |s.proxies| <= |r.proxies| && r.proxies[r.table[url]].rate == rate
            && (forall u | u in s.table :: r.table[u] == s.table[u])
            && (forall p | 0 <= p < |s.proxies| && p != r.table[url] :: r.proxies[p] == s.proxies[p])
            && (url !in s.table ==> r.table[url] == |s.proxies|)
  {}

  lemma NameBound(table: map<string, nat>, proxies: seq<Proxy>, url: string)
    requires TableNames(table, proxies) && url in table
    ensures table[url] < |proxies|
  {}

  lemma FlaggingStart(table: map<string, nat>, proxies: seq<Proxy>)
    requires TableNames(table, proxies)
    ensures Flagging(table, proxies, table.Keys)
  {}

  /** A turn for `url` flags its proxy and no other's. */
  lemma FlaggingTurn(table: map<string, nat>, ps: seq<Proxy>, ps': seq<Proxy>, left: set<string>, url: string)
    requires Flagging(table, ps, left) && url in left && url in table && table[url] < |ps|
    requires ps' == ps[table[url] := ps[table[url]].(retired := true)]
    ensures Flagging(table, ps', left - {url})
  {}

  /** Every configured proxy outside `left` is retired. */
  ghost predicate Flagging(table: map<string, nat>, proxies: seq<Proxy>, left: set<string>) {
    && left <= table.Keys && TableNames(table, proxies)
    && (forall url | url in table && url !in left :: proxies[table[url]].retired)
  }

  /** What `ensure` leaves: the given names and no others, kept objects kept, rate and threads set, the rest retired. */
  ghost predicate Ensured(t0: map<string, nat>, table: map<string, nat>, proxies: seq<Proxy>,
                          urls: seq<string>, rate: real, wanted: int) {
    && (forall url :: url in table <==> url in urls)
    && (forall url | url in urls :: Sized(proxies, table[url], rate, wanted))
    && (forall url | url in t0 && url in urls :: table[url] == t0[url])
    && (forall url | url in t0 && url !in urls :: Out(proxies, t0[url], url))
  }

  lemma EnsuringDone(t0: map<string, nat>, n0: nat, table: map<string, nat>, proxies: seq<Proxy>,
                     urls: seq<string>, rate: real, wanted: int)
    requires Ensuring(t0, n0, table, proxies, urls, |urls|, rate, wanted)
    ensures Ensured(t0, table, proxies, urls, rate, wanted)
  {
    assert urls[..|urls|] == urls;
  }

  /** Partway through the first loop: `left` are the unwanted names still to go. */
  ghost predicate Retiring(t0: map<string, nat>, n0: nat, table: map<string, nat>, proxies: seq<Proxy>,
                           wanted: set<string>, left: set<string>) {
    && TableNames(table, proxies) && |proxies| == n0
    && left <= table.Keys && left !! wanted && table.Keys == t0.Keys * wanted + left
    && (forall url | url in table :: url in t0 && table[url] == t0[url])
    && (forall url | url in t0 :: t0[url] < n0 && proxies[t0[url]].url == url)
    && (forall url | url in t0 && url !in wanted && url !in left :: proxies[t0[url]].retired)
  }

  lemma RetiringTurn(t0: map<string, nat>, n0: nat, table: map<string, nat>, proxies: seq<Proxy>,
                     wanted: set<string>, left: set<string>, url: string)
    requires Retiring(t0, n0, table, proxies, wanted, left) && url in left
    ensures url in table && table[url] < |proxies|
    ensures Retiring(t0, n0, table - {url}, proxies[table[url] := proxies[table[url]].(retired := true)],
                     wanted, left - {url})
  {
  }

  /** Partway through the second loop: the first `i` names are configured, the unwanted stay out. */
  ghost predicate Ensuring(t0: map<string, nat>, n0: nat, table: map<string, nat>, proxies: seq<Proxy>,
                           urls: seq<string>, i: nat, rate: real, wanted: int) {
    && n0 <= |proxies| && i <= |urls|
    && table.Keys <= (set url | url in urls)
    && (forall url | url in t0 && url in urls :: url in table && table[url] == t0[url])
    && (forall url | url in urls[..i] :: url in table && Sized(proxies, table[url], rate, wanted))
    && (forall url | url in t0 && url !in urls :: Out(proxies, t0[url], url))
  }

  lemma EnsuringStart(t0: map<string, nat>, n0: nat, table: map<string, nat>, proxies: seq<Proxy>,
                      urls: seq<string>, rate: real, wanted: int)
    requires Retiring(t0, n0, table, proxies, set url | url in urls, {})
    ensures Ensuring(t0, n0, table, proxies, urls, 0, rate, wanted)
  {}

  /** A turn for `urls[i]` leaves the earlier proxies sized and the retired ones alone. */
  lemma EnsuringTurn(t: map<string, nat>, ps: seq<Proxy>, t': map<string, nat>, ps': seq<Proxy>,
                     urls: seq<string>, i: nat, rate: real, wanted: int, t0: map<string, nat>, n0: nat)
    requires i < |urls| && TableNames(t, ps) && TableNames(t', ps') && |ps| <= |ps'|
    requires t'.Keys == t.Keys + {urls[i]} && forall u | u in t :: t'[u] == t[u]
    requires forall p | 0 <= p < |ps| && p != t'[urls[i]] :: ps'[p] == ps[p]
    requires urls[i] !in t ==> t'[urls[i]] == |ps|
    requires Sized(ps', t'[urls[i]], rate, wanted)
    requires Ensuring(t0, n0, t, ps, urls, i, rate, wanted)
    ensures Ensuring(t0, n0, t', ps', urls, i + 1, rate, wanted)
  {
    var x := urls[i];
    assert urls[..i + 1] == urls[..i] + [x];
    forall url | url in urls[..i + 1] ensures url in t' && Sized(ps', t'[url], rate, wanted) {
      if url != x {
        assert url in urls[..i];
        assert ps[t[url]].url == url;
        if x in t { assert ps[t[x]].url == x; }
      }
    }
    forall url | url in t0 && url !in urls ensures Out(ps', t0[url], url) {
      assert Out(ps, t0[url], url) && x != url;
      if x in t { assert ps[t[x]].url == x; }
    }
  }

  /** Distinct configured names are distinct objects, each knowing its own name. */
  ghost predicate TableNames(table: map<string, nat>, proxies: seq<Proxy>) {
    forall url | url in table :: table[url] < |proxies| && proxies[table[url]].url == url
  }

  ghost predicate Sized(proxies: seq<Proxy>, p: nat, rate: real, wanted: int) {
    p < |proxies| && proxies[p].rate == rate && proxies[p].threads >= wanted
  }

  /** The object a name used to denote is retired for good. */
  ghost predicate Out(proxies: seq<Proxy>, p: nat, url: string) {
    p < |proxies| && proxies[p].url == url && proxies[p].retired
  }

  // --- the methods as runs ----------------------------------------------------------------

  lemma ReachHalt(s: State)
    requires Wf(s)
    ensures Wf(s.(stop := true)) && Reaches(s, s.(stop := true))
  {
    ReachSelf(s);
    ReachStep(s, s, Halt);
  }

  lemma ReachFlag(s: State, m: State, p: nat)
    requires Reaches(s, m) && Wf(m) && m.stop && p < |m.proxies|
    ensures Wf(Flagged(m, p)) && Reaches(s, Flagged(m, p))
  {
    ReachStep(s, m, RetireObject(p));
  }

  lemma ReachRetire(s: State, m: State, url: string)
    requires Reaches(s, m) && Wf(m) && url in m.table && m.table[url] < |m.proxies|
    ensures var r := Flagged(m, m.table[url]).(table := m.table - {url}); Wf(r) && Reaches(s, r)
  {
    ReachStep(s, m, Retire(url));
  }

  lemma ReachConfigure(s: State, url: string, rate: real)
    requires Wf(s) && rate > 0.0
    ensures Wf(Configured(s, url, rate)) && Reaches(s, Configured(s, url, rate))
  {
    ReachSelf(s);
    ReachStep(s, s, Configure(url, rate));
  }

  lemma ReachSpawn(s: State, m: State, url: string)
    requires Reaches(s, m) && Wf(m) && url in m.table && m.table[url] < |m.proxies|
    ensures Wf(Spawned(m, url)) && Reaches(s, Spawned(m, url))
  {
    ReachStep(s, m, Spawn(url));
  }

  /** A submission whose two steps follow one another. */
  function Queued(s: State, lane: Lane, body: nat): State {
    Drawn(s, lane, body).(
      queue := s.queue + multiset{Entry(LanePriority(lane), s.nextSeq, |s.futures|)},
      threads := s.threads + [Thread(Submitter, Submitted)])
  }

  lemma ReachSubmit(s: State, lane: Lane, body: nat)
    requires Wf(s)
    ensures Wf(Queued(s, lane, body)) && Reaches(s, Queued(s, lane, body))
  {
    var d, t := Drawn(s, lane, body), |s.threads|;
    ReachSelf(s);
    ReachStep(s, s, Draw(lane, body));
    SubmitterPuts(d, t);
    ReachStep(s, d, Step(t, Quiet));
    assert d.threads[t := Thread(Submitter, Submitted)] == s.threads + [Thread(Submitter, Submitted)];
  }

  lemma SubmitterPuts(d: State, t: nat)
    requires Wf(d) && t < |d.threads| && d.threads[t].pc.Drew?
    ensures Enabled(d, Step(t, Quiet))
    ensures Apply(d, Step(t, Quiet))
         == d.(queue := d.queue + multiset{d.threads[t].pc.e},
               threads := d.threads[t := d.threads[t].(pc := Submitted)])
  {
    assert Move(d, t, Quiet) == (Put(d.threads[t].pc.e), Submitted);
  }
}
