/**
 The settings override cache of one replica: a 30-second cache, one shared load at a time, and writes that drop
 the cache. JavaScript between awaits is one step; the query, the `then` and the `finally` of a load are three.
 The table is the list of its committed contents, so a version is a place in that list.
 */
module SettingsCache {
  import opened Options

  type Table = map<string, string>

  const CACHE_TTL_MS := 30_000

  /** What a load returned, with its history: when it was asked for, and when it read which version of the table. */
  datatype Snapshot = Snapshot(rows: Table, good: bool, version: nat, issued: int, readAt: int)

  /** The service's own fields; a load is named by its number. */
  datatype Memory = Memory(cache: Option<Snapshot>, loadedAt: int, inflight: Option<nat>)

  datatype Answer = FromCache(snap: Snapshot) | Joins(load: nat) | Issues(load: nat)

  predicate Fresh(m: Memory, now: int) { m.cache.Some? && now - m.loadedAt < CACHE_TTL_MS }

  function Answered(m: Memory, now: int, next: nat): Answer {
    if Fresh(m, now) then FromCache(m.cache.value)
    else if m.inflight.Some? then Joins(m.inflight.value)
    else Issues(next)
  }

  function AfterCall(m: Memory, now: int, next: nat): Memory {
    if Answered(m, now, next).Issues? then m.(inflight := Some(next)) else m
  }

  function AfterThen(m: Memory, snap: Snapshot, now: int): Memory { m.(cache := Some(snap), loadedAt := now) }

  function AfterFinally(m: Memory): Memory { m.(inflight := None) }

  function AfterInvalidate(m: Memory): Memory { m.(cache := None, loadedAt := 0) }

  /** `PlatformSettingsService`, step by step. */
  class PlatformSettings {
    var cache: Option<Snapshot>
    var cacheLoadedAt: int
    var inflight: Option<nat>

    ghost function Mem(): Memory
      reads this
    {
      Memory(cache, cacheLoadedAt, inflight)
    }

    constructor ()
      ensures Mem() == Memory(None, 0, None)
    {
      cache, cacheLoadedAt, inflight := None, 0, None;
    }

    /** `next` numbers a query issued now. */
    method LoadOverrides(now: int, next: nat) returns (a: Answer)
      modifies this
      ensures a == Answered(old(Mem()), now, next) && Mem() == AfterCall(old(Mem()), now, next)
    {
      if cache.Some? && now - cacheLoadedAt < CACHE_TTL_MS {
        return FromCache(cache.value);
      }
      if inflight.Some? {
        return Joins(inflight.value);
      }
      inflight := Some(next);
      a := Issues(next);
    }

    method Then(loaded: Snapshot, now: int)
      modifies this
      ensures Mem() == AfterThen(old(Mem()), loaded, now)
    {
      cache := Some(loaded);
      cacheLoadedAt := now;
    }

    method Finally()
      modifies this
      ensures Mem() == AfterFinally(old(Mem()))
    {
      inflight := None;
    }

    method Invalidate()
      modifies this
      ensures Mem() == AfterInvalidate(old(Mem()))
    {
      cache := None;
      cacheLoadedAt := 0;
    }
  }

  // --- the replica, its loads and the table ----------------------------------------------------

  datatype Phase = Asking | Read | Stored | Finished

  /** A call that shares a load: which call it was, and when. */
  datatype Waiter = Waiter(call: nat, at: int)

  /** `waiting` holds the calls that share this load; `snap` counts once it has read. */
  datatype Load = Load(issued: int, phase: Phase, snap: Snapshot, waiting: seq<Waiter>)

  /**
   A call that has its overrides: which call it was, when it was made and answered, and when what it got went into
   the cache.
   */
  datatype Served =
    | Cached(snap: Snapshot, call: nat, at: int, loadedAt: int)
    | Shared(snap: Snapshot, call: nat, called: int, at: int)

  datatype State = State(
    now: int, tables: seq<Table>, mem: Memory, loads: seq<Load>, calls: nat, served: seq<Served>)

  datatype Event =
    | Tick(ms: nat) | Commit(table: Table) | Call | Query(load: nat, ok: bool) | Then(load: nat) | Finally(load: nat)
    | Invalidate

  const NOTHING := Snapshot(map[], false, 0, 0, 0)

  predicate Enabled(s: State, e: Event) {
    match e
    case Query(k, _) => k < |s.loads| && s.loads[k].phase == Asking
    case Then(k) => k < |s.loads| && s.loads[k].phase == Read
    case Finally(k) => k < |s.loads| && s.loads[k].phase == Stored
    case _ => true
  }

  function Deliver(snap: Snapshot, waiting: seq<Waiter>, at: int): seq<Served> {
    seq(|waiting|, i requires 0 <= i < |waiting| => Shared(snap, waiting[i].call, waiting[i].at, at))
  }

  function Take(s: State): State {
    match Answered(s.mem, s.now, |s.loads|)
    case FromCache(snap) =>
      s.(calls := s.calls + 1, served := s.served + [Cached(snap, s.calls, s.now, s.mem.loadedAt)])
    case Joins(k) =>
      if k < |s.loads| then
        var l := s.loads[k];
        s.(calls := s.calls + 1, loads := s.loads[k := l.(waiting := l.waiting + [Waiter(s.calls, s.now)])])
      else s
    case Issues(_) =>
      s.(calls := s.calls + 1, mem := AfterCall(s.mem, s.now, |s.loads|),
         loads := s.loads + [Load(s.now, Asking, NOTHING, [Waiter(s.calls, s.now)])])
  }

  /** A failed query counts as no overrides at all. */
  function Snap(s: State, issued: int, ok: bool): Snapshot
    requires s.tables != []
  {
    Snapshot(if ok then s.tables[|s.tables| - 1] else map[], ok, |s.tables| - 1, issued, s.now)
  }

  function Step(s: State, e: Event): State
    requires s.tables != []
    ensures Step(s, e).tables != []
  {
    if !Enabled(s, e) then s
    else
      match e
      case Tick(ms) => s.(now := s.now + ms)
      case Commit(table) => s.(tables := s.tables + [table])
      case Call => Take(s)
      case Query(k, ok) =>
        s.(loads := s.loads[k := s.loads[k].(phase := Read, snap := Snap(s, s.loads[k].issued, ok))])
      case Then(k) =>
        s.(mem := AfterThen(s.mem, s.loads[k].snap, s.now), loads := s.loads[k := s.loads[k].(phase := Stored)])
      case Finally(k) =>
        s.(mem := AfterFinally(s.mem), loads := s.loads[k := s.loads[k].(phase := Finished, waiting := [])],
           served := s.served + Deliver(s.loads[k].snap, s.loads[k].waiting, s.now))
      case Invalidate => s.(mem := AfterInvalidate(s.mem))
  }

  function Run(s: State, events: seq<Event>): State
    requires s.tables != []
    ensures Run(s, events).tables != []
    decreases events
  {
    if events == [] then s else Run(Step(s, events[0]), events[1..])
  }

  function Start(table: Table, now: nat): State { State(now, [table], Memory(None, 0, None), [], 0, []) }

  // --- what every step keeps --------------------------------------------------------------------

  /** The snapshot is a committed table, or empty after a failed query, read after it was asked for. */
  predicate Honest(s: State, snap: Snapshot) {
    && snap.version < |s.tables| && snap.rows == (if snap.good then s.tables[snap.version] else map[])
    && snap.issued <= snap.readAt <= s.now
  }

  predicate LoadOk(s: State, k: nat)
    requires k < |s.loads|
  {
    var l := s.loads[k];
    && l.issued <= s.now
    && (l.phase == Finished <==> s.mem.inflight != Some(k))
    && (l.phase != Asking ==> Honest(s, l.snap) && l.snap.issued == l.issued)
    && (l.phase == Finished ==> l.waiting == [])
    && forall i | 0 <= i < |l.waiting| :: l.issued <= l.waiting[i].at <= s.now && l.waiting[i].call < s.calls
  }

  /**
   How old an answer can be: a cached one 30 seconds plus its load's duration, a shared one was read by the load it
   shares.
   */
  predicate ServedOk(s: State, v: Served) {
    && Honest(s, v.snap) && v.call < s.calls
    && match v
       case Cached(snap, _, at, loadedAt) => at - snap.readAt < CACHE_TTL_MS + (loadedAt - snap.issued) && at <= s.now
       case Shared(snap, _, called, at) => snap.issued <= called <= at && snap.readAt <= at <= s.now
  }

  predicate CacheOk(s: State) {
    s.mem.cache.Some? ==> Honest(s, s.mem.cache.value) && s.mem.cache.value.readAt <= s.mem.loadedAt <= s.now
  }

  function Pending(s: State): nat {
    match s.mem.inflight
    case None => 0
    case Some(k) => if k < |s.loads| then |s.loads[k].waiting| else 0
  }

  predicate Inv(s: State) {
    && s.tables != [] && CacheOk(s)
    && (s.mem.inflight.Some? ==> s.mem.inflight.value < |s.loads|)
    && (forall k | 0 <= k < |s.loads| :: LoadOk(s, k))
    && (forall i | 0 <= i < |s.served| :: ServedOk(s, s.served[i]))
    && s.calls == |s.served| + Pending(s)
  }

  lemma StartOk(table: Table, now: nat)
    ensures Inv(Start(table, now))
  {}

  predicate Extends(s: State, t: State) { s.tables <= t.tables && s.now <= t.now && s.calls <= t.calls }

  lemma StillHonest(s: State, t: State, snap: Snapshot)
    requires Extends(s, t) && Honest(s, snap)
    ensures Honest(t, snap)
  {
    assert t.tables[snap.version] == s.tables[snap.version];
  }

  lemma StillServed(s: State, t: State, v: Served)
    requires Extends(s, t) && ServedOk(s, v)
    ensures ServedOk(t, v)
  {
    StillHonest(s, t, v.snap);
  }

  lemma AllServedStill(s: State, t: State)
    requires Extends(s, t) && t.served == s.served && forall i | 0 <= i < |s.served| :: ServedOk(s, s.served[i])
    ensures forall i | 0 <= i < |t.served| :: ServedOk(t, t.served[i])
  {
    forall i | 0 <= i < |t.served|
      ensures ServedOk(t, t.served[i])
    {
      StillServed(s, t, s.served[i]);
    }
  }

  /** A load this step does not touch. */
  lemma LoadStill(s: State, t: State, k: nat)
    requires Extends(s, t) && k < |s.loads| && k < |t.loads| && t.loads[k] == s.loads[k] && LoadOk(s, k)
    requires s.mem.inflight == Some(k) <==> t.mem.inflight == Some(k)
    ensures LoadOk(t, k)
  {
    if s.loads[k].phase != Asking { StillHonest(s, t, s.loads[k].snap); }
  }

  /** Time passing, or a commit anywhere. */
  lemma OutsideKeeps(s: State, t: State)
    requires Inv(s) && Extends(s, t)
    requires t.mem == s.mem && t.loads == s.loads && t.served == s.served && t.calls == s.calls
    ensures Inv(t)
  {
    hide Honest, LoadOk, ServedOk;
    AllServedStill(s, t);
    forall k | 0 <= k < |t.loads|
      ensures LoadOk(t, k)
    {
      LoadStill(s, t, k);
    }
    if s.mem.cache.Some? { StillHonest(s, t, s.mem.cache.value); }
  }

  lemma InvalidateKeeps(s: State)
    requires Inv(s)
    ensures Inv(s.(mem := AfterInvalidate(s.mem)))
  {
    hide Honest, ServedOk;
    var t := s.(mem := AfterInvalidate(s.mem));
    AllServedStill(s, t);
    forall k | 0 <= k < |t.loads|
      ensures LoadOk(t, k)
    {
      LoadStill(s, t, k);
    }
  }

  lemma CachedKeeps(s: State)
    requires Inv(s) && Fresh(s.mem, s.now)
    ensures Inv(Take(s))
  {
    hide Honest;
    var t := Take(s);
    forall k | 0 <= k < |t.loads|
      ensures LoadOk(t, k)
    {
      LoadStill(s, t, k);
    }
    forall i | 0 <= i < |s.served|
      ensures ServedOk(t, s.served[i])
    {
      StillServed(s, t, s.served[i]);
    }
    StillHonest(s, t, s.mem.cache.value);
    CachedIsRecent(s, t);
  }

  lemma CachedIsRecent(s: State, t: State)
    requires CacheOk(s) && Fresh(s.mem, s.now) && Extends(s, t) && s.calls < t.calls
    ensures ServedOk(t, Cached(s.mem.cache.value, s.calls, s.now, s.mem.loadedAt))
  {
    StillHonest(s, t, s.mem.cache.value);
  }

  lemma JoinKeeps(s: State)
    requires Inv(s) && !Fresh(s.mem, s.now) && s.mem.inflight.Some?
    ensures Inv(Take(s))
  {
    hide Honest, ServedOk;
    var t, j := Take(s), s.mem.inflight.value;
    AllServedStill(s, t);
    forall k | 0 <= k < |t.loads|
      ensures LoadOk(t, k)
    {
      if k == j { JoinedLoad(s, t, k); } else { LoadStill(s, t, k); }
    }
    if s.mem.cache.Some? { StillHonest(s, t, s.mem.cache.value); }
  }

  lemma JoinedLoad(s: State, t: State, k: nat)
    requires k < |s.loads| && LoadOk(s, k) && s.mem.inflight == Some(k)
    requires var l := s.loads[k];
             t == s.(calls := s.calls + 1, loads := s.loads[k := l.(waiting := l.waiting + [Waiter(s.calls, s.now)])])
    ensures LoadOk(t, k)
  {
    if s.loads[k].phase != Asking { StillHonest(s, t, s.loads[k].snap); }
  }

  lemma IssueKeeps(s: State)
    requires Inv(s) && !Fresh(s.mem, s.now) && s.mem.inflight.None?
    ensures Inv(Take(s))
  {
    hide Honest, ServedOk;
    var t := Take(s);
    AllServedStill(s, t);
    forall k | 0 <= k < |t.loads|
      ensures LoadOk(t, k)
    {
      if k < |s.loads| { LoadStill(s, t, k); }
    }
    if s.mem.cache.Some? { StillHonest(s, t, s.mem.cache.value); }
  }

  lemma TakeKeeps(s: State)
    requires Inv(s)
    ensures Inv(Take(s)) && Take(s).calls == s.calls + 1
  {
    hide Inv, Fresh;
    if Fresh(s.mem, s.now) {
      CachedKeeps(s);
    } else if s.mem.inflight.Some? {
      JoinKeeps(s);
      InflightIsLoad(s);
    } else {
      IssueKeeps(s);
    }
  }

  lemma InflightIsLoad(s: State)
    requires Inv(s) && s.mem.inflight.Some?
    ensures s.mem.inflight.value < |s.loads|
  {}

  /** A step of one load: the others stay as they are. */
  lemma LoadStepKeeps(s: State, t: State, k: nat)
    requires Inv(s) && k < |s.loads| && |t.loads| == |s.loads| && Extends(s, t)
    requires forall j | 0 <= j < |s.loads| && j != k :: t.loads[j] == s.loads[j]
    requires t.mem.inflight == s.mem.inflight == Some(k) || (s.mem.inflight == Some(k) && t.mem.inflight == None)
    requires LoadOk(t, k)
    ensures forall j | 0 <= j < |t.loads| :: LoadOk(t, j)
  {
    hide LoadOk;
    forall j | 0 <= j < |t.loads|
      ensures LoadOk(t, j)
    {
      if j != k { LoadStill(s, t, j); }
    }
  }

  lemma QueryKeeps(s: State, k: nat, ok: bool)
    requires Inv(s) && Enabled(s, Query(k, ok))
    ensures Inv(Step(s, Query(k, ok)))
  {
    hide ServedOk;
    var t := Step(s, Query(k, ok));
    assert LoadOk(s, k) && s.mem.inflight == Some(k);
    AllServedStill(s, t);
    LoadStepKeeps(s, t, k);
  }

  lemma ThenKeeps(s: State, k: nat)
    requires Inv(s) && Enabled(s, Then(k))
    ensures Inv(Step(s, Then(k)))
  {
    hide ServedOk;
    var t := Step(s, Then(k));
    assert LoadOk(s, k) && s.mem.inflight == Some(k);
    AllServedStill(s, t);
    LoadStepKeeps(s, t, k);
  }

  lemma FinallyKeeps(s: State, k: nat)
    requires Inv(s) && Enabled(s, Finally(k))
    ensures Inv(Step(s, Finally(k)))
  {
    hide Honest;
    var t := Step(s, Finally(k));
    var l := s.loads[k];
    assert LoadOk(s, k) && s.mem.inflight == Some(k);
    StillHonest(s, t, l.snap);
    LoadStepKeeps(s, t, k);
    forall i | 0 <= i < |s.served|
      ensures ServedOk(t, s.served[i])
    {
      StillServed(s, t, s.served[i]);
    }
    DeliveredOk(s, t, k);
    if s.mem.cache.Some? { StillHonest(s, t, s.mem.cache.value); }
  }

  lemma DeliveredOk(s: State, t: State, k: nat)
    requires k < |s.loads| && LoadOk(s, k) && s.loads[k].phase == Stored && Honest(t, s.loads[k].snap)
    requires t.now == s.now && t.calls == s.calls
    ensures forall v | v in Deliver(s.loads[k].snap, s.loads[k].waiting, s.now) :: ServedOk(t, v)
  {}

  lemma TableIsThere(s: State)
    requires Inv(s)
    ensures s.tables != []
  {}

  /** Every step keeps the invariant, whatever the interleaving. */
  lemma StepKeeps(s: State, e: Event)
    requires Inv(s)
    ensures Inv(Step(s, e))
  {
    TableIsThere(s);
    hide Inv, Take;
    if Enabled(s, e) {
      match e
      case Tick(_) => OutsideKeeps(s, Step(s, e));
      case Commit(table) => OutsideKeeps(s, Step(s, e));
      case Call => TakeKeeps(s);
      case Query(k, ok) => QueryKeeps(s, k, ok);
      case Then(k) => ThenKeeps(s, k);
      case Finally(k) => FinallyKeeps(s, k);
      case Invalidate => InvalidateKeeps(s);
    }
  }

  /** From an empty cache, every run keeps the invariant. */
  lemma {:induction false} RunKeeps(s: State, events: seq<Event>)
    requires Inv(s)
    ensures Inv(Run(s, events))
    decreases events
  {
    TableIsThere(s);
    hide Inv, Step;
    if events == [] {
    } else {
      StepKeeps(s, events[0]);
      RunKeeps(Step(s, events[0]), events[1..]);
    }
  }

  // --- how old an answer is, and who shares a load -------------------------------------------------

  predicate Unfinished(s: State, k: nat) { k < |s.loads| && s.loads[k].phase != Finished }

  /** In every run: what a call got was a committed table or, after a failed query, nothing, and this recent. */
  lemma {:induction false} AnswersAreRecent(table: Table, now: nat, events: seq<Event>, i: nat)
    requires i < |Run(Start(table, now), events).served|
    ensures var s := Run(Start(table, now), events);
            var v := s.served[i];
            && v.snap.version < |s.tables| && (v.snap.good ==> v.snap.rows == s.tables[v.snap.version])
            && (v.Cached? ==> v.at - v.snap.readAt < 30_000 + (v.loadedAt - v.snap.issued))
            && (v.Shared? ==> v.snap.issued <= v.called && v.snap.issued <= v.snap.readAt <= v.at)
  {
    hide Run;
    StartOk(table, now);
    RunKeeps(Start(table, now), events);
    var s := Run(Start(table, now), events);
    assert ServedOk(s, s.served[i]);
  }

  /** In every run: one unfinished load at most, and every call is answered or waits for it. */
  lemma {:induction false} OneFlight(table: Table, now: nat, events: seq<Event>, j: nat, k: nat)
    requires Unfinished(Run(Start(table, now), events), j) && Unfinished(Run(Start(table, now), events), k)
    ensures j == k
    ensures var s := Run(Start(table, now), events);
            s.mem.inflight == Some(k) && s.calls == |s.served| + |s.loads[k].waiting|
  {
    hide Run;
    StartOk(table, now);
    RunKeeps(Start(table, now), events);
    var s := Run(Start(table, now), events);
    assert LoadOk(s, j) && LoadOk(s, k);
  }

  // --- how long a load serves -----------------------------------------------------------------------

  /** Nothing that replaces or drops the cache. */
  predicate Calm(events: seq<Event>) { forall e | e in events :: !e.Then? && !e.Invalidate? }

  lemma {:induction false} CalmKeepsCache(s: State, events: seq<Event>)
    requires s.tables != [] && Calm(events)
    ensures var t := Run(s, events); t.mem.cache == s.mem.cache && t.mem.loadedAt == s.mem.loadedAt
    decreases |events|
  {
    if events == [] {
    } else {
      CalmStep(s, events[0]);
      hide Step;
      CalmKeepsCache(Step(s, events[0]), events[1..]);
    }
  }

  lemma CalmStep(s: State, e: Event)
    requires s.tables != [] && !e.Then? && !e.Invalidate?
    ensures var t := Step(s, e); t.mem.cache == s.mem.cache && t.mem.loadedAt == s.mem.loadedAt
  {}

  /**
   What a load returned answers every call of the next 30 seconds without another query, and none after, until it is
   replaced or dropped.
   */
  lemma {:induction false} LoadServes30Seconds(s: State, k: nat, events: seq<Event>)
    requires s.tables != [] && k < |s.loads| && s.loads[k].phase == Read && Calm(events)
    ensures var t := Run(Step(s, Then(k)), events);
            var u := Step(t, Call);
            if t.now < s.now + 30_000 then
              u.served == t.served + [Cached(s.loads[k].snap, t.calls, t.now, s.now)] && u.loads == t.loads
            else
              u.served == t.served
  {
    hide Run;
    CalmKeepsCache(Step(s, Then(k)), events);
  }

  /** A call the cache does not answer joins the load under way; only without one does it ask again. */
  lemma {:induction false} CallJoinsOrAsks(table: Table, now: nat, events: seq<Event>)
    requires Run(Start(table, now), events).mem.cache == None
    ensures var s := Run(Start(table, now), events);
            var t := Step(s, Call);
            && t.served == s.served && t.calls == s.calls + 1
            && (forall k: nat | Unfinished(s, k) ::
                  t.loads == s.loads[k := s.loads[k].(waiting := s.loads[k].waiting + [Waiter(s.calls, s.now)])])
            && ((forall k | 0 <= k < |s.loads| :: s.loads[k].phase == Finished) ==>
                  t.loads == s.loads + [Load(s.now, Asking, NOTHING, [Waiter(s.calls, s.now)])])
  {
    hide Run;
    StartOk(table, now);
    RunKeeps(Start(table, now), events);
    var s := Run(Start(table, now), events);
    forall k | 0 <= k < |s.loads| ensures s.loads[k].phase == Finished <==> s.mem.inflight != Some(k) {
      assert LoadOk(s, k);
    }
    assert s.mem.inflight.Some? ==> Unfinished(s, s.mem.inflight.value);
    hide LoadOk, ServedOk, Honest, CacheOk;
  }

  // --- which writes are seen -----------------------------------------------------------------------

  /** No load whose query has run missed version `v`. */
  predicate Quiet(s: State, v: nat) {
    forall k | 0 <= k < |s.loads| && (s.loads[k].phase == Read || s.loads[k].phase == Stored) ::
      s.loads[k].snap.version >= v
  }

  predicate Sees(s: State, v: nat) {
    v < |s.tables| && Quiet(s, v) && (s.mem.cache.Some? ==> s.mem.cache.value.version >= v)
  }

  /** Answers from place `from` on hold version `v` or a later one. */
  predicate SeenSince(s: State, from: nat, v: nat) {
    from <= |s.served| && forall i | from <= i < |s.served| :: s.served[i].snap.version >= v
  }

  lemma SeesStep(s: State, e: Event, v: nat)
    requires Inv(s) && Sees(s, v)
    ensures Sees(Step(s, e), v) && SeenSince(Step(s, e), |s.served|, v) && s.served <= Step(s, e).served
  {
    hide LoadOk, ServedOk, Honest, CacheOk;
    var t := Step(s, e);
    if Enabled(s, e) && e.Call? {
      SeesTake(s, v);
    }
  }

  lemma SeesTake(s: State, v: nat)
    requires Inv(s) && Sees(s, v)
    ensures Sees(Take(s), v) && SeenSince(Take(s), |s.served|, v) && s.served <= Take(s).served
  {
    hide LoadOk, ServedOk, Honest, CacheOk;
  }

  predicate RunSees(s: State, v: nat, events: seq<Event>)
    requires s.tables != []
  {
    SeenSince(Run(s, events), |s.served|, v)
  }

  /** Answers to calls made from here on hold version `v` or a later one. */
  predicate LaterSee(s: State, v: nat, events: seq<Event>)
    requires s.tables != []
  {
    var u := Run(s, events);
    forall i | 0 <= i < |u.served| && u.served[i].call >= s.calls :: u.served[i].snap.version >= v
  }

  /** If every answer from here on does, those to later calls do: whatever was answered before was called before. */
  lemma {:induction false} LaterSeeToo(s: State, v: nat, events: seq<Event>)
    requires Inv(s) && s.tables != [] && RunSees(s, v, events) && s.served <= Run(s, events).served
    ensures LaterSee(s, v, events)
  {
    hide Run, Honest, LoadOk;
    var u := Run(s, events);
    assert forall i | 0 <= i < |s.served| :: u.served[i] == s.served[i] && ServedOk(s, s.served[i]);
  }

  lemma {:induction false} SeesRun(s: State, v: nat, events: seq<Event>)
    requires Inv(s) && Sees(s, v)
    ensures s.tables != [] && RunSees(s, v, events) && s.served <= Run(s, events).served
    decreases events
  {
    TableIsThere(s);
    hide Inv, Sees, Step;
    if events == [] {
    } else {
      var t := Step(s, events[0]);
      StepKeeps(s, events[0]);
      SeesStep(s, events[0], v);
      SeesRun(t, v, events[1..]);
      var u := Run(s, events);
      assert u == Run(t, events[1..]);
      assert forall i | |s.served| <= i < |t.served| :: u.served[i] == t.served[i];
    }
  }

  lemma {:induction false} RunOne(s: State, e: Event)
    requires s.tables != []
    ensures Run(s, [e]) == Step(s, e)
  {
    assert [e][1..] == [];
  }

  lemma {:induction false} RunTwo(s: State, e: Event, f: Event)
    requires s.tables != []
    ensures Run(s, [e, f]) == Step(Step(s, e), f)
  {
    assert [e, f][1..] == [f];
    RunOne(Step(s, e), f);
  }

  /** A load that read before the commit puts its old answer into the cache that was just dropped. */
  lemma StaleAfterRead(s: State, k: nat, v: nat)
    requires Inv(s) && k < |s.loads| && s.loads[k].phase == Read && s.loads[k].snap.version < v
    ensures var t := s.(mem := AfterInvalidate(s.mem)); t.tables != [] && !LaterSee(t, v, [Then(k), Call])
  {
    hide LoadOk, ServedOk, Honest, CacheOk;
    var t := s.(mem := AfterInvalidate(s.mem));
    RunTwo(t, Then(k), Call);
    var u := Step(t, Then(k));
    assert Fresh(u.mem, u.now) && u.mem.cache == Some(s.loads[k].snap);
    var w := Step(u, Call);
    assert w.served[|s.served|] == Cached(s.loads[k].snap, u.calls, u.now, u.mem.loadedAt);
  }

  /** One that has stored it already still hands it to a call that comes before its `finally`. */
  lemma StaleAfterThen(s: State, k: nat, v: nat)
    requires Inv(s) && k < |s.loads| && s.loads[k].phase == Stored && s.loads[k].snap.version < v
    ensures var t := s.(mem := AfterInvalidate(s.mem)); t.tables != [] && !LaterSee(t, v, [Call, Finally(k)])
  {
    hide ServedOk, Honest, CacheOk;
    assert LoadOk(s, k);
    var t := s.(mem := AfterInvalidate(s.mem));
    RunTwo(t, Call, Finally(k));
    var u := Step(t, Call);
    assert u.loads[k].waiting == s.loads[k].waiting + [Waiter(s.calls, s.now)];
    var w := Step(u, Finally(k));
    var i := |s.served| + |s.loads[k].waiting|;
    assert w.served[i].snap == s.loads[k].snap && w.served[i].call == s.calls;
  }

  /**
   A write committed as version `v` is seen by every later call on this replica, whatever happens next, if and
   only if no load that has already read an older version is under way when its invalidate runs. If none is, earlier
   calls that are still waiting see it too.
   */
  lemma WriteIsSeen(s: State, v: nat)
    requires Inv(s) && v < |s.tables|
    ensures (forall events :: LaterSee(Step(s, Invalidate), v, events)) <==> Quiet(s, v)
    ensures Quiet(s, v) ==> forall events :: RunSees(Step(s, Invalidate), v, events)
  {
    hide LoadOk, ServedOk, Honest, CacheOk, RunSees, LaterSee, Run;
    var t := Step(s, Invalidate);
    StepKeeps(s, Invalidate);
    if Quiet(s, v) {
      forall events
        ensures RunSees(t, v, events) && LaterSee(t, v, events)
      {
        SeesRun(t, v, events);
        LaterSeeToo(t, v, events);
      }
    } else {
      var k :| 0 <= k < |s.loads| && (s.loads[k].phase == Read || s.loads[k].phase == Stored)
               && s.loads[k].snap.version < v;
      if s.loads[k].phase == Read { StaleAfterRead(s, k, v); } else { StaleAfterThen(s, k, v); }
    }
  }

  lemma IdleIsFinished(s: State)
    requires Inv(s) && s.mem.inflight.None?
    ensures forall k | 0 <= k < |s.loads| :: s.loads[k].phase == Finished
  {
    forall k | 0 <= k < |s.loads|
      ensures s.loads[k].phase == Finished
    {
      assert LoadOk(s, k);
      assert s.mem.inflight != Some(k);
    }
  }

  /** With no load in flight at all, it is. */
  lemma IdleWriteIsSeen(s: State, v: nat, events: seq<Event>)
    requires Inv(s) && v < |s.tables| && s.mem.inflight.None?
    ensures RunSees(Step(s, Invalidate), v, events)
  {
    hide RunSees, Run;
    IdleIsFinished(s);
    WriteIsSeen(s, v);
  }

  // --- such a state is reached ----------------------------------------------------------------------

  lemma {:induction false} RunCons(s: State, e: Event, rest: seq<Event>)
    requires s.tables != []
    ensures Run(s, [e] + rest) == Run(Step(s, e), rest)
  {
    hide Step;
    assert ([e] + rest)[1..] == rest;
  }

  /** One load has asked and read; then the write is committed. */
  function Caught(table: Table, newer: Table, now: nat): State {
    var snap := Snapshot(table, true, 0, now, now);
    State(now, [table, newer], Memory(None, 0, Some(0)), [Load(now, Read, snap, [Waiter(0, now)])], 1, [])
  }

  lemma CaughtIsReached(table: Table, newer: Table, now: nat)
    ensures Run(Start(table, now), [Call, Query(0, true), Commit(newer)]) == Caught(table, newer, now)
  {
    var s0 := Start(table, now);
    var s1 := Step(s0, Call);
    assert s1.loads == [Load(now, Asking, NOTHING, [Waiter(0, now)])];
    var s2 := Step(s1, Query(0, true));
    assert s2.loads == [Load(now, Read, Snapshot(table, true, 0, now, now), [Waiter(0, now)])];
    hide Step, Run;
    assert [Call, Query(0, true), Commit(newer)] == [Call] + [Query(0, true), Commit(newer)];
    RunCons(s0, Call, [Query(0, true), Commit(newer)]);
    RunTwo(s1, Query(0, true), Commit(newer));
    CommitCatches(s2, table, newer, now);
  }

  lemma CommitCatches(s: State, table: Table, newer: Table, now: nat)
    requires s == Caught(table, newer, now).(tables := [table])
    ensures s.tables != [] && Step(s, Commit(newer)) == Caught(table, newer, now)
  {}

  /** From an empty cache: a write whose invalidate comes at that point is missed by the very next cached answer. */
  lemma {:induction false} MissedWriteIsReached(table: Table, newer: Table, now: nat)
    ensures var s := Run(Start(table, now), [Call, Query(0, true), Commit(newer)]);
            var u := Run(Step(s, Invalidate), [Then(0), Call]);
            && s.tables == [table, newer] && !Quiet(s, 1)
            && u.tables == [table, newer] && |u.served| == 1 && u.served[0].call == s.calls == 1
            && u.served[0].Cached? && u.served[0].snap.rows == table
  {
    CaughtIsReached(table, newer, now);
    var s := Caught(table, newer, now);
    assert s.loads[0].phase == Read && s.loads[0].snap.version == 0;
    var t := Step(s, Invalidate);
    RunTwo(t, Then(0), Call);
    var v := Step(t, Then(0));
    assert Fresh(v.mem, v.now);
  }
}
