/**
 The proxy pool as a transition system. One step is one atomic operation of one
 thread: a lock section, a queue operation, a future operation or a clock read
 together with the branch it decides. Threads are submitters, workers bound to
 one proxy object for life, waiters and reporters of requests that had no proxy.
 Fields called `log`, `slots` and `answers` are history: nothing reads them back.
 */
module PoolState {
  import opened Numbers
  import opened Options

  datatype Lane = Interactive | Browse | Background | Crawl

  function LanePriority(lane: Lane): nat {
    match lane
    case Interactive => 0
    case Browse => 1
    case Background => 2
    case Crawl => 3
  }

  /** The outcomes the stats know, and one for anything else a fetcher may answer. */
  datatype Outcome = Found | NotFound | Blocked | ParseFailed | NoProxy | Expired | ProxyError | Unlisted

  /** What the caller sees: the two stat-only outcomes read as blocked. */
  function Wire(outcome: Outcome): Outcome {
    if outcome == Expired || outcome == ProxyError then Blocked else outcome
  }

  /** A wire result: the caller-shaped body (ASIN dictionary or list page) and its outcome. */
  datatype Result = Result(body: nat, outcome: Outcome)

  /** A queue tuple: priority, sequence number, and the task, named by its future. */
  datatype Entry = Entry(lane: nat, no: nat, fut: nat)

  datatype Future = Future(entry: Entry, deadline: real, body: nat, result: Option<Result>)

  datatype Slot = Slot(at: real, gap: real, madeAt: real)

  datatype Proxy = Proxy(
    url: string, rate: real, nextSlot: real, streak: nat, coolUntil: real, retired: bool, threads: nat,
    slots: seq<Slot>, answers: seq<bool>)

  datatype Event = Event(ts: real, outcome: Outcome, proxy: Option<nat>, latency: Option<real>)

  datatype Logged = Logged(event: Event, task: bool)

  datatype Role = Submitter | Worker(proxy: nat) | Waiter(fut: nat) | Reporter

  datatype Pc =
    // submit
    | Drew(e: Entry) | Submitted
    // worker
    | Top | Cool | Getting
    | Pulled(e: Entry) | Returning(e: Entry) | Holding(e: Entry) | Live(e: Entry) | Lapsed(e: Entry)
    | Turn(e: Entry) | Sleeping(e: Entry, slot: real) | Woken(e: Entry) | Cleared(e: Entry)
    | Fetching(e: Entry, started: real)
    | Fetched(e: Entry, outcome: Outcome, counts: bool, body: nat, latency: real)
    | Resolving(e: Entry, outcome: Outcome, result: Result, latency: real)
    | Exited
    // waiter
    | Waiting(until: real) | TimedOut | Reaping | Returned(result: Result)
    // anyone who resolved a future, between the resolve and the recorded event
    | Settled(outcome: Outcome, via: Option<nat>, took: Option<real>)
    | Stamped(event: Event)

  datatype Thread = Thread(role: Role, pc: Pc)

  datatype Config = Config(cooldown: real, streakLimit: nat, timeout: real)

  datatype State = State(
    cfg: Config, now: real, queue: multiset<Entry>, nextSeq: nat, futures: seq<Future>,
    proxies: seq<Proxy>, table: map<string, nat>, threads: seq<Thread>,
    events: seq<Event>, log: seq<Logged>, stop: bool)

  /** What the world decides in a step: the entry a get returns, or what the fetcher does. */
  datatype Env =
    | Quiet
    | Pull(e: Entry)
    | Answer(outcome: Outcome, body: nat, netMs: Option<real>)
    | RaisedNoProxy
    | Raised

  datatype Action =
    | Tick(d: real)
    | Draw(lane: Lane, body: nat)
    | StartWait(f: nat)
    | Report
    | Configure(url: string, rate: real)
    | Spawn(url: string)
    | Retire(url: string)
    | Halt
    | RetireObject(p: nat)
    | Step(t: nat, env: Env)

  const DAY := 86400.0

  const WAIT_SLACK := 0.05

  // --- small pieces --------------------------------------------------------------

  /**
   The entry a thread is responsible for: drawn but not yet put, or pulled and not yet put back, settled or dropped.
   */
  function Held(pc: Pc): Option<Entry> {
    match pc
    case Drew(e) => Some(e)
    case Pulled(e) => Some(e)
    case Returning(e) => Some(e)
    case Holding(e) => Some(e)
    case Live(e) => Some(e)
    case Lapsed(e) => Some(e)
    case Turn(e) => Some(e)
    case Sleeping(e, _) => Some(e)
    case Woken(e) => Some(e)
    case Cleared(e) => Some(e)
    case Fetching(e, _) => Some(e)
    case Fetched(e, _, _, _, _) => Some(e)
    case Resolving(e, _, _, _) => Some(e)
    case _ => None
  }

  predicate KeyLess(a: Entry, b: Entry) {
    a.lane < b.lane || (a.lane == b.lane && a.no < b.no)
  }

  /** A heap pop: nothing queued has a smaller (priority, sequence) pair. */
  ghost predicate IsMin(queue: multiset<Entry>, e: Entry) {
    e in queue && forall x | x in queue :: !KeyLess(x, e)
  }

  predicate Done(s: State, f: nat)
    requires f < |s.futures|
  {
    s.futures[f].result.Some?
  }

  predicate Refused(s: State, p: nat)
    requires p < |s.proxies|
  {
    s.proxies[p].retired || s.stop
  }

  /** wait_turn's lock section: the next free slot, never in the past, one gap after the last one given out. */
  function Reserve(p: Proxy, now: real): (Proxy, real)
    requires p.rate > 0.0
  {
    var at := MaxReal(now, p.nextSlot);
    var gap := 1.0 / p.rate;
    (p.(nextSlot := at + gap, slots := p.slots + [Slot(at, gap, now)]), at)
  }

  /** The block streak after a counted answer; the streak that reaches the limit starts a cooldown and restarts. */
  function Streaked(p: Proxy, refusedUs: bool, now: real, cfg: Config): Proxy {
    var q := p.(answers := p.answers + [refusedUs]);
    if !refusedUs then q.(streak := 0)
    else if p.streak + 1 >= cfg.streakLimit then q.(streak := 0, coolUntil := now + cfg.cooldown)
    else q.(streak := p.streak + 1)
  }

  /** Drops from the front while the head is older than a day on the recorder's clock. */
  function Evict(events: seq<Event>, now: real): seq<Event> {
    if events != [] && now - events[0].ts > DAY then Evict(events[1..], now) else events
  }

  /** What one operation does to the shared state. */
  datatype Effect =
    | Nothing
    | Put(e: Entry)
    | Get(e: Entry)
    | SetResult(f: nat, result: Result)
    | TakeSlot(p: nat)
    | Judge(p: nat, refusedUs: bool)
    | Record(event: Event, task: bool)

  predicate EffectOk(s: State, eff: Effect) {
    match eff
    case Put(e) => e.fut < |s.futures|
    case Get(e) => e in s.queue
    case SetResult(f, _) => f < |s.futures| && !Done(s, f)
    case TakeSlot(p) => p < |s.proxies| && s.proxies[p].rate > 0.0
    case Judge(p, _) => p < |s.proxies|
    case _ => true
  }

  function Effected(s: State, eff: Effect): State
    requires EffectOk(s, eff)
  {
    match eff
    case Nothing => s
    case Put(e) => s.(queue := s.queue + multiset{e})
    case Get(e) => s.(queue := s.queue - multiset{e})
    case SetResult(f, r) => s.(futures := s.futures[f := s.futures[f].(result := Some(r))])
    case TakeSlot(p) => s.(proxies := s.proxies[p := Reserve(s.proxies[p], s.now).0])
    case Judge(p, refusedUs) => s.(proxies := s.proxies[p := Streaked(s.proxies[p], refusedUs, s.now, s.cfg)])
    case Record(event, task) =>
      s.(events := Evict(s.events + [event], event.ts), log := s.log + [Logged(event, task)])
  }

  function SetPc(s: State, t: nat, pc: Pc): State
    requires t < |s.threads|
  {
    s.(threads := s.threads[t := s.threads[t].(pc := pc)])
  }

  /** `_resolve`: the first result wins; a later one is refused and leaves no trace. */
  function Resolve(s: State, f: nat, r: Result, won: Pc, lost: Pc): (Effect, Pc)
    requires f < |s.futures|
  {
    if Done(s, f) then (Nothing, lost) else (SetResult(f, r), won)
  }

  function AfterRecord(role: Role): Pc {
    match role
    case Worker(_) => Top
    case Waiter(_) => Reaping
    case _ => Exited
  }

  // --- enabledness ----------------------------------------------------------------

  /** Every name a thread carries denotes something that exists. */
  predicate Wf(s: State) {
    && s.cfg.streakLimit >= 1
    && (forall t | 0 <= t < |s.threads| :: WfThread(|s.proxies|, |s.futures|, s.threads[t]))
    && (forall url | url in s.table :: s.table[url] < |s.proxies|)
    && (forall p | 0 <= p < |s.proxies| :: s.proxies[p].rate > 0.0)
    && (forall e | e in s.queue :: e.fut < |s.futures|)
  }

  predicate WfThread(proxies: nat, futures: nat, th: Thread) {
    && (th.role.Worker? ==> th.role.proxy < proxies)
    && (th.role.Waiter? ==> th.role.fut < futures)
    && (Held(th.pc).Some? ==> Held(th.pc).value.fut < futures)
    && (match th.pc
        case Drew(_) => th.role.Submitter?
        case Submitted => th.role.Submitter?
        case Waiting(_) => th.role.Waiter?
        case TimedOut => th.role.Waiter?
        case Reaping => th.role.Waiter?
        case Returned(_) => th.role.Waiter?
        case Settled(_, _, _) => !th.role.Submitter?
        case Stamped(_) => !th.role.Submitter?
        case Exited => th.role.Worker? || th.role.Reporter?
        case _ => th.role.Worker?)
  }

  ghost predicate CanStep(s: State, t: nat, env: Env)
    requires Wf(s) && t < |s.threads|
  {
    var th := s.threads[t];
    && !th.pc.Submitted? && !th.pc.Exited? && !th.pc.Returned?
    && (th.pc.Getting? ==> env.Quiet? || (env.Pull? && IsMin(s.queue, env.e)))
    && (th.pc.Sleeping? ==> s.now >= th.pc.slot)
    // the documented vocabulary of a fetch has no `expired`
    && (th.pc.Fetching? ==> env.RaisedNoProxy? || env.Raised? || (env.Answer? && env.outcome != Expired))
    && (th.pc.Waiting? ==> Done(s, th.role.fut) || s.now >= th.pc.until)
    && (th.pc.Reaping? ==> Done(s, th.role.fut))
  }

  ghost predicate Enabled(s: State, a: Action)
    requires Wf(s)
  {
    match a
    case Tick(d) => d > 0.0
    case Draw(_, _) => true
    case StartWait(f) => f < |s.futures|
    case Report => true
    case Configure(_, rate) => rate > 0.0
    case Spawn(url) => url in s.table
    case Retire(url) => url in s.table
    case Halt => true
    case RetireObject(p) => s.stop && p < |s.proxies|
    case Step(t, env) => t < |s.threads| && CanStep(s, t, env)
  }

  // --- the steps ------------------------------------------------------------------

  /** One turn of the worker loop up to the point where it is about to ask for its slot. */
  ghost function QueueMove(s: State, proxy: nat, pc: Pc, env: Env): (r: (Effect, Pc))
    requires proxy < |s.proxies| && WfThread(|s.proxies|, |s.futures|, Thread(Worker(proxy), pc))
    requires pc.Getting? && env.Pull? ==> env.e in s.queue && env.e.fut < |s.futures|
    ensures EffectOk(s, r.0) && WfThread(|s.proxies|, |s.futures|, Thread(Worker(proxy), r.1))
  {
    match pc
    case Top => (Nothing, if Refused(s, proxy) then Exited else Cool)
    case Cool => (Nothing, if s.now < s.proxies[proxy].coolUntil then Top else Getting)
    case Getting => if env.Pull? then (Get(env.e), Pulled(env.e)) else (Nothing, Top)
    case Pulled(e) => (Nothing, if Refused(s, proxy) then Returning(e) else Holding(e))
    case Returning(e) => (Put(e), Exited)
    case Holding(e) => (Nothing, if Done(s, e.fut) then Top else Live(e))
    case Live(e) => (Nothing, if s.now > s.futures[e.fut].deadline then Lapsed(e) else Turn(e))
    case Lapsed(e) =>
      Resolve(s, e.fut, Result(s.futures[e.fut].body, Wire(Expired)), Settled(Expired, None, None), Top)
    case _ => (Nothing, pc)
  }

  /** The rest of the turn: slot, re-check, fetch, streak, resolve. */
  ghost function FetchMove(s: State, proxy: nat, pc: Pc, env: Env): (r: (Effect, Pc))
    requires proxy < |s.proxies| && s.proxies[proxy].rate > 0.0
    requires WfThread(|s.proxies|, |s.futures|, Thread(Worker(proxy), pc))
    ensures EffectOk(s, r.0) && WfThread(|s.proxies|, |s.futures|, Thread(Worker(proxy), r.1))
  {
    match pc
    case Turn(e) => (TakeSlot(proxy), Sleeping(e, Reserve(s.proxies[proxy], s.now).1))
    case Sleeping(e, _) => (Nothing, Woken(e))
    case Woken(e) => (Nothing, if Refused(s, proxy) then Returning(e) else Cleared(e))
    case Cleared(e) => (Nothing, Fetching(e, s.now))
    case Fetching(e, started) =>
      var wall := (s.now - started) * 1000.0;
      (match env
       case Answer(o, body, ms) =>
         (Nothing, Fetched(e, o, true, body, if ms.Some? && ms.value >= 0.0 then ms.value else wall))
       case RaisedNoProxy => (Nothing, Fetched(e, NoProxy, false, s.futures[e.fut].body, wall))
       case _ => (Nothing, Fetched(e, ParseFailed, false, s.futures[e.fut].body, wall)))
    case Fetched(e, o, counts, body, latency) =>
      (if counts then Judge(proxy, o == Blocked || o == ProxyError) else Nothing,
       Resolving(e, o, Result(body, Wire(o)), latency))
    case Resolving(e, o, r, latency) => Resolve(s, e.fut, r, Settled(o, Some(proxy), Some(latency)), Top)
    case _ => (Nothing, pc)
  }

  ghost function WaitMove(s: State, f: nat, pc: Pc): (r: (Effect, Pc))
    requires f < |s.futures| && WfThread(|s.proxies|, |s.futures|, Thread(Waiter(f), pc))
    requires pc.Reaping? ==> Done(s, f)
    ensures EffectOk(s, r.0) && WfThread(|s.proxies|, |s.futures|, Thread(Waiter(f), r.1))
  {
    match pc
    case Waiting(_) => (Nothing, if Done(s, f) then Returned(s.futures[f].result.value) else TimedOut)
    case TimedOut =>
      Resolve(s, f, Result(s.futures[f].body, Wire(Expired)), Settled(Expired, None, None), Reaping)
    case Reaping => (Nothing, Returned(s.futures[f].result.value))
    case _ => (Nothing, pc)
  }

  /** The operation thread `t` performs next, and where that leaves it. */
  ghost function Move(s: State, t: nat, env: Env): (r: (Effect, Pc))
    requires Wf(s) && t < |s.threads| && CanStep(s, t, env)
    ensures EffectOk(s, r.0)
    ensures WfThread(|s.proxies|, |s.futures|, Thread(s.threads[t].role, r.1))
  {
    var th := s.threads[t];
    if th.pc.Drew? then (Put(th.pc.e), Submitted)
    else if th.pc.Settled? then (Nothing, Stamped(Event(s.now, th.pc.outcome, th.pc.via, th.pc.took)))
    else if th.pc.Stamped? then (Record(th.pc.event, !th.role.Reporter?), AfterRecord(th.role))
    else if th.role.Waiter? then WaitMove(s, th.role.fut, th.pc)
    else if Queueing(th.pc) then QueueMove(s, th.role.proxy, th.pc, env)
    else FetchMove(s, th.role.proxy, th.pc, env)
  }

  predicate Queueing(pc: Pc) {
    pc.Top? || pc.Cool? || pc.Getting? || pc.Pulled? || pc.Returning? || pc.Holding? || pc.Live? || pc.Lapsed?
  }

  /** The shared effect and the thread's new program counter, in one atomic step. */
  function Commit(s: State, t: nat, move: (Effect, Pc)): State
    requires t < |s.threads| && EffectOk(s, move.0)
  {
    SetPc(Effected(s, move.0), t, move.1)
  }

  function FreshProxy(url: string, rate: real): Proxy {
    Proxy(url, rate, 0.0, 0, 0.0, false, 0, [], [])
  }

  /** `submit` and `submit_call`: a future, the next sequence number, and a thread about to put the tuple. */
  function Drawn(s: State, lane: Lane, body: nat): State {
    var e := Entry(LanePriority(lane), s.nextSeq, |s.futures|);
    s.(nextSeq := s.nextSeq + 1,
       futures := s.futures + [Future(e, s.now + s.cfg.timeout, body, None)],
       threads := s.threads + [Thread(Submitter, Drew(e))])
  }

  function WaitStarted(s: State, f: nat): State
    requires f < |s.futures|
  {
    var until := s.now + MaxReal(0.0, s.futures[f].deadline - s.now) + WAIT_SLACK;
    s.(threads := s.threads + [Thread(Waiter(f), Waiting(until))])
  }

  function Configured(s: State, url: string, rate: real): State
    requires url in s.table ==> s.table[url] < |s.proxies|
  {
    if url in s.table then
      var p := s.table[url];
      s.(proxies := s.proxies[p := s.proxies[p].(rate := rate)])
    else
      s.(proxies := s.proxies + [FreshProxy(url, rate)], table := s.table[url := |s.proxies|])
  }

  function Spawned(s: State, url: string): State
    requires url in s.table && s.table[url] < |s.proxies|
  {
    var p := s.table[url];
    s.(threads := s.threads + [Thread(Worker(p), Top)],
       proxies := s.proxies[p := s.proxies[p].(threads := s.proxies[p].threads + 1)])
  }

  function Flagged(s: State, p: nat): State
    requires p < |s.proxies|
  {
    s.(proxies := s.proxies[p := s.proxies[p].(retired := true)])
  }

  ghost function Apply(s: State, a: Action): State
    requires Wf(s) && Enabled(s, a)
  {
    match a
    case Tick(d) => s.(now := s.now + d)
    case Draw(lane, body) => Drawn(s, lane, body)
    case StartWait(f) => WaitStarted(s, f)
    case Report => s.(threads := s.threads + [Thread(Reporter, Settled(NoProxy, None, None))])
    case Configure(url, rate) => Configured(s, url, rate)
    case Spawn(url) => Spawned(s, url)
    case Retire(url) => Flagged(s, s.table[url]).(table := s.table - {url})
    case Halt => s.(stop := true)
    case RetireObject(p) => Flagged(s, p)
    case Step(t, env) => Commit(s, t, Move(s, t, env))
  }

  function Init(cfg: Config): State {
    State(cfg, 0.0, multiset{}, 0, [], [], map[], [], [], [], false)
  }

  // --- runs -----------------------------------------------------------------------

  lemma EffectWf(s: State, eff: Effect)
    requires Wf(s) && EffectOk(s, eff)
    ensures Wf(Effected(s, eff))
    ensures |Effected(s, eff).futures| == |s.futures| && |Effected(s, eff).proxies| == |s.proxies|
    ensures Effected(s, eff).threads == s.threads
  {
  }

  /** An effect touches neither the clock, the flags, the thread list nor the table, and futures only gain results. */
  lemma EffectFrame(s: State, eff: Effect)
    requires EffectOk(s, eff)
    ensures var m := Effected(s, eff);
            && m.now == s.now && m.cfg == s.cfg && m.stop == s.stop && m.table == s.table
            && m.threads == s.threads && m.nextSeq == s.nextSeq && |m.proxies| == |s.proxies|
            && FuturesGrow(s.futures, m.futures) && |m.futures| == |s.futures|
  {
  }

  /** Futures are appended and get results, once each; their tuple, deadline and shape never change. */
  ghost predicate FuturesGrow(old': seq<Future>, new': seq<Future>) {
    && |old'| <= |new'|
    && (forall f | 0 <= f < |old'| ::
          && new'[f].entry == old'[f].entry && new'[f].deadline == old'[f].deadline && new'[f].body == old'[f].body
          && (old'[f].result.Some? ==> new'[f].result == old'[f].result))
  }

  lemma DrawnWf(s: State, lane: Lane, body: nat)
    requires Wf(s)
    ensures Wf(Drawn(s, lane, body))
  {
    forall th | th in s.threads ensures WfThread(|s.proxies|, |s.futures| + 1, th) {}
  }

  lemma ConfiguredWf(s: State, url: string, rate: real)
    requires Wf(s) && rate > 0.0
    ensures Wf(Configured(s, url, rate))
  {
    forall th | th in s.threads ensures WfThread(|s.proxies| + 1, |s.futures|, th) {}
  }

  lemma SpawnedWf(s: State, url: string)
    requires Wf(s) && url in s.table
    ensures Wf(Spawned(s, url))
  {
  }

  lemma FlaggedWf(s: State, p: nat)
    requires Wf(s) && p < |s.proxies|
    ensures Wf(Flagged(s, p)) && Flagged(s, p).(proxies := s.proxies) == s
    ensures |Flagged(s, p).proxies| == |s.proxies|
  {
  }

  lemma CommitWf(s: State, t: nat, m: (Effect, Pc))
    requires Wf(s) && t < |s.threads| && EffectOk(s, m.0)
    requires WfThread(|s.proxies|, |s.futures|, Thread(s.threads[t].role, m.1))
    ensures Wf(Commit(s, t, m))
  {
    hide Effected;
    EffectWf(s, m.0);
  }

  lemma WfStep(s: State, a: Action)
    requires Wf(s) && Enabled(s, a)
    ensures Wf(Apply(s, a))
  {
    hide Move, Commit, Drawn, Configured, Spawned, Flagged;
    match a
    case Step(t, env) => CommitWf(s, t, Move(s, t, env));
    case Draw(lane, body) => DrawnWf(s, lane, body);
    case Configure(url, rate) => ConfiguredWf(s, url, rate);
    case Spawn(url) => SpawnedWf(s, url);
    case Retire(url) => FlaggedWf(s, s.table[url]);
    case RetireObject(p) => FlaggedWf(s, p);
    case _ =>
  }

  /** Whether a list of actions can be performed one after another from `s`. */
  ghost predicate Performable(s: State, acts: seq<Action>)
    requires Wf(s)
    decreases |acts|
  {
    acts != [] ==> (Enabled(s, acts[0]) && (WfStep(s, acts[0]); Performable(Apply(s, acts[0]), acts[1..])))
  }

  ghost function Run(s: State, acts: seq<Action>): (r: State)
    requires Wf(s) && Performable(s, acts)
    ensures Wf(r)
    decreases |acts|
  {
    if acts == [] then s else WfStep(s, acts[0]); Run(Apply(s, acts[0]), acts[1..])
  }
}
