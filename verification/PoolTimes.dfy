/**
 The pool against the clock: whose turn it is, when a fetch may begin, what is too late
 to begin, how long a caller waits, and that a free worker does serve its task.
 */
module PoolTimes {
  import opened Numbers
  import opened Options
  import opened PoolDelivery
  import opened PoolProxies
  import opened PoolRaces
  import opened PoolRuns
  import opened PoolSafety
  import opened PoolState

  // --- lanes -------------------------------------------------------------------------

  /** A seller waiting on a create, then one waiting on a list, then the refresh, then the crawl. */
  predicate Before(a: Lane, b: Lane) {
    || (a == Interactive && b != Interactive)
    || (a == Browse && (b == Background || b == Crawl))
    || (a == Background && b == Crawl)
  }

  function Submission(s: State, lane: Lane, body: nat): Entry
  {
    Drawn(s, lane, body).futures[|s.futures|].entry
  }

  /** Whenever the two were submitted, no pull takes a task while one of an earlier lane is queued. */
  lemma EarlierLaneFirst(s: State, a: Lane, x: nat, m: State, b: Lane, y: nat, queue: multiset<Entry>)
    requires Before(a, b) && Submission(s, a, x) in queue
    ensures !IsMin(queue, Submission(m, b, y))
  {
    assert KeyLess(Submission(s, a, x), Submission(m, b, y));
  }

  /** A submission is unresolved, in its caller's shape, and due one timeout from now. */
  lemma SubmissionIsDue(s: State, lane: Lane, body: nat)
    requires Wf(s)
    ensures var r, f := Apply(s, Draw(lane, body)), |s.futures|;
            && |r.futures| == f + 1 && !Done(r, f) && r.futures[f].body == body
            && r.futures[f].deadline == s.now + s.cfg.timeout
            && r.threads == s.threads + [Thread(Submitter, Drew(r.futures[f].entry))]
  {}

  // --- time passes -------------------------------------------------------------------

  lemma {:induction false} TimePasses(s: State, acts: seq<Action>)
    requires Wf(s) && Performable(s, acts)
    ensures s.now <= Run(s, acts).now && Run(s, acts).cfg == s.cfg
    decreases |acts|
  {
    if acts == [] {
    } else {
      WfStep(s, acts[0]);
      ProxyStep(s, acts[0]);
      hide Apply, Enabled;
      TimePasses(Apply(s, acts[0]), acts[1..]);
    }
  }

  lemma ReachableTime(s: State)
    requires Reachable(s)
    ensures Wf(s) && s.now >= 0.0
  {
    var cfg: Config, acts: seq<Action> :|
      cfg.streakLimit >= 1 && Performable(Init(cfg), acts) && s == Run(Init(cfg), acts);
    TimePasses(Init(cfg), acts);
  }

  // --- slots -------------------------------------------------------------------------

  lemma TakesSlot(s: State, t: nat, env: Env)
    requires Wf(s) && t < |s.threads| && s.threads[t].role.Worker? && s.threads[t].pc.Turn? && CanStep(s, t, env)
    ensures var r, p := Apply(s, Step(t, env)), s.threads[t].role.proxy;
            && Wf(r) && |r.proxies| == |s.proxies| && |r.threads| == |s.threads| && r.now == s.now
            && |r.proxies[p].slots| == |s.proxies[p].slots| + 1
            && r.proxies[p].slots[..|s.proxies[p].slots|] == s.proxies[p].slots
            && r.proxies[p].slots[|s.proxies[p].slots|].madeAt == s.now
            && r.threads[t].role == s.threads[t].role
            && r.threads[t].pc == Sleeping(s.threads[t].pc.e, r.proxies[p].slots[|s.proxies[p].slots|].at)
            && (r.proxies[p].slots[|s.proxies[p].slots|].at == s.now
                || r.proxies[p].slots[|s.proxies[p].slots|].at == s.proxies[p].nextSlot > s.now)
            && r.proxies[p].slots[|s.proxies[p].slots|].at >= s.proxies[p].nextSlot
            && r.proxies[p].slots[|s.proxies[p].slots|].gap * s.proxies[p].rate == 1.0
  {
    WfStep(s, Step(t, env));
    OwnStep(s, t, env);
  }

  /** A thread asleep until its slot is there until a step of its own, which comes no sooner than the slot. */
  lemma {:induction false} SleepsUntil(s: State, acts: seq<Action>, t: nat)
    requires Wf(s) && Performable(s, acts) && t < |s.threads| && s.threads[t].pc.Sleeping? && OwnSteps(acts, t) > 0
    ensures Run(s, acts).now >= s.threads[t].pc.slot
    decreases |acts|
  {
    WfStep(s, acts[0]);
    if acts[0].Step? && acts[0].t == t {
      ProxyStep(s, acts[0]);
      hide Apply, Enabled;
      TimePasses(Apply(s, acts[0]), acts[1..]);
    } else {
      OthersLeave(s, acts[0], t);
      hide Apply, Enabled;
      SleepsUntil(Apply(s, acts[0]), acts[1..], t);
    }
  }

  /**
   A worker's slot is now if the proxy is free by then, else one gap after the last slot given out; whatever the
   schedule, the worker goes on towards its fetch no sooner than that.
   */
  lemma {:induction false} SlotIsAwaited(s: State, t: nat, env: Env, acts: seq<Action>)
    requires Reachable(s) && Wf(s) && t < |s.threads| && s.threads[t].role.Worker? && s.threads[t].pc.Turn?
    requires Enabled(s, Step(t, env)) && Wf(Apply(s, Step(t, env))) && Performable(Apply(s, Step(t, env)), acts)
    ensures var r, p := Apply(s, Step(t, env)), s.threads[t].role.proxy;
            var slots := s.proxies[p].slots;
            && p < |r.proxies| && |r.proxies[p].slots| == |slots| + 1 && r.proxies[p].slots[..|slots|] == slots
            && var x := r.proxies[p].slots[|slots|];
               && x.madeAt == s.now <= x.at && x.gap * s.proxies[p].rate == 1.0
               && (x.at > s.now ==> slots != [] && x.at == slots[|slots| - 1].at + slots[|slots| - 1].gap)
               && (slots != [] ==> x.at >= slots[|slots| - 1].at + slots[|slots| - 1].gap)
               && (OwnSteps(acts, t) > 0 ==> Run(r, acts).now >= x.at)
  {
    hide Apply, Performable, Run, Reserve, Streaked, StreakKept;
    ReachableTime(s);
    ReachableProxies(s);
    TakesSlot(s, t, env);
    var r := Apply(s, Step(t, env));
    if OwnSteps(acts, t) > 0 { SleepsUntil(r, acts, t); }
    hide Enabled, Reachable, Wf;
    assert Spaced(s.proxies[s.threads[t].role.proxy]);
  }

  // --- cooldown ----------------------------------------------------------------------

  /** No cooldown reaches further than one cooldown from now. */
  ghost predicate CoolsFromNow(s: State) {
    s.cfg.cooldown >= 0.0 && s.now >= 0.0
    && forall p | 0 <= p < |s.proxies| :: s.proxies[p].coolUntil <= s.now + s.cfg.cooldown
  }

  lemma CoolsFromNowStep(s: State, a: Action)
    requires Wf(s) && CoolsFromNow(s) && Enabled(s, a)
    ensures CoolsFromNow(Apply(s, a)) && |s.proxies| <= |Apply(s, a).proxies|
    ensures forall p | 0 <= p < |s.proxies| :: s.proxies[p].coolUntil <= Apply(s, a).proxies[p].coolUntil
  {
    ProxyStep(s, a);
    hide Apply, Enabled, Wf;
  }

  lemma {:induction false} CoolsFromNowRun(s: State, acts: seq<Action>)
    requires Wf(s) && CoolsFromNow(s) && Performable(s, acts)
    ensures CoolsFromNow(Run(s, acts))
    decreases |acts|
  {
    if acts == [] {
    } else {
      CoolsFromNowStep(s, acts[0]);
      WfStep(s, acts[0]);
      hide Apply, Enabled;
      CoolsFromNowRun(Apply(s, acts[0]), acts[1..]);
    }
  }

  predicate Idle(s: State, t: nat) {
    && t < |s.threads| && s.threads[t].role.Worker? && s.threads[t].role.proxy < |s.proxies|
    && (s.threads[t].pc == Top || s.threads[t].pc == Cool || s.threads[t].pc == Exited)
  }

  lemma IdleStep(s: State, a: Action, t: nat)
    requires Wf(s) && Enabled(s, a) && Idle(s, t) && s.now < s.proxies[s.threads[t].role.proxy].coolUntil
    ensures Idle(Apply(s, a), t) && Apply(s, a).threads[t].role == s.threads[t].role
  {
    ListsGrow(s, a);
    ProxyStep(s, a);
    if a.Step? && a.t == t {
      OwnStep(s, t, a.env);
    } else {
      OthersLeave(s, a, t);
    }
  }

  lemma {:induction false} StaysIdle(s: State, acts: seq<Action>, t: nat)
    requires Wf(s) && CoolsFromNow(s) && Idle(s, t) && Performable(s, acts)
    requires Run(s, acts).now < s.proxies[s.threads[t].role.proxy].coolUntil
    ensures Idle(Run(s, acts), t)
    decreases |acts|
  {
    if acts == [] {
    } else {
      TimePasses(s, acts);
      IdleStep(s, acts[0], t);
      CoolsFromNowStep(s, acts[0]);
      WfStep(s, acts[0]);
      hide Apply, Enabled;
      StaysIdle(Apply(s, acts[0]), acts[1..], t);
    }
  }

  lemma ReachableCools(s: State)
    requires Reachable(s) && s.cfg.cooldown >= 0.0
    ensures CoolsFromNow(s)
  {
    var cfg: Config, acts: seq<Action> :|
      cfg.streakLimit >= 1 && Performable(Init(cfg), acts) && s == Run(Init(cfg), acts);
    TimePasses(Init(cfg), acts);
    CoolsFromNowRun(Init(cfg), acts);
  }

  /** While its proxy is cooling down, an idle worker takes nothing off the queue, whatever the schedule. */
  lemma {:induction false} CoolingNeverPulls(s: State, acts: seq<Action>, t: nat)
    requires Reachable(s) && s.cfg.cooldown >= 0.0 && Wf(s) && Idle(s, t) && Performable(s, acts)
    requires Run(s, acts).now < s.proxies[s.threads[t].role.proxy].coolUntil
    ensures Idle(Run(s, acts), t)
  {
    hide Reachable, Wf, Idle, Performable, Run, CoolsFromNow;
    ReachableCools(s);
    StaysIdle(s, acts, t);
  }

  // --- too late ----------------------------------------------------------------------

  /** On its way to fetch for task `f`, or past that. */
  predicate AtWork(pc: Pc, f: nat) {
    match pc
    case Turn(e) => e.fut == f
    case Sleeping(e, _) => e.fut == f
    case Woken(e) => e.fut == f
    case Cleared(e) => e.fut == f
    case Fetching(e, _) => e.fut == f
    case Fetched(e, _, _, _, _) => e.fut == f
    case Resolving(e, _, _, _) => e.fut == f
    case _ => false
  }

  /** Past its deadline; or resolved, with the worker not yet past asking whether it is. */
  predicate Late(s: State, t: nat, f: nat) {
    && f < |s.futures| && (t < |s.threads| ==> !AtWork(s.threads[t].pc, f))
    && (s.now > s.futures[f].deadline
        || (Done(s, f) && (t < |s.threads| && s.threads[t].pc.Live? ==> s.threads[t].pc.e.fut != f)))
  }

  lemma LateMove(s: State, t: nat, env: Env, f: nat)
    requires Wf(s) && t < |s.threads| && CanStep(s, t, env) && Late(s, t, f)
    ensures var pc := Move(s, t, env).1;
            !AtWork(pc, f) && (s.now > s.futures[f].deadline || !(pc.Live? && pc.e.fut == f))
  {
  }

  lemma LateStep(s: State, a: Action, t: nat, f: nat)
    requires Wf(s) && Enabled(s, a) && Late(s, t, f)
    ensures Late(Apply(s, a), t, f)
  {
    FuturesStep(s, a);
    if t < |s.threads| {
      if a.Step? && a.t == t {
        LateMove(s, t, a.env, f);
        OwnStep(s, t, a.env);
      } else {
        OthersLeave(s, a, t);
      }
    } else {
      LateNewcomer(s, a, t, f);
    }
    hide Apply, Enabled, Wf;
  }

  lemma LateNewcomer(s: State, a: Action, t: nat, f: nat)
    requires Wf(s) && Enabled(s, a) && t >= |s.threads|
    ensures var r := Apply(s, a); t < |r.threads| ==> !AtWork(r.threads[t].pc, f) && !r.threads[t].pc.Live?
  {
    if a.Step? {
      OwnStep(s, a.t, a.env);
    } else {
      StartedThreads(s, a);
    }
  }

  /** Once a task is past its deadline, or resolved, no worker that is not on it already ever begins its fetch. */
  lemma {:induction false} TooLateToBegin(s: State, acts: seq<Action>, t: nat, f: nat)
    requires Wf(s) && Performable(s, acts) && Late(s, t, f)
    ensures t < |Run(s, acts).threads| ==> !AtWork(Run(s, acts).threads[t].pc, f)
    decreases |acts|
  {
    if acts == [] {
    } else {
      LateStep(s, acts[0], t, f);
      WfStep(s, acts[0]);
      hide Apply, Enabled;
      TooLateToBegin(Apply(s, acts[0]), acts[1..], t, f);
    }
  }

  // --- waiting -----------------------------------------------------------------------

  /**
   A caller that waits from now on is let go when its result is there or, failing that, a twentieth of a second past
   the deadline (or past now, if the deadline has passed), and gets the result if it is there.
   */
  lemma {:induction false} WaitIsExact(s: State, f: nat, acts: seq<Action>, env: Env)
    requires Wf(s) && f < |s.futures| && Wf(Apply(s, StartWait(f)))
    requires Performable(Apply(s, StartWait(f)), acts) && OwnSteps(acts, |s.threads|) == 0
    ensures var m, t := Run(Apply(s, StartWait(f)), acts), |s.threads|;
            && t < |m.threads| && f < |m.futures|
            && (CanStep(m, t, env) <==>
                  Done(m, f) || (m.now >= s.futures[f].deadline + 0.05 && m.now >= s.now + 0.05))
            && (CanStep(m, t, env) ==>
                  && Apply(m, Step(t, env)).futures == m.futures && t < |Apply(m, Step(t, env)).threads|
                  && Apply(m, Step(t, env)).threads[t].pc
                     == if Done(m, f) then Returned(m.futures[f].result.value) else TimedOut)
  {
    var s1, t := Apply(s, StartWait(f)), |s.threads|;
    Waits(s1, acts, t);
    var m := Run(s1, acts);
    hide Performable, Run;
    if CanStep(m, t, env) {
      OwnStep(m, t, env);
      assert Move(m, t, env).0 == Nothing;
    }
  }

  /** The task a thread is about to expire: a worker the one it pulled too late, a waiter its own. */
  function Overdue(th: Thread): Option<nat> {
    if th.role.Worker? && th.pc.Lapsed? then Some(th.pc.e.fut)
    else if th.role.Waiter? && th.pc.TimedOut? then Some(th.role.fut)
    else None
  }

  /**
   In every run, a thread about to expire a task next resolves it as blocked, in its caller's own shape, to be
   recorded as expired; a task resolved by then is left alone.
   */
  lemma {:induction false} OverdueIsExpired(s: State, t: nat, acts: seq<Action>, env: Env)
    requires Wf(s) && t < |s.threads| && Overdue(s.threads[t]).Some?
    requires Performable(s, acts) && OwnSteps(acts, t) == 0 && Enabled(Run(s, acts), Step(t, env))
    ensures var m, f := Run(s, acts), Overdue(s.threads[t]).value;
            var r := Apply(m, Step(t, env));
            && f < |m.futures| && t < |r.threads| && r.proxies == m.proxies && r.queue == m.queue
            && (if Done(m, f) then r.futures == m.futures && r.threads[t].pc != Settled(Expired, None, None)
                else r.futures == m.futures[f := m.futures[f].(result := Some(Result(m.futures[f].body, Blocked)))]
                     && r.threads[t].pc == Settled(Expired, None, None))
  {
    Waits(s, acts, t);
    hide Performable, Run;
    OverdueStep(Run(s, acts), t, env);
  }

  lemma OverdueStep(m: State, t: nat, env: Env)
    requires Wf(m) && t < |m.threads| && Overdue(m.threads[t]).Some? && CanStep(m, t, env)
    ensures var r, f := Apply(m, Step(t, env)), Overdue(m.threads[t]).value;
            && f < |m.futures| && t < |r.threads| && r.proxies == m.proxies && r.queue == m.queue
            && (if Done(m, f) then r.futures == m.futures && r.threads[t].pc != Settled(Expired, None, None)
                else r.futures == m.futures[f := m.futures[f].(result := Some(Result(m.futures[f].body, Blocked)))]
                     && r.threads[t].pc == Settled(Expired, None, None))
  {
    OwnStep(m, t, env);
  }

  /** A request that found no proxy is recorded as just that, as no task's event, by a thread of its own. */
  lemma {:induction false} ReportIsRecorded(s: State, acts: seq<Action>, last: Env)
    requires Wf(s) && Wf(Apply(s, Report)) && Performable(Apply(s, Report), acts) && OwnSteps(acts, |s.threads|) == 1
    requires Enabled(Run(Apply(s, Report), acts), Step(|s.threads|, last))
    ensures var m := Run(Apply(s, Report), acts);
            var log := Apply(m, Step(|s.threads|, last)).log;
            && |log| == |m.log| + 1 && log[..|m.log|] == m.log && !log[|m.log|].task
            && log[|m.log|].event.outcome == NoProxy && log[|m.log|].event.proxy == None
            && log[|m.log|].event.latency == None && s.now <= log[|m.log|].event.ts <= m.now
  {
    var s1 := Apply(s, Report);
    assert s1.threads[|s.threads|] == Thread(Reporter, Settled(NoProxy, None, None));
    hide Performable, Run;
    SettledIsRecorded(s1, |s.threads|, acts, last);
  }

  // --- a free worker serves ------------------------------------------------------------

  /** Reached while only this thread steps and time passes. */
  ghost predicate Alone(s: State, t: nat, r: State) {
    Wf(s) && exists acts: seq<Action> :: Performable(s, acts) && r == Run(s, acts) && OnlyOf(acts, t)
  }

  predicate OnlyOf(acts: seq<Action>, t: nat) {
    forall a | a in acts :: a.Tick? || (a.Step? && a.t == t)
  }

  lemma AloneSelf(s: State, t: nat)
    requires Wf(s)
    ensures Alone(s, t, s)
  {
    assert Performable(s, []) && s == Run(s, []) && OnlyOf([], t);
  }

  lemma AloneStep(s: State, t: nat, m: State, a: Action)
    requires Alone(s, t, m) && Wf(m) && Enabled(m, a) && (a.Tick? || (a.Step? && a.t == t))
    ensures Wf(Apply(m, a)) && Alone(s, t, Apply(m, a))
  {
    hide Apply, Enabled;
    var acts :| Performable(s, acts) && m == Run(s, acts) && OnlyOf(acts, t);
    RunSnoc(s, acts, a);
    WfStep(m, a);
    assert OnlyOf(acts + [a], t);
  }

  /** A step of the thread that has this effect and leaves it there. */
  lemma AloneMove(s: State, t: nat, m: State, env: Env, eff: Effect, next: Pc)
    requires Alone(s, t, m) && Wf(m) && t < |m.threads| && CanStep(m, t, env) && Move(m, t, env) == (eff, next)
    ensures EffectOk(m, eff) && var r := SetPc(Effected(m, eff), t, next); Wf(r) && Alone(s, t, r)
  {
    AloneStep(s, t, m, Step(t, env));
  }

  /** The worker may take this task: its proxy is in use and not cooling, the task first in line and in time. */
  ghost predicate MayServe(s: State, t: nat, e: Entry) {
    && Wf(s) && t < |s.threads| && s.threads[t].role.Worker? && s.threads[t].pc == Top
    && !s.stop && !s.proxies[s.threads[t].role.proxy].retired
    && s.now >= s.proxies[s.threads[t].role.proxy].coolUntil
    && IsMin(s.queue, e) && s.futures[e.fut].result == None && s.now <= s.futures[e.fut].deadline
  }

  function At(s: State, t: nat, queue: multiset<Entry>, proxies: seq<Proxy>, now: real, pc: Pc): State
    requires t < |s.threads|
  {
    s.(queue := queue, proxies := proxies, now := now, threads := s.threads[t := s.threads[t].(pc := pc)])
  }

  lemma Pulls(s: State, t: nat, e: Entry)
    requires MayServe(s, t, e)
    ensures Wf(At(s, t, s.queue - multiset{e}, s.proxies, s.now, Pulled(e)))
    ensures Alone(s, t, At(s, t, s.queue - multiset{e}, s.proxies, s.now, Pulled(e)))
  {
    hide Alone;
    AloneSelf(s, t);
    AloneMove(s, t, s, Quiet, Nothing, Cool);
    var m := SetPc(s, t, Cool);
    AloneMove(s, t, m, Quiet, Nothing, Getting);
    var g := SetPc(m, t, Getting);
    AloneMove(s, t, g, Pull(e), Get(e), Pulled(e));
    assert SetPc(Effected(g, Get(e)), t, Pulled(e)) == At(s, t, s.queue - multiset{e}, s.proxies, s.now, Pulled(e));
  }

  lemma Checks(s: State, t: nat, e: Entry)
    requires MayServe(s, t, e)
    ensures Wf(At(s, t, s.queue - multiset{e}, s.proxies, s.now, Turn(e)))
    ensures Alone(s, t, At(s, t, s.queue - multiset{e}, s.proxies, s.now, Turn(e)))
  {
    hide Alone;
    Pulls(s, t, e);
    var m := At(s, t, s.queue - multiset{e}, s.proxies, s.now, Pulled(e));
    AloneMove(s, t, m, Quiet, Nothing, Holding(e));
    var h := SetPc(m, t, Holding(e));
    AloneMove(s, t, h, Quiet, Nothing, Live(e));
    var l := SetPc(h, t, Live(e));
    AloneMove(s, t, l, Quiet, Nothing, Turn(e));
    assert SetPc(l, t, Turn(e)) == At(s, t, s.queue - multiset{e}, s.proxies, s.now, Turn(e));
  }

  /** Its slot taken and waited for. */
  ghost predicate Served(s: State, t: nat, e: Entry, r: State, pc: Pc)
    requires MayServe(s, t, e)
  {
    && Wf(r) && Alone(s, t, r) && r.threads == s.threads[t := s.threads[t].(pc := pc)]
    && r.queue == s.queue - multiset{e} && r.futures == s.futures && r.stop == s.stop
    && r.now == MaxReal(s.now, s.proxies[s.threads[t].role.proxy].nextSlot)
    && |r.proxies| == |s.proxies| && !r.proxies[s.threads[t].role.proxy].retired
  }

  lemma Sleeps(s: State, t: nat, e: Entry) returns (r: State)
    requires MayServe(s, t, e)
    ensures Served(s, t, e, r, Sleeping(e, r.now))
  {
    hide Alone;
    Checks(s, t, e);
    var m, p := At(s, t, s.queue - multiset{e}, s.proxies, s.now, Turn(e)), s.threads[t].role.proxy;
    var slot := Reserve(s.proxies[p], s.now).1;
    AloneMove(s, t, m, Quiet, TakeSlot(p), Sleeping(e, slot));
    r := SetPc(Effected(m, TakeSlot(p)), t, Sleeping(e, slot));
    if slot > s.now {
      AloneStep(s, t, r, Tick(slot - s.now));
      r := Apply(r, Tick(slot - s.now));
    }
  }

  lemma Wakes(s: State, t: nat, e: Entry) returns (r: State)
    requires MayServe(s, t, e)
    ensures Served(s, t, e, r, Fetching(e, r.now))
  {
    hide Alone;
    var m := Sleeps(s, t, e);
    AloneMove(s, t, m, Quiet, Nothing, Woken(e));
    var w := SetPc(m, t, Woken(e));
    AloneMove(s, t, w, Quiet, Nothing, Cleared(e));
    var c := SetPc(w, t, Cleared(e));
    AloneMove(s, t, c, Quiet, Nothing, Fetching(e, m.now));
    r := SetPc(c, t, Fetching(e, m.now));
  }

  /**
   A worker that may serve does so: left alone it fetches the task at the first moment its proxy's slots allow, and
   whatever the fetch brings is what the caller gets.
   */
  lemma {:induction false} FreeWorkerServes(s: State, t: nat, e: Entry, env: Env)
    requires MayServe(s, t, e)
    requires env.RaisedNoProxy? || env.Raised? || (env.Answer? && env.outcome != Expired)
    ensures exists m: State :: Served(s, t, e, m, Fetching(e, m.now))
    ensures exists r: State :: Alone(s, t, r) && r.queue == s.queue - multiset{e}
              && r.futures == s.futures[e.fut := s.futures[e.fut].(
                                 result := Some(Brought(env, s.futures[e.fut].body, 0.0).result))]
  {
    hide Alone;
    var m := Wakes(s, t, e);
    assert Served(s, t, e, m, Fetching(e, m.now));
    var r := Finishes(s, t, e, m, env);
  }

  lemma Finishes(s: State, t: nat, e: Entry, m: State, env: Env) returns (r: State)
    requires MayServe(s, t, e) && Served(s, t, e, m, Fetching(e, m.now))
    requires env.RaisedNoProxy? || env.Raised? || (env.Answer? && env.outcome != Expired)
    ensures Alone(s, t, r) && r.queue == s.queue - multiset{e}
    ensures r.futures == s.futures[e.fut := s.futures[e.fut].(
                            result := Some(Brought(env, s.futures[e.fut].body, 0.0).result))]
  {
    hide Alone;
    var b := Answers(s, t, e, m, env);
    hide MayServe, Served, Brought;
    AloneStep(s, t, b, Step(t, Quiet));
    r := Apply(b, Step(t, Quiet));
    hide Apply;
    Delivers(b, t, Quiet);
  }

  lemma Answers(s: State, t: nat, e: Entry, m: State, env: Env) returns (b: State)
    requires Wf(m) && Alone(s, t, m) && Fetches(m, t) && m.threads[t].pc.e == e
    requires env.RaisedNoProxy? || env.Raised? || (env.Answer? && env.outcome != Expired)
    ensures Wf(b) && Alone(s, t, b) && b.queue == m.queue && b.futures == m.futures
    ensures t < |b.threads| && b.threads[t].role.Worker? && b.threads[t].pc.Resolving? && b.threads[t].pc.e == e
    ensures b.threads[t].pc.result == Brought(env, m.futures[e.fut].body, 0.0).result
  {
    hide Alone, Apply;
    FetchEnds(m, t, env);
    AloneStep(s, t, m, Step(t, env));
    b := Judged(s, t, Apply(m, Step(t, env)));
    hide Wf;
  }

  lemma Judged(s: State, t: nat, a: State) returns (b: State)
    requires Wf(a) && Alone(s, t, a) && t < |a.threads| && a.threads[t].role.Worker? && a.threads[t].pc.Fetched?
    requires a.threads[t].pc.outcome != Expired
    ensures Wf(b) && Alone(s, t, b) && b.queue == a.queue && b.futures == a.futures && |b.threads| == |a.threads|
    ensures var pc := a.threads[t].pc;
            b.threads[t] == a.threads[t].(pc := Resolving(
              pc.e, pc.outcome, Result(pc.body, if pc.outcome == ProxyError then Blocked else pc.outcome), pc.latency))
  {
    hide Alone;
    AfterJudging(a, t, Quiet);
    OwnStep(a, t, Quiet);
    AloneStep(s, t, a, Step(t, Quiet));
    b := Apply(a, Step(t, Quiet));
  }
}
