/**
 A proxy retired under its workers: what they may still do, what they may not, and
 that the gap between the last check and the fetch is really reached.
 */
module PoolRaces {
  import opened Options
  import opened PoolProxies
  import opened PoolRuns
  import opened PoolSafety
  import opened PoolState

  // --- retirement ------------------------------------------------------------------

  /** A worker whose proxy is retired (or the pool stopped) and which is not past its last check. */
  predicate Barred(s: State, t: nat)
    requires t < |s.threads| && (s.threads[t].role.Worker? ==> s.threads[t].role.proxy < |s.proxies|)
  {
    var th := s.threads[t];
    th.role.Worker? && (s.proxies[th.role.proxy].retired || s.stop) && !Carrying(th.pc)
  }

  /** Past the last check: about to fetch, fetching, or with an answer in hand. */
  predicate Carrying(pc: Pc) {
    pc.Cleared? || pc.Fetching? || pc.Fetched? || pc.Resolving?
  }

  /** Flags are only ever raised. */
  lemma RefusalStays(s: State, a: Action, p: nat)
    requires Wf(s) && Enabled(s, a) && p < |s.proxies| && Refused(s, p)
    ensures p < |Apply(s, a).proxies| && Refused(Apply(s, a), p)
  {
    hide Move, Effected;
    if a.Step? {
      EffectFrame(s, Move(s, a.t, a.env).0);
      EffectEvolves(s, Move(s, a.t, a.env).0, p);
    }
  }

  lemma BarredMove(s: State, t: nat, env: Env)
    requires Wf(s) && t < |s.threads| && CanStep(s, t, env) && Barred(s, t)
    ensures !Carrying(Move(s, t, env).1)
  {
    var th := s.threads[t];
    if !th.pc.Settled? && !th.pc.Stamped? && !Queueing(th.pc) {
      assert th.pc.Turn? || th.pc.Sleeping? || th.pc.Woken?;
    }
  }

  lemma BarredStep(s: State, a: Action, t: nat)
    requires Wf(s) && Enabled(s, a) && t < |s.threads| && Barred(s, t)
    ensures Wf(Apply(s, a)) && t < |Apply(s, a).threads| && Barred(Apply(s, a), t)
  {
    WfStep(s, a);
    RefusalStays(s, a, s.threads[t].role.proxy);
    if a.Step? && a.t == t {
      BarredMove(s, t, a.env);
      OwnStep(s, t, a.env);
    } else {
      OthersLeave(s, a, t);
    }
    hide Apply, Enabled, Wf;
  }

  lemma OwnStep(s: State, t: nat, env: Env)
    requires Wf(s) && t < |s.threads| && CanStep(s, t, env)
    ensures var s' := Apply(s, Step(t, env));
            |s'.threads| == |s.threads| && s'.threads[t] == s.threads[t].(pc := Move(s, t, env).1)
  {
    hide Move, Effected;
    EffectFrame(s, Move(s, t, env).0);
  }

  /** Once refused short of its last check, a worker never fetches again, whatever the schedule. */
  lemma {:induction false} RetiredNeverFetches(s: State, acts: seq<Action>, t: nat)
    requires Wf(s) && Performable(s, acts) && t < |s.threads| && Barred(s, t)
    ensures t < |Run(s, acts).threads| && !Carrying(Run(s, acts).threads[t].pc)
    decreases |acts|
  {
    if acts == [] {
    } else {
      BarredStep(s, acts[0], t);
      RetiredNeverFetches(Apply(s, acts[0]), acts[1..], t);
    }
  }

  lemma FetchBegins(s: State, t: nat)
    requires Wf(s) && t < |s.threads| && s.threads[t].role.Worker? && s.threads[t].pc.Cleared?
    ensures Enabled(s, Step(t, Quiet))
    ensures var s' := Apply(s, Step(t, Quiet));
            |s'.threads| == |s.threads| && s'.threads[t].pc.Fetching? && s'.proxies == s.proxies
  {
    assert Move(s, t, Quiet).0 == Nothing;
  }

  /** The check and the fetch are separate steps: a worker already past it carries its task on the retired proxy. */
  lemma {:induction false} ClearedStillFetches(s: State, t: nat, url: string)
    requires Wf(s) && t < |s.threads| && s.threads[t].role.Worker? && s.threads[t].pc.Cleared?
    requires url in s.table && s.table[url] == s.threads[t].role.proxy
    ensures Performable(s, [Retire(url), Step(t, Quiet)])
    ensures var s' := Run(s, [Retire(url), Step(t, Quiet)]);
            && t < |s'.threads| && s'.threads[t].pc.Fetching?
            && s.table[url] < |s'.proxies| && s'.proxies[s.table[url]].retired
  {
    var s1 := Apply(s, Retire(url));
    assert Wf(s1) by { WfStep(s, Retire(url)); }
    assert s1.threads == s.threads && s1.proxies[s.table[url]].retired;
    FetchBegins(s1, t);
    RunTwo(s, Retire(url), Step(t, Quiet));
  }

  // --- giving a task back ------------------------------------------------------------------

  /** A worker that holds a tuple and is refused: one of its two checks is next, or the put that follows it. */
  predicate GivingBack(s: State, t: nat, e: Entry) {
    && t < |s.threads| && s.threads[t].role.Worker? && s.threads[t].role.proxy < |s.proxies|
    && var pc := s.threads[t].pc;
       || pc == Returning(e)
       || ((pc == Pulled(e) || pc == Woken(e)) && (s.proxies[s.threads[t].role.proxy].retired || s.stop))
  }

  predicate HasExited(s: State, t: nat) { t < |s.threads| && s.threads[t].pc == Exited }

  lemma Declines(s: State, t: nat, env: Env, e: Entry)
    requires Wf(s) && t < |s.threads| && s.threads[t].role.Worker?
    requires s.threads[t].pc == Pulled(e) || s.threads[t].pc == Woken(e)
    requires Refused(s, s.threads[t].role.proxy)
    ensures Enabled(s, Step(t, env))
    ensures Apply(s, Step(t, env)) == s.(threads := s.threads[t := s.threads[t].(pc := Returning(e))])
  {
    assert Move(s, t, env) == (Nothing, Returning(e));
  }

  lemma PutsBack(s: State, t: nat, env: Env, e: Entry)
    requires Wf(s) && t < |s.threads| && s.threads[t].role.Worker? && s.threads[t].pc == Returning(e)
    ensures Enabled(s, Step(t, env))
    ensures Apply(s, Step(t, env))
         == s.(queue := s.queue + multiset{e}, threads := s.threads[t := s.threads[t].(pc := Exited)])
  {
    assert Move(s, t, env) == (Put(e), Exited);
  }

  /** Steps of others leave a thread where it is. */
  lemma OthersLeave(s: State, a: Action, t: nat)
    requires Wf(s) && Enabled(s, a) && t < |s.threads| && !(a.Step? && a.t == t)
    ensures t < |Apply(s, a).threads| && Apply(s, a).threads[t] == s.threads[t]
  {
    hide Move, Effected;
    if a.Step? {
      EffectFrame(s, Move(s, a.t, a.env).0);
    } else {
      StartedThreads(s, a);
    }
  }

  /** The step of the thread itself that puts exactly this tuple back and ends the thread. */
  ghost predicate OwnPut(s: State, a: Action, t: nat, e: Entry)
    requires Wf(s) && Enabled(s, a)
  {
    a.Step? && a.t == t && Apply(s, a).queue == s.queue + multiset{e} && HasExited(Apply(s, a), t)
  }

  lemma GivingBackStep(s: State, a: Action, t: nat, e: Entry)
    requires Wf(s) && Enabled(s, a) && GivingBack(s, t, e)
    ensures Wf(Apply(s, a)) && (GivingBack(Apply(s, a), t, e) || OwnPut(s, a, t, e))
  {
    WfStep(s, a);
    hide Apply, Enabled, Wf;
    if a.Step? && a.t == t {
      if s.threads[t].pc == Returning(e) {
        PutsBack(s, t, a.env, e);
      } else {
        Declines(s, t, a.env, e);
      }
    } else {
      OthersLeave(s, a, t);
      var p := s.threads[t].role.proxy;
      ProxyStep(s, a);
      if Refused(s, p) { RefusalStays(s, a, p); }
    }
  }

  lemma ExitedStep(s: State, a: Action, t: nat)
    requires Wf(s) && Enabled(s, a) && HasExited(s, t)
    ensures HasExited(Apply(s, a), t)
  {
    assert !(a.Step? && a.t == t);
    hide Apply;
    OthersLeave(s, a, t);
  }

  lemma {:induction false} StaysExited(s: State, acts: seq<Action>, t: nat)
    requires Wf(s) && Performable(s, acts) && HasExited(s, t)
    ensures HasExited(Run(s, acts), t)
    decreases |acts|
  {
    if acts == [] {
    } else {
      ExitedStep(s, acts[0], t);
      WfStep(s, acts[0]);
      StaysExited(Apply(s, acts[0]), acts[1..], t);
    }
  }

  /** In every state of the run the worker still holds the tuple, up to its own put; after that it has exited. */
  ghost predicate GivesBack(s: State, acts: seq<Action>, t: nat, e: Entry)
    requires Wf(s) && Performable(s, acts)
    decreases |acts|
  {
    && GivingBack(s, t, e)
    && (acts == []
        || (WfStep(s, acts[0]);
            if GivingBack(Apply(s, acts[0]), t, e) then GivesBack(Apply(s, acts[0]), acts[1..], t, e)
            else OwnPut(s, acts[0], t, e) && HasExited(Run(s, acts), t)))
  }

  /** Once a check is refused, every schedule ends in the worker's own put of the identical tuple, and never a fetch. */
  lemma {:induction false} RefusedGivesBack(s: State, acts: seq<Action>, t: nat, e: Entry)
    requires Wf(s) && Performable(s, acts) && GivingBack(s, t, e)
    ensures GivesBack(s, acts, t, e)
    decreases |acts|
  {
    hide GivingBack, OwnPut, Apply, Enabled, Wf;
    if acts == [] {
    } else {
      var s1 := Apply(s, acts[0]);
      GivingBackStep(s, acts[0], t, e);
      if GivingBack(s1, t, e) {
        RefusedGivesBack(s1, acts[1..], t, e);
      } else {
        OwnPutExits(s, acts[0], t, e);
        StaysExited(s1, acts[1..], t);
      }
    }
  }

  lemma OwnPutExits(s: State, a: Action, t: nat, e: Entry)
    requires Wf(s) && Enabled(s, a) && OwnPut(s, a, t, e)
    ensures HasExited(Apply(s, a), t)
  {}

  // --- the race is reached --------------------------------------------------------------------

  const URL := "http://p"

  function TheTask(): Entry { Entry(0, 0, 0) }

  /** One proxy, one worker, one submitted task. */
  function Bench(cfg: Config, queued: bool, pc: Pc, p: Proxy): State {
    State(cfg, 0.0, if queued then multiset{TheTask()} else multiset{}, 1,
          [Future(TheTask(), cfg.timeout, 0, None)], [p],
          map[URL := 0], [Thread(Worker(0), pc), Thread(Submitter, Submitted)], [], [], false)
  }

  function TheProxy(): Proxy { FreshProxy(URL, 1.0).(threads := 1) }

  lemma BenchStarts(cfg: Config)
    requires cfg.streakLimit >= 1
    ensures Reaches(Init(cfg), Bench(cfg, true, Top, TheProxy()))
  {
    var s := Init(cfg);
    ReachSelf(s);
    ReachStep(s, s, Configure(URL, 1.0));
    var s1 := Configured(s, URL, 1.0);
    ReachStep(s, s1, Spawn(URL));
    var s2 := Spawned(s1, URL);
    assert s2.proxies == [TheProxy()] && s2.threads == [Thread(Worker(0), Top)] && s2.table == map[URL := 0];
    hide Reaches;
    ReachStep(s, s2, Draw(Interactive, 0));
    var s3 := Drawn(s2, Interactive, 0);
    assert s3.threads == [Thread(Worker(0), Top), Thread(Submitter, Drew(TheTask()))];
    BenchPut(cfg, s, s3);
  }

  lemma BenchPut(cfg: Config, s: State, m: State)
    requires cfg.streakLimit >= 1 && Reaches(s, m)
    requires m == Bench(cfg, false, Top, TheProxy()).(
               threads := [Thread(Worker(0), Top), Thread(Submitter, Drew(TheTask()))])
    ensures Reaches(s, Bench(cfg, true, Top, TheProxy()))
  {
    hide Reaches;
    assert Wf(m);
    assert Move(m, 1, Quiet) == (Put(TheTask()), Submitted);
    ReachStep(s, m, Step(1, Quiet));
    var r := Apply(m, Step(1, Quiet));
    assert r.queue == multiset{TheTask()} && r.threads == [Thread(Worker(0), Top), Thread(Submitter, Submitted)];
  }

  lemma BenchWf(cfg: Config, queued: bool, pc: Pc, p: Proxy)
    requires cfg.streakLimit >= 1 && p.rate > 0.0 && WfThread(1, 1, Thread(Worker(0), pc))
    ensures Wf(Bench(cfg, queued, pc, p))
  {}

  /** A step of the worker that leaves the queue alone. */
  lemma BenchStep(cfg: Config, pc: Pc, p: Proxy, queued: bool, next: Pc)
    requires cfg.streakLimit >= 1 && p.rate > 0.0 && WfThread(1, 1, Thread(Worker(0), pc))
    requires Wf(Bench(cfg, queued, pc, p)) && Enabled(Bench(cfg, queued, pc, p), Step(0, Quiet))
    requires Move(Bench(cfg, queued, pc, p), 0, Quiet) == (Nothing, next)
    requires Reaches(Init(cfg), Bench(cfg, queued, pc, p))
    ensures Reaches(Init(cfg), Bench(cfg, queued, next, p))
  {
    hide Reaches, Move, Wf, Enabled;
    var m := Bench(cfg, queued, pc, p);
    ReachStep(Init(cfg), m, Step(0, Quiet));
    assert Apply(m, Step(0, Quiet)).threads == [Thread(Worker(0), next), Thread(Submitter, Submitted)];
  }

  lemma BenchPulls(cfg: Config)
    requires cfg.streakLimit >= 1
    ensures Reaches(Init(cfg), Bench(cfg, false, Pulled(TheTask()), TheProxy()))
  {
    hide Reaches;
    var p, e := TheProxy(), TheTask();
    BenchStarts(cfg);
    BenchStep(cfg, Top, p, true, Cool);
    BenchStep(cfg, Cool, p, true, Getting);
    var m := Bench(cfg, true, Getting, p);
    assert Move(m, 0, Pull(e)) == (Get(e), Pulled(e));
    ReachStep(Init(cfg), m, Step(0, Pull(e)));
    var r := Apply(m, Step(0, Pull(e)));
    assert r.queue == multiset{} && r.threads == [Thread(Worker(0), Pulled(e)), Thread(Submitter, Submitted)];
  }

  lemma BenchTurns(cfg: Config)
    requires cfg.streakLimit >= 1 && cfg.timeout >= 0.0
    ensures Reaches(Init(cfg), Bench(cfg, false, Turn(TheTask()), TheProxy()))
  {
    hide Reaches;
    var p, e := TheProxy(), TheTask();
    BenchPulls(cfg);
    BenchStep(cfg, Pulled(e), p, false, Holding(e));
    BenchStep(cfg, Holding(e), p, false, Live(e));
    BenchStep(cfg, Live(e), p, false, Turn(e));
  }

  lemma BenchSleeps(cfg: Config)
    requires cfg.streakLimit >= 1 && cfg.timeout >= 0.0
    ensures Reaches(Init(cfg), Bench(cfg, false, Sleeping(TheTask(), 0.0), Reserve(TheProxy(), 0.0).0))
  {
    hide Reaches;
    var p, e := TheProxy(), TheTask();
    BenchTurns(cfg);
    var m := Bench(cfg, false, Turn(e), p);
    assert Move(m, 0, Quiet) == (TakeSlot(0), Sleeping(e, 0.0));
    ReachStep(Init(cfg), m, Step(0, Quiet));
    var r := Apply(m, Step(0, Quiet));
    assert r.threads == [Thread(Worker(0), Sleeping(e, 0.0)), Thread(Submitter, Submitted)];
    assert r.proxies == [Reserve(p, 0.0).0];
  }

  /** From an empty pool a run leads to a worker past its last check on a proxy that is still configured. */
  lemma BenchClears(cfg: Config)
    requires cfg.streakLimit >= 1 && cfg.timeout >= 0.0
    ensures Reaches(Init(cfg), Bench(cfg, false, Cleared(TheTask()), Reserve(TheProxy(), 0.0).0))
  {
    hide Reaches;
    var p, e := Reserve(TheProxy(), 0.0).0, TheTask();
    BenchSleeps(cfg);
    BenchStep(cfg, Sleeping(e, 0.0), p, false, Woken(e));
    BenchStep(cfg, Woken(e), p, false, Cleared(e));
  }

  /** A thread about to fetch on a proxy that has been retired. */
  predicate Racing(s: State, t: nat) {
    && t < |s.threads| && s.threads[t].role.Worker? && s.threads[t].pc.Cleared?
    && s.threads[t].role.proxy < |s.proxies| && s.proxies[s.threads[t].role.proxy].retired
  }

  /** So the promise that a retired proxy carries nothing already pulled is broken in a reachable state. */
  lemma RaceIsReached(cfg: Config)
    requires cfg.streakLimit >= 1 && cfg.timeout >= 0.0
    ensures exists s, t: nat :: Reachable(s) && Racing(s, t) &&
              s.threads[t].pc.e.fut < |s.futures| && !Done(s, s.threads[t].pc.e.fut)
  {
    hide Reaches;
    BenchClears(cfg);
    var m := Bench(cfg, false, Cleared(TheTask()), Reserve(TheProxy(), 0.0).0);
    BenchWf(cfg, false, Cleared(TheTask()), Reserve(TheProxy(), 0.0).0);
    ReachStep(Init(cfg), m, Retire(URL));
    var r := Apply(m, Retire(URL));
    assert Racing(r, 0) && !Done(r, 0);
    ReachedIsReachable(cfg, r);
  }

  lemma ReachedIsReachable(cfg: Config, r: State)
    requires cfg.streakLimit >= 1 && Reaches(Init(cfg), r)
    ensures Reachable(r)
  {}
}
