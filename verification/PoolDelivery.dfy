/**
 What a worker brings back reaches its caller: in every run, whatever the other threads
 do meanwhile, the answer of a fetch is judged once, delivered once and recorded once.
 */
module PoolDelivery {
  import opened Options
  import opened PoolRaces
  import opened PoolRuns
  import opened PoolSafety
  import opened PoolState

  /** How many of these actions are steps of thread `t`. */
  function OwnSteps(acts: seq<Action>, t: nat): nat {
    if acts == [] then 0 else (if acts[0].Step? && acts[0].t == t then 1 else 0) + OwnSteps(acts[1..], t)
  }

  /** A thread that takes no step stays where it is. */
  lemma {:induction false} Waits(s: State, acts: seq<Action>, t: nat)
    requires Wf(s) && Performable(s, acts) && t < |s.threads| && OwnSteps(acts, t) == 0
    ensures t < |Run(s, acts).threads| && Run(s, acts).threads[t] == s.threads[t]
    ensures |s.futures| <= |Run(s, acts).futures| && |s.proxies| <= |Run(s, acts).proxies|
    ensures s.now <= Run(s, acts).now
    decreases |acts|
  {
    if acts == [] {
    } else {
      WfStep(s, acts[0]);
      OthersLeave(s, acts[0], t);
      ListsGrow(s, acts[0]);
      hide Apply, Enabled;
      Waits(Apply(s, acts[0]), acts[1..], t);
    }
  }

  lemma ListsGrow(s: State, a: Action)
    requires Wf(s) && Enabled(s, a)
    ensures var r := Apply(s, a); |s.futures| <= |r.futures| && |s.proxies| <= |r.proxies| && s.now <= r.now
  {
    hide Move, Effected;
    FuturesStep(s, a);
    if a.Step? { EffectFrame(s, Move(s, a.t, a.env).0); }
  }

  /** With one step of its own, a thread is where that step takes it, if that is the same in every state. */
  lemma {:induction false} StepsOnce(s: State, acts: seq<Action>, t: nat, next: Pc)
    requires Wf(s) && Performable(s, acts) && t < |s.threads| && OwnSteps(acts, t) == 1
    requires forall r, env | Wf(r) && t < |r.threads| && r.threads[t] == s.threads[t] && CanStep(r, t, env) ::
               Move(r, t, env).1 == next
    ensures t < |Run(s, acts).threads| && Run(s, acts).threads[t] == s.threads[t].(pc := next)
    ensures |s.futures| <= |Run(s, acts).futures| && |s.proxies| <= |Run(s, acts).proxies|
    decreases |acts|
  {
    hide Move;
    WfStep(s, acts[0]);
    ListsGrow(s, acts[0]);
    if acts[0].Step? && acts[0].t == t {
      OwnStep(s, t, acts[0].env);
      hide Apply, Enabled;
      Waits(Apply(s, acts[0]), acts[1..], t);
    } else {
      OthersLeave(s, acts[0], t);
      hide Apply, Enabled;
      StepsOnce(Apply(s, acts[0]), acts[1..], t, next);
    }
  }

  /** What a fetch brings: an outcome, what the caller will read, and whether the proxy is judged by it. */
  datatype Haul = Haul(outcome: Outcome, result: Result, judged: bool, took: real)

  /** `own` is the body in the caller's own shape; `wall` the milliseconds the fetch took by the clock. */
  function Brought(env: Env, own: nat, wall: real): Haul
    requires env.Answer? || env.RaisedNoProxy? || env.Raised?
  {
    match env
    case Answer(o, body, ms) =>
      Haul(o, Result(body, if o == ProxyError then Blocked else o), true,
           if ms.Some? && ms.value >= 0.0 then ms.value else wall)
    case RaisedNoProxy => Haul(NoProxy, Result(own, NoProxy), false, wall)
    case Raised => Haul(ParseFailed, Result(own, ParseFailed), false, wall)
  }

  predicate Fetches(s: State, t: nat) { t < |s.threads| && s.threads[t].role.Worker? && s.threads[t].pc.Fetching? }

  ghost function Haul0(s: State, t: nat, env: Env): Haul
    requires Wf(s) && Fetches(s, t) && CanStep(s, t, env)
  {
    var pc := s.threads[t].pc;
    Brought(env, s.futures[pc.e.fut].body, (s.now - pc.started) * 1000.0)
  }

  lemma FetchEnds(s: State, t: nat, env: Env)
    requires Wf(s) && Fetches(s, t) && CanStep(s, t, env)
    ensures var r, h := Apply(s, Step(t, env)), Haul0(s, t, env);
            && Wf(r) && r.proxies == s.proxies && r.futures == s.futures && r.queue == s.queue
            && |r.threads| == |s.threads| && r.threads[t].role == s.threads[t].role
            && r.threads[t].pc.Fetched? && r.threads[t].pc.e == s.threads[t].pc.e
            && r.threads[t].pc.outcome == h.outcome && r.threads[t].pc.counts == h.judged
            && r.threads[t].pc.body == h.result.body && r.threads[t].pc.latency == h.took
            && h.outcome != Expired && h.result.outcome == (if h.outcome == ProxyError then Blocked else h.outcome)
  {
    WfStep(s, Step(t, env));
    OwnStep(s, t, env);
  }

  /** The next step of the thread is the only one that may judge the proxy. */
  lemma Judges(s: State, t: nat, env: Env)
    requires Wf(s) && t < |s.threads| && s.threads[t].role.Worker? && s.threads[t].pc.Fetched? && CanStep(s, t, env)
    ensures var r, pc, p := Apply(s, Step(t, env)), s.threads[t].pc, s.threads[t].role.proxy;
            && r.futures == s.futures && |r.proxies| == |s.proxies|
            && r.proxies[p].answers
               == s.proxies[p].answers + (if pc.counts then [pc.outcome == Blocked || pc.outcome == ProxyError] else [])
            && forall q | 0 <= q < |s.proxies| && q != p :: r.proxies[q] == s.proxies[q]
  {}

  lemma AfterJudging(s: State, t: nat, env: Env)
    requires Wf(s) && t < |s.threads| && s.threads[t].role.Worker? && s.threads[t].pc.Fetched? && CanStep(s, t, env)
    requires s.threads[t].pc.outcome != Expired
    ensures var pc := s.threads[t].pc;
            Move(s, t, env).1
              == Resolving(pc.e, pc.outcome, Result(pc.body, if pc.outcome == ProxyError then Blocked else pc.outcome),
                           pc.latency)
  {}

  lemma Delivers(s: State, t: nat, env: Env)
    requires Wf(s) && t < |s.threads| && s.threads[t].role.Worker? && s.threads[t].pc.Resolving? && CanStep(s, t, env)
    ensures var r, pc := Apply(s, Step(t, env)), s.threads[t].pc;
            && r.proxies == s.proxies && |r.futures| == |s.futures| && |r.threads| == |s.threads|
            && r.queue == s.queue
            && (!Done(s, pc.e.fut) ==>
                  && r.futures == s.futures[pc.e.fut := s.futures[pc.e.fut].(result := Some(pc.result))]
                  && r.threads[t].pc == Settled(pc.outcome, Some(s.threads[t].role.proxy), Some(pc.latency)))
            && (Done(s, pc.e.fut) ==> r.futures == s.futures && r.threads[t].pc == Top)
  {}

  /**
   In every run after a fetch its thread's next step judges the proxy: once for an answer, as a refusal exactly when
   it was blocked or the proxy failed, and not at all for an exception.
   */
  lemma {:induction false} FetchIsJudged(s: State, t: nat, env: Env, acts: seq<Action>, last: Env)
    requires Wf(s) && Fetches(s, t) && Enabled(s, Step(t, env)) && Wf(Apply(s, Step(t, env)))
    requires Performable(Apply(s, Step(t, env)), acts) && OwnSteps(acts, t) == 0
    requires Enabled(Run(Apply(s, Step(t, env)), acts), Step(t, last))
    ensures var p := s.threads[t].role.proxy;
            var m := Run(Apply(s, Step(t, env)), acts);
            var r := Apply(m, Step(t, last));
            && Apply(s, Step(t, env)).proxies == s.proxies && p < |m.proxies| == |r.proxies|
            && r.proxies[p].answers
               == m.proxies[p].answers
                  + (if env.Answer? then [env.outcome == Blocked || env.outcome == ProxyError] else [])
            && forall q | 0 <= q < |m.proxies| && q != p :: r.proxies[q] == m.proxies[q]
  {
    FetchEnds(s, t, env);
    var s1 := Apply(s, Step(t, env));
    Waits(s1, acts, t);
    hide Apply, Performable, Run, Move, Wf;
    Judges(Run(s1, acts), t, last);
  }

  /**
   In every run after a fetch the second step of its thread resolves the future with exactly what the fetch brought,
   in the caller's own shape if it was an exception, and goes on to record it; a future resolved by then is left alone.
   */
  lemma {:induction false} FetchIsDelivered(s: State, t: nat, env: Env, acts: seq<Action>, last: Env)
    requires Wf(s) && Fetches(s, t) && Enabled(s, Step(t, env)) && Wf(Apply(s, Step(t, env)))
    requires Performable(Apply(s, Step(t, env)), acts) && OwnSteps(acts, t) == 1
    requires Enabled(Run(Apply(s, Step(t, env)), acts), Step(t, last))
    ensures var f, p, h := s.threads[t].pc.e.fut, s.threads[t].role.proxy, Haul0(s, t, env);
            var m := Run(Apply(s, Step(t, env)), acts);
            var r := Apply(m, Step(t, last));
            && r.proxies == m.proxies && f < |m.futures| == |r.futures| && t < |m.threads| == |r.threads|
            && (if Done(m, f) then r.futures == m.futures && r.threads[t].pc == Top
                else r.futures[f].result == Some(h.result)
                     && r.threads[t].pc == Settled(h.outcome, Some(p), Some(h.took)))
  {
    FetchEnds(s, t, env);
    var s1 := Apply(s, Step(t, env));
    var pc := s1.threads[t].pc;
    var shown := Result(pc.body, if pc.outcome == ProxyError then Blocked else pc.outcome);
    var next := Resolving(pc.e, pc.outcome, shown, pc.latency);
    forall r, e | Wf(r) && t < |r.threads| && r.threads[t] == s1.threads[t] && CanStep(r, t, e)
      ensures Move(r, t, e).1 == next
    {
      AfterJudging(r, t, e);
    }
    StepsOnce(s1, acts, t, next);
    hide Apply, Performable, Run, Move, Wf;
    Delivers(Run(s1, acts), t, last);
  }

  /** What a thread has settled it records as just that outcome, at the time of a later clock reading. */
  lemma {:induction false} SettledIsRecorded(s: State, t: nat, acts: seq<Action>, last: Env)
    requires Wf(s) && t < |s.threads| && s.threads[t].pc.Settled? && Performable(s, acts) && OwnSteps(acts, t) == 1
    requires Enabled(Run(s, acts), Step(t, last))
    ensures var pc, m := s.threads[t].pc, Run(s, acts);
            var log := Apply(m, Step(t, last)).log;
            && |log| == |m.log| + 1 && log[..|m.log|] == m.log
            && log[|m.log|].task == !s.threads[t].role.Reporter?
            && log[|m.log|].event.outcome == pc.outcome && log[|m.log|].event.proxy == pc.via
            && log[|m.log|].event.latency == pc.took
            && s.now <= log[|m.log|].event.ts <= m.now
    decreases |acts|
  {
    var a := acts[0];
    WfStep(s, a);
    ListsGrow(s, a);
    if a.Step? && a.t == t {
      Stamps(s, t, a.env);
      var s1 := Apply(s, a);
      Waits(s1, acts[1..], t);
      hide Apply, Performable, Run, Move, Wf;
      Writes(Run(s1, acts[1..]), t, last);
    } else {
      OthersLeave(s, a, t);
      hide Apply, Enabled;
      SettledIsRecorded(Apply(s, a), t, acts[1..], last);
    }
  }

  lemma Stamps(s: State, t: nat, env: Env)
    requires Wf(s) && t < |s.threads| && s.threads[t].pc.Settled? && CanStep(s, t, env)
    ensures var r, pc := Apply(s, Step(t, env)), s.threads[t].pc;
            && Wf(r) && r.now == s.now && |r.threads| == |s.threads|
            && r.threads[t] == s.threads[t].(pc := Stamped(Event(s.now, pc.outcome, pc.via, pc.took)))
  {
    WfStep(s, Step(t, env));
  }

  lemma Writes(s: State, t: nat, env: Env)
    requires Wf(s) && t < |s.threads| && s.threads[t].pc.Stamped? && CanStep(s, t, env)
    ensures Apply(s, Step(t, env)).log == s.log + [Logged(s.threads[t].pc.event, !s.threads[t].role.Reporter?)]
  {}
}
