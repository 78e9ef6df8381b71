/**
 What every interleaving of the pool keeps: each unresolved task is in exactly one
 place, queue keys never tie, a result is final, an expiry is never early, and the
 recorded events account for every resolved future.
 */
module PoolSafety {
  import opened Counting
  import opened Numbers
  import opened Options
  import opened PoolState

  // --- where a task is ------------------------------------------------------------

  ghost predicate Holds(threads: seq<Thread>, t: nat, e: Entry) {
    t < |threads| && Held(threads[t].pc) == Some(e)
  }

  ghost predicate Genuine(futures: seq<Future>, e: Entry) {
    e.fut < |futures| && futures[e.fut].entry == e
  }

  ghost predicate Somewhere(s: State, e: Entry) {
    e in s.queue || exists t: nat :: Holds(s.threads, t, e)
  }

  /** At most one place per task, and one place exactly while it is unresolved. */
  ghost predicate Places(s: State) {
    && (forall f | 0 <= f < |s.futures| :: s.futures[f].entry.fut == f)
    && (forall e | e in s.queue :: Genuine(s.futures, e) && s.queue[e] == 1)
    && (forall t: nat, e | Holds(s.threads, t, e) :: Genuine(s.futures, e) && e !in s.queue)
    && (forall t: nat, u: nat, e | Holds(s.threads, t, e) && Holds(s.threads, u, e) :: t == u)
    && (forall f | 0 <= f < |s.futures| && !Done(s, f) :: Somewhere(s, s.futures[f].entry))
  }

  /** Sequence numbers are handed out in order and never twice. */
  ghost predicate Numbered(s: State) {
    && (forall f, g | 0 <= f < g < |s.futures| :: s.futures[f].entry.no < s.futures[g].entry.no)
    && (forall f | 0 <= f < |s.futures| :: s.futures[f].entry.no < s.nextSeq)
  }

  /** An entry is handed over whole: put after being held, held after being got, dropped only once resolved. */
  ghost predicate HandsOver(s: State, pc: Pc, r: (Effect, Pc)) {
    match r.0
    case Put(e) => Held(pc) == Some(e) && Held(r.1) == None
    case Get(e) => Held(pc) == None && Held(r.1) == Some(e)
    case SetResult(f, _) => Held(r.1) == None && (Held(pc) == None || Held(pc).value.fut == f)
    case _ =>
      Held(r.1) == Held(pc)
      || (Held(r.1) == None && Held(pc).value.fut < |s.futures| && Done(s, Held(pc).value.fut))
  }

  lemma QueueMoveHands(s: State, proxy: nat, pc: Pc, env: Env)
    requires proxy < |s.proxies| && WfThread(|s.proxies|, |s.futures|, Thread(Worker(proxy), pc))
    requires pc.Getting? && env.Pull? ==> env.e in s.queue && env.e.fut < |s.futures|
    ensures HandsOver(s, pc, QueueMove(s, proxy, pc, env))
  {
  }

  lemma FetchMoveHands(s: State, proxy: nat, pc: Pc, env: Env)
    requires proxy < |s.proxies| && s.proxies[proxy].rate > 0.0
    requires WfThread(|s.proxies|, |s.futures|, Thread(Worker(proxy), pc))
    ensures HandsOver(s, pc, FetchMove(s, proxy, pc, env))
  {
  }

  lemma MoveHands(s: State, t: nat, env: Env)
    requires Wf(s) && t < |s.threads| && CanStep(s, t, env)
    ensures HandsOver(s, s.threads[t].pc, Move(s, t, env))
  {
    var th := s.threads[t];
    if th.role.Worker? && !th.pc.Settled? && !th.pc.Stamped? {
      if Queueing(th.pc) {
        QueueMoveHands(s, th.role.proxy, th.pc, env);
      } else {
        FetchMoveHands(s, th.role.proxy, th.pc, env);
      }
    }
  }

  lemma HoldsAfter(s: State, t: nat, pc: Pc, s': State)
    requires t < |s.threads| && s'.threads == s.threads[t := s.threads[t].(pc := pc)]
    ensures forall u: nat, e :: Holds(s'.threads, u, e)
                           <==> if u == t then Held(pc) == Some(e) else Holds(s.threads, u, e)
  {
  }

  lemma PlacesPut(s: State, t: nat, e: Entry, pc: Pc)
    requires Places(s) && t < |s.threads| && Held(s.threads[t].pc) == Some(e) && Held(pc) == None
    requires EffectOk(s, Put(e))
    ensures Places(Commit(s, t, (Put(e), pc)))
  {
    var s' := Commit(s, t, (Put(e), pc));
    HoldsAfter(s, t, pc, s');
    assert Holds(s.threads, t, e);
    forall f | 0 <= f < |s.futures| && !Done(s, f) ensures Somewhere(s', s'.futures[f].entry) {
      var x := s.futures[f].entry;
      assert Somewhere(s, x);
      if x !in s'.queue {
        var u: nat :| Holds(s.threads, u, x);
        assert Holds(s'.threads, u, x);
      }
    }
  }

  lemma PlacesGet(s: State, t: nat, e: Entry, pc: Pc)
    requires Places(s) && t < |s.threads| && Held(s.threads[t].pc) == None && Held(pc) == Some(e)
    requires EffectOk(s, Get(e))
    ensures Places(Commit(s, t, (Get(e), pc)))
  {
    var s' := Commit(s, t, (Get(e), pc));
    HoldsAfter(s, t, pc, s');
    assert Holds(s'.threads, t, e);
    forall f | 0 <= f < |s.futures| && !Done(s, f) ensures Somewhere(s', s'.futures[f].entry) {
      var x := s.futures[f].entry;
      assert Somewhere(s, x);
      if x !in s.queue {
        var u: nat :| Holds(s.threads, u, x);
        assert Holds(s'.threads, u, x);
      }
    }
  }

  /** A step that leaves the queue alone and either keeps what it holds or drops something resolved by then. */
  lemma PlacesDrop(s: State, t: nat, eff: Effect, pc: Pc)
    requires Places(s) && t < |s.threads| && EffectOk(s, eff) && !eff.Put? && !eff.Get?
    requires Held(pc) == Held(s.threads[t].pc)
             || (Held(pc) == None && Held(s.threads[t].pc).value.fut < |s.futures|
                 && Done(Effected(s, eff), Held(s.threads[t].pc).value.fut))
    ensures Places(Commit(s, t, (eff, pc)))
  {
    var m := Effected(s, eff);
    assert m.queue == s.queue;
    EffectFrame(s, eff);
    hide Effected, EffectOk, Places, Held;
    PlacesKept(s, m, t, pc);
  }

  lemma PlacesKept(s: State, m: State, t: nat, pc: Pc)
    requires Places(s) && t < |s.threads| && m.queue == s.queue && m.threads == s.threads
    requires FuturesGrow(s.futures, m.futures) && |m.futures| == |s.futures|
    requires Held(pc) == Held(s.threads[t].pc)
             || (Held(pc) == None && Held(s.threads[t].pc).value.fut < |s.futures|
                 && Done(m, Held(s.threads[t].pc).value.fut))
    ensures Places(SetPc(m, t, pc))
  {
    hide Held;
    var s' := SetPc(m, t, pc);
    HoldsAfter(s, t, pc, s');
    assert forall e | Held(pc) == Some(e) :: Holds(s.threads, t, e);
    forall f | 0 <= f < |s.futures| && !Done(m, f) ensures Somewhere(s', s'.futures[f].entry) {
      var x := s.futures[f].entry;
      assert Somewhere(s, x);
      if x !in s.queue {
        var u: nat :| Holds(s.threads, u, x);
        assert Holds(s'.threads, u, x);
      }
    }
  }

  lemma PlacesMove(s: State, t: nat, env: Env)
    requires Wf(s) && Places(s) && t < |s.threads| && CanStep(s, t, env)
    ensures Places(Commit(s, t, Move(s, t, env)))
  {
    MoveHands(s, t, env);
    var (eff, pc) := Move(s, t, env);
    match eff
    case Put(e) => PlacesPut(s, t, e, pc);
    case Get(e) => PlacesGet(s, t, e, pc);
    case _ => PlacesDrop(s, t, eff, pc);
  }

  lemma PlacesDrawn(s: State, lane: Lane, body: nat)
    requires Wf(s) && Places(s)
    ensures Places(Drawn(s, lane, body))
  {
    var s', n := Drawn(s, lane, body), |s.threads|;
    var e := s'.futures[|s.futures|].entry;
    assert Holds(s'.threads, n, e);
    assert forall u: nat, x | u < n :: Holds(s'.threads, u, x) <==> Holds(s.threads, u, x);
    forall f | 0 <= f < |s'.futures| && !Done(s', f) ensures Somewhere(s', s'.futures[f].entry) {
      if f < |s.futures| {
        var x := s.futures[f].entry;
        assert !Done(s, f) && Somewhere(s, x);
        if x !in s.queue {
          var u: nat :| Holds(s.threads, u, x);
          assert Holds(s'.threads, u, x);
        }
      }
    }
  }

  /** Nothing outside the threads' own steps and `submit` touches a task. */
  lemma PlacesOther(s: State, a: Action)
    requires Wf(s) && Places(s) && Enabled(s, a) && !a.Step? && !a.Draw?
    ensures Places(Apply(s, a))
  {
    StartedThreads(s, a);
    PlacesGrown(s, Apply(s, a));
  }

  lemma PlacesGrown(s: State, s': State)
    requires Places(s) && s'.futures == s.futures && s'.queue == s.queue
    requires |s.threads| <= |s'.threads| && s'.threads[..|s.threads|] == s.threads
    requires forall u: nat | |s.threads| <= u < |s'.threads| :: Held(s'.threads[u].pc) == None
    ensures Places(s')
  {
    forall u: nat, x ensures Holds(s'.threads, u, x) <==> Holds(s.threads, u, x) {
      if u < |s.threads| { assert s'.threads[u] == s'.threads[..|s.threads|][u]; }
    }
    forall f | 0 <= f < |s.futures| && !Done(s', f) ensures Somewhere(s', s'.futures[f].entry) {
      var x := s.futures[f].entry;
      assert !Done(s, f) && Somewhere(s, x);
      if x !in s.queue {
        var u: nat :| Holds(s.threads, u, x);
        assert Holds(s'.threads, u, x);
      }
    }
  }

  lemma PlacesStep(s: State, a: Action)
    requires Wf(s) && Places(s) && Enabled(s, a)
    ensures Places(Apply(s, a))
  {
    match a
    case Step(t, env) => PlacesMove(s, t, env);
    case Draw(lane, body) => PlacesDrawn(s, lane, body);
    case _ => PlacesOther(s, a);
  }

  lemma FuturesStep(s: State, a: Action)
    requires Wf(s) && Enabled(s, a)
    ensures var s' := Apply(s, a);
            FuturesGrow(s.futures, s'.futures) && s.nextSeq <= s'.nextSeq && s.now <= s'.now
    ensures !a.Draw? ==> |Apply(s, a).futures| == |s.futures| && Apply(s, a).nextSeq == s.nextSeq
  {
    hide Move, Effected;
    if a.Step? {
      EffectFrame(s, Move(s, a.t, a.env).0);
    }
  }

  lemma NumberedStep(s: State, a: Action)
    requires Wf(s) && Numbered(s) && Enabled(s, a)
    ensures Numbered(Apply(s, a))
  {
    hide Move, Effected;
    FuturesStep(s, a);
  }

  // --- deadlines and results ---------------------------------------------------------

  /** What a thread's program counter promises about the clock and the futures. */
  ghost predicate Honest(now: real, futures: seq<Future>, th: Thread)
    requires th.role.Waiter? ==> th.role.fut < |futures|
    requires Held(th.pc).Some? ==> Held(th.pc).value.fut < |futures|
  {
    && (th.pc.Stamped? ==> th.pc.event.ts <= now)
    && (th.pc.Lapsed? ==> now > futures[th.pc.e.fut].deadline)
    && (th.pc.Fetched? ==> th.pc.outcome != Expired)
    && (th.pc.Resolving? ==> th.pc.outcome != Expired && th.pc.result.outcome == Wire(th.pc.outcome))
    && (th.role.Waiter? && th.pc.Waiting? ==> th.pc.until >= futures[th.role.fut].deadline + WAIT_SLACK)
    && (th.role.Waiter? && th.pc.TimedOut? ==> now >= futures[th.role.fut].deadline + WAIT_SLACK)
    && (th.role.Waiter? && th.pc.Returned? ==> futures[th.role.fut].result == Some(th.pc.result))
  }

  ghost predicate AllHonest(s: State)
    requires Wf(s)
  {
    forall t | 0 <= t < |s.threads| :: Honest(s.now, s.futures, s.threads[t])
  }

  lemma QueueMoveHonest(s: State, proxy: nat, pc: Pc, env: Env)
    requires proxy < |s.proxies| && WfThread(|s.proxies|, |s.futures|, Thread(Worker(proxy), pc))
    requires Queueing(pc) && (pc.Getting? && env.Pull? ==> env.e in s.queue && env.e.fut < |s.futures|)
    ensures Honest(s.now, s.futures, Thread(Worker(proxy), QueueMove(s, proxy, pc, env).1))
  {
  }

  lemma FetchMoveHonest(s: State, proxy: nat, pc: Pc, env: Env)
    requires proxy < |s.proxies| && s.proxies[proxy].rate > 0.0 && !Queueing(pc)
    requires WfThread(|s.proxies|, |s.futures|, Thread(Worker(proxy), pc))
    requires pc.Fetching? ==> env.RaisedNoProxy? || env.Raised? || (env.Answer? && env.outcome != Expired)
    requires Honest(s.now, s.futures, Thread(Worker(proxy), pc))
    ensures Honest(s.now, s.futures, Thread(Worker(proxy), FetchMove(s, proxy, pc, env).1))
  {
  }

  lemma MoveHonest(s: State, t: nat, env: Env)
    requires Wf(s) && AllHonest(s) && t < |s.threads| && CanStep(s, t, env)
    ensures Honest(s.now, s.futures, Thread(s.threads[t].role, Move(s, t, env).1))
  {
    var th := s.threads[t];
    assert Honest(s.now, s.futures, th);
    if th.role.Worker? && !th.pc.Settled? && !th.pc.Stamped? {
      if Queueing(th.pc) {
        QueueMoveHonest(s, th.role.proxy, th.pc, env);
      } else {
        FetchMoveHonest(s, th.role.proxy, th.pc, env);
      }
    }
  }

  /** The promises survive time passing, futures being added and results being set. */
  lemma HonestLater(s: State, s': State, th: Thread)
    requires WfThread(|s.proxies|, |s.futures|, th) && Honest(s.now, s.futures, th)
    requires s.now <= s'.now && FuturesGrow(s.futures, s'.futures)
    ensures Honest(s'.now, s'.futures, th)
  {
    if th.pc.Returned? && th.role.Waiter? {
      assert Done(s, th.role.fut);
    }
  }

  lemma HonestCommit(s: State, t: nat, env: Env)
    requires Wf(s) && AllHonest(s) && Enabled(s, Step(t, env)) && Wf(Apply(s, Step(t, env)))
    ensures AllHonest(Apply(s, Step(t, env)))
  {
    hide Move, Effected;
    FuturesStep(s, Step(t, env));
    MoveHonest(s, t, env);
    EffectFrame(s, Move(s, t, env).0);
    var s' := Apply(s, Step(t, env));
    var th := Thread(s.threads[t].role, Move(s, t, env).1);
    assert s'.threads == s.threads[t := th];
    forall u | 0 <= u < |s'.threads| ensures Honest(s'.now, s'.futures, s'.threads[u]) {
      if u == t {
        HonestLater(s, s', th);
      } else {
        HonestLater(s, s', s.threads[u]);
      }
    }
  }

  /** The thread an outside action starts, if it starts one. */
  function Started(s: State, a: Action): seq<Thread>
    requires Wf(s) && (a.StartWait? ==> a.f < |s.futures|) && (a.Spawn? ==> a.url in s.table)
  {
    match a
    case Draw(lane, body) => [Thread(Submitter, Drew(Entry(LanePriority(lane), s.nextSeq, |s.futures|)))]
    case StartWait(f) =>
      [Thread(Waiter(f), Waiting(s.now + MaxReal(0.0, s.futures[f].deadline - s.now) + WAIT_SLACK))]
    case Report => [Thread(Reporter, Settled(NoProxy, None, None))]
    case Spawn(url) => [Thread(Worker(s.table[url]), Top)]
    case _ => []
  }

  lemma StartedThreads(s: State, a: Action)
    requires Wf(s) && Enabled(s, a) && !a.Step?
    ensures Apply(s, a).threads == s.threads + Started(s, a)
    ensures Apply(s, a).log == s.log
    ensures !a.Draw? ==> Apply(s, a).futures == s.futures && Apply(s, a).queue == s.queue
  {
  }

  lemma HonestOutside(s: State, a: Action)
    requires Wf(s) && AllHonest(s) && Enabled(s, a) && !a.Step? && Wf(Apply(s, a))
    ensures AllHonest(Apply(s, a))
  {
    FuturesStep(s, a);
    StartedThreads(s, a);
    var s' := Apply(s, a);
    forall u | 0 <= u < |s'.threads| ensures Honest(s'.now, s'.futures, s'.threads[u]) {
      if u < |s.threads| {
        HonestLater(s, s', s.threads[u]);
      }
    }
  }

  lemma HonestStep(s: State, a: Action)
    requires Wf(s) && AllHonest(s) && Enabled(s, a) && Wf(Apply(s, a))
    ensures AllHonest(Apply(s, a))
  {
    if a.Step? {
      HonestCommit(s, a.t, a.env);
    } else {
      HonestOutside(s, a);
    }
  }

  lemma ExpiresWhenDue(s: State, t: nat, env: Env)
    requires Wf(s) && AllHonest(s) && t < |s.threads| && CanStep(s, t, env)
    ensures var (eff, pc) := Move(s, t, env);
            eff.SetResult? && pc.Settled? && pc.outcome == Expired ==>
              && s.now >= s.futures[eff.f].deadline
              && eff.result == Result(s.futures[eff.f].body, Blocked)
  {
    assert Honest(s.now, s.futures, s.threads[t]);
  }

  // --- the books -----------------------------------------------------------------------

  function DoneAs(w: Outcome): Future -> bool {
    (f: Future) => f.result.Some? && f.result.value.outcome == w
  }

  function LoggedAs(w: Outcome): Logged -> bool {
    (l: Logged) => l.task && Wire(l.event.outcome) == w
  }

  /** The wire outcome a thread has delivered but not yet recorded. */
  function Owed(th: Thread): Option<Outcome> {
    if th.role.Reporter? then None
    else if th.pc.Settled? then Some(Wire(th.pc.outcome))
    else if th.pc.Stamped? then Some(Wire(th.pc.event.outcome))
    else None
  }

  function OwedAs(w: Outcome): Thread -> bool {
    (th: Thread) => Owed(th) == Some(w)
  }

  /** Per wire outcome: resolved futures are exactly the recorded task events plus those a thread is about to record. */
  ghost predicate Balanced(s: State) {
    forall w ::
      Count(s.futures, DoneAs(w)) == Count(s.log, LoggedAs(w)) + Count(s.threads, OwedAs(w))
  }

  ghost predicate KeepsBooks(role: Role, pc: Pc, r: (Effect, Pc)) {
    match r.0
    case SetResult(_, result) => Owed(Thread(role, pc)) == None && Owed(Thread(role, r.1)) == Some(result.outcome)
    case Record(event, task) =>
      && Owed(Thread(role, pc)) == (if task then Some(Wire(event.outcome)) else None)
      && Owed(Thread(role, r.1)) == None
    case _ => Owed(Thread(role, pc)) == Owed(Thread(role, r.1))
  }

  lemma QueueMoveBooks(s: State, proxy: nat, pc: Pc, env: Env)
    requires proxy < |s.proxies| && WfThread(|s.proxies|, |s.futures|, Thread(Worker(proxy), pc)) && Queueing(pc)
    requires pc.Getting? && env.Pull? ==> env.e in s.queue && env.e.fut < |s.futures|
    ensures KeepsBooks(Worker(proxy), pc, QueueMove(s, proxy, pc, env))
  {
  }

  lemma FetchMoveBooks(s: State, proxy: nat, pc: Pc, env: Env)
    requires proxy < |s.proxies| && s.proxies[proxy].rate > 0.0
    requires WfThread(|s.proxies|, |s.futures|, Thread(Worker(proxy), pc))
    requires Honest(s.now, s.futures, Thread(Worker(proxy), pc))
    ensures KeepsBooks(Worker(proxy), pc, FetchMove(s, proxy, pc, env))
  {
  }

  lemma MoveBooks(s: State, t: nat, env: Env)
    requires Wf(s) && AllHonest(s) && t < |s.threads| && CanStep(s, t, env)
    ensures KeepsBooks(s.threads[t].role, s.threads[t].pc, Move(s, t, env))
  {
    var th := s.threads[t];
    assert Honest(s.now, s.futures, th);
    if th.role.Worker? && !th.pc.Settled? && !th.pc.Stamped? {
      if Queueing(th.pc) {
        QueueMoveBooks(s, th.role.proxy, th.pc, env);
      } else {
        FetchMoveBooks(s, th.role.proxy, th.pc, env);
      }
    }
  }

  lemma BalancedCommit(s: State, t: nat, m: (Effect, Pc))
    requires Balanced(s) && t < |s.threads| && EffectOk(s, m.0)
    requires KeepsBooks(s.threads[t].role, s.threads[t].pc, m)
    ensures Balanced(Commit(s, t, m))
  {
    var s' := Commit(s, t, m);
    forall w ensures Count(s'.futures, DoneAs(w)) == Count(s'.log, LoggedAs(w)) + Count(s'.threads, OwedAs(w)) {
      CountUpdate(s.threads, t, s.threads[t].(pc := m.1), OwedAs(w));
      match m.0
      case SetResult(f, r) => CountUpdate(s.futures, f, s.futures[f].(result := Some(r)), DoneAs(w));
      case Record(event, task) => CountAppend(s.log, Logged(event, task), LoggedAs(w));
      case _ =>
    }
  }

  lemma BalancedOutside(s: State, a: Action)
    requires Wf(s) && Balanced(s) && Enabled(s, a) && !a.Step?
    ensures Balanced(Apply(s, a))
  {
    StartedThreads(s, a);
    StartedOwe(s, a);
    if a.Draw? { DrawnUnresolved(s, a); }
    hide Apply, Started, Enabled, Wf;
    var s', started := Apply(s, a), Started(s, a);
    forall w ensures Count(s'.futures, DoneAs(w)) == Count(s'.log, LoggedAs(w)) + Count(s'.threads, OwedAs(w)) {
      CountConcat(s.threads, started, OwedAs(w));
      CountNone(started, OwedAs(w));
      if a.Draw? {
        CountAppend(s.futures, s'.futures[|s.futures|], DoneAs(w));
      }
    }
  }

  lemma StartedOwe(s: State, a: Action)
    requires Wf(s) && Enabled(s, a) && !a.Step?
    ensures forall i | 0 <= i < |Started(s, a)| :: Owed(Started(s, a)[i]) == None
  {}

  lemma DrawnUnresolved(s: State, a: Action)
    requires Wf(s) && Enabled(s, a) && a.Draw?
    ensures var r := Apply(s, a);
            && |r.futures| == |s.futures| + 1 && r.futures == s.futures + [r.futures[|s.futures|]]
            && r.futures[|s.futures|].result == None
  {}

  lemma BalancedStep(s: State, a: Action)
    requires Wf(s) && AllHonest(s) && Balanced(s) && Enabled(s, a)
    ensures Balanced(Apply(s, a))
  {
    if a.Step? {
      MoveBooks(s, a.t, a.env);
      BalancedCommit(s, a.t, Move(s, a.t, a.env));
    } else {
      BalancedOutside(s, a);
    }
  }

  // --- every run -------------------------------------------------------------------------

  ghost predicate Safe(s: State) {
    Wf(s) && Places(s) && Numbered(s) && AllHonest(s) && Balanced(s)
  }

  lemma SafeStep(s: State, a: Action)
    requires Safe(s) && Enabled(s, a)
    ensures Safe(Apply(s, a))
  {
    WfStep(s, a);
    PlacesStep(s, a);
    NumberedStep(s, a);
    HonestStep(s, a);
    BalancedStep(s, a);
  }

  lemma {:induction false} SafeRun(s: State, acts: seq<Action>)
    requires Safe(s) && Performable(s, acts)
    ensures Safe(Run(s, acts))
    decreases |acts|
  {
    if acts == [] {
    } else {
      SafeStep(s, acts[0]);
      SafeRun(Apply(s, acts[0]), acts[1..]);
    }
  }

  ghost predicate Reachable(s: State) {
    exists cfg: Config, acts: seq<Action> ::
      cfg.streakLimit >= 1 && Performable(Init(cfg), acts) && s == Run(Init(cfg), acts)
  }

  lemma ReachableSafe(s: State)
    requires Reachable(s)
    ensures Safe(s)
  {
    var cfg: Config, acts: seq<Action> :|
      cfg.streakLimit >= 1 && Performable(Init(cfg), acts) && s == Run(Init(cfg), acts);
    SafeRun(Init(cfg), acts);
  }

  /** A future is resolved as expired only once its own deadline has passed, and in its caller's own shape. */
  lemma NeverExpiredEarly(s: State, t: nat, env: Env)
    requires Reachable(s) && Wf(s) && t < |s.threads| && CanStep(s, t, env)
    ensures var (eff, pc) := Move(s, t, env);
            eff.SetResult? && pc.Settled? && pc.outcome == Expired ==>
              && s.now >= s.futures[eff.f].deadline
              && eff.result == Result(s.futures[eff.f].body, Blocked)
  {
    hide Reachable, Places, Numbered, Balanced, Wf;
    ReachableSafe(s);
    hide Safe;
    ExpiresWhenDue(s, t, env);
  }

  /** Each unresolved task is queued once and held by nobody, or is not queued and held by exactly one thread. */
  lemma OnePlaceExactly(s: State, f: nat)
    requires Reachable(s) && f < |s.futures| && !Done(s, f)
    ensures var e := s.futures[f].entry;
            || (s.queue[e] == 1 && forall t: nat :: !Holds(s.threads, t, e))
            || (s.queue[e] == 0
                && exists t: nat :: Holds(s.threads, t, e) && forall u: nat | Holds(s.threads, u, e) :: u == t)
  {
    ReachableSafe(s);
    var e := s.futures[f].entry;
    assert Somewhere(s, e);
    if e !in s.queue {
      var t: nat :| Holds(s.threads, t, e);
      assert forall u: nat | Holds(s.threads, u, e) :: u == t;
    }
  }

  /** Per wire outcome: futures resolved == task events recorded + results delivered by threads yet to record them. */
  lemma EveryResultIsRecordedOnce(s: State, w: Outcome)
    requires Reachable(s)
    ensures Count(s.futures, DoneAs(w)) == Count(s.log, LoggedAs(w)) + Count(s.threads, OwedAs(w))
  {
    ReachableSafe(s);
  }

  /** Two queued tuples never tie on (priority, sequence), so the heap never reaches the payloads. */
  lemma KeysNeverTie(s: State, a: Entry, b: Entry)
    requires Reachable(s) && a in s.queue && b in s.queue && a != b
    ensures KeyLess(a, b) || KeyLess(b, a)
    ensures s.queue[a] == 1
  {
    ReachableSafe(s);
    assert Genuine(s.futures, a) && Genuine(s.futures, b);
    if a.fut < b.fut {
      assert s.futures[a.fut].entry.no < s.futures[b.fut].entry.no;
    } else if b.fut < a.fut {
      assert s.futures[b.fut].entry.no < s.futures[a.fut].entry.no;
    }
  }

  /**
   A pull is the one oldest submission of the highest-priority non-empty lane: oldest by the number it drew, which is
   also the order in which futures are numbered here.
   */
  lemma PullIsOldest(s: State, e: Entry, x: Entry)
    requires Reachable(s) && IsMin(s.queue, e) && x in s.queue && x != e
    ensures e.lane < x.lane || (e.lane == x.lane && e.fut < x.fut)
  {
    ReachableSafe(s);
    KeysNeverTie(s, e, x);
    assert Genuine(s.futures, e) && Genuine(s.futures, x);
    if x.fut < e.fut {
      assert s.futures[x.fut].entry.no < s.futures[e.fut].entry.no;
    }
  }

  /** Whatever any thread does afterwards, a result once given stays the result. */
  lemma {:induction false} ResultIsFinal(s: State, acts: seq<Action>, f: nat)
    requires Wf(s) && Performable(s, acts) && f < |s.futures| && Done(s, f)
    ensures f < |Run(s, acts).futures| && Run(s, acts).futures[f].result == s.futures[f].result
    decreases |acts|
  {
    if acts == [] {
    } else {
      hide Apply;
      WfStep(s, acts[0]);
      FuturesStep(s, acts[0]);
      ResultIsFinal(Apply(s, acts[0]), acts[1..], f);
    }
  }

  /** A wait that has returned returned the future's own, final result. */
  lemma WaitReturnsResult(s: State, t: nat)
    requires Reachable(s) && t < |s.threads| && s.threads[t].role.Waiter? && s.threads[t].pc.Returned?
    ensures s.threads[t].role.fut < |s.futures|
    ensures s.futures[s.threads[t].role.fut].result == Some(s.threads[t].pc.result)
  {
    ReachableSafe(s);
    assert Honest(s.now, s.futures, s.threads[t]);
  }
}
