/**
 Running a worker over a list with a bounded number in flight. What JavaScript runs between two awaits is one
 step of one runner; any runner that is not done may take the next step.
 */
module Concurrency {
  import opened Numbers
  import opened Options

  datatype Limit = Finite(value: real) | NotFinite

  datatype Runner = Ready | Busy(index: nat) | Done

  /** What can be observed: an answer of `shouldStop`, a worker call, its settling. */
  datatype Event = Asked(stop: bool) | Began(index: nat) | Ended(at: nat, failed: bool)

  /** At least one runner whatever the limit, and no more than items. */
  function Cap(limit: Limit): (c: nat)
    ensures c >= 1
  {
    if limit.Finite? && limit.value.Floor >= 1 then limit.value.Floor else 1
  }

  // --- reading a log ------------------------------------------------------------------------

  function Begun(log: seq<Event>): seq<nat> {
    if log == [] then []
    else
      var e := log[|log| - 1];
      Begun(log[..|log| - 1]) + if e.Began? then [e.index] else []
  }

  function Over(log: seq<Event>): multiset<nat> {
    if log == [] then multiset{}
    else
      var e := log[|log| - 1];
      Over(log[..|log| - 1]) + if e.Ended? then multiset{e.at} else multiset{}
  }

  function InFlight(log: seq<Event>): int { |Begun(log)| - |Over(log)| }

  function FirstFailure(log: seq<Event>): Option<nat> {
    if log == [] then None
    else
      var e, earlier := log[|log| - 1], FirstFailure(log[..|log| - 1]);
      if earlier.Some? then earlier else if e.Ended? && e.failed then Some(e.at) else None
  }

  predicate NeverMoreThan(log: seq<Event>, cap: nat) { forall t | 0 <= t <= |log| :: InFlight(log[..t]) <= cap }

  /** At no moment more in flight than the limit allows: one if it is not finite or below one. */
  predicate WithinLimit(log: seq<Event>, limit: Limit) {
    forall t | 0 <= t <= |log| ::
      InFlight(log[..t]) as real <= if limit.Finite? && limit.value >= 1.0 then limit.value else 1.0
  }

  predicate IsFailure(e: Event) { e.Ended? && e.failed }

  predicate NoneAfterFailure(log: seq<Event>) {
    forall s, t | 0 <= s < t < |log| :: IsFailure(log[s]) ==> !log[t].Began?
  }

  /** Each worker call comes right after a `shouldStop` that said no. */
  predicate AskedBefore(log: seq<Event>) {
    forall t | 0 <= t < |log| && log[t].Began? :: t > 0 && log[t - 1] == Asked(false)
  }

  predicate StopStays(log: seq<Event>) {
    forall s, t | 0 <= s < t < |log| && log[s] == Asked(true) && log[t].Asked? :: log[t].stop
  }

  predicate NoneAfterStop(log: seq<Event>) {
    forall s, t | 0 <= s < t < |log| && log[s] == Asked(true) :: !log[t].Began?
  }

  function Upto(n: nat): seq<nat> { seq(n, i requires 0 <= i < n => i) }

  function BusyOf(runners: seq<Runner>): multiset<nat> {
    if runners == [] then multiset{}
    else
      var r := runners[|runners| - 1];
      BusyOf(runners[..|runners| - 1]) + Held(r)
  }

  function Held(r: Runner): multiset<nat> { if r.Busy? then multiset{r.index} else multiset{} }

  lemma BusyUpdate(runners: seq<Runner>, k: nat, r: Runner)
    requires k < |runners|
    ensures BusyOf(runners[k := r]) + Held(runners[k]) == BusyOf(runners) + Held(r)
  {
    hide Held;
    var n := |runners| - 1;
    if k == n {
      assert runners[k := r][..n] == runners[..n];
    } else {
      var before, after := BusyOf(runners[..n]), BusyOf(runners[..n][k := r]);
      BusyUpdate(runners[..n], k, r);
      assert runners[k := r][..n] == runners[..n][k := r];
      assert after + Held(runners[n]) + Held(runners[k]) == after + Held(runners[k]) + Held(runners[n]);
    }
  }

  lemma {:induction false} BusyFits(runners: seq<Runner>)
    ensures |BusyOf(runners)| <= |runners|
  {
    if runners == [] {
    } else {
      BusyFits(runners[..|runners| - 1]);
    }
  }

  lemma {:induction false} BusyNone(runners: seq<Runner>)
    requires forall k | 0 <= k < |runners| :: !runners[k].Busy?
    ensures BusyOf(runners) == multiset{}
  {
    if runners == [] {
    } else {
      BusyNone(runners[..|runners| - 1]);
    }
  }

  lemma {:induction false} LogMore(log: seq<Event>, e: Event)
    ensures Begun(log + [e]) == Begun(log) + if e.Began? then [e.index] else []
    ensures Over(log + [e]) == Over(log) + if e.Ended? then multiset{e.at} else multiset{}
    ensures FirstFailure(log + [e])
         == if FirstFailure(log).Some? then FirstFailure(log) else if IsFailure(e) then Some(e.at) else None
  {
    assert (log + [e])[..|log|] == log;
  }

  lemma {:induction false} FailureIsThere(log: seq<Event>)
    ensures FirstFailure(log).Some? <==> exists t :: 0 <= t < |log| && IsFailure(log[t])
  {
    if log == [] {
    } else {
      FailureIsThere(log[..|log| - 1]);
      assert log == log[..|log| - 1] + [log[|log| - 1]];
    }
  }

  /** The first failure by completion: nothing that ended before it failed. */
  lemma {:induction false} FirstFailureIsFirst(log: seq<Event>)
    requires FirstFailure(log).Some?
    ensures exists t :: 0 <= t < |log| && log[t] == Ended(FirstFailure(log).value, true)
              && forall s | 0 <= s < t :: !IsFailure(log[s])
  {
    var before := log[..|log| - 1];
    if FirstFailure(before).Some? {
      FirstFailureIsFirst(before);
      var t :| 0 <= t < |before| && before[t] == Ended(FirstFailure(before).value, true)
        && forall s | 0 <= s < t :: !IsFailure(before[s]);
      assert log[t] == before[t] && forall s | 0 <= s < t :: log[s] == before[s];
    } else {
      FailureIsThere(before);
      assert forall s | 0 <= s < |before| :: log[s] == before[s];
    }
  }

  /** With answers that stay, none begins after one that said stop. */
  lemma StopIsHeeded(log: seq<Event>)
    requires AskedBefore(log) && StopStays(log)
    ensures NoneAfterStop(log)
  {
    forall s, t | 0 <= s < t < |log| && log[s] == Asked(true)
      ensures !log[t].Began?
    {
      assert forall u | s <= u < |log| :: log[u] != Asked(false);
      assert log[t - 1] != Asked(false);
    }
  }

  // --- the shared variables ----------------------------------------------------------------------

  datatype State = State(nextIndex: nat, failed: bool, firstError: nat, runners: seq<Runner>, log: seq<Event>)

  predicate WellLogged(log: seq<Event>, cap: nat) {
    NeverMoreThan(log, cap) && NoneAfterFailure(log) && AskedBefore(log)
  }

  predicate SomeDone(runners: seq<Runner>) { exists k :: 0 <= k < |runners| && runners[k] == Done }

  predicate Inv(s: State, n: nat, cap: nat) {
    && s.nextIndex <= n && |s.runners| == MinInt(n, cap)
    && Begun(s.log) == Upto(s.nextIndex)
    && multiset(Begun(s.log)) == Over(s.log) + BusyOf(s.runners)
    && FirstFailure(s.log) == (if s.failed then Some(s.firstError) else None)
    && WellLogged(s.log, MinInt(n, cap))
    && (SomeDone(s.runners) ==> s.failed || Asked(true) in s.log || s.nextIndex == n)
  }

  /** One pass of a runner's loop up to its await, or its end. */
  function Turn(s: State, k: nat, n: nat, stop: bool): State
    requires k < |s.runners|
  {
    if s.failed then s.(runners := s.runners[k := Done])
    else
      var asked := s.(log := s.log + [Asked(stop)]);
      if stop || s.nextIndex >= n then asked.(runners := s.runners[k := Done])
      else
        asked.(runners := s.runners[k := Busy(s.nextIndex)], log := asked.log + [Began(s.nextIndex)],
               nextIndex := s.nextIndex + 1)
  }

  /** A worker call settles: the await returns, or the catch block runs. */
  function Settle(s: State, k: nat, fails: bool): State
    requires k < |s.runners| && s.runners[k].Busy?
  {
    var index := s.runners[k].index;
    s.(runners := s.runners[k := Ready], log := s.log + [Ended(index, fails)],
       failed := s.failed || fails, firstError := if fails && !s.failed then index else s.firstError)
  }

  lemma NeverMoreStep(log: seq<Event>, e: Event, cap: nat)
    requires NeverMoreThan(log, cap) && InFlight(log + [e]) <= cap
    ensures NeverMoreThan(log + [e], cap)
  {
    hide InFlight;
    forall t | 0 <= t <= |log + [e]|
      ensures InFlight((log + [e])[..t]) <= cap
    {
      if t <= |log| {
        assert (log + [e])[..t] == log[..t];
      } else {
        assert (log + [e])[..t] == log + [e];
      }
    }
  }

  lemma {:induction false} NoneAfterFailureStep(log: seq<Event>, e: Event)
    requires NoneAfterFailure(log) && (e.Began? ==> FirstFailure(log).None?)
    ensures NoneAfterFailure(log + [e])
  {
    FailureIsThere(log);
  }

  lemma AskedBeforeStep(log: seq<Event>, e: Event)
    requires AskedBefore(log) && (e.Began? ==> log != [] && log[|log| - 1] == Asked(false))
    ensures AskedBefore(log + [e])
  {}

  lemma {:induction false} LogStep(log: seq<Event>, e: Event, cap: nat)
    requires WellLogged(log, cap)
    requires e.Began? ==> FirstFailure(log).None? && log != [] && log[|log| - 1] == Asked(false) && InFlight(log) < cap
    ensures WellLogged(log + [e], cap)
  {
    hide NeverMoreThan, NoneAfterFailure, AskedBefore;
    LogMore(log, e);
    assert InFlight(log) <= cap by { NeverMoreNow(log, cap); }
    NeverMoreStep(log, e, cap);
    NoneAfterFailureStep(log, e);
    AskedBeforeStep(log, e);
  }

  lemma NeverMoreNow(log: seq<Event>, cap: nat)
    requires NeverMoreThan(log, cap)
    ensures InFlight(log) <= cap
  {
    assert log[..|log|] == log;
  }

  lemma InFlightIsBusy(s: State, n: nat, cap: nat)
    requires Inv(s, n, cap)
    ensures InFlight(s.log) == |BusyOf(s.runners)|
  {
    assert |multiset(Begun(s.log))| == |Begun(s.log)|;
  }

  lemma BusySame(runners: seq<Runner>, k: nat, r: Runner)
    requires k < |runners| && !runners[k].Busy? && !r.Busy?
    ensures BusyOf(runners[k := r]) == BusyOf(runners)
  {
    hide BusyOf;
    BusyUpdate(runners, k, r);
    assert BusyOf(runners[k := r]) + multiset{} == BusyOf(runners[k := r]);
    assert BusyOf(runners) + multiset{} == BusyOf(runners);
  }

  lemma BusyGains(runners: seq<Runner>, k: nat, index: nat)
    requires k < |runners| && !runners[k].Busy?
    ensures BusyOf(runners[k := Busy(index)]) == BusyOf(runners) + multiset{index}
  {
    hide BusyOf;
    BusyUpdate(runners, k, Busy(index));
  }

  lemma BusyLoses(runners: seq<Runner>, k: nat, r: Runner)
    requires k < |runners| && runners[k].Busy? && !r.Busy?
    ensures BusyOf(runners) == BusyOf(runners[k := r]) + multiset{runners[k].index}
  {
    hide BusyOf;
    BusyUpdate(runners, k, r);
  }

  /** A runner that is not busy leaves room for one more. */
  lemma {:induction false} RoomLeft(runners: seq<Runner>, k: nat)
    requires k < |runners| && !runners[k].Busy?
    ensures |BusyOf(runners)| < |runners|
  {
    hide BusyOf;
    BusyGains(runners, k, 0);
    BusyFits(runners[k := Busy(0)]);
  }

  lemma UptoMore(n: nat)
    ensures Upto(n) + [n] == Upto(n + 1)
  {}

  lemma FinishKeeps(s: State, k: nat, n: nat, cap: nat)
    requires Inv(s, n, cap) && k < |s.runners| && s.runners[k] == Ready
    requires s.failed || Asked(true) in s.log || s.nextIndex == n
    ensures Inv(s.(runners := s.runners[k := Done]), n, cap)
  {
    hide WellLogged, SomeDone, Begun, Over, BusyOf, FirstFailure;
    BusySame(s.runners, k, Done);
  }

  lemma InLonger(log: seq<Event>, e: Event)
    ensures Asked(true) in log ==> Asked(true) in log + [e]
    ensures e in log + [e]
  {
    assert (log + [e])[|log|] == e;
  }

  lemma AskKeeps(s: State, n: nat, cap: nat, stop: bool)
    requires Inv(s, n, cap)
    ensures Inv(s.(log := s.log + [Asked(stop)]), n, cap)
  {
    hide WellLogged, SomeDone, Begun, Over, BusyOf, FirstFailure;
    LogMore(s.log, Asked(stop));
    LogStep(s.log, Asked(stop), MinInt(n, cap));
    InLonger(s.log, Asked(stop));
  }

  lemma StillDone(runners: seq<Runner>, k: nat, r: Runner)
    requires k < |runners| && r != Done
    ensures SomeDone(runners[k := r]) ==> SomeDone(runners)
  {
    assert forall j | 0 <= j < |runners| && j != k :: runners[k := r][j] == runners[j];
  }

  lemma BeginKeeps(s: State, k: nat, n: nat, cap: nat)
    requires Inv(s, n, cap) && k < |s.runners| && s.runners[k] == Ready && !s.failed && s.nextIndex < n
    requires s.log != [] && s.log[|s.log| - 1] == Asked(false)
    ensures Inv(s.(runners := s.runners[k := Busy(s.nextIndex)], log := s.log + [Began(s.nextIndex)],
                   nextIndex := s.nextIndex + 1), n, cap)
  {
    hide WellLogged, SomeDone, Begun, Over, BusyOf, FirstFailure, Upto;
    var e := Began(s.nextIndex);
    InFlightIsBusy(s, n, cap);
    RoomLeft(s.runners, k);
    LogMore(s.log, e);
    LogStep(s.log, e, MinInt(n, cap));
    BusyGains(s.runners, k, s.nextIndex);
    UptoMore(s.nextIndex);
    InLonger(s.log, e);
    StillDone(s.runners, k, Busy(s.nextIndex));
    assert multiset(Begun(s.log) + [s.nextIndex]) == multiset(Begun(s.log)) + multiset{s.nextIndex};
  }

  lemma TurnKeeps(s: State, k: nat, n: nat, cap: nat, stop: bool)
    requires Inv(s, n, cap) && k < |s.runners| && s.runners[k] == Ready
    ensures Inv(Turn(s, k, n, stop), n, cap)
  {
    hide Inv;
    if s.failed {
      FinishKeeps(s, k, n, cap);
    } else {
      AskKeeps(s, n, cap, stop);
      AskedTurnKeeps(s.(log := s.log + [Asked(stop)]), k, n, cap, stop);
    }
  }

  lemma AskedTurnKeeps(s: State, k: nat, n: nat, cap: nat, stop: bool)
    requires Inv(s, n, cap) && k < |s.runners| && s.runners[k] == Ready && !s.failed
    requires s.log != [] && s.log[|s.log| - 1] == Asked(stop)
    ensures stop || s.nextIndex >= n ==> Inv(s.(runners := s.runners[k := Done]), n, cap)
    ensures !stop && s.nextIndex < n ==>
              Inv(s.(runners := s.runners[k := Busy(s.nextIndex)], log := s.log + [Began(s.nextIndex)],
                     nextIndex := s.nextIndex + 1), n, cap)
  {
    if stop || s.nextIndex >= n {
      FinishKeeps(s, k, n, cap);
    } else {
      BeginKeeps(s, k, n, cap);
    }
  }

  lemma SettleKeeps(s: State, k: nat, n: nat, cap: nat, fails: bool)
    requires Inv(s, n, cap) && k < |s.runners| && s.runners[k].Busy?
    ensures Inv(Settle(s, k, fails), n, cap)
  {
    hide WellLogged, SomeDone, Begun, Over, BusyOf, FirstFailure, Upto;
    var e := Ended(s.runners[k].index, fails);
    LogMore(s.log, e);
    LogStep(s.log, e, MinInt(n, cap));
    BusyLoses(s.runners, k, Ready);
    InLonger(s.log, e);
    StillDone(s.runners, k, Ready);
  }

  // --- schedules ------------------------------------------------------------------------------

  /** A runner passes through its loop up to its await, or its worker call settles. */
  datatype Move = Passes(runner: nat, stop: bool) | Settles(runner: nat, fails: bool)

  predicate CanMove(s: State, m: Move) {
    m.runner < |s.runners| && if m.Passes? then s.runners[m.runner] == Ready else s.runners[m.runner].Busy?
  }

  function Moved(s: State, n: nat, m: Move): State
    requires CanMove(s, m)
  {
    if m.Passes? then Turn(s, m.runner, n, m.stop) else Settle(s, m.runner, m.fails)
  }

  predicate Possible(s: State, n: nat, moves: seq<Move>)
    decreases |moves|, 0
  {
    var last := |moves| - 1;
    moves == [] || (Possible(s, n, moves[..last]) && CanMove(After(s, n, moves[..last]), moves[last]))
  }

  function After(s: State, n: nat, moves: seq<Move>): State
    requires Possible(s, n, moves)
    decreases |moves|, 1
  {
    var last := |moves| - 1;
    if moves == [] then s else Moved(After(s, n, moves[..last]), n, moves[last])
  }

  function Initial(n: nat, limit: Limit): State {
    State(0, false, 0, seq(MinInt(n, Cap(limit)), _ => Ready), [])
  }

  lemma {:induction false} OneMoveMore(s: State, n: nat, moves: seq<Move>, m: Move)
    requires Possible(s, n, moves) && CanMove(After(s, n, moves), m)
    ensures Possible(s, n, moves + [m]) && After(s, n, moves + [m]) == Moved(After(s, n, moves), n, m)
  {
    assert (moves + [m])[..|moves|] == moves;
  }

  /** These moves lead here. */
  predicate Followed(s: State, n: nat, limit: Limit, moves: seq<Move>) {
    Possible(Initial(n, limit), n, moves) && s == After(Initial(n, limit), n, moves)
  }

  lemma FollowedOn(s: State, n: nat, limit: Limit, moves: seq<Move>, m: Move)
    requires Followed(s, n, limit, moves) && CanMove(s, m)
    ensures Followed(Moved(s, n, m), n, limit, moves + [m])
  {
    hide Possible, After;
    OneMoveMore(Initial(n, limit), n, moves, m);
  }

  /** The first runners each take an item. */
  function Opening(c: nat): seq<Move> { seq(c, i requires 0 <= i < c => Passes(i, false)) }

  predicate Opened(s: State, n: nat, limit: Limit, c: nat) {
    && !s.failed && s.nextIndex == c && |s.runners| == MinInt(n, Cap(limit))
    && (forall i | 0 <= i < |s.runners| :: s.runners[i] == if i < c then Busy(i) else Ready)
    && |Begun(s.log)| == c && Over(s.log) == multiset{}
  }

  lemma OpensOneMore(s: State, n: nat, limit: Limit, c: nat)
    requires Opened(s, n, limit, c) && c < MinInt(n, Cap(limit))
    ensures CanMove(s, Passes(c, false)) && Opened(Moved(s, n, Passes(c, false)), n, limit, c + 1)
  {
    hide Begun, Over, Cap, FirstFailure;
    TwoMore(s.log, c);
  }

  lemma {:induction false} TwoMore(log: seq<Event>, c: nat)
    ensures |Begun(log + [Asked(false)] + [Began(c)])| == |Begun(log)| + 1
    ensures Over(log + [Asked(false)] + [Began(c)]) == Over(log)
  {
    hide Begun, Over, FirstFailure;
    LogMore(log, Asked(false));
    LogMore(log + [Asked(false)], Began(c));
  }

  lemma {:induction false} OpeningTakes(n: nat, limit: Limit, c: nat)
    requires c <= MinInt(n, Cap(limit))
    ensures Possible(Initial(n, limit), n, Opening(c)) && Opened(After(Initial(n, limit), n, Opening(c)), n, limit, c)
  {
    if c == 0 {
    } else {
      hide Opened, Moved, CanMove;
      OpeningTakes(n, limit, c - 1);
      hide Possible, After;
      assert Opening(c) == Opening(c - 1) + [Passes(c - 1, false)];
      OpensOneMore(After(Initial(n, limit), n, Opening(c - 1)), n, limit, c - 1);
      OneMoveMore(Initial(n, limit), n, Opening(c - 1), Passes(c - 1, false));
    }
  }

  /** The limit is used in full: any number of items up to it, and up to the length of the list, can be in flight. */
  lemma {:induction false} LimitIsReached(n: nat, limit: Limit, c: nat)
    requires c <= n && c as real <= if limit.Finite? && limit.value >= 1.0 then limit.value else 1.0
    ensures exists moves :: Possible(Initial(n, limit), n, moves)
                            && InFlight(After(Initial(n, limit), n, moves).log) == c
  {
    OpeningTakes(n, limit, c);
  }

  // --- the run ------------------------------------------------------------------------------

  /** Steps a runner can still take once no more items are taken: its weight, and three for every item left. */
  function Weight(runners: seq<Runner>): nat {
    if runners == [] then 0
    else
      var last := runners[|runners| - 1];
      Weight(runners[..|runners| - 1]) + if last.Busy? then 2 else if last.Ready? then 1 else 0
  }

  lemma WeightUpdate(runners: seq<Runner>, k: nat, r: Runner)
    requires k < |runners|
    ensures Weight(runners[k := r]) - Weight([r]) == Weight(runners) - Weight([runners[k]])
  {
    var n := |runners| - 1;
    assert [r][..0] == [] && [runners[k]][..0] == [];
    if k == n {
      assert runners[k := r][..n] == runners[..n];
    } else {
      WeightUpdate(runners[..n], k, r);
      assert runners[k := r][..n] == runners[..n][k := r];
    }
  }

  function Left(s: State, n: nat): int { 3 * (n - s.nextIndex) + Weight(s.runners) }

  lemma TurnShrinks(s: State, k: nat, n: nat, stop: bool)
    requires k < |s.runners| && s.runners[k] == Ready
    ensures Left(Turn(s, k, n, stop), n) < Left(s, n)
  {
    hide Weight;
    WeightUpdate(s.runners, k, Done);
    WeightUpdate(s.runners, k, Busy(s.nextIndex));
    WeightOne();
  }

  lemma SettleShrinks(s: State, k: nat, n: nat, fails: bool)
    requires k < |s.runners| && s.runners[k].Busy?
    ensures Left(Settle(s, k, fails), n) < Left(s, n)
  {
    hide Weight;
    WeightUpdate(s.runners, k, Ready);
    WeightOne();
  }

  lemma WeightOne()
    ensures Weight([Ready]) == 1 && Weight([Done]) == 0 && forall i: nat :: Weight([Busy(i)]) == 2
  {
    assert [Ready][..0] == [] && [Done][..0] == [] && forall i: nat :: [Busy(i)][..0] == [];
  }

  lemma StartsWell(n: nat, cap: nat)
    ensures Inv(State(0, false, 0, seq(MinInt(n, cap), _ => Ready), []), n, cap)
  {
    BusyNone(seq(MinInt(n, cap), _ => Ready));
  }

  /** What holds once no runner is left. */
  lemma EndsWell(s: State, n: nat, cap: nat)
    requires Inv(s, n, cap) && cap >= 1 && forall k | 0 <= k < |s.runners| :: s.runners[k] == Done
    ensures Over(s.log) == multiset(Begun(s.log)) && |Begun(s.log)| == s.nextIndex
    ensures !s.failed && Asked(true) !in s.log ==> s.nextIndex == n
    ensures NeverMoreThan(s.log, cap)
  {
    hide Begun, Over, BusyOf, FirstFailure, InFlight;
    BusyNone(s.runners);
    assert n > 0 ==> s.runners[0] == Done;
  }

  /** The invariant of the loop. */
  predicate Running(s: State, n: nat, limit: Limit, moves: seq<Move>) {
    Inv(s, n, Cap(limit)) && Followed(s, n, limit, moves)
  }

  lemma PassGoesOn(s: State, n: nat, limit: Limit, moves: seq<Move>, k: nat, stop: bool)
    requires Running(s, n, limit, moves) && k < |s.runners| && s.runners[k] == Ready
    ensures Running(Turn(s, k, n, stop), n, limit, moves + [Passes(k, stop)])
    ensures 0 <= Left(Turn(s, k, n, stop), n) < Left(s, n)
  {
    hide Inv, Followed, Left, Cap;
    TurnKeeps(s, k, n, Cap(limit), stop);
    TurnShrinks(s, k, n, stop);
    LeftPositive(Turn(s, k, n, stop), n, Cap(limit));
    FollowedOn(s, n, limit, moves, Passes(k, stop));
  }

  lemma SettleGoesOn(s: State, n: nat, limit: Limit, moves: seq<Move>, k: nat, fails: bool)
    requires Running(s, n, limit, moves) && k < |s.runners| && s.runners[k].Busy?
    ensures Running(Settle(s, k, fails), n, limit, moves + [Settles(k, fails)])
    ensures 0 <= Left(Settle(s, k, fails), n) < Left(s, n)
  {
    hide Inv, Followed, Left, Cap;
    SettleKeeps(s, k, n, Cap(limit), fails);
    SettleShrinks(s, k, n, fails);
    LeftPositive(Settle(s, k, fails), n, Cap(limit));
    FollowedOn(s, n, limit, moves, Settles(k, fails));
  }

  lemma RunStarts(n: nat, limit: Limit)
    ensures Running(Initial(n, limit), n, limit, [])
  {
    StartsWell(n, Cap(limit));
  }

  lemma {:induction false} RunEnds(s: State, n: nat, limit: Limit, moves: seq<Move>)
    requires Running(s, n, limit, moves) && forall k | 0 <= k < |s.runners| :: s.runners[k] == Done
    ensures Possible(Initial(n, limit), n, moves) && s == After(Initial(n, limit), n, moves)
    ensures Begun(s.log) == Upto(|Begun(s.log)|) && |Begun(s.log)| <= n && WithinLimit(s.log, limit)
    ensures NoneAfterFailure(s.log) && AskedBefore(s.log) && Over(s.log) == multiset(Begun(s.log))
    ensures FirstFailure(s.log) == (if s.failed then Some(s.firstError) else None)
    ensures FirstFailure(s.log) == None && Asked(true) !in s.log ==> |Begun(s.log)| == n
  {
    hide WithinLimit, Possible, After;
    EndsWell(s, n, Cap(limit));
    CapWithin(s.log, limit);
  }

  /** `runWithConcurrency`: the error rethrown is the failed item's index. The log is a witness of the run. */
  method RunWithConcurrency(n: nat, limit: Limit)
    returns (error: Option<nat>, log: seq<Event>, ghost moves: seq<Move>)
    ensures Possible(Initial(n, limit), n, moves) && log == After(Initial(n, limit), n, moves).log
    ensures Begun(log) == Upto(|Begun(log)|) && |Begun(log)| <= n
    ensures WithinLimit(log, limit)
    ensures NoneAfterFailure(log) && AskedBefore(log)
    ensures Over(log) == multiset(Begun(log))
    ensures error == FirstFailure(log)
    ensures error == None && Asked(true) !in log ==> |Begun(log)| == n
  {
    var cap := Cap(limit);
    var runners := seq(MinInt(n, cap), _ => Ready);
    var nextIndex, firstError, failed := 0, 0, false;
    log := [];
    RunStarts(n, limit);
    ghost var s := State(nextIndex, failed, firstError, runners, log);
    moves := [];
    while exists k :: 0 <= k < |runners| && runners[k] != Done
      invariant s == State(nextIndex, failed, firstError, runners, log) && Running(s, n, limit, moves)
      decreases Left(s, n)
    {
      hide Running, Left;
      var k: nat :| k < |runners| && runners[k] != Done;
      if runners[k] == Ready {
        var stop: bool := *;
        PassGoesOn(s, n, limit, moves, k, stop);
        moves := moves + [Passes(k, stop)];
        s := Turn(s, k, n, stop);
        if failed {
          runners := runners[k := Done];
        } else {
          log := log + [Asked(stop)];
          var index := nextIndex;
          if stop || index >= n {
            runners := runners[k := Done];
          } else {
            nextIndex := nextIndex + 1;
            log := log + [Began(index)];
            runners := runners[k := Busy(index)];
          }
        }
      } else {
        var fails: bool := *;
        var index := runners[k].index;
        SettleGoesOn(s, n, limit, moves, k, fails);
        moves := moves + [Settles(k, fails)];
        s := Settle(s, k, fails);
        log := log + [Ended(index, fails)];
        if fails && !failed {
          failed := true;
          firstError := index;
        }
        runners := runners[k := Ready];
      }
    }
    RunEnds(s, n, limit, moves);
    error := if failed then Some(firstError) else None;
  }

  lemma CapWithin(log: seq<Event>, limit: Limit)
    requires NeverMoreThan(log, Cap(limit))
    ensures WithinLimit(log, limit)
  {
    hide InFlight;
    forall t | 0 <= t <= |log|
      ensures InFlight(log[..t]) as real <= if limit.Finite? && limit.value >= 1.0 then limit.value else 1.0
    {
      assert InFlight(log[..t]) <= Cap(limit);
    }
  }

  lemma LeftPositive(s: State, n: nat, cap: nat)
    requires Inv(s, n, cap)
    ensures Left(s, n) >= 0
  {}
}
