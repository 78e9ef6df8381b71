/** Runs of the pool: one more action, two in a row, one run after another. */
module PoolRuns {
  import opened PoolState

  /** One more action at the end of a run. */
  lemma {:induction false} RunSnoc(s: State, acts: seq<Action>, a: Action)
    requires Wf(s) && Performable(s, acts) && Enabled(Run(s, acts), a)
    ensures Performable(s, acts + [a]) && Run(s, acts + [a]) == Apply(Run(s, acts), a)
    decreases |acts|
  {
    if acts == [] {
      WfStep(s, a);
      assert [] + [a] == [a] && [a][1..] == [];
      assert Performable(Apply(s, a), []);
    } else {
      hide Apply, Enabled;
      WfStep(s, acts[0]);
      RunSnoc(Apply(s, acts[0]), acts[1..], a);
      assert (acts + [a])[1..] == acts[1..] + [a];
    }
  }

  lemma {:induction false} RunConcat(s: State, acts: seq<Action>, more: seq<Action>)
    requires Wf(s) && Performable(s, acts) && Performable(Run(s, acts), more)
    ensures Performable(s, acts + more) && Run(s, acts + more) == Run(Run(s, acts), more)
    decreases |acts|
  {
    if acts == [] {
      assert [] + more == more;
    } else {
      hide Apply, Enabled;
      WfStep(s, acts[0]);
      RunConcat(Apply(s, acts[0]), acts[1..], more);
      assert (acts + more)[1..] == acts[1..] + more;
    }
  }

  lemma {:induction false} RunTwo(s: State, a: Action, b: Action)
    requires Wf(s) && Enabled(s, a) && Wf(Apply(s, a)) && Enabled(Apply(s, a), b)
    ensures Performable(s, [a, b]) && Run(s, [a, b]) == Apply(Apply(s, a), b)
  {
    var s1 := Apply(s, a);
    WfStep(s1, b);
    var s2 := Apply(s1, b);
    assert [a, b][1..] == [b] && [b][1..] == [];
    assert Performable(s2, []) && Performable(s1, [b]);
    assert Run(s1, [b]) == Run(s2, []) == s2;
  }

  ghost predicate Reaches(s: State, r: State) {
    Wf(s) && exists acts :: Performable(s, acts) && r == Run(s, acts)
  }

  lemma ReachSelf(s: State)
    requires Wf(s)
    ensures Reaches(s, s)
  {
    assert Performable(s, []) && s == Run(s, []);
  }

  lemma ReachStep(s: State, m: State, a: Action)
    requires Reaches(s, m) && Wf(m) && Enabled(m, a)
    ensures Wf(Apply(m, a)) && Reaches(s, Apply(m, a))
  {
    hide Apply, Enabled;
    var acts :| Performable(s, acts) && m == Run(s, acts);
    RunSnoc(s, acts, a);
    WfStep(m, a);
  }

  lemma ReachTrans(s: State, m: State, r: State)
    requires Reaches(s, m) && Reaches(m, r)
    ensures Reaches(s, r)
  {
    hide Apply, Enabled;
    var acts :| Performable(s, acts) && m == Run(s, acts);
    var more :| Performable(m, more) && r == Run(m, more);
    RunConcat(s, acts, more);
  }
}
