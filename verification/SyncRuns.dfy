/** Runs of the session machine, put together from steps and from other runs. */
module SyncRuns {
  import opened SyncProtocol

  predicate IsOtherWrite(step: Step)
  {
    step.World? && step.world.OtherWrite?
  }

  /** Nobody else writes the tree. */
  predicate Alone(trace: seq<Step>)
  {
    forall i :: 0 <= i < |trace| ==> !IsOtherWrite(trace[i])
  }

  /** Some run without other writers leads from `s` to `t`. */
  ghost predicate Leads(s: State, t: State)
  {
    exists trace :: Runs(s, trace) && After(s, trace) == t && Alone(trace)
  }

  lemma Stay(s: State)
    ensures Leads(s, s)
  {
    var none: seq<Step> := [];
    assert Runs(s, none) && After(s, none) == s && Alone(none);
  }

  lemma {:induction false} RunsOn(s: State, first: seq<Step>, second: seq<Step>)
    requires Runs(s, first) && Runs(After(s, first), second)
    ensures Runs(s, first + second) && After(s, first + second) == After(After(s, first), second)
    decreases |first|
  {
    if first == [] {
      assert first + second == second;
    } else {
      assert (first + second)[0] == first[0] && (first + second)[1..] == first[1..] + second;
      RunsOn(Do(s, first[0]), first[1..], second);
    }
  }

  lemma LeadsOn(s: State, t: State, u: State)
    requires Leads(s, t) && Leads(t, u)
    ensures Leads(s, u)
  {
    var first :| Runs(s, first) && After(s, first) == t && Alone(first);
    var second :| Runs(t, second) && After(t, second) == u && Alone(second);
    RunsOn(s, first, second);
    assert Alone(first + second);
  }

  lemma OneStep(s: State, step: Step, t: State)
    requires Enabled(s, step) && Do(s, step) == t && !IsOtherWrite(step)
    ensures Leads(s, t)
  {
    var trace: seq<Step> := [step];
    assert trace[0] == step && trace[1..] == [];
    assert Alone(trace);
    assert Runs(s, trace);
    assert After(s, trace) == t;
  }
}
