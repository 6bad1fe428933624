/** The concurrency limit under reloads, and the limits of single states. */
module Capacity {
  import opened Prelude
  import opened Config
  import opened Tracker
  import opened OrchestratorState
  import opened World
  import opened Claims

  lemma UpdateSize<V>(m: map<string, V>, id: string, v: V)
    ensures |m[id := v]| == if id in m then |m| else |m| + 1
  {
  }

  lemma RemoveSize<V>(m: map<string, V>, id: string)
    ensures |m - {id}| <= |m|
  {
  }

  lemma StartFillsSlot(st: State, issue: Issue, attempt: Option<u32>, flag: Flag)
    requires st.AvailableSlots() > 0
    ensures |st.Start(issue, attempt, flag).running| <= st.maxConcurrentAgents
  {
    UpdateSize(st.running, issue.id, RunningEntry(issue, None, attempt, 0, flag, 0));
  }

  lemma OthersDoNotGrow(s: World, step: Step)
    requires Enabled(s, step) && !step.Dispatch? && !step.Resolve?
    ensures |Apply(s, step).st.running| <= |s.st.running|
  {
    match step {
      case Stall(_, id) => RemoveSize(s.st.running, id);
      case Exit(_, flag) => RemoveSize(s.st.running, s.workers[flag].issue.id);
      case Refresh(_, issue) =>
        RemoveSize(s.st.running, issue.id);
        if issue.id in s.st.running {
          UpdateSize(s.st.running, issue.id, s.st.running[issue.id].(issue := issue));
        }
      case Bookkeep(id, session, turnCount, stagnation, _) =>
        if id in s.st.running {
          UpdateSize(s.st.running, id, Apply(s, step).st.running[id]);
        }
      case _ =>
    }
  }

  /** A step that starts a worker ends at or below the limit in force; no other step makes `running` grow. */
  lemma StepRespectsLimit(s: World, step: Step)
    requires Enabled(s, step)
    ensures var s' := Apply(s, step);
            && ((exists id :: Starts(s, step, id)) ==> |s'.st.running| <= s.st.maxConcurrentAgents)
            && (|s'.st.running| > |s.st.running| ==> exists id :: Starts(s, step, id))
            && (|s.st.running| >= s.st.maxConcurrentAgents ==> |s'.st.running| <= |s.st.running|)
  {
    match step {
      case Dispatch(_, limits, issue) =>
        if s.st.Admits(limits, issue) {
          StartFillsSlot(s.st, issue, None, s.nextFlag);
          assert Starts(s, step, issue.id);
        }
      case Resolve(c, now, fetched) =>
        var (id, retry) := s.control.popped.value;
        if RetryStarts(s.st, c, id, fetched) {
          StartFillsSlot(s.st, Find(fetched.value, id).value, Some(retry.attempt), s.nextFlag);
          assert Starts(s, step, id);
        }
      case _ => OthersDoNotGrow(s, step);
    }
  }

  /** The largest limit in force in the states 0..n. */
  function LargestLimit(w: seq<World>, n: nat): nat
    requires n < |w|
  {
    if n == 0 then w[0].st.maxConcurrentAgents else Max(LargestLimit(w, n - 1), w[n].st.maxConcurrentAgents)
  }

  lemma NextRespectsLimit(w: seq<World>, steps: seq<Step>, n: nat)
    requires IsPath(w, steps) && n < |steps|
    ensures |w[n + 1].st.running| <= Max(|w[n].st.running|, w[n].st.maxConcurrentAgents)
    ensures |w[n + 1].st.running| > |w[n].st.running| ==> |w[n + 1].st.running| <= w[n].st.maxConcurrentAgents
  {
    assert Takes(w, steps, n);
    StepRespectsLimit(w[n], steps[n]);
  }

  /** However the limit is reloaded, there are never more running entries than the largest limit so far. */
  lemma {:induction false} CapacityUnderReload(w: seq<World>, steps: seq<Step>, n: nat)
    requires IsRun(w, steps) && n < |w|
    ensures |w[n].st.running| <= LargestLimit(w, n)
    ensures n < |steps| && |w[n + 1].st.running| > |w[n].st.running| ==>
              |w[n + 1].st.running| <= w[n].st.maxConcurrentAgents
  {
    if n > 0 {
      CapacityUnderReload(w, steps, n - 1);
      NextRespectsLimit(w, steps, n - 1);
      LimitsGrow(w, n - 1);
    }
    if n < |steps| {
      NextRespectsLimit(w, steps, n);
    }
  }

  lemma LimitsGrow(w: seq<World>, n: nat)
    requires n + 1 < |w|
    ensures w[n].st.maxConcurrentAgents <= LargestLimit(w, n) <= LargestLimit(w, n + 1)
  {
  }

  // ---- The limit of a state ----

  /** An active refresh moves a running issue into the state. */
  predicate MovesIn(s: World, step: Step, state: string) {
    && step.Refresh? && Running(s, step.issue.id) && step.c.Workable(step.issue.state)
    && Lower(step.issue.state) == Lower(state) && step.issue.id !in s.st.RunningIn(state)
  }

  /** A retry starts an issue of the state that does not count there yet. */
  predicate RetriesIn(s: World, step: Step, state: string) {
    && step.Resolve? && s.control.Retrying? && s.control.popped.Some?
    && var id := s.control.popped.value.0;
       && RetryStarts(s.st, step.c, id, step.fetched)
       && Lower(Find(step.fetched.value, id).value.state) == Lower(state) && id !in s.st.RunningIn(state)
  }

  /** The state is full, and the step adds to it without looking. */
  predicate Overfills(s: World, step: Step, limits: map<string, nat>, state: string) {
    s.st.CountRunningByState(state) >= s.st.StateLimit(limits, state) && (MovesIn(s, step, state) || RetriesIn(s, step, state))
  }

  lemma SubsetCount(a: State, b: State, state: string)
    requires a.RunningIn(state) <= b.RunningIn(state)
    ensures a.CountRunningByState(state) <= b.CountRunningByState(state)
  {
    assert b.RunningIn(state) == a.RunningIn(state) + (b.RunningIn(state) - a.RunningIn(state));
  }

  lemma OneMore(a: State, b: State, state: string, id: string)
    requires b.RunningIn(state) == a.RunningIn(state) + {id} && id !in a.RunningIn(state)
    ensures b.CountRunningByState(state) == a.CountRunningByState(state) + 1
  {
  }

  /** The one issue a step can add to those running in a state. */
  function Joins(s: World, step: Step, limits: map<string, nat>, state: string): Option<string> {
    if MovesIn(s, step, state) then Some(step.issue.id)
    else if RetriesIn(s, step, state) then Some(s.control.popped.value.0)
    else if step.Dispatch? && s.st.Admits(limits, step.issue) && Lower(step.issue.state) == Lower(state) then Some(step.issue.id)
    else None
  }

  /** The issues running in a state after a step. */
  ghost predicate Joined(s: World, step: Step, limits: map<string, nat>, state: string)
    requires Enabled(s, step)
  {
    var before, after := s.st.RunningIn(state), Apply(s, step).st.RunningIn(state);
    match Joins(s, step, limits, state)
    case Some(id) => after == before + {id} && id !in before
    case None => after <= before
  }

  lemma DispatchJoins(s: World, step: Step, state: string)
    requires step.Dispatch? && Enabled(s, step)
    ensures Joined(s, step, step.limits, state)
  {
  }

  lemma RefreshJoins(s: World, step: Step, limits: map<string, nat>, state: string)
    requires step.Refresh? && Enabled(s, step)
    ensures Joined(s, step, limits, state)
  {
  }

  lemma ResolveJoins(s: World, step: Step, limits: map<string, nat>, state: string)
    requires step.Resolve? && Enabled(s, step)
    ensures Joined(s, step, limits, state)
  {
    if step.fetched.Some? {
      FindFinds(step.fetched.value, s.control.popped.value.0);
    }
  }

  lemma OthersJoinNothing(s: World, step: Step, limits: map<string, nat>, state: string)
    requires !step.Dispatch? && !step.Refresh? && !step.Resolve? && Enabled(s, step)
    ensures Joined(s, step, limits, state)
  {
  }

  lemma StepJoins(s: World, step: Step, limits: map<string, nat>, state: string)
    requires Enabled(s, step) && (step.Dispatch? ==> step.limits == limits)
    ensures Joined(s, step, limits, state)
  {
    match step {
      case Dispatch(_, _, _) => DispatchJoins(s, step, state);
      case Refresh(_, _) => RefreshJoins(s, step, limits, state);
      case Resolve(_, _, _) => ResolveJoins(s, step, limits, state);
      case _ => OthersJoinNothing(s, step, limits, state);
    }
  }

  lemma AdmittedBelowLimit(st: State, limits: map<string, nat>, issue: Issue, state: string)
    requires st.Admits(limits, issue) && Lower(issue.state) == Lower(state)
    ensures st.CountRunningByState(state) < st.StateLimit(limits, state)
  {
    assert st.RunningIn(state) == st.RunningIn(issue.state);
  }

  /** A step takes a state over its limit, or further over it, exactly when the state is full and the step is a refresh
      that moves a running issue in or the start of a retry. */
  lemma StateLimitStep(s: World, step: Step, limits: map<string, nat>, state: string)
    requires Enabled(s, step) && (step.Dispatch? ==> step.limits == limits)
    ensures Apply(s, step).st.CountRunningByState(state) > Max(s.st.CountRunningByState(state), s.st.StateLimit(limits, state)) <==>
            Overfills(s, step, limits, state)
  {
    StepJoins(s, step, limits, state);
    match Joins(s, step, limits, state) {
      case Some(id) =>
        OneMore(s.st, Apply(s, step).st, state, id);
        if step.Dispatch? {
          AdmittedBelowLimit(s.st, limits, step.issue, state);
        }
      case None => SubsetCount(Apply(s, step).st, s.st, state);
    }
  }

  /** Over whole runs: a state with a limit of its own stays within it if and only if no step of the run overfills it. */
  lemma StateLimitExactly(w: seq<World>, steps: seq<Step>, n: nat, limits: map<string, nat>, state: string)
    requires IsRun(w, steps) && n < |w| && Lower(state) in limits
    requires forall i :: 0 <= i < n && steps[i].Dispatch? ==> steps[i].limits == limits
    ensures (forall i :: 0 <= i <= n ==> w[i].st.CountRunningByState(state) <= limits[Lower(state)]) <==>
            (forall i :: 0 <= i < n ==> !Overfills(w[i], steps[i], limits, state))
  {
    if forall i :: 0 <= i < n ==> !Overfills(w[i], steps[i], limits, state) {
      forall i | 0 <= i <= n ensures w[i].st.CountRunningByState(state) <= limits[Lower(state)] {
        StaysWithinLimit(w, steps, i, limits, state);
      }
    } else {
      var i :| 0 <= i < n && Overfills(w[i], steps[i], limits, state);
      assert Takes(w, steps, i);
      StateLimitStep(w[i], steps[i], limits, state);
      assert w[i + 1].st.CountRunningByState(state) > limits[Lower(state)];
    }
  }

  lemma {:induction false} StaysWithinLimit(w: seq<World>, steps: seq<Step>, n: nat, limits: map<string, nat>, state: string)
    requires IsRun(w, steps) && n < |w| && Lower(state) in limits
    requires forall i :: 0 <= i < n && steps[i].Dispatch? ==> steps[i].limits == limits
    requires forall i :: 0 <= i < n ==> !Overfills(w[i], steps[i], limits, state)
    ensures w[n].st.CountRunningByState(state) <= limits[Lower(state)]
  {
    if n == 0 {
      assert w[0].st.RunningIn(state) == {};
    } else {
      StaysWithinLimit(w, steps, n - 1, limits, state);
      assert Takes(w, steps, n - 1);
      StateLimitStep(w[n - 1], steps[n - 1], limits, state);
    }
  }
}
