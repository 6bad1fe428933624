/** Exactly when an issue starts, keeps its claim, and changes what is recorded of it. */
module Transitions {
  import opened Prelude
  import opened Config
  import opened Tracker
  import opened OrchestratorState
  import opened World
  import opened Claims
  import opened RetryRuns

  /** The attempt a failing step counts from. */
  function AttemptOf(s: World, step: Step, id: string): u32
    requires Fails(s, step, id)
  {
    match step
    case Exit(_, flag) => s.workers[flag].attempt.GetOr(0)
    case Stall(_, _) => s.st.running[id].retryAttempt.GetOr(0)
    case Resolve(_, _, _) => s.control.popped.value.1.attempt
  }

  /** A failure with no attempt left. */
  predicate Exhausts(s: World, step: Step, id: string) {
    Fails(s, step, id) && NextAttempt(AttemptOf(s, step, id)) > step.c.MaxRetryAttempts()
  }

  /** A successful poll that no longer finds the issue workable. */
  predicate Retires(s: World, step: Step, id: string) {
    && step.Resolve? && InFlight(s, id) && step.fetched.Some?
    && (Find(step.fetched.value, id).None? || !step.c.Workable(Find(step.fetched.value, id).value.state))
  }

  /** The tracker reports a running issue neither active nor terminal. */
  predicate Drops(s: World, step: Step, id: string) {
    step.Refresh? && step.issue.id == id && Running(s, id) && Idle(step.c, step.issue.state)
  }

  lemma ResolveReleases(s: World, step: Step, id: string)
    requires step.Resolve? && Enabled(s, step) && id in s.st.claimed
    ensures id !in Apply(s, step).st.claimed <==> Exhausts(s, step, id) || Retires(s, step, id)
  {
    var (popped, retry) := s.control.popped.value;
    if popped != id {
      ResolveLeavesOthers(s.st, step.c, popped, retry, step.fetched, step.now, s.nextFlag, id);
    } else if step.fetched.Some? {
      FindFinds(step.fetched.value, id);
    }
  }

  lemma ExitReleases(s: World, step: Step, id: string)
    requires (step.Exit? || step.Stall?) && Enabled(s, step) && id in s.st.claimed
    ensures id !in Apply(s, step).st.claimed <==> Exhausts(s, step, id)
  {
  }

  /** In any state a claim is given up in four cases and no other: an operator deletes the retry, the issue is refreshed to
      a state neither active nor terminal, its attempts are exhausted, or a retry poll finds it gone or not workable. */
  lemma {:induction false} ClaimIsReleasedExactly(s: World, step: Step, id: string)
    requires Enabled(s, step) && id in s.st.claimed
    ensures id !in Apply(s, step).st.claimed <==>
            Deletes(s, step, id) || Drops(s, step, id) || Exhausts(s, step, id) || Retires(s, step, id)
  {
    match step {
      case Resolve(_, _, _) => ResolveReleases(s, step, id);
      case Exit(_, _) => ExitReleases(s, step, id);
      case Stall(_, _) => ExitReleases(s, step, id);
      case _ =>
    }
  }

  lemma ResolveStarts(s: World, step: Step, id: string)
    requires step.Resolve? && Enabled(s, step) && !Running(s, id)
    ensures Running(Apply(s, step), id) <==> Starts(s, step, id)
  {
    var (popped, retry) := s.control.popped.value;
    if popped != id {
      ResolveLeavesOthers(s.st, step.c, popped, retry, step.fetched, step.now, s.nextFlag, id);
    } else if step.fetched.Some? {
      FindFinds(step.fetched.value, id);
    }
  }

  lemma FreshCell(s: World, step: Step, id: string)
    requires Enabled(s, step) && Starts(s, step, id)
    ensures var s' := Apply(s, step);
            && id in s'.st.running && s'.st.running[id].cancelled == s.nextFlag
            && s'.workers.Keys == s.workers.Keys + {s.nextFlag}
  {
    if step.Resolve? {
      FindFinds(step.fetched.value, id);
    }
  }

  /** An issue begins to run exactly when a step starts a worker for it, and then under the step's own fresh cell. */
  lemma RunningBeginsExactly(s: World, step: Step, id: string)
    requires Enabled(s, step) && !Running(s, id)
    ensures Running(Apply(s, step), id) <==> Starts(s, step, id)
    ensures Starts(s, step, id) ==>
              var s' := Apply(s, step);
              s'.st.running[id].cancelled == s.nextFlag && s'.workers.Keys == s.workers.Keys + {s.nextFlag}
  {
    if Starts(s, step, id) {
      FreshCell(s, step, id);
    } else if step.Resolve? {
      ResolveStarts(s, step, id);
    }
  }

  /** A running entry ends exactly when a worker of the issue exits, it is declared stalled, or it is dropped. */
  lemma {:induction false} RunningEndsExactly(s: World, step: Step, id: string)
    requires Enabled(s, step) && Running(s, id)
    ensures !Running(Apply(s, step), id) <==>
            || (step.Exit? && s.workers[step.flag].issue.id == id)
            || (step.Stall? && step.id == id)
            || Drops(s, step, id)
  {
    if step.Resolve? {
      assert forall k :: k in s.st.running ==> k in Apply(s, step).st.running;
    }
  }

  /** The issue a step tells the scheduler of, by starting it or by an active refresh of its entry. */
  function ToldBy(s: World, step: Step, id: string): Option<Issue> {
    match step
    case Refresh(c, issue) =>
      if issue.id == id && Running(s, id) && c.Workable(issue.state) then Some(issue) else None
    case Dispatch(_, _, issue) => if Starts(s, step, id) then Some(issue) else None
    case Resolve(_, _, fetched) => if Starts(s, step, id) then Find(fetched.value, id) else None
    case _ => None
  }

  lemma ResolveTells(s: World, step: Step, id: string)
    requires step.Resolve? && Enabled(s, step) && Running(Apply(s, step), id)
    ensures if Starts(s, step, id) then Some(Apply(s, step).st.running[id].issue) == Find(step.fetched.value, id)
            else Running(s, id) && Apply(s, step).st.running[id].issue == s.st.running[id].issue
  {
    var (popped, retry) := s.control.popped.value;
    if popped != id {
      ResolveLeavesOthers(s.st, step.c, popped, retry, step.fetched, step.now, s.nextFlag, id);
    } else if step.fetched.Some? {
      FindFinds(step.fetched.value, id);
    }
  }

  lemma StepTells(s: World, step: Step, id: string)
    requires Enabled(s, step) && Running(Apply(s, step), id)
    ensures var issue := Apply(s, step).st.running[id].issue;
            if ToldBy(s, step, id).Some? then ToldBy(s, step, id).value == issue
            else Running(s, id) && issue == s.st.running[id].issue
  {
    if step.Resolve? {
      ResolveTells(s, step, id);
    }
  }

  /** Step `i` told the scheduler of this issue, and no step after it, up to `n`, told it anything of `id`. */
  ghost predicate ToldLastAt(w: seq<World>, steps: seq<Step>, i: nat, n: nat, id: string, issue: Issue)
    requires n <= |steps| < |w|
  {
    i < n && ToldBy(w[i], steps[i], id) == Some(issue)
    && forall j :: i < j < n ==> ToldBy(w[j], steps[j], id).None?
  }

  lemma StillToldLast(w: seq<World>, steps: seq<Step>, i: nat, n: nat, id: string, issue: Issue)
    requires n < |steps| < |w| && ToldLastAt(w, steps, i, n, id, issue) && ToldBy(w[n], steps[n], id).None?
    ensures ToldLastAt(w, steps, i, n + 1, id, issue)
  {
  }

  lemma NextTells(w: seq<World>, steps: seq<Step>, n: nat, id: string)
    requires IsRun(w, steps) && n < |steps| && Running(w[n + 1], id)
    ensures var issue := w[n + 1].st.running[id].issue;
            if ToldBy(w[n], steps[n], id).Some? then ToldBy(w[n], steps[n], id).value == issue
            else Running(w[n], id) && issue == w[n].st.running[id].issue
  {
    assert Takes(w, steps, n);
    StepTells(w[n], steps[n], id);
  }

  /** An entry always holds the issue as last reported. */
  lemma {:induction false} EntryFollowsTracker(w: seq<World>, steps: seq<Step>, n: nat, id: string)
    requires IsRun(w, steps) && n < |w| && Running(w[n], id)
    ensures exists i :: ToldLastAt(w, steps, i, n, id, w[n].st.running[id].issue)
  {
    assert n > 0;
    NextTells(w, steps, n - 1, id);
    var issue := w[n].st.running[id].issue;
    if ToldBy(w[n - 1], steps[n - 1], id).None? {
      EntryFollowsTracker(w, steps, n - 1, id);
      var i :| ToldLastAt(w, steps, i, n - 1, id, issue);
      StillToldLast(w, steps, i, n - 1, id, issue);
    } else {
      assert ToldLastAt(w, steps, n - 1, n, id, issue);
    }
  }

  // ---- Exact effects ----

  /** What a refresh of a running issue does, in each of its three cases. A terminal issue keeps entry and claim until its
      worker exits. */
  lemma RefreshExactly(s: World, step: Step)
    requires step.Refresh? && Enabled(s, step) && step.issue.id in s.st.running
    ensures var (c, issue, s') := (step.c, step.issue, Apply(s, step));
            var (id, state, entry) := (issue.id, Lower(issue.state), s.st.running[issue.id]);
            && (state in c.TerminalStates() ==>
                  s'.st == s.st && s'.raised == s.raised + {entry.cancelled})
            && (state in c.ActiveStates() && state !in c.TerminalStates() ==>
                  s'.st == s.st.(running := s.st.running[id := entry.(issue := issue)]) && s'.raised == s.raised)
            && (state !in c.ActiveStates() && state !in c.TerminalStates() ==>
                  && s'.st == s.st.(running := s.st.running - {id}, claimed := s.st.claimed - {id})
                  && s'.raised == s.raised + {entry.cancelled})
            && s'.workers == s.workers && s'.control == s.control && s'.clock == s.clock
  {
  }

  /** ... and of an issue that is not running: nothing. */
  lemma RefreshOfOthersIsIdle(s: World, step: Step)
    requires step.Refresh? && Enabled(s, step) && step.issue.id !in s.st.running
    ensures Apply(s, step) == s
  {
    assert s.raised + {} == s.raised;
  }

  /** The issue a starting step starts, and the attempt it passes on. */
  predicate StartsWith(s: World, step: Step, issue: Issue, attempt: Option<u32>) {
    match step
    case Dispatch(_, _, candidate) => issue == candidate && attempt.None?
    case Resolve(_, _, Some(candidates)) =>
      && s.control.Retrying? && s.control.popped.Some?
      && Find(candidates, s.control.popped.value.0) == Some(issue) && attempt == Some(s.control.popped.value.1.attempt)
    case _ => false
  }

  /** A start enters a blank entry for the issue and its attempt under the next cell, claims it, spawns its worker, and
      leaves every other entry alone. */
  lemma StartExactly(s: World, step: Step, id: string)
    requires Enabled(s, step) && Starts(s, step, id)
    ensures exists issue, attempt ::
              && StartsWith(s, step, issue, attempt) && issue.id == id
              && Apply(s, step).st.running == s.st.running[id := RunningEntry(issue, None, attempt, 0, s.nextFlag, 0)]
              && Apply(s, step).st.claimed == s.st.claimed + {id}
              && Apply(s, step).workers == s.workers[s.nextFlag := Worker(issue, attempt, Turning)]
              && Apply(s, step).nextFlag == s.nextFlag + 1
  {
    if step.Resolve? {
      FindFinds(step.fetched.value, id);
      assert StartsWith(s, step, Find(step.fetched.value, id).value, Some(s.control.popped.value.1.attempt));
    } else {
      assert StartsWith(s, step, step.issue, None);
    }
  }

  lemma ResolveClaims(s: World, step: Step, id: string)
    requires step.Resolve? && Enabled(s, step) && id !in s.st.claimed
    ensures id in Apply(s, step).st.claimed <==> Starts(s, step, id)
  {
    var (popped, retry) := s.control.popped.value;
    if popped != id {
      ResolveLeavesOthers(s.st, step.c, popped, retry, step.fetched, step.now, s.nextFlag, id);
    } else if step.fetched.Some? {
      FindFinds(step.fetched.value, id);
    }
  }

  /** A claim is taken exactly by a start. */
  lemma ClaimIsTakenExactly(s: World, step: Step, id: string)
    requires Enabled(s, step) && id !in s.st.claimed
    ensures id in Apply(s, step).st.claimed <==> Starts(s, step, id)
  {
    if step.Resolve? {
      ResolveClaims(s, step, id);
    }
  }

  lemma ResolveDropsNoRetry(s: World, step: Step, id: string)
    requires step.Resolve? && Enabled(s, step) && Queued(s, id)
    ensures Queued(Apply(s, step), id)
  {
    var (popped, retry) := s.control.popped.value;
    if popped != id {
      ResolveLeavesOthers(s.st, step.c, popped, retry, step.fetched, step.now, s.nextFlag, id);
    }
  }

  /** A retry leaves the queue exactly by the pop of its turn or by an operator's delete. */
  lemma RetryIsTakenExactly(s: World, step: Step, id: string)
    requires Enabled(s, step) && Queued(s, id)
    ensures !Queued(Apply(s, step), id) <==> (step.Pop? && s.control.pending[0].0 == id) || Deletes(s, step, id)
  {
    if step.Resolve? {
      ResolveDropsNoRetry(s, step, id);
    }
  }

  /** Nothing but bookkeeping touches the totals, and nothing but a reload the limit. */
  lemma TotalsAndLimitAreKept(s: World, step: Step)
    requires Enabled(s, step)
    ensures !step.Bookkeep? ==> Apply(s, step).st.totals == s.st.totals
    ensures Apply(s, step).st.maxConcurrentAgents == if step.Reload? then step.limit else s.st.maxConcurrentAgents
  {
    if step.Resolve? {
      ResolveKeepsTotalsAndLimit(s, step);
    }
  }

  lemma ResolveKeepsTotalsAndLimit(s: World, step: Step)
    requires step.Resolve? && Enabled(s, step)
    ensures Apply(s, step).st.totals == s.st.totals && Apply(s, step).st.maxConcurrentAgents == s.st.maxConcurrentAgents
  {
  }

  /** An entry that no step starts, refreshes or books on is not changed while it stays. */
  lemma EntryIsKept(s: World, step: Step, id: string)
    requires Enabled(s, step) && Running(s, id) && Running(Apply(s, step), id)
    requires !Starts(s, step, id) && !(step.Refresh? && step.issue.id == id) && !(step.Bookkeep? && step.id == id)
    ensures Apply(s, step).st.running[id] == s.st.running[id]
  {
    if step.Resolve? {
      var (popped, retry) := s.control.popped.value;
      if popped != id {
        ResolveLeavesOthers(s.st, step.c, popped, retry, step.fetched, step.now, s.nextFlag, id);
      }
    }
  }
}
