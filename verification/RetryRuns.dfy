/** The retry budget over whole runs. */
module RetryRuns {
  import opened Prelude
  import opened Config
  import opened Retry
  import opened Tracker
  import opened OrchestratorState
  import opened World
  import opened Claims

  // ---- Failures ----

  /** A worker of `id` reports failure, is declared stalled, or a retry poll of `id` fails. */
  predicate Fails(s: World, step: Step, id: string) {
    match step
    case Exit(_, flag) =>
      && flag in s.workers && s.workers[flag].issue.id == id
      && s.workers[flag].phase.Wrapping? && !s.workers[flag].phase.ok && Running(s, id)
    case Stall(_, i) => i == id && Running(s, id)
    case Resolve(_, _, fetched) => fetched.None? && InFlight(s, id)
    case _ => false
  }

  // ---- The retry budget ----

  /** All steps read the same retry limit. */
  predicate FixedLimit(step: Step, limit: u32) {
    match step
    case Stall(c, _) => c.MaxRetryAttempts() == limit
    case Exit(c, _) => c.MaxRetryAttempts() == limit
    case Resolve(c, _, _) => c.MaxRetryAttempts() == limit
    case _ => true
  }

  predicate InBudget(attempt: u32, limit: u32) {
    1 <= attempt <= limit
  }

  predicate OptionInBudget(attempt: Option<u32>, limit: u32) {
    attempt.Some? ==> InBudget(attempt.value, limit)
  }

  /** Every attempt number in the system lies in 1..limit. */
  ghost predicate Budgeted(s: World, limit: u32) {
    && (forall id :: id in s.st.retries ==> InBudget(s.st.retries[id].attempt, limit))
    && (forall id :: id in s.st.running ==> OptionInBudget(s.st.running[id].retryAttempt, limit))
    && (forall f :: f in s.workers ==> OptionInBudget(s.workers[f].attempt, limit))
    && (s.control.Retrying? ==>
          && (forall i :: 0 <= i < |s.control.pending| ==> InBudget(s.control.pending[i].1.attempt, limit))
          && (s.control.popped.Some? ==> InBudget(s.control.popped.value.1.attempt, limit)))
  }

  lemma ResolveKeepsBudget(s: World, step: Step, limit: u32)
    requires 1 <= limit < TWO_TO_THE_32 - 1
    requires step.Resolve? && Budgeted(s, limit) && Enabled(s, step) && FixedLimit(step, limit)
    ensures Budgeted(Apply(s, step), limit)
  {
  }

  lemma ExitKeepsBudget(s: World, step: Step, limit: u32)
    requires 1 <= limit < TWO_TO_THE_32 - 1
    requires step.Exit? || step.Stall?
    requires Budgeted(s, limit) && Enabled(s, step) && FixedLimit(step, limit)
    ensures Budgeted(Apply(s, step), limit)
  {
  }

  lemma StepKeepsBudget(s: World, step: Step, limit: u32)
    requires 1 <= limit < TWO_TO_THE_32 - 1
    requires Budgeted(s, limit) && Enabled(s, step) && FixedLimit(step, limit)
    ensures Budgeted(Apply(s, step), limit)
  {
    match step {
      case Resolve(_, _, _) => ResolveKeepsBudget(s, step, limit);
      case Exit(_, _) => ExitKeepsBudget(s, step, limit);
      case Stall(_, _) => ExitKeepsBudget(s, step, limit);
      case _ =>
    }
  }

  /** Under every interleaving, with outlived workers and racing deletes, each queued attempt is within the limit. */
  lemma {:induction false} AttemptsStayInBudget(w: seq<World>, steps: seq<Step>, n: nat, limit: u32)
    requires 1 <= limit < TWO_TO_THE_32 - 1
    requires IsRun(w, steps) && n < |w|
    requires forall i :: 0 <= i < n ==> FixedLimit(steps[i], limit)
    ensures Budgeted(w[n], limit)
  {
    if n > 0 {
      AttemptsStayInBudget(w, steps, n - 1, limit);
      assert Takes(w, steps, n - 1);
      StepKeepsBudget(w[n - 1], steps[n - 1], limit);
    }
  }

  /** Whatever exit meets an entry within the limit, the attempt it queues is within the limit. */
  ghost predicate ExitsKeepToLimit(c: Settings) {
    forall st: State, id, ok, error, now ::
      && id in st.running && id !in st.retries && OptionInBudget(st.running[id].retryAttempt, c.MaxRetryAttempts())
      && id in HandleWorkerExit(st, c, id, ok, error, now).retries ==>
        InBudget(HandleWorkerExit(st, c, id, ok, error, now).retries[id].attempt, c.MaxRetryAttempts())
  }

  /** The range of limits above is exact. With a limit of 0 (a configured multiple of 2^32) a success queues
      attempt 1 beyond it; with the largest u32 the increment after the last attempt wraps around to 0. */
  lemma BudgetRangeIsExact(c: Settings)
    ensures ExitsKeepToLimit(c) <==> 1 <= c.MaxRetryAttempts() < TWO_TO_THE_32 - 1
  {
    var limit := c.MaxRetryAttempts();
    if limit == 0 || limit == TWO_TO_THE_32 - 1 {
      var issue := Issue("", "", "", None, None, []);
      var entry := RunningEntry(issue, None, if limit == 0 then None else Some(limit), 0, 0, 0);
      var st := State(0, map["" := entry], {""}, map[], {}, NO_USAGE);
      var retries := HandleWorkerExit(st, c, "", limit == 0, "", 0).retries;
      assert "" in retries && retries[""].attempt == if limit == 0 then 1 else 0;
    }
  }

  // ---- The failure chain ----

  /** How many failures in a row the issue has behind it, as the state records it. */
  function Level(s: World, id: string): nat {
    if id in s.st.running then s.st.running[id].retryAttempt.GetOr(0)
    else if id in s.st.retries then s.st.retries[id].attempt
    else if InFlight(s, id) then s.control.popped.value.1.attempt
    else 0
  }

  /** Nothing but the chain itself touches the issue: no delete, no success, no exit of another worker. */
  predicate InChain(s: World, step: Step, id: string) {
    && !Deletes(s, step, id)
    && (step.Exit? && step.flag in s.workers && s.workers[step.flag].issue.id == id && Running(s, id) ==>
          && s.st.running[id].cancelled == step.flag
          && s.workers[step.flag].phase.Wrapping? && !s.workers[step.flag].phase.ok)
  }

  /** The owner's attempt argument is the one its entry records. */
  ghost predicate AttemptsAgree(s: World, id: string) {
    Running(s, id) && s.st.running[id].cancelled in s.workers ==>
      s.workers[s.st.running[id].cancelled].attempt == s.st.running[id].retryAttempt
  }

  lemma ResolveKeepsAttemptsAgree(s: World, step: Step, id: string)
    requires step.Resolve? && Keyed(s) && AttemptsAgree(s, id) && Accounted(s, id) && Enabled(s, step)
    ensures AttemptsAgree(Apply(s, step), id)
  {
    var (popped, retry) := s.control.popped.value;
    assert s.nextFlag !in s.workers;
    if popped != id {
      ResolveLeavesOthers(s.st, step.c, popped, retry, step.fetched, step.now, s.nextFlag, id);
    } else if step.fetched.Some? {
      FindFinds(step.fetched.value, id);
    }
  }

  lemma StepKeepsAttemptsAgree(s: World, step: Step, id: string)
    requires Keyed(s) && AttemptsAgree(s, id) && Accounted(s, id) && Enabled(s, step)
    ensures AttemptsAgree(Apply(s, step), id)
  {
    match step {
      case Resolve(_, _, _) => ResolveKeepsAttemptsAgree(s, step, id);
      case Dispatch(_, _, _) => assert s.nextFlag !in s.workers;
      case _ =>
    }
  }

  lemma {:induction false} AttemptsAlwaysAgree(w: seq<World>, steps: seq<Step>, n: nat, id: string)
    requires IsRun(w, steps) && n < |w|
    ensures AttemptsAgree(w[n], id)
  {
    if n > 0 {
      AttemptsAlwaysAgree(w, steps, n - 1, id);
      NothingLeaks(w, steps, n - 1, id);
      KeyedAlways(w, steps, n - 1);
      assert Takes(w, steps, n - 1);
      StepKeepsAttemptsAgree(w[n - 1], steps[n - 1], id);
    }
  }

  lemma ResolveQueuesNext(st: State, c: Settings, id: string, retry: RetryEntry, fetched: Option<seq<Issue>>, now: nat, flag: Flag)
    requires 1 <= c.MaxRetryAttempts() < TWO_TO_THE_32 - 1
    requires id !in st.running && id !in st.retries && InBudget(retry.attempt, c.MaxRetryAttempts())
    ensures var st' := ResolveRetry(st, c, id, retry, fetched, now, flag);
            id in st'.claimed ==>
              if id in st'.running then fetched.Some? && st'.running[id].retryAttempt == Some(retry.attempt)
              else id in st'.retries && st'.retries[id].attempt == retry.attempt + if fetched.None? then 1 else 0
  {
    if fetched.Some? {
      FindFinds(fetched.value, id);
    }
  }

  lemma ResolveMovesLevel(s: World, step: Step, id: string)
    requires step.Resolve? && Enabled(s, step) && Partitioned(s, id)
    requires 1 <= step.c.MaxRetryAttempts() < TWO_TO_THE_32 - 1
    requires InBudget(s.control.popped.value.1.attempt, step.c.MaxRetryAttempts())
    requires id in s.st.claimed && id in Apply(s, step).st.claimed
    ensures Level(Apply(s, step), id) == Level(s, id) + if Fails(s, step, id) then 1 else 0
  {
    var (popped, retry) := s.control.popped.value;
    var st' := ResolveRetry(s.st, step.c, popped, retry, step.fetched, step.now, s.nextFlag);
    assert Apply(s, step).st == st';
    if id != popped {
      ResolveLeavesOthers(s.st, step.c, popped, retry, step.fetched, step.now, s.nextFlag, id);
    } else {
      ResolveQueuesNext(s.st, step.c, popped, retry, step.fetched, step.now, s.nextFlag);
    }
  }

  lemma ExitMovesLevel(s: World, step: Step, id: string, limit: u32)
    requires 1 <= limit < TWO_TO_THE_32 - 1
    requires step.Exit? && Enabled(s, step) && FixedLimit(step, limit) && Partitioned(s, id) && AttemptsAgree(s, id)
    requires Running(s, id) ==> OptionInBudget(s.st.running[id].retryAttempt, limit)
    requires id in s.st.claimed && id in Apply(s, step).st.claimed && InChain(s, step, id)
    ensures Level(Apply(s, step), id) == Level(s, id) + if Fails(s, step, id) then 1 else 0
  {
  }

  lemma StallMovesLevel(s: World, step: Step, id: string, limit: u32)
    requires 1 <= limit < TWO_TO_THE_32 - 1
    requires step.Stall? && Enabled(s, step) && FixedLimit(step, limit) && Partitioned(s, id)
    requires Running(s, id) ==> OptionInBudget(s.st.running[id].retryAttempt, limit)
    requires id in s.st.claimed && id in Apply(s, step).st.claimed
    ensures Level(Apply(s, step), id) == Level(s, id) + if Fails(s, step, id) then 1 else 0
  {
  }

  lemma PopKeepsLevel(s: World, id: string)
    requires Enabled(s, Pop) && Partitioned(s, id) && id in s.st.claimed
    ensures Level(Apply(s, Pop), id) == Level(s, id)
  {
  }

  lemma OthersKeepLevel(s: World, step: Step, id: string)
    requires !step.Resolve? && !step.Exit? && !step.Stall? && !step.Pop?
    requires Keyed(s) && Enabled(s, step) && Partitioned(s, id) && !Deletes(s, step, id)
    requires id in s.st.claimed && id in Apply(s, step).st.claimed
    ensures Level(Apply(s, step), id) == Level(s, id)
  {
    if step.Delete? {
      assert KeyedAt(s, step.key);
    }
  }

  /** A failure raises the level by one; a slot shortage, a start, a refresh, anything else leaves it. */
  lemma {:induction false} StepMovesLevel(s: World, step: Step, id: string, limit: u32)
    requires 1 <= limit < TWO_TO_THE_32 - 1
    requires Keyed(s) && Enabled(s, step) && FixedLimit(step, limit)
    requires Partitioned(s, id) && AttemptsAgree(s, id)
    requires Running(s, id) ==> OptionInBudget(s.st.running[id].retryAttempt, limit)
    requires step.Resolve? ==> InBudget(s.control.popped.value.1.attempt, limit)
    requires id in s.st.claimed && id in Apply(s, step).st.claimed && InChain(s, step, id)
    ensures Level(Apply(s, step), id) == Level(s, id) + if Fails(s, step, id) then 1 else 0
  {
    match step {
      case Resolve(_, _, _) => ResolveMovesLevel(s, step, id);
      case Exit(_, _) => ExitMovesLevel(s, step, id, limit);
      case Stall(_, _) => StallMovesLevel(s, step, id, limit);
      case Pop => PopKeepsLevel(s, id);
      case _ => OthersKeepLevel(s, step, id);
    }
  }

  function Failures(w: seq<World>, steps: seq<Step>, i: nat, j: nat, id: string): nat
    requires i <= j <= |steps| < |w|
    decreases j
  {
    if i == j then 0
    else Failures(w, steps, i, j - 1, id) + if Fails(w[j - 1], steps[j - 1], id) then 1 else 0
  }

  lemma LevelInBudget(s: World, id: string, limit: u32)
    requires Budgeted(s, limit)
    ensures Level(s, id) <= limit
  {
  }

  /** Step `m` leaves the issue to its chain. */
  predicate Undisturbed(w: seq<World>, steps: seq<Step>, m: int, id: string) {
    0 <= m < |steps| && m < |w| && InChain(w[m], steps[m], id)
  }

  predicate Claimed(w: seq<World>, m: int, id: string) {
    0 <= m < |w| && id in w[m].st.claimed
  }

  lemma {:induction false} ChainKeepsPartition(w: seq<World>, steps: seq<Step>, i: nat, j: nat, id: string)
    requires IsRun(w, steps) && i <= j < |w| && Partitioned(w[i], id)
    requires forall m :: i <= m < j ==> Undisturbed(w, steps, m, id)
    ensures Partitioned(w[j], id)
    decreases j
  {
    if i < j {
      ChainKeepsPartition(w, steps, i, j - 1, id);
      KeyedAlways(w, steps, j - 1);
      assert Undisturbed(w, steps, j - 1, id);
      NextKeepsPartition(w, steps, j - 1, id);
    }
  }

  lemma NextMovesLevel(w: seq<World>, steps: seq<Step>, n: nat, id: string, limit: u32)
    requires 1 <= limit < TWO_TO_THE_32 - 1
    requires IsRun(w, steps) && n < |steps| && FixedLimit(steps[n], limit) && Budgeted(w[n], limit)
    requires Partitioned(w[n], id) && Undisturbed(w, steps, n, id) && Claimed(w, n, id) && Claimed(w, n + 1, id)
    ensures Level(w[n + 1], id) == Level(w[n], id) + if Fails(w[n], steps[n], id) then 1 else 0
  {
    KeyedAlways(w, steps, n);
    AttemptsAlwaysAgree(w, steps, n, id);
    if Running(w[n], id) {
      assert OptionInBudget(w[n].st.running[id].retryAttempt, limit);
    }
    assert Takes(w, steps, n);
    StepMovesLevel(w[n], steps[n], id, limit);
  }

  /** While an undisturbed issue stays claimed, its attempt number counts its failures one by one; so from a fresh
      dispatch (level 0) at most `limit` failures leave the claim in place, and the next one releases it. All that matters
      of what came before is that the issue is partitioned at the start. */
  lemma {:induction false} FailureChain(w: seq<World>, steps: seq<Step>, i: nat, j: nat, id: string, limit: u32)
    requires 1 <= limit < TWO_TO_THE_32 - 1
    requires IsRun(w, steps) && i <= j < |w| && Partitioned(w[i], id)
    requires forall m :: 0 <= m < j ==> FixedLimit(steps[m], limit)
    requires forall m :: i <= m < j ==> Undisturbed(w, steps, m, id)
    requires forall m :: i <= m <= j ==> Claimed(w, m, id)
    ensures Level(w[j], id) == Level(w[i], id) + Failures(w, steps, i, j, id)
    ensures Level(w[j], id) <= limit
    decreases j
  {
    AttemptsStayInBudget(w, steps, j, limit);
    LevelInBudget(w[j], id, limit);
    if i < j {
      FailureChain(w, steps, i, j - 1, id, limit);
      ChainKeepsPartition(w, steps, i, j - 1, id);
      AttemptsStayInBudget(w, steps, j - 1, limit);
      NextMovesLevel(w, steps, j - 1, id, limit);
    }
  }

  lemma DispatchPartitions(s: World, step: Step, id: string)
    requires step.Dispatch? && Enabled(s, step) && Starts(s, step, id) && !Queued(s, id)
    ensures Partitioned(Apply(s, step), id) && Level(Apply(s, step), id) == 0
  {
  }

  /** After a fresh dispatch of an issue that is not queued, the claim is gone by the failure numbered `limit + 1`. */
  lemma {:induction false} BudgetReleasesClaim(w: seq<World>, steps: seq<Step>, i: nat, j: nat, id: string, limit: u32)
    requires 1 <= limit < TWO_TO_THE_32 - 1
    requires IsRun(w, steps) && i < j < |w|
    requires forall m :: 0 <= m < j ==> FixedLimit(steps[m], limit)
    requires forall m :: i < m < j ==> Undisturbed(w, steps, m, id)
    requires steps[i].Dispatch? && Starts(w[i], steps[i], id) && !Queued(w[i], id)
    requires Failures(w, steps, i + 1, j, id) > limit
    ensures exists m :: i < m <= j && !Claimed(w, m, id)
  {
    if forall m :: i + 1 <= m <= j ==> Claimed(w, m, id) {
      assert Takes(w, steps, i);
      DispatchPartitions(w[i], steps[i], id);
      FailureChain(w, steps, i + 1, j, id, limit);
    }
  }
}
