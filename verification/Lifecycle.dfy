/** What a running entry records, and how a finished issue leaves the system. */
module Lifecycle {
  import opened Prelude
  import opened Config
  import opened OrchestratorState
  import opened World
  import opened Claims
  import opened RetryRuns

  // ---- Well-formed entries ----

  predicate FixedConfig(step: Step, c: Settings) {
    match step
    case Dispatch(d, _, _) => d == c
    case Stall(d, _) => d == c
    case Refresh(d, _) => d == c
    case Exit(d, _) => d == c
    case Resolve(d, _, _) => d == c
    case _ => true
  }

  predicate Workable(s: World, c: Settings, id: string) {
    id in s.st.running ==> c.Workable(s.st.running[id].issue.state)
  }

  lemma ResolveKeepsWorkable(s: World, step: Step, c: Settings, id: string)
    requires step.Resolve? && Enabled(s, step) && FixedConfig(step, c) && Workable(s, c, id)
    ensures Workable(Apply(s, step), c, id)
  {
    var (popped, retry) := s.control.popped.value;
    if popped != id {
      ResolveLeavesOthers(s.st, step.c, popped, retry, step.fetched, step.now, s.nextFlag, id);
    } else if step.fetched.Some? {
      FindFinds(step.fetched.value, id);
    }
  }

  lemma StepKeepsWorkable(s: World, step: Step, c: Settings, id: string)
    requires Enabled(s, step) && FixedConfig(step, c) && Workable(s, c, id)
    ensures Workable(Apply(s, step), c, id)
  {
    if step.Resolve? {
      ResolveKeepsWorkable(s, step, c, id);
    }
  }

  /** Under every interleaving an entry names its own key, is active and not terminal, and carries the
      attempt its owner was started with. */
  lemma {:induction false} EntriesAreWellFormed(w: seq<World>, steps: seq<Step>, n: nat, c: Settings, id: string)
    requires IsRun(w, steps) && n < |w|
    requires forall i :: 0 <= i < n ==> FixedConfig(steps[i], c)
    ensures id in w[n].st.running ==>
              var entry := w[n].st.running[id];
              && entry.issue.id == id
              && Lower(entry.issue.state) in c.ActiveStates() && Lower(entry.issue.state) !in c.TerminalStates()
              && entry.cancelled in w[n].workers && w[n].workers[entry.cancelled].attempt == entry.retryAttempt
  {
    KeyedAlways(w, steps, n);
    NothingLeaks(w, steps, n, id);
    AttemptsAlwaysAgree(w, steps, n, id);
    if id in w[n].st.running {
      assert KeyedAt(w[n], id);
    }
    if n > 0 {
      EntriesAreWellFormed(w, steps, n - 1, c, id);
      assert Takes(w, steps, n - 1);
      StepKeepsWorkable(w[n - 1], steps[n - 1], c, id);
    }
  }

  /** When the owner of an entry exits, its wrapper makes the transition `handle_worker_exit` would make. */
  lemma OwnersExitLikeTheOrchestrator(w: seq<World>, steps: seq<Step>, n: nat)
    requires IsRun(w, steps) && Takes(w, steps, n) && steps[n].Exit?
    requires var id := w[n].workers[steps[n].flag].issue.id;
             id in w[n].st.running && w[n].st.running[id].cancelled == steps[n].flag
    ensures var worker := w[n].workers[steps[n].flag];
            w[n + 1].st == HandleWorkerExit(w[n].st, steps[n].c, worker.issue.id, worker.phase.ok, worker.phase.error, w[n].clock)
  {
    var worker := w[n].workers[steps[n].flag];
    AttemptsAlwaysAgree(w, steps, n, worker.issue.id);
    ExitPathsAgree(w[n].st, steps[n].c, worker.issue.id, worker.attempt, worker.phase.ok, worker.phase.error, w[n].clock);
  }

  // ---- Terminal issues drain ----

  /** Whatever the step has heard from the tracker about `id` is that it is terminal. */
  predicate HearsTerminal(step: Step, id: string) {
    match step
    case Dispatch(c, _, issue) => issue.id == id ==> Lower(issue.state) in c.TerminalStates()
    case Refresh(c, issue) => issue.id == id ==> Lower(issue.state) in c.TerminalStates()
    case Resolve(c, _, fetched) =>
      fetched.Some? && Find(fetched.value, id).Some? ==> Lower(Find(fetched.value, id).value.state) in c.TerminalStates()
    case _ => true
  }

  /** The scheduler holds nothing for the issue. */
  predicate Gone(s: World, id: string) {
    !Running(s, id) && id !in s.st.claimed && !Queued(s, id) && !InFlight(s, id) && !Pending(s, id)
  }

  /** Inside the pass that releases the issue: it is in the snapshot, popped, or already gone. */
  ghost predicate Draining(s: World, id: string) {
    !Running(s, id) && (Queued(s, id) ==> Pending(s, id))
  }

  lemma ResolveKeepsGone(s: World, step: Step, id: string)
    requires step.Resolve? && Enabled(s, step) && HearsTerminal(step, id) && Gone(s, id)
    ensures Gone(Apply(s, step), id)
  {
    var (popped, retry) := s.control.popped.value;
    ResolveLeavesOthers(s.st, step.c, popped, retry, step.fetched, step.now, s.nextFlag, id);
    assert Pending(Apply(s, step), id) ==> Pending(s, id);
  }

  lemma StepKeepsGone(s: World, step: Step, id: string)
    requires Enabled(s, step) && HearsTerminal(step, id) && Gone(s, id)
    ensures Gone(Apply(s, step), id)
  {
    match step {
      case Resolve(_, _, _) => ResolveKeepsGone(s, step, id);
      case Pop =>
        var p := s.control.pending;
        assert forall i :: 0 <= i < |p[1..]| ==> p[1..][i] == p[i + 1];
      case _ =>
    }
  }

  lemma ResolveNeverRestarts(s: World, step: Step, id: string)
    requires step.Resolve? && Enabled(s, step) && HearsTerminal(step, id) && !Running(s, id)
    ensures !Running(Apply(s, step), id)
  {
    var (popped, retry) := s.control.popped.value;
    if popped != id {
      ResolveLeavesOthers(s.st, step.c, popped, retry, step.fetched, step.now, s.nextFlag, id);
    }
  }

  lemma StepNeverRestarts(s: World, step: Step, id: string)
    requires Enabled(s, step) && HearsTerminal(step, id) && !Running(s, id)
    ensures !Running(Apply(s, step), id)
  {
    if step.Resolve? {
      ResolveNeverRestarts(s, step, id);
    }
  }

  lemma ResolveKeepsDraining(s: World, step: Step, id: string)
    requires step.Resolve? && step.fetched.Some? && Enabled(s, step) && HearsTerminal(step, id)
    requires Draining(s, id)
    ensures Draining(Apply(s, step), id)
  {
    var (popped, retry) := s.control.popped.value;
    ResolveNeverRestarts(s, step, id);
    if popped != id {
      ResolveLeavesOthers(s.st, step.c, popped, retry, step.fetched, step.now, s.nextFlag, id);
    }
    assert Pending(s, id) ==> Pending(Apply(s, step), id);
  }

  lemma PopKeepsDraining(s: World, id: string)
    requires Enabled(s, Pop) && Draining(s, id)
    ensures Draining(Apply(s, Pop), id)
  {
  }

  lemma StepKeepsDraining(s: World, step: Step, id: string)
    requires Enabled(s, step) && HearsTerminal(step, id) && s.control.Retrying?
    requires step.Resolve? ==> step.fetched.Some?
    requires Draining(s, id)
    ensures Draining(Apply(s, step), id)
  {
    match step {
      case Resolve(_, _, _) => ResolveKeepsDraining(s, step, id);
      case Pop => PopKeepsDraining(s, id);
      case Exit(_, _) =>
        assert Queued(Apply(s, step), id) <==> Queued(s, id);
      case _ =>
    }
  }

  lemma {:induction false} StaysDraining(w: seq<World>, steps: seq<Step>, k: nat, m: nat, id: string)
    requires IsRun(w, steps) && k <= m < |w|
    requires Draining(w[k], id)
    requires forall i :: k <= i < m ==> HearsTerminal(steps[i], id) && (steps[i].Resolve? ==> steps[i].fetched.Some?)
    requires forall i :: k <= i < m ==> w[i].control.Retrying?
    ensures Draining(w[m], id)
    decreases m
  {
    if k < m {
      StaysDraining(w, steps, k, m - 1, id);
      assert Takes(w, steps, m - 1);
      StepKeepsDraining(w[m - 1], steps[m - 1], id);
    }
  }

  lemma {:induction false} StaysStopped(w: seq<World>, steps: seq<Step>, i: nat, n: nat, id: string)
    requires IsRun(w, steps) && i <= n < |w| && !Running(w[i], id)
    requires forall m :: i <= m < n ==> HearsTerminal(steps[m], id)
    ensures !Running(w[n], id)
    decreases n
  {
    if i < n {
      StaysStopped(w, steps, i, n - 1, id);
      assert Takes(w, steps, n - 1);
      StepNeverRestarts(w[n - 1], steps[n - 1], id);
    }
  }

  lemma {:induction false} StaysGone(w: seq<World>, steps: seq<Step>, m: nat, n: nat, id: string)
    requires IsRun(w, steps) && m <= n < |w| && Gone(w[m], id)
    requires forall i :: m <= i < n ==> HearsTerminal(steps[i], id)
    ensures Gone(w[n], id)
    decreases n
  {
    if m < n {
      StaysGone(w, steps, m, n - 1, id);
      assert Takes(w, steps, n - 1);
      StepKeepsGone(w[n - 1], steps[n - 1], id);
    }
  }

  /** From step `i` on the tracker only ever reports the issue terminal, and its worker has exited. A retry pass that
      starts (step `k`) past the due time and ends (state `m`) without a failed poll leaves nothing of the issue,
      and nothing brings it back at any later state `n`. */
  lemma TerminalIssueDrains(w: seq<World>, steps: seq<Step>, i: nat, k: nat, m: nat, n: nat, id: string)
    requires IsRun(w, steps) && i <= k < m <= n < |w|
    requires forall j :: i <= j < n ==> HearsTerminal(steps[j], id)
    requires !Running(w[i], id)
    requires steps[k].Snapshot? && (Queued(w[k], id) ==> w[k].st.retries[id].dueAt <= steps[k].now)
    requires forall j :: k < j < m ==> w[j].control.Retrying? && (steps[j].Resolve? ==> steps[j].fetched.Some?)
    requires w[m].control.Ticking?
    ensures Gone(w[n], id)
  {
    StaysStopped(w, steps, i, k, id);
    assert Takes(w, steps, k);
    assert Draining(w[k + 1], id);
    StaysDraining(w, steps, k + 1, m, id);
    NothingLeaks(w, steps, m, id);
    assert Gone(w[m], id);
    StaysGone(w, steps, m, n, id);
  }
}
