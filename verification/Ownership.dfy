/** Which worker may act for an issue, and which workspace it has to itself. */
module Ownership {
  import opened Tracker
  import opened OrchestratorState
  import opened World
  import opened Claims
  import opened Workspace

  /** A live worker owns the running entry of its issue. */
  ghost predicate Exclusive(s: World, f: Flag) {
    f in s.workers ==> s.workers[f].issue.id in s.st.running && s.st.running[s.workers[f].issue.id].cancelled == f
  }

  ghost predicate Owned(s: World) {
    forall f :: f in s.workers ==> Exclusive(s, f)
  }

  /** A running entry is removed and its worker is not. */
  predicate Evicts(s: World, step: Step) {
    || (step.Stall? && Running(s, step.id))
    || (step.Refresh? && Running(s, step.issue.id) && Idle(step.c, step.issue.state))
  }

  /** A popped retry is started over a running entry: nothing looks whether the issue is already running. */
  predicate Clobbers(s: World, step: Step) {
    && step.Resolve? && s.control.Retrying? && s.control.popped.Some?
    && Running(s, s.control.popped.value.0)
    && RetryStarts(s.st, step.c, s.control.popped.value.0, step.fetched)
  }

  /** Either way a worker is left without its entry. */
  predicate Orphans(s: World, step: Step) {
    Evicts(s, step) || Clobbers(s, step)
  }

  lemma StepKeepsExclusive(s: World, step: Step, f: Flag)
    requires Keyed(s) && Exclusive(s, f) && Enabled(s, step)
    requires !Orphans(s, step)
    requires step.Exit? ==> Exclusive(s, step.flag)
    ensures Exclusive(Apply(s, step), f)
  {
    if step.Resolve? && step.fetched.Some? {
      FindFinds(step.fetched.value, s.control.popped.value.0);
    }
  }

  lemma {:induction false} OwnedAlways(w: seq<World>, steps: seq<Step>, n: nat)
    requires IsRun(w, steps) && n < |w|
    requires forall i :: 0 <= i < n ==> !Orphans(w[i], steps[i])
    ensures Owned(w[n])
  {
    if n > 0 {
      OwnedAlways(w, steps, n - 1);
      KeyedAlways(w, steps, n - 1);
      forall f ensures Exclusive(w[n], f) {
        assert Takes(w, steps, n - 1);
        StepKeepsExclusive(w[n - 1], steps[n - 1], f);
      }
    }
  }

  /** While no step orphans a worker, "owns" and "is owned by" are mutually inverse: live workers and running entries
      correspond one to one. */
  lemma ExclusiveOwnership(w: seq<World>, steps: seq<Step>, n: nat)
    requires IsRun(w, steps) && n < |w|
    requires forall i :: 0 <= i < n ==> !Orphans(w[i], steps[i])
    ensures forall f :: f in w[n].workers ==>
              w[n].workers[f].issue.id in w[n].st.running && w[n].st.running[w[n].workers[f].issue.id].cancelled == f
    ensures forall id :: id in w[n].st.running ==>
              w[n].st.running[id].cancelled in w[n].workers && w[n].workers[w[n].st.running[id].cancelled].issue.id == id
  {
    OwnedAlways(w, steps, n);
    forall id | id in w[n].st.running
      ensures w[n].st.running[id].cancelled in w[n].workers && w[n].workers[w[n].st.running[id].cancelled].issue.id == id
    {
      NothingLeaks(w, steps, n, id);
    }
    assert forall f :: f in w[n].workers ==> Exclusive(w[n], f);
  }

  /** Only a racing delete can lead to a retry that is started over a running entry. */
  lemma ClobberFollowsRacingDelete(w: seq<World>, steps: seq<Step>, n: nat)
    requires IsRun(w, steps) && n < |steps| && Clobbers(w[n], steps[n])
    ensures exists i :: 0 <= i < n && RacingDelete(w[i], steps[i], w[n].control.popped.value.0)
  {
    var id := w[n].control.popped.value.0;
    if forall i :: 0 <= i < n ==> !RacingDelete(w[i], steps[i], id) {
      PartitionAlways(w, steps, n, id);
    }
  }

  /** The issue whose worker an orphaning step orphans. */
  function OrphanedIssue(s: World, step: Step): string
    requires Orphans(s, step)
  {
    match step
    case Stall(_, id) => id
    case Refresh(_, issue) => issue.id
    case Resolve(_, _, _) => s.control.popped.value.0
  }

  lemma OrphanLosesEntry(s: World, step: Step)
    requires Keyed(s) && Enabled(s, step) && Orphans(s, step) && Accounted(s, OrphanedIssue(s, step))
    ensures !Owned(Apply(s, step))
  {
    var owner := s.st.running[OrphanedIssue(s, step)].cancelled;
    if step.Resolve? {
      FindFinds(step.fetched.value, s.control.popped.value.0);
    }
    assert owner in Apply(s, step).workers && !Exclusive(Apply(s, step), owner);
  }

  /** The exact condition, under every interleaving: each live worker owns its issue's entry throughout a run if and only
      if no step of the run was a stall exit, an inactive release, or a retry start over a running entry. */
  lemma OwnershipExactly(w: seq<World>, steps: seq<Step>, n: nat)
    requires IsRun(w, steps) && n < |w|
    ensures (forall i :: 0 <= i <= n ==> Owned(w[i])) <==> (forall i :: 0 <= i < n ==> !Orphans(w[i], steps[i]))
  {
    if forall i :: 0 <= i < n ==> !Orphans(w[i], steps[i]) {
      forall i | 0 <= i <= n ensures Owned(w[i]) {
        OwnedAlways(w, steps, i);
      }
    } else {
      var i :| 0 <= i < n && Orphans(w[i], steps[i]);
      KeyedAlways(w, steps, i);
      NothingLeaks(w, steps, i, OrphanedIssue(w[i], steps[i]));
      assert Takes(w, steps, i);
      OrphanLosesEntry(w[i], steps[i]);
      assert !Owned(w[i + 1]);
    }
  }

  // ---- Workspaces ----

  /** The step hands this issue to the scheduler. */
  predicate Mentions(step: Step, issue: Issue) {
    (step.Dispatch? && step.issue == issue) || (step.Resolve? && step.fetched.Some? && issue in step.fetched.value)
  }

  lemma {:induction false} WorkersWereMentioned(w: seq<World>, steps: seq<Step>, n: nat, f: Flag)
    requires IsRun(w, steps) && n < |w| && f in w[n].workers
    ensures exists i :: 0 <= i < n && Mentions(steps[i], w[n].workers[f].issue)
  {
    if n > 0 {
      assert Takes(w, steps, n - 1);
      var s, step := w[n - 1], steps[n - 1];
      if step.Resolve? && step.fetched.Some? {
        FindFinds(step.fetched.value, s.control.popped.value.0);
      }
      if f in s.workers && s.workers[f].issue == w[n].workers[f].issue {
        WorkersWereMentioned(w, steps, n - 1, f);
      } else {
        KeyedAlways(w, steps, n - 1);
        assert Mentions(step, w[n].workers[f].issue);
      }
    }
  }

  /** The identifiers come from one repository and tell the issues apart. */
  ghost predicate NamedApart(steps: seq<Step>, repo: string) {
    && (forall i, issue :: 0 <= i < |steps| && Mentions(steps[i], issue) ==> IsIssueName(repo, issue.identifier))
    && (forall i, j, a, b :: 0 <= i < |steps| && 0 <= j < |steps| && Mentions(steps[i], a) && Mentions(steps[j], b) && a.id != b.id ==>
          a.identifier != b.identifier)
  }

  // ---- One worker per issue ----

  predicate HasWorker(s: World, id: string) {
    exists f :: f in s.workers && s.workers[f].issue.id == id
  }

  /** No two live workers serve one issue. */
  ghost predicate OneWorkerEach(s: World) {
    forall f, g :: f in s.workers && g in s.workers && s.workers[f].issue.id == s.workers[g].issue.id ==> f == g
  }

  /** The step starts an issue that has a live worker. */
  ghost predicate Doubles(s: World, step: Step) {
    exists id :: Starts(s, step, id) && HasWorker(s, id)
  }

  /** What a step does to the workers: it starts one under the next cell, or it starts none. */
  lemma WorkersAfter(s: World, step: Step, f: Flag)
    requires Keyed(s) && Enabled(s, step) && f in Apply(s, step).workers
    ensures var worker := Apply(s, step).workers[f];
            if f in s.workers then worker.issue == s.workers[f].issue
            else f == s.nextFlag && Starts(s, step, worker.issue.id)
  {
    if step.Resolve? && step.fetched.Some? {
      FindFinds(step.fetched.value, s.control.popped.value.0);
    }
  }

  lemma StartedWorker(s: World, step: Step, id: string)
    requires Keyed(s) && Enabled(s, step) && Starts(s, step, id)
    ensures var s' := Apply(s, step);
            && s.nextFlag !in s.workers && s.nextFlag in s'.workers && s'.workers[s.nextFlag].issue.id == id
            && forall f :: f in s.workers ==> f in s'.workers && s'.workers[f].issue == s.workers[f].issue
  {
    if step.Resolve? {
      FindFinds(step.fetched.value, id);
    }
  }

  /** The exact condition: with one worker each before a step there is one worker each after it if and only if the step
      does not start an issue that has a live worker. */
  lemma OneWorkerEachStep(s: World, step: Step)
    requires Keyed(s) && Enabled(s, step) && OneWorkerEach(s)
    ensures OneWorkerEach(Apply(s, step)) <==> !Doubles(s, step)
  {
    var s' := Apply(s, step);
    if id :| Starts(s, step, id) && HasWorker(s, id) {
      var f :| f in s.workers && s.workers[f].issue.id == id;
      StartedWorker(s, step, id);
      assert f in s'.workers && s'.workers[f].issue.id == s'.workers[s.nextFlag].issue.id;
    } else {
      forall f, g | f in s'.workers && g in s'.workers && s'.workers[f].issue.id == s'.workers[g].issue.id ensures f == g {
        WorkersAfter(s, step, f);
        WorkersAfter(s, step, g);
        assert g in s.workers ==> HasWorker(s, s.workers[g].issue.id);
        assert f in s.workers ==> HasWorker(s, s.workers[f].issue.id);
      }
    }
  }

  lemma NextOneWorkerEach(w: seq<World>, steps: seq<Step>, n: nat)
    requires IsRun(w, steps) && n < |steps| && OneWorkerEach(w[n])
    ensures OneWorkerEach(w[n + 1]) <==> !Doubles(w[n], steps[n])
  {
    KeyedAlways(w, steps, n);
    assert Takes(w, steps, n);
    OneWorkerEachStep(w[n], steps[n]);
  }

  lemma {:induction false} OneWorkerAlways(w: seq<World>, steps: seq<Step>, n: nat)
    requires IsRun(w, steps) && n < |w|
    requires forall i :: 0 <= i < n ==> !Doubles(w[i], steps[i])
    ensures OneWorkerEach(w[n])
  {
    if n > 0 {
      OneWorkerAlways(w, steps, n - 1);
      NextOneWorkerEach(w, steps, n - 1);
    }
  }

  /** Over whole runs, under every interleaving: there is never more than one live worker of an issue if and only if no step
      starts an issue that has one. */
  lemma OneWorkerEachExactly(w: seq<World>, steps: seq<Step>, n: nat)
    requires IsRun(w, steps) && n < |w|
    ensures (forall i :: 0 <= i <= n ==> OneWorkerEach(w[i])) <==> (forall i :: 0 <= i < n ==> !Doubles(w[i], steps[i]))
  {
    if forall i :: 0 <= i < n ==> !Doubles(w[i], steps[i]) {
      forall i | 0 <= i <= n ensures OneWorkerEach(w[i]) {
        OneWorkerAlways(w, steps, i);
      }
    } else {
      var i :| 0 <= i < n && Doubles(w[i], steps[i]);
      if OneWorkerEach(w[i]) {
        NextOneWorkerEach(w, steps, i);
        assert !OneWorkerEach(w[i + 1]);
      }
    }
  }

  /** While no step orphans a worker none doubles one. */
  lemma OwnedIsNotDoubled(s: World, step: Step)
    requires Enabled(s, step) && Owned(s) && !Orphans(s, step)
    ensures !Doubles(s, step)
  {
    forall id | Starts(s, step, id) ensures !HasWorker(s, id) {
      assert !Running(s, id);
      assert forall f :: f in s.workers ==> Exclusive(s, f);
    }
  }

  /** In every run in which no step starts an issue that has a live worker, no two live workers, turning or deleting, share
      a workspace. */
  lemma WorkspacesAreExclusive(w: seq<World>, steps: seq<Step>, n: nat, root: string, repo: string, f: Flag, g: Flag)
    requires IsRun(w, steps) && n < |w|
    requires forall i :: 0 <= i < n ==> !Doubles(w[i], steps[i])
    requires NamedApart(steps, repo)
    requires f in w[n].workers && g in w[n].workers && f != g
    ensures WorkspacePath(root, w[n].workers[f].issue.identifier) != WorkspacePath(root, w[n].workers[g].issue.identifier)
  {
    OneWorkerAlways(w, steps, n);
    WorkersWereMentioned(w, steps, n, f);
    WorkersWereMentioned(w, steps, n, g);
    PathsKeepIssuesApart(root, repo, w[n].workers[f].issue.identifier, w[n].workers[g].issue.identifier);
  }
}
