/** What the claim protocol keeps over every run. */
module Claims {
  import opened Prelude
  import opened Config
  import opened Retry
  import opened Tracker
  import opened OrchestratorState
  import opened World

  // ---- Keys ----

  /** An entry is stored under the id it names. */
  ghost predicate KeyedAt(s: World, id: string) {
    && (id in s.st.running ==> s.st.running[id].issue.id == id && s.st.running[id].cancelled < s.nextFlag)
    && (id in s.st.retries ==> s.st.retries[id].issueId == id)
  }

  /** ... and every cell in use is below `nextFlag`, so that a dispatch allocates a fresh one. */
  ghost predicate Keyed(s: World) {
    && (forall id :: id in s.st.running || id in s.st.retries ==> KeyedAt(s, id))
    && (forall f :: f in s.workers || f in s.raised ==> f < s.nextFlag)
  }

  lemma {:induction false} FindFinds(candidates: seq<Issue>, id: string)
    ensures Find(candidates, id).Some? ==> Find(candidates, id).value.id == id && Find(candidates, id).value in candidates
    ensures Find(candidates, id).None? ==> forall i :: i in candidates ==> i.id != id
  {
    if candidates != [] {
      FindFinds(candidates[1..], id);
      assert candidates == [candidates[0]] + candidates[1..];
    }
  }

  /** The two states agree on everything that places one issue. */
  predicate SameAt(a: State, b: State, id: string) {
    && (id in a.claimed <==> id in b.claimed)
    && (id in a.running <==> id in b.running)
    && (id in a.retries <==> id in b.retries)
    && (id in a.running ==> id in b.running && a.running[id] == b.running[id])
    && (id in a.retries ==> id in b.retries && a.retries[id] == b.retries[id])
  }

  lemma ResolveLeavesOthers(st: State, c: Settings, popped: string, retry: RetryEntry, fetched: Option<seq<Issue>>,
                            now: nat, flag: Flag, id: string)
    requires id != popped
    ensures SameAt(st, ResolveRetry(st, c, popped, retry, fetched, now, flag), id)
  {
    if fetched.Some? {
      FindFinds(fetched.value, popped);
    }
  }

  lemma ResolutionIsKeyed(st: State, c: Settings, id: string, retry: RetryEntry, fetched: Option<seq<Issue>>, now: nat, flag: Flag)
    requires id in st.running ==> st.running[id].issue.id == id && st.running[id].cancelled < flag
    requires id in st.retries ==> st.retries[id].issueId == id
    ensures var st' := ResolveRetry(st, c, id, retry, fetched, now, flag);
            && (id in st'.running ==> st'.running[id].issue.id == id)
            && (id in st'.running ==> st'.running[id].cancelled < flag || (RetryStarts(st, c, id, fetched) && st'.running[id].cancelled == flag))
            && (id in st'.retries ==> st'.retries[id].issueId == id)
  {
    if fetched.Some? {
      FindFinds(fetched.value, id);
    }
  }

  lemma ResolveKeepsKeyed(s: World, step: Step, id: string)
    requires step.Resolve? && Keyed(s) && Enabled(s, step)
    ensures KeyedAt(Apply(s, step), id)
  {
    var (popped, retry) := s.control.popped.value;
    assert KeyedAt(s, id);
    if id != popped {
      ResolveLeavesOthers(s.st, step.c, popped, retry, step.fetched, step.now, s.nextFlag, id);
    } else {
      ResolutionIsKeyed(s.st, step.c, popped, retry, step.fetched, step.now, s.nextFlag);
    }
  }

  lemma StepKeepsKeyedAt(s: World, step: Step, id: string)
    requires Keyed(s) && Enabled(s, step)
    ensures KeyedAt(Apply(s, step), id)
  {
    assert KeyedAt(s, id);
    if step.Resolve? {
      ResolveKeepsKeyed(s, step, id);
    }
  }

  lemma StepKeepsKeyed(s: World, step: Step)
    requires Keyed(s) && Enabled(s, step)
    ensures Keyed(Apply(s, step))
  {
    var s' := Apply(s, step);
    forall id ensures KeyedAt(s', id) {
      StepKeepsKeyedAt(s, step, id);
    }
    assert s.nextFlag <= s'.nextFlag;
    forall f | f in s'.workers || f in s'.raised ensures f < s'.nextFlag {
      if step.Refresh? && step.issue.id in s.st.running {
        assert KeyedAt(s, step.issue.id);
      }
      if step.Cancel? {
        assert KeyedAt(s, step.id);
      }
    }
  }

  lemma {:induction false} KeyedAlways(w: seq<World>, steps: seq<Step>, n: nat)
    requires IsRun(w, steps) && n < |w|
    ensures Keyed(w[n])
  {
    if n > 0 {
      KeyedAlways(w, steps, n - 1);
      assert Takes(w, steps, n - 1);
      StepKeepsKeyed(w[n - 1], steps[n - 1]);
    }
  }

  // ---- The claim partition ----

  /** A claimed issue is in exactly one of three places, and the snapshot of `process_retries` is current. */
  ghost predicate Partitioned(s: World, id: string) {
    && (id in s.st.claimed <==> Running(s, id) || Queued(s, id) || InFlight(s, id))
    && !(Running(s, id) && Queued(s, id))
    && !(Running(s, id) && InFlight(s, id))
    && !(Queued(s, id) && InFlight(s, id))
    && (s.control.Retrying? ==>
          && (forall i :: 0 <= i < |s.control.pending| && s.control.pending[i].0 == id ==>
                Queued(s, id) && s.st.retries[id] == s.control.pending[i].1)
          && (forall i, j :: 0 <= i < j < |s.control.pending| && s.control.pending[i].0 == id ==> s.control.pending[j].0 != id))
  }

  lemma PopKeepsPartition(s: World, id: string)
    requires Enabled(s, Pop) && Partitioned(s, id)
    ensures Partitioned(Apply(s, Pop), id)
  {
  }

  lemma ResolveKeepsPartition(s: World, step: Step, id: string)
    requires step.Resolve? && Enabled(s, step) && Partitioned(s, id)
    ensures Partitioned(Apply(s, step), id)
  {
    var (popped, retry) := s.control.popped.value;
    var s' := Apply(s, step);
    assert s'.control == Continue(s.control.pending);
    if id != popped {
      ResolveLeavesOthers(s.st, step.c, popped, retry, step.fetched, step.now, s.nextFlag, id);
    } else {
      if step.fetched.Some? {
        FindFinds(step.fetched.value, popped);
      }
      assert id in s'.st.claimed <==> Running(s', id) || Queued(s', id);
    }
  }

  lemma ExitKeepsPartition(s: World, step: Step, id: string)
    requires step.Stall? || step.Exit?
    requires Keyed(s) && Enabled(s, step) && Partitioned(s, id)
    ensures Partitioned(Apply(s, step), id)
  {
  }

  /** Each lock hold keeps the partition, except a delete that races with a snapshot of the same issue. */
  lemma StepKeepsPartition(s: World, step: Step, id: string)
    requires Keyed(s) && Enabled(s, step) && Partitioned(s, id)
    requires !RacingDelete(s, step, id)
    ensures Partitioned(Apply(s, step), id)
  {
    match step {
      case Pop => PopKeepsPartition(s, id);
      case Resolve(_, _, _) => ResolveKeepsPartition(s, step, id);
      case Stall(_, _) => ExitKeepsPartition(s, step, id);
      case Exit(_, _) => ExitKeepsPartition(s, step, id);
      case _ =>
    }
  }

  lemma NextKeepsPartition(w: seq<World>, steps: seq<Step>, n: nat, id: string)
    requires IsPath(w, steps) && n < |steps|
    requires Keyed(w[n]) && Partitioned(w[n], id) && !RacingDelete(w[n], steps[n], id)
    ensures Partitioned(w[n + 1], id)
  {
    assert Takes(w, steps, n);
    StepKeepsPartition(w[n], steps[n], id);
  }

  lemma {:induction false} PartitionAlways(w: seq<World>, steps: seq<Step>, n: nat, id: string)
    requires IsRun(w, steps) && n < |w|
    requires forall i :: 0 <= i < n ==> !RacingDelete(w[i], steps[i], id)
    ensures Partitioned(w[n], id)
  {
    if n > 0 {
      PartitionAlways(w, steps, n - 1, id);
      KeyedAlways(w, steps, n - 1);
      NextKeepsPartition(w, steps, n - 1, id);
    }
  }

  /** A racing delete takes the retry, and its claim, from under the snapshot. */
  lemma RacingDeleteBreaksPartition(s: World, step: Step, id: string)
    requires Keyed(s) && Enabled(s, step) && Partitioned(s, id) && RacingDelete(s, step, id)
    ensures !Partitioned(Apply(s, step), id)
  {
  }

  /** The exclusion is exact: the partition holds throughout a run if and only if no delete raced with a snapshot. */
  lemma PartitionExactly(w: seq<World>, steps: seq<Step>, n: nat, id: string)
    requires IsRun(w, steps) && n < |w|
    ensures (forall i :: 0 <= i <= n ==> Partitioned(w[i], id)) <==> (forall i :: 0 <= i < n ==> !RacingDelete(w[i], steps[i], id))
  {
    if forall i :: 0 <= i < n ==> !RacingDelete(w[i], steps[i], id) {
      forall i | 0 <= i <= n ensures Partitioned(w[i], id) {
        PartitionAlways(w, steps, i, id);
      }
    } else {
      var i :| 0 <= i < n && RacingDelete(w[i], steps[i], id);
      if Partitioned(w[i], id) {
        KeyedAlways(w, steps, i);
        assert Takes(w, steps, i);
        RacingDeleteBreaksPartition(w[i], steps[i], id);
        assert !Partitioned(w[i + 1], id);
      }
    }
  }

  function InFlightIds(s: World): set<string> {
    if s.control.Retrying? && s.control.popped.Some? then {s.control.popped.value.0} else {}
  }

  /** The claims are the disjoint union of the running, the queued and the in-flight issues,
      and `process_retries` pops the very entries it snapshotted. */
  lemma ClaimsArePartitioned(w: seq<World>, steps: seq<Step>, n: nat)
    requires IsRun(w, steps) && n < |w|
    requires forall i, id :: 0 <= i < n ==> !RacingDelete(w[i], steps[i], id)
    ensures w[n].st.claimed == w[n].st.running.Keys + w[n].st.retries.Keys + InFlightIds(w[n])
    ensures w[n].st.running.Keys !! w[n].st.retries.Keys !! InFlightIds(w[n])
    ensures w[n].control.Retrying? ==>
              forall i :: 0 <= i < |w[n].control.pending| ==>
                var (id, retry) := w[n].control.pending[i];
                id in w[n].st.retries && w[n].st.retries[id] == retry
  {
    forall id
      ensures id in w[n].st.claimed <==> Running(w[n], id) || Queued(w[n], id) || id in InFlightIds(w[n])
      ensures !(Running(w[n], id) && Queued(w[n], id))
      ensures id in InFlightIds(w[n]) ==> !Running(w[n], id) && !Queued(w[n], id)
    {
      PartitionAlways(w, steps, n, id);
    }
    if w[n].control.Retrying? {
      forall i | 0 <= i < |w[n].control.pending|
        ensures w[n].control.pending[i].0 in w[n].st.retries
        ensures w[n].st.retries[w[n].control.pending[i].0] == w[n].control.pending[i].1
      {
        PartitionAlways(w, steps, n, w[n].control.pending[i].0);
      }
    }
  }

  // ---- Nothing leaks, under every interleaving ----

  /** No claim is lost track of, and a running entry's owner is a live worker of that issue. */
  ghost predicate Accounted(s: World, id: string) {
    && (id in s.st.claimed ==> Running(s, id) || Queued(s, id) || InFlight(s, id))
    && (id in s.st.running ==>
          s.st.running[id].cancelled in s.workers && s.workers[s.st.running[id].cancelled].issue.id == id)
  }

  lemma ResolveKeepsAccounted(s: World, step: Step, id: string)
    requires step.Resolve? && Keyed(s) && Accounted(s, id) && Enabled(s, step)
    ensures Accounted(Apply(s, step), id)
  {
    var (popped, retry) := s.control.popped.value;
    assert s.nextFlag !in s.workers;
    if id != popped {
      ResolveLeavesOthers(s.st, step.c, popped, retry, step.fetched, step.now, s.nextFlag, id);
    } else if RetryStarts(s.st, step.c, popped, step.fetched) {
      FindFinds(step.fetched.value, popped);
      assert Apply(s, step).st.running[id].cancelled == s.nextFlag;
    } else {
      assert Apply(s, step).workers == s.workers && Apply(s, step).st.running == s.st.running;
    }
  }

  lemma ExitKeepsAccounted(s: World, step: Step, id: string)
    requires step.Exit? && Accounted(s, id) && Enabled(s, step)
    ensures Accounted(Apply(s, step), id)
  {
  }

  lemma {:induction false} StepKeepsAccounted(s: World, step: Step, id: string)
    requires Keyed(s) && Accounted(s, id) && Enabled(s, step)
    ensures Accounted(Apply(s, step), id)
  {
    match step {
      case Resolve(_, _, _) => ResolveKeepsAccounted(s, step, id);
      case Exit(_, flag) => ExitKeepsAccounted(s, step, id);
      case _ =>
    }
  }

  /** Holds with racing deletes and outlived workers alike. */
  lemma {:induction false} NothingLeaks(w: seq<World>, steps: seq<Step>, n: nat, id: string)
    requires IsRun(w, steps) && n < |w|
    ensures Accounted(w[n], id)
  {
    if n > 0 {
      NothingLeaks(w, steps, n - 1, id);
      KeyedAlways(w, steps, n - 1);
      assert Takes(w, steps, n - 1);
      StepKeepsAccounted(w[n - 1], steps[n - 1], id);
    }
  }

  /** ... so each running entry has a worker whose exit, whenever it comes, takes the entry away. */
  lemma OwnerExitReleases(w: seq<World>, steps: seq<Step>, n: nat, id: string)
    requires IsRun(w, steps) && n < |w| && Running(w[n], id)
    ensures var owner := w[n].st.running[id].cancelled;
            && owner in w[n].workers
            && forall step: Step :: step.Exit? && step.flag == owner && Enabled(w[n], step) ==>
                 !Running(Apply(w[n], step), id) && owner !in Apply(w[n], step).workers
  {
    NothingLeaks(w, steps, n, id);
  }

  // ---- Completion and cancellation histories ----

  /** A worker of `id` reports success while the issue is running. */
  predicate Completes(s: World, step: Step, id: string) {
    && step.Exit? && step.flag in s.workers && s.workers[step.flag].issue.id == id
    && s.workers[step.flag].phase.Wrapping? && s.workers[step.flag].phase.ok && Running(s, id)
  }

  lemma ResolveCompletesNothing(s: World, step: Step)
    requires step.Resolve? && Enabled(s, step)
    ensures Apply(s, step).st.completed == s.st.completed
  {
  }

  lemma StepCompletes(s: World, step: Step, id: string)
    requires Enabled(s, step)
    ensures id in Apply(s, step).st.completed <==> id in s.st.completed || Completes(s, step, id)
  {
    match step {
      case Resolve(_, _, _) => ResolveCompletesNothing(s, step);
      case Exit(_, _) =>
      case _ => assert Apply(s, step).st.completed == s.st.completed;
    }
  }

  lemma NextCompletes(w: seq<World>, steps: seq<Step>, n: nat, id: string)
    requires IsPath(w, steps) && n < |steps|
    ensures id in w[n + 1].st.completed <==> id in w[n].st.completed || Completes(w[n], steps[n], id)
  {
    assert Takes(w, steps, n);
    StepCompletes(w[n], steps[n], id);
  }

  /** Step `i` of those before `n` completes the issue. */
  predicate CompletesAt(w: seq<World>, steps: seq<Step>, i: int, n: nat, id: string)
    requires n <= |steps| < |w|
  {
    0 <= i < n && Completes(w[i], steps[i], id)
  }

  lemma CompletedBefore(w: seq<World>, steps: seq<Step>, n: nat, m: nat, id: string)
    requires m == n + 1 <= |steps| < |w|
    ensures (exists i :: CompletesAt(w, steps, i, m, id)) <==>
            (exists i :: CompletesAt(w, steps, i, n, id)) || Completes(w[n], steps[n], id)
  {
    if i :| CompletesAt(w, steps, i, n, id) {
      assert CompletesAt(w, steps, i, m, id);
    }
    if Completes(w[n], steps[n], id) {
      assert CompletesAt(w, steps, n, m, id);
    }
    if i :| CompletesAt(w, steps, i, m, id) && i < n {
      assert CompletesAt(w, steps, i, n, id);
    }
  }

  /** An issue counts as completed exactly when some worker of it reported success into a running entry. */
  lemma {:induction false} CompletedExactly(w: seq<World>, steps: seq<Step>, n: nat, id: string)
    requires IsRun(w, steps) && n < |w|
    ensures id in w[n].st.completed <==> exists i :: CompletesAt(w, steps, i, n, id)
  {
    if n > 0 {
      CompletedExactly(w, steps, n - 1, id);
      NextCompletes(w, steps, n - 1, id);
      CompletedBefore(w, steps, n - 1, n, id);
    }
  }

  /** The step sets the cell of the entry that `flag` owns: an operator's cancel, or the tracker
      reporting that entry's issue terminal or inactive. */
  predicate Raises(s: World, step: Step, flag: Flag) {
    match step
    case Cancel(id) => Running(s, id) && s.st.running[id].cancelled == flag
    case Refresh(c, issue) =>
      Running(s, issue.id) && s.st.running[issue.id].cancelled == flag && !c.Workable(issue.state)
    case _ => false
  }

  lemma {:induction false} RaisedExactly(w: seq<World>, steps: seq<Step>, n: nat, flag: Flag)
    requires IsRun(w, steps) && n < |w|
    ensures flag in w[n].raised <==> exists i :: 0 <= i < n && Raises(w[i], steps[i], flag)
  {
    if n > 0 {
      RaisedExactly(w, steps, n - 1, flag);
      assert Takes(w, steps, n - 1);
      var s, step := w[n - 1], steps[n - 1];
      assert flag in w[n].raised <==> flag in s.raised || Raises(s, step, flag);
    }
  }

  /** A worker's wrapper deletes the workspace exactly when, before its run ended, its own entry had been
      cancelled by an operator or reported terminal or inactive; a stall exit never causes it. */
  lemma WrapperDeletesIffCancelled(w: seq<World>, steps: seq<Step>, n: nat)
    requires IsRun(w, steps) && Takes(w, steps, n) && steps[n].Finish?
    ensures w[n + 1].workers[steps[n].flag].phase.deleting <==>
            exists i :: 0 <= i < n && Raises(w[i], steps[i], steps[n].flag)
  {
    RaisedExactly(w, steps, n, steps[n].flag);
  }
}
