/** The wait before a queued attempt, over whole runs. */
module Backoff {
  import opened Prelude
  import opened Config
  import opened Retry
  import opened Tracker
  import opened OrchestratorState
  import opened World
  import opened Claims

  // ---- What queues an attempt ----

  /** The step queues an attempt of `id`, whether or not an older one is queued already: an exit or a stall takes its entry
      away with an attempt left, or a popped retry is resolved by a failed fetch with an attempt left or finds no slot. */
  predicate Requeues(s: World, step: Step, id: string) {
    match step
    case Exit(c, flag) =>
      && flag in s.workers && s.workers[flag].issue.id == id && s.workers[flag].phase.Wrapping? && Running(s, id)
      && (s.workers[flag].phase.ok || NextAttempt(s.workers[flag].attempt.GetOr(0)) <= c.MaxRetryAttempts())
    case Stall(c, i) =>
      i == id && Running(s, id) && NextAttempt(s.st.running[id].retryAttempt.GetOr(0)) <= c.MaxRetryAttempts()
    case Resolve(c, _, None) =>
      InFlight(s, id) && NextAttempt(s.control.popped.value.1.attempt) <= c.MaxRetryAttempts()
    case Resolve(c, _, Some(candidates)) =>
      && InFlight(s, id) && Find(candidates, id).Some? && c.Workable(Find(candidates, id).value.state)
      && s.st.AvailableSlots() == 0
    case _ => false
  }

  /** The retry stored for `id` after the step is not the one before it. */
  predicate Rewrites(s: World, s': World, id: string) {
    Queued(s', id) && (!Queued(s, id) || s.st.retries[id] != s'.st.retries[id])
  }

  lemma ResolveRequeues(s: World, step: Step, id: string)
    requires step.Resolve? && Enabled(s, step)
    ensures Rewrites(s, Apply(s, step), id) ==> Requeues(s, step, id)
    ensures Requeues(s, step, id) ==> Queued(Apply(s, step), id)
  {
    var (popped, retry) := s.control.popped.value;
    if popped != id {
      ResolveLeavesOthers(s.st, step.c, popped, retry, step.fetched, step.now, s.nextFlag, id);
    }
  }

  /** Nothing else writes a retry. */
  lemma {:induction false} RetriesAreWrittenExactly(s: World, step: Step, id: string)
    requires Enabled(s, step)
    ensures Rewrites(s, Apply(s, step), id) ==> Requeues(s, step, id)
    ensures Requeues(s, step, id) ==> Queued(Apply(s, step), id)
  {
    if step.Resolve? {
      ResolveRequeues(s, step, id);
    }
  }

  /** The clock reading a step's retry is scheduled from. */
  function Stamp(s: World, step: Step): nat {
    if step.Resolve? then step.now else s.clock
  }

  /** The attempt a step queues: the first after a success, the next after a failure, the same when no slot is free. */
  function QueuedAttempt(s: World, step: Step, id: string): u32
    requires Requeues(s, step, id)
  {
    match step
    case Exit(_, flag) => if s.workers[flag].phase.ok then 1 else NextAttempt(s.workers[flag].attempt.GetOr(0))
    case Stall(_, _) => NextAttempt(s.st.running[id].retryAttempt.GetOr(0))
    case Resolve(_, _, fetched) =>
      var attempt := s.control.popped.value.1.attempt;
      if fetched.None? then NextAttempt(attempt) else attempt
  }

  /** When it falls due: after one second to continue a success, after the capped exponential backoff of the attempt in
      every other case. */
  function DueAt(s: World, step: Step, id: string): nat
    requires Requeues(s, step, id)
  {
    Stamp(s, step) + if Completes(s, step, id) then CONTINUATION_MS
                     else FailureDelayMs(QueuedAttempt(s, step, id), step.c.MaxRetryBackoffMs())
  }

  /** The name it is queued under, by which an operator finds it: that of the entry taken away, of the popped retry after a
      failed fetch, or of the fetched issue when no slot is free. */
  function QueuedName(s: World, step: Step, id: string): string
    requires Requeues(s, step, id)
  {
    match step
    case Exit(_, _) => s.st.running[id].issue.identifier
    case Stall(_, _) => s.st.running[id].issue.identifier
    case Resolve(_, _, None) => s.control.popped.value.1.identifier
    case Resolve(_, _, Some(candidates)) => Find(candidates, id).value.identifier
  }

  function QueuedError(s: World, step: Step, id: string): Option<string>
    requires Requeues(s, step, id)
  {
    match step
    case Exit(_, flag) => if s.workers[flag].phase.ok then None else Some(s.workers[flag].phase.error)
    case Stall(_, _) => Some("stalled")
    case Resolve(_, _, None) => Some("retry poll failed")
    case Resolve(_, _, Some(_)) => Some("no available orchestrator slots")
  }

  /** The whole retry a step queues. A success is continued after 1000 ms; any other attempt number `a` from 1 on waits for
      10000 * 2^(a - 1) ms, or for the ceiling if that is less. */
  lemma {:induction false} QueuedRetryExactly(s: World, step: Step, id: string)
    requires Enabled(s, step) && Requeues(s, step, id)
    ensures id in Apply(s, step).st.retries
    ensures var (retry, attempt) := (Apply(s, step).st.retries[id], QueuedAttempt(s, step, id));
            && retry.issueId == id && retry.identifier == QueuedName(s, step, id) && retry.error == QueuedError(s, step, id)
            && retry.attempt == attempt
            && (Completes(s, step, id) ==> attempt == 1 && retry.dueAt == s.clock + 1000)
            && (!Completes(s, step, id) && attempt >= 1 ==>
                  var (wait, ceiling) := (10000 * Pow2(attempt - 1), step.c.MaxRetryBackoffMs());
                  retry.dueAt == Stamp(s, step) + if wait <= ceiling then wait else ceiling)
  {
    RequeuedWaits(s, step, id);
    RequeuedNames(s, step, id);
    if !Completes(s, step, id) && QueuedAttempt(s, step, id) >= 1 {
      DelayIsCappedExponential(QueuedAttempt(s, step, id), step.c.MaxRetryBackoffMs());
    }
  }

  lemma RequeuedNames(s: World, step: Step, id: string)
    requires Enabled(s, step) && Requeues(s, step, id)
    ensures id in Apply(s, step).st.retries
    ensures var retry := Apply(s, step).st.retries[id];
            retry.issueId == id && retry.identifier == QueuedName(s, step, id) && retry.error == QueuedError(s, step, id)
  {
  }

  // ---- Waiting ----

  /** `id` waits in the queue: it is claimed, not running, in no rest of a snapshot and not in flight. */
  predicate WaitsFor(s: World, id: string, due: nat) {
    && id in s.st.claimed && !Running(s, id) && !Pending(s, id) && !InFlight(s, id)
    && Queued(s, id) && s.st.retries[id].dueAt >= due
  }

  /** It does until `due`. */
  predicate Waiting(s: World, id: string, due: nat) {
    s.clock >= due || WaitsFor(s, id, due)
  }

  lemma ResolveKeepsWaiting(s: World, step: Step, id: string, due: nat)
    requires step.Resolve? && Waiting(s, id, due) && Enabled(s, step)
    ensures Waiting(Apply(s, step), id, due)
  {
    if step.fetched.Some? {
      FindFinds(step.fetched.value, s.control.popped.value.0);
    }
    var s' := Apply(s, step);
    if s.clock < due {
      assert s'.control == Continue(s.control.pending);
      assert Pending(s', id) ==> Pending(s, id);
    }
  }

  lemma PopKeepsWaiting(s: World, id: string, due: nat)
    requires Waiting(s, id, due) && Enabled(s, Pop)
    ensures Waiting(Apply(s, Pop), id, due)
  {
  }

  lemma StepKeepsWaiting(s: World, step: Step, id: string, due: nat)
    requires Keyed(s) && Waiting(s, id, due) && Enabled(s, step)
    requires !Deletes(s, step, id)
    ensures Waiting(Apply(s, step), id, due)
  {
    match step {
      case Resolve(_, _, _) => ResolveKeepsWaiting(s, step, id, due);
      case Pop => PopKeepsWaiting(s, id, due);
      case _ =>
    }
  }

  /** Claimed, in no rest of a snapshot, and not both running and in flight. */
  predicate InOnePlace(s: World, id: string) {
    id in s.st.claimed && !Pending(s, id) && !(Running(s, id) && InFlight(s, id))
  }

  lemma ResolvedWaits(s: World, step: Step, id: string)
    requires step.Resolve? && Enabled(s, step) && Requeues(s, step, id)
    ensures Queued(Apply(s, step), id)
    ensures Apply(s, step).st.retries[id].attempt == QueuedAttempt(s, step, id)
    ensures Apply(s, step).st.retries[id].dueAt == DueAt(s, step, id)
    ensures InOnePlace(s, id) <==> WaitsFor(Apply(s, step), id, DueAt(s, step, id))
  {
    assert Apply(s, step).control == Continue(s.control.pending);
    assert Pending(Apply(s, step), id) <==> Pending(s, id);
  }

  /** The attempt is due after its delay, and the issue waits for it exactly if it was in one place. */
  lemma {:induction false} RequeuedWaits(s: World, step: Step, id: string)
    requires Enabled(s, step) && Requeues(s, step, id)
    ensures Queued(Apply(s, step), id)
    ensures Apply(s, step).st.retries[id].attempt == QueuedAttempt(s, step, id)
    ensures Apply(s, step).st.retries[id].dueAt == DueAt(s, step, id)
    ensures InOnePlace(s, id) <==> WaitsFor(Apply(s, step), id, DueAt(s, step, id))
  {
    if step.Resolve? {
      ResolvedWaits(s, step, id);
    }
  }

  /** A partitioned issue is requeued from one place. */
  lemma {:induction false} PartitionedIsInOnePlace(s: World, step: Step, id: string)
    requires Enabled(s, step) && Partitioned(s, id) && Requeues(s, step, id)
    ensures InOnePlace(s, id)
  {
  }

  // ---- Continuations ----

  /** Step `m` is not a delete of the retry of `id`. */
  predicate Spares(w: seq<World>, steps: seq<Step>, m: int, id: string) {
    0 <= m < |steps| && m < |w| && !Deletes(w[m], steps[m], id)
  }

  lemma NextKeepsWaiting(w: seq<World>, steps: seq<Step>, j: nat, id: string, due: nat)
    requires IsPath(w, steps) && j < |steps| && Keyed(w[j])
    requires Waiting(w[j], id, due) && Spares(w, steps, j, id)
    ensures Keyed(w[j + 1]) && Waiting(w[j + 1], id, due)
  {
    assert Takes(w, steps, j);
    StepKeepsKeyed(w[j], steps[j]);
    StepKeepsWaiting(w[j], steps[j], id, due);
  }

  lemma {:induction false} StaysWaiting(w: seq<World>, steps: seq<Step>, i: nat, j: nat, id: string, due: nat)
    requires IsPath(w, steps) && i <= j < |w|
    requires Keyed(w[i]) && Waiting(w[i], id, due)
    requires forall m :: i <= m < j ==> Spares(w, steps, m, id)
    ensures Keyed(w[j]) && Waiting(w[j], id, due)
    decreases j
  {
    if i < j {
      StaysWaiting(w, steps, i, j - 1, id, due);
      NextKeepsWaiting(w, steps, j - 1, id, due);
    }
  }

  lemma WaitingDoesNotStart(s: World, step: Step, id: string, due: nat)
    requires Enabled(s, step) && Starts(s, step, id) && Waiting(s, id, due)
    ensures s.clock >= due
  {
  }

  /** Once an attempt is queued from one place, nothing starts the issue before the delay of that attempt has passed: not
      `tick`, not `process_retries`, not an outlived worker, whatever else interleaves. Only an operator deleting this
      retry releases it. */
  lemma {:induction false} BackoffIsRespected(w: seq<World>, steps: seq<Step>, i: nat, j: nat, id: string)
    requires IsRun(w, steps) && i < j < |steps|
    requires InOnePlace(w[i], id) && Requeues(w[i], steps[i], id)
    requires forall m :: i < m < j ==> Spares(w, steps, m, id)
    requires Starts(w[j], steps[j], id)
    ensures w[j].clock >= DueAt(w[i], steps[i], id)
  {
    assert Takes(w, steps, i);
    RequeuedWaits(w[i], steps[i], id);
    KeyedAlways(w, steps, i + 1);
    var due := DueAt(w[i], steps[i], id);
    StaysWaiting(w, steps, i + 1, j, id, due);
    assert Takes(w, steps, j);
    WaitingDoesNotStart(w[j], steps[j], id, due);
  }

  /** From `s` the system can go through `w` by `steps`, none of which deletes the retry of `id`, to a state before `due` in
      which the step `last` starts the issue. */
  ghost predicate StartsBy(s: World, w: seq<World>, steps: seq<Step>, last: Step, id: string, due: nat) {
    && IsPath(w, steps) && w[0] == s
    && (forall m :: 0 <= m < |steps| ==> Spares(w, steps, m, id))
    && Enabled(w[|steps|], last) && Starts(w[|steps|], last, id) && w[|steps|].clock < due
  }

  ghost predicate CanStartEarly(s: World, id: string, due: nat) {
    exists w, steps, last :: StartsBy(s, w, steps, last, id, due)
  }

  lemma WaitingCannotStartEarly(s: World, id: string, due: nat)
    requires Keyed(s) && WaitsFor(s, id, due)
    ensures !CanStartEarly(s, id, due)
  {
    if w, steps, last :| StartsBy(s, w, steps, last, id, due) {
      StaysWaiting(w, steps, 0, |steps|, id, due);
      WaitingDoesNotStart(w[|steps|], last, id, due);
      assert false;
    }
  }

  lemma StartsNow(s: World, last: Step, id: string, due: nat)
    requires Enabled(s, last) && Starts(s, last, id) && s.clock < due
    ensures CanStartEarly(s, id, due)
  {
    assert StartsBy(s, [s], [], last, id, due);
  }

  lemma PathCons(s: World, step: Step, w: seq<World>, steps: seq<Step>)
    requires Enabled(s, step) && IsPath(w, steps) && w[0] == Apply(s, step)
    ensures IsPath([s] + w, [step] + steps)
  {
    forall m | 0 <= m <= |steps| ensures Takes([s] + w, [step] + steps, m) {
      assert m > 0 ==> Takes(w, steps, m - 1);
    }
  }

  lemma SparesCons(s: World, step: Step, w: seq<World>, steps: seq<Step>, m: nat, id: string)
    requires !Deletes(s, step, id) && m <= |steps| < |w| && (m > 0 ==> Spares(w, steps, m - 1, id))
    ensures Spares([s] + w, [step] + steps, m, id)
  {
  }

  lemma StartsLater(s: World, step: Step, id: string, due: nat)
    requires Enabled(s, step) && !Deletes(s, step, id) && CanStartEarly(Apply(s, step), id, due)
    ensures CanStartEarly(s, id, due)
  {
    var w, steps, last :| StartsBy(Apply(s, step), w, steps, last, id, due);
    PathCons(s, step, w, steps);
    forall m: nat | m <= |steps| ensures Spares([s] + w, [step] + steps, m, id) {
      SparesCons(s, step, w, steps, m, id);
    }
    assert StartsBy(s, [s] + w, [step] + steps, last, id, due);
  }

  // ---- An issue that does not wait ----

  /** A configuration with one active state. */
  const PLAIN := Settings(Some(["a"]), Some([]), None, None, None, None)

  function InState(id: string, state: string): Issue {
    Issue(id, id, state, None, None, [])
  }

  lemma StatesOfPlain(id: string)
    ensures Eligible(PLAIN, InState(id, "a")) && Judge(PLAIN, "b").Inactive?
  {
    assert Lower("a") == "a" && Lower("b") == "b";
    assert PLAIN.ActiveStates() == ["a"] && PLAIN.TerminalStates() == [];
  }

  lemma CountAtMostAll(st: State, state: string)
    ensures st.CountRunningByState(state) <= |st.running|
  {
    assert st.running.Keys == st.RunningIn(state) + (st.running.Keys - st.RunningIn(state));
  }

  lemma RoomForOne(st: State, issue: Issue)
    requires issue.id !in st.running && issue.id !in st.claimed && st.maxConcurrentAgents == |st.running| + 1
    ensures st.Admits(map[], issue)
  {
    CountAtMostAll(st, issue.state);
  }

  /** Between two passes, an issue neither claimed nor running is started after a reload that makes room. */
  lemma FreeCanStart(s: World, id: string, due: nat)
    requires s.control.Ticking? && s.clock < due && id !in s.st.claimed && !Running(s, id)
    ensures CanStartEarly(s, id, due)
  {
    StatesOfPlain(id);
    var room := Reload(|s.st.running| + 1);
    var s1 := Apply(s, room);
    RoomForOne(s1.st, InState(id, "a"));
    StartsNow(s1, Dispatch(PLAIN, map[], InState(id, "a")), id, due);
    StartsLater(s, room, id, due);
  }

  /** Between two passes, a running issue is dropped by an inactive refresh first. */
  lemma TickCanStart(s: World, id: string, due: nat)
    requires s.control.Ticking? && s.clock < due && (id !in s.st.claimed || Running(s, id))
    ensures CanStartEarly(s, id, due)
  {
    if Running(s, id) {
      StatesOfPlain(id);
      var drop := Refresh(PLAIN, InState(id, "b"));
      FreeCanStart(Apply(s, drop), id, due);
      StartsLater(s, drop, id, due);
    } else {
      FreeCanStart(s, id, due);
    }
  }

  /** The issue does not wait in the queue. */
  predicate Loose(s: World, id: string) {
    id !in s.st.claimed || Running(s, id) || Pending(s, id) || InFlight(s, id)
  }

  /** A retry pass is over once nothing is pending or in flight. */
  predicate PassHasWork(s: World) {
    s.control.Retrying? ==> s.control.pending != [] || s.control.popped.Some?
  }

  lemma {:induction false} PassAlwaysHasWork(w: seq<World>, steps: seq<Step>, n: nat)
    requires IsRun(w, steps) && n < |w|
    ensures PassHasWork(w[n])
  {
    if n > 0 {
      PassAlwaysHasWork(w, steps, n - 1);
      assert Takes(w, steps, n - 1);
      StepKeepsWork(w[n - 1], steps[n - 1]);
    }
  }

  lemma StepKeepsWork(s: World, step: Step)
    requires Enabled(s, step) && PassHasWork(s)
    ensures PassHasWork(Apply(s, step))
  {
  }

  /** What is left of a retry pass. */
  function Work(s: World): nat {
    if s.control.Ticking? then 0 else 2 * |s.control.pending| + if s.control.popped.Some? then 1 else 0
  }

  /** A poll that finds nothing releases whatever is in flight. */
  function FindNothing(): Step {
    Resolve(PLAIN, 0, Some([]))
  }

  lemma ReleaseKeepsLoose(s: World, id: string)
    requires s.control.Retrying? && s.control.popped.Some? && Loose(s, id)
    ensures Enabled(s, FindNothing())
    ensures var s' := Apply(s, FindNothing());
            Loose(s', id) && PassHasWork(s') && Work(s') < Work(s) && s'.clock == s.clock
  {
    assert Find([], s.control.popped.value.0) == None;
    assert Pending(s, id) ==> Pending(Apply(s, FindNothing()), id);
  }

  lemma PopKeepsLoose(s: World, id: string)
    requires s.control.Retrying? && s.control.popped.None? && s.control.pending != [] && Loose(s, id)
    ensures var s' := Apply(s, Pop);
            Loose(s', id) && PassHasWork(s') && Work(s') < Work(s) && s'.clock == s.clock
  {
    var p, s' := s.control.pending, Apply(s, Pop);
    if Pending(s, id) && p[0].0 != id {
      var i :| 0 <= i < |p| && p[i].0 == id;
      assert s'.control.pending[i - 1].0 == id;
    }
  }

  /** A loose issue can always be started before `due`: let the pass release what it holds, and then tick. */
  lemma {:induction false} LooseCanStart(s: World, id: string, due: nat)
    requires PassHasWork(s) && Loose(s, id) && s.clock < due
    ensures CanStartEarly(s, id, due)
    decreases Work(s)
  {
    if s.control.Ticking? {
      TickCanStart(s, id, due);
    } else if s.control.popped.Some? {
      ReleaseKeepsLoose(s, id);
      LooseCanStart(Apply(s, FindNothing()), id, due);
      StartsLater(s, FindNothing(), id, due);
    } else {
      PopKeepsLoose(s, id);
      LooseCanStart(Apply(s, Pop), id, due);
      StartsLater(s, Pop, id, due);
    }
  }

  /** The exact condition, in every reachable state: an attempt queued for a later time cannot be started before it is due,
      unless an operator deletes it, if and only if the issue was in one place when it was queued. */
  lemma {:induction false} BackoffExactly(w: seq<World>, steps: seq<Step>, i: nat, id: string)
    requires IsRun(w, steps) && i < |steps| && Requeues(w[i], steps[i], id)
    requires w[i].clock < DueAt(w[i], steps[i], id)
    ensures InOnePlace(w[i], id) <==> !CanStartEarly(w[i + 1], id, DueAt(w[i], steps[i], id))
  {
    assert Takes(w, steps, i);
    RequeuedWaits(w[i], steps[i], id);
    KeyedAlways(w, steps, i + 1);
    PassAlwaysHasWork(w, steps, i + 1);
    var due := DueAt(w[i], steps[i], id);
    if InOnePlace(w[i], id) {
      WaitingCannotStartEarly(w[i + 1], id, due);
    } else {
      LooseCanStart(w[i + 1], id, due);
    }
  }
}
