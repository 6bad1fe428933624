/** The orchestrator as a transition system. Every hold of the state lock by the control thread, a worker,
    an HTTP handler or a configuration reload is one step; steps of different actors interleave freely. */
module World {
  import opened Prelude
  import opened Config
  import opened Retry
  import opened Tracker
  import opened OrchestratorState

  /** A spawned worker task: still in its turns, or in the wrapper with the run's result, where
      `deleting` says that the wrapper saw the cancellation cell set and removes the workspace. */
  datatype Phase = Turning | Wrapping(ok: bool, error: string, deleting: bool)

  datatype Worker = Worker(issue: Issue, attempt: Option<u32>, phase: Phase)

  type Due = (string, RetryEntry)

  /** The control thread: inside `tick`, or inside `process_retries` with the rest of its snapshot
      and the entry it has popped and not yet resolved. */
  datatype Control = Ticking | Retrying(pending: seq<Due>, popped: Option<Due>)

  datatype World = World(
    st: State,
    clock: nat,
    workers: map<Flag, Worker>,
    raised: set<Flag>,
    nextFlag: Flag,
    control: Control)

  datatype Step =
    | Dispatch(c: Settings, limits: map<string, nat>, issue: Issue)
    | Stall(c: Settings, id: string)
    | Refresh(c: Settings, issue: Issue)
    | Finish(flag: Flag, ok: bool, error: string)
    | Exit(c: Settings, flag: Flag)
    | Snapshot(now: nat, due: seq<Due>)
    | Pop
    | Resolve(c: Settings, now: nat, fetched: Option<seq<Issue>>)
    | Cancel(id: string)
    | Delete(key: string)
    | Reload(limit: nat)
    | Bookkeep(id: string, session: Option<LiveSession>, turnCount: nat, stagnation: nat, totals: Usage)
    | Elapse(ms: nat)

  ghost predicate Init(s: World) {
    && s.st.running == map[] && s.st.claimed == {} && s.st.retries == map[] && s.st.completed == {}
    && s.workers == map[] && s.raised == {} && s.control.Ticking?
  }

  /** `due` lists, once each and in any order, exactly the retries due at `now`. */
  ghost predicate ListsDue(due: seq<Due>, retries: map<string, RetryEntry>, now: nat) {
    && (forall i :: 0 <= i < |due| ==> due[i].0 in retries && retries[due[i].0] == due[i].1 && due[i].1.dueAt <= now)
    && (forall i, j :: 0 <= i < j < |due| ==> due[i].0 != due[j].0)
    && (forall id :: id in retries && retries[id].dueAt <= now ==> exists i :: 0 <= i < |due| && due[i].0 == id)
  }

  /** `now` is a clock reading taken before the lock was. */
  ghost predicate Enabled(s: World, step: Step) {
    match step
    case Dispatch(c, _, issue) => s.control.Ticking? && Eligible(c, issue)
    case Stall(_, _) => s.control.Ticking?
    case Refresh(_, _) => s.control.Ticking?
    case Finish(flag, _, _) => flag in s.workers && s.workers[flag].phase.Turning?
    case Exit(_, flag) => flag in s.workers && s.workers[flag].phase.Wrapping?
    case Snapshot(now, due) => s.control.Ticking? && now <= s.clock && ListsDue(due, s.st.retries, now)
    case Pop => s.control.Retrying? && s.control.popped.None? && s.control.pending != []
    case Resolve(_, now, _) => s.control.Retrying? && s.control.popped.Some? && now <= s.clock
    case Cancel(id) => id in s.st.running
    case Delete(key) => key in s.st.retries
    case _ => true
  }

  function Continue(pending: seq<Due>): Control {
    if pending == [] then Ticking else Retrying(pending, None)
  }

  /** Register the worker task a dispatch spawns, with its fresh cancellation cell. */
  function Spawn(s: World, st: State, issue: Issue, attempt: Option<u32>): World {
    s.(st := st, workers := s.workers[s.nextFlag := Worker(issue, attempt, Turning)], nextFlag := s.nextFlag + 1)
  }

  function Apply(s: World, step: Step): World
    requires Enabled(s, step)
  {
    match step
    case Dispatch(_, limits, issue) =>
      if s.st.Admits(limits, issue) then Spawn(s, s.st.Admit(limits, issue, s.nextFlag), issue, None) else s
    case Stall(c, id) => s.(st := HandleWorkerExit(s.st, c, id, false, "stalled", s.clock))
    case Refresh(c, issue) => s.(st := Reconciled(s.st, c, issue), raised := s.raised + RaisedBy(s.st, c, issue))
    case Finish(flag, ok, error) =>
      s.(workers := s.workers[flag := s.workers[flag].(phase := Wrapping(ok, error, flag in s.raised))])
    case Exit(c, flag) =>
      var w := s.workers[flag];
      s.(st := WrapperExit(s.st, c, w.issue.id, w.attempt, w.phase.ok, w.phase.error, s.clock), workers := s.workers - {flag})
    case Snapshot(_, due) => s.(control := Continue(due))
    case Pop =>
      var head := s.control.pending[0];
      s.(st := s.st.(retries := s.st.retries - {head.0}), control := Retrying(s.control.pending[1..], Some(head)))
    case Resolve(c, now, fetched) =>
      var (id, retry) := s.control.popped.value;
      var st := ResolveRetry(s.st, c, id, retry, fetched, now, s.nextFlag);
      var s' := s.(control := Continue(s.control.pending));
      if RetryStarts(s.st, c, id, fetched) then Spawn(s', st, Find(fetched.value, id).value, Some(retry.attempt))
      else s'.(st := st)
    case Cancel(id) => s.(raised := s.raised + {s.st.running[id].cancelled})
    case Delete(key) => s.(st := DeleteRetry(s.st, key))
    case Reload(limit) => s.(st := s.st.(maxConcurrentAgents := limit))
    case Bookkeep(id, session, turnCount, stagnation, totals) =>
      var st := s.st.(totals := totals);
      if id !in st.running then s.(st := st)
      else s.(st := st.(running := st.running[id :=
        st.running[id].(session := session, turnCount := turnCount, stagnation := stagnation)]))
    case Elapse(ms) => s.(clock := s.clock + ms)
  }

  /** Step `i` leads from state `i` to the next. */
  ghost predicate Takes(w: seq<World>, steps: seq<Step>, i: int) {
    0 <= i < |steps| && i + 1 < |w| && Enabled(w[i], steps[i]) && w[i + 1] == Apply(w[i], steps[i])
  }

  /** The system goes through the states `w` by taking `steps`. */
  ghost predicate IsPath(w: seq<World>, steps: seq<Step>) {
    |w| == |steps| + 1 && forall i :: 0 <= i < |steps| ==> Takes(w, steps, i)
  }

  /** `w` is a run of the system taking `steps`. */
  ghost predicate IsRun(w: seq<World>, steps: seq<Step>) {
    IsPath(w, steps) && Init(w[0])
  }

  /** `steps` is the history of a run from the empty system to `s`. */
  ghost predicate Reaches(steps: seq<Step>, s: World) {
    exists w :: IsRun(w, steps) && w[|steps|] == s
  }

  /** A history goes on by any enabled step. */
  lemma Then(steps: seq<Step>, s: World, step: Step, next: World)
    requires Reaches(steps, s) && Enabled(s, step) && Apply(s, step) == next
    ensures Reaches(steps + [step], next)
  {
    var w :| IsRun(w, steps) && w[|steps|] == s;
    forall i | 0 <= i <= |steps| ensures Takes(w + [next], steps + [step], i) {
      assert i < |steps| ==> Takes(w, steps, i);
    }
    assert IsRun(w + [next], steps + [step]);
  }

  lemma Begins(s: World)
    requires Init(s)
    ensures Reaches([], s)
  {
    assert IsRun([s], []);
  }

  // ---- Where an issue can be ----

  predicate Running(s: World, id: string) {
    id in s.st.running
  }

  predicate Queued(s: World, id: string) {
    id in s.st.retries
  }

  /** Popped by `process_retries` and not yet resolved. */
  predicate InFlight(s: World, id: string) {
    s.control.Retrying? && s.control.popped.Some? && s.control.popped.value.0 == id
  }

  /** Still in the snapshot `process_retries` is working through. */
  predicate Pending(s: World, id: string) {
    s.control.Retrying? && exists i :: 0 <= i < |s.control.pending| && s.control.pending[i].0 == id
  }

  /** A step deletes the retry of `id`. */
  predicate Deletes(s: World, step: Step, id: string) {
    step.Delete? && step.key in s.st.retries && s.st.retries[step.key].issueId == id
  }

  /** ... while `process_retries` holds a snapshot of it. */
  predicate RacingDelete(s: World, step: Step, id: string) {
    Deletes(s, step, id) && (Pending(s, id) || InFlight(s, id))
  }

  /** A step starts a worker for `id`. */
  predicate Starts(s: World, step: Step, id: string) {
    || (step.Dispatch? && step.issue.id == id && s.st.Admits(step.limits, step.issue))
    || (step.Resolve? && InFlight(s, id) && RetryStarts(s.st, step.c, id, step.fetched))
  }
}
