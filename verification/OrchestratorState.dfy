/** The scheduler's shared state and what one hold of its lock does to it. */
module OrchestratorState {
  import opened Prelude
  import opened Config
  import opened Retry
  import opened Tracker

  /** The identity of the cancellation cell a dispatch allocates. The entry and the worker hold the
      same cell, so it also names the worker that owns the entry. */
  type Flag = nat

  function Sum(a: nat, b: nat): nat {
    a + b
  }

  datatype Usage = Usage(input: nat, output: nat, total: nat) {
    function Plus(u: Usage): Usage {
      Usage(Sum(input, u.input), Sum(output, u.output), Sum(total, u.total))
    }

    /** Componentwise saturating subtraction. */
    function Since(u: Usage): Usage {
      Usage(SaturatingSub(input, u.input), SaturatingSub(output, u.output), SaturatingSub(total, u.total))
    }

    predicate Leq(u: Usage) {
      input <= u.input && output <= u.output && total <= u.total
    }
  }

  const NO_USAGE := Usage(0, 0, 0)

  /** `reported` is the last cumulative report, `shown` the figures the dashboard displays. */
  datatype LiveSession = LiveSession(reported: Usage, shown: Usage)

  datatype RunningEntry = RunningEntry(
    issue: Issue,
    session: Option<LiveSession>,
    retryAttempt: Option<u32>,
    turnCount: nat,
    cancelled: Flag,
    stagnation: nat)

  datatype State = State(
    maxConcurrentAgents: nat,
    running: map<string, RunningEntry>,
    claimed: set<string>,
    retries: map<string, RetryEntry>,
    completed: set<string>,
    totals: Usage)
  {
    function AvailableSlots(): nat {
      SaturatingSub(maxConcurrentAgents, |running|)
    }

    function RunningIn(state: string): set<string> {
      set id | id in running && Lower(running[id].issue.state) == Lower(state)
    }

    function CountRunningByState(state: string): nat {
      |RunningIn(state)|
    }

    function StateLimit(limits: map<string, nat>, state: string): nat {
      if Lower(state) in limits then limits[Lower(state)] else maxConcurrentAgents
    }

    /** The three checks of the dispatch loop. */
    predicate Admits(limits: map<string, nat>, issue: Issue) {
      && AvailableSlots() > 0
      && issue.id !in running
      && issue.id !in claimed
      && CountRunningByState(issue.state) < StateLimit(limits, issue.state)
    }

    /** Claim the issue and enter it as running, owned by `flag`. */
    function Start(issue: Issue, attempt: Option<u32>, flag: Flag): State {
      this.(claimed := claimed + {issue.id},
            running := running[issue.id := RunningEntry(issue, None, attempt, 0, flag, 0)])
    }

    function Admit(limits: map<string, nat>, issue: Issue, flag: Flag): State {
      if Admits(limits, issue) then Start(issue, None, flag) else this
    }

    function Unclaim(id: string): State {
      this.(claimed := claimed - {id})
    }

    function Queue(retry: RetryEntry, id: string): State {
      this.(retries := retries[id := retry])
    }
  }

  /** `attempt + 1` on a u32 of a release build. */
  function NextAttempt(attempt: u32): u32 {
    (attempt + 1) % TWO_TO_THE_32
  }

  /** After a failure the issue is queued again, or dropped once the attempt passes the limit. */
  function RequeueOrDrop(st: State, c: Settings, id: string, identifier: string, attempt: u32, error: string, now: nat): State {
    if attempt > c.MaxRetryAttempts() then st.Unclaim(id)
    else st.Queue(ScheduleRetry(id, identifier, attempt, Some(error), c, false, now), id)
  }

  /** What the worker's own wrapper does when its run is over; `attempt` is the worker's argument. */
  function WrapperExit(st: State, c: Settings, id: string, attempt: Option<u32>, ok: bool, error: string, now: nat): State {
    if id !in st.running then st
    else
      var identifier := st.running[id].issue.identifier;
      var rest := st.(running := st.running - {id});
      if ok then
        rest.(completed := rest.completed + {id}).Queue(ScheduleRetry(id, identifier, 1, None, c, true, now), id)
      else
        RequeueOrDrop(rest, c, id, identifier, NextAttempt(attempt.GetOr(0)), error, now)
  }

  /** `handle_worker_exit`: the same, with the attempt read from the entry. */
  function HandleWorkerExit(st: State, c: Settings, id: string, normal: bool, error: string, now: nat): State {
    if id !in st.running then st
    else
      var entry := st.running[id];
      var rest := st.(running := st.running - {id});
      if normal then
        rest.(completed := rest.completed + {id},
              retries := rest.retries[id := ScheduleRetry(id, entry.issue.identifier, 1, None, c, true, now)])
      else
        RequeueOrDrop(rest, c, id, entry.issue.identifier, NextAttempt(entry.retryAttempt.GetOr(0)), error, now)
  }

  /** Neither active nor terminal. */
  predicate Idle(c: Settings, state: string) {
    Lower(state) !in c.ActiveStates() && Lower(state) !in c.TerminalStates()
  }

  /** What a refreshed tracker state asks of a running entry. */
  datatype Verdict = Terminal | Active | Inactive

  function Judge(c: Settings, state: string): Verdict {
    if Lower(state) in c.TerminalStates() then Terminal
    else if Lower(state) in c.ActiveStates() then Active
    else Inactive
  }

  /** Reconcile one refreshed issue (the flags it raises are `RaisedBy`). */
  function Reconciled(st: State, c: Settings, issue: Issue): State {
    if issue.id !in st.running then st
    else match Judge(c, issue.state)
      case Terminal => st
      case Active => st.(running := st.running[issue.id := st.running[issue.id].(issue := issue)])
      case Inactive => st.(running := st.running - {issue.id}).Unclaim(issue.id)
  }

  function RaisedBy(st: State, c: Settings, issue: Issue): set<Flag> {
    if issue.id in st.running && !Judge(c, issue.state).Active? then {st.running[issue.id].cancelled} else {}
  }

  /** The first candidate with this id. */
  function Find(candidates: seq<Issue>, id: string): Option<Issue> {
    if candidates == [] then None
    else if candidates[0].id == id then Some(candidates[0])
    else Find(candidates[1..], id)
  }

  /** A popped retry whose issue may start: workable and a slot free. */
  predicate RetryStarts(st: State, c: Settings, id: string, fetched: Option<seq<Issue>>) {
    && fetched.Some?
    && Find(fetched.value, id).Some?
    && c.Workable(Find(fetched.value, id).value.state)
    && st.AvailableSlots() > 0
  }

  /** Resolve a popped retry against the fetched candidates; `None` is a failed fetch. */
  function ResolveRetry(st: State, c: Settings, id: string, retry: RetryEntry, fetched: Option<seq<Issue>>, now: nat, flag: Flag): State {
    match fetched
    case None =>
      RequeueOrDrop(st, c, id, retry.identifier, NextAttempt(retry.attempt), "retry poll failed", now)
    case Some(candidates) =>
      match Find(candidates, id)
      case None => st.Unclaim(id)
      case Some(issue) =>
        if !c.Workable(issue.state) then st.Unclaim(id)
        else if st.AvailableSlots() == 0 then
          st.Queue(ScheduleRetry(id, issue.identifier, retry.attempt, Some("no available orchestrator slots"), c, false, now), id)
        else st.Start(issue, Some(retry.attempt), flag)
  }

  /** `DELETE /api/v1/retry`: drop the retry stored under `key` and the claim of the issue it names. */
  function DeleteRetry(st: State, key: string): State
    requires key in st.retries
  {
    var id := st.retries[key].issueId;
    st.(retries := st.retries - {id}).Unclaim(id)
  }

  // ---- What the helpers mean ----

  lemma UsageExactly(a: Usage, b: Usage)
    ensures a.Plus(b).input == a.input + b.input && a.Plus(b).output == a.output + b.output && a.Plus(b).total == a.total + b.total
    ensures b.Leq(a) <==> b.input <= a.input && b.output <= a.output && b.total <= a.total
    ensures b.Leq(a) ==> b.Plus(a.Since(b)) == a
    ensures a.Since(b).input == 0 <==> a.input <= b.input
    ensures a.Since(b).output == 0 <==> a.output <= b.output
    ensures a.Since(b).total == 0 <==> a.total <= b.total
  {
  }

  /** Every running issue counts in its own state, and states that differ in case only are one. */
  lemma RunningInExactly(st: State, id: string, state: string)
    ensures st.CountRunningByState(state) == |st.RunningIn(state)|
    ensures id in st.RunningIn(state) ==> id in st.running
    ensures id in st.running ==> id in st.RunningIn(st.running[id].issue.state)
    ensures id in st.running ==> (id in st.RunningIn(state) <==> Lower(st.running[id].issue.state) == Lower(state))
  {
  }

  /** The three checks of the dispatch loop, spelled out: a free slot, no entry and no claim, and room in the issue's state,
      whose limit is its own if it has one and the global one otherwise. */
  lemma AdmitsExactly(st: State, limits: map<string, nat>, issue: Issue)
    ensures st.Admits(limits, issue) <==>
            && |st.running| < st.maxConcurrentAgents && issue.id !in st.running && issue.id !in st.claimed
            && st.CountRunningByState(issue.state) <
                 (if Lower(issue.state) in limits then limits[Lower(issue.state)] else st.maxConcurrentAgents)
  {
  }

  /** Candidate `k` is the first with this id. */
  predicate FirstWithId(candidates: seq<Issue>, id: string, k: int) {
    0 <= k < |candidates| && candidates[k].id == id && forall j :: 0 <= j < k ==> candidates[j].id != id
  }

  lemma {:induction false} FindIsFirst(candidates: seq<Issue>, id: string)
    ensures Find(candidates, id).None? <==> forall k :: 0 <= k < |candidates| ==> candidates[k].id != id
    ensures forall k :: FirstWithId(candidates, id, k) ==> Find(candidates, id) == Some(candidates[k])
  {
    if candidates != [] {
      var rest := candidates[1..];
      FindIsFirst(rest, id);
      assert forall k :: 0 <= k < |rest| ==> rest[k] == candidates[k + 1];
      assert forall k :: 1 <= k < |candidates| ==> candidates[k] == rest[k - 1];
      forall k | FirstWithId(candidates, id, k) ensures Find(candidates, id) == Some(candidates[k]) {
        if k > 0 {
          assert candidates[0].id != id;
          assert FirstWithId(rest, id, k - 1);
        }
      }
    }
  }

  /** A popped retry starts if the first fetched issue with its id is active and not terminal, and a slot is free. */
  lemma RetryStartsExactly(st: State, c: Settings, id: string, candidates: seq<Issue>, k: int)
    requires FirstWithId(candidates, id, k)
    ensures !RetryStarts(st, c, id, None)
    ensures RetryStarts(st, c, id, Some(candidates)) <==>
            && Lower(candidates[k].state) in c.ActiveStates() && Lower(candidates[k].state) !in c.TerminalStates()
            && |st.running| < st.maxConcurrentAgents
  {
    FindIsFirst(candidates, id);
  }

  /** For a worker that still owns its entry the two exit paths are the same transition. */
  lemma ExitPathsAgree(st: State, c: Settings, id: string, attempt: Option<u32>, ok: bool, error: string, now: nat)
    requires id in st.running && st.running[id].retryAttempt == attempt
    ensures WrapperExit(st, c, id, attempt, ok, error, now) == HandleWorkerExit(st, c, id, ok, error, now)
  {
  }
}
