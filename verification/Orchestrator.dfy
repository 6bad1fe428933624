/** The orchestrator object. Each method is one hold of its lock, and does to the fields what the transition system's step
    does to the state; the two loops of the control thread take and release it as they go. */
module Orchestrator {
  import opened Prelude
  import opened Config
  import opened Retry
  import opened Tracker
  import opened OrchestratorState
  import opened World
  import opened Claims
  import opened Scheduling
  import opened RetryPasses
  import T = TokenAccounting

  /** A worker to spawn: its issue, its attempt argument and its cancellation cell. */
  datatype Spawned = Spawned(issue: Issue, attempt: Option<u32>, cancelled: Flag)

  function Issues(spawned: seq<Spawned>): seq<Issue> {
    seq(|spawned|, i requires 0 <= i < |spawned| => spawned[i].issue)
  }

  /** The cells of these workers are the next ones from `flag` on, and they are all first attempts, or all retries. */
  predicate Numbered(spawned: seq<Spawned>, flag: Flag, retries: bool) {
    forall i :: 0 <= i < |spawned| ==> spawned[i].cancelled == flag + i && spawned[i].attempt.Some? == retries
  }

  lemma OneMoreWorker(spawned: seq<Spawned>, worker: Spawned, flag: Flag)
    requires Numbered(spawned, flag, worker.attempt.Some?) && worker.cancelled == flag + |spawned|
    ensures Numbered(spawned + [worker], flag, worker.attempt.Some?)
    ensures Issues(spawned + [worker]) == Issues(spawned) + [worker.issue]
  {
  }

  /** Reconcile a list of refreshed issues in order. */
  function ReconciledAll(st: State, c: Settings, refreshed: seq<Issue>): State {
    if refreshed == [] then st
    else Reconciled(ReconciledAll(st, c, refreshed[..|refreshed| - 1]), c, refreshed[|refreshed| - 1])
  }

  function RaisedByAll(st: State, c: Settings, refreshed: seq<Issue>): set<Flag> {
    if refreshed == [] then {}
    else
      var front, last := refreshed[..|refreshed| - 1], refreshed[|refreshed| - 1];
      RaisedByAll(st, c, front) + RaisedBy(ReconciledAll(st, c, front), c, last)
  }

  class Orchestrator {
    var maxConcurrentAgents: nat
    var running: map<string, RunningEntry>
    var claimed: set<string>
    var retryAttempts: map<string, RetryEntry>
    var completed: set<string>
    var cliTotals: Usage
    var raised: set<Flag>
    var nextFlag: Flag

    function Current(): State
      reads this
    {
      State(maxConcurrentAgents, running, claimed, retryAttempts, completed, cliTotals)
    }

    constructor (c: Settings)
      ensures Current() == State(c.MaxConcurrentAgents(), map[], {}, map[], {}, NO_USAGE)
      ensures raised == {} && nextFlag == 0
    {
      maxConcurrentAgents := c.MaxConcurrentAgents();
      running, claimed, retryAttempts, completed := map[], {}, map[], {};
      cliTotals := NO_USAGE;
      raised, nextFlag := {}, 0;
    }

    method ReloadConfig(c: Settings)
      modifies this`maxConcurrentAgents
      ensures Current() == old(Current()).(maxConcurrentAgents := c.MaxConcurrentAgents())
    {
      maxConcurrentAgents := c.MaxConcurrentAgents();
    }

    /** Claim an issue and enter it as running under a fresh cancellation cell. */
    method Start(issue: Issue, attempt: Option<u32>) returns (spawned: Spawned)
      modifies this`claimed, this`running, this`nextFlag
      ensures Current() == old(Current()).Start(issue, attempt, old(nextFlag))
      ensures spawned == Spawned(issue, attempt, old(nextFlag)) && nextFlag == old(nextFlag) + 1
    {
      claimed := claimed + {issue.id};
      running := running[issue.id := RunningEntry(issue, None, attempt, 0, nextFlag, 0)];
      spawned := Spawned(issue, attempt, nextFlag);
      nextFlag := nextFlag + 1;
    }

    /** The lock is free for the n-th time, and other actors change what they like. */
    method Release(others: Others, n: nat)
      modifies this
      ensures Current() == others(n, old(Current())) && raised == old(raised) && nextFlag == old(nextFlag)
    {
      var st := others(n, Current());
      maxConcurrentAgents, running, claimed := st.maxConcurrentAgents, st.running, st.claimed;
      retryAttempts, completed, cliTotals := st.retries, st.completed, st.totals;
    }

    /** One turn of the dispatch loop, with a slot free; after a start the lock is released for the n-th time. */
    method Consider(limits: map<string, nat>, issue: Issue, others: Others, n: nat) returns (spawned: Option<Spawned>)
      requires Current().AvailableSlots() != 0
      modifies this
      ensures raised == old(raised)
      ensures old(Current()).Admits(limits, issue) ==>
                && Current() == others(n, old(Current()).Start(issue, None, old(nextFlag)))
                && spawned == Some(Spawned(issue, None, old(nextFlag))) && nextFlag == old(nextFlag) + 1
      ensures !old(Current()).Admits(limits, issue) ==>
                Current() == old(Current()) && spawned.None? && nextFlag == old(nextFlag)
    {
      spawned := None;
      if issue.id !in running && issue.id !in claimed
         && Current().CountRunningByState(issue.state) < Current().StateLimit(limits, issue.state)
      {
        var worker := Start(issue, None);
        Release(others, n);
        spawned := Some(worker);
      }
    }

    /** The dispatch loop of `tick`: it releases the lock after each start, and stops at the first issue that finds no slot. */
    method DispatchEligible(limits: map<string, nat>, eligible: seq<Issue>, others: Others) returns (spawned: seq<Spawned>)
      modifies this
      ensures (Current(), Issues(spawned)) == Offer(old(Current()), limits, eligible, old(nextFlag), others, [])
      ensures nextFlag == old(nextFlag) + |spawned| && raised == old(raised)
      ensures Numbered(spawned, old(nextFlag), false)
    {
      spawned := [];
      ghost var st, done := Current(), [];
      ghost var goal := Offer(st, limits, eligible, nextFlag, others, done);
      var n := 0;
      assert eligible[0..] == eligible;
      while n < |eligible| && Current().AvailableSlots() != 0
        invariant n <= |eligible|
        invariant nextFlag == old(nextFlag) + |spawned| && raised == old(raised)
        invariant Numbered(spawned, old(nextFlag), false)
        invariant Current() == st && Issues(spawned) == done
        invariant Offer(st, limits, eligible[n..], nextFlag, others, done) == goal
      {
        ghost var before, flag, started := st, nextFlag, done;
        var worker := Consider(limits, eligible[n], others, |spawned|);
        if worker.Some? {
          OneMoreWorker(spawned, worker.value, old(nextFlag));
          spawned, done := spawned + [worker.value], done + [eligible[n]];
        }
        st := Current();
        OfferAdvances(before, limits, eligible, n, flag, others, started, st, nextFlag, done);
        n := n + 1;
      }
    }

    /** The write-locked half of `reconcile`. */
    method Reconcile(c: Settings, refreshed: seq<Issue>)
      modifies this`claimed, this`running, this`raised
      ensures Current() == ReconciledAll(old(Current()), c, refreshed)
      ensures raised == old(raised) + RaisedByAll(old(Current()), c, refreshed)
    {
      for n := 0 to |refreshed|
        invariant Current() == ReconciledAll(old(Current()), c, refreshed[..n])
        invariant raised == old(raised) + RaisedByAll(old(Current()), c, refreshed[..n])
      {
        var issue := refreshed[n];
        assert refreshed[..n + 1][..n] == refreshed[..n];
        if Lower(issue.state) in c.TerminalStates() {
          if issue.id in running {
            raised := raised + {running[issue.id].cancelled};
          }
        } else if Lower(issue.state) in c.ActiveStates() {
          if issue.id in running {
            running := running[issue.id := running[issue.id].(issue := issue)];
          }
        } else {
          if issue.id in running {
            raised := raised + {running[issue.id].cancelled};
            running := running - {issue.id};
            claimed := claimed - {issue.id};
          }
        }
      }
      assert refreshed[..|refreshed|] == refreshed;
    }

    /** `handle_worker_exit`, as called for a stalled worker. */
    method HandleExit(c: Settings, id: string, normal: bool, error: string, now: nat)
      modifies this`running, this`claimed, this`retryAttempts, this`completed
      ensures Current() == HandleWorkerExit(old(Current()), c, id, normal, error, now)
    {
      if id in running {
        var entry := running[id];
        running := running - {id};
        if normal {
          completed := completed + {id};
          retryAttempts := retryAttempts[id := ScheduleRetry(id, entry.issue.identifier, 1, None, c, true, now)];
        } else {
          var next := NextAttempt(entry.retryAttempt.GetOr(0));
          if next > c.MaxRetryAttempts() {
            claimed := claimed - {id};
          } else {
            retryAttempts := retryAttempts[id := ScheduleRetry(id, entry.issue.identifier, next, Some(error), c, false, now)];
          }
        }
      }
    }

    /** The last lock hold of a worker's spawn wrapper. */
    method WorkerExit(c: Settings, issue: Issue, attempt: Option<u32>, result: Result<(), string>, now: nat)
      modifies this`running, this`claimed, this`retryAttempts, this`completed
      ensures Current() ==
              WrapperExit(old(Current()), c, issue.id, attempt, result.Ok?, if result.Err? then result.error else "", now)
    {
      match result {
        case Ok(_) =>
          if issue.id in running {
            var identifier := running[issue.id].issue.identifier;
            running := running - {issue.id};
            completed := completed + {issue.id};
            retryAttempts := retryAttempts[issue.id := ScheduleRetry(issue.id, identifier, 1, None, c, true, now)];
          }
        case Err(error) =>
          if issue.id in running {
            var identifier := running[issue.id].issue.identifier;
            running := running - {issue.id};
            var next := NextAttempt(attempt.GetOr(0));
            if next > c.MaxRetryAttempts() {
              claimed := claimed - {issue.id};
            } else {
              retryAttempts := retryAttempts[issue.id := ScheduleRetry(issue.id, identifier, next, Some(error), c, false, now)];
            }
          }
      }
    }

    /** The snapshot `process_retries` starts with; the map is walked in any order. */
    method DueRetries(now: nat) returns (due: seq<Due>)
      ensures ListsDue(due, retryAttempts, now)
    {
      due := [];
      var todo := retryAttempts.Keys;
      while todo != {}
        invariant todo <= retryAttempts.Keys
        invariant ListsDue(due, retryAttempts - todo, now)
        decreases |todo|
      {
        var id :| id in todo;
        ghost var seen, before := retryAttempts - todo, due;
        todo := todo - {id};
        assert forall k :: k in retryAttempts - todo <==> k in seen || k == id;
        if retryAttempts[id].dueAt <= now {
          due := due + [(id, retryAttempts[id])];
          assert due[|before|].0 == id;
          assert forall i :: 0 <= i < |before| ==> due[i] == before[i];
        }
      }
      assert retryAttempts - todo == retryAttempts;
    }

    method PopRetry(id: string)
      modifies this`retryAttempts
      ensures Current() == old(Current()).(retries := old(retryAttempts) - {id})
    {
      retryAttempts := retryAttempts - {id};
    }

    /** What `process_retries` does with a popped entry once the candidates are fetched (or the fetch failed). */
    method Resolve(c: Settings, id: string, retry: RetryEntry, fetched: Result<seq<Issue>, string>, now: nat)
      returns (spawned: Option<Spawned>)
      modifies this`running, this`claimed, this`retryAttempts, this`nextFlag
      ensures var candidates := if fetched.Ok? then Some(fetched.value) else None;
              && Current() == ResolveRetry(old(Current()), c, id, retry, candidates, now, old(nextFlag))
              && (spawned.Some? <==> RetryStarts(old(Current()), c, id, candidates))
              && nextFlag == old(nextFlag) + (if spawned.Some? then 1 else 0)
              && (spawned.Some? ==>
                    spawned.value == Spawned(Find(candidates.value, id).value, Some(retry.attempt), old(nextFlag)))
    {
      spawned := None;
      match fetched {
        case Err(_) =>
          var next := NextAttempt(retry.attempt);
          if next > c.MaxRetryAttempts() {
            claimed := claimed - {id};
          } else {
            retryAttempts := retryAttempts[id :=
              ScheduleRetry(id, retry.identifier, next, Some("retry poll failed"), c, false, now)];
          }
        case Ok(candidates) =>
          match Find(candidates, id) {
            case None =>
              claimed := claimed - {id};
            case Some(issue) =>
              if Lower(issue.state) in c.TerminalStates() || Lower(issue.state) !in c.ActiveStates() {
                claimed := claimed - {id};
              } else if Current().AvailableSlots() == 0 {
                retryAttempts := retryAttempts[id :=
                  ScheduleRetry(id, issue.identifier, retry.attempt, Some("no available orchestrator slots"), c, false, now)];
              } else {
                FindFinds(candidates, id);
                var worker := Start(issue, Some(retry.attempt));
                spawned := Some(worker);
              }
          }
      }
    }

    /** One turn of the retry loop: the lock is free before the pop and while the candidates are fetched. */
    method ProcessOne(entry: Due, poll: Poll, others: Others, n: nat) returns (spawned: Option<Spawned>)
      modifies this
      ensures raised == old(raised)
      ensures var popped := others(2 * n + 1, Popped(others(2 * n, old(Current())), entry.0));
              && Current() == Resolved(popped, entry, poll, old(nextFlag))
              && nextFlag == FlagAfter(popped, entry, poll, old(nextFlag))
              && (spawned.Some? <==> RetryStarts(popped, poll.c, entry.0, poll.fetched))
              && (spawned.Some? ==> spawned.value.attempt == Some(entry.1.attempt) && spawned.value.cancelled == old(nextFlag))
    {
      Release(others, 2 * n);
      PopRetry(entry.0);
      Release(others, 2 * n + 1);
      spawned := Resolve(poll.c, entry.0, entry.1, if poll.fetched.Some? then Ok(poll.fetched.value) else Err(""), poll.now);
    }

    /** `process_retries`: the snapshot, and a turn of the loop for each entry of it. */
    method ProcessRetries(now: nat, polls: nat -> Poll, others: Others) returns (due: seq<Due>, spawned: seq<Spawned>)
      modifies this
      ensures ListsDue(due, old(retryAttempts), now)
      ensures (Current(), nextFlag) == RetryPass(old(Current()), due, polls, others, 0, old(nextFlag))
      ensures raised == old(raised) && nextFlag == old(nextFlag) + |spawned|
      ensures Numbered(spawned, old(nextFlag), true)
    {
      due := DueRetries(now);
      spawned := [];
      ghost var goal := RetryPass(Current(), due, polls, others, 0, nextFlag);
      assert due[0..] == due;
      for n := 0 to |due|
        invariant raised == old(raised) && nextFlag == old(nextFlag) + |spawned|
        invariant Numbered(spawned, old(nextFlag), true)
        invariant RetryPass(Current(), due[n..], polls, others, n, nextFlag) == goal
      {
        PassAdvances(Current(), due, n, polls, others, nextFlag);
        var worker := ProcessOne(due[n], polls(n), others, n);
        if worker.Some? {
          OneMoreWorker(spawned, worker.value, old(nextFlag));
          spawned := spawned + [worker.value];
        }
      }
    }

    /** `POST /api/v1/<identifier>/cancel`: any running entry with that identifier. */
    method Cancel(identifier: string) returns (found: Option<string>)
      modifies this`raised
      ensures found.None? ==> raised == old(raised) && forall id :: id in running ==> running[id].issue.identifier != identifier
      ensures found.Some? ==> found.value in running && running[found.value].issue.identifier == identifier
                              && raised == old(raised) + {running[found.value].cancelled}
    {
      if id :| id in running && running[id].issue.identifier == identifier {
        raised := raised + {running[id].cancelled};
        found := Some(id);
      } else {
        found := None;
      }
    }

    /** `DELETE /api/v1/retry/<identifier>`: any queued entry with that identifier. */
    method DeleteQueued(identifier: string) returns (found: Option<string>)
      modifies this`retryAttempts, this`claimed
      ensures found.None? ==> Current() == old(Current())
                              && forall id :: id in retryAttempts ==> retryAttempts[id].identifier != identifier
      ensures found.Some? ==> found.value in old(retryAttempts) && old(retryAttempts)[found.value].identifier == identifier
                              && Current() == DeleteRetry(old(Current()), found.value)
    {
      if key :| key in retryAttempts && retryAttempts[key].identifier == identifier {
        var id := retryAttempts[key].issueId;
        retryAttempts := retryAttempts - {id};
        claimed := claimed - {id};
        found := Some(key);
      } else {
        found := None;
      }
    }

    // ---- Token accounting: the lock holds of a turn's event consumer and of the end of the turn ----

    method StepStart(id: string)
      modifies this`running
      ensures Current() == T.Perform(T.Ledger(old(Current()), map[]), id, T.StepStart).st
    {
      if id in running {
        var session := running[id].session;
        if session.Some? {
          running := running[id := running[id].(session := Some(session.value.(reported := NO_USAGE)))];
        } else {
          running := running[id := running[id].(session := Some(LiveSession(NO_USAGE, NO_USAGE)))];
        }
      }
      T.NothingCharged(cliTotals);
    }

    /** The read-locked half of a token report: the deltas to add. */
    method ReadReport(id: string, report: Usage) returns (delta: Usage)
      ensures delta == T.Perform(T.Ledger(Current(), map[]), id, T.ReadReport(report)).locals[id].delta
    {
      var last := NO_USAGE;
      if id in running && running[id].session.Some? {
        last := running[id].session.value.reported;
      }
      delta := report.Since(last);
    }

    /** The write-locked half. */
    method WriteReport(id: string, report: Usage, delta: Usage)
      modifies this`running, this`cliTotals
      ensures Current() == T.Perform(T.Ledger(old(Current()), map[id := T.Locals(delta, false)]), id, T.WriteReport(report)).st
    {
      cliTotals := cliTotals.Plus(delta);
      if id in running {
        if running[id].session.Some? {
          running := running[id := running[id].(session := Some(LiveSession(report, report)))];
        } else {
          assert running == running[id := running[id].(session := None)];
        }
      }
    }

    /** Whether the turn's reports were counted. */
    method CheckCounted(id: string) returns (counted: bool)
      ensures counted == T.Perform(T.Ledger(Current(), map[]), id, T.CheckCounted).locals[id].counted
    {
      counted := id in running && running[id].session.Some? && running[id].session.value.reported.total > 0;
    }

    /** Charge the turn's own usage figure, unless it was counted. */
    method ChargeUsage(id: string, usage: Option<Usage>, counted: bool)
      modifies this`running, this`cliTotals
      ensures Current() == T.Perform(T.Ledger(old(Current()), map[id := T.Locals(NO_USAGE, counted)]), id, T.Fallback(usage)).st
    {
      T.NothingCharged(cliTotals);
      if id in running {
        assert running == running[id := running[id].(session := running[id].session)];
      }
      if !counted && usage.Some? {
        cliTotals := cliTotals.Plus(usage.value);
        if id in running && running[id].session.Some? {
          running := running[id := running[id].(session := Some(LiveSession(usage.value, usage.value)))];
        }
      }
    }

    /** Record the end of the turn in the session. */
    method CloseTurn(id: string, usage: Option<Usage>)
      modifies this`running
      ensures Current() == T.Perform(T.Ledger(old(Current()), map[]), id, T.Close(usage)).st
    {
      T.NothingCharged(cliTotals);
      if id in running {
        match running[id].session {
          case Some(s) =>
            var shown := if usage.Some? then usage.value else s.shown;
            running := running[id := running[id].(session := Some(LiveSession(s.reported, shown)))];
          case None =>
            var figure := usage.GetOr(NO_USAGE);
            running := running[id := running[id].(session := Some(LiveSession(figure, figure)))];
        }
      }
    }
  }
}
