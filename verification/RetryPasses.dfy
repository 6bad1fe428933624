/** One pass of `process_retries`: a snapshot of what is due, and one pop and one resolution for each of it. */
module RetryPasses {
  import opened Prelude
  import opened Config
  import opened Retry
  import opened Tracker
  import opened OrchestratorState
  import opened World
  import opened Claims
  import opened Scheduling

  /** What one turn of the loop meets: the configuration, the clock, and the fetched candidates (`None` is a failed fetch). */
  datatype Poll = Poll(c: Settings, now: nat, fetched: Option<seq<Issue>>)

  function Popped(st: State, id: string): State {
    st.(retries := st.retries - {id})
  }

  function Resolved(st: State, entry: Due, poll: Poll, flag: Flag): State {
    ResolveRetry(st, poll.c, entry.0, entry.1, poll.fetched, poll.now, flag)
  }

  function FlagAfter(st: State, entry: Due, poll: Poll, flag: Flag): Flag {
    if RetryStarts(st, poll.c, entry.0, poll.fetched) then flag + 1 else flag
  }

  /** The loop over the snapshot. The lock is free before each pop and again while the candidates are fetched. */
  function RetryPass(st: State, due: seq<Due>, polls: nat -> Poll, others: Others, n: nat, flag: Flag): (State, Flag)
    decreases |due|
  {
    if due == [] then (st, flag)
    else
      var popped := others(2 * n + 1, Popped(others(2 * n, st), due[0].0));
      RetryPass(Resolved(popped, due[0], polls(n), flag), due[1..], polls, others, n + 1, FlagAfter(popped, due[0], polls(n), flag))
  }

  lemma PassAdvances(st: State, due: seq<Due>, i: nat, polls: nat -> Poll, others: Others, flag: Flag)
    requires i < |due|
    ensures var popped := others(2 * i + 1, Popped(others(2 * i, st), due[i].0));
            RetryPass(st, due[i..], polls, others, i, flag)
            == RetryPass(Resolved(popped, due[i], polls(i), flag), due[i + 1..], polls, others, i + 1,
                         FlagAfter(popped, due[i], polls(i), flag))
  {
    assert due[i..][0] == due[i] && due[i..][1..] == due[i + 1..];
  }

  // ---- What an uninterrupted pass achieves ----

  ghost predicate DistinctIds(due: seq<Due>) {
    forall i, j :: 0 <= i < j < |due| ==> due[i].0 != due[j].0
  }

  lemma {:induction false} PassLeavesOthers(st: State, due: seq<Due>, polls: nat -> Poll, n: nat, flag: Flag, id: string)
    requires forall i :: 0 <= i < |due| ==> due[i].0 != id
    ensures SameAt(st, RetryPass(st, due, polls, Quiet, n, flag).0, id)
    decreases |due|
  {
    if due != [] {
      var popped := Popped(st, due[0].0);
      ResolveLeavesOthers(popped, polls(n).c, due[0].0, due[0].1, polls(n).fetched, polls(n).now, flag, id);
      PassLeavesOthers(Resolved(popped, due[0], polls(n), flag), due[1..], polls, n + 1,
                       FlagAfter(popped, due[0], polls(n), flag), id);
    }
  }

  /** Whether the answer to its poll keeps the claim: the issue is workable, or the fetch failed with an attempt left. */
  predicate KeepsClaim(entry: Due, poll: Poll) {
    match poll.fetched
    case None => NextAttempt(entry.1.attempt) <= poll.c.MaxRetryAttempts()
    case Some(candidates) =>
      Find(candidates, entry.0).Some? && poll.c.Workable(Find(candidates, entry.0).value.state)
  }

  /** The retry has become one of three things: a running entry with the same attempt, a later retry, with the next attempt
      if the fetch failed and the same one otherwise, or nothing, its claim released. */
  predicate Settled(st: State, entry: Due, poll: Poll) {
    var (id, retry) := entry;
    && (id in st.claimed <==> KeepsClaim(entry, poll))
    && (id in st.claimed <==> id in st.running || id in st.retries)
    && (id in st.running ==>
          id !in st.retries && poll.fetched.Some? && st.running[id].retryAttempt == Some(retry.attempt))
    && (id in st.retries ==>
          && st.retries[id].attempt == (if poll.fetched.None? then NextAttempt(retry.attempt) else retry.attempt)
          && st.retries[id].dueAt == poll.now + FailureDelayMs(st.retries[id].attempt, poll.c.MaxRetryBackoffMs()))
  }

  lemma ResolveSettles(st: State, entry: Due, poll: Poll, flag: Flag)
    requires entry.0 in st.claimed && entry.0 !in st.running && entry.0 !in st.retries
    ensures Settled(Resolved(st, entry, poll, flag), entry, poll)
  {
    if poll.fetched.Some? {
      FindFinds(poll.fetched.value, entry.0);
    }
  }

  lemma SettledThere(a: State, b: State, entry: Due, poll: Poll)
    requires Settled(a, entry, poll) && SameAt(a, b, entry.0)
    ensures Settled(b, entry, poll)
  {
  }

  /** An uninterrupted pass settles each retry of its snapshot by the answer to its own poll, once, and leaves every other
      issue as it was. */
  lemma {:induction false} PassSettlesDue(st: State, due: seq<Due>, polls: nat -> Poll, n: nat, flag: Flag, k: nat)
    requires DistinctIds(due) && k < |due|
    requires due[k].0 in st.claimed && due[k].0 !in st.running
    ensures Settled(RetryPass(st, due, polls, Quiet, n, flag).0, due[k], polls(n + k))
    ensures forall id :: (forall i :: 0 <= i < |due| ==> due[i].0 != id) ==>
              SameAt(st, RetryPass(st, due, polls, Quiet, n, flag).0, id)
    decreases |due|
  {
    var rest, id := due[1..], due[0].0;
    var popped := Popped(st, id);
    var next, flag' := Resolved(popped, due[0], polls(n), flag), FlagAfter(popped, due[0], polls(n), flag);
    assert forall i :: 0 <= i < |rest| ==> rest[i] == due[i + 1];
    if k == 0 {
      ResolveSettles(popped, due[0], polls(n), flag);
      PassLeavesOthers(next, rest, polls, n + 1, flag', id);
      SettledThere(next, RetryPass(next, rest, polls, Quiet, n + 1, flag').0, due[0], polls(n));
    } else {
      ResolveLeavesOthers(popped, polls(n).c, id, due[0].1, polls(n).fetched, polls(n).now, flag, due[k].0);
      PassSettlesDue(next, rest, polls, n + 1, flag', k - 1);
    }
    forall other | forall i :: 0 <= i < |due| ==> due[i].0 != other
      ensures SameAt(st, RetryPass(st, due, polls, Quiet, n, flag).0, other)
    {
      PassLeavesOthers(st, due, polls, n, flag, other);
    }
  }

  // ---- The pass as steps of the system ----

  function PollSteps(due: seq<Due>, polls: nat -> Poll, n: nat): seq<Step>
    decreases |due|
  {
    if due == [] then [] else [Pop, Resolve(polls(n).c, polls(n).now, polls(n).fetched)] + PollSteps(due[1..], polls, n + 1)
  }

  lemma OneMore(history: seq<Step>, a: Step, rest: seq<Step>)
    ensures history + ([a] + rest) == (history + [a]) + rest
  {
  }

  lemma TwoMore(history: seq<Step>, a: Step, b: Step, rest: seq<Step>)
    ensures history + ([a, b] + rest) == (history + [a] + [b]) + rest
  {
  }

  /** The two steps of one turn of the loop. */
  lemma PopAndResolve(s: World, due: seq<Due>, poll: Poll)
    requires due != [] && s.control == Retrying(due, None) && poll.now <= s.clock
    ensures var step := Resolve(poll.c, poll.now, poll.fetched);
            && Enabled(s, Pop) && Enabled(Apply(s, Pop), step)
            && var s' := Apply(Apply(s, Pop), step);
               && s'.st == Resolved(Popped(s.st, due[0].0), due[0], poll, s.nextFlag)
               && s'.nextFlag == FlagAfter(Popped(s.st, due[0].0), due[0], poll, s.nextFlag)
               && s'.control == Continue(due[1..]) && s'.clock == s.clock
  {
  }

  lemma {:induction false} PollsAreRun(history: seq<Step>, s: World, due: seq<Due>, polls: nat -> Poll, n: nat)
    requires Reaches(history, s) && s.control == Continue(due)
    requires forall k :: polls(k).now <= s.clock
    ensures var (last, flag) := RetryPass(s.st, due, polls, Quiet, n, s.nextFlag);
            GoesOn(history, PollSteps(due, polls, n), last, flag)
    decreases |due|
  {
    if due == [] {
      assert history + PollSteps(due, polls, n) == history;
    } else {
      var step := Resolve(polls(n).c, polls(n).now, polls(n).fetched);
      PopAndResolve(s, due, polls(n));
      var s1 := Apply(s, Pop);
      Then(history, s, Pop, s1);
      Then(history + [Pop], s1, step, Apply(s1, step));
      PollsAreRun(history + [Pop] + [step], Apply(s1, step), due[1..], polls, n + 1);
      TwoMore(history, Pop, step, PollSteps(due[1..], polls, n + 1));
    }
  }

  /** From every reachable state between two passes, a retry pass that nobody interrupts is a run: a snapshot, then a pop
      and a resolution for each retry due. */
  lemma RetryPassIsRun(history: seq<Step>, s: World, now: nat, due: seq<Due>, polls: nat -> Poll)
    requires Reaches(history, s) && s.control.Ticking?
    requires now <= s.clock && ListsDue(due, s.st.retries, now) && forall k :: polls(k).now <= s.clock
    ensures var (last, flag) := RetryPass(s.st, due, polls, Quiet, 0, s.nextFlag);
            GoesOn(history, [Snapshot(now, due)] + PollSteps(due, polls, 0), last, flag)
  {
    var s1 := Apply(s, Snapshot(now, due));
    Then(history, s, Snapshot(now, due), s1);
    PollsAreRun(history + [Snapshot(now, due)], s1, due, polls, 0);
    OneMore(history, Snapshot(now, due), PollSteps(due, polls, 0));
  }

  lemma DueIsWaiting(s: World, due: seq<Due>, now: nat, k: nat)
    requires ListsDue(due, s.st.retries, now) && k < |due| && Partitioned(s, due[k].0)
    ensures DistinctIds(due) && due[k].0 in s.st.claimed && due[k].0 !in s.st.running
  {
    assert Queued(s, due[k].0);
  }

  lemma SettledLater(st: State, entry: Due, poll: Poll)
    requires Settled(st, entry, poll)
    ensures entry.0 in st.retries ==> st.retries[entry.0].dueAt >= poll.now + 1000
  {
    if entry.0 in st.retries {
      var attempt := st.retries[entry.0].attempt;
      assert FailureDelayMs(attempt, poll.c.MaxRetryBackoffMs()) >= 1000;
    }
  }

  /** After such a pass nothing that was due is due any more: it runs, waits for at least a second from its poll, or is
      released. The issue has to be partitioned, which `PartitionAlways` gives where no delete raced with a snapshot of it. */
  lemma {:induction false} RetryPassSettles(s: World, now: nat, due: seq<Due>, polls: nat -> Poll, k: nat)
    requires ListsDue(due, s.st.retries, now) && k < |due| && Partitioned(s, due[k].0)
    ensures var last := RetryPass(s.st, due, polls, Quiet, 0, s.nextFlag).0;
            && Settled(last, due[k], polls(k))
            && (due[k].0 in last.retries ==> last.retries[due[k].0].dueAt >= polls(k).now + 1000)
  {
    DueIsWaiting(s, due, now, k);
    PassSettlesDue(s.st, due, polls, 0, s.nextFlag, k);
    SettledLater(RetryPass(s.st, due, polls, Quiet, 0, s.nextFlag).0, due[k], polls(k));
  }
}
