/** One uninterrupted dispatch pass of `tick`: greedy, maximal, free of priority inversion. */
module Scheduling {
  import opened Prelude
  import opened Config
  import opened Tracker
  import opened OrchestratorState
  import opened World
  import opened Capacity

  function KeepEligible(c: Settings, candidates: seq<Issue>): (r: seq<Issue>)
    ensures forall issue :: issue in r <==> issue in candidates && Eligible(c, issue)
  {
    if candidates == [] then []
    else
      var rest := KeepEligible(c, candidates[1..]);
      assert forall issue :: issue in candidates <==> issue == candidates[0] || issue in candidates[1..];
      if Eligible(c, candidates[0]) then [candidates[0]] + rest else rest
  }

  /** The filter keeps each eligible candidate as often as it was fetched, and no other. */
  lemma {:induction false} KeepEligibleExactly(c: Settings, candidates: seq<Issue>, issue: Issue)
    ensures multiset(KeepEligible(c, candidates))[issue] == if Eligible(c, issue) then multiset(candidates)[issue] else 0
  {
    if candidates != [] {
      KeepEligibleExactly(c, candidates[1..], issue);
      assert candidates == [candidates[0]] + candidates[1..];
    }
  }

  /** The state after offering every issue in turn, and the issues that were started. */
  function DispatchAll(st: State, limits: map<string, nat>, issues: seq<Issue>, flag: Flag): (State, seq<Issue>)
    decreases |issues|
  {
    if issues == [] then (st, [])
    else if st.Admits(limits, issues[0]) then
      var (last, started) := DispatchAll(st.Admit(limits, issues[0], flag), limits, issues[1..], flag + 1);
      (last, [issues[0]] + started)
    else DispatchAll(st, limits, issues[1..], flag)
  }

  /** `b` holds everything `a` does, under the same limit. */
  ghost predicate Extends(a: State, b: State) {
    && b.maxConcurrentAgents == a.maxConcurrentAgents
    && forall id :: id in a.running ==> id in b.running && b.running[id] == a.running[id]
  }

  lemma CountMonotone(a: State, b: State, state: string)
    requires Extends(a, b)
    ensures a.CountRunningByState(state) <= b.CountRunningByState(state)
  {
    SubsetCount(a, b, state);
  }

  lemma {:induction false} PassExtends(st: State, limits: map<string, nat>, issues: seq<Issue>, flag: Flag)
    ensures Extends(st, DispatchAll(st, limits, issues, flag).0)
    decreases |issues|
  {
    if issues != [] {
      if st.Admits(limits, issues[0]) {
        PassExtends(st.Admit(limits, issues[0], flag), limits, issues[1..], flag + 1);
        assert Extends(st, st.Admit(limits, issues[0], flag));
      } else {
        PassExtends(st, limits, issues[1..], flag);
      }
    }
  }

  lemma {:induction false} PassClaimsWhatItStarts(st: State, limits: map<string, nat>, issues: seq<Issue>, flag: Flag, id: string)
    ensures var last := DispatchAll(st, limits, issues, flag).0;
            id in last.claimed <==> id in st.claimed || (id in last.running && id !in st.running)
    decreases |issues|
  {
    if issues != [] {
      if st.Admits(limits, issues[0]) {
        var st1 := st.Start(issues[0], None, flag);
        PassClaimsWhatItStarts(st1, limits, issues[1..], flag + 1, id);
        PassExtends(st1, limits, issues[1..], flag + 1);
      } else {
        PassClaimsWhatItStarts(st, limits, issues[1..], flag, id);
      }
    }
  }

  lemma {:induction false} NewEntriesWereStarted(st: State, limits: map<string, nat>, issues: seq<Issue>, flag: Flag, id: string)
    requires id in DispatchAll(st, limits, issues, flag).0.running && id !in st.running
    ensures var (last, started) := DispatchAll(st, limits, issues, flag); last.running[id].issue in started
    decreases |issues|
  {
    if issues != [] {
      if st.Admits(limits, issues[0]) {
        var st1 := st.Start(issues[0], None, flag);
        PassExtends(st1, limits, issues[1..], flag + 1);
        if id != issues[0].id {
          NewEntriesWereStarted(st1, limits, issues[1..], flag + 1, id);
        }
      } else {
        NewEntriesWereStarted(st, limits, issues[1..], flag, id);
      }
    }
  }

  lemma {:induction false} PassKeepsTheRest(st: State, limits: map<string, nat>, issues: seq<Issue>, flag: Flag)
    ensures var last := DispatchAll(st, limits, issues, flag).0;
            last == st.(running := last.running, claimed := last.claimed)
    decreases |issues|
  {
    if issues != [] {
      if st.Admits(limits, issues[0]) {
        PassKeepsTheRest(st.Admit(limits, issues[0], flag), limits, issues[1..], flag + 1);
      } else {
        PassKeepsTheRest(st, limits, issues[1..], flag);
      }
    }
  }

  lemma {:induction false} StartedWereFree(st: State, limits: map<string, nat>, issues: seq<Issue>, flag: Flag, x: Issue)
    requires x in DispatchAll(st, limits, issues, flag).1
    ensures x in issues && x.id !in st.running && x.id !in st.claimed
    ensures var last := DispatchAll(st, limits, issues, flag).0;
            x.id in last.running && last.running[x.id].issue == x
            && last.running[x.id].retryAttempt.None? && last.running[x.id].cancelled >= flag
    decreases |issues|
  {
    if st.Admits(limits, issues[0]) {
      var st1 := st.Admit(limits, issues[0], flag);
      PassExtends(st1, limits, issues[1..], flag + 1);
      if x in DispatchAll(st1, limits, issues[1..], flag + 1).1 {
        StartedWereFree(st1, limits, issues[1..], flag + 1, x);
      } else {
        assert x == issues[0];
      }
    } else {
      StartedWereFree(st, limits, issues[1..], flag, x);
    }
  }

  /** A pass touches nothing that was there. It adds a claim and a fresh entry for each issue it starts, none of them
      running or claimed before, and for no other. */
  lemma PassOnlyAdds(st: State, limits: map<string, nat>, issues: seq<Issue>, flag: Flag)
    ensures var (last, started) := DispatchAll(st, limits, issues, flag);
            && last == st.(running := last.running, claimed := st.claimed + (last.running.Keys - st.running.Keys))
            && (forall id :: id in st.running ==> id in last.running && last.running[id] == st.running[id])
            && (forall id :: id in last.running && id !in st.running ==> last.running[id].issue in started)
            && (forall x :: x in started ==> x in issues && x.id !in st.running && x.id !in st.claimed)
            && (forall x :: x in started ==> x.id in last.running && last.running[x.id].issue == x)
  {
    var (last, started) := DispatchAll(st, limits, issues, flag);
    PassExtends(st, limits, issues, flag);
    PassKeepsTheRest(st, limits, issues, flag);
    forall id ensures id in last.claimed <==> id in st.claimed || (id in last.running && id !in st.running) {
      PassClaimsWhatItStarts(st, limits, issues, flag, id);
    }
    assert last.claimed == st.claimed + (last.running.Keys - st.running.Keys);
    forall id | id in last.running && id !in st.running ensures last.running[id].issue in started {
      NewEntriesWereStarted(st, limits, issues, flag, id);
    }
    forall x | x in started
      ensures x in issues && x.id !in st.running && x.id !in st.claimed && x.id in last.running && last.running[x.id].issue == x
    {
      StartedWereFree(st, limits, issues, flag, x);
    }
  }

  /** With no slot free the rest of the pass does nothing, which is why the loop may stop there. */
  lemma {:induction false} NoSlotsNoPass(st: State, limits: map<string, nat>, issues: seq<Issue>, flag: Flag)
    requires st.AvailableSlots() == 0
    ensures DispatchAll(st, limits, issues, flag) == (st, [])
    decreases |issues|
  {
    if issues != [] {
      NoSlotsNoPass(st, limits, issues[1..], flag);
    }
  }

  /** Why an issue offered to the pass was not started. */
  ghost predicate Excused(st: State, limits: map<string, nat>, last: State, started: seq<Issue>, issue: Issue) {
    || issue.id in last.running
    || issue.id in st.claimed
    || last.CountRunningByState(issue.state) >=
         (if Lower(issue.state) in limits then limits[Lower(issue.state)] else last.maxConcurrentAgents)
    || (|last.running| >= last.maxConcurrentAgents && forall x :: x in started ==> InOrder(x, issue))
  }

  /** The first issue of a pass is started, or at the end of the pass it is excused. */
  lemma HeadIsExcused(st: State, limits: map<string, nat>, issues: seq<Issue>, flag: Flag)
    requires issues != [] && !st.Admits(limits, issues[0])
    ensures var (last, started) := DispatchAll(st, limits, issues, flag);
            Excused(st, limits, last, started, issues[0])
  {
    PassExtends(st, limits, issues, flag);
    if st.AvailableSlots() == 0 {
      NoSlotsNoPass(st, limits, issues, flag);
    } else if issues[0].id !in st.running && issues[0].id !in st.claimed {
      CountMonotone(st, DispatchAll(st, limits, issues, flag).0, issues[0].state);
    }
  }

  /** The pass is maximal and free of priority inversion: an eligible issue left out is already running or claimed,
      or its state is full, or every slot is taken and nothing started in the pass sorts after it. */
  lemma {:induction false} PassIsMaximal(st: State, limits: map<string, nat>, issues: seq<Issue>, flag: Flag, k: nat)
    requires Sorted(issues) && k < |issues|
    ensures var (last, started) := DispatchAll(st, limits, issues, flag);
            issues[k] !in started ==> Excused(st, limits, last, started, issues[k])
    decreases |issues|
  {
    if !st.Admits(limits, issues[0]) {
      if k == 0 {
        HeadIsExcused(st, limits, issues, flag);
      } else {
        PassIsMaximal(st, limits, issues[1..], flag, k - 1);
      }
    } else if k > 0 {
      var st1 := st.Admit(limits, issues[0], flag);
      PassIsMaximal(st1, limits, issues[1..], flag + 1, k - 1);
      PassExtends(st1, limits, issues[1..], flag + 1);
      var (last, rest) := DispatchAll(st1, limits, issues[1..], flag + 1);
      assert issues[0].id in last.running;
      assert Before(issues[0], issues[k]);
      BeforeIsInOrder(issues[0], issues[k]);
      if issues[k] !in rest {
        assert Excused(st1, limits, last, rest, issues[k]);
        assert Excused(st, limits, last, [issues[0]] + rest, issues[k]);
      }
    }
  }

  lemma AdmissionKeepsStateLimit(st: State, limits: map<string, nat>, issue: Issue, flag: Flag, state: string)
    requires st.Admits(limits, issue)
    ensures st.Admit(limits, issue, flag).CountRunningByState(state)
            <= Max(st.CountRunningByState(state), st.StateLimit(limits, state))
  {
    var st1 := st.Start(issue, None, flag);
    if Lower(issue.state) == Lower(state) {
      assert st1.RunningIn(state) == st.RunningIn(state) + {issue.id};
      assert st.RunningIn(state) == st.RunningIn(issue.state);
    } else {
      assert st1.RunningIn(state) == st.RunningIn(state);
    }
  }

  lemma AdmissionKeepsLimit(st: State, limits: map<string, nat>, issue: Issue, flag: Flag)
    requires st.Admits(limits, issue)
    ensures |st.Admit(limits, issue, flag).running| == |st.running| + 1 <= st.maxConcurrentAgents
  {
  }

  /** A pass takes no state over its limit, nor the system over the global one. */
  lemma {:induction false} PassKeepsLimits(st: State, limits: map<string, nat>, issues: seq<Issue>, flag: Flag, state: string)
    ensures var last := DispatchAll(st, limits, issues, flag).0;
            && last.CountRunningByState(state) <= Max(st.CountRunningByState(state), st.StateLimit(limits, state))
            && |last.running| <= Max(|st.running|, st.maxConcurrentAgents)
    decreases |issues|
  {
    if issues != [] {
      if st.Admits(limits, issues[0]) {
        var st1 := st.Admit(limits, issues[0], flag);
        AdmissionKeepsStateLimit(st, limits, issues[0], flag, state);
        AdmissionKeepsLimit(st, limits, issues[0], flag);
        PassKeepsLimits(st1, limits, issues[1..], flag + 1, state);
      } else {
        PassKeepsLimits(st, limits, issues[1..], flag, state);
      }
    }
  }

  /** The whole dispatch half of `tick`, for any list of candidates. */
  lemma {:induction false} TickIsMaximal(st: State, c: Settings, limits: map<string, nat>, candidates: seq<Issue>, flag: Flag, issue: Issue)
    requires issue in candidates && Eligible(c, issue)
    ensures var (last, started) := DispatchAll(st, limits, SortByDispatchOrder(KeepEligible(c, candidates)), flag);
            issue !in started ==> Excused(st, limits, last, started, issue)
  {
    var eligible := KeepEligible(c, candidates);
    var order := SortByDispatchOrder(eligible);
    SortSorts(eligible);
    assert issue in multiset(order);
    var k :| 0 <= k < |order| && order[k] == issue;
    PassIsMaximal(st, limits, order, flag, k);
  }

  // ---- The pass as steps of the system ----

  function DispatchSteps(c: Settings, limits: map<string, nat>, issues: seq<Issue>): seq<Step> {
    seq(|issues|, i requires 0 <= i < |issues| => Dispatch(c, limits, issues[i]))
  }

  /** Going on from `s` by `steps` leads to a state between two passes, with these contents and this next cell. */
  ghost predicate GoesOn(history: seq<Step>, steps: seq<Step>, st: State, flag: Flag) {
    exists last :: Reaches(history + steps, last) && last.st == st && last.nextFlag == flag && last.control.Ticking?
  }

  lemma DispatchStepsCons(c: Settings, limits: map<string, nat>, issues: seq<Issue>, history: seq<Step>)
    requires issues != []
    ensures history + DispatchSteps(c, limits, issues)
            == (history + [Dispatch(c, limits, issues[0])]) + DispatchSteps(c, limits, issues[1..])
  {
  }

  lemma OneDispatch(s: World, c: Settings, limits: map<string, nat>, issue: Issue)
    requires s.control.Ticking? && Eligible(c, issue)
    ensures var step := Dispatch(c, limits, issue);
            && Enabled(s, step) && Apply(s, step).control.Ticking?
            && Apply(s, step).st == s.st.Admit(limits, issue, s.nextFlag)
            && Apply(s, step).nextFlag == s.nextFlag + if s.st.Admits(limits, issue) then 1 else 0
  {
  }

  /** A dispatch pass that nobody interrupts is a run of dispatch steps. */
  lemma {:induction false} PassIsRun(history: seq<Step>, s: World, c: Settings, limits: map<string, nat>, issues: seq<Issue>)
    requires Reaches(history, s) && s.control.Ticking?
    requires forall i :: 0 <= i < |issues| ==> Eligible(c, issues[i])
    ensures var (last, started) := DispatchAll(s.st, limits, issues, s.nextFlag);
            GoesOn(history, DispatchSteps(c, limits, issues), last, s.nextFlag + |started|)
    decreases |issues|
  {
    if issues == [] {
      assert history + DispatchSteps(c, limits, issues) == history;
    } else {
      var step := Dispatch(c, limits, issues[0]);
      OneDispatch(s, c, limits, issues[0]);
      Then(history, s, step, Apply(s, step));
      PassIsRun(history + [step], Apply(s, step), c, limits, issues[1..]);
      DispatchStepsCons(c, limits, issues, history);
    }
  }

  /** From every reachable state between two passes the dispatch half of a tick, when nobody interrupts it, is a run, and
      at the end of it every eligible candidate that was not started is excused. */
  lemma {:induction false} ReachableTickIsMaximal(history: seq<Step>, s: World, c: Settings, limits: map<string, nat>, candidates: seq<Issue>)
    requires Reaches(history, s) && s.control.Ticking?
    ensures var order := SortByDispatchOrder(KeepEligible(c, candidates));
            var (last, started) := DispatchAll(s.st, limits, order, s.nextFlag);
            && GoesOn(history, DispatchSteps(c, limits, order), last, s.nextFlag + |started|)
            && forall issue :: issue in candidates && Eligible(c, issue) && issue !in started ==>
                 Excused(s.st, limits, last, started, issue)
  {
    var eligible := KeepEligible(c, candidates);
    var order := SortByDispatchOrder(eligible);
    forall i | 0 <= i < |order| ensures Eligible(c, order[i]) {
      assert order[i] in multiset(order);
    }
    PassIsRun(history, s, c, limits, order);
    var (last, started) := DispatchAll(s.st, limits, order, s.nextFlag);
    forall issue | issue in candidates && Eligible(c, issue) && issue !in started
      ensures Excused(s.st, limits, last, started, issue)
    {
      TickIsMaximal(s.st, c, limits, candidates, s.nextFlag, issue);
    }
  }

  // ---- The loop, with the lock released after each dispatch ----

  /** What the other actors make of the state while the control thread does not hold the lock, at its n-th release. */
  type Others = (nat, State) -> State

  function Quiet(n: nat, st: State): State {
    st
  }

  /** The dispatch loop, with what it has started so far: it gives the lock away after each start, and stops at the first
      issue that finds no slot. */
  function Offer(st: State, limits: map<string, nat>, issues: seq<Issue>, flag: Flag, others: Others, done: seq<Issue>)
    : (State, seq<Issue>)
    decreases |issues|
  {
    if issues == [] || st.AvailableSlots() == 0 then (st, done)
    else if st.Admits(limits, issues[0]) then
      Offer(others(|done|, st.Start(issues[0], None, flag)), limits, issues[1..], flag + 1, others, done + [issues[0]])
    else Offer(st, limits, issues[1..], flag, others, done)
  }

  /** If nobody uses the releases the loop is the pass above; stopping early loses nothing. */
  lemma {:induction false} QuietOfferIsPass(st: State, limits: map<string, nat>, issues: seq<Issue>, flag: Flag, done: seq<Issue>)
    ensures var (last, started) := DispatchAll(st, limits, issues, flag);
            Offer(st, limits, issues, flag, Quiet, done) == (last, done + started)
    decreases |issues|
  {
    if issues == [] {
      assert done + [] == done;
    } else if st.AvailableSlots() == 0 {
      NoSlotsNoPass(st, limits, issues, flag);
      assert done + [] == done;
    } else if st.Admits(limits, issues[0]) {
      var st1 := st.Start(issues[0], None, flag);
      QuietOfferIsPass(st1, limits, issues[1..], flag + 1, done + [issues[0]]);
      var started := DispatchAll(st1, limits, issues[1..], flag + 1).1;
      assert done + [issues[0]] + started == done + ([issues[0]] + started);
    } else {
      QuietOfferIsPass(st, limits, issues[1..], flag, done);
    }
  }

  /** Nothing in `a` sorts after anything in `b`. */
  ghost predicate AllBefore(a: seq<Issue>, b: seq<Issue>) {
    forall x, y :: x in a && y in b ==> Before(x, y)
  }

  lemma SortedSnoc(done: seq<Issue>, issues: seq<Issue>)
    requires issues != [] && Sorted(done) && Sorted(issues) && AllBefore(done, issues)
    ensures Sorted(done + [issues[0]]) && Sorted(issues[1..]) && AllBefore(done + [issues[0]], issues[1..])
    ensures AllBefore(done, issues[1..])
  {
    assert forall y :: y in issues[1..] ==> y in issues && Before(issues[0], y);
  }

  /** Whatever the others do, the issues are started in the order they were offered in, so no start sorts before an
      earlier one. */
  lemma {:induction false} OfferKeepsOrder(st: State, limits: map<string, nat>, issues: seq<Issue>, flag: Flag, others: Others,
                                           done: seq<Issue>)
    requires Sorted(done) && Sorted(issues) && AllBefore(done, issues)
    ensures var started := Offer(st, limits, issues, flag, others, done).1;
            && Sorted(started) && (forall i, j :: 0 <= i < j < |started| ==> InOrder(started[i], started[j]))
            && forall x :: x in started ==> x in done || x in issues
    decreases |issues|
  {
    SortedIsInOrder(Offer(st, limits, issues, flag, others, done).1);
    if issues != [] && st.AvailableSlots() != 0 {
      SortedSnoc(done, issues);
      if st.Admits(limits, issues[0]) {
        OfferKeepsOrder(others(|done|, st.Start(issues[0], None, flag)), limits, issues[1..], flag + 1, others, done + [issues[0]]);
      } else {
        OfferKeepsOrder(st, limits, issues[1..], flag, others, done);
      }
    }
  }

  /** One turn of the loop: `st1`, `flag1` and `done1` are what it makes of `st`, `flag` and `done`. */
  lemma OfferAdvances(st: State, limits: map<string, nat>, issues: seq<Issue>, i: nat, flag: Flag, others: Others, done: seq<Issue>,
                      st1: State, flag1: Flag, done1: seq<Issue>)
    requires i < |issues| && st.AvailableSlots() != 0
    requires if st.Admits(limits, issues[i])
             then st1 == others(|done|, st.Start(issues[i], None, flag)) && flag1 == flag + 1 && done1 == done + [issues[i]]
             else st1 == st && flag1 == flag && done1 == done
    ensures Offer(st, limits, issues[i..], flag, others, done) == Offer(st1, limits, issues[i + 1..], flag1, others, done1)
  {
    var rest := issues[i..];
    assert rest[0] == issues[i] && rest[1..] == issues[i + 1..];
  }
}
