/** Runs showing that what the ownership, partition and per-state theorems exclude does happen. */
module Witnesses {
  import opened Prelude
  import opened Config
  import opened Retry
  import opened Tracker
  import opened OrchestratorState
  import opened World
  import opened Ownership

  const C := Settings(Some(["a", "b"]), Some(["t"]), None, None, None, None)
  const A := Issue("A", "r#1", "a", None, None, [])
  const B := Issue("B", "r#2", "b", None, None, [])
  const NO_LIMITS: map<string, nat> := map[]

  lemma StatesOfC()
    ensures C.Workable("a") && C.Workable("b") && Judge(C, "x").Inactive? && Judge(C, "b").Active?
    ensures Eligible(C, A) && Eligible(C, B)
    ensures Lower("a") == "a" && Lower("b") == "b"
  {
    assert Lower("a") == "a" && Lower("b") == "b" && Lower("t") == "t" && Lower("x") == "x";
    assert C.ActiveStates() == ["a", "b"] && C.TerminalStates() == ["t"] by {
      assert C.ActiveStates()[0] == "a" && C.ActiveStates()[1] == "b";
    }
  }

  // ---- The states of the witness runs ----

  /** The system at time `clock` with the given contents; every other field is empty. */
  function Holding(clock: nat, running: map<string, RunningEntry>, claimed: set<string>, retries: map<string, RetryEntry>,
                   workers: map<Flag, Worker>, nextFlag: Flag, control: Control): World {
    World(State(2, running, claimed, retries, {}, NO_USAGE), clock, workers, {}, nextFlag, control)
  }

  const EMPTY := Holding(0, map[], {}, map[], map[], 0, Ticking)
  const FIRST := RunningEntry(A, None, None, 0, 0, 0)
  const SECOND := RunningEntry(A, None, Some(1), 0, 1, 0)
  const TURNING := Worker(A, None, Turning)
  const RETRY := RetryEntry("A", "r#1", 1, 10000, Some("stalled"))
  const POPPED := Retrying([], Some(("A", RETRY)))

  const DISPATCHED := Holding(0, map["A" := FIRST], {"A"}, map[], map[0 := TURNING], 1, Ticking)
  const STALLED := Holding(0, map[], {"A"}, map["A" := RETRY], map[0 := TURNING], 1, Ticking)
  const DUE := Holding(10000, map[], {"A"}, map["A" := RETRY], map[0 := TURNING], 1, Ticking)
  const LISTED := Holding(10000, map[], {"A"}, map["A" := RETRY], map[0 := TURNING], 1, Retrying([("A", RETRY)], None))

  const TO_LISTED := [Dispatch(C, NO_LIMITS, A), Stall(C, "A"), Elapse(10000), Snapshot(10000, [("A", RETRY)])]

  lemma DispatchA()
    ensures Reaches([Dispatch(C, NO_LIMITS, A)], DISPATCHED)
  {
    StatesOfC();
    Begins(EMPTY);
    assert EMPTY.st.RunningIn("a") == {};
    assert Apply(EMPTY, Dispatch(C, NO_LIMITS, A)) == DISPATCHED;
    Then([], EMPTY, Dispatch(C, NO_LIMITS, A), DISPATCHED);
    assert [] + [Dispatch(C, NO_LIMITS, A)] == [Dispatch(C, NO_LIMITS, A)];
  }

  lemma StallA()
    ensures Apply(DISPATCHED, Stall(C, "A")) == STALLED
  {
    assert Pow2(0) == 1;
    assert DISPATCHED.st.running - {"A"} == map[];
    assert ScheduleRetry("A", "r#1", 1, Some("stalled"), C, false, 0) == RETRY;
  }

  lemma ListsOne(s: World, retry: RetryEntry)
    requires s.st.retries == map["A" := retry] && retry.dueAt == s.clock && s.control.Ticking?
    ensures Enabled(s, Snapshot(s.clock, [("A", retry)]))
    ensures Apply(s, Snapshot(s.clock, [("A", retry)])) == s.(control := Retrying([("A", retry)], None))
  {
    assert [("A", retry)][0].0 == "A";
  }

  lemma ReachesListed()
    ensures Reaches(TO_LISTED, LISTED)
  {
    DispatchA();
    StallA();
    Then([Dispatch(C, NO_LIMITS, A)], DISPATCHED, Stall(C, "A"), STALLED);
    Then([Dispatch(C, NO_LIMITS, A)] + [Stall(C, "A")], STALLED, Elapse(10000), DUE);
    ListsOne(DUE, RETRY);
    Then([Dispatch(C, NO_LIMITS, A)] + [Stall(C, "A")] + [Elapse(10000)], DUE, Snapshot(10000, [("A", RETRY)]), LISTED);
    assert TO_LISTED == [Dispatch(C, NO_LIMITS, A)] + [Stall(C, "A")] + [Elapse(10000)] + [Snapshot(10000, [("A", RETRY)])];
  }

  // ---- A stall exit ----

  const TAKEN := Holding(10000, map[], {"A"}, map[], map[0 := TURNING], 1, POPPED)
  const DOUBLED :=
    Holding(10000, map["A" := SECOND], {"A"}, map[], map[0 := TURNING, 1 := Worker(A, Some(1), Turning)], 2, Ticking)
  const WRAPPED :=
    Holding(10000, map["A" := SECOND], {"A"}, map[],
            map[0 := Worker(A, None, Wrapping(false, "", false)), 1 := Worker(A, Some(1), Turning)], 2, Ticking)
  const ORPHANED :=
    Holding(10000, map[], {"A"}, map["A" := RetryEntry("A", "r#1", 1, 20000, Some(""))], map[1 := Worker(A, Some(1), Turning)], 2, Ticking)

  lemma RetryA()
    ensures Apply(LISTED, Pop) == TAKEN && Apply(TAKEN, Resolve(C, 10000, Some([A]))) == DOUBLED
  {
    StatesOfC();
    assert LISTED.st.retries - {"A"} == map[] && LISTED.control.pending[1..] == [];
    assert Find([A], "A") == Some(A);
  }

  lemma ExitOfTheFirst()
    ensures Apply(DOUBLED, Finish(0, false, "")) == WRAPPED && Apply(WRAPPED, Exit(C, 0)) == ORPHANED
  {
    assert Pow2(0) == 1;
    assert WRAPPED.st.running - {"A"} == map[];
    assert WRAPPED.workers - {0} == map[1 := Worker(A, Some(1), Turning)];
  }

  /** A stall exit removes the entry and leaves its worker alive. The retry starts a second worker in the same
      workspace, and the exit of the first then takes the second one's entry away. */
  lemma StallOutlivesItsEntry()
    ensures Reaches(TO_LISTED + [Pop] + [Resolve(C, 10000, Some([A]))], DOUBLED)
    ensures DOUBLED.workers[0].issue == DOUBLED.workers[1].issue == A
    ensures Reaches(TO_LISTED + [Pop] + [Resolve(C, 10000, Some([A]))] + [Finish(0, false, "")] + [Exit(C, 0)], ORPHANED)
    ensures 1 in ORPHANED.workers && !Running(ORPHANED, ORPHANED.workers[1].issue.id)
  {
    ReachesListed();
    RetryA();
    ExitOfTheFirst();
    Then(TO_LISTED, LISTED, Pop, TAKEN);
    Then(TO_LISTED + [Pop], TAKEN, Resolve(C, 10000, Some([A])), DOUBLED);
    var steps := TO_LISTED + [Pop] + [Resolve(C, 10000, Some([A]))];
    Then(steps, DOUBLED, Finish(0, false, ""), WRAPPED);
    Then(steps + [Finish(0, false, "")], WRAPPED, Exit(C, 0), ORPHANED);
  }

  // ---- A racing delete ----

  const FAILED := RetryEntry("A", "r#1", 1, 10000, Some(""))
  const AGAIN := RetryEntry("A", "r#1", 2, 30000, Some("retry poll failed"))
  const FIRST_TURN: map<Flag, Worker> := map[1 := TURNING]
  const REENTERED: map<string, RunningEntry> := map["A" := FIRST.(cancelled := 1)]

  const ENDED := Holding(0, map["A" := FIRST], {"A"}, map[], map[0 := Worker(A, None, Wrapping(false, "", false))], 1, Ticking)
  const QUEUED := Holding(0, map[], {"A"}, map["A" := FAILED], map[], 1, Ticking)
  const SNAPPED := Holding(10000, map[], {"A"}, map["A" := FAILED], map[], 1, Retrying([("A", FAILED)], None))
  const DELETED := Holding(10000, map[], {}, map[], map[], 1, Retrying([("A", FAILED)], None))
  const FLYING := Holding(10000, map[], {}, map[], map[], 1, Retrying([], Some(("A", FAILED))))
  const UNCLAIMED := Holding(10000, map[], {}, map["A" := AGAIN], map[], 1, Ticking)
  const BOTH := Holding(10000, REENTERED, {"A"}, map["A" := AGAIN], FIRST_TURN, 2, Ticking)
  const BOTH_DUE := Holding(30000, REENTERED, {"A"}, map["A" := AGAIN], FIRST_TURN, 2, Ticking)
  const BOTH_SNAPPED := Holding(30000, REENTERED, {"A"}, map["A" := AGAIN], FIRST_TURN, 2, Retrying([("A", AGAIN)], None))
  const BOTH_FLYING := Holding(30000, REENTERED, {"A"}, map[], FIRST_TURN, 2, Retrying([], Some(("A", AGAIN))))
  const CLOBBERED :=
    Holding(30000, map["A" := RunningEntry(A, None, Some(2), 0, 2, 0)], {"A"}, map[],
            map[1 := TURNING, 2 := Worker(A, Some(2), Turning)], 3, Ticking)

  const TO_QUEUED := [Dispatch(C, NO_LIMITS, A)] + [Finish(0, false, "")] + [Exit(C, 0)]
  const TO_UNCLAIMED :=
    TO_QUEUED + [Elapse(10000)] + [Snapshot(10000, [("A", FAILED)])] + [Delete("A")] + [Pop] + [Resolve(C, 10000, None)]
  const TO_CLOBBERED :=
    TO_UNCLAIMED + [Dispatch(C, NO_LIMITS, A)] + [Elapse(20000)] + [Snapshot(30000, [("A", AGAIN)])] + [Pop]
    + [Resolve(C, 30000, Some([A]))]

  lemma FailA()
    ensures Apply(DISPATCHED, Finish(0, false, "")) == ENDED && Apply(ENDED, Exit(C, 0)) == QUEUED
  {
    assert Pow2(0) == 1;
    assert ENDED.st.running - {"A"} == map[] && ENDED.workers - {0} == map[];
  }

  lemma ReachesQueued()
    ensures Reaches(TO_QUEUED, QUEUED)
  {
    DispatchA();
    FailA();
    Then([Dispatch(C, NO_LIMITS, A)], DISPATCHED, Finish(0, false, ""), ENDED);
    Then([Dispatch(C, NO_LIMITS, A)] + [Finish(0, false, "")], ENDED, Exit(C, 0), QUEUED);
  }

  lemma DeleteA()
    ensures Apply(SNAPPED, Delete("A")) == DELETED && Apply(DELETED, Pop) == FLYING
  {
    assert SNAPPED.st.retries - {"A"} == map[] && SNAPPED.st.claimed - {"A"} == {};
    assert DELETED.st.retries - {"A"} == map[] && DELETED.control.pending[1..] == [];
  }

  lemma PollFails()
    ensures Apply(FLYING, Resolve(C, 10000, None)) == UNCLAIMED
  {
    assert Pow2(1) == 2 * Pow2(0) == 2;
  }

  lemma ReachesUnclaimed()
    ensures Reaches(TO_UNCLAIMED, UNCLAIMED)
  {
    ReachesQueued();
    var due := QUEUED.(clock := 10000);
    Then(TO_QUEUED, QUEUED, Elapse(10000), due);
    ListsOne(due, FAILED);
    Then(TO_QUEUED + [Elapse(10000)], due, Snapshot(10000, [("A", FAILED)]), SNAPPED);
    var steps := TO_QUEUED + [Elapse(10000)] + [Snapshot(10000, [("A", FAILED)])];
    DeleteA();
    PollFails();
    Then(steps, SNAPPED, Delete("A"), DELETED);
    Then(steps + [Delete("A")], DELETED, Pop, FLYING);
    Then(steps + [Delete("A")] + [Pop], FLYING, Resolve(C, 10000, None), UNCLAIMED);
  }

  lemma RedispatchA()
    ensures Enabled(UNCLAIMED, Dispatch(C, NO_LIMITS, A)) && Starts(UNCLAIMED, Dispatch(C, NO_LIMITS, A), "A")
    ensures Apply(UNCLAIMED, Dispatch(C, NO_LIMITS, A)) == BOTH
  {
    StatesOfC();
    assert UNCLAIMED.st.RunningIn("a") == {};
  }

  /** An operator's delete between the snapshot and the pop is undone by the requeue, which restores the retry
      without its claim, so the next tick may run the issue while it is still queued. */
  lemma RacingDeleteLosesClaim()
    ensures Reaches(TO_UNCLAIMED, UNCLAIMED)
    ensures Queued(UNCLAIMED, "A") && "A" !in UNCLAIMED.st.claimed
    ensures Enabled(UNCLAIMED, Dispatch(C, NO_LIMITS, A)) && Starts(UNCLAIMED, Dispatch(C, NO_LIMITS, A), "A")
  {
    ReachesUnclaimed();
    RedispatchA();
  }

  lemma ClobberA()
    ensures Apply(BOTH_SNAPPED, Pop) == BOTH_FLYING
    ensures Clobbers(BOTH_FLYING, Resolve(C, 30000, Some([A])))
    ensures Apply(BOTH_FLYING, Resolve(C, 30000, Some([A]))) == CLOBBERED
  {
    StatesOfC();
    assert BOTH_SNAPPED.st.retries - {"A"} == map[] && BOTH_SNAPPED.control.pending[1..] == [];
    assert Find([A], "A") == Some(A);
    assert BOTH_FLYING.st.running.Keys == {"A"};
  }

  lemma ReachesClobbered()
    ensures Reaches(TO_CLOBBERED, CLOBBERED)
  {
    ReachesUnclaimed();
    RedispatchA();
    Then(TO_UNCLAIMED, UNCLAIMED, Dispatch(C, NO_LIMITS, A), BOTH);
    var steps := TO_UNCLAIMED + [Dispatch(C, NO_LIMITS, A)];
    Then(steps, BOTH, Elapse(20000), BOTH_DUE);
    ListsOne(BOTH_DUE, AGAIN);
    Then(steps + [Elapse(20000)], BOTH_DUE, Snapshot(30000, [("A", AGAIN)]), BOTH_SNAPPED);
    ClobberA();
    var listed := steps + [Elapse(20000)] + [Snapshot(30000, [("A", AGAIN)])];
    Then(listed, BOTH_SNAPPED, Pop, BOTH_FLYING);
    Then(listed + [Pop], BOTH_FLYING, Resolve(C, 30000, Some([A])), CLOBBERED);
  }

  predicate NoneEvicts(steps: seq<Step>) {
    forall step :: step in steps ==> !step.Stall? && !step.Refresh?
  }

  lemma NoEviction()
    ensures NoneEvicts(TO_CLOBBERED)
  {
    assert NoneEvicts(TO_QUEUED);
    assert NoneEvicts(TO_UNCLAIMED);
  }

  /** The same run continued, with no stall and no inactive release: the tick runs the issue, its retry comes due, and
      the retry pass starts a second worker over the entry of the first. */
  lemma RacingDeleteDoublesWorkers()
    ensures Reaches(TO_CLOBBERED, CLOBBERED) && NoneEvicts(TO_CLOBBERED)
    ensures CLOBBERED.workers[1].issue == CLOBBERED.workers[2].issue == A && !Owned(CLOBBERED)
  {
    ReachesClobbered();
    NoEviction();
    assert !Exclusive(CLOBBERED, 1);
  }

  // ---- An inactive refresh ----

  const RELEASED := Holding(0, map[], {}, map[], map[0 := TURNING], 1, Ticking).(raised := {0})
  const RESTARTED :=
    Holding(0, map["A" := FIRST.(cancelled := 1)], {"A"}, map[], map[0 := TURNING, 1 := TURNING], 2, Ticking).(raised := {0})

  lemma ReleaseA()
    ensures Apply(DISPATCHED, Refresh(C, A.(state := "x"))) == RELEASED
    ensures Enabled(RELEASED, Dispatch(C, NO_LIMITS, A)) && Apply(RELEASED, Dispatch(C, NO_LIMITS, A)) == RESTARTED
  {
    StatesOfC();
    assert DISPATCHED.st.running - {"A"} == map[] && DISPATCHED.st.claimed - {"A"} == {};
    assert RELEASED.st.RunningIn("a") == {};
  }

  /** A refresh to a state neither active nor terminal frees the issue while its worker is still winding down;
      once the issue is active again a second worker joins it. */
  lemma InactiveReleaseDoublesWorkers()
    ensures Reaches([Dispatch(C, NO_LIMITS, A)] + [Refresh(C, A.(state := "x"))] + [Dispatch(C, NO_LIMITS, A)], RESTARTED)
    ensures RESTARTED.workers[0].issue == RESTARTED.workers[1].issue == A
  {
    DispatchA();
    ReleaseA();
    StatesOfC();
    Then([Dispatch(C, NO_LIMITS, A)], DISPATCHED, Refresh(C, A.(state := "x")), RELEASED);
    Then([Dispatch(C, NO_LIMITS, A)] + [Refresh(C, A.(state := "x"))], RELEASED, Dispatch(C, NO_LIMITS, A), RESTARTED);
  }

  // ---- A state limit ----

  const ONE_B: map<string, nat> := map["b" := 1]
  const ENTRY_B := RunningEntry(B, None, None, 0, 1, 0)
  const PAIR :=
    Holding(0, map["A" := FIRST, "B" := ENTRY_B], {"A", "B"}, map[], map[0 := TURNING, 1 := Worker(B, None, Turning)], 2, Ticking)
  const MOVED :=
    Holding(0, map["A" := FIRST.(issue := A.(state := "b")), "B" := ENTRY_B], {"A", "B"}, map[],
            map[0 := TURNING, 1 := Worker(B, None, Turning)], 2, Ticking)

  lemma DispatchB()
    ensures Enabled(DISPATCHED, Dispatch(C, ONE_B, B)) && Apply(DISPATCHED, Dispatch(C, ONE_B, B)) == PAIR
  {
    StatesOfC();
    assert DISPATCHED.st.RunningIn("b") == {};
    assert DISPATCHED.st.running.Keys == {"A"};
  }

  lemma MoveA()
    ensures Apply(PAIR, Refresh(C, A.(state := "b"))) == MOVED
  {
    StatesOfC();
  }

  lemma TwoInB()
    ensures MOVED.st.CountRunningByState("b") == 2 && MOVED.st.StateLimit(ONE_B, "b") == 1
  {
    assert Lower("b") == "b";
    assert MOVED.st.RunningIn("b") == {"A", "B"};
  }

  /** The limit of a state is checked on admission only: state "b" admits one, and then a refresh moves another
      running issue into it. */
  lemma RefreshExceedsStateLimit()
    ensures Reaches([Dispatch(C, NO_LIMITS, A)] + [Dispatch(C, ONE_B, B)] + [Refresh(C, A.(state := "b"))], MOVED)
    ensures MOVED.st.CountRunningByState("b") == 2 > MOVED.st.StateLimit(ONE_B, "b")
  {
    DispatchA();
    DispatchB();
    MoveA();
    Then([Dispatch(C, NO_LIMITS, A)], DISPATCHED, Dispatch(C, ONE_B, B), PAIR);
    Then([Dispatch(C, NO_LIMITS, A)] + [Dispatch(C, ONE_B, B)], PAIR, Refresh(C, A.(state := "b")), MOVED);
    TwoInB();
  }

  const B_TURN := Worker(B, None, Turning)
  const A_IN_B := A.(state := "b")
  const FULL := Holding(0, map["B" := ENTRY_B], {"A", "B"}, map["A" := FAILED], map[1 := B_TURN], 2, Ticking)
  const FULL_SNAPPED :=
    Holding(10000, map["B" := ENTRY_B], {"A", "B"}, map["A" := FAILED], map[1 := B_TURN], 2, Retrying([("A", FAILED)], None))
  const FULL_FLYING :=
    Holding(10000, map["B" := ENTRY_B], {"A", "B"}, map[], map[1 := B_TURN], 2, Retrying([], Some(("A", FAILED))))
  const OVERFULL :=
    Holding(10000, map["B" := ENTRY_B, "A" := RunningEntry(A_IN_B, None, Some(1), 0, 2, 0)], {"A", "B"}, map[],
            map[1 := B_TURN, 2 := Worker(A_IN_B, Some(1), Turning)], 3, Ticking)

  lemma FillB()
    ensures Enabled(QUEUED, Dispatch(C, ONE_B, B)) && Apply(QUEUED, Dispatch(C, ONE_B, B)) == FULL
  {
    StatesOfC();
    assert QUEUED.st.RunningIn("b") == {};
  }

  lemma RetryIntoB()
    ensures Apply(FULL_SNAPPED, Pop) == FULL_FLYING
    ensures Apply(FULL_FLYING, Resolve(C, 10000, Some([A_IN_B]))) == OVERFULL
  {
    StatesOfC();
    assert FULL_SNAPPED.st.retries - {"A"} == map[] && FULL_SNAPPED.control.pending[1..] == [];
    assert Find([A_IN_B], "A") == Some(A_IN_B);
    assert FULL_FLYING.st.running.Keys == {"B"};
  }

  lemma TwoRetriedInB()
    ensures OVERFULL.st.CountRunningByState("b") == 2 && OVERFULL.st.StateLimit(ONE_B, "b") == 1
  {
    assert Lower("b") == "b";
    assert OVERFULL.st.RunningIn("b") == {"A", "B"};
  }

  /** A retry does not look at the limit of its issue's state either. */
  lemma RetryExceedsStateLimit()
    ensures Reaches(TO_QUEUED + [Dispatch(C, ONE_B, B)] + [Elapse(10000)] + [Snapshot(10000, [("A", FAILED)])] + [Pop]
                    + [Resolve(C, 10000, Some([A_IN_B]))], OVERFULL)
    ensures OVERFULL.st.CountRunningByState("b") == 2 > OVERFULL.st.StateLimit(ONE_B, "b")
  {
    ReachesQueued();
    FillB();
    Then(TO_QUEUED, QUEUED, Dispatch(C, ONE_B, B), FULL);
    var steps, due := TO_QUEUED + [Dispatch(C, ONE_B, B)], FULL.(clock := 10000);
    Then(steps, FULL, Elapse(10000), due);
    ListsOne(due, FAILED);
    Then(steps + [Elapse(10000)], due, Snapshot(10000, [("A", FAILED)]), FULL_SNAPPED);
    var listed := steps + [Elapse(10000)] + [Snapshot(10000, [("A", FAILED)])];
    RetryIntoB();
    Then(listed, FULL_SNAPPED, Pop, FULL_FLYING);
    Then(listed + [Pop], FULL_FLYING, Resolve(C, 10000, Some([A_IN_B])), OVERFULL);
    TwoRetriedInB();
  }
}
