/** The turn loop of a worker run, with its three competing stop rules. What the loop meets outside itself -
    the cancellation cell, the turn, the tracker and its entry in `running` - is an observation per turn. */
module Worker {
  import opened Prelude

  datatype TurnEnd = Succeeded | NotSucceeded

  datatype Refresh = FetchFailed | Nothing | Seen(state: string)

  /** Observed around one turn: the cell before it, how the turn and its verifications ended, the refreshed
      state, and the stagnation counter of the running entry, if there is one, when the loop comes to update it. */
  datatype Observation = Observation(cancelled: bool, turn: TurnEnd, verified: bool, refresh: Refresh, counter: Option<nat>)

  /** What the configuration fixes for a run: the lower-cased state lists, the turn caps of states, the turn limit. */
  datatype Limits = Limits(active: seq<string>, terminal: seq<string>, caps: map<string, nat>, maxTurns: nat) {
    predicate Workable(state: string) {
      state in active && state !in terminal
    }
  }

  type Environment = nat -> Observation

  datatype Stop = Cancelled | TurnFailed | VerificationFailed | RefreshFailed | LeftActive | Stagnant | StateCap | TurnCap

  const STAGNATION_LIMIT: nat := 3

  /** The state the loop goes on with: it follows the tracker only while the entry exists. */
  function StateAfter(o: Observation, state: string): string {
    if o.refresh.Seen? && o.counter.Some? && Lower(o.refresh.state) != Lower(state) then o.refresh.state else state
  }

  /** `issue.state` after `n` turns. */
  function IssueState(env: Environment, initial: string, n: nat): string {
    if n == 0 then initial else StateAfter(env(n), IssueState(env, initial, n - 1))
  }

  /** Why the loop stops with turn `n`, if it does; the state is the one before the turn. */
  function Verdict(o: Observation, n: nat, state: string, l: Limits): Option<Stop> {
    if o.cancelled then Some(Cancelled)
    else if o.turn.NotSucceeded? then Some(TurnFailed)
    else if !o.verified then Some(VerificationFailed)
    else match o.refresh
      case FetchFailed => Some(RefreshFailed)
      case Nothing => if n >= l.maxTurns then Some(TurnCap) else None
      case Seen(next) =>
        if !l.Workable(Lower(next)) then Some(LeftActive)
        else if Lower(next) == Lower(state) && o.counter.Some? && o.counter.value + 1 >= STAGNATION_LIMIT then Some(Stagnant)
        else if Lower(next) in l.caps && n >= l.caps[Lower(next)] then Some(StateCap)
        else if n >= l.maxTurns then Some(TurnCap)
        else None
  }

  /** The loop goes on after turn `n`. */
  predicate GoesOn(env: Environment, n: nat, initial: string, l: Limits) {
    n >= 1 && Verdict(env(n), n, IssueState(env, initial, n - 1), l).None?
  }

  /** The state the tracker last reported within the first `n` turns. */
  function LastSeen(env: Environment, initial: string, n: nat): string {
    if n == 0 then initial
    else if env(n).refresh.Seen? then env(n).refresh.state
    else LastSeen(env, initial, n - 1)
  }

  predicate Changed(env: Environment, initial: string, n: nat) {
    n >= 1 && env(n).refresh.Seen? && Lower(env(n).refresh.state) != Lower(LastSeen(env, initial, n - 1))
  }

  /** State changes observed in the first `n` turns. */
  function Changes(env: Environment, initial: string, n: nat): nat {
    if n == 0 then 0 else Changes(env, initial, n - 1) + if Changed(env, initial, n) then 1 else 0
  }

  /** Refreshes among the first `n` that returned nothing. */
  function Empties(env: Environment, n: nat): nat {
    if n == 0 then 0 else Empties(env, n - 1) + if env(n).refresh.Nothing? then 1 else 0
  }

  /** What this loop alone writes to the counter over `n` turns. */
  function Counter(env: Environment, initial: string, n: nat): nat {
    if n == 0 then 0
    else if !env(n).refresh.Seen? then Counter(env, initial, n - 1)
    else if Changed(env, initial, n) then 0
    else Counter(env, initial, n - 1) + 1
  }

  /** After turn `n` the loop finds the entry with the counter as it left it. */
  predicate FindsOwn(env: Environment, initial: string, n: nat) {
    n >= 1 && env(n).counter == Some(Counter(env, initial, n - 1))
  }

  /** For `n` turns the entry was in `running` and nobody else wrote its counter. */
  ghost predicate OwnsEntry(env: Environment, initial: string, n: nat) {
    forall i :: 1 <= i <= n ==> FindsOwn(env, initial, i)
  }

  lemma {:induction false} StateFollowsTracker(env: Environment, initial: string, n: nat)
    requires OwnsEntry(env, initial, n)
    ensures Lower(IssueState(env, initial, n)) == Lower(LastSeen(env, initial, n))
  {
    if n > 0 {
      StateFollowsTracker(env, initial, n - 1);
      assert FindsOwn(env, initial, n);
    }
  }

  /** A turn the loop survives refreshed without error, and did not fill the counter. */
  lemma SurvivedTurn(env: Environment, n: nat, initial: string, l: Limits)
    requires GoesOn(env, n, initial, l)
    ensures n < l.maxTurns && !env(n).cancelled && !env(n).refresh.FetchFailed?
    ensures env(n).refresh.Seen? ==>
              && (Lower(env(n).refresh.state) in l.caps ==> n < l.caps[Lower(env(n).refresh.state)])
              && (Lower(env(n).refresh.state) == Lower(IssueState(env, initial, n - 1)) && env(n).counter.Some? ==>
                    env(n).counter.value + 1 < STAGNATION_LIMIT)
  {
  }

  /** `n` turns after which the loop went on are paid for: three for each change, one for each empty refresh,
      and what stands on the counter, which is at most two. */
  lemma {:induction false} TurnsArePaidFor(env: Environment, initial: string, n: nat, l: Limits)
    requires OwnsEntry(env, initial, n)
    requires forall i :: 1 <= i <= n ==> GoesOn(env, i, initial, l)
    ensures n <= 3 * Changes(env, initial, n) + Empties(env, n) + Counter(env, initial, n)
    ensures Counter(env, initial, n) <= STAGNATION_LIMIT - 1
  {
    if n > 0 {
      TurnsArePaidFor(env, initial, n - 1, l);
      StateFollowsTracker(env, initial, n - 1);
      SurvivedTurn(env, n, initial, l);
      assert FindsOwn(env, initial, n);
    }
  }

  /** The loop's exit: it went on after each of the first turns, and this is the verdict that stopped it. */
  ghost predicate StopsAt(env: Environment, initial: string, l: Limits, turns: nat, why: Stop) {
    var survived := if why == Cancelled then turns else turns - 1;
    && survived >= 0
    && (forall i :: 1 <= i <= survived ==> GoesOn(env, i, initial, l))
    && Verdict(env(survived + 1), survived + 1, IssueState(env, initial, survived), l) == Some(why)
  }

  /** The turn ended well and its refresh did not fail. */
  predicate Clean(o: Observation) {
    !o.cancelled && o.turn == Succeeded && o.verified && o.refresh != FetchFailed
  }

  predicate SeesDone(o: Observation, l: Limits) {
    o.refresh.Seen? && (Lower(o.refresh.state) in l.terminal || Lower(o.refresh.state) !in l.active)
  }

  /** The refreshed state is the one before the turn, for the third time in a row. */
  predicate SeesStagnation(o: Observation, state: string) {
    o.refresh.Seen? && Lower(o.refresh.state) == Lower(state) && o.counter.Some? && o.counter.value + 1 >= 3
  }

  predicate SeesStateCap(o: Observation, n: nat, l: Limits) {
    o.refresh.Seen? && Lower(o.refresh.state) in l.caps && n >= l.caps[Lower(o.refresh.state)]
  }

  /** The loop goes on after turn `n` if the turn was clean, the tracker reported nothing or an active and not terminal state
      that is neither stagnant nor at its cap, and turns are left. */
  predicate Continues(o: Observation, n: nat, state: string, l: Limits) {
    Clean(o) && !SeesDone(o, l) && !SeesStagnation(o, state) && !SeesStateCap(o, n, l) && n < l.maxTurns
  }

  /** When each reason is the one that stops the loop at turn `n`. */
  predicate StopsFor(why: Stop, o: Observation, n: nat, state: string, l: Limits) {
    && (why == Cancelled <==> o.cancelled)
    && (why == TurnFailed <==> !o.cancelled && o.turn == NotSucceeded)
    && (why == VerificationFailed <==> !o.cancelled && o.turn == Succeeded && !o.verified)
    && (why == RefreshFailed <==> !o.cancelled && o.turn == Succeeded && o.verified && o.refresh == FetchFailed)
    && (why == LeftActive <==> Clean(o) && SeesDone(o, l))
    && (why == Stagnant <==> Clean(o) && !SeesDone(o, l) && SeesStagnation(o, state))
    && (why == StateCap <==> Clean(o) && !SeesDone(o, l) && !SeesStagnation(o, state) && SeesStateCap(o, n, l))
    && (why == TurnCap <==>
          Clean(o) && !SeesDone(o, l) && !SeesStagnation(o, state) && !SeesStateCap(o, n, l) && n >= l.maxTurns)
  }

  lemma VerdictExactly(o: Observation, n: nat, state: string, l: Limits)
    ensures Verdict(o, n, state, l).None? <==> Continues(o, n, state, l)
    ensures Verdict(o, n, state, l).Some? ==> StopsFor(Verdict(o, n, state, l).value, o, n, state, l)
  {
  }

  predicate ContinuesAt(env: Environment, initial: string, l: Limits, i: int) {
    i >= 1 && Continues(env(i), i, IssueState(env, initial, i - 1), l)
  }

  predicate StopsForAt(env: Environment, initial: string, l: Limits, n: nat, why: Stop) {
    StopsFor(why, env(n + 1), n + 1, IssueState(env, initial, n), l)
  }

  /** The turns of a finished run: it went on after each but the last, and stopped at that one for its reason. The turn the
      cell is found set before is not taken. */
  ghost predicate Explained(env: Environment, initial: string, l: Limits, turns: nat, why: Stop) {
    && (why != Cancelled ==> turns >= 1)
    && var survived := if why == Cancelled then turns else turns - 1;
       (forall i :: 1 <= i <= survived ==> ContinuesAt(env, initial, l, i)) && StopsForAt(env, initial, l, survived, why)
  }

  lemma WentOn(env: Environment, initial: string, l: Limits, i: nat)
    requires GoesOn(env, i, initial, l)
    ensures ContinuesAt(env, initial, l, i)
  {
    VerdictExactly(env(i), i, IssueState(env, initial, i - 1), l);
  }

  lemma StoppedFor(env: Environment, initial: string, l: Limits, n: nat, why: Stop)
    requires Verdict(env(n + 1), n + 1, IssueState(env, initial, n), l) == Some(why)
    ensures StopsForAt(env, initial, l, n, why)
  {
    VerdictExactly(env(n + 1), n + 1, IssueState(env, initial, n), l);
  }

  lemma StopIsExplained(env: Environment, initial: string, l: Limits, turns: nat, why: Stop)
    requires StopsAt(env, initial, l, turns, why)
    ensures Explained(env, initial, l, turns, why)
  {
    var survived := if why == Cancelled then turns else turns - 1;
    StoppedFor(env, initial, l, survived, why);
    forall i | 1 <= i <= survived ensures ContinuesAt(env, initial, l, i) {
      WentOn(env, initial, l, i);
    }
  }

  /** The state the loop compares with: a refresh to another state replaces it if the entry is still there. */
  lemma IssueStateExactly(env: Environment, initial: string, n: nat)
    ensures IssueState(env, initial, 0) == initial
    ensures env(n + 1).refresh.Seen? && env(n + 1).counter.Some? ==>
              Lower(IssueState(env, initial, n + 1)) == Lower(env(n + 1).refresh.state)
    ensures !env(n + 1).refresh.Seen? || env(n + 1).counter.None? ==>
              IssueState(env, initial, n + 1) == IssueState(env, initial, n)
  {
  }

  /** A run never takes more than `maxTurns` turns (one, should the limit be 0). While its entry stays in `running` and is
      its own it takes at most three for each stretch without a change, plus one for each empty refresh. And no turn
      begins after a refresh to a state whose cap is at or below the turns already taken. */
  lemma RunIsBounded(env: Environment, initial: string, l: Limits, turns: nat, why: Stop)
    requires StopsAt(env, initial, l, turns, why)
    ensures turns <= Max(l.maxTurns, 1)
    ensures var survived := if why == Cancelled then turns else turns - 1;
            OwnsEntry(env, initial, survived) ==>
              turns <= 3 * (Changes(env, initial, survived) + 1) + Empties(env, survived)
    ensures forall i :: 1 <= i < turns && env(i).refresh.Seen? && Lower(env(i).refresh.state) in l.caps ==>
              i < l.caps[Lower(env(i).refresh.state)]
  {
    var survived := if why == Cancelled then turns else turns - 1;
    if survived > 0 {
      SurvivedTurn(env, survived, initial, l);
    }
    if OwnsEntry(env, initial, survived) {
      TurnsArePaidFor(env, initial, survived, l);
    }
    forall i | 1 <= i < turns && env(i).refresh.Seen? && Lower(env(i).refresh.state) in l.caps
      ensures i < l.caps[Lower(env(i).refresh.state)]
    {
      SurvivedTurn(env, i, initial, l);
    }
  }

  /** Turn `n` of the loop, once the cell was found clear. */
  method TakeTurn(o: Observation, n: nat, before: string, l: Limits) returns (stop: Option<Stop>, state: string)
    requires !o.cancelled
    ensures stop == Verdict(o, n, before, l)
    ensures stop.None? ==> state == StateAfter(o, before)
  {
    stop, state := None, before;
    if o.turn.NotSucceeded? {
      return Some(TurnFailed), state;
    }
    if !o.verified {
      return Some(VerificationFailed), state;
    }
    if o.refresh.FetchFailed? {
      return Some(RefreshFailed), state;
    }
    if o.refresh.Seen? {
      var next := Lower(o.refresh.state);
      if !l.Workable(next) {
        return Some(LeftActive), state;
      }
      if o.counter.Some? {
        if next != Lower(state) {
          state := o.refresh.state;
        } else if o.counter.value + 1 >= STAGNATION_LIMIT {
          return Some(Stagnant), state;
        }
      }
      if next in l.caps && n >= l.caps[next] {
        return Some(StateCap), state;
      }
    }
    if n >= l.maxTurns {
      stop := Some(TurnCap);
    }
  }

  /** The loop of `run_worker`: `turns` were taken, and `why` stopped it. */
  method RunTurns(env: Environment, initial: string, l: Limits) returns (turns: nat, why: Stop)
    ensures StopsAt(env, initial, l, turns, why)
    ensures Explained(env, initial, l, turns, why)
  {
    turns := 0;
    var state := initial;
    while true
      invariant turns < Max(l.maxTurns, 1)
      invariant state == IssueState(env, initial, turns)
      invariant forall i :: 1 <= i <= turns ==> GoesOn(env, i, initial, l)
      decreases Max(l.maxTurns, 1) - turns
    {
      var o := env(turns + 1);
      if o.cancelled {
        why := Cancelled;
        break;
      }
      var stop: Option<Stop>;
      stop, state := TakeTurn(o, turns + 1, state, l);
      turns := turns + 1;
      if stop.Some? {
        why := stop.value;
        break;
      }
    }
    StopIsExplained(env, initial, l, turns, why);
  }
}
