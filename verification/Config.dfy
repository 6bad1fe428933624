/** The clamped limits of `ServiceConfig`, over the raw numbers and lists of the workflow file. */
module Config {
  import opened Prelude

  const TWO_TO_THE_32: int := 0x1_0000_0000
  const TWO_TO_THE_63: int := 0x8000_0000_0000_0000
  const TWO_TO_THE_64: int := 0x1_0000_0000_0000_0000

  type i64 = x: int | -TWO_TO_THE_63 <= x < TWO_TO_THE_63
  type u32 = x: int | 0 <= x < TWO_TO_THE_32

  /** Rust's `as u32` on an `i64`: the low 32 bits. */
  function AsU32(x: i64): u32 {
    x % TWO_TO_THE_32
  }

  /** The part of the workflow file's settings the scheduler reads. `None` is a missing key. */
  datatype Settings = Settings(
    activeStates: Option<seq<string>>,
    terminalStates: Option<seq<string>>,
    maxConcurrentAgents: Option<i64>,
    maxTurns: Option<i64>,
    maxRetryBackoffMs: Option<i64>,
    maxRetryAttempts: Option<i64>)
  {
    function ActiveStates(): seq<string> {
      LowerAll(activeStates.GetOr(["Todo", "In Progress"]))
    }

    function TerminalStates(): seq<string> {
      LowerAll(terminalStates.GetOr(["Closed", "Cancelled", "Canceled", "Duplicate", "Done"]))
    }

    function MaxConcurrentAgents(): nat {
      Max(maxConcurrentAgents.GetOr(10), 1)
    }

    function MaxTurns(): u32 {
      AsU32(Max(maxTurns.GetOr(20), 1))
    }

    function MaxRetryBackoffMs(): (r: nat) {
      Max(maxRetryBackoffMs.GetOr(300000), 1000)
    }

    function MaxRetryAttempts(): u32 {
      AsU32(Max(maxRetryAttempts.GetOr(5), 1))
    }

    /** Whether an issue in this state may have a worker. */
    predicate Workable(state: string) {
      Lower(state) in ActiveStates() && Lower(state) !in TerminalStates()
    }
  }

  function LowerAll(names: seq<string>): seq<string> {
    seq(|names|, i requires 0 <= i < |names| => Lower(names[i]))
  }

  /** The clamp runs before the cast, so a limit can still come out as 0:
      exactly when the configured number is a positive multiple of 2^32. */
  lemma ClampedLimitCanBeZero(c: Settings)
    ensures c.MaxTurns() == 0 <==> c.maxTurns.Some? && c.maxTurns.value > 0 && c.maxTurns.value % TWO_TO_THE_32 == 0
    ensures c.MaxRetryAttempts() == 0 <==>
            c.maxRetryAttempts.Some? && c.maxRetryAttempts.value > 0 && c.maxRetryAttempts.value % TWO_TO_THE_32 == 0
  {
  }

  /** Membership in a lower-cased list: some configured name differs in case only. */
  lemma InLowerAll(names: seq<string>, name: string)
    ensures name in LowerAll(names) <==> exists i :: 0 <= i < |names| && Lower(names[i]) == name
  {
    assert |LowerAll(names)| == |names|;
    assert forall i :: 0 <= i < |names| ==> LowerAll(names)[i] == Lower(names[i]);
  }

  lemma DefaultStates()
    ensures LowerAll(["Todo", "In Progress"]) == ["todo", "in progress"]
    ensures LowerAll(["Closed", "Cancelled", "Canceled", "Duplicate", "Done"])
            == ["closed", "cancelled", "canceled", "duplicate", "done"]
  {
    assert Lower("Todo") == "todo" && Lower("In Progress") == "in progress";
    assert Lower("Closed") == "closed" && Lower("Cancelled") == "cancelled" && Lower("Canceled") == "canceled";
    assert Lower("Duplicate") == "duplicate" && Lower("Done") == "done";
  }

  /** A missing key has its default; a number is raised to its floor, and an attempt or turn limit keeps its low 32 bits. */
  lemma SettingsExactly(c: Settings)
    ensures c.maxConcurrentAgents.None? ==> c.MaxConcurrentAgents() == 10
    ensures c.maxTurns.None? ==> c.MaxTurns() == 20
    ensures c.maxRetryAttempts.None? ==> c.MaxRetryAttempts() == 5
    ensures c.maxRetryBackoffMs.None? ==> c.MaxRetryBackoffMs() == 300000
    ensures c.maxConcurrentAgents.Some? ==>
              c.MaxConcurrentAgents() == if c.maxConcurrentAgents.value < 1 then 1 else c.maxConcurrentAgents.value
    ensures c.maxRetryBackoffMs.Some? ==>
              c.MaxRetryBackoffMs() == if c.maxRetryBackoffMs.value < 1000 then 1000 else c.maxRetryBackoffMs.value
    ensures c.maxTurns.Some? ==>
              if c.maxTurns.value < 1 then c.MaxTurns() == 1
              else exists k :: c.maxTurns.value == k * 0x1_0000_0000 + c.MaxTurns()
    ensures c.maxRetryAttempts.Some? ==>
              if c.maxRetryAttempts.value < 1 then c.MaxRetryAttempts() == 1
              else exists k :: c.maxRetryAttempts.value == k * 0x1_0000_0000 + c.MaxRetryAttempts()
    ensures c.activeStates.None? ==> c.ActiveStates() == ["todo", "in progress"]
    ensures c.terminalStates.None? ==> c.TerminalStates() == ["closed", "cancelled", "canceled", "duplicate", "done"]
    ensures forall name :: c.activeStates.Some? ==>
              (name in c.ActiveStates() <==> exists i :: 0 <= i < |c.activeStates.value| && Lower(c.activeStates.value[i]) == name)
    ensures forall name :: c.terminalStates.Some? ==>
              (name in c.TerminalStates() <==> exists i :: 0 <= i < |c.terminalStates.value| && Lower(c.terminalStates.value[i]) == name)
  {
    DefaultStates();
    if c.maxTurns.Some? && c.maxTurns.value >= 1 {
      LowBits(c.maxTurns.value);
    }
    if c.maxRetryAttempts.Some? && c.maxRetryAttempts.value >= 1 {
      LowBits(c.maxRetryAttempts.value);
    }
    forall name ensures name in c.ActiveStates() <==>
      exists i :: 0 <= i < |c.activeStates.GetOr(["Todo", "In Progress"])| && Lower(c.activeStates.GetOr(["Todo", "In Progress"])[i]) == name
    {
      InLowerAll(c.activeStates.GetOr(["Todo", "In Progress"]), name);
    }
    var defaults := ["Closed", "Cancelled", "Canceled", "Duplicate", "Done"];
    forall name ensures name in c.TerminalStates() <==>
      exists i :: 0 <= i < |c.terminalStates.GetOr(defaults)| && Lower(c.terminalStates.GetOr(defaults)[i]) == name
    {
      InLowerAll(c.terminalStates.GetOr(defaults), name);
    }
  }

  lemma LowBits(x: i64)
    requires x >= 1
    ensures exists k :: x == k * 0x1_0000_0000 + AsU32(x)
  {
    assert x == x / 0x1_0000_0000 * 0x1_0000_0000 + AsU32(x);
  }

  /** Entry `i` of the raw map sets the limit of the lower-cased state `key`. */
  predicate SetsLimit(entries: seq<(string, Option<i64>)>, key: string, i: int) {
    0 <= i < |entries| && Lower(entries[i].0) == key && entries[i].1.Some? && entries[i].1.value > 0
  }

  /** Entry `i` is the last one that sets the limit of `key`. */
  ghost predicate LastSetter(entries: seq<(string, Option<i64>)>, key: string, i: int) {
    SetsLimit(entries, key, i) && forall j :: i < j < |entries| ==> !SetsLimit(entries, key, j)
  }

  /** Only positive integer entries count, and of two keys that differ only in case the last one wins. */
  method MaxConcurrentAgentsByState(entries: seq<(string, Option<i64>)>) returns (limits: map<string, nat>)
    ensures forall key :: key in limits <==> exists i :: SetsLimit(entries, key, i)
    ensures forall key, i :: LastSetter(entries, key, i) ==> key in limits && limits[key] == entries[i].1.value
  {
    limits := map[];
    for n := 0 to |entries|
      invariant forall key :: key in limits <==> exists i :: i < n && SetsLimit(entries, key, i)
      invariant forall key, i :: i < n && SetsLimit(entries, key, i) && (forall j :: i < j < n ==> !SetsLimit(entries, key, j)) ==>
                  key in limits && limits[key] == entries[i].1.value
    {
      var (k, v) := entries[n];
      if v.Some? && v.value > 0 {
        assert SetsLimit(entries, Lower(k), n);
        limits := limits[Lower(k) := v.value];
      }
    }
  }
}
