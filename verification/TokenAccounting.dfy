/** Token totals: cumulative reports turned into deltas, and the fallback to a turn's own usage figure. */
module TokenAccounting {
  import opened Prelude
  import opened OrchestratorState
  import opened World
  import opened Claims
  import opened Ownership
  import opened Folding

  // ---- One lock hold at a time ----

  function SessionOf(st: State, id: string): Option<LiveSession> {
    if id in st.running then st.running[id].session else None
  }

  function LastReported(session: Option<LiveSession>): Usage {
    if session.Some? then session.value.reported else NO_USAGE
  }

  function WithSession(st: State, id: string, session: Option<LiveSession>): State {
    if id in st.running then st.(running := st.running[id := st.running[id].(session := session)]) else st
  }

  function AddTotals(st: State, charge: Usage): State {
    st.(totals := st.totals.Plus(charge))
  }

  /** `StepStart` resets the last report of a session, or opens one. */
  function Opened(session: Option<LiveSession>): LiveSession {
    if session.Some? then session.value.(reported := NO_USAGE) else LiveSession(NO_USAGE, NO_USAGE)
  }

  /** A figure that is both shown and remembered as the last report. */
  function Recorded(session: Option<LiveSession>, u: Usage): Option<LiveSession> {
    if session.Some? then Some(LiveSession(u, u)) else None
  }

  /** The last update of a turn: show its usage; without a session open one that has it reported. */
  function Closed(session: Option<LiveSession>, usage: Option<Usage>): LiveSession {
    match session
    case Some(s) => if usage.Some? then s.(shown := usage.value) else s
    case None => LiveSession(usage.GetOr(NO_USAGE), usage.GetOr(NO_USAGE))
  }

  /** What the task serving one issue does in one lock hold. A report takes two: the deltas are read, then added;
      so does the fallback: the check whether the turn was counted, then the charge. `Vanish` is the one hold that is not the
      task's own: a stall exit or an inactive release takes the entry away, in the middle of whatever the task is doing. */
  datatype Op =
    | StepStart
    | ReadReport(report: Usage)
    | WriteReport(report: Usage)
    | StepFinish(tokens: Option<Usage>)
    | CheckCounted
    | Fallback(usage: Option<Usage>)
    | Close(usage: Option<Usage>)
    | Vanish

  /** The task's own variables between two holds. */
  datatype Locals = Locals(delta: Usage, counted: bool)

  /** Everything of one issue that the token steps touch. */
  datatype Part = Part(running: bool, session: Option<LiveSession>, locals: Locals)

  /** The issue's part after a step. */
  function Next(p: Part, op: Op): Part {
    match op
    case StepStart => if p.running then p.(session := Some(Opened(p.session))) else p
    case ReadReport(report) => p.(locals := p.locals.(delta := report.Since(LastReported(p.session))))
    case WriteReport(report) => p.(session := Recorded(p.session, report))
    case StepFinish(tokens) =>
      if p.session.Some? && tokens.Some? then p.(session := Some(p.session.value.(shown := tokens.value))) else p
    case CheckCounted => p.(locals := p.locals.(counted := LastReported(p.session).total > 0))
    case Fallback(usage) => if !p.locals.counted && usage.Some? then p.(session := Recorded(p.session, usage.value)) else p
    case Close(usage) => if p.running then p.(session := Some(Closed(p.session, usage))) else p
    case Vanish => p.(running := false, session := None)
  }

  /** What a step adds to the totals. */
  function Charge(p: Part, op: Op): Usage {
    match op
    case WriteReport(_) => p.locals.delta
    case Fallback(usage) => if !p.locals.counted then usage.GetOr(NO_USAGE) else NO_USAGE
    case _ => NO_USAGE
  }

  lemma NothingCharged(totals: Usage)
    ensures totals.Plus(NO_USAGE) == totals
  {
  }

  // ---- Interleaving ----

  datatype Ledger = Ledger(st: State, locals: map<string, Locals>)

  function PartOf(l: Ledger, id: string): Part {
    Part(id in l.st.running, SessionOf(l.st, id), if id in l.locals then l.locals[id] else Locals(NO_USAGE, false))
  }

  function Perform(l: Ledger, id: string, op: Op): Ledger {
    var p := PartOf(l, id);
    var p' := Next(p, op);
    var st := if op.Vanish? then l.st.(running := l.st.running - {id}) else WithSession(l.st, id, p'.session);
    Ledger(AddTotals(st, Charge(p, op)), l.locals[id := p'.locals])
  }

  /** One lock hold: a token step of some issue, or somebody else's hold, which leaves the state `next`. */
  datatype Hold = Serve(id: string, op: Op) | Meanwhile(next: State)

  function PerformOne(l: Ledger, hold: Hold): Ledger {
    match hold
    case Serve(id, op) => Perform(l, id, op)
    case Meanwhile(next) => l.(st := next)
  }

  /** Holds of any kind, in the order in which they took the lock. */
  function PerformAll(l: Ledger, holds: seq<Hold>): Ledger {
    Fold(PerformOne, l, holds)
  }

  /** The two states agree on the totals and on the presence and the sessions of these issues. */
  ghost predicate AgreeOn(a: State, b: State, ids: seq<string>) {
    && a.totals == b.totals
    && forall id :: id in ids ==> (id in a.running <==> id in b.running) && SessionOf(a, id) == SessionOf(b, id)
  }

  /** No hold of anybody else touches the accounts of these issues. */
  ghost predicate Calm(l: Ledger, holds: seq<Hold>, ids: seq<string>) {
    holds == [] ||
    var front, last := holds[..|holds| - 1], holds[|holds| - 1];
    Calm(l, front, ids) && (last.Meanwhile? ==> AgreeOn(PerformAll(l, front).st, last.next, ids))
  }

  lemma ResolveIsCalm(s: World, step: Step, id: string)
    requires step.Resolve? && Enabled(s, step) && Running(s, id) && !Starts(s, step, id)
    ensures Running(Apply(s, step), id) && SessionOf(s.st, id) == SessionOf(Apply(s, step).st, id)
  {
    var (popped, retry) := s.control.popped.value;
    if popped != id {
      ResolveLeavesOthers(s.st, step.c, popped, retry, step.fetched, step.now, s.nextFlag, id);
    }
  }

  lemma ResolveKeepsTotals(s: World, step: Step)
    requires step.Resolve? && Enabled(s, step)
    ensures Apply(s, step).st.totals == s.st.totals
  {
  }

  /** That is so of every step of the scheduler under which the issues go on running with the entries they have; what is
      booked to an entry otherwise must leave the accounts alone. */
  lemma SchedulerIsCalm(s: World, step: Step, ids: seq<string>)
    requires Enabled(s, step)
    requires step.Bookkeep? ==> step.totals == s.st.totals && (step.id in ids ==> step.session == SessionOf(s.st, step.id))
    requires forall id :: id in ids ==> Running(s, id) && Running(Apply(s, step), id) && !Starts(s, step, id)
    ensures AgreeOn(s.st, Apply(s, step).st, ids)
  {
    if step.Resolve? {
      ResolveKeepsTotals(s, step);
      forall id | id in ids ensures SessionOf(s.st, id) == SessionOf(Apply(s, step).st, id) {
        ResolveIsCalm(s, step, id);
      }
    }
  }

  /** A stall exit or an inactive release does to the accounts what `Vanish` does. */
  lemma EvictionVanishes(l: Ledger, s: World, step: Step, ids: seq<string>)
    requires Enabled(s, step) && Evicts(s, step) && l.st == s.st
    ensures AgreeOn(Perform(l, OrphanedIssue(s, step), Vanish).st, Apply(s, step).st, ids)
  {
    NothingCharged(s.st.totals);
  }

  /** The steps of one issue. */
  function Of(holds: seq<Hold>, id: string): seq<Op> {
    if holds == [] then []
    else
      var front, last := holds[..|holds| - 1], holds[|holds| - 1];
      if last.Serve? && last.id == id then Of(front, id) + [last.op] else Of(front, id)
  }

  /** An issue's part and all its steps have added so far. */
  datatype Balance = Balance(part: Part, charge: Usage)

  function Advance(b: Balance, op: Op): Balance {
    Balance(Next(b.part, op), b.charge.Plus(Charge(b.part, op)))
  }

  /** One issue's steps run by themselves. */
  function Solo(p: Part, ops: seq<Op>): Balance {
    Fold(Advance, Balance(p, NO_USAGE), ops)
  }

  lemma PerformIsLocal(l: Ledger, id: string, op: Op, other: string)
    ensures PartOf(Perform(l, id, op), other) == if other == id then Next(PartOf(l, id), op) else PartOf(l, other)
    ensures Perform(l, id, op).st.totals == l.st.totals.Plus(Charge(PartOf(l, id), op))
  {
  }

  /** An issue's part evolves as if its worker ran alone. */
  lemma {:induction false} PartsRunSolo(l: Ledger, holds: seq<Hold>, ids: seq<string>, id: string)
    requires Calm(l, holds, ids) && id in ids
    ensures PartOf(PerformAll(l, holds), id) == Solo(PartOf(l, id), Of(holds, id)).part
  {
    if holds != [] {
      var front, last := holds[..|holds| - 1], holds[|holds| - 1];
      PartsRunSolo(l, front, ids, id);
      if last.Serve? {
        PerformIsLocal(PerformAll(l, front), last.id, last.op, id);
        FoldSnoc(Advance, Balance(PartOf(l, id), NO_USAGE), Of(front, id), last.op);
      }
    }
  }

  /** What the given issues add, each on its own. */
  function SoloCharges(l: Ledger, holds: seq<Hold>, ids: seq<string>): Usage {
    if ids == [] then NO_USAGE
    else SoloCharges(l, holds, ids[1..]).Plus(Solo(PartOf(l, ids[0]), Of(holds, ids[0])).charge)
  }

  ghost predicate Distinct(ids: seq<string>) {
    forall i, j :: 0 <= i < j < |ids| ==> ids[i] != ids[j]
  }

  /** What the last hold adds. */
  function LastCharge(l: Ledger, holds: seq<Hold>): Usage
    requires holds != []
  {
    var front, last := holds[..|holds| - 1], holds[|holds| - 1];
    if last.Serve? then Charge(Solo(PartOf(l, last.id), Of(front, last.id)).part, last.op) else NO_USAGE
  }

  lemma {:induction false} OneMoreCharge(l: Ledger, holds: seq<Hold>, ids: seq<string>)
    requires holds != [] && Distinct(ids)
    ensures var front, last := holds[..|holds| - 1], holds[|holds| - 1];
            SoloCharges(l, holds, ids) ==
              if last.Serve? && last.id in ids then SoloCharges(l, front, ids).Plus(LastCharge(l, holds))
              else SoloCharges(l, front, ids)
    decreases |ids|
  {
    if ids != [] {
      OneMoreCharge(l, holds, ids[1..]);
      var front, last := holds[..|holds| - 1], holds[|holds| - 1];
      if last.Serve? {
        assert last.id in ids <==> last.id == ids[0] || last.id in ids[1..];
        if last.id == ids[0] {
          assert last.id !in ids[1..];
          FoldSnoc(Advance, Balance(PartOf(l, last.id), NO_USAGE), Of(front, last.id), last.op);
        }
      }
    }
  }

  lemma NextTotals(l: Ledger, holds: seq<Hold>, ids: seq<string>)
    requires holds != [] && Calm(l, holds, ids)
    requires holds[|holds| - 1].Serve? ==> holds[|holds| - 1].id in ids
    ensures PerformAll(l, holds).st.totals == PerformAll(l, holds[..|holds| - 1]).st.totals.Plus(LastCharge(l, holds))
  {
    var front, last := holds[..|holds| - 1], holds[|holds| - 1];
    if last.Serve? {
      PartsRunSolo(l, front, ids, last.id);
      PerformIsLocal(PerformAll(l, front), last.id, last.op, last.id);
    } else {
      NothingCharged(last.next.totals);
    }
  }

  lemma PlusAssociates(a: Usage, b: Usage, c: Usage)
    ensures a.Plus(b).Plus(c) == a.Plus(b.Plus(c))
  {
  }

  /** Interleaved workers on distinct issues do not disturb each other's accounting: however their lock holds interleave
      with each other and with calm holds of anybody else, the totals grow by the sum of what each would have added alone. */
  lemma {:induction false} TotalsDecompose(l: Ledger, holds: seq<Hold>, ids: seq<string>)
    requires Distinct(ids) && Calm(l, holds, ids)
    requires forall i :: 0 <= i < |holds| && holds[i].Serve? ==> holds[i].id in ids
    ensures PerformAll(l, holds).st.totals == l.st.totals.Plus(SoloCharges(l, holds, ids))
    decreases |holds|
  {
    if holds == [] {
      NoChargeWithoutHolds(l, ids);
    } else {
      var front := holds[..|holds| - 1];
      TotalsDecompose(l, front, ids);
      OneMoreCharge(l, holds, ids);
      NextTotals(l, holds, ids);
      PlusAssociates(l.st.totals, SoloCharges(l, front, ids), LastCharge(l, holds));
    }
  }

  lemma {:induction false} NoChargeWithoutHolds(l: Ledger, ids: seq<string>)
    ensures SoloCharges(l, [], ids) == NO_USAGE
  {
    if ids != [] {
      NoChargeWithoutHolds(l, ids[1..]);
    }
  }

  /** No step of any issue, with or without a running entry, ever lowers the totals. */
  lemma {:induction false} TotalsNeverDecrease(l: Ledger, holds: seq<Hold>)
    requires Calm(l, holds, [])
    ensures l.st.totals.Leq(PerformAll(l, holds).st.totals)
  {
    if holds != [] {
      var front, last := holds[..|holds| - 1], holds[|holds| - 1];
      TotalsNeverDecrease(l, front);
      if last.Serve? {
        PerformIsLocal(PerformAll(l, front), last.id, last.op, last.id);
      }
    }
  }

  // ---- A turn ----

  datatype TurnEvent = Report(usage: Usage) | Finished(tokens: Option<Usage>)

  /** A turn that returned: what it streamed after its `StepStart`, and the usage in its result. */
  datatype Turn = Turn(events: seq<TurnEvent>, usage: Option<Usage>)

  function EventOps(events: seq<TurnEvent>): seq<Op> {
    if events == [] then [StepStart]
    else
      var last := events[|events| - 1];
      EventOps(events[..|events| - 1]) +
      if last.Report? then [ReadReport(last.usage), WriteReport(last.usage)] else [StepFinish(last.tokens)]
  }

  function EndOps(usage: Option<Usage>): seq<Op> {
    [CheckCounted, Fallback(usage), Close(usage)]
  }

  function TurnOps(turn: Turn): seq<Op> {
    EventOps(turn.events) + EndOps(turn.usage)
  }

  function LastReport(events: seq<TurnEvent>): Usage {
    if events == [] then NO_USAGE
    else
      var last := events[|events| - 1];
      if last.Report? then last.usage else LastReport(events[..|events| - 1])
  }

  /** Reports are cumulative, and none has input or output tokens without a total. */
  predicate Cumulative(events: seq<TurnEvent>) {
    events == [] ||
    var front, last := events[..|events| - 1], events[|events| - 1];
    Cumulative(front) &&
    (last.Report? ==> LastReport(front).Leq(last.usage) && (last.usage.total == 0 ==> last.usage.input == 0 && last.usage.output == 0))
  }

  /** What a turn ought to cost. */
  function TurnCharge(turn: Turn): Usage {
    if LastReport(turn.events).total > 0 then LastReport(turn.events) else turn.usage.GetOr(NO_USAGE)
  }

  /** Running entry, session open, and everything charged so far is the last report. */
  predicate UpToDate(b: Balance, last: Usage) {
    && b.part.running && b.part.session.Some?
    && b.part.session.value.reported == b.charge == last
    && (last.total == 0 ==> last.input == 0 && last.output == 0)
  }

  lemma ReportKeepsUpToDate(b: Balance, last: Usage, u: Usage)
    requires UpToDate(b, last) && last.Leq(u) && (u.total == 0 ==> u.input == 0 && u.output == 0)
    ensures UpToDate(Advance(Advance(b, ReadReport(u)), WriteReport(u)), u)
  {
  }

  lemma {:induction false} EventsCharge(p: Part, events: seq<TurnEvent>)
    requires p.running && Cumulative(events)
    ensures UpToDate(Solo(p, EventOps(events)), LastReport(events))
  {
    var start := Balance(p, NO_USAGE);
    if events == [] {
      FoldSnoc(Advance, start, [], StepStart);
      assert [] + [StepStart] == [StepStart];
    } else {
      var front, last := events[..|events| - 1], events[|events| - 1];
      EventsCharge(p, front);
      if last.Report? {
        FoldTwo(Advance, start, EventOps(front), ReadReport(last.usage), WriteReport(last.usage));
        ReportKeepsUpToDate(Solo(p, EventOps(front)), LastReport(front), last.usage);
      } else {
        FoldSnoc(Advance, start, EventOps(front), StepFinish(last.tokens));
      }
    }
  }

  /** How a turn ends, from any balance. */
  lemma SoloEnd(p: Part, ops: seq<Op>, usage: Option<Usage>)
    ensures var b := Solo(p, ops);
            Solo(p, ops + EndOps(usage)).charge ==
              if LastReported(b.part.session).total > 0 then b.charge else b.charge.Plus(usage.GetOr(NO_USAGE))
  {
    var start := Balance(p, NO_USAGE);
    FoldTwo(Advance, start, ops, CheckCounted, Fallback(usage));
    FoldSnoc(Advance, start, ops + [CheckCounted, Fallback(usage)], Close(usage));
    assert ops + EndOps(usage) == ops + [CheckCounted, Fallback(usage)] + [Close(usage)];
  }

  /** A turn on a running entry adds its last report if that has a total, and otherwise its usage; never both. */
  lemma TurnChargesOnce(p: Part, turn: Turn)
    requires p.running && Cumulative(turn.events)
    ensures Solo(p, TurnOps(turn)).charge == TurnCharge(turn)
  {
    EventsCharge(p, turn.events);
    SoloEnd(p, EventOps(turn.events), turn.usage);
  }

  /** At the end of a turn on a running entry its session is open and shows the usage of the turn, if there is one. */
  lemma TurnShowsUsage(p: Part, turn: Turn)
    requires p.running && Cumulative(turn.events)
    ensures var session := Solo(p, TurnOps(turn)).part.session;
            session.Some? && (turn.usage.Some? ==> session.value.shown == turn.usage.value)
  {
    var start, ops := Balance(p, NO_USAGE), EventOps(turn.events);
    EventsCharge(p, turn.events);
    FoldTwo(Advance, start, ops, CheckCounted, Fallback(turn.usage));
    FoldSnoc(Advance, start, ops + [CheckCounted, Fallback(turn.usage)], Close(turn.usage));
    assert ops + EndOps(turn.usage) == ops + [CheckCounted, Fallback(turn.usage)] + [Close(turn.usage)];
  }

  // ---- Several turns of several workers ----

  /** What a worker does for its turns, one after the other. */
  function TurnsOps(turns: seq<Turn>): seq<Op> {
    if turns == [] then [] else TurnsOps(turns[..|turns| - 1]) + TurnOps(turns[|turns| - 1])
  }

  function TurnsCharge(turns: seq<Turn>): Usage {
    if turns == [] then NO_USAGE else TurnsCharge(turns[..|turns| - 1]).Plus(TurnCharge(turns[|turns| - 1]))
  }

  ghost predicate AllCumulative(turns: seq<Turn>) {
    forall i :: 0 <= i < |turns| ==> Cumulative(turns[i].events)
  }

  lemma {:induction false} SoloFrom(p: Part, charge: Usage, ops: seq<Op>)
    ensures Fold(Advance, Balance(p, charge), ops) == Balance(Solo(p, ops).part, charge.Plus(Solo(p, ops).charge))
    ensures (forall op :: op in ops ==> !op.Vanish?) ==> Solo(p, ops).part.running == p.running
  {
    if ops == [] {
      NothingCharged(charge);
    } else {
      var front, last := ops[..|ops| - 1], ops[|ops| - 1];
      SoloFrom(p, charge, front);
      PlusAssociates(charge, Solo(p, front).charge, Charge(Solo(p, front).part, last));
    }
  }

  lemma {:induction false} EventsDoNotVanish(events: seq<TurnEvent>)
    ensures forall op :: op in EventOps(events) ==> !op.Vanish?
  {
    if events != [] {
      EventsDoNotVanish(events[..|events| - 1]);
    }
  }

  lemma {:induction false} TurnsDoNotVanish(turns: seq<Turn>)
    ensures forall op :: op in TurnsOps(turns) ==> !op.Vanish?
  {
    if turns != [] {
      TurnsDoNotVanish(turns[..|turns| - 1]);
      EventsDoNotVanish(turns[|turns| - 1].events);
    }
  }

  lemma SoloConcat(p: Part, a: seq<Op>, b: seq<Op>)
    ensures Solo(p, a + b).charge == Solo(p, a).charge.Plus(Solo(Solo(p, a).part, b).charge)
  {
    FoldConcat(Advance, Balance(p, NO_USAGE), a, b);
    SoloFrom(Solo(p, a).part, Solo(p, a).charge, b);
  }

  lemma {:induction false} TurnsChargeOnce(p: Part, turns: seq<Turn>)
    requires p.running && AllCumulative(turns)
    ensures Solo(p, TurnsOps(turns)).charge == TurnsCharge(turns)
  {
    if turns != [] {
      var front, last := turns[..|turns| - 1], turns[|turns| - 1];
      TurnsChargeOnce(p, front);
      TurnsDoNotVanish(front);
      SoloFrom(p, NO_USAGE, TurnsOps(front));
      SoloConcat(p, TurnsOps(front), TurnOps(last));
      TurnChargesOnce(Solo(p, TurnsOps(front)).part, last);
    }
  }

  function SumTurns(ids: seq<string>, turns: map<string, seq<Turn>>): Usage
    requires forall id :: id in ids ==> id in turns
  {
    if ids == [] then NO_USAGE else SumTurns(ids[1..], turns).Plus(TurnsCharge(turns[ids[0]]))
  }

  /** Among the holds each issue goes through its turns, on an entry that is there from the start. */
  ghost predicate Serves(l: Ledger, holds: seq<Hold>, ids: seq<string>, turns: map<string, seq<Turn>>) {
    forall id :: id in ids ==>
      id in turns && id in l.st.running && AllCumulative(turns[id]) && Of(holds, id) == TurnsOps(turns[id])
  }

  lemma {:induction false} SoloChargesAreTurnCharges(l: Ledger, holds: seq<Hold>, ids: seq<string>, turns: map<string, seq<Turn>>)
    requires Serves(l, holds, ids, turns)
    ensures SoloCharges(l, holds, ids) == SumTurns(ids, turns)
    decreases |ids|
  {
    if ids != [] {
      TurnsChargeOnce(PartOf(l, ids[0]), turns[ids[0]]);
      assert forall id :: id in ids[1..] ==> id in ids;
      SoloChargesAreTurnCharges(l, holds, ids[1..], turns);
    }
  }

  /** Conservation: when each of several running issues goes through any number of turns, in any interleaving of their
      lock holds with each other and with calm holds of anybody else, the totals grow by exactly the sum of the turns'
      charges. */
  lemma {:induction false} TokensAreConserved(l: Ledger, holds: seq<Hold>, ids: seq<string>, turns: map<string, seq<Turn>>)
    requires Distinct(ids) && Calm(l, holds, ids) && Serves(l, holds, ids, turns)
    requires forall i :: 0 <= i < |holds| && holds[i].Serve? ==> holds[i].id in ids
    ensures PerformAll(l, holds).st.totals == l.st.totals.Plus(SumTurns(ids, turns))
  {
    TotalsDecompose(l, holds, ids);
    SoloChargesAreTurnCharges(l, holds, ids, turns);
  }

  // ---- Without a running entry ----

  function SumReports(events: seq<TurnEvent>): Usage {
    if events == [] then NO_USAGE
    else
      var last := events[|events| - 1];
      SumReports(events[..|events| - 1]).Plus(if last.Report? then last.usage else NO_USAGE)
  }

  /** What a turn does for further events, after its `StepStart`. */
  function MoreOps(events: seq<TurnEvent>): seq<Op> {
    if events == [] then []
    else
      var last := events[|events| - 1];
      MoreOps(events[..|events| - 1]) +
      if last.Report? then [ReadReport(last.usage), WriteReport(last.usage)] else [StepFinish(last.tokens)]
  }

  lemma {:induction false} EventsConcat(front: seq<TurnEvent>, rest: seq<TurnEvent>)
    ensures EventOps(front + rest) == EventOps(front) + MoreOps(rest)
    ensures SumReports(front + rest) == SumReports(front).Plus(SumReports(rest))
    decreases |rest|
  {
    if rest == [] {
      assert front + rest == front;
      NothingCharged(SumReports(front));
      assert EventOps(front) + [] == EventOps(front);
    } else {
      var init, last := rest[..|rest| - 1], rest[|rest| - 1];
      EventsConcat(front, init);
      assert (front + rest)[..|front + rest| - 1] == front + init;
      PlusAssociates(SumReports(front), SumReports(init), if last.Report? then last.usage else NO_USAGE);
      OpsAssociate(EventOps(front), MoreOps(init),
                   if last.Report? then [ReadReport(last.usage), WriteReport(last.usage)] else [StepFinish(last.tokens)]);
    }
  }

  lemma OpsAssociate(a: seq<Op>, b: seq<Op>, c: seq<Op>)
    ensures a + b + c == a + (b + c)
  {
  }

  predicate Absent(p: Part) {
    !p.running && p.session.None?
  }

  lemma AbsentEvent(b: Balance, u: Usage, tokens: Option<Usage>)
    requires Absent(b.part)
    ensures var b' := Advance(Advance(b, ReadReport(u)), WriteReport(u)); Absent(b'.part) && b'.charge == b.charge.Plus(u)
    ensures var b' := Advance(b, StepFinish(tokens)); Absent(b'.part) && b'.charge == b.charge.Plus(NO_USAGE)
  {
  }

  /** Without an entry every report is charged in full. */
  lemma {:induction false} AbsentMoreCharge(p: Part, ops: seq<Op>, events: seq<TurnEvent>)
    requires Absent(Solo(p, ops).part)
    ensures var b := Solo(p, ops + MoreOps(events));
            Absent(b.part) && b.charge == Solo(p, ops).charge.Plus(SumReports(events))
    decreases |events|
  {
    var start := Balance(p, NO_USAGE);
    if events == [] {
      assert ops + [] == ops;
      NothingCharged(Solo(p, ops).charge);
    } else {
      var front, last := events[..|events| - 1], events[|events| - 1];
      var before := ops + MoreOps(front);
      AbsentMoreCharge(p, ops, front);
      PlusAssociates(Solo(p, ops).charge, SumReports(front), if last.Report? then last.usage else NO_USAGE);
      if last.Report? {
        FoldTwo(Advance, start, before, ReadReport(last.usage), WriteReport(last.usage));
        OpsAssociate(ops, MoreOps(front), [ReadReport(last.usage), WriteReport(last.usage)]);
        AbsentEvent(Solo(p, before), last.usage, None);
      } else {
        FoldSnoc(Advance, start, before, StepFinish(last.tokens));
        OpsAssociate(ops, MoreOps(front), [StepFinish(last.tokens)]);
        AbsentEvent(Solo(p, before), NO_USAGE, last.tokens);
      }
    }
  }

  /** A worker whose entry is gone is charged every cumulative report in full, and its usage on top. */
  lemma AbsentEntryOvercharges(p: Part, turn: Turn)
    requires Absent(p)
    ensures Solo(p, TurnOps(turn)).charge == SumReports(turn.events).Plus(turn.usage.GetOr(NO_USAGE))
  {
    FoldSnoc(Advance, Balance(p, NO_USAGE), [], StepStart);
    assert [] + [StepStart] == [StepStart] && [] + turn.events == turn.events;
    EventsConcat([], turn.events);
    AbsentMoreCharge(p, [StepStart], turn.events);
    SoloEnd(p, EventOps(turn.events), turn.usage);
  }

  lemma {:induction false} LastIsSummed(events: seq<TurnEvent>)
    ensures LastReport(events).Leq(SumReports(events))
  {
    if events != [] {
      LastIsSummed(events[..|events| - 1]);
    }
  }

  lemma {:induction false} NothingReported(events: seq<TurnEvent>)
    requires Cumulative(events) && LastReport(events).total == 0
    ensures SumReports(events) == NO_USAGE
  {
    if events != [] {
      NothingReported(events[..|events| - 1]);
    }
  }

  /** It is never charged less than the turn's cost, and it is charged exactly that if and only if nothing was reported, or
      the reports sum up to the last of them and no usage comes with the result. */
  lemma AbsentEntryOverchargesExactly(p: Part, turn: Turn)
    requires Absent(p) && Cumulative(turn.events)
    ensures TurnCharge(turn).Leq(Solo(p, TurnOps(turn)).charge)
    ensures Solo(p, TurnOps(turn)).charge == TurnCharge(turn) <==>
            || LastReport(turn.events).total == 0
            || (SumReports(turn.events) == LastReport(turn.events) && turn.usage.GetOr(NO_USAGE) == NO_USAGE)
  {
    AbsentEntryOvercharges(p, turn);
    LastIsSummed(turn.events);
    if LastReport(turn.events).total == 0 {
      NothingReported(turn.events);
    }
  }

  // ---- An entry that vanishes during a turn ----

  /** A turn whose entry vanishes after `front`, while it still has `rest` to stream. */
  function VanishedOps(front: seq<TurnEvent>, rest: seq<TurnEvent>, usage: Option<Usage>): seq<Op> {
    EventOps(front) + [Vanish] + MoreOps(rest) + EndOps(usage)
  }

  /** Taking the `Vanish` out leaves the turn. */
  lemma VanishedIsTurn(front: seq<TurnEvent>, rest: seq<TurnEvent>, usage: Option<Usage>)
    ensures TurnOps(Turn(front + rest, usage)) == EventOps(front) + MoreOps(rest) + EndOps(usage)
  {
    EventsConcat(front, rest);
  }

  /** Whatever a task did up to losing its entry, from then on it is charged every report in full, and its usage on top. */
  lemma VanishedEnd(p: Part, ops: seq<Op>, rest: seq<TurnEvent>, usage: Option<Usage>)
    requires Absent(Solo(p, ops).part)
    ensures Solo(p, ops + MoreOps(rest) + EndOps(usage)).charge
            == Solo(p, ops).charge.Plus(SumReports(rest)).Plus(usage.GetOr(NO_USAGE))
  {
    AbsentMoreCharge(p, ops, rest);
    SoloEnd(p, ops + MoreOps(rest), usage);
  }

  /** A turn that loses its entry after `front` is charged the last report of `front`, every later report in full, and its
      usage on top. */
  lemma VanishedTurnCharge(p: Part, front: seq<TurnEvent>, rest: seq<TurnEvent>, usage: Option<Usage>)
    requires p.running && Cumulative(front)
    ensures Solo(p, VanishedOps(front, rest, usage)).charge
            == LastReport(front).Plus(SumReports(rest)).Plus(usage.GetOr(NO_USAGE))
  {
    EventsCharge(p, front);
    FoldSnoc(Advance, Balance(p, NO_USAGE), EventOps(front), Vanish);
    NothingCharged(LastReport(front));
    VanishedEnd(p, EventOps(front) + [Vanish], rest, usage);
  }

  /** Between the two holds of a report it makes no difference whether the entry vanishes before or after the second. */
  lemma VanishedWithinReport(p: Part, front: seq<TurnEvent>, u: Usage, rest: seq<TurnEvent>, usage: Option<Usage>)
    requires p.running && Cumulative(front + [Report(u)])
    ensures Solo(p, EventOps(front) + [ReadReport(u), Vanish, WriteReport(u)] + MoreOps(rest) + EndOps(usage)).charge
            == Solo(p, VanishedOps(front + [Report(u)], rest, usage)).charge
  {
    assert (front + [Report(u)])[..|front|] == front;
    EventsCharge(p, front);
    var start, ops := Balance(p, NO_USAGE), EventOps(front);
    FoldTwo(Advance, start, ops, ReadReport(u), Vanish);
    FoldSnoc(Advance, start, ops + [ReadReport(u), Vanish], WriteReport(u));
    assert ops + [ReadReport(u), Vanish] + [WriteReport(u)] == ops + [ReadReport(u), Vanish, WriteReport(u)];
    VanishedEnd(p, ops + [ReadReport(u), Vanish, WriteReport(u)], rest, usage);
    VanishedTurnCharge(p, front + [Report(u)], rest, usage);
  }

  /** The end of a turn is charged by what the check found; then the entry is no longer needed. */
  lemma EndAfterCheck(b: Balance, usage: Option<Usage>)
    ensures var charge := Advance(Advance(b, CheckCounted), Fallback(usage)).charge;
            && charge == Advance(Advance(Advance(b, CheckCounted), Vanish), Fallback(usage)).charge
            && charge == if LastReported(b.part.session).total > 0 then b.charge else b.charge.Plus(usage.GetOr(NO_USAGE))
  {
    NothingCharged(b.charge);
  }

  lemma LateStepsAreFree(b: Balance, usage: Option<Usage>)
    ensures Advance(b, Vanish).charge == Advance(b, Close(usage)).charge == b.charge
  {
    NothingCharged(b.charge);
  }

  lemma VanishedBeforeCharge(p: Part, turn: Turn)
    requires p.running && Cumulative(turn.events)
    ensures Solo(p, EventOps(turn.events) + [CheckCounted, Vanish, Fallback(turn.usage), Close(turn.usage)]).charge == TurnCharge(turn)
  {
    var start, ops, usage := Balance(p, NO_USAGE), EventOps(turn.events), turn.usage;
    EventsCharge(p, turn.events);
    EndAfterCheck(Solo(p, ops), usage);
    FoldTwo(Advance, start, ops, CheckCounted, Vanish);
    FoldTwo(Advance, start, ops + [CheckCounted, Vanish], Fallback(usage), Close(usage));
    assert [CheckCounted, Vanish] + [Fallback(usage), Close(usage)] == [CheckCounted, Vanish, Fallback(usage), Close(usage)];
    OpsAssociate(ops, [CheckCounted, Vanish], [Fallback(usage), Close(usage)]);
    LateStepsAreFree(Solo(p, ops + [CheckCounted, Vanish] + [Fallback(usage)]), usage);
    FoldSnoc(Advance, start, ops + [CheckCounted, Vanish], Fallback(usage));
  }

  lemma VanishedAfterCharge(p: Part, turn: Turn)
    requires p.running && Cumulative(turn.events)
    ensures Solo(p, EventOps(turn.events) + [CheckCounted, Fallback(turn.usage), Vanish, Close(turn.usage)]).charge == TurnCharge(turn)
  {
    var start, ops, usage := Balance(p, NO_USAGE), EventOps(turn.events), turn.usage;
    EventsCharge(p, turn.events);
    EndAfterCheck(Solo(p, ops), usage);
    FoldTwo(Advance, start, ops, CheckCounted, Fallback(usage));
    FoldTwo(Advance, start, ops + [CheckCounted, Fallback(usage)], Vanish, Close(usage));
    assert [CheckCounted, Fallback(usage)] + [Vanish, Close(usage)] == [CheckCounted, Fallback(usage), Vanish, Close(usage)];
    OpsAssociate(ops, [CheckCounted, Fallback(usage)], [Vanish, Close(usage)]);
    LateStepsAreFree(Solo(p, ops + [CheckCounted, Fallback(usage)]), usage);
    LateStepsAreFree(Advance(Solo(p, ops + [CheckCounted, Fallback(usage)]), Vanish), usage);
  }

  lemma {:induction false} LastOfConcat(front: seq<TurnEvent>, rest: seq<TurnEvent>)
    requires Cumulative(front + rest)
    ensures Cumulative(front)
    ensures LastReport(front).Leq(LastReport(front + rest))
    ensures LastReport(front + rest).Leq(LastReport(front).Plus(SumReports(rest)))
    ensures LastReport(front + rest).total == 0 ==> SumReports(rest) == NO_USAGE && LastReport(front) == NO_USAGE
    decreases |rest|
  {
    if rest == [] {
      assert front + rest == front;
      if LastReport(front).total == 0 {
        ZeroTotal(front);
      }
    } else {
      var init, last := rest[..|rest| - 1], rest[|rest| - 1];
      assert (front + rest)[..|front + rest| - 1] == front + init;
      LastOfConcat(front, init);
    }
  }

  lemma {:induction false} ZeroTotal(events: seq<TurnEvent>)
    requires Cumulative(events) && LastReport(events).total == 0
    ensures LastReport(events) == NO_USAGE
  {
    if events != [] {
      ZeroTotal(events[..|events| - 1]);
    }
  }

  /** `before` and `after` are reported, `last` is the last report of all, `usage` comes with the result. */
  lemma OverchargeExactly(before: Usage, after: Usage, last: Usage, usage: Usage)
    requires last.Leq(before.Plus(after)) && (last.total == 0 ==> before == after == NO_USAGE)
    ensures var cost, charge := if last.total > 0 then last else usage, before.Plus(after).Plus(usage);
            && cost.Leq(charge)
            && (charge == cost <==> last.total == 0 || (before.Plus(after) == last && usage == NO_USAGE))
  {
  }

  /** Such a turn is never charged less than its cost, and exactly that if and only if nothing was reported, or the last
      report before the loss and all those after it sum up to the last report, and no usage comes with the result. */
  lemma VanishedTurnExactly(p: Part, front: seq<TurnEvent>, rest: seq<TurnEvent>, usage: Option<Usage>)
    requires p.running && Cumulative(front + rest)
    ensures var turn, charge := Turn(front + rest, usage), Solo(p, VanishedOps(front, rest, usage)).charge;
            && TurnCharge(turn).Leq(charge)
            && (charge == TurnCharge(turn) <==>
                  || LastReport(front + rest).total == 0
                  || (LastReport(front).Plus(SumReports(rest)) == LastReport(front + rest) && usage.GetOr(NO_USAGE) == NO_USAGE))
  {
    LastOfConcat(front, rest);
    VanishedTurnCharge(p, front, rest, usage);
    OverchargeExactly(LastReport(front), SumReports(rest), LastReport(front + rest), usage.GetOr(NO_USAGE));
  }
}
