/** One turn of the ACP reactor: a loop over updates, timeouts and a cancellation cell, with a one-shot result. */
module AcpTurn {
  import opened Prelude

  // ---- Permission requests ----

  datatype Permission = Plan | AcceptEdits | BypassPermissions | Default
  datatype ToolKind = Read | Search | Think | Fetch | Edit | Delete | Move | Execute | SwitchMode | OtherTool
  datatype OptionKind = AllowOnce | AllowAlways | RejectOnce | RejectAlways | OtherOption
  datatype PermissionOption = PermissionOption(id: string, kind: OptionKind)
  datatype Decision = Refused | Selected(id: string)

  predicate Allows(permission: Option<Permission>, tool: ToolKind) {
    match permission
    case Some(BypassPermissions) => true
    case Some(AcceptEdits) => true
    case Some(Plan) => tool.Read? || tool.Search? || tool.Think? || tool.Fetch?
    case _ => !tool.Execute?
  }

  predicate Grants(o: PermissionOption, allow: bool) {
    if allow then o.kind.AllowOnce? || o.kind.AllowAlways? else o.kind.RejectOnce? || o.kind.RejectAlways?
  }

  function FirstGrant(options: seq<PermissionOption>, allow: bool): Decision {
    if options == [] then Refused
    else if Grants(options[0], allow) then Selected(options[0].id)
    else FirstGrant(options[1..], allow)
  }

  function Decide(options: seq<PermissionOption>, permission: Option<Permission>, tool: ToolKind, cancelling: bool): Decision {
    if cancelling then Refused else FirstGrant(options, Allows(permission, tool))
  }

  lemma {:induction false} FirstGrantIsFirst(options: seq<PermissionOption>, allow: bool)
    ensures FirstGrant(options, allow).Refused? <==> forall i :: 0 <= i < |options| ==> !Grants(options[i], allow)
    ensures FirstGrant(options, allow).Selected? ==>
              exists i :: 0 <= i < |options| && Grants(options[i], allow) && options[i].id == FirstGrant(options, allow).id
                          && forall j :: 0 <= j < i ==> !Grants(options[j], allow)
  {
    if options != [] {
      var rest := options[1..];
      FirstGrantIsFirst(rest, allow);
      assert forall i :: 0 <= i < |rest| ==> options[i + 1] == rest[i];
      assert forall i :: 1 <= i < |options| ==> options[i] == rest[i - 1];
      if !Grants(options[0], allow) && FirstGrant(rest, allow).Selected? {
        var i :| 0 <= i < |rest| && Grants(rest[i], allow) && rest[i].id == FirstGrant(rest, allow).id
                 && forall j :: 0 <= j < i ==> !Grants(rest[j], allow);
        assert Grants(options[i + 1], allow) && options[i + 1].id == FirstGrant(options, allow).id;
      }
    }
  }

  /** Which tools a permission mode turns down: in plan mode all but the reading ones, by default only execution, otherwise
      none. */
  lemma AllowsExactly(permission: Option<Permission>, tool: ToolKind)
    ensures !Allows(permission, tool) <==>
            || (permission == Some(Plan) && tool !in {Read, Search, Think, Fetch})
            || ((permission == Some(Default) || permission == None) && tool == Execute)
  {
  }

  predicate IsAllowKind(kind: OptionKind) {
    kind == AllowOnce || kind == AllowAlways
  }

  predicate IsRejectKind(kind: OptionKind) {
    kind == RejectOnce || kind == RejectAlways
  }

  /** Option `i` is the first that says what the permission mode says of the tool. */
  predicate FirstFitting(options: seq<PermissionOption>, allow: bool, i: int) {
    && 0 <= i < |options| && (if allow then IsAllowKind(options[i].kind) else IsRejectKind(options[i].kind))
    && forall j :: 0 <= j < i ==> !(if allow then IsAllowKind(options[j].kind) else IsRejectKind(options[j].kind))
  }

  /** The answer to a request: refused while cancelling; otherwise the first fitting option, and refused if there is none. */
  lemma {:induction false} DecideExactly(options: seq<PermissionOption>, permission: Option<Permission>, tool: ToolKind, cancelling: bool)
    ensures cancelling ==> Decide(options, permission, tool, cancelling) == Refused
    ensures !cancelling ==>
              forall i :: FirstFitting(options, Allows(permission, tool), i) ==>
                Decide(options, permission, tool, cancelling) == Selected(options[i].id)
    ensures !cancelling && (forall i :: !FirstFitting(options, Allows(permission, tool), i)) ==>
              Decide(options, permission, tool, cancelling) == Refused
  {
    var allow := Allows(permission, tool);
    FirstGrantIsFirst(options, allow);
    assert forall i :: 0 <= i < |options| ==>
        (Grants(options[i], allow) <==> if allow then IsAllowKind(options[i].kind) else IsRejectKind(options[i].kind));
    if FirstGrant(options, allow).Selected? {
      var i :| 0 <= i < |options| && Grants(options[i], allow) && options[i].id == FirstGrant(options, allow).id
               && forall j :: 0 <= j < i ==> !Grants(options[j], allow);
      assert FirstFitting(options, allow, i);
      forall k | FirstFitting(options, allow, k) ensures k == i {
      }
    }
  }

  // ---- The turn ----

  datatype StopReason = EndTurn | StoppedCancelled | OtherReason
  datatype Outcome = Succeeded | Failed | Cancelled

  function MapStopReason(reason: StopReason, cancelSent: bool): Outcome {
    match reason
    case StoppedCancelled => Cancelled
    case EndTurn => if cancelSent then Cancelled else Succeeded
    case OtherReason => Failed
  }

  datatype Event = Text(text: string) | OtherEvent

  /** What one wait for an update can bring. A notification is already translated to its events. */
  datatype Update =
    | Stopped(reason: StopReason)
    | Notified(events: seq<Event>)
    | Requested(options: seq<PermissionOption>, tool: ToolKind)
    | Ignored
    | ReadFailed
    | TimedOut

  /** One iteration: the cell as loaded at the top, then the update. */
  datatype Input = Input(cancelled: bool, update: Update)

  datatype TurnResult = Done(outcome: Outcome, lastMessage: Option<string>) | TurnFailed | TurnCancelled | ReadTimeout

  datatype Action = SendCancel | Emit(event: Event) | Answer(decision: Decision) | KillGroup | Deliver(result: TurnResult)

  predicate Ends(update: Update) {
    update.Stopped? || update.ReadFailed? || update.TimedOut?
  }

  /** None of the first `n` inputs ends the turn. */
  predicate NoneEnds(inputs: seq<Input>, n: nat)
    requires n <= |inputs|
  {
    forall i :: 0 <= i < n ==> !Ends(inputs[i].update)
  }

  /** The cell was seen set within the first `n` iterations. */
  predicate Cancelling(inputs: seq<Input>, n: nat)
    requires n <= |inputs|
  {
    exists i :: 0 <= i < n && inputs[i].cancelled
  }

  /** The last text among these events, or else `before`. */
  function LastText(events: seq<Event>, before: Option<string>): Option<string> {
    if events == [] then before
    else if events[|events| - 1].Text? then Some(events[|events| - 1].text)
    else LastText(events[..|events| - 1], before)
  }

  function Emits(events: seq<Event>): seq<Action> {
    seq(|events|, i requires 0 <= i < |events| => Emit(events[i]))
  }

  /** The last text among the actions of a log. */
  function LastEmitted(log: seq<Action>): Option<string> {
    if log == [] then None
    else
      var last := log[|log| - 1];
      if last.Emit? && last.event.Text? then Some(last.event.text) else LastEmitted(log[..|log| - 1])
  }

  /** What may follow an unfinished log. */
  predicate MayFollow(log: seq<Action>, a: Action) {
    match a
    case SendCancel => SendCancel !in log
    case Emit(_) => true
    case Answer(decision) => SendCancel in log ==> decision == Refused
    case KillGroup => SendCancel in log
    case Deliver(result) =>
      result.Done? ==> (result.outcome == Succeeded ==> SendCancel !in log) && result.lastMessage == LastEmitted(log)
  }

  /** Each action may follow what precedes it, and nothing follows a result. */
  ghost predicate Disciplined(log: seq<Action>) {
    log == [] ||
    var front, last := log[..|log| - 1], log[|log| - 1];
    Disciplined(front) && Unfinished(front) && MayFollow(front, last)
  }

  predicate Unfinished(log: seq<Action>) {
    forall i :: 0 <= i < |log| ==> !log[i].Deliver?
  }

  /** Every action of a disciplined log may follow what precedes it, and no result precedes it. */
  lemma {:induction false} EachMayFollow(log: seq<Action>, j: nat)
    requires Disciplined(log) && j < |log|
    ensures Unfinished(log[..j]) && MayFollow(log[..j], log[j])
    decreases |log|
  {
    if j < |log| - 1 {
      var front := log[..|log| - 1];
      assert front[..j] == log[..j];
      EachMayFollow(front, j);
    }
  }

  /** The cancel notification is sent at most once, and after it every permission is refused. */
  lemma {:induction false} CancelIsFinal(log: seq<Action>, i: nat, j: nat)
    requires Disciplined(log) && i < j < |log| && log[i] == SendCancel
    ensures log[j] != SendCancel
    ensures log[j].Answer? ==> log[j].decision == Refused
  {
    EachMayFollow(log, j);
    assert log[..j][i] == log[i];
  }

  /** A kill comes only after the cancel notification. */
  lemma {:induction false} KillFollowsCancel(log: seq<Action>, j: nat)
    requires Disciplined(log) && j < |log| && log[j] == KillGroup
    ensures SendCancel in log[..j]
  {
    EachMayFollow(log, j);
  }

  /** No action but the last is a result. */
  lemma {:induction false} ResultIsLast(log: seq<Action>, j: nat)
    requires Disciplined(log) && j < |log| - 1
    ensures !log[j].Deliver?
  {
    EachMayFollow(log, |log| - 1);
    assert log[..|log| - 1][j] == log[j];
  }

  /** The result of a finished turn carries the last text emitted before it. */
  lemma {:induction false} ResultHasLastText(log: seq<Action>, j: nat)
    requires Disciplined(log) && j < |log| && log[j].Deliver? && log[j].result.Done?
    ensures log[j].result.lastMessage == LastEmitted(log[..j])
  {
    EachMayFollow(log, j);
  }

  /** A success is delivered only if no cancel notification was ever sent. */
  lemma {:induction false} SuccessExcludesCancel(log: seq<Action>)
    requires Disciplined(log) && log != [] && log[|log| - 1].Deliver? && log[|log| - 1].result.Done?
    requires log[|log| - 1].result.outcome == Succeeded
    ensures SendCancel !in log
  {
    var n := |log| - 1;
    EachMayFollow(log, n);
    assert log == log[..n] + [log[n]];
  }

  lemma AppendKeepsDiscipline(log: seq<Action>, a: Action)
    requires Disciplined(log) && Unfinished(log) && MayFollow(log, a)
    ensures Disciplined(log + [a])
    ensures !a.Deliver? ==> Unfinished(log + [a])
    ensures LastEmitted(log + [a]) == if a.Emit? && a.event.Text? then Some(a.event.text) else LastEmitted(log)
  {
    assert (log + [a])[..|log|] == log;
    LastEmittedSnoc(log, a);
  }

  lemma {:induction false} EmitsKeepDiscipline(log: seq<Action>, events: seq<Event>)
    requires Disciplined(log) && Unfinished(log)
    ensures Disciplined(log + Emits(events)) && Unfinished(log + Emits(events))
    ensures LastEmitted(log + Emits(events)) == LastText(events, LastEmitted(log))
    decreases |events|
  {
    if events == [] {
      assert log + Emits(events) == log;
    } else {
      var front, last := events[..|events| - 1], events[|events| - 1];
      EmitsKeepDiscipline(log, front);
      assert log + Emits(events) == (log + Emits(front)) + [Emit(last)];
      AppendKeepsDiscipline(log + Emits(front), Emit(last));
    }
  }

  lemma LastEmittedSnoc(log: seq<Action>, a: Action)
    ensures LastEmitted(log + [a]) == if a.Emit? && a.event.Text? then Some(a.event.text) else LastEmitted(log)
  {
  }

  /** The result an ending update calls for. */
  function ResultOf(update: Update, cancelSent: bool, lastMessage: Option<string>): TurnResult
    requires Ends(update)
  {
    match update
    case Stopped(reason) => Done(MapStopReason(reason, cancelSent), lastMessage)
    case ReadFailed => TurnFailed
    case TimedOut => if cancelSent then TurnCancelled else ReadTimeout
  }

  /** What the agent and the scheduler are owed for one update, apart from a result: each event forwarded in order,
      each request decided under the cancellation state of the moment. */
  function Reply(update: Update, permission: Option<Permission>, cancelling: bool): seq<Action> {
    match update
    case Notified(events) => Emits(events)
    case Requested(options, tool) => [Answer(Decide(options, permission, tool, cancelling))]
    case _ => []
  }

  /** Each event of a notification is forwarded, in order; a request gets one answer; nothing else is replied to. */
  lemma ReplyExactly(update: Update, permission: Option<Permission>, cancelling: bool)
    ensures var reply := Reply(update, permission, cancelling);
            && (update.Notified? ==> |reply| == |update.events| && forall i :: 0 <= i < |reply| ==> reply[i] == Emit(update.events[i]))
            && (update.Requested? ==> reply == [Answer(Decide(update.options, permission, update.tool, cancelling))])
            && (!update.Notified? && !update.Requested? ==> reply == [])
  {
  }

  function Replies(inputs: seq<Input>, permission: Option<Permission>, n: nat): seq<Action>
    requires n <= |inputs|
  {
    if n == 0 then []
    else Replies(inputs, permission, n - 1) + Reply(inputs[n - 1].update, permission, Cancelling(inputs, n))
  }

  predicate IsReply(a: Action) {
    a.Emit? || a.Answer?
  }

  /** The replies of a log, in order. */
  function OnlyReplies(log: seq<Action>): seq<Action> {
    if log == [] then []
    else OnlyReplies(log[..|log| - 1]) + if IsReply(log[|log| - 1]) then [log[|log| - 1]] else []
  }

  lemma OnlyRepliesSnoc(log: seq<Action>, a: Action)
    ensures OnlyReplies(log + [a]) == if IsReply(a) then OnlyReplies(log) + [a] else OnlyReplies(log)
  {
    assert (log + [a])[..|log|] == log;
  }

  /** All of these actions are replies, or none is. */
  predicate Uniform(more: seq<Action>, replies: bool) {
    forall i :: 0 <= i < |more| ==> IsReply(more[i]) == replies
  }

  lemma {:induction false} OnlyRepliesAppend(log: seq<Action>, more: seq<Action>, replies: bool)
    requires Uniform(more, replies)
    ensures OnlyReplies(log + more) == if replies then OnlyReplies(log) + more else OnlyReplies(log)
    decreases |more|
  {
    if more == [] {
      assert log + more == log && OnlyReplies(log) + [] == OnlyReplies(log);
    } else {
      var front, last := more[..|more| - 1], more[|more| - 1];
      OnlyRepliesAppend(log, front, replies);
      assert log + more == (log + front) + [last] && more == front + [last];
      OnlyRepliesSnoc(log + front, last);
      assert OnlyReplies(log) + more == (OnlyReplies(log) + front) + [last];
    }
  }

  /** A log on which no result is delivered yet, with the loop's variables. */
  ghost predicate Tracks(log: seq<Action>, replies: seq<Action>, cancelSent: bool, lastMessage: Option<string>) {
    && Disciplined(log) && Unfinished(log) && KillGroup !in log
    && (cancelSent <==> SendCancel in log)
    && lastMessage == LastEmitted(log)
    && OnlyReplies(log) == replies
  }

  lemma TracksCancel(log: seq<Action>, replies: seq<Action>, lastMessage: Option<string>)
    requires Tracks(log, replies, false, lastMessage)
    ensures Tracks(log + [SendCancel], replies, true, lastMessage)
  {
  }

  function NextMessage(update: Update, lastMessage: Option<string>): Option<string> {
    if update.Notified? then LastText(update.events, lastMessage) else lastMessage
  }

  lemma TracksReply(log: seq<Action>, replies: seq<Action>, cancelSent: bool, lastMessage: Option<string>,
                    update: Update, permission: Option<Permission>)
    requires Tracks(log, replies, cancelSent, lastMessage)
    ensures var reply := Reply(update, permission, cancelSent);
            Tracks(log + reply, replies + reply, cancelSent, NextMessage(update, lastMessage))
  {
    var reply := Reply(update, permission, cancelSent);
    OnlyRepliesAppend(log, reply, true);
    match update {
      case Notified(events) => EmitsKeepDiscipline(log, events);
      case Requested(_, _) => AppendKeepsDiscipline(log, reply[0]);
      case _ => assert log + reply == log;
    }
  }

  /** The actions that end a turn. */
  function Ending(update: Update, cancelSent: bool, lastMessage: Option<string>): seq<Action>
    requires Ends(update)
  {
    (if update.TimedOut? && cancelSent then [KillGroup] else []) + [Deliver(ResultOf(update, cancelSent, lastMessage))]
  }

  lemma TracksEnding(log: seq<Action>, replies: seq<Action>, cancelSent: bool, lastMessage: Option<string>, update: Update)
    requires Tracks(log, replies, cancelSent, lastMessage) && Ends(update)
    ensures var end := log + Ending(update, cancelSent, lastMessage);
            && Disciplined(end) && OnlyReplies(end) == replies
            && (SendCancel in end <==> cancelSent)
            && (KillGroup in end <==> update.TimedOut? && cancelSent)
            && LastEmitted(end) == lastMessage
  {
    var deliver := Deliver(ResultOf(update, cancelSent, lastMessage));
    OnlyRepliesAppend(log, Ending(update, cancelSent, lastMessage), false);
    if update.TimedOut? && cancelSent {
      AppendKeepsDiscipline(log, KillGroup);
      AppendKeepsDiscipline(log + [KillGroup], deliver);
      assert log + Ending(update, cancelSent, lastMessage) == log + [KillGroup] + [deliver];
    } else {
      AppendKeepsDiscipline(log, deliver);
      assert log + Ending(update, cancelSent, lastMessage) == log + [deliver];
    }
  }

  /** What the turn's log owes to the inputs up to the `last` one: one result, at the end and the one the last update calls
      for; the cancel notification if and only if the cell was seen set; a kill if and only if the wait after it timed out; and
      every reply. */
  ghost predicate Concluded(log: seq<Action>, inputs: seq<Input>, permission: Option<Permission>, last: nat)
    requires last < |inputs|
  {
    && Ends(inputs[last].update) && NoneEnds(inputs, last)
    && Disciplined(log)
    && log != [] && log[|log| - 1] == Deliver(ResultOf(inputs[last].update, Cancelling(inputs, last + 1), LastEmitted(log)))
    && (SendCancel in log <==> Cancelling(inputs, last + 1))
    && (KillGroup in log <==> inputs[last].update.TimedOut? && Cancelling(inputs, last + 1))
    && OnlyReplies(log) == Replies(inputs, permission, last + 1)
  }

  lemma EndingConcludes(log: seq<Action>, inputs: seq<Input>, permission: Option<Permission>, last: nat,
                        cancelSent: bool, lastMessage: Option<string>)
    requires last < |inputs| && Ends(inputs[last].update) && NoneEnds(inputs, last)
    requires cancelSent <==> Cancelling(inputs, last + 1)
    requires Tracks(log, Replies(inputs, permission, last), cancelSent, lastMessage)
    ensures Concluded(log + Ending(inputs[last].update, cancelSent, lastMessage), inputs, permission, last)
  {
    var update := inputs[last].update;
    var end := log + Ending(update, cancelSent, lastMessage);
    TracksEnding(log, Replies(inputs, permission, last), cancelSent, lastMessage, update);
    assert end[|end| - 1] == Deliver(ResultOf(update, cancelSent, lastMessage));
    assert Reply(update, permission, cancelSent) == [];
    assert Replies(inputs, permission, last + 1) == Replies(inputs, permission, last);
  }

  /** The cancel notification, in the first iteration that sees the cell set. */
  function CancelAt(inputs: seq<Input>, n: nat): seq<Action>
    requires n < |inputs|
  {
    if inputs[n].cancelled && !Cancelling(inputs, n) then [SendCancel] else []
  }

  /** Everything done about the first `n` inputs of a turn that none of them ends. */
  function Transcript(inputs: seq<Input>, permission: Option<Permission>, n: nat): seq<Action>
    requires n <= |inputs|
  {
    if n == 0 then []
    else
      Transcript(inputs, permission, n - 1) + CancelAt(inputs, n - 1)
      + Reply(inputs[n - 1].update, permission, Cancelling(inputs, n))
  }

  function LastMessage(inputs: seq<Input>, n: nat): Option<string>
    requires n <= |inputs|
  {
    if n == 0 then None else NextMessage(inputs[n - 1].update, LastMessage(inputs, n - 1))
  }

  /** The log of a turn that input `last` ends. */
  function FinishedLog(inputs: seq<Input>, permission: Option<Permission>, last: nat): seq<Action>
    requires last < |inputs| && Ends(inputs[last].update)
  {
    Transcript(inputs, permission, last) + CancelAt(inputs, last)
    + Ending(inputs[last].update, Cancelling(inputs, last + 1), LastMessage(inputs, last))
  }

  lemma SeenSet(inputs: seq<Input>, n: nat)
    requires n < |inputs|
    ensures Cancelling(inputs, n + 1) <==> Cancelling(inputs, n) || inputs[n].cancelled
  {
  }

  lemma CancelTracks(inputs: seq<Input>, n: nat, log: seq<Action>, replies: seq<Action>, lastMessage: Option<string>)
    requires n < |inputs| && Tracks(log, replies, Cancelling(inputs, n), lastMessage)
    ensures Tracks(log + CancelAt(inputs, n), replies, Cancelling(inputs, n + 1), lastMessage)
  {
    SeenSet(inputs, n);
    if CancelAt(inputs, n) != [] {
      TracksCancel(log, replies, lastMessage);
    } else {
      assert log + [] == log;
    }
  }

  lemma StepTracks(inputs: seq<Input>, permission: Option<Permission>, n: nat, log: seq<Action>, replies: seq<Action>,
                   lastMessage: Option<string>)
    requires n < |inputs| && Tracks(log, replies, Cancelling(inputs, n), lastMessage)
    ensures var reply := Reply(inputs[n].update, permission, Cancelling(inputs, n + 1));
            Tracks(log + CancelAt(inputs, n) + reply, replies + reply, Cancelling(inputs, n + 1),
                   NextMessage(inputs[n].update, lastMessage))
  {
    CancelTracks(inputs, n, log, replies, lastMessage);
    TracksReply(log + CancelAt(inputs, n), replies, Cancelling(inputs, n + 1), lastMessage, inputs[n].update, permission);
  }

  lemma NothingTracked()
    ensures Tracks([], [], false, None)
  {
  }

  /** While no update has ended the turn, no result is delivered, nothing is killed, and the log is disciplined: the cancel
      notification went out if and only if the cell was seen set, and every reply was made in order. */
  lemma {:induction false} UnfinishedTurnIsSafe(inputs: seq<Input>, permission: Option<Permission>, n: nat)
    requires n <= |inputs|
    ensures Tracks(Transcript(inputs, permission, n), Replies(inputs, permission, n), Cancelling(inputs, n), LastMessage(inputs, n))
  {
    if n == 0 {
      NothingTracked();
    } else {
      var m: nat := n - 1;
      UnfinishedTurnIsSafe(inputs, permission, m);
      StepTracks(inputs, permission, m, Transcript(inputs, permission, m), Replies(inputs, permission, m), LastMessage(inputs, m));
      assert m + 1 == n;
    }
  }

  /** The log up to the actions that end the turn. */
  lemma TrackedUpToEnding(inputs: seq<Input>, permission: Option<Permission>, n: nat)
    requires n < |inputs|
    ensures Tracks(Transcript(inputs, permission, n) + CancelAt(inputs, n), Replies(inputs, permission, n),
                   Cancelling(inputs, n + 1), LastMessage(inputs, n))
  {
    UnfinishedTurnIsSafe(inputs, permission, n);
    CancelTracks(inputs, n, Transcript(inputs, permission, n), Replies(inputs, permission, n), LastMessage(inputs, n));
  }

  /** Turn safety, over every sequence of updates, timeouts and cancellations: the log of a finished turn is concluded. */
  lemma FinishedTurnIsSafe(inputs: seq<Input>, permission: Option<Permission>, last: nat)
    requires last < |inputs| && Ends(inputs[last].update) && NoneEnds(inputs, last)
    ensures Concluded(FinishedLog(inputs, permission, last), inputs, permission, last)
  {
    TrackedUpToEnding(inputs, permission, last);
    EndingConcludes(Transcript(inputs, permission, last) + CancelAt(inputs, last), inputs, permission, last,
                    Cancelling(inputs, last + 1), LastMessage(inputs, last));
  }

  /** How a turn that input `last` ends comes out, by its inputs: `a` is the last action of its log. */
  ghost predicate ComesOut(a: Action, inputs: seq<Input>, last: nat)
    requires last < |inputs|
  {
    var update := inputs[last].update;
    var cancelled := exists i :: 0 <= i <= last && inputs[i].cancelled;
    && a.Deliver?
    && ((a.result.Done? && a.result.outcome == Succeeded) <==> update == Stopped(EndTurn) && !cancelled)
    && ((a.result.Done? && a.result.outcome == Cancelled) <==>
          update == Stopped(StoppedCancelled) || (update == Stopped(EndTurn) && cancelled))
    && ((a.result.Done? && a.result.outcome == Failed) <==> update == Stopped(OtherReason))
    && (a.result == TurnFailed <==> update == ReadFailed)
    && (a.result == TurnCancelled <==> update == TimedOut && cancelled)
    && (a.result == ReadTimeout <==> update == TimedOut && !cancelled)
  }

  /** A turn succeeds exactly if the agent ended it and it was never cancelled, and so on for each outcome and error. */
  lemma OutcomeExactly(inputs: seq<Input>, permission: Option<Permission>, last: nat)
    requires last < |inputs| && Ends(inputs[last].update)
    ensures var log := FinishedLog(inputs, permission, last); log != [] && ComesOut(log[|log| - 1], inputs, last)
  {
    assert Cancelling(inputs, last + 1) <==> exists i :: 0 <= i <= last && inputs[i].cancelled;
    var log := FinishedLog(inputs, permission, last);
    assert log[|log| - 1] ==
           Deliver(ResultOf(inputs[last].update, Cancelling(inputs, last + 1), LastMessage(inputs, last)));
  }

  /** Action `i` is the last text of the log. */
  predicate LastTextAt(log: seq<Action>, i: int) {
    0 <= i < |log| && log[i].Emit? && log[i].event.Text? && forall j :: i < j < |log| ==> !(log[j].Emit? && log[j].event.Text?)
  }

  lemma {:induction false} LastEmittedExactly(log: seq<Action>)
    ensures LastEmitted(log).None? <==> forall i :: 0 <= i < |log| ==> !(log[i].Emit? && log[i].event.Text?)
    ensures forall i :: LastTextAt(log, i) ==> LastEmitted(log) == Some(log[i].event.text)
  {
    if log != [] {
      var front, n := log[..|log| - 1], |log| - 1;
      LastEmittedExactly(front);
      forall i | LastTextAt(log, i) ensures LastEmitted(log) == Some(log[i].event.text) {
        if i < n {
          assert LastTextAt(front, i);
        }
      }
      if LastEmitted(log).None? {
        assert forall i :: 0 <= i < n ==> log[i] == front[i];
      }
    }
  }

  /** One more input that does not end the turn. */
  lemma TranscriptGrows(inputs: seq<Input>, permission: Option<Permission>, n: nat)
    requires n < |inputs| && !Ends(inputs[n].update) && NoneEnds(inputs, n)
    ensures Transcript(inputs, permission, n + 1)
            == Transcript(inputs, permission, n) + CancelAt(inputs, n)
               + Reply(inputs[n].update, permission, Cancelling(inputs, n + 1))
    ensures LastMessage(inputs, n + 1) == NextMessage(inputs[n].update, LastMessage(inputs, n))
    ensures NoneEnds(inputs, n + 1)
  {
  }

  /** The arms of the loop that deliver the result and return. */
  method EndTurnWith(update: Update, cancelSent: bool, lastMessage: Option<string>) returns (actions: seq<Action>)
    requires Ends(update)
    ensures actions == Ending(update, cancelSent, lastMessage)
  {
    match update {
      case Stopped(reason) =>
        actions := [Deliver(Done(MapStopReason(reason, cancelSent), lastMessage))];
      case ReadFailed =>
        actions := [Deliver(TurnFailed)];
      case TimedOut =>
        if cancelSent {
          actions := [KillGroup, Deliver(TurnCancelled)];
        } else {
          actions := [Deliver(ReadTimeout)];
        }
    }
  }

  /** The arms of the loop that go on. */
  method Handle(update: Update, permission: Option<Permission>, cancelSent: bool, before: Option<string>)
    returns (actions: seq<Action>, lastMessage: Option<string>)
    requires !Ends(update)
    ensures actions == Reply(update, permission, cancelSent) && lastMessage == NextMessage(update, before)
  {
    actions, lastMessage := [], before;
    match update {
      case Notified(events) =>
        lastMessage := LastText(events, before);
        actions := Emits(events);
      case Requested(options, tool) =>
        actions := [Answer(Decide(options, permission, tool, cancelSent))];
      case Ignored =>
    }
  }

  /** Runs until an update ends the turn (`used` inputs read) or the inputs run out. */
  method ProcessOneTurn(promptSent: bool, inputs: seq<Input>, permission: Option<Permission>)
    returns (log: seq<Action>, used: nat, finished: bool)
    ensures used <= |inputs|
    ensures !promptSent ==> finished && used == 0 && log == [Deliver(TurnFailed)]
    ensures promptSent && finished ==>
              && used > 0 && Ends(inputs[used - 1].update) && NoneEnds(inputs, used - 1)
              && log == FinishedLog(inputs, permission, used - 1)
              && log != [] && ComesOut(log[|log| - 1], inputs, used - 1)
    ensures !finished ==>
              && used == |inputs| && NoneEnds(inputs, used)
              && log == Transcript(inputs, permission, used)
  {
    log, used, finished := [], 0, false;
    if !promptSent {
      return [Deliver(TurnFailed)], 0, true;
    }
    var cancelSent := false;
    var lastMessage: Option<string> := None;
    while used < |inputs|
      invariant used <= |inputs|
      invariant NoneEnds(inputs, used)
      invariant cancelSent <==> Cancelling(inputs, used)
      invariant lastMessage == LastMessage(inputs, used)
      invariant log == Transcript(inputs, permission, used)
    {
      var input := inputs[used];
      SeenSet(inputs, used);
      if input.cancelled && !cancelSent {
        log := log + [SendCancel];
        cancelSent := true;
      } else {
        assert log + [] == log;
      }
      assert log == Transcript(inputs, permission, used) + CancelAt(inputs, used);
      var actions: seq<Action>;
      if Ends(input.update) {
        actions := EndTurnWith(input.update, cancelSent, lastMessage);
        OutcomeExactly(inputs, permission, used);
        return log + actions, used + 1, true;
      }
      actions, lastMessage := Handle(input.update, permission, cancelSent, lastMessage);
      TranscriptGrows(inputs, permission, used);
      log := log + actions;
      used := used + 1;
    }
  }
}
