/** Issues as the scheduler sees them, and the order in which it dispatches them. */
module Tracker {
  import opened Prelude
  import opened Config

  const I32_MAX: int := 0x7fff_ffff

  /** `blockers` holds the state of each blocking issue, `None` where it is unknown. */
  datatype Issue = Issue(
    id: string,
    identifier: string,
    state: string,
    priority: Option<int>,
    createdAt: Option<int>,
    blockers: seq<Option<string>>)
  {
    predicate IsBlocked(terminal: seq<string>) {
      exists i :: 0 <= i < |blockers| && blockers[i].Some? && Lower(blockers[i].value) !in terminal
    }
  }

  /** The two filters `tick` applies to the candidates. */
  predicate Eligible(c: Settings, issue: Issue) {
    && c.Workable(issue.state)
    && (Lower(issue.state) == "todo" ==> !issue.IsBlocked(c.TerminalStates()))
  }

  /** Code-point order of strings, which is the byte order of their UTF-8 forms. */
  predicate StringLeq(a: string, b: string) {
    a == [] || (b != [] && (a[0] < b[0] || (a[0] == b[0] && StringLeq(a[1..], b[1..]))))
  }

  predicate TimeLeq(a: Option<int>, b: Option<int>) {
    a.None? || (b.Some? && a.value <= b.value)
  }

  /** Priority, then age, then identifier: `a` may be dispatched no later than `b`. */
  predicate Before(a: Issue, b: Issue) {
    var pa, pb := a.priority.GetOr(I32_MAX), b.priority.GetOr(I32_MAX);
    || pa < pb
    || (pa == pb && a.createdAt != b.createdAt && TimeLeq(a.createdAt, b.createdAt))
    || (pa == pb && a.createdAt == b.createdAt && StringLeq(a.identifier, b.identifier))
  }

  /** Which issues may be dispatched, spelled out: in an active and not a terminal state, and if that state is "todo", with
      every blocking issue whose state is known in a terminal one. */
  lemma EligibleExactly(c: Settings, issue: Issue)
    ensures Eligible(c, issue) <==>
            && Lower(issue.state) in c.ActiveStates() && Lower(issue.state) !in c.TerminalStates()
            && (Lower(issue.state) == "todo" ==>
                  forall i :: 0 <= i < |issue.blockers| ==>
                    issue.blockers[i].None? || Lower(issue.blockers[i].value) in c.TerminalStates())
  {
  }

  /** `a` comes first in a dictionary: they agree on `k` characters, and then `a` ends, or has the smaller one. */
  predicate DivergesAt(a: string, b: string, k: nat) {
    && k <= |a| && k <= |b| && a[..k] == b[..k]
    && (k == |a| || (k < |b| && a[k] < b[k]))
  }

  /** The order the candidates are meant to be in, by their fields: the lower priority number first, a missing one last; then
      the older, an unknown age first; then the identifiers as in a dictionary. */
  ghost predicate InOrder(a: Issue, b: Issue) {
    var pa := if a.priority.Some? then a.priority.value else 0x7fff_ffff;
    var pb := if b.priority.Some? then b.priority.value else 0x7fff_ffff;
    && pa <= pb
    && (pa == pb ==> a.createdAt.None? || (b.createdAt.Some? && a.createdAt.value <= b.createdAt.value))
    && (pa == pb && a.createdAt == b.createdAt ==> exists k :: DivergesAt(a.identifier, b.identifier, k))
  }

  lemma {:induction false} StringLeqMeans(a: string, b: string)
    ensures StringLeq(a, b) <==> exists k :: DivergesAt(a, b, k)
    decreases |a|
  {
    if a == [] {
      assert DivergesAt(a, b, 0);
    } else if b == [] || a[0] != b[0] {
      forall k: nat | 0 < k <= |a| && k <= |b| ensures a[..k] != b[..k] {
        assert a[..k][0] == a[0] && b[..k][0] == b[0];
      }
      assert StringLeq(a, b) ==> DivergesAt(a, b, 0);
    } else {
      StringLeqMeans(a[1..], b[1..]);
      if k :| DivergesAt(a[1..], b[1..], k) {
        DivergesBehind(a, b, k);
      }
      if k :| DivergesAt(a, b, k) {
        DivergesBefore(a, b, k);
      }
    }
  }

  lemma DivergesBehind(a: string, b: string, k: nat)
    requires a != [] && b != [] && a[0] == b[0] && DivergesAt(a[1..], b[1..], k)
    ensures DivergesAt(a, b, k + 1)
  {
    assert a[..k + 1] == [a[0]] + a[1..][..k] && b[..k + 1] == [b[0]] + b[1..][..k];
  }

  lemma DivergesBefore(a: string, b: string, k: nat)
    requires a != [] && b != [] && a[0] == b[0] && DivergesAt(a, b, k)
    ensures k > 0 && DivergesAt(a[1..], b[1..], k - 1)
  {
    assert k > 0;
    assert a[1..][..k - 1] == a[..k][1..] && b[1..][..k - 1] == b[..k][1..];
  }

  /** The comparator decides that order. */
  lemma BeforeIsInOrder(a: Issue, b: Issue)
    ensures Before(a, b) <==> InOrder(a, b)
  {
    StringLeqMeans(a.identifier, b.identifier);
  }

  lemma {:induction false} StringLeqTotal(a: string, b: string)
    ensures StringLeq(a, b) || StringLeq(b, a)
    ensures StringLeq(a, b) && StringLeq(b, a) ==> a == b
    decreases |a|
  {
    if a != [] && b != [] && a[0] == b[0] {
      StringLeqTotal(a[1..], b[1..]);
      assert a == [a[0]] + a[1..] && b == [b[0]] + b[1..];
    }
  }

  lemma {:induction false} StringLeqTransitive(a: string, b: string, c: string)
    requires StringLeq(a, b) && StringLeq(b, c)
    ensures StringLeq(a, c)
    decreases |a|
  {
    if a != [] && a[0] == b[0] == c[0] {
      StringLeqTransitive(a[1..], b[1..], c[1..]);
    }
  }

  /** The dispatch comparator is a total preorder whose ties agree on all three keys. */
  lemma BeforeIsTotalPreorder(a: Issue, b: Issue, c: Issue)
    ensures Before(a, a)
    ensures Before(a, b) || Before(b, a)
    ensures Before(a, b) && Before(b, c) ==> Before(a, c)
    ensures Before(a, b) && Before(b, a) ==>
              a.priority.GetOr(I32_MAX) == b.priority.GetOr(I32_MAX) && a.createdAt == b.createdAt && a.identifier == b.identifier
  {
    StringLeqTotal(a.identifier, a.identifier);
    StringLeqTotal(a.identifier, b.identifier);
    if StringLeq(a.identifier, b.identifier) && StringLeq(b.identifier, c.identifier) {
      StringLeqTransitive(a.identifier, b.identifier, c.identifier);
    }
  }

  ghost predicate Sorted(issues: seq<Issue>) {
    forall i, j :: 0 <= i < j < |issues| ==> Before(issues[i], issues[j])
  }

  /** One step of a stable sort: `issue` goes in front of the first element it strictly precedes. */
  function Insert(issue: Issue, sorted: seq<Issue>): (r: seq<Issue>)
    ensures multiset(r) == multiset(sorted) + multiset{issue}
  {
    if sorted == [] then [issue]
    else if !Before(sorted[0], issue) then [issue] + sorted
    else
      assert sorted == [sorted[0]] + sorted[1..];
      [sorted[0]] + Insert(issue, sorted[1..])
  }

  /** `sort_by` with the dispatch comparator, for any list of candidates. */
  function SortByDispatchOrder(issues: seq<Issue>): (r: seq<Issue>)
    ensures multiset(r) == multiset(issues)
  {
    if issues == [] then []
    else
      var n := |issues| - 1;
      assert issues == issues[..n] + [issues[n]];
      Insert(issues[n], SortByDispatchOrder(issues[..n]))
  }

  lemma {:induction false} InsertKeepsSorted(issue: Issue, sorted: seq<Issue>)
    requires Sorted(sorted)
    ensures Sorted(Insert(issue, sorted))
    decreases |sorted|
  {
    if sorted == [] {
    } else if !Before(sorted[0], issue) {
      forall j | 0 <= j < |sorted| ensures Before(issue, sorted[j]) {
        BeforeIsTotalPreorder(issue, sorted[0], sorted[j]);
      }
    } else {
      var rest := Insert(issue, sorted[1..]);
      InsertKeepsSorted(issue, sorted[1..]);
      forall j | 0 <= j < |rest| ensures Before(sorted[0], rest[j]) {
        assert rest[j] in multiset(rest);
        assert rest[j] == issue || rest[j] in multiset(sorted[1..]);
      }
    }
  }

  lemma SortedIsInOrder(issues: seq<Issue>)
    ensures Sorted(issues) <==> forall i, j :: 0 <= i < j < |issues| ==> InOrder(issues[i], issues[j])
  {
    forall i, j | 0 <= i < j < |issues| ensures Before(issues[i], issues[j]) <==> InOrder(issues[i], issues[j]) {
      BeforeIsInOrder(issues[i], issues[j]);
    }
  }

  /** The sorted candidates are the candidates, in that order. */
  lemma SortOrders(issues: seq<Issue>)
    ensures multiset(SortByDispatchOrder(issues)) == multiset(issues)
    ensures forall i, j :: 0 <= i < j < |SortByDispatchOrder(issues)| ==>
              InOrder(SortByDispatchOrder(issues)[i], SortByDispatchOrder(issues)[j])
  {
    SortSorts(issues);
    SortedIsInOrder(SortByDispatchOrder(issues));
  }

  lemma {:induction false} SortSorts(issues: seq<Issue>)
    ensures Sorted(SortByDispatchOrder(issues))
    decreases |issues|
  {
    if issues != [] {
      var n := |issues| - 1;
      SortSorts(issues[..n]);
      InsertKeepsSorted(issues[n], SortByDispatchOrder(issues[..n]));
    }
  }
}
