/** Workspace keys and issue identifiers. */
module Workspace {

  predicate AsciiAlphanumeric(c: char) {
    ('a' <= c <= 'z') || ('A' <= c <= 'Z') || ('0' <= c <= '9')
  }

  predicate KeyChar(c: char) {
    AsciiAlphanumeric(c) || c == '.' || c == '_' || c == '-'
  }

  /** Every character outside `[A-Za-z0-9._-]` becomes a dash. */
  function Sanitize(identifier: string): string {
    seq(|identifier|, i requires 0 <= i < |identifier| => if KeyChar(identifier[i]) then identifier[i] else '-')
  }

  /** The key is as long as the identifier; its letters, digits, dots, underscores and dashes are kept, and any other
      character is a dash. */
  lemma SanitizeExactly(identifier: string, i: nat)
    requires i < |identifier|
    ensures |Sanitize(identifier)| == |identifier|
    ensures var c := identifier[i] as int;
            if 97 <= c <= 122 || 65 <= c <= 90 || 48 <= c <= 57 || c == 46 || c == 95 || c == 45
            then Sanitize(identifier)[i] == identifier[i]
            else Sanitize(identifier)[i] == '-'
  {
  }

  function WorkspacePath(root: string, identifier: string): string {
    root + "/" + Sanitize(identifier)
  }

  /** Decimal digits, as `format!("{number}")` prints a non-negative number. */
  function Decimal(n: nat): (s: string)
    ensures s != [] && forall i :: 0 <= i < |s| ==> '0' <= s[i] <= '9'
  {
    var digit := ['0' + (n % 10) as char];
    if n < 10 then digit else Decimal(n / 10) + digit
  }

  /** The number decimal digits stand for. */
  function DecimalValue(s: string): int {
    if s == [] then 0 else 10 * DecimalValue(s[..|s| - 1]) + (s[|s| - 1] as int - 48)
  }

  /** Printing a number gives its digits, without leading zeros. */
  lemma {:induction false} DecimalExactly(n: nat)
    ensures DecimalValue(Decimal(n)) == n
    ensures n > 0 ==> Decimal(n)[0] != '0'
  {
    var digit := ['0' + (n % 10) as char];
    assert DecimalValue(digit) == n % 10 by {
      assert digit[..0] == [];
    }
    if n >= 10 {
      DecimalExactly(n / 10);
      assert (Decimal(n / 10) + digit)[..|Decimal(n / 10)|] == Decimal(n / 10);
    }
  }

  /** `normalize_item` names issue `number` of a repository `<repo>#<number>`. */
  function IssueName(repo: string, number: nat): string {
    repo + "#" + Decimal(number)
  }

  ghost predicate IsIssueName(repo: string, identifier: string) {
    exists number :: identifier == IssueName(repo, number)
  }

  lemma SanitizeKeepsNames(repo: string, m: nat, n: nat)
    requires Sanitize(IssueName(repo, m)) == Sanitize(IssueName(repo, n))
    ensures IssueName(repo, m) == IssueName(repo, n)
  {
    var a, b := IssueName(repo, m), IssueName(repo, n);
    assert |Sanitize(a)| == |a| && |Sanitize(b)| == |b|;
    forall i | 0 <= i < |a| ensures a[i] == b[i] {
      assert Sanitize(a)[i] == Sanitize(b)[i];
      if i < |repo| {
        assert a[i] == repo[i] == b[i];
      }
    }
  }

  /** Sanitizing loses nothing on the identifiers of one repository. */
  lemma PathsKeepIssuesApart(root: string, repo: string, a: string, b: string)
    requires IsIssueName(repo, a) && IsIssueName(repo, b)
    ensures WorkspacePath(root, a) == WorkspacePath(root, b) ==> a == b
  {
    var m :| a == IssueName(repo, m);
    var n :| b == IssueName(repo, n);
    var pa, pb := WorkspacePath(root, a), WorkspacePath(root, b);
    var skip := |root| + 1;
    assert pa[skip..] == Sanitize(a) && pb[skip..] == Sanitize(b);
    if pa == pb {
      SanitizeKeepsNames(repo, m, n);
    }
  }
}
