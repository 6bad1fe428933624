/** `shell_escape`: seventeen chained replacements. */
module ShellEscape {
  import opened Prelude

  /** `str::replace` of a single character. */
  function Replace(s: string, c: char, text: string): string {
    if s == [] then [] else (if s[0] == c then text else [s[0]]) + Replace(s[1..], c, text)
  }

  const REPLACEMENTS: seq<(char, string)> := [
    ('\\', "\\\\"), ('"', "\\\""), ('$', "\\$"), ('`', "\\`"), ('\'', "\\'"), (';', "\\;"), ('|', "\\|"), ('&', "\\&"),
    ('<', "\\<"), ('>', "\\>"), ('(', "\\("), (')', "\\)"), ('*', "\\*"), ('?', "\\?"), ('[', "\\["), (']', "\\]"),
    ('\n', "\\n")]

  function ReplaceChain(s: string, rs: seq<(char, string)>): string
    decreases |rs|
  {
    if rs == [] then s else ReplaceChain(Replace(s, rs[0].0, rs[0].1), rs[1..])
  }

  function Escape(s: string): string {
    ReplaceChain(s, REPLACEMENTS)
  }

  // ---- One pass over the characters ----

  predicate IsSpecial(c: char) {
    c in "\\\"$`';|&<>()*?[]\n"
  }

  /** The character that stands for `c` behind a backslash. */
  function Code(c: char): char {
    if c == '\n' then 'n' else c
  }

  function EscapeChar(c: char): string {
    if IsSpecial(c) then ['\\', Code(c)] else [c]
  }

  function OnePass(s: string): string {
    if s == [] then [] else EscapeChar(s[0]) + OnePass(s[1..])
  }

  /** Drops each backslash and keeps what it stands before. */
  function Unescape(s: string): string {
    if s == [] then []
    else if s[0] == '\\' && |s| > 1 then [if s[1] == 'n' then '\n' else s[1]] + Unescape(s[2..])
    else [s[0]] + Unescape(s[1..])
  }

  lemma {:induction false} ReplaceDistributes(a: string, b: string, c: char, text: string)
    ensures Replace(a + b, c, text) == Replace(a, c, text) + Replace(b, c, text)
  {
    if a == [] {
      assert a + b == b;
    } else {
      assert (a + b)[1..] == a[1..] + b;
      ReplaceDistributes(a[1..], b, c, text);
    }
  }

  lemma {:induction false} ChainDistributes(a: string, b: string, rs: seq<(char, string)>)
    ensures ReplaceChain(a + b, rs) == ReplaceChain(a, rs) + ReplaceChain(b, rs)
    decreases |rs|
  {
    if rs != [] {
      ReplaceDistributes(a, b, rs[0].0, rs[0].1);
      ChainDistributes(Replace(a, rs[0].0, rs[0].1), Replace(b, rs[0].0, rs[0].1), rs[1..]);
    }
  }

  /** Replacements of distinct characters, none of which a replacement can bring in. */
  predicate Independent(rs: seq<(char, string)>) {
    && (forall i :: 0 <= i < |rs| ==> rs[i].0 != '\\' && rs[i].0 != 'n' && rs[i].1 == ['\\', Code(rs[i].0)])
    && (forall i, j :: 0 <= i < j < |rs| ==> rs[i].0 != rs[j].0)
  }

  predicate Replaces(rs: seq<(char, string)>, c: char) {
    exists i :: 0 <= i < |rs| && rs[i].0 == c
  }

  lemma {:induction false} ReplaceNothing(s: string, c: char, text: string)
    requires c !in s
    ensures Replace(s, c, text) == s
  {
    if s != [] {
      ReplaceNothing(s[1..], c, text);
    }
  }

  lemma {:induction false} ChainLeaves(s: string, rs: seq<(char, string)>)
    requires forall i :: 0 <= i < |rs| ==> rs[i].0 !in s
    ensures ReplaceChain(s, rs) == s
    decreases |rs|
  {
    if rs != [] {
      ReplaceNothing(s, rs[0].0, rs[0].1);
      ChainLeaves(s, rs[1..]);
    }
  }

  lemma {:induction false} ChainOnChar(c: char, rs: seq<(char, string)>)
    requires Independent(rs)
    ensures ReplaceChain([c], rs) == if Replaces(rs, c) then ['\\', Code(c)] else [c]
    decreases |rs|
  {
    if rs != [] {
      var rest := rs[1..];
      assert Independent(rest);
      assert Replace([c], rs[0].0, rs[0].1) == if c == rs[0].0 then rs[0].1 else [c] by {
        assert [c][1..] == [];
      }
      if c == rs[0].0 {
        assert forall i :: 0 <= i < |rest| ==> rest[i].0 == rs[i + 1].0;
        ChainLeaves(['\\', Code(c)], rest);
      } else {
        ChainOnChar(c, rest);
        assert Replaces(rs, c) <==> Replaces(rest, c) by {
          assert forall i :: 1 <= i < |rs| ==> rest[i - 1] == rs[i];
          assert forall i :: 0 <= i < |rest| ==> rest[i] == rs[i + 1];
        }
      }
    }
  }

  const REST: string := "\"$`';|&<>()*?[]\n"

  /** Where a character stands in `REST`. */
  function IndexInRest(c: char): int {
    if c == '"' then 0 else if c == '$' then 1 else if c == '`' then 2 else if c == '\'' then 3
    else if c == ';' then 4 else if c == '|' then 5 else if c == '&' then 6 else if c == '<' then 7
    else if c == '>' then 8 else if c == '(' then 9 else if c == ')' then 10 else if c == '*' then 11
    else if c == '?' then 12 else if c == '[' then 13 else if c == ']' then 14 else 15
  }

  lemma RestKeys()
    ensures |REPLACEMENTS[1..]| == |REST| == 16
    ensures forall i :: 0 <= i < 16 ==> REPLACEMENTS[1..][i].0 == REST[i]
    ensures forall i :: 0 <= i < 16 ==> REPLACEMENTS[1..][i].1 == ['\\', Code(REST[i])]
  {
  }

  lemma RestPlaces()
    ensures forall i :: 0 <= i < 16 ==> IndexInRest(REST[i]) == i
    ensures forall i :: 0 <= i < 16 ==> REST[i] != '\\' && REST[i] != 'n'
  {
  }

  lemma RestIsIndependent()
    ensures Independent(REPLACEMENTS[1..])
  {
    RestKeys();
    RestPlaces();
  }

  lemma RestReplacesSpecials(c: char)
    ensures Replaces(REPLACEMENTS[1..], c) <==> IsSpecial(c) && c != '\\'
  {
    RestKeys();
    assert c in REST <==> IsSpecial(c) && c != '\\' by {
      assert "\\\"$`';|&<>()*?[]\n" == ['\\'] + REST;
    }
  }

  lemma EscapeOfChar(c: char)
    ensures Escape([c]) == EscapeChar(c)
  {
    RestIsIndependent();
    RestReplacesSpecials(c);
    var rest := REPLACEMENTS[1..];
    assert Replace([c], '\\', "\\\\") == if c == '\\' then "\\\\" else [c] by {
      assert [c][1..] == [];
    }
    if c == '\\' {
      ChainLeaves("\\\\", rest);
    } else {
      ChainOnChar(c, rest);
    }
  }

  /** The chain is one pass over the characters: no replacement touches what an earlier one put in. */
  lemma {:induction false} EscapeIsOnePass(s: string)
    ensures Escape(s) == OnePass(s)
  {
    if s == [] {
      ChainLeaves(s, REPLACEMENTS);
    } else {
      assert s == [s[0]] + s[1..];
      ChainDistributes([s[0]], s[1..], REPLACEMENTS);
      EscapeOfChar(s[0]);
      EscapeIsOnePass(s[1..]);
    }
  }

  lemma {:induction false} OnePassIsUndone(s: string)
    ensures Unescape(OnePass(s)) == s
  {
    if s != [] {
      OnePassIsUndone(s[1..]);
      var rest := OnePass(s[1..]);
      if IsSpecial(s[0]) {
        assert (['\\', Code(s[0])] + rest)[2..] == rest;
      } else {
        assert ([s[0]] + rest)[1..] == rest;
      }
    }
  }

  /** Nothing is lost: the escaped text determines the original. */
  lemma EscapeRoundTrip(s: string)
    ensures Unescape(Escape(s)) == s
  {
    EscapeIsOnePass(s);
    OnePassIsUndone(s);
  }

  // ---- Quote removal by itself ----

  /** Quote removal outside quotation marks: a backslash goes, and the character behind it stays as it is. */
  function QuoteRemoval(s: string): string {
    if s == [] then []
    else if s[0] == '\\' && |s| > 1 then [s[1]] + QuoteRemoval(s[2..])
    else [s[0]] + QuoteRemoval(s[1..])
  }

  function Codes(s: string): string {
    seq(|s|, i requires 0 <= i < |s| => Code(s[i]))
  }

  lemma CodesOfCons(c: char, s: string)
    ensures Codes([c] + s) == [Code(c)] + Codes(s)
  {
  }

  lemma CodesKeepExactly(s: string)
    ensures Codes(s) == s <==> '\n' !in s
  {
    if '\n' in s {
      var i :| 0 <= i < |s| && s[i] == '\n';
      assert Codes(s)[i] == 'n';
    }
  }

  lemma {:induction false} QuoteRemovalOfOnePass(s: string)
    ensures QuoteRemoval(OnePass(s)) == Codes(s)
  {
    if s != [] {
      QuoteRemovalOfOnePass(s[1..]);
      CodesOfCons(s[0], s[1..]);
      assert [s[0]] + s[1..] == s;
      var rest := OnePass(s[1..]);
      if IsSpecial(s[0]) {
        assert (['\\', Code(s[0])] + rest)[2..] == rest;
      } else {
        assert ([s[0]] + rest)[1..] == rest;
      }
    }
  }

  /** Quote removal alone, without the splitting and the expansions that come before it, gives the text back if and only
      if it holds no newline: an escaped newline reads as the letter `n`. */
  lemma SurvivesQuoteRemovalExactly(s: string)
    ensures QuoteRemoval(Escape(s)) == s <==> '\n' !in s
  {
    EscapeIsOnePass(s);
    QuoteRemovalOfOnePass(s);
    CodesKeepExactly(s);
  }

  // ---- Between double quotes ----

  /** The characters a backslash still quotes between double quotes. */
  predicate QuotableInside(c: char) {
    c == '\\' || c == '"' || c == '$' || c == '`'
  }

  /** What a shell reads between double quotes, or `None` if the text does not stand for itself there: it closes the
      quotes, starts an expansion, or ends in a backslash that takes the closing quote. Before any other character
      than the quotable ones a backslash stays; before a newline it goes together with the newline. */
  function ReadInside(s: string): Option<string> {
    if s == [] then Some([])
    else if s[0] == '\\' then
      if |s| == 1 then None
      else if s[1] == '\n' then ReadInside(s[2..])
      else Prepend(if QuotableInside(s[1]) then [s[1]] else s[..2], ReadInside(s[2..]))
    else if QuotableInside(s[0]) then None
    else Prepend([s[0]], ReadInside(s[1..]))
  }

  function Prepend(front: string, rest: Option<string>): Option<string> {
    match rest
    case None => None
    case Some(s) => Some(front + s)
  }

  /** What becomes of one escaped character: the backslash goes or stays. */
  function InsideForm(c: char): string {
    if IsSpecial(c) && !QuotableInside(c) then ['\\', Code(c)] else [c]
  }

  function InsideForms(s: string): string {
    if s == [] then [] else InsideForm(s[0]) + InsideForms(s[1..])
  }

  lemma {:induction false} ReadInsideOfOnePass(s: string)
    ensures ReadInside(OnePass(s)) == Some(InsideForms(s))
  {
    if s != [] {
      ReadInsideOfOnePass(s[1..]);
      var rest := OnePass(s[1..]);
      if IsSpecial(s[0]) {
        var all := ['\\', Code(s[0])] + rest;
        assert all[2..] == rest && all[..2] == ['\\', Code(s[0])];
      } else {
        assert ([s[0]] + rest)[1..] == rest;
      }
    }
  }

  /** Every special character is one a backslash quotes between double quotes. */
  predicate OnlyQuotable(s: string) {
    forall i :: 0 <= i < |s| && IsSpecial(s[i]) ==> QuotableInside(s[i])
  }

  lemma {:induction false} FormsGrow(s: string)
    ensures |InsideForms(s)| >= |s|
    ensures |InsideForms(s)| == |s| <==> OnlyQuotable(s)
    ensures OnlyQuotable(s) ==> InsideForms(s) == s
  {
    if s != [] {
      FormsGrow(s[1..]);
      assert OnlyQuotable(s) <==> OnlyQuotable(s[1..]) && (IsSpecial(s[0]) ==> QuotableInside(s[0])) by {
        assert forall i :: 0 < i < |s| ==> s[1..][i - 1] == s[i];
      }
    }
  }

  /** The paths are put between double quotes. The escaped text never breaks out of them, and it reads as the original if
      and only if every special character of it is a backslash, a double quote, a dollar sign or a backtick: before
      any other the shell keeps the backslash. */
  lemma ReadsBackInsideQuotesExactly(s: string)
    ensures ReadInside(Escape(s)).Some?
    ensures ReadInside(Escape(s)) == Some(s) <==> OnlyQuotable(s)
  {
    EscapeIsOnePass(s);
    ReadInsideOfOnePass(s);
    FormsGrow(s);
  }

  // ---- As an argument, without quotes ----

  predicate NameStart(c: char) {
    ('a' <= c <= 'z') || ('A' <= c <= 'Z') || c == '_'
  }

  predicate NameChar(c: char) {
    NameStart(c) || '0' <= c <= '9'
  }

  /** Where in a word the next character stands. A word that begins like an assignment, with an unquoted name and `=` or
      `+=`, has a value; its `Opening`s are the places behind that `=` and behind each unquoted colon after it. */
  datatype Place = Start | Naming | Plus | Opening | Value | Elsewhere

  function Unquoted(place: Place, c: char): Place {
    match place
    case Start => if NameStart(c) then Naming else Elsewhere
    case Naming => if NameChar(c) then Naming else if c == '=' then Opening else if c == '+' then Plus else Elsewhere
    case Plus => if c == '=' then Opening else Elsewhere
    case Opening => if c == ':' then Opening else Value
    case Value => if c == ':' then Opening else Value
    case Elsewhere => Elsewhere
  }

  function Quoted(place: Place): Place {
    if place.Opening? || place.Value? then Value else Elsewhere
  }

  /** The unquoted characters that split a word, end a command, quote, or may expand. A number sign starts a comment at
      the start of a word only; a tilde expands there and at the openings of a value. Braces count wherever they stand. */
  predicate Active(c: char, place: Place) {
    || c in " \t\n|&;()<>'\"$`*?[{}"
    || (c == '#' && place.Start?)
    || (c == '~' && (place.Start? || place.Opening?))
  }

  /** The rest of a word that stands for itself, or `None`. */
  function ReadWord(s: string, place: Place): Option<string> {
    if s == [] then Some([])
    else if s[0] == '\\' then
      if |s| == 1 then None
      else if s[1] == '\n' then ReadWord(s[2..], place)
      else Prepend([s[1]], ReadWord(s[2..], Quoted(place)))
    else if Active(s[0], place) then None
    else Prepend([s[0]], ReadWord(s[1..], Unquoted(place, s[0])))
  }

  /** The one argument a shell is sure to read; an empty text is no argument at all. */
  function ReadArgument(s: string): Option<string> {
    if s == [] then None else ReadWord(s, Start)
  }

  /** The place behind a character of the original text. */
  function Behind(place: Place, c: char): Place {
    if IsSpecial(c) then Quoted(place) else Unquoted(place, c)
  }

  predicate InertHere(c: char, place: Place) {
    IsSpecial(c) || !Active(c, place)
  }

  /** No character that stays unescaped is active. */
  predicate Inert(s: string, place: Place) {
    s == [] || (InertHere(s[0], place) && Inert(s[1..], Behind(place, s[0])))
  }

  lemma {:induction false} ReadWordOfOnePass(s: string, place: Place)
    ensures ReadWord(OnePass(s), place) == if Inert(s, place) then Some(Codes(s)) else None
    decreases |s|
  {
    if s == [] {
      assert Codes(s) == [];
    } else {
      var rest := OnePass(s[1..]);
      CodesOfCons(s[0], s[1..]);
      assert [s[0]] + s[1..] == s;
      ReadWordOfOnePass(s[1..], Behind(place, s[0]));
      if IsSpecial(s[0]) {
        assert (['\\', Code(s[0])] + rest)[2..] == rest;
      } else {
        assert ([s[0]] + rest)[1..] == rest;
      }
    }
  }

  /** The place behind a text, from the start of the word. */
  function PlaceBehind(t: string): Place {
    if t == [] then Start else Behind(PlaceBehind(t[..|t| - 1]), t[|t| - 1])
  }

  lemma {:induction false} InertMeans(t: string, s: string)
    ensures Inert(s, PlaceBehind(t)) <==> forall i :: |t| <= i < |t + s| ==> InertHere((t + s)[i], PlaceBehind((t + s)[..i]))
    decreases |s|
  {
    var all := t + s;
    if s != [] {
      var t1 := t + [s[0]];
      assert t1 + s[1..] == all && all[..|t|] == t && t1[..|t|] == t;
      InertMeans(t1, s[1..]);
      assert all[|t|] == s[0];
    }
  }

  // ---- Which tildes are active ----

  predicate IsName(t: string) {
    t != [] && NameStart(t[0]) && forall i :: 0 <= i < |t| ==> NameChar(t[i])
  }

  /** The text begins like an assignment, with the equals sign at `k`. */
  predicate AssignsAt(t: string, k: int) {
    0 <= k < |t| && t[k] == '=' && (IsName(t[..k]) || (k > 0 && t[k - 1] == '+' && IsName(t[..k - 1])))
  }

  ghost predicate Assigns(t: string) {
    exists k :: AssignsAt(t, k)
  }

  /** Behind this much of a word a tilde is active: at its start, behind the equals sign of an assignment, and behind a colon
      in the value. */
  ghost predicate TildePlace(t: string) {
    t == [] || AssignsAt(t, |t| - 1) || (t[|t| - 1] == ':' && Assigns(t))
  }

  lemma AssignsSnoc(t: string, c: char)
    ensures Assigns(t + [c]) <==> Assigns(t) || AssignsAt(t + [c], |t|)
  {
    var u := t + [c];
    assert u[..|t|] == t;
    forall k: nat | k < |t| ensures AssignsAt(u, k) <==> AssignsAt(t, k) {
      assert u[..k] == t[..k];
      assert k > 0 ==> u[..k - 1] == t[..k - 1];
    }
    if k :| AssignsAt(t, k) {
      assert AssignsAt(u, k);
    }
    if k :| AssignsAt(u, k) && k < |t| {
      assert AssignsAt(t, k);
    }
  }

  lemma NameSnoc(t: string, c: char)
    ensures IsName(t + [c]) <==> if t == [] then NameStart(c) else IsName(t) && NameChar(c)
  {
    var u := t + [c];
    assert forall i :: 0 <= i < |t| ==> u[i] == t[i];
    assert u[|t|] == c;
  }

  predicate EndsInPlus(t: string) {
    t != [] && t[|t| - 1] == '+' && IsName(t[..|t| - 1])
  }

  lemma AssignsHere(t: string, c: char)
    ensures AssignsAt(t + [c], |t|) <==> c == '=' && (IsName(t) || EndsInPlus(t))
    ensures EndsInPlus(t + [c]) <==> c == '+' && IsName(t)
  {
    var u := t + [c];
    assert u[..|t|] == t;
    assert |t| > 0 ==> u[..|t| - 1] == t[..|t| - 1];
  }

  /** What a place says about the text before it. */
  ghost predicate PlaceSays(t: string, place: Place) {
    && (place.Start? <==> t == [])
    && (place.Naming? <==> IsName(t))
    && (place.Plus? <==> EndsInPlus(t))
    && (place.Opening? || place.Value? <==> Assigns(t))
    && (place.Opening? <==> t != [] && TildePlace(t))
  }

  lemma PlaceSnoc(t: string, c: char, place: Place)
    requires PlaceSays(t, place)
    ensures PlaceSays(t + [c], Behind(place, c))
  {
    NameSnoc(t, c);
    AssignsSnoc(t, c);
    AssignsHere(t, c);
  }

  lemma {:induction false} PlaceMeans(t: string)
    ensures PlaceSays(t, PlaceBehind(t))
  {
    if t != [] {
      var front, c := t[..|t| - 1], t[|t| - 1];
      PlaceMeans(front);
      PlaceSnoc(front, c, PlaceBehind(front));
      assert front + [c] == t;
    }
  }

  /** What may stand in an argument: no blank, tab, newline or brace anywhere, no number sign at the start, and no tilde
      where it is active. */
  ghost predicate PlainAt(s: string, i: nat)
    requires i < |s|
  {
    && s[i] !in " \t\n{}"
    && (s[i] == '#' ==> i > 0)
    && (s[i] == '~' ==> !TildePlace(s[..i]))
  }

  ghost predicate Plain(s: string) {
    forall i :: 0 <= i < |s| ==> PlainAt(s, i)
  }

  lemma PlainHere(s: string, i: nat)
    requires i < |s|
    ensures PlainAt(s, i) <==> InertHere(s[i], PlaceBehind(s[..i])) && s[i] != '\n'
  {
    PlaceMeans(s[..i]);
  }

  lemma PlainIsInert(s: string)
    ensures Plain(s) <==> Inert(s, Start) && '\n' !in s
  {
    InertMeans([], s);
    assert [] + s == s;
    forall i | 0 <= i < |s| ensures PlainAt(s, i) <==> InertHere(s[i], PlaceBehind(s[..i])) && s[i] != '\n' {
      PlainHere(s, i);
    }
  }

  /** Option values are appended without quotes. The escaped text is one argument equal to the original if and only if the
      text is not empty and plain. */
  lemma ReadsBackAsArgumentExactly(s: string)
    ensures ReadArgument(Escape(s)) == Some(s) <==> s != [] && Plain(s)
  {
    EscapeIsOnePass(s);
    ReadWordOfOnePass(s, Start);
    CodesKeepExactly(s);
    PlainIsInert(s);
  }
}
