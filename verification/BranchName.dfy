/** Branch names: an issue number and the words of its title. */
module BranchName {
  import opened Workspace
  import opened Config

  const MAX_LENGTH: nat := 60

  /** The maximal runs of ASCII letters and digits, in order. */
  function Words(s: string): seq<string> {
    if s == [] then []
    else
      var front, c := s[..|s| - 1], s[|s| - 1];
      var words := Words(front);
      if !AsciiAlphanumeric(c) then words
      else if front != [] && AsciiAlphanumeric(front[|front| - 1]) && words != [] then
        words[..|words| - 1] + [words[|words| - 1] + [c]]
      else words + [[c]]
  }

  function Join(words: seq<string>): string {
    if words == [] then []
    else if |words| == 1 then words[0]
    else Join(words[..|words| - 1]) + "-" + words[|words| - 1]
  }

  function TrimEndDashes(s: string): string {
    if s != [] && s[|s| - 1] == '-' then TrimEndDashes(s[..|s| - 1]) else s
  }

  function TrimStartDashes(s: string): string {
    if s != [] && s[0] == '-' then TrimStartDashes(s[1..]) else s
  }

  /** `format!("{number}")`. */
  function Printed(number: int): string {
    if number < 0 then "-" + Decimal(-number) else Decimal(number)
  }

  /** `<number>-<words joined by dashes>`, cut to 60 characters without a trailing dash. */
  function Name(number: int, title: string): string {
    var raw := Raw(number, title);
    if |raw| > MAX_LENGTH then TrimEndDashes(raw[..MAX_LENGTH]) else raw
  }

  predicate IsWord(w: string) {
    w != [] && forall i :: 0 <= i < |w| ==> AsciiAlphanumeric(w[i])
  }

  ghost predicate AllWords(words: seq<string>) {
    forall i :: 0 <= i < |words| ==> IsWord(words[i])
  }

  lemma {:induction false} WordsAreWords(s: string)
    ensures AllWords(Words(s))
    ensures s != [] && AsciiAlphanumeric(s[|s| - 1]) ==> Words(s) != []
  {
    if s != [] {
      var front, c := s[..|s| - 1], s[|s| - 1];
      WordsAreWords(front);
      if AsciiAlphanumeric(c) {
        LongerWords(Words(front), c);
      }
    }
  }

  lemma LongerWords(words: seq<string>, c: char)
    requires AllWords(words) && AsciiAlphanumeric(c)
    ensures AllWords(words + [[c]])
    ensures words != [] ==> AllWords(words[..|words| - 1] + [words[|words| - 1] + [c]])
  {
  }

  predicate EndsInWord(s: string) {
    s != [] && AsciiAlphanumeric(s[|s| - 1])
  }

  /** Words with the gaps before, between and after them. */
  function Weave(gaps: seq<string>, words: seq<string>): string
    requires |gaps| == |words| + 1
  {
    var n := |words|;
    if n == 0 then gaps[0] else Weave(gaps[..n], words[..n - 1]) + words[n - 1] + gaps[n]
  }

  predicate IsGap(g: string) {
    forall i :: 0 <= i < |g| ==> !AsciiAlphanumeric(g[i])
  }

  /** No letter or digit stands in a gap, and no two words stand side by side. */
  ghost predicate Separate(gaps: seq<string>, words: seq<string>) {
    && |gaps| == |words| + 1
    && (forall i :: 0 <= i < |gaps| ==> IsGap(gaps[i]))
    && (forall i :: 0 < i < |words| ==> gaps[i] != [])
  }

  lemma LongerGap(gaps: seq<string>, words: seq<string>, c: char)
    requires Separate(gaps, words) && !AsciiAlphanumeric(c)
    ensures var n := |words|; var longer := gaps[n := gaps[n] + [c]];
            Separate(longer, words) && Weave(longer, words) == Weave(gaps, words) + [c]
  {
    var n := |words|;
    var longer := gaps[n := gaps[n] + [c]];
    assert IsGap(gaps[n]) && IsGap(longer[n]);
    if n > 0 {
      assert longer[..n] == gaps[..n];
      assert Weave(gaps[..n], words[..n - 1]) + words[n - 1] + (gaps[n] + [c])
          == Weave(gaps[..n], words[..n - 1]) + words[n - 1] + gaps[n] + [c];
    }
  }

  lemma LongerWord(gaps: seq<string>, words: seq<string>, c: char)
    requires Separate(gaps, words) && words != [] && gaps[|words|] == []
    ensures var n := |words|; var longer := words[..n - 1] + [words[n - 1] + [c]];
            Separate(gaps, longer) && Weave(gaps, longer) == Weave(gaps, words) + [c]
  {
    var n := |words|;
    var longer := words[..n - 1] + [words[n - 1] + [c]];
    assert longer[..n - 1] == words[..n - 1];
    var before := Weave(gaps[..n], words[..n - 1]);
    assert before + (words[n - 1] + [c]) + [] == before + words[n - 1] + [] + [c];
  }

  lemma AnotherWord(gaps: seq<string>, words: seq<string>, c: char)
    requires Separate(gaps, words) && (words != [] ==> gaps[|words|] != [])
    ensures Separate(gaps + [""], words + [[c]]) && Weave(gaps + [""], words + [[c]]) == Weave(gaps, words) + [c]
  {
    var n := |words|;
    assert (gaps + [""])[..n + 1] == gaps && (words + [[c]])[..n] == words;
    assert Weave(gaps, words) + [c] + [] == Weave(gaps, words) + [c];
  }

  lemma GapAtEnd(gaps: seq<string>, words: seq<string>)
    requires Separate(gaps, words) && AllWords(words)
    ensures EndsInWord(Weave(gaps, words)) <==> words != [] && gaps[|words|] == []
  {
    var n := |words|;
    var s := Weave(gaps, words);
    assert IsGap(gaps[n]);
    if n > 0 {
      assert IsWord(words[n - 1]);
    }
    if gaps[n] != [] {
      assert s[|s| - 1] == gaps[n][|gaps[n]| - 1];
    } else if n > 0 {
      assert s[|s| - 1] == words[n - 1][|words[n - 1]| - 1];
    }
  }

  /** The words of a text: the text is these words with gaps around them, and no word could be longer. */
  lemma {:induction false} WordsExactly(s: string) returns (gaps: seq<string>)
    ensures Separate(gaps, Words(s)) && Weave(gaps, Words(s)) == s && AllWords(Words(s))
  {
    WordsAreWords(s);
    if s == [] {
      gaps := [""];
    } else {
      var front, c := s[..|s| - 1], s[|s| - 1];
      gaps := WordsExactly(front);
      var words := Words(front);
      assert s == front + [c];
      GapAtEnd(gaps, words);
      if !AsciiAlphanumeric(c) {
        LongerGap(gaps, words, c);
        gaps := gaps[|words| := gaps[|words|] + [c]];
      } else if EndsInWord(front) {
        LongerWord(gaps, words, c);
      } else {
        AnotherWord(gaps, words, c);
        gaps := gaps + [""];
      }
    }
  }

  /** Nothing around the words, and one dash between each two. */
  function Dashes(n: nat): seq<string> {
    seq(n + 1, i requires 0 <= i < n + 1 => if 0 < i < n then "-" else "")
  }

  /** Joining words puts one dash between each two. */
  lemma {:induction false} JoinExactly(words: seq<string>)
    ensures Join(words) == Weave(Dashes(|words|), words)
    decreases |words|
  {
    var n := |words|;
    if n == 1 {
      assert Weave(Dashes(1), words) == "" + words[0] + "" by {
        assert Dashes(1)[..1] == [""] && words[..0] == [];
      }
    } else if n > 1 {
      JoinExactly(words[..n - 1]);
      WeaveDash(Dashes(n - 1), words[..n - 1]);
      assert Dashes(n)[..n] == Dashes(n - 1)[n - 1 := "-"];
      assert Join(words[..n - 1]) + "-" + words[n - 1] + "" == Join(words[..n - 1]) + "-" + words[n - 1];
    }
  }

  lemma WeaveDash(gaps: seq<string>, words: seq<string>)
    requires |gaps| == |words| + 1 && words != [] && gaps[|words|] == ""
    ensures Weave(gaps[|words| := "-"], words) == Weave(gaps, words) + "-"
  {
    var n := |words|;
    assert gaps[n := "-"][..n] == gaps[..n];
    var before := Weave(gaps[..n], words[..n - 1]);
    assert before + words[n - 1] + "" + "-" == before + words[n - 1] + "-";
  }

  /** No doubled dash, and a letter or digit at both ends. */
  predicate Tidy(s: string) {
    && s != [] && AsciiAlphanumeric(s[0]) && AsciiAlphanumeric(s[|s| - 1])
    && (forall i :: 0 <= i < |s| ==> AsciiAlphanumeric(s[i]) || s[i] == '-')
    && (forall i :: 0 < i < |s| ==> s[i] != '-' || s[i - 1] != '-')
  }

  lemma TidyJoin(a: string, b: string)
    requires Tidy(a) && Tidy(b)
    ensures Tidy(a + "-" + b)
  {
  }

  lemma {:induction false} JoinIsTidy(words: seq<string>)
    requires AllWords(words) && words != []
    ensures Tidy(Join(words))
    decreases |words|
  {
    if |words| == 1 {
      assert IsWord(words[0]);
    } else {
      JoinIsTidy(words[..|words| - 1]);
      assert IsWord(words[|words| - 1]);
      TidyJoin(Join(words[..|words| - 1]), words[|words| - 1]);
    }
  }

  lemma JoinMore(words: seq<string>, w: string)
    ensures Join(words + [w]) == if words == [] then w else Join(words) + "-" + w
  {
  }

  lemma DashAssociates(a: string, w: string, c: char)
    ensures a + "-" + (w + [c]) == a + "-" + w + [c]
  {
  }

  lemma JoinLongerLast(front: seq<string>, last: string, c: char)
    ensures Join(front + [last + [c]]) == Join(front + [last]) + [c]
  {
    JoinMore(front, last);
    JoinMore(front, last + [c]);
    DashAssociates(Join(front), last, c);
  }

  lemma JoinLonger(words: seq<string>, c: char)
    requires words != []
    ensures var n := |words| - 1; Join(words[..n] + [words[n] + [c]]) == Join(words) + [c]
  {
    var n := |words| - 1;
    JoinLongerLast(words[..n], words[n], c);
    assert words[..n] + [words[n]] == words;
  }

  lemma TrimTidy(s: string)
    requires Tidy(s)
    ensures TrimEndDashes(TrimStartDashes(s)) == s && TrimEndDashes(TrimStartDashes(s + "-")) == s
  {
  }

  /** What the loop has built after reading `s`: the joined words, and a dash if the last word is over. */
  function Slug(s: string): string {
    Join(Words(s)) + if !EndsInWord(s) && Words(s) != [] then "-" else ""
  }

  lemma WordsOfSnoc(s: string, c: char)
    ensures Words(s + [c]) ==
            if !AsciiAlphanumeric(c) then Words(s)
            else if EndsInWord(s) && Words(s) != [] then Words(s)[..|Words(s)| - 1] + [Words(s)[|Words(s)| - 1] + [c]]
            else Words(s) + [[c]]
    ensures EndsInWord(s + [c]) <==> AsciiAlphanumeric(c)
  {
    assert (s + [c])[..|s|] == s;
  }

  lemma SlugStep(s: string, c: char)
    ensures Slug(s + [c]) ==
            if AsciiAlphanumeric(c) then Slug(s) + [c] else if EndsInWord(s) then Slug(s) + "-" else Slug(s)
  {
    WordsOfSnoc(s, c);
    WordsAreWords(s);
    if AsciiAlphanumeric(c) {
      if EndsInWord(s) {
        JoinLonger(Words(s), c);
      } else {
        JoinMore(Words(s), [c]);
      }
    } else {
      assert Join(Words(s)) + "" == Join(Words(s));
    }
  }

  lemma TrimSlug(s: string)
    ensures TrimEndDashes(TrimStartDashes(Slug(s))) == Join(Words(s))
    ensures Join(Words(s)) == [] <==> Words(s) == []
  {
    WordsAreWords(s);
    var words := Words(s);
    if words != [] {
      JoinIsTidy(words);
      TrimTidy(Join(words));
      assert Join(words) + "" == Join(words);
    }
  }

  /** The lower-casing, the loop, the trimming and the cut of `build_branch_name`. */
  method BuildBranchName(number: int, original: string, lowercase: string -> string) returns (name: string)
    ensures name == Name(number, lowercase(original))
  {
    var title := lowercase(original);
    var slug: string := [];
    var lastWasDash := true;
    for n := 0 to |title|
      invariant lastWasDash <==> !EndsInWord(title[..n])
      invariant slug == Slug(title[..n])
    {
      var c := title[n];
      assert title[..n + 1] == title[..n] + [c];
      SlugStep(title[..n], c);
      if AsciiAlphanumeric(c) {
        slug := slug + [c];
        lastWasDash := false;
      } else if !lastWasDash {
        slug := slug + "-";
        lastWasDash := true;
      }
    }
    assert title[..|title|] == title;
    TrimSlug(title);
    slug := TrimEndDashes(TrimStartDashes(slug));
    var raw := if slug == [] then Printed(number) else Printed(number) + "-" + slug;
    name := if |raw| > MAX_LENGTH then TrimEndDashes(raw[..MAX_LENGTH]) else raw;
  }

  function Pow10(n: nat): nat {
    if n == 0 then 1 else 10 * Pow10(n - 1)
  }

  lemma {:induction false} DecimalLength(n: nat, k: nat)
    requires 1 <= k && n < Pow10(k)
    ensures |Decimal(n)| <= k
    decreases k
  {
    if n >= 10 {
      assert k > 1;
      DecimalLength(n / 10, k - 1);
    }
  }

  lemma NumberIsShort(number: nat)
    requires number < TWO_TO_THE_63
    ensures |Decimal(number)| <= 19
  {
    assert Pow10(4) == 10000;
    assert Pow10(8) == 10000 * Pow10(4) == 1_0000_0000;
    assert Pow10(12) == 10000 * Pow10(8) == 1_0000_0000_0000;
    assert Pow10(16) == 10000 * Pow10(12) == 1_0000_0000_0000_0000;
    assert Pow10(19) == 1000 * Pow10(16);
    DecimalLength(number, 19);
  }

  lemma {:induction false} TrimKeepsTidyPrefix(s: string, keep: nat)
    requires 0 < keep <= |s| && s[keep - 1] != '-'
    ensures var t := TrimEndDashes(s); keep <= |t| <= |s| && t == s[..|t|] && t[|t| - 1] != '-'
    decreases |s|
  {
    if s[|s| - 1] == '-' {
      TrimKeepsTidyPrefix(s[..|s| - 1], keep);
    }
  }

  predicate NoUpper(s: string) {
    forall i :: 0 <= i < |s| ==> !('A' <= s[i] <= 'Z')
  }

  lemma {:induction false} WordsAreLower(s: string)
    requires NoUpper(s)
    ensures forall k :: 0 <= k < |Words(s)| ==> NoUpper(Words(s)[k])
  {
    if s != [] {
      WordsAreLower(s[..|s| - 1]);
    }
  }

  lemma {:induction false} JoinIsLower(words: seq<string>)
    requires forall k :: 0 <= k < |words| ==> NoUpper(words[k])
    ensures NoUpper(Join(words))
  {
    if |words| > 1 {
      JoinIsLower(words[..|words| - 1]);
    }
  }

  function Raw(number: int, title: string): string {
    if Words(title) == [] then Printed(number) else Printed(number) + "-" + Join(Words(title))
  }

  lemma RawIsTidy(number: nat, title: string)
    ensures Tidy(Raw(number, title)) && Decimal(number) <= Raw(number, title)
    ensures NoUpper(title) ==> NoUpper(Raw(number, title))
  {
    var digits, words := Decimal(number), Words(title);
    WordsAreWords(title);
    assert Tidy(digits) && NoUpper(digits);
    if words != [] {
      JoinIsTidy(words);
      TidyJoin(digits, Join(words));
      if NoUpper(title) {
        WordsAreLower(title);
        JoinIsLower(words);
      }
    }
  }

  lemma PrefixIsTidy(s: string, n: nat)
    requires Tidy(s) && 0 < n <= |s| && s[n - 1] != '-'
    ensures Tidy(s[..n]) && (NoUpper(s) ==> NoUpper(s[..n]))
  {
  }

  lemma {:induction false} TrimEndDashesExactly(s: string)
    ensures TrimEndDashes(s) <= s
    ensures forall k :: |TrimEndDashes(s)| <= k < |s| ==> s[k] == '-'
    ensures TrimEndDashes(s) != [] ==> TrimEndDashes(s)[|TrimEndDashes(s)| - 1] != '-'
  {
    if s != [] && s[|s| - 1] == '-' {
      TrimEndDashesExactly(s[..|s| - 1]);
    }
  }

  /** The name is the number and the words joined by dashes, if that has at most 60 characters, and otherwise the longest
      part of its first 60 that does not end in a dash. */
  lemma NameExactly(number: int, title: string)
    ensures var (name, raw) := (Name(number, title), Raw(number, title));
            && raw == (if number < 0 then "-" + Decimal(-number) else Decimal(number))
                      + (if Words(title) == [] then "" else "-" + Join(Words(title)))
            && (|raw| <= 60 ==> name == raw)
            && (|raw| > 60 ==>
                  && name <= raw[..60] && (name != [] ==> name[|name| - 1] != '-')
                  && forall k :: |name| <= k < 60 ==> raw[k] == '-')
  {
    var raw, digits := Raw(number, title), Printed(number);
    assert digits + "" == digits;
    assert digits + ("-" + Join(Words(title))) == digits + "-" + Join(Words(title));
    if |raw| > 60 {
      TrimEndDashesExactly(raw[..60]);
    }
  }

  lemma CutIsClean(raw: string, digits: string)
    requires Tidy(raw) && digits != [] && digits <= raw && digits[|digits| - 1] != '-' && |digits| <= MAX_LENGTH < |raw|
    ensures var name := TrimEndDashes(raw[..MAX_LENGTH]);
            digits <= name && |name| <= MAX_LENGTH && Tidy(name) && (NoUpper(raw) ==> NoUpper(name))
  {
    var cut := raw[..MAX_LENGTH];
    assert cut[|digits| - 1] == digits[|digits| - 1];
    TrimKeepsTidyPrefix(cut, |digits|);
    var name := TrimEndDashes(cut);
    assert name == raw[..|name|] && name[|name| - 1] == raw[|name| - 1];
    PrefixIsTidy(raw, |name|);
  }

  /** For every non-negative issue number: the name starts with the number, is at most 60 long, has no doubled and no
      trailing dash, and for a lower-case title uses only lower-case letters, digits and dashes. */
  lemma NameIsClean(number: nat, title: string)
    requires number < TWO_TO_THE_63
    ensures var name := Name(number, title);
            && Decimal(number) <= name && |name| <= 60 && Tidy(name)
            && (NoUpper(title) ==>
                  forall i :: 0 <= i < |name| ==> 'a' <= name[i] <= 'z' || '0' <= name[i] <= '9' || name[i] == '-')
  {
    var digits, raw := Decimal(number), Raw(number, title);
    NumberIsShort(number);
    RawIsTidy(number, title);
    assert digits[|digits| - 1] != '-';
    if |raw| > MAX_LENGTH {
      CutIsClean(raw, digits);
    }
  }
}
