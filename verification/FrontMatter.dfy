/** Splitting a workflow file into front matter and body at a fence line. */
module FrontMatter {
  import opened Prelude

  const FENCE := "---"

  /** `char::is_whitespace`: the White_Space characters. */
  predicate IsWhitespace(c: char) {
    var n := c as int;
    || 0x09 <= n <= 0x0D || n == 0x20 || n == 0x85 || n == 0xA0 || n == 0x1680 || 0x2000 <= n <= 0x200A
    || n == 0x2028 || n == 0x2029 || n == 0x202F || n == 0x205F || n == 0x3000
  }

  function TrimStart(s: string): string {
    if s != [] && IsWhitespace(s[0]) then TrimStart(s[1..]) else s
  }

  function TrimEnd(s: string): string {
    if s != [] && IsWhitespace(s[|s| - 1]) then TrimEnd(s[..|s| - 1]) else s
  }

  function Trim(s: string): string {
    TrimEnd(TrimStart(s))
  }

  /** `trim_end_matches(['\n', '\r'])`. */
  function StripEol(line: string): string {
    if line != [] && (line[|line| - 1] == '\n' || line[|line| - 1] == '\r') then StripEol(line[..|line| - 1]) else line
  }

  predicate IsFence(line: string) {
    StripEol(line) == FENCE
  }

  /** The length of the first line, with its newline. */
  function LineLength(s: string): (n: nat)
    requires s != []
    ensures 1 <= n <= |s|
  {
    if s[0] == '\n' || |s| == 1 then 1 else 1 + LineLength(s[1..])
  }

  /** `split_inclusive('\n')`. */
  function Lines(s: string): seq<string> {
    if s == [] then [] else [s[..LineLength(s)]] + Lines(s[LineLength(s)..])
  }

  function Concat(lines: seq<string>): string {
    if lines == [] then "" else lines[0] + Concat(lines[1..])
  }

  lemma {:induction false} LinesLoseNothing(s: string)
    ensures Concat(Lines(s)) == s
    decreases |s|
  {
    if s != [] {
      var n := LineLength(s);
      LinesLoseNothing(s[n..]);
      assert s == s[..n] + s[n..];
    }
  }

  // ---- What trimming and lines are ----

  predicate AllWhitespace(s: string) {
    forall i :: 0 <= i < |s| ==> IsWhitespace(s[i])
  }

  lemma {:induction false} TrimStartExactly(s: string) returns (lead: string)
    ensures s == lead + TrimStart(s) && AllWhitespace(lead)
    ensures TrimStart(s) != [] ==> !IsWhitespace(TrimStart(s)[0])
  {
    if s != [] && IsWhitespace(s[0]) {
      lead := TrimStartExactly(s[1..]);
      lead := [s[0]] + lead;
      assert s == [s[0]] + s[1..];
    } else {
      lead := [];
    }
  }

  lemma {:induction false} TrimEndExactly(s: string) returns (tail: string)
    ensures s == TrimEnd(s) + tail && AllWhitespace(tail)
    ensures TrimEnd(s) != [] ==> !IsWhitespace(TrimEnd(s)[|TrimEnd(s)| - 1])
  {
    if s != [] && IsWhitespace(s[|s| - 1]) {
      tail := TrimEndExactly(s[..|s| - 1]);
      tail := tail + [s[|s| - 1]];
      assert s == s[..|s| - 1] + [s[|s| - 1]];
    } else {
      tail := [];
    }
  }

  /** Trimming takes white space off both ends, and leaves none there. */
  lemma TrimExactly(s: string) returns (lead: string, tail: string)
    ensures s == lead + Trim(s) + tail && AllWhitespace(lead) && AllWhitespace(tail)
    ensures Trim(s) != [] ==> !IsWhitespace(Trim(s)[0]) && !IsWhitespace(Trim(s)[|Trim(s)| - 1])
  {
    lead := TrimStartExactly(s);
    tail := TrimEndExactly(TrimStart(s));
    assert Trim(s) != [] ==> Trim(s)[0] == TrimStart(s)[0];
    assert lead + (Trim(s) + tail) == lead + Trim(s) + tail;
  }

  predicate IsEol(c: char) {
    c == '\n' || c == '\r'
  }

  /** A fence is three dashes and any number of line-end characters. */
  lemma {:induction false} FenceExactly(line: string)
    ensures IsFence(line) <==>
            |line| >= 3 && line[0] == line[1] == line[2] == '-' && forall i :: 3 <= i < |line| ==> IsEol(line[i])
    decreases |line|
  {
    if line != [] && IsEol(line[|line| - 1]) {
      FenceExactly(line[..|line| - 1]);
      assert |line| >= 4 ==> line[..|line| - 1][0] == line[0] && line[..|line| - 1][1] == line[1] && line[..|line| - 1][2] == line[2];
    } else {
      assert line == FENCE <==> |line| == 3 && line[0] == line[1] == line[2] == '-';
      assert |line| > 3 ==> !IsEol(line[|line| - 1]);
    }
  }

  /** A line has its newline at its end or none at all. */
  predicate IsLine(line: string) {
    line != [] && forall i :: 0 <= i < |line| - 1 ==> line[i] != '\n'
  }

  lemma {:induction false} FirstLineExactly(s: string)
    requires s != []
    ensures IsLine(s[..LineLength(s)]) && (LineLength(s) < |s| ==> s[LineLength(s) - 1] == '\n')
  {
    if s[0] != '\n' && |s| > 1 {
      FirstLineExactly(s[1..]);
      assert s[..LineLength(s)][1..] == s[1..][..LineLength(s) - 1];
      assert s[..LineLength(s)] == [s[0]] + s[1..][..LineLength(s) - 1];
    }
  }

  /** The lines of a text: each ends at its newline, and only the last may have none. */
  lemma {:induction false} LinesExactly(s: string)
    ensures forall i :: 0 <= i < |Lines(s)| ==> IsLine(Lines(s)[i])
    ensures forall i :: 0 <= i < |Lines(s)| - 1 ==> Lines(s)[i] != [] && Lines(s)[i][|Lines(s)[i]| - 1] == '\n'
    decreases |s|
  {
    if s != [] {
      var n := LineLength(s);
      FirstLineExactly(s);
      LinesExactly(s[n..]);
      assert n == |s| ==> Lines(s[n..]) == [];
    }
  }

  datatype Split = Split(front: string, fence: string, body: string)

  /** The split by lines: everything before the first fence line, that line, and the rest. */
  function SplitLines(lines: seq<string>): Option<Split> {
    if lines == [] then None
    else if IsFence(lines[0]) then Some(Split("", lines[0], Concat(lines[1..])))
    else match SplitLines(lines[1..])
      case None => None
      case Some(split) => Some(split.(front := lines[0] + split.front))
  }

  ghost predicate NoFence(lines: seq<string>) {
    forall i :: 0 <= i < |lines| ==> !IsFence(lines[i])
  }

  /** Text made of whole lines. */
  predicate Terminated(s: string) {
    s == [] || s[|s| - 1] == '\n'
  }

  lemma {:induction false} FirstLine(text: string)
    requires text != []
    ensures var n := LineLength(text);
            LineLength(text[..n]) == n && (n < |text| ==> text[n - 1] == '\n')
    decreases |text|
  {
    if text[0] != '\n' && |text| > 1 {
      FirstLine(text[1..]);
      assert text[..LineLength(text)][1..] == text[1..][..LineLength(text) - 1];
    }
  }

  lemma LinesCons(line: string, rest: string)
    requires line != [] && LineLength(line + rest) == |line|
    ensures Lines(line + rest) == [line] + Lines(rest)
    ensures LineLength(line) == |line| && (rest != [] ==> line[|line| - 1] == '\n')
  {
    var text := line + rest;
    assert text[..|line|] == line && text[|line|..] == rest;
    FirstLine(text);
  }

  lemma {:induction false} FirstLineOfConcat(a: string, b: string)
    requires a != [] && Terminated(a)
    ensures LineLength(a + b) == LineLength(a)
    decreases |a|
  {
    if a[0] != '\n' {
      assert |a| > 1;
      assert (a + b)[1..] == a[1..] + b;
      FirstLineOfConcat(a[1..], b);
    }
  }

  lemma LinesConsConcat(line: string, rest: string, b: string)
    requires line != [] && LineLength(line + rest) == |line| == LineLength(line + (rest + b))
    requires Lines(rest + b) == Lines(rest) + Lines(b)
    ensures Lines(line + (rest + b)) == Lines(line + rest) + Lines(b)
  {
  }

  lemma Regroup(a: string, n: nat, b: string)
    requires n <= |a| && Terminated(a)
    ensures a == a[..n] + a[n..] && a + b == a[..n] + (a[n..] + b)
    ensures Terminated(a[n..])
  {
  }

  lemma {:induction false} LinesOfConcat(a: string, b: string)
    requires Terminated(a)
    ensures Lines(a + b) == Lines(a) + Lines(b)
    decreases |a|
  {
    if a == [] {
      assert a + b == b;
    } else {
      var n := LineLength(a);
      FirstLineOfConcat(a, b);
      Regroup(a, n, b);
      LinesOfConcat(a[n..], b);
      LinesConsConcat(a[..n], a[n..], b);
    }
  }

  lemma {:induction false} SplitWithoutFence(lines: seq<string>, rest: seq<string>)
    requires NoFence(lines)
    ensures SplitLines(lines + rest) ==
            match SplitLines(rest)
            case None => None
            case Some(split) => Some(split.(front := Concat(lines) + split.front))
    decreases |lines|
  {
    if lines == [] {
      assert lines + rest == rest;
      assert forall s: string :: "" + s == s;
    } else {
      assert (lines + rest)[1..] == lines[1..] + rest;
      SplitWithoutFence(lines[1..], rest);
      assert forall s: string :: lines[0] + (Concat(lines[1..]) + s) == Concat(lines) + s;
    }
  }

  lemma ConcatAssociates(a: string, b: string, c: string, d: string)
    ensures (a + b) + c + d == a + (b + c + d)
  {
  }

  lemma Slices(text: string, offset: nat, n: nat)
    requires offset + n <= |text|
    ensures text == text[..offset] + text[offset..]
    ensures text[offset..][..n] == text[offset..offset + n] && text[offset..][n..] == text[offset + n..]
    ensures text[..offset + n] == text[..offset] + text[offset..offset + n]
  {
  }

  lemma FenceFirst(rest: string)
    requires rest != [] && IsFence(rest[..LineLength(rest)])
    ensures var n := LineLength(rest); SplitLines(Lines(rest)) == Some(Split("", rest[..n], rest[n..]))
  {
    LinesLoseNothing(rest[LineLength(rest)..]);
  }

  lemma FoundFence(text: string, offset: nat, n: nat)
    requires offset <= |text| && 1 <= n <= |text| - offset
    requires Terminated(text[..offset]) && NoFence(Lines(text[..offset]))
    requires n == LineLength(text[offset..]) && IsFence(text[offset..offset + n])
    ensures SplitLines(Lines(text)) == Some(Split(text[..offset], text[offset..offset + n], text[offset + n..]))
  {
    var before, rest := text[..offset], text[offset..];
    Slices(text, offset, n);
    LinesOfConcat(before, rest);
    SplitWithoutFence(Lines(before), Lines(rest));
    LinesLoseNothing(before);
    FenceFirst(rest);
    assert before + "" == before;
  }

  lemma NoFenceConcat(a: seq<string>, b: seq<string>)
    ensures NoFence(a + b) <==> NoFence(a) && NoFence(b)
  {
    assert forall i :: 0 <= i < |a| ==> (a + b)[i] == a[i];
    assert forall i :: 0 <= i < |b| ==> (a + b)[|a| + i] == b[i];
  }

  lemma LastLineEnds(text: string, offset: nat, n: nat)
    requires offset <= |text| && 1 <= n <= |text| - offset && n == LineLength(text[offset..])
    ensures LineLength(text[offset..offset + n]) == n
    ensures Terminated(text[..offset + n]) || offset + n == |text|
  {
    FirstLine(text[offset..]);
    assert text[offset..][..n] == text[offset..offset + n];
  }

  lemma PassedLine(text: string, offset: nat, n: nat)
    requires offset <= |text| && 1 <= n <= |text| - offset
    requires Terminated(text[..offset]) && NoFence(Lines(text[..offset]))
    requires n == LineLength(text[offset..]) && !IsFence(text[offset..offset + n])
    ensures NoFence(Lines(text[..offset + n]))
    ensures Terminated(text[..offset + n]) || offset + n == |text|
  {
    var line := text[offset..offset + n];
    LastLineEnds(text, offset, n);
    OneLine(line);
    LinesOfConcat(text[..offset], line);
    NoFenceConcat(Lines(text[..offset]), [line]);
    assert text[..offset + n] == text[..offset] + line;
  }

  /** The scan over the text: `offset` runs over line starts until a line is a fence. */
  method SplitAtFence(text: string) returns (split: Option<Split>)
    ensures split == SplitLines(Lines(text))
  {
    var offset := 0;
    while offset < |text|
      invariant offset <= |text|
      invariant Terminated(text[..offset]) || offset == |text|
      invariant NoFence(Lines(text[..offset]))
    {
      var n := LineLength(text[offset..]);
      if StripEol(text[offset..offset + n]) == FENCE {
        FoundFence(text, offset, n);
        return Some(Split(text[..offset], text[offset..offset + n], text[offset + n..]));
      }
      PassedLine(text, offset, n);
      offset := offset + n;
    }
    assert text[..offset] == text && Lines(text) + [] == Lines(text);
    SplitWithoutFence(Lines(text), []);
    return None;
  }

  /** What a split of `text` has to be: its three parts make up the text, the front matter consists of whole lines none
      of which is a fence, and the fence is one. */
  ghost predicate Splits(split: Split, text: string) {
    && split.front + split.fence + split.body == text
    && IsFence(split.fence) && NoFence(Lines(split.front)) && Terminated(split.front)
  }

  lemma NoFenceCons(line: string, lines: seq<string>)
    ensures NoFence([line] + lines) <==> !IsFence(line) && NoFence(lines)
  {
    var all := [line] + lines;
    assert all[0] == line && all[1..] == lines;
    assert forall k :: 0 <= k < |lines| ==> lines[k] == all[k + 1];
    assert forall k :: 1 <= k < |all| ==> all[k] == lines[k - 1];
  }

  lemma LongerLines(line: string, front: string)
    requires line != [] && LineLength(line) == |line| && line[|line| - 1] == '\n' && !IsFence(line)
    requires Terminated(front) && NoFence(Lines(front))
    ensures Terminated(line + front) && NoFence(Lines(line + front))
  {
    LinesOfConcat(line, front);
    OneLine(line);
    NoFenceCons(line, Lines(front));
  }

  lemma LongerFront(line: string, split: Split, rest: string)
    requires line != [] && LineLength(line) == |line| && line[|line| - 1] == '\n' && !IsFence(line)
    requires Splits(split, rest)
    ensures Splits(split.(front := line + split.front), line + rest)
  {
    LongerLines(line, split.front);
    ConcatAssociates(line, split.front, split.fence, split.body);
  }

  /** What splitting by lines achieves. */
  ghost predicate SplitsOrHasNone(split: Option<Split>, text: string) {
    match split
    case None => NoFence(Lines(text))
    case Some(parts) => Splits(parts, text) && !NoFence(Lines(text))
  }

  lemma FirstLineIsFence(line: string, rest: string)
    requires line != [] && LineLength(line + rest) == |line| && IsFence(line)
    ensures SplitsOrHasNone(SplitLines(Lines(line + rest)), line + rest)
  {
    var text := line + rest;
    assert text[..|line|] == line && text[|line|..] == rest;
    FenceFirst(text);
    assert "" + line + rest == text;
    assert IsFence(Lines(text)[0]);
  }

  lemma FirstLineIsNoFence(line: string, rest: string)
    requires line != [] && LineLength(line + rest) == |line| && !IsFence(line)
    requires SplitsOrHasNone(SplitLines(Lines(rest)), rest)
    ensures SplitsOrHasNone(SplitLines(Lines(line + rest)), line + rest)
  {
    LinesCons(line, rest);
    NoFenceCons(line, Lines(rest));
    assert ([line] + Lines(rest))[1..] == Lines(rest);
    match SplitLines(Lines(rest)) {
      case None =>
      case Some(parts) =>
        assert rest != [];
        LongerFront(line, parts, rest);
    }
  }

  /** The split by lines is a split, and there is none exactly when no line of the text is a fence. */
  lemma {:induction false} SplitIsLossless(text: string)
    ensures SplitsOrHasNone(SplitLines(Lines(text)), text)
    decreases |text|
  {
    if text != [] {
      var n := LineLength(text);
      SplitIsLossless(text[n..]);
      assert text == text[..n] + text[n..];
      if IsFence(text[..n]) {
        FirstLineIsFence(text[..n], text[n..]);
      } else {
        FirstLineIsNoFence(text[..n], text[n..]);
      }
    }
  }

  lemma OneLine(line: string)
    requires line != [] && LineLength(line) == |line|
    ensures Lines(line) == [line]
  {
    assert line[|line|..] == [] && line[..|line|] == line;
  }

  /** Printing fence-free whole lines and a body around a fence and splitting again gives both back. */
  lemma SplitUndoesPrint(front: string, body: string)
    requires Terminated(front) && NoFence(Lines(front))
    ensures SplitLines(Lines(front + (FENCE + "\n") + body)) == Some(Split(front, FENCE + "\n", body))
  {
    var fence := FENCE + "\n";
    FenceIsALine();
    LinesOfConcat(fence, body);
    LinesOfConcat(front, fence + body);
    SplitWithoutFence(Lines(front), Lines(fence + body));
    LinesLoseNothing(front);
    LinesLoseNothing(body);
    assert Lines(fence + body) == [fence] + Lines(body);
    assert (Lines(fence + body))[1..] == Lines(body);
    assert front + fence + body == front + (fence + body);
    assert front + "" == front;
  }

  lemma FenceIsALine()
    ensures Lines(FENCE + "\n") == [FENCE + "\n"] && IsFence(FENCE + "\n") && Terminated(FENCE + "\n")
  {
    var line := FENCE + "\n";
    assert LineLength(line[3..]) == 1 && LineLength(line[2..]) == 2 && LineLength(line[1..]) == 3;
    OneLine(line);
    assert line[..3] == FENCE;
    assert StripEol(line) == StripEol(FENCE);
  }

  // ---- The whole file ----

  /** What reading the front matter as YAML comes to: a map, some other value, or an error. */
  datatype Yaml<C> = Mapping(config: C) | NotAMap | Malformed

  /** A parsed file, without front matter or with its configuration, or one of three errors. */
  datatype Document<C> = Plain(prompt: string) | Configured(config: C, prompt: string) | Unclosed | BadYaml | FrontMatterNotAMap

  /** The text after an opening fence line, if the (left-trimmed) file starts with one. */
  function AfterOpening(content: string): Option<string> {
    var trimmed := TrimStart(content);
    if FENCE + "\n" <= trimmed then Some(trimmed[4..])
    else if FENCE + "\r\n" <= trimmed then Some(trimmed[5..])
    else None
  }

  lemma {:induction false} TrimStartSkips(w: string, t: string)
    requires AllWhitespace(w) && (t != [] ==> !IsWhitespace(t[0]))
    ensures TrimStart(w + t) == t
    decreases |w|
  {
    if w == [] {
      assert w + t == t;
    } else {
      assert (w + t)[1..] == w[1..] + t;
      TrimStartSkips(w[1..], t);
    }
  }

  /** `content` is white space, an opening fence line with either line end, and `text`. */
  predicate Opens(content: string, lead: string, text: string) {
    AllWhitespace(lead) && (content == lead + ("---\n" + text) || content == lead + ("---\r\n" + text))
  }

  /** A file is fenced exactly if it opens so, and then the text after the opening is what is left to split. */
  lemma OpeningExactly(content: string, text: string)
    ensures AfterOpening(content) == Some(text) <==> exists lead :: Opens(content, lead, text)
  {
    if AfterOpening(content) == Some(text) {
      var lead := TrimStartExactly(content);
      var trimmed := TrimStart(content);
      if FENCE + "\n" <= trimmed {
        assert trimmed == trimmed[..4] + trimmed[4..] && trimmed[..4] == "---\n";
      } else {
        assert trimmed == trimmed[..5] + trimmed[5..] && trimmed[..5] == "---\r\n";
      }
      assert Opens(content, lead, text);
    }
    if lead :| Opens(content, lead, text) {
      if content == lead + ("---\n" + text) {
        TrimStartSkips(lead, "---\n" + text);
        assert ("---\n" + text)[..4] == FENCE + "\n" && ("---\n" + text)[4..] == text;
      } else {
        TrimStartSkips(lead, "---\r\n" + text);
        assert ("---\r\n" + text)[..5] == FENCE + "\r\n" && ("---\r\n" + text)[5..] == text;
        assert ("---\r\n" + text)[3] == '\r';
      }
    }
  }

  function Parsed<C>(content: string, read: string -> Yaml<C>): Document<C> {
    match AfterOpening(content)
    case None => Plain(Trim(content))
    case Some(text) =>
      match SplitLines(Lines(text))
      case None => Unclosed
      case Some(split) =>
        match read(split.front)
        case Malformed => BadYaml
        case NotAMap => FrontMatterNotAMap
        case Mapping(config) => Configured(config, Trim(split.body))
  }

  method Parse<C>(content: string, read: string -> Yaml<C>) returns (d: Document<C>)
    ensures d == Parsed(content, read)
  {
    match AfterOpening(content) {
      case None => d := Plain(Trim(content));
      case Some(text) =>
        var split := SplitAtFence(text);
        if split.None? {
          return Unclosed;
        }
        match read(split.value.front) {
          case Malformed => d := BadYaml;
          case NotAMap => d := FrontMatterNotAMap;
          case Mapping(config) => d := Configured(config, Trim(split.value.body));
        }
    }
  }

  /** A file written as fence, front matter, fence, body parses to the configuration in its front matter and its trimmed
      body, or to the error its front matter deserves. */
  lemma {:induction false} ParseUndoesPrint<C>(front: string, body: string, read: string -> Yaml<C>)
    requires Terminated(front) && NoFence(Lines(front))
    ensures Parsed((FENCE + "\n") + (front + (FENCE + "\n") + body), read) ==
            match read(front)
            case Malformed => BadYaml
            case NotAMap => FrontMatterNotAMap
            case Mapping(config) => Configured(config, Trim(body))
  {
    var text := front + (FENCE + "\n") + body;
    var content := (FENCE + "\n") + text;
    assert TrimStart(content) == content;
    assert content[..4] == FENCE + "\n" && content[4..] == text;
    SplitUndoesPrint(front, body);
  }

  /** A fenced file is unclosed exactly when no line after the opening one is a fence. */
  lemma UnclosedIffNoFence<C>(content: string, read: string -> Yaml<C>)
    ensures Parsed(content, read).Unclosed? <==>
            AfterOpening(content).Some? && NoFence(Lines(AfterOpening(content).value))
  {
    if AfterOpening(content).Some? {
      SplitIsLossless(AfterOpening(content).value);
    }
  }
}
