/** Script normalisation: `strip_lines` followed by `textwrap.dedent`. */
module Scripts {
  import opened Seqs
  import Sorting

  // ----- lines

  /** `s.split("\n")` */
  function Lines(s: string): (lines: seq<string>)
    ensures lines != []
  {
    if s == [] then [""]
    else
      var rest := Lines(s[1..]);
      if s[0] == '\n' then [""] + rest else [[s[0]] + rest[0]] + rest[1..]
  }

  /** `"\n".join(lines)` */
  function Join(lines: seq<string>): string {
    if lines == [] then ""
    else if |lines| == 1 then lines[0]
    else lines[0] + "\n" + Join(lines[1..])
  }

  ghost predicate NoNewlines(lines: seq<string>) {
    forall i :: 0 <= i < |lines| ==> '\n' !in lines[i]
  }

  lemma {:induction false} LinesHaveNoNewline(s: string)
    ensures NoNewlines(Lines(s))
  {
    if s == [] {
    } else {
      LinesHaveNoNewline(s[1..]);
    }
  }

  lemma {:induction false} JoinOfLines(s: string)
    ensures Join(Lines(s)) == s
  {
    if s == [] {
    } else {
      var rest := Lines(s[1..]);
      JoinOfLines(s[1..]);
      if s[0] == '\n' {
        assert Lines(s)[1..] == rest;
      } else {
        assert Lines(s)[1..] == rest[1..];
      }
    }
  }

  lemma {:induction false} LinesOfOne(line: string)
    requires '\n' !in line
    ensures Lines(line) == [line]
  {
    if line == [] {
    } else {
      assert line == [line[0]] + line[1..];
      LinesOfOne(line[1..]);
    }
  }

  lemma {:induction false} LinesOfCons(line: string, s: string)
    requires '\n' !in line
    ensures Lines(line + "\n" + s) == [line] + Lines(s)
  {
    if line == [] {
      assert (line + "\n" + s)[1..] == s;
    } else {
      var rest := line[1..];
      assert (line + "\n" + s)[1..] == rest + "\n" + s;
      LinesOfCons(rest, s);
      assert [line[0]] + rest == line;
    }
  }

  /** Splitting takes a join of lines apart again. */
  lemma {:induction false} LinesOfJoin(lines: seq<string>)
    requires NoNewlines(lines) && lines != []
    ensures Lines(Join(lines)) == lines
  {
    if |lines| == 1 {
      LinesOfOne(lines[0]);
    } else {
      LinesOfJoin(lines[1..]);
      LinesOfCons(lines[0], Join(lines[1..]));
    }
  }

  // ----- strip_lines

  /** `str.isspace` of one character. */
  predicate IsSpace(c: char) {
    || '\t' <= c <= '\r' || '\U{1c}' <= c <= ' ' || c == '\U{85}' || c == '\U{a0}' || c == '\U{1680}'
    || '\U{2000}' <= c <= '\U{200a}' || c == '\U{2028}' || c == '\U{2029}' || c == '\U{202f}'
    || c == '\U{205f}' || c == '\U{3000}'
  }

  /** `line.strip()` is not empty. */
  predicate NonBlank(line: string) {
    exists i :: 0 <= i < |line| && !IsSpace(line[i])
  }

  function Kept(lines: seq<string>): seq<string> {
    Filter(NonBlank, lines)
  }

  function StripLines(s: string): string {
    Join(Kept(Lines(s)))
  }

  /** Exactly these characters are blank: the 29 that Python counts as whitespace. */
  lemma IsSpaceExactly(c: char)
    ensures IsSpace(c) <==>
            c in "\t\n\U{b}\U{c}\r\U{1c}\U{1d}\U{1e}\U{1f} \U{85}\U{a0}\U{1680}"
            || c in "\U{2000}\U{2001}\U{2002}\U{2003}\U{2004}\U{2005}\U{2006}\U{2007}\U{2008}\U{2009}\U{200a}"
            || c in "\U{2028}\U{2029}\U{202f}\U{205f}\U{3000}"
  {
  }

  /** A line with a visible character stays. */
  lemma VisibleKept(lines: seq<string>, line: string, i: nat)
    requires line in lines && i < |line| && '!' <= line[i] <= '~'
    ensures line in Kept(lines)
  {
    KeptExactly(lines, line);
  }

  /** A line of blanks, tabs, carriage returns, vertical tabs and form feeds goes. */
  lemma BlankDropped(lines: seq<string>, line: string)
    requires forall c :: c in line ==> c in " \t\r\U{b}\U{c}"
    ensures line !in Kept(lines)
  {
    KeptExactly(lines, line);
    assert forall i :: 0 <= i < |line| ==> line[i] in line;
  }

  /** `strip_lines` drops a line exactly when it is blank all through. */
  lemma {:induction false} KeptExactly(lines: seq<string>, line: string)
    ensures line in Kept(lines) <==> line in lines && exists i :: 0 <= i < |line| && !IsSpace(line[i])
  {
    if lines == [] {
    } else {
      InitLast(lines);
      KeptExactly(Init(lines), line);
    }
  }

  lemma KeptLines(lines: seq<string>)
    ensures forall i :: 0 <= i < |Kept(lines)| ==> NonBlank(Kept(lines)[i])
    ensures NoNewlines(lines) ==> NoNewlines(Kept(lines))
  {
    FilterPositions(NonBlank, lines);
    forall i | 0 <= i < |Kept(lines)|
      ensures NonBlank(Kept(lines)[i])
    {
      assert Positions(NonBlank, lines)[i] in Positions(NonBlank, lines);
    }
  }

  /** The lines of a stripped script are the non-blank lines, in order, and one empty line if
      there are none. */
  lemma LinesOfStripped(s: string)
    ensures Lines(StripLines(s)) == if Kept(Lines(s)) == [] then [""] else Kept(Lines(s))
  {
    LinesHaveNoNewline(s);
    KeptLines(Lines(s));
    if Kept(Lines(s)) != [] {
      LinesOfJoin(Kept(Lines(s)));
    }
  }

  lemma KeptOfKept(lines: seq<string>)
    ensures Kept(Kept(lines)) == Kept(lines)
  {
    KeptLines(lines);
    FilterAll(NonBlank, Kept(lines));
  }

  lemma StripLinesIdempotent(s: string)
    ensures StripLines(StripLines(s)) == StripLines(s)
  {
    LinesOfStripped(s);
    KeptOfKept(Lines(s));
    if Kept(Lines(s)) == [] {
      assert Kept([""]) == [] by { assert Init([""]) == []; }
    }
  }

  // ----- margins

  predicate IsIndent(p: string) {
    forall i :: 0 <= i < |p| ==> p[i] == ' ' || p[i] == '\t'
  }

  lemma IsIndentExactly(p: string)
    ensures IsIndent(p) <==> forall c :: c in p ==> c in " \t"
  {
    assert forall i :: 0 <= i < |p| ==> p[i] in p;
  }

  /** The leading spaces and tabs of a line. */
  function Indent(line: string): string {
    if line != [] && (line[0] == ' ' || line[0] == '\t') then [line[0]] + Indent(line[1..]) else ""
  }

  function CommonPrefix(a: string, b: string): string {
    if a != [] && b != [] && a[0] == b[0] then [a[0]] + CommonPrefix(a[1..], b[1..]) else ""
  }

  function Margin(lines: seq<string>): string {
    if lines == [] then ""
    else if |lines| == 1 then Indent(lines[0])
    else CommonPrefix(Margin(Init(lines)), Indent(Last(lines)))
  }

  lemma {:induction false} PrefixOfIndent(p: string, line: string)
    ensures p <= Indent(line) <==> IsIndent(p) && p <= line
  {
    if p == [] {
    } else {
      assert p == [p[0]] + p[1..];
      if line != [] {
        assert line == [line[0]] + line[1..];
        PrefixOfIndent(p[1..], line[1..]);
      }
      if IsIndent(p) && p <= line {
        assert p[1..] <= line[1..];
      }
    }
  }

  lemma {:induction false} PrefixOfCommon(p: string, a: string, b: string)
    ensures p <= CommonPrefix(a, b) <==> p <= a && p <= b
  {
    if p == [] || a == [] || b == [] {
    } else {
      assert p == [p[0]] + p[1..] && a == [a[0]] + a[1..] && b == [b[0]] + b[1..];
      PrefixOfCommon(p[1..], a[1..], b[1..]);
    }
  }

  /** The margin is the greatest run of spaces and tabs that every line starts with. */
  lemma {:induction false} MarginGreatest(p: string, lines: seq<string>)
    requires lines != []
    ensures p <= Margin(lines) <==> IsIndent(p) && (forall i :: 0 <= i < |lines| ==> p <= lines[i])
  {
    PrefixOfIndent(p, Last(lines));
    if |lines| == 1 {
    } else {
      MarginGreatest(p, Init(lines));
      PrefixOfCommon(p, Margin(Init(lines)), Indent(Last(lines)));
      assert forall i :: 0 <= i < |lines| - 1 ==> lines[i] == Init(lines)[i];
    }
  }

  lemma MarginIsPrefix(lines: seq<string>)
    ensures IsIndent(Margin(lines)) && forall i :: 0 <= i < |lines| ==> Margin(lines) <= lines[i]
  {
    if lines != [] {
      MarginGreatest(Margin(lines), lines);
    }
  }

  lemma {:induction false} IndentOfIndented(p: string, line: string)
    requires IsIndent(p)
    ensures Indent(p + line) == p + Indent(line)
  {
    if p == [] {
      assert p + line == line;
    } else {
      assert (p + line)[1..] == p[1..] + line;
      IndentOfIndented(p[1..], line);
    }
  }

  lemma {:induction false} CommonPrefixShifted(p: string, a: string, b: string)
    ensures CommonPrefix(p + a, p + b) == p + CommonPrefix(a, b)
  {
    if p == [] {
      assert p + a == a && p + b == b;
    } else {
      assert (p + a)[1..] == p[1..] + a && (p + b)[1..] == p[1..] + b;
      CommonPrefixShifted(p[1..], a, b);
    }
  }

  /** What is a prefix of the least and of the greatest is a prefix of everything between. */
  lemma {:induction false} PrefixBetween(p: string, low: string, line: string, high: string)
    requires p <= low && p <= high && !Sorting.StrLess(line, low) && !Sorting.StrLess(high, line)
    ensures p <= line
  {
    if p == [] {
    } else {
      assert p == [p[0]] + p[1..] && low == [low[0]] + low[1..] && high == [high[0]] + high[1..];
      assert line != [] && line == [line[0]] + line[1..];
      PrefixBetween(p[1..], low[1..], line[1..], high[1..]);
    }
  }

  /** The margin can as well be read off the least and the greatest line, which is how later versions
      of `dedent` find it: the blanks at the start of what those two have in common. */
  lemma MarginFromExtremes(lines: seq<string>, low: string, high: string)
    requires low in lines && high in lines
    requires forall i :: 0 <= i < |lines| ==> !Sorting.StrLess(lines[i], low) && !Sorting.StrLess(high, lines[i])
    ensures Indent(CommonPrefix(low, high)) == Margin(lines)
  {
    var m, n := Indent(CommonPrefix(low, high)), Margin(lines);
    PrefixOfIndent(m, CommonPrefix(low, high));
    PrefixOfCommon(m, low, high);
    forall i | 0 <= i < |lines|
      ensures m <= lines[i]
    {
      PrefixBetween(m, low, lines[i], high);
    }
    MarginGreatest(m, lines);
    MarginGreatest(n, lines);
    PrefixOfCommon(n, low, high);
    PrefixOfIndent(n, CommonPrefix(low, high));
    assert m <= n && n <= m;
  }

  // ----- indenting and undenting

  function Indented(p: string, lines: seq<string>): seq<string> {
    seq(|lines|, i requires 0 <= i < |lines| => p + lines[i])
  }

  /** `line[n:]` */
  function Drop(n: nat, line: string): (r: string)
    ensures |r| == if n <= |line| then |line| - n else 0
  {
    if n <= |line| then line[n..] else ""
  }

  /** Every line with the common margin removed. */
  function Undent(lines: seq<string>): seq<string> {
    seq(|lines|, i requires 0 <= i < |lines| => Drop(|Margin(lines)|, lines[i]))
  }

  lemma {:induction false} MarginIndented(p: string, lines: seq<string>)
    requires IsIndent(p) && lines != []
    ensures Margin(Indented(p, lines)) == p + Margin(lines)
  {
    IndentOfIndented(p, Last(lines));
    if |lines| == 1 {
    } else {
      MarginIndented(p, Init(lines));
      assert Init(Indented(p, lines)) == Indented(p, Init(lines));
      CommonPrefixShifted(p, Margin(Init(lines)), Indent(Last(lines)));
    }
  }

  lemma UndentIndented(p: string, lines: seq<string>)
    requires IsIndent(p)
    ensures Undent(Indented(p, lines)) == Undent(lines)
  {
    if lines != [] {
      MarginIndented(p, lines);
      MarginIsPrefix(lines);
      forall i | 0 <= i < |lines|
        ensures Undent(Indented(p, lines))[i] == Undent(lines)[i]
      {
        assert (p + lines[i])[|p| + |Margin(lines)|..] == lines[i][|Margin(lines)|..];
      }
    }
  }

  lemma IndentedUndent(lines: seq<string>)
    ensures Indented(Margin(lines), Undent(lines)) == lines
  {
    MarginIsPrefix(lines);
    forall i | 0 <= i < |lines|
      ensures Margin(lines) + Drop(|Margin(lines)|, lines[i]) == lines[i]
    {
      assert Margin(lines) == lines[i][..|Margin(lines)|];
    }
  }

  /** Removing the margin leaves none. */
  lemma UndentHasNoMargin(lines: seq<string>)
    ensures Margin(Undent(lines)) == ""
    ensures Undent(Undent(lines)) == Undent(lines)
  {
    if lines != [] {
      IndentedUndent(lines);
      MarginIsPrefix(lines);
      MarginIndented(Margin(lines), Undent(lines));
      assert |Margin(lines)| == |Margin(lines)| + |Margin(Undent(lines))|;
    }
  }

  lemma NonBlankIndented(p: string, line: string)
    requires IsIndent(p)
    ensures NonBlank(p + line) <==> NonBlank(line)
  {
    if NonBlank(line) {
      var i :| 0 <= i < |line| && !IsSpace(line[i]);
      assert (p + line)[|p| + i] == line[i];
    }
    if NonBlank(p + line) {
      var i :| 0 <= i < |p + line| && !IsSpace((p + line)[i]);
      assert |p| <= i && line[i - |p|] == (p + line)[i];
    }
  }

  /** Removing the margin leaves non-blank lines non-blank, and makes no new lines. */
  lemma UndentKeepsLines(lines: seq<string>)
    requires forall i :: 0 <= i < |lines| ==> NonBlank(lines[i])
    requires NoNewlines(lines)
    ensures forall i :: 0 <= i < |lines| ==> NonBlank(Undent(lines)[i])
    ensures NoNewlines(Undent(lines))
  {
    IndentedUndent(lines);
    MarginIsPrefix(lines);
    forall i | 0 <= i < |lines|
      ensures NonBlank(Undent(lines)[i]) && '\n' !in Undent(lines)[i]
    {
      assert lines[i] == Margin(lines) + Undent(lines)[i];
      NonBlankIndented(Margin(lines), Undent(lines)[i]);
    }
  }

  // ----- dedent

  /** A line that counts for the margin. */
  predicate HasText(line: string) {
    !IsIndent(line)
  }

  /** `textwrap.dedent`: lines of spaces and tabs only become empty, the others lose their margin. */
  function Dedented(text: string): string {
    Join(DedentedLines(Lines(text)))
  }

  function DedentedLines(lines: seq<string>): seq<string> {
    var n := |Margin(Filter(HasText, lines))|;
    seq(|lines|, i requires 0 <= i < |lines| => if HasText(lines[i]) then Drop(n, lines[i]) else "")
  }

  /** Line by line: one of spaces and tabs only comes out empty, any other without the margin that the
      others have in common. */
  lemma DedentedLineByLine(text: string)
    ensures |Lines(Dedented(text))| == |Lines(text)|
    ensures forall i :: 0 <= i < |Lines(text)| ==>
              if forall c :: c in Lines(text)[i] ==> c in " \t" then Lines(Dedented(text))[i] == ""
              else Lines(text)[i] == Margin(Filter(HasText, Lines(text))) + Lines(Dedented(text))[i]
  {
    var lines := Lines(text);
    var margin := Margin(Filter(HasText, lines));
    forall i | 0 <= i < |lines|
      ensures HasText(lines[i]) <==> !forall c :: c in lines[i] ==> c in " \t"
      ensures HasText(lines[i]) ==> lines[i] == margin + Drop(|margin|, lines[i])
    {
      IsIndentExactly(lines[i]);
      if HasText(lines[i]) {
        WithoutMargin(lines, lines[i]);
      }
    }
    LinesHaveNoNewline(text);
    LinesOfJoin(DedentedLines(lines));
  }

  lemma WithoutMargin(lines: seq<string>, line: string)
    requires line in lines && HasText(line)
    ensures var margin := Margin(Filter(HasText, lines)); line == margin + Drop(|margin|, line)
  {
    var texts := Filter(HasText, lines);
    FilterCount(HasText, lines, line);
    assert line in multiset(texts);
    MarginIsPrefix(texts);
    assert Margin(texts) <= line;
  }

  lemma {:induction false} CommonPrefixCases(a: string, b: string)
    ensures a <= b ==> CommonPrefix(a, b) == a
    ensures b <= a ==> CommonPrefix(a, b) == b
  {
    if a == [] || b == [] {
    } else {
      assert a == [a[0]] + a[1..] && b == [b[0]] + b[1..];
      CommonPrefixCases(a[1..], b[1..]);
    }
  }

  lemma {:induction false} CommonPrefixAt(a: string, b: string, n: nat)
    requires n < |a| && n < |b| && a[..n] == b[..n] && a[n] != b[n]
    ensures CommonPrefix(a, b) == a[..n]
  {
    if n == 0 {
    } else {
      assert a[0] == a[..n][0] && b[0] == b[..n][0];
      assert a[1..][..n - 1] == a[..n][1..] && b[1..][..n - 1] == b[..n][1..];
      CommonPrefixAt(a[1..], b[1..], n - 1);
    }
  }

  lemma MarginNext(lines: seq<string>, line: string)
    ensures Margin(lines + [line]) ==
            if lines == [] then Indent(line) else CommonPrefix(Margin(lines), Indent(line))
  {
    assert Init(lines + [line]) == lines;
  }

  /** One round of the margin loop: the margin shrinks to what it shares with the next indent. */
  method Narrow(margin: string, indent: string) returns (narrowed: string)
    ensures narrowed == CommonPrefix(margin, indent)
  {
    CommonPrefixCases(margin, indent);
    if margin <= indent {
      return margin;
    }
    if indent <= margin {
      return indent;
    }
    var i := 0;
    while i < |margin| && i < |indent| && margin[i] == indent[i]
      invariant i <= |margin| && i <= |indent|
      invariant margin[..i] == indent[..i]
    {
      i := i + 1;
    }
    CommonPrefixAt(margin, indent, i);
    narrowed := margin[..i];
  }

  method FindMargin(lines: seq<string>) returns (margin: string)
    ensures margin == Margin(Filter(HasText, lines))
  {
    margin := "";
    var found := false;
    ghost var counted: seq<string> := [];
    for k := 0 to |lines|
      invariant counted == FilterUpTo(HasText, lines, k)
      invariant margin == Margin(counted) && (found <==> counted != [])
    {
      if HasText(lines[k]) {
        var indent := Indent(lines[k]);
        MarginNext(counted, lines[k]);
        if found {
          margin := Narrow(margin, indent);
        } else {
          margin, found := indent, true;
        }
        counted := counted + [lines[k]];
      }
    }
    FilterUpToAll(HasText, lines);
  }

  method Dedent(text: string) returns (r: string)
    ensures r == Dedented(text)
  {
    var lines := Lines(text);
    var margin := FindMargin(lines);
    var out: seq<string> := [];
    for k := 0 to |lines|
      invariant out == DedentedLines(lines)[..k]
    {
      out := out + [if HasText(lines[k]) then Drop(|margin|, lines[k]) else ""];
    }
    assert out == DedentedLines(lines);
    r := Join(out);
  }

  // ----- the normal form

  function Normalised(script: string): string {
    Dedented(StripLines(script))
  }

  /** The lines a script comes down to. */
  function Body(script: string): seq<string> {
    Undent(Kept(Lines(script)))
  }

  lemma NonBlankHasText(line: string)
    requires NonBlank(line)
    ensures HasText(line)
  {
  }

  lemma DedentedNonBlank(lines: seq<string>)
    requires forall i :: 0 <= i < |lines| ==> NonBlank(lines[i])
    ensures DedentedLines(lines) == Undent(lines)
  {
    forall line | line in lines
      ensures HasText(line)
    {
      NonBlankHasText(line);
    }
    FilterAll(HasText, lines);
    assert forall i :: 0 <= i < |lines| ==> lines[i] in lines;
  }

  lemma NormalisedIsJoin(script: string)
    ensures Normalised(script) == Join(Body(script))
  {
    var kept := Kept(Lines(script));
    LinesOfStripped(script);
    KeptLines(Lines(script));
    if kept == [] {
      assert DedentedLines([""]) == [""];
    } else {
      DedentedNonBlank(kept);
    }
  }

  lemma BodyLines(script: string)
    ensures NoNewlines(Body(script))
    ensures forall i :: 0 <= i < |Body(script)| ==> NonBlank(Body(script)[i])
  {
    LinesHaveNoNewline(script);
    KeptLines(Lines(script));
    UndentKeepsLines(Kept(Lines(script)));
  }

  /** Splitting a normalised script gives its body back; a script of blank lines gives one empty line. */
  lemma LinesOfNormalised(script: string)
    ensures Lines(Normalised(script)) == if Body(script) == [] then [""] else Body(script)
  {
    NormalisedIsJoin(script);
    BodyLines(script);
    if Body(script) != [] {
      LinesOfJoin(Body(script));
    }
  }

  lemma NormalisedBody(script: string)
    ensures Body(Normalised(script)) == Body(script)
  {
    var body := Body(script);
    LinesOfNormalised(script);
    BodyLines(script);
    assert Kept([""]) == [] by { assert Init([""]) == []; }
    forall line | line in body
      ensures NonBlank(line)
    {
    }
    FilterAll(NonBlank, body);
    UndentHasNoMargin(Kept(Lines(script)));
  }

  lemma NormalisedIdempotent(script: string)
    ensures Normalised(Normalised(script)) == Normalised(script)
  {
    NormalisedBody(script);
    NormalisedIsJoin(script);
    NormalisedIsJoin(Normalised(script));
  }

  /** The same lines under two uniform indentations. */
  ghost predicate SameUpToIndent(a: seq<string>, b: seq<string>) {
    exists p, q, lines :: IsIndent(p) && IsIndent(q) && a == Indented(p, lines) && b == Indented(q, lines)
  }

  lemma NormalFormByBody(s: string, t: string)
    ensures Normalised(s) == Normalised(t) <==> Body(s) == Body(t)
  {
    NormalisedIsJoin(s);
    NormalisedIsJoin(t);
    NormalisedBody(s);
    NormalisedBody(t);
  }

  lemma SameBody(a: seq<string>, b: seq<string>)
    ensures Undent(a) == Undent(b) <==> SameUpToIndent(a, b)
  {
    if Undent(a) == Undent(b) {
      IndentedUndent(a);
      IndentedUndent(b);
      MarginIsPrefix(a);
      MarginIsPrefix(b);
      assert a == Indented(Margin(a), Undent(a)) && b == Indented(Margin(b), Undent(a));
    }
    if SameUpToIndent(a, b) {
      var p, q, lines :| IsIndent(p) && IsIndent(q) && a == Indented(p, lines) && b == Indented(q, lines);
      UndentIndented(p, lines);
      UndentIndented(q, lines);
    }
  }

  /** Two scripts normalise to the same text exactly when their non-blank lines differ by at most a
      uniform indentation. */
  lemma NormalFormComplete(s: string, t: string)
    ensures Normalised(s) == Normalised(t) <==> SameUpToIndent(Kept(Lines(s)), Kept(Lines(t)))
  {
    NormalFormByBody(s, t);
    SameBody(Kept(Lines(s)), Kept(Lines(t)));
  }

  // ----- edits that do not matter

  lemma KeptOfJoin(lines: seq<string>)
    requires NoNewlines(lines)
    ensures Kept(Lines(Join(lines))) == Kept(lines)
  {
    if lines == [] {
      assert Kept([""]) == [] by { assert Init([""]) == []; }
    } else {
      LinesOfJoin(lines);
    }
  }

  lemma KeptWithoutBlank(a: seq<string>, blank: string, b: seq<string>)
    requires !NonBlank(blank)
    ensures Kept(a + [blank] + b) == Kept(a + b)
  {
    FilterConcat(NonBlank, a + [blank], b);
    FilterConcat(NonBlank, a, [blank]);
    FilterConcat(NonBlank, a, b);
    FilterNone(NonBlank, [blank]);
  }

  /** A whitespace-only line can go in anywhere. */
  lemma BlankLineIrrelevant(a: seq<string>, blank: string, b: seq<string>)
    requires NoNewlines(a) && NoNewlines(b) && '\n' !in blank && !NonBlank(blank)
    ensures Normalised(Join(a + [blank] + b)) == Normalised(Join(a + b))
  {
    KeptOfJoin(a + [blank] + b);
    KeptOfJoin(a + b);
    KeptWithoutBlank(a, blank, b);
    NormalisedIsJoin(Join(a + [blank] + b));
    NormalisedIsJoin(Join(a + b));
  }

  lemma {:induction false} KeptIndented(p: string, lines: seq<string>)
    requires IsIndent(p)
    ensures Kept(Indented(p, lines)) == Indented(p, Kept(lines))
  {
    if lines == [] {
    } else {
      KeptIndented(p, Init(lines));
      NonBlankIndented(p, Last(lines));
      assert Init(Indented(p, lines)) == Indented(p, Init(lines));
    }
  }

  /** Every line, blank ones too, can be prefixed with the same spaces and tabs. */
  lemma IndentIrrelevant(p: string, lines: seq<string>)
    requires IsIndent(p) && NoNewlines(lines)
    ensures Normalised(Join(Indented(p, lines))) == Normalised(Join(lines))
  {
    KeptOfJoin(lines);
    KeptOfJoin(Indented(p, lines));
    KeptIndented(p, lines);
    UndentIndented(p, Kept(lines));
    NormalisedIsJoin(Join(lines));
    NormalisedIsJoin(Join(Indented(p, lines)));
  }
}
