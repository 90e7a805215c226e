/**
 * Sections of a Markdown document with their line numbers: markdown.ts. Fences follow section 4.5 of
 * CommonMark 0.31.
 */
module MarkdownSections {
  import opened Results
  import opened Unicode

  const HASH: CodePoint := 0x23
  const BACKTICK: CodePoint := 0x60
  const TILDE: CodePoint := 0x7E
  const TAB: CodePoint := 0x09
  const RETURN: CodePoint := 0x0D
  const MAX_INDENT: nat := 3
  const MIN_FENCE: nat := 3
  const MAX_LEVEL: nat := 6

  /* ---- lines ---- */

  /**
   * The line at the start of a text and what follows its line feed; a carriage return before it belongs to
   * the break.
   */
  function FirstBreak(t: Text): (i: nat)
    ensures i <= |t|
    ensures forall k :: 0 <= k < i ==> t[k] != NEWLINE
    ensures i < |t| ==> t[i] == NEWLINE
  {
    if t == [] || t[0] == NEWLINE then 0 else 1 + FirstBreak(t[1..])
  }

  function SplitLines(t: Text): (lines: seq<Text>)
    ensures lines != []
    decreases |t|
  {
    var i := FirstBreak(t);
    if i == |t| then [t]
    else
      var end := if i > 0 && t[i - 1] == RETURN then i - 1 else i;
      [t[..end]] + SplitLines(t[i + 1..])
  }

  /* ---- single lines ---- */

  /** Length of the run of c that starts at i. */
  function RunOf(line: Text, i: nat, c: CodePoint): (n: nat)
    requires i <= |line|
    ensures i + n <= |line|
    ensures forall k :: i <= k < i + n ==> line[k] == c
    ensures i + n < |line| ==> line[i + n] != c
    decreases |line| - i
  {
    if i < |line| && line[i] == c then 1 + RunOf(line, i + 1, c) else 0
  }

  datatype Fence = Fence(marker: CodePoint, length: nat)

  /** The run of fence characters a line starts with, and where it ends. */
  datatype Delimiter = Delimiter(fence: Fence, end: nat)

  function DelimiterOf(line: Text): (d: Option<Delimiter>)
    ensures d.Some? ==> d.value.end <= |line|
  {
    var indent := RunOf(line, 0, SPACE);
    if indent > MAX_INDENT || indent == |line| || (line[indent] != BACKTICK && line[indent] != TILDE) then None
    else
      var length := RunOf(line, indent, line[indent]);
      if length < MIN_FENCE then None else Some(Delimiter(Fence(line[indent], length), indent + length))
  }

  predicate OnlySpacesAndTabs(t: Text) {
    forall i :: 0 <= i < |t| ==> t[i] == SPACE || t[i] == TAB
  }

  /** The line ends an open fence: same marker, at least as long, nothing but spaces and tabs behind. */
  predicate Closes(line: Text, open: Fence) {
    var d := DelimiterOf(line);
    d.Some? && d.value.fence.marker == open.marker && d.value.fence.length >= open.length
    && OnlySpacesAndTabs(line[d.value.end..])
  }

  /** The fence a line opens; the info string of a backtick fence has no backtick. */
  function Opened(line: Text): Option<Fence> {
    var d := DelimiterOf(line);
    if d.Some? && (d.value.fence.marker != BACKTICK || BACKTICK !in line[d.value.end..]) then Some(d.value.fence)
    else None
  }

  predicate LineTerminator(c: CodePoint) {
    c == NEWLINE || c == RETURN || c == 0x2028 || c == 0x2029
  }

  predicate OneLine(t: Text) {
    forall i :: 0 <= i < |t| ==> !LineTerminator(t[i])
  }

  datatype Heading = Heading(level: nat, title: Text)

  /**
   * One to six hashes, whitespace, and at least one character that is not a line terminator. A line of hashes
   * followed by two or more blanks is a heading without text.
   */
  function HeadingOf(line: Text): (h: Option<Heading>)
    ensures h.Some? ==> 1 <= h.value.level <= MAX_LEVEL
  {
    var indent := RunOf(line, 0, SPACE);
    var level := RunOf(line, indent, HASH);
    var rest := line[indent + level..];
    var title := Trim(rest);
    if indent > MAX_INDENT || level < 1 || level > MAX_LEVEL || rest == [] || !Whitespace(rest[0]) then None
    else if title != [] then
      if OneLine(title) then Some(Heading(level, title)) else None
    else if exists i :: 1 <= i < |rest| && !LineTerminator(rest[i]) then Some(Heading(level, []))
    else None
  }

  /* ---- where headings are ---- */

  /** The fence that is open before line i. */
  function FenceAt(lines: seq<Text>, i: nat): Option<Fence>
    requires i <= |lines|
  {
    if i == 0 then None
    else
      var before := FenceAt(lines, i - 1);
      if before.Some? then (if Closes(lines[i - 1], before.value) then None else before) else Opened(lines[i - 1])
  }

  predicate IsHeading(lines: seq<Text>, i: nat)
    requires i < |lines|
  {
    FenceAt(lines, i).None? && Opened(lines[i]).None? && HeadingOf(lines[i]).Some?
  }

  predicate AnyHeading(lines: seq<Text>, n: nat)
    requires n <= |lines|
  {
    exists i :: 0 <= i < n && IsHeading(lines, i)
  }

  /** Deeper entries give way to a heading of the same or a higher level. */
  function Deepen(path: seq<Text>, h: Heading): seq<Text>
    requires h.level >= 1
  {
    (if h.level - 1 < |path| then path[..h.level - 1] else path) + [h.title]
  }

  /** The titles in force before line i. */
  function PathAt(lines: seq<Text>, i: nat): (path: seq<Text>)
    requires i <= |lines|
    ensures |path| <= MAX_LEVEL
  {
    if i == 0 then []
    else if IsHeading(lines, i - 1) then Deepen(PathAt(lines, i - 1), HeadingOf(lines[i - 1]).value)
    else PathAt(lines, i - 1)
  }

  /* ---- what a sectioning is ---- */

  datatype Section = Section(
    lineStart: nat, lineEnd: nat, headingPath: seq<Text>, sectionTitle: Option<Text>, content: Text)

  /** Lines a..b, counted from zero, are all the lines between two neighbouring headings or document ends. */
  ghost predicate Body(lines: seq<Text>, a: nat, b: nat, n: nat)
    requires n <= |lines|
  {
    && a <= b <= n
    && (forall k :: a <= k < b ==> !IsHeading(lines, k))
    && (a == 0 || IsHeading(lines, a - 1)) && (b == n || IsHeading(lines, b))
  }

  function TitleOf(path: seq<Text>): Option<Text> {
    if path == [] then None else Some(path[|path| - 1])
  }

  /** A section holds exactly the lines of one body that is not blank, under the headings in force there. */
  ghost predicate SectionValid(lines: seq<Text>, s: Section, n: nat)
    requires n <= |lines|
  {
    && 1 <= s.lineStart <= s.lineEnd <= n && Body(lines, s.lineStart - 1, s.lineEnd, n)
    && s.content == Join(lines[s.lineStart - 1..s.lineEnd], NEWLINE) && !Blank(s.content)
    && s.headingPath == PathAt(lines, s.lineStart - 1) && s.sectionTitle == TitleOf(s.headingPath)
  }

  ghost predicate Covered(sections: seq<Section>, a: nat, b: nat) {
    exists i :: 0 <= i < |sections| && sections[i].lineStart == a + 1 && sections[i].lineEnd == b
  }

  /** Sections in document order, without overlap, one for every body that is not blank. */
  ghost predicate Sectioning(lines: seq<Text>, sections: seq<Section>, n: nat)
    requires n <= |lines|
  {
    && (forall i :: 0 <= i < |sections| ==> SectionValid(lines, sections[i], n))
    && (forall i, j :: 0 <= i < j < |sections| ==> sections[i].lineEnd < sections[j].lineStart)
    && (forall a: nat, b: nat :: a <= b <= n && Body(lines, a, b, n) && !Blank(Join(lines[a..b], NEWLINE)) ==>
      Covered(sections, a, b))
  }

  lemma BodiesEndAtHeading(lines: seq<Text>, p: nat, i: nat, a: nat, b: nat)
    requires p < i <= |lines| && IsHeading(lines, p) && Body(lines, p + 1, i, i)
    ensures Body(lines, a, b, i) <==> Body(lines, a, b, p) || (a == p + 1 && b == i)
  {
    hide IsHeading;
  }

  function SectionOf(lines: seq<Text>, a: nat, b: nat): Section
    requires a <= b <= |lines|
  {
    Section(a + 1, b, PathAt(lines, a), TitleOf(PathAt(lines, a)), Join(lines[a..b], NEWLINE))
  }

  function Extended(lines: seq<Text>, sections: seq<Section>, a: nat, b: nat): seq<Section>
    requires a <= b <= |lines|
  {
    if Blank(Join(lines[a..b], NEWLINE)) then sections else sections + [SectionOf(lines, a, b)]
  }

  lemma CoveredExtended(sections: seq<Section>, x: Section, a: nat, b: nat)
    ensures Covered(sections, a, b) ==> Covered(sections + [x], a, b)
    ensures x.lineStart == a + 1 && x.lineEnd == b ==> Covered(sections + [x], a, b)
  {
    var more := sections + [x];
    if Covered(sections, a, b) {
      var i :| 0 <= i < |sections| && sections[i].lineStart == a + 1 && sections[i].lineEnd == b;
      assert more[i] == sections[i];
    }
    assert more[|sections|] == x;
  }

  lemma EmptyJoinIsBlank(lines: seq<Text>)
    requires lines == []
    ensures Blank(Join(lines, NEWLINE))
  {
  }

  lemma StillValid(lines: seq<Text>, s: Section, p: nat, i: nat)
    requires p < i <= |lines| && IsHeading(lines, p) && Body(lines, p + 1, i, i) && SectionValid(lines, s, p)
    ensures SectionValid(lines, s, i)
  {
    hide IsHeading, Blank, PathAt, Join;
    BodiesEndAtHeading(lines, p, i, s.lineStart - 1, s.lineEnd);
  }

  lemma StillOrdered(lines: seq<Text>, sections: seq<Section>, p: nat, i: nat)
    requires p < i <= |lines| && Sectioning(lines, sections, p)
    ensures var more := Extended(lines, sections, p + 1, i);
      forall j, k :: 0 <= j < k < |more| ==> more[j].lineEnd < more[k].lineStart
  {
    hide IsHeading, Blank, PathAt, Join, Body;
  }

  lemma StillCovered(lines: seq<Text>, sections: seq<Section>, p: nat, i: nat, a: nat, b: nat)
    requires p < i <= |lines| && IsHeading(lines, p) && Body(lines, p + 1, i, i)
    requires Sectioning(lines, sections, p) && a <= b <= i && Body(lines, a, b, i) && !Blank(Join(lines[a..b], NEWLINE))
    ensures Covered(Extended(lines, sections, p + 1, i), a, b)
  {
    hide IsHeading, Blank, PathAt, Join, SectionValid, Covered;
    BodiesEndAtHeading(lines, p, i, a, b);
    if Extended(lines, sections, p + 1, i) != sections { CoveredExtended(sections, SectionOf(lines, p + 1, i), a, b); }
  }

  /** The body behind the heading at p closes at i. */
  lemma NextSection(lines: seq<Text>, sections: seq<Section>, p: nat, i: nat)
    requires p < i <= |lines| && IsHeading(lines, p) && Body(lines, p + 1, i, i)
    requires Sectioning(lines, sections, p)
    ensures Sectioning(lines, Extended(lines, sections, p + 1, i), i)
  {
    hide IsHeading, Blank, PathAt, Join, SectionValid, Covered, Body;
    var more := Extended(lines, sections, p + 1, i);
    if p + 1 == i { EmptyJoinIsBlank(lines[p + 1..i]); } else { NewIsValid(lines, p + 1, i); }
    StillOrdered(lines, sections, p, i);
    forall k | 0 <= k < |more| ensures SectionValid(lines, more[k], i) {
      if k < |sections| { StillValid(lines, sections[k], p, i); }
    }
    forall a: nat, b: nat | a <= b <= i && Body(lines, a, b, i) && !Blank(Join(lines[a..b], NEWLINE))
      ensures Covered(more, a, b)
    {
      StillCovered(lines, sections, p, i, a, b);
    }
  }

  lemma NewIsValid(lines: seq<Text>, a: nat, i: nat)
    requires a < i <= |lines| && Body(lines, a, i, i)
    ensures !Blank(Join(lines[a..i], NEWLINE)) ==> SectionValid(lines, SectionOf(lines, a, i), i)
  {
    hide IsHeading, Blank, PathAt, Join, Body;
  }

  /** The body before the first heading. */
  lemma FirstSection(lines: seq<Text>, i: nat)
    requires i <= |lines| && Body(lines, 0, i, i)
    ensures Sectioning(lines, Extended(lines, [], 0, i), i)
  {
    hide IsHeading, Blank, PathAt, Join, Covered, SectionValid;
    var more := Extended(lines, [], 0, i);
    if i == 0 { EmptyJoinIsBlank(lines[0..i]); } else { NewIsValid(lines, 0, i); }
    forall a: nat, b: nat | a <= b <= i && Body(lines, a, b, i) && !Blank(Join(lines[a..b], NEWLINE))
      ensures Covered(more, a, b)
    {
      assert a == 0 && b == i;
      CoveredExtended([], SectionOf(lines, 0, i), a, b);
    }
  }

  /** The body collected so far becomes a section unless it is blank. */
  method FlushSection(sections: seq<Section>, bodyStartLine: nat, bodyLines: seq<Text>, path: seq<Text>)
    returns (flushed: seq<Section>)
    requires bodyStartLine >= 1
    ensures flushed == if Blank(Join(bodyLines, NEWLINE)) then sections
      else sections + [Section(bodyStartLine, bodyStartLine - 1 + |bodyLines|, path, TitleOf(path),
                               Join(bodyLines, NEWLINE))]
  {
    var raw := Join(bodyLines, NEWLINE);
    if Blank(raw) { return sections; }
    return sections + [Section(bodyStartLine, bodyStartLine - 1 + |bodyLines|, path, TitleOf(path), raw)];
  }

  /** What the loop knows of the sections flushed before the current body, which starts after line start - 1. */
  ghost predicate Flushed(lines: seq<Text>, sections: seq<Section>, start: nat, i: nat) {
    && 1 <= start <= i + 1 <= |lines| + 1 && Body(lines, start - 1, i, i)
    && (if start == 1 then sections == [] else IsHeading(lines, start - 2) && Sectioning(lines, sections, start - 2))
  }

  lemma FlushExtends(lines: seq<Text>, sections: seq<Section>, start: nat, i: nat)
    requires Flushed(lines, sections, start, i)
    ensures Sectioning(lines, Extended(lines, sections, start - 1, i), i)
  {
    hide IsHeading, Sectioning, Extended, Body;
    if start == 1 { FirstSection(lines, i); } else { NextSection(lines, sections, start - 2, i); }
  }

  lemma BodyGoesOn(lines: seq<Text>, sections: seq<Section>, start: nat, i: nat)
    requires i < |lines| && Flushed(lines, sections, start, i) && !IsHeading(lines, i)
    ensures Flushed(lines, sections, start, i + 1)
  {
    hide IsHeading, Sectioning;
  }

  lemma PathInBody(lines: seq<Text>, a: nat, i: nat)
    requires a <= i <= |lines| && forall k :: a <= k < i ==> !IsHeading(lines, k)
    ensures PathAt(lines, a) == PathAt(lines, i)
  {
    hide IsHeading;
    if a < i { PathInBody(lines, a, i - 1); }
  }

  lemma OneMoreLine(lines: seq<Text>, n: nat)
    requires n < |lines|
    ensures AnyHeading(lines, n + 1) == (AnyHeading(lines, n) || IsHeading(lines, n))
  {
    hide IsHeading;
  }

  method ParseSections(content: Text) returns (sections: seq<Section>)
    ensures var lines := SplitLines(content);
      if AnyHeading(lines, |lines|) then Sectioning(lines, sections, |lines|) else sections == []
  {
    hide IsHeading, Sectioning, Blank, Join, PathAt, FenceAt, Closes;
    hide Opened, HeadingOf, Flushed, SplitLines, AnyHeading, Whitespace;
    var lines := SplitLines(content);
    sections := [];
    var bodyStartLine: nat, bodyLines: seq<Text>, headingPath: seq<Text>, sawHeading := 1, [], [], false;
    var fence: Option<Fence> := None;
    Start(lines);
    for i := 0 to |lines|
      invariant Flushed(lines, sections, bodyStartLine, i)
      invariant 1 <= bodyStartLine <= i + 1 && bodyLines == lines[bodyStartLine - 1..i]
      invariant fence == FenceAt(lines, i) && sawHeading == AnyHeading(lines, i)
      invariant headingPath == PathAt(lines, i) == PathAt(lines, bodyStartLine - 1)
    {
      var line := lines[i];
      OneMoreLine(lines, i);
      Step(lines, i);
      if fence.Some? {
        BodyGoesOn(lines, sections, bodyStartLine, i);
        bodyLines := bodyLines + [line];
        if Closes(line, fence.value) { fence := None; }
      } else if Opened(line).Some? {
        BodyGoesOn(lines, sections, bodyStartLine, i);
        fence := Opened(line);
        bodyLines := bodyLines + [line];
      } else if HeadingOf(line).Some? {
        FlushExtends(lines, sections, bodyStartLine, i);
        sections := FlushSection(sections, bodyStartLine, bodyLines, headingPath);
        bodyLines := [];
        NewBody(lines, sections, i);
        bodyStartLine := i + 2;
        headingPath := Deepen(headingPath, HeadingOf(line).value);
        sawHeading := true;
      } else {
        BodyGoesOn(lines, sections, bodyStartLine, i);
        bodyLines := bodyLines + [line];
      }
    }
    FlushExtends(lines, sections, bodyStartLine, |lines|);
    sections := FlushSection(sections, bodyStartLine, bodyLines, headingPath);
    if !sawHeading { sections := []; }
  }

  lemma Start(lines: seq<Text>)
    ensures Flushed(lines, [], 1, 0) && FenceAt(lines, 0).None? && PathAt(lines, 0) == [] && !AnyHeading(lines, 0)
  {
  }

  lemma Step(lines: seq<Text>, i: nat)
    requires i < |lines|
    ensures IsHeading(lines, i) == (FenceAt(lines, i).None? && Opened(lines[i]).None? && HeadingOf(lines[i]).Some?)
    ensures FenceAt(lines, i).Some? ==>
      FenceAt(lines, i + 1) == if Closes(lines[i], FenceAt(lines, i).value) then None else FenceAt(lines, i)
    ensures FenceAt(lines, i).None? ==> FenceAt(lines, i + 1) == Opened(lines[i])
    ensures PathAt(lines, i + 1) == if IsHeading(lines, i) then Deepen(PathAt(lines, i), HeadingOf(lines[i]).value)
                                    else PathAt(lines, i)
  {
  }

  lemma NewBody(lines: seq<Text>, sections: seq<Section>, i: nat)
    requires i < |lines| && IsHeading(lines, i) && Sectioning(lines, sections, i)
    ensures Flushed(lines, sections, i + 2, i + 1)
  {
    hide IsHeading, Sectioning;
  }
}
