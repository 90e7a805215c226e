/**
 * What the sections of a Markdown document mean: every line is kept once, and fences and headings are where
 * the grammar puts them.
 */
module MarkdownMeaning {
  import opened Results
  import opened Unicode
  import opened MarkdownSections

  /* ---- lines ---- */

  /** A text with every CR LF replaced by LF. */
  function UnixBreaks(t: Text): Text {
    if t == [] then []
    else if t[0] == RETURN && |t| > 1 && t[1] == NEWLINE then UnixBreaks(t[1..])
    else [t[0]] + UnixBreaks(t[1..])
  }

  lemma {:induction false} JoinFront(line: Text, rest: seq<Text>)
    requires rest != []
    ensures Join([line] + rest, NEWLINE) == line + [NEWLINE] + Join(rest, NEWLINE)
    decreases |rest|
  {
    var all := [line] + rest;
    if |rest| == 1 {
      assert all[..1] == [line];
    } else {
      assert all[..|rest|] == [line] + rest[..|rest| - 1];
      JoinFront(line, rest[..|rest| - 1]);
    }
  }

  /** Text up to the first break is its own normal form; at the break an optional CR goes. */
  lemma {:induction false} UnixFirstLine(t: Text, i: nat)
    requires i < |t| && t[i] == NEWLINE && forall k :: 0 <= k < i ==> t[k] != NEWLINE
    ensures var end := if i > 0 && t[i - 1] == RETURN then i - 1 else i;
      UnixBreaks(t) == t[..end] + [NEWLINE] + UnixBreaks(t[i + 1..])
  {
    if i == 0 {
    } else {
      UnixFirstLine(t[1..], i - 1);
      assert t[1..][i..] == t[i + 1..];
      var end := if t[i - 1] == RETURN then i - 1 else i;
      if end > 0 {
        assert t[..end] == [t[0]] + t[1..][..end - 1];
      }
    }
  }

  lemma {:induction false} UnixLastLine(t: Text)
    requires NEWLINE !in t
    ensures UnixBreaks(t) == t
  {
    if t != [] { UnixLastLine(t[1..]); }
  }

  /** Splitting loses nothing but the form of the line breaks. */
  lemma {:induction false} LinesJoinBack(t: Text)
    ensures Join(SplitLines(t), NEWLINE) == UnixBreaks(t)
    ensures forall i :: 0 <= i < |SplitLines(t)| ==> NEWLINE !in SplitLines(t)[i]
    decreases |t|
  {
    var i := FirstBreak(t);
    if i == |t| {
      UnixLastLine(t);
    } else {
      UnixFirstLine(t, i);
      LinesJoinBack(t[i + 1..]);
      var end := if i > 0 && t[i - 1] == RETURN then i - 1 else i;
      JoinFront(t[..end], SplitLines(t[i + 1..]));
    }
  }

  /* ---- fences ---- */

  function Repeat(c: CodePoint, n: nat): (t: Text)
    ensures |t| == n && forall i :: 0 <= i < n ==> t[i] == c
  {
    seq(n, _ => c)
  }

  lemma RunIsUnique(line: Text, i: nat, c: CodePoint, n: nat)
    requires i + n <= |line| && (forall k :: i <= k < i + n ==> line[k] == c) && (i + n < |line| ==> line[i + n] != c)
    ensures RunOf(line, i, c) == n
  {
  }

  predicate FenceMarker(c: CodePoint) {
    c == BACKTICK || c == TILDE
  }

  /** The line reads: up to three spaces, length markers, rest. */
  predicate Fenced(line: Text, indent: nat, marker: CodePoint, length: nat, rest: Text) {
    && line == Repeat(SPACE, indent) + Repeat(marker, length) + rest
    && indent <= MAX_INDENT && FenceMarker(marker) && length >= MIN_FENCE && !(rest != [] && rest[0] == marker)
  }

  lemma DelimiterRead(line: Text, indent: nat, marker: CodePoint, length: nat, rest: Text)
    requires Fenced(line, indent, marker, length, rest)
    ensures DelimiterOf(line) == Some(Delimiter(Fence(marker, length), indent + length))
    ensures rest == line[indent + length..]
  {
    RunIsUnique(line, 0, SPACE, indent);
    RunIsUnique(line, indent, marker, length);
  }

  lemma DelimiterShape(line: Text)
    requires DelimiterOf(line).Some?
    ensures var d := DelimiterOf(line).value;
      d.end >= d.fence.length && Fenced(line, d.end - d.fence.length, d.fence.marker, d.fence.length, line[d.end..])
  {
    var d := DelimiterOf(line).value;
    var indent := d.end - d.fence.length;
    assert line == line[..indent] + line[indent..d.end] + line[d.end..];
    assert line[..indent] == Repeat(SPACE, indent) && line[indent..d.end] == Repeat(d.fence.marker, d.fence.length);
  }

  /** An opening code fence: the info string of a backtick fence contains no backtick. */
  lemma OpensAsCommonMark(line: Text, fence: Fence)
    ensures Opened(line) == Some(fence) <==>
      exists indent: nat, info: Text ::
        Fenced(line, indent, fence.marker, fence.length, info) && (fence.marker == BACKTICK ==> BACKTICK !in info)
  {
    if Opened(line) == Some(fence) {
      DelimiterShape(line);
    }
    if indent: nat, info: Text :|
      Fenced(line, indent, fence.marker, fence.length, info) && (fence.marker == BACKTICK ==> BACKTICK !in info)
    {
      DelimiterRead(line, indent, fence.marker, fence.length, info);
    }
  }

  /** A closing code fence: the same character, at least as many of them, then only spaces and tabs. */
  lemma ClosesAsCommonMark(line: Text, open: Fence)
    requires FenceMarker(open.marker) && open.length >= MIN_FENCE
    ensures Closes(line, open) <==>
      exists indent: nat, length: nat, tail: Text ::
        line == Repeat(SPACE, indent) + Repeat(open.marker, length) + tail
        && indent <= MAX_INDENT && length >= open.length
        && forall i :: 0 <= i < |tail| ==> tail[i] == 0x20 || tail[i] == 0x09
  {
    if Closes(line, open) {
      DelimiterShape(line);
      var d := DelimiterOf(line).value;
      assert line == Repeat(SPACE, d.end - d.fence.length) + Repeat(open.marker, d.fence.length) + line[d.end..];
    }
    if indent: nat, length: nat, tail: Text :|
      line == Repeat(SPACE, indent) + Repeat(open.marker, length) + tail
      && indent <= MAX_INDENT && length >= open.length
      && forall i :: 0 <= i < |tail| ==> tail[i] == 0x20 || tail[i] == 0x09
    {
      ClosingRead(line, indent, open, length, tail);
    }
  }

  lemma ClosingRead(line: Text, indent: nat, open: Fence, length: nat, tail: Text)
    requires FenceMarker(open.marker) && MIN_FENCE <= open.length <= length && indent <= MAX_INDENT
    requires line == Repeat(SPACE, indent) + Repeat(open.marker, length) + tail
    requires forall i :: 0 <= i < |tail| ==> tail[i] == 0x20 || tail[i] == 0x09
    ensures Closes(line, open)
  {
    hide Repeat, RunOf, DelimiterOf;
    assert OnlySpacesAndTabs(tail);
    DelimiterRead(line, indent, open.marker, length, tail);
  }

  /** The code block that starts with the fence in line o still runs at line i. */
  predicate Encloses(lines: seq<Text>, o: nat, fence: Fence, i: nat)
    requires o < i <= |lines|
  {
    && FenceAt(lines, o).None? && Opened(lines[o]) == Some(fence)
    && forall k :: o < k < i ==> !Closes(lines[k], fence)
  }

  lemma EnclosesOnward(lines: seq<Text>, o: nat, fence: Fence, i: nat)
    requires o < i < |lines| && Encloses(lines, o, fence, i) && !Closes(lines[i], fence)
    ensures Encloses(lines, o, fence, i + 1)
  {
    hide Closes, Opened, FenceAt;
  }

  /** A fence is open before a line exactly when an earlier opening fence has met no closing fence since. */
  lemma {:induction false} FenceIsOpenBlock(lines: seq<Text>, i: nat, fence: Fence)
    requires i <= |lines|
    ensures FenceAt(lines, i) == Some(fence) <==> exists o: nat :: o < i && Encloses(lines, o, fence, i)
  {
    hide Closes, Opened;
    if FenceAt(lines, i) == Some(fence) {
      BlockStart(lines, i, fence);
    }
    if o: nat :| o < i && Encloses(lines, o, fence, i) {
      BlockRuns(lines, o, fence, i);
    }
  }

  lemma {:induction false} BlockStart(lines: seq<Text>, i: nat, fence: Fence)
    requires i <= |lines| && FenceAt(lines, i) == Some(fence)
    ensures exists o: nat :: o < i && Encloses(lines, o, fence, i)
  {
    hide Closes, Opened;
    var p := i - 1;
    if FenceAt(lines, p).Some? {
      BlockStart(lines, p, fence);
      var o: nat :| o < p && Encloses(lines, o, fence, p);
      EnclosesOnward(lines, o, fence, p);
    } else {
      assert Encloses(lines, p, fence, i);
    }
  }

  lemma {:induction false} BlockRuns(lines: seq<Text>, o: nat, fence: Fence, i: nat)
    requires o < i <= |lines| && Encloses(lines, o, fence, i)
    ensures FenceAt(lines, i) == Some(fence)
  {
    hide Closes, Opened;
    if o < i - 1 {
      BlockRuns(lines, o, fence, i - 1);
    }
  }

  /** No line of a code block, its fences included, is a heading. */
  lemma FencedLinesAreNotHeadings(lines: seq<Text>, o: nat, fence: Fence, i: nat)
    requires o < i < |lines| && Encloses(lines, o, fence, i)
    ensures !IsHeading(lines, i) && !IsHeading(lines, o)
  {
    hide Closes, Opened, HeadingOf;
    BlockRuns(lines, o, fence, i);
  }

  /* ---- headings ---- */

  /** The heading pattern: up to three spaces, level hashes, whitespace, text within a line, whitespace. */
  predicate HeadingShape(line: Text, indent: nat, level: nat, gap: Text, title: Text, tail: Text) {
    && line == Repeat(SPACE, indent) + Repeat(HASH, level) + gap + title + tail
    && indent <= MAX_INDENT && 1 <= level <= MAX_LEVEL
    && gap != [] && Blank(gap) && title != [] && Blank(tail)
    && forall i :: 0 <= i < |title| ==>
         title[i] != 0x0A && title[i] != 0x0D && title[i] != 0x2028 && title[i] != 0x2029
  }

  lemma InkBoundaries()
    ensures !Whitespace(HASH) && Whitespace(SPACE) && HASH != SPACE
  {
  }

  lemma ShapeRuns(line: Text, indent: nat, level: nat, gap: Text, title: Text, tail: Text)
    requires HeadingShape(line, indent, level, gap, title, tail)
    ensures RunOf(line, 0, SPACE) == indent && RunOf(line, indent, HASH) == level
    ensures line[indent + level..] == gap + title + tail
  {
    hide Whitespace, OneLine;
    InkBoundaries();
    assert line[indent] == HASH;
    assert line[indent + level] == gap[0];
    RunIsUnique(line, 0, SPACE, indent);
    RunIsUnique(line, indent, HASH, level);
  }

  /** What the heading test sees of a line: its indent, its level and the rest. */
  lemma HeadingRead(line: Text, indent: nat, level: nat, rest: Text)
    requires RunOf(line, 0, SPACE) == indent && RunOf(line, indent, HASH) == level && rest == line[indent + level..]
    requires indent <= MAX_INDENT && 1 <= level <= MAX_LEVEL && rest != [] && Whitespace(rest[0])
    ensures Trim(rest) != [] && OneLine(Trim(rest)) ==> HeadingOf(line) == Some(Heading(level, Trim(rest)))
    ensures Trim(rest) == [] && (exists i :: 1 <= i < |rest| && !LineTerminator(rest[i])) ==>
              HeadingOf(line) == Some(Heading(level, []))
  {
    hide Whitespace, LineTerminator, OneLine;
  }

  lemma TrimStaysOneLine(title: Text)
    requires OneLine(title)
    ensures OneLine(Trim(title))
  {
    hide Whitespace, LineTerminator, Trim;
    var before, after := TrimSplits(title);
    forall i | 0 <= i < |Trim(title)| ensures !LineTerminator(Trim(title)[i]) {
      assert title[|before| + i] == Trim(title)[i];
    }
  }

  lemma ShapeIsHeading(line: Text, indent: nat, level: nat, gap: Text, title: Text, tail: Text)
    requires HeadingShape(line, indent, level, gap, title, tail)
    ensures HeadingOf(line) == Some(Heading(level, Trim(title)))
  {
    hide Whitespace, Trim, RunOf, HeadingOf, Repeat;
    ShapeRuns(line, indent, level, gap, title, tail);
    var rest := line[indent + level..];
    TrimPadding(gap, title, tail);
    TrimStaysOneLine(title);
    assert rest[0] == gap[0];
    assert rest[|gap|] == title[0] && !LineTerminator(title[0]);
    HeadingRead(line, indent, level, rest);
  }

  lemma EmptyTitleShape(line: Text, indent: nat, level: nat, rest: Text, i: nat)
    requires line == Repeat(SPACE, indent) + Repeat(HASH, level) + rest && indent <= MAX_INDENT
    requires 1 <= level <= MAX_LEVEL
    requires Blank(rest) && 1 <= i < |rest| && !LineTerminator(rest[i])
    ensures HeadingShape(line, indent, level, rest[..i], [rest[i]], rest[i + 1..])
  {
    hide Whitespace;
    var gap, title, tail := rest[..i], [rest[i]], rest[i + 1..];
    assert rest == gap + title + tail;
    assert line == Repeat(SPACE, indent) + Repeat(HASH, level) + gap + title + tail;
  }

  lemma InkTitleShape(line: Text, indent: nat, level: nat, rest: Text, before: Text, title: Text, after: Text)
    requires line == Repeat(SPACE, indent) + Repeat(HASH, level) + rest && indent <= MAX_INDENT
    requires 1 <= level <= MAX_LEVEL
    requires rest == before + title + after && before != [] && title != [] && Blank(before) && Blank(after)
    requires OneLine(title)
    ensures HeadingShape(line, indent, level, before, title, after)
  {
    hide Whitespace;
  }

  lemma RunsSplit(line: Text)
    ensures var indent := RunOf(line, 0, SPACE); var level := RunOf(line, indent, HASH);
      line == Repeat(SPACE, indent) + Repeat(HASH, level) + line[indent + level..]
  {
    hide RunOf;
    var indent := RunOf(line, 0, SPACE);
    var level := RunOf(line, indent, HASH);
    assert line[..indent] == Repeat(SPACE, indent) && line[indent..indent + level] == Repeat(HASH, level);
    assert line == line[..indent] + line[indent..indent + level] + line[indent + level..];
  }

  lemma HeadingParts(line: Text) returns (indent: nat, level: nat, rest: Text)
    requires HeadingOf(line).Some?
    ensures line == Repeat(SPACE, indent) + Repeat(HASH, level) + rest
    ensures indent <= MAX_INDENT && 1 <= level == HeadingOf(line).value.level <= MAX_LEVEL && rest != []
    ensures Whitespace(rest[0])
    ensures Trim(rest) != [] ==> OneLine(Trim(rest))
    ensures Trim(rest) == [] ==> exists i :: 1 <= i < |rest| && !LineTerminator(rest[i])
  {
    hide Whitespace, LineTerminator, OneLine, Repeat;
    indent := RunOf(line, 0, SPACE);
    level := RunOf(line, indent, HASH);
    rest := line[indent + level..];
    RunsSplit(line);
  }

  lemma HeadingHasShape(line: Text)
    requires HeadingOf(line).Some?
    ensures exists indent: nat, gap: Text, title: Text, tail: Text ::
      HeadingShape(line, indent, HeadingOf(line).value.level, gap, title, tail)
  {
    hide Whitespace, LineTerminator, HeadingShape, Trim, HeadingOf, OneLine, Repeat;
    var indent, level, rest := HeadingParts(line);
    var before, after := TrimSplits(rest);
    if Trim(rest) == [] {
      var i :| 1 <= i < |rest| && !LineTerminator(rest[i]);
      EmptyTitleShape(line, indent, level, rest, i);
    } else {
      InkTitleShape(line, indent, level, rest, before, Trim(rest), after);
    }
  }

  /**
   * A line is a heading exactly when it has the heading pattern, and its title is the text without the blanks
   * around it.
   */
  lemma HeadingsFollowPattern(line: Text, level: nat, title: Text)
    ensures HeadingOf(line) == Some(Heading(level, title)) <==>
      exists indent: nat, gap: Text, text: Text, tail: Text ::
        HeadingShape(line, indent, level, gap, text, tail) && Trim(text) == title
  {
    hide HeadingOf, HeadingShape, Trim;
    if HeadingOf(line) == Some(Heading(level, title)) {
      HeadingHasShape(line);
      var indent: nat, gap: Text, text: Text, tail: Text :| HeadingShape(line, indent, level, gap, text, tail);
      ShapeIsHeading(line, indent, level, gap, text, tail);
    }
    if indent: nat, gap: Text, text: Text, tail: Text :|
      HeadingShape(line, indent, level, gap, text, tail) && Trim(text) == title
    {
      ShapeIsHeading(line, indent, level, gap, text, tail);
    }
  }

  /* ---- sections ---- */

  lemma Ordered(lines: seq<Text>, s: Section, n: nat)
    requires n <= |lines| && SectionValid(lines, s, n)
    ensures s.lineStart <= s.lineEnd
  {
  }

  lemma SameLinesSameSection(lines: seq<Text>, x: Section, y: Section, n: nat)
    requires n <= |lines| && SectionValid(lines, x, n) && SectionValid(lines, y, n)
    requires x.lineStart == y.lineStart && x.lineEnd == y.lineEnd
    ensures x == y
  {
    hide Body, Blank, Join, PathAt;
  }

  lemma FindSame(lines: seq<Text>, s: seq<Section>, t: seq<Section>, n: nat, i: nat) returns (j: nat)
    requires n <= |lines| && Sectioning(lines, s, n) && Sectioning(lines, t, n) && i < |s|
    ensures j < |t| && t[j] == s[i]
  {
    hide IsHeading, Body, Blank, Join, PathAt;
    var a, b := s[i].lineStart - 1, s[i].lineEnd;
    assert SectionValid(lines, s[i], n);
    assert a <= b <= n && Body(lines, a, b, n) && !Blank(Join(lines[a..b], NEWLINE));
    j :| 0 <= j < |t| && t[j].lineStart == a + 1 && t[j].lineEnd == b;
    SameLinesSameSection(lines, s[i], t[j], n);
  }

  lemma NextAgrees(lines: seq<Text>, s: seq<Section>, t: seq<Section>, n: nat, k: nat)
    requires n <= |lines| && Sectioning(lines, s, n) && Sectioning(lines, t, n) && k < |s| && k <= |t|
    requires s[..k] == t[..k]
    ensures k < |t| && s[k] == t[k]
  {
    hide Body, Blank, Join, PathAt, SectionValid, Covered;
    var j := FindSame(lines, s, t, n, k);
    Ordered(lines, s[k], n);
    assert forall m :: 0 <= m < k ==> s[m] == s[..k][m] == t[..k][m] == t[m];
    if j > k {
      var m := FindSame(lines, t, s, n, k);
      Ordered(lines, t[k], n);
    }
  }

  lemma {:induction false} SectionsAgree(lines: seq<Text>, s: seq<Section>, t: seq<Section>, n: nat, i: nat)
    requires n <= |lines| && Sectioning(lines, s, n) && Sectioning(lines, t, n) && i <= |s|
    ensures i <= |t| && s[..i] == t[..i]
  {
    hide Sectioning;
    if i > 0 {
      var k := i - 1;
      SectionsAgree(lines, s, t, n, k);
      NextAgrees(lines, s, t, n, k);
      assert s[..i] == s[..k] + [s[k]];
      assert t[..i] == t[..k] + [t[k]];
    }
  }

  /** The sections of a document are determined by its lines. */
  lemma SectioningIsUnique(lines: seq<Text>, s: seq<Section>, t: seq<Section>)
    requires Sectioning(lines, s, |lines|) && Sectioning(lines, t, |lines|)
    ensures s == t
  {
    hide Sectioning;
    SectionsAgree(lines, s, t, |lines|, |s|);
    SectionsAgree(lines, t, s, |lines|, |t|);
  }

  predicate Holds(s: Section, k: nat) {
    s.lineStart <= k + 1 <= s.lineEnd
  }

  /** The body around a line that is not a heading. */
  lemma {:induction false} BodyStart(lines: seq<Text>, k: nat) returns (a: nat)
    requires k < |lines| && !IsHeading(lines, k)
    ensures a <= k && (a == 0 || IsHeading(lines, a - 1)) && forall i :: a <= i <= k ==> !IsHeading(lines, i)
  {
    hide IsHeading;
    if k == 0 || IsHeading(lines, k - 1) { a := k; } else { a := BodyStart(lines, k - 1); }
  }

  lemma {:induction false} BodyEnd(lines: seq<Text>, k: nat) returns (b: nat)
    requires k < |lines| && !IsHeading(lines, k)
    ensures k < b <= |lines| && (b == |lines| || IsHeading(lines, b)) && forall i :: k <= i < b ==> !IsHeading(lines, i)
    decreases |lines| - k
  {
    hide IsHeading;
    if k + 1 == |lines| || IsHeading(lines, k + 1) { b := k + 1; } else { b := BodyEnd(lines, k + 1); }
  }

  lemma {:induction false} BlankJoin(lines: seq<Text>)
    ensures Blank(Join(lines, NEWLINE)) <==> forall k :: 0 <= k < |lines| ==> Blank(lines[k])
  {
    hide Whitespace;
    NewlineIsBlank();
    if lines != [] {
      var n := |lines| - 1;
      BlankJoin(lines[..n]);
      if n > 0 {
        BlankParts(Join(lines[..n], NEWLINE) + [NEWLINE], lines[n]);
        BlankParts(Join(lines[..n], NEWLINE), [NEWLINE]);
      } else {
        assert Join(lines, NEWLINE) == lines[0];
      }
      assert lines == lines[..n] + [lines[n]];
    }
  }

  lemma NewlineIsBlank()
    ensures Blank([NEWLINE])
  {
  }

  lemma HeadingsLieOutside(lines: seq<Text>, sections: seq<Section>, k: nat, i: nat)
    requires k < |lines| && Sectioning(lines, sections, |lines|) && IsHeading(lines, k) && i < |sections|
    ensures !Holds(sections[i], k)
  {
    hide IsHeading, Blank, Join, PathAt;
    assert SectionValid(lines, sections[i], |lines|);
  }

  lemma SectionsAreDisjoint(lines: seq<Text>, sections: seq<Section>, k: nat, i: nat, j: nat)
    requires Sectioning(lines, sections, |lines|) && i < |sections| && j < |sections| && Holds(sections[i], k)
    requires Holds(sections[j], k)
    ensures i == j
  {
    hide Body, Blank, Join, PathAt, SectionValid;
  }

  /** The index of the section that holds a line of a body that is not blank. */
  lemma FindSection(lines: seq<Text>, sections: seq<Section>, a: nat, b: nat, k: nat) returns (i: nat)
    requires Sectioning(lines, sections, |lines|) && a <= k < b <= |lines| && Body(lines, a, b, |lines|)
    requires !Blank(Join(lines[a..b], NEWLINE))
    ensures i < |sections| && Holds(sections[i], k) && sections[i].headingPath == PathAt(lines, k)
  {
    hide IsHeading, Blank, Join, PathAt;
    assert Covered(sections, a, b);
    i :| 0 <= i < |sections| && sections[i].lineStart == a + 1 && sections[i].lineEnd == b;
    assert SectionValid(lines, sections[i], |lines|);
    PathInBody(lines, a, k);
  }

  /** A body keeps its lines exactly when one of them has ink; then each of them, blank or not, is in one section. */
  lemma EachLineInOneSection(lines: seq<Text>, sections: seq<Section>, a: nat, b: nat, k: nat)
    requires Sectioning(lines, sections, |lines|) && a <= k < b <= |lines| && Body(lines, a, b, |lines|)
    ensures (exists i :: 0 <= i < |sections| && Holds(sections[i], k)) <==> exists m :: a <= m < b && !Blank(lines[m])
    ensures forall i, j ::
              0 <= i < |sections| && 0 <= j < |sections| && Holds(sections[i], k) && Holds(sections[j], k) ==> i == j
  {
    hide IsHeading, Blank, Join, PathAt, Sectioning, Body;
    BlankJoin(lines[a..b]);
    if m :| a <= m < b && !Blank(lines[m]) {
      assert lines[a..b][m - a] == lines[m];
      var i := FindSection(lines, sections, a, b, k);
    }
    if i :| 0 <= i < |sections| && Holds(sections[i], k) {
      HolderIsBody(lines, sections, a, b, k, i);
      var m :| 0 <= m < |lines[a..b]| && !Blank(lines[a..b][m]);
      assert !Blank(lines[a + m]);
    }
    forall i, j | 0 <= i < |sections| && 0 <= j < |sections| && Holds(sections[i], k) && Holds(sections[j], k)
      ensures i == j
    {
      SectionsAreDisjoint(lines, sections, k, i, j);
    }
  }

  lemma HolderIsBody(lines: seq<Text>, sections: seq<Section>, a: nat, b: nat, k: nat, i: nat)
    requires Sectioning(lines, sections, |lines|) && a <= k < b <= |lines| && Body(lines, a, b, |lines|)
    requires i < |sections| && Holds(sections[i], k)
    ensures !Blank(Join(lines[a..b], NEWLINE))
  {
    hide IsHeading, Blank, Join, PathAt;
    var s := sections[i];
    assert SectionValid(lines, s, |lines|);
    SameBody(lines, a, b, s.lineStart - 1, s.lineEnd, k);
  }

  lemma SameBody(lines: seq<Text>, a: nat, b: nat, c: nat, d: nat, k: nat)
    requires a <= k < b <= |lines| && Body(lines, a, b, |lines|) && c <= k < d && Body(lines, c, d, |lines|)
    ensures a == c && b == d
  {
    hide IsHeading;
  }

  /**
   * No ink is lost: a line with ink is a heading, or lies in exactly one section, under the titles in force
   * at that line.
   */
  lemma InkLinesAreKept(lines: seq<Text>, sections: seq<Section>, k: nat)
    requires Sectioning(lines, sections, |lines|) && k < |lines| && !Blank(lines[k])
    ensures IsHeading(lines, k) <==> !exists i :: 0 <= i < |sections| && Holds(sections[i], k)
    ensures !IsHeading(lines, k) ==>
      exists i :: 0 <= i < |sections| && Holds(sections[i], k) && sections[i].headingPath == PathAt(lines, k)
  {
    hide IsHeading, Blank, Join, PathAt, Sectioning;
    if IsHeading(lines, k) {
      forall i | 0 <= i < |sections| ensures !Holds(sections[i], k) { HeadingsLieOutside(lines, sections, k, i); }
    } else {
      var a := BodyStart(lines, k);
      var b := BodyEnd(lines, k);
      BlankJoin(lines[a..b]);
      assert lines[a..b][k - a] == lines[k];
      var i := FindSection(lines, sections, a, b, k);
    }
  }
}
