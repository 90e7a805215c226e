/**
 * When a heading path names the headings that enclose a line. The path is cut by position, not by level, so a document
 * that skips a level can leave a heading in the path of a heading of the same or a higher rank.
 */
module MarkdownPaths {
  import opened Results
  import opened Unicode
  import opened MarkdownSections
  import MarkdownMeaning

  function HeadingAt(lines: seq<Text>, p: nat): (h: Heading)
    requires p < |lines| && IsHeading(lines, p)
    ensures 1 <= h.level <= MAX_LEVEL
  {
    HeadingOf(lines[p]).value
  }

  /** The heading in line p encloses line i: no heading between them has its level or a higher rank. */
  predicate Enclosing(lines: seq<Text>, p: nat, i: nat)
    requires p < i <= |lines|
  {
    IsHeading(lines, p) && forall q :: p < q < i && IsHeading(lines, q) ==>
      HeadingAt(lines, q).level > HeadingAt(lines, p).level
  }

  /** The headings among the first n lines that enclose line i, outermost first. */
  function Chain(lines: seq<Text>, n: nat, i: nat): seq<Heading>
    requires n <= i <= |lines|
  {
    if n == 0 then []
    else Chain(lines, n - 1, i) + if Enclosing(lines, n - 1, i) then [HeadingAt(lines, n - 1)] else []
  }

  function Titles(chain: seq<Heading>): (titles: seq<Text>)
    ensures |titles| == |chain| && forall i :: 0 <= i < |chain| ==> titles[i] == chain[i].title
  {
    seq(|chain|, i requires 0 <= i < |chain| => chain[i].title)
  }

  /** The headings of a higher rank than a level. */
  function Above(chain: seq<Heading>, level: nat): seq<Heading> {
    if chain == [] then []
    else Above(chain[..|chain| - 1], level) + if chain[|chain| - 1].level < level then [chain[|chain| - 1]] else []
  }

  lemma {:induction false} ChainGoesOn(lines: seq<Text>, n: nat, i: nat)
    requires n <= i < |lines| && !IsHeading(lines, i)
    ensures Chain(lines, n, i + 1) == Chain(lines, n, i)
  {
    hide IsHeading;
    if n > 0 { ChainGoesOn(lines, n - 1, i); }
  }

  lemma {:induction false} ChainAtHeading(lines: seq<Text>, n: nat, i: nat)
    requires n <= i < |lines| && IsHeading(lines, i)
    ensures Chain(lines, n, i + 1) == Above(Chain(lines, n, i), HeadingAt(lines, i).level)
  {
    hide IsHeading, HeadingAt, Above;
    if n == 0 {
      AboveNothing(HeadingAt(lines, i).level);
    } else {
      var p := n - 1;
      ChainAtHeading(lines, p, i);
      EnclosingNext(lines, p, i);
      if Enclosing(lines, p, i) {
        AboveStep(Chain(lines, p, i), HeadingAt(lines, p), HeadingAt(lines, i).level);
      } else {
        assert Chain(lines, n, i) == Chain(lines, p, i);
      }
    }
  }

  lemma EnclosingNext(lines: seq<Text>, p: nat, i: nat)
    requires p < i < |lines| && IsHeading(lines, i)
    ensures Enclosing(lines, p, i + 1) <==>
              Enclosing(lines, p, i) && HeadingAt(lines, i).level > HeadingAt(lines, p).level
  {
    hide IsHeading, HeadingAt;
  }

  lemma {:induction false} FromLine(lines: seq<Text>, n: nat, i: nat, j: nat) returns (p: nat)
    requires n <= i <= |lines| && j < |Chain(lines, n, i)|
    ensures p < n && Enclosing(lines, p, i) && Chain(lines, n, i)[j] == HeadingAt(lines, p)
  {
    hide IsHeading, HeadingAt;
    if j < |Chain(lines, n - 1, i)| { p := FromLine(lines, n - 1, i, j); } else { p := n - 1; }
  }

  /** Ranks fall along a chain, so entry j has level j + 1 at least. */
  predicate Ranked(f: seq<Heading>) {
    && (forall j, k :: 0 <= j < k < |f| ==> f[j].level < f[k].level)
    && (forall j :: 0 <= j < |f| ==> f[j].level >= j + 1)
  }

  lemma RankedAppend(f: seq<Heading>, h: Heading)
    requires Ranked(f) && h.level >= 1 && forall j :: 0 <= j < |f| ==> f[j].level < h.level
    ensures Ranked(f + [h])
  {
    if |f| > 0 { assert f[|f| - 1].level >= |f|; }
  }

  lemma EmptyIsRanked()
    ensures Ranked([])
  {
  }

  lemma {:induction false} ChainRanks(lines: seq<Text>, n: nat, i: nat)
    requires n <= i <= |lines|
    ensures Ranked(Chain(lines, n, i))
  {
    hide IsHeading, HeadingAt, Ranked;
    if n == 0 {
      EmptyIsRanked();
    } else {
      var p := n - 1;
      ChainRanks(lines, p, i);
      var f := Chain(lines, p, i);
      if Enclosing(lines, p, i) {
        forall j | 0 <= j < |f| ensures f[j].level < HeadingAt(lines, p).level {
          LaterIsDeeper(lines, p, i, j);
        }
        RankedAppend(f, HeadingAt(lines, p));
      } else {
        assert Chain(lines, n, i) == f;
      }
    }
  }

  lemma LaterIsDeeper(lines: seq<Text>, q: nat, i: nat, j: nat)
    requires q < i <= |lines| && j < |Chain(lines, q, i)| && Enclosing(lines, q, i)
    ensures Chain(lines, q, i)[j].level < HeadingAt(lines, q).level
  {
    hide IsHeading, HeadingAt, Chain;
    var p := FromLine(lines, q, i, j);
  }

  lemma AboveStep(f: seq<Heading>, h: Heading, level: nat)
    ensures Above(f + [h], level) == Above(f, level) + if h.level < level then [h] else []
  {
    assert (f + [h])[..|f|] == f;
  }

  lemma AboveNothing(level: nat)
    ensures Above([], level) == []
  {
  }

  /** In a chain of falling rank the headings above a level are the first k. */
  lemma {:induction false} AboveIsPrefix(f: seq<Heading>, level: nat) returns (k: nat)
    requires forall i, j :: 0 <= i < j < |f| ==> f[i].level < f[j].level
    ensures k <= |f| && Above(f, level) == f[..k] && forall j :: 0 <= j < |f| ==> (f[j].level < level <==> j < k)
  {
    hide Above;
    k := 0;
    AboveNothing(level);
    if f != [] {
      var m := |f| - 1;
      var shorter := f[..m];
      k := AboveIsPrefix(shorter, level);
      AboveStep(shorter, f[m], level);
      assert shorter + [f[m]] == f;
      assert k < m ==> f[k].level < f[m].level;
      if f[m].level < level { k := |f|; }
    }
  }

  function Kept(chain: seq<Heading>, level: nat): nat
    requires level >= 1
  {
    if level - 1 < |chain| then level - 1 else |chain|
  }

  /** The last heading that the cut keeps has a higher rank than the heading in line i. */
  predicate Regular(lines: seq<Text>, i: nat)
    requires i < |lines|
  {
    IsHeading(lines, i) ==>
      var f, level := Chain(lines, i, i), HeadingAt(lines, i).level;
      Kept(f, level) == 0 || f[Kept(f, level) - 1].level < level
  }

  lemma ChainAfterHeading(lines: seq<Text>, i: nat)
    requires i < |lines| && IsHeading(lines, i)
    ensures Chain(lines, i + 1, i + 1) == Above(Chain(lines, i, i), HeadingAt(lines, i).level) + [HeadingAt(lines, i)]
  {
    hide IsHeading, HeadingAt;
    ChainAtHeading(lines, i, i);
  }

  /** The path at line i names the headings that enclose it, outermost first. */
  predicate PathIsChain(lines: seq<Text>, i: nat)
    requires i <= |lines|
  {
    PathAt(lines, i) == Titles(Chain(lines, i, i))
  }

  lemma StepKeepsChain(lines: seq<Text>, i: nat)
    requires i < |lines| && PathIsChain(lines, i)
    ensures PathIsChain(lines, i + 1) <==> Regular(lines, i)
  {
    hide IsHeading, Chain, HeadingOf;
    Step(lines, i);
    var f := Chain(lines, i, i);
    if IsHeading(lines, i) {
      var h := HeadingAt(lines, i);
      ChainAfterHeading(lines, i);
      ChainRanks(lines, i, i);
      var k := AboveIsPrefix(f, h.level);
      KeptOrNot(f, h, k);
    } else {
      assert Chain(lines, i + 1, i + 1) == f by { ChainStays(lines, i); }
    }
  }

  lemma ChainStays(lines: seq<Text>, i: nat)
    requires i < |lines| && !IsHeading(lines, i)
    ensures Chain(lines, i + 1, i + 1) == Chain(lines, i, i)
  {
    hide IsHeading;
    ChainGoesOn(lines, i, i);
  }

  lemma KeptOrNot(f: seq<Heading>, h: Heading, k: nat)
    requires h.level >= 1 && k <= |f|
    requires forall j :: 0 <= j < |f| ==> f[j].level >= j + 1 && (f[j].level < h.level <==> j < k)
    ensures k <= Kept(f, h.level)
    ensures Deepen(Titles(f), h) == Titles(f[..k] + [h]) <==>
              (Kept(f, h.level) == 0 || f[Kept(f, h.level) - 1].level < h.level)
  {
    var m := Kept(f, h.level);
    assert m < |f| ==> f[m].level >= h.level;
    assert Deepen(Titles(f), h) == Titles(f[..m]) + [h.title];
    assert |Titles(f[..k] + [h])| == k + 1;
    if k == m { assert Titles(f[..k] + [h]) == Titles(f[..m]) + [h.title]; }
  }

  lemma EmptyPathIsChain(lines: seq<Text>)
    ensures PathIsChain(lines, 0)
  {
  }

  /** Up to line n the paths name exactly the enclosing headings if and only if every heading is regular. */
  lemma {:induction false} PathsNameEnclosingHeadings(lines: seq<Text>, n: nat)
    requires n <= |lines|
    ensures (forall j :: 0 <= j <= n ==> PathIsChain(lines, j)) <==> forall i :: 0 <= i < n ==> Regular(lines, i)
  {
    hide Regular, PathIsChain;
    EmptyPathIsChain(lines);
    if n > 0 {
      var p := n - 1;
      PathsNameEnclosingHeadings(lines, p);
      if PathIsChain(lines, p) { StepKeepsChain(lines, p); }
    }
  }

  /** No heading among the first n lines is more than one level deeper than the chain it stands in. */
  predicate Gapless(lines: seq<Text>, n: nat)
    requires n <= |lines|
  {
    forall i :: 0 <= i < n && IsHeading(lines, i) ==> HeadingAt(lines, i).level <= |Chain(lines, i, i)| + 1
  }

  /** Levels one, two, three, and so on. */
  predicate Consecutive(f: seq<Heading>) {
    forall j :: 0 <= j < |f| ==> f[j].level == j + 1
  }

  lemma {:induction false} GaplessLevels(lines: seq<Text>, n: nat)
    requires n <= |lines| && Gapless(lines, n)
    ensures Consecutive(Chain(lines, n, n))
  {
    hide IsHeading, HeadingAt;
    if n > 0 {
      hide Chain;
      var i := n - 1;
      GaplessLevels(lines, i);
      if IsHeading(lines, i) {
        ChainAfterHeading(lines, i);
        var k := AboveIsPrefix(Chain(lines, i, i), HeadingAt(lines, i).level);
        AboveOfLevels(Chain(lines, i, i), HeadingAt(lines, i).level, k);
      } else {
        ChainStays(lines, i);
      }
    }
  }

  lemma AboveOfLevels(f: seq<Heading>, level: nat, k: nat)
    requires k <= |f| && 1 <= level <= |f| + 1
    requires forall j :: 0 <= j < |f| ==> f[j].level == j + 1 && (f[j].level < level <==> j < k)
    ensures k == level - 1
  {
    if k < |f| { assert f[k].level == k + 1; }
    if k > 0 { assert f[k - 1].level == k; }
  }

  lemma LevelsAreRegular(f: seq<Heading>, level: nat)
    requires 1 <= level <= |f| + 1 && Consecutive(f)
    ensures Kept(f, level) == 0 || f[Kept(f, level) - 1].level < level
  {
  }

  lemma GaplessIsRegular(lines: seq<Text>, i: nat)
    requires i < |lines| && Gapless(lines, i + 1)
    ensures Regular(lines, i)
  {
    hide IsHeading, HeadingAt;
    GaplessLevels(lines, i);
    if IsHeading(lines, i) { LevelsAreRegular(Chain(lines, i, i), HeadingAt(lines, i).level); }
  }

  /** Documents that never skip a level get their enclosing headings. */
  lemma GaplessPathsAreRight(lines: seq<Text>, n: nat)
    requires n <= |lines| && Gapless(lines, n)
    ensures PathAt(lines, n) == Titles(Chain(lines, n, n))
  {
    hide Regular, PathAt, Chain, IsHeading;
    forall i | 0 <= i < n ensures Regular(lines, i) { GaplessIsRegular(lines, i); }
    PathsNameEnclosingHeadings(lines, n);
    assert PathIsChain(lines, n);
  }

  const SIBLING_A: Text := [0x23, 0x23, 0x23, 0x20, 0x41]
  const SIBLING_B: Text := [0x23, 0x23, 0x23, 0x20, 0x42]

  lemma LetterHeading(letter: CodePoint)
    requires letter == 0x41 || letter == 0x42
    ensures var line: Text := [0x23, 0x23, 0x23, 0x20, letter];
      HeadingOf(line) == Some(Heading(3, [letter])) && Opened(line).None?
  {
    var line: Text := [0x23, 0x23, 0x23, 0x20, letter];
    assert line == MarkdownMeaning.Repeat(SPACE, 0) + MarkdownMeaning.Repeat(HASH, 3) + [SPACE] + [letter] + [];
    MarkdownMeaning.ShapeIsHeading(line, 0, 3, [SPACE], [letter], []);
    MarkdownMeaning.RunIsUnique(line, 0, SPACE, 0);
  }

  /** Two third-level headings with nothing above them: the second is filed below the first. */
  lemma SkippedLevelsNest()
    ensures var lines := [SIBLING_A, SIBLING_B];
      PathAt(lines, 2) == [[0x41], [0x42]] && Titles(Chain(lines, 2, 2)) == [[0x42]] && !Regular(lines, 1)
  {
    hide HeadingOf, Opened, Closes;
    var lines := [SIBLING_A, SIBLING_B];
    LetterHeading(0x41);
    LetterHeading(0x42);
    assert FenceAt(lines, 0).None? && FenceAt(lines, 1).None?;
    assert IsHeading(lines, 0) && IsHeading(lines, 1);
    assert PathAt(lines, 0) == [] && PathAt(lines, 1) == [[0x41]];
    assert !Enclosing(lines, 0, 2) && Enclosing(lines, 1, 2) && Enclosing(lines, 0, 1);
    assert Chain(lines, 0, 2) == [] && Chain(lines, 1, 2) == [] && Chain(lines, 2, 2) == [Heading(3, [0x42])];
    assert Chain(lines, 0, 1) == [] && Chain(lines, 1, 1) == [Heading(3, [0x41])];
  }
}
