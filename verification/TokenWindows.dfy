/** Overlapping token windows and the chunks cut from a document: chunker.ts. */
module TokenWindows {
  import opened Results
  import opened Unicode
  import opened Tokens
  import opened MarkdownSections
  import MarkdownMeaning

  /* ---- options ---- */

  const DEFAULT_MAX_TOKENS: int := 600
  const DEFAULT_OVERLAP_TOKENS: int := 80

  datatype Options = Options(maxTokens: int, overlapTokens: int)

  datatype RangeError = MaxTokensMustBePositive | OverlapTokensMustNotBeNegative

  predicate Resolved(o: Options) {
    o.maxTokens > 0 && 0 <= o.overlapTokens < o.maxTokens
  }

  function Given(x: Option<int>, default: int): int {
    if x.Some? then x.value else default
  }

  function ResolveOptions(maxTokens: Option<int>, overlapTokens: Option<int>): (r: Result<Options, RangeError>)
    ensures r.Ok? ==> 0 <= r.value.overlapTokens < r.value.maxTokens && Resolved(r.value)
    ensures var most := if maxTokens == None then 600 else maxTokens.value;
      var overlap := if overlapTokens == None then 80 else overlapTokens.value;
      && (r == Err(MaxTokensMustBePositive) <==> most <= 0)
      && (r == Err(OverlapTokensMustNotBeNegative) <==> most > 0 && overlap < 0)
      && (r.Ok? ==> r.value.maxTokens == most && r.value.overlapTokens <= overlap
                    && (r.value.overlapTokens == overlap || r.value.overlapTokens == most - 1))
  {
    var most := Given(maxTokens, DEFAULT_MAX_TOKENS);
    var overlap := Given(overlapTokens, DEFAULT_OVERLAP_TOKENS);
    if most <= 0 then Err(MaxTokensMustBePositive)
    else if overlap < 0 then Err(OverlapTokensMustNotBeNegative)
    else Ok(Options(most, if overlap < most - 1 then overlap else most - 1))
  }

  function StepOf(o: Options): int {
    o.maxTokens - o.overlapTokens
  }

  /* ---- windows ---- */

  /** A full window, then the windows of what is left one step further on. */
  function Windows<T>(tokens: seq<T>, o: Options): seq<seq<T>>
    requires Resolved(o)
    decreases |tokens|
  {
    if tokens == [] then []
    else if |tokens| <= o.maxTokens then [tokens]
    else [tokens[..o.maxTokens]] + Windows(tokens[StepOf(o)..], o)
  }

  method SplitTokens<T>(tokens: seq<T>, o: Options) returns (windows: seq<seq<T>>)
    requires Resolved(o)
    ensures windows == Windows(tokens, o)
  {
    if |tokens| == 0 { return []; }
    if |tokens| <= o.maxTokens { return [tokens]; }
    windows := [];
    var step := if o.maxTokens - o.overlapTokens > 1 then o.maxTokens - o.overlapTokens else 1;
    var start := 0;
    assert tokens[start..] == tokens;
    while start < |tokens|
      invariant 0 <= start < |tokens|
      invariant windows + Windows(tokens[start..], o) == Windows(tokens, o)
    {
      var end := if start + o.maxTokens < |tokens| then start + o.maxTokens else |tokens|;
      assert tokens[start..end] == tokens[start..][..end - start];
      if end < |tokens| {
        assert tokens[start..][step..] == tokens[start + step..];
      }
      windows := windows + [tokens[start..end]];
      if end == |tokens| {
        assert tokens[start..end] == tokens[start..];
        break;
      }
      start := start + step;
    }
  }

  /** What the windows after the first add: each without the tokens it shares with the one before. */
  function Fresh<T>(windows: seq<seq<T>>, overlap: nat): seq<T>
  {
    if windows == [] then []
    else (if overlap <= |windows[0]| then windows[0][overlap..] else []) + Fresh(windows[1..], overlap)
  }

  function Reconstructed<T>(windows: seq<seq<T>>, overlap: nat): seq<T> {
    if windows == [] then [] else windows[0] + Fresh(windows[1..], overlap)
  }

  /** The first window and the fresh part of every later one are the tokens again. */
  lemma {:induction false} WindowsReconstruct<T>(tokens: seq<T>, o: Options)
    requires Resolved(o)
    ensures Reconstructed(Windows(tokens, o), o.overlapTokens) == tokens
    decreases |tokens|
  {
    if |tokens| > o.maxTokens {
      var rest := tokens[StepOf(o)..];
      WindowsReconstruct(rest, o);
      assert Windows(tokens, o)[1..] == Windows(rest, o);
      assert Fresh(Windows(rest, o), o.overlapTokens) == rest[o.overlapTokens..];
      assert tokens == tokens[..o.maxTokens] + rest[o.overlapTokens..];
    }
  }

  /**
   * Window k starts k steps into the tokens. All windows but the last are full, and the last brings at least one token
   * that no other window has.
   */
  lemma {:induction false} WindowAt<T>(tokens: seq<T>, o: Options, k: nat)
    requires Resolved(o) && k < |Windows(tokens, o)|
    ensures var w, at := Windows(tokens, o)[k], k * StepOf(o);
      && 0 <= at && 1 <= |w| <= o.maxTokens && at + |w| <= |tokens| && w == tokens[at..at + |w|]
      && (if k == |Windows(tokens, o)| - 1 then at + |w| == |tokens| else |w| == o.maxTokens && at + |w| < |tokens|)
      && (k > 0 ==> |w| > o.overlapTokens)
    decreases |tokens|
  {
    if |tokens| > o.maxTokens && k > 0 {
      var rest := tokens[StepOf(o)..];
      WindowAt(rest, o, k - 1);
      assert Windows(tokens, o)[k] == Windows(rest, o)[k - 1];
      assert k * StepOf(o) == (k - 1) * StepOf(o) + StepOf(o);
      if k == 1 { assert (k - 1) * StepOf(o) == 0; }
    }
  }

  /** Neighbouring windows share exactly the overlap. */
  lemma NeighboursOverlap<T>(tokens: seq<T>, o: Options, k: nat)
    requires Resolved(o) && k + 1 < |Windows(tokens, o)|
    ensures var a, b := Windows(tokens, o)[k], Windows(tokens, o)[k + 1];
      |a| == o.maxTokens && |b| > o.overlapTokens && a[StepOf(o)..] == b[..o.overlapTokens]
  {
    WindowAt(tokens, o, k);
    WindowAt(tokens, o, k + 1);
    var at := k * StepOf(o);
    assert (k + 1) * StepOf(o) == at + StepOf(o);
    var a, b := Windows(tokens, o)[k], Windows(tokens, o)[k + 1];
    assert a[StepOf(o)..] == tokens[at + StepOf(o)..at + o.maxTokens];
    assert b[..o.overlapTokens] == tokens[at + StepOf(o)..at + o.maxTokens];
  }

  /* ---- chunks ---- */

  datatype ChunkType = MarkdownSection | PlainText

  datatype Chunk = Chunk(
    chunkIndex: nat, chunkType: ChunkType, content: Text, sectionTitle: Option<Text>, headingPath: seq<Text>,
    tokenCount: nat)

  datatype Document = Document(content: Text, sectionTitle: Option<Text>, headingPath: seq<Text>)

  /** Where a run of chunks comes from. */
  datatype Source = Source(chunkType: ChunkType, headingPath: seq<Text>, sectionTitle: Option<Text>, content: Text)

  function BuildChunk(source: Source, chunkIndex: nat, content: Text): Chunk {
    Chunk(chunkIndex, source.chunkType, content, source.sectionTitle, source.headingPath, CountTokens(content))
  }

  function SectionChunks(source: Source, o: Options, startIndex: nat): (chunks: seq<Chunk>)
    requires Resolved(o)
  {
    var windows := Windows(Tokenize(source.content), o);
    seq(|windows|, i requires 0 <= i < |windows| => BuildChunk(source, startIndex + i, JoinTokens(windows[i])))
  }

  method ChunkSection(source: Source, o: Options, startIndex: nat) returns (chunks: seq<Chunk>)
    requires Resolved(o)
    ensures chunks == SectionChunks(source, o, startIndex)
  {
    var windows := SplitTokens(Tokenize(source.content), o);
    chunks := seq(|windows|, i requires 0 <= i < |windows| =>
      BuildChunk(source, startIndex + i, JoinTokens(windows[i])));
  }

  function TokensOf(chunks: seq<Chunk>): (tokens: seq<seq<Text>>)
    ensures |tokens| == |chunks| && forall i :: 0 <= i < |chunks| ==> tokens[i] == Tokenize(chunks[i].content)
  {
    seq(|chunks|, i requires 0 <= i < |chunks| => Tokenize(chunks[i].content))
  }

  lemma WindowsAreWords(content: Text, o: Options, k: nat)
    requires Resolved(o) && k < |Windows(Tokenize(content), o)|
    ensures Words(Windows(Tokenize(content), o)[k])
  {
    hide Word, Tokenize;
    TokensAreWords(content);
    WindowAt(Tokenize(content), o, k);
  }

  /**
   * The contents of a section's chunks tokenise to its windows, and their recorded token counts are the
   * window lengths.
   */
  lemma SectionChunksMean(source: Source, o: Options, startIndex: nat)
    requires Resolved(o)
    ensures var chunks := SectionChunks(source, o, startIndex);
      && TokensOf(chunks) == Windows(Tokenize(source.content), o)
      && (forall i :: 0 <= i < |chunks| ==>
        chunks[i].chunkIndex == startIndex + i && 1 <= chunks[i].tokenCount <= o.maxTokens)
      && Reconstructed(TokensOf(chunks), o.overlapTokens) == Tokenize(source.content)
      && (chunks == [] <==> Blank(source.content))
  {
    hide Words, Tokenize, JoinTokens, Windows, Blank;
    var tokens := Tokenize(source.content);
    var windows := Windows(tokens, o);
    var chunks := SectionChunks(source, o, startIndex);
    forall i | 0 <= i < |chunks| ensures Tokenize(chunks[i].content) == windows[i] && 1 <= |windows[i]| <= o.maxTokens {
      WindowsAreWords(source.content, o, i);
      TokenizeUndoesJoin(windows[i]);
      WindowAt(tokens, o, i);
    }
    WindowsReconstruct(tokens, o);
    NoTokensNoInk(source.content);
    NoWindowsNoTokens(tokens, o);
    assert TokensOf(chunks) == windows;
  }

  lemma NoWindowsNoTokens<T>(tokens: seq<T>, o: Options)
    requires Resolved(o)
    ensures Windows(tokens, o) == [] <==> tokens == []
  {
  }

  lemma {:induction false} NoInkIsBlank(t: Text)
    requires InkOf(t) == []
    ensures Blank(t)
  {
    hide Whitespace;
    if t != [] { NoInkIsBlank(t[..|t| - 1]); }
  }

  lemma {:induction false} WordsSpellInk(tokens: seq<Text>)
    requires Words(tokens) && Concat(tokens) == []
    ensures tokens == []
  {
    assert tokens != [] ==> Word(tokens[|tokens| - 1]);
  }

  lemma NoTokensNoInk(t: Text)
    ensures Tokenize(t) == [] <==> Blank(t)
  {
    hide Whitespace, Tokenize, Words;
    TokensSpellInk(t);
    TokensAreWords(t);
    if Blank(t) {
      InkOfBlank(t);
      WordsSpellInk(Tokenize(t));
    }
    if Tokenize(t) == [] { NoInkIsBlank(t); }
  }

  /* ---- documents ---- */

  function SourceOf(s: Section): Source {
    Source(MarkdownSection, s.headingPath, s.sectionTitle, s.content)
  }

  /** The chunks of all sections, numbered through. */
  function MarkdownChunks(sections: seq<Section>, o: Options): seq<Chunk>
    requires Resolved(o)
  {
    if sections == [] then []
    else
      var before := MarkdownChunks(sections[..|sections| - 1], o);
      before + SectionChunks(SourceOf(sections[|sections| - 1]), o, |before|)
  }

  function PlainChunks(d: Document, o: Options): seq<Chunk>
    requires Resolved(o)
  {
    if Trim(d.content) == [] then []
    else SectionChunks(Source(PlainText, d.headingPath, d.sectionTitle, Trim(d.content)), o, 0)
  }

  ghost predicate ParsedAs(content: Text, sections: seq<Section>) {
    var lines := SplitLines(content);
    if AnyHeading(lines, |lines|) then Sectioning(lines, sections, |lines|) else sections == []
  }

  /** The chunks of a document: those of its sections, or of its whole text when there are none. */
  ghost predicate Chunked(d: Document, o: Options, chunks: seq<Chunk>)
    requires Resolved(o)
  {
    exists sections :: ParsedAs(d.content, sections)
      && chunks == if MarkdownChunks(sections, o) != [] then MarkdownChunks(sections, o) else PlainChunks(d, o)
  }

  lemma ParsedIsParsed(content: Text, sections: seq<Section>)
    requires var lines := SplitLines(content);
      if AnyHeading(lines, |lines|) then Sectioning(lines, sections, |lines|) else sections == []
    ensures ParsedAs(content, sections)
  {
  }

  method ChunkMarkdownDocument(d: Document, o: Options) returns (chunks: seq<Chunk>)
    requires Resolved(o)
    ensures exists sections :: ParsedAs(d.content, sections) && chunks == MarkdownChunks(sections, o)
  {
    hide ParsedAs, SectionChunks, Sectioning, AnyHeading, SplitLines;
    var sections := ParseSections(d.content);
    ParsedIsParsed(d.content, sections);
    if |sections| == 0 { return []; }
    chunks := [];
    var chunkIndex := 0;
    for i := 0 to |sections|
      invariant chunks == MarkdownChunks(sections[..i], o) && chunkIndex == |chunks|
    {
      var sectionChunks := ChunkSection(SourceOf(sections[i]), o, chunkIndex);
      assert sections[..i + 1][..i] == sections[..i];
      chunks := chunks + sectionChunks;
      chunkIndex := chunkIndex + |sectionChunks|;
    }
    assert sections[..|sections|] == sections;
  }

  method ChunkPlainTextDocument(d: Document, o: Options) returns (chunks: seq<Chunk>)
    requires Resolved(o)
    ensures chunks == PlainChunks(d, o)
  {
    var content := Trim(d.content);
    if |content| == 0 { return []; }
    chunks := ChunkSection(Source(PlainText, d.headingPath, d.sectionTitle, content), o, 0);
  }

  method ChunkDocument(d: Document, maxTokens: Option<int>, overlapTokens: Option<int>)
    returns (r: Result<seq<Chunk>, RangeError>)
    ensures match ResolveOptions(maxTokens, overlapTokens)
      case Ok(o) => r.Ok? && Chunked(d, o, r.value)
      case Err(e) => r == Err(e)
  {
    var resolved := ResolveOptions(maxTokens, overlapTokens);
    if resolved.Err? { return Err(resolved.error); }
    hide ParsedAs;
    var markdown := ChunkMarkdownDocument(d, resolved.value);
    if |markdown| > 0 { return Ok(markdown); }
    var plain := ChunkPlainTextDocument(d, resolved.value);
    return Ok(plain);
  }

  /** The chunks of the sections before section j come first; those of section j follow. */
  lemma {:induction false} SectionRange(sections: seq<Section>, o: Options, j: nat)
    requires Resolved(o) && j < |sections|
    ensures var from := |MarkdownChunks(sections[..j], o)|;
      var own := SectionChunks(SourceOf(sections[j]), o, from);
      from + |own| <= |MarkdownChunks(sections, o)| && MarkdownChunks(sections, o)[from..from + |own|] == own
  {
    hide SectionChunks;
    var n := |sections| - 1;
    if j == n {
    } else {
      SectionRange(sections[..n], o, j);
      assert sections[..n][..j] == sections[..j];
      var before, all := MarkdownChunks(sections[..n], o), MarkdownChunks(sections, o);
      assert all[..|before|] == before;
      var from := |MarkdownChunks(sections[..j], o)|;
      var end := from + |SectionChunks(SourceOf(sections[j]), o, from)|;
      assert all[from..end] == before[from..end];
    }
  }

  /** Indexes count up from a first one; no chunk is empty or longer than allowed. */
  predicate Numbered(chunks: seq<Chunk>, from: nat, o: Options) {
    forall i :: 0 <= i < |chunks| ==> chunks[i].chunkIndex == from + i && 1 <= chunks[i].tokenCount <= o.maxTokens
  }

  lemma NumberedAppend(a: seq<Chunk>, b: seq<Chunk>, o: Options)
    requires Numbered(a, 0, o) && Numbered(b, |a|, o)
    ensures Numbered(a + b, 0, o)
  {
  }

  lemma {:induction false} NumberedThrough(sections: seq<Section>, o: Options)
    requires Resolved(o)
    ensures Numbered(MarkdownChunks(sections, o), 0, o)
  {
    hide SectionChunks, Numbered;
    if sections == [] {
      NothingIsNumbered(o);
    } else {
      var n := |sections| - 1;
      var before := MarkdownChunks(sections[..n], o);
      NumberedThrough(sections[..n], o);
      SectionIsNumbered(SourceOf(sections[n]), o, |before|);
      NumberedAppend(before, SectionChunks(SourceOf(sections[n]), o, |before|), o);
    }
  }

  lemma NothingIsNumbered(o: Options)
    ensures Numbered([], 0, o)
  {
  }

  lemma SectionIsNumbered(source: Source, o: Options, startIndex: nat)
    requires Resolved(o)
    ensures Numbered(SectionChunks(source, o, startIndex), startIndex, o)
  {
    hide SectionChunks;
    SectionChunksMean(source, o, startIndex);
  }

  /** Chunk indexes count from zero over the whole document. */
  lemma ChunksAreNumbered(d: Document, o: Options, chunks: seq<Chunk>)
    requires Resolved(o) && Chunked(d, o, chunks)
    ensures forall i :: 0 <= i < |chunks| ==> chunks[i].chunkIndex == i && 1 <= chunks[i].tokenCount <= o.maxTokens
  {
    hide ParsedAs, MarkdownChunks, SectionChunks, Numbered;
    var sections :| ParsedAs(d.content, sections)
      && chunks == if MarkdownChunks(sections, o) != [] then MarkdownChunks(sections, o) else PlainChunks(d, o);
    NumberedThrough(sections, o);
    NothingIsNumbered(o);
    SectionIsNumbered(Source(PlainText, d.headingPath, d.sectionTitle, Trim(d.content)), o, 0);
    NumberedMeans(chunks, o);
  }

  lemma NumberedMeans(chunks: seq<Chunk>, o: Options)
    requires Numbered(chunks, 0, o)
    ensures forall i :: 0 <= i < |chunks| ==> chunks[i].chunkIndex == i && 1 <= chunks[i].tokenCount <= o.maxTokens
  {
  }

  /** The stored contents of a section's chunks alone give back all tokens of its body, in order. */
  lemma SectionsReconstruct(sections: seq<Section>, o: Options, j: nat)
    requires Resolved(o) && j < |sections|
    ensures var from := |MarkdownChunks(sections[..j], o)|;
      var end := from + |SectionChunks(SourceOf(sections[j]), o, from)|;
      && end <= |MarkdownChunks(sections, o)|
      && var tokens := TokensOf(MarkdownChunks(sections, o)[from..end]);
         Reconstructed(tokens, o.overlapTokens) == Tokenize(sections[j].content)
         && Concat(Reconstructed(tokens, o.overlapTokens)) == InkOf(sections[j].content)
  {
    hide MarkdownChunks, SectionChunks, Tokenize, TokensOf;
    SectionRange(sections, o, j);
    SectionChunksMean(SourceOf(sections[j]), o, |MarkdownChunks(sections[..j], o)|);
    TokensSpellInk(sections[j].content);
  }

  lemma HeadingsHaveInk(line: Text)
    requires HeadingOf(line).Some?
    ensures !Blank(line)
  {
    hide HeadingOf, Whitespace;
    MarkdownMeaning.HeadingHasShape(line);
    var indent: nat, gap: Text, title: Text, tail: Text :|
      MarkdownMeaning.HeadingShape(line, indent, HeadingOf(line).value.level, gap, title, tail);
    MarkdownMeaning.InkBoundaries();
    assert line[indent] == HASH;
  }

  lemma {:induction false} UnixBreaksOfBlank(t: Text)
    requires Blank(t)
    ensures Blank(MarkdownMeaning.UnixBreaks(t))
  {
    hide Whitespace;
    if t != [] { UnixBreaksOfBlank(t[1..]); }
  }

  lemma BlankHasNoHeading(t: Text)
    requires Blank(t)
    ensures !AnyHeading(SplitLines(t), |SplitLines(t)|)
  {
    hide Whitespace, Blank, HeadingOf, SplitLines, FenceAt, Opened;
    var lines := SplitLines(t);
    MarkdownMeaning.LinesJoinBack(t);
    UnixBreaksOfBlank(t);
    MarkdownMeaning.BlankJoin(lines);
    forall i | 0 <= i < |lines| ensures !IsHeading(lines, i) {
      if HeadingOf(lines[i]).Some? { HeadingsHaveInk(lines[i]); }
    }
  }

  lemma TrimOfInk(t: Text)
    ensures Blank(t) <==> Blank(Trim(t))
    ensures Blank(t) <==> Trim(t) == []
  {
    hide Whitespace;
    var before, after := TrimSplits(t);
    BlankParts(before + Trim(t), after);
    BlankParts(before, Trim(t));
  }

  /**
   * A document yields no chunk exactly when it has no ink; one whose headings have no text below them falls
   * back to plain text.
   */
  lemma OnlyBlankYieldsNothing(d: Document, o: Options, chunks: seq<Chunk>)
    requires Resolved(o) && Chunked(d, o, chunks)
    ensures chunks == [] <==> Blank(d.content)
  {
    hide MarkdownChunks, SectionChunks, Sectioning, AnyHeading, Blank, Trim, SplitLines;
    var sections :| ParsedAs(d.content, sections)
      && chunks == if MarkdownChunks(sections, o) != [] then MarkdownChunks(sections, o) else PlainChunks(d, o);
    TrimOfInk(d.content);
    SectionChunksMean(Source(PlainText, d.headingPath, d.sectionTitle, Trim(d.content)), o, 0);
    if Blank(d.content) {
      BlankHasNoHeading(d.content);
      NoSectionsNoChunks(o);
    }
  }

  lemma NoSectionsNoChunks(o: Options)
    requires Resolved(o)
    ensures MarkdownChunks([], o) == []
  {
  }

  lemma ParsedOnce(content: Text, s: seq<Section>, t: seq<Section>)
    requires ParsedAs(content, s) && ParsedAs(content, t)
    ensures s == t
  {
    hide Sectioning;
    var lines := SplitLines(content);
    if AnyHeading(lines, |lines|) { MarkdownMeaning.SectioningIsUnique(lines, s, t); }
  }

  /** A document and its options have one list of chunks. */
  lemma ChunksAreDetermined(d: Document, o: Options, a: seq<Chunk>, b: seq<Chunk>)
    requires Resolved(o) && Chunked(d, o, a) && Chunked(d, o, b)
    ensures a == b
  {
    hide ParsedAs, MarkdownChunks, PlainChunks;
    var s :| ParsedAs(d.content, s)
      && a == if MarkdownChunks(s, o) != [] then MarkdownChunks(s, o) else PlainChunks(d, o);
    var t :| ParsedAs(d.content, t)
      && b == if MarkdownChunks(t, o) != [] then MarkdownChunks(t, o) else PlainChunks(d, o);
    ParsedOnce(d.content, s, t);
  }
}
