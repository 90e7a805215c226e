/**
 * Chunks are as long as the bounds allow, and that decides them: from five bytes up a document has exactly one list of
 * valid chunks that cover it and are greedy, and it is the one the loop returns.
 */
module FileChunkGreedy {
  import opened Unicode
  import opened FileContract
  import opened FileChunker
  import opened FileChunkCoverage

  /** The parts of a chunk lie in different segments. */
  predicate OnePerSegment(parts: seq<Part>) {
    forall i, j :: 0 <= i < j < |parts| ==> parts[i].segment < parts[j].segment
  }

  /**
   * Chunk c could not take the next character, which is `first` in `segment`: within a segment it does not fit; a new
   * segment finds all parts used, or no room for a newline, or no room for its first character after the newline.
   */
  ghost predicate Stops(c: Chunk, segment: nat, first: CodePoint, segments: seq<Segment>, max: nat)
    requires c.parts != []
  {
    var own := Rendered(c.parts, segments);
    if c.parts[|c.parts| - 1].segment == segment then c.content == own && Bytes(own) + Width(first) > max
    else if |c.parts| == MAX_PARTS || Bytes(own) + 1 > max then c.content == own
    else c.content == own + [NEWLINE] && Bytes(own) + 1 + Width(first) > max
  }

  /** Each chunk but the last could not take the first character of the next one. */
  ghost predicate Pairs(chunks: seq<Chunk>, segments: seq<Segment>, max: nat) {
    && (forall k :: 0 <= k < |chunks| ==> Whole(chunks[k]))
    && (forall k :: 0 <= k < |chunks| - 1 ==>
          Stops(chunks[k], chunks[k + 1].parts[0].segment, chunks[k + 1].content[0], segments, max))
  }

  predicate Whole(c: Chunk) {
    c.parts != [] && c.content != [] && OnePerSegment(c.parts)
  }

  ghost predicate Greedy(chunks: seq<Chunk>, segments: seq<Segment>, max: nat) {
    && Pairs(chunks, segments, max)
    && (chunks != [] ==> chunks[|chunks| - 1].content == Rendered(chunks[|chunks| - 1].parts, segments))
  }

  /** Valid chunks that cover the document and are as long as the bounds allow. */
  ghost predicate Solution(chunks: seq<Chunk>, segments: seq<Segment>, max: nat) {
    && (forall c :: c in chunks ==> ChunkValid(c, segments, max))
    && Covers(AllParts(chunks), segments) && Greedy(chunks, segments, max)
  }

  /* ---- the loop is greedy ---- */

  /** The chunk is full whatever a later segment starts with. */
  ghost predicate Full(c: Chunk, index: nat, segments: seq<Segment>, max: nat) {
    && c.parts != [] && c.parts[|c.parts| - 1].segment < index && c.content == Rendered(c.parts, segments)
    && (|c.parts| == MAX_PARTS || Bytes(c.content) + 1 > max)
  }

  /** The last finished chunk could not take what came next, or what comes next in segment `index`. */
  ghost predicate Boundary(p: Packer, index: nat, segments: seq<Segment>, max: nat) {
    p.chunks != [] ==>
      var c := p.chunks[|p.chunks| - 1];
      && c.parts != []
      && if p.parts == [] || p.content == [] then Full(c, index, segments, max)
         else Stops(c, p.parts[0].segment, p.content[0], segments, max)
  }

  predicate Placeable(p: Packer, index: nat) {
    && (p.content == [] <==> p.parts == []) && OnePerSegment(p.parts)
    && (p.open ==> p.parts != [] && p.parts[|p.parts| - 1].segment == index)
    && (!p.open && p.parts != [] ==> p.parts[|p.parts| - 1].segment < index)
  }

  ghost predicate Packing(p: Packer, index: nat, segments: seq<Segment>, max: nat) {
    Pairs(p.chunks, segments, max) && Placeable(p, index) && Boundary(p, index, segments, max)
  }

  lemma PairsAppend(chunks: seq<Chunk>, c: Chunk, segments: seq<Segment>, max: nat)
    requires Pairs(chunks, segments, max) && Whole(c)
    requires chunks != [] ==>
               Stops(chunks[|chunks| - 1], c.parts[0].segment, c.content[0], segments, max)
    ensures Pairs(chunks + [c], segments, max)
  {
    hide Stops, OnePerSegment;
    var all := chunks + [c];
    forall k | 0 <= k < |all| ensures Whole(all[k]) { if k < |chunks| { assert Whole(chunks[k]); } }
    forall k | 0 <= k < |all| - 1
      ensures Stops(all[k], all[k + 1].parts[0].segment, all[k + 1].content[0], segments, max)
    {
      if k < |chunks| - 1 {
        assert Stops(chunks[k], chunks[k + 1].parts[0].segment, chunks[k + 1].content[0], segments, max);
      }
    }
  }

  /** Flushing keeps the chunks greedy when content is not blank. */
  lemma FlushKeepsPairs(p: Packer, index: nat, segments: seq<Segment>, max: nat)
    requires Packing(p, index, segments, max) && p.content != [] && !Blank(p.content)
    ensures var q := Flush(p);
            && Pairs(q.chunks, segments, max) && q.parts == [] && q.content == [] && !q.open
            && q.chunks == p.chunks + [Chunk(p.content, p.parts[0].headingPath, p.parts)]
  {
    hide Stops, Blank, Full;
    PairsAppend(p.chunks, Chunk(p.content, p.parts[0].headingPath, p.parts), segments, max);
  }

  lemma BeginKeepsPacking(p: Packer, index: nat, segments: seq<Segment>, max: nat)
    requires Packing(p, index, segments, max) && Laid(p, segments, max) && p.open && !Blank(p.content)
    ensures Packing(BeginSegment(p, max), index + 1, segments, max) && Flushable(BeginSegment(p, max), false)
  {
    hide Whitespace, Rendered, Bytes, ChunkValid, PartValid;
    if |p.parts| >= MAX_PARTS || Bytes(p.content) + 1 > max {
      FlushKeepsPairs(p, index, segments, max);
    } else {
      var k :| 0 <= k < |p.content| && !Whitespace(p.content[k]);
      assert (p.content + [NEWLINE])[k] == p.content[k];
    }
  }

  lemma FullStops(c: Chunk, index: nat, first: CodePoint, segments: seq<Segment>, max: nat)
    requires Full(c, index, segments, max)
    ensures Stops(c, index, first, segments, max)
  {
  }

  /** A character that does not fit stops the chunk, in the middle of a segment and after the newline at its start. */
  lemma UnfitStops(p: Packer, index: nat, first: CodePoint, segments: seq<Segment>, max: nat)
    requires Laid(p, segments, max) && Placeable(p, index) && p.parts != [] && (p.open || |p.parts| < MAX_PARTS)
    requires Bytes(p.content) + Width(first) > max
    ensures Stops(Chunk(p.content, p.parts[0].headingPath, p.parts), index, first, segments, max)
  {
    hide ChunkValid, PartValid, Rendered;
    BytesAppend(Rendered(p.parts, segments), NEWLINE);
  }

  lemma GrowKeepsSegments(parts: seq<Part>, end: nat)
    requires parts != []
    ensures |Grow(parts, end)| == |parts|
    ensures forall i :: 0 <= i < |parts| ==> Grow(parts, end)[i].segment == parts[i].segment
    ensures OnePerSegment(Grow(parts, end)) == OnePerSegment(parts)
  {
  }

  /** A unit that fits, or that starts a new chunk. */
  lemma PlaceKeepsPacking(q: Packer, index: nat, segment: Segment, u: Unit, segments: seq<Segment>, max: nat)
    requires Pairs(q.chunks, segments, max) && Placeable(q, index)
    requires q.parts != [] ==> Boundary(q, index, segments, max)
    requires q.parts == [] && q.chunks != [] ==>
               q.chunks[|q.chunks| - 1].parts != [] && Stops(q.chunks[|q.chunks| - 1], index, u.glyph, segments, max)
    ensures var parts := if q.open && q.parts != [] then Grow(q.parts, u.end)
                         else q.parts + [Part(index, u.start, u.end, segment.location, segment.headingPath)];
            Packing(Packer(q.chunks, q.content + [u.glyph], parts, true), index, segments, max)
  {
    hide Stops, Pairs, Grow, Full;
    if q.parts != [] { GrowKeepsSegments(q.parts, u.end); }
  }

  lemma PlaceableMeans(p: Packer, index: nat)
    requires Placeable(p, index)
    ensures p.content == [] <==> p.parts == []
  {
  }

  lemma NothingIsPlaceable(p: Packer, index: nat)
    requires p.content == [] && p.parts == [] && !p.open
    ensures Placeable(p, index)
  {
  }

  lemma AddKeepsPacking(p: Packer, index: nat, u: Unit, segments: seq<Segment>, max: nat, afterSpace: bool)
    requires max >= 5 && index < |segments| && Laid(p, segments, max) && Packing(p, index, segments, max)
    requires Flushable(p, afterSpace) && (p.open || |p.parts| < MAX_PARTS)
    requires (afterSpace ==> !Whitespace(u.glyph)) && (Whitespace(u.glyph) ==> u.glyph == SPACE)
    ensures var q := AddUnit(p, segments[index], index, u, max);
            Packing(q, index, segments, max) && Flushable(q, u.glyph == SPACE)
  {
    hide Whitespace, Laid, Pairs, Stops, Placeable, Full, Grow;
    if Bytes(p.content) + Width(u.glyph) > max {
      OneSpaceIsOneByte();
      assert p.content != [] && !Blank(p.content);
      FlushKeepsPairs(p, index, segments, max);
      assert p.parts != [] by { PlaceableMeans(p, index); }
      UnfitStops(p, index, u.glyph, segments, max);
      NothingIsPlaceable(Flush(p), index);
      PlaceKeepsPacking(Flush(p), index, segments[index], u, segments, max);
      AddStaysFlushable(Flush(p), u, afterSpace);
    } else {
      if p.parts == [] && p.chunks != [] { FullStops(p.chunks[|p.chunks| - 1], index, u.glyph, segments, max); }
      PlaceKeepsPacking(p, index, segments[index], u, segments, max);
      AddStaysFlushable(p, u, afterSpace);
    }
  }

  lemma GlyphOfUnit(t: Text, u: Unit)
    requires Ink(t, u) || Space(t, u)
    ensures Whitespace(u.glyph) ==> u.glyph == SPACE
    ensures Ink(t, u) ==> !Whitespace(u.glyph)
    ensures u.glyph == SPACE ==> Space(t, u)
  {
  }

  /** Two runs of whitespace are not neighbours. */
  lemma SpacesApart(t: Text, u: Unit, v: Unit)
    requires Space(t, u) && (Ink(t, v) || Space(t, v)) && u.end == v.start
    ensures Ink(t, v)
  {
  }

  lemma {:induction false} PackKeepsPacking(p: Packer, index: nat, us: seq<Unit>, segments: seq<Segment>, max: nat)
    requires max >= 5 && index < |segments| && us != [] && Laid(p, segments, max) && Packing(p, index, segments, max)
    requires !p.open && |p.parts| < MAX_PARTS && Flushable(p, false)
    requires forall k :: 0 <= k < |us| ==> Ink(segments[index].text, us[k]) || Space(segments[index].text, us[k])
    requires forall k :: 0 <= k < |us| - 1 ==> us[k].end == us[k + 1].start
    ensures var q := PackUnits(p, segments[index], index, us, max);
            Packing(q, index, segments, max) && Flushable(q, us[|us| - 1].glyph == SPACE)
  {
    hide Whitespace, Ink, Space, Packing, Flushable, Laid, AddUnit;
    var n := |us| - 1;
    var before := PackUnits(p, segments[index], index, us[..n], max);
    PackKeepsLaid(p, segments, index, us[..n], max);
    GlyphOfUnit(segments[index].text, us[n]);
    if n > 0 {
      PackKeepsPacking(p, index, us[..n], segments, max);
      GlyphOfUnit(segments[index].text, us[n - 1]);
      if us[n - 1].glyph == SPACE { SpacesApart(segments[index].text, us[n - 1], us[n]); }
      AddKeepsPacking(before, index, us[n], segments, max, us[n - 1].glyph == SPACE);
    } else {
      AddKeepsPacking(before, index, us[n], segments, max, false);
    }
  }

  lemma NothingIsPacked(segments: seq<Segment>, max: nat)
    ensures Packing(EMPTY, 0, segments, max) && Packing(BeginSegment(EMPTY, max), 0, segments, max)
    ensures Flushable(BeginSegment(EMPTY, max), false)
  {
  }

  /** What the packer is after all units of segment n - 1. */
  ghost predicate Packed(p: Packer, n: nat, segments: seq<Segment>, max: nat)
    requires n > 0
  {
    Packing(p, n - 1, segments, max) && p.open && !Blank(p.content)
  }

  lemma {:induction false} SegmentsArePacked(segments: seq<Segment>, n: nat, max: nat)
    requires max >= 5 && 0 < n <= |segments| && Inked(segments)
    ensures Packed(PackSegments(segments, n, max), n, segments, max)
  {
    hide Packing, Flushable, Laid, PackUnits, BeginSegment, Units;
    hide InkEnd, InkStart, Ink, Space, Blank, Done, Whitespace;
    var index, p := n - 1, PackSegments(segments, n - 1, max);
    PackedIsLaid(segments, index, max);
    BeginKeepsLaid(p, segments, max);
    if index > 0 {
      SegmentsArePacked(segments, index, max);
      BeginKeepsPacking(p, index - 1, segments, max);
    } else {
      NothingIsPacked(segments, max);
    }
    UnitsOfText(segments[index].text);
    PackKeepsPacking(BeginSegment(p, max), index, Units(segments[index].text, 0), segments, max);
    PackedIsLaid(segments, n, max);
    PackedIsDone(segments, n, max);
    DoneIsNotBlank(PackSegments(segments, n, max), segments, n);
    LastIsOpen(segments, n, max);
  }

  lemma LastIsOpen(segments: seq<Segment>, n: nat, max: nat)
    requires max >= 5 && 0 < n <= |segments| && Inked(segments)
    ensures PackSegments(segments, n, max).open && PackSegments(segments, n, max).content != []
  {
    hide Units, PackUnits, BeginSegment, Rendered, ChunkValid, PartValid, Blank;
    PackedIsLaid(segments, n - 1, max);
    SegmentKeepsLaid(PackSegments(segments, n - 1, max), segments, n, max);
  }

  lemma DoneIsNotBlank(p: Packer, segments: seq<Segment>, n: nat)
    requires n <= |segments| && Done(p, segments, n)
    ensures p.content == [] || !Blank(p.content)
  {
  }

  /** From five bytes up the chunks of the loop are greedy, besides being valid and covering the document. */
  lemma ChunksAreGreedy(segments: seq<Segment>, max: nat)
    requires max >= 5 && segments != [] && Inked(segments)
    ensures Solution(Chunks(segments, max), segments, max)
  {
    hide PackSegments, Covers, Pairs, ChunkValid, Blank, PartValid, Rendered;
    var p := PackSegments(segments, |segments|, max);
    SegmentsArePacked(segments, |segments|, max);
    PackedIsLaid(segments, |segments|, max);
    ChunksAreValid(segments, max);
    DocumentIsCovered(segments, max);
    FlushKeepsPairs(p, |segments| - 1, segments, max);
  }

  /* ---- there is no other solution ---- */

  /** The character a slice from position `at` starts with. */
  function GlyphAt(t: Text, at: nat): CodePoint
    requires at < |t|
  {
    if Whitespace(t[at]) then SPACE else t[at]
  }

  datatype Position = Position(segment: nat, at: nat) | AtEnd

  /** Where the chunk after c starts: further on in its segment, or with the next one. */
  function NextPosition(c: Chunk, segments: seq<Segment>): Position
    requires c.parts != [] && c.parts[|c.parts| - 1].segment < |segments|
  {
    var last := c.parts[|c.parts| - 1];
    if last.end < InkEnd(segments[last.segment].text) then Position(last.segment, last.end)
    else if last.segment + 1 < |segments| then Position(last.segment + 1, InkStart(segments[last.segment + 1].text))
    else AtEnd
  }

  /** The parts of a chunk run on from segment to segment. */
  ghost predicate RunsOn(c: Chunk, segments: seq<Segment>) {
    && (forall i :: 0 <= i < |c.parts| ==>
          c.parts[i].segment < |segments| && c.parts[i].end <= InkEnd(segments[c.parts[i].segment].text))
    && (forall i :: 0 <= i < |c.parts| - 1 ==> Steps(c.parts[i], c.parts[i + 1], segments))
  }

  ghost predicate Steps(p: Part, q: Part, segments: seq<Segment>) {
    && p.segment < |segments| && q.segment == p.segment + 1 < |segments|
    && p.end == InkEnd(segments[p.segment].text) && q.start == InkStart(segments[q.segment].text)
  }

  /** The chunk ends where it does because the bounds do not allow more. */
  ghost predicate StopsThere(c: Chunk, segments: seq<Segment>, max: nat)
    requires c.parts != [] && c.parts[|c.parts| - 1].segment < |segments|
  {
    match NextPosition(c, segments)
    case AtEnd => c.content == Rendered(c.parts, segments)
    case Position(k, at) =>
      k < |segments| && at < |segments[k].text| && Stops(c, k, GlyphAt(segments[k].text, at), segments, max)
  }

  /** All that a solution says of one chunk. */
  ghost predicate Fits(c: Chunk, segments: seq<Segment>, max: nat) {
    && ChunkValid(c, segments, max) && OnePerSegment(c.parts) && RunsOn(c, segments) && StopsThere(c, segments, max)
  }

  lemma {:induction false} CollapseSplits(x: Text, y: Text)
    requires x != [] && y != [] ==> !(Whitespace(x[|x| - 1]) && Whitespace(y[0]))
    ensures Collapse(x + y) == Collapse(x) + Collapse(y)
    ensures y != [] ==> Collapse(y) != [] && Collapse(y)[0] == GlyphAt(y, 0)
  {
    hide Whitespace;
    if y == [] {
      assert x + y == x;
    } else {
      var n := |y| - 1;
      assert (x + y)[..|x| + n] == x + y[..n];
      CollapseSplits(x, y[..n]);
      if n == 0 {
        assert x + y[..0] == x;
        if x != [] { assert (x + y)[|x| - 1] == x[|x| - 1]; }
      } else {
        assert (x + y)[|x| + n] == y[n] && (x + y)[|x| + n - 1] == y[n - 1] == y[..n][n - 1];
      }
    }
  }

  /** A longer slice starts with the shorter one and goes on with the character behind it. */
  lemma LongerSlice(t: Text, from: nat, mid: nat, to: nat) returns (rest: Text)
    requires from < mid < to <= |t| && CleanCut(t, mid)
    ensures Collapse(t[from..to]) == Collapse(t[from..mid]) + [GlyphAt(t, mid)] + rest
  {
    hide Collapse;
    assert t[from..to] == t[from..mid] + t[mid..to];
    CollapseSplits(t[from..mid], t[mid..to]);
    rest := Collapse(t[mid..to])[1..];
    assert Collapse(t[mid..to]) == [GlyphAt(t, mid)] + rest;
  }

  lemma SliceStarts(q: Part, segments: seq<Segment>)
    requires InText(q, segments)
    ensures Slice(q, segments) != [] && Slice(q, segments)[0] == GlyphAt(segments[q.segment].text, q.start)
  {
    hide Collapse;
    var t := segments[q.segment].text[q.start..q.end];
    CollapseSplits([], t);
  }

  lemma {:induction false} BytesSplit(t: Text, u: Text)
    ensures Bytes(t + u) == Bytes(t) + Bytes(u)
  {
    if u == [] {
      assert t + u == t;
    } else {
      var n := |u| - 1;
      assert (t + u)[..|t| + n] == t + u[..n];
      BytesSplit(t, u[..n]);
    }
  }

  /** A text that goes on with c has at least c's bytes more. */
  lemma BytesAtLeast(t: Text, c: CodePoint, rest: Text)
    ensures Bytes(t + [c] + rest) >= Bytes(t) + Width(c)
  {
    BytesSplit(t + [c], rest);
    BytesAppend(t, c);
  }

  /** What is rendered of the first parts comes first. */
  lemma {:induction false} RenderedPrefix(parts: seq<Part>, segments: seq<Segment>, n: nat) returns (rest: Text)
    requires 0 < n <= |parts|
    ensures Rendered(parts, segments) == Rendered(parts[..n], segments) + rest
    ensures n < |parts| && InText(parts[n], segments) ==>
              rest != [] && rest[0] == NEWLINE && |rest| > 1
              && rest[1] == GlyphAt(segments[parts[n].segment].text, parts[n].start)
    decreases |parts|
  {
    hide Slice, Whitespace;
    var m := |parts| - 1;
    if n == |parts| {
      rest := [];
      assert parts[..n] == parts;
    } else {
      var earlier := RenderedPrefix(parts[..m], segments, n);
      assert parts[..m][..n] == parts[..n];
      rest := earlier + [NEWLINE] + Slice(parts[m], segments);
      assert Rendered(parts, segments) == Rendered(parts[..m], segments) + [NEWLINE] + Slice(parts[m], segments);
      if n == m && InText(parts[n], segments) {
        SliceStarts(parts[n], segments);
        assert parts[..m] == parts[..n];
        assert earlier == [];
      }
    }
  }

  /** A chunk that holds this much text and goes on with c exceeds the bound if the text and c do. */
  lemma TooLong(e: Chunk, segments: seq<Segment>, max: nat, own: Text, c: CodePoint, rest: Text)
    requires ChunkValid(e, segments, max) && Rendered(e.parts, segments) == own + [c] + rest
    ensures Bytes(own) + Width(c) <= max
  {
    hide PartValid, Rendered, Blank;
    BytesAtLeast(own, c, rest);
    BytesSplit(Rendered(e.parts, segments), [NEWLINE]);
  }

  lemma RenderedLast(parts: seq<Part>, segments: seq<Segment>)
    requires parts != []
    ensures var n := |parts| - 1;
      Rendered(parts, segments)
      == (if n == 0 then [] else Rendered(parts[..n], segments) + [NEWLINE]) + Slice(parts[n], segments)
  {
  }

  lemma StopsInside(c: Chunk, segments: seq<Segment>, max: nat)
    requires Fits(c, segments, max)
    ensures var last := c.parts[|c.parts| - 1];
      var t := segments[last.segment].text;
      last.end < InkEnd(t) ==> Bytes(Rendered(c.parts, segments)) + Width(GlyphAt(t, last.end)) > max
  {
    hide Whitespace, InkStart, Blank, Rendered, OnePerSegment, PartValid, Bytes, GlyphAt;
  }

  /** What is rendered when the last of some parts reaches further, and others follow. */
  lemma RenderedFurther(some: seq<Part>, all: seq<Part>, segments: seq<Segment>) returns (rest: Text)
    requires var m := |some| - 1;
      && 0 <= m < |all| && some[..m] == all[..m] && some[m].segment == all[m].segment && some[m].start == all[m].start
      && some[m].end < all[m].end && PartValid(some[m], segments) && PartValid(all[m], segments)
    ensures var last := some[|some| - 1];
      Rendered(all, segments)
      == Rendered(some, segments) + [GlyphAt(segments[last.segment].text, last.end)] + rest
  {
    hide Collapse, Whitespace, Rendered;
    var m := |some| - 1;
    var last, q := some[m], all[m];
    var more := LongerSlice(segments[q.segment].text, q.start, last.end, q.end);
    var later := RenderedPrefix(all, segments, m + 1);
    RenderedLast(some, segments);
    RenderedLast(all[..m + 1], segments);
    assert all[..m + 1][..m] == all[..m];
    rest := more + later;
  }

  /** No other chunk takes more of the segment in which c ends. */
  lemma CannotGrow(c: Chunk, e: Chunk, segments: seq<Segment>, max: nat)
    requires Fits(c, segments, max) && ChunkValid(e, segments, max) && RunsOn(e, segments)
    requires var m := |c.parts| - 1;
      m < |e.parts| && c.parts[..m] == e.parts[..m] && c.parts[m].segment == e.parts[m].segment
      && c.parts[m].start == e.parts[m].start
    ensures c.parts[|c.parts| - 1].end >= e.parts[|c.parts| - 1].end
  {
    hide Whitespace, InkStart, InkEnd, Blank, Rendered, OnePerSegment, PartValid, StopsThere, Bytes;
    var m := |c.parts| - 1;
    var last, q := c.parts[m], e.parts[m];
    if last.end < q.end {
      assert last in c.parts && q in e.parts;
      PartIsInText(last, segments);
      var rest := RenderedFurther(c.parts, e.parts, segments);
      StopsInside(c, segments, max);
      var glyph := GlyphAt(segments[last.segment].text, last.end);
      TooLong(e, segments, max, Rendered(c.parts, segments), glyph, rest);
    }
  }

  lemma PartIsInText(q: Part, segments: seq<Segment>)
    requires PartValid(q, segments)
    ensures InText(q, segments)
  {
  }

  lemma StopsAtSegment(c: Chunk, q: Part, segments: seq<Segment>, max: nat)
    requires Fits(c, segments, max) && |c.parts| < MAX_PARTS && Steps(c.parts[|c.parts| - 1], q, segments)
    requires InText(q, segments)
    ensures var own := Rendered(c.parts, segments);
      Bytes(own) + 1 > max || Bytes(own) + 1 + Width(GlyphAt(segments[q.segment].text, q.start)) > max
  {
    hide Whitespace, InkStart, InkEnd, Blank, Rendered, OnePerSegment, PartValid, Bytes, GlyphAt, RunsOn;
  }

  /** No other chunk goes on into the next segment. */
  lemma CannotGoOn(c: Chunk, e: Chunk, segments: seq<Segment>, max: nat)
    requires Fits(c, segments, max) && ChunkValid(e, segments, max) && RunsOn(e, segments)
    requires |c.parts| < |e.parts|
    ensures c.parts != e.parts[..|c.parts|]
  {
    hide Collapse, Whitespace, Blank, Rendered, OnePerSegment, PartValid, Bytes, Steps, StopsThere, GlyphAt;
    var n := |c.parts|;
    if c.parts == e.parts[..n] {
      var q := e.parts[n];
      assert Steps(e.parts[n - 1], q, segments) && c.parts[n - 1] == e.parts[n - 1];
      assert q in e.parts;
      PartIsInText(q, segments);
      var own, glyph := Rendered(c.parts, segments), GlyphAt(segments[q.segment].text, q.start);
      var rest := RenderedPrefix(e.parts, segments, n);
      assert own + rest == own + [NEWLINE] + rest[1..];
      TooLong(e, segments, max, own, NEWLINE, rest[1..]);
      assert own + rest == own + [NEWLINE] + [glyph] + rest[2..];
      TooLong(e, segments, max, own + [NEWLINE], glyph, rest[2..]);
      BytesAppend(own, NEWLINE);
      StopsAtSegment(c, q, segments, max);
    }
  }

  lemma {:induction false} SamePlaces(c: Chunk, e: Chunk, segments: seq<Segment>, i: nat)
    requires RunsOn(c, segments) && RunsOn(e, segments) && i < |c.parts| && i < |e.parts|
    requires c.parts[0].segment == e.parts[0].segment && c.parts[0].start == e.parts[0].start
    ensures c.parts[i].segment == e.parts[i].segment && c.parts[i].start == e.parts[i].start
    ensures i < |c.parts| - 1 && i < |e.parts| - 1 ==> c.parts[i].end == e.parts[i].end
  {
    hide InkStart, InkEnd;
    if i > 0 {
      SamePlaces(c, e, segments, i - 1);
      assert Steps(c.parts[i - 1], c.parts[i], segments) && Steps(e.parts[i - 1], e.parts[i], segments);
    }
    if i < |c.parts| - 1 && i < |e.parts| - 1 {
      assert Steps(c.parts[i], c.parts[i + 1], segments) && Steps(e.parts[i], e.parts[i + 1], segments);
    }
  }

  lemma SamePart(p: Part, q: Part, segments: seq<Segment>)
    requires PartValid(p, segments) && PartValid(q, segments)
    requires p.segment == q.segment && p.start == q.start && p.end == q.end
    ensures p == q
  {
  }

  /** The parts before the last of either chunk agree. */
  lemma SameBefore(c: Chunk, e: Chunk, segments: seq<Segment>, max: nat, n: nat)
    requires Fits(c, segments, max) && Fits(e, segments, max) && n < |c.parts| && n < |e.parts|
    requires c.parts[0].segment == e.parts[0].segment && c.parts[0].start == e.parts[0].start
    ensures c.parts[..n] == e.parts[..n]
    ensures c.parts[n].segment == e.parts[n].segment && c.parts[n].start == e.parts[n].start
  {
    hide InkStart, InkEnd, Rendered, PartValid, StopsThere, RunsOn, Blank, OnePerSegment;
    SamePlaces(c, e, segments, n);
    forall i | 0 <= i < n ensures c.parts[i] == e.parts[i] {
      SamePlaces(c, e, segments, i);
      assert c.parts[i] in c.parts && e.parts[i] in e.parts;
      SamePart(c.parts[i], e.parts[i], segments);
    }
  }

  /** A chunk of a solution is decided by where it starts. */
  lemma Determined(c: Chunk, e: Chunk, segments: seq<Segment>, max: nat)
    requires Fits(c, segments, max) && Fits(e, segments, max)
    requires c.parts[0].segment == e.parts[0].segment && c.parts[0].start == e.parts[0].start
    ensures c == e
  {
    hide InkStart, InkEnd, Rendered, PartValid, RunsOn, Blank, Whitespace, Bytes, OnePerSegment;
    if |c.parts| <= |e.parts| { EndsAlike(c, e, segments, max); } else { EndsAlike(e, c, segments, max); }
  }

  lemma PartsAreValid(c: Chunk, segments: seq<Segment>, max: nat, i: nat)
    requires Fits(c, segments, max) && i < |c.parts|
    ensures PartValid(c.parts[i], segments)
  {
    hide Rendered, Blank, PartValid, Bytes, OnePerSegment, RunsOn, StopsThere;
    assert c.parts[i] in c.parts;
  }

  lemma SamePartsSameChunk(c: Chunk, e: Chunk, segments: seq<Segment>, max: nat)
    requires Fits(c, segments, max) && Fits(e, segments, max) && c.parts == e.parts
    ensures c == e
  {
    hide InkStart, InkEnd, Rendered, PartValid, RunsOn, Blank, Whitespace, Bytes, OnePerSegment, GlyphAt;
  }

  lemma EndsAlike(c: Chunk, e: Chunk, segments: seq<Segment>, max: nat)
    requires Fits(c, segments, max) && Fits(e, segments, max) && |c.parts| <= |e.parts|
    requires c.parts[0].segment == e.parts[0].segment && c.parts[0].start == e.parts[0].start
    ensures c == e
  {
    hide InkStart, InkEnd, Rendered, Blank, Whitespace, Bytes, OnePerSegment, CleanCut, PartValid, StopsThere;
    var m := |c.parts| - 1;
    SameBefore(c, e, segments, max, m);
    CannotGrow(c, e, segments, max);
    var p, q := c.parts[m], e.parts[m];
    PartsAreValid(c, segments, max, m);
    PartsAreValid(e, segments, max, m);
    if |c.parts| < |e.parts| {
      assert Steps(q, e.parts[m + 1], segments);
      SamePart(p, q, segments);
      assert c.parts == e.parts[..m] + [q] == e.parts[..m + 1];
      CannotGoOn(c, e, segments, max);
    } else {
      CannotGrow(e, c, segments, max);
      SamePart(p, q, segments);
      assert c.parts == c.parts[..m] + [p] && e.parts == e.parts[..m] + [q];
      SamePartsSameChunk(c, e, segments, max);
    }
  }

  /* ---- from the list to its chunks ---- */

  lemma {:induction false} AllPartsPrefix(chunks: seq<Chunk>, k: nat) returns (rest: seq<Part>)
    requires k <= |chunks|
    ensures AllParts(chunks) == AllParts(chunks[..k]) + rest
    decreases |chunks|
  {
    if k == |chunks| {
      assert chunks[..k] == chunks;
      rest := [];
    } else {
      var n := |chunks| - 1;
      var earlier := AllPartsPrefix(chunks[..n], k);
      assert chunks[..n][..k] == chunks[..k];
      rest := earlier + chunks[n].parts;
    }
  }

  /** Part i of chunk k, and the part after it, among all parts. */
  lemma PartAt(chunks: seq<Chunk>, k: nat, i: nat) returns (at: nat)
    requires k < |chunks| && i < |chunks[k].parts| && forall j :: 0 <= j < |chunks| ==> chunks[j].parts != []
    ensures at < |AllParts(chunks)| && AllParts(chunks)[at] == chunks[k].parts[i] && (k == 0 && i == 0 ==> at == 0)
    ensures if i + 1 < |chunks[k].parts| then
              at + 1 < |AllParts(chunks)| && AllParts(chunks)[at + 1] == chunks[k].parts[i + 1]
            else if k + 1 < |chunks| then
              at + 1 < |AllParts(chunks)| && AllParts(chunks)[at + 1] == chunks[k + 1].parts[0]
            else at + 1 == |AllParts(chunks)|
  {
    at := |AllParts(chunks[..k])| + i;
    assert chunks[..k + 1][..k] == chunks[..k];
    var rest := AllPartsPrefix(chunks, k + 1);
    if k + 1 < |chunks| {
      assert chunks[..k + 2][..k + 1] == chunks[..k + 1];
      var later := AllPartsPrefix(chunks, k + 2);
    } else {
      assert chunks[..k + 1] == chunks;
    }
  }

  /** In parts that cover the document none reaches into trailing whitespace, and a segment is left at its end. */
  lemma {:induction false} PartsStayInInk(parts: seq<Part>, segments: seq<Segment>, i: nat)
    requires Covers(parts, segments) && (forall q :: q in parts ==> InText(q, segments)) && i < |parts|
    ensures parts[i].segment < |segments| && parts[i].end <= InkEnd(segments[parts[i].segment].text)
    ensures i + 1 < |parts| && parts[i + 1].segment != parts[i].segment ==> Steps(parts[i], parts[i + 1], segments)
    ensures i + 1 < |parts| && parts[i + 1].segment == parts[i].segment ==>
              parts[i].end == parts[i + 1].start && parts[i].end < InkEnd(segments[parts[i].segment].text)
    decreases |parts| - i
  {
    hide InkStart, InkEnd;
    assert parts[i] in parts;
    if i + 1 < |parts| {
      PartsStayInInk(parts, segments, i + 1);
      assert parts[i + 1] in parts;
      assert Joins(parts[i], parts[i + 1].segment, parts[i + 1].start, segments);
    }
  }

  lemma PartsInText(chunks: seq<Chunk>, segments: seq<Segment>, max: nat)
    requires forall c :: c in chunks ==> ChunkValid(c, segments, max)
    ensures forall q :: q in AllParts(chunks) ==> InText(q, segments)
  {
    hide Rendered, Blank, CleanCut;
    if chunks != [] {
      var n := |chunks| - 1;
      PartsInText(chunks[..n], segments, max);
      assert chunks[n] in chunks;
    }
  }

  lemma ChunkRunsOn(chunks: seq<Chunk>, segments: seq<Segment>, max: nat, k: nat)
    requires Solution(chunks, segments, max) && k < |chunks|
    ensures RunsOn(chunks[k], segments)
  {
    hide ChunkValid, Stops, InkStart, InkEnd, Covers;
    PartsInText(chunks, segments, max);
    var parts := chunks[k].parts;
    forall i | 0 <= i < |parts|
      ensures parts[i].segment < |segments| && parts[i].end <= InkEnd(segments[parts[i].segment].text)
      ensures i + 1 < |parts| ==> Steps(parts[i], parts[i + 1], segments)
    {
      var at := PartAt(chunks, k, i);
      assert AllParts(chunks)[at] in AllParts(chunks);
      PartsStayInInk(AllParts(chunks), segments, at);
    }
  }

  /** A chunk's content starts with the character its first part starts with. */
  lemma FirstGlyph(c: Chunk, segments: seq<Segment>, max: nat)
    requires ChunkValid(c, segments, max)
    ensures c.content != [] && InText(c.parts[0], segments)
    ensures c.content[0] == GlyphAt(segments[c.parts[0].segment].text, c.parts[0].start)
  {
    hide Collapse, Whitespace, Blank, CleanCut, Rendered, GlyphAt;
    assert c.parts[0] in c.parts && PartValid(c.parts[0], segments);
    var rest := RenderedPrefix(c.parts, segments, 1);
    RenderedLast(c.parts[..1], segments);
    SliceStarts(c.parts[0], segments);
  }

  /** Every chunk of a solution fits, and the next one starts where it must. */
  lemma ChunkFits(chunks: seq<Chunk>, segments: seq<Segment>, max: nat, k: nat)
    requires Solution(chunks, segments, max) && Inked(segments) && k < |chunks|
    ensures Fits(chunks[k], segments, max)
    ensures k == 0 ==> chunks[k].parts[0].segment == 0 && chunks[k].parts[0].start == InkStart(segments[0].text)
    ensures NextPosition(chunks[k], segments)
      == if k + 1 < |chunks| then Position(chunks[k + 1].parts[0].segment, chunks[k + 1].parts[0].start) else AtEnd
  {
    hide InkStart, InkEnd, Rendered, Blank, Whitespace, Bytes, CleanCut, Stops, GlyphAt, OnePerSegment;
    PartsInText(chunks, segments, max);
    ChunkRunsOn(chunks, segments, max, k);
    assert chunks[k] in chunks;
    var c := chunks[k];
    var at := PartAt(chunks, k, |c.parts| - 1);
    PartsStayInInk(AllParts(chunks), segments, at);
    if k == 0 { var first := PartAt(chunks, 0, 0); }
    if k + 1 < |chunks| {
      var d := chunks[k + 1];
      assert d in chunks;
      assert d.parts[0] in d.parts && InText(d.parts[0], segments);
      FirstGlyph(d, segments, max);
      assert Stops(c, d.parts[0].segment, d.content[0], segments, max);
    }
  }

  /**
   * Any two solutions are the same: where a chunk ends is decided by the bounds, so the chunks agree one after the
   * other.
   */
  lemma {:induction false} SolutionsAgree(a: seq<Chunk>, b: seq<Chunk>, segments: seq<Segment>, max: nat, k: nat)
    requires Solution(a, segments, max) && Solution(b, segments, max) && Inked(segments) && k < |a|
    ensures k < |b| && a[k] == b[k] && (k + 1 < |a| <==> k + 1 < |b|)
  {
    hide Solution, Fits, NextPosition, InkStart, Inked;
    SolutionHasChunks(b, segments, max);
    if k > 0 {
      SolutionsAgree(a, b, segments, max, k - 1);
      ChunkFits(a, segments, max, k - 1);
      ChunkFits(b, segments, max, k - 1);
    }
    ChunkFits(a, segments, max, k);
    ChunkFits(b, segments, max, k);
    Determined(a[k], b[k], segments, max);
  }

  lemma SolutionHasChunks(chunks: seq<Chunk>, segments: seq<Segment>, max: nat)
    requires Solution(chunks, segments, max)
    ensures chunks != [] && forall k :: 0 <= k < |chunks| ==> chunks[k].parts != []
  {
    hide Stops, ChunkValid, Linked;
  }

  lemma SolutionIsUnique(a: seq<Chunk>, b: seq<Chunk>, segments: seq<Segment>, max: nat)
    requires Solution(a, segments, max) && Solution(b, segments, max) && Inked(segments)
    ensures a == b
  {
    hide Solution, Inked;
    SolutionHasChunks(a, segments, max);
    SolutionHasChunks(b, segments, max);
    SolutionsAgree(a, b, segments, max, |a| - 1);
    forall k | 0 <= k < |a| ensures a[k] == b[k] { SolutionsAgree(a, b, segments, max, k); }
  }

  /** The chunks of the loop are the only solution. */
  lemma ChunksAreTheSolution(segments: seq<Segment>, max: nat, chunks: seq<Chunk>)
    requires max >= 5 && segments != [] && Inked(segments)
    ensures Solution(chunks, segments, max) <==> chunks == Chunks(segments, max)
  {
    hide Solution, Inked, Chunks;
    ChunksAreGreedy(segments, max);
    if Solution(chunks, segments, max) { SolutionIsUnique(chunks, Chunks(segments, max), segments, max); }
  }
}
