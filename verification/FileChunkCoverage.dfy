/** What the chunks of a document keep of its text: complete coverage, reassembly and its exact bound. */
module FileChunkCoverage {
  import opened Unicode
  import opened FileContract
  import opened FileChunker

  /* ---- the parts of the chunks, in order ---- */

  function AllParts(chunks: seq<Chunk>): seq<Part> {
    if chunks == [] then [] else AllParts(chunks[..|chunks| - 1]) + chunks[|chunks| - 1].parts
  }

  /** All parts placed so far, finished or not. */
  function Placed(p: Packer): seq<Part> {
    AllParts(p.chunks) + p.parts
  }

  /** A part continues where p stops: in the same segment, or from the end of one segment to the start of the next. */
  ghost predicate Joins(p: Part, segment: nat, start: nat, segments: seq<Segment>) {
    || (p.segment == segment && p.end == start)
    || (p.segment + 1 == segment < |segments|
        && p.end == InkEnd(segments[p.segment].text) && start == InkStart(segments[segment].text))
  }

  ghost predicate Linked(parts: seq<Part>, segments: seq<Segment>) {
    && (parts != [] ==> segments != [] && parts[0].segment == 0 && parts[0].start == InkStart(segments[0].text))
    && (forall i :: 0 <= i < |parts| - 1 ==> Joins(parts[i], parts[i + 1].segment, parts[i + 1].start, segments))
  }

  /** The parts run without gaps from the first inked code point up to position `at` of segment `index`. */
  ghost predicate Reaches(parts: seq<Part>, segments: seq<Segment>, index: nat, at: nat) {
    && index < |segments| && Linked(parts, segments)
    && (if parts == [] then index == 0 && at == InkStart(segments[0].text)
        else Joins(parts[|parts| - 1], index, at, segments))
  }

  /** The parts cover the whole document, from its first to its last inked code point. */
  ghost predicate Covers(parts: seq<Part>, segments: seq<Segment>) {
    && parts != [] && segments != [] && Linked(parts, segments)
    && parts[|parts| - 1].segment == |segments| - 1
    && parts[|parts| - 1].end == InkEnd(segments[|segments| - 1].text)
  }

  /** The slices put back together: parts of one segment run on, segments are separated by newlines. */
  function Reassembled(parts: seq<Part>, segments: seq<Segment>): Text {
    if parts == [] then []
    else
      var n := |parts| - 1;
      (if n == 0 then []
       else Reassembled(parts[..n], segments) + (if parts[n - 1].segment == parts[n].segment then [] else [NEWLINE]))
      + Slice(parts[n], segments)
  }

  /** The trimmed segments with whitespace runs collapsed, one per line. */
  function Normalised(segments: seq<Segment>): Text {
    if segments == [] then []
    else
      var n := |segments| - 1;
      (if n == 0 then [] else Normalised(segments[..n]) + [NEWLINE])
      + NormalisedUpTo(segments[n].text, InkEnd(segments[n].text))
  }

  function NormalisedUpTo(t: Text, at: nat): Text {
    if InkStart(t) <= at <= |t| then Collapse(t[InkStart(t)..at]) else []
  }

  /** The normalised document up to position `at` of segment `index`. */
  function Prefix(segments: seq<Segment>, index: nat, at: nat): Text
    requires index < |segments|
  {
    (if index == 0 then [] else Normalised(segments[..index]) + [NEWLINE]) + NormalisedUpTo(segments[index].text, at)
  }

  /** Everything before position `at` of segment `index` is placed, and reads back as the normalised document. */
  ghost predicate Faithful(parts: seq<Part>, segments: seq<Segment>, index: nat, at: nat) {
    && Reaches(parts, segments, index, at)
    && (if parts != [] && parts[|parts| - 1].segment == index
        then Reassembled(parts, segments) == Prefix(segments, index, at)
        else at == InkStart(segments[index].text) && Reassembled(parts, segments) == Normalised(segments[..index]))
  }

  lemma PrefixGrows(segments: seq<Segment>, index: nat, u: Unit)
    requires index < |segments| && InkStart(segments[index].text) <= u.start
    requires Ink(segments[index].text, u) || Space(segments[index].text, u)
    ensures Prefix(segments, index, u.end) == Prefix(segments, index, u.start) + [u.glyph]
  {
    CollapseGrows(segments[index].text, InkStart(segments[index].text), u);
  }

  lemma ReassembledGrows(parts: seq<Part>, segments: seq<Segment>, end: nat, c: CodePoint)
    requires parts != []
    requires Slice(parts[|parts| - 1].(end := end), segments) == Slice(parts[|parts| - 1], segments) + [c]
    ensures Reassembled(Grow(parts, end), segments) == Reassembled(parts, segments) + [c]
  {
    var n := |parts| - 1;
    assert Grow(parts, end)[..n] == parts[..n];
  }

  lemma GrownReaches(parts: seq<Part>, segments: seq<Segment>, index: nat, end: nat)
    requires index < |segments| && Linked(parts, segments) && parts != [] && parts[|parts| - 1].segment == index
    ensures Reaches(Grow(parts, end), segments, index, end)
  {
    var n, grown := |parts| - 1, Grow(parts, end);
    forall i | 0 <= i < n
      ensures Joins(grown[i], grown[i + 1].segment, grown[i + 1].start, segments)
    {
      assert Joins(parts[i], parts[i + 1].segment, parts[i + 1].start, segments);
    }
  }

  lemma GrowIsFaithful(parts: seq<Part>, segments: seq<Segment>, index: nat, u: Unit)
    requires Faithful(parts, segments, index, u.start) && InkStart(segments[index].text) <= u.start
    requires Ink(segments[index].text, u) || Space(segments[index].text, u)
    requires parts != [] && parts[|parts| - 1].segment == index && InText(parts[|parts| - 1], segments)
    ensures Faithful(Grow(parts, u.end), segments, index, u.end)
  {
    var last := parts[|parts| - 1];
    assert last.end == u.start;
    SliceGrows(last, segments, u);
    PrefixGrows(segments, index, u);
    ReassembledGrows(parts, segments, u.end, u.glyph);
    GrownReaches(parts, segments, index, u.end);
  }

  lemma StartIsFaithful(parts: seq<Part>, segments: seq<Segment>, index: nat, u: Unit, part: Part)
    requires Faithful(parts, segments, index, u.start) && InkStart(segments[index].text) <= u.start
    requires Ink(segments[index].text, u) || Space(segments[index].text, u)
    requires part.segment == index && part.start == u.start && part.end == u.end
    ensures Faithful(parts + [part], segments, index, u.end)
  {
    hide Whitespace, Collapse, InkStart, InkEnd;
    var n, longer := |parts|, parts + [part];
    assert longer[..n] == parts;
    SliceGrows(part.(end := u.start), segments, u);
    assert part.(end := u.start).(end := u.end) == part;
    PrefixGrows(segments, index, u);
    NothingBefore(segments[index].text);
    AddedReaches(parts, segments, index, u.start, part);
    if n == 0 {
      assert segments[..index] == [];
    }
  }

  lemma NothingBefore(t: Text)
    ensures NormalisedUpTo(t, InkStart(t)) == []
  {
    if InkStart(t) <= |t| { assert t[InkStart(t)..InkStart(t)] == []; }
  }

  lemma AddedReaches(parts: seq<Part>, segments: seq<Segment>, index: nat, start: nat, part: Part)
    requires Reaches(parts, segments, index, start) && part.segment == index && part.start == start
    ensures Reaches(parts + [part], segments, index, part.end)
  {
    hide InkStart, InkEnd;
    var n, longer := |parts|, parts + [part];
    forall i | 0 <= i < n
      ensures Joins(longer[i], longer[i + 1].segment, longer[i + 1].start, segments)
    {
      if i + 1 < n { assert Joins(parts[i], parts[i + 1].segment, parts[i + 1].start, segments); }
    }
  }

  /* ---- no text is dropped from five bytes up ---- */

  /** The content could be flushed without loss, except for a lone space that still waits for its next character. */
  ghost predicate Flushable(p: Packer, afterSpace: bool) {
    p.content == [] || !Blank(p.content) || (p.content == [SPACE] && afterSpace)
  }

  lemma FlushKeepsPlaced(p: Packer)
    requires p.content == [] ==> p.parts == []
    requires p.content == [] || !Blank(p.content)
    ensures Placed(Flush(p)) == Placed(p)
  {
    if p.content != [] {
      var c := Chunk(p.content, if p.parts == [] then [] else p.parts[0].headingPath, p.parts);
      assert (p.chunks + [c])[..|p.chunks|] == p.chunks;
    } else {
      assert p.chunks + [] == p.chunks;
    }
  }

  lemma OneSpaceIsOneByte()
    ensures Bytes([SPACE]) == 1
  {
    assert [SPACE][..0] == [];
  }

  lemma AddIsFaithful(p: Packer, segments: seq<Segment>, index: nat, u: Unit, max: nat, afterSpace: bool)
    requires max >= 5 && index < |segments| && Laid(p, segments, max)
    requires InkStart(segments[index].text) <= u.start
    requires if afterSpace then Ink(segments[index].text, u)
             else Ink(segments[index].text, u) || Space(segments[index].text, u)
    requires Inside(p, index, u.start) && Flushable(p, afterSpace)
    requires Faithful(Placed(p), segments, index, u.start)
    ensures var q := AddUnit(p, segments[index], index, u, max);
            Faithful(Placed(q), segments, index, u.end) && Flushable(q, Space(segments[index].text, u))
  {
    hide Whitespace, Faithful, Blank, AllParts, ChunkValid, PartValid, ContentMatches;
    var q := if Bytes(p.content) + Width(u.glyph) > max then Flush(p) else p;
    if q != p {
      OneSpaceIsOneByte();
      FlushKeepsPlaced(p);
      FlushKeepsLaid(p, segments, max);
    }
    AddStaysFlushable(q, u, afterSpace);
    PlaceIsFaithful(q, segments, index, u, max);
  }

  /** A unit that fits is placed by growing the open part or by starting one. */
  lemma PlaceIsFaithful(q: Packer, segments: seq<Segment>, index: nat, u: Unit, max: nat)
    requires index < |segments| && Laid(q, segments, max)
    requires InkStart(segments[index].text) <= u.start && Inside(q, index, u.start)
    requires Ink(segments[index].text, u) || Space(segments[index].text, u)
    requires Faithful(Placed(q), segments, index, u.start)
    ensures var s := segments[index];
            Faithful(AllParts(q.chunks) + (if q.open && q.parts != [] then Grow(q.parts, u.end)
                       else q.parts + [Part(index, u.start, u.end, s.location, s.headingPath)]),
                     segments, index, u.end)
  {
    hide Whitespace, Collapse, InkStart, InkEnd, Faithful, AllParts, Grow, ChunkValid, ContentMatches;
    var s, parts, earlier := segments[index], q.parts, AllParts(q.chunks);
    if q.open && parts != [] {
      assert parts[|parts| - 1] in parts;
      PlaceByGrowing(earlier, parts, segments, index, u);
    } else {
      var part := Part(index, u.start, u.end, s.location, s.headingPath);
      StartIsFaithful(earlier + parts, segments, index, u, part);
      assert earlier + (parts + [part]) == earlier + parts + [part];
    }
  }

  lemma PlaceByGrowing(earlier: seq<Part>, parts: seq<Part>, segments: seq<Segment>, index: nat, u: Unit)
    requires Faithful(earlier + parts, segments, index, u.start) && InkStart(segments[index].text) <= u.start
    requires Ink(segments[index].text, u) || Space(segments[index].text, u)
    requires parts != [] && parts[|parts| - 1].segment == index && InText(parts[|parts| - 1], segments)
    ensures Faithful(earlier + Grow(parts, u.end), segments, index, u.end)
  {
    assert (earlier + parts)[|earlier + parts| - 1] == parts[|parts| - 1];
    GrowIsFaithful(earlier + parts, segments, index, u);
    assert earlier + Grow(parts, u.end) == Grow(earlier + parts, u.end);
  }

  lemma AddStaysFlushable(q: Packer, u: Unit, afterSpace: bool)
    requires Flushable(q, afterSpace) && (afterSpace ==> !Whitespace(u.glyph))
    ensures !Blank(q.content + [u.glyph]) || (q.content == [] && Whitespace(u.glyph))
  {
    if !Whitespace(u.glyph) {
      assert (q.content + [u.glyph])[|q.content|] == u.glyph;
    } else if q.content != [] {
      var k :| 0 <= k < |q.content| && !Whitespace(q.content[k]);
      assert (q.content + [u.glyph])[k] == q.content[k];
    }
  }

  lemma {:induction false} PackIsFaithful(p: Packer, segments: seq<Segment>, index: nat, us: seq<Unit>, max: nat)
    requires max >= 5 && index < |segments| && Laid(p, segments, max) && !p.open && |p.parts| < MAX_PARTS
    requires forall k :: 0 <= k < |us| ==> Ink(segments[index].text, us[k]) || Space(segments[index].text, us[k])
    requires forall k :: 0 <= k < |us| - 1 ==> us[k].end == us[k + 1].start
    requires us != [] && us[0].start == InkStart(segments[index].text)
    requires Faithful(Placed(p), segments, index, us[0].start) && Flushable(p, false)
    ensures var q := PackUnits(p, segments[index], index, us, max);
            && us[0].start < us[|us| - 1].end
            && Faithful(Placed(q), segments, index, us[|us| - 1].end)
            && Flushable(q, Space(segments[index].text, us[|us| - 1]))
  {
    hide Whitespace, Faithful, Flushable, Laid, AddUnit, InkStart, InkEnd;
    var n := |us| - 1;
    var before := PackUnits(p, segments[index], index, us[..n], max);
    PackKeepsLaid(p, segments, index, us[..n], max);
    if n > 0 {
      PackIsFaithful(p, segments, index, us[..n], max);
      AddIsFaithful(before, segments, index, us[n], max, Space(segments[index].text, us[n - 1]));
    } else {
      AddIsFaithful(before, segments, index, us[n], max, false);
    }
  }

  lemma BeginIsFaithful(p: Packer, segments: seq<Segment>, index: nat, max: nat)
    requires Laid(p, segments, max) && (p.content == [] || !Blank(p.content))
    ensures Placed(BeginSegment(p, max)) == Placed(p) && Flushable(BeginSegment(p, max), false)
  {
    var q := if |p.parts| >= MAX_PARTS then Flush(p) else p;
    FlushKeepsPlaced(p);
    FlushKeepsPlaced(q);
    if q.content != [] {
      var k :| 0 <= k < |q.content| && !Whitespace(q.content[k]);
      assert (q.content + [NEWLINE])[k] == q.content[k];
    }
  }

  /** After the first n segments exactly their text is placed, and nothing blank waits to be flushed. */
  ghost predicate Done(p: Packer, segments: seq<Segment>, n: nat)
    requires n <= |segments|
  {
    && (p.content == [] || !Blank(p.content))
    && (if n == 0 then p == EMPTY
        else Faithful(Placed(p), segments, n - 1, InkEnd(segments[n - 1].text)) && Placed(p) != []
             && Placed(p)[|Placed(p)| - 1].segment == n - 1)
  }

  lemma SegmentIsPlaced(b: Packer, segments: seq<Segment>, index: nat, max: nat)
    requires max >= 5 && index < |segments| && Inked(segments)
    requires Laid(b, segments, max) && !b.open && |b.parts| < MAX_PARTS && Flushable(b, false)
    requires Faithful(Placed(b), segments, index, InkStart(segments[index].text))
    ensures var q := PackUnits(b, segments[index], index, Units(segments[index].text, 0), max);
            && (q.content == [] || !Blank(q.content))
            && Faithful(Placed(q), segments, index, InkEnd(segments[index].text))
            && Placed(q) != [] && Placed(q)[|Placed(q)| - 1].segment == index
  {
    var t, us := segments[index].text, Units(segments[index].text, 0);
    UnitsOfText(t);
    PackIsFaithful(b, segments, index, us, max);
    PackKeepsLaid(b, segments, index, us, max);
    assert !Space(t, us[|us| - 1]);
  }

  lemma NothingIsFaithful(segments: seq<Segment>)
    requires segments != []
    ensures Faithful([], segments, 0, InkStart(segments[0].text))
  {
    assert segments[..0] == [];
  }

  lemma SegmentIsDone(p: Packer, segments: seq<Segment>, index: nat, n: nat, max: nat)
    requires max >= 5 && n == index + 1 && n <= |segments| && Inked(segments)
    requires Laid(p, segments, max) && (p.open || p.parts == []) && Done(p, segments, index)
    ensures Done(AddSegment(p, segments[index], index, max), segments, n)
  {
    hide Units, PackUnits, BeginSegment, Laid, Faithful, Blank;
    BeginKeepsLaid(p, segments, max);
    BeginIsFaithful(p, segments, index, max);
    if index > 0 {
      StartOfNext(Placed(p), segments, index);
    } else {
      NothingIsFaithful(segments);
    }
    SegmentIsPlaced(BeginSegment(p, max), segments, index, max);
  }

  /** Where one segment is completely placed the next may start. */
  lemma StartOfNext(parts: seq<Part>, segments: seq<Segment>, index: nat)
    requires 0 < index < |segments| && parts != [] && parts[|parts| - 1].segment == index - 1
    requires Faithful(parts, segments, index - 1, InkEnd(segments[index - 1].text))
    ensures Faithful(parts, segments, index, InkStart(segments[index].text))
  {
    hide Whitespace, Collapse;
    assert segments[..index][..index - 1] == segments[..index - 1];
  }

  lemma NothingIsDone(segments: seq<Segment>)
    ensures Done(EMPTY, segments, 0)
  {
  }

  lemma {:induction false} PackedIsDone(segments: seq<Segment>, n: nat, max: nat)
    requires max >= 5 && n <= |segments| && Inked(segments)
    ensures Done(PackSegments(segments, n, max), segments, n)
  {
    hide AddSegment, Laid, Done, Inked;
    if n == 0 {
      NothingIsDone(segments);
    } else {
      var index := n - 1;
      PackedIsDone(segments, index, max);
      PackedIsLaid(segments, index, max);
      SegmentIsDone(PackSegments(segments, index, max), segments, index, n, max);
    }
  }

  /** From five bytes up the parts cover the whole document and read back as its normalised text. */
  lemma DocumentIsCovered(segments: seq<Segment>, max: nat)
    requires max >= 5 && segments != [] && Inked(segments)
    ensures Covers(AllParts(Chunks(segments, max)), segments)
    ensures Reassembled(AllParts(Chunks(segments, max)), segments) == Normalised(segments)
  {
    hide Whitespace, InkStart, InkEnd, PackSegments, Faithful, Covers, Reassembled, Normalised, Blank;
    var n := |segments|;
    var p := PackSegments(segments, n, max);
    PackedIsDone(segments, n, max);
    PackedIsLaid(segments, n, max);
    FlushKeepsPlaced(p);
    assert Placed(Flush(p)) == AllParts(Chunks(segments, max));
    LastPartEnds(Placed(p), segments);
  }

  lemma LastPartEnds(parts: seq<Part>, segments: seq<Segment>)
    requires segments != [] && parts != [] && parts[|parts| - 1].segment == |segments| - 1
    requires Faithful(parts, segments, |segments| - 1, InkEnd(segments[|segments| - 1].text))
    ensures Covers(parts, segments) && Reassembled(parts, segments) == Normalised(segments)
  {
  }

  /* ---- four bytes: a lone space can be dropped, other text cannot ---- */

  function InkOfChunks(chunks: seq<Chunk>): Text {
    if chunks == [] then [] else InkOfChunks(chunks[..|chunks| - 1]) + InkOf(chunks[|chunks| - 1].content)
  }

  function InkOfSegments(segments: seq<Segment>): Text {
    if segments == [] then [] else InkOfSegments(segments[..|segments| - 1]) + InkOf(segments[|segments| - 1].text)
  }

  function Inkwell(p: Packer): Text {
    InkOfChunks(p.chunks) + InkOf(p.content)
  }

  lemma FlushKeepsInk(p: Packer)
    ensures Inkwell(Flush(p)) == Inkwell(p)
  {
    if Blank(p.content) {
      InkOfBlank(p.content);
      assert p.chunks + [] == p.chunks;
    } else {
      var c := Chunk(p.content, if p.parts == [] then [] else p.parts[0].headingPath, p.parts);
      assert (p.chunks + [c])[..|p.chunks|] == p.chunks;
    }
  }

  lemma AddKeepsInk(p: Packer, segment: Segment, index: nat, u: Unit, max: nat)
    ensures Inkwell(AddUnit(p, segment, index, u, max)) == Inkwell(p) + InkOf([u.glyph])
  {
    var q := if Bytes(p.content) + Width(u.glyph) > max then Flush(p) else p;
    FlushKeepsInk(p);
    InkOfJoined(q.content, [u.glyph]);
  }

  lemma InkOfUnit(t: Text, u: Unit)
    requires Ink(t, u) || Space(t, u)
    ensures InkOf(t[u.start..u.end]) == InkOf([u.glyph])
  {
    if Space(t, u) {
      InkOfBlank(t[u.start..u.end]);
      InkOfBlank([u.glyph]);
    } else {
      assert t[u.start..u.end] == [u.glyph];
    }
  }

  lemma InkOfExtended(t: Text, from: nat, u: Unit)
    requires from <= u.start && (Ink(t, u) || Space(t, u))
    ensures InkOf(t[from..u.end]) == InkOf(t[from..u.start]) + InkOf([u.glyph])
  {
    assert t[from..u.end] == t[from..u.start] + t[u.start..u.end];
    InkOfJoined(t[from..u.start], t[u.start..u.end]);
    InkOfUnit(t, u);
  }

  /** A gapless run of units from `from` to `end`. */
  ghost predicate UnitsRun(t: Text, us: seq<Unit>, from: nat, end: nat) {
    && from <= end <= |t|
    && (forall k :: 0 <= k < |us| ==> (Ink(t, us[k]) || Space(t, us[k])) && from <= us[k].start)
    && (forall k :: 0 <= k < |us| - 1 ==> us[k].end == us[k + 1].start)
    && (if us == [] then end == from else us[0].start == from && us[|us| - 1].end == end)
  }

  lemma {:induction false} PackKeepsInk(
    p: Packer, segment: Segment, index: nat, us: seq<Unit>, max: nat, from: nat, end: nat)
    requires UnitsRun(segment.text, us, from, end)
    ensures Inkwell(PackUnits(p, segment, index, us, max)) == Inkwell(p) + InkOf(segment.text[from..end])
  {
    hide AddUnit, Whitespace, Inkwell;
    var t := segment.text;
    if us == [] {
      assert t[from..end] == [];
    } else {
      var n := |us| - 1;
      var u, shorter := us[n], us[..n];
      assert UnitsRun(t, shorter, from, u.start);
      PackKeepsInk(p, segment, index, shorter, max, from, u.start);
      AddKeepsInk(PackUnits(p, segment, index, shorter, max), segment, index, u, max);
      InkOfExtended(t, from, u);
    }
  }

  lemma TiledUnitsRun(t: Text, us: seq<Unit>, from: nat)
    requires UnitsTile(t, us, from) && from <= InkEnd(t)
    ensures UnitsRun(t, us, from, InkEnd(t))
  {
    forall k | 0 <= k < |us|
      ensures from <= us[k].start
    {
      UnitStartsAfter(t, us, from, k);
    }
  }

  lemma {:induction false} UnitStartsAfter(t: Text, us: seq<Unit>, from: nat, k: nat)
    requires UnitsTile(t, us, from) && k < |us|
    ensures from <= us[k].start
  {
    if k > 0 {
      UnitStartsAfter(t, us, from, k - 1);
      assert us[k - 1].end == us[k].start;
    }
  }

  lemma InkOfTrimmed(t: Text, start: nat, end: nat)
    requires start <= end <= |t| && Blank(t[..start]) && Blank(t[end..])
    ensures InkOf(t) == InkOf(t[start..end])
  {
    assert t == t[..start] + t[start..end] + t[end..];
    InkOfJoined(t[..start] + t[start..end], t[end..]);
    InkOfJoined(t[..start], t[start..end]);
    InkOfBlank(t[..start]);
    InkOfBlank(t[end..]);
  }

  lemma BeginKeepsInk(p: Packer, max: nat)
    ensures Inkwell(BeginSegment(p, max)) == Inkwell(p)
  {
    var q := if |p.parts| >= MAX_PARTS then Flush(p) else p;
    FlushKeepsInk(p);
    FlushKeepsInk(q);
    InkOfJoined(q.content, [NEWLINE]);
    InkOfBlank([NEWLINE]);
  }

  lemma BlankEnds(t: Text)
    ensures InkStart(t) <= |t| && Blank(t[..InkStart(t)]) && Blank(t[InkEnd(t)..])
  {
    hide Whitespace;
  }

  lemma SegmentKeepsInk(p: Packer, segments: seq<Segment>, n: nat, max: nat)
    requires 0 < n <= |segments| && Inked(segments)
    ensures Inkwell(AddSegment(p, segments[n - 1], n - 1, max)) == Inkwell(p) + InkOf(segments[n - 1].text)
  {
    var index := n - 1;
    var segment := segments[index];
    var t, us := segment.text, Units(segment.text, 0);
    hide Units, PackUnits, BeginSegment, Inkwell, InkOf, Whitespace, InkEnd, InkStart, UnitsRun, UnitsTile, Blank;
    UnitsOfText(t);
    TiledUnitsRun(t, us, InkStart(t));
    BeginKeepsInk(p, max);
    PackKeepsInk(BeginSegment(p, max), segment, index, us, max, InkStart(t), InkEnd(t));
    BlankEnds(t);
    InkOfTrimmed(t, InkStart(t), InkEnd(t));
  }

  /** Whatever the bound, the chunks hold every code point other than whitespace, in order and once. */
  lemma InkIsPreserved(segments: seq<Segment>, max: nat)
    requires Inked(segments)
    ensures InkOfChunks(Chunks(segments, max)) == InkOfSegments(segments)
  {
    PackedKeepsInk(segments, |segments|, max);
    FlushKeepsInk(PackSegments(segments, |segments|, max));
    assert segments[..|segments|] == segments;
  }

  lemma {:induction false} PackedKeepsInk(segments: seq<Segment>, n: nat, max: nat)
    requires Inked(segments) && n <= |segments|
    ensures Inkwell(PackSegments(segments, n, max)) == InkOfSegments(segments[..n])
  {
    hide AddSegment, Whitespace, InkOf, Blank;
    if n == 0 {
      InkOfNothing();
    } else {
      PackedKeepsInk(segments, n - 1, max);
      SegmentKeepsInk(PackSegments(segments, n - 1, max), segments, n, max);
      assert segments[..n][..n - 1] == segments[..n - 1];
    }
  }

  lemma InkOfNothing()
    ensures InkOf([]) == []
  {
  }

  /* ---- the exact bound ---- */

  /** Two four-byte code points around a space, in one segment. */
  const LONE_SPACE: seq<Segment> := [Segment([0x10000, 0x20, 0x10000], Lines(1, 1), [])]

  const FIRST_INK := Unit(0, 1, 0x10000)
  const INNER_SPACE := Unit(1, 2, SPACE)
  const LAST_INK := Unit(2, 3, 0x10000)

  lemma UnitsOfLoneSpace()
    ensures Units(LONE_SPACE[0].text, 0) == [FIRST_INK, INNER_SPACE, LAST_INK]
    ensures Inked(LONE_SPACE)
  {
    var t := LONE_SPACE[0].text;
    assert !Whitespace(t[0]) && Whitespace(t[1]) && !Whitespace(t[2]);
    assert RunEnd(t, 1) == 2;
    assert Units(t, 3) == [];
    assert Units(t, 2) == [LAST_INK];
    assert Units(t, 1) == [INNER_SPACE, LAST_INK];
  }

  function PartOfLoneSpace(u: Unit): Part {
    Part(0, u.start, u.end, LONE_SPACE[0].location, LONE_SPACE[0].headingPath)
  }

  /** With a four-byte bound each unit of the example overflows the chunk of the one before it. */
  lemma UnitsOverflow(p: Packer, u: Unit)
    requires p.content == [0x10000] || (p.content == [SPACE] && u == LAST_INK)
    ensures AddUnit(p, LONE_SPACE[0], 0, u, 4) == Packer(Flush(p).chunks, [u.glyph], [PartOfLoneSpace(u)], true)
  {
    assert p.content[..0] == [];
    assert Bytes(p.content) + Width(u.glyph) > 4;
    assert Flush(p).content + [u.glyph] == [u.glyph];
  }

  lemma FlushOfInk(p: Packer)
    requires p.content == [0x10000] && p.parts != []
    ensures Flush(p).chunks == p.chunks + [Chunk(p.content, p.parts[0].headingPath, p.parts)]
  {
    hide Whitespace;
    assert !Whitespace(p.content[0]) by { BigIsInk(); }
  }

  lemma BigIsInk()
    ensures !Whitespace(0x10000) && Whitespace(SPACE)
  {
  }

  lemma FlushOfSpace(p: Packer)
    requires p.content == [SPACE]
    ensures Flush(p).chunks == p.chunks
  {
    hide Whitespace;
    BigIsInk();
    assert p.chunks + [] == p.chunks;
  }

  lemma FirstOfLoneSpace()
    ensures AddUnit(EMPTY, LONE_SPACE[0], 0, FIRST_INK, 4) == Packer([], [0x10000], [PartOfLoneSpace(FIRST_INK)], true)
  {
  }

  /** The packer after each unit of the example. */
  lemma StepsOfLoneSpace(p1: Packer, p2: Packer, p3: Packer)
    requires var ink := [0x10000 as CodePoint];
             && p1 == Packer([], ink, [PartOfLoneSpace(FIRST_INK)], true)
             && p2 == Packer([Chunk(ink, [], p1.parts)], [SPACE], [PartOfLoneSpace(INNER_SPACE)], true)
             && p3 == Packer([Chunk(ink, [], p1.parts)], ink, [PartOfLoneSpace(LAST_INK)], true)
    ensures AddUnit(EMPTY, LONE_SPACE[0], 0, FIRST_INK, 4) == p1
    ensures AddUnit(p1, LONE_SPACE[0], 0, INNER_SPACE, 4) == p2
    ensures AddUnit(p2, LONE_SPACE[0], 0, LAST_INK, 4) == p3
    ensures Flush(p3).chunks == [Chunk(p1.content, [], p1.parts), Chunk(p1.content, [], p3.parts)]
  {
    hide Bytes, Whitespace, Blank, Flush, AddUnit;
    FirstOfLoneSpace();
    FlushOfInk(p1);
    FlushOfSpace(p2);
    FlushOfInk(p3);
    UnitsOverflow(p1, INNER_SPACE);
    UnitsOverflow(p2, LAST_INK);
  }

  lemma PackThree(segment: Segment, a: Unit, b: Unit, c: Unit, max: nat)
    requires Units(segment.text, 0) == [a, b, c]
    ensures AddSegment(EMPTY, segment, 0, max)
            == AddUnit(AddUnit(AddUnit(EMPTY, segment, 0, a, max), segment, 0, b, max), segment, 0, c, max)
  {
    hide AddUnit, Units;
    var us := [a, b, c];
    assert us[..2] == [a, b] && us[..2][..1] == [a] && us[..2][..1][..0] == [];
    assert BeginSegment(EMPTY, max) == EMPTY;
    assert PackUnits(EMPTY, segment, 0, us[..2][..1], max) == AddUnit(EMPTY, segment, 0, a, max);
    assert PackUnits(EMPTY, segment, 0, us[..2], max)
        == AddUnit(PackUnits(EMPTY, segment, 0, us[..2][..1], max), segment, 0, b, max);
  }

  lemma PackedLoneSpace()
    ensures var ink := [0x10000 as CodePoint];
            Chunks(LONE_SPACE, 4)
            == [Chunk(ink, [], [PartOfLoneSpace(FIRST_INK)]), Chunk(ink, [], [PartOfLoneSpace(LAST_INK)])]
  {
    hide Units, AddUnit, AddSegment, Flush;
    var ink := [0x10000 as CodePoint];
    var p1 := Packer([], ink, [PartOfLoneSpace(FIRST_INK)], true);
    var p2 := Packer([Chunk(ink, [], p1.parts)], [SPACE], [PartOfLoneSpace(INNER_SPACE)], true);
    var p3 := Packer([Chunk(ink, [], p1.parts)], ink, [PartOfLoneSpace(LAST_INK)], true);
    UnitsOfLoneSpace();
    StepsOfLoneSpace(p1, p2, p3);
    PackThree(LONE_SPACE[0], FIRST_INK, INNER_SPACE, LAST_INK, 4);
    assert PackSegments(LONE_SPACE, 0, 4) == EMPTY;
    assert PackSegments(LONE_SPACE, 1, 4) == p3;
  }

  lemma {:induction false} PartsOfTwo(chunks: seq<Chunk>, first: Part, last: Part)
    requires |chunks| == 2 && chunks[0].parts == [first] && chunks[1].parts == [last]
    ensures AllParts(chunks) == [first, last]
  {
    var c := chunks[..1];
    assert c[..0] == [];
    assert AllParts(c) == AllParts(c[..0]) + c[0].parts;
  }

  /** With four bytes a chunk of a lone space is blank, and its part is dropped with it. */
  lemma FourBytesDropASpace()
    ensures Inked(LONE_SPACE) && !Covers(AllParts(Chunks(LONE_SPACE, 4)), LONE_SPACE)
  {
    hide Chunks, Units;
    var first, last := PartOfLoneSpace(FIRST_INK), PartOfLoneSpace(LAST_INK);
    UnitsOfLoneSpace();
    PackedLoneSpace();
    PartsOfTwo(Chunks(LONE_SPACE, 4), first, last);
    var parts := [first, last];
    assert !Joins(parts[0], parts[1].segment, parts[1].start, LONE_SPACE);
  }

  ghost predicate CoversAll(max: nat) {
    forall segments :: segments != [] && Inked(segments) ==> Covers(AllParts(Chunks(segments, max)), segments)
  }

  /** Among the bounds the chunker accepts, exactly those of at least five bytes keep every document whole. */
  lemma FiveBytesAreNeeded(max: nat)
    requires 4 <= max <= CHUNK_BYTES
    ensures CoversAll(max) <==> max >= 5
  {
    hide Chunks, AllParts, Covers, Inked;
    if max >= 5 {
      forall segments: seq<Segment> | segments != [] && Inked(segments)
        ensures Covers(AllParts(Chunks(segments, max)), segments)
      {
        DocumentIsCovered(segments, max);
      }
    } else {
      FourBytesDropASpace();
    }
  }
}
