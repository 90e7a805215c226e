/** The byte-bounded chunker of indexed files: file-chunker.ts. Offsets count Unicode code points. */
module FileChunker {
  import opened Unicode
  import opened FileContract

  const CHUNK_BYTES: nat := 4096
  const MAX_PARTS: nat := 128

  datatype Part = Part(segment: nat, start: nat, end: nat, location: Location, headingPath: seq<string>)

  datatype Chunk = Chunk(content: Text, headingPath: seq<string>, parts: seq<Part>)

  datatype ChunkError = InvalidBound | ParserFailed

  /* ---- the units of a segment: one non-space code point, or one interior run of whitespace ---- */

  datatype Unit = Unit(start: nat, end: nat, glyph: CodePoint)

  /** Where the run of whitespace that covers position i ends. */
  function RunEnd(t: Text, i: nat): (end: nat)
    requires i <= |t|
    ensures i <= end <= |t|
    ensures forall k :: i <= k < end ==> Whitespace(t[k])
    ensures end < |t| ==> !Whitespace(t[end])
    decreases |t| - i
  {
    if i < |t| && Whitespace(t[i]) then RunEnd(t, i + 1) else i
  }

  /** Leading and trailing whitespace yields no unit; an interior run yields a single space. */
  function Units(t: Text, i: nat): seq<Unit>
    requires i <= |t|
    decreases |t| - i
  {
    if i == |t| then []
    else if Whitespace(t[i]) then
      var end := RunEnd(t, i);
      if i == 0 || end == |t| then Units(t, end) else [Unit(i, end, SPACE)] + Units(t, end)
    else [Unit(i, i + 1, t[i])] + Units(t, i + 1)
  }

  /** The first position that is not leading whitespace. */
  function InkStart(t: Text): nat {
    RunEnd(t, 0)
  }

  /** The position after the last code point that is not trailing whitespace. */
  function InkEnd(t: Text): (end: nat)
    ensures end <= |t|
    ensures forall k :: end <= k < |t| ==> Whitespace(t[k])
    ensures end > 0 ==> !Whitespace(t[end - 1])
  {
    if t == [] || !Whitespace(t[|t| - 1]) then |t| else InkEnd(t[..|t| - 1])
  }

  /** A cut at i does not fall inside a run of whitespace. */
  predicate CleanCut(t: Text, i: nat) {
    0 < i < |t| ==> !(Whitespace(t[i - 1]) && Whitespace(t[i]))
  }

  ghost predicate Space(t: Text, u: Unit) {
    && 0 < u.start < u.end < |t| && u.glyph == SPACE
    && (forall k :: u.start <= k < u.end ==> Whitespace(t[k]))
    && !Whitespace(t[u.start - 1]) && !Whitespace(t[u.end])
  }

  ghost predicate Ink(t: Text, u: Unit) {
    u.start < |t| && u.end == u.start + 1 && u.glyph == t[u.start] && !Whitespace(u.glyph)
  }

  /** The units run from `from` to the end of the inked text without gaps. */
  ghost predicate UnitsTile(t: Text, us: seq<Unit>, from: nat) {
    && (forall k :: 0 <= k < |us| ==> Ink(t, us[k]) || Space(t, us[k]))
    && (forall k :: 0 <= k < |us| - 1 ==> us[k].end == us[k + 1].start)
    && (if us == [] then from == InkEnd(t) else us[0].start == from && us[|us| - 1].end == InkEnd(t))
  }

  lemma TileHead(t: Text, u: Unit, us: seq<Unit>)
    requires (Ink(t, u) || Space(t, u)) && UnitsTile(t, us, u.end)
    ensures UnitsTile(t, [u] + us, u.start)
  {
    hide Ink, Space, InkEnd;
    var all := [u] + us;
    assert us != [] ==> all[|all| - 1] == us[|us| - 1];
  }

  lemma {:induction false} UnitsFromTile(t: Text, i: nat)
    requires i <= InkEnd(t) && CleanCut(t, i)
    requires i == 0 ==> |t| > 0 && !Whitespace(t[0])
    ensures UnitsTile(t, Units(t, i), i)
    decreases |t| - i
  {
    hide Whitespace, InkEnd, RunEnd;
    if i == |t| {
    } else if Whitespace(t[i]) {
      var end := RunEnd(t, i);
      if end < |t| {
        assert end < InkEnd(t);
        UnitsFromTile(t, end);
        TileHead(t, Unit(i, end, SPACE), Units(t, end));
      } else {
        assert i == InkEnd(t);
      }
    } else {
      UnitsFromTile(t, i + 1);
      TileHead(t, Unit(i, i + 1, t[i]), Units(t, i + 1));
    }
  }

  lemma UnitsOfText(t: Text)
    requires !Blank(t)
    ensures UnitsTile(t, Units(t, 0), InkStart(t)) && Units(t, 0) != [] && InkStart(t) < InkEnd(t)
  {
    var start := InkStart(t);
    assert start < InkEnd(t) by {
      var k :| 0 <= k < |t| && !Whitespace(t[k]);
      assert start <= k < InkEnd(t);
    }
    assert CleanCut(t, start);
    if start == 0 {
      UnitsFromTile(t, 0);
    } else {
      UnitsFromTile(t, start);
      assert Units(t, 0) == Units(t, start);
    }
  }

  /* ---- packing units into chunks ---- */

  /** The loop's variables: finished chunks, the chunk being filled, and whether its last part is still growing. */
  datatype Packer = Packer(chunks: seq<Chunk>, content: Text, parts: seq<Part>, open: bool)

  const EMPTY := Packer([], [], [], false)

  /** Blank content is dropped together with its parts. */
  function Flush(p: Packer): Packer {
    var done := if Blank(p.content) then []
                else [Chunk(p.content, if p.parts == [] then [] else p.parts[0].headingPath, p.parts)];
    Packer(p.chunks + done, [], [], false)
  }

  function BeginSegment(p: Packer, max: nat): Packer {
    var q := if |p.parts| >= MAX_PARTS then Flush(p) else p;
    if q.content == [] then q.(open := false)
    else if Bytes(q.content) + 1 > max then Flush(q)
    else q.(content := q.content + [NEWLINE], open := false)
  }

  function Grow(parts: seq<Part>, end: nat): seq<Part>
    requires parts != []
  {
    parts[|parts| - 1 := parts[|parts| - 1].(end := end)]
  }

  function AddUnit(p: Packer, segment: Segment, index: nat, u: Unit, max: nat): Packer {
    var q := if Bytes(p.content) + Width(u.glyph) > max then Flush(p) else p;
    var parts := if q.open && q.parts != [] then Grow(q.parts, u.end)
                 else q.parts + [Part(index, u.start, u.end, segment.location, segment.headingPath)];
    Packer(q.chunks, q.content + [u.glyph], parts, true)
  }

  function PackUnits(p: Packer, segment: Segment, index: nat, us: seq<Unit>, max: nat): Packer {
    if us == [] then p
    else AddUnit(PackUnits(p, segment, index, us[..|us| - 1], max), segment, index, us[|us| - 1], max)
  }

  function AddSegment(p: Packer, segment: Segment, index: nat, max: nat): Packer {
    PackUnits(BeginSegment(p, max), segment, index, Units(segment.text, 0), max)
  }

  /** The packer after the first n segments. */
  function PackSegments(segments: seq<Segment>, n: nat, max: nat): Packer
    requires n <= |segments|
  {
    if n == 0 then EMPTY else AddSegment(PackSegments(segments, n - 1, max), segments[n - 1], n - 1, max)
  }

  /** The chunks of a document, as one expression: the reference the loop is proved against. */
  function Chunks(segments: seq<Segment>, max: nat): seq<Chunk> {
    Flush(PackSegments(segments, |segments|, max)).chunks
  }

  /* ---- what every chunk looks like ---- */

  /** Every segment has text other than whitespace, as the extraction contract demands. */
  ghost predicate Inked(segments: seq<Segment>) {
    forall i :: 0 <= i < |segments| ==> !Blank(segments[i].text)
  }

  predicate InText(q: Part, segments: seq<Segment>) {
    q.segment < |segments| && q.start < q.end <= |segments[q.segment].text|
  }

  /** The text a part addresses, whitespace collapsed. */
  function Slice(q: Part, segments: seq<Segment>): Text {
    if InText(q, segments) then Collapse(segments[q.segment].text[q.start..q.end]) else []
  }

  ghost predicate PartValid(q: Part, segments: seq<Segment>) {
    && InText(q, segments)
    && q.location == segments[q.segment].location && q.headingPath == segments[q.segment].headingPath
    && CleanCut(segments[q.segment].text, q.start) && CleanCut(segments[q.segment].text, q.end)
  }

  /** The slices of the parts, joined by newlines. */
  function Rendered(parts: seq<Part>, segments: seq<Segment>): Text {
    if parts == [] then []
    else
      var n := |parts| - 1;
      (if n == 0 then [] else Rendered(parts[..n], segments) + [NEWLINE]) + Slice(parts[n], segments)
  }

  /** Within the byte and part bounds, not blank, and rendered from its parts up to one final newline. */
  ghost predicate ChunkValid(c: Chunk, segments: seq<Segment>, max: nat) {
    && Bytes(c.content) <= max && 1 <= |c.parts| <= MAX_PARTS && !Blank(c.content)
    && c.headingPath == c.parts[0].headingPath
    && (forall q :: q in c.parts ==> PartValid(q, segments))
    && (c.content == Rendered(c.parts, segments) || c.content == Rendered(c.parts, segments) + [NEWLINE])
  }

  ghost predicate ContentMatches(p: Packer, segments: seq<Segment>) {
    if p.parts == [] then p.content == [] && !p.open
    else p.content != [] && p.content == Rendered(p.parts, segments) + (if p.open then [] else [NEWLINE])
  }

  ghost predicate Laid(p: Packer, segments: seq<Segment>, max: nat) {
    && (forall c :: c in p.chunks ==> ChunkValid(c, segments, max))
    && (forall q :: q in p.parts ==> PartValid(q, segments))
    && Bytes(p.content) <= max && |p.parts| <= MAX_PARTS
    && ContentMatches(p, segments)
  }

  lemma FlushKeepsLaid(p: Packer, segments: seq<Segment>, max: nat)
    requires Laid(p, segments, max)
    ensures Laid(Flush(p), segments, max)
  {
  }

  lemma BeginKeepsLaid(p: Packer, segments: seq<Segment>, max: nat)
    requires Laid(p, segments, max) && (p.open || p.parts == [])
    ensures var q := BeginSegment(p, max);
            Laid(q, segments, max) && !q.open && |q.parts| < MAX_PARTS
  {
    FlushKeepsLaid(p, segments, max);
    var q := if |p.parts| >= MAX_PARTS then Flush(p) else p;
    FlushKeepsLaid(q, segments, max);
    BytesAppend(q.content, NEWLINE);
  }

  lemma CollapseGrows(t: Text, from: nat, u: Unit)
    requires from <= u.start && (Ink(t, u) || Space(t, u))
    ensures Collapse(t[from..u.end]) == Collapse(t[from..u.start]) + [u.glyph]
    ensures CleanCut(t, u.start) && CleanCut(t, u.end)
  {
    var had, added := t[from..u.start], t[u.start..u.end];
    assert t[from..u.end] == had + added;
    if Space(t, u) {
      CollapseRun(had, added);
    } else {
      assert (had + added)[..|had|] == had;
    }
  }

  /** A slice that grows by a unit renders one more character. */
  lemma SliceGrows(q: Part, segments: seq<Segment>, u: Unit)
    requires q.segment < |segments| && q.start <= q.end == u.start
    requires q.start == q.end || InText(q, segments)
    requires Ink(segments[q.segment].text, u) || Space(segments[q.segment].text, u)
    ensures Slice(q.(end := u.end), segments) == (if q.start == q.end then [] else Slice(q, segments)) + [u.glyph]
    ensures InText(q.(end := u.end), segments)
    ensures CleanCut(segments[q.segment].text, u.start) && CleanCut(segments[q.segment].text, u.end)
  {
    CollapseGrows(segments[q.segment].text, q.start, u);
  }

  lemma RenderedGrows(parts: seq<Part>, segments: seq<Segment>, end: nat, c: CodePoint)
    requires parts != []
    requires Slice(parts[|parts| - 1].(end := end), segments) == Slice(parts[|parts| - 1], segments) + [c]
    ensures Rendered(Grow(parts, end), segments) == Rendered(parts, segments) + [c]
  {
    assert Grow(parts, end)[..|parts| - 1] == parts[..|parts| - 1];
  }

  lemma RenderedExtends(parts: seq<Part>, segments: seq<Segment>, q: Part)
    ensures Rendered(parts + [q], segments)
            == (if parts == [] then [] else Rendered(parts, segments) + [NEWLINE]) + Slice(q, segments)
  {
    assert (parts + [q])[..|parts|] == parts;
  }

  /** The packer is inside segment `index`, and a growing part ends where the next unit starts. */
  ghost predicate Inside(p: Packer, index: nat, at: nat) {
    if p.open then p.parts != [] && p.parts[|p.parts| - 1].segment == index && p.parts[|p.parts| - 1].end == at
    else |p.parts| < MAX_PARTS
  }

  lemma GrownPartsAreValid(parts: seq<Part>, segments: seq<Segment>, end: nat)
    requires parts != [] && (forall q :: q in parts ==> PartValid(q, segments))
    requires PartValid(parts[|parts| - 1].(end := end), segments)
    ensures forall q :: q in Grow(parts, end) ==> PartValid(q, segments)
  {
    hide PartValid;
  }

  lemma ExtendKeepsLaid(q: Packer, segments: seq<Segment>, index: nat, u: Unit, max: nat)
    requires index < |segments| && Laid(q, segments, max) && q.open && Inside(q, index, u.start)
    requires Ink(segments[index].text, u) || Space(segments[index].text, u)
    requires Bytes(q.content) + Width(u.glyph) <= max
    ensures Laid(Packer(q.chunks, q.content + [u.glyph], Grow(q.parts, u.end), true), segments, max)
  {
    hide Whitespace, Collapse, Bytes, Blank, ChunkValid, Ink, Space, Rendered, CleanCut, Slice;
    var last := q.parts[|q.parts| - 1];
    assert last in q.parts;
    BytesAppend(q.content, u.glyph);
    SliceGrows(last, segments, u);
    RenderedGrows(q.parts, segments, u.end, u.glyph);
    GrownPartsAreValid(q.parts, segments, u.end);
  }

  lemma StartKeepsLaid(q: Packer, segments: seq<Segment>, index: nat, u: Unit, max: nat)
    requires index < |segments| && Laid(q, segments, max) && !q.open && |q.parts| < MAX_PARTS
    requires Ink(segments[index].text, u) || Space(segments[index].text, u)
    requires Bytes(q.content) + Width(u.glyph) <= max
    ensures var s := segments[index];
            Laid(Packer(q.chunks, q.content + [u.glyph],
                        q.parts + [Part(index, u.start, u.end, s.location, s.headingPath)], true), segments, max)
  {
    hide Whitespace, Collapse, Bytes, Blank, ChunkValid, Rendered, CleanCut, Slice;
    var s := segments[index];
    var started := Part(index, u.start, u.start, s.location, s.headingPath);
    BytesAppend(q.content, u.glyph);
    SliceGrows(started, segments, u);
    RenderedExtends(q.parts, segments, started.(end := u.end));
  }

  lemma AddKeepsLaid(p: Packer, segments: seq<Segment>, index: nat, u: Unit, max: nat)
    requires max >= 4 && index < |segments| && Laid(p, segments, max)
    requires Ink(segments[index].text, u) || Space(segments[index].text, u)
    requires Inside(p, index, u.start)
    ensures var q := AddUnit(p, segments[index], index, u, max);
            Laid(q, segments, max) && q.open && Inside(q, index, u.end)
  {
    var q := if Bytes(p.content) + Width(u.glyph) > max then Flush(p) else p;
    FlushKeepsLaid(p, segments, max);
    if q.open {
      ExtendKeepsLaid(q, segments, index, u, max);
    } else {
      StartKeepsLaid(q, segments, index, u, max);
    }
  }

  lemma {:induction false} PackKeepsLaid(p: Packer, segments: seq<Segment>, index: nat, us: seq<Unit>, max: nat)
    requires max >= 4 && index < |segments| && Laid(p, segments, max) && !p.open && |p.parts| < MAX_PARTS
    requires forall k :: 0 <= k < |us| ==> Ink(segments[index].text, us[k]) || Space(segments[index].text, us[k])
    requires forall k :: 0 <= k < |us| - 1 ==> us[k].end == us[k + 1].start
    ensures var q := PackUnits(p, segments[index], index, us, max);
            Laid(q, segments, max) && (us != [] ==> q.open && Inside(q, index, us[|us| - 1].end))
  {
    if us != [] {
      PackKeepsLaid(p, segments, index, us[..|us| - 1], max);
      var before := PackUnits(p, segments[index], index, us[..|us| - 1], max);
      AddKeepsLaid(before, segments, index, us[|us| - 1], max);
    }
  }

  lemma SegmentKeepsLaid(p: Packer, segments: seq<Segment>, n: nat, max: nat)
    requires max >= 4 && 0 < n <= |segments| && Inked(segments)
    requires Laid(p, segments, max) && (p.open || p.parts == [])
    ensures var q := AddSegment(p, segments[n - 1], n - 1, max);
            Laid(q, segments, max) && q.open
  {
    var index := n - 1;
    var us := Units(segments[index].text, 0);
    UnitsOfText(segments[index].text);
    BeginKeepsLaid(p, segments, max);
    PackKeepsLaid(BeginSegment(p, max), segments, index, us, max);
  }

  lemma {:induction false} PackedIsLaid(segments: seq<Segment>, n: nat, max: nat)
    requires max >= 4 && n <= |segments| && Inked(segments)
    ensures var p := PackSegments(segments, n, max);
            Laid(p, segments, max) && (p.open || p.parts == [])
  {
    if n > 0 {
      PackedIsLaid(segments, n - 1, max);
      SegmentKeepsLaid(PackSegments(segments, n - 1, max), segments, n, max);
    }
  }

  /** Every chunk of every well-formed document respects the bounds and renders its own parts. */
  lemma ChunksAreValid(segments: seq<Segment>, max: nat)
    requires max >= 4 && Inked(segments)
    ensures forall c :: c in Chunks(segments, max) ==> ChunkValid(c, segments, max)
  {
    PackedIsLaid(segments, |segments|, max);
    FlushKeepsLaid(PackSegments(segments, |segments|, max), segments, max);
  }
}
