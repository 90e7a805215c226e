/** The chunker as the source runs it: one pass over the segments, with the current chunk in mutable variables. */
module FileChunkLoop {
  import opened Results
  import opened Unicode
  import opened FileContract
  import opened FileChunker
  import opened FileChunkCoverage
  import opened FileChunkGreedy

  /** Bad bounds and malformed extractions are errors; everything else is cut into the reference chunks. */
  method FileChunks(value: Extraction, maxBytes: int) returns (result: Result<seq<Chunk>, ChunkError>)
    ensures (maxBytes < 4 || maxBytes > CHUNK_BYTES) <==> result == Err(InvalidBound)
    ensures result.Ok? <==> 4 <= maxBytes <= CHUNK_BYTES && WellFormed(value)
    ensures result.Ok? ==> result.value == Chunks(value.segments, maxBytes)
    ensures result.Ok? ==> forall c :: c in result.value ==> ChunkValid(c, value.segments, maxBytes)
    ensures result.Ok? && maxBytes >= 5 ==> Covers(AllParts(result.value), value.segments)
    ensures result.Ok? && maxBytes >= 5 ==>
              forall chunks :: Solution(chunks, value.segments, maxBytes) <==> chunks == result.value
  {
    if maxBytes < 4 || maxBytes > CHUNK_BYTES {
      return Err(InvalidBound);
    }
    var accepted := AssertExtraction(value);
    if !accepted {
      return Err(ParserFailed);
    }
    hide Solution, Covers, ChunkValid, Chunks;
    var chunks := Pack(value.segments, maxBytes);
    WellFormedIsInked(value);
    ChunksAreValid(value.segments, maxBytes);
    if maxBytes >= 5 {
      DocumentIsCovered(value.segments, maxBytes);
      forall cs ensures Solution(cs, value.segments, maxBytes) <==> cs == chunks {
        ChunksAreTheSolution(value.segments, maxBytes, cs);
      }
    }
    return Ok(chunks);
  }

  lemma WellFormedIsInked(value: Extraction)
    requires WellFormed(value)
    ensures value.segments != [] && Inked(value.segments)
  {
    forall i | 0 <= i < |value.segments|
      ensures !Blank(value.segments[i].text)
    {
      assert SegmentValid(value.format, value.segments[i]);
    }
  }

  method Pack(segments: seq<Segment>, max: nat) returns (chunks: seq<Chunk>)
    ensures chunks == Chunks(segments, max)
  {
    var p, bytes := EMPTY, 0;
    for index := 0 to |segments|
      invariant p == PackSegments(segments, index, max) && bytes == Bytes(p.content)
    {
      hide Whitespace, Blank, AddUnit, InkEnd;
      p, bytes := Open(p, bytes, max);
      p, bytes := PackText(p, bytes, segments[index], index, max);
    }
    p, bytes := FlushNow(p);
    return p.chunks;
  }

  method FlushNow(p: Packer) returns (q: Packer, bytes: nat)
    ensures q == Flush(p) && bytes == Bytes(q.content)
  {
    var chunks := p.chunks;
    if !Blank(p.content) {
      chunks := chunks + [Chunk(p.content, if p.parts == [] then [] else p.parts[0].headingPath, p.parts)];
    }
    q, bytes := Packer(chunks, [], [], false), 0;
  }

  /** What happens at the start of a segment: a full chunk is flushed, otherwise a newline separates. */
  method Open(p: Packer, size: nat, max: nat) returns (q: Packer, bytes: nat)
    requires size == Bytes(p.content)
    ensures q == BeginSegment(p, max) && bytes == Bytes(q.content)
  {
    q, bytes := p, size;
    if |q.parts| >= MAX_PARTS {
      q, bytes := FlushNow(q);
    }
    if q.content != [] {
      if bytes + 1 > max {
        q, bytes := FlushNow(q);
      } else {
        BytesAppend(q.content, NEWLINE);
        q, bytes := q.(content := q.content + [NEWLINE]), bytes + 1;
      }
    }
    q := q.(open := false);
  }

  /** The matches of one segment: whitespace at either end is skipped, an inner run becomes one space. */
  method PackText(p: Packer, size: nat, segment: Segment, index: nat, max: nat) returns (q: Packer, bytes: nat)
    requires size == Bytes(p.content)
    ensures q == PackUnits(p, segment, index, Units(segment.text, 0), max) && bytes == Bytes(q.content)
  {
    hide AddUnit, PackUnits, Blank;
    var t := segment.text;
    var offset := 0;
    q, bytes := p, size;
    PackNothing(p, segment, index, max);
    ghost var seen: seq<Unit> := [];
    while offset < |t|
      invariant offset <= |t|
      invariant Units(t, 0) == seen + Units(t, offset)
      invariant q == PackUnits(p, segment, index, seen, max) && bytes == Bytes(q.content)
    {
      var end := offset + 1;
      var glyph := t[offset];
      if Whitespace(t[offset]) {
        end := SkipWhitespace(t, offset);
        glyph := SPACE;
      }
      if !(Whitespace(t[offset]) && (offset == 0 || end == |t|)) {
        var u := Unit(offset, end, glyph);
        q, bytes := AddOne(q, bytes, segment, index, u, max);
        PackOneMore(p, segment, index, seen, u, max);
        seen := seen + [u];
      }
      offset := end;
    }
    assert Units(t, offset) == [];
    assert seen + [] == seen;
  }

  lemma PackNothing(p: Packer, segment: Segment, index: nat, max: nat)
    ensures PackUnits(p, segment, index, [], max) == p
  {
  }

  lemma PackOneMore(p: Packer, segment: Segment, index: nat, seen: seq<Unit>, u: Unit, max: nat)
    ensures PackUnits(p, segment, index, seen + [u], max)
            == AddUnit(PackUnits(p, segment, index, seen, max), segment, index, u, max)
  {
    hide AddUnit;
    assert (seen + [u])[..|seen|] == seen;
  }

  method SkipWhitespace(t: Text, from: nat) returns (end: nat)
    requires from < |t| && Whitespace(t[from])
    ensures end == RunEnd(t, from) && from < end
  {
    end := from;
    while end < |t| && Whitespace(t[end])
      invariant from <= end <= |t| && RunEnd(t, from) == RunEnd(t, end)
    {
      end := end + 1;
    }
  }

  method AddOne(p: Packer, size: nat, segment: Segment, index: nat, u: Unit, max: nat)
    returns (q: Packer, bytes: nat)
    requires size == Bytes(p.content)
    ensures q == AddUnit(p, segment, index, u, max) && bytes == Bytes(q.content)
  {
    hide Bytes, Blank, Whitespace;
    q, bytes := p, size;
    if bytes + Width(u.glyph) > max {
      q, bytes := FlushNow(q);
    }
    var parts := q.parts;
    if !q.open || parts == [] {
      parts := parts + [Part(index, u.start, u.start, segment.location, segment.headingPath)];
    }
    parts := Grow(parts, u.end);
    BytesAppend(q.content, u.glyph);
    q, bytes := Packer(q.chunks, q.content + [u.glyph], parts, true), bytes + Width(u.glyph);
  }
}
