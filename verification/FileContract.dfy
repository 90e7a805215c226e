/** Parsed files as the parser boundary accepts them: file-contract.ts. */
module FileContract {
  import opened Unicode

  const MAX_CODE_POINTS: nat := 300_000
  const MAX_HEADINGS: nat := 6

  datatype Format = Pdf | Docx | Md | Txt

  datatype Location = Page(page: int) | Paragraph(paragraph: int) | Lines(first: int, last: int)

  datatype Segment = Segment(text: Text, location: Location, headingPath: seq<string>)

  datatype Extraction = Extraction(format: Format, segments: seq<Segment>, codePoints: int)

  /** Pages for PDF, paragraphs for DOCX, line ranges for the text formats; all counted from one. */
  predicate LocationValid(format: Format, at: Location) {
    match format
    case Pdf => at.Page? && at.page >= 1
    case Docx => at.Paragraph? && at.paragraph >= 1
    case _ => at.Lines? && 1 <= at.first <= at.last
  }

  predicate SegmentValid(format: Format, s: Segment) {
    !Blank(s.text) && |s.headingPath| <= MAX_HEADINGS && LocationValid(format, s.location)
  }

  function Count(segments: seq<Segment>): nat {
    if segments == [] then 0 else Count(segments[..|segments| - 1]) + |segments[|segments| - 1].text|
  }

  /** What assertExtraction accepts. */
  predicate WellFormed(e: Extraction) {
    && 1 <= e.codePoints <= MAX_CODE_POINTS
    && 1 <= |e.segments| <= MAX_CODE_POINTS
    && (forall i :: 0 <= i < |e.segments| ==> SegmentValid(e.format, e.segments[i]))
    && Count(e.segments) == e.codePoints
  }

  lemma {:induction false} PrefixCountsLess(segments: seq<Segment>, k: nat)
    requires k <= |segments|
    ensures Count(segments[..k]) <= Count(segments)
  {
    if k < |segments| {
      PrefixCountsLess(segments[..|segments| - 1], k);
      assert segments[..|segments| - 1][..k] == segments[..k];
    } else {
      assert segments[..k] == segments;
    }
  }

  lemma {:induction false} InkCounts(segments: seq<Segment>)
    requires forall s :: s in segments ==> s.text != []
    ensures |segments| <= Count(segments)
  {
    if segments != [] { InkCounts(segments[..|segments| - 1]); }
  }

  /** A segment has ink, at most six headings, and a place that its format can have. */
  predicate SegmentFits(format: Format, s: Segment) {
    && (exists k :: 0 <= k < |s.text| && !Whitespace(s.text[k]))
    && |s.headingPath| <= 6
    && match s.location
       case Page(page) => format == Pdf && 1 <= page
       case Paragraph(paragraph) => format == Docx && 1 <= paragraph
       case Lines(first, last) => (format == Md || format == Txt) && 1 <= first && first <= last
  }

  lemma SegmentMeans(format: Format, s: Segment)
    ensures SegmentValid(format, s) <==> SegmentFits(format, s)
  {
    hide Whitespace;
  }

  /**
   * An extraction is well formed exactly when it has one to 300000 code points, as many as its segments hold, and each
   * segment is acceptable: the bound on the number of segments never decides.
   */
  lemma WellFormedMeans(e: Extraction)
    ensures WellFormed(e) <==>
      && 1 <= e.codePoints <= 300_000 && Count(e.segments) == e.codePoints
      && forall s :: s in e.segments ==> SegmentFits(e.format, s)
  {
    forall s | s in e.segments ensures SegmentValid(e.format, s) <==> SegmentFits(e.format, s) {
      SegmentMeans(e.format, s);
    }
    if forall s :: s in e.segments ==> SegmentFits(e.format, s) {
      forall s | s in e.segments ensures s.text != [] {}
      InkCounts(e.segments);
      if e.segments == [] { assert Count(e.segments) == 0; }
    }
    hide SegmentValid, SegmentFits;
  }

  /** The running check of the source: it stops at the first bad segment or when the count overflows. */
  method AssertExtraction(e: Extraction) returns (ok: bool)
    ensures ok <==> WellFormed(e)
  {
    if e.codePoints < 1 || e.codePoints > MAX_CODE_POINTS || e.segments == [] || |e.segments| > MAX_CODE_POINTS {
      return false;
    }
    var count := 0;
    for i := 0 to |e.segments|
      invariant forall k :: 0 <= k < i ==> SegmentValid(e.format, e.segments[k])
      invariant count == Count(e.segments[..i]) <= MAX_CODE_POINTS
    {
      if !SegmentValid(e.format, e.segments[i]) {
        return false;
      }
      assert e.segments[..i + 1][..i] == e.segments[..i];
      count := count + |e.segments[i].text|;
      if count > MAX_CODE_POINTS {
        PrefixCountsLess(e.segments, i + 1);
        return false;
      }
    }
    assert e.segments[..|e.segments|] == e.segments;
    return count == e.codePoints;
  }
}
