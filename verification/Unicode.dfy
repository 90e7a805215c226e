/** Text as JavaScript sees it: code points, their UTF-8 and UTF-16 widths, and the \s class. */
module Unicode {
  type CodePoint = c: nat | c < 0x110000

  type Text = seq<CodePoint>

  const SPACE: CodePoint := 0x20
  const NEWLINE: CodePoint := 0x0A

  /** The class matched by \s and removed by trim(). */
  predicate Whitespace(c: CodePoint) {
    || 0x09 <= c <= 0x0D
    || c == 0x20 || c == 0xA0 || c == 0x1680 || 0x2000 <= c <= 0x200A
    || 0x2028 <= c <= 0x2029 || c == 0x202F || c == 0x205F || c == 0x3000 || c == 0xFEFF
  }

  predicate Blank(t: Text) {
    forall i :: 0 <= i < |t| ==> Whitespace(t[i])
  }

  /** Bytes of one code point; an unpaired surrogate is encoded as the three-byte replacement character. */
  function Width(c: CodePoint): (w: nat)
    ensures 1 <= w <= 4
  {
    if c < 0x80 then 1 else if c < 0x800 then 2 else if c < 0x10000 then 3 else 4
  }

  /** The UTF-8 length of a text. */
  function Bytes(t: Text): (n: nat)
    ensures |t| <= n
  {
    if t == [] then 0 else Bytes(t[..|t| - 1]) + Width(t[|t| - 1])
  }

  /** The length property of a JavaScript string. */
  function Utf16Length(t: Text): nat {
    if t == [] then 0 else Utf16Length(t[..|t| - 1]) + (if t[|t| - 1] < 0x10000 then 1 else 2)
  }

  lemma BytesAppend(t: Text, c: CodePoint)
    ensures Bytes(t + [c]) == Bytes(t) + Width(c)
  {
    assert (t + [c])[..|t|] == t;
  }

  /* ---- trim(), whitespace runs and join() ---- */

  /** A text without leading and trailing whitespace. */
  function Trim(t: Text): Text
    decreases |t|
  {
    if t == [] then []
    else if Whitespace(t[0]) then Trim(t[1..])
    else if Whitespace(t[|t| - 1]) then Trim(t[..|t| - 1])
    else t
  }

  /** Whitespace runs become single spaces. */
  function Collapse(t: Text): Text {
    if t == [] then []
    else
      var n := |t| - 1;
      if !Whitespace(t[n]) then Collapse(t[..n]) + [t[n]]
      else if n > 0 && Whitespace(t[n - 1]) then Collapse(t[..n])
      else Collapse(t[..n]) + [SPACE]
  }

  lemma {:induction false} CollapseRun(t: Text, run: Text)
    requires run != [] && Blank(run)
    requires t != [] ==> !Whitespace(t[|t| - 1])
    ensures Collapse(t + run) == Collapse(t) + [SPACE]
  {
    var n := |run| - 1;
    assert (t + run)[..|t| + n] == t + run[..n];
    if n == 0 {
      assert t + run[..n] == t;
    } else {
      assert Whitespace((t + run)[|t| + n - 1]) && Whitespace((t + run)[|t| + n]);
      CollapseRun(t, run[..n]);
    }
  }

  /** A text without its whitespace. */
  function InkOf(t: Text): Text {
    if t == [] then [] else InkOf(t[..|t| - 1]) + (if Whitespace(t[|t| - 1]) then [] else [t[|t| - 1]])
  }

  lemma {:induction false} InkOfBlank(t: Text)
    requires Blank(t)
    ensures InkOf(t) == []
  {
    if t != [] {
      InkOfBlank(t[..|t| - 1]);
    }
  }

  lemma {:induction false} InkOfJoined(t: Text, u: Text)
    ensures InkOf(t + u) == InkOf(t) + InkOf(u)
  {
    if u == [] {
      assert t + u == t;
    } else {
      assert (t + u)[..|t + u| - 1] == t + u[..|u| - 1];
      InkOfJoined(t, u[..|u| - 1]);
    }
  }

  /** The elements with a separator between neighbours. */
  function Join(parts: seq<Text>, separator: CodePoint): Text {
    if parts == [] then []
    else (if |parts| == 1 then [] else Join(parts[..|parts| - 1], separator) + [separator]) + parts[|parts| - 1]
  }

  lemma {:induction false} TrimPadding(before: Text, t: Text, after: Text)
    requires Blank(before) && Blank(after)
    ensures Trim(before + t + after) == Trim(t)
    decreases |before|, |t|, |after|
  {
    hide Whitespace;
    var all := before + t + after;
    if before != [] {
      assert all[1..] == before[1..] + t + after;
      assert all[0] == before[0];
      TrimPadding(before[1..], t, after);
    } else if t == [] {
      if after != [] {
        assert all[1..] == [] + [] + after[1..];
        assert all[0] == after[0];
        TrimPadding([], [], after[1..]);
      }
    } else if Whitespace(t[0]) {
      assert all[1..] == [] + t[1..] + after;
      TrimPadding([], t[1..], after);
    } else if after != [] {
      assert all[..|all| - 1] == [] + t + after[..|after| - 1];
      assert all[|all| - 1] == after[|after| - 1];
      TrimPadding([], t, after[..|after| - 1]);
    } else {
      assert all == t;
    }
  }

  /** Trimming takes whitespace off both ends and stops at ink. */
  lemma {:induction false} TrimSplits(t: Text) returns (before: Text, after: Text)
    ensures t == before + Trim(t) + after && Blank(before) && Blank(after)
    ensures Trim(t) != [] ==> !Whitespace(Trim(t)[0])
    ensures Trim(t) == [] ==> Blank(t)
    decreases |t|
  {
    hide Whitespace;
    before, after := [], [];
    if t == [] {
    } else if Whitespace(t[0]) {
      before, after := TrimSplits(t[1..]);
      assert t == [t[0]] + t[1..];
      before := [t[0]] + before;
    } else if Whitespace(t[|t| - 1]) {
      var all := t[..|t| - 1];
      before, after := TrimSplits(all);
      assert t == all + [t[|t| - 1]];
      after := after + [t[|t| - 1]];
    }
  }

  lemma BlankParts(x: Text, y: Text)
    ensures Blank(x + y) == (Blank(x) && Blank(y))
  {
    hide Whitespace;
    if Blank(x + y) {
      forall i | 0 <= i < |x| ensures Whitespace(x[i]) { assert (x + y)[i] == x[i]; }
      forall i | 0 <= i < |y| ensures Whitespace(y[i]) { assert (x + y)[|x| + i] == y[i]; }
    }
  }
}
