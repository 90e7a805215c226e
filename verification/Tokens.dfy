/** Splitting a text into words and joining them again: tokenizer.ts. */
module Tokens {
  import opened Unicode

  /** Pieces between spaces, as split(" ") returns them. */
  function SplitSpaces(t: Text): (pieces: seq<Text>)
    ensures pieces != []
  {
    if t == [] then [[]]
    else
      var n := |t| - 1;
      var before := SplitSpaces(t[..n]);
      if t[n] == SPACE then before + [[]] else before[..|before| - 1] + [before[|before| - 1] + [t[n]]]
  }

  function NormalizeWhitespace(t: Text): Text {
    Collapse(Trim(t))
  }

  function Tokenize(t: Text): seq<Text> {
    var normalized := NormalizeWhitespace(t);
    if normalized == [] then [] else SplitSpaces(normalized)
  }

  function CountTokens(t: Text): nat {
    |Tokenize(t)|
  }

  function JoinTokens(tokens: seq<Text>): Text {
    Join(tokens, SPACE)
  }

  /** A word has text and no whitespace. */
  predicate Word(t: Text) {
    t != [] && forall i :: 0 <= i < |t| ==> !Whitespace(t[i])
  }

  predicate Words(tokens: seq<Text>) {
    forall i :: 0 <= i < |tokens| ==> Word(tokens[i])
  }

  /* ---- normal texts ---- */

  /** Starts with ink; whitespace only as single spaces. */
  predicate Spaced(t: Text) {
    && (t != [] ==> !Whitespace(t[0]))
    && (forall i :: 0 <= i < |t| && Whitespace(t[i]) ==> t[i] == SPACE)
    && (forall i :: 0 < i < |t| ==> !(Whitespace(t[i - 1]) && Whitespace(t[i])))
  }

  predicate EndsInk(t: Text) {
    t != [] && !Whitespace(t[|t| - 1])
  }

  lemma SpaceIsWhitespace()
    ensures Whitespace(SPACE)
  {
  }

  lemma {:induction false} TrimEndsInk(t: Text)
    ensures Trim(t) != [] ==> !Whitespace(Trim(t)[0]) && EndsInk(Trim(t))
    decreases |t|
  {
    hide Whitespace;
    if t == [] {
    } else if Whitespace(t[0]) {
      TrimEndsInk(t[1..]);
    } else if Whitespace(t[|t| - 1]) {
      TrimEndsInk(t[..|t| - 1]);
    }
  }

  lemma {:induction false} CollapseIsSpaced(t: Text)
    requires t != [] ==> !Whitespace(t[0])
    ensures Spaced(Collapse(t)) && (t != [] ==> Collapse(t) != [] && (EndsInk(Collapse(t)) <==> EndsInk(t)))
  {
    hide Whitespace;
    SpaceIsWhitespace();
    if t != [] { CollapseIsSpaced(t[..|t| - 1]); }
  }

  lemma {:induction false} CollapseOfSpaced(t: Text)
    requires Spaced(t)
    ensures Collapse(t) == t
  {
    hide Whitespace, Spaced, Collapse;
    if t == [] {
      CollapseOfNothing();
    } else {
      var n := |t| - 1;
      assert t == t[..n] + [t[n]];
      CollapseStep(t[..n], t[n]);
      CollapseOfSpaced(t[..n]);
    }
  }

  lemma CollapseStep(t: Text, c: CodePoint)
    requires Spaced(t + [c])
    ensures Spaced(t) && Collapse(t + [c]) == Collapse(t) + [c]
  {
    hide Whitespace;
    var longer := t + [c];
    assert longer[..|t|] == t && longer[|t|] == c;
    forall i | 0 <= i < |t| ensures t[i] == longer[i] {
    }
  }

  lemma NormalIsSpaced(t: Text)
    ensures Spaced(NormalizeWhitespace(t)) && (NormalizeWhitespace(t) != [] ==> EndsInk(NormalizeWhitespace(t)))
  {
    hide Whitespace, Spaced, Collapse;
    TrimEndsInk(t);
    CollapseIsSpaced(Trim(t));
    if Trim(t) == [] { CollapseOfNothing(); }
  }

  lemma CollapseOfNothing()
    ensures Collapse([]) == []
  {
  }

  /** Normalising twice changes nothing. */
  lemma NormalIsNormal(t: Text)
    requires Spaced(t) && (t != [] ==> EndsInk(t))
    ensures NormalizeWhitespace(t) == t
  {
    hide Whitespace;
    CollapseOfSpaced(t);
  }

  /* ---- words ---- */

  lemma {:induction false} PiecesAreWords(t: Text)
    requires Spaced(t) && t != []
    ensures var p := SplitSpaces(t);
      && (forall i :: 0 <= i < |p| - 1 ==> Word(p[i]))
      && (if EndsInk(t) then Word(p[|p| - 1]) else p[|p| - 1] == [])
  {
    hide Whitespace;
    SpaceIsWhitespace();
    var n := |t| - 1;
    if n == 0 {
      assert t[..n] == [];
    } else {
      PiecesAreWords(t[..n]);
      assert Whitespace(t[n]) ==> !Whitespace(t[n - 1]);
    }
  }

  lemma TokensAreWords(t: Text)
    ensures Words(Tokenize(t))
  {
    hide Whitespace, Spaced, Word, NormalizeWhitespace;
    NormalIsSpaced(t);
    if NormalizeWhitespace(t) != [] { PiecesAreWords(NormalizeWhitespace(t)); }
  }

  lemma PieceStep(t: Text, c: CodePoint)
    ensures var p := SplitSpaces(t);
      SplitSpaces(t + [c]) == if c == SPACE then p + [[]] else p[..|p| - 1] + [p[|p| - 1] + [c]]
  {
    assert (t + [c])[..|t|] == t;
  }

  lemma {:induction false} PiecesOfPiece(t: Text, u: Text)
    requires SPACE !in u
    ensures var p := SplitSpaces(t); SplitSpaces(t + u) == p[..|p| - 1] + [p[|p| - 1] + u]
  {
    hide SplitSpaces;
    var p := SplitSpaces(t);
    if u == [] {
      assert t + u == t && p[|p| - 1] + u == p[|p| - 1];
      assert p == p[..|p| - 1] + [p[|p| - 1]];
    } else {
      var n := |u| - 1;
      PiecesOfPiece(t, u[..n]);
      PieceStep(t + u[..n], u[n]);
      assert t + u == t + u[..n] + [u[n]];
      assert p[|p| - 1] + u == p[|p| - 1] + u[..n] + [u[n]];
    }
  }

  lemma PiecesOfNothing()
    ensures SplitSpaces([]) == [[]]
  {
  }

  /** Splitting undoes joining. */
  lemma {:induction false} SplitOfJoin(tokens: seq<Text>)
    requires tokens != [] && forall i :: 0 <= i < |tokens| ==> SPACE !in tokens[i]
    ensures SplitSpaces(JoinTokens(tokens)) == tokens
  {
    hide SplitSpaces;
    var n := |tokens| - 1;
    var last := tokens[n];
    assert [] + last == last;
    if n == 0 {
      PiecesOfNothing();
      PiecesOfPiece([], last);
    } else {
      var before := JoinTokens(tokens[..n]);
      SplitOfJoin(tokens[..n]);
      PieceStep(before, SPACE);
      PiecesOfPiece(before + [SPACE], last);
      assert tokens == tokens[..n] + [last];
    }
  }

  lemma {:induction false} JoinOfPieces(t: Text)
    ensures JoinTokens(SplitSpaces(t)) == t
  {
    hide SplitSpaces, JoinTokens;
    if t == [] {
      PiecesOfNothing();
      JoinOfOne([]);
    } else {
      var n := |t| - 1;
      JoinOfPieces(t[..n]);
      PieceStep(t[..n], t[n]);
      JoinGrows(SplitSpaces(t[..n]), t[n]);
      assert t == t[..n] + [t[n]];
    }
  }

  lemma JoinOfOne(piece: Text)
    ensures JoinTokens([piece]) == piece
  {
  }

  /** Opening a piece adds a space, and a character added to the last piece is added to the text. */
  lemma JoinGrows(pieces: seq<Text>, c: CodePoint)
    requires pieces != []
    ensures JoinTokens(pieces + [[]]) == JoinTokens(pieces) + [SPACE]
    ensures JoinTokens(pieces[..|pieces| - 1] + [pieces[|pieces| - 1] + [c]]) == JoinTokens(pieces) + [c]
  {
    var k := |pieces| - 1;
    assert (pieces + [[]])[..|pieces|] == pieces;
    assert (pieces[..k] + [pieces[k] + [c]])[..k] == pieces[..k];
  }

  lemma {:induction false} JoinedWordsAreSpaced(tokens: seq<Text>)
    requires Words(tokens)
    ensures Spaced(JoinTokens(tokens)) && (tokens != [] ==> EndsInk(JoinTokens(tokens)))
  {
    hide Whitespace;
    SpaceIsWhitespace();
    if tokens != [] {
      var n := |tokens| - 1;
      JoinedWordsAreSpaced(tokens[..n]);
      if n > 0 { AppendWord(JoinTokens(tokens[..n]), tokens[n]); }
    }
  }

  lemma AppendWord(t: Text, w: Text)
    requires Spaced(t) && EndsInk(t) && Word(w)
    ensures Spaced(t + [SPACE] + w) && EndsInk(t + [SPACE] + w)
  {
    hide Whitespace;
    var all := t + [SPACE] + w;
    forall i | 0 < i < |all| ensures !(Whitespace(all[i - 1]) && Whitespace(all[i])) {
      if i > |t| { assert all[i] == w[i - |t| - 1]; }
    }
  }

  /** Tokenising undoes joining, for every list of words. */
  lemma TokenizeUndoesJoin(tokens: seq<Text>)
    requires Words(tokens)
    ensures Tokenize(JoinTokens(tokens)) == tokens
  {
    hide Whitespace, Spaced, NormalizeWhitespace;
    JoinedWordsAreSpaced(tokens);
    NormalIsNormal(JoinTokens(tokens));
    if tokens != [] {
      WordsHaveNoSpace(tokens);
      SplitOfJoin(tokens);
    }
  }

  lemma WordsHaveNoSpace(tokens: seq<Text>)
    requires Words(tokens)
    ensures forall i :: 0 <= i < |tokens| ==> SPACE !in tokens[i]
  {
    hide Whitespace;
    SpaceIsWhitespace();
  }

  /** Joining the tokens of a text gives it back with its whitespace normalised. */
  lemma JoinNormalises(t: Text)
    ensures JoinTokens(Tokenize(t)) == NormalizeWhitespace(t)
  {
    hide NormalizeWhitespace;
    if NormalizeWhitespace(t) != [] { JoinOfPieces(NormalizeWhitespace(t)); }
  }

  /* ---- ink ---- */

  function Concat(tokens: seq<Text>): Text {
    if tokens == [] then [] else Concat(tokens[..|tokens| - 1]) + tokens[|tokens| - 1]
  }

  lemma {:induction false} InkOfCollapse(t: Text)
    ensures InkOf(Collapse(t)) == InkOf(t)
  {
    hide Whitespace;
    if t != [] {
      var n := |t| - 1;
      InkOfCollapse(t[..n]);
      InkOfJoined(Collapse(t[..n]), [t[n]]);
      InkOfJoined(Collapse(t[..n]), [SPACE]);
      InkOfOne(t[n]);
      InkOfOne(SPACE);
      SpaceIsWhitespace();
    }
  }

  lemma InkOfOne(c: CodePoint)
    ensures InkOf([c]) == if Whitespace(c) then [] else [c]
  {
    hide Whitespace;
    assert [c][..0] == [];
  }

  lemma {:induction false} InkOfSolid(w: Text)
    requires forall i :: 0 <= i < |w| ==> !Whitespace(w[i])
    ensures InkOf(w) == w
  {
    hide Whitespace;
    if w != [] {
      InkOfSolid(w[..|w| - 1]);
      assert w == w[..|w| - 1] + [w[|w| - 1]];
    }
  }

  lemma InkOfWord(w: Text)
    requires Word(w)
    ensures InkOf(w) == w
  {
    InkOfSolid(w);
  }

  lemma InkOfSpaced(t: Text, w: Text)
    ensures InkOf(t + [SPACE] + w) == InkOf(t) + InkOf(w)
  {
    hide Whitespace;
    InkOfJoined(t + [SPACE], w);
    InkOfJoined(t, [SPACE]);
    InkOfOne(SPACE);
    SpaceIsWhitespace();
  }

  lemma {:induction false} InkOfWords(tokens: seq<Text>)
    requires Words(tokens)
    ensures InkOf(JoinTokens(tokens)) == Concat(tokens)
  {
    hide Whitespace, Word;
    if tokens != [] {
      var n := |tokens| - 1;
      InkOfWords(tokens[..n]);
      InkOfWord(tokens[n]);
      if n > 0 {
        InkOfSpaced(JoinTokens(tokens[..n]), tokens[n]);
      } else {
        assert JoinTokens(tokens) == tokens[n];
      }
    }
  }

  /** The tokens of a text spell exactly its ink, in order. */
  lemma TokensSpellInk(t: Text)
    ensures Concat(Tokenize(t)) == InkOf(t)
  {
    hide Whitespace, Collapse, Word;
    TokensAreWords(t);
    JoinNormalises(t);
    InkOfWords(Tokenize(t));
    InkOfCollapse(Trim(t));
    var before, after := TrimSplits(t);
    InkOfBlank(before);
    InkOfBlank(after);
    InkOfJoined(before + Trim(t), after);
    InkOfJoined(before, Trim(t));
  }
}
