/** Places in the lists of a block graph, and their order. */
module NotionPlaces {
  import opened NotionTraversal

  /** Indexes into a block list, then into the list of that block, and so on. */
  type Place = seq<nat>

  /** Above, or earlier in the list where the ways part. */
  predicate Precedes(p: Place, q: Place) {
    q != [] && (p == [] || p[0] < q[0] || (p[0] == q[0] && Precedes(p[1..], q[1..])))
  }

  predicate Ordered(places: seq<Place>) {
    forall i, j :: 0 <= i < j < |places| ==> Precedes(places[i], places[j])
  }

  predicate Leads(c: Client, blocks: seq<Block>, p: Place)
    decreases |p|
  {
    p != [] ==>
      p[0] < |blocks| && (|p| > 1 ==> blocks[p[0]].id in c.lists && Leads(c, c.lists[blocks[p[0]].id], p[1..]))
  }

  /** The blocks on the way. */
  function Way(c: Client, blocks: seq<Block>, p: Place): (way: seq<Block>)
    requires Leads(c, blocks, p)
    ensures |way| == |p|
    decreases |p|
  {
    if p == [] then []
    else [blocks[p[0]]] + if |p| == 1 then [] else Way(c, c.lists[blocks[p[0]].id], p[1..])
  }

  /* ---- putting the places of a list together ---- */

  function First(q: Place): Place {
    [0] + q
  }

  function Later(p: Place): Place
    requires p != []
  {
    [p[0] + 1] + p[1..]
  }

  /** Everything in the first block, then everything in the later ones. */
  function Joined(inside: seq<Place>, after: seq<Place>): (places: seq<Place>)
    requires forall i :: 0 <= i < |after| ==> after[i] != []
    ensures |places| == |inside| + |after|
    ensures forall i :: 0 <= i < |inside| ==> places[i] == First(inside[i])
    ensures forall i :: 0 <= i < |after| ==> places[|inside| + i] == Later(after[i])
  {
    seq(|inside|, i requires 0 <= i < |inside| => First(inside[i]))
    + seq(|after|, i requires 0 <= i < |after| => Later(after[i]))
  }

  lemma FirstKeepsOrder(p: Place, q: Place)
    ensures Precedes(First(p), First(q)) == Precedes(p, q)
  {
    assert First(p)[1..] == p && First(q)[1..] == q;
  }

  lemma LaterKeepsOrder(p: Place, q: Place)
    requires p != [] && q != []
    ensures Precedes(Later(p), Later(q)) == Precedes(p, q)
  {
    assert Later(p)[1..] == p[1..] && Later(q)[1..] == q[1..];
  }

  lemma FirstBeforeLater(p: Place, q: Place)
    requires q != []
    ensures Precedes(First(p), Later(q))
  {
  }

  lemma JoinedIsOrdered(inside: seq<Place>, after: seq<Place>)
    requires Ordered(inside) && Ordered(after) && forall i :: 0 <= i < |after| ==> after[i] != []
    ensures Ordered(Joined(inside, after))
  {
    hide Precedes, First, Later, Joined;
    var places, n := Joined(inside, after), |inside|;
    forall i, j | 0 <= i < j < |places| ensures Precedes(places[i], places[j]) {
      if j < n {
        FirstKeepsOrder(inside[i], inside[j]);
      } else if i < n {
        assert places[j] == places[n + (j - n)];
        FirstBeforeLater(inside[i], after[j - n]);
      } else {
        assert places[i] == places[n + (i - n)] && places[j] == places[n + (j - n)];
        LaterKeepsOrder(after[i - n], after[j - n]);
      }
    }
  }

  lemma FirstMeans(p: Place, q: Place)
    ensures p == First(q) <==> p != [] && p[0] == 0 && p[1..] == q
  {
  }

  lemma LaterMeans(p: Place, q: Place)
    requires q != []
    ensures p == Later(q) <==> p != [] && p[0] > 0 && [p[0] - 1] + p[1..] == q
  {
  }

  lemma InJoined(inside: seq<Place>, after: seq<Place>, p: Place)
    requires forall i :: 0 <= i < |after| ==> after[i] != []
    ensures p in Joined(inside, after) <==>
              p != [] && if p[0] == 0 then p[1..] in inside else [p[0] - 1] + p[1..] in after
  {
    hide First, Later, Joined;
    var places, n := Joined(inside, after), |inside|;
    if k :| 0 <= k < |places| && places[k] == p {
      if k < n {
        FirstMeans(p, inside[k]);
      } else {
        assert p == places[n + (k - n)] == Later(after[k - n]);
        LaterMeans(p, after[k - n]);
      }
    }
    if p != [] && p[0] == 0 && p[1..] in inside {
      var i :| 0 <= i < n && inside[i] == p[1..];
      FirstMeans(p, inside[i]);
      assert places[i] == p;
    }
    if p != [] && p[0] > 0 && [p[0] - 1] + p[1..] in after {
      var i :| 0 <= i < |after| && after[i] == [p[0] - 1] + p[1..];
      LaterMeans(p, after[i]);
      assert places[n + i] == p;
    }
  }

  /** What a block contributes: perhaps itself, then what its list contributes. */
  function WithBlock(itself: bool, below: seq<Place>): seq<Place> {
    if itself then [[]] + below else below
  }

  lemma WithBlockIsOrdered(itself: bool, below: seq<Place>)
    requires Ordered(below) && forall i :: 0 <= i < |below| ==> below[i] != []
    ensures Ordered(WithBlock(itself, below))
  {
    var places := WithBlock(itself, below);
    forall i, j | 0 <= i < j < |places| ensures Precedes(places[i], places[j]) {
      if itself && i > 0 { assert Precedes(below[i - 1], below[j - 1]); }
    }
  }

  lemma InWithBlock(itself: bool, below: seq<Place>, q: Place)
    requires forall i :: 0 <= i < |below| ==> below[i] != []
    ensures q in WithBlock(itself, below) <==> if q == [] then itself else q in below
  {
    if q == [] && q in below { assert false; }
  }
}
