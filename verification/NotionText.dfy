/**
 * What is read as the text of a page: the rendered lines of the blocks below it, down to its child pages, in
 * preorder, a block before what is nested in it; the blocks that cannot be rendered are listed in the same way.
 */
module NotionText {
  import opened Results
  import opened NotionTraversal
  import opened NotionCoverage
  import opened NotionPlaces

  /* ---- the places of a page's text ---- */

  /**
   * The way passes no child page and goes down through blocks whose ids are not in `seen` and not twice on it; the last
   * block is read even if its id was met before.
   */
  predicate TextSpot(c: Client, blocks: seq<Block>, seen: set<Id>, p: Place) {
    && p != [] && Leads(c, blocks, p)
    && var way := Way(c, blocks, p);
       && (forall k :: 0 <= k < |p| ==> !way[k].childPage) && (forall k :: 0 <= k < |p| - 1 ==> way[k].hasChildren)
       && Simple(seen, way[..|p| - 1])
  }

  function BlockAt(c: Client, blocks: seq<Block>, p: Place): Block
    requires p != [] && Leads(c, blocks, p)
  {
    Way(c, blocks, p)[|p| - 1]
  }

  /** The text spots, each once and in preorder. */
  ghost predicate TextPlaces(c: Client, blocks: seq<Block>, seen: set<Id>, places: seq<Place>) {
    Ordered(places) && forall p :: p in places <==> TextSpot(c, blocks, seen, p)
  }

  predicate AllLead(c: Client, blocks: seq<Block>, places: seq<Place>) {
    forall i :: 0 <= i < |places| ==> places[i] != [] && Leads(c, blocks, places[i])
  }

  function BlocksAt(c: Client, blocks: seq<Block>, places: seq<Place>): (found: seq<Block>)
    requires AllLead(c, blocks, places)
    ensures |found| == |places| && forall i :: 0 <= i < |places| ==> found[i] == BlockAt(c, blocks, places[i])
  {
    seq(|places|, i requires 0 <= i < |places| => BlockAt(c, blocks, places[i]))
  }

  function LinesOf(blocks: seq<Block>): seq<string> {
    if blocks == [] then []
    else (if blocks[0].rendered.Line? then [blocks[0].rendered.text] else []) + LinesOf(blocks[1..])
  }

  function UnsupportedOf(blocks: seq<Block>): seq<Id> {
    if blocks == [] then []
    else (if blocks[0].rendered.Unsupported? then [blocks[0].id] else []) + UnsupportedOf(blocks[1..])
  }

  lemma ReadInParts(a: seq<Block>, b: seq<Block>)
    ensures LinesOf(a + b) == LinesOf(a) + LinesOf(b) && UnsupportedOf(a + b) == UnsupportedOf(a) + UnsupportedOf(b)
  {
    LinesInParts(a, b);
    UnsupportedInParts(a, b);
  }

  lemma {:induction false} LinesInParts(a: seq<Block>, b: seq<Block>)
    ensures LinesOf(a + b) == LinesOf(a) + LinesOf(b)
  {
    if a == [] {
      assert a + b == b;
    } else {
      assert (a + b)[1..] == a[1..] + b;
      LinesInParts(a[1..], b);
    }
  }

  lemma {:induction false} UnsupportedInParts(a: seq<Block>, b: seq<Block>)
    ensures UnsupportedOf(a + b) == UnsupportedOf(a) + UnsupportedOf(b)
  {
    if a == [] {
      assert a + b == b;
    } else {
      assert (a + b)[1..] == a[1..] + b;
      UnsupportedInParts(a[1..], b);
    }
  }

  lemma LinesStep(lines: seq<string>, last: string)
    ensures Lines(lines + [last]) == if lines == [] then last else Lines(lines) + "\n" + last
  {
    assert (lines + [last])[..|lines|] == lines;
  }

  /** Lines are joined by line feeds. */
  lemma {:induction false} LinesJoin(a: seq<string>, b: seq<string>)
    ensures Lines(a + b) == if a == [] then Lines(b) else if b == [] then Lines(a) else Lines(a) + "\n" + Lines(b)
  {
    hide Lines;
    if b == [] {
      assert a + b == a;
    } else if a == [] {
      assert a + b == b;
    } else {
      var n := |b| - 1;
      LinesJoin(a, b[..n]);
      assert a + b == (a + b[..n]) + [b[n]] && b == b[..n] + [b[n]];
      LinesStep(a + b[..n], b[n]);
      LinesStep(b[..n], b[n]);
      assert Lines(a) + "\n" + (Lines(b[..n]) + "\n" + b[n]) == Lines(a) + "\n" + Lines(b[..n]) + "\n" + b[n];
    }
  }

  /* ---- the same for the block b itself, at the empty place, and the places in its list ---- */

  predicate TextIn(c: Client, b: Block, seen: set<Id>, q: Place) {
    && !b.childPage
    && (q != [] ==> b.hasChildren && b.id !in seen && b.id in c.lists
                    && TextSpot(c, c.lists[b.id], seen + {b.id}, q))
  }

  lemma TextStep(c: Client, blocks: seq<Block>, seen: set<Id>, p: Place)
    requires p != []
    ensures TextSpot(c, blocks, seen, p) <==> p[0] < |blocks| && TextIn(c, blocks[p[0]], seen, p[1..])
  {
    hide Simple;
    if p[0] < |blocks| && Leads(c, blocks, p) {
      var b, way := blocks[p[0]], Way(c, blocks, p);
      if |p| == 1 {
        NothingIsSimple(seen);
        assert way[0] == b && way[..|p| - 1] == [] && p[1..] == [];
      } else {
        var rest := Way(c, c.lists[b.id], p[1..]);
        assert way == [b] + rest;
        assert way[..|p| - 1] == [b] + rest[..|rest| - 1];
        SimpleStep(seen, way[..|p| - 1]);
        assert way[..|p| - 1][1..] == rest[..|rest| - 1];
        assert forall k :: 0 <= k < |rest| ==> way[k + 1] == rest[k];
        WayOfStep(way, rest);
      }
    }
  }

  lemma NothingIsSimple(seen: set<Id>)
    ensures Simple(seen, [])
  {
  }

  lemma WayOfStep(way: seq<Block>, rest: seq<Block>)
    requires rest != [] && |way| == |rest| + 1 && way[1..] == rest
    ensures (forall k :: 0 <= k < |way| ==> !way[k].childPage)
      <==> !way[0].childPage && (forall k :: 0 <= k < |rest| ==> !rest[k].childPage)
    ensures (forall k :: 0 <= k < |way| - 1 ==> way[k].hasChildren)
      <==> way[0].hasChildren && (forall k :: 0 <= k < |rest| - 1 ==> rest[k].hasChildren)
  {
    forall k | 0 <= k < |rest| ensures way[k + 1] == rest[k] {
    }
    forall k | 0 < k < |way| ensures way[k] == rest[k - 1] {
    }
  }

  /** The places are a page's text, and its lines and unsupported ids are what stands there. */
  ghost predicate Reads(c: Client, blocks: seq<Block>, seen: set<Id>, places: seq<Place>, lines: seq<string>,
                        unsupported: seq<Id>) {
    && TextPlaces(c, blocks, seen, places) && AllLead(c, blocks, places)
    && lines == LinesOf(BlocksAt(c, blocks, places)) && unsupported == UnsupportedOf(BlocksAt(c, blocks, places))
  }

  /** The block itself and the blocks at the places in its list. */
  function BlocksIn(c: Client, b: Block, below: seq<Place>): seq<Block>
    requires below != [] ==> b.id in c.lists && AllLead(c, c.lists[b.id], below)
  {
    [b] + if below == [] then [] else BlocksAt(c, c.lists[b.id], below)
  }

  ghost predicate TextPlacesIn(c: Client, b: Block, seen: set<Id>, places: seq<Place>) {
    Ordered(places) && forall q :: q in places <==> TextIn(c, b, seen, q)
  }

  lemma TextOfList(c: Client, blocks: seq<Block>, seen: set<Id>, inside: seq<Place>, after: seq<Place>)
    requires blocks != [] && TextPlacesIn(c, blocks[0], seen, inside) && TextPlaces(c, blocks[1..], seen, after)
    ensures (forall i :: 0 <= i < |after| ==> after[i] != []) && TextPlaces(c, blocks, seen, Joined(inside, after))
  {
    hide TextIn, TextSpot, Joined, Ordered;
    TextIsSomewhere(c, blocks[1..], seen, after);
    JoinedIsOrdered(inside, after);
    forall p ensures p in Joined(inside, after) <==> TextSpot(c, blocks, seen, p) {
      InJoined(inside, after, p);
      if p == [] {
        NowhereIsNoText(c, blocks, seen);
      } else {
        TextStep(c, blocks, seen, p);
        if p[0] > 0 {
          var q := [p[0] - 1] + p[1..];
          TextStep(c, blocks[1..], seen, q);
          assert q[1..] == p[1..];
        }
      }
    }
  }

  lemma NowhereIsNoText(c: Client, blocks: seq<Block>, seen: set<Id>)
    ensures !TextSpot(c, blocks, seen, [])
  {
  }

  lemma TextIsSomewhere(c: Client, blocks: seq<Block>, seen: set<Id>, places: seq<Place>)
    requires TextPlaces(c, blocks, seen, places)
    ensures forall i :: 0 <= i < |places| ==> places[i] != []
  {
    hide TextSpot, Ordered;
    NowhereIsNoText(c, blocks, seen);
    forall i | 0 <= i < |places| ensures places[i] != [] { assert places[i] in places; }
  }

  lemma BlockAtStep(c: Client, blocks: seq<Block>, p: Place)
    requires p != [] && Leads(c, blocks, p)
    ensures BlockAt(c, blocks, p) == if |p| == 1 then blocks[p[0]] else BlockAt(c, c.lists[blocks[p[0]].id], p[1..])
  {
  }

  /** The blocks of a list's text are those in its first block, then those of the rest. */
  lemma BlocksOfList(c: Client, blocks: seq<Block>, inside: seq<Place>, after: seq<Place>, found: seq<Block>)
    requires blocks != [] && AllLead(c, blocks[1..], after) && |found| == |inside|
    requires forall i :: 0 <= i < |inside| ==>
               Leads(c, blocks, First(inside[i])) && BlockAt(c, blocks, First(inside[i])) == found[i]
    ensures AllLead(c, blocks, Joined(inside, after))
    ensures BlocksAt(c, blocks, Joined(inside, after)) == found + BlocksAt(c, blocks[1..], after)
  {
    hide Joined, BlockAt, First;
    var places, n := Joined(inside, after), |inside|;
    forall i | 0 <= i < |places|
      ensures places[i] != [] && Leads(c, blocks, places[i])
      ensures BlockAt(c, blocks, places[i]) == (found + BlocksAt(c, blocks[1..], after))[i]
    {
      if i < n {
        FirstIsSomewhere(inside[i]);
      } else {
        var p := after[i - n];
        assert places[i] == places[n + (i - n)] == Later(p);
        assert Later(p)[1..] == p[1..] && blocks[1..][p[0]] == blocks[p[0] + 1];
        BlockAtStep(c, blocks[1..], p);
        BlockAtStep(c, blocks, Later(p));
      }
    }
  }

  lemma FirstIsSomewhere(q: Place)
    ensures First(q) != []
  {
  }

  lemma BlocksOfFirst(c: Client, blocks: seq<Block>, q: Place)
    requires blocks != [] && (q != [] ==> blocks[0].id in c.lists && Leads(c, c.lists[blocks[0].id], q))
    ensures Leads(c, blocks, First(q))
    ensures BlockAt(c, blocks, First(q)) == if q == [] then blocks[0] else BlockAt(c, c.lists[blocks[0].id], q)
  {
    assert First(q)[1..] == q;
    BlockAtStep(c, blocks, First(q));
  }

  /* ---- what the traversal reads ---- */

  /** What a visited block adds, with the places of its text. */
  ghost predicate ReadsIn(c: Client, b: Block, seen: set<Id>, places: seq<Place>, below: seq<Place>, own: Children) {
    && TextPlacesIn(c, b, seen, places)
    && (below != [] ==> b.id in c.lists && AllLead(c, c.lists[b.id], below))
    && if b.childPage then places == [] && own.lines == [] && own.unsupported == []
       else places == [[]] + below && own.lines == LinesOf(BlocksIn(c, b, below))
            && own.unsupported == UnsupportedOf(BlocksIn(c, b, below))
  }

  lemma NoTextPlaces(c: Client, seen: set<Id>)
    ensures Reads(c, [], seen, [], [], [])
  {
    forall p ensures !TextSpot(c, [], seen, p) {
    }
  }

  lemma OwnOnly(b: Block)
    requires !b.childPage
    ensures Own(b).lines == LinesOf([b]) && Own(b).unsupported == UnsupportedOf([b])
  {
    assert [b][1..] == [];
  }

  /** A block that is read on its own: a child page adds nothing, any other its own line. */
  lemma ReadsAlone(c: Client, b: Block, seen: set<Id>)
    requires b.childPage || !b.hasChildren || b.id in seen
    ensures ReadsIn(c, b, seen, if b.childPage then [] else [[]], [], if b.childPage then EMPTY else Own(b))
  {
    if !b.childPage {
      OwnOnly(b);
      var alone: seq<Place> := [[]];
      assert alone + [] == alone && [b] + [] == [b];
    }
  }

  lemma ReadsNested(c: Client, b: Block, seen: set<Id>, below: seq<Place>, nested: Children)
    requires !b.childPage && b.hasChildren && b.id !in seen && b.id in c.lists
    requires Reads(c, c.lists[b.id], seen + {b.id}, below, nested.lines, nested.unsupported)
    ensures ReadsIn(c, b, seen, [[]] + below, below, Append(Own(b), nested))
  {
    hide TextSpot, BlockAt, Ordered, Leads;
    TextIsSomewhere(c, c.lists[b.id], seen + {b.id}, below);
    WithBlockIsOrdered(true, below);
    forall q ensures q in [[]] + below <==> TextIn(c, b, seen, q) { InWithBlock(true, below, q); }
    OwnOnly(b);
    if below == [] {
      assert [b] + [] == [b];
      assert LinesOf(BlocksAt(c, c.lists[b.id], below)) == [] && UnsupportedOf(BlocksAt(c, c.lists[b.id], below)) == [];
    } else {
      ReadInParts([b], BlocksAt(c, c.lists[b.id], below));
    }
  }

  /** A list is read block by block. */
  lemma ReadsList(c: Client, blocks: seq<Block>, seen: set<Id>, inside: seq<Place>, below: seq<Place>,
                  after: seq<Place>, first: Children, rest: Children)
    requires blocks != [] && ReadsIn(c, blocks[0], seen, inside, below, first)
    requires Reads(c, blocks[1..], seen, after, rest.lines, rest.unsupported)
    ensures forall i :: 0 <= i < |after| ==> after[i] != []
    ensures Reads(c, blocks, seen, Joined(inside, after), first.lines + rest.lines,
                  first.unsupported + rest.unsupported)
  {
    hide TextSpot, TextIn, BlockAt, Ordered, Leads, Joined, First;
    var b := blocks[0];
    TextOfList(c, blocks, seen, inside, after);
    var found := if b.childPage then [] else BlocksIn(c, b, below);
    forall i | 0 <= i < |inside|
      ensures First(inside[i]) != [] && Leads(c, blocks, First(inside[i]))
      ensures BlockAt(c, blocks, First(inside[i])) == found[i]
    {
      FirstIsSomewhere(inside[i]);
      BlocksOfFirst(c, blocks, inside[i]);
    }
    BlocksOfList(c, blocks, inside, after, found);
    ReadInParts(found, BlocksAt(c, blocks[1..], after));
  }

  lemma {:induction false} TextOfWalk(c: Client, blocks: seq<Block>, seen: set<Id>) returns (places: seq<Place>)
    requires Known(c, blocks) && Walk(c, blocks, seen).Ok?
    ensures Reads(c, blocks, seen, places, Walk(c, blocks, seen).value.lines, Walk(c, blocks, seen).value.unsupported)
    decreases Universe(c) - seen, |blocks|
  {
    hide Known, Universe, Walk, Visit, Reads, ReadsIn;
    if blocks == [] {
      places := [];
      NoTextPlaces(c, seen);
      NothingWalked(c, seen);
    } else {
      WalkedOne(c, blocks, seen);
      KnownRest(c, blocks);
      var inside, below := TextOfVisit(c, blocks[0], seen);
      var after := TextOfWalk(c, blocks[1..], seen);
      ReadsList(c, blocks, seen, inside, below, after,
                Visit(c, blocks[0], seen).value, Walk(c, blocks[1..], seen).value);
      places := Joined(inside, after);
    }
  }

  lemma NothingWalked(c: Client, seen: set<Id>)
    ensures Walk(c, [], seen) == Ok(EMPTY)
  {
  }

  lemma WalkedOne(c: Client, blocks: seq<Block>, seen: set<Id>)
    requires Known(c, blocks) && blocks != [] && Walk(c, blocks, seen).Ok?
    ensures Visit(c, blocks[0], seen).Ok? && Walk(c, blocks[1..], seen).Ok?
    ensures Walk(c, blocks, seen).value == Append(Visit(c, blocks[0], seen).value, Walk(c, blocks[1..], seen).value)
  {
  }

  lemma {:induction false} TextOfVisit(c: Client, b: Block, seen: set<Id>)
    returns (places: seq<Place>, below: seq<Place>)
    requires b.id in Universe(c) && Visit(c, b, seen).Ok?
    ensures ReadsIn(c, b, seen, places, below, Visit(c, b, seen).value)
    decreases Universe(c) - seen, 0
  {
    hide Known, Universe, Walk, Visit, Reads, ReadsIn;
    VisitedOne(c, b, seen);
    if !b.childPage && b.hasChildren && b.id !in seen {
      assert b.id in Universe(c) - seen;
      below := TextOfWalk(c, c.lists[b.id], seen + {b.id});
      ReadsNested(c, b, seen, below, Walk(c, c.lists[b.id], seen + {b.id}).value);
      places := [[]] + below;
    } else {
      below := [];
      places := if b.childPage then [] else [[]];
      ReadsAlone(c, b, seen);
      SameText(c, b, seen, places, Visit(c, b, seen).value, if b.childPage then EMPTY else Own(b));
    }
  }

  lemma SameText(c: Client, b: Block, seen: set<Id>, places: seq<Place>, own: Children, other: Children)
    requires ReadsIn(c, b, seen, places, [], other)
    requires own.lines == other.lines && own.unsupported == other.unsupported
    ensures ReadsIn(c, b, seen, places, [], own)
  {
  }

  lemma VisitedOne(c: Client, b: Block, seen: set<Id>)
    requires b.id in Universe(c) && Visit(c, b, seen).Ok?
    ensures b.childPage ==> Visit(c, b, seen).value.lines == [] && Visit(c, b, seen).value.unsupported == []
    ensures !b.childPage && (!b.hasChildren || b.id in seen) ==> Visit(c, b, seen).value == Own(b)
    ensures !b.childPage && b.hasChildren && b.id !in seen ==>
              b.id in c.lists && Known(c, c.lists[b.id]) && Walk(c, c.lists[b.id], seen + {b.id}).Ok?
              && Visit(c, b, seen).value == Append(Own(b), Walk(c, c.lists[b.id], seen + {b.id}).value)
  {
    hide Walk, Universe;
    if b.id in c.lists { ListsAreKnown(c, b.id); }
  }

  /** The content and the unsupported ids of a page whose blocks are listed, read below the ids in `seen`. */
  ghost predicate PageText(c: Client, id: Id, seen: set<Id>, content: string, unsupported: seq<Id>) {
    id in c.lists && exists places, lines :: ReadsTo(c, c.lists[id], seen, places, lines, content, unsupported)
  }

  ghost predicate ReadsTo(c: Client, blocks: seq<Block>, seen: set<Id>, places: seq<Place>, lines: seq<string>,
                          content: string, unsupported: seq<Id>) {
    Reads(c, blocks, seen, places, lines, unsupported) && content == Lines(lines)
  }

  /** A loaded page has the text that stands below it. */
  lemma LoadedText(c: Client, pageId: Id, visited: set<Id>)
    requires Load(c, pageId, visited).Ok? && c.pages[pageId].id == pageId
    ensures var s := Load(c, pageId, visited).value;
      s.page == c.pages[pageId] && PageText(c, pageId, visited + {pageId}, s.content, s.unsupported)
  {
    hide Walk, Reads, Lines, Universe;
    assert visited + {pageId} + {pageId} == visited + {pageId};
    assert Build(c, c.pages[pageId], visited + {pageId}).Ok?;
    assert Collect(c, pageId, visited + {pageId}).Ok?;
    ListsAreKnown(c, pageId);
    var children := Walk(c, c.lists[pageId], visited + {pageId}).value;
    var places := TextOfWalk(c, c.lists[pageId], visited + {pageId});
    assert ReadsTo(c, c.lists[pageId], visited + {pageId}, places, children.lines, Lines(children.lines),
                   children.unsupported);
  }
}
