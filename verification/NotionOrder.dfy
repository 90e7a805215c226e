/**
 * The order in which a sync lists the pages below a Notion root. A place is the way to a block by its index in each
 * list on the way; the entries come in the order of their places, one for each place that ends a simple path in a page.
 */
module NotionOrder {
  import opened NotionTraversal
  import opened NotionCoverage
  import opened NotionPages
  import opened NotionPlaces
  import opened NotionText

  /** The way is a trail that ends in a page. */
  predicate Spot(c: Client, blocks: seq<Block>, seen: set<Id>, p: Place) {
    && p != [] && Leads(c, blocks, p)
    && Trail(c, blocks, seen, Way(c, blocks, p)) && Way(c, blocks, p)[|p| - 1].childPage
  }

  function Ids(way: seq<Block>): set<Id> {
    set b | b in way :: b.id
  }

  /** The content is the text of the page, read below the blocks of its way. */
  ghost predicate Holds(c: Client, id: Id, seen: set<Id>, content: string) {
    exists unsupported :: PageText(c, id, seen, content, unsupported)
  }

  /** The entry is the page at the end of the way with its text, under the titles of the pages on the way. */
  ghost predicate EndsAt(c: Client, blocks: seq<Block>, seen: set<Id>, path: seq<string>, p: Place, e: Entry) {
    && p != [] && Leads(c, blocks, p) && Ends(c, Way(c, blocks, p), path, e)
    && Holds(c, e.page.id, seen + Ids(Way(c, blocks, p)), e.content)
  }

  ghost predicate AllEndAt(c: Client, blocks: seq<Block>, seen: set<Id>, path: seq<string>, places: seq<Place>,
                           entries: seq<Entry>) {
    |places| == |entries| && forall i :: 0 <= i < |places| ==> EndsAt(c, blocks, seen, path, places[i], entries[i])
  }

  /** The places are exactly the spots, in their order. */
  ghost predicate Preorder(c: Client, blocks: seq<Block>, seen: set<Id>, places: seq<Place>) {
    Ordered(places) && forall p :: p in places <==> Spot(c, blocks, seen, p)
  }

  /* ---- the same for the block b itself, at the empty place, and the places in its list ---- */

  predicate SpotIn(c: Client, b: Block, seen: set<Id>, q: Place) {
    && b.id !in seen && Descends(b)
    && if q == [] then b.childPage else b.id in c.lists && Spot(c, c.lists[b.id], seen + {b.id}, q)
  }

  ghost predicate EndsIn(c: Client, b: Block, seen: set<Id>, path: seq<string>, q: Place, e: Entry) {
    if q == [] then Ends(c, [b], path, e) && Holds(c, e.page.id, seen + {b.id}, e.content)
    else b.id in c.lists && EndsAt(c, c.lists[b.id], seen + {b.id}, Below(c, b, path), q, e)
  }

  ghost predicate AllEndIn(c: Client, b: Block, seen: set<Id>, path: seq<string>, places: seq<Place>,
                           entries: seq<Entry>) {
    |places| == |entries| && forall i :: 0 <= i < |places| ==> EndsIn(c, b, seen, path, places[i], entries[i])
  }

  ghost predicate PreorderIn(c: Client, b: Block, seen: set<Id>, places: seq<Place>) {
    Ordered(places) && forall q :: q in places <==> SpotIn(c, b, seen, q)
  }

  lemma SpotStep(c: Client, blocks: seq<Block>, seen: set<Id>, p: Place)
    requires p != []
    ensures Spot(c, blocks, seen, p) <==> p[0] < |blocks| && SpotIn(c, blocks[p[0]], seen, p[1..])
  {
    if p[0] < |blocks| && Leads(c, blocks, p) {
      var b := blocks[p[0]];
      if |p| > 1 { assert Way(c, blocks, p)[1..] == Way(c, c.lists[b.id], p[1..]); }
    }
  }

  lemma EndsAtStep(c: Client, blocks: seq<Block>, seen: set<Id>, path: seq<string>, p: Place, e: Entry)
    requires p != [] && p[0] < |blocks|
    ensures EndsAt(c, blocks, seen, path, p, e) <==> EndsIn(c, blocks[p[0]], seen, path, p[1..], e)
  {
    hide Ends, Holds;
    var b := blocks[p[0]];
    if |p| == 1 {
      assert Way(c, blocks, p) == [b] && p[1..] == [];
      assert Ids([b]) == {b.id};
    } else if b.id in c.lists && Leads(c, c.lists[b.id], p[1..]) {
      var rest := Way(c, c.lists[b.id], p[1..]);
      assert Way(c, blocks, p) == [b] + rest;
      IdsOfStep(b, rest, seen);
      EndsStep(c, b, rest, path, e);
    }
  }

  lemma IdsOfStep(b: Block, rest: seq<Block>, seen: set<Id>)
    ensures seen + Ids([b] + rest) == seen + {b.id} + Ids(rest)
  {
    assert forall d :: d in [b] + rest <==> d == b || d in rest;
    assert b in [b] + rest;
  }

  /* ---- putting the places of a list together ---- */

  /** The spots of a list are those in its first block and those of the rest, one index later. */
  lemma SpotsOfList(c: Client, blocks: seq<Block>, seen: set<Id>, inside: seq<Place>, after: seq<Place>)
    requires blocks != [] && PreorderIn(c, blocks[0], seen, inside) && Preorder(c, blocks[1..], seen, after)
    ensures (forall i :: 0 <= i < |after| ==> after[i] != []) && Preorder(c, blocks, seen, Joined(inside, after))
  {
    hide SpotIn, Joined, Ordered;
    SpotsAreSomewhere(c, blocks[1..], seen, after);
    JoinedIsOrdered(inside, after);
    forall p ensures p in Joined(inside, after) <==> Spot(c, blocks, seen, p) {
      InJoined(inside, after, p);
      if p != [] {
        SpotStep(c, blocks, seen, p);
        if p[0] > 0 {
          var q := [p[0] - 1] + p[1..];
          SpotStep(c, blocks[1..], seen, q);
          assert q[1..] == p[1..];
        }
      }
    }
  }

  lemma SpotsAreSomewhere(c: Client, blocks: seq<Block>, seen: set<Id>, places: seq<Place>)
    requires Preorder(c, blocks, seen, places)
    ensures forall i :: 0 <= i < |places| ==> places[i] != []
  {
    forall i | 0 <= i < |places| ensures places[i] != [] { assert places[i] in places; }
  }

  lemma EntriesOfList(c: Client, blocks: seq<Block>, seen: set<Id>, path: seq<string>, inside: seq<Place>,
                      after: seq<Place>,
                      first: seq<Entry>, rest: seq<Entry>)
    requires blocks != [] && forall i :: 0 <= i < |after| ==> after[i] != []
    requires AllEndIn(c, blocks[0], seen, path, inside, first) && AllEndAt(c, blocks[1..], seen, path, after, rest)
    ensures AllEndAt(c, blocks, seen, path, Joined(inside, after), first + rest)
  {
    hide EndsAt, EndsIn, Joined;
    var places, n := Joined(inside, after), |inside|;
    forall i | 0 <= i < |places| ensures EndsAt(c, blocks, seen, path, places[i], (first + rest)[i]) {
      if i < n {
        EndsAtStep(c, blocks, seen, path, First(inside[i]), first[i]);
        assert First(inside[i])[1..] == inside[i];
      } else {
        var p := after[i - n];
        assert places[i] == places[n + (i - n)] == Later(p) && EndsAt(c, blocks[1..], seen, path, p, rest[i - n]);
        assert p[0] < |blocks[1..]| by { PlaceIsThere(c, blocks[1..], seen, path, p, rest[i - n]); }
        EndsAtStep(c, blocks[1..], seen, path, p, rest[i - n]);
        EndsAtStep(c, blocks, seen, path, Later(p), rest[i - n]);
        assert Later(p)[1..] == p[1..];
      }
    }
  }

  lemma PlaceIsThere(c: Client, blocks: seq<Block>, seen: set<Id>, path: seq<string>, p: Place, e: Entry)
    requires EndsAt(c, blocks, seen, path, p, e)
    ensures p != [] && p[0] < |blocks|
  {
  }

  /* ---- the entries ---- */

  /** The entries of a list, each at its place. */
  lemma {:induction false} PlacesOfList(c: Client, blocks: seq<Block>, seen: set<Id>, path: seq<string>)
    returns (places: seq<Place>)
    requires Canonical(c) && Known(c, blocks) && Walk(c, blocks, seen).Ok?
    ensures Preorder(c, blocks, seen, places)
    ensures AllEndAt(c, blocks, seen, path, places, FlattenAll(Walk(c, blocks, seen).value.childPages, path))
    decreases Universe(c) - seen, |blocks|
  {
    hide Canonical, Known, Universe, Walk, Visit, FlattenAll, Preorder, PreorderIn, AllEndAt, AllEndIn;
    if blocks == [] {
      places := [];
      NoPlaces(c, seen, path);
    } else {
      WalkEntries(c, blocks, seen, path);
      KnownRest(c, blocks);
      var inside := PlacesOfBlock(c, blocks[0], seen, path);
      var after := PlacesOfList(c, blocks[1..], seen, path);
      SpotsOfList(c, blocks, seen, inside, after);
      places := Joined(inside, after);
      EntriesOfList(c, blocks, seen, path, inside, after, FlattenAll(Visit(c, blocks[0], seen).value.childPages, path),
                    FlattenAll(Walk(c, blocks[1..], seen).value.childPages, path));
    }
  }

  lemma NoPlaces(c: Client, seen: set<Id>, path: seq<string>)
    ensures Walk(c, [], seen).Ok? && Preorder(c, [], seen, [])
    ensures AllEndAt(c, [], seen, path, [], FlattenAll(Walk(c, [], seen).value.childPages, path))
  {
    NoBlocksNoEntries(c, seen, path);
  }

  lemma SpotsOfBlock(c: Client, b: Block, seen: set<Id>, below: seq<Place>)
    requires Descends(b) && b.id !in seen && b.id in c.lists
    requires Preorder(c, c.lists[b.id], seen + {b.id}, below)
    ensures PreorderIn(c, b, seen, WithBlock(b.childPage, below))
  {
    hide Spot, WithBlock, Ordered;
    SpotsAreSomewhere(c, c.lists[b.id], seen + {b.id}, below);
    WithBlockIsOrdered(b.childPage, below);
    forall q ensures q in WithBlock(b.childPage, below) <==> SpotIn(c, b, seen, q) {
      InWithBlock(b.childPage, below, q);
    }
  }

  /** The entry of a child page holds the text that was read for it. */
  lemma FirstEntryHolds(c: Client, b: Block, seen: set<Id>, path: seq<string>)
    requires Canonical(c) && b.id in Universe(c) && Visit(c, b, seen).Ok? && b.childPage && b.id !in seen
    ensures var entries := FlattenAll(Visit(c, b, seen).value.childPages, path);
      entries != [] && entries[0].page.id == b.id && Holds(c, b.id, seen + {b.id}, entries[0].content)
  {
    hide PageText, Universe;
    LoadedText(c, b.id, seen);
    FlattenOne(Visit(c, b, seen).value.childPages[0], path);
  }

  lemma EntriesOfBlock(c: Client, b: Block, seen: set<Id>, path: seq<string>, below: seq<Place>, entries: seq<Entry>)
    requires b.id in c.lists
    requires b.childPage ==> entries != [] && EndsIn(c, b, seen, path, [], entries[0])
    requires AllEndAt(c, c.lists[b.id], seen + {b.id}, Below(c, b, path), below,
                      if b.childPage then entries[1..] else entries)
    ensures AllEndIn(c, b, seen, path, WithBlock(b.childPage, below), entries)
  {
    hide EndsAt, Ends, Leads;
    var places := WithBlock(b.childPage, below);
    forall i | 0 <= i < |places| ensures EndsIn(c, b, seen, path, places[i], entries[i]) {
      if !b.childPage || i > 0 {
        var k := if b.childPage then i - 1 else i;
        assert EndsAt(c, c.lists[b.id], seen + {b.id}, Below(c, b, path), below[k], entries[i]);
        PlaceIsThere(c, c.lists[b.id], seen + {b.id}, Below(c, b, path), below[k], entries[i]);
      }
    }
  }

  lemma {:induction false} PlacesOfBlock(c: Client, b: Block, seen: set<Id>, path: seq<string>)
    returns (places: seq<Place>)
    requires Canonical(c) && b.id in Universe(c) && Visit(c, b, seen).Ok?
    ensures PreorderIn(c, b, seen, places)
    ensures AllEndIn(c, b, seen, path, places, FlattenAll(Visit(c, b, seen).value.childPages, path))
    decreases Universe(c) - seen, 0
  {
    hide Canonical, Known, Universe, Walk, Visit, FlattenAll, Preorder, AllEndAt, Spot, EndsAt, Ends, Trail;
    VisitEntries(c, b, seen, path);
    var entries := FlattenAll(Visit(c, b, seen).value.childPages, path);
    if Descends(b) && b.id !in seen {
      hide PreorderIn, AllEndIn, WithBlock;
      assert b.id in Universe(c) - seen;
      var below := PlacesOfList(c, c.lists[b.id], seen + {b.id}, Below(c, b, path));
      places := WithBlock(b.childPage, below);
      SpotsOfBlock(c, b, seen, below);
      if b.childPage {
        SingleTrail(c, b, seen, path, entries[0]);
        FirstEntryHolds(c, b, seen, path);
      }
      EntriesOfBlock(c, b, seen, path, below, entries);
    } else {
      places := [];
    }
  }

  /** A place below the root whose way is a simple path to a page. */
  predicate PagePlace(c: Client, root: Id, p: Place)
    requires root in c.lists
  {
    && p != [] && Leads(c, c.lists[root], p)
    && SimplePath(c, root, Way(c, c.lists[root], p)) && Way(c, c.lists[root], p)[|p| - 1].childPage
  }

  /**
   * The entries after the root's own stand for the places of all simple paths to pages, each once, in preorder: a page
   * before the pages below it, and what lies below an earlier block before what lies below a later one. Each entry,
   * the root's own included, holds the text that stands below its page.
   */
  lemma EntriesInPreorder(c: Client, root: Id) returns (places: seq<Place>)
    requires Loads(c, root)
    ensures root in c.pages && root in c.lists && |Entries(c, root)| == 1 + |places| && Ordered(places)
    ensures forall p :: p in places <==> PagePlace(c, root, p)
    ensures Entries(c, root)[0].page == c.pages[root] && Holds(c, root, {root}, Entries(c, root)[0].content)
    ensures forall i :: 0 <= i < |places| ==>
              EndsAt(c, c.lists[root], {root}, [c.pages[root].title], places[i], Entries(c, root)[i + 1])
  {
    hide Entries, Loads, Walk, FlattenAll, Universe, Ordered, EndsAt, Spot, PagePlace;
    LoadsCanonical(c, root);
    RootFirst(c, root);
    RootHolds(c, root);
    places := PlacesOfList(c, c.lists[root], {root}, [c.pages[root].title]);
    forall p ensures p in places <==> PagePlace(c, root, p) { SpotsArePagePlaces(c, root, p); }
    forall i | 0 <= i < |places|
      ensures EndsAt(c, c.lists[root], {root}, [c.pages[root].title], places[i], Entries(c, root)[i + 1])
    {
      assert Entries(c, root)[i + 1] == Entries(c, root)[1..][i];
    }
  }

  lemma RootHolds(c: Client, root: Id)
    requires Loads(c, root)
    ensures Entries(c, root) != [] && Holds(c, root, {root}, Entries(c, root)[0].content)
  {
    hide PageText, Universe;
    assert {} + {root} == {root};
    LoadedText(c, root, {});
  }

  lemma SpotsArePagePlaces(c: Client, root: Id, p: Place)
    requires root in c.lists
    ensures Spot(c, c.lists[root], {root}, p) <==> PagePlace(c, root, p)
  {
    hide Trail, Linked, Simple;
    if p != [] && Leads(c, c.lists[root], p) {
      TrailsAreSimplePaths(c, root, {root}, Way(c, c.lists[root], p));
    }
  }
}
