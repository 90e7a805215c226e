/**
 * Which pages a traversal returns. A trail is a path of blocks from the root that never comes back to an id;
 * every trail that ends in a page gives one entry, so cycles end and every reachable page is read.
 */
module NotionCoverage {
  import opened NotionTraversal

  /** The client answers a page with that page. */
  predicate Canonical(c: Client) {
    forall id :: id in c.pages ==> c.pages[id].id == id
  }

  predicate Descends(b: Block) {
    b.childPage || b.hasChildren
  }

  /** Block by block downwards, never to an id in seen or to one twice. */
  predicate Trail(c: Client, blocks: seq<Block>, seen: set<Id>, p: seq<Block>)
    decreases |p|
  {
    && p != [] && p[0] in blocks && p[0].id !in seen && Descends(p[0])
    && (|p| == 1 || (p[0].id in c.lists && Trail(c, c.lists[p[0].id], seen + {p[0].id}, p[1..])))
  }

  /** Titles of the pages on a trail. */
  function Titles(c: Client, p: seq<Block>): seq<string> {
    if p == [] then []
    else (if p[0].childPage && p[0].id in c.pages then [c.pages[p[0].id].title] else []) + Titles(c, p[1..])
  }

  predicate Ends(c: Client, p: seq<Block>, path: seq<string>, e: Entry) {
    && p != [] && p[|p| - 1].childPage && p[|p| - 1].id in c.pages
    && e.page == c.pages[p[|p| - 1].id] && e.pathSegments == path + Titles(c, p[..|p| - 1])
  }

  lemma {:induction false} FlattenAppend(a: seq<Snapshot>, b: seq<Snapshot>, path: seq<string>)
    ensures FlattenAll(a + b, path) == FlattenAll(a, path) + FlattenAll(b, path)
  {
    if a == [] {
      assert a + b == b;
    } else {
      assert (a + b)[1..] == a[1..] + b;
      FlattenAppend(a[1..], b, path);
    }
  }

  lemma FlattenOne(s: Snapshot, path: seq<string>)
    ensures FlattenAll([s], path) == Flatten(s, path)
  {
  }

  /** What a child page, and what a nesting block, contributes. */
  function Below(c: Client, b: Block, path: seq<string>): seq<string> {
    if b.childPage && b.id in c.pages then path + [c.pages[b.id].title] else path
  }

  /** A visit that went down read the block's own list. */
  lemma VisitGoesDown(c: Client, b: Block, seen: set<Id>)
    requires Canonical(c) && b.id in Universe(c) && Visit(c, b, seen).Ok? && Descends(b) && b.id !in seen
    ensures b.id in c.lists && Known(c, c.lists[b.id]) && Walk(c, c.lists[b.id], seen + {b.id}).Ok?
    ensures var nested := Walk(c, c.lists[b.id], seen + {b.id}).value;
      if b.childPage then b.id in c.pages && Visit(c, b, seen).value.childPages == [SnapshotOf(c.pages[b.id], nested)]
      else Visit(c, b, seen).value.childPages == nested.childPages
  {
    hide Walk, Universe, Lines;
    assert seen + {b.id} + {b.id} == seen + {b.id};
    if b.childPage {
      assert Load(c, b.id, seen).Ok? && c.pages[b.id].id == b.id;
      assert Collect(c, b.id, seen + {b.id}).Ok?;
    } else {
      assert Collect(c, b.id, seen).Ok?;
    }
    ListsAreKnown(c, b.id);
  }

  /** The entries of one visited block: itself when it is a page, then everything in its own list. */
  lemma VisitEntries(c: Client, b: Block, seen: set<Id>, path: seq<string>)
    requires Canonical(c) && b.id in Universe(c) && Visit(c, b, seen).Ok?
    ensures Descends(b) && b.id !in seen ==>
      b.id in c.lists && Known(c, c.lists[b.id]) && Walk(c, c.lists[b.id], seen + {b.id}).Ok?
    ensures var entries := FlattenAll(Visit(c, b, seen).value.childPages, path);
      if !Descends(b) || b.id in seen then entries == []
      else
        var below := FlattenAll(Walk(c, c.lists[b.id], seen + {b.id}).value.childPages, Below(c, b, path));
        if b.childPage then b.id in c.pages && |entries| == 1 + |below| && entries[1..] == below
          && entries[0].page == c.pages[b.id] && entries[0].pathSegments == path
        else entries == below
  {
    hide Walk, Universe, Lines;
    if Descends(b) && b.id !in seen {
      VisitGoesDown(c, b, seen);
      if b.childPage { FlattenOne(Visit(c, b, seen).value.childPages[0], path); }
    }
  }

  lemma WalkEntries(c: Client, blocks: seq<Block>, seen: set<Id>, path: seq<string>)
    requires Known(c, blocks) && blocks != [] && Walk(c, blocks, seen).Ok?
    ensures Visit(c, blocks[0], seen).Ok? && Walk(c, blocks[1..], seen).Ok?
    ensures FlattenAll(Walk(c, blocks, seen).value.childPages, path) ==
      FlattenAll(Visit(c, blocks[0], seen).value.childPages, path)
        + FlattenAll(Walk(c, blocks[1..], seen).value.childPages, path)
  {
    FlattenAppend(Visit(c, blocks[0], seen).value.childPages, Walk(c, blocks[1..], seen).value.childPages, path);
  }

  lemma TrailStep(c: Client, blocks: seq<Block>, seen: set<Id>, b: Block, p: seq<Block>)
    requires b in blocks && b.id !in seen && Descends(b) && b.id in c.lists && Trail(c, c.lists[b.id], seen + {b.id}, p)
    ensures Trail(c, blocks, seen, [b] + p)
  {
    assert ([b] + p)[1..] == p;
  }

  lemma EndsStep(c: Client, b: Block, p: seq<Block>, path: seq<string>, e: Entry)
    requires p != []
    ensures Ends(c, [b] + p, path, e) <==> Ends(c, p, Below(c, b, path), e)
  {
    var q := [b] + p;
    assert q[..|q| - 1] == [b] + p[..|p| - 1];
    assert ([b] + p[..|p| - 1])[1..] == p[..|p| - 1];
    var rest := Titles(c, p[..|p| - 1]);
    if b.childPage && b.id in c.pages {
      assert path + ([c.pages[b.id].title] + rest) == path + [c.pages[b.id].title] + rest;
    } else {
      assert [] + rest == rest;
    }
  }

  lemma TrailWidens(c: Client, blocks: seq<Block>, more: seq<Block>, seen: set<Id>, p: seq<Block>)
    requires Trail(c, blocks, seen, p) && forall b :: b in blocks ==> b in more
    ensures Trail(c, more, seen, p)
  {
  }

  /** Every entry lies at the end of a trail, under the titles of the pages on it. */
  lemma {:induction false} TrailOfEntry(c: Client, blocks: seq<Block>, seen: set<Id>, path: seq<string>, i: nat)
    returns (p: seq<Block>)
    requires Canonical(c) && Known(c, blocks) && Walk(c, blocks, seen).Ok?
    requires i < |FlattenAll(Walk(c, blocks, seen).value.childPages, path)|
    ensures Trail(c, blocks, seen, p) && Ends(c, p, path, FlattenAll(Walk(c, blocks, seen).value.childPages, path)[i])
    decreases Universe(c) - seen, |blocks|
  {
    hide Trail, Ends, Titles, Canonical, Universe;
    NoBlocksNoEntries(c, seen, path);
    WalkEntries(c, blocks, seen, path);
    var first := FlattenAll(Visit(c, blocks[0], seen).value.childPages, path);
    if i >= |first| {
      KnownRest(c, blocks);
      p := TrailOfEntry(c, blocks[1..], seen, path, i - |first|);
      TrailWidens(c, blocks[1..], blocks, seen, p);
    } else {
      p := TrailOfVisit(c, blocks[0], seen, path, i);
      TrailWidens(c, [blocks[0]], blocks, seen, p);
    }
  }

  lemma NoBlocksNoEntries(c: Client, seen: set<Id>, path: seq<string>)
    ensures Walk(c, [], seen).Ok? && FlattenAll(Walk(c, [], seen).value.childPages, path) == []
  {
  }

  lemma KnownRest(c: Client, blocks: seq<Block>)
    requires Known(c, blocks) && blocks != []
    ensures blocks[0].id in Universe(c) && Known(c, blocks[1..])
  {
  }

  lemma {:induction false} TrailOfVisit(c: Client, b: Block, seen: set<Id>, path: seq<string>, i: nat)
    returns (p: seq<Block>)
    requires Canonical(c) && b.id in Universe(c) && Visit(c, b, seen).Ok?
    requires i < |FlattenAll(Visit(c, b, seen).value.childPages, path)|
    ensures Trail(c, [b], seen, p) && Ends(c, p, path, FlattenAll(Visit(c, b, seen).value.childPages, path)[i])
    decreases Universe(c) - seen, 0
  {
    hide Trail, Ends, Titles, Canonical, Known, Walk, Visit, FlattenAll, Universe;
    VisitEntries(c, b, seen, path);
    assert b.id in Universe(c) - seen;
    var deeper := seen + {b.id};
    if b.childPage && i == 0 {
      p := [b];
      SingleTrail(c, b, seen, path, FlattenAll(Visit(c, b, seen).value.childPages, path)[0]);
    } else {
      var k := if b.childPage then i - 1 else i;
      var rest := TrailOfEntry(c, c.lists[b.id], deeper, Below(c, b, path), k);
      p := [b] + rest;
      TrailStep(c, [b], seen, b, rest);
      assert rest != [] by { TrailIsNonempty(c, c.lists[b.id], deeper, rest); }
      EndsStep(c, b, rest, path, FlattenAll(Visit(c, b, seen).value.childPages, path)[i]);
    }
  }

  lemma TrailIsNonempty(c: Client, blocks: seq<Block>, seen: set<Id>, p: seq<Block>)
    requires Trail(c, blocks, seen, p)
    ensures p != []
  {
  }

  lemma SingleTrail(c: Client, b: Block, seen: set<Id>, path: seq<string>, e: Entry)
    requires b.childPage && b.id !in seen && b.id in c.pages && e.page == c.pages[b.id] && e.pathSegments == path
    ensures Trail(c, [b], seen, [b]) && Ends(c, [b], path, e)
  {
    assert [b][..0] == [];
    assert path + [] == path;
  }

  lemma TrailSplits(c: Client, blocks: seq<Block>, seen: set<Id>, p: seq<Block>)
    requires Trail(c, blocks, seen, p)
    ensures p != [] && p[0] in blocks && p[0].id !in seen && Descends(p[0])
    ensures |p| > 1 ==> p[0].id in c.lists && Trail(c, c.lists[p[0].id], seen + {p[0].id}, p[1..])
  {
  }

  /** Every trail that ends in a page has its entry. */
  lemma {:induction false} EntryOfTrail(c: Client, blocks: seq<Block>, seen: set<Id>, path: seq<string>, p: seq<Block>)
    returns (i: nat)
    requires Canonical(c) && Known(c, blocks) && Walk(c, blocks, seen).Ok?
    requires Trail(c, blocks, seen, p) && p[|p| - 1].childPage
    ensures i < |FlattenAll(Walk(c, blocks, seen).value.childPages, path)|
    ensures Ends(c, p, path, FlattenAll(Walk(c, blocks, seen).value.childPages, path)[i])
    decreases |p|, |blocks|
  {
    hide Trail, Ends, Titles, Canonical, Universe, Walk, Visit, FlattenAll;
    TrailSplits(c, blocks, seen, p);
    WalkEntries(c, blocks, seen, path);
    KnownRest(c, blocks);
    if p[0] == blocks[0] {
      TrailFirst(c, blocks, seen, p);
      i := EntryOfVisit(c, blocks[0], seen, path, p);
    } else {
      TrailNarrows(c, blocks, seen, p);
      var k := EntryOfTrail(c, blocks[1..], seen, path, p);
      i := k + |FlattenAll(Visit(c, blocks[0], seen).value.childPages, path)|;
    }
  }

  lemma TrailFirst(c: Client, blocks: seq<Block>, seen: set<Id>, p: seq<Block>)
    requires blocks != [] && Trail(c, blocks, seen, p) && p[0] == blocks[0]
    ensures Trail(c, [blocks[0]], seen, p)
  {
  }

  lemma TrailNarrows(c: Client, blocks: seq<Block>, seen: set<Id>, p: seq<Block>)
    requires blocks != [] && Trail(c, blocks, seen, p) && p[0] != blocks[0]
    ensures Trail(c, blocks[1..], seen, p)
  {
  }

  lemma {:induction false} EntryOfVisit(c: Client, b: Block, seen: set<Id>, path: seq<string>, p: seq<Block>)
    returns (i: nat)
    requires Canonical(c) && b.id in Universe(c) && Visit(c, b, seen).Ok?
    requires Trail(c, [b], seen, p) && p[|p| - 1].childPage
    ensures i < |FlattenAll(Visit(c, b, seen).value.childPages, path)|
    ensures Ends(c, p, path, FlattenAll(Visit(c, b, seen).value.childPages, path)[i])
    decreases |p|, 0
  {
    hide Trail, Ends, Titles, Canonical, Known, Walk, Visit, FlattenAll, Universe;
    TrailSplits(c, [b], seen, p);
    VisitEntries(c, b, seen, path);
    var entries := FlattenAll(Visit(c, b, seen).value.childPages, path);
    if |p| == 1 {
      i := 0;
      assert p == [b];
      SingleTrail(c, b, seen, path, entries[0]);
    } else {
      var rest := p[1..];
      var k := EntryOfTrail(c, c.lists[b.id], seen + {b.id}, Below(c, b, path), rest);
      i := if b.childPage then k + 1 else k;
      assert p == [b] + rest;
      EndsStep(c, b, rest, path, entries[i]);
    }
  }

  /* ---- trails are the simple paths ---- */

  /** Block k stands in the list of the one before it, the first in the list of n. */
  predicate LinkAt(c: Client, n: Id, p: seq<Block>, k: nat)
    requires k < |p|
  {
    var parent := if k == 0 then n else p[k - 1].id;
    parent in c.lists && p[k] in c.lists[parent] && Descends(p[k])
  }

  predicate Linked(c: Client, n: Id, p: seq<Block>) {
    forall k :: 0 <= k < |p| ==> LinkAt(c, n, p, k)
  }

  predicate Simple(seen: set<Id>, p: seq<Block>) {
    && (forall i :: 0 <= i < |p| ==> p[i].id !in seen)
    && (forall i, j :: 0 <= i < j < |p| ==> p[i].id != p[j].id)
  }

  lemma LinkedStep(c: Client, n: Id, p: seq<Block>)
    requires p != []
    ensures Linked(c, n, p) <==> n in c.lists && p[0] in c.lists[n] && Descends(p[0]) && Linked(c, p[0].id, p[1..])
  {
    var rest := p[1..];
    forall k | 0 <= k < |rest| ensures LinkAt(c, n, p, k + 1) <==> LinkAt(c, p[0].id, rest, k) {
    }
    if LinkAt(c, n, p, 0) && Linked(c, p[0].id, rest) {
      forall k | 0 <= k < |p| ensures LinkAt(c, n, p, k) {
        if k > 0 { assert LinkAt(c, p[0].id, rest, k - 1); }
      }
    }
    if Linked(c, n, p) {
      assert LinkAt(c, n, p, 0);
      forall k | 0 <= k < |rest| ensures LinkAt(c, p[0].id, rest, k) { assert LinkAt(c, n, p, k + 1); }
    }
  }

  lemma SimpleStep(seen: set<Id>, p: seq<Block>)
    requires p != []
    ensures Simple(seen, p) <==> p[0].id !in seen && Simple(seen + {p[0].id}, p[1..])
  {
    var rest := p[1..];
    if p[0].id !in seen && Simple(seen + {p[0].id}, rest) {
      forall i | 0 <= i < |p| ensures p[i].id !in seen { if i > 0 { assert p[i] == rest[i - 1]; } }
      forall i, j | 0 <= i < j < |p| ensures p[i].id != p[j].id {
        assert p[j] == rest[j - 1];
        if i > 0 { assert p[i] == rest[i - 1]; }
      }
    }
  }

  /** Trails are exactly the linked block paths without a repeated id: no path of the traversal meets an id twice. */
  lemma {:induction false} TrailsAreSimplePaths(c: Client, n: Id, seen: set<Id>, p: seq<Block>)
    requires n in c.lists && p != []
    ensures Trail(c, c.lists[n], seen, p) <==> Linked(c, n, p) && Simple(seen, p)
    decreases |p|
  {
    hide Linked, Simple;
    LinkedStep(c, n, p);
    SimpleStep(seen, p);
    if |p| > 1 {
      var k := p[0].id;
      if k in c.lists {
        TrailsAreSimplePaths(c, k, seen + {k}, p[1..]);
      } else {
        LinkedStep(c, k, p[1..]);
      }
    } else {
      EmptyPath(c, p[0].id, seen + {p[0].id});
      assert p[1..] == [];
    }
  }

  lemma EmptyPath(c: Client, n: Id, seen: set<Id>)
    ensures Linked(c, n, []) && Simple(seen, [])
  {
  }
}
