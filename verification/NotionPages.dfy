/**
 * The pages a sync reads from a Notion root: all that are reachable, on a tree each once, below the titles
 * that enclose it.
 */
module NotionPages {
  import opened NotionTraversal
  import opened NotionCoverage

  predicate Loads(c: Client, root: Id) {
    Canonical(c) && Load(c, root, {}).Ok?
  }

  function Entries(c: Client, root: Id): seq<Entry>
    requires Loads(c, root)
  {
    Flatten(Load(c, root, {}).value, [])
  }

  lemma RootFirst(c: Client, root: Id)
    requires Loads(c, root)
    ensures root in c.pages && root in c.lists && Known(c, c.lists[root]) && Walk(c, c.lists[root], {root}).Ok?
    ensures var below := FlattenAll(Walk(c, c.lists[root], {root}).value.childPages, [c.pages[root].title]);
      && c.pages[root].id == root && Entries(c, root)[0].page == c.pages[root] && Entries(c, root)[0].pathSegments == []
      && |Entries(c, root)| == 1 + |below| && Entries(c, root)[1..] == below
  {
    hide Walk, Universe, Lines, FlattenAll;
    assert {} + {root} == {root} && {root} + {root} == {root};
    assert Build(c, c.pages[root], {root}).Ok?;
    assert Collect(c, root, {root}).Ok?;
    ListsAreKnown(c, root);
    assert [] + [c.pages[root].title] == [c.pages[root].title];
  }

  /** A path of blocks below the root on which no id repeats, the root's included. */
  predicate SimplePath(c: Client, root: Id, p: seq<Block>) {
    p != [] && Linked(c, root, p) && Simple({root}, p)
  }

  predicate SamePlace(a: Entry, b: Entry) {
    a.page == b.page && a.pathSegments == b.pathSegments
  }

  /**
   * The entries after the root's own are exactly the ends of simple paths, and the path segments of an entry
   * are the root's title and the titles of the pages on its way: the recursion ends on every graph because no
   * path meets an id twice.
   */
  lemma EntriesAreSimplePaths(c: Client, root: Id, e: Entry)
    requires Loads(c, root)
    ensures (exists i :: 0 < i < |Entries(c, root)| && SamePlace(Entries(c, root)[i], e))
      <==> exists p :: SimplePath(c, root, p) && Ends(c, p, [c.pages[root].title], e)
  {
    hide Walk, Entries, Loads, FlattenAll, Linked, Simple, Titles, Trail, Universe;
    LoadsCanonical(c, root);
    RootFirst(c, root);
    var path, below := [c.pages[root].title],
      FlattenAll(Walk(c, c.lists[root], {root}).value.childPages, [c.pages[root].title]);
    if i :| 0 < i < |Entries(c, root)| && SamePlace(Entries(c, root)[i], e) {
      assert Entries(c, root)[i] == below[i - 1];
      var p := TrailOfEntry(c, c.lists[root], {root}, path, i - 1);
      TrailsAreSimplePaths(c, root, {root}, p);
      assert SimplePath(c, root, p) && Ends(c, p, path, e);
    }
    if p :| SimplePath(c, root, p) && Ends(c, p, path, e) {
      TrailsAreSimplePaths(c, root, {root}, p);
      var k := EntryOfTrail(c, c.lists[root], {root}, path, p);
      assert Entries(c, root)[k + 1] == below[k];
    }
  }

  lemma LoadsCanonical(c: Client, root: Id)
    requires Loads(c, root)
    ensures Canonical(c)
  {
  }

  /* ---- every reachable page is read ---- */

  /** A block is the same record wherever it is listed. */
  predicate Coherent(c: Client) {
    forall k, l, b, d :: k in c.lists && l in c.lists && b in c.lists[k] && d in c.lists[l] && b.id == d.id ==> b == d
  }

  lemma CutFront(c: Client, n: Id, p: seq<Block>, i: nat)
    requires Linked(c, n, p) && i < |p| && p[i].id == n
    ensures Linked(c, n, p[i + 1..])
  {
    var rest := p[i + 1..];
    forall k | 0 <= k < |rest| ensures LinkAt(c, n, rest, k) { assert LinkAt(c, n, p, i + 1 + k); }
  }

  lemma CutBack(c: Client, n: Id, p: seq<Block>, i: nat)
    requires Linked(c, n, p) && i <= |p|
    ensures Linked(c, n, p[..i])
  {
    forall k | 0 <= k < i ensures LinkAt(c, n, p[..i], k) { assert LinkAt(c, n, p, k); }
  }

  lemma CutLoop(c: Client, n: Id, p: seq<Block>, i: nat, j: nat)
    requires Linked(c, n, p) && i < j < |p| && p[i].id == p[j].id
    ensures Linked(c, n, p[..i + 1] + p[j + 1..])
  {
    var q := p[..i + 1] + p[j + 1..];
    forall k | 0 <= k < |q| ensures LinkAt(c, n, q, k) {
      if k <= i { assert LinkAt(c, n, p, k); } else { assert LinkAt(c, n, p, k + j - i); }
    }
  }

  /** Cutting the loops out of a path leaves a simple path to the same block. */
  lemma {:induction false} Shortened(c: Client, n: Id, p: seq<Block>) returns (q: seq<Block>)
    requires Coherent(c) && p != [] && Linked(c, n, p) && p[|p| - 1].id != n
    ensures SimplePath(c, n, q) && q[|q| - 1] == p[|p| - 1]
    decreases |p|
  {
    hide Linked, Coherent;
    if Simple({n}, p) {
      q := p;
    } else if i :| 0 <= i < |p| && p[i].id == n {
      CutFront(c, n, p, i);
      q := Shortened(c, n, p[i + 1..]);
    } else {
      var i, j :| 0 <= i < j < |p| && p[i].id == p[j].id;
      if j == |p| - 1 {
        SameBlock(c, n, p, i, j);
        CutBack(c, n, p, i + 1);
        q := Shortened(c, n, p[..i + 1]);
      } else {
        CutLoop(c, n, p, i, j);
        var shorter := p[..i + 1] + p[j + 1..];
        assert shorter[|shorter| - 1] == p[|p| - 1];
        q := Shortened(c, n, shorter);
      }
    }
  }

  lemma SameBlock(c: Client, n: Id, p: seq<Block>, i: nat, j: nat)
    requires Coherent(c) && Linked(c, n, p) && i < |p| && j < |p| && p[i].id == p[j].id
    ensures p[i] == p[j]
  {
    assert LinkAt(c, n, p, i) && LinkAt(c, n, p, j);
  }

  /** On any graph, cycles included: a page that some path of blocks leads to is read. */
  lemma ReachablePagesAreRead(c: Client, root: Id, p: seq<Block>)
    requires Loads(c, root) && Coherent(c) && p != [] && Linked(c, root, p) && p[|p| - 1].childPage
    ensures exists i :: 0 <= i < |Entries(c, root)| && Entries(c, root)[i].page.id == p[|p| - 1].id
  {
    hide Entries, Loads, Linked, Simple, Coherent, Walk, FlattenAll, Universe, Trail, Titles;
    LoadsCanonical(c, root);
    RootFirst(c, root);
    var b := p[|p| - 1];
    if b.id == root {
      assert Entries(c, root)[0].page.id == root;
    } else {
      var q := Shortened(c, root, p);
      TrailsAreSimplePaths(c, root, {root}, q);
      var path := [c.pages[root].title];
      var k := EntryOfTrail(c, c.lists[root], {root}, path, q);
      assert Entries(c, root)[k + 1] == FlattenAll(Walk(c, c.lists[root], {root}).value.childPages, path)[k];
    }
  }

  /* ---- on a tree every page is read once ---- */

  /** Every id is listed at most once, and the root nowhere. */
  predicate Tree(c: Client, root: Id) {
    && (forall k, l, i, j :: k in c.lists && l in c.lists && 0 <= i < |c.lists[k]| && 0 <= j < |c.lists[l]| ==>
          (c.lists[k][i].id == c.lists[l][j].id ==> k == l && i == j))
    && (forall k, i :: k in c.lists && 0 <= i < |c.lists[k]| ==> c.lists[k][i].id != root)
  }

  lemma OneParent(c: Client, root: Id, k: Id, l: Id, b: Block, d: Block)
    requires Tree(c, root) && k in c.lists && l in c.lists && b in c.lists[k] && d in c.lists[l] && b.id == d.id
    ensures k == l && b == d
  {
  }

  /** Two simple paths from n to the same id start with the same block. */
  lemma {:induction false} SameStart(c: Client, root: Id, n: Id, p: seq<Block>, q: seq<Block>)
    requires Tree(c, root) && SimplePath(c, n, p) && SimplePath(c, n, q) && p[|p| - 1].id == q[|q| - 1].id
    ensures p[0] == q[0]
    decreases |p|
  {
    hide Tree, Linked;
    var i, j := |p| - 1, |q| - 1;
    LastLinks(c, n, p);
    LastLinks(c, n, q);
    var k, l := if i == 0 then n else p[i - 1].id, if j == 0 then n else q[j - 1].id;
    OneParent(c, root, k, l, p[i], q[j]);
    if i > 0 && j > 0 {
      CutBack(c, n, p, i);
      CutBack(c, n, q, j);
      SameStart(c, root, n, p[..i], q[..j]);
    }
  }

  lemma LastLinks(c: Client, n: Id, p: seq<Block>)
    requires p != [] && Linked(c, n, p)
    ensures LinkAt(c, n, p, |p| - 1)
  {
  }

  predicate DistinctPages(entries: seq<Entry>) {
    forall i, j :: 0 <= i < j < |entries| ==> entries[i].page.id != entries[j].page.id
  }

  lemma DistinctAppend(a: seq<Entry>, b: seq<Entry>)
    requires DistinctPages(a) && DistinctPages(b)
    requires forall i, j :: 0 <= i < |a| && 0 <= j < |b| ==> a[i].page.id != b[j].page.id
    ensures DistinctPages(a + b)
  {
  }

  lemma DistinctCons(entries: seq<Entry>)
    requires entries != [] && DistinctPages(entries[1..])
    requires forall j :: 0 < j < |entries| ==> entries[j].page.id != entries[0].page.id
    ensures DistinctPages(entries)
  {
    assert entries == [entries[0]] + entries[1..];
    DistinctAppend([entries[0]], entries[1..]);
  }

  lemma SimpleFewer(seen: set<Id>, n: Id, p: seq<Block>)
    requires n in seen && Simple(seen, p)
    ensures Simple({n}, p)
  {
  }

  /** A trail within the list of n, as a simple path below n. */
  lemma AsPath(c: Client, n: Id, blocks: seq<Block>, seen: set<Id>, p: seq<Block>)
    requires n in c.lists && n in seen && Trail(c, blocks, seen, p) && forall b :: b in blocks ==> b in c.lists[n]
    ensures SimplePath(c, n, p) && p[|p| - 1].id !in seen && p[0] in blocks
  {
    hide Trail, Linked;
    TrailSplits(c, blocks, seen, p);
    TrailWidens(c, blocks, c.lists[n], seen, p);
    TrailsAreSimplePaths(c, n, seen, p);
    SimpleFewer(seen, n, p);
  }

  lemma BranchesAreDisjoint(c: Client, root: Id, n: Id, m: nat, seen: set<Id>, path: seq<string>, i: nat, j: nat)
    requires Canonical(c) && Tree(c, root) && n in c.lists && n in seen && m < |c.lists[n]|
    requires Known(c, c.lists[n]) && Known(c, c.lists[n][m + 1..]) && c.lists[n][m].id in Universe(c)
    requires Visit(c, c.lists[n][m], seen).Ok? && Walk(c, c.lists[n][m + 1..], seen).Ok?
    requires i < |FlattenAll(Visit(c, c.lists[n][m], seen).value.childPages, path)|
    requires j < |FlattenAll(Walk(c, c.lists[n][m + 1..], seen).value.childPages, path)|
    ensures FlattenAll(Visit(c, c.lists[n][m], seen).value.childPages, path)[i].page.id
      != FlattenAll(Walk(c, c.lists[n][m + 1..], seen).value.childPages, path)[j].page.id
  {
    hide Trail, Tree, Visit, Walk, FlattenAll, Universe, Known, Linked, Simple, Titles;
    var blocks := c.lists[n];
    var p := TrailOfVisit(c, blocks[m], seen, path, i);
    var q := TrailOfEntry(c, blocks[m + 1..], seen, path, j);
    AsPath(c, n, [blocks[m]], seen, p);
    AsPath(c, n, blocks[m + 1..], seen, q);
    if p[|p| - 1].id == q[|q| - 1].id {
      SameStart(c, root, n, p, q);
      ListedOnce(c, root, n, m);
    }
  }

  lemma ListedOnce(c: Client, root: Id, n: Id, m: nat)
    requires Tree(c, root) && n in c.lists && m < |c.lists[n]|
    ensures c.lists[n][m] !in c.lists[n][m + 1..]
  {
  }

  lemma {:induction false} VisitOnce(c: Client, root: Id, b: Block, seen: set<Id>, path: seq<string>)
    requires Canonical(c) && Tree(c, root) && b.id in Universe(c) && Visit(c, b, seen).Ok?
    ensures DistinctPages(FlattenAll(Visit(c, b, seen).value.childPages, path))
    decreases Universe(c) - seen, 0
  {
    hide Trail, Tree, Visit, Walk, FlattenAll, Universe, Known, Linked, Simple, Titles;
    VisitEntries(c, b, seen, path);
    var entries := FlattenAll(Visit(c, b, seen).value.childPages, path);
    if Descends(b) && b.id !in seen {
      assert b.id in Universe(c) - seen;
      var deeper, own := seen + {b.id}, c.lists[b.id];
      assert own[0..] == own;
      ListOnce(c, root, b.id, 0, deeper, Below(c, b, path));
      if b.childPage {
        forall j | 0 < j < |entries| ensures entries[j].page.id != entries[0].page.id {
          assert entries[j] == entries[1..][j - 1];
          var p := TrailOfEntry(c, own, deeper, Below(c, b, path), j - 1);
          AsPath(c, b.id, own, deeper, p);
        }
        DistinctCons(entries);
      }
    }
  }

  lemma {:induction false} ListOnce(c: Client, root: Id, n: Id, m: nat, seen: set<Id>, path: seq<string>)
    requires Canonical(c) && Tree(c, root) && n in c.lists && n in seen && m <= |c.lists[n]|
    requires Known(c, c.lists[n][m..]) && Walk(c, c.lists[n][m..], seen).Ok?
    ensures DistinctPages(FlattenAll(Walk(c, c.lists[n][m..], seen).value.childPages, path))
    decreases Universe(c) - seen, 1 + |c.lists[n]| - m
  {
    hide Tree, Visit, Walk, FlattenAll, Universe, Known, Canonical;
    var blocks := c.lists[n][m..];
    if m == |c.lists[n]| {
      assert blocks == [];
      NoBlocksNoEntries(c, seen, path);
    } else {
      assert blocks[1..] == c.lists[n][m + 1..];
      WalkEntries(c, blocks, seen, path);
      KnownRest(c, blocks);
      ListsAreKnown(c, n);
      VisitOnce(c, root, blocks[0], seen, path);
      ListOnce(c, root, n, m + 1, seen, path);
      var first := FlattenAll(Visit(c, blocks[0], seen).value.childPages, path);
      var rest := FlattenAll(Walk(c, blocks[1..], seen).value.childPages, path);
      forall i, j | 0 <= i < |first| && 0 <= j < |rest| ensures first[i].page.id != rest[j].page.id {
        BranchesAreDisjoint(c, root, n, m, seen, path, i, j);
      }
      DistinctAppend(first, rest);
    }
  }

  /** On a tree no page is read twice; with ReachablePagesAreRead, each reachable page is read exactly once. */
  lemma TreePagesAreReadOnce(c: Client, root: Id)
    requires Loads(c, root) && Tree(c, root)
    ensures DistinctPages(Entries(c, root))
  {
    hide Entries, Loads, Tree, Walk, FlattenAll, Universe, Trail, Titles;
    LoadsCanonical(c, root);
    RootFirst(c, root);
    var path, entries := [c.pages[root].title], Entries(c, root);
    assert c.lists[root][0..] == c.lists[root];
    ListOnce(c, root, root, 0, {root}, path);
    forall j | 0 < j < |entries| ensures entries[j].page.id != entries[0].page.id {
      assert entries[j] == entries[1..][j - 1];
      var p := TrailOfEntry(c, c.lists[root], {root}, path, j - 1);
      AsPath(c, root, c.lists[root], {root}, p);
    }
    DistinctCons(entries);
  }
}
