/** Reading a Notion page with everything below it, on a block graph that may have cycles: traverse.ts, live-sync.ts. */
module NotionTraversal {
  import opened Results

  type Id = string

  datatype Rendered = Unsupported | Nothing | Line(text: string)

  datatype Block = Block(id: Id, childPage: bool, rendered: Rendered, hasChildren: bool)

  datatype Page = Page(id: Id, title: string)

  /** What the client answers: a page record and the complete block list for each id it knows. */
  datatype Client = Client(pages: map<Id, Page>, lists: map<Id, seq<Block>>)

  datatype Snapshot = Snapshot(page: Page, content: string, childPages: seq<Snapshot>, unsupported: seq<Id>)

  datatype Children = Children(lines: seq<string>, childPages: seq<Snapshot>, unsupported: seq<Id>)

  datatype Failure = NoPage(id: Id) | NoBlocks(id: Id)

  const EMPTY: Children := Children([], [], [])

  function Append(a: Children, b: Children): Children {
    Children(a.lines + b.lines, a.childPages + b.childPages, a.unsupported + b.unsupported)
  }

  function Lines(lines: seq<string>): string {
    if lines == [] then ""
    else (if |lines| == 1 then "" else Lines(lines[..|lines| - 1]) + "\n") + lines[|lines| - 1]
  }

  /** Every id that a block list can lead to. */
  function Universe(c: Client): set<Id> {
    c.lists.Keys + set k, b | k in c.lists && b in c.lists[k] :: b.id
  }

  predicate Known(c: Client, blocks: seq<Block>) {
    forall i :: 0 <= i < |blocks| ==> blocks[i].id in Universe(c)
  }

  lemma ListsAreKnown(c: Client, k: Id)
    requires k in c.lists
    ensures Known(c, c.lists[k])
  {
    forall i | 0 <= i < |c.lists[k]| ensures c.lists[k][i].id in Universe(c) {
      assert c.lists[k][i] in c.lists[k];
    }
  }

  /* ---- what the traversal returns ---- */

  /** The block's own contribution to its page. */
  function Own(b: Block): Children {
    match b.rendered
    case Unsupported => Children([], [], [b.id])
    case Nothing => EMPTY
    case Line(text) => Children([text], [], [])
  }

  function SnapshotOf(page: Page, children: Children): Snapshot {
    Snapshot(page, Lines(children.lines), children.childPages, children.unsupported)
  }

  function Visit(c: Client, b: Block, seen: set<Id>): Result<Children, Failure>
    requires b.id in Universe(c)
    decreases Universe(c) - seen, 0, 0
  {
    if b.childPage then
      if b.id in seen then Ok(EMPTY)
      else
        assert Universe(c) - (seen + {b.id}) < Universe(c) - seen by { assert b.id in Universe(c) - seen; }
        match Load(c, b.id, seen)
        case Ok(s) => Ok(Children([], [s], []))
        case Err(e) => Err(e)
    else if b.hasChildren && b.id !in seen then
      assert Universe(c) - (seen + {b.id}) < Universe(c) - seen by { assert b.id in Universe(c) - seen; }
      match Collect(c, b.id, seen)
      case Ok(nested) => Ok(Append(Own(b), nested))
      case Err(e) => Err(e)
    else Ok(Own(b))
  }

  function Walk(c: Client, blocks: seq<Block>, seen: set<Id>): Result<Children, Failure>
    requires Known(c, blocks)
    decreases Universe(c) - seen, 1, |blocks|
  {
    if blocks == [] then Ok(EMPTY)
    else
      match Visit(c, blocks[0], seen)
      case Err(e) => Err(e)
      case Ok(first) =>
        match Walk(c, blocks[1..], seen)
        case Err(e) => Err(e)
        case Ok(rest) => Ok(Append(first, rest))
  }

  function Collect(c: Client, pageId: Id, visited: set<Id>): Result<Children, Failure>
    decreases Universe(c) - (visited + {pageId}), 2, 0
  {
    if pageId !in c.lists then Err(NoBlocks(pageId))
    else
      ListsAreKnown(c, pageId);
      Walk(c, c.lists[pageId], visited + {pageId})
  }

  function Build(c: Client, page: Page, visited: set<Id>): Result<Snapshot, Failure>
    decreases Universe(c) - visited, 3, 0
  {
    match Collect(c, page.id, visited)
    case Ok(children) => Ok(SnapshotOf(page, children))
    case Err(e) => Err(e)
  }

  function Load(c: Client, pageId: Id, visited: set<Id>): Result<Snapshot, Failure>
    decreases Universe(c) - (visited + {pageId}), 4, 0
  {
    if pageId !in c.pages then Err(NoPage(pageId)) else Build(c, c.pages[pageId], visited + {pageId})
  }

  /* ---- the traversal ---- */

  /** The blocks from i on are still to be visited; those before gave soFar. */
  ghost predicate Ahead(c: Client, blocks: seq<Block>, seen: set<Id>, i: nat, soFar: Children)
    requires Known(c, blocks) && i <= |blocks|
  {
    Walk(c, blocks, seen) == match Walk(c, blocks[i..], seen)
      case Ok(rest) => Ok(Append(soFar, rest))
      case Err(e) => Err(e)
  }

  lemma AheadStart(c: Client, blocks: seq<Block>, seen: set<Id>)
    requires Known(c, blocks)
    ensures Ahead(c, blocks, seen, 0, EMPTY)
  {
    hide Walk;
    assert blocks[0..] == blocks;
    NothingFirst(Walk(c, blocks, seen));
  }

  lemma AheadStep(c: Client, blocks: seq<Block>, seen: set<Id>, i: nat, soFar: Children)
    requires Known(c, blocks) && i < |blocks| && Ahead(c, blocks, seen, i, soFar)
    ensures match Visit(c, blocks[i], seen)
      case Ok(own) => Ahead(c, blocks, seen, i + 1, Append(soFar, own))
      case Err(e) => Walk(c, blocks, seen) == Err(e)
  {
    hide Visit;
    var rest := blocks[i..];
    assert rest[1..] == blocks[i + 1..];
    if Visit(c, blocks[i], seen).Ok? {
      AppendAssociates(Walk(c, rest[1..], seen), soFar, Visit(c, blocks[i], seen).value);
    }
  }

  lemma AheadEnd(c: Client, blocks: seq<Block>, seen: set<Id>, soFar: Children)
    requires Known(c, blocks) && Ahead(c, blocks, seen, |blocks|, soFar)
    ensures Walk(c, blocks, seen) == Ok(soFar)
  {
    assert blocks[|blocks|..] == [];
    NothingLast(soFar);
  }

  lemma NothingLast(a: Children)
    ensures Append(a, EMPTY) == a
  {
    assert a.lines + [] == a.lines && a.childPages + [] == a.childPages && a.unsupported + [] == a.unsupported;
  }

  lemma NothingFirst(r: Result<Children, Failure>)
    ensures r.Ok? ==> Append(EMPTY, r.value) == r.value
  {
    if r.Ok? {
      assert [] + r.value.lines == r.value.lines && [] + r.value.childPages == r.value.childPages;
      assert [] + r.value.unsupported == r.value.unsupported;
    }
  }

  lemma AppendAssociates(r: Result<Children, Failure>, a: Children, b: Children)
    ensures r.Ok? ==> Append(a, Append(b, r.value)) == Append(Append(a, b), r.value)
  {
    if r.Ok? {
      var rest := r.value;
      assert a.lines + (b.lines + rest.lines) == (a.lines + b.lines) + rest.lines;
      assert a.childPages + (b.childPages + rest.childPages) == (a.childPages + b.childPages) + rest.childPages;
      assert a.unsupported + (b.unsupported + rest.unsupported) == (a.unsupported + b.unsupported) + rest.unsupported;
    }
  }

  method CollectPageChildren(c: Client, pageId: Id, visited: set<Id>) returns (r: Result<Children, Failure>)
    ensures r == Collect(c, pageId, visited)
    decreases Universe(c) - (visited + {pageId}), 2, 0
  {
    hide Walk, Ahead, Load, Universe;
    var nextVisited := visited + {pageId};
    if pageId !in c.lists { return Err(NoBlocks(pageId)); }
    var blocks := c.lists[pageId];
    ListsAreKnown(c, pageId);
    var lines, childPages, unsupported := [], [], [];
    AheadStart(c, blocks, nextVisited);
    for i := 0 to |blocks|
      invariant Ahead(c, blocks, nextVisited, i, Children(lines, childPages, unsupported))
    {
      var b := blocks[i];
      ghost var soFar := Children(lines, childPages, unsupported);
      AheadStep(c, blocks, nextVisited, i, soFar);
      NothingLast(soFar);
      if b.childPage {
        if b.id !in nextVisited {
          assert b.id in Universe(c) - nextVisited;
          var s := LoadPageSnapshot(c, b.id, nextVisited);
          if s.Err? { return Err(s.error); }
          childPages := childPages + [s.value];
          assert Append(soFar, Children([], [s.value], [])) == Children(lines, childPages, unsupported);
        }
        continue;
      }
      match b.rendered {
        case Unsupported => unsupported := unsupported + [b.id];
        case Nothing =>
        case Line(text) => lines := lines + [text];
      }
      assert Children(lines, childPages, unsupported) == Append(soFar, Own(b));
      if b.hasChildren && b.id !in nextVisited {
        assert b.id in Universe(c) - nextVisited;
        var nested := CollectPageChildren(c, b.id, nextVisited);
        if nested.Err? { return Err(nested.error); }
        AppendAssociates(nested, soFar, Own(b));
        lines := lines + nested.value.lines;
        childPages := childPages + nested.value.childPages;
        unsupported := unsupported + nested.value.unsupported;
      }
    }
    AheadEnd(c, blocks, nextVisited, Children(lines, childPages, unsupported));
    r := Ok(Children(lines, childPages, unsupported));
  }

  method BuildPageSnapshot(c: Client, page: Page, visited: set<Id>) returns (r: Result<Snapshot, Failure>)
    ensures r == Build(c, page, visited)
    decreases Universe(c) - visited, 3, 0
  {
    var children := CollectPageChildren(c, page.id, visited);
    match children {
      case Err(e) => r := Err(e);
      case Ok(value) => r := Ok(Snapshot(page, Lines(value.lines), value.childPages, value.unsupported));
    }
  }

  method LoadPageSnapshot(c: Client, pageId: Id, visited: set<Id>) returns (r: Result<Snapshot, Failure>)
    ensures r == Load(c, pageId, visited)
    decreases Universe(c) - (visited + {pageId}), 4, 0
  {
    if pageId !in c.pages { return Err(NoPage(pageId)); }
    r := BuildPageSnapshot(c, c.pages[pageId], visited + {pageId});
  }

  /* ---- flattening ---- */

  datatype Entry = Entry(page: Page, content: string, pathSegments: seq<string>)

  /** A page before the pages below it. */
  function Flatten(s: Snapshot, pathSegments: seq<string>): seq<Entry> {
    [Entry(s.page, s.content, pathSegments)] + FlattenAll(s.childPages, pathSegments + [s.page.title])
  }

  function FlattenAll(snapshots: seq<Snapshot>, pathSegments: seq<string>): seq<Entry> {
    if snapshots == [] then [] else Flatten(snapshots[0], pathSegments) + FlattenAll(snapshots[1..], pathSegments)
  }
}
