/** Two independently written currency checks over the same tables: file-source.ts. */
module FileSource {
  import opened Results
  import opened Sequences
  import opened ModelPolicy
  import opened FileChunker
  import opened FileLifecycle
  import opened FileLifecycleSafety

  /* ---- fileSourceReference ---- */

  datatype SourceState = Available | Deleted | ReplacedBy | Excluded | Unavailable

  ghost predicate LatestOf(s: Store, o: Id, v: Id) {
    v in s.versions && s.versions[v].original == o && Latest(s, v)
  }

  /** The first row of the original's versions in descending order. */
  ghost function FirstVersion(s: Store, o: Id): Option<Id> {
    if exists v :: LatestOf(s, o, v) then
      var v :| LatestOf(s, o, v);
      Some(v)
    else None
  }

  /** The case analysis of the source, in its order. */
  ghost function Reference(s: Store, owner: string, o: Id, asked: Option<Id>, revision: Option<nat>): SourceState {
    var first := FirstVersion(s, o);
    if o !in s.originals || s.originals[o].owner != owner then Unavailable
    else if s.originals[o].deleted then Deleted
    else if asked.Some? && first != asked then ReplacedBy
    else if s.originals[o].excluded || (revision.Some? && s.originals[o].scopeRevision != revision.value)
            || (first.Some? && !s.versions[first.value].active) then Excluded
    else if revision.None? || first.None? || s.versions[first.value].rawDeleted || !Extracted(s.versions[first.value])
      then Unavailable
    else Available
  }

  lemma LatestIsUnique(s: Store, o: Id, v: Id, w: Id)
    requires Valid(s) && LatestOf(s, o, v) && LatestOf(s, o, w)
    ensures v == w
  {
    hide RawKept, IndexValid, JobValid;
    assert VersionValid(s, v) && !Newer(s, w, v) && !Newer(s, v, w);
  }

  lemma FirstIsLatest(s: Store, o: Id)
    requires Valid(s)
    ensures FirstVersion(s, o).None? <==> forall v: Id :: !LatestOf(s, o, v)
    ensures forall v: Id :: LatestOf(s, o, v) <==> FirstVersion(s, o) == Some(v)
  {
    hide Valid, LatestOf;
    forall v: Id, w: Id | LatestOf(s, o, v) && LatestOf(s, o, w) ensures v == w { LatestIsUnique(s, o, v, w); }
  }

  predicate Owned(s: Store, owner: string, o: Id) {
    o in s.originals && s.originals[o].owner == owner
  }

  /** The original is there, and the version that was asked for, if any, is its newest. */
  ghost predicate Present(s: Store, owner: string, o: Id, asked: Option<Id>) {
    Owned(s, owner, o) && !s.originals[o].deleted && (asked.Some? ==> LatestOf(s, o, asked.value))
  }

  /** When a reference shows each state; in all other cases the source is unavailable. */
  lemma ReferenceTellsWhy(s: Store, owner: string, o: Id, asked: Option<Id>, revision: Option<nat>)
    requires Valid(s)
    ensures var state := Reference(s, owner, o, asked, revision);
      && (state == Deleted <==> Owned(s, owner, o) && s.originals[o].deleted)
      && (state == ReplacedBy <==>
            Owned(s, owner, o) && !s.originals[o].deleted && asked.Some? && !LatestOf(s, o, asked.value))
      && (state == Excluded <==>
            Present(s, owner, o, asked)
            && (s.originals[o].excluded || (revision.Some? && revision.value != s.originals[o].scopeRevision)
                || exists v: Id :: LatestOf(s, o, v) && !s.versions[v].active))
      && (state == Available <==>
            Present(s, owner, o, asked) && !s.originals[o].excluded && revision == Some(s.originals[o].scopeRevision)
            && exists v: Id :: LatestOf(s, o, v) && s.versions[v].active && !s.versions[v].rawDeleted
                           && Extracted(s.versions[v]))
  {
    FirstIsLatest(s, o);
    hide Valid, Latest, Extracted, FirstVersion;
  }

  /** For a given version and revision, "available" is exactly the shared SQL predicate plus equal revisions. */
  lemma ReferenceAgreesWithCurrency(s: Store, owner: string, o: Id, v: Id, revision: nat)
    requires Valid(s)
    ensures Reference(s, owner, o, Some(v), Some(revision)) == Available
            <==> Joined(s, v) && s.versions[v].original == o && s.originals[o].owner == owner
                 && CurrentFile(s, v) && s.originals[o].scopeRevision == revision
  {
    hide Valid;
    if LatestOf(s, o, v) {
      var w: Id :| LatestOf(s, o, w) && FirstVersion(s, o) == Some(w);
      LatestIsUnique(s, o, v, w);
    }
  }

  /** A run's resource link is offered only while the index of that version could still be searched. */
  lemma AvailableIndexIsCurrent(s: Store, owner: string, i: Id)
    requires Valid(s) && i in s.indexes && s.indexes[i].configuration == V2
    requires DigestOf(s.versions[s.indexes[i].version]) == Some(s.indexes[i].digest)
    ensures Joined(s, s.indexes[i].version)
    ensures CurrentIndex(s, i) <==>
              Reference(s, s.indexes[i].owner, s.indexes[i].original, Some(s.indexes[i].version),
                        Some(s.indexes[i].scopeRevision)) == Available
  {
    hide Rebuilt, VersionValid, RawKept, JobValid, CurrentFile, Reference;
    var index := s.indexes[i];
    assert IndexValid(s, i);
    ReferenceAgreesWithCurrency(s, index.owner, index.original, index.version, index.scopeRevision);
  }

  /* ---- assertFileSourcesCurrent ---- */

  datatype Source = Source(id: string, index: Id, original: Id, version: Id, scopeRevision: int)

  datatype SourceError = InvalidFileSources | SourceChanged

  const MAX_SOURCES: nat := 20
  const MAX_REVISION: nat := 2_147_483_647

  predicate UuidText(s: string) {
    |s| == 36 && forall i :: 0 <= i < 36 ==> if i in {8, 13, 18, 23} then s[i] == '-' else HexDigit(s[i])
  }

  /** The ids under which the sources are keyed; duplicates collapse. */
  function Keys(sources: seq<Source>): set<string> {
    set k | 0 <= k < |sources| :: Lower(sources[k].id)
  }

  predicate WellFormedSources(sources: seq<Source>) {
    && 1 <= |sources| <= MAX_SOURCES
    && (forall k :: 0 <= k < |sources| ==> UuidText(sources[k].id) && 1 <= sources[k].scopeRevision <= MAX_REVISION)
    && |Keys(sources)| == |sources|
  }

  /** A chunk row belongs to an index; the map is the chunk table's foreign key. */
  type ChunkTable = map<string, Id>

  predicate RowCurrent(s: Store, table: ChunkTable, owner: string, chunk: string) {
    && chunk in table && table[chunk] in s.indexes
    && var i := table[chunk];
       Joined(s, s.indexes[i].version) && s.indexes[i].original in s.originals
       && s.indexes[i].owner == owner && s.originals[s.indexes[i].original].owner == owner && CurrentIndex(s, i)
  }

  predicate Matches(s: Store, table: ChunkTable, chunk: string, source: Source)
    requires chunk in table && table[chunk] in s.indexes
  {
    var i := table[chunk];
    && chunk == Lower(source.id) && i == source.index && s.indexes[i].original == source.original
    && s.indexes[i].version == source.version && s.indexes[i].scopeRevision == source.scopeRevision
  }

  /** The rows counted by the single query: current, and matching any of the sources. */
  function Counted(s: Store, table: ChunkTable, owner: string, sources: seq<Source>): set<string> {
    set chunk | chunk in table && RowCurrent(s, table, owner, chunk)
                && exists k :: 0 <= k < |sources| && Matches(s, table, chunk, sources[k])
  }

  function AssertSourcesCurrent(s: Store, table: ChunkTable, owner: string,
                                sources: seq<Source>): Result<(), SourceError> {
    if !WellFormedSources(sources) then Err(InvalidFileSources)
    else if |Counted(s, table, owner, sources)| != |sources| then Err(SourceChanged)
    else Ok(())
  }

  /** One source on its own: its chunk exists, is current and is the one it claims to be. */
  predicate SourceCurrent(s: Store, table: ChunkTable, owner: string, source: Source) {
    var chunk := Lower(source.id);
    RowCurrent(s, table, owner, chunk) && Matches(s, table, chunk, source)
  }

  lemma KeysGrow(sources: seq<Source>, n: nat)
    requires n + 1 == |sources|
    ensures Keys(sources) == Keys(sources[..n]) + {Lower(sources[n].id)}
  {
    hide Lower;
    var rest, last := Keys(sources[..n]), Lower(sources[n].id);
    forall key | key in rest ensures key in Keys(sources) {
      var k :| 0 <= k < n && key == Lower(sources[..n][k].id);
      assert key == Lower(sources[k].id);
    }
    forall key | key in Keys(sources) ensures key in rest + {last} {
      var k :| 0 <= k < |sources| && key == Lower(sources[k].id);
      if k < n { assert key == Lower(sources[..n][k].id); }
    }
  }

  predicate DistinctKeys(sources: seq<Source>) {
    forall j, k :: 0 <= j < k < |sources| ==> Lower(sources[j].id) != Lower(sources[k].id)
  }

  lemma DistinctAppend(sources: seq<Source>, n: nat)
    requires n + 1 == |sources| && DistinctKeys(sources[..n]) && Lower(sources[n].id) !in Keys(sources[..n])
    ensures DistinctKeys(sources)
  {
    hide Lower;
    forall j, k | 0 <= j < k < |sources| ensures Lower(sources[j].id) != Lower(sources[k].id) {
      assert sources[..n][j] == sources[j];
      if k < n { assert sources[..n][k] == sources[k]; }
    }
  }

  lemma {:induction false} KeysAtMostLength(sources: seq<Source>)
    ensures |Keys(sources)| <= |sources|
    ensures |Keys(sources)| == |sources| ==> DistinctKeys(sources)
  {
    hide Lower;
    if sources != [] {
      hide Keys;
      var n := |sources| - 1;
      KeysAtMostLength(sources[..n]);
      KeysGrow(sources, n);
      if Lower(sources[n].id) !in Keys(sources[..n]) && |Keys(sources[..n])| == n { DistinctAppend(sources, n); }
    }
  }

  /** The single count equals the number of sources exactly when every source is current on its own. */
  lemma CountMeansEachIsCurrent(s: Store, table: ChunkTable, owner: string, sources: seq<Source>)
    requires WellFormedSources(sources)
    ensures AssertSourcesCurrent(s, table, owner, sources) == Ok(())
            <==> forall k :: 0 <= k < |sources| ==> SourceCurrent(s, table, owner, sources[k])
  {
    hide CurrentIndex, Joined, UuidText, Lower;
    var counted, keys := Counted(s, table, owner, sources), Keys(sources);
    KeysAtMostLength(sources);
    assert counted <= keys;
    SubsetSize(counted, keys);
    if |counted| == |sources| {
      forall k | 0 <= k < |sources|
        ensures SourceCurrent(s, table, owner, sources[k])
      {
        var chunk := Lower(sources[k].id);
        assert chunk in keys;
        var j :| 0 <= j < |sources| && Matches(s, table, chunk, sources[j]);
        assert j == k;
      }
    }
    if forall k :: 0 <= k < |sources| ==> SourceCurrent(s, table, owner, sources[k]) {
      forall key | key in keys
        ensures key in counted
      {
        var k :| 0 <= k < |sources| && key == Lower(sources[k].id);
        assert SourceCurrent(s, table, owner, sources[k]);
      }
      assert counted == keys;
    }
  }

  /* ---- fileIndexStates ---- */

  datatype IndexStatus = Indexed | Stale | NotIndexed

  datatype IndexState = IndexState(searchable: bool, indexStatus: IndexStatus, chunkCount: nat)

  /** A row of the version joined with its index, or with none when it has none. */
  ghost predicate JoinedRow(s: Store, v: Id, row: Option<Id>) {
    match row
    case Some(i) => i in s.indexes && s.indexes[i].version == v
    case None => forall i :: i in s.indexes ==> s.indexes[i].version != v
  }

  function StateOf(s: Store, v: Id, row: Option<Id>): IndexState
    requires Joined(s, v) && (row.Some? ==> row.value in s.indexes && s.indexes[row.value].version == v)
  {
    var valid := row.Some? && CurrentIndex(s, row.value);
    IndexState(valid, if valid then Indexed else if row.Some? then Stale else NotIndexed,
      if valid then s.indexes[row.value].chunkCount else 0)
  }

  /**
   * The state shown for a version is determined, and "searchable" means a current index with that many chunks
   * of its present text.
   */
  lemma StatesTellTheTruth(s: Store, v: Id, a: Option<Id>, b: Option<Id>)
    requires Valid(s) && Joined(s, v) && JoinedRow(s, v, a) && JoinedRow(s, v, b)
    ensures StateOf(s, v, a) == StateOf(s, v, b)
    ensures StateOf(s, v, a).searchable <==>
              exists i :: i in s.indexes && s.indexes[i].version == v && CurrentIndex(s, i)
    ensures StateOf(s, v, a).searchable ==> s.versions[v].extraction.Some? && a.Some?
    ensures StateOf(s, v, a).searchable ==>
      StateOf(s, v, a).chunkCount == |Chunks(s.versions[v].extraction.value.segments, s.indexes[a.value].chunkBytes)|
    ensures StateOf(s, v, a).indexStatus.NotIndexed? <==> forall i :: i in s.indexes ==> s.indexes[i].version != v
  {
    hide Chunks, CurrentFile, RawKept, VersionValid, JobValid;
    forall i | i in s.indexes && s.indexes[i].version == v ensures a == Some(i) && b == Some(i) {
      assert IndexValid(s, i);
    }
  }
}
