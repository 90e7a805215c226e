/**
 * Bringing the documents of selected repositories in line with their files: sync.ts and the row effects of
 * prisma-store.ts.
 */
module LocalRepoSync {
  import opened Results

  datatype Status = Active | Archived | Deprecated | Draft

  datatype IndexStatus = Pending | Indexed | Failed

  /** Content digests are injective, so a digest is the content. */
  type Content = string

  datatype File = File(repoName: string, filePath: string, content: Content, modifiedAt: int)

  datatype Row = Row(
    repoName: string, filePath: string, status: Status, contentHash: Option<Content>, updatedAt: Option<int>,
    indexStatus: IndexStatus)

  type Rows = map<string, Row>

  /**
   * How writing a document ends: committed, and indexed when there is an embedding model; committed but the embedding
   * failed; or rolled back.
   */
  datatype Outcome = Stored(index: IndexStatus) | StoredNotIndexed(index: IndexStatus) | NotStored

  datatype Summary = Summary(
    inserted: nat, updated: nat, archived: nat, skippedUnchanged: nat, failed: nat, failures: seq<(string, string)>)

  const NOTHING: Summary := Summary(0, 0, 0, 0, 0, [])

  function ExternalId(f: File): string {
    f.repoName + ":" + f.filePath
  }

  function Lookup(rows: Rows, id: string): Option<Row> {
    if id in rows then Some(rows[id]) else None
  }

  /** The classifier decides by path alone. */
  type Classifier = string -> Status

  function DraftOf(f: File, classify: Classifier, index: IndexStatus): Row {
    Row(f.repoName, f.filePath, classify(f.filePath), Some(f.content), Some(f.modifiedAt), index)
  }

  /** A file whose document is left alone. */
  predicate Skips(existing: Option<Row>, f: File, classify: Classifier) {
    existing.Some? &&
    if classify(f.filePath) == Archived then
      existing.value.status == Archived && existing.value.updatedAt.Some?
        && existing.value.updatedAt.value >= f.modifiedAt
    else
      existing.value.status == classify(f.filePath) && existing.value.contentHash == Some(f.content)
  }

  function Upserted(rows: Rows, f: File, classify: Classifier, o: Outcome): Rows {
    if o.NotStored? then rows else rows[ExternalId(f) := DraftOf(f, classify, o.index)]
  }

  function Counted(t: Summary, existing: Option<Row>, f: File, classify: Classifier, o: Outcome): Summary {
    if Skips(existing, f, classify) then t.(skippedUnchanged := t.skippedUnchanged + 1)
    else if !o.Stored? then t.(failed := t.failed + 1, failures := t.failures + [(f.repoName, f.filePath)])
    else if classify(f.filePath) == Archived then t.(archived := t.archived + 1)
    else if existing.Some? then t.(updated := t.updated + 1)
    else t.(inserted := t.inserted + 1)
  }

  datatype Progress = Progress(rows: Rows, summary: Summary)

  function ProcessFile(p: Progress, f: File, classify: Classifier, o: Outcome): Progress {
    var existing := Lookup(p.rows, ExternalId(f));
    Progress(if Skips(existing, f, classify) then p.rows else Upserted(p.rows, f, classify, o),
             Counted(p.summary, existing, f, classify, o))
  }

  /** The first n files one after the other. */
  function Processed(rows: Rows, files: seq<File>, classify: Classifier, outcomes: seq<Outcome>, n: nat): Progress
    requires n <= |files| <= |outcomes|
  {
    if n == 0 then Progress(rows, NOTHING)
    else ProcessFile(Processed(rows, files, classify, outcomes, n - 1), files[n - 1], classify, outcomes[n - 1])
  }

  function Seen(files: seq<File>): set<string> {
    set f | f in files :: ExternalId(f)
  }

  predicate Missing(id: string, row: Row, selected: seq<string>, seen: set<string>) {
    row.status == Active && row.repoName in selected && id !in seen
  }

  function MissingIds(rows: Rows, selected: seq<string>, seen: set<string>): set<string> {
    set id | id in rows && Missing(id, rows[id], selected, seen)
  }

  function WithoutMissing(rows: Rows, selected: seq<string>, seen: set<string>): Rows {
    map id | id in rows ::
      if Missing(id, rows[id], selected, seen) then rows[id].(status := Archived, indexStatus := Pending)
      else rows[id]
  }

  function Synced(rows: Rows, files: seq<File>, classify: Classifier, outcomes: seq<Outcome>,
                  selected: seq<string>): Progress
    requires |files| <= |outcomes|
  {
    var p := Processed(rows, files, classify, outcomes, |files|);
    Progress(WithoutMissing(p.rows, selected, Seen(files)),
      p.summary.(archived := p.summary.archived + |MissingIds(p.rows, selected, Seen(files))|))
  }

  /* ---- the store and the sync ---- */

  class LocalRepoStore {
    var rows: Rows
    var lastSyncedAt: Option<int>

    method FindDocumentByExternalId(id: string) returns (existing: Option<Row>)
      ensures existing == Lookup(rows, id)
    {
      existing := if id in rows then Some(rows[id]) else None;
    }

    /** One transaction for the row and its chunks, then the embedding outside it. */
    method UpsertDocument(f: File, classify: Classifier, o: Outcome) returns (ok: bool)
      modifies this`rows
      ensures rows == Upserted(old(rows), f, classify, o) && ok == o.Stored?
    {
      if o.NotStored? { return false; }
      rows := rows[ExternalId(f) := DraftOf(f, classify, o.index)];
      return o.Stored?;
    }

    method ArchiveMissingDocuments(selected: seq<string>, seen: seq<string>) returns (count: nat)
      modifies this`rows
      ensures rows == WithoutMissing(old(rows), selected, set id | id in seen)
      ensures count == |MissingIds(old(rows), selected, set id | id in seen)|
    {
      ghost var ids := set id | id in seen;
      var missing := set id | id in rows && rows[id].status == Active && rows[id].repoName in selected && id !in seen;
      assert missing == MissingIds(rows, selected, ids);
      count := |missing|;
      rows := map id | id in rows ::
        if id in missing then rows[id].(status := Archived, indexStatus := Pending) else rows[id];
    }
  }

  method SyncLocalRepoFiles(
    store: LocalRepoStore, files: seq<File>, classify: Classifier, outcomes: seq<Outcome>, selected: seq<string>,
    syncedAt: int)
    returns (summary: Summary)
    requires |files| <= |outcomes|
    modifies store
    ensures Progress(store.rows, summary) == Synced(old(store.rows), files, classify, outcomes, selected)
    ensures store.lastSyncedAt == Some(syncedAt)
  {
    var inserted, updated, archived, skippedUnchanged, failed, failures := 0, 0, 0, 0, 0, [];
    ghost var before := store.rows;
    for i := 0 to |files|
      invariant Progress(store.rows, Summary(inserted, updated, archived, skippedUnchanged, failed, failures))
        == Processed(before, files, classify, outcomes, i)
    {
      var file := files[i];
      var existing := store.FindDocumentByExternalId(ExternalId(file));
      if classify(file.filePath) == Archived {
        if existing.Some? && existing.value.status == Archived {
          if existing.value.updatedAt.Some? && existing.value.updatedAt.value >= file.modifiedAt {
            skippedUnchanged := skippedUnchanged + 1;
            continue;
          }
        }
        var ok := store.UpsertDocument(file, classify, outcomes[i]);
        if !ok {
          failed, failures := failed + 1, failures + [(file.repoName, file.filePath)];
          continue;
        }
        archived := archived + 1;
        continue;
      }
      if existing.Some? {
        if existing.value.status == classify(file.filePath) && existing.value.contentHash == Some(file.content) {
          skippedUnchanged := skippedUnchanged + 1;
          continue;
        }
        var ok := store.UpsertDocument(file, classify, outcomes[i]);
        if !ok {
          failed, failures := failed + 1, failures + [(file.repoName, file.filePath)];
          continue;
        }
        updated := updated + 1;
        continue;
      }
      var ok := store.UpsertDocument(file, classify, outcomes[i]);
      if !ok {
        failed, failures := failed + 1, failures + [(file.repoName, file.filePath)];
        continue;
      }
      inserted := inserted + 1;
    }
    var seenExternalIds := seq(|files|, i requires 0 <= i < |files| => ExternalId(files[i]));
    SeenInOrder(files, seenExternalIds);
    var missing := store.ArchiveMissingDocuments(selected, seenExternalIds);
    archived := archived + missing;
    store.lastSyncedAt := Some(syncedAt);
    summary := Summary(inserted, updated, archived, skippedUnchanged, failed, failures);
  }

  lemma SeenInOrder(files: seq<File>, ids: seq<string>)
    requires |ids| == |files| && forall i :: 0 <= i < |files| ==> ids[i] == ExternalId(files[i])
    ensures (set id | id in ids) == Seen(files)
  {
    forall f | f in files ensures ExternalId(f) in ids {
      var i :| 0 <= i < |files| && files[i] == f;
      assert ids[i] == ExternalId(f);
    }
    forall id | id in ids ensures id in Seen(files) {
      var i :| 0 <= i < |ids| && ids[i] == id;
      assert files[i] in files;
    }
  }

  /* ---- counters ---- */

  function Total(t: Summary): nat {
    t.inserted + t.updated + t.archived + t.skippedUnchanged + t.failed
  }

  lemma {:induction false} EachFileCountsOnce(rows: Rows, files: seq<File>, classify: Classifier,
                                              outcomes: seq<Outcome>, n: nat)
    requires n <= |files| <= |outcomes|
    ensures var t := Processed(rows, files, classify, outcomes, n).summary; Total(t) == n && |t.failures| == t.failed
  {
    hide Skips, Upserted, Lookup;
    if n > 0 { EachFileCountsOnce(rows, files, classify, outcomes, n - 1); }
  }

  /** Whatever fails: the five counters add up to the files and the documents newly archived as missing. */
  lemma CountersAddUp(rows: Rows, files: seq<File>, classify: Classifier, outcomes: seq<Outcome>, selected: seq<string>)
    requires |files| <= |outcomes|
    ensures var p := Processed(rows, files, classify, outcomes, |files|);
      var t := Synced(rows, files, classify, outcomes, selected).summary;
      Total(t) == |files| + |MissingIds(p.rows, selected, Seen(files))| && |t.failures| == t.failed
  {
    EachFileCountsOnce(rows, files, classify, outcomes, |files|);
  }

  /* ---- one row per file ---- */

  predicate DistinctIds(files: seq<File>) {
    forall i, j :: 0 <= i < j < |files| ==> ExternalId(files[i]) != ExternalId(files[j])
  }

  lemma FirstColon(f: File)
    requires ':' !in f.repoName
    ensures ExternalId(f)[|f.repoName|] == ':' && forall k :: 0 <= k < |f.repoName| ==> ExternalId(f)[k] != ':'
  {
    forall k | 0 <= k < |f.repoName| ensures ExternalId(f)[k] != ':' { assert ExternalId(f)[k] == f.repoName[k]; }
  }

  /** Repository names without a colon keep the external ids of different files apart. */
  lemma ColonFreeNamesKeepIdsApart(f: File, g: File)
    requires ':' !in f.repoName && ':' !in g.repoName && ExternalId(f) == ExternalId(g)
    ensures f.repoName == g.repoName && f.filePath == g.filePath
  {
    var id, m, n := ExternalId(f), |f.repoName|, |g.repoName|;
    FirstColon(f);
    FirstColon(g);
    assert f.repoName == id[..m] && g.repoName == id[..n];
    assert f.filePath == id[m + 1..] && g.filePath == id[n + 1..];
  }

  /** What a file leaves of its document. */
  function After(existing: Option<Row>, f: File, classify: Classifier, o: Outcome): Option<Row> {
    if Skips(existing, f, classify) || o.NotStored? then existing else Some(DraftOf(f, classify, o.index))
  }

  lemma {:induction false} OthersUntouched(rows: Rows, files: seq<File>, classify: Classifier, outcomes: seq<Outcome>,
                                           n: nat, id: string)
    requires n <= |files| <= |outcomes| && forall i :: 0 <= i < n ==> ExternalId(files[i]) != id
    ensures Lookup(Processed(rows, files, classify, outcomes, n).rows, id) == Lookup(rows, id)
  {
    if n > 0 { OthersUntouched(rows, files, classify, outcomes, n - 1, id); }
  }

  lemma {:induction false} RowAfterFile(rows: Rows, files: seq<File>, classify: Classifier, outcomes: seq<Outcome>,
                                        n: nat, i: nat)
    requires i < n <= |files| <= |outcomes| && DistinctIds(files)
    ensures Lookup(Processed(rows, files, classify, outcomes, n).rows, ExternalId(files[i]))
      == After(Lookup(rows, ExternalId(files[i])), files[i], classify, outcomes[i])
  {
    var p := n - 1;
    if i == p {
      OthersUntouched(rows, files, classify, outcomes, p, ExternalId(files[i]));
    } else {
      RowAfterFile(rows, files, classify, outcomes, p, i);
      assert ExternalId(files[i]) != ExternalId(files[p]);
    }
  }

  /** Failures are counted: without any, every file not skipped was stored. */
  lemma {:induction false} NoFailureMeansStored(rows: Rows, files: seq<File>, classify: Classifier,
                                                outcomes: seq<Outcome>, n: nat, i: nat)
    requires i < n <= |files| <= |outcomes| && DistinctIds(files)
    requires Processed(rows, files, classify, outcomes, n).summary.failed == 0
    ensures Skips(Lookup(rows, ExternalId(files[i])), files[i], classify) || outcomes[i].Stored?
  {
    var p := n - 1;
    if i == p {
      OthersUntouched(rows, files, classify, outcomes, p, ExternalId(files[i]));
    } else {
      NoFailureMeansStored(rows, files, classify, outcomes, p, i);
    }
  }

  datatype Fate = Skipped | Lost | Retired | Renewed | New

  /** What becomes of a file, judged by its document before the sync. */
  function FateOf(existing: Option<Row>, f: File, classify: Classifier, o: Outcome): Fate {
    if Skips(existing, f, classify) then Skipped
    else if !o.Stored? then Lost
    else if classify(f.filePath) == Archived then Retired
    else if existing.Some? then Renewed else New
  }

  function Fated(rows: Rows, files: seq<File>, classify: Classifier, outcomes: seq<Outcome>, n: nat,
                 fate: Fate): set<nat>
    requires n <= |files| <= |outcomes|
  {
    set i: nat | i < n && FateOf(Lookup(rows, ExternalId(files[i])), files[i], classify, outcomes[i]) == fate
  }

  /** The files that were lost, in order. */
  function LostFiles(rows: Rows, files: seq<File>, classify: Classifier, outcomes: seq<Outcome>, n: nat)
    : seq<(string, string)>
    requires n <= |files| <= |outcomes|
  {
    if n == 0 then []
    else LostFiles(rows, files, classify, outcomes, n - 1)
         + if FateOf(Lookup(rows, ExternalId(files[n - 1])), files[n - 1], classify, outcomes[n - 1]).Lost?
           then [(files[n - 1].repoName, files[n - 1].filePath)] else []
  }

  lemma FatedStep(rows: Rows, files: seq<File>, classify: Classifier, outcomes: seq<Outcome>, n: nat, fate: Fate)
    requires n < |files| <= |outcomes|
    ensures |Fated(rows, files, classify, outcomes, n + 1, fate)| == |Fated(rows, files, classify, outcomes, n, fate)|
      + if FateOf(Lookup(rows, ExternalId(files[n])), files[n], classify, outcomes[n]) == fate then 1 else 0
  {
    hide FateOf, Lookup, ExternalId;
    var before := Fated(rows, files, classify, outcomes, n, fate);
    var after := Fated(rows, files, classify, outcomes, n + 1, fate);
    if FateOf(Lookup(rows, ExternalId(files[n])), files[n], classify, outcomes[n]) == fate {
      assert after == before + {n};
    } else {
      assert after == before;
    }
  }

  /** Each counter counts the files of one fate. */
  lemma {:induction false} CountersCountFates(rows: Rows, files: seq<File>, classify: Classifier,
                                              outcomes: seq<Outcome>, n: nat)
    requires n <= |files| <= |outcomes| && DistinctIds(files)
    ensures var t := Processed(rows, files, classify, outcomes, n).summary;
      && t.inserted == |Fated(rows, files, classify, outcomes, n, New)|
      && t.updated == |Fated(rows, files, classify, outcomes, n, Renewed)|
      && t.archived == |Fated(rows, files, classify, outcomes, n, Retired)|
      && t.skippedUnchanged == |Fated(rows, files, classify, outcomes, n, Skipped)|
      && t.failed == |Fated(rows, files, classify, outcomes, n, Lost)|
      && t.failures == LostFiles(rows, files, classify, outcomes, n)
  {
    hide Skips, Fated;
    if n == 0 {
      NothingFated(rows, files, classify, outcomes);
    } else {
      var p := n - 1;
      CountersCountFates(rows, files, classify, outcomes, p);
      OthersUntouched(rows, files, classify, outcomes, p, ExternalId(files[p]));
      FatedStep(rows, files, classify, outcomes, p, New);
      FatedStep(rows, files, classify, outcomes, p, Renewed);
      FatedStep(rows, files, classify, outcomes, p, Retired);
      FatedStep(rows, files, classify, outcomes, p, Skipped);
      FatedStep(rows, files, classify, outcomes, p, Lost);
    }
  }

  lemma NothingFated(rows: Rows, files: seq<File>, classify: Classifier, outcomes: seq<Outcome>)
    requires |files| <= |outcomes|
    ensures forall fate :: Fated(rows, files, classify, outcomes, 0, fate) == {}
  {
  }

  /** The document of a file after a whole sync, and of an id without a file. */
  lemma SyncedRows(rows: Rows, files: seq<File>, classify: Classifier, outcomes: seq<Outcome>, selected: seq<string>)
    requires |files| <= |outcomes| && DistinctIds(files)
    ensures var done := Synced(rows, files, classify, outcomes, selected).rows;
      && (forall i :: 0 <= i < |files| ==>
            Lookup(done, ExternalId(files[i]))
              == After(Lookup(rows, ExternalId(files[i])), files[i], classify, outcomes[i]))
      && (forall id :: id !in Seen(files) ==>
        Lookup(done, id) == Lookup(WithoutMissing(rows, selected, Seen(files)), id))
  {
    hide Processed, After;
    var n := |files|;
    var p := Processed(rows, files, classify, outcomes, n);
    var done := Synced(rows, files, classify, outcomes, selected).rows;
    forall i | 0 <= i < n
      ensures Lookup(done, ExternalId(files[i]))
        == After(Lookup(rows, ExternalId(files[i])), files[i], classify, outcomes[i])
    {
      RowAfterFile(rows, files, classify, outcomes, n, i);
      assert files[i] in files;
    }
    forall id | id !in Seen(files) ensures Lookup(done, id) == Lookup(WithoutMissing(rows, selected, Seen(files)), id) {
      forall i | 0 <= i < n ensures ExternalId(files[i]) != id { assert files[i] in files; }
      OthersUntouched(rows, files, classify, outcomes, n, id);
    }
  }

  /** The document says what the file says: for a retired path only not before the file's time. */
  predicate UpToDate(row: Row, f: File, classify: Classifier) {
    && row.status == classify(f.filePath)
    && if row.status == Archived then row.updatedAt.Some? && f.modifiedAt <= row.updatedAt.value
       else row.contentHash == Some(f.content)
  }

  /**
   * A sync writes exactly the documents that are out of date, each with all its file says, and retires exactly the
   * active documents of the selection that have no file; everything else stays as it was.
   */
  lemma SyncWritesWhatChanged(rows: Rows, files: seq<File>, classify: Classifier, outcomes: seq<Outcome>,
                              selected: seq<string>)
    requires |files| <= |outcomes| && DistinctIds(files)
    ensures var done := Synced(rows, files, classify, outcomes, selected).rows;
      && (forall i :: 0 <= i < |files| ==>
            var f, id := files[i], files[i].repoName + ":" + files[i].filePath;
            if (id in rows && UpToDate(rows[id], f, classify)) || outcomes[i].NotStored? then
              Lookup(done, id) == Lookup(rows, id)
            else
              id in done && UpToDate(done[id], f, classify)
              && done[id] == Row(f.repoName, f.filePath, classify(f.filePath), Some(f.content), Some(f.modifiedAt),
                                 outcomes[i].index))
      && (forall id :: id !in Seen(files) ==> (id in done <==> id in rows))
      && (forall id :: id !in Seen(files) && id in rows ==>
            done[id] == if rows[id].status == Active && rows[id].repoName in selected
                        then rows[id].(status := Archived, indexStatus := Pending) else rows[id])
  {
    hide Synced;
    SyncedRows(rows, files, classify, outcomes, selected);
    var done := Synced(rows, files, classify, outcomes, selected).rows;
    forall id | id !in Seen(files)
      ensures id in done <==> id in rows
      ensures id in rows ==> done[id] == WithoutMissing(rows, selected, Seen(files))[id]
    {
      assert Lookup(done, id) == Lookup(WithoutMissing(rows, selected, Seen(files)), id);
    }
  }

  /* ---- convergence ---- */

  predicate FileFor(files: seq<File>, classify: Classifier, id: string) {
    exists i :: 0 <= i < |files| && ExternalId(files[i]) == id && classify(files[i].filePath) == Active
  }

  predicate ActiveIn(rows: Rows, selected: seq<string>, id: string) {
    id in rows && rows[id].status == Active && rows[id].repoName in selected
  }

  /** The active documents of the selected repositories are exactly the files classified active. */
  ghost predicate Converged(rows: Rows, files: seq<File>, classify: Classifier, selected: seq<string>) {
    forall id :: ActiveIn(rows, selected, id) <==> FileFor(files, classify, id)
  }

  /** An unchanged active document that is filed under a repository of the selection. */
  predicate WellFiled(rows: Rows, f: File, classify: Classifier, selected: seq<string>) {
    classify(f.filePath) == Active && Skips(Lookup(rows, ExternalId(f)), f, classify) ==>
      rows[ExternalId(f)].repoName in selected
  }

  lemma FileConverges(rows: Rows, files: seq<File>, classify: Classifier, outcomes: seq<Outcome>, selected: seq<string>,
                      i: nat)
    requires i < |files| <= |outcomes| && DistinctIds(files) && files[i].repoName in selected
    requires Synced(rows, files, classify, outcomes, selected).summary.failed == 0
    ensures var done := Synced(rows, files, classify, outcomes, selected).rows;
      ActiveIn(done, selected, ExternalId(files[i])) <==>
        classify(files[i].filePath) == Active && WellFiled(rows, files[i], classify, selected)
    ensures var done := Synced(rows, files, classify, outcomes, selected).rows;
      ExternalId(files[i]) in done && done[ExternalId(files[i])].status == classify(files[i].filePath)
      && (classify(files[i].filePath) != Archived ==> done[ExternalId(files[i])].contentHash == Some(files[i].content))
  {
    hide Synced;
    FailedIsProcessed(rows, files, classify, outcomes, selected);
    NoFailureMeansStored(rows, files, classify, outcomes, |files|, i);
    SyncedRows(rows, files, classify, outcomes, selected);
    assert Lookup(Synced(rows, files, classify, outcomes, selected).rows, ExternalId(files[i])).Some?;
  }

  lemma FailedIsProcessed(rows: Rows, files: seq<File>, classify: Classifier, outcomes: seq<Outcome>,
                          selected: seq<string>)
    requires |files| <= |outcomes|
    ensures Synced(rows, files, classify, outcomes, selected).summary.failed
      == Processed(rows, files, classify, outcomes, |files|).summary.failed
  {
  }

  lemma OthersConverge(rows: Rows, files: seq<File>, classify: Classifier, outcomes: seq<Outcome>,
                       selected: seq<string>, id: string)
    requires |files| <= |outcomes| && DistinctIds(files) && id !in Seen(files)
    ensures !ActiveIn(Synced(rows, files, classify, outcomes, selected).rows, selected, id)
  {
    hide Synced, After;
    SyncedRows(rows, files, classify, outcomes, selected);
    var done := Synced(rows, files, classify, outcomes, selected).rows;
    assert Lookup(done, id) == Lookup(WithoutMissing(rows, selected, Seen(files)), id);
  }

  /**
   * A sync without failures converges if and only if no unchanged active document is filed under a repository
   * outside the selection, which a colon in a repository name makes possible.
   */
  lemma SyncConverges(rows: Rows, files: seq<File>, classify: Classifier, outcomes: seq<Outcome>, selected: seq<string>)
    requires |files| <= |outcomes| && DistinctIds(files)
    requires forall i :: 0 <= i < |files| ==> files[i].repoName in selected
    requires Synced(rows, files, classify, outcomes, selected).summary.failed == 0
    ensures Converged(Synced(rows, files, classify, outcomes, selected).rows, files, classify, selected)
      <==> forall i :: 0 <= i < |files| ==> WellFiled(rows, files[i], classify, selected)
  {
    hide Synced, WellFiled, ActiveIn;
    var done := Synced(rows, files, classify, outcomes, selected).rows;
    forall i | 0 <= i < |files|
      ensures ActiveIn(done, selected, ExternalId(files[i])) <==>
                classify(files[i].filePath) == Active && WellFiled(rows, files[i], classify, selected)
      ensures FileFor(files, classify, ExternalId(files[i])) <==> classify(files[i].filePath) == Active
    {
      FileConverges(rows, files, classify, outcomes, selected, i);
    }
    forall i | 0 <= i < |files| && !WellFiled(rows, files[i], classify, selected)
      ensures classify(files[i].filePath) == Active
    {
      IllFiledIsActive(rows, files[i], classify, selected);
    }
    if forall i :: 0 <= i < |files| ==> WellFiled(rows, files[i], classify, selected) {
      forall id ensures ActiveIn(done, selected, id) <==> FileFor(files, classify, id) {
        if id in Seen(files) {
          var f :| f in files && ExternalId(f) == id;
          var i :| 0 <= i < |files| && files[i] == f;
        } else {
          OthersConverge(rows, files, classify, outcomes, selected, id);
          UnseenHasNoFile(files, classify, id);
        }
      }
    }
  }

  lemma IllFiledIsActive(rows: Rows, f: File, classify: Classifier, selected: seq<string>)
    requires !WellFiled(rows, f, classify, selected)
    ensures classify(f.filePath) == Active
  {
  }

  lemma UnseenHasNoFile(files: seq<File>, classify: Classifier, id: string)
    requires id !in Seen(files)
    ensures !FileFor(files, classify, id)
  {
    forall i | 0 <= i < |files| ensures ExternalId(files[i]) != id { assert files[i] in files; }
  }

  /** Every row is filed under its own names, and no repository name has a colon. */
  predicate PlainRows(rows: Rows) {
    forall id :: id in rows ==> id == rows[id].repoName + ":" + rows[id].filePath && ':' !in rows[id].repoName
  }

  /** The files of one sync: each path of a repository once, and no repository name has a colon. */
  predicate PlainFiles(files: seq<File>) {
    && (forall i :: 0 <= i < |files| ==> ':' !in files[i].repoName)
    && (forall i, j :: 0 <= i < j < |files| ==>
          files[i].repoName != files[j].repoName || files[i].filePath != files[j].filePath)
  }

  /** Then different files have different external ids. */
  lemma PlainFilesHaveDistinctIds(files: seq<File>)
    requires PlainFiles(files)
    ensures DistinctIds(files)
  {
    forall i, j | 0 <= i < j < |files| ensures ExternalId(files[i]) != ExternalId(files[j]) {
      if ExternalId(files[i]) == ExternalId(files[j]) { ColonFreeNamesKeepIdsApart(files[i], files[j]); }
    }
  }

  lemma {:induction false} ProcessingKeepsPlainRows(rows: Rows, files: seq<File>, classify: Classifier,
                                                    outcomes: seq<Outcome>, n: nat)
    requires n <= |files| <= |outcomes| && PlainRows(rows) && PlainFiles(files)
    ensures PlainRows(Processed(rows, files, classify, outcomes, n).rows)
  {
    hide Skips;
    if n > 0 { ProcessingKeepsPlainRows(rows, files, classify, outcomes, n - 1); }
  }

  /** Every write of a sync, failed ones included, files a document under its own names. */
  lemma SyncKeepsPlainRows(rows: Rows, files: seq<File>, classify: Classifier, outcomes: seq<Outcome>,
                           selected: seq<string>)
    requires |files| <= |outcomes| && PlainRows(rows) && PlainFiles(files)
    ensures PlainRows(Synced(rows, files, classify, outcomes, selected).rows)
  {
    hide Processed;
    ProcessingKeepsPlainRows(rows, files, classify, outcomes, |files|);
  }

  lemma PlainSyncConverges(rows: Rows, files: seq<File>, classify: Classifier, outcomes: seq<Outcome>,
                           selected: seq<string>)
    requires |files| <= |outcomes| && PlainRows(rows) && PlainFiles(files)
    requires forall i :: 0 <= i < |files| ==> files[i].repoName in selected
    requires Synced(rows, files, classify, outcomes, selected).summary.failed == 0
    ensures Converged(Synced(rows, files, classify, outcomes, selected).rows, files, classify, selected)
  {
    hide Synced, Converged;
    PlainFilesHaveDistinctIds(files);
    forall i | 0 <= i < |files| ensures WellFiled(rows, files[i], classify, selected) {
      var f := files[i];
      if ExternalId(f) in rows {
        var row := rows[ExternalId(f)];
        ColonFreeNamesKeepIdsApart(File(row.repoName, row.filePath, "", 0), f);
      }
    }
    SyncConverges(rows, files, classify, outcomes, selected);
  }

  /** One call of the sync: what it is given and what becomes of its writes. */
  datatype Call = Call(files: seq<File>, classify: Classifier, outcomes: seq<Outcome>, selected: seq<string>)

  /** A scan lists each path of a selected repository once; here no repository name has a colon. */
  ghost predicate PlainCall(k: Call) {
    && |k.files| <= |k.outcomes| && PlainFiles(k.files)
    && (forall i :: 0 <= i < |k.files| ==> k.files[i].repoName in k.selected)
  }

  ghost predicate PlainHistory(calls: seq<Call>) {
    forall i :: 0 <= i < |calls| ==> PlainCall(calls[i])
  }

  /** The documents after a history of syncs that began with none. */
  ghost function AfterAll(calls: seq<Call>): Rows
    requires PlainHistory(calls)
  {
    if |calls| == 0 then map[] else Again(AfterAll(calls[..|calls| - 1]), calls[|calls| - 1]).rows
  }

  ghost function Again(rows: Rows, k: Call): Progress
    requires |k.files| <= |k.outcomes|
  {
    Synced(rows, k.files, k.classify, k.outcomes, k.selected)
  }

  lemma {:induction false} HistoryIsPlain(calls: seq<Call>)
    requires PlainHistory(calls)
    ensures PlainRows(AfterAll(calls))
  {
    hide Synced;
    if |calls| > 0 {
      var n := |calls| - 1;
      var k := calls[n];
      HistoryIsPlain(calls[..n]);
      SyncKeepsPlainRows(AfterAll(calls[..n]), k.files, k.classify, k.outcomes, k.selected);
    }
  }

  /**
   * Without colons in repository names, after any history of syncs, failures and changing selections included, a sync
   * without failures converges.
   */
  lemma PlainNamesConverge(calls: seq<Call>, last: Call)
    requires PlainHistory(calls) && PlainCall(last)
    requires Again(AfterAll(calls), last).summary.failed == 0
    ensures Converged(Again(AfterAll(calls), last).rows, last.files, last.classify, last.selected)
  {
    hide Synced, Converged;
    HistoryIsPlain(calls);
    PlainSyncConverges(AfterAll(calls), last.files, last.classify, last.outcomes, last.selected);
  }

  /** Two failure-free syncs of one file each: the first file is stored, the second is missed. */
  ghost predicate Missed(early: File, late: File, classify: Classifier, o: Outcome) {
    var first := Synced(map[], [early], classify, [Stored(Indexed)], [early.repoName]);
    var second := Synced(first.rows, [late], classify, [o], [late.repoName]);
    && first.summary.failed == 0 && Converged(first.rows, [early], classify, [early.repoName])
    && second.summary.failed == 0 && !Converged(second.rows, [late], classify, [late.repoName])
  }

  /** Active files with one content and one external id, in two repositories: the first stands for the second. */
  lemma SharedIdMisses(early: File, late: File, classify: Classifier, o: Outcome)
    requires ExternalId(early) == ExternalId(late) && early.repoName != late.repoName && early.content == late.content
    requires classify(early.filePath) == Active && classify(late.filePath) == Active
    ensures Missed(early, late, classify, o)
  {
    OneStored([early], classify, [early.repoName]);
    hide Synced, Converged, Processed;
    SyncConverges(map[], [early], classify, [Stored(Indexed)], [early.repoName]);
    SyncedRows(map[], [early], classify, [Stored(Indexed)], [early.repoName]);
    var rows := Synced(map[], [early], classify, [Stored(Indexed)], [early.repoName]).rows;
    assert Lookup(rows, ExternalId([early][0])) == Some(DraftOf(early, classify, Indexed));
    OneSkipped(rows, [late], classify, [o], [late.repoName]);
    assert !WellFiled(rows, [late][0], classify, [late.repoName]);
    SyncConverges(rows, [late], classify, [o], [late.repoName]);
  }

  /**
   * Every colon in a repository name can do this: after a sync of a:b, the unchanged document of a file stands for a
   * file of a whose path starts with b and a colon, and the sync of a misses it. With x/schema.prisma below a:b and
   * b:x/schema.prisma below a, the scan accepts both names and collects both files.
   */
  lemma ColonInNameDiverges(a: string, b: string, path: string, content: Content, classify: Classifier, o: Outcome)
    requires classify(path) == Active && classify(b + ":" + path) == Active
    ensures Missed(File(a + ":" + b, path, content, 0), File(a, b + ":" + path, content, 0), classify, o)
  {
    hide Missed;
    var early, late := File(a + ":" + b, path, content, 0), File(a, b + ":" + path, content, 0);
    assert a + ":" + b + ":" + path == a + ":" + (b + ":" + path);
    assert |early.repoName| > |late.repoName|;
    SharedIdMisses(early, late, classify, o);
  }

  lemma OneStored(files: seq<File>, classify: Classifier, selected: seq<string>)
    requires |files| == 1
    ensures Synced(map[], files, classify, [Stored(Indexed)], selected).summary.failed == 0
  {
    assert Processed(map[], files, classify, [Stored(Indexed)], 0) == Progress(map[], NOTHING);
  }

  lemma OneSkipped(rows: Rows, files: seq<File>, classify: Classifier, outcomes: seq<Outcome>,
                   selected: seq<string>)
    requires |files| == 1 <= |outcomes| && Skips(Lookup(rows, ExternalId(files[0])), files[0], classify)
    ensures Synced(rows, files, classify, outcomes, selected).summary.failed == 0
  {
    assert Processed(rows, files, classify, outcomes, 0) == Progress(rows, NOTHING);
  }

  /* ---- syncing again ---- */

  lemma SkipsAfter(existing: Option<Row>, f: File, classify: Classifier, o: Outcome)
    ensures Skips(After(existing, f, classify, o), f, classify) <==> Skips(existing, f, classify) || !o.NotStored?
  {
  }

  /**
   * Whether file i is skipped by a second sync, whatever the outcomes there: exactly unless its write was
   * rolled back.
   */
  lemma SkippedNextTime(rows: Rows, files: seq<File>, classify: Classifier, outcomes: seq<Outcome>,
                        selected: seq<string>, i: nat)
    requires i < |files| <= |outcomes| && DistinctIds(files)
    ensures Skips(Lookup(Synced(rows, files, classify, outcomes, selected).rows, ExternalId(files[i])),
                  files[i], classify)
      <==> Skips(Lookup(rows, ExternalId(files[i])), files[i], classify) || !outcomes[i].NotStored?
  {
    hide Synced, Skips, After;
    SyncedRows(rows, files, classify, outcomes, selected);
    SkipsAfter(Lookup(rows, ExternalId(files[i])), files[i], classify, outcomes[i]);
  }

  lemma {:induction false} AllSkipped(rows: Rows, files: seq<File>, classify: Classifier, outcomes: seq<Outcome>,
                                      n: nat)
    requires n <= |files| <= |outcomes| && forall i :: 0 <= i < n ==>
               Skips(Lookup(rows, ExternalId(files[i])), files[i], classify)
    ensures Processed(rows, files, classify, outcomes, n) == Progress(rows, NOTHING.(skippedUnchanged := n))
  {
    hide Skips;
    if n > 0 { AllSkipped(rows, files, classify, outcomes, n - 1); }
  }

  lemma NothingMissing(rows: Rows, files: seq<File>, classify: Classifier, outcomes: seq<Outcome>,
                       selected: seq<string>)
    requires |files| <= |outcomes|
    ensures var done := Synced(rows, files, classify, outcomes, selected).rows;
      MissingIds(done, selected, Seen(files)) == {} && WithoutMissing(done, selected, Seen(files)) == done
  {
  }

  /**
   * A second sync of the same files leaves every document as it is, skips every file and archives nothing, whatever
   * would become of writes: also when embeddings failed the first time, so those are not tried again.
   */
  lemma ResyncChangesNothing(rows: Rows, files: seq<File>, classify: Classifier, outcomes: seq<Outcome>,
                             again: seq<Outcome>, selected: seq<string>)
    requires |files| <= |outcomes| && |files| <= |again| && DistinctIds(files)
    requires forall i :: 0 <= i < |files| ==>
               Skips(Lookup(rows, ExternalId(files[i])), files[i], classify) || !outcomes[i].NotStored?
    ensures var done := Synced(rows, files, classify, outcomes, selected).rows;
      Synced(done, files, classify, again, selected) == Progress(done, NOTHING.(skippedUnchanged := |files|))
  {
    hide Skips, WithoutMissing, MissingIds;
    var done := Synced(rows, files, classify, outcomes, selected).rows;
    forall i | 0 <= i < |files| ensures Skips(Lookup(done, ExternalId(files[i])), files[i], classify) {
      SkippedNextTime(rows, files, classify, outcomes, selected, i);
    }
    AllSkipped(done, files, classify, again, |files|);
    NothingMissing(rows, files, classify, outcomes, selected);
  }
}
