/**
 * One indexing run, transaction by transaction: execute of file-index.service.ts. Between its transactions any other
 * transactions may commit; they are a parameter, so a contract here holds for every interleaving.
 */
module FileIndexing {
  import opened Results
  import opened FileContract
  import opened FileChunker
  import opened FileChunkCoverage
  import opened FileChunkLoop
  import opened FileLifecycle
  import opened FileLifecycleSafety
  import opened FileCurrency

  const ROWS_PER_INSERT: nat := 32
  const FRAMING: nat := 256
  const DEFAULT_INPUT_LIMIT: nat := 16000

  datatype IndexError =
    | SourceExcluded
    | SourceNotExtracted
    | SourceChanged
    | ParserFailed
    | StorageUnavailable
    | CallCancelled
    | EmbeddingUnavailable

  /* ---- what others may do meanwhile ---- */

  /** The run's own events, and the crash that would end it. */
  predicate Own(e: Event, run: Id) {
    match e
    case StartIndexing(r, _, _) => r == run
    case FinishUnchanged(r, _) => r == run
    case Rebind(r, _, _) => r == run
    case Embed(r) => r == run
    case Publish(r, _) => r == run
    case StopIndexing(r) => r == run
    case Crash => true
    case _ => false
  }

  predicate Foreign(events: seq<Event>, run: Id) {
    forall k :: 0 <= k < |events| ==> !Own(events[k], run)
  }

  /** The committed store at the n-th pause of a run, given the store before it. */
  type Others = (nat, Store) -> Store

  ghost predicate Harmless(others: Others, run: Id) {
    forall n, s :: Valid(s) ==> Interferes(s, others(n, s), run)
  }

  ghost predicate Interferes(s: Store, t: Store, run: Id) {
    exists events :: t == RunFrom(s, events) && Foreign(events, run)
  }

  ghost predicate SameJob(s: Store, t: Store, run: Id) {
    (run in s.jobs <==> run in t.jobs) && (run in s.jobs ==> s.jobs[run] == t.jobs[run])
  }

  lemma ForeignKeepsJob(s: Store, e: Event, run: Id)
    requires !Own(e, run)
    ensures SameJob(s, Apply(s, e), run)
  {
    hide Eligible, Reusable, Rebindable, Joined, CurrentFile;
    hide WellFormed, NewIndex, PublishedRows, NextVector, JobChunks;
  }

  lemma {:induction false} ForeignRun(s: Store, events: seq<Event>, run: Id)
    requires Valid(s) && Foreign(events, run)
    ensures Valid(RunFrom(s, events)) && SameJob(s, RunFrom(s, events), run)
  {
    hide Valid, Apply, Own;
    if events != [] {
      var n := |events| - 1;
      ForeignRun(s, events[..n], run);
      ForeignKeepsJob(RunFrom(s, events[..n]), events[n], run);
      ApplyKeepsValid(RunFrom(s, events[..n]), events[n]);
    }
  }

  lemma {:induction false} RunAppend(s: Store, a: seq<Event>, b: seq<Event>)
    ensures RunFrom(s, a + b) == RunFrom(RunFrom(s, a), b)
  {
    hide Apply;
    if b == [] {
      assert a + b == a;
    } else {
      var n := |b| - 1;
      RunAppend(s, a, b[..n]);
      assert (a + b)[..|a| + n] == a + b[..n];
    }
  }

  /** Nothing else commits, nobody cancels, and every call is answered. */
  ghost predicate Undisturbed(others: Others, aborted: nat -> bool, answered: nat -> bool) {
    (forall n, s :: others(n, s) == s) && forall n :: !aborted(n) && answered(n)
  }

  /** The version that a snapshot of an original looks for. */
  predicate Findable(s: Store, original: Id, v: Id) {
    && v in s.versions && s.versions[v].original == original && original in s.originals
    && !s.versions[v].rawDeleted && s.versions[v].active && !s.originals[original].deleted
  }

  /** Extracted, but no longer the newest version. */
  predicate Superseded(s: Store, original: Id, v: Id) {
    Findable(s, original, v) && !s.originals[original].excluded && Extracted(s.versions[v]) && !Latest(s, v)
  }

  /** An eligible version whose stored text is well formed. */
  predicate Ready(s: Store, original: Id, v: Id) {
    && Joined(s, v) && s.versions[v].original == original && CurrentFile(s, v)
    && s.versions[v].extraction.Some? && WellFormed(s.versions[v].extraction.value)
    && s.versions[v].extraction.value.format == s.versions[v].format
  }

  function JobOf(s: Store, original: Id, v: Id, chunkBytes: nat): Job
    requires Ready(s, original, v)
  {
    Job(original, v, s.versions[v].extraction.value, chunkBytes, s.originals[original].scopeRevision,
        s.versions[v].contentHash, s.versions[v].format, [])
  }

  /** The events that put an index of the run into the store. */
  predicate Stores(e: Event, run: Id) {
    (e.Rebind? || e.Publish?) && e.run == run
  }

  predicate StoresNothing(events: seq<Event>, run: Id) {
    forall k :: 0 <= k < |events| ==> !Stores(events[k], run)
  }

  /** A current index of the version, holding exactly what chunking and embedding its present text would store. */
  ghost predicate Searchable(s: Store, version: Id, chunkBytes: nat) {
    exists i :: i in s.indexes && s.indexes[i].version == version && Joined(s, version) && CurrentIndex(s, i)
      && s.indexes[i].chunkBytes == chunkBytes && s.versions[version].extraction.Some?
      && s.indexes[i].chunks == Embedded(Chunks(s.versions[version].extraction.value.segments, chunkBytes),
                                         s.originals[s.versions[version].original].scopeRevision,
                                         s.versions[version].original)
  }

  /**
   * An index of another version of the same original with the same bytes and format, made of the same text with the
   * same bound and under the same revision. That such an index is complete need not be asked.
   */
  predicate ReusableFor(s: Store, index: Index, job: Job) {
    && index.configuration.V2? && index.original == job.original && index.version != job.version
    && index.version in s.versions && s.versions[index.version].contentHash == job.contentHash
    && s.versions[index.version].format == job.format && index.digest.extraction == job.extraction
    && index.chunkBytes == job.chunkBytes && index.scopeRevision == job.scopeRevision
  }

  lemma ReusableIsRebindable(s: Store, i: Id, job: Job)
    requires Valid(s) && i in s.indexes
    ensures Rebindable(s, job, s.indexes[i]) <==> ReusableFor(s, s.indexes[i], job)
  {
    hide Chunks, VersionValid, RawKept, JobValid;
    assert IndexValid(s, i);
  }

  lemma FinishedIsSearchable(s: Store, e: Event)
    requires Valid(s) && Enabled(s, e) && (e.FinishUnchanged? || e.Rebind? || e.Publish?)
    ensures Searchable(Effect(s, e), s.jobs[e.run].version, s.jobs[e.run].chunkBytes)
  {
    var t := Effect(s, e);
    ApplyKeepsValid(s, e);
    FinishedRunIsCurrent(s, e, e.index);
    hide Valid, Enabled, Effect, Chunks, CurrentIndex;
    CurrentIndexIsPresent(t, e.index);
  }

  lemma QuietGoesOn(a: seq<Event>, b: seq<Event>, c: seq<Event>, run: Id)
    requires a <= b <= c && StoresNothing(b[|a|..], run) && StoresNothing(c[|b|..], run)
    ensures StoresNothing(c[|a|..], run)
  {
    forall k | 0 <= k < |c| - |a| ensures !Stores(c[|a|..][k], run) {
      if k < |b| - |a| { assert c[|a|..][k] == b[|a|..][k]; } else { assert c[|a|..][k] == c[|b|..][k + |a| - |b|]; }
    }
  }

  function ChunkBytesFor(inputTokenLimit: Option<nat>): nat
    requires inputTokenLimit.Some? ==> inputTokenLimit.value >= 512
  {
    var limit := if inputTokenLimit.Some? then inputTokenLimit.value else DEFAULT_INPUT_LIMIT;
    if limit - FRAMING < CHUNK_BYTES then limit - FRAMING else CHUNK_BYTES
  }

  lemma {:induction false} UpperBound(ids: set<Id>) returns (bound: Id)
    ensures forall id :: id in ids ==> id < bound
  {
    if ids == {} {
      bound := 0;
    } else {
      var x :| x in ids;
      var b := UpperBound(ids - {x});
      bound := if x < b then b else x + 1;
      assert ids == ids - {x} + {x};
    }
  }

  lemma UnusedId(ids: set<Id>)
    ensures exists id: Id :: id !in ids
  {
    var bound := UpperBound(ids);
    assert bound !in ids;
  }

  class FileIndexService {
    ghost const origin: Store
    ghost var log: seq<Event>
    /** Database tables and stored originals. */
    var store: Store

    constructor (s: Store)
      requires Valid(s)
      ensures Consistent() && store == origin == s && log == []
    {
      origin, store, log := s, s, [];
    }

    /** The store is sound and is what the logged transactions make of the first one. */
    ghost predicate Consistent()
      reads this
    {
      Valid(store) && store == RunFrom(origin, log)
    }

    /** Since a point in the log the run has put no index into the store. */
    ghost predicate QuietSince(past: seq<Event>, run: Id)
      reads this
    {
      past <= log && StoresNothing(log[|past|..], run)
    }

    /** Books a committed transaction of the run. */
    ghost method Book(e: Event, before: Store)
      requires Valid(before) && before == RunFrom(origin, log) && Enabled(before, e) && store == Effect(before, e)
      modifies this`log
      ensures Consistent() && log == old(log) + [e]
    {
      hide Valid, Enabled, Effect;
      ApplyKeepsValid(before, e);
      RunAppend(origin, log, [e]);
      assert RunFrom(before, [e]) == Apply(RunFrom(before, []), e) by { assert [e][..0] == []; }
      log := log + [e];
    }

    method Pause(n: nat, others: Others, run: Id)
      requires Consistent() && Harmless(others, run)
      modifies this`store, this`log
      ensures Consistent() && SameJob(old(store), store, run) && QuietSince(old(log), run)
      ensures store == others(n, old(store))
    {
      hide Valid, SameJob;
      ghost var before := store;
      store := others(n, store);
      ghost var events :| store == RunFrom(before, events) && Foreign(events, run);
      ForeignRun(before, events, run);
      RunAppend(origin, log, events);
      log := log + events;
    }

    /** The run leaves; whatever it obtained is forgotten. */
    method Leave(run: Id)
      requires Consistent()
      modifies this`store, this`log
      ensures Consistent() && run !in store.jobs && QuietSince(old(log), run)
    {
      hide Valid;
      ghost var before := store;
      store := store.(jobs := store.jobs - {run});
      Book(StopIndexing(run), before);
    }

    /** First transaction: read the version, its text and the scope they belong to. */
    method Snapshot(run: Id, original: Id, v: Id, chunkBytes: nat) returns (r: Result<Job, IndexError>)
      requires Consistent() && run !in store.jobs && MIN_CHUNK_BYTES <= chunkBytes <= CHUNK_BYTES
      modifies this`store, this`log
      ensures Consistent() && QuietSince(old(log), run)
      ensures r.Ok? <==> Ready(old(store), original, v)
      ensures r.Ok? ==> r.value == JobOf(old(store), original, v, chunkBytes)
      ensures r.Ok? ==> store == old(store).(jobs := old(store).jobs[run := r.value])
      ensures r.Err? ==> store == old(store)
      ensures r == Err(SourceExcluded) <==> Findable(old(store), original, v) && old(store).originals[original].excluded
      ensures r == Err(SourceChanged) <==> Superseded(old(store), original, v)
    {
      hide Valid;
      ghost var before := store;
      var found := Findable(store, original, v);
      if found && store.originals[original].excluded { return Err(SourceExcluded); }
      if !found || !Extracted(store.versions[v]) { return Err(SourceNotExtracted); }
      var version := store.versions[v];
      if !Latest(store, v) { return Err(SourceChanged); }
      if version.extraction.None? { return Err(IndexError.ParserFailed); }
      var accepted := AssertExtraction(version.extraction.value);
      if !accepted || version.extraction.value.format != version.format { return Err(IndexError.ParserFailed); }
      LatestBytesAreStored(store, v);
      var job := Job(original, v, version.extraction.value, chunkBytes, store.originals[original].scopeRevision,
                     version.contentHash, version.format, []);
      store := store.(jobs := store.jobs[run := job]);
      Book(StartIndexing(run, v, chunkBytes), before);
      r := Ok(job);
    }

    /** Second transaction: an index that already fits ends the run. */
    method FinishIfUnchanged(run: Id) returns (fits: bool)
      requires Consistent() && run in store.jobs && Eligible(store, store.jobs[run])
      modifies this`store, this`log
      ensures Consistent() && QuietSince(old(log), run)
      ensures fits <==> exists i :: i in old(store).indexes && Reusable(old(store).jobs[run], old(store).indexes[i])
      ensures !fits ==> store == old(store)
      ensures fits ==>
                Searchable(store, old(store).jobs[run].version, old(store).jobs[run].chunkBytes) && run !in store.jobs
    {
      hide Valid, Eligible;
      ghost var before := store;
      var job := store.jobs[run];
      if i :| i in store.indexes && Reusable(job, store.indexes[i]) {
        store := store.(jobs := store.jobs - {run});
        assert Enabled(before, FinishUnchanged(run, i));
        FinishedIsSearchable(before, FinishUnchanged(run, i));
        Book(FinishUnchanged(run, i), before);
        return true;
      }
      return false;
    }

    /** Deletes the version's index and writes the new one, its rows in batches. */
    method WriteIndex(id: Id, job: Job, rows: seq<ChunkRow>)
      requires Joined(store, job.version) && id !in store.issued
      modifies this`store
      ensures store == Replace(old(store), id, NewIndex(old(store), job, rows))
    {
      var before := store;
      var kept := map i | i in store.indexes && store.indexes[i].version != job.version :: store.indexes[i];
      var index := NewIndex(store, job, rows).(chunks := []);
      store := store.(indexes := kept[id := index], issued := store.issued + {id});
      var start := 0;
      while start < |rows|
        invariant 0 <= start <= |rows|
        invariant index == NewIndex(before, job, rows).(chunks := rows[..start])
        invariant store == before.(indexes := kept[id := index], issued := before.issued + {id})
      {
        var end := if start + ROWS_PER_INSERT < |rows| then start + ROWS_PER_INSERT else |rows|;
        assert rows[..start] + rows[start..end] == rows[..end];
        index := index.(chunks := index.chunks + rows[start..end]);
        store := store.(indexes := store.indexes[id := index]);
        assert kept[id := index] == store.indexes;
        start := end;
      }
      assert rows[..|rows|] == rows;
      assert before.indexes == old(store).indexes;
    }

    /**
     * Third transaction: the vectors of another version with the same bytes and text are copied instead of
     * bought again.
     */
    method RebindPrior(run: Id) returns (reused: bool)
      requires Consistent() && run in store.jobs && Eligible(store, store.jobs[run])
      modifies this`store, this`log
      ensures Consistent() && old(log) <= log
      ensures reused <==>
        exists i :: i in old(store).indexes && ReusableFor(old(store), old(store).indexes[i], old(store).jobs[run])
      ensures !reused ==> store == old(store) && log == old(log)
      ensures reused ==>
                Searchable(store, old(store).jobs[run].version, old(store).jobs[run].chunkBytes) && run !in store.jobs
    {
      hide Valid, Eligible;
      ghost var before := store;
      var job := store.jobs[run];
      forall i | i in store.indexes
        ensures Rebindable(store, job, store.indexes[i]) <==> ReusableFor(store, store.indexes[i], job)
      {
        ReusableIsRebindable(store, i, job);
      }
      if prior :| prior in store.indexes && Rebindable(store, job, store.indexes[prior]) {
        UnusedId(store.issued);
        var id: Id :| id !in store.issued;
        EligibleIsJoined(store, job);
        WriteIndex(id, job, store.indexes[prior].chunks);
        store := store.(jobs := store.jobs - {run});
        assert Enabled(before, Rebind(run, prior, id));
        FinishedIsSearchable(before, Rebind(run, prior, id));
        Book(Rebind(run, prior, id), before);
        return true;
      }
      return false;
    }

    /** One embedding call: the eligibility check commits with its admission, the vector belongs to that moment. */
    method EmbedNext(run: Id) returns (vector: Vector)
      requires Consistent() && run in store.jobs && Eligible(store, store.jobs[run])
      requires |store.jobs[run].vectors| < |JobChunks(store.jobs[run])|
      modifies this`store, this`log
      ensures Consistent() && QuietSince(old(log), run)
      ensures vector == NextVector(old(store), old(store).jobs[run])
      ensures run in store.jobs
      ensures store.jobs[run] == old(store).jobs[run].(vectors := old(store).jobs[run].vectors + [vector])
      ensures store == old(store).(jobs := store.jobs)
    {
      hide Valid, Eligible, JobChunks;
      ghost var before := store;
      var job := store.jobs[run];
      EligibleIsJoined(store, job);
      vector := NextVector(store, job);
      store := store.(jobs := store.jobs[run := job.(vectors := job.vectors + [vector])]);
      assert Enabled(before, Embed(run));
      Book(Embed(run), before);
    }

    /** Last transaction: replace the version's index by the new chunks and their vectors. */
    method PublishIndex(run: Id)
      requires Consistent() && run in store.jobs && Eligible(store, store.jobs[run])
      requires |store.jobs[run].vectors| == |JobChunks(store.jobs[run])| > 0
      modifies this`store, this`log
      ensures Consistent() && old(log) <= log
      ensures Searchable(store, old(store).jobs[run].version, old(store).jobs[run].chunkBytes) && run !in store.jobs
    {
      hide Valid, Eligible, JobChunks;
      ghost var before := store;
      var job := store.jobs[run];
      UnusedId(store.issued);
      var id: Id :| id !in store.issued;
      EligibleIsJoined(store, job);
      WriteIndex(id, job, PublishedRows(job));
      store := store.(jobs := store.jobs - {run});
      assert Enabled(before, Publish(run, id));
      FinishedIsSearchable(before, Publish(run, id));
      Book(Publish(run, id), before);
    }

    /** The check that every transaction after the first repeats. */
    method Check(job: Job, aborted: bool) returns (refused: Option<IndexError>)
      ensures refused.None? <==> !aborted && Eligible(store, job)
      ensures refused == Some(CallCancelled) <==> aborted
      ensures refused == Some(SourceChanged) <==> !aborted && !Eligible(store, job)
    {
      if aborted { return Some(CallCancelled); }
      if !Eligible(store, job) { return Some(SourceChanged); }
      return None;
    }

    /** Obtains the vectors of all chunks, one call at a time. */
    method EmbedAll(run: Id, others: Others, aborted: nat -> bool, answered: nat -> bool)
      returns (r: Option<IndexError>)
      requires Consistent() && Harmless(others, run) && run in store.jobs && store.jobs[run].vectors == []
      modifies this`store, this`log
      ensures Consistent() && QuietSince(old(log), run) && run in store.jobs
      ensures var job := old(store).jobs[run];
        && (r.None? ==> |store.jobs[run].vectors| == |JobChunks(job)| > 0)
        && (r.None? ==> store.jobs[run] == job.(vectors := store.jobs[run].vectors))
      ensures Undisturbed(others, aborted, answered) ==> store == old(store).(jobs := store.jobs)
      ensures Undisturbed(others, aborted, answered) && Eligible(old(store), old(store).jobs[run]) ==> r.None?
    {
      hide Valid, Eligible, Harmless, StoresNothing, JobChunks;
      ghost var before := store;
      ghost var past := log;
      var job := store.jobs[run];
      var result := FileChunks(job.extraction, job.chunkBytes);
      NothingIsQuiet(log, run);
      JobsHaveChunks(store, run);
      if result.Err? { return Some(IndexError.ParserFailed); }
      var chunks := result.value;
      ChunksOfJob(job, chunks);
      if |chunks| == 0 { return Some(SourceNotExtracted); }
      var vectors := [];
      for ordinal := 0 to |chunks|
        invariant Consistent() && QuietSince(past, run) && |vectors| == ordinal
        invariant run in store.jobs && store.jobs[run] == job.(vectors := vectors)
        invariant Undisturbed(others, aborted, answered) ==> store == before.(jobs := store.jobs)
      {
        ghost var l0 := log;
        Pause(3 + ordinal, others, run);
        SameEligible(before, store, job, vectors);
        QuietGoesOn(past, l0, log, run);
        var refused := Check(store.jobs[run], aborted(3 + ordinal));
        if refused.Some? { return refused; }
        ghost var l1 := log;
        SameChunks(job, vectors);
        var vector := EmbedNext(run);
        QuietGoesOn(past, l1, log, run);
        if !answered(ordinal) { return Some(EmbeddingUnavailable); }
        vectors := vectors + [vector];
      }
      SameChunks(job, vectors);
      return None;
    }

    method Fail(run: Id, ghost past: seq<Event>, error: IndexError) returns (r: Result<bool, IndexError>)
      requires Consistent() && QuietSince(past, run)
      modifies this`store, this`log
      ensures Consistent() && run !in store.jobs && QuietSince(past, run) && r == Err(error)
    {
      hide Valid, StoresNothing;
      ghost var l := log;
      Leave(run);
      QuietGoesOn(past, l, log, run);
      r := Err(error);
    }

    /** An earlier index that makes new calls needless: that of the version itself, or one of another version. */
    method Reuse(run: Id, others: Others, aborted: nat -> bool) returns (r: Option<Result<bool, IndexError>>)
      requires Consistent() && Harmless(others, run) && run in store.jobs
      modifies this`store, this`log
      ensures Consistent() && old(log) <= log
      ensures r.None? ==> run in store.jobs && store.jobs[run] == old(store).jobs[run] && QuietSince(old(log), run)
      ensures r.Some? ==> run !in store.jobs
      ensures r.Some? && r.value.Ok? ==>
                Searchable(store, old(store).jobs[run].version, old(store).jobs[run].chunkBytes)
      ensures r.Some? && r.value.Err? ==> QuietSince(old(log), run)
      ensures Undisturbed(others, aborted, _ => true) && Eligible(old(store), old(store).jobs[run]) ==>
        if r.None? then store == old(store) else r.value.Ok?
    {
      hide Valid, Eligible, Harmless, StoresNothing, Searchable;
      ghost var past := log;
      var job := store.jobs[run];
      Pause(1, others, run);
      var refused := Check(job, aborted(1));
      if refused.Some? {
        var e := Fail(run, past, refused.value);
        return Some(e);
      }
      ghost var l := log;
      var fits := FinishIfUnchanged(run);
      if fits { return Some(Ok(true)); }
      QuietGoesOn(past, l, log, run);
      l := log;
      Pause(2, others, run);
      QuietGoesOn(past, l, log, run);
      refused := Check(job, aborted(2));
      if refused.Some? {
        var e := Fail(run, past, refused.value);
        return Some(e);
      }
      var reused := RebindPrior(run);
      return if reused then Some(Ok(true)) else None;
    }

    /** New calls for every chunk, then the new index. */
    method Rebuild(run: Id, others: Others, aborted: nat -> bool, answered: nat -> bool)
      returns (r: Result<bool, IndexError>)
      requires Consistent() && Harmless(others, run) && run in store.jobs && store.jobs[run].vectors == []
      modifies this`store, this`log
      ensures Consistent() && old(log) <= log && run !in store.jobs
      ensures r.Ok? ==> Searchable(store, old(store).jobs[run].version, old(store).jobs[run].chunkBytes)
      ensures r.Err? ==> QuietSince(old(log), run)
      ensures Undisturbed(others, aborted, answered) && Eligible(old(store), old(store).jobs[run]) ==> r.Ok?
    {
      hide Valid, Eligible, Harmless, StoresNothing, Searchable, JobChunks;
      ghost var before := store;
      ghost var past := log;
      var job := store.jobs[run];
      var refused := EmbedAll(run, others, aborted, answered);
      if refused.Some? {
        r := Fail(run, past, refused.value);
        return;
      }
      ghost var l := log;
      var last := 3 + |store.jobs[run].vectors|;
      Pause(last, others, run);
      SameEligible(before, store, job, store.jobs[run].vectors);
      QuietGoesOn(past, l, log, run);
      refused := Check(store.jobs[run], aborted(last));
      if refused.Some? {
        r := Fail(run, past, refused.value);
        return;
      }
      SameChunks(job, store.jobs[run].vectors);
      PublishIndex(run);
      return Ok(false);
    }

    /**
     * A whole run. Whatever commits in between: success, with or without new calls, means that at the end the version
     * has the index a full rebuild of its present text would give, and a search may use it; failure means that this
     * run has stored no index. Undisturbed, a run succeeds exactly when its source is ready.
     */
    method Execute(run: Id, original: Id, v: Id, inputTokenLimit: Option<nat>, others: Others, intact: bool,
                   aborted: nat -> bool, answered: nat -> bool)
      returns (r: Result<bool, IndexError>)
      requires Consistent() && Harmless(others, run) && run !in store.jobs
      requires inputTokenLimit.Some? ==> inputTokenLimit.value >= 512
      modifies this`store, this`log
      ensures Consistent() && old(log) <= log && run !in store.jobs
      ensures r.Ok? ==> Searchable(store, v, ChunkBytesFor(inputTokenLimit))
      ensures r.Err? ==> QuietSince(old(log), run)
      ensures r.Ok? ==> Ready(old(store), original, v) && intact
      ensures Undisturbed(others, aborted, answered) && intact && Ready(old(store), original, v) ==> r.Ok?
    {
      hide Valid, Harmless, StoresNothing, Searchable, CurrentFile;
      ghost var before := store;
      ghost var past := log;
      var snapshot := Snapshot(run, original, v, ChunkBytesFor(inputTokenLimit));
      if snapshot.Err? { return Err(snapshot.error); }
      ReadyIsEligible(before, store, original, v, snapshot.value);
      ghost var l := log;
      Pause(0, others, run);
      QuietGoesOn(past, l, log, run);
      if v !in store.blobs || !intact {
        r := Fail(run, past, StorageUnavailable);
        return;
      }
      l := log;
      var reused := Reuse(run, others, aborted);
      if reused.Some? {
        if reused.value.Err? { QuietGoesOn(past, l, log, run); }
        return reused.value;
      }
      QuietGoesOn(past, l, log, run);
      l := log;
      r := Rebuild(run, others, aborted, answered);
      if r.Err? { QuietGoesOn(past, l, log, run); }
    }
  }

  lemma NothingIsQuiet(log: seq<Event>, run: Id)
    ensures StoresNothing(log[|log|..], run)
  {
  }

  lemma ChunksOfJob(job: Job, chunks: seq<Chunk>)
    requires chunks == Chunks(job.extraction.segments, job.chunkBytes)
    ensures chunks == JobChunks(job)
  {
  }

  lemma SameChunks(job: Job, vectors: seq<Vector>)
    ensures JobChunks(job.(vectors := vectors)) == JobChunks(job)
  {
  }

  /** Which jobs are recorded does not matter to eligibility, nor do the vectors of the job. */
  lemma SameEligible(s: Store, t: Store, job: Job, vectors: seq<Vector>)
    ensures t == s.(jobs := t.jobs) ==> Eligible(t, job.(vectors := vectors)) == Eligible(s, job)
  {
    if t == s.(jobs := t.jobs) && Joined(s, job.version) { SameTablesSameCurrency(s, t, job.version); }
  }

  lemma ReadyIsEligible(s: Store, t: Store, original: Id, v: Id, job: Job)
    requires Ready(s, original, v) && t == s.(jobs := t.jobs) && job == JobOf(s, original, v, job.chunkBytes)
    requires Valid(s)
    ensures Eligible(t, job) && v in t.blobs
  {
    hide Valid;
    SameTablesSameCurrency(s, t, v);
    LatestBytesAreStored(s, v);
  }

  lemma JobsHaveChunks(s: Store, run: Id)
    requires Valid(s) && run in s.jobs
    ensures var job := s.jobs[run];
      && WellFormed(job.extraction) && 5 <= job.chunkBytes <= CHUNK_BYTES
      && Chunks(job.extraction.segments, job.chunkBytes) != []
  {
    hide VersionValid, RawKept, IndexValid, Chunks;
    assert JobValid(s, run);
    var job := s.jobs[run];
    WellFormedIsInked(job.extraction);
    DocumentIsCovered(job.extraction.segments, job.chunkBytes);
    NoChunksNoParts();
  }

  lemma NoChunksNoParts()
    ensures AllParts([]) == []
  {
  }

  lemma EligibleIsJoined(s: Store, job: Job)
    requires Eligible(s, job)
    ensures Joined(s, job.version)
  {
  }
}
