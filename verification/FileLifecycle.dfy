/**
 * Uploaded originals, their versions and the derived search indexes, as a transition system over committed
 * transactions: file-foundation.ts, file-management.service.ts, file-index.service.ts and file-index-state.ts.
 *
 * Digests are taken as injective, so a digest is the digested value. A vector records the text it embeds,
 * and the original and its scope revision at the moment the embedding call was admitted.
 */
module FileLifecycle {
  import opened Results
  import opened Unicode
  import opened FileContract
  import opened FileChunker

  const DAY_MS: nat := 86_400_000
  const MIN_CHUNK_BYTES: nat := 256  // the smallest configurable input limit, less the message framing

  type Id = nat

  datatype ExtractionRun = ExtractionRun(extracted: bool, completedAt: nat)

  datatype Original = Original(owner: string, excluded: bool, deleted: bool, scopeRevision: nat)

  /** Runs are listed by ordinal; the storage key of a version is its id. */
  datatype Version = Version(
    original: Id, number: nat, createdAt: nat, contentHash: nat, format: Format, active: bool, rawDeleted: bool,
    extraction: Option<Extraction>, runs: seq<ExtractionRun>)

  datatype Digest = Digest(extraction: Extraction)

  datatype Vector = Vector(content: Text, revision: nat, original: Id)

  datatype ChunkRow = ChunkRow(chunk: Chunk, vector: Vector)

  /** Rows of the first configuration may survive an upgrade; only the second is ever written or current. */
  datatype Configuration = V1 | V2

  datatype Index = Index(
    owner: string, original: Id, version: Id, digest: Digest, configuration: Configuration, chunkBytes: nat,
    scopeRevision: nat, chunkCount: nat, chunks: seq<ChunkRow>)

  /** An indexing run between its transactions: what it read at the start and the vectors it has obtained. */
  datatype Job = Job(
    original: Id, version: Id, extraction: Extraction, chunkBytes: nat, scopeRevision: nat, contentHash: nat,
    format: Format, vectors: seq<Vector>)

  /** `intake` is the blob of an upload that is written but not committed; `issued` holds every index id ever used. */
  datatype Store = Store(
    originals: map<Id, Original>, versions: map<Id, Version>, indexes: map<Id, Index>, blobs: set<Id>,
    intake: Option<Id>, jobs: map<Id, Job>, issued: set<Id>, now: nat)

  const EMPTY_STORE := Store(map[], map[], map[], {}, None, map[], {}, 0)

  /* ---- the shared currency predicates ---- */

  predicate Newer(s: Store, w: Id, v: Id)
    requires v in s.versions
  {
    w in s.versions && s.versions[w].original == s.versions[v].original && s.versions[w].number > s.versions[v].number
  }

  predicate Latest(s: Store, v: Id)
    requires v in s.versions
  {
    forall w :: w in s.versions ==> !Newer(s, w, v)
  }

  predicate Extracted(v: Version) {
    v.runs != [] && v.runs[|v.runs| - 1].extracted
  }

  function DigestOf(v: Version): Option<Digest> {
    if v.extraction.Some? then Some(Digest(v.extraction.value)) else None
  }

  predicate Joined(s: Store, v: Id) {
    v in s.versions && s.versions[v].original in s.originals
  }

  /** currentFileWhere */
  predicate CurrentFile(s: Store, v: Id)
    requires Joined(s, v)
  {
    var version := s.versions[v];
    var original := s.originals[version.original];
    && !original.deleted && !original.excluded && !version.rawDeleted && version.active
    && Latest(s, v) && Extracted(version)
  }

  /** currentIndexWhere */
  predicate CurrentIndex(s: Store, i: Id)
    requires i in s.indexes && Joined(s, s.indexes[i].version)
  {
    var index := s.indexes[i];
    var version := s.versions[index.version];
    && CurrentFile(s, index.version)
    && index.scopeRevision == s.originals[version.original].scopeRevision
    && DigestOf(version) == Some(index.digest) && index.configuration == V2
  }

  /* ---- the deletion predicates of reconcile ---- */

  predicate Replaced(s: Store, v: Id, now: nat)
    requires v in s.versions
  {
    exists w :: w in s.versions && Newer(s, w, v) && s.versions[w].createdAt + DAY_MS <= now
  }

  /** The latest extraction finished a day ago and no longer supports the index. */
  predicate Outdated(index: Index, version: Version, now: nat) {
    && version.runs != []
    && var last := version.runs[|version.runs| - 1];
       last.completedAt + DAY_MS <= now
       && (!last.extracted || (version.extraction.Some? && DigestOf(version) != Some(index.digest)))
  }

  predicate IndexStale(s: Store, i: Id, now: nat)
    requires i in s.indexes && Joined(s, s.indexes[i].version)
  {
    var index := s.indexes[i];
    var version := s.versions[index.version];
    var original := s.originals[version.original];
    || original.deleted || original.excluded || !version.active || index.scopeRevision != original.scopeRevision
    || Replaced(s, index.version, now) || Outdated(index, version, now)
  }

  predicate RawStale(s: Store, v: Id, now: nat)
    requires Joined(s, v)
  {
    s.originals[s.versions[v].original].deleted || Replaced(s, v, now)
  }

  /* ---- indexing ---- */

  function Embedded(chunks: seq<Chunk>, revision: nat, original: Id): (rows: seq<ChunkRow>)
    ensures |rows| == |chunks|
    ensures forall k :: 0 <= k < |chunks| ==>
              rows[k] == ChunkRow(chunks[k], Vector(chunks[k].content, revision, original))
  {
    seq(|chunks|, k requires 0 <= k < |chunks| =>
      ChunkRow(chunks[k], Vector(chunks[k].content, revision, original)))
  }

  function JobChunks(job: Job): seq<Chunk> {
    Chunks(job.extraction.segments, job.chunkBytes)
  }

  /** The check every indexing transaction repeats: still eligible, same scope, same text. */
  predicate Eligible(s: Store, job: Job) {
    && Joined(s, job.version) && CurrentFile(s, job.version)
    && s.originals[s.versions[job.version].original].scopeRevision == job.scopeRevision
    && DigestOf(s.versions[job.version]) == Some(Digest(job.extraction))
  }

  /** The stored index that lets a run finish without writing anything. */
  predicate Reusable(job: Job, index: Index) {
    && index.version == job.version && index.digest == Digest(job.extraction) && index.configuration == V2
    && index.chunkBytes == job.chunkBytes && index.scopeRevision == job.scopeRevision
    && index.chunkCount == |index.chunks|
  }

  /** The index of another version of the same original whose vectors may be copied. */
  predicate Rebindable(s: Store, job: Job, index: Index) {
    PriorFits(s, job, index) && index.chunkCount == |index.chunks|
  }

  /** What the query for a prior index asks of it. */
  predicate PriorFits(s: Store, job: Job, index: Index) {
    && index.original == job.original && index.version != job.version && index.digest == Digest(job.extraction)
    && index.configuration == V2 && index.chunkBytes == job.chunkBytes && index.scopeRevision == job.scopeRevision
    && index.version in s.versions && s.versions[index.version].contentHash == job.contentHash
    && s.versions[index.version].format == job.format
  }

  function NewIndex(s: Store, job: Job, chunks: seq<ChunkRow>): Index
    requires Joined(s, job.version)
  {
    Index(s.originals[s.versions[job.version].original].owner, job.original, job.version, Digest(job.extraction), V2,
          job.chunkBytes, job.scopeRevision, |chunks|, chunks)
  }

  /** Deletes the version's index, if any, and inserts the new one under an id never used before. */
  function Replace(s: Store, id: Id, index: Index): Store {
    s.(indexes := (map i | i in s.indexes && s.indexes[i].version != index.version :: s.indexes[i])[id := index],
       issued := s.issued + {id})
  }

  /* ---- the transition system ---- */

  datatype Event =
    | Tick(now: nat)
    | WriteBlob(key: Id)
    | CommitUpload(original: Id, owner: string, replacing: bool, expected: Option<Id>, number: nat, contentHash: nat,
                   format: Format, extraction: Option<Extraction>)
    | AbandonUpload
    | Reprocess(version: Id, result: Option<Extraction>)
    | SetScope(original: Id, included: bool)
    | Remove(original: Id)
    | StartIndexing(run: Id, version: Id, chunkBytes: nat)
    | FinishUnchanged(run: Id, index: Id)
    | Rebind(run: Id, prior: Id, index: Id)
    | Embed(run: Id)
    | Publish(run: Id, index: Id)
    | StopIndexing(run: Id)
    | DropIndexes(ids: set<Id>)
    | RemoveBlob(version: Id)
    | MarkRawDeleted(version: Id)
    | SweepBlob(key: Id)
    | Crash

  /** The number after the latest version of an original, or 1. */
  ghost predicate NextNumber(s: Store, original: Id, number: nat) {
    && (forall w :: w in s.versions && s.versions[w].original == original ==> s.versions[w].number < number)
    && (number == 1
        || exists w :: w in s.versions && s.versions[w].original == original && s.versions[w].number == number - 1)
  }

  ghost predicate Enabled(s: Store, e: Event) {
    match e
    case Tick(now) => s.now <= now
    case WriteBlob(key) => s.intake.None? && key !in s.blobs && key !in s.versions
    case CommitUpload(original, _, replacing, expected, number, _, format, extraction) =>
      && s.intake.Some?
      && (if replacing then original in s.originals && !s.originals[original].deleted else original !in s.originals)
      && NextNumber(s, original, number)
      && (expected.Some? ==> expected.value in s.versions && s.versions[expected.value].original == original
                             && Latest(s, expected.value))
      && (extraction.Some? ==> WellFormed(extraction.value) && extraction.value.format == format)
    case AbandonUpload => true
    case Reprocess(v, result) =>
      && Joined(s, v) && !s.originals[s.versions[v].original].deleted && Latest(s, v)
      && (result.Some? ==> WellFormed(result.value) && result.value.format == s.versions[v].format)
    case SetScope(original, _) => original in s.originals && !s.originals[original].deleted
    case Remove(original) => original in s.originals
    case StartIndexing(run, v, chunkBytes) =>
      && run !in s.jobs && Joined(s, v) && CurrentFile(s, v) && v in s.blobs
      && s.versions[v].extraction.Some? && WellFormed(s.versions[v].extraction.value)
      && MIN_CHUNK_BYTES <= chunkBytes <= CHUNK_BYTES
    case FinishUnchanged(run, i) =>
      run in s.jobs && Eligible(s, s.jobs[run]) && i in s.indexes && Reusable(s.jobs[run], s.indexes[i])
    case Rebind(run, prior, i) =>
      && run in s.jobs && Eligible(s, s.jobs[run]) && prior in s.indexes && Rebindable(s, s.jobs[run], s.indexes[prior])
      && i !in s.issued
    case Embed(run) =>
      run in s.jobs && Eligible(s, s.jobs[run]) && |s.jobs[run].vectors| < |JobChunks(s.jobs[run])|
    case Publish(run, i) =>
      && run in s.jobs && Eligible(s, s.jobs[run]) && |s.jobs[run].vectors| == |JobChunks(s.jobs[run])| > 0
      && i !in s.issued
    case StopIndexing(run) => true
    case DropIndexes(ids) =>
      forall i :: i in ids ==> i in s.indexes && Joined(s, s.indexes[i].version) && IndexStale(s, i, s.now)
    case RemoveBlob(v) => s.intake.None? && Joined(s, v) && RawStale(s, v, s.now)
    case MarkRawDeleted(v) => s.intake.None? && Joined(s, v) && RawStale(s, v, s.now) && v !in s.blobs
    case SweepBlob(key) => s.intake.None? && (Joined(s, key) ==> s.originals[s.versions[key].original].deleted)
    case Crash => true
  }

  /** Each chunk with the vector obtained for it. */
  function PublishedRows(job: Job): seq<ChunkRow>
    requires |job.vectors| <= |JobChunks(job)|
  {
    seq(|job.vectors|, k requires 0 <= k < |job.vectors| => ChunkRow(JobChunks(job)[k], job.vectors[k]))
  }

  /** The vector the provider returns for the next chunk of a job, marked with what its original's revision is then. */
  function NextVector(s: Store, job: Job): Vector
    requires Joined(s, job.version) && |job.vectors| < |JobChunks(job)|
  {
    var original := s.versions[job.version].original;
    Vector(JobChunks(job)[|job.vectors|].content, s.originals[original].scopeRevision, original)
  }

  function Effect(s: Store, e: Event): Store
    requires Enabled(s, e)
  {
    match e
    case Tick(now) => s.(now := now)
    case WriteBlob(key) => s.(blobs := s.blobs + {key}, intake := Some(key))
    case CommitUpload(original, owner, replacing, _, number, contentHash, format, extraction) =>
      var originals := if replacing then s.originals else s.originals[original := Original(owner, false, false, 1)];
      var run := ExtractionRun(extraction.Some?, s.now);
      var version := Version(original, number, s.now, contentHash, format, true, false, extraction, [run]);
      s.(originals := originals, versions := s.versions[s.intake.value := version], intake := None)
    case AbandonUpload => s.(intake := None)
    case Reprocess(v, result) =>
      var was := s.versions[v];
      var extraction := if result.Some? then result else was.extraction;
      var version := was.(extraction := extraction, runs := was.runs + [ExtractionRun(result.Some?, s.now)]);
      s.(versions := s.versions[v := version])
    case SetScope(original, included) =>
      var was := s.originals[original];
      if was.excluded != included then s
      else s.(originals := s.originals[original := was.(excluded := !included, scopeRevision := was.scopeRevision + 1)])
    case Remove(original) =>
      s.(originals := s.originals[original := s.originals[original].(deleted := true)],
         versions := map v | v in s.versions ::
           if s.versions[v].original == original then s.versions[v].(extraction := None) else s.versions[v])
    case StartIndexing(run, v, chunkBytes) =>
      var version := s.versions[v];
      s.(jobs := s.jobs[run := Job(version.original, v, version.extraction.value, chunkBytes,
                                   s.originals[version.original].scopeRevision, version.contentHash,
                                   version.format, [])])
    case FinishUnchanged(run, _) => s.(jobs := s.jobs - {run})
    case Rebind(run, prior, i) =>
      Replace(s, i, NewIndex(s, s.jobs[run], s.indexes[prior].chunks)).(jobs := s.jobs - {run})
    case Embed(run) =>
      var job := s.jobs[run];
      s.(jobs := s.jobs[run := job.(vectors := job.vectors + [NextVector(s, job)])])
    case Publish(run, i) =>
      Replace(s, i, NewIndex(s, s.jobs[run], PublishedRows(s.jobs[run]))).(jobs := s.jobs - {run})
    case StopIndexing(run) => s.(jobs := s.jobs - {run})
    case DropIndexes(ids) => s.(indexes := s.indexes - ids)
    case RemoveBlob(v) => s.(blobs := s.blobs - {v})
    case MarkRawDeleted(v) => s.(versions := s.versions[v := s.versions[v].(rawDeleted := true, extraction := None)])
    case SweepBlob(key) => s.(blobs := s.blobs - {key})
    case Crash => s.(intake := None, jobs := map[])
  }

  /** Events that cannot happen leave the store unchanged. */
  ghost function Apply(s: Store, e: Event): Store {
    if Enabled(s, e) then Effect(s, e) else s
  }

  ghost function RunFrom(s: Store, events: seq<Event>): Store {
    if events == [] then s else Apply(RunFrom(s, events[..|events| - 1]), events[|events| - 1])
  }
}
