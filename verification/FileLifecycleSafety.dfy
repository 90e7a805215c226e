/** What every run of the file store guarantees about its originals, versions, indexes and blobs. */
module FileLifecycleSafety {
  import opened FileContract
  import opened FileChunker
  import opened FileLifecycle

  /* ---- the invariant ---- */

  ghost predicate VersionValid(s: Store, v: Id)
    requires v in s.versions
  {
    var version := s.versions[v];
    && version.original in s.originals
    && (version.rawDeleted ==> version.extraction.None?)
    && (s.originals[version.original].deleted ==> version.extraction.None?)
    && (forall w :: w in s.versions && w != v && s.versions[w].original == version.original
                    ==> s.versions[w].number != version.number)
  }

  /** The raw bytes of every version that is not due for deletion are stored; deleted ones are gone. */
  ghost predicate RawKept(s: Store, v: Id)
    requires v in s.versions
  {
    && (Joined(s, v) && !RawStale(s, v, s.now) ==> v in s.blobs && !s.versions[v].rawDeleted)
    && (s.versions[v].rawDeleted ==> v !in s.blobs)
  }

  /** A stored index is exactly a fresh rebuild of the text its digest names, embedded under its own revision. */
  ghost predicate Rebuilt(index: Index) {
    index.chunks == Embedded(Chunks(index.digest.extraction.segments, index.chunkBytes), index.scopeRevision,
                             index.original)
    && index.chunkCount == |index.chunks|
  }

  ghost predicate IndexValid(s: Store, i: Id)
    requires i in s.indexes
  {
    var index := s.indexes[i];
    && i in s.issued && Joined(s, index.version) && index.original == s.versions[index.version].original
    && index.owner == s.originals[index.original].owner
    && index.scopeRevision <= s.originals[index.original].scopeRevision
    && (index.configuration == V2 ==> Rebuilt(index))
    && (forall j :: j in s.indexes && j != i ==> s.indexes[j].version != index.version)
  }

  ghost predicate JobValid(s: Store, run: Id)
    requires run in s.jobs
  {
    var job := s.jobs[run];
    && Joined(s, job.version) && job.original == s.versions[job.version].original
    && WellFormed(job.extraction) && MIN_CHUNK_BYTES <= job.chunkBytes <= CHUNK_BYTES
    && job.scopeRevision <= s.originals[job.original].scopeRevision
    && |job.vectors| <= |JobChunks(job)|
    && (forall k :: 0 <= k < |job.vectors| ==>
          job.vectors[k] == Vector(JobChunks(job)[k].content, job.scopeRevision, job.original))
  }

  ghost predicate Valid(s: Store) {
    && (forall v :: v in s.versions ==> VersionValid(s, v) && RawKept(s, v))
    && (forall i :: i in s.indexes ==> IndexValid(s, i))
    && (forall run :: run in s.jobs ==> JobValid(s, run))
    && (s.intake.Some? ==> s.intake.value in s.blobs && s.intake.value !in s.versions)
  }

  /* ---- how one event changes the parts of a store ---- */

  /** Originals keep their owner; their deletion is final and their revision only grows. */
  ghost predicate OriginalAdvances(a: Original, b: Original) {
    a.owner == b.owner && (a.deleted ==> b.deleted) && a.scopeRevision <= b.scopeRevision
  }

  /** Versions keep their place and content hash; a cleared extraction or deleted blob is only set by its event. */
  ghost predicate VersionAdvances(a: Version, b: Version) {
    && b.original == a.original && b.number == a.number && b.createdAt == a.createdAt
    && b.contentHash == a.contentHash && b.format == a.format && b.active == a.active
  }

  ghost predicate Advances(s: Store, t: Store) {
    && s.now <= t.now && s.issued <= t.issued
    && (forall o :: o in s.originals ==> o in t.originals && OriginalAdvances(s.originals[o], t.originals[o]))
    && (forall v :: v in s.versions ==> v in t.versions && VersionAdvances(s.versions[v], t.versions[v]))
    && (forall i :: i in t.indexes && i in s.issued ==> i in s.indexes && t.indexes[i] == s.indexes[i])
  }

  /** An index inserted under an unused id leaves the others alone, except that of the same version. */
  lemma ReplaceAdvances(s: Store, id: Id, index: Index)
    requires id !in s.issued
    ensures Advances(s, Replace(s, id, index))
  {
  }

  lemma UploadAdvances(s: Store, e: Event)
    requires Valid(s) && e.CommitUpload? && Enabled(s, e)
    ensures Advances(s, Effect(s, e))
  {
    assert s.intake.value !in s.versions;
  }

  lemma RemoveAdvances(s: Store, e: Event)
    requires e.Remove? && Enabled(s, e)
    ensures Advances(s, Effect(s, e))
  {
    var t := Effect(s, e);
    forall v | v in s.versions
      ensures v in t.versions && VersionAdvances(s.versions[v], t.versions[v])
    {
    }
  }

  lemma RowAdvances(s: Store, e: Event)
    requires Enabled(s, e) && (e.Reprocess? || e.SetScope? || e.MarkRawDeleted?)
    ensures Advances(s, Effect(s, e))
  {
    hide Joined, CurrentFile, Latest;
  }

  /** The other events leave originals and versions alone and add no index. */
  lemma QuietAdvances(s: Store, e: Event)
    requires Enabled(s, e) && !Rewrites(e) && !e.Rebind? && !e.Publish?
    ensures Advances(s, Effect(s, e))
  {
    hide Joined, CurrentFile, Eligible, Reusable, Latest, NextVector, JobChunks, VersionAdvances, OriginalAdvances;
    SameAdvances(s);
  }

  lemma SameAdvances(s: Store)
    ensures forall o :: o in s.originals ==> OriginalAdvances(s.originals[o], s.originals[o])
    ensures forall v :: v in s.versions ==> VersionAdvances(s.versions[v], s.versions[v])
  {
  }

  lemma EffectAdvances(s: Store, e: Event)
    requires Valid(s) && Enabled(s, e)
    ensures Advances(s, Effect(s, e))
  {
    hide Valid, Enabled, Effect, Advances;
    match e {
      case CommitUpload(_, _, _, _, _, _, _, _) => UploadAdvances(s, e);
      case Remove(_) => RemoveAdvances(s, e);
      case Rebind(run, prior, i) => RebindAdvances(s, run, prior, i);
      case Publish(run, i) => PublishAdvances(s, run, i);
      case _ => if Rewrites(e) { RowAdvances(s, e); } else { QuietAdvances(s, e); }
    }
  }

  lemma RebindAdvances(s: Store, run: Id, prior: Id, i: Id)
    requires Enabled(s, Rebind(run, prior, i))
    ensures Advances(s, Effect(s, Rebind(run, prior, i)))
  {
    ReplaceAdvances(s, i, NewIndex(s, s.jobs[run], s.indexes[prior].chunks));
  }

  lemma PublishAdvances(s: Store, run: Id, i: Id)
    requires Enabled(s, Publish(run, i))
    ensures Advances(s, Effect(s, Publish(run, i)))
  {
    var rows := PublishedRows(s.jobs[run]);
    ReplaceAdvances(s, i, NewIndex(s, s.jobs[run], rows));
  }

  /* ---- staleness is permanent ---- */

  lemma ReplacedForever(s: Store, t: Store, v: Id)
    requires Advances(s, t) && v in s.versions && Replaced(s, v, s.now)
    ensures Replaced(t, v, t.now)
  {
    var w :| w in s.versions && Newer(s, w, v) && s.versions[w].createdAt + DAY_MS <= s.now;
    assert VersionAdvances(s.versions[v], t.versions[v]) && VersionAdvances(s.versions[w], t.versions[w]);
    assert Newer(t, w, v);
  }

  lemma RawStaleForever(s: Store, t: Store, v: Id)
    requires Advances(s, t) && Joined(s, v) && RawStale(s, v, s.now)
    ensures Joined(t, v) && RawStale(t, v, t.now)
  {
    hide Replaced;
    var o := s.versions[v].original;
    assert VersionAdvances(s.versions[v], t.versions[v]) && OriginalAdvances(s.originals[o], t.originals[o]);
    if Replaced(s, v, s.now) {
      ReplacedForever(s, t, v);
    }
  }

  /** The latest version of an undeleted original is never due for deletion. */
  lemma LatestIsKept(s: Store, v: Id)
    requires Joined(s, v) && !s.originals[s.versions[v].original].deleted && Latest(s, v)
    ensures !RawStale(s, v, s.now)
  {
  }

  /* ---- the invariant is kept, part by part ---- */

  /** The events that write to the tables of originals and versions. */
  predicate Rewrites(e: Event) {
    e.CommitUpload? || e.Reprocess? || e.SetScope? || e.Remove? || e.MarkRawDeleted?
  }

  lemma OthersLeaveTables(s: Store, e: Event)
    requires Enabled(s, e) && !Rewrites(e)
    ensures Effect(s, e).versions == s.versions && Effect(s, e).originals == s.originals
  {
    hide Enabled, JobChunks, PublishedRows, NewIndex;
  }

  lemma VersionStaysValid(s: Store, e: Event, v: Id)
    requires Valid(s) && Enabled(s, e) && v in Effect(s, e).versions
    ensures VersionValid(Effect(s, e), v)
  {
    hide Valid, Enabled, Effect, VersionValid;
    match e {
      case CommitUpload(_, _, _, _, _, _, _, _) => CommitKeepsVersion(s, e, v);
      case Reprocess(w, _) => ReprocessKeepsVersion(s, e, v);
      case Remove(_) => RemoveKeepsVersion(s, e, v);
      case SetScope(_, _) => ScopeKeepsVersion(s, e, v);
      case MarkRawDeleted(w) => MarkKeepsVersion(s, e, v);
      case _ => QuietKeepsVersion(s, e, v);
    }
  }

  lemma QuietKeepsVersion(s: Store, e: Event, v: Id)
    requires Valid(s) && Enabled(s, e) && !Rewrites(e) && v in Effect(s, e).versions
    ensures VersionValid(Effect(s, e), v)
  {
    hide Enabled, Effect, RawKept, IndexValid, JobValid;
    OthersLeaveTables(s, e);
    assert VersionValid(s, v);
  }

  lemma ScopeKeepsVersion(s: Store, e: Event, v: Id)
    requires Valid(s) && e.SetScope? && Enabled(s, e) && v in Effect(s, e).versions
    ensures VersionValid(Effect(s, e), v)
  {
    hide RawKept, IndexValid, JobValid;
    assert VersionValid(s, v);
  }

  lemma CommitKeepsVersion(s: Store, e: Event, v: Id)
    requires Valid(s) && e.CommitUpload? && Enabled(s, e) && v in Effect(s, e).versions
    ensures VersionValid(Effect(s, e), v)
  {
    hide WellFormed, Latest, RawKept, IndexValid, JobValid;
    var t, key := Effect(s, e), s.intake.value;
    forall w | w in t.versions && w != v && t.versions[w].original == t.versions[v].original
      ensures t.versions[w].number != t.versions[v].number
    {
      if v != key { assert VersionValid(s, v); }
      if w != key { assert VersionValid(s, w); }
    }
    if v != key { assert VersionValid(s, v); }
  }

  lemma ReprocessKeepsVersion(s: Store, e: Event, v: Id)
    requires Valid(s) && e.Reprocess? && Enabled(s, e) && v in Effect(s, e).versions
    ensures VersionValid(Effect(s, e), v)
  {
    hide WellFormed, Latest, RawStale, IndexValid, JobValid;
    LatestIsKept(s, e.version);
    assert VersionValid(s, v) && RawKept(s, e.version);
  }

  lemma RemoveKeepsVersion(s: Store, e: Event, v: Id)
    requires Valid(s) && e.Remove? && Enabled(s, e) && v in Effect(s, e).versions
    ensures VersionValid(Effect(s, e), v)
  {
    hide RawKept, IndexValid, JobValid;
    assert VersionValid(s, v);
    forall w | w in s.versions
      ensures Effect(s, e).versions[w].original == s.versions[w].original
      ensures Effect(s, e).versions[w].number == s.versions[w].number
    {
    }
  }

  lemma MarkKeepsVersion(s: Store, e: Event, v: Id)
    requires Valid(s) && e.MarkRawDeleted? && Enabled(s, e) && v in Effect(s, e).versions
    ensures VersionValid(Effect(s, e), v)
  {
    hide RawKept, RawStale, IndexValid, JobValid;
    assert VersionValid(s, v);
  }

  lemma RawStaysKept(s: Store, e: Event)
    requires Valid(s) && Enabled(s, e)
    ensures var t := Effect(s, e); forall v :: v in t.versions ==> RawKept(t, v)
  {
    hide Chunks, WellFormed, RawStale, CurrentFile, Eligible, Rebindable;
    hide Reusable, IndexValid, JobValid, IndexStale, Latest;
    var t := Effect(s, e);
    EffectAdvances(s, e);
    forall v | v in t.versions
      ensures RawKept(t, v)
    {
      if v in s.versions {
        assert VersionValid(s, v) && RawKept(s, v);
        DeletedBlobStaysGone(s, e, v);
        if RawStale(s, v, s.now) {
          RawStaleForever(s, t, v);
        } else {
          assert v in t.blobs && t.versions[v].rawDeleted == s.versions[v].rawDeleted by {
            BlobOutlivesEvent(s, e, v);
          }
        }
      } else {
        assert e.CommitUpload? && v == s.intake.value;
      }
    }
  }

  lemma DeletedBlobStaysGone(s: Store, e: Event, v: Id)
    requires Valid(s) && Enabled(s, e) && v in s.versions && RawKept(s, v)
    ensures v in Effect(s, e).versions && (Effect(s, e).versions[v].rawDeleted ==> v !in Effect(s, e).blobs)
  {
    hide Chunks, WellFormed, CurrentFile, Eligible, Rebindable, Reusable;
    hide IndexValid, JobValid, IndexStale, Latest, RawStale;
  }

  lemma BlobOutlivesEvent(s: Store, e: Event, v: Id)
    requires Valid(s) && Enabled(s, e) && v in s.versions && !RawStale(s, v, s.now) && v in s.blobs
    ensures v in Effect(s, e).blobs && v in Effect(s, e).versions
    ensures Effect(s, e).versions[v].rawDeleted == s.versions[v].rawDeleted
  {
    hide Chunks, WellFormed, Replaced, CurrentFile, Eligible, Rebindable;
    hide Reusable, IndexValid, JobValid, IndexStale, Latest, RawKept;
    assert VersionValid(s, v);
  }

  lemma KeptJobStaysValid(s: Store, t: Store, run: Id)
    requires Advances(s, t) && run in s.jobs && JobValid(s, run) && run in t.jobs && t.jobs[run] == s.jobs[run]
    ensures JobValid(t, run)
  {
    hide JobChunks, WellFormed;
    var job := s.jobs[run];
    assert VersionAdvances(s.versions[job.version], t.versions[job.version]);
    assert OriginalAdvances(s.originals[job.original], t.originals[job.original]);
  }

  lemma StartedJobIsValid(s: Store, e: Event)
    requires Valid(s) && e.StartIndexing? && Enabled(s, e)
    ensures JobValid(Effect(s, e), e.run)
  {
    hide Chunks, WellFormed, CurrentFile, Valid;
  }

  lemma EmbeddedJobIsValid(s: Store, e: Event)
    requires e.Embed? && Enabled(s, e) && JobValid(s, e.run)
    ensures JobValid(Effect(s, e), e.run)
  {
    hide Chunks, WellFormed, CurrentFile;
  }

  lemma JobStaysValid(s: Store, e: Event, run: Id)
    requires Valid(s) && Enabled(s, e) && run in Effect(s, e).jobs
    ensures JobValid(Effect(s, e), run)
  {
    hide Chunks, JobValid, NewIndex, PublishedRows, Eligible, CurrentFile, NextVector, Advances, VersionValid, RawKept;
    hide IndexValid, Rebindable, Reusable, Latest, Joined, WellFormed, NextNumber, IndexStale, RawStale;
    EffectAdvances(s, e);
    if e.StartIndexing? && run == e.run {
      StartedJobIsValid(s, e);
    } else if e.Embed? && run == e.run {
      EmbeddedJobIsValid(s, e);
    } else {
      KeptJobStaysValid(s, Effect(s, e), run);
    }
  }

  /** An index carried over an event is still valid, as long as it stays the only one of its version. */
  lemma KeptIndexStaysValid(s: Store, t: Store, i: Id)
    requires Advances(s, t) && i in s.indexes && IndexValid(s, i)
    requires i in t.indexes && t.indexes[i] == s.indexes[i]
    requires forall j :: j in t.indexes && j != i ==> t.indexes[j].version != t.indexes[i].version
    ensures IndexValid(t, i)
  {
    hide Rebuilt;
    var index := s.indexes[i];
    assert VersionAdvances(s.versions[index.version], t.versions[index.version]);
    assert OriginalAdvances(s.originals[index.original], t.originals[index.original]);
  }

  lemma ReplaceStaysValid(s: Store, id: Id, index: Index)
    requires (forall i :: i in s.indexes ==> IndexValid(s, i)) && id !in s.issued
    requires Joined(s, index.version) && index.original == s.versions[index.version].original
    requires index.owner == s.originals[index.original].owner
    requires index.scopeRevision <= s.originals[index.original].scopeRevision && Rebuilt(index)
    ensures var t := Replace(s, id, index); forall i :: i in t.indexes ==> IndexValid(t, i)
  {
    hide Rebuilt;
    var t := Replace(s, id, index);
    ReplaceAdvances(s, id, index);
    forall i | i in t.indexes
      ensures IndexValid(t, i)
    {
      if i != id {
        KeptIndexStaysValid(s, t, i) by { assert IndexValid(s, i); }
      }
    }
  }

  /** What a publication stores is the rebuild its own digest names. */
  lemma PublishedIsRebuilt(s: Store, job: Job)
    requires Joined(s, job.version) && |job.vectors| == |JobChunks(job)|
    requires forall k :: 0 <= k < |job.vectors| ==>
               job.vectors[k] == Vector(JobChunks(job)[k].content, job.scopeRevision, job.original)
    ensures Rebuilt(NewIndex(s, job, PublishedRows(job)))
    ensures PublishedRows(job) == Embedded(JobChunks(job), job.scopeRevision, job.original)
  {
    hide Chunks;
  }

  lemma RebindKeepsIndexes(s: Store, run: Id, prior: Id, i: Id)
    requires Valid(s) && Enabled(s, Rebind(run, prior, i))
    ensures var t := Effect(s, Rebind(run, prior, i)); forall j :: j in t.indexes ==> IndexValid(t, j)
  {
    hide Replace, IndexValid, VersionValid, RawKept, CurrentFile, Rebuilt;
    var index := NewIndex(s, s.jobs[run], s.indexes[prior].chunks);
    RebindIsRebuilt(s, run, prior);
    assert JobValid(s, run);
    ReplaceStaysValid(s, i, index) by { SameOwner(s, run); }
    JobsDoNotMatter(Replace(s, i, index), s.jobs - {run});
  }

  lemma SameOwner(s: Store, run: Id)
    requires run in s.jobs && JobValid(s, run)
    ensures s.versions[s.jobs[run].version].original == s.jobs[run].original
  {
    hide Chunks, WellFormed;
  }

  lemma PublishKeepsIndexes(s: Store, run: Id, i: Id)
    requires Valid(s) && Enabled(s, Publish(run, i))
    ensures var t := Effect(s, Publish(run, i)); forall j :: j in t.indexes ==> IndexValid(t, j)
  {
    hide Replace, IndexValid, VersionValid, RawKept, CurrentFile, Rebuilt, PublishedRows, JobChunks;
    assert JobValid(s, run);
    var index := NewIndex(s, s.jobs[run], PublishedRows(s.jobs[run]));
    PublishedIsRebuilt(s, s.jobs[run]);
    ReplaceStaysValid(s, i, index);
    JobsDoNotMatter(Replace(s, i, index), s.jobs - {run});
  }

  lemma OthersKeepIndexes(s: Store, e: Event)
    requires Valid(s) && Enabled(s, e) && !e.Rebind? && !e.Publish?
    ensures var t := Effect(s, e); forall j :: j in t.indexes ==> j in s.indexes && t.indexes[j] == s.indexes[j]
  {
    hide Valid, Enabled;
  }

  lemma IndexesStayValid(s: Store, e: Event)
    requires Valid(s) && Enabled(s, e)
    ensures var t := Effect(s, e); forall i :: i in t.indexes ==> IndexValid(t, i)
  {
    match e {
      case Rebind(run, prior, i) => RebindKeepsIndexes(s, run, prior, i);
      case Publish(run, i) => PublishKeepsIndexes(s, run, i);
      case _ => QuietKeepsIndexes(s, e);
    }
  }

  lemma QuietKeepsIndexes(s: Store, e: Event)
    requires Valid(s) && Enabled(s, e) && !e.Rebind? && !e.Publish?
    ensures var t := Effect(s, e); forall i :: i in t.indexes ==> IndexValid(t, i)
  {
    hide Effect, Enabled, VersionValid, RawKept, JobValid, Rebuilt;
    var t := Effect(s, e);
    EffectAdvances(s, e);
    OthersKeepIndexes(s, e);
    forall i | i in t.indexes
      ensures IndexValid(t, i)
    {
      assert IndexValid(s, i);
      KeptIndexStaysValid(s, t, i);
    }
  }

  lemma JobsDoNotMatter(s: Store, jobs: map<Id, Job>)
    requires forall i :: i in s.indexes ==> IndexValid(s, i)
    ensures forall i :: i in s.indexes ==> IndexValid(s.(jobs := jobs), i)
  {
    hide Rebuilt;
    forall i | i in s.indexes
      ensures IndexValid(s.(jobs := jobs), i)
    {
      assert IndexValid(s, i);
    }
  }

  /** Copied vectors are the ones a full rebuild would obtain. */
  lemma RebindIsRebuilt(s: Store, run: Id, prior: Id)
    requires run in s.jobs && Joined(s, s.jobs[run].version)
    requires prior in s.indexes && IndexValid(s, prior) && Rebindable(s, s.jobs[run], s.indexes[prior])
    ensures Rebuilt(NewIndex(s, s.jobs[run], s.indexes[prior].chunks))
    ensures s.indexes[prior].chunks == Embedded(JobChunks(s.jobs[run]), s.jobs[run].scopeRevision, s.jobs[run].original)
  {
    hide Chunks;
  }

  /** Every event keeps the invariant. */
  lemma ApplyKeepsValid(s: Store, e: Event)
    requires Valid(s)
    ensures Valid(Apply(s, e))
  {
    if Enabled(s, e) {
      hide Enabled, Effect, VersionValid, RawKept, IndexValid, JobValid;
      forall v | v in Effect(s, e).versions
        ensures VersionValid(Effect(s, e), v)
      {
        VersionStaysValid(s, e, v);
      }
      RawStaysKept(s, e);
      forall run | run in Effect(s, e).jobs
        ensures JobValid(Effect(s, e), run)
      {
        JobStaysValid(s, e, run);
      }
      IndexesStayValid(s, e);
      IntakeStaysStaged(s, e);
    }
  }

  lemma IntakeStaysStaged(s: Store, e: Event)
    requires Valid(s) && Enabled(s, e)
    ensures var t := Effect(s, e); t.intake.Some? ==> t.intake.value in t.blobs && t.intake.value !in t.versions
  {
    hide Chunks, WellFormed, RawStale, CurrentFile, Eligible, Rebindable;
    hide Reusable, IndexValid, JobValid, IndexStale, Latest;
    hide RawKept, VersionValid;
  }

  lemma {:induction false} RunKeepsValid(s: Store, events: seq<Event>)
    requires Valid(s)
    ensures Valid(RunFrom(s, events))
  {
    if events != [] {
      RunKeepsValid(s, events[..|events| - 1]);
      ApplyKeepsValid(RunFrom(s, events[..|events| - 1]), events[|events| - 1]);
    }
  }

  lemma EmptyStoreIsValid()
    ensures Valid(EMPTY_STORE)
  {
  }

  /** The invariant holds of every store that any events lead to from an empty one. */
  lemma ReachableValid(events: seq<Event>)
    ensures Valid(RunFrom(EMPTY_STORE, events))
  {
    hide Valid;
    EmptyStoreIsValid();
    RunKeepsValid(EMPTY_STORE, events);
  }
}
