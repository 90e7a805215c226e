/** Which indexes may be searched: they agree with a rebuild, carry present vectors only, and never come back. */
module FileCurrency {
  import opened FileChunker
  import opened FileLifecycle
  import opened FileLifecycleSafety

  /* ---- the three ways to finish a run store the same index ---- */

  /** What chunking the text again and embedding every chunk would store. */
  function FullRebuild(s: Store, job: Job): Index
    requires Joined(s, job.version)
  {
    NewIndex(s, job, Embedded(JobChunks(job), job.scopeRevision, job.original))
  }

  lemma PublishStoresRebuild(s: Store, run: Id, i: Id)
    requires Valid(s) && Enabled(s, Publish(run, i))
    ensures Effect(s, Publish(run, i)).indexes[i] == FullRebuild(s, s.jobs[run])
  {
    hide Chunks, IndexValid, VersionValid, RawKept, CurrentFile;
    assert JobValid(s, run);
    PublishedIsRebuilt(s, s.jobs[run]);
  }

  lemma RebindStoresRebuild(s: Store, run: Id, prior: Id, i: Id)
    requires Valid(s) && Enabled(s, Rebind(run, prior, i))
    ensures Effect(s, Rebind(run, prior, i)).indexes[i] == FullRebuild(s, s.jobs[run])
  {
    hide Chunks, JobValid, VersionValid, RawKept, CurrentFile;
    assert IndexValid(s, prior);
    RebindIsRebuilt(s, run, prior);
  }

  /**
   * The query returns the newest fitting index; any other it could have returned is complete and gives the
   * same rows.
   */
  lemma PriorsAreAlike(s: Store, run: Id, newest: Id, other: Id, i: Id)
    requires Valid(s) && run in s.jobs && Eligible(s, s.jobs[run]) && i !in s.issued
    requires newest in s.indexes && PriorFits(s, s.jobs[run], s.indexes[newest])
    requires other in s.indexes && PriorFits(s, s.jobs[run], s.indexes[other])
    ensures Enabled(s, Rebind(run, newest, i)) && Enabled(s, Rebind(run, other, i))
    ensures Effect(s, Rebind(run, newest, i)) == Effect(s, Rebind(run, other, i))
  {
    hide Chunks, JobValid, VersionValid, RawKept, CurrentFile;
    assert IndexValid(s, newest) && IndexValid(s, other);
    RebindStoresRebuild(s, run, newest, i);
    RebindStoresRebuild(s, run, other, i);
  }

  lemma UnchangedIsRebuild(s: Store, run: Id, i: Id)
    requires Valid(s) && Enabled(s, FinishUnchanged(run, i))
    ensures s.indexes[i] == FullRebuild(s, s.jobs[run])
    ensures Effect(s, FinishUnchanged(run, i)).indexes == s.indexes
  {
    hide Chunks, VersionValid, RawKept, CurrentFile;
    assert IndexValid(s, i) && JobValid(s, run);
  }

  /** After a run finishes, the version has exactly one index, the rebuild, and it is current. */
  lemma FinishedRunIsCurrent(s: Store, e: Event, i: Id)
    requires Valid(s) && Enabled(s, e)
    requires (e.FinishUnchanged? || e.Rebind? || e.Publish?) && i == e.index
    ensures var t, job := Effect(s, e), s.jobs[e.run];
            && i in t.indexes && Joined(t, t.indexes[i].version) && t.indexes[i] == FullRebuild(s, job)
            && (forall j :: j in t.indexes && t.indexes[j].version == job.version ==> j == i)
            && CurrentIndex(t, i)
  {
    hide Chunks, IndexValid, VersionValid, RawKept, JobValid, Embedded;
    var t, job := Effect(s, e), s.jobs[e.run];
    match e {
      case FinishUnchanged(run, _) =>
        UnchangedIsRebuild(s, run, i);
        SoleIndexOfVersion(s, i);
      case Rebind(run, prior, _) => RebindStoresRebuild(s, run, prior, i);
      case Publish(run, _) => PublishStoresRebuild(s, run, i);
    }
    assert t.versions == s.versions && t.originals == s.originals;
    SameTablesSameCurrency(s, t, job.version);
  }

  lemma SoleIndexOfVersion(s: Store, i: Id)
    requires Valid(s) && i in s.indexes
    ensures forall j :: j in s.indexes && s.indexes[j].version == s.indexes[i].version ==> j == i
  {
    assert IndexValid(s, i);
  }

  lemma SameTablesSameCurrency(s: Store, t: Store, v: Id)
    requires t.versions == s.versions && t.originals == s.originals && Joined(s, v)
    ensures CurrentFile(t, v) == CurrentFile(s, v)
  {
    assert forall w :: Newer(t, w, v) == Newer(s, w, v);
  }

  /* ---- what a current index holds ---- */

  /**
   * In every reachable state a current index is the rebuild of its version's present text, and each of its
   * vectors was embedded for this original under its present scope revision.
   */
  lemma CurrentIndexIsPresent(s: Store, i: Id)
    requires Valid(s) && i in s.indexes && Joined(s, s.indexes[i].version) && CurrentIndex(s, i)
    ensures var index := s.indexes[i];
            var version := s.versions[index.version];
            var revision := s.originals[version.original].scopeRevision;
            && version.extraction.Some?
            && index.chunks
                 == Embedded(Chunks(version.extraction.value.segments, index.chunkBytes), revision, version.original)
            && forall k :: 0 <= k < |index.chunks| ==>
                 index.chunks[k].vector == Vector(index.chunks[k].chunk.content, revision, version.original)
  {
    hide Chunks, CurrentFile;
    assert IndexValid(s, i);
  }

  /* ---- no revival ---- */

  /** The original was deleted, its scope has changed since, or a newer version exists. */
  ghost predicate Dead(s: Store, i: Id)
    requires i in s.indexes && Joined(s, s.indexes[i].version)
  {
    var index := s.indexes[i];
    var original := s.originals[s.versions[index.version].original];
    original.deleted || index.scopeRevision != original.scopeRevision || !Latest(s, index.version)
  }

  lemma DeadIsNotCurrent(s: Store, i: Id)
    requires i in s.indexes && Joined(s, s.indexes[i].version) && Dead(s, i)
    ensures !CurrentIndex(s, i)
  {
  }

  /** An index id that was issued refers to its old row or to nothing, and stays dead. */
  ghost predicate Buried(s: Store, i: Id) {
    i in s.issued && (i in s.indexes ==> Joined(s, s.indexes[i].version) && Dead(s, i))
  }

  lemma DeadStaysDead(s: Store, t: Store, i: Id)
    requires Advances(s, t) && i in s.indexes && i in t.indexes && t.indexes[i] == s.indexes[i]
    requires IndexValid(s, i) && Dead(s, i)
    ensures Joined(t, t.indexes[i].version) && Dead(t, i)
  {
    hide Rebuilt;
    var index := s.indexes[i];
    var v := index.version;
    assert VersionAdvances(s.versions[v], t.versions[v]);
    assert OriginalAdvances(s.originals[index.original], t.originals[index.original]);
    if !Latest(s, v) {
      var w :| w in s.versions && Newer(s, w, v);
      assert VersionAdvances(s.versions[w], t.versions[w]);
      assert Newer(t, w, v);
    }
  }

  lemma StepKeepsBuried(s: Store, e: Event, i: Id)
    requires Valid(s) && Buried(s, i)
    ensures Buried(Apply(s, e), i)
  {
    if Enabled(s, e) {
      hide Enabled, Effect, IndexValid, VersionValid, RawKept, JobValid, Dead;
      var t := Effect(s, e);
      EffectAdvances(s, e);
      if i in t.indexes {
        assert IndexValid(s, i);
        DeadStaysDead(s, t, i);
      }
    }
  }

  /** Once dead, an index is never current again, whatever happens and whether or not cleanup ever runs. */
  lemma {:induction false} NoRevival(s: Store, later: seq<Event>, i: Id)
    requires Valid(s) && Buried(s, i)
    ensures var t := RunFrom(s, later);
            Buried(t, i) && (i in t.indexes ==> Joined(t, t.indexes[i].version) && !CurrentIndex(t, i))
  {
    hide Dead, IndexValid, VersionValid, RawKept, JobValid, Apply;
    if later != [] {
      var n := |later| - 1;
      NoRevival(s, later[..n], i);
      RunKeepsValid(s, later[..n]);
      StepKeepsBuried(RunFrom(s, later[..n]), later[n], i);
    }
    var t := RunFrom(s, later);
    if i in t.indexes {
      DeadIsNotCurrent(t, i);
    }
  }

  /** A scope change, a removal and a newer upload each bury every index of their original. */
  lemma ChangesBuryIndexes(s: Store, e: Event, i: Id)
    requires Valid(s) && Enabled(s, e) && i in s.indexes
    requires match e
             case SetScope(o, included) => o == s.indexes[i].original && included == s.originals[o].excluded
             case Remove(o) => o == s.indexes[i].original
             case CommitUpload(o, _, replacing, _, _, _, _, _) => o == s.indexes[i].original && replacing
             case _ => false
    ensures Buried(Effect(s, e), i)
  {
    hide Chunks, VersionValid, RawKept, JobValid, Rebuilt, CurrentFile;
    assert IndexValid(s, i);
    var t, v := Effect(s, e), s.indexes[i].version;
    if e.CommitUpload? {
      assert Newer(t, s.intake.value, v);
    }
  }

  /* ---- a run that read an old scope can never write ---- */

  ghost predicate Overtaken(s: Store, run: Id) {
    run in s.jobs ==> Joined(s, s.jobs[run].version)
                      && s.jobs[run].scopeRevision < s.originals[s.versions[s.jobs[run].version].original].scopeRevision
  }

  /** The events by which a run sends text, stores an index or reports success. */
  predicate ProgressOf(e: Event, run: Id) {
    match e
    case Embed(r) => r == run
    case Publish(r, _) => r == run
    case Rebind(r, _, _) => r == run
    case FinishUnchanged(r, _) => r == run
    case _ => false
  }

  /** An overtaken run stores nothing and sends nothing, in this state and after any event but its own restart. */
  lemma OvertakenRunIsHarmless(s: Store, e: Event, run: Id)
    requires Valid(s) && Overtaken(s, run) && run in s.jobs
    ensures forall work :: ProgressOf(work, run) ==> !Enabled(s, work)
    ensures Overtaken(Apply(s, e), run)
  {
    hide Valid;
    OvertakenIsIneligible(s, run);
    if Enabled(s, e) {
      hide Enabled, Effect;
      OvertakenStays(s, e, run);
    }
  }

  lemma OvertakenIsIneligible(s: Store, run: Id)
    requires Overtaken(s, run) && run in s.jobs
    ensures !Eligible(s, s.jobs[run])
    ensures forall work :: ProgressOf(work, run) ==> !Enabled(s, work)
  {
    hide JobChunks, CurrentFile, Rebindable, Reusable;
    forall work | ProgressOf(work, run)
      ensures !Enabled(s, work)
    {
      assert work.Embed? || work.Publish? || work.Rebind? || work.FinishUnchanged?;
    }
  }

  lemma OvertakenStays(s: Store, e: Event, run: Id)
    requires Valid(s) && Enabled(s, e) && run in s.jobs && Overtaken(s, run) && !Eligible(s, s.jobs[run])
    ensures Overtaken(Effect(s, e), run)
  {
    var t, job := Effect(s, e), s.jobs[run];
    EffectAdvances(s, e);
    IneligibleJobStays(s, e, run);
    hide Chunks, VersionValid, RawKept, IndexValid, CurrentFile, Rebindable, Reusable, Enabled, Effect;
    assert JobValid(s, run);
    assert VersionAdvances(s.versions[job.version], t.versions[job.version]);
    assert OriginalAdvances(s.originals[job.original], t.originals[job.original]);
  }

  lemma IneligibleJobStays(s: Store, e: Event, run: Id)
    requires Enabled(s, e) && run in s.jobs && !Eligible(s, s.jobs[run])
    ensures run in Effect(s, e).jobs ==> Effect(s, e).jobs[run] == s.jobs[run]
  {
    hide Chunks, CurrentFile, Eligible, Rebindable, Reusable, IndexStale, RawStale;
  }

  /* ---- garbage collection ---- */

  /** The deletion predicate never matches a current index. */
  lemma StaleIsNotCurrent(s: Store, i: Id)
    requires i in s.indexes && Joined(s, s.indexes[i].version) && IndexStale(s, i, s.now)
    ensures !CurrentIndex(s, i)
  {
    var v := s.indexes[i].version;
    if Replaced(s, v, s.now) {
      assert !Latest(s, v);
    }
  }

  /** In every reachable state the newest version of an undeleted original has its bytes in the store. */
  lemma LatestBytesAreStored(s: Store, v: Id)
    requires Valid(s) && Joined(s, v) && !s.originals[s.versions[v].original].deleted && Latest(s, v)
    ensures v in s.blobs && !s.versions[v].rawDeleted
  {
    hide VersionValid, IndexValid, JobValid;
    LatestIsKept(s, v);
    assert RawKept(s, v);
  }

  /** Once an original is deleted none of its versions holds text, and none of its indexes is current. */
  lemma DeletionClearsText(s: Store, o: Id)
    requires Valid(s) && o in s.originals && s.originals[o].deleted
    ensures forall v :: v in s.versions && s.versions[v].original == o ==> s.versions[v].extraction.None?
    ensures forall i :: i in s.indexes && s.indexes[i].original == o ==>
              Joined(s, s.indexes[i].version) && !CurrentIndex(s, i)
  {
    hide RawKept, JobValid, Rebuilt;
    forall v | v in s.versions && s.versions[v].original == o
      ensures s.versions[v].extraction.None?
    {
      assert VersionValid(s, v);
    }
    forall i | i in s.indexes && s.indexes[i].original == o
      ensures Joined(s, s.indexes[i].version) && !CurrentIndex(s, i)
    {
      assert IndexValid(s, i);
    }
  }
}
