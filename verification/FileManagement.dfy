/**
 * What the holder of the file-operation lock does: uploads, scope changes, deletions, and the cleanup of stale rows and
 * stored keys around them: file-management.service.ts and file-foundation.ts.
 */
module FileManagement {
  import opened Results
  import opened Sequences
  import opened FileContract
  import opened FileLifecycle
  import opened FileLifecycleSafety
  import opened FileCurrency

  const BATCH: nat := 100

  /* ---- what staleness depends on ---- */

  /** Some versions lost their bytes and text; nothing else changed in the tables. */
  ghost predicate Cleared(s: Store, t: Store) {
    && t.originals == s.originals && t.indexes == s.indexes && t.versions.Keys == s.versions.Keys
    && forall v :: v in s.versions ==>
         t.versions[v] == s.versions[v] || t.versions[v] == s.versions[v].(rawDeleted := true, extraction := None)
  }

  /** The versions are the same, but some lost their bytes and text. */
  ghost predicate SomeCleared(before: map<Id, Version>, after: map<Id, Version>) {
    && before.Keys == after.Keys
    && forall v :: v in before ==>
         after[v] == before[v] || after[v] == before[v].(rawDeleted := true, extraction := None)
  }

  lemma ClearedVersions(s: Store, t: Store)
    requires Cleared(s, t)
    ensures SomeCleared(s.versions, t.versions)
  {
  }

  lemma ClearedIsTransitive(s: Store, t: Store, u: Store)
    requires Cleared(s, t) && Cleared(t, u)
    ensures Cleared(s, u)
  {
    forall v | v in s.versions
      ensures u.versions[v] == s.versions[v] || u.versions[v] == s.versions[v].(rawDeleted := true, extraction := None)
    {
      assert v in t.versions;
    }
  }

  lemma ClearedSameReplaced(s: Store, t: Store, v: Id, now: nat)
    requires Cleared(s, t) && v in s.versions
    ensures Replaced(t, v, now) == Replaced(s, v, now)
  {
    assert forall w :: w in s.versions ==>
      Newer(t, w, v) == Newer(s, w, v) && t.versions[w].createdAt == s.versions[w].createdAt;
  }

  lemma ClearedSameRawStale(s: Store, t: Store, v: Id, now: nat)
    requires Cleared(s, t) && Joined(s, v)
    ensures Joined(t, v) && RawStale(t, v, now) == RawStale(s, v, now)
  {
    ClearedSameReplaced(s, t, v, now);
  }

  /** Clearing versions makes no index stale. */
  lemma ClearedAddsNoStaleness(s: Store, t: Store, i: Id, now: nat)
    requires Cleared(s, t) && i in t.indexes && Joined(t, t.indexes[i].version) && IndexStale(t, i, now)
    ensures Joined(s, s.indexes[i].version) && IndexStale(s, i, now)
  {
    hide Replaced;
    ClearedSameReplaced(s, t, s.indexes[i].version, now);
  }

  /** A row is stale for good, and its staleness does not depend on the other indexes. */
  lemma StaleRowStaysStale(s: Store, t: Store, i: Id, early: nat, late: nat)
    requires t.originals == s.originals && t.versions == s.versions && early <= late
    requires i in s.indexes && i in t.indexes && t.indexes[i] == s.indexes[i]
    requires Joined(s, s.indexes[i].version) && IndexStale(s, i, early)
    ensures Joined(t, t.indexes[i].version) && IndexStale(t, i, late)
  {
    var v := s.indexes[i].version;
    assert forall w :: Newer(t, w, v) == Newer(s, w, v);
    if Replaced(s, v, early) {
      var w :| w in s.versions && Newer(s, w, v) && s.versions[w].createdAt + DAY_MS <= early;
      assert Newer(t, w, v);
    }
  }

  /* ---- each cleanup write is an event of the store ---- */

  lemma TickKeepsValid(s: Store, later: nat)
    requires Valid(s) && s.now <= later
    ensures Valid(s.(now := later))
  {
    hide Valid;
    ApplyKeepsValid(s, Tick(later));
  }

  lemma DropKeepsValid(s: Store, ids: set<Id>)
    requires Valid(s)
    requires forall i :: i in ids ==> i in s.indexes && Joined(s, s.indexes[i].version) && IndexStale(s, i, s.now)
    ensures Valid(s.(indexes := s.indexes - ids))
  {
    hide Valid, IndexStale;
    ApplyKeepsValid(s, DropIndexes(ids));
  }

  lemma RemoveBlobKeepsValid(s: Store, v: Id)
    requires Valid(s) && s.intake.None? && Joined(s, v) && RawStale(s, v, s.now)
    ensures Valid(s.(blobs := s.blobs - {v}))
  {
    hide Valid, RawStale;
    ApplyKeepsValid(s, RemoveBlob(v));
  }

  lemma MarkKeepsValid(s: Store, v: Id)
    requires Valid(s) && s.intake.None? && Joined(s, v) && RawStale(s, v, s.now) && v !in s.blobs
    ensures Valid(s.(versions := s.versions[v := s.versions[v].(rawDeleted := true, extraction := None)]))
  {
    hide Valid, RawStale;
    ApplyKeepsValid(s, MarkRawDeleted(v));
  }

  lemma SweepKeepsValid(s: Store, key: Id)
    requires Valid(s) && s.intake.None? && (Joined(s, key) ==> s.originals[s.versions[key].original].deleted)
    ensures Valid(s.(blobs := s.blobs - {key}))
  {
    hide Valid;
    ApplyKeepsValid(s, SweepBlob(key));
  }

  lemma RowsAreJoined(s: Store)
    requires Valid(s)
    ensures forall v :: v in s.versions ==> Joined(s, v)
    ensures forall i :: i in s.indexes ==> Joined(s, s.indexes[i].version)
  {
    hide Rebuilt, RawKept, JobValid;
    forall v | v in s.versions
      ensures Joined(s, v)
    {
      assert VersionValid(s, v);
    }
    forall i | i in s.indexes
      ensures Joined(s, s.indexes[i].version)
    {
      assert IndexValid(s, i);
    }
  }

  function Undeleted(versions: map<Id, Version>): set<Id> {
    set v | v in versions && !versions[v].rawDeleted
  }

  lemma FewerElements(small: set<Id>, large: set<Id>)
    requires small < large
    ensures |small| < |large|
  {
    var x :| x in large && x !in small;
    assert small <= large - {x};
    SubsetSize(small, large - {x});
  }

  class FileManagementService {
    var originals: map<Id, Original>
    const jobs: map<Id, Job>
    const issued: set<Id>
    var versions: map<Id, Version>
    var indexes: map<Id, Index>
    var blobs: set<Id>
    var now: nat

    constructor ()
      ensures Consistent() && Contents() == EMPTY_STORE
    {
      originals, versions, indexes, blobs, now := map[], map[], map[], {}, 0;
      jobs, issued := map[], {};
      EmptyStoreIsValid();
    }

    /** The store as the lock holder sees it: no upload is under way. */
    function Contents(): Store
      reads this
    {
      Store(originals, versions, indexes, blobs, None, jobs, issued, now)
    }

    ghost predicate Consistent()
      reads this
    {
      Valid(Contents())
    }

    /** Rows of a set, up to the batch size. */
    static method TakeBatch(rows: set<Id>) returns (batch: set<Id>)
      ensures batch <= rows && |batch| <= BATCH && (rows != {} ==> batch != {})
    {
      batch := {};
      var rest := rows;
      while rest != {} && |batch| < BATCH
        invariant batch <= rows && rest <= rows && |batch| <= BATCH
        invariant batch == {} ==> rest == rows
        decreases rest
      {
        var row :| row in rest;
        batch := batch + {row};
        rest := rest - {row};
      }
    }

    /** The database clock moves on before every query. */
    method ReadClock()
      requires Consistent()
      modifies this`now
      ensures Consistent() && now >= old(now)
    {
      hide Valid;
      var later: nat :| later >= now;
      TickKeepsValid(Contents(), later);
      now := later;
    }

    predicate StaleIndexRow(i: Id)
      reads this
    {
      i in indexes && Joined(Contents(), indexes[i].version) && IndexStale(Contents(), i, now)
    }

    predicate StaleRawRow(v: Id)
      reads this
    {
      Joined(Contents(), v) && !versions[v].rawDeleted && RawStale(Contents(), v, now)
    }

    /** The rows that left the table were stale; the others are as they were. */
    ghost predicate OnlyStaleDropped(before: Store)
      reads this
    {
      && indexes.Keys <= before.indexes.Keys && (forall i :: i in indexes ==> indexes[i] == before.indexes[i])
      && (forall i :: i in before.indexes && i !in indexes ==>
            Joined(before, before.indexes[i].version) && IndexStale(before, i, now))
    }

    /** Deletes stale indexes until a query finds none; a query or a delete may fail. */
    method DropStaleIndexes(fallible: bool) returns (done: bool)
      requires Consistent()
      modifies this`indexes, this`now
      ensures Consistent() && now >= old(now) && OnlyStaleDropped(old(Contents()))
      ensures !fallible ==> done
      ensures done ==> forall i :: !StaleIndexRow(i)
    {
      hide Valid, IndexStale;
      ghost var before := Contents();
      while true
        invariant Consistent() && now >= before.now && OnlyStaleDropped(before)
        decreases |indexes.Keys|
      {
        ghost var earlier := now;
        ReadClock();
        forall i | i in before.indexes && i !in indexes
          ensures IndexStale(before, i, now)
        {
          StaleRowStaysStale(before, before, i, earlier, now);
        }
        var stale := set i | i in indexes && StaleIndexRow(i);
        assert forall i :: StaleIndexRow(i) ==> i in stale;
        if stale == {} { return true; }
        var batch := TakeBatch(stale);
        var fails := Chance(fallible);
        if fails { return false; }
        DropBatch(batch, before);
      }
    }

    /** Whether the next access to the database or the file system fails. */
    static method Chance(fallible: bool) returns (fails: bool)
      ensures fails ==> fallible
    {
      fails := false;
      if * { fails := fallible; }
    }

    method DropBatch(batch: set<Id>, ghost before: Store)
      requires Consistent() && batch != {} && (forall i :: i in batch ==> StaleIndexRow(i))
      requires OnlyStaleDropped(before) && before.originals == originals && before.versions == versions
      modifies this`indexes
      ensures Consistent() && OnlyStaleDropped(before) && indexes == old(indexes) - batch
      ensures |indexes.Keys| < |old(indexes).Keys|
    {
      hide Valid, IndexStale;
      DropKeepsValid(Contents(), batch);
      forall i | i in batch
        ensures Joined(before, before.indexes[i].version) && IndexStale(before, i, now)
      {
        assert StaleIndexRow(i);
        StaleRowStaysStale(Contents(), before, i, now, now);
      }
      ghost var all := indexes.Keys;
      indexes := indexes - batch;
      var i :| i in batch;
      FewerElements(indexes.Keys, all);
    }

    /** Removes the bytes of deleted and long-replaced versions until a query finds none, or something fails. */
    method DropStaleRaw(fallible: bool) returns (done: bool)
      requires Consistent()
      modifies this`versions, this`blobs, this`now
      ensures Consistent() && now >= old(now) && blobs <= old(blobs) && Cleared(old(Contents()), Contents())
      ensures !fallible ==> done
      ensures done ==> forall v :: !StaleRawRow(v)
    {
      hide Valid, RawStale;
      ghost var before := Contents();
      while true
        invariant Consistent() && now >= before.now && blobs <= before.blobs && Cleared(before, Contents())
        decreases |Undeleted(versions)|
      {
        ReadClock();
        var stale := set v | v in versions && StaleRawRow(v);
        assert forall v :: StaleRawRow(v) ==> v in stale;
        if stale == {} { return true; }
        var batch := TakeBatch(stale);
        ghost var middle := Contents();
        done := DropRawBatch(batch, fallible);
        ClearedIsTransitive(before, middle, Contents());
        if !done { return; }
      }
    }

    method DropRawBatch(batch: set<Id>, fallible: bool) returns (done: bool)
      requires Consistent() && batch != {} && forall v :: v in batch ==> StaleRawRow(v)
      modifies this`versions, this`blobs
      ensures Consistent() && blobs <= old(blobs) && Cleared(old(Contents()), Contents())
      ensures !fallible ==> done
      ensures done ==> |Undeleted(versions)| < |Undeleted(old(versions))|
    {
      hide Valid, RawStale;
      ghost var before := Contents();
      var rest := batch;
      while rest != {}
        invariant Consistent() && rest <= batch && blobs <= before.blobs && Cleared(before, Contents())
        invariant forall v :: v in rest ==> StaleRawRow(v)
        invariant forall v :: v in batch - rest ==> v in versions && versions[v].rawDeleted
        decreases rest
      {
        var v :| v in rest;
        assert StaleRawRow(v);
        ghost var middle := Contents();
        done := DropRaw(v, fallible);
        ClearedIsTransitive(before, middle, Contents());
        if !done { return; }
        forall w | w in rest - {v}
          ensures StaleRawRow(w)
        {
          ClearedSameRawStale(middle, Contents(), w, now);
        }
        rest := rest - {v};
      }
      var gone :| gone in batch;
      assert gone in Undeleted(before.versions) && gone !in Undeleted(versions);
      FewerElements(Undeleted(versions), Undeleted(before.versions));
      return true;
    }

    /**
     * The blob goes first; the row is marked only afterwards. A failure before the removal or between the two
     * leaves the row as it was, for a later pass.
     */
    method DropRaw(v: Id, fallible: bool) returns (done: bool)
      requires Consistent() && StaleRawRow(v)
      modifies this`versions, this`blobs
      ensures Consistent() && blobs <= old(blobs) && old(blobs) - {v} <= blobs && Cleared(old(Contents()), Contents())
      ensures !fallible ==> done
      ensures done ==> v !in blobs
      ensures versions ==
        if done then old(versions)[v := old(versions)[v].(rawDeleted := true, extraction := None)] else old(versions)
    {
      hide Valid, RawStale;
      ghost var before := Contents();
      var fails := Chance(fallible);
      if fails { return false; }
      RemoveBlobKeepsValid(Contents(), v);
      blobs := blobs - {v};
      fails := Chance(fallible);
      if fails { return false; }
      ClearedSameRawStale(before, Contents(), v, now);
      MarkKeepsValid(Contents(), v);
      versions := versions[v := versions[v].(rawDeleted := true, extraction := None)];
      return true;
    }

    /** Removes every stored key without a row, or whose original is deleted. */
    method SweepKeys(fallible: bool) returns (done: bool)
      requires Consistent()
      modifies this`blobs
      ensures Consistent() && blobs <= old(blobs)
      ensures !fallible ==> done
      ensures done ==> forall k :: k in blobs ==> Joined(Contents(), k) && !originals[versions[k].original].deleted
      ensures forall k :: k in old(blobs) && Joined(Contents(), k) && !originals[versions[k].original].deleted ==>
                k in blobs
    {
      hide Valid;
      ghost var before := Contents();
      RowsAreJoined(before);
      var keys := blobs;
      while keys != {}
        invariant Consistent() && keys <= blobs <= before.blobs && forall v :: v in versions ==> Joined(Contents(), v)
        invariant forall k :: k in blobs && k !in keys ==>
                    Joined(Contents(), k) && !originals[versions[k].original].deleted
        invariant forall k :: k in before.blobs && Joined(Contents(), k) && !originals[versions[k].original].deleted ==>
                    k in blobs
        decreases keys
      {
        var key :| key in keys;
        var fails := Chance(fallible);
        if fails { return false; }
        if key !in versions || originals[versions[key].original].deleted {
          SweepKeepsValid(Contents(), key);
          blobs := blobs - {key};
        }
        keys := keys - {key};
      }
      return true;
    }

    /**
     * One pass, which may fail at any query, delete or removal. It is safe wherever it ends: only stale indexes and the
     * bytes of stale versions are gone, so no current index and no latest version of an undeleted original is touched.
     * It is complete when it does not fail: nothing that matched the deletion predicates at the last query is left, and
     * every remaining key belongs to an undeleted original.
     */
    method Reconcile(fallible: bool) returns (done: bool, checked: nat)
      requires Consistent()
      modifies this`versions, this`indexes, this`blobs, this`now
      ensures Consistent() && Kept(old(Contents()), Contents()) && old(now) <= checked <= now
      ensures !fallible ==> done
      ensures done ==> forall i :: i in indexes ==>
                Joined(Contents(), indexes[i].version) && !IndexStale(Contents(), i, checked)
      ensures done ==> forall v :: !StaleRawRow(v)
      ensures done ==> forall k :: k in blobs ==> Joined(Contents(), k) && !originals[versions[k].original].deleted
    {
      hide Valid, IndexStale, RawStale, CurrentIndex, Latest, Cleared, SomeCleared, Kept;
      ghost var before := Contents();
      done := DropStaleIndexes(fallible);
      checked := now;
      ghost var dropped := Contents();
      DroppedIsKept(before, dropped);
      if !done { return; }
      RowsAreJoined(dropped);
      assert forall i :: i in indexes ==> !StaleIndexRow(i);
      done := DropStaleRaw(fallible);
      ghost var cleared := Contents();
      ClearedIsKept(before, dropped, cleared);
      if !done { return; }
      forall v | Joined(cleared, v) && !cleared.versions[v].rawDeleted
        ensures !RawStale(cleared, v, cleared.now)
      {
        assert !StaleRawRow(v);
      }
      done := SweepKeys(fallible);
      SweptIsKept(before, cleared, Contents());
      SweptIsCleared(dropped, cleared, blobs, checked);
    }

    /** The row a change starts from: an original that is not deleted and has a version. */
    predicate Found(id: Id)
      reads this
    {
      id in originals && !originals[id].deleted && exists v :: v in versions && versions[v].original == id
    }

    /** The cleanup around a change; a failure is reported, not raised. */
    method Cleanup(fallible: bool) returns (done: bool)
      requires Consistent()
      modifies this`versions, this`indexes, this`blobs, this`now
      ensures Consistent() && Kept(old(Contents()), Contents())
      ensures !fallible ==> done
      ensures done ==> Tidy(Contents())
    {
      hide Valid, IndexStale, RawStale, CurrentIndex, Latest, Kept, Tidy;
      var checked;
      done, checked := Reconcile(fallible);
      if done { ReconciledIsTidy(checked); }
    }

    lemma ReconciledIsTidy(checked: nat)
      requires Consistent()
      requires forall i :: i in indexes ==>
                 Joined(Contents(), indexes[i].version) && !IndexStale(Contents(), i, checked)
      requires forall v :: !StaleRawRow(v)
      requires forall k :: k in blobs ==> Joined(Contents(), k) && !originals[versions[k].original].deleted
      ensures Tidy(Contents())
    {
      hide Valid, Replaced, Outdated;
      forall v | Joined(Contents(), v) && originals[versions[v].original].deleted
        ensures versions[v].rawDeleted && v !in blobs
      {
        assert !StaleRawRow(v);
      }
    }

    /**
     * Includes an original in search or excludes it; a change gives it a new revision, which its indexes do
     * not have.
     */
    method SetScope(id: Id, included: bool, fallible: bool) returns (r: Result<bool, FileError>)
      requires Consistent()
      modifies this
      ensures Consistent() && (r.Ok? <==> old(Found(id)))
      ensures r.Err? ==> Contents() == old(Contents())
      ensures r.Ok? ==> originals == old(originals)[id := Scoped(old(originals)[id], included)]
      ensures r.Ok? && !fallible ==> r.value
      ensures r.Ok? && originals[id] != old(originals)[id] ==>
        forall i :: i in indexes && indexes[i].original == id ==> !CurrentRow(Contents(), i) && !r.value
      ensures r.Err? || originals[id] == old(originals)[id] ==>
        forall i :: CurrentRow(old(Contents()), i) ==> i in indexes && indexes[i] == old(indexes)[i]
      ensures forall i :: CurrentRow(old(Contents()), i) && old(indexes)[i].original != id ==>
        i in indexes && indexes[i] == old(indexes)[i]
    {
      hide Valid, IndexStale, RawStale, CurrentIndex, Latest, Kept, Tidy, Supported;
      ghost var before := Contents();
      if !Found(id) { return Err(NotFound); }
      if originals[id].excluded != included {
        var done := Cleanup(fallible);
        KeepsCurrentRows(before, Contents());
        return Ok(done);
      }
      ScopeKeepsValid(before, id, included);
      var original := originals[id];
      originals := originals[id := original.(excluded := !included, scopeRevision := original.scopeRevision + 1)];
      ghost var changed := Contents();
      RevisedIsUnsupported(before, changed, id);
      var done := Cleanup(fallible);
      UnsupportedStays(changed, Contents(), id, done);
      OthersStayCurrent(before, changed, id);
      KeepsCurrentRows(changed, Contents());
      return Ok(done);
    }

    /**
     * Deletes an original: its text goes with its visibility, in one transaction; bytes and indexes go with
     * the cleanup.
     */
    method Remove(id: Id, fallible: bool) returns (r: Result<bool, FileError>)
      requires Consistent()
      modifies this
      ensures Consistent() && (r.Ok? <==> id in old(originals))
      ensures r.Err? ==> Contents() == old(Contents())
      ensures r.Ok? ==> originals == old(originals)[id := old(originals)[id].(deleted := true)]
      ensures r.Ok? && !fallible ==> r.value
      ensures r.Ok? ==> forall v :: v in versions && versions[v].original == id ==> versions[v].extraction.None?
      ensures r.Ok? ==> forall i :: i in indexes && indexes[i].original == id ==> !CurrentRow(Contents(), i) && !r.value
      ensures r.Ok? && r.value ==>
        forall v :: v in versions && versions[v].original == id ==> versions[v].rawDeleted && v !in blobs
      ensures forall i :: CurrentRow(old(Contents()), i) && (r.Err? || old(indexes)[i].original != id) ==>
        i in indexes && indexes[i] == old(indexes)[i]
    {
      hide Valid, IndexStale, RawStale, CurrentIndex, Latest, Kept, Supported;
      ghost var before := Contents();
      if id !in originals { return Err(NotFound); }
      RemoveKeepsValid(before, id);
      originals := originals[id := originals[id].(deleted := true)];
      versions := map v | v in versions ::
        if versions[v].original == id then versions[v].(extraction := None) else versions[v];
      ghost var changed := Contents();
      DeletedIsUnsupported(changed, id);
      var done := Cleanup(fallible);
      UnsupportedStays(changed, Contents(), id, done);
      DeletionClearsText(Contents(), id);
      RowsAreJoined(Contents());
      OthersStayCurrent(before, changed, id);
      KeepsCurrentRows(changed, Contents());
      return Ok(done);
    }

    /** The newest version of an original. */
    method Previous(id: Id) returns (previous: Option<Id>)
      ensures previous.None? <==> forall v :: v in versions ==> versions[v].original != id
      ensures previous.Some? ==> previous.value in versions && versions[previous.value].original == id
      ensures previous.Some? ==> forall w :: w in versions && versions[w].original == id ==>
                versions[w].number <= versions[previous.value].number
    {
      previous := None;
      var rest := versions.Keys;
      while rest != {}
        invariant rest <= versions.Keys
        invariant previous.None? ==> forall v :: v in versions && v !in rest ==> versions[v].original != id
        invariant previous.Some? ==> previous.value in versions && versions[previous.value].original == id
        invariant previous.Some? ==>
          forall w :: w in versions && w !in rest && versions[w].original == id ==>
            versions[w].number <= versions[previous.value].number
        decreases rest
      {
        var v :| v in rest;
        if versions[v].original == id && (previous.None? || versions[previous.value].number < versions[v].number) {
          previous := Some(v);
        }
        rest := rest - {v};
      }
    }

    predicate MayReplace(u: Upload)
      reads this
    {
      u.replacing.Some? ==> u.replacing.value in originals && !originals[u.replacing.value].deleted
    }

    /** What is refused before anything is written. */
    static method Screen(u: Upload) returns (refused: Option<FileError>)
      ensures refused.None? <==> Acceptable(u)
    {
      if u.format.None? { return Some(UnsupportedFormat); }
      if u.bytes == 0 || u.bytes > MAX_UPLOAD_BYTES { return Some(FileTooLarge); }
      if u.parsed.Unavailable? { return Some(ParserUnavailable); }
      if u.parsed.Readable? {
        var accepted := AssertExtraction(u.parsed.extraction);
        if !accepted || u.parsed.extraction.format != u.format.value { return Some(ParserFailed); }
        if !u.allowed { return Some(TransferDenied); }
      }
      return None;
    }

    /** The transaction that registers a written upload. */
    method Register(u: Upload, id: Id, key: Id, ghost before: Store) returns (r: Option<FileError>)
      requires Valid(before) && id !in originals && key !in versions && key !in before.blobs && Acceptable(u)
      requires Contents() == before.(blobs := before.blobs + {key})
      modifies this`originals, this`versions
      ensures r.None? <==> Grantable(before, u)
      ensures r.Some? ==> Contents() == before.(blobs := before.blobs + {key})
      ensures r.None? ==> Consistent() && key in versions && versions == before.versions[key := versions[key]]
      ensures r.None? ==> Registered(before, u, id, versions[key], now)
      ensures r.None? ==> originals == if u.replacing.Some? then before.originals
                                       else before.originals[id := Original(u.owner, false, false, 1)]
    {
      hide Valid, NextNumber, Latest, WellFormed;
      if !MayReplace(u) { return Some(NotFound); }
      var original := if u.replacing.Some? then u.replacing.value else id;
      var previous := Previous(original);
      PreviousIsLatest(before, original, previous, u.expected);
      if u.expected.Some? && previous != u.expected { return Some(SourceChanged); }
      var number := if previous.Some? then versions[previous.value].number + 1 else 1;
      NextOfPrevious(before, original, previous, number);
      if !u.commits { return Some(NotCommitted); }
      CommitKeepsValid(before, key, u, id, original, number, UploadedText(u));
      originals := if u.replacing.Some? then originals else originals[id := Original(u.owner, false, false, 1)];
      versions := versions[key := Version(original, number, now, u.contentHash, u.format.value, true, false,
                                          UploadedText(u), [ExtractionRun(u.parsed.Readable?, now)])];
      return None;
    }

    /**
     * Stores an upload: the bytes first, then in one transaction the original, its next version and the outcome of the
     * extraction. A failure leaves at most the bytes behind, under a key that no version uses.
     */
    method Create(u: Upload, id: Id, key: Id) returns (r: Result<Id, FileError>)
      requires Consistent() && id !in originals && key !in versions && key !in blobs
      modifies this`originals, this`versions, this`blobs
      ensures Consistent()
      ensures r.Ok? <==> Acceptable(u) && Grantable(old(Contents()), u)
      ensures r.Err? ==> originals == old(originals) && versions == old(versions) && blobs <= old(blobs) + {key}
      ensures r.Ok? ==> r.value == key && blobs == old(blobs) + {key}
      ensures r.Ok? ==> key in versions && versions == old(versions)[key := versions[key]]
      ensures r.Ok? ==> Registered(old(Contents()), u, id, versions[key], now)
      ensures r.Ok? ==> originals == if u.replacing.Some? then old(originals)
                                     else old(originals)[id := Original(u.owner, false, false, 1)]
    {
      hide Valid, Registered, Acceptable, Latest;
      ghost var before := Contents();
      if !MayReplace(u) { return Err(NotFound); }
      var refused := Screen(u);
      if refused.Some? { return Err(refused.value); }
      AbandonedKeepsValid(before, key);
      blobs := blobs + {key};
      refused := Register(u, id, key, before);
      return if refused.Some? then Err(refused.value) else Ok(key);
    }

    /**
     * An upload under the lock, between two cleanups. A registered upload is the newest version of an undeleted
     * original, with its bytes stored and its text as extracted; a failed one leaves no row, and no bytes once
     * the cleanup is done. A failing last cleanup is reported although the upload may be registered.
     */
    method PersistUpload(u: Upload, id: Id, key: Id, fallible: bool) returns (r: Result<Id, FileError>)
      requires Consistent() && id !in originals && key !in versions && key !in blobs
      modifies this
      ensures Consistent() && (r.Ok? || r.error != CleanupFailed ==> Tidy(Contents()))
      ensures key in versions ==> LiveLatest(Contents(), key) && key in blobs && AsUploaded(versions[key], u, id)
      ensures key !in versions ==> originals == old(originals)
      ensures r.Ok? ==> r.value == key && key in versions && Acceptable(u) && Grantable(old(Contents()), u)
      ensures r.Err? && r.error != CleanupFailed ==> key !in versions && key !in blobs
      ensures !fallible ==> (r.Ok? <==> Acceptable(u) && Grantable(old(Contents()), u))
    {
      hide Valid, Tidy, Latest, CurrentRow, Registered, SomeCleared, Kept, Acceptable, Grantable, AsUploaded;
      ghost var before := Contents();
      var done := Cleanup(fallible);
      KeptKeys(before, Contents());
      KeptGrants(before, Contents(), u);
      if !done { return Err(CleanupFailed); }
      ghost var cleaned := Contents();
      r := Create(u, id, key);
      ghost var created := Contents();
      done := Cleanup(fallible);
      KeptKeys(created, Contents());
      if r.Ok? {
        NewestAfterCleanup(cleaned, created, Contents(), u, id, key);
      } else if done {
        TidyKeysHaveRows(Contents(), key);
      }
      if !done { return Err(CleanupFailed); }
    }
  }

  const MAX_UPLOAD_BYTES: nat := 20 * 1024 * 1024

  /** What the parser made of the bytes; an unavailable parser registers nothing. */
  datatype Parsed = Readable(extraction: Extraction) | ContentFailed | Unavailable

  /**
   * `allowed` is what the inspection of the text says; `commits` is false when the checkpoint or the session
   * refuses the transaction.
   */
  datatype Upload = Upload(
    owner: string, replacing: Option<Id>, expected: Option<Id>, format: Option<Format>, bytes: nat, contentHash: nat,
    parsed: Parsed, allowed: bool, commits: bool)

  predicate Acceptable(u: Upload) {
    u.format.Some? && 0 < u.bytes <= MAX_UPLOAD_BYTES && !u.parsed.Unavailable?
    && (u.parsed.Readable? ==> u.allowed && WellFormed(u.parsed.extraction))
    && (u.parsed.Readable? ==> u.parsed.extraction.format == u.format.value)
  }

  /** What the registering transaction grants: the original is there, and the expected version is still its newest. */
  predicate Grantable(s: Store, u: Upload) {
    && u.commits && (u.replacing.Some? ==> u.replacing.value in s.originals && !s.originals[u.replacing.value].deleted)
    && (u.expected.Some? ==>
          u.replacing.Some? && u.expected.value in s.versions
          && s.versions[u.expected.value].original == u.replacing.value && Latest(s, u.expected.value))
  }

  lemma KeptGrants(s: Store, t: Store, u: Upload)
    requires Kept(s, t)
    ensures Grantable(t, u) == Grantable(s, u)
  {
    hide CurrentRow, LiveLatest;
    if u.expected.Some? && u.expected.value in s.versions {
      assert forall w :: Newer(t, w, u.expected.value) == Newer(s, w, u.expected.value);
    }
  }

  /** The newest version is the one no other version is newer than. */
  lemma PreviousIsLatest(s: Store, original: Id, previous: Option<Id>, expected: Option<Id>)
    requires Valid(s)
    requires previous.None? <==> forall v :: v in s.versions ==> s.versions[v].original != original
    requires previous.Some? ==> previous.value in s.versions && s.versions[previous.value].original == original
    requires previous.Some? ==> forall w :: w in s.versions && s.versions[w].original == original ==>
               s.versions[w].number <= s.versions[previous.value].number
    ensures expected.Some? ==>
      (previous == expected <==>
        expected.value in s.versions && s.versions[expected.value].original == original && Latest(s, expected.value))
    ensures previous.Some? ==> original in s.originals
  {
    hide RawKept, IndexValid, JobValid;
    if previous.Some? { assert VersionValid(s, previous.value); }
    if expected.Some? && expected.value in s.versions && s.versions[expected.value].original == original {
      assert VersionValid(s, expected.value);
      assert previous.Some? && (Newer(s, previous.value, expected.value) || previous == expected);
    }
  }

  function UploadedText(u: Upload): Option<Extraction> {
    if u.parsed.Readable? then Some(u.parsed.extraction) else None
  }

  /** The version an upload registers: the next number of its original, the uploaded content, and its extraction. */
  ghost predicate Registered(s: Store, u: Upload, id: Id, version: Version, now: nat) {
    && version.original == (if u.replacing.Some? then u.replacing.value else id)
    && NextNumber(s, version.original, version.number)
    && (u.replacing.Some? ==> version.original in s.originals && !s.originals[version.original].deleted)
    && (u.expected.Some? ==> u.expected.value in s.versions && s.versions[u.expected.value].original == version.original
                             && Latest(s, u.expected.value))
    && version.contentHash == u.contentHash && Some(version.format) == u.format && version.createdAt == now
    && version.active && !version.rawDeleted && version.extraction == UploadedText(u)
    && version.runs == [ExtractionRun(u.parsed.Readable?, now)]
  }

  /** The uploaded content, its extraction and an active, visible row of the original it was meant for. */
  predicate AsUploaded(version: Version, u: Upload, id: Id) {
    && version.original == (if u.replacing.Some? then u.replacing.value else id)
    && version.contentHash == u.contentHash && Some(version.format) == u.format
    && version.active && !version.rawDeleted && version.extraction == UploadedText(u)
    && (Extracted(version) <==> u.parsed.Readable?)
  }

  lemma AbandonedKeepsValid(s: Store, key: Id)
    requires Valid(s) && s.intake.None? && key !in s.blobs && key !in s.versions
    ensures Valid(s.(blobs := s.blobs + {key}))
  {
    hide Valid;
    ApplyKeepsValid(s, WriteBlob(key));
    var written := s.(blobs := s.blobs + {key}, intake := Some(key));
    ApplyKeepsValid(written, AbandonUpload);
  }

  lemma NextOfPrevious(s: Store, original: Id, previous: Option<Id>, number: nat)
    requires previous.None? <==> forall v :: v in s.versions ==> s.versions[v].original != original
    requires previous.Some? ==> previous.value in s.versions && s.versions[previous.value].original == original
    requires previous.Some? ==> forall w :: w in s.versions && s.versions[w].original == original ==>
               s.versions[w].number <= s.versions[previous.value].number
    requires number == if previous.Some? then s.versions[previous.value].number + 1 else 1
    ensures NextNumber(s, original, number)
    ensures previous.Some? ==> Latest(s, previous.value)
  {
    if previous.Some? { assert s.versions[previous.value].number == number - 1; }
  }

  /** Writing the bytes and committing the rows are two events of the store. */
  lemma CommitKeepsValid(s: Store, key: Id, u: Upload, id: Id, original: Id, number: nat,
                         extraction: Option<Extraction>)
    requires Valid(s) && s.intake.None? && key !in s.blobs && key !in s.versions && u.format.Some?
    requires original == (if u.replacing.Some? then u.replacing.value else id)
    requires if u.replacing.Some? then original in s.originals && !s.originals[original].deleted
             else original !in s.originals
    requires NextNumber(s, original, number)
    requires u.expected.Some? ==> u.expected.value in s.versions && Latest(s, u.expected.value)
    requires u.expected.Some? ==> s.versions[u.expected.value].original == original
    requires extraction.Some? ==> WellFormed(extraction.value) && extraction.value.format == u.format.value
    ensures Valid(s.(
      originals := if u.replacing.Some? then s.originals else s.originals[id := Original(u.owner, false, false, 1)],
      versions := s.versions[key := Version(original, number, s.now, u.contentHash, u.format.value, true, false,
                                            extraction, [ExtractionRun(extraction.Some?, s.now)])],
      blobs := s.blobs + {key}))
  {
    hide Valid, NextNumber, Latest, WellFormed;
    ApplyKeepsValid(s, WriteBlob(key));
    var written := s.(blobs := s.blobs + {key}, intake := Some(key));
    SameTablesSameNext(s, written, original, number, u.expected);
    ApplyKeepsValid(written, CommitUpload(original, u.owner, u.replacing.Some?, u.expected, number, u.contentHash,
      u.format.value, extraction));
  }

  lemma SameTablesSameNext(s: Store, t: Store, original: Id, number: nat, expected: Option<Id>)
    requires t.versions == s.versions && NextNumber(s, original, number)
    requires expected.Some? ==> expected.value in s.versions && Latest(s, expected.value)
    ensures NextNumber(t, original, number) && (expected.Some? ==> Latest(t, expected.value))
  {
    if expected.Some? { assert forall w :: Newer(t, w, expected.value) == Newer(s, w, expected.value); }
  }

  lemma KeptKeys(s: Store, t: Store)
    requires Kept(s, t)
    ensures t.originals == s.originals && t.versions.Keys == s.versions.Keys && t.blobs <= s.blobs
  {
    hide LiveLatest, CurrentRow;
  }

  lemma TidyKeysHaveRows(s: Store, key: Id)
    requires Tidy(s) && key !in s.versions
    ensures key !in s.blobs
  {
  }

  /** The registered version is the newest of its original, so a cleanup leaves its bytes and text. */
  lemma NewestAfterCleanup(cleaned: Store, created: Store, t: Store, u: Upload, id: Id, key: Id)
    requires Valid(t) && Kept(created, t) && key !in cleaned.versions && key in created.versions
    requires created.versions == cleaned.versions[key := created.versions[key]]
    requires Registered(cleaned, u, id, created.versions[key], created.now)
    requires created.originals == if u.replacing.Some? then cleaned.originals
                                  else cleaned.originals[id := Original(u.owner, false, false, 1)]
    ensures key in t.versions && LiveLatest(t, key) && key in t.blobs && t.versions[key] == created.versions[key]
    ensures AsUploaded(t.versions[key], u, id)
  {
    hide CurrentRow, Valid;
    var o := created.versions[key].original;
    forall w | w in t.versions && t.versions[w].original == o ensures t.versions[w].number <= t.versions[key].number {
      assert w == key || cleaned.versions[w].number < created.versions[key].number;
    }
    assert LiveLatest(t, key);
  }

  datatype FileError =
    | NotFound
    | FileTooLarge
    | UnsupportedFormat
    | SourceChanged
    | ParserUnavailable
    | ParserFailed
    | NotCommitted
    | TransferDenied
    | CleanupFailed

  function Scoped(o: Original, included: bool): Original {
    if o.excluded != included then o else o.(excluded := !included, scopeRevision := o.scopeRevision + 1)
  }

  /** Not deleted, not excluded, and embedded under the present revision: what any index left by a cleanup satisfies. */
  predicate Supported(s: Store, i: Id)
    requires i in s.indexes && Joined(s, s.indexes[i].version)
  {
    var original := s.originals[s.versions[s.indexes[i].version].original];
    !original.deleted && !original.excluded && s.indexes[i].scopeRevision == original.scopeRevision
  }

  /** What a whole cleanup leaves: supported indexes, keys of undeleted originals, and nothing of deleted ones. */
  ghost predicate Tidy(s: Store) {
    && (forall i :: i in s.indexes ==> Joined(s, s.indexes[i].version) && Supported(s, i))
    && (forall k :: k in s.blobs ==> Joined(s, k) && !s.originals[s.versions[k].original].deleted)
    && (forall v :: Joined(s, v) && s.originals[s.versions[v].original].deleted ==>
      s.versions[v].rawDeleted && v !in s.blobs)
  }

  /** What a cleanup, whole or interrupted, leaves alone. */
  ghost predicate Kept(s: Store, t: Store) {
    && t.originals == s.originals && t.blobs <= s.blobs && SomeCleared(s.versions, t.versions)
    && t.indexes.Keys <= s.indexes.Keys && (forall i :: i in t.indexes ==> t.indexes[i] == s.indexes[i])
    && (forall i :: CurrentRow(s, i) ==> i in t.indexes)
    && (forall v :: LiveLatest(t, v) ==> v in t.blobs && !t.versions[v].rawDeleted)
  }

  lemma LiveLatestIsStored(s: Store)
    requires Valid(s)
    ensures forall v :: LiveLatest(s, v) ==> v in s.blobs && !s.versions[v].rawDeleted
  {
    hide Valid, Latest;
    forall v | LiveLatest(s, v) ensures v in s.blobs && !s.versions[v].rawDeleted { LatestBytesAreStored(s, v); }
  }

  lemma DroppedIsKept(s: Store, t: Store)
    requires Valid(t) && t.originals == s.originals && t.versions == s.versions && t.blobs == s.blobs
    requires t.indexes.Keys <= s.indexes.Keys && (forall i :: i in t.indexes ==> t.indexes[i] == s.indexes[i])
    requires forall i :: i in s.indexes && i !in t.indexes ==>
               Joined(s, s.indexes[i].version) && IndexStale(s, i, t.now)
    ensures Kept(s, t)
  {
    hide Valid, LiveLatest, CurrentRow, IndexStale;
    LiveLatestIsStored(t);
    forall i | CurrentRow(s, i) ensures i in t.indexes {
      StaleAtAnyTimeIsNotCurrent(s, i, t.now);
      CurrentRowExists(s, i);
    }
  }

  /** Clearing versions and removing bytes go on from a kept store. */
  lemma ClearedIsKept(s: Store, dropped: Store, t: Store)
    requires Kept(s, dropped) && Valid(t) && Cleared(dropped, t) && t.blobs <= dropped.blobs
    requires dropped.versions == s.versions
    ensures Kept(s, t)
  {
    hide Valid, LiveLatest, CurrentRow;
    LiveLatestIsStored(t);
    ClearedVersions(dropped, t);
  }

  lemma SweptIsKept(s: Store, cleared: Store, t: Store)
    requires Kept(s, cleared) && Valid(t) && t.blobs <= cleared.blobs
    requires t.originals == cleared.originals && t.versions == cleared.versions && t.indexes == cleared.indexes
    ensures Kept(s, t)
  {
    hide Valid, LiveLatest, CurrentRow, SomeCleared;
    LiveLatestIsStored(t);
  }

  lemma CurrentRowExists(s: Store, i: Id)
    requires CurrentRow(s, i)
    ensures i in s.indexes
  {
  }

  lemma KeepsCurrentRows(s: Store, t: Store)
    requires Kept(s, t)
    ensures forall i :: CurrentRow(s, i) ==> i in t.indexes && t.indexes[i] == s.indexes[i]
  {
    hide CurrentRow, LiveLatest;
  }

  lemma ScopeKeepsValid(s: Store, id: Id, included: bool)
    requires Valid(s) && id in s.originals && !s.originals[id].deleted && s.originals[id].excluded == included
    ensures Valid(s.(originals := s.originals[id := Scoped(s.originals[id], included)]))
  {
    hide Valid;
    ApplyKeepsValid(s, SetScope(id, included));
  }

  lemma RemoveKeepsValid(s: Store, id: Id)
    requires Valid(s) && id in s.originals
    ensures Valid(s.(originals := s.originals[id := s.originals[id].(deleted := true)],
      versions := map v | v in s.versions ::
        if s.versions[v].original == id then s.versions[v].(extraction := None) else s.versions[v]))
  {
    hide Valid;
    ApplyKeepsValid(s, Event.Remove(id));
  }

  /** No index of the original may survive a cleanup. */
  ghost predicate Unsupported(s: Store, id: Id) {
    forall i :: i in s.indexes && s.indexes[i].original == id ==>
      Joined(s, s.indexes[i].version) && s.versions[s.indexes[i].version].original == id && !Supported(s, i)
  }

  lemma RevisedIsUnsupported(s: Store, t: Store, id: Id)
    requires Valid(s) && id in s.originals
    requires t.versions == s.versions && t.indexes == s.indexes && t.originals.Keys == s.originals.Keys
    requires t.originals[id].scopeRevision == s.originals[id].scopeRevision + 1
    ensures Unsupported(t, id)
  {
    hide RawKept, VersionValid, JobValid, Rebuilt;
    forall i | i in t.indexes && t.indexes[i].original == id
      ensures Joined(t, t.indexes[i].version) && t.versions[t.indexes[i].version].original == id && !Supported(t, i)
    {
      assert IndexValid(s, i);
    }
  }

  lemma DeletedIsUnsupported(s: Store, id: Id)
    requires Valid(s) && id in s.originals && s.originals[id].deleted
    ensures Unsupported(s, id)
  {
    hide RawKept, VersionValid, JobValid, Rebuilt;
    forall i | i in s.indexes && s.indexes[i].original == id
      ensures Joined(s, s.indexes[i].version) && s.versions[s.indexes[i].version].original == id && !Supported(s, i)
    {
      assert IndexValid(s, i);
    }
  }

  lemma CurrentIsSupported(s: Store, i: Id)
    requires CurrentRow(s, i)
    ensures Supported(s, i)
  {
  }

  /** Later loops change neither which indexes are stale nor which raw rows are. */
  lemma SweptIsCleared(dropped: Store, cleared: Store, blobs: set<Id>, checked: nat)
    requires Cleared(dropped, cleared) && Valid(cleared)
    requires forall i :: i in dropped.indexes ==>
               Joined(dropped, dropped.indexes[i].version) && !IndexStale(dropped, i, checked)
    requires forall v :: Joined(cleared, v) && !cleared.versions[v].rawDeleted ==> !RawStale(cleared, v, cleared.now)
    ensures var swept := cleared.(blobs := blobs);
            && (forall i :: i in swept.indexes ==>
                  Joined(swept, swept.indexes[i].version) && !IndexStale(swept, i, checked))
            && (forall v :: Joined(swept, v) && !swept.versions[v].rawDeleted ==> !RawStale(swept, v, swept.now))
  {
    hide Valid, IndexStale, RawStale;
    var swept := cleared.(blobs := blobs);
    RowsAreJoined(cleared);
    forall i | i in swept.indexes
      ensures Joined(swept, swept.indexes[i].version) && !IndexStale(swept, i, checked)
    {
      if IndexStale(swept, i, checked) {
        ClearedAddsNoStaleness(dropped, swept, i, checked);
      }
    }
    forall v | Joined(swept, v) && !swept.versions[v].rawDeleted
      ensures !RawStale(swept, v, swept.now)
    {
      ClearedSameRawStale(cleared, swept, v, swept.now);
    }
  }

  ghost predicate CurrentRow(s: Store, i: Id) {
    i in s.indexes && Joined(s, s.indexes[i].version) && CurrentIndex(s, i)
  }

  /** The newest version of an original that was not deleted. */
  ghost predicate LiveLatest(s: Store, v: Id) {
    Joined(s, v) && !s.originals[s.versions[v].original].deleted && Latest(s, v)
  }

  lemma StaleAtAnyTimeIsNotCurrent(s: Store, i: Id, at: nat)
    requires CurrentRow(s, i)
    ensures !IndexStale(s, i, at)
  {
    StaleIsNotCurrentAt(s.(now := at), i);
  }

  lemma StaleIsNotCurrentAt(s: Store, i: Id)
    requires CurrentRow(s, i)
    ensures !IndexStale(s, i, s.now)
  {
    if IndexStale(s, i, s.now) {
      StaleIsNotCurrent(s, i);
    }
  }

  lemma UnsupportedStays(s: Store, t: Store, id: Id, tidied: bool)
    requires Unsupported(s, id) && Kept(s, t) && (tidied ==> Tidy(t))
    ensures forall i :: i in t.indexes && t.indexes[i].original == id ==> !CurrentRow(t, i) && !tidied
  {
    hide CurrentRow, LiveLatest;
    forall i | i in t.indexes && t.indexes[i].original == id ensures !CurrentRow(t, i) && !tidied {
      assert Joined(s, s.indexes[i].version) && !Supported(s, i);
      assert Joined(t, t.indexes[i].version) && !Supported(t, i);
      if CurrentRow(t, i) { CurrentIsSupported(t, i); }
    }
  }

  /** The tables of other originals are untouched. */
  ghost predicate OnlyTouches(s: Store, t: Store, id: Id) {
    && t.indexes == s.indexes && t.originals.Keys == s.originals.Keys && t.versions.Keys == s.versions.Keys
    && (forall o :: o in s.originals && o != id ==> t.originals[o] == s.originals[o])
    && (forall v :: v in s.versions ==>
         t.versions[v].original == s.versions[v].original && t.versions[v].number == s.versions[v].number)
    && (forall v :: v in s.versions && s.versions[v].original != id ==> t.versions[v] == s.versions[v])
  }

  lemma OthersStayCurrent(s: Store, t: Store, id: Id)
    requires Valid(s) && OnlyTouches(s, t, id)
    ensures forall i :: CurrentRow(s, i) && s.indexes[i].original != id ==> CurrentRow(t, i)
  {
    hide RawKept, VersionValid, JobValid, Rebuilt;
    forall i | CurrentRow(s, i) && s.indexes[i].original != id ensures CurrentRow(t, i) {
      assert IndexValid(s, i);
      var v := s.indexes[i].version;
      assert forall w :: w in s.versions ==> Newer(t, w, v) == Newer(s, w, v);
    }
  }
}
