/** Versions over time: how they are numbered, how long overtaken ones are kept, and that nothing else is left over. */
module FileHistory {
  import opened Results
  import opened FileLifecycle
  import opened FileLifecycleSafety
  import opened FileCurrency

  /** A newer version of the same original that is at least a day old. */
  ghost predicate OvertakenADayAgo(s: Store, v: Id)
    requires v in s.versions
  {
    exists w :: w in s.versions && s.versions[w].original == s.versions[v].original
                && s.versions[v].number < s.versions[w].number && s.versions[w].createdAt + 86_400_000 <= s.now
  }

  /** The last extraction, if there was one, is less than a day old. */
  predicate JustExtracted(s: Store, v: Id)
    requires v in s.versions
  {
    var runs := s.versions[v].runs;
    runs != [] && s.now < runs[|runs| - 1].completedAt + 86_400_000
  }

  /** The last extraction of the version succeeded with the text the index was made of. */
  predicate Supports(version: Version, index: Index) {
    version.runs != [] && version.runs[|version.runs| - 1].extracted
    && version.extraction.Some? && version.extraction.value == index.digest.extraction
  }

  /** The scope of the original lets the index be used. */
  predicate InScope(original: Original, version: Version, index: Index) {
    !original.deleted && !original.excluded && version.active && index.scopeRevision == original.scopeRevision
  }

  /* ---- a version that was extracted and not cleared has its text ---- */

  predicate HasText(s: Store, v: Id)
    requires v in s.versions && s.versions[v].original in s.originals
  {
    s.originals[s.versions[v].original].deleted || s.versions[v].rawDeleted
    || (s.versions[v].runs != [] && (Extracted(s.versions[v]) ==> s.versions[v].extraction.Some?))
  }

  ghost predicate AllHaveText(s: Store) {
    forall v :: v in s.versions ==> Joined(s, v) && HasText(s, v)
  }

  lemma TextStays(s: Store, e: Event)
    requires Valid(s) && AllHaveText(s) && Enabled(s, e)
    ensures AllHaveText(Effect(s, e))
  {
    hide Valid, Latest, CurrentFile, RawStale, IndexStale, Eligible, JobChunks, NextNumber;
    if !Rewrites(e) { OthersLeaveTables(s, e); }
  }

  lemma {:induction false} TextIsThere(events: seq<Event>)
    ensures AllHaveText(RunFrom(EMPTY_STORE, events))
  {
    hide Valid, Enabled, Effect, AllHaveText;
    if events == [] {
      EmptyHasText();
    } else {
      var n := |events| - 1;
      var s := RunFrom(EMPTY_STORE, events[..n]);
      TextIsThere(events[..n]);
      ReachableValid(events[..n]);
      if Enabled(s, events[n]) { TextStays(s, events[n]); }
    }
  }

  lemma EmptyHasText()
    ensures AllHaveText(EMPTY_STORE)
  {
  }

  /* ---- numbers ---- */

  /** A version is the first of its original, or the version with the number before is there. */
  ghost predicate Follows(s: Store, v: Id)
    requires v in s.versions
  {
    s.versions[v].number == 1
    || exists w :: w in s.versions && s.versions[w].original == s.versions[v].original
                   && s.versions[w].number == s.versions[v].number - 1
  }

  /** The versions of every original are numbered from 1 without a gap or a repetition, whatever is cleaned up. */
  lemma {:induction false} NumbersHaveNoGaps(events: seq<Event>)
    ensures var s := RunFrom(EMPTY_STORE, events);
      && (forall v :: v in s.versions ==> s.versions[v].number >= 1 && Follows(s, v))
      && forall v, w :: v in s.versions && w in s.versions && v != w && s.versions[v].original == s.versions[w].original
                        ==> s.versions[v].number != s.versions[w].number
  {
    hide Valid, Enabled, Effect, Follows;
    ReachableValid(events);
    NumbersDiffer(RunFrom(EMPTY_STORE, events));
    if events != [] {
      var n := |events| - 1;
      var s, e := RunFrom(EMPTY_STORE, events[..n]), events[n];
      NumbersHaveNoGaps(events[..n]);
      ReachableValid(events[..n]);
      if Enabled(s, e) {
        EffectAdvances(s, e);
        forall v | v in Effect(s, e).versions
          ensures Effect(s, e).versions[v].number >= 1 && Follows(Effect(s, e), v)
        {
          if v in s.versions { FollowsStill(s, Effect(s, e), v); } else { NewFollows(s, e, v); }
        }
      }
    }
  }

  lemma NumbersDiffer(s: Store)
    requires Valid(s)
    ensures forall v, w :: v in s.versions && w in s.versions && v != w
                           && s.versions[v].original == s.versions[w].original
                           ==> s.versions[v].number != s.versions[w].number
  {
    hide RawKept, IndexValid, JobValid;
    forall v | v in s.versions ensures VersionValid(s, v) {}
  }

  lemma FollowsStill(s: Store, t: Store, v: Id)
    requires Advances(s, t) && v in s.versions && s.versions[v].number >= 1 && Follows(s, v)
    ensures v in t.versions && t.versions[v].number >= 1 && Follows(t, v)
  {
    if s.versions[v].number != 1 {
      var w :| w in s.versions && s.versions[w].original == s.versions[v].original
        && s.versions[w].number == s.versions[v].number - 1;
      assert VersionAdvances(s.versions[w], t.versions[w]);
    }
    assert VersionAdvances(s.versions[v], t.versions[v]);
  }

  lemma NewFollows(s: Store, e: Event, v: Id)
    requires Valid(s) && Enabled(s, e) && v in Effect(s, e).versions && v !in s.versions
    requires forall w :: w in s.versions ==> s.versions[w].number >= 1
    ensures Effect(s, e).versions[v].number >= 1 && Follows(Effect(s, e), v)
  {
    hide Valid, Latest, CurrentFile, RawStale, IndexStale, Eligible, JobChunks;
    if !Rewrites(e) { OthersLeaveTables(s, e); }
    assert e.CommitUpload? && v == s.intake.value;
    if e.number != 1 {
      var w :| w in s.versions && s.versions[w].original == e.original && s.versions[w].number == e.number - 1;
      assert Effect(s, e).versions[w] == s.versions[w];
    }
  }

  /* ---- what cleanup takes ---- */

  lemma ReplacedMeans(s: Store, v: Id)
    requires v in s.versions
    ensures Replaced(s, v, s.now) <==> OvertakenADayAgo(s, v)
  {
    if Replaced(s, v, s.now) {
      var w :| w in s.versions && Newer(s, w, v) && s.versions[w].createdAt + DAY_MS <= s.now;
      assert w in s.versions && s.versions[v].number < s.versions[w].number;
    }
    if OvertakenADayAgo(s, v) {
      var w :| w in s.versions && s.versions[w].original == s.versions[v].original
        && s.versions[v].number < s.versions[w].number && s.versions[w].createdAt + 86_400_000 <= s.now;
      assert Newer(s, w, v);
    }
  }

  /**
   * In every reachable state cleanup deletes an index of the present configuration exactly when its scope is gone, when
   * its version was overtaken a day ago, or when an extraction that does not support it is a day old.
   */
  lemma DropsOldAndDead(events: seq<Event>, i: Id)
    requires i in RunFrom(EMPTY_STORE, events).indexes
    ensures var s := RunFrom(EMPTY_STORE, events); var v := s.indexes[i].version;
      && Joined(s, v)
      && (IndexStale(s, i, s.now) <==>
            || !InScope(s.originals[s.versions[v].original], s.versions[v], s.indexes[i])
            || OvertakenADayAgo(s, v)
            || (!JustExtracted(s, v) && !Supports(s.versions[v], s.indexes[i])))
  {
    var s := RunFrom(EMPTY_STORE, events);
    var v := s.indexes[i].version;
    ReachableValid(events);
    TextIsThere(events);
    assert IndexValid(s, i) && RawKept(s, v) && HasText(s, v);
    ReplacedMeans(s, v);
    hide Valid, RunFrom, AllHaveText, Replaced, OvertakenADayAgo, Rebuilt;
  }

  /**
   * Nothing else is left over: an index that cleanup keeps and that is not current was overtaken by a newer version or
   * by an extraction less than a day ago, and so is gone at the first cleanup after that day.
   */
  lemma LeftoversAreYoung(events: seq<Event>, i: Id)
    requires var s := RunFrom(EMPTY_STORE, events);
      && i in s.indexes && s.indexes[i].configuration.V2?
      && (Joined(s, s.indexes[i].version) ==> !IndexStale(s, i, s.now))
    ensures var s := RunFrom(EMPTY_STORE, events); var v := s.indexes[i].version;
      && Joined(s, v) &&
      (|| CurrentIndex(s, i) || JustExtracted(s, v)
      || exists w :: w in s.versions && s.versions[w].original == s.versions[v].original
                     && s.versions[v].number < s.versions[w].number && s.now < s.versions[w].createdAt + 86_400_000)
  {
    var s := RunFrom(EMPTY_STORE, events);
    var v := s.indexes[i].version;
    ReachableValid(events);
    assert IndexValid(s, i);
    if Latest(s, v) {
      LatestBytesAreStored(s, v);
      DropsOldAndDead(events, i);
      hide Valid, RunFrom, OvertakenADayAgo, IndexStale, Latest;
    } else {
      var w :| w in s.versions && Newer(s, w, v);
      assert !Replaced(s, v, s.now);
    }
  }

  /** Raw bytes go exactly with their original or a day after a newer version came; until then they are stored. */
  lemma BytesAreKeptADay(events: seq<Event>, v: Id)
    requires v in RunFrom(EMPTY_STORE, events).versions
    ensures var s := RunFrom(EMPTY_STORE, events);
      && Joined(s, v)
      && (RawStale(s, v, s.now) <==> s.originals[s.versions[v].original].deleted || OvertakenADayAgo(s, v))
      && (!s.originals[s.versions[v].original].deleted && !OvertakenADayAgo(s, v) ==>
            v in s.blobs && !s.versions[v].rawDeleted)
  {
    var s := RunFrom(EMPTY_STORE, events);
    ReachableValid(events);
    assert VersionValid(s, v) && RawKept(s, v);
    ReplacedMeans(s, v);
    hide Valid, RunFrom, Replaced, OvertakenADayAgo;
  }
}
