/** Cleanup never takes the bytes of an upload that is still to be processed or could still be retried. */
module RetryInputs {
  import opened Results
  import opened RunQueue
  import opened RunQueueSafety
  import opened PendingInputs
  import opened RunOutcomes

  predicate Uploads(r: FileRun) {
    r.operation.Register? || r.operation.Replacing?
  }

  predicate Present(q: Queue, original: Option<Id>) {
    original.Some? ==> original.value in q.sources && !q.sources[original.value].deleted
  }

  /** A run without a stored version, over a file that is there, finished less than 90 days ago if at all. */
  predicate Open(q: Queue, r: FileRun) {
    && r.resultVersion.None? && r.error != Some(SensitiveFile) && Present(q, r.target)
    && (r.completedAt.Some? ==> q.now < r.completedAt.value + 7_776_000_000)
  }

  /** Some run of the upload's family has succeeded. */
  ghost predicate FamilyDone(q: Queue, r: FileRun) {
    r.operation.Register?
    && exists w :: w in q.runs && q.runs[w].targetKey == r.targetKey && q.runs[w].status.Succeeded?
  }

  /** Cleanup gives up exactly the inputs of runs that are no longer open or whose family is done. */
  lemma DiscardsWhatIsClosed(q: Queue, id: Id)
    requires Valid(q) && id in q.runs
    ensures Discardable(q, q.runs[id]) <==> !Open(q, q.runs[id]) || FamilyDone(q, q.runs[id])
  {
    if FamilyDone(q, q.runs[id]) { DoneIsFinal(q, id); }
    assert RowValid(q, id);
    hide Valid, Discardable, FamilyDone;
    DiscardsRow(q, q.runs[id]);
  }

  lemma DiscardsRow(q: Queue, r: FileRun)
    requires Timed(r) && (FamilyDone(q, r) ==> !Active(r))
    ensures Discardable(q, r) <==> !Open(q, r) || FamilyDone(q, r)
  {
    hide Active;
  }

  lemma DoneIsFinal(q: Queue, id: Id)
    requires Valid(q) && id in q.runs && FamilyDone(q, q.runs[id])
    ensures !Active(q.runs[id])
  {
    var r := q.runs[id];
    var w :| w in q.runs && q.runs[w].targetKey == r.targetKey && q.runs[w].status.Succeeded?;
    assert RowValid(q, id) && (w == id || PairValid(q.runs[w], r));
  }

  /* ---- an upload loses its bytes only when it is done with ---- */

  ghost predicate SpentOnly(q: Queue, id: Id)
    requires id in q.runs
  {
    Uploads(q.runs[id]) && q.runs[id].inputKey.None? ==> Discardable(q, q.runs[id])
  }

  lemma LosesKeyOnlyByForgetting(q: Queue, e: Event, id: Id)
    requires Enabled(q, e) && id in q.runs && q.runs[id].inputKey.Some?
    requires id in Effect(q, e).runs && Effect(q, e).runs[id].inputKey.None?
    ensures id in q.scans && Discardable(q, q.scans[id])
  {
    hide Reserves, FromUser, FromRetry, Discardable, Referenced, Removed, ActiveRuns, RunsIn;
  }

  lemma StepSpends(q: Queue, e: Event, id: Id)
    requires Valid(q) && Stocked(q) && Enabled(q, e) && id in Effect(q, e).runs
    requires id in q.runs ==> SpentOnly(q, id)
    ensures SpentOnly(Effect(q, e), id)
  {
    hide Discardable, Enabled, Effect, Valid, Stocked;
    var t := Effect(q, e);
    EffectIsValid(q, e);
    if id !in q.runs {
      NewRowsAreCreated(q, e);
      CreatedIsQueued(q, e);
      if Uploads(t.runs[id]) { UploadsHaveBytes(q, e); }
    } else if t.runs[id].inputKey.None? && Uploads(t.runs[id]) {
      EffectAdvances(q, e);
      assert Moves(q.runs[id], t.runs[id], t);
      if q.runs[id].inputKey.Some? {
        LosesKeyOnlyByForgetting(q, e, id);
        DiscardedIsDiscardable(q, id);
      }
      StillDiscardable(q, t, id);
    }
  }

  lemma CreatedIsQueued(q: Queue, e: Event)
    requires Valid(q) && e.Reserve? && Enabled(q, e) && e.outcome.Created?
    ensures Effect(q, e).runs == q.runs[e.id := e.outcome.row]
  {
    hide Valid, Reserves, FromUser, FromRetry;
  }

  lemma StillDiscardable(q: Queue, t: Queue, id: Id)
    requires Valid(q) && Valid(t) && Advances(q, t) && id in q.runs && id in t.runs
    requires Discardable(q, q.runs[id])
    ensures Discardable(t, t.runs[id])
  {
    hide Discardable, PairsValid;
    assert Moves(q.runs[id], t.runs[id], t) && RowValid(q, id);
    DiscardableForever(q, t, id, q.runs[id]);
  }

  lemma {:induction false} BytesGoLast(events: seq<Event>)
    ensures var q := RunFrom(EMPTY_QUEUE, events);
      Valid(q) && Stocked(q) && forall id :: id in q.runs ==> SpentOnly(q, id)
  {
    hide SpentOnly, Stocked, Valid, Enabled, Effect;
    ReachableValid(events);
    NeededInputsExist(events);
    if events != [] {
      var n := |events| - 1;
      var q, e := RunFrom(EMPTY_QUEUE, events[..n]), events[n];
      BytesGoLast(events[..n]);
      if Enabled(q, e) {
        forall id | id in Effect(q, e).runs ensures SpentOnly(Effect(q, e), id) { StepSpends(q, e, id); }
      }
    }
  }

  /**
   * In every reachable state an upload that is open, and whose family is not done, has its bytes: a queued or running
   * one can be processed, a failed or interrupted one retried.
   */
  lemma OpenUploadsHaveBytes(events: seq<Event>, id: Id)
    requires var q := RunFrom(EMPTY_QUEUE, events);
      id in q.runs && Uploads(q.runs[id]) && Open(q, q.runs[id]) && !FamilyDone(q, q.runs[id])
    ensures var q := RunFrom(EMPTY_QUEUE, events); q.runs[id].inputKey.Some? && q.runs[id].inputKey.value in q.pending
  {
    hide Discardable, Valid, Open, FamilyDone;
    BytesGoLast(events);
    DiscardsWhatIsClosed(RunFrom(EMPTY_QUEUE, events), id);
    assert SpentOnly(RunFrom(EMPTY_QUEUE, events), id) && InputKept(RunFrom(EMPTY_QUEUE, events), id);
  }

  /**
   * A retry of an upload that is not turned away by the lookups, neither as not found nor with a recovered run, always
   * finds the bytes of its parent: that the input is unavailable is never the reason of a refusal.
   */
  lemma RetriesFindTheirBytes(events: seq<Event>, id: Id)
    requires var q := RunFrom(EMPTY_QUEUE, events);
      && id in q.runs && Uploads(q.runs[id]) && (q.runs[id].status.Failed? || q.runs[id].status.Interrupted?)
      && q.runs[id].error != Some(SensitiveFile) && Retained(q.runs[id], q.now) && q.runs[id].resultVersion.None?
      && Present(q, q.runs[id].target) && !AnyRecovers(q, RetryInput(id, q.runs[id]))
    ensures var q := RunFrom(EMPTY_QUEUE, events); q.runs[id].inputKey.Some? && q.runs[id].inputKey.value in q.pending
  {
    var q := RunFrom(EMPTY_QUEUE, events);
    ReachableValid(events);
    if FamilyDone(q, q.runs[id]) { DoneRecovers(q, id); }
    hide Valid, FamilyDone, RetryInput;
    OpenUploadsHaveBytes(events, id);
  }

  /** A success of the family is never older than the failure, so it is retained as long. */
  lemma DoneRecovers(q: Queue, id: Id)
    requires Valid(q) && id in q.runs && Retained(q.runs[id], q.now) && q.runs[id].resultVersion.None?
    requires !q.runs[id].status.Succeeded? && FamilyDone(q, q.runs[id])
    ensures AnyRecovers(q, RetryInput(id, q.runs[id]))
  {
    var r := q.runs[id];
    assert RowValid(q, id);
    var w :| w in q.runs && q.runs[w].targetKey == r.targetKey && q.runs[w].status.Succeeded?;
    assert PairValid(q.runs[w], r);
    assert Recovers(q, RetryInput(id, r), w);
  }
}
