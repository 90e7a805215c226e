/** The pending-input store stays in step with the rows of the queue, with crashes at any point. */
module PendingInputs {
  import opened RunQueue
  import opened RunQueueSafety

  /** A row that still needs its bytes has them. */
  ghost predicate InputKept(q: Queue, id: Id)
    requires id in q.runs
  {
    q.runs[id].inputKey.Some? && !Discardable(q, q.runs[id]) ==> q.runs[id].inputKey.value in q.pending
  }

  /** A row copied by cleanup is an earlier state of the row, and its key is no other row's. */
  ghost predicate ScanValid(q: Queue, id: Id)
    requires id in q.scans
  {
    && id in q.runs && Evolves(q.scans[id], q.runs[id]) && Timed(q.scans[id])
    && (forall other :: other in q.runs && other != id && q.scans[id].inputKey.Some?
                        ==> q.runs[other].inputKey != q.scans[id].inputKey)
  }

  ghost predicate Stocked(q: Queue) {
    && (forall id :: id in q.runs ==> InputKept(q, id))
    && (forall id :: id in q.scans ==> ScanValid(q, id))
    && (q.staged.Some? ==> q.staged.value in q.pending && q.scans == map[])
  }

  /* ---- discard conditions are permanent ---- */

  lemma EvolvesIsTransitive(r: FileRun, s: FileRun, t: FileRun)
    requires Evolves(r, s) && Evolves(s, t)
    ensures Evolves(r, t)
  {
  }

  lemma EvolvedTarget(r: FileRun, t: FileRun)
    requires Evolves(r, t) && TargetOf(r).Some?
    ensures TargetOf(t) == TargetOf(r)
  {
  }

  /** Once cleanup may give up an input it always may, whether it looks at the row now or at an older copy. */
  lemma DiscardableForever(q: Queue, t: Queue, id: Id, seen: FileRun)
    requires Valid(q) && Valid(t) && Advances(q, t) && id in q.runs && id in t.runs
    requires Timed(seen) && Evolves(seen, t.runs[id]) && Discardable(q, seen)
    requires TargetOf(seen).Some? ==> TargetOf(seen).value in q.sources
    ensures Discardable(t, t.runs[id])
  {
    hide Valid, RowValid, PairsValid;
    var r := t.runs[id];
    if TargetOf(seen).Some? {
      EvolvedTarget(seen, r);
    }
    if Answered(q, seen) {
      var w :| w in q.runs && q.runs[w].targetKey == seen.targetKey && q.runs[w].status.Succeeded?;
      assert Moves(q.runs[w], t.runs[w], t);
      assert w in t.runs && t.runs[w].targetKey == r.targetKey && t.runs[w].status.Succeeded?;
    }
  }

  lemma SameAdvances(q: Queue)
    ensures Advances(q, q)
  {
    forall id | id in q.runs
      ensures Moves(q.runs[id], q.runs[id], q)
    {
      SameMoves(q.runs[id], q);
    }
  }

  lemma SeenTargetKnown(q: Queue, id: Id, seen: FileRun)
    requires id in q.runs && RowValid(q, id) && Evolves(seen, q.runs[id])
    ensures TargetOf(seen).Some? ==> TargetOf(seen).value in q.sources
  {
    if TargetOf(seen).Some? {
      EvolvedTarget(seen, q.runs[id]);
    }
  }

  /* ---- conservation ---- */

  /** The keys an event removes from the pending store. */
  function RemovedKeys(q: Queue, e: Event): set<Id> {
    match e
    case ReleaseInput => if q.staged.Some? then {q.staged.value} else {}
    case DiscardInput(id) => if id in q.scans && q.scans[id].inputKey.Some? then {q.scans[id].inputKey.value} else {}
    case SweepKey(key) => {key}
    case _ => {}
  }

  lemma PendingOfEvent(q: Queue, e: Event)
    requires Enabled(q, e)
    ensures q.pending - RemovedKeys(q, e) <= Effect(q, e).pending
    ensures (e.ReleaseInput? || e.SweepKey?) ==> forall k :: k in q.pending && Referenced(q, k) ==>
              k in Effect(q, e).pending
  {
    hide Reserves, FromUser, FromRetry, Discardable, InterruptAll, Completed, Forgotten, Finished;
  }

  /** A removed key belongs to no row that still needs it. */
  lemma RemovalIsSafe(q: Queue, e: Event, id: Id)
    requires Valid(q) && Stocked(q) && Enabled(q, e) && id in q.runs
    requires q.runs[id].inputKey.Some? && !Discardable(q, q.runs[id])
    ensures q.runs[id].inputKey.value in Effect(q, e).pending
  {
    PendingOfEvent(q, e);
    assert InputKept(q, id);
    var key := q.runs[id].inputKey.value;
    assert Referenced(q, key);
    if e.DiscardInput? {
      DiscardedIsDiscardable(q, e.id);
      assert ScanValid(q, e.id);
      assert key !in RemovedKeys(q, e);
    }
  }

  lemma DiscardedIsDiscardable(q: Queue, id: Id)
    requires Valid(q) && Stocked(q) && id in q.scans && Discardable(q, q.scans[id])
    ensures id in q.runs && Discardable(q, q.runs[id])
  {
    hide Discardable, PairsValid, InputKept;
    assert ScanValid(q, id) && RowValid(q, id);
    SameAdvances(q);
    SeenTargetKnown(q, id, q.scans[id]);
    DiscardableForever(q, q, id, q.scans[id]);
  }

  lemma EffectIsValid(q: Queue, e: Event)
    requires Valid(q) && Enabled(q, e)
    ensures Valid(Effect(q, e))
  {
    hide Valid, Enabled, Effect;
    ApplyKeepsValid(q, e);
  }

  predicate Needed(q: Queue, id: Id)
    requires id in q.runs
  {
    q.runs[id].inputKey.Some? && !Discardable(q, q.runs[id])
  }

  lemma UnneededIsKept(q: Queue, id: Id)
    requires id in q.runs && !Needed(q, id)
    ensures InputKept(q, id)
  {
    hide Discardable;
  }

  lemma InputsStayKept(q: Queue, e: Event, id: Id)
    requires Valid(q) && Stocked(q) && Enabled(q, e) && id in Effect(q, e).runs
    ensures InputKept(Effect(q, e), id)
  {
    hide Discardable, Enabled, Effect, Valid, Stocked, InputKept;
    var t := Effect(q, e);
    if id !in q.runs {
      NewRowsAreCreated(q, e);
      CreatedInputIsStaged(q, e);
    } else if Needed(t, id) {
      NeededInputStays(q, e, id);
    } else {
      UnneededIsKept(t, id);
    }
  }

  lemma NeededInputStays(q: Queue, e: Event, id: Id)
    requires Valid(q) && Stocked(q) && Enabled(q, e) && id in q.runs && id in Effect(q, e).runs
    requires Needed(Effect(q, e), id)
    ensures InputKept(Effect(q, e), id)
  {
    hide Discardable, Enabled, Effect, PairsValid, Stocked;
    var t := Effect(q, e);
    EffectAdvances(q, e);
    EffectIsValid(q, e);
    assert Moves(q.runs[id], t.runs[id], t) && RowValid(q, id);
    StillNeeded(q, t, id);
    RemovalIsSafe(q, e, id);
  }

  lemma StillNeeded(q: Queue, t: Queue, id: Id)
    requires Valid(q) && Valid(t) && Advances(q, t) && id in q.runs && id in t.runs
    requires !Discardable(t, t.runs[id])
    ensures !Discardable(q, q.runs[id])
  {
    hide Discardable, PairsValid;
    assert Moves(q.runs[id], t.runs[id], t) && RowValid(q, id);
    if Discardable(q, q.runs[id]) {
      DiscardableForever(q, t, id, q.runs[id]);
    }
  }

  lemma CreatedInputIsStaged(q: Queue, e: Event)
    requires Stocked(q) && Enabled(q, e) && e.Reserve? && e.outcome.Created?
    ensures InputKept(Effect(q, e), e.id)
  {
    hide Discardable, FromUser, FromRetry, InputKept, ScanValid;
    ReservedFacts(q, e.request, e.fingerprint, e.input, e.inputKey, e.outcome);
    hide Reserves;
    var t := Effect(q, e);
    assert t.runs[e.id].inputKey == q.staged && t.pending == q.pending;
    Kept(t, e.id);
  }

  lemma Kept(q: Queue, id: Id)
    requires id in q.runs && (q.runs[id].inputKey.Some? ==> q.runs[id].inputKey.value in q.pending)
    ensures InputKept(q, id)
  {
    hide Discardable;
  }

  lemma ScansOfEvent(q: Queue, e: Event, id: Id)
    requires Enabled(q, e) && id in Effect(q, e).scans
    ensures var t := Effect(q, e);
            (id in q.scans && t.scans[id] == q.scans[id]) || (id in q.runs && t == Copied(q, id))
  {
    hide Reserves, FromUser, FromRetry, Discardable, Referenced, InterruptAll, Completed, Forgotten, Finished;
  }

  lemma ScansStayValid(q: Queue, e: Event, id: Id)
    requires Valid(q) && Stocked(q) && Enabled(q, e) && id in Effect(q, e).scans
    ensures ScanValid(Effect(q, e), id)
  {
    var t := Effect(q, e);
    EffectAdvances(q, e);
    NewRowsAreCreated(q, e);
    NewInputsMeanNoScan(q, e);
    ScansOfEvent(q, e, id);
    assert id in q.scans ==> ScanValid(q, id);
    hide Stocked, Enabled, Effect, Valid, ScanValid, Advances;
    if id in q.scans && t.scans[id] == q.scans[id] {
      KeptScanStaysValid(q, t, id, if e.Reserve? then e.id else 0);
    } else {
      RowScanned(q, id);
    }
  }

  lemma NewInputsMeanNoScan(q: Queue, e: Event)
    requires Stocked(q) && Enabled(q, e)
    ensures e.Reserve? && e.outcome.Created? && q.scans != map[] ==>
              e.outcome.row.inputKey.None? && Effect(q, e).runs[e.id] == e.outcome.row
  {
    hide InputKept, ScanValid, FromUser, FromRetry, Discardable;
    if e.Reserve? && e.outcome.Created? {
      ReservedFacts(q, e.request, e.fingerprint, e.input, e.inputKey, e.outcome);
    }
  }

  lemma KeptScanStaysValid(q: Queue, t: Queue, id: Id, added: Id)
    requires Advances(q, t) && id in q.scans && id in t.scans && t.scans[id] == q.scans[id] && ScanValid(q, id)
    requires forall other :: other in t.runs && other !in q.runs ==> other == added && t.runs[other].inputKey.None?
    ensures ScanValid(t, id)
  {
    assert Moves(q.runs[id], t.runs[id], t);
    EvolvesIsTransitive(q.scans[id], q.runs[id], t.runs[id]);
    forall other | other in t.runs && other != id && t.scans[id].inputKey.Some?
      ensures t.runs[other].inputKey != t.scans[id].inputKey
    {
      if other in q.runs { assert Moves(q.runs[other], t.runs[other], t); }
    }
  }

  lemma RowScanned(q: Queue, id: Id)
    requires Valid(q) && id in q.runs
    ensures ScanValid(Copied(q, id), id)
  {
    hide Evolves;
    assert RowValid(q, id);
    SameMoves(q.runs[id], q);
    forall other | other in q.runs && other != id
      ensures PairValid(q.runs[id], q.runs[other])
    {
    }
  }

  /** The queue after a row was copied. */
  function Copied(q: Queue, id: Id): Queue
    requires id in q.runs
  {
    q.(scans := q.scans[id := q.runs[id]])
  }

  lemma StagedStaysPending(q: Queue, e: Event)
    requires Stocked(q) && Enabled(q, e)
    ensures var t := Effect(q, e); t.staged.Some? ==> t.staged.value in t.pending && t.scans == map[]
  {
    hide InputKept, ScanValid, Reserves, FromUser, FromRetry, InterruptAll, Completed, Forgotten, Finished;
  }

  lemma EffectKeepsStocked(q: Queue, e: Event)
    requires Valid(q) && Stocked(q) && Enabled(q, e)
    ensures Stocked(Effect(q, e))
  {
    hide Valid, Enabled, Effect, InputKept, ScanValid;
    forall id | id in Effect(q, e).runs ensures InputKept(Effect(q, e), id) { InputsStayKept(q, e, id); }
    forall id | id in Effect(q, e).scans ensures ScanValid(Effect(q, e), id) { ScansStayValid(q, e, id); }
    StagedStaysPending(q, e);
  }

  /** Every event keeps every needed input. */
  lemma ApplyKeepsStocked(q: Queue, e: Event)
    requires Valid(q) && Stocked(q)
    ensures Stocked(Apply(q, e))
  {
    hide Valid, Enabled, Effect, Stocked;
    if Enabled(q, e) { EffectKeepsStocked(q, e); }
  }

  /** In every reachable state a run with an input key that meets no discard condition has its blob. */
  lemma {:induction false} NeededInputsExist(events: seq<Event>)
    ensures var q := RunFrom(EMPTY_QUEUE, events);
            && Stocked(q)
            && forall id :: id in q.runs && q.runs[id].inputKey.Some? && !Discardable(q, q.runs[id])
                            ==> q.runs[id].inputKey.value in q.pending
  {
    hide Discardable, ScanValid, Valid;
    if events != [] {
      var n := |events| - 1;
      NeededInputsExist(events[..n]);
      ReachableValid(events[..n]);
      ApplyKeepsStocked(RunFrom(EMPTY_QUEUE, events[..n]), events[n]);
    }
    var q := RunFrom(EMPTY_QUEUE, events);
    forall id | id in q.runs && q.runs[id].inputKey.Some? && !Discardable(q, q.runs[id])
      ensures q.runs[id].inputKey.value in q.pending
    {
      assert InputKept(q, id);
    }
  }
}
