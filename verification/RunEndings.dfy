/** How runs start and end: in which order, with which error, and under which revision of their file. */
module RunEndings {
  import opened Results
  import opened RunQueue
  import opened RunQueueSafety
  import opened PendingInputs

  /** Only a claim starts a run: the oldest queued one, by creation time and then id, while no other run is running. */
  lemma StartsInOrder(q: Queue, e: Event, id: Id)
    requires Enabled(q, e) && id in q.runs && id in Effect(q, e).runs
    requires !q.runs[id].status.Running? && Effect(q, e).runs[id].status.Running?
    ensures q.up && !q.closing && q.active.None? && q.runs[id].status.Queued?
    ensures Effect(q, e).runs == q.runs[id := q.runs[id].(status := Running, startedAt := Some(q.now))]
    ensures Effect(q, e).active == Some(id)
    ensures forall other :: other in q.runs && other != id ==>
              && !q.runs[other].status.Running?
              && (q.runs[other].status.Queued? ==>
                    || q.runs[id].createdAt < q.runs[other].createdAt
                    || (q.runs[id].createdAt == q.runs[other].createdAt && id < other))
  {
    hide Reserves, FromUser, FromRetry, Discardable, Referenced, Removed, SourceAdvances;
  }

  /** How an event ends a run. */
  ghost predicate EndsBy(e: Event, id: Id, r: FileRun, t: FileRun) {
    match e
    case Stop(stopped) => id == stopped && t.status.Interrupted? && t.error == Some(UserStopped)
    case Complete(run, original, version, extracted, source) =>
      && id == run && r.status.Running? && t.resultOriginal == Some(original) && t.resultVersion == Some(version)
      && t.scopeRevision == Some(source.scopeRevision)
      && if extracted then t.status.Succeeded? && t.error.None?
         else t.status.Failed? && t.error == Some(Other("extraction_failed"))
    case FailRun(run, code) =>
      && id == run && r.status.Running? && t.error == Some(code) && (t.status.Interrupted? || t.status.Failed?)
      && (t.status.Interrupted? <==> code.SourceUnavailable?)
    case ForgetInput(seen) =>
      id == seen && t.status.Interrupted? && t.error == Some(SourceUnavailable) && t.inputKey.None?
    case InterruptActive => r.status.Running? && t.status.Interrupted? && t.error == Some(ApiStopped)
    case InterruptQueued => r.status.Queued? && t.status.Interrupted? && t.error == Some(ApiStopped)
    case Restart => t.status.Interrupted? && t.error == Some(ApiRestarted)
    case _ => false
  }

  /** A run ends at once, with the status and the error of what ended it; only a completion stores a result. */
  lemma EndsWithItsReason(q: Queue, e: Event, id: Id)
    requires Enabled(q, e) && id in q.runs && id in Effect(q, e).runs
    requires Active(q.runs[id]) && !Active(Effect(q, e).runs[id])
    ensures EndsBy(e, id, q.runs[id], Effect(q, e).runs[id])
    ensures Effect(q, e).runs[id].completedAt == Some(q.now)
    ensures !e.Complete? ==> Effect(q, e).runs[id].resultOriginal == q.runs[id].resultOriginal
                             && Effect(q, e).runs[id].resultVersion == q.runs[id].resultVersion
  {
    hide Reserves, FromUser, FromRetry, Discardable, Referenced, Removed, SourceAdvances;
  }

  /** A claim starts its run; a stop, a failure or a completion ends its run; no other row changes. */
  lemma OneRunMoves(q: Queue, e: Event, id: Id)
    requires Enabled(q, e)
    requires e == Claim(id) || e == Stop(id) || (e.FailRun? && e.id == id) || (e.Complete? && e.id == id)
    ensures id in q.runs && id in Effect(q, e).runs && Effect(q, e).runs == q.runs[id := Effect(q, e).runs[id]]
    ensures e.Claim? ==> Effect(q, e).runs[id] == q.runs[id].(status := Running, startedAt := Some(q.now))
                         && Effect(q, e).active == Some(id)
    ensures !e.Claim? ==> Active(q.runs[id]) && EndsBy(e, id, q.runs[id], Effect(q, e).runs[id])
  {
    hide Reserves, FromUser, FromRetry, Discardable, Referenced, Removed, SourceAdvances;
  }

  /**
   * A run succeeds only while the process is neither closing nor executing another run, and then its file is there and
   * has the revision the run was admitted under.
   */
  lemma SucceedsAsAdmitted(q: Queue, e: Event, id: Id)
    requires Enabled(q, e) && id in q.runs && id in Effect(q, e).runs
    requires !q.runs[id].status.Succeeded? && Effect(q, e).runs[id].status.Succeeded?
    ensures q.up && !q.closing && q.active == Some(id) && q.runs[id].status.Running?
    ensures var t := Effect(q, e);
      && t.runs[id].resultOriginal.Some? && t.runs[id].resultOriginal.value in t.sources
      && var source := t.sources[t.runs[id].resultOriginal.value];
         && !source.deleted && t.runs[id].scopeRevision == Some(source.scopeRevision)
         && (q.runs[id].scopeRevision.Some? ==> t.runs[id].scopeRevision == q.runs[id].scopeRevision)
         && (q.runs[id].target.Some? ==> t.runs[id].resultOriginal == q.runs[id].target)
  {
    hide Reserves, FromUser, FromRetry, Discardable, Referenced, Removed, SourceAdvances;
  }

  /** A shutdown and a restart leave no run behind that would wait for ever. */
  lemma NothingIsLeftWaiting(q: Queue, e: Event)
    requires Enabled(q, e)
    ensures e.Restart? ==> forall id :: id in Effect(q, e).runs ==> !Active(Effect(q, e).runs[id])
    ensures e.InterruptQueued? ==> forall id :: id in Effect(q, e).runs ==> !Effect(q, e).runs[id].status.Queued?
    ensures (e.Restart? || e.InterruptQueued? || e.InterruptActive?) ==>
              forall id :: id in q.runs && !Active(q.runs[id]) ==> Effect(q, e).runs[id] == q.runs[id]
  {
    hide Reserves, FromUser, FromRetry, Discardable, Referenced, Removed, SourceAdvances;
  }

  /* ---- over whole runs ---- */

  predicate Served(r: FileRun) {
    r.status.Running? || r.status.Succeeded?
  }

  predicate Before(r: FileRun, a: Id, s: FileRun, b: Id) {
    r.createdAt < s.createdAt || (r.createdAt == s.createdAt && a < b)
  }

  /** First come, first served: no run is served while an older one of the queue is still waiting. */
  lemma {:induction false} FirstComeFirstServed(q: Queue, later: seq<Event>, a: Id, b: Id)
    requires Valid(q) && a in q.runs && b in q.runs && Before(q.runs[a], a, q.runs[b], b)
    requires q.runs[a].status.Queued? && q.runs[b].status.Queued?
    ensures var t := RunFrom(q, later);
      && Valid(t) && a in t.runs && b in t.runs && Evolves(q.runs[a], t.runs[a]) && Evolves(q.runs[b], t.runs[b])
      && (Served(t.runs[b]) ==> !t.runs[a].status.Queued?)
  {
    hide Valid, Enabled, Effect, Evolves, Before;
    if later == [] {
      SameMoves(q.runs[a], q);
      SameMoves(q.runs[b], q);
    } else {
      var n := |later| - 1;
      var s, e := RunFrom(q, later[..n]), later[n];
      FirstComeFirstServed(q, later[..n], a, b);
      ApplyKeepsValid(s, e);
      if Enabled(s, e) {
        StepServes(q, s, e, a, b);
      }
    }
  }

  lemma StepServes(q: Queue, s: Queue, e: Event, a: Id, b: Id)
    requires a in q.runs && b in q.runs && Before(q.runs[a], a, q.runs[b], b)
    requires Valid(s) && Enabled(s, e) && a in s.runs && b in s.runs
    requires Evolves(q.runs[a], s.runs[a]) && Evolves(q.runs[b], s.runs[b])
    requires Served(s.runs[b]) ==> !s.runs[a].status.Queued?
    ensures var t := Effect(s, e);
      && a in t.runs && b in t.runs && Evolves(q.runs[a], t.runs[a]) && Evolves(q.runs[b], t.runs[b])
      && (Served(t.runs[b]) ==> !t.runs[a].status.Queued?)
  {
    hide Valid, Enabled, Effect, Evolves;
    RowEvolves(s, e, a);
    RowEvolves(s, e, b);
    EvolvesIsTransitive(q.runs[a], s.runs[a], Effect(s, e).runs[a]);
    EvolvesIsTransitive(q.runs[b], s.runs[b], Effect(s, e).runs[b]);
    KeepsItsPlace(q.runs[a], s.runs[a]);
    KeepsItsPlace(q.runs[b], s.runs[b]);
    KeepsItsPlace(s.runs[a], Effect(s, e).runs[a]);
    if Served(Effect(s, e).runs[b]) && !Served(s.runs[b]) {
      if Effect(s, e).runs[b].status.Running? { StartsInOrder(s, e, b); } else { SucceedsAsAdmitted(s, e, b); }
    }
  }

  lemma RowEvolves(s: Queue, e: Event, id: Id)
    requires Valid(s) && Enabled(s, e) && id in s.runs
    ensures id in Effect(s, e).runs && Evolves(s.runs[id], Effect(s, e).runs[id])
  {
    EffectAdvances(s, e);
    hide Valid, Enabled, Effect;
    assert Moves(s.runs[id], Effect(s, e).runs[id], Effect(s, e));
  }

  lemma KeepsItsPlace(r: FileRun, t: FileRun)
    requires Evolves(r, t)
    ensures t.createdAt == r.createdAt && (t.status.Queued? ==> r.status.Queued?)
  {
  }
}
