/** The queue's promises over whole runs, in the terms of its callers. */
module RunOutcomes {
  import opened Results
  import opened RunQueue
  import opened RunQueueSafety

  predicate Final(status: Status) {
    status.Succeeded? || status.Failed? || status.Interrupted?
  }

  /** In every reachable state, whatever stops, crashes and retries happened before. */
  lemma QueueGuarantees(events: seq<Event>)
    ensures var q := RunFrom(EMPTY_QUEUE, events);
            && |ActiveRuns(q.runs)| <= QUEUE_LIMIT
            && (forall a, b :: a in q.runs && b in q.runs && a != b ==>
                  && !(Active(q.runs[a]) && Active(q.runs[b]) && q.runs[a].targetKey == q.runs[b].targetKey)
                  && !(q.runs[a].status.Running? && q.runs[b].status.Running?))
            && (forall id :: id in q.runs ==>
                  && (q.runs[id].completedAt.Some? <==> Final(q.runs[id].status))
                  && (q.runs[id].status.Interrupted? ==>
                    q.runs[id].resultOriginal.None? && q.runs[id].resultVersion.None?))
  {
    hide Apply, Active, Valid, RowValid;
    var q := RunFrom(EMPTY_QUEUE, events);
    ReachableValid(events);
    BoundHolds(q);
    forall a, b | a in q.runs && b in q.runs && a != b
      ensures !(Active(q.runs[a]) && Active(q.runs[b]) && q.runs[a].targetKey == q.runs[b].targetKey)
      ensures !(q.runs[a].status.Running? && q.runs[b].status.Running?)
    {
      PairHolds(q, a, b);
    }
    forall id | id in q.runs
      ensures q.runs[id].completedAt.Some? <==> Final(q.runs[id].status)
      ensures q.runs[id].status.Interrupted? ==> q.runs[id].resultOriginal.None? && q.runs[id].resultVersion.None?
    {
      RowHolds(q, id);
    }
  }

  lemma BoundHolds(q: Queue)
    requires Valid(q)
    ensures |ActiveRuns(q.runs)| <= QUEUE_LIMIT
  {
    hide RowValid, PairsValid;
  }

  lemma PairHolds(q: Queue, a: Id, b: Id)
    requires Valid(q) && a in q.runs && b in q.runs && a != b
    ensures !(Active(q.runs[a]) && Active(q.runs[b]) && q.runs[a].targetKey == q.runs[b].targetKey)
    ensures !(q.runs[a].status.Running? && q.runs[b].status.Running?)
  {
    hide RowValid;
    assert PairValid(q.runs[a], q.runs[b]);
  }

  lemma RowHolds(q: Queue, id: Id)
    requires Valid(q) && id in q.runs
    ensures q.runs[id].completedAt.Some? <==> Final(q.runs[id].status)
    ensures q.runs[id].status.Interrupted? ==> q.runs[id].resultOriginal.None? && q.runs[id].resultVersion.None?
  {
    RowFacts(q, id);
    hide Valid, RowValid;
  }

  lemma RowFacts(q: Queue, id: Id)
    requires Valid(q) && id in q.runs
    ensures Timed(q.runs[id])
  {
    hide PairsValid, Timed;
    assert RowValid(q, id);
  }

  /** Every upload family has at most one succeeded run, and none while one of its runs is active. */
  lemma FamilySucceedsOnce(events: seq<Event>, a: Id, b: Id)
    requires var q := RunFrom(EMPTY_QUEUE, events);
             a in q.runs && b in q.runs && a != b
             && q.runs[a].targetKey.Upload? && q.runs[a].targetKey == q.runs[b].targetKey
             && q.runs[a].status.Succeeded?
    ensures var other := RunFrom(EMPTY_QUEUE, events).runs[b];
            !Active(other) && !other.status.Succeeded?
  {
    hide RowValid, Apply;
    var q := RunFrom(EMPTY_QUEUE, events);
    ReachableValid(events);
    assert PairValid(q.runs[a], q.runs[b]);
  }

  lemma StepKeepsFinal(q: Queue, e: Event, id: Id)
    requires Valid(q) && id in q.runs && !Active(q.runs[id])
    ensures var t := Apply(q, e);
            id in t.runs && t.runs[id] == q.runs[id].(inputKey := t.runs[id].inputKey)
  {
    if Enabled(q, e) {
      EffectAdvances(q, e);
      hide Valid, Enabled, Effect;
      assert Moves(q.runs[id], Effect(q, e).runs[id], Effect(q, e));
    }
  }

  /** A finished run keeps its status, error, times and result for ever; only its pending input may be dropped. */
  lemma {:induction false} FinishedForever(q: Queue, later: seq<Event>, id: Id)
    requires Valid(q) && id in q.runs && !Active(q.runs[id])
    ensures var t := RunFrom(q, later);
            Valid(t) && id in t.runs && t.runs[id] == q.runs[id].(inputKey := t.runs[id].inputKey)
  {
    if later != [] {
      var n := |later| - 1;
      FinishedForever(q, later[..n], id);
      ApplyKeepsValid(RunFrom(q, later[..n]), later[n]);
      StepKeepsFinal(RunFrom(q, later[..n]), later[n], id);
    }
  }

  /* ---- idempotent admission ---- */

  lemma StepKeepsRequest(q: Queue, e: Event, request: string)
    requires Valid(q) && request in q.requests
    ensures var t := Apply(q, e); request in t.requests && t.requests[request] == q.requests[request]
  {
    if Enabled(q, e) {
      EffectAdvances(q, e);
      hide Valid, Enabled, Effect, Moves;
    }
  }

  /** A request id is bound to one run and one payload for ever. */
  lemma {:induction false} RequestBoundForever(q: Queue, later: seq<Event>, request: string)
    requires Valid(q) && request in q.requests
    ensures var t := RunFrom(q, later);
            Valid(t) && request in t.requests && t.requests[request] == q.requests[request]
  {
    if later != [] {
      var n := |later| - 1;
      RequestBoundForever(q, later[..n], request);
      ApplyKeepsValid(RunFrom(q, later[..n]), later[n]);
      StepKeepsRequest(RunFrom(q, later[..n]), later[n], request);
    }
  }

  /**
   * Repeating a request id changes nothing and answers with its first run, an error for another payload, or
   * not found.
   */
  lemma RepeatIsHarmless(q: Queue, e: Event)
    requires e.Reserve? && e.request in q.requests && Enabled(q, e)
    ensures Effect(q, e) == q
    ensures var entry := q.requests[e.request];
      e.outcome == if entry.run !in q.runs || !Retained(q.runs[entry.run], q.now) then NotFound
                   else if entry.fingerprint != e.fingerprint then PayloadChanged else Replayed(entry.run)
  {
    hide FromUser, FromRetry, AnyRecovers, ActiveOn, SameWork;
  }

  /** A new request id is bound by its admission exactly when the admission names a run. */
  lemma AdmissionBindsOnce(q: Queue, e: Event)
    requires e.Reserve? && e.request !in q.requests && Enabled(q, e)
    ensures var t := Effect(q, e);
            && (e.request in t.requests <==> e.outcome.Recovered? || e.outcome.Shared? || e.outcome.Created?)
            && (e.request in t.requests ==>
                  t.requests[e.request] == Request(if e.outcome.Created? then e.id else e.outcome.run, e.fingerprint))
            && t.runs.Keys == q.runs.Keys + (if e.outcome.Created? then {e.id} else {})
  {
    hide FromUser, FromRetry, AnyRecovers, ActiveOn, SameWork, NewRun;
  }

  /**
   * Idempotence over whole runs. Once an admission has bound a request id, every repeat in every later state changes
   * nothing; while the first run is retained it is answered with that run, or with an error for another payload.
   */
  lemma RepeatsAnswerTheFirstRun(past: seq<Event>, first: Event, later: seq<Event>, again: Event)
    requires first.Reserve? && again.Reserve? && again.request == first.request
    requires var q := RunFrom(EMPTY_QUEUE, past);
             first.request !in q.requests && Enabled(q, first) && first.request in Effect(q, first).requests
    requires Enabled(RunFrom(Effect(RunFrom(EMPTY_QUEUE, past), first), later), again)
    ensures var run := if first.outcome.Created? then first.id else first.outcome.run;
            var t := RunFrom(Effect(RunFrom(EMPTY_QUEUE, past), first), later);
            && Apply(t, again) == t && run in t.runs
            && again.outcome
               == if t.runs[run].completedAt.Some? && t.runs[run].completedAt.value + 7_776_000_000 <= t.now
                  then NotFound
                  else if again.fingerprint != first.fingerprint then PayloadChanged else Replayed(run)
  {
    hide Enabled, Effect, Valid;
    var q := RunFrom(EMPTY_QUEUE, past);
    ReachableValid(past);
    ApplyKeepsValid(q, first);
    var bound := Effect(q, first);
    AdmissionBindsOnce(q, first);
    RequestBoundForever(bound, later, first.request);
    var t := RunFrom(bound, later);
    RunIsKnown(t, first.request);
    RepeatIsHarmless(t, again);
  }

  lemma RunIsKnown(q: Queue, request: string)
    requires Valid(q) && request in q.requests
    ensures q.requests[request].run in q.runs
  {
  }

  /* ---- joining a run, refusing, starting a new one ---- */

  /** What a request asks of a run: what to do, to which version of what, under which revision and after which run. */
  predicate AskedFor(q: Queue, request: string, input: Input, r: FileRun) {
    && r.operation == input.operation && r.target == input.target && r.base == input.base
    && r.retryOf == input.retryOf && r.fileName == input.fileName && r.contentHash == input.contentHash
    && r.targetKey == (if input.target.Some? then OriginalKey(input.target.value)
                       else if input.family.Some? then input.family.value else Upload(request))
    && r.scopeRevision == (if input.target.Some? && input.target.value in q.sources
                           then Some(q.sources[input.target.value].scopeRevision) else None)
  }

  predicate Blocks(q: Queue, request: string, input: Input, id: Id) {
    && id in q.runs && (q.runs[id].status.Queued? || q.runs[id].status.Running?)
    && q.runs[id].targetKey == (if input.target.Some? then OriginalKey(input.target.value)
                                else if input.family.Some? then input.family.value else Upload(request))
  }

  lemma OneBlocks(q: Queue, request: string, input: Input, a: Id, b: Id)
    requires Valid(q) && Blocks(q, request, input, a) && Blocks(q, request, input, b)
    ensures a == b
  {
    if a != b { PairHolds(q, a, b); }
  }

  /** A row of the key has its target, or none. */
  lemma TargetOfKey(q: Queue, id: Id)
    requires Valid(q) && id in q.runs
    ensures q.runs[id].target == if q.runs[id].targetKey.OriginalKey? then Some(q.runs[id].targetKey.original) else None
  {
    hide PairsValid, Timed;
    assert RowValid(q, id);
  }

  lemma FamilyIsUpload(q: Queue, e: Event)
    requires Valid(q) && e.Reserve? && Enabled(q, e)
    ensures e.input.family.Some? ==> e.input.family.value.Upload? && e.input.target.None?
  {
    InputShape(q, e.input, e.inputKey);
  }

  /** The lookups of the reserving transaction, for a request that meets an active run of its key. */
  lemma MeetsActiveRun(q: Queue, e: Event)
    requires e.Reserve? && Enabled(q, e) && (e.outcome.Shared? || e.outcome.TargetBusy?)
    ensures exists id :: Blocks(q, e.request, e.input, id)
                         && SameWork(q.runs[id], e.input, ScopeOf(q, e.input)) == e.outcome.Shared?
    ensures e.outcome.Shared? ==> Blocks(q, e.request, e.input, e.outcome.run)
  {
    hide FromUser, FromRetry, AnyRecovers, SameWork, ScopeOf, NewRun, Retained;
    assert forall id :: ActiveOn(q, KeyOf(e.input, e.request), id) ==> Blocks(q, e.request, e.input, id);
  }

  lemma SameWorkIsAsked(q: Queue, e: Event, id: Id)
    requires Valid(q) && e.Reserve? && Enabled(q, e) && Blocks(q, e.request, e.input, id)
    ensures SameWork(q.runs[id], e.input, ScopeOf(q, e.input)) <==> AskedFor(q, e.request, e.input, q.runs[id])
  {
    TargetOfKey(q, id);
    FamilyIsUpload(q, e);
    hide Valid, Enabled;
  }

  /**
   * A request that meets an active run of its target joins it exactly when the run does all that is asked, and is
   * refused exactly when it differs in any of it; a new run is started only when no run of the target is active.
   */
  lemma JoinsOnlyWhatIsAsked(q: Queue, e: Event, id: Id)
    requires Valid(q) && e.Reserve? && Enabled(q, e)
    ensures e.outcome.Shared? ==>
              Blocks(q, e.request, e.input, e.outcome.run) && AskedFor(q, e.request, e.input, q.runs[e.outcome.run])
    ensures e.outcome.TargetBusy? ==>
              exists run :: Blocks(q, e.request, e.input, run) && !AskedFor(q, e.request, e.input, q.runs[run])
    ensures Blocks(q, e.request, e.input, id) && (e.outcome.Shared? || e.outcome.TargetBusy?) ==>
              (e.outcome.Shared? <==> AskedFor(q, e.request, e.input, q.runs[id]))
    ensures Blocks(q, e.request, e.input, id) ==> !e.outcome.Created? && (e.outcome.Shared? ==> e.outcome.run == id)
  {
    if e.outcome.Shared? || e.outcome.TargetBusy? {
      MeetsActiveRun(q, e);
      var other :| Blocks(q, e.request, e.input, other)
        && SameWork(q.runs[other], e.input, ScopeOf(q, e.input)) == e.outcome.Shared?;
      SameWorkIsAsked(q, e, other);
      hide Enabled, Valid, SameWork, AskedFor, Blocks;
      if Blocks(q, e.request, e.input, id) { OneBlocks(q, e.request, e.input, id, other); }
      if e.outcome.Shared? { OneBlocks(q, e.request, e.input, e.outcome.run, other); }
    } else if e.outcome.Created? {
      NothingBlocksNew(q, e, id);
    }
  }

  /** A run keeps what it was started for. */
  predicate SameRequest(r: FileRun, t: FileRun) {
    && t.operation == r.operation && t.target == r.target && t.base == r.base && t.targetKey == r.targetKey
    && t.retryOf == r.retryOf && t.fileName == r.fileName && t.contentHash == r.contentHash
    && (r.scopeRevision.Some? ==> t.scopeRevision == r.scopeRevision)
  }

  lemma StepKeepsRequested(q: Queue, e: Event, id: Id)
    requires Valid(q) && id in q.runs
    ensures id in Apply(q, e).runs && SameRequest(q.runs[id], Apply(q, e).runs[id])
  {
    if Enabled(q, e) {
      EffectAdvances(q, e);
      hide Valid, Enabled, Effect;
      assert Moves(q.runs[id], Effect(q, e).runs[id], Effect(q, e));
    }
  }

  lemma {:induction false} RequestedForever(q: Queue, later: seq<Event>, id: Id)
    requires Valid(q) && id in q.runs
    ensures var t := RunFrom(q, later); Valid(t) && id in t.runs && SameRequest(q.runs[id], t.runs[id])
  {
    hide Valid, Apply;
    if later != [] {
      var n := |later| - 1;
      RequestedForever(q, later[..n], id);
      ApplyKeepsValid(RunFrom(q, later[..n]), later[n]);
      StepKeepsRequested(RunFrom(q, later[..n]), later[n], id);
    }
  }

  /** The run a request has joined goes on doing what was asked, in every later state. */
  lemma JoinedRunDoesWhatIsAsked(past: seq<Event>, e: Event, later: seq<Event>)
    requires e.Reserve? && e.outcome.Shared? && Enabled(RunFrom(EMPTY_QUEUE, past), e)
    ensures var q := RunFrom(EMPTY_QUEUE, past);
      var t, run := RunFrom(Effect(q, e), later), e.outcome.run;
      && run in q.runs && run in t.runs
      && AskedFor(q, e.request, e.input, t.runs[run].(scopeRevision := q.runs[run].scopeRevision))
      && (e.input.target.Some? ==> AskedFor(q, e.request, e.input, t.runs[run]))
  {
    hide Enabled, Effect, Valid;
    var q := RunFrom(EMPTY_QUEUE, past);
    ReachableValid(past);
    ApplyKeepsValid(q, e);
    JoinsOnlyWhatIsAsked(q, e, e.outcome.run);
    StepKeepsRequested(q, e, e.outcome.run);
    RequestedForever(Effect(q, e), later, e.outcome.run);
    if e.input.target.Some? { TargetIsKnown(q, e.outcome.run); }
  }

  lemma TargetIsKnown(q: Queue, id: Id)
    requires Valid(q) && id in q.runs
    ensures q.runs[id].target.Some? && q.runs[id].resultOriginal.None? ==> q.runs[id].target.value in q.sources
    ensures Active(q.runs[id]) ==> q.runs[id].resultOriginal.None?
  {
    hide PairsValid;
    assert RowValid(q, id);
  }

  lemma NothingBlocksNew(q: Queue, e: Event, id: Id)
    requires e.Reserve? && Enabled(q, e) && e.outcome.Created?
    ensures !Blocks(q, e.request, e.input, id)
  {
    ReservedFacts(q, e.request, e.fingerprint, e.input, e.inputKey, e.outcome);
    hide Enabled, Reserves;
    assert !ActiveOn(q, KeyOf(e.input, e.request), id);
  }

  /** A new run starts on the version its target has now, does what is asked, and keeps the bytes written for it. */
  lemma NewRunIsAsked(q: Queue, e: Event)
    requires Valid(q) && e.Reserve? && Enabled(q, e) && e.outcome.Created?
    ensures var r := e.outcome.row;
      && AskedFor(q, e.request, e.input, r) && r.status.Queued? && r.inputKey == e.inputKey && r.createdAt == q.now
      && r.error.None? && r.startedAt.None? && r.completedAt.None? && r.resultOriginal.None? && r.resultVersion.None?
      && (r.target.Some? ==> r.target.value in q.sources && !q.sources[r.target.value].deleted
                             && r.base == Some(q.sources[r.target.value].latestVersion))
      && |ActiveRuns(q.runs)| < QUEUE_LIMIT && Effect(q, e).runs == q.runs[e.id := r]
  {
    hide Valid, FromUser, FromRetry, AnyRecovers, ActiveOn, Retained;
  }

  /** A run that registers or replaces a file starts with its bytes. */
  lemma UploadsHaveBytes(q: Queue, e: Event)
    requires Valid(q) && e.Reserve? && Enabled(q, e) && e.outcome.Created?
    requires e.outcome.row.operation.Register? || e.outcome.row.operation.Replacing?
    ensures e.outcome.row.inputKey.Some?
  {
    NewRunIsAsked(q, e);
  }

  /**
   * A retry takes up a failed or interrupted run where it stopped: once it had stored a version, that version is
   * processed again, without new bytes; before, the same is done again, an upload in the same family.
   */
  lemma RetryTakesUp(q: Queue, e: Event)
    requires Valid(q) && e.Reserve? && Enabled(q, e) && e.outcome.Created? && e.input.retryOf.Some?
    ensures e.input.retryOf.value in q.runs
    ensures var parent, r := q.runs[e.input.retryOf.value], e.outcome.row;
      && (parent.status.Failed? || parent.status.Interrupted?) && parent.error != Some(SensitiveFile)
      && r.retryOf == e.input.retryOf && r.fileName == parent.fileName && r.contentHash == parent.contentHash
      && if parent.resultVersion.Some? then
           r.operation.Reprocess? && r.target == parent.resultOriginal && r.base == parent.resultVersion
           && r.inputKey.None?
         else
           r.operation == parent.operation && r.target == parent.target && r.base == parent.base
           && r.targetKey == parent.targetKey
  {
    NewRunIsAsked(q, e);
    InputShape(q, e.input, e.inputKey);
    RowFacts(q, e.input.retryOf.value);
    TargetOfKey(q, e.input.retryOf.value);
    RetryShape(q, e);
  }

  lemma RetryShape(q: Queue, e: Event)
    requires Valid(q) && e.Reserve? && Enabled(q, e) && e.input.retryOf.Some?
    ensures FromRetry(q, e.input, e.inputKey)
    ensures var parent := q.runs[e.input.retryOf.value];
      && (parent.operation.Register? <==> parent.targetKey.Upload?)
      && (parent.operation.Register? <==> parent.target.None?)
  {
    hide PairsValid, Reserves, Timed;
    assert RowValid(q, e.input.retryOf.value);
  }

  /** The other answers to a new request id have their grounds. */
  lemma AnswersHaveGrounds(q: Queue, e: Event)
    requires e.Reserve? && Enabled(q, e) && e.request !in q.requests
    ensures e.outcome.Recovered? ==>
              e.outcome.run in q.runs && q.runs[e.outcome.run].status.Succeeded?
              && (q.runs[e.outcome.run].retryOf == e.input.retryOf
                  || e.input.family == Some(q.runs[e.outcome.run].targetKey))
              && (q.runs[e.outcome.run].completedAt.Some? ==>
                    q.now < q.runs[e.outcome.run].completedAt.value + RETENTION_MS)
    ensures e.outcome.NotFound? ==>
              || (e.input.retryOf.Some? && (e.input.retryOf.value in q.runs ==>
                    q.runs[e.input.retryOf.value].completedAt.Some?
                    && q.runs[e.input.retryOf.value].completedAt.value + RETENTION_MS <= q.now))
              || (e.input.target.Some? && (e.input.target.value in q.sources ==>
                    q.sources[e.input.target.value].deleted))
    ensures e.outcome.Changed? ==>
              e.input.target.Some? && e.input.target.value in q.sources
              && e.input.base != Some(q.sources[e.input.target.value].latestVersion)
    ensures e.outcome.QueueFull? ==> |ActiveRuns(q.runs)| >= QUEUE_LIMIT
    ensures !e.outcome.Replayed? && !e.outcome.PayloadChanged?
  {
    hide FromUser, FromRetry, ActiveOn, SameWork, NewRun;
  }

  /** Retrying an upload whose family already succeeded never starts another run. */
  lemma RetryAfterSuccess(q: Queue, e: Event, done: Id)
    requires Valid(q) && e.Reserve? && Enabled(q, e) && e.request !in q.requests && e.input.retryOf.Some?
    requires done in q.runs && q.runs[done].status.Succeeded? && e.input.family == Some(q.runs[done].targetKey)
    ensures !e.outcome.Created?
  {
    if e.outcome.Created? {
      InputShape(q, e.input, e.inputKey);
      NoSucceededInFamily(q, e, done);
    }
  }
}
