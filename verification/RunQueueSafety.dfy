/** What every run of the file queue guarantees: unique targets, final outcomes, one success per upload. */
module RunQueueSafety {
  import opened Results
  import opened Sequences
  import opened RunQueue

  /* ---- the invariant ---- */

  /** Completion times mark exactly the final states, and only runs that finished their work have a result. */
  ghost predicate Timed(r: FileRun) {
    && (Active(r) <==> r.completedAt.None?)
    && (Active(r) ==> r.error.None?)
    && (r.resultOriginal.Some? <==> r.resultVersion.Some?)
    && (r.resultVersion.Some? ==> r.status.Succeeded? || r.status.Failed?)
    && (r.status.Succeeded? ==> r.resultVersion.Some?)
  }

  /** A row on its own: its times match its status, and only finished runs carry a result. */
  ghost predicate RowValid(q: Queue, id: Id)
    requires id in q.runs
  {
    var r := q.runs[id];
    && Timed(r)
    && (r.completedAt.Some? ==> r.completedAt.value <= q.now)
    && (r.operation.Register? <==> r.targetKey.Upload?)
    && (r.operation.Register? <==> r.target.None?)
    && (r.target.Some? ==> r.targetKey == OriginalKey(r.target.value))
    && (TargetOf(r).Some? ==> TargetOf(r).value in q.sources)
    && (r.targetKey.Upload? ==> r.targetKey.request in q.requests)
    && (r.inputKey.Some? ==> r.inputKey.value in q.keys)
  }

  /** Two different rows: not both active on one target, and a succeeded upload is the last of its family. */
  ghost predicate PairValid(r: FileRun, other: FileRun) {
    && (Active(r) && Active(other) ==> r.targetKey != other.targetKey)
    && (r.targetKey.Upload? && r.targetKey == other.targetKey && r.status.Succeeded? ==>
          !Active(other) && !other.status.Succeeded?
          && other.completedAt.Some? && r.completedAt.Some? && other.completedAt.value <= r.completedAt.value)
    && (r.inputKey.Some? ==> r.inputKey != other.inputKey)
    && !(r.status.Running? && other.status.Running?)
  }

  ghost predicate PairsValid(q: Queue) {
    forall a, b :: a in q.runs && b in q.runs && a != b ==> PairValid(q.runs[a], q.runs[b])
  }

  ghost predicate Valid(q: Queue) {
    && (forall id :: id in q.runs ==> RowValid(q, id))
    && PairsValid(q)
    && (forall r :: r in q.requests ==> q.requests[r].run in q.runs)
    && |ActiveRuns(q.runs)| <= QUEUE_LIMIT
    && (q.staged.Some? ==> q.staged.value in q.keys)
  }

  /* ---- how rows change ---- */

  /** Everything an event may do to a row: nothing, start it, finish it, or forget its input. */
  ghost predicate Evolves(r: FileRun, t: FileRun) {
    && t.operation == r.operation && t.targetKey == r.targetKey && t.target == r.target && t.base == r.base
    && t.retryOf == r.retryOf && t.fileName == r.fileName && t.contentHash == r.contentHash
    && t.createdAt == r.createdAt && (r.scopeRevision.Some? ==> t.scopeRevision == r.scopeRevision)
    && (t.inputKey == r.inputKey || t.inputKey.None?)
    && (!Active(r) ==> t == r.(inputKey := t.inputKey))
    && (Active(t) ==> Active(r) && t.error == r.error && t.resultOriginal == r.resultOriginal
                      && t.resultVersion == r.resultVersion && t.completedAt == r.completedAt
                      && (t.status == r.status || (r.status.Queued? && t.status.Running?)))
    && (r.resultOriginal.Some? ==> t.resultOriginal == r.resultOriginal)
    && (t.resultOriginal.Some? && r.target.Some? ==>
      t.resultOriginal == r.target || t.resultOriginal == r.resultOriginal)
  }

  /** One event's effect on a row, seen together with the clock and the originals. */
  ghost predicate Moves(r: FileRun, t: FileRun, after: Queue) {
    && Evolves(r, t) && (Timed(r) ==> Timed(t))
    && (t.completedAt == r.completedAt || t.completedAt == Some(after.now))
    && (t.resultOriginal == r.resultOriginal || (t.resultOriginal.Some? && t.resultOriginal.value in after.sources))
  }

  ghost predicate Advances(q: Queue, t: Queue) {
    && q.now <= t.now && q.keys <= t.keys
    && (forall id :: id in q.runs ==> id in t.runs && Moves(q.runs[id], t.runs[id], t))
    && (forall r :: r in q.requests ==> r in t.requests && t.requests[r] == q.requests[r])
    && (forall o :: o in q.sources ==> o in t.sources && (q.sources[o].deleted ==> t.sources[o].deleted))
  }

  lemma SameMoves(r: FileRun, after: Queue)
    ensures Moves(r, r, after)
  {
  }

  lemma FinishMoves(r: FileRun, status: Status, error: Option<ErrorCode>, after: Queue)
    requires Active(r) && (status.Failed? || status.Interrupted?)
    ensures Moves(r, Finished(r, status, error, after.now), after)
  {
  }

  lemma CompletionMoves(r: FileRun, original: Id, version: Id, extracted: bool, source: Source, after: Queue)
    requires r.status.Running? && r.resultOriginal.None? && original in after.sources
    requires r.target.Some? ==> r.target == Some(original)
    ensures Moves(r, Completed(r, original, version, extracted, source, after.now), after)
  {
  }

  lemma CompleteMoves(q: Queue, e: Event, after: Queue)
    requires Valid(q) && e.Complete? && Enabled(q, e) && after.now == q.now && e.original in after.sources
    ensures var r := q.runs[e.id];
            Moves(r, Completed(r, e.original, e.version, e.extracted, e.source, q.now), after)
  {
    hide PairsValid, Moves, Completed;
    assert RowValid(q, e.id);
    CompletionMoves(q.runs[e.id], e.original, e.version, e.extracted, e.source, after);
  }

  lemma ForgetMoves(q: Queue, seen: FileRun, r: FileRun, after: Queue)
    requires after.now == q.now
    ensures Moves(r, Forgotten(q, seen, r), after)
  {
    hide Removed;
  }

  lemma StartMoves(r: FileRun, after: Queue)
    requires r.status.Queued?
    ensures Moves(r, r.(status := Running, startedAt := Some(after.now)), after)
  {
  }

  /** Only the listed rows change, each as a row may. */
  lemma RewriteAdvances(q: Queue, t: Queue)
    requires q.runs.Keys <= t.runs.Keys && q.requests == t.requests && q.keys <= t.keys && q.now <= t.now
    requires forall id :: id in q.runs && t.runs[id] != q.runs[id] ==> Moves(q.runs[id], t.runs[id], t)
    requires forall o :: o in q.sources ==> o in t.sources && (q.sources[o].deleted ==> t.sources[o].deleted)
    ensures Advances(q, t)
  {
    hide Moves;
    forall id | id in q.runs
      ensures Moves(q.runs[id], t.runs[id], t)
    {
      SameMoves(q.runs[id], t);
    }
  }

  lemma ReserveAdvances(q: Queue, e: Event)
    requires Valid(q) && e.Reserve? && Enabled(q, e)
    ensures Advances(q, Effect(q, e))
  {
    hide PairsValid, RowValid, FromRetry, FromUser, Moves;
    forall id | id in q.runs
      ensures Moves(q.runs[id], q.runs[id], Effect(q, e))
    {
      SameMoves(q.runs[id], Effect(q, e));
    }
  }

  /** `t` differs from `q` by interrupting the listed rows, and in the process's own state. */
  lemma InterruptAdvances(q: Queue, t: Queue, ids: set<Id>, code: ErrorCode)
    requires forall id :: id in ids ==> id in q.runs && Active(q.runs[id])
    requires t.runs == InterruptAll(q.runs, ids, code, q.now) && t.now == q.now && t.keys == q.keys
    requires t.requests == q.requests && t.sources == q.sources
    ensures Advances(q, t)
  {
    hide Moves;
    forall id | id in ids
      ensures Moves(q.runs[id], t.runs[id], t)
    {
      FinishMoves(q.runs[id], Interrupted, Some(code), t);
    }
    RewriteAdvances(q, t);
  }

  /** The steps that rewrite one row. */
  lemma StepAdvances(q: Queue, e: Event)
    requires Valid(q) && Enabled(q, e) && (e.Stop? || e.Claim? || e.Complete? || e.FailRun? || e.ForgetInput?)
    ensures Advances(q, Effect(q, e))
  {
    hide Valid, Discardable, Reserves, FromRetry, FromUser, Moves;
    hide Completed, Forgotten, Finished, InterruptAll, Referenced;
    hide Advances;
    var t := Effect(q, e);
    match e {
      case Stop(id) =>
        FinishMoves(q.runs[id], Interrupted, Some(UserStopped), t);
        RewriteAdvances(q, t);
      case Claim(id) =>
        StartMoves(q.runs[id], t);
        RewriteAdvances(q, t);
      case Complete(id, _, _, _, _) =>
        CompleteMoves(q, e, t);
        RewriteAdvances(q, t);
      case FailRun(id, code) =>
        FinishMoves(q.runs[id], if code.SourceUnavailable? then Interrupted else Failed, Some(code), t);
        RewriteAdvances(q, t);
      case ForgetInput(id) =>
        if id in q.runs { ForgetMoves(q, q.scans[id], q.runs[id], t); }
        RewriteAdvances(q, t);
    }
  }

  lemma EffectAdvances(q: Queue, e: Event)
    requires Valid(q) && Enabled(q, e)
    ensures Advances(q, Effect(q, e))
  {
    hide Valid, Discardable, Reserves, FromRetry, FromUser, Moves;
    hide Completed, Forgotten, Finished, InterruptAll, Referenced;
    hide Advances;
    var t := Effect(q, e);
    match e {
      case Reserve(_, _, _, _, _, _) => ReserveAdvances(q, e);
      case Stop(_) => StepAdvances(q, e);
      case Claim(_) => StepAdvances(q, e);
      case Complete(_, _, _, _, _) => StepAdvances(q, e);
      case FailRun(_, _) => StepAdvances(q, e);
      case ForgetInput(_) => StepAdvances(q, e);
      case InterruptActive => InterruptAdvances(q, t, RunsIn(q.runs, Running) * {q.active.value}, ApiStopped);
      case InterruptQueued => InterruptAdvances(q, t, RunsIn(q.runs, Queued), ApiStopped);
      case Restart => InterruptAdvances(q, t, ActiveRuns(q.runs), ApiRestarted);
      case _ => RewriteAdvances(q, t);
    }
  }

  /* ---- rows stay valid ---- */

  lemma MovedRowStaysValid(q: Queue, t: Queue, id: Id)
    requires Advances(q, t) && id in q.runs && RowValid(q, id)
    ensures RowValid(t, id)
  {
    assert Moves(q.runs[id], t.runs[id], t);
  }

  /** Only a first upload lacks a target; a retried upload belongs to the family of its parent. */
  lemma InputShape(q: Queue, input: Input, key: Option<Id>)
    requires Valid(q) && (FromUser(input, key) || FromRetry(q, input, key))
    ensures input.operation.Register? <==> input.target.None?
    ensures input.family.Some? <==> input.operation.Register? && input.retryOf.Some?
    ensures input.family.Some? ==>
              input.retryOf.value in q.runs && q.runs[input.retryOf.value].targetKey == input.family.value
    ensures input.family.Some? ==> input.family.value.Upload? && input.family.value.request in q.requests
    ensures input.retryOf.Some? ==> input.retryOf.value in q.runs && !Active(q.runs[input.retryOf.value])
                                    && !q.runs[input.retryOf.value].status.Succeeded?
  {
    hide PairsValid;
    if FromRetry(q, input, key) {
      assert RowValid(q, input.retryOf.value);
    }
  }

  lemma ReservedFacts(q: Queue, request: string, fingerprint: Fingerprint, input: Input, key: Option<Id>, a: Admission)
    requires Reserves(q, request, fingerprint, input, key, a) && a.Created?
    ensures a.row == NewRun(q, request, input, key) && request !in q.requests
    ensures input.target.Some? ==> input.target.value in q.sources
    ensures forall id :: !ActiveOn(q, KeyOf(input, request), id)
    ensures input.retryOf.Some? ==> input.retryOf.value in q.runs && Retained(q.runs[input.retryOf.value], q.now)
    ensures input.retryOf.Some? ==> !AnyRecovers(q, input)
    ensures |ActiveRuns(q.runs)| < QUEUE_LIMIT
  {
  }

  lemma NewRunIsValid(q: Queue, request: string, input: Input, key: Option<Id>, after: Queue, id: Id)
    requires input.operation.Register? <==> input.target.None?
    requires input.family.Some? ==>
               input.operation.Register? && input.family.value.Upload? && input.family.value.request in q.requests
    requires input.target.Some? ==> input.target.value in q.sources
    requires key.Some? ==> key.value in q.keys
    requires id in after.runs && after.runs[id] == NewRun(q, request, input, key)
    requires after.now == q.now && after.keys == q.keys && after.sources == q.sources
    requires request in after.requests && forall r :: r in q.requests ==> r in after.requests
    ensures RowValid(after, id)
  {
  }

  lemma CreatedRowIsValid(q: Queue, e: Event)
    requires Valid(q) && e.Reserve? && Enabled(q, e) && e.outcome.Created?
    ensures e.id in Effect(q, e).runs && RowValid(Effect(q, e), e.id)
  {
    InputShape(q, e.input, e.inputKey);
    ReservedFacts(q, e.request, e.fingerprint, e.input, e.inputKey, e.outcome);
    StagedIsKnown(q);
    hide Valid, FromUser, FromRetry, Reserves, RowValid, NewRun;
    NewRunIsValid(q, e.request, e.input, e.inputKey, Effect(q, e), e.id);
  }

  lemma StagedIsKnown(q: Queue)
    requires Valid(q)
    ensures q.staged.Some? ==> q.staged.value in q.keys
  {
    hide PairsValid, RowValid;
  }

  /** Only an admission adds a row. */
  lemma NewRowsAreCreated(q: Queue, e: Event)
    requires Enabled(q, e)
    ensures forall id :: id in Effect(q, e).runs && id !in q.runs ==> e.Reserve? && e.outcome.Created? && id == e.id
  {
    hide Reserves, FromRetry, FromUser, Discardable, Referenced, Completed, Forgotten, Finished;
  }

  lemma RowsStayValid(q: Queue, e: Event)
    requires Valid(q) && Enabled(q, e)
    ensures var t := Effect(q, e); forall id :: id in t.runs ==> RowValid(t, id)
  {
    EffectAdvances(q, e);
    NewRowsAreCreated(q, e);
    hide PairsValid, Enabled, RowValid, Effect, Moves;
    var t := Effect(q, e);
    forall id | id in t.runs
      ensures RowValid(t, id)
    {
      if id in q.runs {
        MovedRowStaysValid(q, t, id);
      } else {
        CreatedRowIsValid(q, e);
      }
    }
  }

  /* ---- pairs stay valid ---- */

  lemma MovedPairStaysValid(q: Queue, t: Queue, a: Id, b: Id)
    requires Valid(q) && Advances(q, t) && a in q.runs && b in q.runs && a != b
    requires t.runs[a].status.Succeeded? ==>
               q.runs[a].status.Succeeded? || (t.runs[a].completedAt == Some(t.now) && q.runs[a].status.Running?)
    requires t.runs[a].status.Running? && t.runs[b].status.Running? ==>
               q.runs[a].status.Running? && q.runs[b].status.Running?
    requires t.runs[b].status.Succeeded? && !q.runs[b].status.Succeeded? ==> q.runs[b].status.Running?
    requires t.runs[a] == q.runs[a] || t.runs[b] == q.runs[b] || (Active(q.runs[a]) && Active(q.runs[b]))
    ensures PairValid(t.runs[a], t.runs[b])
  {
    assert RowValid(q, a) && RowValid(q, b);
    assert PairValid(q.runs[a], q.runs[b]) && PairValid(q.runs[b], q.runs[a]);
    assert Moves(q.runs[a], t.runs[a], t) && Moves(q.runs[b], t.runs[b], t);
  }

  /** What an event may change in two rows at once. */
  ghost predicate JointMove(q: Queue, t: Queue, a: Id, b: Id)
    requires a in q.runs && b in q.runs && a in t.runs && b in t.runs
  {
    && (t.runs[a].status.Succeeded? ==>
         q.runs[a].status.Succeeded? || (t.runs[a].completedAt == Some(t.now) && q.runs[a].status.Running?))
    && (t.runs[b].status.Succeeded? && !q.runs[b].status.Succeeded? ==> q.runs[b].status.Running?)
    && (t.runs[a].status.Running? && t.runs[b].status.Running? ==>
      q.runs[a].status.Running? && q.runs[b].status.Running?)
    && (t.runs[a] == q.runs[a] || t.runs[b] == q.runs[b] || (Active(q.runs[a]) && Active(q.runs[b])))
  }

  /** The events that rewrite many rows at once. */
  predicate Interrupts(e: Event) {
    e.InterruptActive? || e.InterruptQueued? || e.Restart?
  }

  lemma InterruptsMoveJointly(q: Queue, e: Event, a: Id, b: Id)
    requires Enabled(q, e) && Interrupts(e) && a in q.runs && b in q.runs && a != b
    ensures a in Effect(q, e).runs && b in Effect(q, e).runs && JointMove(q, Effect(q, e), a, b)
  {
  }

  lemma EventsMoveJointly(q: Queue, e: Event, a: Id, b: Id)
    requires Enabled(q, e) && a in q.runs && b in q.runs && a != b
    ensures a in Effect(q, e).runs && b in Effect(q, e).runs && JointMove(q, Effect(q, e), a, b)
  {
    hide Reserves, FromRetry, FromUser, Discardable, Referenced, Removed, InterruptAll, RunsIn, ActiveRuns;
    if Interrupts(e) { InterruptsMoveJointly(q, e, a, b); }
  }

  /** A new row joins a family only when none of its runs has succeeded. */
  lemma NoSucceededInFamily(q: Queue, e: Event, b: Id)
    requires Valid(q) && e.Reserve? && Enabled(q, e) && e.outcome.Created?
    requires b in q.runs && q.runs[b].targetKey == KeyOf(e.input, e.request) && q.runs[b].targetKey.Upload?
    ensures !q.runs[b].status.Succeeded?
  {
    InputShape(q, e.input, e.inputKey);
    ReservedFacts(q, e.request, e.fingerprint, e.input, e.inputKey, e.outcome);
    hide FromUser, FromRetry, Reserves, Enabled;
    assert RowValid(q, b);
    if e.input.retryOf.Some? {
      var parent := e.input.retryOf.value;
      assert RowValid(q, parent);
      assert b == parent || PairValid(q.runs[b], q.runs[parent]);
      assert !Recovers(q, e.input, b);
    }
  }

  lemma FreshPairIsValid(row: FileRun, other: FileRun)
    requires row.status.Queued? && (row.inputKey.Some? ==> row.inputKey != other.inputKey)
    requires !(Active(other) && other.targetKey == row.targetKey)
    requires row.targetKey.Upload? && other.targetKey == row.targetKey ==> !other.status.Succeeded?
    ensures PairValid(row, other) && PairValid(other, row)
  {
  }

  lemma CreatedPairIsValid(q: Queue, e: Event, b: Id)
    requires Valid(q) && e.Reserve? && Enabled(q, e) && e.outcome.Created? && b in q.runs
    ensures PairValid(e.outcome.row, q.runs[b]) && PairValid(q.runs[b], e.outcome.row)
  {
    ReservedFacts(q, e.request, e.fingerprint, e.input, e.inputKey, e.outcome);
    assert !ActiveOn(q, KeyOf(e.input, e.request), b);
    assert e.inputKey.Some? ==> !Referenced(q, e.inputKey.value);
    hide FromUser, FromRetry, Reserves, PairValid;
    if q.runs[b].targetKey == KeyOf(e.input, e.request) && q.runs[b].targetKey.Upload? {
      NoSucceededInFamily(q, e, b);
    }
    hide Valid, Enabled;
    FreshPairIsValid(e.outcome.row, q.runs[b]);
  }

  lemma PairsStayValid(q: Queue, e: Event)
    requires Valid(q) && Enabled(q, e)
    ensures PairsValid(Effect(q, e))
  {
    var t := Effect(q, e);
    EffectAdvances(q, e);
    NewRowsAreCreated(q, e);
    forall a, b | a in t.runs && b in t.runs && a != b
      ensures PairValid(t.runs[a], t.runs[b])
    {
      hide Valid, Enabled, Effect, PairValid, Advances, JointMove;
      if a in q.runs && b in q.runs {
        EventsMoveJointly(q, e, a, b);
        MovedPairStaysValid(q, t, a, b);
      } else {
        OneNewRow(q, e, a, b);
      }
    }
  }

  lemma OneNewRow(q: Queue, e: Event, a: Id, b: Id)
    requires Valid(q) && Enabled(q, e) && a in Effect(q, e).runs && b in Effect(q, e).runs && a != b
    requires a !in q.runs || b !in q.runs
    ensures PairValid(Effect(q, e).runs[a], Effect(q, e).runs[b])
  {
    hide Valid, PairValid, Reserves, FromUser, FromRetry;
    NewRowsAreCreated(q, e);
    CreatedPairIsValid(q, e, if a in q.runs then a else b);
  }

  /* ---- the queue bound ---- */

  lemma BoundIsKept(q: Queue, e: Event)
    requires Valid(q) && Enabled(q, e)
    ensures |ActiveRuns(Effect(q, e).runs)| <= QUEUE_LIMIT
  {
    var t := Effect(q, e);
    EffectAdvances(q, e);
    NewRowsAreCreated(q, e);
    var added := if e.Reserve? && e.outcome.Created? then {e.id} else {};
    forall id | id in ActiveRuns(t.runs)
      ensures id in ActiveRuns(q.runs) + added
    {
      hide Enabled, Effect, RowValid, PairsValid;
      if id in q.runs { assert Moves(q.runs[id], t.runs[id], t); }
    }
    hide Enabled, Effect, RowValid, PairsValid, Reserves, FromRetry, FromUser;
    SubsetSize(ActiveRuns(t.runs), ActiveRuns(q.runs) + added);
    if e.Reserve? && e.outcome.Created? {
      CreatedFits(q, e);
      assert |ActiveRuns(q.runs) + {e.id}| <= |ActiveRuns(q.runs)| + 1;
    }
  }

  lemma CreatedFits(q: Queue, e: Event)
    requires e.Reserve? && Enabled(q, e) && e.outcome.Created?
    ensures |ActiveRuns(q.runs)| < QUEUE_LIMIT
  {
    ReservedFacts(q, e.request, e.fingerprint, e.input, e.inputKey, e.outcome);
  }

  lemma RequestsOfEvent(q: Queue, e: Event, r: string)
    requires Enabled(q, e) && r in Effect(q, e).requests
    ensures var t := Effect(q, e);
            (r in q.requests && t.requests[r] == q.requests[r])
            || (e.Reserve? && r == e.request && t.requests[r].run in t.runs)
  {
    hide NewRun, FromRetry, FromUser, Discardable, Referenced, ActiveRuns, InterruptAll, Completed, Forgotten, Finished;
    if e.Reserve? && (e.outcome.Recovered? || e.outcome.Shared?) {
      JoinedRunExists(q, e.request, e.fingerprint, e.input, e.inputKey, e.outcome);
    }
    hide Reserves;
  }

  lemma JoinedRunExists(q: Queue, request: string, fingerprint: Fingerprint, input: Input, key: Option<Id>,
                        a: Admission)
    requires Reserves(q, request, fingerprint, input, key, a) && (a.Recovered? || a.Shared?)
    ensures a.run in q.runs
  {
  }

  lemma RequestsStayLinked(q: Queue, e: Event)
    requires Valid(q) && Enabled(q, e)
    ensures var t := Effect(q, e); forall r :: r in t.requests ==> t.requests[r].run in t.runs
  {
    hide Valid, Enabled, Effect, Moves;
    var t := Effect(q, e);
    EffectAdvances(q, e);
    forall r | r in t.requests
      ensures t.requests[r].run in t.runs
    {
      RequestsOfEvent(q, e, r);
      if r in q.requests { LinkedRequest(q, r); }
    }
  }

  lemma LinkedRequest(q: Queue, r: string)
    requires Valid(q) && r in q.requests
    ensures q.requests[r].run in q.runs
  {
    hide RowValid, PairsValid;
  }

  lemma StagedStaysKnown(q: Queue, e: Event)
    requires Valid(q) && Enabled(q, e)
    ensures var t := Effect(q, e); t.staged.Some? ==> t.staged.value in t.keys
  {
    hide Valid, Enabled, Effect;
    StagedIsKnown(q);
    StagedOfEvent(q, e);
  }

  lemma StagedOfEvent(q: Queue, e: Event)
    requires (q.staged.Some? ==> q.staged.value in q.keys) && Enabled(q, e)
    ensures var t := Effect(q, e); t.staged.Some? ==> t.staged.value in t.keys
  {
    hide Enabled, Discardable, Referenced, Completed, Forgotten, Finished, NewRun, ActiveRuns, RunsIn, InterruptAll;
  }

  /** Every event keeps the invariant. */
  lemma ApplyKeepsValid(q: Queue, e: Event)
    requires Valid(q)
    ensures Valid(Apply(q, e))
  {
    if Enabled(q, e) {
      hide Enabled, Effect, RowValid, PairsValid;
      RowsStayValid(q, e);
      PairsStayValid(q, e);
      BoundIsKept(q, e);
      RequestsStayLinked(q, e);
      StagedStaysKnown(q, e);
    }
  }

  lemma {:induction false} ReachableValid(events: seq<Event>)
    ensures Valid(RunFrom(EMPTY_QUEUE, events))
  {
    if events != [] {
      var n := |events| - 1;
      ReachableValid(events[..n]);
      ApplyKeepsValid(RunFrom(EMPTY_QUEUE, events[..n]), events[n]);
    }
  }
}
