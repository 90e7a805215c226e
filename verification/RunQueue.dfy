/**
 * The persistent queue of file runs and its pending-input store, as a transition system over committed
 * transactions, actions of the one owning process, and crashes: file-run.service.ts.
 *
 * Request fingerprints are taken as injective. All times come from one clock. Deleting runs after the
 * retention period is not an event of this system; the retention filters of the queries are kept.
 */
module RunQueue {
  import opened Results

  const QUEUE_LIMIT: nat := 20
  const RETENTION_MS: nat := 7_776_000_000  // ninety days

  type Id = nat

  datatype Operation = Register | Replacing | Reprocess | Indexing

  datatype Status = Queued | Running | Succeeded | Failed | Interrupted

  datatype TargetKey = Upload(request: string) | OriginalKey(original: Id)

  datatype ErrorCode =
    | SensitiveFile | UserStopped | ApiRestarted | ApiStopped | SourceUnavailable | SourceChanged | Other(code: string)

  datatype FileRun = FileRun(
    operation: Operation, targetKey: TargetKey, target: Option<Id>, base: Option<Id>, scopeRevision: Option<nat>,
    retryOf: Option<Id>, fileName: string, contentHash: nat, inputKey: Option<Id>, status: Status,
    error: Option<ErrorCode>, resultOriginal: Option<Id>, resultVersion: Option<Id>,
    createdAt: nat, startedAt: Option<nat>, completedAt: Option<nat>)

  datatype Fingerprint =
    | UploadOf(target: Option<Id>, fileName: string, contentHash: nat)
    | IndexOf(original: Id) | ReprocessOf(original: Id) | RetryOf(run: Id)

  datatype Request = Request(run: Id, fingerprint: Fingerprint)

  datatype Source = Source(deleted: bool, scopeRevision: nat, latestVersion: Id)

  /** What an admission asks for, computed before the transaction that reserves a run. */
  datatype Input = Input(
    operation: Operation, fileName: string, contentHash: nat, target: Option<Id>, base: Option<Id>,
    retryOf: Option<Id>, family: Option<TargetKey>)

  /**
   * `staged` is a blob written by the admission that holds the input lock; `scans` holds the rows read by the
   * cleanup that holds it, which decides from these copies while other transactions go on; `active` is the run
   * this process executes; `keys` holds every blob key ever generated.
   */
  datatype Queue = Queue(
    runs: map<Id, FileRun>, requests: map<string, Request>, sources: map<Id, Source>, pending: set<Id>, keys: set<Id>,
    staged: Option<Id>, scans: map<Id, FileRun>, active: Option<Id>, up: bool, closing: bool, now: nat)

  const EMPTY_QUEUE := Queue(map[], map[], map[], {}, {}, None, map[], None, false, false, 0)

  predicate Active(r: FileRun) {
    r.status.Queued? || r.status.Running?
  }

  predicate Retained(r: FileRun, now: nat) {
    r.completedAt.None? || r.completedAt.value + RETENTION_MS > now
  }

  function ActiveRuns(runs: map<Id, FileRun>): set<Id> {
    set id | id in runs && Active(runs[id])
  }

  /* ---- admission ---- */

  /** A first-hand request: uploads carry bytes, the other operations name a target and its version. */
  predicate FromUser(input: Input, key: Option<Id>) {
    && input.retryOf.None? && input.family.None?
    && (input.operation.Register? <==> input.target.None?) && (input.target.None? <==> input.base.None?)
    && (key.Some? <==> input.operation.Register? || input.operation.Replacing?)
  }

  /** The input a retry derives from its parent: once a version exists the stored original is reprocessed. */
  function RetryInput(id: Id, parent: FileRun): Input {
    var operation := if parent.resultVersion.Some? then Reprocess else parent.operation;
    Input(operation, parent.fileName, parent.contentHash,
          if parent.resultOriginal.Some? then parent.resultOriginal else parent.target,
          if parent.resultVersion.Some? then parent.resultVersion else parent.base,
          Some(id), if operation.Register? then Some(parent.targetKey) else None)
  }

  predicate FromRetry(q: Queue, input: Input, key: Option<Id>) {
    && input.retryOf.Some? && input.retryOf.value in q.runs
    && var parent := q.runs[input.retryOf.value];
       && (parent.status.Failed? || parent.status.Interrupted?) && parent.error != Some(SensitiveFile)
       && input == RetryInput(input.retryOf.value, parent)
       && (key.Some? ==> parent.resultVersion.None?)
       && (key.None? && parent.resultVersion.None? ==> parent.operation.Reprocess? || parent.operation.Indexing?)
  }

  function KeyOf(input: Input, request: string): TargetKey {
    if input.target.Some? then OriginalKey(input.target.value)
    else if input.family.Some? then input.family.value else Upload(request)
  }

  /** A succeeded run that already answers the retry. */
  predicate Recovers(q: Queue, input: Input, id: Id) {
    && id in q.runs && q.runs[id].status.Succeeded? && Retained(q.runs[id], q.now)
    && ((input.retryOf.Some? && q.runs[id].retryOf == input.retryOf) || input.family == Some(q.runs[id].targetKey))
  }

  predicate SameWork(r: FileRun, input: Input, scope: Option<nat>) {
    && r.scopeRevision == scope && r.operation == input.operation && r.base == input.base
    && r.contentHash == input.contentHash && r.fileName == input.fileName && r.retryOf == input.retryOf
  }

  datatype Admission =
    | NotFound | PayloadChanged | Changed | TargetBusy | QueueFull
    | Replayed(run: Id) | Recovered(run: Id) | Shared(run: Id) | Created(row: FileRun)

  function ScopeOf(q: Queue, input: Input): Option<nat> {
    if input.target.Some? && input.target.value in q.sources then Some(q.sources[input.target.value].scopeRevision)
    else None
  }

  function NewRun(q: Queue, request: string, input: Input, key: Option<Id>): FileRun {
    FileRun(input.operation, KeyOf(input, request), input.target, input.base, ScopeOf(q, input), input.retryOf,
            input.fileName, input.contentHash, key, Queued, None, None, None, q.now, None, None)
  }

  ghost predicate AnyRecovers(q: Queue, input: Input) {
    exists id :: Recovers(q, input, id)
  }

  predicate ActiveOn(q: Queue, key: TargetKey, id: Id) {
    id in q.runs && Active(q.runs[id]) && q.runs[id].targetKey == key
  }

  /** The outcome of the reserving transaction; `found` is a run its lookups returned. */
  ghost predicate Reserves(q: Queue, request: string, fingerprint: Fingerprint, input: Input, key: Option<Id>,
                           a: Admission) {
    if request in q.requests then
      var entry := q.requests[request];
      a == if entry.run !in q.runs || !Retained(q.runs[entry.run], q.now) then NotFound
           else if entry.fingerprint != fingerprint then PayloadChanged else Replayed(entry.run)
    else if input.retryOf.Some?
            && (input.retryOf.value !in q.runs || !Retained(q.runs[input.retryOf.value], q.now)) then
      a == NotFound
    else if input.retryOf.Some? && AnyRecovers(q, input) then a.Recovered? && Recovers(q, input, a.run)
    else if input.target.Some? && (input.target.value !in q.sources || q.sources[input.target.value].deleted) then
      a == NotFound
    else if input.target.Some? && Some(q.sources[input.target.value].latestVersion) != input.base then a == Changed
    else if exists id :: ActiveOn(q, KeyOf(input, request), id) then
      exists id :: ActiveOn(q, KeyOf(input, request), id)
                   && a == if SameWork(q.runs[id], input, ScopeOf(q, input)) then Shared(id) else TargetBusy
    else if |ActiveRuns(q.runs)| >= QUEUE_LIMIT then a == QueueFull
    else a == Created(NewRun(q, request, input, key))
  }

  /* ---- cleanup ---- */

  function TargetOf(r: FileRun): Option<Id> {
    if r.resultOriginal.Some? then r.resultOriginal else r.target
  }

  predicate Removed(q: Queue, r: FileRun) {
    TargetOf(r).Some? && (TargetOf(r).value !in q.sources || q.sources[TargetOf(r).value].deleted)
  }

  /** Another run of the upload's family has succeeded. */
  predicate Answered(q: Queue, r: FileRun) {
    r.operation.Register? && !Active(r) && r.resultVersion.None?
    && exists id :: id in q.runs && q.runs[id].targetKey == r.targetKey && q.runs[id].status.Succeeded?
  }

  /** When cleanup gives up a pending input, judged from a copy of its row. */
  predicate Discardable(q: Queue, r: FileRun) {
    || Answered(q, r) || r.resultVersion.Some? || r.error == Some(SensitiveFile) || Removed(q, r)
    || !Retained(r, q.now)
  }

  predicate Referenced(q: Queue, key: Id) {
    exists id :: id in q.runs && q.runs[id].inputKey == Some(key)
  }

  /* ---- the transition system ---- */

  datatype Event =
    | Tick(now: nat)
    | ChangeSource(original: Id, source: Source)
    | WriteInput(key: Id)
    | Reserve(request: string, fingerprint: Fingerprint, input: Input, inputKey: Option<Id>, outcome: Admission, id: Id)
    | ReleaseInput
    | LeaveInput
    | Stop(id: Id)
    | Claim(id: Id)
    | Complete(id: Id, original: Id, version: Id, extracted: bool, source: Source)
    | FailRun(id: Id, code: ErrorCode)
    | EndExecution
    | ScanRow(id: Id)
    | DiscardInput(id: Id)
    | ForgetInput(id: Id)
    | EndScan
    | SweepKey(key: Id)
    | BeginClose
    | InterruptActive
    | InterruptQueued
    | Crash
    | Restart

  predicate SourceAdvances(q: Queue, original: Id, source: Source) {
    original in q.sources ==>
      (q.sources[original].deleted ==> source.deleted) && q.sources[original].scopeRevision <= source.scopeRevision
  }

  ghost predicate Enabled(q: Queue, e: Event) {
    match e
    case Tick(now) => q.now <= now
    case ChangeSource(original, source) => SourceAdvances(q, original, source)
    case WriteInput(key) => q.up && !q.closing && q.staged.None? && q.scans == map[] && key !in q.keys
    case Reserve(request, fingerprint, input, key, outcome, id) =>
      && q.up && key == q.staged && (FromUser(input, key) || FromRetry(q, input, key))
      && (key.Some? ==> !Referenced(q, key.value))
      && Reserves(q, request, fingerprint, input, key, outcome) && (outcome.Created? ==> id !in q.runs)
    case ReleaseInput => q.staged.Some?
    case LeaveInput => q.staged.Some?
    case Stop(id) => q.up && id in q.runs && Active(q.runs[id])
    case Claim(id) =>
      && q.up && !q.closing && q.active.None? && id in q.runs && q.runs[id].status.Queued?
      && (forall other :: other in q.runs ==> !q.runs[other].status.Running?)
      && (forall other :: other in q.runs && q.runs[other].status.Queued? ==>
            q.runs[id].createdAt < q.runs[other].createdAt
            || (q.runs[id].createdAt == q.runs[other].createdAt && id <= other))
    case Complete(id, original, version, _, source) =>
      && q.up && !q.closing && q.active == Some(id) && id in q.runs && q.runs[id].status.Running?
      && SourceAdvances(q, original, source) && !source.deleted
      && (q.runs[id].target.Some? ==> q.runs[id].target == Some(original))
      && (q.runs[id].scopeRevision.Some? ==> q.runs[id].scopeRevision.value == source.scopeRevision)
    case FailRun(id, _) => q.up && q.active == Some(id) && id in q.runs && q.runs[id].status.Running?
    case EndExecution => true
    case ScanRow(id) => q.up && q.staged.None? && id in q.runs && q.runs[id].inputKey.Some?
    case DiscardInput(id) => id in q.scans && Discardable(q, q.scans[id])
    case ForgetInput(id) => id in q.scans && Discardable(q, q.scans[id])
    case EndScan => true
    case SweepKey(key) => q.up && q.staged.None? && !Referenced(q, key)
    case BeginClose => true
    case InterruptActive => q.closing && q.active.Some?
    case InterruptQueued => q.closing && q.active.None? && q.staged.None?
    case Crash => true
    case Restart => !q.up
  }

  function Finished(r: FileRun, status: Status, error: Option<ErrorCode>, now: nat): FileRun {
    r.(status := status, error := error, completedAt := Some(now))
  }

  /** A conditional update that interrupts the listed rows. */
  function InterruptAll(runs: map<Id, FileRun>, ids: set<Id>, code: ErrorCode, now: nat): map<Id, FileRun> {
    map id | id in runs :: if id in ids then Finished(runs[id], Interrupted, Some(code), now) else runs[id]
  }

  function RunsIn(runs: map<Id, FileRun>, status: Status): set<Id> {
    set id | id in runs && runs[id].status == status
  }

  function Completed(r: FileRun, original: Id, version: Id, extracted: bool, source: Source, now: nat): FileRun {
    Finished(r, if extracted then Succeeded else Failed,
             if extracted then None else Some(Other("extraction_failed")), now)
      .(scopeRevision := if r.scopeRevision.Some? then r.scopeRevision else Some(source.scopeRevision),
        resultOriginal := Some(original), resultVersion := Some(version))
  }

  /** The compare-and-set that drops the key: it applies only if the key and status are still the ones seen. */
  function Forgotten(q: Queue, seen: FileRun, current: FileRun): FileRun {
    if current.inputKey != seen.inputKey || current.status != seen.status then current
    else if Active(seen) && Removed(q, seen)
      then Finished(current.(inputKey := None), Interrupted, Some(SourceUnavailable), q.now)
    else current.(inputKey := None)
  }

  function Effect(q: Queue, e: Event): Queue
    requires Enabled(q, e)
  {
    match e
    case Tick(now) => q.(now := now)
    case ChangeSource(original, source) => q.(sources := q.sources[original := source])
    case WriteInput(key) => q.(pending := q.pending + {key}, keys := q.keys + {key}, staged := Some(key))
    case Reserve(request, fingerprint, input, key, outcome, id) => (
      match outcome
      case Recovered(run) => q.(requests := q.requests[request := Request(run, fingerprint)])
      case Shared(run) => q.(requests := q.requests[request := Request(run, fingerprint)])
      case Created(row) => q.(runs := q.runs[id := row], requests := q.requests[request := Request(id, fingerprint)])
      case _ => q
    )
    case ReleaseInput =>
      q.(staged := None, pending := if Referenced(q, q.staged.value) then q.pending else q.pending - {q.staged.value})
    case LeaveInput => q.(staged := None)
    case Stop(id) => q.(runs := q.runs[id := Finished(q.runs[id], Interrupted, Some(UserStopped), q.now)])
    case Claim(id) =>
      q.(runs := q.runs[id := q.runs[id].(status := Running, startedAt := Some(q.now))], active := Some(id))
    case Complete(id, original, version, extracted, source) =>
      q.(runs := q.runs[id := Completed(q.runs[id], original, version, extracted, source, q.now)],
         sources := q.sources[original := source])
    case FailRun(id, code) =>
      var status := if code.SourceUnavailable? then Interrupted else Failed;
      q.(runs := q.runs[id := Finished(q.runs[id], status, Some(code), q.now)])
    case EndExecution => q.(active := None)
    case ScanRow(id) => q.(scans := q.scans[id := q.runs[id]])
    case DiscardInput(id) =>
      q.(pending := if q.scans[id].inputKey.Some? then q.pending - {q.scans[id].inputKey.value} else q.pending)
    case ForgetInput(id) =>
      q.(runs := if id in q.runs then q.runs[id := Forgotten(q, q.scans[id], q.runs[id])] else q.runs)
    case EndScan => q.(scans := map[])
    case SweepKey(key) => q.(pending := q.pending - {key})
    case BeginClose => q.(closing := true)
    case InterruptActive =>
      q.(runs := InterruptAll(q.runs, RunsIn(q.runs, Running) * {q.active.value}, ApiStopped, q.now))
    case InterruptQueued =>
      q.(runs := InterruptAll(q.runs, RunsIn(q.runs, Queued), ApiStopped, q.now), up := false, scans := map[])
    case Crash => q.(up := false, active := None, staged := None, scans := map[])
    case Restart =>
      q.(runs := InterruptAll(q.runs, ActiveRuns(q.runs), ApiRestarted, q.now), up := true, closing := false)
  }

  /** Events that cannot happen leave the queue unchanged. */
  ghost function Apply(q: Queue, e: Event): Queue {
    if Enabled(q, e) then Effect(q, e) else q
  }

  ghost function RunFrom(q: Queue, events: seq<Event>): Queue {
    if events == [] then q else Apply(RunFrom(q, events[..|events| - 1]), events[|events| - 1])
  }
}
