/** The service object of the run queue: its methods update the tables and the pending store in place. */
module FileRuns {
  import opened Results
  import opened RunQueue
  import opened RunQueueSafety
  import opened PendingInputs
  import opened RunInterference
  import opened RunCleanup

  const PAGE: nat := 100

  class FileRunService {
    var runs: map<Id, FileRun>
    var requests: map<string, Request>
    var sources: map<Id, Source>
    var pending: set<Id>
    var keys: set<Id>
    var staged: Option<Id>
    var scans: map<Id, FileRun>
    var active: Option<Id>
    var up: bool
    var closing: bool
    var now: nat
    /** How often other transactions have had their turn. */
    var turn: nat

    constructor ()
      ensures Consistent() && Contents() == EMPTY_QUEUE
    {
      runs, requests, sources, pending, keys, staged := map[], map[], map[], {}, {}, None;
      scans, active, up, closing, now, turn := map[], None, false, false, 0, 0;
      new;
      EmptyQueueIsSound();
    }

    function Contents(): Queue
      reads this
    {
      Queue(runs, requests, sources, pending, keys, staged, scans, active, up, closing, now)
    }

    ghost predicate Consistent()
      reads this
    {
      Sound(Contents())
    }

    /**
     * The reserving transaction. It replays, joins or recovers an existing run when it can, creates one when it
     * must, and otherwise changes nothing; the answer is the one the queue's rules prescribe.
     */
    method Reserve(request: string, fingerprint: Fingerprint, input: Input, id: Id) returns (outcome: Admission)
      requires Consistent() && up && id !in runs
      requires FromUser(input, staged) || FromRetry(Contents(), input, staged)
      requires staged.Some? ==> !Referenced(Contents(), staged.value)
      modifies this`runs, this`requests
      ensures Consistent()
      ensures Reserves(old(Contents()), request, fingerprint, input, staged, outcome)
      ensures Enabled(old(Contents()), Event.Reserve(request, fingerprint, input, staged, outcome, id))
      ensures Contents() == Apply(old(Contents()), Event.Reserve(request, fingerprint, input, staged, outcome, id))
    {
      hide Sound, FromUser, FromRetry;
      ghost var before := Contents();
      outcome := Decide(request, fingerprint, input);
      ApplyKeepsSound(before, Event.Reserve(request, fingerprint, input, staged, outcome, id));
      hide Reserves;
      match outcome {
        case Recovered(run) => requests := requests[request := Request(run, fingerprint)];
        case Shared(run) => requests := requests[request := Request(run, fingerprint)];
        case Created(row) =>
          runs := runs[id := row];
          requests := requests[request := Request(id, fingerprint)];
        case _ =>
      }
    }

    /** Other transactions commit while this process holds the staging lock. */
    method Pause(others: Others)
      requires Consistent() && Harmless(others)
      modifies this
      ensures Consistent() && Passes(old(Contents()), Contents()) && SameBytes(old(Contents()), Contents())
      ensures Contents() == others(old(turn), old(Contents()))
    {
      hide Sound, Passes, SameBytes, Harmless;
      var q := others(turn, Contents());
      HarmlessPasses(others, turn, Contents());
      Become(q);
    }

    method Become(q: Queue)
      modifies this
      ensures Contents() == q && turn == old(turn) + 1
    {
      runs, requests, sources, pending, keys := q.runs, q.requests, q.sources, q.pending, q.keys;
      staged, scans, active, up, closing, now := q.staged, q.scans, q.active, q.up, q.closing, q.now;
      turn := turn + 1;
    }

    /**
     * A whole admission under the staging lock: the bytes are written before the reserving transaction, and
     * removed again unless a run refers to them. The connection may be lost before or after the commit, and the
     * last look at the rows may fail; only then can bytes stay behind without a run, for a later cleanup.
     */
    method Acknowledge(request: string, fingerprint: Fingerprint, input: Input, bytes: Option<Id>, id: Id,
                       link: Link, looks: bool, others: Others)
      returns (outcome: Option<Admission>, ghost at: Queue)
      requires Consistent() && Harmless(others) && up && !closing && staged.None? && scans == map[] && id !in runs
      requires FromUser(input, bytes) || FromRetry(Contents(), input, bytes)
      requires bytes.Some? ==> bytes.value !in keys && bytes.value !in pending
      modifies this
      ensures Consistent() && staged.None?
      ensures outcome.Some? <==> link.Held? && (bytes.None? || looks)
      ensures Passes(if bytes.Some? then Staged(old(Contents()), bytes.value) else old(Contents()), at)
      ensures outcome.Some? ==> Reserves(at, request, fingerprint, input, bytes, outcome.value)
      ensures outcome.Some? ==> (outcome.value.Created? <==> id in runs)
      ensures link.LostBefore? ==> id !in runs
      ensures runs.Keys - {id} == old(runs).Keys && (id in runs ==> runs[id].inputKey == bytes)
      ensures pending == old(pending) + if bytes.Some? && (!looks || id in runs) then {bytes.value} else {}
    {
      hide Sound, FromUser, FromRetry, Reserves, Referenced, Passes, SameBytes, Enabled, Apply, Harmless;
      ghost var before := Contents();
      if bytes.Some? {
        StagingIsAside(before, input, bytes.value);
        Stage(bytes.value);
      }
      ghost var written := Contents();
      Pause(others);
      at := Contents();
      StillAsked(written, at, input, bytes);
      SameBytesMean(written, at, bytes);
      outcome := None;
      if !link.LostBefore? {
        var answer := Reserve(request, fingerprint, input, id);
        ReserveWrites(at, request, fingerprint, input, bytes, answer, id);
        if link.Held? { outcome := Some(answer); }
      }
      OnlyCreatedRefers(at, Contents(), bytes, id);
      Settle(bytes, looks, others);
      if bytes.Some? && !looks { outcome := None; }
    }

    /** The end of an admission: the staged bytes go unless a run refers to them or the look at the rows fails. */
    method Settle(bytes: Option<Id>, looks: bool, others: Others)
      requires Consistent() && Harmless(others) && staged == bytes
      modifies this
      ensures Consistent() && staged.None? && runs.Keys == old(runs).Keys
      ensures forall id :: id in runs ==> runs[id].inputKey == old(runs)[id].inputKey
      ensures pending == if bytes.Some? && looks && !Referenced(old(Contents()), bytes.value)
                         then old(pending) - {bytes.value} else old(pending)
    {
      hide Sound, Passes, SameBytes, Harmless, Referenced;
      ghost var reserved := Contents();
      Pause(others);
      SameBytesMean(reserved, Contents(), bytes);
      if bytes.Some? {
        if looks { Release(bytes.value); } else { Leave(); }
      }
    }

    method Stage(key: Id)
      requires Consistent() && up && !closing && staged.None? && scans == map[] && key !in keys
      modifies this`pending, this`keys, this`staged
      ensures Consistent() && Contents() == Staged(old(Contents()), key)
    {
      hide Sound;
      ApplyKeepsSound(Contents(), WriteInput(key));
      pending := pending + {key};
      keys := keys + {key};
      staged := Some(key);
    }

    /** Whatever became of the admission: bytes that no run refers to go. */
    method Release(key: Id)
      requires Consistent() && staged == Some(key)
      modifies this`pending, this`staged
      ensures Consistent() && staged.None?
      ensures pending == if old(Referenced(Contents(), key)) then old(pending) else old(pending) - {key}
    {
      hide Sound;
      ApplyKeepsSound(Contents(), ReleaseInput);
      if !Referenced(Contents(), key) { pending := pending - {key}; }
      staged := None;
    }

    /** It is not known whether a run refers to the bytes, so they stay. */
    method Leave()
      requires Consistent() && staged.Some?
      modifies this`staged
      ensures Consistent() && staged.None?
    {
      hide Sound;
      ApplyKeepsSound(Contents(), LeaveInput);
      staged := None;
    }

    method Decide(request: string, fingerprint: Fingerprint, input: Input) returns (outcome: Admission)
      ensures Reserves(Contents(), request, fingerprint, input, staged, outcome)
    {
      if request in requests {
        var entry := requests[request];
        if entry.run !in runs || !Retained(runs[entry.run], now) { return NotFound; }
        if entry.fingerprint != fingerprint { return PayloadChanged; }
        return Replayed(entry.run);
      }
      if input.retryOf.Some? {
        var parent := input.retryOf.value;
        if parent !in runs || !Retained(runs[parent], now) { return NotFound; }
        var recovered := set r | r in runs && Recovers(Contents(), input, r);
        if recovered != {} {
          var run :| run in recovered;
          return Recovered(run);
        }
        assert forall r :: Recovers(Contents(), input, r) ==> r in recovered;
      }
      if input.target.Some? {
        var target := input.target.value;
        if target !in sources || sources[target].deleted { return NotFound; }
        if Some(sources[target].latestVersion) != input.base { return Changed; }
      }
      var busy := set r | r in runs && ActiveOn(Contents(), KeyOf(input, request), r);
      if busy != {} {
        var run :| run in busy;
        return if SameWork(runs[run], input, ScopeOf(Contents(), input)) then Shared(run) else TargetBusy;
      }
      assert forall r :: ActiveOn(Contents(), KeyOf(input, request), r) ==> r in busy;
      if |ActiveRuns(runs)| >= QUEUE_LIMIT { return QueueFull; }
      return Created(NewRun(Contents(), request, input, staged));
    }

    /** Interrupts an active run; a run that has finished is left alone and reported. */
    method Stop(id: Id) returns (stopped: bool)
      requires Consistent() && up
      modifies this`runs
      ensures Consistent()
      ensures stopped <==> id in old(runs) && Active(old(runs)[id])
      ensures Contents() == Apply(old(Contents()), Event.Stop(id))
      ensures !stopped ==> runs == old(runs)
    {
      hide Sound;
      ApplyKeepsSound(Contents(), Event.Stop(id));
      stopped := id in runs && Active(runs[id]);
      if stopped {
        runs := runs[id := Finished(runs[id], Interrupted, Some(UserStopped), now)];
      }
    }

    /** The queued run that was created first, if any. */
    method OldestQueued() returns (oldest: Option<Id>)
      ensures oldest.None? <==> forall id :: id in runs ==> !runs[id].status.Queued?
      ensures oldest.Some? ==> oldest.value in runs && runs[oldest.value].status.Queued?
                               && forall id :: id in runs && runs[id].status.Queued? ==> !Before(runs, id, oldest.value)
    {
      oldest := None;
      var rest := runs.Keys;
      while rest != {}
        invariant rest <= runs.Keys
        invariant oldest.None? ==> forall id :: id in runs && id !in rest ==> !runs[id].status.Queued?
        invariant oldest.Some? ==> oldest.value in runs && runs[oldest.value].status.Queued?
        invariant oldest.Some? ==>
                    forall id :: id in runs && id !in rest && runs[id].status.Queued? ==>
                      !Before(runs, id, oldest.value)
        decreases rest
      {
        var id :| id in rest;
        if runs[id].status.Queued? && (oldest.None? || Before(runs, id, oldest.value)) {
          oldest := Some(id);
        }
        rest := rest - {id};
      }
    }

    /** Claims the oldest queued run for this process, unless one is still running or being executed. */
    method ClaimNext() returns (claimed: Option<Id>)
      requires Consistent() && up && !closing && active.None?
      modifies this`runs, this`active
      ensures Consistent()
      ensures claimed.Some? ==> Contents() == Apply(old(Contents()), Claim(claimed.value)) && active == claimed
                                && runs[claimed.value].status.Running?
      ensures claimed.None? ==> runs == old(runs) && active == old(active)
      ensures claimed.None? <==>
        || (exists id :: id in old(runs) && old(runs)[id].status.Running?)
        || (forall id :: id in old(runs) ==> !old(runs)[id].status.Queued?)
    {
      hide Sound;
      if exists id | id in runs :: runs[id].status.Running? { return None; }
      claimed := OldestQueued();
      if claimed.Some? {
        ApplyKeepsSound(Contents(), Claim(claimed.value));
        runs := runs[claimed.value := runs[claimed.value].(status := Running, startedAt := Some(now))];
        active := claimed;
      }
    }

    /** Still running, and its source still has the revision the run was admitted under. */
    static predicate InStep(r: FileRun, source: Source) {
      r.status.Running? && (r.scopeRevision.Some? ==> r.scopeRevision.value == source.scopeRevision)
    }

    /** Records the outcome with the stored version, in one transaction; it fails if the run or its source moved on. */
    method Complete(id: Id, original: Id, version: Id, extracted: bool, source: Source) returns (recorded: bool)
      requires Consistent() && up && active == Some(id) && SourceAdvances(Contents(), original, source)
      requires id in runs && runs[id].target.Some? ==> runs[id].target == Some(original)
      modifies this`runs, this`sources
      ensures Consistent()
      ensures recorded ==>
                Contents() == Apply(old(Contents()), Event.Complete(id, original, version, extracted, source))
                           && id in runs && runs[id].status == (if extracted then Succeeded else Failed)
                           && runs[id].resultVersion == Some(version)
      ensures !recorded ==> Contents() == old(Contents())
      ensures recorded <==> !closing && !source.deleted && id in old(runs) && InStep(old(runs)[id], source)
    {
      hide Sound, SourceAdvances;
      if closing || source.deleted || id !in runs { return false; }
      if runs[id].scopeRevision.Some? && runs[id].scopeRevision.value != source.scopeRevision { return false; }
      if !runs[id].status.Running? { return false; }
      ApplyKeepsSound(Contents(), Event.Complete(id, original, version, extracted, source));
      runs := runs[id := Completed(runs[id], original, version, extracted, source, now)];
      sources := sources[original := source];
      return true;
    }

    /** A new owner interrupts whatever the previous process left queued or running. */
    method Restart()
      requires Consistent() && !up
      modifies this`runs, this`up, this`closing
      ensures Consistent() && Contents() == Apply(old(Contents()), Event.Restart)
      ensures forall id :: id in runs ==> !Active(runs[id])
    {
      hide Sound;
      ApplyKeepsSound(Contents(), Event.Restart);
      runs := InterruptAll(runs, ActiveRuns(runs), ApiRestarted, now);
      up, closing := true, false;
    }

    /* ---- cleanup ---- */

    static method Smallest(ids: set<Id>) returns (least: Id)
      requires ids != {}
      ensures least in ids && forall id :: id in ids ==> least <= id
    {
      least :| least in ids;
      var rest := ids - {least};
      while rest != {}
        invariant rest <= ids && least in ids && forall id :: id in ids && id !in rest ==> least <= id
        decreases rest
      {
        var id :| id in rest;
        if id < least { least := id; }
        rest := rest - {id};
      }
    }

    /** The next ids behind the cursor, least first. */
    method NextIds(only: Option<Id>, cursor: Option<Id>) returns (page: seq<Id>)
      ensures |page| <= PAGE && (page == [] <==> Ahead(runs, only, cursor) == {})
      ensures Ascending(page) && forall k :: 0 <= k < |page| ==> page[k] in Ahead(runs, only, cursor)
      ensures forall id :: id in Ahead(runs, only, cursor) && id !in page ==> page[|page| - 1] < id
    {
      var all := Ahead(runs, only, cursor);
      page := [];
      var rest := all;
      while rest != {} && |page| < PAGE
        invariant |page| <= PAGE && rest <= all && (page == [] ==> rest == all)
        invariant Ascending(page) && forall k :: 0 <= k < |page| ==> page[k] in all
        invariant forall id :: id in all ==> id in page || id in rest
        invariant page != [] ==> forall id :: id in rest ==> page[|page| - 1] < id
        decreases rest
      {
        var id := Smallest(rest);
        page := page + [id];
        rest := rest - {id};
      }
      assert page != [] ==> page[0] in all;
    }

    /** One query: copies of the next rows in the order of their ids. */
    method ReadPage(only: Option<Id>, cursor: Option<Id>) returns (page: seq<Id>)
      requires Consistent() && up && staged.None?
      modifies this`scans
      ensures Consistent() && Passes(old(Contents()), Contents())
      ensures |page| <= PAGE && (page == [] <==> Ahead(runs, only, cursor) == {})
      ensures Ascending(page) && forall k :: 0 <= k < |page| ==> page[k] in Ahead(runs, only, cursor)
      ensures forall id :: id in Ahead(runs, only, cursor) && id !in page ==> page[|page| - 1] < id
      ensures forall k :: 0 <= k < |page| ==> page[k] in scans && scans[page[k]] == runs[page[k]]
    {
      hide Sound, Passes, Ascending;
      page := NextIds(only, cursor);
      PageScans(Contents(), page);
      scans := Copies(runs, page);
    }

    /**
     * Judges a copied row by separate reads: its original, then the other runs of its family, with the cutoff fixed at
     * the start of the cleanup. A row that could be discarded before the reads is recognised, and only such a row is.
     */
    method Judge(id: Id, start: nat, others: Others) returns (discard: bool, removed: bool)
      requires Consistent() && Harmless(others) && id in scans && start <= now
      modifies this
      ensures Consistent() && Passes(old(Contents()), Contents()) && SameBytes(old(Contents()), Contents())
      ensures DiscardableAt(old(Contents()), scans[id], start) ==> discard
      ensures discard ==> DiscardableAt(Contents(), scans[id], start)
      ensures removed ==> Removed(Contents(), scans[id])
      ensures discard && Active(scans[id]) ==> removed
      ensures Alone(others) ==> Contents() == old(Contents())
    {
      hide Sound, Passes, SameBytes, Lasting, Removed, Answered;
      ghost var before := Contents();
      var row := scans[id];
      CopyIsOfRow(before, id);
      removed := Removed(Contents(), row);
      Pause(others);
      CopiesStay(before, Contents(), id);
      Stays(before, Contents(), row, start);
      var recovered := Answered(Contents(), row);
      discard := recovered || row.resultVersion.Some? || row.error == Some(SensitiveFile) || removed
        || !Retained(row, start);
      JudgedRight(before, Contents(), row, start, removed, recovered);
    }

    /** One row of the cleanup: it is judged, and if discardable its blob goes before its key. */
    method CleanRow(id: Id, start: nat, others: Others)
      requires Consistent() && Harmless(others) && id in scans && start <= now
      modifies this
      ensures Consistent() && Passes(old(Contents()), Contents()) && scans == old(scans)
      ensures forall other :: other in runs && other != id ==> runs[other].inputKey == old(runs)[other].inputKey
      ensures scans[id].inputKey.Some? && DiscardableAt(old(Contents()), scans[id], start) ==>
                GivenUp(scans[id], Contents(), id)
      ensures Alone(others) ==> Cleaned(old(Contents()), Contents(), id, start)
    {
      hide Sound, Passes, SameBytes, DiscardableAt, Removed, Evolves, GivenUp, Cleaned, Alone, Harmless;
      ghost var before := Contents();
      CopyIsOfRow(before, id);
      var discard, removed := Judge(id, start, others);
      ghost var judged := Contents();
      CopiesStay(before, judged, id);
      if discard && scans[id].inputKey.Some? {
        Discard(id, start, removed, others);
        PassesOn(before, judged, Contents());
      } else {
        LeftAlone(before, id, start);
      }
    }

    /** A row that may be discarded: its blob goes before its key. */
    method Discard(id: Id, start: nat, removed: bool, others: Others)
      requires Consistent() && Harmless(others) && id in scans && scans[id].inputKey.Some? && start <= now
      requires DiscardableAt(Contents(), scans[id], start)
      requires (removed ==> Removed(Contents(), scans[id])) && (Active(scans[id]) ==> removed)
      modifies this
      ensures Consistent() && Passes(old(Contents()), Contents()) && scans == old(scans)
      ensures runs.Keys == old(runs).Keys && id in runs && GivenUp(scans[id], Contents(), id)
      ensures forall other :: other in runs && other != id ==> runs[other].inputKey == old(runs)[other].inputKey
      ensures Alone(others) ==> Cleaned(old(Contents()), Contents(), id, start)
    {
      hide Sound, Passes, Forgotten, DiscardableAt, Removed, Evolves, GivenUp, Cleaned, Alone, Harmless;
      ghost var judged := Contents();
      CopyIsOfRow(judged, id);
      DropBytes(id, start, others);
      ghost var dropped := Contents();
      Stays(judged, dropped, scans[id], start);
      DropKey(id, start, removed, others);
      PassesOn(judged, dropped, Contents());
      if Alone(others) { CleanedAlone(judged, dropped, Contents(), id, start); }
    }

    /** The others have a turn, then the blob of a copied row that may be discarded goes. */
    method DropBytes(id: Id, start: nat, others: Others)
      requires Consistent() && Harmless(others) && id in scans && scans[id].inputKey.Some? && start <= now
      requires DiscardableAt(Contents(), scans[id], start)
      modifies this
      ensures Consistent() && Passes(old(Contents()), Contents()) && scans == old(scans) && start <= now
      ensures scans[id].inputKey.value !in pending && runs.Keys == old(runs).Keys
      ensures forall other :: other in runs ==> runs[other].inputKey == old(runs)[other].inputKey
      ensures Alone(others) ==> Contents() == old(Contents()).(pending := pending)
    {
      hide Sound, Passes, SameBytes, DiscardableAt, Discardable, Enabled, Effect, Harmless;
      ghost var judged := Contents();
      Pause(others);
      ghost var held := Contents();
      CopyIsOfRow(judged, id);
      CopiesStay(judged, held, id);
      Stays(judged, held, scans[id], start);
      DiscardableSince(held, scans[id], start);
      MayDiscard(held, id);
      EventPasses(held, DiscardInput(id));
      DiscardEffect(held, id);
      pending := pending - {scans[id].inputKey.value};
      PassesOn(judged, held, Contents());
    }

    /** The others have a turn, then the key of a copied row whose blob is gone goes, unless the row has moved on. */
    method DropKey(id: Id, start: nat, removed: bool, others: Others)
      requires Consistent() && Harmless(others) && id in scans && scans[id].inputKey.Some? && start <= now
      requires DiscardableAt(Contents(), scans[id], start) && scans[id].inputKey.value !in pending
      requires (removed ==> Removed(Contents(), scans[id])) && (Active(scans[id]) ==> removed)
      modifies this
      ensures Consistent() && Passes(old(Contents()), Contents()) && scans == old(scans)
      ensures runs.Keys == old(runs).Keys && id in runs && GivenUp(scans[id], Contents(), id)
      ensures forall other :: other in runs && other != id ==> runs[other].inputKey == old(runs)[other].inputKey
      ensures Alone(others) ==> Contents() == WithForgotten(old(Contents()), id)
    {
      hide Sound, Passes, SameBytes, DiscardableAt, Removed, Evolves, GivenUp, Forgotten, Harmless, Alone;
      ghost var dropped := Contents();
      Pause(others);
      ghost var last := Contents();
      CopyIsOfRow(dropped, id);
      CopiesStay(dropped, last, id);
      Stays(dropped, last, scans[id], start);
      ForgetKey(id, start, removed);
      PassesOn(dropped, last, Contents());
      AloneStays(others);
    }

    /** The compare-and-set on the row. */
    method ForgetKey(id: Id, start: nat, removed: bool)
      requires Consistent() && id in scans && scans[id].inputKey.Some? && start <= now
      requires DiscardableAt(Contents(), scans[id], start) && scans[id].inputKey.value !in pending
      requires (removed ==> Removed(Contents(), scans[id])) && (Active(scans[id]) ==> removed)
      modifies this`runs
      ensures Consistent() && Passes(old(Contents()), Contents())
      ensures id in old(runs) && Contents() == WithForgotten(old(Contents()), id) && GivenUp(scans[id], Contents(), id)
    {
      hide Sound, Passes, DiscardableAt, Discardable, Enabled, Effect, Removed, Evolves, GivenUp, Forgotten;
      ghost var last := Contents();
      var row := scans[id];
      CopyIsOfRow(last, id);
      DiscardableSince(last, row, start);
      MayDiscard(last, id);
      EventPasses(last, ForgetInput(id));
      ForgetEffect(last, id, row, removed);
      if runs[id].inputKey == row.inputKey && runs[id].status == row.status {
        runs := runs[id := if Active(row) && removed
                           then Finished(runs[id].(inputKey := None), Interrupted, Some(SourceUnavailable), now)
                           else runs[id].(inputKey := None)];
      } else {
        assert runs[id := runs[id]] == runs;
      }
      ForgottenIsGivenUp(last, Contents(), id, row);
    }

    /** The rows of one page, one after the other. */
    method CleanPage(page: seq<Id>, start: nat, others: Others)
      requires Consistent() && Harmless(others) && start <= now && Ascending(page)
      requires forall id :: id in page ==> id in scans && id in runs && scans[id] == runs[id]
      modifies this
      ensures Consistent() && Passes(old(Contents()), Contents())
      ensures forall id :: id in runs && id !in page ==> runs[id].inputKey == old(runs)[id].inputKey
      ensures PageGivenUp(old(Contents()), Contents(), page, start)
      ensures Alone(others) && start == old(now) ==> Tidied(old(Contents()), Contents(), page)
    {
      hide Sound, Passes, PageGivenUp, Tidied, Cleaned, Alone, DiscardableAt, GivenUp, Harmless, Ascending;
      ghost var before := Contents();
      PassesSelf(before);
      NothingDone(before, start);
      for k := 0 to |page|
        invariant Consistent() && Passes(before, Contents()) && scans == before.scans && start <= now
        invariant runs.Keys == before.runs.Keys
        invariant forall id :: id in runs && id !in page[..k] ==> runs[id].inputKey == before.runs[id].inputKey
        invariant PageGivenUp(before, Contents(), page[..k], start)
        invariant Alone(others) && start == before.now ==> Tidied(before, Contents(), page[..k])
      {
        ghost var middle := Contents();
        CleanRow(page[k], start, others);
        NotBefore(page, k);
        SameKeys(before, middle);
        SameKeys(middle, Contents());
        PassesOn(before, middle, Contents());
        PageStep(before, middle, Contents(), page[..k], page[k], start);
        if Alone(others) && start == before.now { TidyStep(before, middle, Contents(), page[..k], page[k]); }
        assert page[..k + 1] == page[..k] + [page[k]];
      }
      assert page[..|page|] == page;
    }

    /** All pages behind each other; `read` holds, for each row, the queue at the time of the query that read it. */
    method CleanRows(only: Option<Id>, others: Others) returns (ghost read: map<Id, Queue>)
      requires Consistent() && Harmless(others) && up && staged.None?
      modifies this
      ensures Consistent() && Passes(old(Contents()), Contents())
      ensures AllSeen(old(Contents()), Contents(), read, only)
      ensures Alone(others) ==> AllTidy(old(Contents()), Contents(), only)
    {
      hide Sound, Passes, SameBytes, KeysAhead, SeenUpTo, TidyUpTo, AllSeen;
      hide AllTidy, PageGivenUp, Tidied, Alone, Harmless, Ascending;
      ghost var first := Contents();
      var start := now;
      var cursor := None;
      read := map[];
      PassesSelf(first);
      NoneSeen(first, only);
      while true
        invariant Consistent() && Passes(first, Contents()) && start <= now && up && staged.None?
        invariant KeysAhead(first, Contents(), cursor)
        invariant SeenUpTo(first, Contents(), read, only, cursor)
        invariant Alone(others) ==> TidyUpTo(first, Contents(), only, cursor)
        decreases Ahead(runs, only, cursor)
      {
        ghost var before := Contents();
        Pause(others);
        ghost var paused := Contents();
        SameKeys(before, paused);
        var page := ReadPage(only, cursor);
        ghost var at := Contents();
        AloneStays(others);
        PageRead(first, before, paused, at, read, only, cursor);
        if page == [] {
          EndOfPages(first, at, read, only, cursor);
          return;
        }
        CleanPage(page, start, others);
        PageCleaned(first, at, Contents(), page, read, only, cursor);
        SameKeys(at, Contents());
        read := Reread(read, page, at);
        cursor := Some(page[|page| - 1]);
      }
    }

    /** One stored key: the look at the rows and the removal are separate steps. */
    method SweepKey(key: Id, others: Others)
      requires Consistent() && Harmless(others) && up && staged.None?
      modifies this
      ensures Consistent() && Passes(old(Contents()), Contents()) && SameNames(old(Contents()), Contents())
      ensures pending == if Referenced(Contents(), key) then old(pending) else old(pending) - {key}
      ensures Alone(others) ==> Contents() == old(Contents()).(pending := pending)
    {
      hide Sound, Passes, SameBytes, SameNames, Referenced, Alone, Harmless, Enabled, Effect;
      ghost var before := Contents();
      Pause(others);
      ghost var looked := Contents();
      var named := Referenced(Contents(), key);
      Pause(others);
      ghost var last := Contents();
      NamesStay(before, looked, last, key);
      AloneStays(others);
      if !named {
        SweepIsEnabled(last, key);
        EventPasses(last, Event.SweepKey(key));
        pending := pending - {key};
        PassesOn(before, last, Contents());
      }
      NamesKept(before, last, Contents(), key);
    }

    /** Every stored key that no row names goes. */
    method SweepKeys(others: Others)
      requires Consistent() && Harmless(others) && up && staged.None?
      modifies this
      ensures Consistent() && Passes(old(Contents()), Contents()) && SameNames(old(Contents()), Contents())
      ensures forall key :: key in pending <==> key in old(pending) && Referenced(Contents(), key)
      ensures Alone(others) ==> Contents() == old(Contents()).(pending := pending)
    {
      hide Sound, Passes, SameNames, Referenced, Alone, Harmless;
      ghost var first := Contents();
      PassesSelf(first);
      SameNamesSelf(first);
      var rest := pending;
      while rest != {}
        invariant Consistent() && Passes(first, Contents()) && SameNames(first, Contents())
        invariant up && staged.None? && rest <= pending <= first.pending
        invariant forall key :: key in first.pending && key !in rest ==> (key in pending <==> Referenced(first, key))
        invariant Alone(others) ==> Contents() == first.(pending := pending)
        decreases rest
      {
        ghost var before := Contents();
        var key :| key in rest;
        SweepKey(key, others);
        SweptOne(first, before, Contents(), key);
        rest := rest - {key};
      }
      AllNamesSame(first, Contents());
    }

    /**
     * The cleanup of one run's input or of all, then of stray keys, while other transactions commit. Inputs that were
     * discardable when it began are given up; after a full cleanup exactly the named keys are stored.
     */
    method Cleanup(only: Option<Id>, others: Others) returns (ghost read: map<Id, Queue>)
      requires Consistent() && Harmless(others) && up && staged.None?
      modifies this
      ensures Consistent() && Passes(old(Contents()), Contents()) && scans == map[]
      ensures AllSeen(old(Contents()), Contents(), read, only)
      ensures forall id :: id in old(runs) && Wanted(only, id) && DiscardableInput(old(Contents()), id) ==>
                id in runs && GivenUp(old(runs)[id], Contents(), id)
      ensures only.None? ==> forall key :: key in pending ==> Referenced(Contents(), key)
      ensures forall id :: id in runs && runs[id].inputKey.Some? && runs[id].inputKey.value !in pending ==>
                DiscardableInput(Contents(), id)
      ensures Alone(others) ==> forall id :: id in runs && Wanted(only, id) ==> !DiscardableInput(Contents(), id)
    {
      hide Sound, Passes, AllSeen, AllTidy, SameNames, Referenced, GivenUp, DiscardableInput, Alone, Harmless;
      ghost var first := Contents();
      read := CleanRows(only, others);
      ghost var cleaned := Contents();
      SameKeys(first, cleaned);
      PassesSelf(cleaned);
      if only.None? { SweepKeys(others); }
      ghost var swept := Contents();
      EndOfScan(swept);
      EventPasses(swept, EndScan);
      scans := map[];
      PassesOn(first, cleaned, swept);
      PassesOn(first, swept, Contents());
      PassesOn(cleaned, swept, Contents());
      AllSeenLasts(first, cleaned, Contents(), read, only);
      AllGivenUp(first, Contents(), read, only);
      NeededArePending(Contents());
      SameRunsSameNames(swept, Contents());
      if Alone(others) { AllStayTidy(first, cleaned, Contents(), only); }
    }
  }

  /** What becomes of the connection during the reserving transaction. */
  datatype Link = Held | LostBefore | LostAfter

  predicate Before(runs: map<Id, FileRun>, a: Id, b: Id)
    requires a in runs && b in runs
  {
    runs[a].createdAt < runs[b].createdAt || (runs[a].createdAt == runs[b].createdAt && a < b)
  }

  function Staged(q: Queue, key: Id): Queue {
    q.(pending := q.pending + {key}, keys := q.keys + {key}, staged := Some(key))
  }

  /** Staged bytes do not change what a request may ask, and no run refers to them. */
  lemma StagingIsAside(q: Queue, input: Input, key: Id)
    requires Sound(q) && key !in q.keys
    ensures FromRetry(Staged(q, key), input, Some(key)) == FromRetry(q, input, Some(key))
    ensures !Referenced(Staged(q, key), key)
  {
    hide Discardable, PairsValid, Stocked;
    forall id | id in q.runs ensures q.runs[id].inputKey != Some(key) { assert RowValid(q, id); }
  }

  /** The request still stands after the others had their turn. */
  lemma StillAsked(q: Queue, t: Queue, input: Input, key: Option<Id>)
    requires Passes(q, t) && (FromUser(input, key) || FromRetry(q, input, key))
    ensures FromUser(input, key) || FromRetry(t, input, key)
  {
    hide Passes;
    if FromRetry(q, input, key) { RetryLasts(q, t, input, key); }
  }

  lemma SameBytesMean(q: Queue, t: Queue, key: Option<Id>)
    requires SameBytes(q, t)
    ensures t.runs.Keys == q.runs.Keys && t.pending == q.pending && t.staged == q.staged && t.up == q.up
    ensures forall id :: id in q.runs ==> t.runs[id].inputKey == q.runs[id].inputKey
    ensures key.Some? ==> Referenced(t, key.value) == Referenced(q, key.value)
  {
    if key.Some? { SameReferences(q, t, key.value); }
  }

  /** The reserve event writes at most one run, with the staged bytes as its input, and no bytes. */
  lemma ReserveWrites(q: Queue, request: string, fingerprint: Fingerprint, input: Input, key: Option<Id>, a: Admission,
                      id: Id)
    requires Enabled(q, Event.Reserve(request, fingerprint, input, key, a, id))
    ensures var t := Apply(q, Event.Reserve(request, fingerprint, input, key, a, id));
      && t.runs == (if a.Created? then q.runs[id := a.row] else q.runs)
      && t.pending == q.pending && t.staged == q.staged && (a.Created? ==> a.row.inputKey == key)
  {
    hide FromUser, FromRetry, Referenced, Recovers, ActiveOn, SameWork;
  }

  lemma OnlyCreatedRefers(q: Queue, t: Queue, key: Option<Id>, id: Id)
    requires id !in q.runs && (key.Some? ==> !Referenced(q, key.value))
    requires t.runs == q.runs || (id in t.runs && t.runs == q.runs[id := t.runs[id]] && t.runs[id].inputKey == key)
    ensures key.Some? ==> (Referenced(t, key.value) <==> id in t.runs)
  {
    if id in t.runs { assert t.runs[id].inputKey == key; }
  }
}
