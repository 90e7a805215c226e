/**
 * What one cleanup of the pending inputs achieves, step by step, while other transactions commit: lemmas for
 * FileRuns.
 */
module RunCleanup {
  import opened Results
  import opened RunQueue
  import opened RunQueueSafety
  import opened PendingInputs
  import opened RunInterference

  predicate Wanted(only: Option<Id>, id: Id) {
    only.Some? ==> id == only.value
  }

  /** The rows with an input key behind the cursor, of one run or of all. */
  function Ahead(runs: map<Id, FileRun>, only: Option<Id>, cursor: Option<Id>): set<Id> {
    set id | id in runs && Wanted(only, id) && runs[id].inputKey.Some? && (cursor.Some? ==> id > cursor.value)
  }

  function Copies(runs: map<Id, FileRun>, page: seq<Id>): map<Id, FileRun>
    requires forall id :: id in page ==> id in runs
  {
    map id | id in page :: runs[id]
  }

  predicate Ascending(page: seq<Id>) {
    forall j, k :: 0 <= j < k < |page| ==> page[j] < page[k]
  }

  lemma ScanIsEnabled(q: Queue, id: Id)
    requires q.up && q.staged.None? && id in q.runs && q.runs[id].inputKey.Some?
    ensures Enabled(q, ScanRow(id)) && Effect(q, ScanRow(id)) == q.(scans := q.scans[id := q.runs[id]])
  {
  }

  /** A copied row is an earlier state of the row it names, and its target is known. */
  lemma CopyIsOfRow(q: Queue, id: Id)
    requires Sound(q) && id in q.scans
    ensures id in q.runs && Evolves(q.scans[id], q.runs[id]) && Timed(q.scans[id]) && Known(q, q.scans[id])
  {
    hide Discardable, PairsValid, InputKept, Evolves;
    assert ScanValid(q, id) && RowValid(q, id);
    SeenTargetKnown(q, id, q.scans[id]);
  }

  lemma CopiesStay(q: Queue, t: Queue, id: Id)
    requires SameBytes(q, t) && Passes(q, t) && id in q.scans && id in q.runs
    ensures t.scans == q.scans && t.pending == q.pending && t.runs.Keys == q.runs.Keys && q.now <= t.now
    ensures forall other :: other in q.runs ==> t.runs[other].inputKey == q.runs[other].inputKey
  {
    hide Lasting, Reached, Evolves;
  }

  /** What is known of a copy stays known, and its judgement stands. */
  lemma Stays(q: Queue, t: Queue, r: FileRun, at: nat)
    requires Passes(q, t) && Known(q, r)
    ensures Known(t, r) && (Removed(q, r) ==> Removed(t, r)) && (Answered(q, r) ==> Answered(t, r))
    ensures DiscardableAt(q, r, at) ==> DiscardableAt(t, r, at)
  {
    hide Reached, Evolves, Known, Removed, Answered, DiscardableAt;
    assert LastsFor(q, t, r, at);
  }

  /** Separate reads in two states recognise what was discardable in the first, and only what is in the second. */
  lemma JudgedRight(q: Queue, t: Queue, r: FileRun, at: nat, removed: bool, answered: bool)
    requires Timed(r) && removed == Removed(q, r) && answered == Answered(t, r)
    requires (Removed(q, r) ==> Removed(t, r)) && (Answered(q, r) ==> Answered(t, r))
    ensures
      var discard :=
        answered || r.resultVersion.Some? || r.error == Some(SensitiveFile) || removed || !Retained(r, at);
      && (DiscardableAt(q, r, at) ==> discard) && (discard ==> DiscardableAt(t, r, at))
      && (discard && Active(r) ==> removed)
  {
    AnsweredAtAnyTime(q, r, at);
    AnsweredAtAnyTime(t, r, at);
  }

  lemma MayDiscard(q: Queue, id: Id)
    requires id in q.scans && Discardable(q, q.scans[id])
    ensures Enabled(q, DiscardInput(id)) && Enabled(q, ForgetInput(id))
  {
  }

  lemma DiscardEffect(q: Queue, id: Id)
    requires Enabled(q, DiscardInput(id)) && q.scans[id].inputKey.Some?
    ensures Effect(q, DiscardInput(id)) == q.(pending := q.pending - {q.scans[id].inputKey.value})
  {
  }

  /** The compare-and-set, with what was read of the original before. */
  lemma ForgetEffect(q: Queue, id: Id, row: FileRun, removed: bool)
    requires Enabled(q, ForgetInput(id)) && id in q.runs && row == q.scans[id]
    requires (removed ==> Removed(q, row)) && (Active(row) ==> removed)
    ensures Effect(q, ForgetInput(id)) == q.(runs := q.runs[id := Forgotten(q, row, q.runs[id])])
    ensures Forgotten(q, row, q.runs[id]) ==
      if q.runs[id].inputKey == row.inputKey && q.runs[id].status == row.status then
        if Active(row) && removed
          then Finished(q.runs[id].(inputKey := None), Interrupted, Some(SourceUnavailable), q.now)
        else q.runs[id].(inputKey := None)
      else q.runs[id]
  {
    hide Removed;
  }

  /** The queue after the compare-and-set on a copied row. */
  function WithForgotten(q: Queue, id: Id): Queue
    requires id in q.scans && id in q.runs
  {
    q.(runs := q.runs[id := Forgotten(q, q.scans[id], q.runs[id])])
  }

  lemma ForgottenIsGivenUp(q: Queue, t: Queue, id: Id, row: FileRun)
    requires id in q.runs && Evolves(row, q.runs[id]) && row.inputKey.Some? && row.inputKey.value !in q.pending
    requires t == q.(runs := q.runs[id := Forgotten(q, row, q.runs[id])])
    ensures GivenUp(row, t, id)
  {
  }

  /** The events of one query: the old copies go, each row of the page is copied. */
  lemma {:induction false} PageScans(q: Queue, page: seq<Id>)
    requires Sound(q) && q.up && q.staged.None?
    requires forall id :: id in page ==> id in q.runs && q.runs[id].inputKey.Some?
    ensures var t := q.(scans := Copies(q.runs, page)); Sound(t) && Passes(q, t)
  {
    hide Sound, Passes, Enabled, Effect;
    if page == [] {
      EndOfScan(q);
      EventPasses(q, EndScan);
      assert Copies(q.runs, page) == map[];
    } else {
      var n := |page| - 1;
      var s := q.(scans := Copies(q.runs, page[..n]));
      PageScans(q, page[..n]);
      ScanIsEnabled(s, page[n]);
      EventPasses(s, ScanRow(page[n]));
      assert page == page[..n] + [page[n]];
      var t := q.(scans := Copies(q.runs, page));
      assert t.scans == s.scans[page[n] := s.runs[page[n]]];
      assert t == Effect(s, ScanRow(page[n]));
      PassesOn(q, s, t);
    }
  }

  lemma EndOfScan(q: Queue)
    ensures Enabled(q, EndScan) && Effect(q, EndScan) == q.(scans := map[])
  {
  }

  lemma AloneStays(others: Others)
    ensures Alone(others) ==> forall n, q :: others(n, q) == q
  {
  }

  lemma LeftAlone(q: Queue, id: Id, start: nat)
    requires id in q.scans && id in q.runs && !(q.scans[id].inputKey.Some? && DiscardableAt(q, q.scans[id], start))
    ensures Cleaned(q, q, id, start)
  {
  }

  lemma CleanedAlone(q: Queue, last: Queue, t: Queue, id: Id, start: nat)
    requires id in q.scans && q.scans[id].inputKey.Some? && id in last.runs
    requires t == last.(runs := last.runs[id := Forgotten(last, q.scans[id], last.runs[id])])
    ensures DiscardableAt(q, q.scans[id], start) && last == q.(pending := last.pending) ==> Cleaned(q, t, id, start)
  {
    hide DiscardableAt;
    SameTablesSameForgetting(q, last, q.scans[id], last.runs[id]);
  }

  /** What an undisturbed cleaning of one copied row does. */
  ghost predicate Cleaned(q: Queue, t: Queue, id: Id, start: nat) {
    && id in q.scans && id in q.runs && t.now == q.now && t.sources == q.sources
    && t.runs == if q.scans[id].inputKey.Some? && DiscardableAt(q, q.scans[id], start)
                 then q.runs[id := Forgotten(q, q.scans[id], q.runs[id])] else q.runs
  }

  lemma NeededIsPending(q: Queue, id: Id)
    requires Sound(q) && id in q.runs && q.runs[id].inputKey.Some? && !Discardable(q, q.runs[id])
    ensures q.runs[id].inputKey.value in q.pending
  {
    hide Discardable, Valid, ScanValid;
    assert InputKept(q, id);
  }

  lemma SameTablesSameJudgement(q: Queue, t: Queue, r: FileRun)
    requires t.runs == q.runs && t.sources == q.sources && t.now == q.now
    ensures Discardable(t, r) == Discardable(q, r)
  {
  }

  lemma SameTablesSameForgetting(q: Queue, t: Queue, seen: FileRun, r: FileRun)
    ensures t.sources == q.sources && t.now == q.now ==> Forgotten(t, seen, r) == Forgotten(q, seen, r)
  {
  }

  /** After a row was cleaned it has no key, and no other row became discardable through it. */
  lemma NotDiscardableAfterCleaning(q: Queue, t: Queue, id: Id, other: Id)
    requires t.sources == q.sources && t.now == q.now && id in q.runs && other in q.runs
    requires t.runs == if q.runs[id].inputKey.Some? && Discardable(q, q.runs[id])
                       then q.runs[id := Forgotten(q, q.runs[id], q.runs[id])] else q.runs
    requires t.runs[other].inputKey.Some? && (other != id ==> !Discardable(q, q.runs[other]))
    ensures !Discardable(t, t.runs[other])
  {
    if other == id {
      SameTablesSameJudgement(q, t, q.runs[id]) by { assert !Discardable(q, q.runs[id]); }
    }
  }

  /* ---- what a pass over the rows has achieved ---- */

  predicate Beyond(cursor: Option<Id>, id: Id) {
    cursor.Some? ==> id > cursor.value
  }

  /** A row that was discardable when it was read in `q` is given up in `t`. */
  predicate GivenUpFrom(q: Queue, t: Queue, id: Id, start: nat) {
    && id in q.runs && id in t.runs
    && (q.runs[id].inputKey.Some? && DiscardableAt(q, q.runs[id], start) ==> GivenUp(q.runs[id], t, id))
  }

  predicate PageGivenUp(q: Queue, t: Queue, page: seq<Id>, start: nat) {
    forall id :: id in page ==> GivenUpFrom(q, t, id, start)
  }

  /** A row keeps its input unless it may be discarded. */
  predicate Undiscarded(q: Queue, id: Id)
    requires id in q.runs
  {
    q.runs[id].inputKey.Some? ==> !Discardable(q, q.runs[id])
  }

  /** What an undisturbed cleaning of the listed rows does. */
  ghost predicate Tidied(q: Queue, t: Queue, ids: seq<Id>) {
    && t.now == q.now && t.sources == q.sources && t.runs.Keys == q.runs.Keys
    && (forall id :: id in q.runs && id !in ids ==> t.runs[id] == q.runs[id])
    && (forall id :: id in q.runs && (id in ids || Undiscarded(q, id)) ==> Undiscarded(t, id))
  }

  lemma NothingDone(q: Queue, start: nat)
    ensures PageGivenUp(q, q, [], start) && Tidied(q, q, [])
  {
  }

  lemma NotBefore(page: seq<Id>, k: nat)
    requires Ascending(page) && k < |page|
    ensures page[k] !in page[..k]
  {
  }

  lemma PageStep(q: Queue, middle: Queue, t: Queue, ids: seq<Id>, id: Id, start: nat)
    requires Sound(q) && Passes(q, middle) && Passes(middle, t) && id in q.runs && id in q.scans
    requires q.scans[id] == q.runs[id]
    requires PageGivenUp(q, middle, ids, start)
    requires q.runs[id].inputKey.Some? && DiscardableAt(middle, q.runs[id], start) ==>
               id in t.runs && GivenUp(q.runs[id], t, id)
    ensures PageGivenUp(q, t, ids + [id], start)
  {
    hide Sound, DiscardableAt, GivenUp, Lasting, Reached, Evolves;
    CopyIsOfRow(q, id);
    Stays(q, middle, q.runs[id], start);
    forall other | other in ids ensures GivenUpFrom(q, t, other, start) {
      assert GivenUpFrom(q, middle, other, start);
      if GivenUp(q.runs[other], middle, other) { GivenUpLasts(q.runs[other], middle, t, other); }
    }
  }

  lemma TidyStep(q: Queue, middle: Queue, t: Queue, ids: seq<Id>, id: Id)
    requires id !in ids && id in q.runs && id in middle.scans && middle.scans[id] == q.runs[id]
    requires Tidied(q, middle, ids) && Cleaned(middle, t, id, q.now)
    ensures Tidied(q, t, ids + [id])
  {
    hide Discardable, Forgotten;
    assert middle.(now := q.now) == middle;
    forall other | other in q.runs && (other in ids + [id] || Undiscarded(q, other)) ensures Undiscarded(t, other) {
      if t.runs[other].inputKey.Some? {
        if other != id { assert Undiscarded(middle, other); }
        NotDiscardableAfterCleaning(middle, t, id, other);
      }
    }
  }

  /** The row still had its first key when it was read, and what was then discardable is given up at last. */
  ghost predicate Seen(first: Queue, at: Queue, last: Queue, id: Id) {
    && Passes(first, at) && Passes(at, last) && id in first.runs && id in at.runs
    && at.runs[id].inputKey == first.runs[id].inputKey && GivenUpFrom(at, last, id, first.now)
  }

  ghost predicate SeenUpTo(first: Queue, t: Queue, read: map<Id, Queue>, only: Option<Id>, cursor: Option<Id>) {
    cursor.Some? ==>
      forall id :: id in first.runs && Wanted(only, id) && first.runs[id].inputKey.Some? && id <= cursor.value
                   ==> id in read && Seen(first, read[id], t, id)
  }

  ghost predicate AllSeen(first: Queue, t: Queue, read: map<Id, Queue>, only: Option<Id>) {
    forall id :: id in first.runs && Wanted(only, id) && first.runs[id].inputKey.Some?
                 ==> id in read && Seen(first, read[id], t, id)
  }

  ghost predicate TidyUpTo(first: Queue, t: Queue, only: Option<Id>, cursor: Option<Id>) {
    && t.now == first.now && t.sources == first.sources
    && (forall id :: id in t.runs && Wanted(only, id) && cursor.Some? && id <= cursor.value ==> Undiscarded(t, id))
  }

  ghost predicate AllTidy(first: Queue, t: Queue, only: Option<Id>) {
    && t.now == first.now && t.sources == first.sources
    && (forall id :: id in t.runs && Wanted(only, id) ==> Undiscarded(t, id))
  }

  predicate KeysAhead(first: Queue, t: Queue, cursor: Option<Id>) {
    t.runs.Keys == first.runs.Keys
    && forall id :: id in first.runs && Beyond(cursor, id) ==> t.runs[id].inputKey == first.runs[id].inputKey
  }

  lemma NoneSeen(first: Queue, only: Option<Id>)
    ensures SeenUpTo(first, first, map[], only, None) && TidyUpTo(first, first, only, None)
    ensures KeysAhead(first, first, None)
  {
  }

  lemma SeenLasts(first: Queue, at: Queue, t: Queue, u: Queue, id: Id)
    requires Seen(first, at, t, id) && Passes(t, u)
    ensures Seen(first, at, u, id)
  {
    hide DiscardableAt, GivenUp, Lasting, Reached, Evolves;
    PassesOn(at, t, u);
    if GivenUp(at.runs[id], t, id) { GivenUpLasts(at.runs[id], t, u, id); }
  }

  lemma SeenUpToLasts(first: Queue, t: Queue, u: Queue, read: map<Id, Queue>, only: Option<Id>, cursor: Option<Id>)
    requires SeenUpTo(first, t, read, only, cursor) && Passes(t, u)
    ensures SeenUpTo(first, u, read, only, cursor)
  {
    hide Seen, Passes;
    forall id | id in first.runs && Wanted(only, id) && first.runs[id].inputKey.Some? && cursor.Some?
      && id <= cursor.value
      ensures id in read && Seen(first, read[id], u, id)
    {
      SeenLasts(first, read[id], t, u, id);
    }
  }

  lemma AllSeenLasts(first: Queue, t: Queue, u: Queue, read: map<Id, Queue>, only: Option<Id>)
    requires AllSeen(first, t, read, only) && Passes(t, u)
    ensures AllSeen(first, u, read, only)
  {
    hide Seen, Passes;
    forall id | id in first.runs && Wanted(only, id) && first.runs[id].inputKey.Some?
      ensures id in read && Seen(first, read[id], u, id)
    {
      SeenLasts(first, read[id], t, u, id);
    }
  }

  /** Reading a page changes no row, and neither does waiting for it. */
  lemma PageRead(first: Queue, before: Queue, paused: Queue, at: Queue, read: map<Id, Queue>, only: Option<Id>,
                 cursor: Option<Id>)
    requires Passes(first, before) && KeysAhead(first, before, cursor) && SeenUpTo(first, before, read, only, cursor)
    requires Passes(before, paused) && SameBytes(before, paused) && Passes(paused, at)
    requires at == paused.(scans := at.scans)
    ensures Passes(first, at) && KeysAhead(first, at, cursor) && SeenUpTo(first, at, read, only, cursor)
    ensures first.now <= at.now && at.up == first.up && at.staged == first.staged
    ensures Ahead(at.runs, only, cursor) == Ahead(before.runs, only, cursor)
    ensures paused == before && TidyUpTo(first, before, only, cursor) ==>
              TidyUpTo(first, at, only, cursor) && at.now == first.now
  {
    hide SeenUpTo, Lasting, Reached, Evolves, Discardable;
    PassesOn(first, before, paused);
    PassesOn(first, paused, at);
    SeenUpToLasts(first, before, paused, read, only, cursor);
    SeenUpToLasts(first, paused, at, read, only, cursor);
    if paused == before {
      forall id | id in at.runs && Undiscarded(before, id) ensures Undiscarded(at, id) {
        SameTablesSameJudgement(before, at, at.runs[id]);
      }
    }
  }

  lemma EndOfPages(first: Queue, t: Queue, read: map<Id, Queue>, only: Option<Id>, cursor: Option<Id>)
    requires KeysAhead(first, t, cursor) && SeenUpTo(first, t, read, only, cursor) && Ahead(t.runs, only, cursor) == {}
    ensures AllSeen(first, t, read, only)
    ensures TidyUpTo(first, t, only, cursor) ==> AllTidy(first, t, only)
  {
    hide Seen, Discardable;
    forall id | id in t.runs && Wanted(only, id) && Beyond(cursor, id) ensures t.runs[id].inputKey.None? {
      assert id !in Ahead(t.runs, only, cursor);
    }
  }

  /** After a page, the cursor stands at its last row. */
  lemma PageCleaned(first: Queue, at: Queue, t: Queue, page: seq<Id>, read: map<Id, Queue>, only: Option<Id>,
                    cursor: Option<Id>)
    requires Passes(first, at) && Passes(at, t) && KeysAhead(first, at, cursor)
    requires SeenUpTo(first, at, read, only, cursor)
    requires PageOf(at, page, only, cursor) && PageGivenUp(at, t, page, first.now)
    requires forall id :: id in t.runs && id !in page ==> t.runs[id].inputKey == at.runs[id].inputKey
    ensures var last := Some(page[|page| - 1]);
      && Passes(first, t) && KeysAhead(first, t, last) && SeenUpTo(first, t, Reread(read, page, at), only, last)
      && Ahead(t.runs, only, last) < Ahead(at.runs, only, cursor)
      && (Tidied(at, t, page) && TidyUpTo(first, at, only, cursor) ==> TidyUpTo(first, t, only, last))
  {
    hide Passes, SeenUpTo, TidyUpTo, Tidied, PageGivenUp, KeysAhead, Ahead, Ascending;
    PassesOn(first, at, t);
    SameKeys(at, t);
    SeenThrough(first, at, t, page, read, only, cursor);
    AheadShrinks(at, t, page, only, cursor);
    if Tidied(at, t, page) && TidyUpTo(first, at, only, cursor) { TidyThrough(first, at, t, page, only, cursor); }
    KeysStayAhead(first, at, t, page, only, cursor);
  }

  lemma KeysStayAhead(first: Queue, at: Queue, t: Queue, page: seq<Id>, only: Option<Id>, cursor: Option<Id>)
    requires KeysAhead(first, at, cursor) && PageOf(at, page, only, cursor) && t.runs.Keys == at.runs.Keys
    requires forall id :: id in t.runs && id !in page ==> t.runs[id].inputKey == at.runs[id].inputKey
    ensures KeysAhead(first, t, Some(page[|page| - 1]))
  {
    var last := page[|page| - 1];
    assert last in Ahead(at.runs, only, cursor);
    forall id | id in first.runs && id > last ensures t.runs[id].inputKey == first.runs[id].inputKey {
      assert id !in page && Beyond(cursor, id);
    }
  }

  lemma SameKeys(q: Queue, t: Queue)
    requires Passes(q, t)
    ensures t.runs.Keys == q.runs.Keys && q.now <= t.now && t.up == q.up && t.staged == q.staged
    ensures t.pending <= q.pending
  {
    hide Lasting, Reached, Evolves;
  }

  /** The rows one query returns. */
  ghost predicate PageOf(at: Queue, page: seq<Id>, only: Option<Id>, cursor: Option<Id>) {
    && page != [] && Ascending(page) && (forall k :: 0 <= k < |page| ==> page[k] in Ahead(at.runs, only, cursor))
    && (forall id :: id in Ahead(at.runs, only, cursor) && id !in page ==> page[|page| - 1] < id)
  }

  ghost function Reread(read: map<Id, Queue>, page: seq<Id>, at: Queue): map<Id, Queue> {
    read + map id | id in page :: at
  }

  lemma SeenThrough(first: Queue, at: Queue, t: Queue, page: seq<Id>, read: map<Id, Queue>, only: Option<Id>,
                    cursor: Option<Id>)
    requires Passes(first, at) && Passes(at, t) && KeysAhead(first, at, cursor)
    requires SeenUpTo(first, at, read, only, cursor)
    requires PageOf(at, page, only, cursor) && PageGivenUp(at, t, page, first.now)
    ensures SeenUpTo(first, t, Reread(read, page, at), only, Some(page[|page| - 1]))
  {
    hide Passes, Seen, GivenUpFrom;
    var last := page[|page| - 1];
    forall id | id in first.runs && Wanted(only, id) && first.runs[id].inputKey.Some? && id <= last
      ensures id in Reread(read, page, at) && Seen(first, Reread(read, page, at)[id], t, id)
    {
      if id in page {
        assert id in Ahead(at.runs, only, cursor);
        SeenNow(first, at, t, id);
      } else {
        assert id !in Ahead(at.runs, only, cursor);
        SeenLasts(first, read[id], at, t, id);
      }
    }
  }

  lemma SeenNow(first: Queue, at: Queue, t: Queue, id: Id)
    requires Passes(first, at) && Passes(at, t) && id in first.runs && id in at.runs
    requires at.runs[id].inputKey == first.runs[id].inputKey && GivenUpFrom(at, t, id, first.now)
    ensures Seen(first, at, t, id)
  {
    hide Passes, GivenUpFrom;
  }

  lemma AheadShrinks(at: Queue, t: Queue, page: seq<Id>, only: Option<Id>, cursor: Option<Id>)
    requires PageOf(at, page, only, cursor) && t.runs.Keys == at.runs.Keys
    requires forall id :: id in t.runs && id !in page ==> t.runs[id].inputKey == at.runs[id].inputKey
    ensures Ahead(t.runs, only, Some(page[|page| - 1])) < Ahead(at.runs, only, cursor)
  {
    var last := page[|page| - 1];
    assert last in Ahead(at.runs, only, cursor);
  }

  lemma TidyThrough(first: Queue, at: Queue, t: Queue, page: seq<Id>, only: Option<Id>, cursor: Option<Id>)
    requires PageOf(at, page, only, cursor) && Tidied(at, t, page) && TidyUpTo(first, at, only, cursor)
    ensures TidyUpTo(first, t, only, Some(page[|page| - 1]))
  {
    hide Discardable;
    forall id | id in t.runs && Wanted(only, id) && id <= page[|page| - 1] ensures Undiscarded(t, id) {
      if id !in page { assert id !in Ahead(at.runs, only, cursor); }
    }
  }

  /* ---- what a row discardable at the start has come to ---- */

  lemma EvolvedIsDiscardable(q: Queue, r: FileRun, s: FileRun)
    requires Evolves(r, s) && Timed(r) && Discardable(q, r)
    ensures Discardable(q, s)
  {
    if TargetOf(r).Some? { EvolvedTarget(r, s); }
  }

  /** What was discardable when the cleanup began is given up, whatever the others did meanwhile. */
  lemma SeenMeansGivenUp(first: Queue, at: Queue, last: Queue, id: Id)
    requires Sound(first) && Seen(first, at, last, id) && first.runs[id].inputKey.Some?
    requires Discardable(first, first.runs[id])
    ensures id in last.runs && GivenUp(first.runs[id], last, id)
  {
    hide Sound, Discardable, Reached, Lasting, Evolves, GivenUp;
    var row := first.runs[id];
    assert first.(now := first.now) == first;
    RowIsTimed(first, id);
    Stays(first, at, row, first.now);
    EvolvedIsDiscardable(at.(now := first.now), row, at.runs[id]);
    GivenUpForEarlier(row, at.runs[id], last, id);
  }

  /** A row that is given up since it was read is given up since it was in an earlier state with the same key. */
  lemma GivenUpForEarlier(earlier: FileRun, read: FileRun, q: Queue, id: Id)
    requires id in q.runs && GivenUp(read, q, id) && read.inputKey == earlier.inputKey
    requires Evolves(earlier, read) && Evolves(read, q.runs[id])
    ensures GivenUp(earlier, q, id)
  {
  }

  lemma RowIsTimed(q: Queue, id: Id)
    requires Sound(q) && id in q.runs
    ensures Timed(q.runs[id]) && Known(q, q.runs[id])
  {
    hide Discardable, PairsValid, InputKept;
    assert RowValid(q, id);
    SeenTargetKnown(q, id, q.runs[id]) by { SameMoves(q.runs[id], q); }
  }

  /** The row has an input key, and the input may be discarded. */
  predicate DiscardableInput(q: Queue, id: Id)
    requires id in q.runs
  {
    q.runs[id].inputKey.Some? && Discardable(q, q.runs[id])
  }

  lemma AllGivenUp(first: Queue, last: Queue, read: map<Id, Queue>, only: Option<Id>)
    requires Sound(first) && AllSeen(first, last, read, only)
    ensures forall id :: id in first.runs && Wanted(only, id) && DiscardableInput(first, id) ==>
              id in last.runs && GivenUp(first.runs[id], last, id)
  {
    hide Sound, Seen, GivenUp, Discardable;
    forall id | id in first.runs && Wanted(only, id) && DiscardableInput(first, id)
      ensures id in last.runs && GivenUp(first.runs[id], last, id)
    {
      SeenMeansGivenUp(first, read[id], last, id);
    }
  }

  lemma NeededArePending(q: Queue)
    requires Sound(q)
    ensures forall id :: id in q.runs && q.runs[id].inputKey.Some? && q.runs[id].inputKey.value !in q.pending ==>
              DiscardableInput(q, id)
  {
    hide Sound, Discardable;
    forall id | id in q.runs && q.runs[id].inputKey.Some? && q.runs[id].inputKey.value !in q.pending
      ensures DiscardableInput(q, id)
    {
      if !Discardable(q, q.runs[id]) { NeededIsPending(q, id); }
    }
  }

  lemma AllStayTidy(first: Queue, q: Queue, t: Queue, only: Option<Id>)
    requires AllTidy(first, q, only) && t.runs == q.runs && t.sources == q.sources && t.now == q.now
    ensures forall id :: id in t.runs && Wanted(only, id) ==> !DiscardableInput(t, id)
  {
    hide Discardable;
    forall id | id in t.runs && Wanted(only, id) ensures !DiscardableInput(t, id) {
      assert Undiscarded(q, id);
      SameTablesSameJudgement(q, t, t.runs[id]);
    }
  }

  /* ---- stray keys ---- */

  lemma SameNamesSelf(q: Queue)
    ensures SameNames(q, q)
  {
  }

  lemma AllNamesSame(q: Queue, t: Queue)
    requires SameNames(q, t)
    ensures forall key :: Referenced(t, key) == Referenced(q, key)
  {
    hide Referenced, SameNames;
    forall key ensures Referenced(t, key) == Referenced(q, key) { SameReferences(q, t, key); }
  }

  lemma SameRunsSameNames(q: Queue, t: Queue)
    requires t.runs == q.runs
    ensures SameNames(q, t) && forall key :: Referenced(t, key) == Referenced(q, key)
  {
    AllNamesSame(q, t);
  }

  lemma NamesStay(q: Queue, looked: Queue, last: Queue, key: Id)
    requires SameBytes(q, looked) && SameBytes(looked, last) && Passes(q, looked) && Passes(looked, last)
    ensures SameNames(q, last) && Passes(q, last) && last.pending == q.pending
    ensures last.up == q.up && last.staged == q.staged && Referenced(last, key) == Referenced(looked, key)
  {
    hide Passes;
    PassesOn(q, looked, last);
    SameReferences(looked, last, key);
  }

  lemma NamesKept(q: Queue, last: Queue, t: Queue, key: Id)
    requires SameNames(q, last) && t.runs == last.runs
    ensures SameNames(q, t) && Referenced(t, key) == Referenced(last, key)
  {
    SameReferences(last, t, key);
  }

  lemma SweptOne(first: Queue, q: Queue, t: Queue, key: Id)
    requires Passes(first, q) && Passes(q, t) && SameNames(first, q) && SameNames(q, t)
    ensures Passes(first, t) && SameNames(first, t) && Referenced(t, key) == Referenced(first, key)
    ensures t.up == q.up && t.staged == q.staged
  {
    hide Passes;
    PassesOn(first, q, t);
    SameReferences(first, t, key);
    SameKeys(q, t);
  }

  lemma SweepIsEnabled(q: Queue, key: Id)
    requires q.up && q.staged.None? && !Referenced(q, key)
    ensures Enabled(q, SweepKey(key)) && Effect(q, SweepKey(key)) == q.(pending := q.pending - {key})
  {
  }
}
