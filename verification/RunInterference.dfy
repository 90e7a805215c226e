/**
 * What other transactions may do to the queue while one process holds the staging lock, during an admission or
 * a cleanup: everything but writing, removing or forgetting pending inputs, creating runs and restarting.
 */
module RunInterference {
  import opened Results
  import opened RunQueue
  import opened RunQueueSafety
  import opened PendingInputs

  /** The invariant of the tables together with that of the pending store. */
  ghost predicate Sound(q: Queue) {
    Valid(q) && Stocked(q)
  }

  lemma ApplyKeepsSound(q: Queue, e: Event)
    requires Sound(q)
    ensures Sound(Apply(q, e))
  {
    hide Valid, Stocked, Apply;
    ApplyKeepsValid(q, e);
    ApplyKeepsStocked(q, e);
  }

  lemma EmptyQueueIsSound()
    ensures Sound(EMPTY_QUEUE)
  {
  }

  /* ---- sequences of events ---- */

  lemma {:induction false} RunAppend(q: Queue, a: seq<Event>, b: seq<Event>)
    ensures RunFrom(q, a + b) == RunFrom(RunFrom(q, a), b)
  {
    hide Apply;
    if b == [] {
      assert a + b == a;
    } else {
      var n := |b| - 1;
      RunAppend(q, a, b[..n]);
      assert (a + b)[..|a| + n] == a + b[..n];
    }
  }

  lemma RunOne(q: Queue, e: Event)
    ensures RunFrom(q, [e]) == Apply(q, e) && RunFrom(q, []) == q
  {
    hide Apply;
    assert [e][..0] == [];
  }

  ghost predicate Reached(q: Queue, t: Queue) {
    exists events :: t == RunFrom(q, events)
  }

  /* ---- the others ---- */

  predicate Beside(e: Event) {
    || e.Tick? || e.ChangeSource? || e.Stop? || e.Claim? || e.Complete? || e.FailRun? || e.EndExecution?
    || e.BeginClose? || e.InterruptActive? || (e.Reserve? && !e.outcome.Created?)
  }

  predicate AllBeside(events: seq<Event>) {
    forall k :: 0 <= k < |events| ==> Beside(events[k])
  }

  /** The committed queue when the others have had their n-th turn, given the queue before it. */
  type Others = (nat, Queue) -> Queue

  ghost predicate Follows(q: Queue, t: Queue) {
    exists events :: t == RunFrom(q, events) && AllBeside(events)
  }

  ghost predicate Harmless(others: Others) {
    forall n, q :: Sound(q) ==> Follows(q, others(n, q))
  }

  ghost predicate Alone(others: Others) {
    forall n, q :: others(n, q) == q
  }

  /* ---- what lasts ---- */

  predicate Known(q: Queue, r: FileRun) {
    TargetOf(r).Some? ==> TargetOf(r).value in q.sources
  }

  /** Judged as of an earlier time, the way a cleanup does that fixed its cutoff at its start. */
  predicate DiscardableAt(q: Queue, r: FileRun, at: nat) {
    Discardable(q.(now := at), r)
  }

  ghost predicate LastsFor(q: Queue, t: Queue, r: FileRun, at: nat) {
    Known(q, r) ==>
      && Known(t, r) && (Removed(q, r) ==> Removed(t, r)) && (Answered(q, r) ==> Answered(t, r))
      && (DiscardableAt(q, r, at) ==> DiscardableAt(t, r, at))
  }

  /** What was said of a row, or of a copy of it, stays true. */
  ghost predicate Lasting(q: Queue, t: Queue) {
    forall r: FileRun, at: nat :: LastsFor(q, t, r, at)
  }

  lemma AdvancingLasts(q: Queue, t: Queue)
    requires Advances(q, t)
    ensures Lasting(q, t)
  {
    forall r: FileRun, at: nat ensures LastsFor(q, t, r, at) {
      AnsweredLasts(q, t, r);
      AnsweredAtAnyTime(q, r, at);
      AnsweredAtAnyTime(t, r, at);
    }
  }

  lemma AnsweredLasts(q: Queue, t: Queue, r: FileRun)
    requires Advances(q, t)
    ensures Answered(q, r) ==> Answered(t, r)
  {
    if Answered(q, r) {
      var w :| w in q.runs && q.runs[w].targetKey == r.targetKey && q.runs[w].status.Succeeded?;
      assert Moves(q.runs[w], t.runs[w], t);
      assert w in t.runs && t.runs[w].targetKey == r.targetKey && t.runs[w].status.Succeeded?;
    }
  }

  lemma AnsweredAtAnyTime(q: Queue, r: FileRun, at: nat)
    ensures Answered(q.(now := at), r) == Answered(q, r) && Removed(q.(now := at), r) == Removed(q, r)
  {
  }

  /** A judgement with an earlier cutoff is one with the present cutoff. */
  lemma DiscardableSince(q: Queue, r: FileRun, at: nat)
    requires DiscardableAt(q, r, at) && at <= q.now
    ensures Discardable(q, r)
  {
    AnsweredAtAnyTime(q, r, at);
  }

  /** From one state to a later one of a pass under the staging lock. */
  ghost predicate Passes(q: Queue, t: Queue) {
    && Reached(q, t) && Lasting(q, t) && q.now <= t.now && t.pending <= q.pending
    && t.runs.Keys == q.runs.Keys && t.up == q.up && t.staged == q.staged
    && (forall id :: id in q.runs ==> Evolves(q.runs[id], t.runs[id]))
  }

  lemma PassesOn(q: Queue, t: Queue, u: Queue)
    requires Passes(q, t) && Passes(t, u)
    ensures Passes(q, u)
  {
    hide Lasting, Reached, Evolves;
    ReachedOn(q, t, u);
    LastsOn(q, t, u);
    forall id | id in q.runs ensures Evolves(q.runs[id], u.runs[id]) {
      EvolvesIsTransitive(q.runs[id], t.runs[id], u.runs[id]);
    }
  }

  lemma ReachedOn(q: Queue, t: Queue, u: Queue)
    requires Reached(q, t) && Reached(t, u)
    ensures Reached(q, u)
  {
    var a :| t == RunFrom(q, a);
    var b :| u == RunFrom(t, b);
    RunAppend(q, a, b);
  }

  lemma LastsOn(q: Queue, t: Queue, u: Queue)
    requires Lasting(q, t) && Lasting(t, u)
    ensures Lasting(q, u)
  {
    hide Known, Removed, Answered, DiscardableAt;
    forall r: FileRun, at: nat ensures LastsFor(q, u, r, at) {
      assert LastsFor(q, t, r, at) && LastsFor(t, u, r, at);
    }
  }

  lemma PassesSelf(q: Queue)
    ensures Passes(q, q)
  {
    hide Lasting;
    SameAdvances(q);
    AdvancingLasts(q, q);
    assert q == RunFrom(q, []);
    forall id | id in q.runs ensures Evolves(q.runs[id], q.runs[id]) { assert Moves(q.runs[id], q.runs[id], q); }
  }

  /** The events of a cleanup itself. */
  predicate Tidies(e: Event) {
    e.ScanRow? || e.DiscardInput? || e.ForgetInput? || e.EndScan? || e.SweepKey?
  }

  lemma EventPasses(q: Queue, e: Event)
    requires Sound(q) && Enabled(q, e) && (Beside(e) || Tidies(e))
    ensures Passes(q, Effect(q, e)) && Sound(Effect(q, e))
  {
    hide Sound, Enabled, Effect, Lasting, Reached, Beside, Tidies, Advances, Evolves;
    ApplyKeepsSound(q, e);
    SoundIsValid(q);
    EffectAdvances(q, e);
    AdvancingLasts(q, Effect(q, e));
    EventReaches(q, e);
    KeysOfEvent(q, e);
    RowsEvolve(q, Effect(q, e));
  }

  lemma EventReaches(q: Queue, e: Event)
    requires Enabled(q, e)
    ensures Reached(q, Effect(q, e))
  {
    hide Enabled, Effect, RunFrom;
    RunOne(q, e);
    assert Effect(q, e) == RunFrom(q, [e]);
  }

  lemma RowsEvolve(q: Queue, t: Queue)
    requires Advances(q, t)
    ensures forall id :: id in q.runs ==> id in t.runs && Evolves(q.runs[id], t.runs[id])
  {
    hide Evolves;
    forall id | id in q.runs ensures id in t.runs && Evolves(q.runs[id], t.runs[id]) {
      assert Moves(q.runs[id], t.runs[id], t);
    }
  }

  lemma SoundIsValid(q: Queue)
    requires Sound(q)
    ensures Valid(q) && Stocked(q)
  {
  }

  lemma KeysOfEvent(q: Queue, e: Event)
    requires Enabled(q, e) && (Beside(e) || Tidies(e))
    ensures var t := Effect(q, e);
      t.runs.Keys == q.runs.Keys && t.pending <= q.pending && t.up == q.up && t.staged == q.staged && q.now <= t.now
  {
    hide Reserves, FromUser, FromRetry, Discardable, Completed, Forgotten, Finished, Referenced, ActiveRuns, RunsIn;
  }

  /** The same rows name the same keys. */
  ghost predicate SameNames(q: Queue, t: Queue) {
    t.runs.Keys == q.runs.Keys && forall id :: id in q.runs ==> t.runs[id].inputKey == q.runs[id].inputKey
  }

  /** The others leave bytes, keys and copies of rows alone. */
  ghost predicate SameBytes(q: Queue, t: Queue) {
    && SameNames(q, t) && t.pending == q.pending && t.keys == q.keys
    && t.staged == q.staged && t.scans == q.scans && t.up == q.up
  }

  lemma BesideKeepsBytes(q: Queue, e: Event)
    requires Enabled(q, e) && Beside(e)
    ensures SameBytes(q, Effect(q, e))
  {
    hide Reserves, FromUser, FromRetry, Discardable, Referenced, ActiveRuns, RunsIn;
  }

  /** However many transactions of others commit. */
  lemma {:induction false} BesideRun(q: Queue, events: seq<Event>)
    requires Sound(q) && AllBeside(events)
    ensures var t := RunFrom(q, events); Sound(t) && Passes(q, t) && SameBytes(q, t)
  {
    if events == [] {
      PassesSelf(q);
    } else {
      hide Sound, Passes, Beside, Enabled, Effect;
      var n := |events| - 1;
      var s := RunFrom(q, events[..n]);
      BesideRun(q, events[..n]);
      assert Beside(events[n]);
      if Enabled(s, events[n]) {
        EventPasses(s, events[n]);
        BesideKeepsBytes(s, events[n]);
        PassesOn(q, s, Effect(s, events[n]));
      }
    }
  }

  lemma FollowingPasses(q: Queue, t: Queue)
    requires Sound(q) && Follows(q, t)
    ensures Sound(t) && Passes(q, t) && SameBytes(q, t)
  {
    hide Sound, Passes;
    var events :| t == RunFrom(q, events) && AllBeside(events);
    BesideRun(q, events);
  }

  lemma HarmlessPasses(others: Others, n: nat, q: Queue)
    requires Sound(q) && Harmless(others)
    ensures var t := others(n, q); Sound(t) && Passes(q, t) && SameBytes(q, t)
  {
    hide Sound, Passes, SameBytes, Follows;
    assert Follows(q, others(n, q));
    FollowingPasses(q, others(n, q));
  }

  /** A cleanup gave up a row as it saw it: the bytes are gone, and so is the key unless the row has moved on since. */
  predicate GivenUp(seen: FileRun, q: Queue, id: Id)
    requires id in q.runs
  {
    && (seen.inputKey.Some? ==> seen.inputKey.value !in q.pending)
    && (q.runs[id].inputKey.None? || q.runs[id].status != seen.status)
  }

  lemma GivenUpLasts(seen: FileRun, q: Queue, t: Queue, id: Id)
    requires id in q.runs && GivenUp(seen, q, id) && Evolves(seen, q.runs[id]) && Passes(q, t)
    ensures GivenUp(seen, t, id) && Evolves(seen, t.runs[id])
  {
    hide Lasting, Reached;
    EvolvesIsTransitive(seen, q.runs[id], t.runs[id]);
  }

  /** A retry may still ask what it asked before the others had their turn: its parent is final. */
  lemma RetryLasts(q: Queue, t: Queue, input: Input, key: Option<Id>)
    requires Passes(q, t) && FromRetry(q, input, key)
    ensures FromRetry(t, input, key)
  {
    hide Lasting, Reached;
    var parent := input.retryOf.value;
    assert Evolves(q.runs[parent], t.runs[parent]);
  }

  lemma SameReferences(q: Queue, t: Queue, key: Id)
    requires SameNames(q, t)
    ensures Referenced(t, key) == Referenced(q, key)
  {
    if id :| id in q.runs && q.runs[id].inputKey == Some(key) { assert t.runs[id].inputKey == Some(key); }
    if id :| id in t.runs && t.runs[id].inputKey == Some(key) { assert q.runs[id].inputKey == Some(key); }
  }
}
