/** What every run of the model-call table guarantees: spending, dispatch and rate limits. */
module ModelSafety {
  import opened Results
  import opened Sequences
  import opened ModelPolicy
  import opened ModelLedger
  import Calendar

  /* ---- the two effects an event can have on the rows ---- */

  /** A row that was settled is untouched; any other keeps its identity, age and reservation. */
  ghost predicate Revises(c: Call, d: Call) {
    Rewrites(c, d) && (c.charged.Some? ==> d == c)
  }

  ghost predicate RowsRevised(rows: seq<Call>, other: seq<Call>) {
    |other| == |rows| && forall i :: 0 <= i < |rows| ==> Revises(rows[i], other[i])
  }

  ghost predicate Admits(s: State, e: Event) {
    e.Admit? && s.clock <= e.gate.now && Decide(s, e.req, e.gate).Admitted?
  }

  lemma UpdateRevises(s: State, id: string, f: Call -> Call)
    requires Valid(s) && id in s.inflight
    requires Rewrites(s.rows[IndexOf(s.rows, id)], f(s.rows[IndexOf(s.rows, id)]))
    ensures RowsRevised(s.rows, UpdateRow(s.rows, id, f))
  {
    assert InflightRow(s, id);
    hide InflightValid, SentValid, OneBusyAnswer;
  }

  /** A call that the process still owns has its row, not yet settled, with the reservation the process knows. */
  lemma InflightHasRow(s: State, id: string)
    requires Valid(s) && id in s.inflight
    ensures var at := IndexOf(s.rows, id);
      && at < |s.rows| && RowValid(s.rows[at]) && s.rows[at].charged.None?
      && s.inflight[id].reserved == s.rows[at].reserved
  {
    hide SentValid, OneBusyAnswer;
    assert InflightRow(s, id);
  }

  lemma SettleRewrites(d: Dispatch, c: Call, complete: bool, usage: Usage, now: nat)
    requires Acceptable(d, usage) && RowValid(c) && c.reserved == d.reserved
    ensures Rewrites(c, ToSettled(complete, Cost(d.model, usage), now)(c))
  {
    CostNonNegative(d.model, usage, d.inputLimit, d.outputLimit);
    hide Cost;
  }

  lemma UnknownRewrites(c: Call, now: nat)
    requires RowValid(c)
    ensures Rewrites(c, ToUnknown(now)(c)) && Rewrites(c, ToNotSent(now)(c))
  {
  }

  lemma SettleRevises(s: State, id: string, complete: bool, usage: Usage, now: nat)
    requires Valid(s) && Waiting(s, id, true)
    ensures RowsRevised(s.rows, Apply(s, Settle(id, complete, usage, now)).rows)
  {
    hide Valid, IndexOf, UpdateRow, RowsRevised, Rewrites, AdmittedUsage, Cost, RowValid;
    InflightHasRow(s, id);
    UnknownRewrites(s.rows[IndexOf(s.rows, id)], now);
    var d := s.inflight[id];
    if Acceptable(d, usage) {
      SettleRewrites(d, s.rows[IndexOf(s.rows, id)], complete, usage, now);
      UpdateRevises(s, id, ToSettled(complete, Cost(d.model, usage), now));
    } else {
      UpdateRevises(s, id, ToUnknown(now));
    }
  }

  lemma AdmitRevises(s: State, req: CallRequest, gate: Gate)
    requires Valid(s)
    ensures var e, t := Admit(req, gate), Apply(s, Admit(req, gate));
            && RowsRevised(s.rows, Expire(s.rows, gate.now))
            && (if Admits(s, e) then t.rows == Expire(s.rows, gate.now) + [Decide(s, req, gate).row]
                else RowsRevised(s.rows, t.rows))
  {
  }

  lemma MarkRevises(s: State, id: string, now: nat)
    requires Valid(s) && id in s.inflight
    ensures RowsRevised(s.rows, UpdateRow(s.rows, id, ToNotSent(now)))
    ensures RowsRevised(s.rows, UpdateRow(s.rows, id, ToUnknown(now)))
  {
    assert InflightRow(s, id);
    UpdateRevises(s, id, ToNotSent(now));
    UpdateRevises(s, id, ToUnknown(now));
  }

  lemma SameRevised(s: State)
    requires Valid(s)
    ensures RowsRevised(s.rows, s.rows)
  {
    hide InflightValid, SentValid, OneBusyAnswer;
  }

  /** An event revises the rows in place; only an admission also adds one. */
  lemma ApplyRevises(s: State, e: Event)
    requires Valid(s)
    ensures !Admits(s, e) ==> RowsRevised(s.rows, Apply(s, e).rows)
    ensures e.Admit? ==> RowsRevised(s.rows, Expire(s.rows, e.gate.now))
    ensures Admits(s, e) ==> Apply(s, e).rows == Expire(s.rows, e.gate.now) + [Decide(s, e.req, e.gate).row]
  {
    SameRevised(s);
    hide Valid, RowsRevised, Decide, Expire, UpdateRow, Acceptable;
    match e {
      case Admit(req, gate) => AdmitRevises(s, req, gate);
      case Skip(id, now) => if Waiting(s, id, false) { MarkRevises(s, id, now); }
      case Fail(id, now) => if Waiting(s, id, true) { MarkRevises(s, id, now); }
      case Settle(id, complete, usage, now) =>
        if Waiting(s, id, true) { SettleRevises(s, id, complete, usage, now); }
      case Configure(_) =>
      case Send(_) =>
      case Lose(_) =>
      case Crash =>
    }
  }

  /* ---- spending ---- */

  /** What a call counts for in month m: its charge when known, otherwise its reservation. */
  function MonthShare(m: nat): Call -> int {
    (c: Call) => if Calendar.MonthOf(c.createdAt) != m then 0
                 else if c.charged.Some? then c.charged.value else c.reserved
  }

  /** The month's share is covered by the exposure the admission test looks at. */
  lemma {:induction false} ShareWithinExposure(rows: seq<Call>, m: nat)
    requires forall i :: 0 <= i < |rows| ==> RowValid(rows[i])
    ensures Sum(rows, MonthShare(m)) <= Sum(rows, ChargedSince(Calendar.StartOf(m))) + Sum(rows, Held())
  {
    if rows != [] {
      ShareWithinExposure(rows[..|rows| - 1], m);
      assert RowValid(rows[|rows| - 1]);
    }
  }

  lemma AdmissionFits(s: State, req: CallRequest, gate: Gate)
    requires Decide(s, req, gate).Admitted?
    ensures var row := Decide(s, req, gate).row;
            && row.charged.None? && row.createdAt == gate.now
            && s.settings.budget.Some?
            && Exposure(Expire(s.rows, gate.now), gate.now) + row.reserved <= s.settings.budget.value
            && (AnswerModel(row.model) ==>
                  Sum(Expire(s.rows, gate.now), AnswerSince(gate.now - RATE_WINDOW_MS)) < RATE_LIMIT)
  {
  }

  /** An admission leaves the month it happens in within the limit in force. */
  lemma AdmissionWithinLimit(s: State, req: CallRequest, gate: Gate)
    requires Valid(s) && Admits(s, Admit(req, gate))
    ensures var t := Apply(s, Admit(req, gate));
            && s.settings.budget.Some?
            && Exposure(t.rows, gate.now) <= s.settings.budget.value
            && Exposure(t.rows, gate.now) == Exposure(s.rows, gate.now) + Decide(s, req, gate).row.reserved
            && Sum(t.rows, MonthShare(Calendar.MonthOf(gate.now))) <= s.settings.budget.value
  {
    var rows := Expire(s.rows, gate.now);
    var row := Decide(s, req, gate).row;
    var start := Calendar.StartOf(Calendar.MonthOf(gate.now));
    AdmissionFits(s, req, gate);
    AdmitRevises(s, req, gate);
    SumAppend(rows, row, ChargedSince(start));
    SumAppend(rows, row, Held());
    ExpireKeepsExposure(s.rows, gate.now, start);
    ApplyKeepsValid(s, Admit(req, gate));
    ShareWithinExposure(rows + [row], Calendar.MonthOf(gate.now));
  }

  /** Expiring overdue rows changes no charge, reservation or creation time. */
  lemma {:induction false} ExpireKeepsExposure(rows: seq<Call>, now: nat, start: int)
    ensures Sum(Expire(rows, now), ChargedSince(start)) == Sum(rows, ChargedSince(start))
    ensures Sum(Expire(rows, now), Held()) == Sum(rows, Held())
  {
    SumAtMost(Expire(rows, now), rows, ChargedSince(start), ChargedSince(start));
    SumAtMost(rows, Expire(rows, now), ChargedSince(start), ChargedSince(start));
    SumAtMost(Expire(rows, now), rows, Held(), Held());
    SumAtMost(rows, Expire(rows, now), Held(), Held());
  }

  /** Exposure at any time grows only through admissions. */
  lemma ExposureGrowsOnlyAtAdmission(s: State, e: Event, at: nat)
    requires Valid(s) && !Admits(s, e)
    ensures Exposure(Apply(s, e).rows, at) <= Exposure(s.rows, at)
  {
    ApplyRevises(s, e);
    ExposureOfRevised(s.rows, Apply(s, e).rows, Calendar.StartOf(Calendar.MonthOf(at)));
  }

  lemma {:induction false} ExposureOfRevised(rows: seq<Call>, other: seq<Call>, start: int)
    requires RowsRevised(rows, other)
    ensures Sum(other, ChargedSince(start)) + Sum(other, Held()) <= Sum(rows, ChargedSince(start)) + Sum(rows, Held())
  {
    if rows != [] {
      var n := |rows| - 1;
      assert Revises(rows[n], other[n]);
      ExposureOfRevised(rows[..n], other[..n], start);
    }
  }

  lemma ShareOfRevised(rows: seq<Call>, other: seq<Call>, m: nat)
    requires RowsRevised(rows, other)
    ensures Sum(other, MonthShare(m)) <= Sum(rows, MonthShare(m))
  {
    forall i | 0 <= i < |rows|
      ensures MonthShare(m)(other[i]) <= MonthShare(m)(rows[i])
    {
      assert Revises(rows[i], other[i]);
    }
    SumAtMost(other, rows, MonthShare(m), MonthShare(m));
  }

  /** When a month ends the exposure can only drop: its settled charges leave, its reservations stay. */
  lemma {:induction false} RolloverReleasesCharges(rows: seq<Call>, early: nat, late: nat)
    requires early <= late
    requires forall i :: 0 <= i < |rows| ==> RowValid(rows[i])
    ensures Exposure(rows, late) <= Exposure(rows, early)
    ensures Sum(rows, Held()) <= Exposure(rows, late)
  {
    var from, to := Calendar.StartOf(Calendar.MonthOf(early)), Calendar.StartOf(Calendar.MonthOf(late));
    Calendar.MonthsFollowTime(early, late);
    SumAtMost(rows, rows, ChargedSince(to), ChargedSince(from));
    SumNonNegative(rows, ChargedSince(to));
  }

  /** An event keeps a month within a limit unless it admits a call in that month under a higher one. */
  lemma StepKeepsBudget(s: State, e: Event, limit: nat, m: nat)
    requires Valid(s) && Sum(s.rows, MonthShare(m)) <= limit
    requires AdmitsIn(s, e, m) ==> s.settings.budget.Some? && s.settings.budget.value <= limit
    ensures Sum(Apply(s, e).rows, MonthShare(m)) <= limit
  {
    ApplyRevises(s, e);
    if Admits(s, e) {
      var rows, row := Expire(s.rows, e.gate.now), Decide(s, e.req, e.gate).row;
      ShareOfRevised(s.rows, rows, m);
      SumAppend(rows, row, MonthShare(m));
      AdmissionFits(s, e.req, e.gate);
      AdmissionWithinLimit(s, e.req, e.gate);
    } else {
      ShareOfRevised(s.rows, Apply(s, e).rows, m);
    }
  }

  ghost predicate AdmitsIn(s: State, e: Event, m: nat) {
    Admits(s, e) && Calendar.MonthOf(e.gate.now) == m
  }

  /** Every admission of a run in month m happens under a limit of at most `limit`. */
  ghost predicate AdmittedWithin(events: seq<Event>, limit: nat, m: nat) {
    forall i :: 0 <= i < |events| ==> AdmittedAt(events, i, limit, m)
  }

  ghost predicate AdmittedAt(events: seq<Event>, i: nat, limit: nat, m: nat)
    requires i < |events|
  {
    var s := Run(events[..i]);
    AdmitsIn(s, events[i], m) ==> s.settings.budget.Some? && s.settings.budget.value <= limit
  }

  lemma NothingSpent(m: nat)
    ensures Sum(Run([]).rows, MonthShare(m)) == 0 && Run([]).settings.budget.None?
  {
  }

  lemma AdmittedBefore(events: seq<Event>, limit: nat, m: nat)
    requires events != [] && AdmittedWithin(events, limit, m)
    ensures var n := |events| - 1;
      AdmittedWithin(events[..n], limit, m) && AdmittedAt(events, n, limit, m)
  {
    hide AdmitsIn, Run;
    var n := |events| - 1;
    forall i | 0 <= i < n ensures AdmittedAt(events[..n], i, limit, m) {
      assert events[..n][..i] == events[..i] && AdmittedAt(events, i, limit, m);
    }
  }

  /**
   * Budget safety, for every interleaving of admissions, expiries, settlements, failures, crashes, month ends and
   * changes of the limit: the calls created in a calendar month never count for more than the largest limit in force
   * at an admission within that month, whatever was configured before, after or without one.
   */
  lemma {:induction false} BudgetSafety(events: seq<Event>, limit: nat, m: nat)
    requires AdmittedWithin(events, limit, m)
    ensures Sum(Run(events).rows, MonthShare(m)) <= limit
  {
    hide Valid, Apply, AdmittedWithin, AdmitsIn;
    if events == [] {
      NothingSpent(m);
    } else {
      var before := events[..|events| - 1];
      AdmittedBefore(events, limit, m);
      BudgetSafety(before, limit, m);
      ReachableValid(before);
      StepKeepsBudget(Run(before), events[|events| - 1], limit, m);
    }
  }

  /** Every limit ever configured in a run is at most `limit`. */
  ghost predicate LimitsWithin(events: seq<Event>, limit: nat) {
    forall i :: 0 <= i < |events| && events[i].Configure? && events[i].settings.budget.Some?
                ==> events[i].settings.budget.value <= limit
  }

  lemma {:induction false} LimitInForce(events: seq<Event>, limit: nat)
    requires LimitsWithin(events, limit)
    ensures Run(events).settings.budget.Some? ==> Run(events).settings.budget.value <= limit
  {
    if events == [] {
      NothingSpent(0);
    } else {
      LimitInForce(events[..|events| - 1], limit);
    }
  }

  /** In particular no month counts for more than the largest limit ever configured. */
  lemma LargestLimitBounds(events: seq<Event>, limit: nat, m: nat)
    requires LimitsWithin(events, limit)
    ensures Sum(Run(events).rows, MonthShare(m)) <= limit
  {
    hide Run, Valid;
    forall i | 0 <= i < |events| ensures AdmittedAt(events, i, limit, m) {
      LimitInForce(events[..i], limit);
      var s := Run(events[..i]);
      if AdmitsIn(s, events[i], m) { AdmissionFits(s, events[i].req, events[i].gate); }
    }
    BudgetSafety(events, limit, m);
  }

  /* ---- repeated request ids ---- */

  /** Whose call a row is, and of what. */
  ghost predicate SameCall(c: Call, d: Call) {
    d.id == c.id && d.owner == c.owner && d.digest == c.digest && d.createdAt == c.createdAt
  }

  lemma RowStaysIn(s: State, e: Event, i: nat)
    requires Valid(s) && i < |s.rows|
    ensures i < |Apply(s, e).rows| && SameCall(s.rows[i], Apply(s, e).rows[i])
  {
    ApplyRevises(s, e);
    hide Valid, Apply, Admits;
    if Admits(s, e) {
      assert Revises(s.rows[i], Expire(s.rows, e.gate.now)[i]);
    } else {
      assert Revises(s.rows[i], Apply(s, e).rows[i]);
    }
  }

  /** A row keeps its place, its id, its owner and its payload. */
  lemma {:induction false} RowStays(events: seq<Event>, n: nat, i: nat)
    requires n <= |events| && i < |Run(events[..n]).rows|
    ensures i < |Run(events).rows| && SameCall(Run(events[..n]).rows[i], Run(events).rows[i])
    decreases |events|
  {
    hide Apply, Valid;
    if n == |events| {
      assert events[..n] == events;
    } else {
      var before := events[..|events| - 1];
      assert before[..n] == events[..n];
      RowStays(before, n, i);
      ReachableValid(before);
      RowStaysIn(Run(before), events[|events| - 1], i);
    }
  }

  lemma FoundAt(rows: seq<Call>, i: nat)
    requires i < |rows| && forall j, k :: 0 <= j < k < |rows| ==> rows[j].id != rows[k].id
    ensures IndexOf(rows, rows[i].id) == i
  {
  }

  lemma AdmittedRow(s: State, e: Event)
    requires Valid(s) && Admits(s, e)
    ensures var t, i := Apply(s, e), |s.rows|;
      i < |t.rows| && t.rows[i].id == Lower(e.req.rawId) && t.rows[i].owner == e.req.owner
      && t.rows[i].digest == DigestOf(e.req) && t.rows[i].createdAt == e.gate.now
  {
    ApplyRevises(s, e);
  }

  /** What a request that was looked up is answered. */
  lemma LookedUp(s: State, req: CallRequest, gate: Gate, i: nat)
    requires Valid(s) && i < |s.rows| && s.rows[i].id == Lower(req.rawId) && s.clock <= gate.now
    requires ValidInput(req) && gate.authorized && !gate.aborted
    ensures var d, t := Decide(s, req, gate), Apply(s, Admit(req, gate));
      && |t.rows| == |s.rows| && t.inflight == s.inflight && t.sent == s.sent
      && d == if s.rows[i].owner == req.owner && s.rows[i].digest == DigestOf(req) then Replay(t.rows[i])
              else Refuse(RequestIdConflict)
  {
    var rows := Expire(s.rows, gate.now);
    FoundAt(s.rows, i);
    SameIdsSameLookup(s.rows, rows, Lower(req.rawId));
  }

  /** The request asks for the same call: by the same administrator, for the same purpose, with the same payload. */
  predicate Repeats(first: CallRequest, again: CallRequest) {
    && again.owner == first.owner && again.purpose == first.purpose && again.check == first.check
    && again.input == first.input && again.fileNames == first.fileNames
  }

  /**
   * Idempotence over whole runs. Once a request id is admitted, in any later state a request with the same id, however
   * it is spelled, dispatches nothing: the same request is answered with the row of the first, any other is refused.
   */
  lemma RepeatsAnswerTheFirstCall(past: seq<Event>, first: Event, later: seq<Event>, req: CallRequest, gate: Gate)
    requires Admits(Run(past), first) && Lower(req.rawId) == Lower(first.req.rawId)
    requires ValidInput(req) && gate.authorized && !gate.aborted
    requires Run(past + [first] + later).clock <= gate.now
    ensures var i, s := |Run(past).rows|, Run(past + [first] + later);
      var t := Apply(s, Admit(req, gate));
      && |t.rows| == |s.rows| && t.inflight == s.inflight && t.sent == s.sent
      && i < |s.rows| && t.rows[i].id == Lower(req.rawId) && t.rows[i].createdAt == first.gate.now
      && Decide(s, req, gate) == if Repeats(first.req, req) then Replay(t.rows[i]) else Refuse(RequestIdConflict)
  {
    hide Valid, Apply, Decide, Lower, ValidInput;
    var events, n, i := past + [first] + later, |past| + 1, |Run(past).rows|;
    var s := Run(events);
    assert events[..n] == past + [first] && (past + [first])[..|past|] == past;
    ReachableValid(past);
    AdmittedRow(Run(past), first);
    RowStays(events, n, i);
    ReachableValid(events);
    LookedUp(s, req, gate, i);
    RowStaysIn(s, Admit(req, gate), i);
  }

  /* ---- dispatch ---- */

  function Occurrences(log: seq<string>, id: string): nat {
    if log == [] then 0 else Occurrences(log[..|log| - 1], id) + (if log[|log| - 1] == id then 1 else 0)
  }

  lemma {:induction false} DistinctOccurOnce(log: seq<string>, id: string)
    requires forall i, j :: 0 <= i < j < |log| ==> log[i] != log[j]
    ensures Occurrences(log, id) == if id in log then 1 else 0
  {
    if log != [] {
      var n := |log| - 1;
      DistinctOccurOnce(log[..n], id);
      assert log == log[..n] + [log[n]];
      assert log[n] !in log[..n];
    }
  }

  /** Every row of a run is stored under the lower-case spelling of its request id. */
  lemma {:induction false} IdsAreCanonical(events: seq<Event>)
    ensures forall i :: 0 <= i < |Run(events).rows| ==> Canonical(Run(events).rows[i].id)
  {
    if events != [] {
      var before, e := events[..|events| - 1], events[|events| - 1];
      var s, t := Run(before), Run(events);
      IdsAreCanonical(before);
      ReachableValid(before);
      ApplyRevises(s, e);
      if Admits(s, e) {
        LowerIsCanonical(e.req.rawId);
      }
      forall i | 0 <= i < |t.rows|
        ensures Canonical(t.rows[i].id)
      {
        if i < |s.rows| { assert t.rows[i].id == s.rows[i].id; }
      }
    }
  }

  /**
   * In every run the provider is called at most once per lower-cased request id, only for ids with a row, and
   * never for a row marked as not sent; a charge is known exactly for succeeded, incomplete and unsent rows.
   */
  lemma AtMostOnceDispatch(events: seq<Event>, id: string)
    ensures var s := Run(events);
            && Occurrences(s.sent, id) <= 1
            && (id in s.sent ==> Has(s.rows, id) && Canonical(id))
            && (Has(s.rows, id) ==>
                  var c := s.rows[IndexOf(s.rows, id)];
                  && (c.charged.Some? <==> c.status in {Succeeded, Incomplete, NotSent})
                  && (c.status.NotSent? ==> c.charged == Some(0) && Occurrences(s.sent, id) == 0))
  {
    var s := Run(events);
    ReachableValid(events);
    IdsAreCanonical(events);
    DistinctOccurOnce(s.sent, id);
    if id in s.sent {
      assert SentRow(s, id);
    }
  }

  function RunFrom(s: State, events: seq<Event>): State {
    if events == [] then s else Apply(RunFrom(s, events[..|events| - 1]), events[|events| - 1])
  }

  /** A settled row never changes again: not its charge, not its status, whatever happens later. */
  lemma {:induction false} SettledForever(s: State, later: seq<Event>, i: nat)
    requires Valid(s) && i < |s.rows| && s.rows[i].charged.Some?
    ensures var t := RunFrom(s, later);
            Valid(t) && i < |t.rows| && t.rows[i] == s.rows[i]
  {
    if later != [] {
      var before := later[..|later| - 1];
      SettledForever(s, before, i);
      ApplyRevises(RunFrom(s, before), later[|later| - 1]);
      ApplyKeepsValid(RunFrom(s, before), later[|later| - 1]);
    }
  }

  /** A call with a row that the process no longer owns. */
  ghost predicate Abandoned(s: State, id: string) {
    Has(s.rows, id) && id !in s.inflight
  }

  /** A crash or a lost answer keeps the reservation held: the call is never sent or charged afterwards. */
  lemma {:induction false} AbandonedStaysHeld(s: State, later: seq<Event>, id: string)
    requires Valid(s) && Abandoned(s, id)
    ensures var t := RunFrom(s, later);
            && Valid(t) && Abandoned(t, id)
            && ChargeOf(t, id) == ChargeOf(s, id)
            && Occurrences(t.sent, id) == Occurrences(s.sent, id)
  {
    if later != [] {
      var before := later[..|later| - 1];
      AbandonedStaysHeld(s, before, id);
      ApplyKeepsValid(RunFrom(s, before), later[|later| - 1]);
      StepKeepsAbandoned(RunFrom(s, before), later[|later| - 1], id);
    }
  }

  function ChargeOf(s: State, id: string): Option<int>
    requires Has(s.rows, id)
  {
    s.rows[IndexOf(s.rows, id)].charged
  }

  lemma UpdateOfOther(s: State, other: string, f: Call -> Call, id: string)
    requires Valid(s) && other in s.inflight && Abandoned(s, id)
    requires Rewrites(s.rows[IndexOf(s.rows, other)], f(s.rows[IndexOf(s.rows, other)]))
    ensures var rows := UpdateRow(s.rows, other, f);
            Has(rows, id) && rows[IndexOf(rows, id)] == s.rows[IndexOf(s.rows, id)]
  {
    assert InflightRow(s, other);
    SameIdsSameLookup(UpdateRow(s.rows, other, f), s.rows, id);
  }

  lemma MarkOfOther(s: State, other: string, now: nat, id: string)
    requires Valid(s) && Abandoned(s, id)
    ensures Waiting(s, other, false) ==>
              var t := Apply(s, Skip(other, now)); Abandoned(t, id) && ChargeOf(t, id) == ChargeOf(s, id)
    ensures Waiting(s, other, true) ==>
              var t := Apply(s, Fail(other, now)); Abandoned(t, id) && ChargeOf(t, id) == ChargeOf(s, id)
  {
    hide Valid, IndexOf, UpdateRow, Rewrites, RowValid;
    if other in s.inflight {
      InflightHasRow(s, other);
      UnknownRewrites(s.rows[IndexOf(s.rows, other)], now);
      UpdateOfOther(s, other, ToNotSent(now), id);
      UpdateOfOther(s, other, ToUnknown(now), id);
    }
  }

  lemma AdmitKeepsAbandoned(s: State, req: CallRequest, gate: Gate, id: string)
    requires Valid(s) && Abandoned(s, id)
    ensures var t := Apply(s, Admit(req, gate));
            Abandoned(t, id) && ChargeOf(t, id) == ChargeOf(s, id) && t.sent == s.sent
  {
    var rows := Expire(s.rows, gate.now);
    SameIdsSameLookup(rows, s.rows, id);
    if Admits(s, Admit(req, gate)) {
      AppendKeepsLookups(rows, Decide(s, req, gate).row, id);
    }
  }

  lemma StepKeepsAbandoned(s: State, e: Event, id: string)
    requires Valid(s) && Abandoned(s, id)
    ensures var t := Apply(s, e);
            && Abandoned(t, id) && ChargeOf(t, id) == ChargeOf(s, id)
            && Occurrences(t.sent, id) == Occurrences(s.sent, id)
  {
    hide Valid, Decide, Expire, IndexOf, UpdateRow, Acceptable, Cost;
    match e {
      case Admit(req, gate) => AdmitKeepsAbandoned(s, req, gate, id);
      case Send(other) => SendOfOther(s, other, id);
      case Skip(other, now) => MarkOfOther(s, other, now, id);
      case Fail(other, now) => MarkOfOther(s, other, now, id);
      case Settle(other, complete, usage, now) =>
        if Waiting(s, other, true) { SettleOfOther(s, other, complete, usage, now, id); }
      case Configure(_) =>
      case Lose(_) =>
      case Crash =>
    }
  }

  lemma SendOfOther(s: State, other: string, id: string)
    requires Abandoned(s, id)
    ensures var t := Apply(s, Send(other));
            Abandoned(t, id) && ChargeOf(t, id) == ChargeOf(s, id) && Occurrences(t.sent, id) == Occurrences(s.sent, id)
  {
    hide IndexOf;
    if Waiting(s, other, false) { assert (s.sent + [other])[..|s.sent|] == s.sent; }
  }

  lemma SettleOfOther(s: State, other: string, complete: bool, usage: Usage, now: nat, id: string)
    requires Valid(s) && Waiting(s, other, true) && Abandoned(s, id)
    ensures var t := Apply(s, Settle(other, complete, usage, now));
            Abandoned(t, id) && ChargeOf(t, id) == ChargeOf(s, id)
  {
    hide Valid, IndexOf, UpdateRow, Rewrites, AdmittedUsage, Cost, RowValid;
    InflightHasRow(s, other);
    UnknownRewrites(s.rows[IndexOf(s.rows, other)], now);
    var d := s.inflight[other];
    if Acceptable(d, usage) {
      SettleRewrites(d, s.rows[IndexOf(s.rows, other)], complete, usage, now);
      UpdateOfOther(s, other, ToSettled(complete, Cost(d.model, usage), now), id);
    } else {
      UpdateOfOther(s, other, ToUnknown(now), id);
    }
  }

  /* ---- answer limits ---- */

  function AnswersWithin(from: int): Call -> int {
    (c: Call) => if AnswerModel(c.model) && from <= c.createdAt <= from + RATE_WINDOW_MS then 1 else 0
  }

  lemma AnswersOfRevised(rows: seq<Call>, other: seq<Call>, from: int)
    requires RowsRevised(rows, other)
    ensures Sum(other, AnswersWithin(from)) <= Sum(rows, AnswersWithin(from))
  {
    forall i | 0 <= i < |rows|
      ensures AnswersWithin(from)(other[i]) <= AnswersWithin(from)(rows[i])
    {
      assert Revises(rows[i], other[i]);
    }
    SumAtMost(other, rows, AnswersWithin(from), AnswersWithin(from));
  }

  lemma RecentCoversWindow(rows: seq<Call>, from: int, now: nat)
    requires now <= from + RATE_WINDOW_MS
    ensures Sum(rows, AnswersWithin(from)) <= Sum(rows, AnswerSince(now - RATE_WINDOW_MS))
  {
    SumAtMost(rows, rows, AnswersWithin(from), AnswerSince(now - RATE_WINDOW_MS));
  }

  lemma OneMoreAnswer(rows: seq<Call>, row: Call, from: int)
    requires Sum(rows, AnswersWithin(from)) <= RATE_LIMIT
    requires AnswerModel(row.model) ==> Sum(rows, AnswerSince(row.createdAt - RATE_WINDOW_MS)) < RATE_LIMIT
    ensures Sum(rows + [row], AnswersWithin(from)) <= RATE_LIMIT
  {
    SumAppend(rows, row, AnswersWithin(from));
    if AnswersWithin(from)(row) == 1 {
      RecentCoversWindow(rows, from, row.createdAt);
    }
  }

  lemma StepKeepsRate(s: State, e: Event, from: int)
    requires Valid(s) && Sum(s.rows, AnswersWithin(from)) <= RATE_LIMIT
    ensures Sum(Apply(s, e).rows, AnswersWithin(from)) <= RATE_LIMIT
  {
    hide Valid, Apply, Decide, Expire, AnswersWithin, Sum, RowsRevised;
    ApplyRevises(s, e);
    if Admits(s, e) {
      RowFits(s, e);
      AnswersOfRevised(s.rows, Expire(s.rows, e.gate.now), from);
      OneMoreAnswer(Expire(s.rows, e.gate.now), Decide(s, e.req, e.gate).row, from);
    } else {
      AnswersOfRevised(s.rows, Apply(s, e).rows, from);
    }
  }

  lemma RowFits(s: State, e: Event)
    requires Admits(s, e)
    ensures var rows, row := Expire(s.rows, e.gate.now), Decide(s, e.req, e.gate).row;
      AnswerModel(row.model) ==> Sum(rows, AnswerSince(row.createdAt - RATE_WINDOW_MS)) < RATE_LIMIT
  {
    AdmissionFits(s, e.req, e.gate);
    hide Decide, Expire, Sum, Exposure;
  }

  /** Every closed minute contains at most ten created answer calls, and at most one is being dispatched. */
  lemma {:induction false} AnswerLimits(events: seq<Event>, from: int)
    ensures Sum(Run(events).rows, AnswersWithin(from)) <= RATE_LIMIT
    ensures OneBusyAnswer(Run(events).rows)
  {
    ReachableValid(events);
    if events != [] {
      var before := events[..|events| - 1];
      AnswerLimits(before, from);
      ReachableValid(before);
      StepKeepsRate(Run(before), events[|events| - 1], from);
    }
  }
}
