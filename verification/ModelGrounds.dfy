/** On which grounds the ledger refuses a call it has not seen, and what it reserves for one it admits. */
module ModelGrounds {
  import opened Results
  import opened Sequences
  import opened Unicode
  import opened ModelPolicy
  import opened ModelLedger
  import opened ModelSafety
  import Calendar

  /* ---- counts of rows ---- */

  /** Answer calls that were admitted less than 90 seconds ago and are still being dispatched. */
  function Underway(rows: seq<Call>, now: nat): set<nat> {
    set i: nat | i < |rows| && (rows[i].model == LUNA || rows[i].model == SOL) && rows[i].status.Dispatching?
                 && now < rows[i].createdAt + 90_000
  }

  /** Answer calls of the last minute, whatever became of them. */
  function Recent(rows: seq<Call>, now: nat): set<nat> {
    set i: nat | i < |rows| && (rows[i].model == LUNA || rows[i].model == SOL) && now <= rows[i].createdAt + 60_000
  }

  function Where(rows: seq<Call>, f: Call -> int): set<nat> {
    set i: nat | i < |rows| && f(rows[i]) == 1
  }

  lemma {:induction false} SumCounts(rows: seq<Call>, f: Call -> int)
    requires forall c :: 0 <= f(c) <= 1
    ensures Sum(rows, f) == |Where(rows, f)|
  {
    if rows != [] {
      var n := |rows| - 1;
      SumCounts(rows[..n], f);
      assert Where(rows, f) == Where(rows[..n], f) + if f(rows[n]) == 1 then {n} else {};
    }
  }

  ghost predicate Timely(rows: seq<Call>) {
    forall i :: 0 <= i < |rows| ==> rows[i].deadlineAt == rows[i].createdAt + 90_000
  }

  lemma {:induction false} DeadlinesAreNinetySeconds(events: seq<Event>)
    ensures Timely(Run(events).rows)
  {
    hide Apply, Valid, Admits;
    if events != [] {
      var n := |events| - 1;
      DeadlinesAreNinetySeconds(events[..n]);
      ReachableValid(events[..n]);
      StepIsTimely(Run(events[..n]), events[n]);
    }
  }

  lemma StepIsTimely(s: State, e: Event)
    requires Valid(s) && Timely(s.rows)
    ensures Timely(Apply(s, e).rows)
  {
    ApplyRevises(s, e);
    hide Valid;
    if Admits(s, e) {
      hide Lower, Preflight, Limits, ValidInput, IndexOf, Reservation;
    } else {
      hide Apply;
      forall i | 0 <= i < |s.rows| ensures Apply(s, e).rows[i].deadlineAt == s.rows[i].deadlineAt {
        assert Revises(s.rows[i], Apply(s, e).rows[i]);
      }
    }
  }

  lemma BusyMeansUnderway(rows: seq<Call>, now: nat)
    requires Timely(rows)
    ensures Sum(Expire(rows, now), BusyAnswer()) > 0 <==> Underway(rows, now) != {}
  {
    var expired := Expire(rows, now);
    SumCounts(expired, BusyAnswer());
    forall i: nat ensures i in Where(expired, BusyAnswer()) <==> i in Underway(rows, now) {}
    assert Where(expired, BusyAnswer()) == Underway(rows, now);
  }

  lemma RateCountsRecent(rows: seq<Call>, now: nat)
    ensures Sum(Expire(rows, now), AnswerSince(now - RATE_WINDOW_MS)) == |Recent(rows, now)|
  {
    var expired := Expire(rows, now);
    SumCounts(expired, AnswerSince(now - RATE_WINDOW_MS));
    assert Where(expired, AnswerSince(now - RATE_WINDOW_MS)) == Recent(rows, now);
  }

  /* ---- what a call reserves ---- */

  /** The dearest the call can get, in nano-dollars: every input token written to the longer cache, all output used. */
  function Worst(e: Settings, embeds: bool): int {
    if embeds then 20 * (if e.inputTokenLimit < 8192 then e.inputTokenLimit else 8192)
    else if e.answerModel == LUNA then 250 * e.inputTokenLimit + 500 * e.outputTokenLimit
    else 5000 * e.inputTokenLimit + 10000 * e.outputTokenLimit
  }

  lemma ReservesTheWorst(e: Settings, req: CallRequest)
    requires ValidExecution(e)
    ensures Supported(Model(e, req))
    ensures Reservation(Model(e, req), InputLimit(e, req), OutputLimit(e, req)) == Worst(e, Embeds(req))
  {
    if Embeds(req) {
      assert Rates(EMBEDDING).value == RateCard(20, 20, 20, 20, 0);
    } else if e.answerModel == LUNA {
      assert Rates(LUNA).value == RateCard(100, 10, 125, 250, 500);
    } else {
      assert Rates(SOL).value == RateCard(2000, 100, 2500, 5000, 10000);
    }
  }

  /* ---- the grounds, in their order ---- */

  ghost predicate Ground(s: State, req: CallRequest, gate: Gate, why: Refusal) {
    var e, embeds := s.settings, req.purpose.DocumentEmbedding? || req.purpose.RagQuestionEmbedding?;
    match why
    case InvalidCallInput =>
      || !ValidRequestId(req.rawId) || Utf16Length(req.input) > 64_000
      || forall i :: 0 <= i < |req.input| ==> Whitespace(req.input[i])
    case Unauthorized => !gate.authorized
    case CallCancelled => gate.aborted
    case RequestIdConflict => false
    case PriceNotConfirmed => !e.priceConfirmed
    case InvalidModelSettings =>
      || (e.answerModel != LUNA && e.answerModel != SOL)
      || e.inputTokenLimit < 512 || e.inputTokenLimit > 16000 || e.outputTokenLimit < 128 || e.outputTokenLimit > 4096
    case BudgetNotConfigured => e.budget.None?
    case TransferDenied => !gate.transferAllowed
    case CredentialNotEnabled => !gate.credentialEnabled
    case InputLimitExceeded =>
      Bytes(req.input) + 256 > e.inputTokenLimit || (embeds && Bytes(req.input) + 256 > 8192)
    case AnswerBusy => !embeds && Underway(s.rows, gate.now) != {}
    case CallRateLimited => !embeds && |Recent(s.rows, gate.now)| >= 10
    case BudgetExceeded => e.budget.Some? && Exposure(s.rows, gate.now) + Worst(e, embeds) > e.budget.value
    case KeyUnavailable => !gate.keyReadable
  }

  /** The order of the tests. */
  function Rank(why: Refusal): nat {
    match why
    case InvalidCallInput => 0
    case Unauthorized => 1
    case CallCancelled => 2
    case RequestIdConflict => 3
    case PriceNotConfirmed => 4
    case InvalidModelSettings => 5
    case BudgetNotConfigured => 6
    case TransferDenied => 7
    case CredentialNotEnabled => 8
    case InputLimitExceeded => 9
    case AnswerBusy => 10
    case CallRateLimited => 11
    case BudgetExceeded => 12
    case KeyUnavailable => 13
  }

  /** The row of a newly admitted call. */
  function Opened(s: State, req: CallRequest, now: nat): Call {
    var embeds := req.purpose.DocumentEmbedding? || req.purpose.RagQuestionEmbedding?;
    Call(Lower(req.rawId), req.owner, Digest(req.purpose, req.check, req.input, req.fileNames),
         if embeds then EMBEDDING else s.settings.answerModel, Worst(s.settings, embeds), None, Dispatching,
         now, now + 90_000, None)
  }

  /** What an admitted call may send and use. */
  predicate Bounded(e: Settings, row: Call, dispatch: Dispatch) {
    && dispatch.model == row.model && dispatch.reserved == row.reserved && !dispatch.sent
    && if row.model == EMBEDDING
       then dispatch.outputLimit == 0 && dispatch.inputLimit <= 8192 && dispatch.inputLimit <= e.inputTokenLimit
            && (dispatch.inputLimit == 8192 || dispatch.inputLimit == e.inputTokenLimit)
       else dispatch.outputLimit == e.outputTokenLimit && dispatch.inputLimit == e.inputTokenLimit
  }

  /** The answer to a new id. */
  ghost predicate Answers(s: State, req: CallRequest, gate: Gate, d: Decision) {
    match d
    case Refuse(why) => Ground(s, req, gate, why) && NoneFrom(s, req, gate, 0, Rank(why))
    case Replay(_) => false
    case Admitted(row, dispatch) =>
      && NoneFrom(s, req, gate, 0, 14) && row == Opened(s, req, gate.now) && Bounded(s.settings, row, dispatch)
  }

  /** No ground with a rank from `low` up to but not including `high`. */
  ghost predicate NoneFrom(s: State, req: CallRequest, gate: Gate, low: nat, high: nat) {
    forall why :: low <= Rank(why) < high ==> !Ground(s, req, gate, why)
  }

  /** What the preflight tests are the grounds of ranks 4 to 9. */
  lemma EarlyGrounds(s: State, req: CallRequest, gate: Gate)
    ensures match Preflight(s.settings, req, gate)
      case None => NoneFrom(s, req, gate, 4, 10)
      case Some(why) => 4 <= Rank(why) < 10 && Ground(s, req, gate, why) && NoneFrom(s, req, gate, 4, Rank(why))
  {
    hide Exposure, Underway, Recent, Worst, ValidRequestId, Utf16Length, Whitespace, Bytes;
    var early := Preflight(s.settings, req, gate);
    forall why | 4 <= Rank(why) < if early.Some? then Rank(early.value) else 10 ensures !Ground(s, req, gate, why) {}
  }

  lemma SameExposure(rows: seq<Call>, now: nat)
    ensures Exposure(Expire(rows, now), now) == Exposure(rows, now)
  {
    ExpireKeepsExposure(rows, now, Calendar.StartOf(Calendar.MonthOf(now)));
  }

  lemma CountingGrounds(s: State, req: CallRequest, gate: Gate)
    ensures Ground(s, req, gate, AnswerBusy) <==> !Embeds(req) && Underway(s.rows, gate.now) != {}
    ensures Ground(s, req, gate, CallRateLimited) <==> !Embeds(req) && |Recent(s.rows, gate.now)| >= RATE_LIMIT
    ensures Ground(s, req, gate, BudgetExceeded) <==>
              s.settings.budget.Some?
              && Exposure(s.rows, gate.now) + Worst(s.settings, Embeds(req)) > s.settings.budget.value
    ensures Ground(s, req, gate, KeyUnavailable) <==> !gate.keyReadable
  {
    hide Underway, Recent, Worst, Exposure;
  }

  /** The counting checks in terms of the rows as they are before overdue ones expire. */
  lemma LimitsMean(s: State, req: CallRequest, gate: Gate)
    requires Timely(s.rows) && Preflight(s.settings, req, gate).None?
    ensures s.settings.budget.Some?
    ensures Limits(Expire(s.rows, gate.now), s.settings, req, gate) ==
            if !Embeds(req) && Underway(s.rows, gate.now) != {} then Some(AnswerBusy)
            else if !Embeds(req) && |Recent(s.rows, gate.now)| >= RATE_LIMIT then Some(CallRateLimited)
            else if Exposure(s.rows, gate.now) + Worst(s.settings, Embeds(req)) > s.settings.budget.value
              then Some(BudgetExceeded)
            else if !gate.keyReadable then Some(KeyUnavailable) else None
  {
    BusyMeansUnderway(s.rows, gate.now);
    RateCountsRecent(s.rows, gate.now);
    SameExposure(s.rows, gate.now);
    ReservesTheWorst(s.settings, req);
    hide Underway, Recent, Worst, Expire, Reservation, Exposure, Sum, BusyAnswer, AnswerSince, Timely, Model;
    hide InputLimit, OutputLimit, ValidExecution, Bytes, Embeds;
  }

  /** What the counting checks test are the grounds of ranks 10 to 13. */
  lemma LateGrounds(s: State, req: CallRequest, gate: Gate)
    requires Timely(s.rows) && Preflight(s.settings, req, gate).None?
    ensures match Limits(Expire(s.rows, gate.now), s.settings, req, gate)
      case None => NoneFrom(s, req, gate, 10, 14)
      case Some(why) => 10 <= Rank(why) < 14 && Ground(s, req, gate, why) && NoneFrom(s, req, gate, 10, Rank(why))
  {
    LimitsMean(s, req, gate);
    CountingGrounds(s, req, gate);
    hide Ground, Underway, Recent, Worst, Expire, Exposure, Timely, Limits, NoneFrom, Embeds;
    var late := Limits(Expire(s.rows, gate.now), s.settings, req, gate);
    NoLateGround(s, req, gate, if late.Some? then Rank(late.value) else 14);
  }

  lemma NoLateGround(s: State, req: CallRequest, gate: Gate, high: nat)
    ensures NoneFrom(s, req, gate, 10, high) <==>
      && (high > 10 ==> !Ground(s, req, gate, AnswerBusy)) && (high > 11 ==> !Ground(s, req, gate, CallRateLimited))
      && (high > 12 ==> !Ground(s, req, gate, BudgetExceeded)) && (high > 13 ==> !Ground(s, req, gate, KeyUnavailable))
  {
    hide Ground;
    assert Rank(AnswerBusy) == 10 && Rank(CallRateLimited) == 11 && Rank(BudgetExceeded) == 12;
    assert Rank(KeyUnavailable) == 13;
  }

  /** The grounds of ranks 0 to 3. */
  lemma FirstGrounds(s: State, req: CallRequest, gate: Gate)
    ensures Ground(s, req, gate, InvalidCallInput) <==> !ValidInput(req)
    ensures ValidInput(req) ==> NoneFrom(s, req, gate, 0, 1)
    ensures ValidInput(req) && gate.authorized ==> NoneFrom(s, req, gate, 0, 2)
    ensures ValidInput(req) && gate.authorized && !gate.aborted ==> NoneFrom(s, req, gate, 0, 4)
  {
    hide ValidRequestId, Utf16Length, Whitespace;
  }

  lemma RanksAddUp(s: State, req: CallRequest, gate: Gate, middle: nat, high: nat)
    requires NoneFrom(s, req, gate, 0, middle) && NoneFrom(s, req, gate, middle, high)
    ensures NoneFrom(s, req, gate, 0, high)
  {
    hide Ground, Rank;
  }

  lemma NewIdIsNotFound(rows: seq<Call>, now: nat, id: string)
    requires forall i :: 0 <= i < |rows| ==> rows[i].id != id
    ensures IndexOf(Expire(rows, now), id) == |rows|
  {
    SameIdsSameLookup(rows, Expire(rows, now), id);
  }

  /**
   * In every reachable state a call with a new id is refused on the first of the grounds against it, in their order,
   * and is admitted exactly when there is none; then its row reserves the worst case and starts its 90 seconds.
   */
  lemma FirstGroundDecides(events: seq<Event>, req: CallRequest, gate: Gate)
    requires forall i :: 0 <= i < |Run(events).rows| ==> Run(events).rows[i].id != Lower(req.rawId)
    ensures Answers(Run(events), req, gate, Decide(Run(events), req, gate))
  {
    var s := Run(events);
    DeadlinesAreNinetySeconds(events);
    NewIdIsNotFound(s.rows, gate.now, Lower(req.rawId));
    DecidedByGrounds(s, req, gate);
  }

  lemma DecidedByGrounds(s: State, req: CallRequest, gate: Gate)
    requires Timely(s.rows) && IndexOf(Expire(s.rows, gate.now), Lower(req.rawId)) == |s.rows|
    ensures Answers(s, req, gate, Decide(s, req, gate))
  {
    FirstGrounds(s, req, gate);
    EarlyGrounds(s, req, gate);
    SessionGrounds(s, req, gate);
    hide Ground, Preflight, Limits, ValidInput, Expire, Worst, Reservation, NoneFrom, Timely, Lower, Bounded;
    if ValidInput(req) && gate.authorized && !gate.aborted {
      var early := Preflight(s.settings, req, gate);
      if early.Some? {
        RanksAddUp(s, req, gate, 4, Rank(early.value));
      } else {
        RanksAddUp(s, req, gate, 4, 10);
        LateGrounds(s, req, gate);
        var late := Limits(Expire(s.rows, gate.now), s.settings, req, gate);
        RanksAddUp(s, req, gate, 10, if late.Some? then Rank(late.value) else 14);
        if late.None? { AdmittedRowOpens(s, req, gate); }
      }
    } else {
      assert NoneFrom(s, req, gate, 0, 0) by { NothingBeforeZero(s, req, gate); }
    }
  }

  lemma NothingBeforeZero(s: State, req: CallRequest, gate: Gate)
    ensures NoneFrom(s, req, gate, 0, 0)
  {
  }

  lemma AdmittedRowOpens(s: State, req: CallRequest, gate: Gate)
    requires Preflight(s.settings, req, gate).None?
    ensures NewCall(s.settings, req, gate.now) == Opened(s, req, gate.now)
    ensures Bounded(s.settings, Opened(s, req, gate.now), NewDispatch(s.settings, req))
  {
    ReservesTheWorst(s.settings, req);
    hide Reservation, Worst, Lower;
  }

  lemma SessionGrounds(s: State, req: CallRequest, gate: Gate)
    ensures Ground(s, req, gate, Unauthorized) <==> !gate.authorized
    ensures Ground(s, req, gate, CallCancelled) <==> gate.aborted
  {
  }
}
