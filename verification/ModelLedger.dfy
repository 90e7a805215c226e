/**
 * The model-call table as a transition system: model-execution.service.ts.
 *
 * Each event is one committed database transaction, one action of the process that owns a call between its
 * transactions, or a crash of that process. Rows are kept in creation order and are never deleted.
 */
module ModelLedger {
  import opened Results
  import opened Sequences
  import opened Unicode
  import opened ModelPolicy
  import Calendar

  const TIMEOUT_MS: nat := 90_000
  const RATE_WINDOW_MS: nat := 60_000
  const RATE_LIMIT: nat := 10
  const EMBEDDING_INPUT_LIMIT: nat := 8192
  const INPUT_LENGTH_LIMIT: nat := 64_000
  const FRAMING_BYTES: nat := 256

  /* ---- rows, settings and requests ---- */

  datatype Purpose = DocumentEmbedding | RagQuestionEmbedding | RagAnswer | AttachmentAnswer

  /** The input digest, taken as injective: it is the digested value itself. */
  datatype Digest = Digest(purpose: Purpose, check: bool, input: Text, fileNames: seq<string>)

  datatype Status = Dispatching | Succeeded | Incomplete | Unknown | NotSent

  datatype Call = Call(
    id: string, owner: string, digest: Digest, model: string, reserved: int, charged: Option<int>,
    status: Status, createdAt: nat, deadlineAt: nat, completedAt: Option<nat>)

  datatype Settings = Settings(
    answerModel: string, inputTokenLimit: int, outputTokenLimit: int,
    budget: Option<int>, priceConfirmed: bool)

  const DEFAULT_SETTINGS := Settings(LUNA, 16000, 4096, None, false)

  predicate ValidExecution(e: Settings) {
    AnswerModel(e.answerModel) && 512 <= e.inputTokenLimit <= 16000 && 128 <= e.outputTokenLimit <= 4096
  }

  datatype CallRequest = CallRequest(
    rawId: string, owner: string, purpose: Purpose, check: bool, input: Text, fileNames: seq<string>)

  function DigestOf(req: CallRequest): Digest {
    Digest(req.purpose, req.check, req.input, req.fileNames)
  }

  predicate Embeds(req: CallRequest) {
    req.purpose.DocumentEmbedding? || req.purpose.RagQuestionEmbedding?
  }

  /** What an admission transaction finds out from code outside this model. */
  datatype Gate = Gate(
    now: nat, aborted: bool, authorized: bool, transferAllowed: bool, credentialEnabled: bool, keyReadable: bool)

  datatype Refusal =
    | InvalidCallInput | Unauthorized | CallCancelled | RequestIdConflict | PriceNotConfirmed
    | InvalidModelSettings | BudgetNotConfigured | TransferDenied | CredentialNotEnabled | InputLimitExceeded
    | AnswerBusy | CallRateLimited | BudgetExceeded | KeyUnavailable

  /** The continuation of an admitted call inside the process: what it may send, and whether it has sent it. */
  datatype Dispatch = Dispatch(model: string, inputLimit: nat, outputLimit: nat, reserved: int, sent: bool)

  datatype Decision = Refuse(why: Refusal) | Replay(prior: Call) | Admitted(row: Call, dispatch: Dispatch)

  datatype State = State(
    rows: seq<Call>, settings: Settings, inflight: map<string, Dispatch>, clock: nat, sent: seq<string>)

  const INITIAL := State([], DEFAULT_SETTINGS, map[], 0, [])

  /* ---- lookups and aggregates ---- */

  function IndexOf(rows: seq<Call>, id: string): (i: nat)
    ensures i <= |rows|
    ensures i < |rows| ==> rows[i].id == id
    ensures forall k :: 0 <= k < i ==> rows[k].id != id
  {
    if rows == [] || rows[0].id == id then 0 else 1 + IndexOf(rows[1..], id)
  }

  predicate Has(rows: seq<Call>, id: string) {
    IndexOf(rows, id) < |rows|
  }

  predicate Overdue(c: Call, now: nat) {
    c.status.Dispatching? && c.deadlineAt <= now
  }

  function Expired(c: Call, now: nat): Call {
    if Overdue(c, now) then c.(status := Unknown, completedAt := Some(now)) else c
  }

  function Expire(rows: seq<Call>, now: nat): (expired: seq<Call>)
    ensures |expired| == |rows|
    ensures forall i :: 0 <= i < |rows| ==> expired[i] == Expired(rows[i], now)
  {
    seq(|rows|, i requires 0 <= i < |rows| => Expired(rows[i], now))
  }

  /** Charges of the period, and of unsettled rows whatever their age (those are null and add nothing). */
  function ChargedSince(start: int): Call -> int {
    (c: Call) => if c.charged.Some? && c.createdAt >= start then c.charged.value else 0
  }

  /** Reservations of every unsettled row, whatever its age. */
  function Held(): Call -> int {
    (c: Call) => if c.charged.None? then c.reserved else 0
  }

  function Exposure(rows: seq<Call>, now: nat): int {
    Sum(rows, ChargedSince(Calendar.StartOf(Calendar.MonthOf(now)))) + Sum(rows, Held())
  }

  function BusyAnswer(): Call -> int {
    (c: Call) => if c.status.Dispatching? && AnswerModel(c.model) then 1 else 0
  }

  function AnswerSince(start: int): Call -> int {
    (c: Call) => if AnswerModel(c.model) && c.createdAt >= start then 1 else 0
  }

  /* ---- admission ---- */

  predicate ValidInput(req: CallRequest) {
    ValidRequestId(req.rawId) && !Blank(req.input) && Utf16Length(req.input) <= INPUT_LENGTH_LIMIT
  }

  function Model(e: Settings, req: CallRequest): string {
    if Embeds(req) then EMBEDDING else e.answerModel
  }

  function InputLimit(e: Settings, req: CallRequest): int {
    if Embeds(req) && EMBEDDING_INPUT_LIMIT < e.inputTokenLimit then EMBEDDING_INPUT_LIMIT else e.inputTokenLimit
  }

  function OutputLimit(e: Settings, req: CallRequest): int {
    if Embeds(req) then 0 else e.outputTokenLimit
  }

  function Preflight(e: Settings, req: CallRequest, gate: Gate): Option<Refusal> {
    var bound := Bytes(req.input) + FRAMING_BYTES;
    if !e.priceConfirmed then Some(PriceNotConfirmed)
    else if !ValidExecution(e) then Some(InvalidModelSettings)
    else if e.budget.None? then Some(BudgetNotConfigured)
    else if !gate.transferAllowed then Some(TransferDenied)
    else if !gate.credentialEnabled then Some(CredentialNotEnabled)
    else if bound > e.inputTokenLimit || (Embeds(req) && bound > EMBEDDING_INPUT_LIMIT) then Some(InputLimitExceeded)
    else None
  }

  /** The checks that count rows, for a request that passed the preflight. */
  function Limits(rows: seq<Call>, e: Settings, req: CallRequest, gate: Gate): Option<Refusal>
    requires Preflight(e, req, gate).None?
  {
    if !Embeds(req) && Sum(rows, BusyAnswer()) > 0 then Some(AnswerBusy)
    else if !Embeds(req) && Sum(rows, AnswerSince(gate.now - RATE_WINDOW_MS)) >= RATE_LIMIT then Some(CallRateLimited)
    else if Exposure(rows, gate.now) + Reservation(Model(e, req), InputLimit(e, req), OutputLimit(e, req))
            > e.budget.value then Some(BudgetExceeded)
    else if !gate.keyReadable then Some(KeyUnavailable)
    else None
  }

  function NewCall(e: Settings, req: CallRequest, now: nat): Call
    requires ValidExecution(e)
  {
    Call(Lower(req.rawId), req.owner, DigestOf(req), Model(e, req),
         Reservation(Model(e, req), InputLimit(e, req), OutputLimit(e, req)),
         None, Dispatching, now, now + TIMEOUT_MS, None)
  }

  function NewDispatch(e: Settings, req: CallRequest): Dispatch
    requires ValidExecution(e)
  {
    Dispatch(Model(e, req), InputLimit(e, req), OutputLimit(e, req),
             Reservation(Model(e, req), InputLimit(e, req), OutputLimit(e, req)), false)
  }

  /** The outcome of the admission transaction, decided after overdue rows were expired inside it. */
  function Decide(s: State, req: CallRequest, gate: Gate): Decision {
    var rows := Expire(s.rows, gate.now);
    var at := IndexOf(rows, Lower(req.rawId));
    if !ValidInput(req) then Refuse(InvalidCallInput)
    else if !gate.authorized then Refuse(Unauthorized)
    else if gate.aborted then Refuse(CallCancelled)
    else if at < |rows| then
      if rows[at].owner != req.owner || rows[at].digest != DigestOf(req) then Refuse(RequestIdConflict)
      else Replay(rows[at])
    else
      var early := Preflight(s.settings, req, gate);
      if early.Some? then Refuse(early.value)
      else
        var late := Limits(rows, s.settings, req, gate);
        if late.Some? then Refuse(late.value)
        else Admitted(NewCall(s.settings, req, gate.now), NewDispatch(s.settings, req))
  }

  /* ---- the transition system ---- */

  datatype Event =
    | Configure(settings: Settings)
    | Admit(req: CallRequest, gate: Gate)
    | Skip(id: string, now: nat)                                     // deadline passed or aborted before sending
    | Send(id: string)                                               // the provider is called
    | Fail(id: string, now: nat)                                     // the provider call threw
    | Settle(id: string, complete: bool, usage: Usage, now: nat)     // the provider answered
    | Lose(id: string)                                               // the answer could not be stored
    | Crash

  /** A conditional or plain update of the row with an id. */
  function UpdateRow(rows: seq<Call>, id: string, f: Call -> Call): seq<Call> {
    var at := IndexOf(rows, id);
    if at < |rows| then rows[at := f(rows[at])] else rows
  }

  function ToNotSent(now: nat): Call -> Call {
    (c: Call) => c.(status := NotSent, charged := Some(0), completedAt := Some(now))
  }

  function ToUnknown(now: nat): Call -> Call {
    (c: Call) => if c.status.Dispatching? || c.status.Unknown? then c.(status := Unknown, completedAt := Some(now))
                 else c
  }

  function ToSettled(complete: bool, charge: int, now: nat): Call -> Call {
    (c: Call) =>
      c.(status := if complete then Succeeded else Incomplete, charged := Some(charge), completedAt := Some(now))
  }

  predicate Waiting(s: State, id: string, sent: bool) {
    id in s.inflight && s.inflight[id].sent == sent
  }

  predicate Acceptable(d: Dispatch, usage: Usage) {
    Supported(d.model) && AdmittedUsage(d.model, usage, d.inputLimit, d.outputLimit, d.reserved)
  }

  /** A refused admission rolls back; the other two keep the expiry of overdue rows. */
  function Enact(s: State, decision: Decision, now: nat): State {
    match decision
    case Refuse(_) => s
    case Replay(_) => s.(rows := Expire(s.rows, now), clock := now)
    case Admitted(row, dispatch) =>
      s.(rows := Expire(s.rows, now) + [row], inflight := s.inflight[row.id := dispatch], clock := now)
  }

  /** An event that cannot happen in a state leaves it unchanged. */
  function Apply(s: State, e: Event): State {
    match e
    case Configure(settings) => s.(settings := settings)
    case Admit(req, gate) =>
      if gate.now < s.clock then s else Enact(s, Decide(s, req, gate), gate.now)
    case Skip(id, now) =>
      if Waiting(s, id, false) then s.(rows := UpdateRow(s.rows, id, ToNotSent(now)), inflight := s.inflight - {id})
      else s
    case Send(id) =>
      if Waiting(s, id, false)
      then s.(inflight := s.inflight[id := s.inflight[id].(sent := true)], sent := s.sent + [id]) else s
    case Fail(id, now) =>
      if Waiting(s, id, true) then s.(rows := UpdateRow(s.rows, id, ToUnknown(now)), inflight := s.inflight - {id})
      else s
    case Settle(id, complete, usage, now) =>
      if !Waiting(s, id, true) then s
      else
        var d := s.inflight[id];
        var f := if Acceptable(d, usage) then ToSettled(complete, Cost(d.model, usage), now) else ToUnknown(now);
        s.(rows := UpdateRow(s.rows, id, f), inflight := s.inflight - {id})
    case Lose(id) => if Waiting(s, id, true) then s.(inflight := s.inflight - {id}) else s
    case Crash => s.(inflight := map[])
  }

  function Run(events: seq<Event>): State {
    if events == [] then INITIAL else Apply(Run(events[..|events| - 1]), events[|events| - 1])
  }

  /* ---- the invariant ---- */

  predicate Settled(c: Call) {
    c.status.Succeeded? || c.status.Incomplete? || c.status.NotSent?
  }

  /** A charge is known exactly for settled rows, is zero for unsent ones and never exceeds the reservation. */
  ghost predicate RowValid(c: Call) {
    && c.reserved > 0
    && (c.charged.Some? <==> Settled(c))
    && (c.charged.Some? ==> 0 <= c.charged.value <= c.reserved)
    && (c.status.NotSent? ==> c.charged == Some(0))
  }

  ghost predicate RowsValid(rows: seq<Call>, clock: nat) {
    && (forall i :: 0 <= i < |rows| ==> RowValid(rows[i]) && rows[i].createdAt <= clock)
    && (forall i, j :: 0 <= i < j < |rows| ==> rows[i].id != rows[j].id)
  }

  /** At most one answer call is being dispatched. */
  ghost predicate OneBusyAnswer(rows: seq<Call>) {
    forall i, j :: 0 <= i < j < |rows| ==> BusyAnswer()(rows[i]) + BusyAnswer()(rows[j]) <= 1
  }

  /** Every call still owned by the process has its unsettled row. */
  ghost predicate InflightValid(s: State) {
    forall id :: id in s.inflight ==> InflightRow(s, id)
  }

  ghost predicate InflightRow(s: State, id: string)
    requires id in s.inflight
  {
    var at := IndexOf(s.rows, id);
    at < |s.rows| && s.rows[at].charged.None? && s.inflight[id].reserved == s.rows[at].reserved
  }

  ghost predicate SentRow(s: State, id: string) {
    Has(s.rows, id) && !s.rows[IndexOf(s.rows, id)].status.NotSent?
  }

  /** The provider was called once for each id in the log, and never for a row marked as not sent. */
  ghost predicate SentValid(s: State) {
    && (forall i, j :: 0 <= i < j < |s.sent| ==> s.sent[i] != s.sent[j])
    && (forall id :: id in s.sent ==> SentRow(s, id))
    && (forall id :: id in s.inflight ==> (s.inflight[id].sent <==> id in s.sent))
  }

  ghost predicate Valid(s: State) {
    RowsValid(s.rows, s.clock) && OneBusyAnswer(s.rows) && InflightValid(s) && SentValid(s)
  }

  /** Lookups depend on the ids alone. */
  lemma {:induction false} SameIdsSameLookup(rows: seq<Call>, other: seq<Call>, id: string)
    requires |rows| == |other|
    requires forall k :: 0 <= k < |rows| ==> rows[k].id == other[k].id
    ensures IndexOf(rows, id) == IndexOf(other, id)
  {
    if rows != [] {
      SameIdsSameLookup(rows[1..], other[1..], id);
    }
  }

  lemma {:induction false} AppendKeepsLookups(rows: seq<Call>, c: Call, id: string)
    ensures IndexOf(rows + [c], id)
            == if Has(rows, id) then IndexOf(rows, id) else if c.id == id then |rows| else |rows| + 1
  {
    if rows != [] {
      assert (rows + [c])[1..] == rows[1..] + [c];
      AppendKeepsLookups(rows[1..], c, id);
    }
  }

  /** What expiry and settlement may change in a row: its status, charge and completion. */
  ghost predicate Rewrites(c: Call, d: Call) {
    && d.id == c.id && d.owner == c.owner && d.digest == c.digest && d.createdAt == c.createdAt
    && d.model == c.model && d.reserved == c.reserved && d.deadlineAt == c.deadlineAt
    && RowValid(d) && (d.status.Dispatching? ==> c.status.Dispatching?)
  }

  ghost predicate RowsRewritten(rows: seq<Call>, other: seq<Call>) {
    |other| == |rows| && forall i :: 0 <= i < |rows| ==> Rewrites(rows[i], other[i])
  }

  lemma RewriteKeepsRows(rows: seq<Call>, other: seq<Call>, clock: nat)
    requires RowsValid(rows, clock) && OneBusyAnswer(rows) && RowsRewritten(rows, other)
    ensures RowsValid(other, clock) && OneBusyAnswer(other)
  {
    forall i, j | 0 <= i < j < |other|
      ensures other[i].id != other[j].id
      ensures BusyAnswer()(other[i]) + BusyAnswer()(other[j]) <= 1
    {
      assert Rewrites(rows[i], other[i]) && Rewrites(rows[j], other[j]);
      assert BusyAnswer()(rows[i]) + BusyAnswer()(rows[j]) <= 1;
    }
    forall i | 0 <= i < |other|
      ensures RowValid(other[i]) && other[i].createdAt <= clock
    {
      assert Rewrites(rows[i], other[i]);
    }
  }

  lemma RewriteKeepsValid(s: State, rows: seq<Call>, inflight: map<string, Dispatch>)
    requires Valid(s) && RowsRewritten(s.rows, rows)
    requires forall id :: id in inflight ==>
               id in s.inflight && inflight[id] == s.inflight[id] && rows[IndexOf(s.rows, id)].charged.None?
    requires forall id :: id in s.sent ==> !rows[IndexOf(s.rows, id)].status.NotSent?
    ensures Valid(s.(rows := rows, inflight := inflight))
  {
    var after := s.(rows := rows, inflight := inflight);
    RewriteKeepsRows(s.rows, rows, s.clock);
    forall id | id in inflight
      ensures InflightRow(after, id)
    {
      assert InflightRow(s, id);
      SameIdsSameLookup(rows, s.rows, id);
    }
    forall id | id in s.sent
      ensures SentRow(after, id)
    {
      assert SentRow(s, id);
      SameIdsSameLookup(rows, s.rows, id);
    }
  }

  /** The process gives up a call and rewrites its row. */
  lemma UpdateKeepsValid(s: State, id: string, f: Call -> Call)
    requires Valid(s) && id in s.inflight
    requires var c := s.rows[IndexOf(s.rows, id)];
             Rewrites(c, f(c)) && (f(c).status.NotSent? ==> id !in s.sent)
    ensures Valid(s.(rows := UpdateRow(s.rows, id, f), inflight := s.inflight - {id}))
  {
    var at := IndexOf(s.rows, id);
    forall other | other in s.inflight
      ensures IndexOf(s.rows, other) == at ==> other == id
      ensures IndexOf(s.rows, other) < |s.rows| && s.rows[IndexOf(s.rows, other)].charged.None?
    {
      assert InflightRow(s, other);
    }
    forall other | other in s.sent
      ensures IndexOf(s.rows, other) == at ==> other == id
      ensures IndexOf(s.rows, other) < |s.rows| && !s.rows[IndexOf(s.rows, other)].status.NotSent?
    {
      assert SentRow(s, other);
    }
    RewriteKeepsValid(s, UpdateRow(s.rows, id, f), s.inflight - {id});
  }

  lemma SendKeepsValid(s: State, id: string)
    requires Valid(s) && Waiting(s, id, false)
    ensures Valid(Apply(s, Send(id)))
  {
    var after := Apply(s, Send(id));
    assert InflightRow(s, id);
    forall other | other in after.inflight
      ensures InflightRow(after, other)
    {
      assert InflightRow(s, other);
    }
    forall other | other in after.sent
      ensures SentRow(after, other)
    {
      assert other == id || SentRow(s, other);
    }
  }

  lemma SettleKeepsValid(s: State, id: string, complete: bool, usage: Usage, now: nat)
    requires Valid(s) && Waiting(s, id, true)
    ensures Valid(Apply(s, Settle(id, complete, usage, now)))
  {
    var d := s.inflight[id];
    assert InflightRow(s, id);
    if Acceptable(d, usage) {
      CostNonNegative(d.model, usage, d.inputLimit, d.outputLimit);
      UpdateKeepsValid(s, id, ToSettled(complete, Cost(d.model, usage), now));
    } else {
      UpdateKeepsValid(s, id, ToUnknown(now));
    }
  }

  lemma DropKeepsValid(s: State, inflight: map<string, Dispatch>)
    requires Valid(s) && forall id :: id in inflight ==> id in s.inflight && inflight[id] == s.inflight[id]
    ensures Valid(s.(inflight := inflight))
  {
    forall id | id in inflight
      ensures InflightRow(s.(inflight := inflight), id)
    {
      assert InflightRow(s, id);
    }
    forall id | id in s.sent
      ensures SentRow(s.(inflight := inflight), id)
    {
      assert SentRow(s, id);
    }
  }

  lemma ExpireKeepsValid(s: State, now: nat)
    requires Valid(s) && s.clock <= now
    ensures Valid(s.(rows := Expire(s.rows, now), clock := now))
  {
    var later := s.(clock := now);
    assert RowsValid(s.rows, now);
    DropKeepsValid(later, s.inflight);
    forall id | id in s.inflight
      ensures Expire(s.rows, now)[IndexOf(s.rows, id)].charged.None?
    {
      assert InflightRow(s, id);
    }
    forall id | id in s.sent
      ensures !Expire(s.rows, now)[IndexOf(s.rows, id)].status.NotSent?
    {
      assert SentRow(s, id);
    }
    RewriteKeepsValid(later, Expire(s.rows, now), s.inflight);
  }

  lemma NoneBusy(rows: seq<Call>)
    requires Sum(rows, BusyAnswer()) <= 0
    ensures forall i :: 0 <= i < |rows| ==> BusyAnswer()(rows[i]) == 0
  {
    forall i | 0 <= i < |rows|
      ensures BusyAnswer()(rows[i]) == 0
    {
      TermAtMostSum(rows, i, BusyAnswer());
    }
  }

  lemma AppendKeepsRows(rows: seq<Call>, row: Call, clock: nat)
    requires RowsValid(rows, clock) && OneBusyAnswer(rows)
    requires !Has(rows, row.id) && RowValid(row) && row.createdAt <= clock
    requires AnswerModel(row.model) ==> Sum(rows, BusyAnswer()) <= 0
    ensures RowsValid(rows + [row], clock) && OneBusyAnswer(rows + [row])
  {
    var longer := rows + [row];
    if AnswerModel(row.model) {
      NoneBusy(rows);
    }
    forall i, j | 0 <= i < j < |longer|
      ensures longer[i].id != longer[j].id
      ensures BusyAnswer()(longer[i]) + BusyAnswer()(longer[j]) <= 1
    {
      assert longer[i] == rows[i];
      if j < |rows| {
        assert longer[j] == rows[j];
      } else {
        assert BusyAnswer()(rows[i]) <= 1;
      }
    }
  }

  lemma AppendKeepsValid(s: State, row: Call, dispatch: Dispatch)
    requires Valid(s) && !Has(s.rows, row.id)
    requires RowValid(row) && row.charged.None? && row.createdAt <= s.clock
    requires !dispatch.sent && dispatch.reserved == row.reserved
    requires AnswerModel(row.model) ==> Sum(s.rows, BusyAnswer()) <= 0
    ensures Valid(s.(rows := s.rows + [row], inflight := s.inflight[row.id := dispatch]))
  {
    var after := s.(rows := s.rows + [row], inflight := s.inflight[row.id := dispatch]);
    AppendKeepsRows(s.rows, row, s.clock);
    forall id | id in after.inflight
      ensures InflightRow(after, id) && (after.inflight[id].sent <==> id in after.sent)
    {
      AppendKeepsLookups(s.rows, row, id);
    }
    forall id | id in after.sent
      ensures SentRow(after, id)
    {
      AppendKeepsLookups(s.rows, row, id);
    }
  }

  lemma AdmitKeepsValid(s: State, req: CallRequest, gate: Gate)
    requires Valid(s) && s.clock <= gate.now
    ensures Valid(Apply(s, Admit(req, gate)))
  {
    match Decide(s, req, gate) {
      case Refuse(_) =>
      case Replay(_) => ExpireKeepsValid(s, gate.now);
      case Admitted(row, dispatch) =>
        ExpireKeepsValid(s, gate.now);
        AppendKeepsValid(s.(rows := Expire(s.rows, gate.now), clock := gate.now), row, dispatch);
    }
  }

  /** Every event keeps the invariant. */
  lemma ApplyKeepsValid(s: State, e: Event)
    requires Valid(s)
    ensures Valid(Apply(s, e))
  {
    match e {
      case Configure(_) =>
      case Admit(req, gate) => if s.clock <= gate.now { AdmitKeepsValid(s, req, gate); }
      case Skip(id, now) =>
        if Waiting(s, id, false) {
          assert InflightRow(s, id);
          UpdateKeepsValid(s, id, ToNotSent(now));
        }
      case Send(id) => if Waiting(s, id, false) { SendKeepsValid(s, id); }
      case Fail(id, now) =>
        if Waiting(s, id, true) {
          assert InflightRow(s, id);
          UpdateKeepsValid(s, id, ToUnknown(now));
        }
      case Settle(id, complete, usage, now) =>
        if Waiting(s, id, true) { SettleKeepsValid(s, id, complete, usage, now); }
      case Lose(id) => DropKeepsValid(s, s.inflight - {id});
      case Crash => DropKeepsValid(s, map[]);
    }
  }

  lemma CostNonNegative(model: string, u: Usage, inputLimit: int, outputLimit: int)
    requires Supported(model) && InBounds(u, inputLimit, outputLimit)
    ensures 0 <= Cost(model, u)
  {
  }

  lemma {:induction false} ReachableValid(events: seq<Event>)
    ensures Valid(Run(events))
  {
    if events != [] {
      ReachableValid(events[..|events| - 1]);
      ApplyKeepsValid(Run(events[..|events| - 1]), events[|events| - 1]);
    }
  }
}
