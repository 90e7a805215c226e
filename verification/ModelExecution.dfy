/** The service object: its methods update the call table in place, one transaction or process action each. */
module ModelExecution {
  import opened Results
  import opened Sequences
  import opened ModelPolicy
  import opened ModelLedger
  import opened ModelSafety

  class ModelExecutionService {
    var rows: seq<Call>
    var settings: Settings
    var inflight: map<string, Dispatch>
    var clock: nat
    ghost var sent: seq<string>  // every call made to the provider, in order

    ghost function Contents(): State
      reads this
    {
      State(rows, settings, inflight, clock, sent)
    }

    ghost predicate Consistent()
      reads this
    {
      Valid(Contents())
    }

    constructor ()
      ensures Consistent() && Contents() == INITIAL
    {
      rows, settings, inflight, clock, sent := [], DEFAULT_SETTINGS, map[], 0, [];
    }

    /** The first bulk update of the admission transaction. */
    method ExpireOverdue(now: nat)
      modifies this`rows
      ensures rows == Expire(old(rows), now)
    {
      var i := 0;
      while i < |rows|
        invariant 0 <= i <= |rows| == |old(rows)|
        invariant forall k :: 0 <= k < i ==> rows[k] == Expired(old(rows)[k], now)
        invariant forall k :: i <= k < |rows| ==> rows[k] == old(rows)[k]
      {
        if rows[i].status.Dispatching? && rows[i].deadlineAt <= now {
          rows := rows[i := rows[i].(status := Unknown, completedAt := Some(now))];
        }
        i := i + 1;
      }
    }

    /** The row with an id, or the number of rows. */
    method Find(id: string) returns (at: nat)
      ensures at == IndexOf(rows, id)
    {
      at := 0;
      while at < |rows| && rows[at].id != id
        invariant 0 <= at <= |rows|
        invariant forall k :: 0 <= k < at ==> rows[k].id != id
      {
        at := at + 1;
      }
    }

    /** The two aggregates of exposure(), in one pass. */
    method MeasureExposure(now: nat) returns (charged: int, held: int)
      ensures charged + held == Exposure(rows, now)
    {
      var start := Calendar.StartOf(Calendar.MonthOf(now));
      charged, held := 0, 0;
      for i := 0 to |rows|
        invariant charged == Sum(rows[..i], ChargedSince(start))
        invariant held == Sum(rows[..i], Held())
      {
        assert rows[..i + 1] == rows[..i] + [rows[i]];
        SumAppend(rows[..i], rows[i], ChargedSince(start));
        SumAppend(rows[..i], rows[i], Held());
        if rows[i].charged.None? {
          held := held + rows[i].reserved;
        } else if rows[i].createdAt >= start {
          charged := charged + rows[i].charged.value;
        }
      }
      assert rows[..|rows|] == rows;
    }

    /** The checks of the admission transaction; a refusal rolls back the expiry of overdue rows. */
    method Examine(req: CallRequest, gate: Gate) returns (decision: Decision)
      modifies this`rows
      ensures decision == Decide(old(Contents()), req, gate)
      ensures rows == if decision.Refuse? then old(rows) else Expire(old(rows), gate.now)
    {
      var before := rows;
      if !ValidInput(req) { return Refuse(InvalidCallInput); }
      if !gate.authorized { return Refuse(Unauthorized); }
      if gate.aborted { return Refuse(CallCancelled); }
      ExpireOverdue(gate.now);
      var at := Find(Lower(req.rawId));
      if at < |rows| {
        if rows[at].owner != req.owner || rows[at].digest != DigestOf(req) {
          rows := before;
          return Refuse(RequestIdConflict);
        }
        return Replay(rows[at]);
      }
      var refusal := CheckLimits(req, gate);
      if refusal.Some? {
        rows := before;
        return Refuse(refusal.value);
      }
      return Admitted(NewCall(settings, req, gate.now), NewDispatch(settings, req));
    }

    /**
     * The admission transaction. A refusal changes nothing; a repeated id returns its row without a second
     * dispatch; an admission is within the limit in force.
     */
    method Admit(req: CallRequest, gate: Gate) returns (decision: Decision)
      requires Consistent() && clock <= gate.now
      modifies this
      ensures Consistent()
      ensures decision == Decide(old(Contents()), req, gate)
      ensures Contents() == Apply(old(Contents()), Event.Admit(req, gate))
      ensures decision.Refuse? ==> Contents() == old(Contents())
      ensures decision.Replay? ==> inflight == old(inflight)
      ensures decision.Admitted? ==> settings.budget.Some? && Exposure(rows, gate.now) <= settings.budget.value
    {
      ghost var before := Contents();
      ApplyKeepsValid(before, Event.Admit(req, gate));
      if Admits(before, Event.Admit(req, gate)) {
        AdmissionWithinLimit(before, req, gate);
      }
      decision := Examine(req, gate);
      Commit(decision, gate.now, before.rows);
    }

    /** The writes that end an admission transaction whose overdue rows have been expired. */
    method Commit(decision: Decision, now: nat, ghost before: seq<Call>)
      requires rows == if decision.Refuse? then before else Expire(before, now)
      modifies this`rows, this`inflight, this`clock
      ensures Contents() == Enact(old(Contents()).(rows := before), decision, now)
    {
      match decision {
        case Refuse(_) =>
        case Replay(_) => clock := now;
        case Admitted(row, dispatch) =>
          rows := rows + [row];
          inflight := inflight[row.id := dispatch];
          clock := now;
      }
    }

    /** Preflight and row-counting checks, in the order the source makes them. */
    method CheckLimits(req: CallRequest, gate: Gate) returns (refusal: Option<Refusal>)
      ensures refusal == var early := Preflight(settings, req, gate);
                         if early.Some? then early else Limits(rows, settings, req, gate)
    {
      refusal := Preflight(settings, req, gate);
      if refusal.Some? { return; }
      if !Embeds(req) {
        if Sum(rows, BusyAnswer()) > 0 { return Some(AnswerBusy); }
        if Sum(rows, AnswerSince(gate.now - RATE_WINDOW_MS)) >= RATE_LIMIT { return Some(CallRateLimited); }
      }
      var reserved := Reservation(Model(settings, req), InputLimit(settings, req), OutputLimit(settings, req));
      var charged, held := MeasureExposure(gate.now);
      if charged + held + reserved > settings.budget.value { return Some(BudgetExceeded); }
      if !gate.keyReadable { return Some(KeyUnavailable); }
      return None;
    }

    /** Rewrites the row with an id and gives up its continuation. */
    method Finish(id: string, f: Call -> Call)
      modifies this`rows, this`inflight
      ensures rows == UpdateRow(old(rows), id, f) && inflight == old(inflight) - {id}
    {
      var at := Find(id);
      if at < |rows| {
        rows := rows[at := f(rows[at])];
      }
      inflight := inflight - {id};
    }

    /** The deadline passed, or the caller gave up, before anything was sent. */
    method MarkNotSent(id: string, now: nat)
      requires Consistent() && Waiting(Contents(), id, false)
      modifies this
      ensures Consistent() && Contents() == Apply(old(Contents()), Skip(id, now))
    {
      ApplyKeepsValid(Contents(), Skip(id, now));
      Finish(id, ToNotSent(now));
    }

    /** The one place the provider is called; it was never called for this id before. */
    method CallProvider(id: string)
      requires Consistent() && Waiting(Contents(), id, false)
      modifies this`inflight, this`sent
      ensures Consistent() && Contents() == Apply(old(Contents()), Send(id))
      ensures id !in old(sent) && sent == old(sent) + [id]
    {
      ApplyKeepsValid(Contents(), Send(id));
      inflight := inflight[id := inflight[id].(sent := true)];
      sent := sent + [id];
    }

    /** The provider call threw. */
    method RecordFailure(id: string, now: nat)
      requires Consistent() && Waiting(Contents(), id, true)
      modifies this
      ensures Consistent() && Contents() == Apply(old(Contents()), Fail(id, now))
    {
      ApplyKeepsValid(Contents(), Fail(id, now));
      Finish(id, ToUnknown(now));
    }

    /** The provider answered: an out-of-bounds usage is treated as a failed call. */
    method RecordResult(id: string, complete: bool, usage: Usage, now: nat)
      requires Consistent() && Waiting(Contents(), id, true)
      modifies this
      ensures Consistent() && Contents() == Apply(old(Contents()), Settle(id, complete, usage, now))
    {
      ApplyKeepsValid(Contents(), Settle(id, complete, usage, now));
      var d := inflight[id];
      if Supported(d.model) && AdmittedUsage(d.model, usage, d.inputLimit, d.outputLimit, d.reserved) {
        Finish(id, ToSettled(complete, Cost(d.model, usage), now));
      } else {
        Finish(id, ToUnknown(now));
      }
    }
  }
}
