/** What a caller of the parser is answered, told by the events of the extraction: file-extractor.ts. */
module ParserAnswers {
  import opened Results
  import opened ParserSupervisor

  /** The event at s started the child. */
  predicate StartedAt(events: seq<Event>, s: nat, child: Child) {
    s < |events| && events[s].Start? && events[s].child == child && Enabled(Run(events[..s]), events[s])
  }

  /** The bytes of output between the start at s and the event at k. */
  function Sent(events: seq<Event>, s: nat, k: nat): nat
    requires k <= |events|
  {
    if k <= s + 1 then 0 else Sent(events, s, k - 1) + if events[k - 1].Data? then events[k - 1].size else 0
  }

  /**
   * The event at j stops the child that started at s: no pipes, a cancellation or a callback that reports a
   * failure, the timeout, or output beyond the bound.
   */
  predicate Interrupts(events: seq<Event>, s: nat, j: nat)
    requires j < |events|
  {
    match events[j]
    case Start(_, piped, _) => j == s && !piped
    case Stopped(_, _) => j > s
    case TimeoutFires(_) => j > s && Enabled(Run(events[..j]), events[j])
    case Data(_, _) => j > s && Sent(events, s, j + 1) > MAX_OUTPUT
    case _ => false
  }

  function ReasonOf(e: Event): Failure {
    match e
    case Stopped(code, _) => code
    case TimeoutFires(_) => TimedOut
    case Data(_, _) => LimitExceeded
    case _ => Unavailable
  }

  predicate Undisturbed(events: seq<Event>, s: nat, k: nat)
    requires k <= |events|
  {
    forall j :: s <= j < k ==> !Interrupts(events, s, j)
  }

  /** The first event from s on that stops the child. */
  predicate FirstStop(events: seq<Event>, s: nat, j: nat) {
    s <= j < |events| && Interrupts(events, s, j) && Undisturbed(events, s, j)
  }

  /** The answer is the first reason to stop; without one the exit code and the message decide. */
  ghost predicate Deserved(events: seq<Event>, s: nat, k: nat, exitCode: int, message: Message, outcome: Outcome)
    requires k <= |events|
  {
    if Undisturbed(events, s, k) then
      outcome == if exitCode != 0 || message.Garbage? then Rejected(ParserFailed)
                 else if message.Refusal? then Rejected(Reported(message.code)) else Parsed
    else exists j :: s <= j < k && FirstStop(events, s, j) && outcome == Rejected(ReasonOf(events[j]))
  }

  /** The event at k answered the caller of the child that started at s: it closed, or its deadline passed before. */
  ghost predicate AnsweredAt(events: seq<Event>, s: nat, k: nat, child: Child, outcome: Outcome) {
    && s < k < |events| && StartedAt(events, s, child)
    && match events[k]
       case Closes(closed, exitCode, message) =>
         closed == child && Deserved(events, s, k, exitCode, message, outcome)
       case DeadlineFires => !Undisturbed(events, s, k) && outcome == Rejected(Unavailable)
       case _ => false
  }

  /* ---- the extraction under way ---- */

  ghost predicate WatchSays(events: seq<Event>, s: nat, k: nat, w: Watch)
    requires k <= |events|
  {
    && s < k && StartedAt(events, s, w.child)
    && if Undisturbed(events, s, k) then w.reason.None? && w.total == w.buffered == Sent(events, s, k)
       else exists j :: s <= j < k && FirstStop(events, s, j) && w.reason == Some(ReasonOf(events[j]))
                        && w.buffered == Sent(events, s, j)
  }

  lemma RunStep(events: seq<Event>, k: nat)
    requires k < |events|
    ensures Run(events[..k + 1]) == Apply(Run(events[..k]), events[k])
  {
    assert events[..k + 1][..k] == events[..k];
  }

  lemma JustStarted(events: seq<Event>, k: nat)
    requires k < |events| && events[k].Start? && Enabled(Run(events[..k]), events[k])
    ensures var x := Apply(Run(events[..k]), events[k]);
      x.current.Some? && WatchSays(events, k, k + 1, x.current.value)
  {
    if !events[k].piped { assert FirstStop(events, k, k); }
  }

  /** One more event on an extraction that goes on. */
  lemma GoesOn(events: seq<Event>, s: nat, k: nat, w: Watch, v: Watch)
    requires k < |events| && WatchSays(events, s, k, w) && v.child == w.child
    requires if w.reason.Some? then v.reason == w.reason && v.buffered == w.buffered
             else if Interrupts(events, s, k) then v.reason == Some(ReasonOf(events[k])) && v.buffered == w.buffered
             else v.reason.None? && v.total == v.buffered == w.total + if events[k].Data? then events[k].size else 0
    ensures WatchSays(events, s, k + 1, v)
  {
    hide StartedAt, Interrupts;
    if w.reason.Some? {
      var j :| s <= j < k && FirstStop(events, s, j) && w.reason == Some(ReasonOf(events[j]))
        && w.buffered == Sent(events, s, j);
      assert Interrupts(events, s, j);
    } else {
      assert Undisturbed(events, s, k);
      if Interrupts(events, s, k) { assert FirstStop(events, s, k); }
    }
  }

  lemma StaysUnderWay(x: Extractor, e: Event)
    requires Apply(x, e).current.Some? && !(e.Start? && Enabled(x, e))
    ensures x.current.Some?
  {
  }

  lemma WatchMoves(events: seq<Event>, s: nat, n: nat, w: Watch)
    requires n < |events| && Valid(Run(events[..n])) && Run(events[..n]).current == Some(w)
    requires WatchSays(events, s, n, w)
    requires Apply(Run(events[..n]), events[n]).current.Some?
    ensures var v, e := Apply(Run(events[..n]), events[n]).current.value, events[n];
      && v.child == w.child
      && if w.reason.Some? then v.reason == w.reason && v.buffered == w.buffered
         else if Interrupts(events, s, n) then v.reason == Some(ReasonOf(e)) && v.buffered == w.buffered
         else v.reason.None? && v.total == v.buffered == w.total + if e.Data? then e.size else 0
  {
    hide Run, StartedAt, SettlementValid, FirstStop;
    assert WatchValid(w, Run(events[..n]).now);
    assert w.reason.None? ==> w.total == Sent(events, s, n);
  }

  /** What the supervisor remembers of the extraction under way is what the events say. */
  lemma {:induction false} UnderWay(events: seq<Event>, k: nat) returns (s: nat)
    requires k <= |events| && Run(events[..k]).current.Some?
    ensures WatchSays(events, s, k, Run(events[..k]).current.value)
    decreases k, 0
  {
    hide Apply, WatchSays;
    assert events[..0] == [] && k > 0;
    RunStep(events, k - 1);
    ReachableValid(events[..k - 1]);
    s := NextUnderWay(events, k - 1);
  }

  lemma {:induction false} NextUnderWay(events: seq<Event>, n: nat) returns (s: nat)
    requires n < |events| && Valid(Run(events[..n])) && Apply(Run(events[..n]), events[n]).current.Some?
    ensures WatchSays(events, s, n + 1, Apply(Run(events[..n]), events[n]).current.value)
    decreases n, 1
  {
    hide WatchSays, Valid, Apply, Enabled;
    var x, e := Run(events[..n]), events[n];
    if e.Start? && Enabled(x, e) {
      s := n;
      JustStarted(events, n);
    } else {
      StaysUnderWay(x, e);
      s := UnderWay(events, n);
      WatchMoves(events, s, n, x.current.value);
      GoesOn(events, s, n, x.current.value, Apply(x, e).current.value);
    }
  }

  /* ---- the log ---- */

  /** Whatever the order of events: every answer in the log is the one its events deserve. */
  lemma {:induction false} AnswersAreDeserved(events: seq<Event>, n: nat, i: nat)
    returns (s: nat, k: nat)
    requires n <= |events| && i < |Run(events[..n]).settled|
    ensures k < n && AnsweredAt(events, s, k, Run(events[..n]).settled[i].child, Run(events[..n]).settled[i].outcome)
  {
    hide Apply, AnsweredAt;
    assert events[..0] == [] && n > 0;
    RunStep(events, n - 1);
    ReachableValid(events[..n - 1]);
    var x := Run(events[..n - 1]);
    LogGrows(x, events[n - 1]);
    if i < |x.settled| {
      s, k := AnswersAreDeserved(events, n - 1, i);
    } else {
      s := UnderWay(events, n - 1);
      k := n - 1;
      AnswerIsDeserved(events, s, n - 1);
    }
  }

  /** Answers are only added, one at a time, and only to an extraction under way. */
  lemma LogGrows(x: Extractor, e: Event)
    ensures var y := Apply(x, e);
      || y.settled == x.settled
      || (x.current.Some? && |y.settled| == |x.settled| + 1 && y.settled[..|x.settled|] == x.settled
          && y.settled[|x.settled|].child == x.current.value.child)
  {
  }

  lemma AnswerIsDeserved(events: seq<Event>, s: nat, k: nat)
    requires k < |events| && Valid(Run(events[..k])) && Run(events[..k]).current.Some?
    requires WatchSays(events, s, k, Run(events[..k]).current.value)
    requires |Apply(Run(events[..k]), events[k]).settled| > |Run(events[..k]).settled|
    ensures var x := Run(events[..k]);
      var answer := Apply(x, events[k]).settled[|x.settled|];
      AnsweredAt(events, s, k, answer.child, answer.outcome)
  {
    hide Run, StartedAt, SettlementValid, Interrupts;
    var x := Run(events[..k]);
    assert WatchValid(x.current.value, x.now);
  }

  /**
   * Only a complete result counts as parsed: the child closed by itself, with exit code zero and a result, and nothing
   * had stopped it.
   */
  lemma ParsedMeansResult(events: seq<Event>, i: nat) returns (s: nat, k: nat)
    requires i < |Run(events).settled| && Run(events).settled[i].outcome.Parsed?
    ensures StartedAt(events, s, Run(events).settled[i].child) && s < k < |events|
    ensures events[k] == Closes(Run(events).settled[i].child, 0, Message.Result) && Undisturbed(events, s, k)
  {
    hide Run, StartedAt, Undisturbed;
    assert events[..|events|] == events;
    s, k := AnswersAreDeserved(events, |events|, i);
  }

  /** A child that closes while its caller waits is answered at once, in the log, as its events deserve. */
  lemma CloseAnswers(events: seq<Event>, k: nat) returns (s: nat)
    requires k < |events| && events[k].Closes? && Run(events[..k]).current.Some?
    requires Run(events[..k]).current.value.child == events[k].child
    ensures var n := |Run(events[..k]).settled|;
      && |Run(events[..k + 1]).settled| == n + 1 && Run(events[..k + 1]).settled[n].child == events[k].child
      && s < k && StartedAt(events, s, events[k].child)
      && Deserved(events, s, k, events[k].exitCode, events[k].message, Run(events[..k + 1]).settled[n].outcome)
      && (Undisturbed(events, s, k) ==> Run(events[..k]).current.value.buffered == Sent(events, s, k))
  {
    RunStep(events, k);
    ReachableValid(events[..k]);
    CloseGrowsLog(Run(events[..k]), events[k]);
    hide Run, Apply, StartedAt, Deserved, Valid;
    s := UnderWay(events, k);
    AnswerIsDeserved(events, s, k);
  }

  lemma CloseGrowsLog(x: Extractor, e: Event)
    requires Valid(x) && e.Closes? && x.current.Some? && x.current.value.child == e.child
    ensures |Apply(x, e).settled| == |x.settled| + 1 && Apply(x, e).settled[|x.settled|].child == e.child
  {
  }
}
