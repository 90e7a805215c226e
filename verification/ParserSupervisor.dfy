/**
 * One parser child at a time, supervised by timers: file-extractor.ts.
 *
 * Events are the callbacks of the event loop and the passing of time. A timer fires no later than it is due:
 * time cannot move past an armed timer. Everything the operating system decides is an event.
 */
module ParserSupervisor {
  import opened Results

  const TIMEOUT_MS: nat := 30_000
  const TERMINATION_MS: nat := 1000
  const RETRY_MS: nat := 250
  const MAX_KILLS: nat := 3
  const MAX_OUTPUT: nat := 8 * 1024 * 1024

  type Child = nat

  datatype Failure =
    | Busy | FileTooLarge | UnsupportedFormat | Cancelled | TimedOut | LimitExceeded | Unavailable | ParserFailed
    | LaunchFailed | Reported(code: string)

  datatype Outcome = Parsed | Rejected(why: Failure)

  /** What the child said when it closed with exit code zero. */
  datatype Message = Result | Refusal(code: string) | Garbage

  /** The variables of one extraction; timers hold the time they are due. */
  datatype Watch = Watch(
    child: Child, started: nat, reason: Option<Failure>, total: nat, buffered: nat, stopping: bool, kills: nat,
    timer: Option<nat>, retry: Option<nat>, deadline: Option<nat>)

  datatype Settlement = Settlement(child: Child, started: nat, at: nat, kills: nat, outcome: Outcome)

  /**
   * `current` is the extraction that has not settled, `stranded` a child that outlived its extraction, `alive`
   * the children spawned and not yet closed, `settled` the log of all answers given to callers.
   */
  datatype Extractor = Extractor(
    current: Option<Watch>, stranded: Option<Child>, alive: set<Child>, born: set<Child>,
    settled: seq<Settlement>, now: nat)

  const IDLE := Extractor(None, None, {}, {}, [], 0)

  /* ---- the inner functions of extract() ---- */

  /** A kill is sent and counted; another try is armed while fewer than three were sent. */
  function Signal(w: Watch, delivered: bool, now: nat): Watch {
    w.(kills := w.kills + 1,
       reason := if delivered || w.reason.Some? then w.reason else Some(Unavailable),
       retry := if w.kills + 1 < MAX_KILLS then Some(now + RETRY_MS) else None)
  }

  /** The first reason is kept; the first call bounds termination and sends the first kill. */
  function Stop(w: Watch, code: Failure, delivered: bool, now: nat): Watch {
    var v := w.(reason := if w.reason.Some? then w.reason else Some(code));
    if w.stopping then v
    else Signal(v.(stopping := true, timer := None, deadline := Some(now + TERMINATION_MS)), delivered, now)
  }

  function Output(w: Watch, size: nat, delivered: bool, now: nat): Watch {
    if w.stopping then w
    else
      var v := w.(total := w.total + size);
      if v.total > MAX_OUTPUT then Stop(v, LimitExceeded, delivered, now) else v.(buffered := w.buffered + size)
  }

  function Settle(x: Extractor, outcome: Outcome): Extractor
    requires x.current.Some?
  {
    var w := x.current.value;
    x.(current := None, settled := x.settled + [Settlement(w.child, w.started, x.now, w.kills, outcome)])
  }

  /** The answer given when the child of an unsettled extraction closes. */
  function Answer(w: Watch, exitCode: int, message: Message): Outcome {
    if w.reason.Some? then Rejected(w.reason.value)
    else if exitCode != 0 then Rejected(ParserFailed)
    else match message
      case Result => Parsed
      case Refusal(code) => Rejected(Reported(code))
      case Garbage => Rejected(ParserFailed)
  }

  /** The deadline passed without a close: the caller is answered and the child stays behind. */
  function Quarantine(x: Extractor): Extractor
    requires x.current.Some?
  {
    Settle(x, Rejected(Unavailable)).(stranded := Some(x.current.value.child))
  }

  /* ---- the transition system ---- */

  datatype Event =
    | Wait(until: nat)
    | Start(child: Child, piped: bool, delivered: bool)
    | Stopped(code: Failure, delivered: bool)     // abort, memory monitor, child or channel error
    | Data(size: nat, delivered: bool)
    | TimeoutFires(delivered: bool)
    | RetryFires(delivered: bool)
    | DeadlineFires
    | Closes(child: Child, exitCode: int, message: Message)

  predicate NotPast(due: Option<nat>, t: nat) {
    due.Some? ==> t <= due.value
  }

  predicate Enabled(x: Extractor, e: Event) {
    match e
    case Wait(until) =>
      x.now <= until
      && (x.current.Some? ==> NotPast(x.current.value.timer, until) && NotPast(x.current.value.retry, until)
                              && NotPast(x.current.value.deadline, until))
    case Start(child, _, _) => x.current.None? && x.stranded.None? && child !in x.born
    case Stopped(_, _) => x.current.Some?
    case Data(_, _) => x.current.Some?
    case TimeoutFires(_) => x.current.Some? && x.current.value.timer == Some(x.now)
    case RetryFires(_) => x.current.Some? && x.current.value.retry == Some(x.now)
    case DeadlineFires => x.current.Some? && x.current.value.deadline == Some(x.now)
    case Closes(child, _, _) => child in x.alive
  }

  /** A new extraction; without its pipes it is stopped at once. */
  function Started(child: Child, piped: bool, delivered: bool, now: nat): Watch {
    var w := Watch(child, now, None, 0, 0, false, 0, Some(now + TIMEOUT_MS), None, None);
    if piped then w else Stop(w, Unavailable, delivered, now)
  }

  function Effect(x: Extractor, e: Event): Extractor
    requires Enabled(x, e)
  {
    match e
    case Wait(until) => x.(now := until)
    case Start(child, piped, delivered) =>
      x.(current := Some(Started(child, piped, delivered, x.now)), alive := x.alive + {child}, born := x.born + {child})
    case Stopped(code, delivered) => x.(current := Some(Stop(x.current.value, code, delivered, x.now)))
    case Data(size, delivered) => x.(current := Some(Output(x.current.value, size, delivered, x.now)))
    case TimeoutFires(delivered) => x.(current := Some(Stop(x.current.value, TimedOut, delivered, x.now)))
    case RetryFires(delivered) => x.(current := Some(Signal(x.current.value, delivered, x.now)))
    case DeadlineFires => Quarantine(x)
    case Closes(child, exitCode, message) =>
      var gone := x.(alive := x.alive - {child}, stranded := if x.stranded == Some(child) then None else x.stranded);
      if x.current.Some? && x.current.value.child == child
        then Settle(gone, Answer(x.current.value, exitCode, message)) else gone
  }

  function Apply(x: Extractor, e: Event): Extractor {
    if Enabled(x, e) then Effect(x, e) else x
  }

  function Run(events: seq<Event>): Extractor {
    if events == [] then IDLE else Apply(Run(events[..|events| - 1]), events[|events| - 1])
  }

  /* ---- the invariant ---- */

  /** An unsettled extraction is within its time, its kills and its output, and a timer will end it. */
  ghost predicate WatchValid(w: Watch, now: nat) {
    && w.started <= now && w.buffered <= MAX_OUTPUT && w.buffered <= w.total && w.kills <= MAX_KILLS
    && (w.retry.Some? ==> w.kills < MAX_KILLS && w.stopping && now <= w.retry.value)
    && (w.stopping <==> w.reason.Some?)
    && (if w.stopping then
          w.timer.None? && w.deadline.Some?
          && now <= w.deadline.value <= w.started + TIMEOUT_MS + TERMINATION_MS
          && (w.kills < MAX_KILLS ==> w.retry == Some(w.deadline.value - TERMINATION_MS + w.kills * RETRY_MS))
        else
          w.timer == Some(w.started + TIMEOUT_MS) && now <= w.timer.value && w.deadline.None? && w.kills == 0
          && w.total == w.buffered)
  }

  ghost predicate SettlementValid(x: Extractor, i: nat)
    requires i < |x.settled|
  {
    var s := x.settled[i];
    && s.started <= s.at <= s.started + TIMEOUT_MS + TERMINATION_MS && s.at <= x.now && s.kills <= MAX_KILLS
    && s.child in x.born && (s.outcome.Parsed? ==> s.kills == 0)
    && (forall j :: 0 <= j < |x.settled| && j != i ==> x.settled[j].child != s.child)
  }

  ghost predicate Valid(x: Extractor) {
    && x.alive <= x.born && (x.stranded.Some? ==> x.stranded.value in x.alive)
    && (x.current.Some? ==> WatchValid(x.current.value, x.now) && x.current.value.child in x.alive && x.stranded.None?)
    && (forall i :: 0 <= i < |x.settled| ==> SettlementValid(x, i))
    && (forall c :: c in x.born ==>
          ((x.current.Some? && x.current.value.child == c) <==>
            !exists i :: 0 <= i < |x.settled| && x.settled[i].child == c))
    && (forall c :: c in x.alive ==> (x.current.Some? && x.current.value.child == c) || x.stranded == Some(c))
  }

  lemma StopKeepsWatch(w: Watch, code: Failure, delivered: bool, now: nat)
    requires WatchValid(w, now)
    ensures WatchValid(Stop(w, code, delivered, now), now)
  {
  }

  lemma OutputKeepsWatch(w: Watch, size: nat, delivered: bool, now: nat)
    requires WatchValid(w, now)
    ensures WatchValid(Output(w, size, delivered, now), now)
  {
  }

  /** Replacing the current watch by a later one of the same child keeps the log and the children. */
  lemma WatchKeepsValid(x: Extractor, w: Watch)
    requires Valid(x) && x.current.Some? && WatchValid(w, x.now) && w.child == x.current.value.child
    ensures Valid(x.(current := Some(w)))
  {
    hide WatchValid;
    var y := x.(current := Some(w));
    forall i | 0 <= i < |y.settled|
      ensures SettlementValid(y, i)
    {
      assert SettlementValid(x, i);
    }
  }

  lemma SettleKeepsValid(x: Extractor, outcome: Outcome, stranded: Option<Child>, alive: set<Child>)
    requires Valid(x) && x.current.Some? && alive <= x.alive
    requires outcome.Parsed? ==> x.current.value.kills == 0
    requires (forall c :: c in alive ==> stranded == Some(c)) && (stranded.Some? ==> stranded.value in alive)
    ensures Valid(Settle(x, outcome).(stranded := stranded, alive := alive))
  {
    var w, n := x.current.value, |x.settled|;
    var y := Settle(x, outcome).(stranded := stranded, alive := alive);
    assert y.settled[n].child == w.child;
    forall i | 0 <= i <= n
      ensures SettlementValid(y, i)
    {
      if i < n { assert SettlementValid(x, i) && y.settled[i] == x.settled[i] && x.settled[i].child != w.child; }
    }
    forall c | c in y.born
      ensures exists i :: 0 <= i < |y.settled| && y.settled[i].child == c
    {
      if c != w.child {
        var i :| 0 <= i < n && x.settled[i].child == c;
        assert y.settled[i].child == c;
      }
    }
  }

  lemma StartKeepsValid(x: Extractor, e: Event)
    requires Valid(x) && e.Start? && Enabled(x, e)
    ensures Valid(Effect(x, e))
  {
    var y := Effect(x, e);
    var w := Watch(e.child, x.now, None, 0, 0, false, 0, Some(x.now + TIMEOUT_MS), None, None);
    StopKeepsWatch(w, Unavailable, e.delivered, x.now);
    forall i | 0 <= i < |y.settled|
      ensures SettlementValid(y, i) && y.settled[i].child != e.child
    {
      assert SettlementValid(x, i);
    }
    forall c | c in y.born && c != e.child
      ensures exists i :: 0 <= i < |y.settled| && y.settled[i].child == c
    {
      assert c in x.born;
    }
  }

  lemma QuietKeepsValid(x: Extractor, y: Extractor)
    requires Valid(x) && y.settled == x.settled && y.born == x.born && y.current == x.current && x.now <= y.now
    requires y.current.Some? ==>
               WatchValid(y.current.value, y.now) && y.current.value.child in y.alive && y.stranded.None?
    requires y.alive <= x.alive && (y.stranded.Some? ==> y.stranded.value in y.alive)
    requires forall c :: c in y.alive ==> (y.current.Some? && y.current.value.child == c) || y.stranded == Some(c)
    ensures Valid(y)
  {
    hide WatchValid;
    forall i | 0 <= i < |y.settled|
      ensures SettlementValid(y, i)
    {
      assert SettlementValid(x, i);
    }
  }

  /** Every event keeps the invariant. */
  lemma ApplyKeepsValid(x: Extractor, e: Event)
    requires Valid(x)
    ensures Valid(Apply(x, e))
  {
    if Enabled(x, e) {
      match e {
        case Wait(_) => QuietKeepsValid(x, Effect(x, e));
        case Start(_, _, _) => StartKeepsValid(x, e);
        case Stopped(code, delivered) =>
          StopKeepsWatch(x.current.value, code, delivered, x.now);
          WatchKeepsValid(x, Stop(x.current.value, code, delivered, x.now));
        case Data(size, delivered) =>
          OutputKeepsWatch(x.current.value, size, delivered, x.now);
          WatchKeepsValid(x, Output(x.current.value, size, delivered, x.now));
        case TimeoutFires(delivered) =>
          StopKeepsWatch(x.current.value, TimedOut, delivered, x.now);
          WatchKeepsValid(x, Stop(x.current.value, TimedOut, delivered, x.now));
        case RetryFires(delivered) => WatchKeepsValid(x, Signal(x.current.value, delivered, x.now));
        case DeadlineFires =>
          SettleKeepsValid(x, Rejected(Unavailable), Some(x.current.value.child), x.alive);
        case Closes(child, exitCode, message) => CloseKeepsValid(x, child, exitCode, message);
      }
    }
  }

  lemma CloseKeepsValid(x: Extractor, child: Child, exitCode: int, message: Message)
    requires Valid(x) && child in x.alive
    ensures Valid(Effect(x, Closes(child, exitCode, message)))
  {
    if x.current.Some? {
      assert x.current.value.child == child;
      SettleKeepsValid(x, Answer(x.current.value, exitCode, message), None, x.alive - {child});
    } else {
      QuietKeepsValid(x, Effect(x, Closes(child, exitCode, message)));
    }
  }

  lemma {:induction false} ReachableValid(events: seq<Event>)
    ensures Valid(Run(events))
  {
    if events != [] {
      ReachableValid(events[..|events| - 1]);
      ApplyKeepsValid(Run(events[..|events| - 1]), events[|events| - 1]);
    }
  }

  /* ---- what callers can rely on ---- */

  function Answers(settled: seq<Settlement>, child: Child): nat {
    if settled == [] then 0
    else Answers(settled[..|settled| - 1], child) + (if settled[|settled| - 1].child == child then 1 else 0)
  }

  lemma {:induction false} DistinctAnswersOnce(settled: seq<Settlement>, child: Child)
    requires forall i, j :: 0 <= i < j < |settled| ==> settled[i].child != settled[j].child
    ensures Answers(settled, child) == if exists i :: 0 <= i < |settled| && settled[i].child == child then 1 else 0
  {
    if settled != [] {
      var n := |settled| - 1;
      DistinctAnswersOnce(settled[..n], child);
      if exists i :: 0 <= i < n && settled[i].child == child {
        var i :| 0 <= i < n && settled[i].child == child;
        assert settled[..n][i].child == child;
      }
    }
  }

  /**
   * For any order of events: an extraction is answered exactly once, within 31 seconds of its start and after
   * at most three kills; only the one extraction under way is unanswered, and it too is within its time; at
   * most one spawned child is unclosed; and no more than 8 MiB of output is ever buffered.
   */
  lemma ExtractionsSettleOnce(events: seq<Event>, child: Child)
    ensures var x := Run(events);
            && |x.alive| <= 1
            && (x.current.Some? ==> x.current.value.buffered <= MAX_OUTPUT && x.current.value.kills <= MAX_KILLS
                                    && x.now <= x.current.value.started + TIMEOUT_MS + TERMINATION_MS)
            && (child in x.born ==>
                  Answers(x.settled, child) == if x.current.Some? && x.current.value.child == child then 0 else 1)
            && (forall i :: 0 <= i < |x.settled| ==>
                  && x.settled[i].at <= x.settled[i].started + TIMEOUT_MS + TERMINATION_MS
                  && x.settled[i].kills <= MAX_KILLS
                  && (x.settled[i].outcome.Parsed? ==> x.settled[i].kills == 0))
  {
    var x := Run(events);
    ReachableValid(events);
    forall i, j | 0 <= i < j < |x.settled|
      ensures x.settled[i].child != x.settled[j].child
    {
      assert SettlementValid(x, i);
    }
    DistinctAnswersOnce(x.settled, child);
    forall i | 0 <= i < |x.settled|
      ensures x.settled[i].at <= x.settled[i].started + TIMEOUT_MS + TERMINATION_MS
      ensures x.settled[i].kills <= MAX_KILLS && (x.settled[i].outcome.Parsed? ==> x.settled[i].kills == 0)
    {
      assert SettlementValid(x, i);
    }
    if x.alive != {} {
      var c :| c in x.alive;
      assert x.alive == {c};
    }
  }

  /** A child is left behind only after three kills were sent, 250 ms apart. */
  lemma DeadlineAfterThreeKills(events: seq<Event>)
    requires Enabled(Run(events), DeadlineFires)
    ensures Run(events).current.value.kills == MAX_KILLS
  {
    ReachableValid(events);
  }

  /* ---- the class, with its callbacks ---- */

  /**
   * What the caller and the platform bring to an extraction: an aborted signal, a supported platform, a known format,
   * too many bytes, a worker script, and a process that can be launched.
   */
  datatype Call = Call(aborted: bool, supported: bool, known: bool, tooLarge: bool, present: bool, launches: bool)

  /** The first ground on which an extraction is refused before a child exists. */
  function RefusalOf(x: Extractor, call: Call): Option<Failure> {
    if call.aborted then Some(Cancelled)
    else if !call.supported || x.stranded.Some? then Some(Unavailable)
    else if !call.known then Some(UnsupportedFormat)
    else if call.tooLarge then Some(FileTooLarge)
    else if x.current.Some? then Some(Busy)
    else if !call.present then Some(Unavailable)
    else if !call.launches then Some(LaunchFailed)
    else None
  }

  /** An extraction is refused for its grounds only, of which the first is named; closed children are forgotten. */
  lemma RefusedOnGroundsOnly(events: seq<Event>, call: Call)
    ensures var x := Run(events);
      && (RefusalOf(x, call).None? <==>
            call == Call(false, true, true, false, true, true) && x.current.None? && x.stranded.None?)
      && (x.alive == {} ==> x.current.None? && x.stranded.None?)
      && (RefusalOf(x, call) == Some(Cancelled) <==> call.aborted)
      && (!call.aborted && (!call.supported || x.stranded.Some?) ==> RefusalOf(x, call) == Some(Unavailable))
      && (RefusalOf(x, call) == Some(UnsupportedFormat) <==>
            !call.aborted && call.supported && x.stranded.None? && !call.known)
      && (RefusalOf(x, call) == Some(FileTooLarge) <==>
            !call.aborted && call.supported && x.stranded.None? && call.known && call.tooLarge)
      && (RefusalOf(x, call) == Some(Busy) ==> x.current.Some?)
  {
    ReachableValid(events);
  }

  class FileExtractor {
    var current: Option<Watch>
    var stranded: Option<Child>
    ghost var alive: set<Child>
    ghost var born: set<Child>
    ghost var settled: seq<Settlement>
    var now: nat

    ghost function Contents(): Extractor
      reads this
    {
      Extractor(current, stranded, alive, born, settled, now)
    }

    ghost predicate Consistent()
      reads this
    {
      Valid(Contents())
    }

    constructor ()
      ensures Consistent() && Contents() == IDLE
    {
      current, stranded, alive, born, settled, now := None, None, {}, {}, [], 0;
    }

    /** Refuses while a child is being parsed or is still to be reaped; spawns nothing then. */
    method Extract(call: Call, child: Child, piped: bool, delivered: bool) returns (refused: Option<Failure>)
      requires Consistent() && child !in born
      modifies this
      ensures Consistent()
      ensures refused == RefusalOf(old(Contents()), call)
      ensures refused.None? ==> Contents() == Apply(old(Contents()), Start(child, piped, delivered))
      ensures refused.Some? ==> Contents() == old(Contents())
    {
      if call.aborted || !call.supported { return Some(if call.aborted then Cancelled else Unavailable); }
      if stranded.Some? { return Some(Unavailable); }
      if !call.known { return Some(UnsupportedFormat); }
      if call.tooLarge { return Some(FileTooLarge); }
      if current.Some? { return Some(Busy); }
      if !call.present { return Some(Unavailable); }
      if !call.launches { return Some(LaunchFailed); }
      ApplyKeepsValid(Contents(), Start(child, piped, delivered));
      current := Some(Watch(child, now, None, 0, 0, false, 0, Some(now + TIMEOUT_MS), None, None));
      alive, born := alive + {child}, born + {child};
      if !piped {
        StopNow(Unavailable, delivered);
      }
      return None;
    }

    /** stop(): later calls only try to set the reason. */
    method StopNow(code: Failure, delivered: bool)
      requires current.Some?
      modifies this`current
      ensures current == Some(Stop(old(current).value, code, delivered, now))
    {
      var w := current.value;
      if w.reason.None? {
        w := w.(reason := Some(code));
      }
      if !w.stopping {
        w := w.(stopping := true, timer := None, deadline := Some(now + TERMINATION_MS));
        w := Kill(w, delivered);
      }
      current := Some(w);
    }

    /** signal(): counts the kill and arms the next try. */
    method Kill(w: Watch, delivered: bool) returns (v: Watch)
      ensures v == Signal(w, delivered, now)
    {
      v := w.(kills := w.kills + 1, retry := None);
      if !delivered && v.reason.None? {
        v := v.(reason := Some(Unavailable));
      }
      if v.kills < MAX_KILLS {
        v := v.(retry := Some(now + RETRY_MS));
      }
    }

    /** Cancellation, the memory monitor and the error callbacks. */
    method OnStop(code: Failure, delivered: bool)
      requires Consistent() && current.Some?
      modifies this`current
      ensures Consistent() && Contents() == Apply(old(Contents()), Stopped(code, delivered))
    {
      ApplyKeepsValid(Contents(), Stopped(code, delivered));
      StopNow(code, delivered);
    }

    /** The kill is tried again. */
    method OnRetry(delivered: bool)
      requires Consistent() && current.Some? && current.value.retry == Some(now)
      modifies this`current
      ensures Consistent() && Contents() == Apply(old(Contents()), RetryFires(delivered))
    {
      ApplyKeepsValid(Contents(), RetryFires(delivered));
      var w := Kill(current.value, delivered);
      current := Some(w);
    }

    /** The channel's data callback: output beyond the bound stops the child and is not kept. */
    method OnData(size: nat, delivered: bool)
      requires Consistent() && current.Some?
      modifies this`current
      ensures Consistent() && Contents() == Apply(old(Contents()), Data(size, delivered))
    {
      ApplyKeepsValid(Contents(), Data(size, delivered));
      var w := current.value;
      if w.stopping { return; }
      current := Some(w.(total := w.total + size));
      if w.total + size > MAX_OUTPUT {
        StopNow(LimitExceeded, delivered);
      } else {
        current := Some(current.value.(buffered := w.buffered + size));
      }
    }

    /** The deadline callback: the caller is answered although the child never closed. */
    method OnDeadline() returns (answer: Outcome)
      requires Consistent() && current.Some? && current.value.deadline == Some(now)
      modifies this
      ensures Consistent() && Contents() == Apply(old(Contents()), DeadlineFires)
      ensures answer == Rejected(Unavailable) && current.None? && stranded == Some(old(current).value.child)
    {
      ApplyKeepsValid(Contents(), DeadlineFires);
      answer := Rejected(Unavailable);
      var w := current.value;
      settled := settled + [Settlement(w.child, w.started, now, w.kills, answer)];
      stranded, current := Some(w.child), None;
    }

    /** The close callback: answers the extraction under way, or frees a stranded child's place. */
    method OnClose(child: Child, exitCode: int, message: Message) returns (answer: Option<Outcome>)
      requires Consistent() && child in alive
      modifies this
      ensures Consistent() && Contents() == Apply(old(Contents()), Closes(child, exitCode, message))
      ensures answer.Some? <==> old(current).Some?
      ensures stranded.None? && current.None?
    {
      ApplyKeepsValid(Contents(), Closes(child, exitCode, message));
      answer := None;
      alive := alive - {child};
      if stranded == Some(child) {
        stranded := None;
      }
      if current.Some? && current.value.child == child {
        var w := current.value;
        answer := Some(Answer(w, exitCode, message));
        settled := settled + [Settlement(w.child, w.started, now, w.kills, answer.value)];
        current := None;
      }
    }
  }
}
