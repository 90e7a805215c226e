/** The failure throttle of logins, recoveries and the first setup: auth.service.ts and setup.service.ts. */
module Throttle {
  import opened Results

  const WINDOW_MS: nat := 900_000
  const FREE_FAILURES: nat := 10
  const MAX_BLOCK_MS: nat := 60_000
  const MAX_FAILURES: nat := 29

  /** One lane's counter, the start of its window and the end of its block. */
  datatype Lane = Lane(failures: nat, windowStart: Option<int>, blockedUntil: Option<int>)

  const CLEAR := Lane(0, None, None)

  function Power2(k: nat): nat {
    if k == 0 then 1 else 2 * Power2(k - 1)
  }

  function Min(a: nat, b: nat): nat {
    if a < b then a else b
  }

  /** The block after the given number of failures: doubling from one second, capped at a minute. */
  function Backoff(failures: nat): nat
    requires failures >= FREE_FAILURES
  {
    Min(MAX_BLOCK_MS, 1000 * Power2(Min(6, failures - FREE_FAILURES)))
  }

  predicate Blocked(lane: Lane, now: int) {
    lane.blockedUntil.Some? && lane.blockedUntil.value > now
  }

  /** A rejected attempt counts in its window or opens a new one. */
  function Reject(lane: Lane, now: int): Lane {
    var inWindow := lane.windowStart.Some? && now - lane.windowStart.value < WINDOW_MS;
    var failures := if inWindow then lane.failures + 1 else 1;
    Lane(failures, if inWindow then lane.windowStart else Some(now),
         if failures >= FREE_FAILURES then Some(now + Backoff(failures)) else None)
  }

  /** The three lanes; setup closes for good when the administrator is created. */
  datatype Lanes = Lanes(login: Lane, recovery: Lane, setup: Lane, initialised: bool)

  const FRESH := Lanes(CLEAR, CLEAR, CLEAR, false)

  /**
   * An attempt names its time and whether its secrets check out. Logins, sensitive operations and password
   * changes share the login lane; issuing a token clears the lane of that token.
   */
  datatype Attempt =
    | Login(now: int, succeeds: bool)
    | Recover(now: int, succeeds: bool)
    | Register(now: int, succeeds: bool)
    | IssueRecovery(now: int)
    | IssueSetup(now: int)

  /** A blocked lane throttles before anything is checked. */
  function Try(s: Lanes, a: Attempt): Lanes {
    match a
    case Login(now, succeeds) =>
      if Blocked(s.login, now) then s else s.(login := if succeeds then CLEAR else Reject(s.login, now))
    case Recover(now, succeeds) =>
      if Blocked(s.recovery, now) then s
      else if succeeds then s.(recovery := CLEAR, login := CLEAR) else s.(recovery := Reject(s.recovery, now))
    case Register(now, succeeds) =>
      if s.initialised || Blocked(s.setup, now) then s
      else if succeeds then s.(initialised := true) else s.(setup := Reject(s.setup, now))
    case IssueRecovery(_) => s.(recovery := CLEAR)
    case IssueSetup(_) => if s.initialised then s else s.(setup := CLEAR)
  }

  function Run(attempts: seq<Attempt>): Lanes {
    if attempts == [] then FRESH else Try(Run(attempts[..|attempts| - 1]), attempts[|attempts| - 1])
  }

  /** The clock never goes back. */
  ghost predicate Ordered(attempts: seq<Attempt>) {
    forall i, j :: 0 <= i < j < |attempts| ==> attempts[i].now <= attempts[j].now
  }

  /** Milliseconds a window has been blocked in all by the time it counts the given number of failures. */
  function TotalBackoff(failures: nat): nat {
    if failures < FREE_FAILURES then 0 else TotalBackoff(failures - 1) + Backoff(failures)
  }

  /** A lane has waited out all of its backoffs but the one it may still be in. */
  ghost predicate Valid(lane: Lane, now: int) {
    && lane.failures <= MAX_FAILURES
    && (lane.failures > 0 <==> lane.windowStart.Some?)
    && (lane.windowStart.Some? ==> lane.windowStart.value <= now)
    && (lane.failures >= FREE_FAILURES ==>
          lane.blockedUntil.Some? && lane.blockedUntil.value >= lane.windowStart.value + TotalBackoff(lane.failures))
    && (lane.failures < FREE_FAILURES ==> lane.blockedUntil.None?)
  }

  lemma {:induction false} FullBackoffs(failures: nat)
    requires failures >= 15
    ensures TotalBackoff(failures) == 63_000 + 60_000 * (failures - 15)
  {
    if failures == 15 {
      assert Power2(5) == 32 && Power2(4) == 16 && Power2(3) == 8 && Power2(2) == 4 && Power2(1) == 2;
      assert TotalBackoff(9) == 0;
      assert TotalBackoff(10) == 1000;
      assert TotalBackoff(11) == 3000;
      assert TotalBackoff(12) == 7000;
      assert TotalBackoff(13) == 15000;
      assert TotalBackoff(14) == 31000;
    } else {
      assert Power2(6) == 64 by { assert Power2(5) == 32 by { assert Power2(3) == 8; } }
      FullBackoffs(failures - 1);
    }
  }

  /** A 30th failure would need more than fifteen minutes of waiting inside one window. */
  lemma RejectKeepsValid(lane: Lane, now: int)
    requires Valid(lane, now) && !Blocked(lane, now)
    ensures Valid(Reject(lane, now), now)
  {
    hide Backoff;
    if lane.failures == MAX_FAILURES {
      FullBackoffs(lane.failures);
    }
    if lane.failures < FREE_FAILURES {
      assert TotalBackoff(lane.failures) == 0;
    }
  }

  /** In every run of attempts no lane ever counts more than 29 failures. */
  lemma {:induction false} CountersAreBounded(attempts: seq<Attempt>, now: int)
    requires Ordered(attempts) && (attempts != [] ==> attempts[|attempts| - 1].now <= now)
    ensures var s := Run(attempts);
            && Valid(s.login, now) && Valid(s.recovery, now) && Valid(s.setup, now)
            && s.login.failures <= MAX_FAILURES && s.recovery.failures <= MAX_FAILURES
            && s.setup.failures <= MAX_FAILURES
  {
    if attempts != [] {
      var before, a := attempts[..|attempts| - 1], attempts[|attempts| - 1];
      CountersAreBounded(before, a.now);
      var s := Run(before);
      hide Reject, TotalBackoff;
      if !Blocked(s.login, a.now) { RejectKeepsValid(s.login, a.now); }
      if !Blocked(s.recovery, a.now) { RejectKeepsValid(s.recovery, a.now); }
      if !Blocked(s.setup, a.now) { RejectKeepsValid(s.setup, a.now); }
    }
  }

  /** Failures as fast as the throttle allows: each the moment the block of the one before ends. */
  function Persistent(n: nat): (attempts: seq<Attempt>)
    ensures |attempts| == n
  {
    if n == 0 then [] else Persistent(n - 1) + [Login(TotalBackoff(n - 1), false)]
  }

  lemma {:induction false} TotalGrows(j: nat, k: nat)
    requires j <= k
    ensures TotalBackoff(j) <= TotalBackoff(k)
    decreases k - j
  {
    if j < k {
      TotalGrows(j, k - 1);
    }
  }

  lemma {:induction false} PersistentIsOrdered(n: nat)
    ensures Ordered(Persistent(n))
    ensures forall i :: 0 <= i < n ==> Persistent(n)[i].now == TotalBackoff(i)
  {
    if n > 0 {
      PersistentIsOrdered(n - 1);
      forall i, j | 0 <= i < j < n
        ensures Persistent(n)[i].now <= Persistent(n)[j].now
      {
        TotalGrows(i, j);
      }
    }
  }

  /** The lane after n failures of the persistent run. */
  function Persisted(n: nat): Lane {
    if n == 0 then CLEAR else Lane(n, Some(0), if n >= FREE_FAILURES then Some(TotalBackoff(n)) else None)
  }

  lemma PersistentStep(n: nat)
    requires n < MAX_FAILURES
    ensures !Blocked(Persisted(n), TotalBackoff(n)) && Reject(Persisted(n), TotalBackoff(n)) == Persisted(n + 1)
  {
    hide Backoff;
    TotalGrows(n, 28);
    FullBackoffs(28);
    if n < FREE_FAILURES {
      assert TotalBackoff(n) == 0;
    }
  }

  /** The bound is tight: 29 failures do fit into one window. */
  lemma {:induction false} BoundIsReached(n: nat)
    requires n <= MAX_FAILURES
    ensures Ordered(Persistent(n)) && Run(Persistent(n)).login == Persisted(n)
    ensures Persisted(n).failures == n
  {
    PersistentIsOrdered(n);
    if n > 0 {
      BoundIsReached(n - 1);
      PersistentStep(n - 1);
      assert Persistent(n)[..n - 1] == Persistent(n - 1);
      hide Reject, TotalBackoff, Blocked, Persisted;
    }
  }

  /* ---- the first setup happens once ---- */

  /** Attempt i creates the administrator. */
  predicate Creates(attempts: seq<Attempt>, i: nat)
    requires i < |attempts|
  {
    !Run(attempts[..i]).initialised && Run(attempts[..i + 1]).initialised
  }

  lemma {:induction false} StaysInitialised(attempts: seq<Attempt>, i: nat, j: nat)
    requires i <= j <= |attempts| && Run(attempts[..i]).initialised
    ensures Run(attempts[..j]).initialised && Run(attempts[..j]).setup == Run(attempts[..i]).setup
    decreases j
  {
    hide Reject, Blocked;
    if i < j {
      StaysInitialised(attempts, i, j - 1);
      assert attempts[..j][..j - 1] == attempts[..j - 1];
    }
  }

  /**
   * In every run at most one attempt creates the administrator; it brought the right token, and closes setup
   * for good.
   */
  lemma SetupHappensOnce(attempts: seq<Attempt>, i: nat, j: nat)
    requires i < |attempts| && j < |attempts| && Creates(attempts, i)
    ensures Creates(attempts, j) ==> i == j
    ensures attempts[i].Register? && attempts[i].succeeds && !Blocked(Run(attempts[..i]).setup, attempts[i].now)
    ensures Run(attempts).initialised && Run(attempts).setup == Run(attempts[..i]).setup
  {
    assert attempts[..i + 1][..i] == attempts[..i] && attempts[..|attempts|] == attempts;
    StaysInitialised(attempts, i + 1, |attempts|);
    if i < j { StaysInitialised(attempts, i + 1, j); }
    if j < i && Creates(attempts, j) { StaysInitialised(attempts, j + 1, i); }
  }

  /* ---- what a lane counts ---- */

  datatype Kind = LoginLane | RecoveryLane | SetupLane

  function LaneOf(s: Lanes, kind: Kind): Lane {
    match kind
    case LoginLane => s.login
    case RecoveryLane => s.recovery
    case SetupLane => s.setup
  }

  /** Attempt k was let in and rejected. */
  predicate Rejected(attempts: seq<Attempt>, k: nat, kind: Kind)
    requires k < |attempts|
  {
    var s := Run(attempts[..k]);
    && !attempts[k].IssueRecovery? && !attempts[k].IssueSetup? && !attempts[k].succeeds
    && (match kind
        case LoginLane => attempts[k].Login?
        case RecoveryLane => attempts[k].Recover?
        case SetupLane => attempts[k].Register? && !s.initialised)
    && !Blocked(LaneOf(s, kind), attempts[k].now)
  }

  /** Attempt k was let in and succeeded, or a new token was issued: a login also starts afresh after a recovery. */
  predicate Clears(attempts: seq<Attempt>, k: nat, kind: Kind)
    requires k < |attempts|
  {
    var s := Run(attempts[..k]);
    match attempts[k]
    case Login(now, succeeds) => kind.LoginLane? && succeeds && !Blocked(s.login, now)
    case Recover(now, succeeds) => !kind.SetupLane? && succeeds && !Blocked(s.recovery, now)
    case Register(_, _) => false
    case IssueRecovery(_) => kind.RecoveryLane?
    case IssueSetup(_) => kind.SetupLane? && !s.initialised
  }

  /** How many attempts from `first` on were rejected. */
  function Rejections(attempts: seq<Attempt>, first: nat, n: nat, kind: Kind): nat
    requires n <= |attempts|
  {
    if n <= first then 0
    else Rejections(attempts, first, n - 1, kind) + if Rejected(attempts, n - 1, kind) then 1 else 0
  }

  ghost predicate NoSuccess(attempts: seq<Attempt>, first: nat, n: nat, kind: Kind)
    requires n <= |attempts|
  {
    forall k :: first < k < n ==> !Clears(attempts, k, kind)
  }

  ghost predicate WithinWindow(attempts: seq<Attempt>, first: nat, n: nat, kind: Kind)
    requires first < n <= |attempts|
  {
    forall k :: first <= k < n && Rejected(attempts, k, kind) ==> attempts[k].now < attempts[first].now + WINDOW_MS
  }

  /** The last rejected attempt set the block. */
  ghost predicate BlockedByLast(attempts: seq<Attempt>, first: nat, n: nat, kind: Kind, lane: Lane)
    requires n <= |attempts|
  {
    exists k :: first <= k < n && LastRejected(attempts, k, n, kind)
                && lane.blockedUntil == BlockAfter(lane.failures, attempts[k].now)
  }

  /** The window opened with the rejected attempt `first` and counts all rejected since, all within 15 minutes. */
  ghost predicate Window(attempts: seq<Attempt>, first: nat, n: nat, kind: Kind, lane: Lane)
    requires n <= |attempts|
  {
    && first < n && Rejected(attempts, first, kind) && lane.windowStart == Some(attempts[first].now)
    && lane.failures == Rejections(attempts, first, n, kind)
    && NoSuccess(attempts, first, n, kind) && WithinWindow(attempts, first, n, kind)
    && BlockedByLast(attempts, first, n, kind, lane)
  }

  predicate LastRejected(attempts: seq<Attempt>, k: nat, n: nat, kind: Kind)
    requires n <= |attempts|
  {
    k < n && Rejected(attempts, k, kind) && forall j :: k < j < n ==> !Rejected(attempts, j, kind)
  }

  /** From the tenth failure on: one second, doubled with every further one up to a minute. */
  function BlockAfter(failures: nat, now: int): Option<int> {
    if failures < 10 then None
    else Some(now + if failures == 10 then 1000 else if failures == 11 then 2000 else if failures == 12 then 4000
                    else if failures == 13 then 8000 else if failures == 14 then 16_000
                    else if failures == 15 then 32_000
                    else 60_000)
  }

  lemma BackoffAfter(failures: nat, now: int)
    requires failures >= FREE_FAILURES
    ensures BlockAfter(failures, now) == Some(now + Backoff(failures))
  {
    assert Power2(1) == 2 && Power2(2) == 4 && Power2(3) == 8 && Power2(4) == 16 && Power2(5) == 32 && Power2(6) == 64;
  }

  lemma RejectOpensOrCounts(lane: Lane, now: int)
    requires lane.failures > 0 ==> lane.windowStart.Some?
    requires lane.failures == 0 ==> lane.windowStart.None?
    ensures var counts := lane.windowStart.Some? && now < lane.windowStart.value + WINDOW_MS;
      Reject(lane, now).windowStart == (if counts then lane.windowStart else Some(now))
      && Reject(lane, now).failures == (if counts then lane.failures + 1 else 1)
      && Reject(lane, now).blockedUntil == BlockAfter(Reject(lane, now).failures, now)
  {
    if Reject(lane, now).failures >= FREE_FAILURES { BackoffAfter(Reject(lane, now).failures, now); }
  }

  /** What one attempt does to a lane. */
  lemma LaneStep(attempts: seq<Attempt>, k: nat, kind: Kind)
    requires k < |attempts|
    ensures var lane := LaneOf(Run(attempts[..k]), kind);
      LaneOf(Run(attempts[..k + 1]), kind)
      == if Clears(attempts, k, kind) then CLEAR
         else if Rejected(attempts, k, kind) then Reject(lane, attempts[k].now) else lane
    ensures Clears(attempts, k, kind) ==> !Rejected(attempts, k, kind)
  {
    hide Reject, Blocked;
    assert attempts[..k + 1][..k] == attempts[..k];
  }

  /** A rejected attempt k opens a window or goes into the one there is. */
  lemma RejectionCounts(attempts: seq<Attempt>, first: nat, k: nat, kind: Kind, lane: Lane) returns (start: nat)
    requires k < |attempts| && Rejected(attempts, k, kind) && !Clears(attempts, k, kind)
    requires if lane.failures == 0 then lane == CLEAR else Window(attempts, first, k, kind, lane)
    ensures Window(attempts, start, k + 1, kind, Reject(lane, attempts[k].now))
    ensures Reject(lane, attempts[k].now).failures > 0
  {
    hide Rejected, Clears, Reject, BlockAfter, BlockedByLast;
    RejectOpensOrCounts(lane, attempts[k].now);
    start := if lane.failures == 0 || attempts[k].now >= lane.windowStart.value + WINDOW_MS then k else first;
    LastOneBlocks(attempts, start, k, kind, Reject(lane, attempts[k].now));
    assert Rejections(attempts, k, k, kind) == 0;
  }

  lemma LastOneBlocks(attempts: seq<Attempt>, first: nat, k: nat, kind: Kind, lane: Lane)
    requires first <= k < |attempts| && Rejected(attempts, k, kind)
    requires lane.blockedUntil == BlockAfter(lane.failures, attempts[k].now)
    ensures BlockedByLast(attempts, first, k + 1, kind, lane)
  {
    hide Rejected, BlockAfter;
    assert LastRejected(attempts, k, k + 1, kind);
  }

  /** An attempt k that is neither rejected nor a success leaves the window as it is. */
  lemma WindowStays(attempts: seq<Attempt>, first: nat, k: nat, kind: Kind, lane: Lane)
    requires k < |attempts| && !Rejected(attempts, k, kind) && !Clears(attempts, k, kind)
    requires Window(attempts, first, k, kind, lane)
    ensures Window(attempts, first, k + 1, kind, lane)
  {
    hide Rejected, Clears, BlockAfter, BlockedByLast;
    BlockStays(attempts, first, k, kind, lane);
  }

  lemma BlockStays(attempts: seq<Attempt>, first: nat, k: nat, kind: Kind, lane: Lane)
    requires k < |attempts| && !Rejected(attempts, k, kind) && BlockedByLast(attempts, first, k, kind, lane)
    ensures BlockedByLast(attempts, first, k + 1, kind, lane)
  {
    hide Rejected, BlockAfter;
    var j :| first <= j < k && LastRejected(attempts, j, k, kind)
      && lane.blockedUntil == BlockAfter(lane.failures, attempts[j].now);
    assert LastRejected(attempts, j, k + 1, kind);
  }

  /**
   * Over all attempts: a lane without a window is clear, and one with a window counts the attempts rejected since the
   * window opened, with no success in between; how long it blocks follows from their number and the time of the last.
   */
  lemma {:induction false} LaneCounts(attempts: seq<Attempt>, n: nat, kind: Kind) returns (first: nat)
    requires n <= |attempts|
    ensures var lane := LaneOf(Run(attempts[..n]), kind);
      if lane.failures == 0 then lane == CLEAR else Window(attempts, first, n, kind, lane)
  {
    hide Rejected, Clears, Reject, Run, LaneOf, Window;
    first := 0;
    if n == 0 {
      NothingCounted(attempts, kind);
    } else {
      var k := n - 1;
      first := LaneCounts(attempts, k, kind);
      var lane := LaneOf(Run(attempts[..k]), kind);
      LaneStep(attempts, k, kind);
      if Rejected(attempts, k, kind) {
        first := RejectionCounts(attempts, first, k, kind, lane);
      } else if !Clears(attempts, k, kind) && lane.failures > 0 {
        WindowStays(attempts, first, k, kind, lane);
      }
    }
  }

  lemma NothingCounted(attempts: seq<Attempt>, kind: Kind)
    ensures LaneOf(Run(attempts[..0]), kind) == CLEAR
  {
    assert attempts[..0] == [];
  }

  /** The first registration that is let in with the right token creates the administrator. */
  lemma FirstRightTokenCreates(attempts: seq<Attempt>, i: nat)
    requires i < |attempts| && attempts[i].Register? && attempts[i].succeeds
    requires !Run(attempts[..i]).initialised && !Blocked(Run(attempts[..i]).setup, attempts[i].now)
    ensures Creates(attempts, i)
  {
    assert attempts[..i + 1][..i] == attempts[..i];
  }

  /* ---- the services, with the counters of one lane as columns ---- */

  class LoginThrottle {
    var loginFailures: nat
    var loginWindowStart: Option<int>
    var loginBlockedUntil: Option<int>

    function Contents(): Lane
      reads this
    {
      Lane(loginFailures, loginWindowStart, loginBlockedUntil)
    }

    constructor ()
      ensures Contents() == CLEAR
    {
      loginFailures, loginWindowStart, loginBlockedUntil := 0, None, None;
    }

    /** Counts a failure; with a clock that does not go back the counter stays within its bound. */
    method RejectAttempt(now: int)
      requires !Blocked(Contents(), now)
      modifies this
      ensures Contents() == Reject(old(Contents()), now)
      ensures Valid(old(Contents()), now) ==> Valid(Contents(), now) && loginFailures <= MAX_FAILURES
    {
      if Valid(Contents(), now) {
        RejectKeepsValid(Contents(), now);
      }
      if loginWindowStart.Some? && now - loginWindowStart.value < WINDOW_MS {
        loginFailures := loginFailures + 1;
      } else {
        loginFailures, loginWindowStart := 1, Some(now);
      }
      loginBlockedUntil := None;
      if loginFailures >= FREE_FAILURES {
        var block := DoubledFrom(1000, Min(6, loginFailures - FREE_FAILURES));
        loginBlockedUntil := Some(now + Min(MAX_BLOCK_MS, block));
      }
    }

    static method DoubledFrom(base: nat, times: nat) returns (value: nat)
      ensures value == base * Power2(times)
    {
      value := base;
      for i := 0 to times
        invariant value == base * Power2(i)
      {
        value := value * 2;
      }
    }

    method ResetLogin()
      modifies this
      ensures Contents() == CLEAR
    {
      loginFailures, loginWindowStart, loginBlockedUntil := 0, None, None;
    }

    /** The gate every password check passes through; the answer says whether the attempt was let in at all. */
    method Attempt(now: int, secretsMatch: bool) returns (admitted: bool)
      modifies this
      ensures admitted <==> !Blocked(old(Contents()), now)
      ensures forall others: Lanes :: others.login == old(Contents()) ==>
                Try(others, Login(now, secretsMatch)).login == Contents()
    {
      if loginBlockedUntil.Some? && loginBlockedUntil.value > now { return false; }
      if secretsMatch {
        ResetLogin();
      } else {
        RejectAttempt(now);
      }
      return true;
    }
  }

  datatype SetupOutcome = Closed | Throttled | Rejected | Created

  class BootstrapState {
    var failedAttempts: nat
    var attemptWindowStart: Option<int>
    var blockedUntil: Option<int>
    var installed: bool

    function Contents(): Lane
      reads this
    {
      Lane(failedAttempts, attemptWindowStart, blockedUntil)
    }

    constructor ()
      ensures Contents() == CLEAR && !installed
    {
      failedAttempts, attemptWindowStart, blockedUntil, installed := 0, None, None, false;
    }

    /** The first registration; `accepted` says that the token is current and the fields are valid. */
    method Register(now: int, accepted: bool) returns (outcome: SetupOutcome)
      modifies this
      ensures forall others: Lanes :: others.setup == old(Contents()) && others.initialised == old(installed) ==>
        var after := Try(others, Attempt.Register(now, accepted));
        after.setup == Contents() && after.initialised == installed
      ensures outcome.Created? <==> !old(installed) && installed
      ensures outcome.Rejected? <==> !old(installed) && !Blocked(old(Contents()), now) && !accepted
    {
      if installed { return Closed; }
      if blockedUntil.Some? && blockedUntil.value > now { return Throttled; }
      if !accepted {
        var inWindow := attemptWindowStart.Some? && now - attemptWindowStart.value < WINDOW_MS;
        var failures := if inWindow then failedAttempts + 1 else 1;
        failedAttempts := failures;
        attemptWindowStart := if inWindow then attemptWindowStart else Some(now);
        blockedUntil := None;
        if failures >= FREE_FAILURES {
          var block := LoginThrottle.DoubledFrom(1000, Min(6, failures - FREE_FAILURES));
          blockedUntil := Some(now + Min(MAX_BLOCK_MS, block));
        }
        return Rejected;
      }
      installed := true;
      return Created;
    }
  }
}
