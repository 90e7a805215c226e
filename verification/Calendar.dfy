/** UTC calendar months over millisecond timestamps since 1970, as JavaScript's Date.UTC counts them. */
module Calendar {
  const DAY_MS: nat := 86_400_000

  predicate LeapYear(year: nat) {
    year % 4 == 0 && (year % 100 != 0 || year % 400 == 0)
  }

  /** Days of the month with index k, where month 0 is January 1970. */
  function DaysIn(k: nat): (days: nat)
    ensures 28 <= days <= 31
  {
    var month := k % 12;
    if month == 1 then (if LeapYear(1970 + k / 12) then 29 else 28)
    else if month in {3, 5, 8, 10} then 30
    else 31
  }

  function DaysBefore(k: nat): (days: nat)
    ensures k <= days
  {
    if k == 0 then 0 else DaysBefore(k - 1) + DaysIn(k - 1)
  }

  /** The first millisecond of month k. */
  function StartOf(k: nat): nat {
    DaysBefore(k) * DAY_MS
  }

  function MonthFrom(t: nat, k: nat): (month: nat)
    requires StartOf(k) <= t
    ensures StartOf(month) <= t < StartOf(month + 1)
    decreases t - k
  {
    if t < StartOf(k + 1) then k else MonthFrom(t, k + 1)
  }

  /** The month a timestamp falls in. */
  function MonthOf(t: nat): (month: nat)
    ensures StartOf(month) <= t < StartOf(month + 1)
  {
    MonthFrom(t, 0)
  }

  lemma {:induction false} StartsIncrease(j: nat, k: nat)
    requires j < k
    ensures StartOf(j) < StartOf(k)
    decreases k
  {
    if j < k - 1 {
      StartsIncrease(j, k - 1);
    }
  }

  /** A timestamp belongs to exactly the month whose bounds contain it. */
  lemma MonthCharacterised(t: nat, k: nat)
    ensures MonthOf(t) == k <==> StartOf(k) <= t < StartOf(k + 1)
  {
    hide StartOf, MonthOf;
    var m := MonthOf(t);
    if m < k {
      if m + 1 < k { StartsIncrease(m + 1, k); }
    } else if k < m {
      if k + 1 < m { StartsIncrease(k + 1, m); }
    }
  }

  lemma MonthsFollowTime(t: nat, u: nat)
    requires t <= u
    ensures MonthOf(t) <= MonthOf(u)
    ensures StartOf(MonthOf(t)) <= StartOf(MonthOf(u))
  {
    hide StartOf, MonthOf;
    var m, n := MonthOf(t), MonthOf(u);
    if n < m {
      if n + 1 < m { StartsIncrease(n + 1, m); }
    } else if m < n {
      StartsIncrease(m, n);
    }
  }
}
