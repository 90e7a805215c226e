/** Prices, reservations and budget amounts: model-policy.ts. Amounts are integer nano-dollars. */
module ModelPolicy {
  import opened Results

  const CENT_NANO: nat := 10_000_000
  const USD_NANO: nat := 1_000_000_000
  const MAX_BUDGET_NANO: nat := 99_999_990_000_000
  const MAX_SAFE_INTEGER: nat := 9_007_199_254_740_991
  const LUNA := "gpt-6-luna"
  const SOL := "gpt-6.1-sol"
  const EMBEDDING := "text-embedding-3-small"

  predicate AnswerModel(model: string) {
    model == LUNA || model == SOL
  }

  /** Nano-dollars per token. */
  datatype RateCard = RateCard(input: nat, cached: nat, write30: nat, write12: nat, output: nat)

  /** The price list; no other model is supported. */
  function Rates(model: string): Option<RateCard> {
    if model == LUNA then Some(RateCard(100, 10, 125, 250, 500))
    else if model == SOL then Some(RateCard(2000, 100, 2500, 5000, 10000))
    else if model == EMBEDDING then Some(RateCard(20, 20, 20, 20, 0))
    else None
  }

  predicate Supported(model: string) {
    Rates(model).Some?
  }

  datatype Usage = Usage(input: int, cached: int, write30: int, write12: int, output: int, reasoning: int)

  /** Cache reads and writes are billed at their own rates, the rest of the input at the input rate. */
  function Cost(model: string, u: Usage): int
    requires Supported(model)
  {
    CostAt(Rates(model).value, u)
  }

  function CostAt(r: RateCard, u: Usage): int {
    (u.input - u.cached - u.write30 - u.write12) * r.input
    + u.cached * r.cached + u.write30 * r.write30 + u.write12 * r.write12 + u.output * r.output
  }

  function Reservation(model: string, inputLimit: int, outputLimit: int): int
    requires Supported(model)
  {
    var r := Rates(model).value;
    inputLimit * r.write12 + outputLimit * r.output
  }

  predicate SafeCount(n: int) {
    0 <= n <= MAX_SAFE_INTEGER
  }

  /** Every condition on a reported usage except the last one, on its cost. */
  predicate InBounds(u: Usage, inputLimit: int, outputLimit: int) {
    && SafeCount(u.input) && SafeCount(u.cached) && SafeCount(u.write30)
    && SafeCount(u.write12) && SafeCount(u.output) && SafeCount(u.reasoning)
    && u.input <= inputLimit && u.output <= outputLimit && u.reasoning <= u.output
    && u.cached + u.write30 + u.write12 <= u.input
  }

  /** True when the source accepts the usage a provider reported for an admitted call. */
  predicate AdmittedUsage(model: string, u: Usage, inputLimit: int, outputLimit: int, reserved: int)
    requires Supported(model)
  {
    InBounds(u, inputLimit, outputLimit) && Cost(model, u) <= reserved
  }

  /**
   * The reservation is the largest cost any in-bounds usage can have: it covers every one of them, so the
   * cost test never rejects a usage that passed the others, and some in-bounds usage costs exactly that much.
   */
  lemma ReservationIsWorstCase(model: string, u: Usage, inputLimit: nat, outputLimit: nat)
    requires Supported(model)
    requires SafeCount(inputLimit) && SafeCount(outputLimit)
    ensures InBounds(u, inputLimit, outputLimit) ==> 0 <= Cost(model, u) <= Reservation(model, inputLimit, outputLimit)
    ensures AdmittedUsage(model, u, inputLimit, outputLimit, Reservation(model, inputLimit, outputLimit))
            <==> && 0 <= u.cached && 0 <= u.write30 && 0 <= u.write12 && u.cached + u.write30 + u.write12 <= u.input
                 && u.input <= inputLimit && 0 <= u.reasoning && u.reasoning <= u.output && u.output <= outputLimit
    ensures exists worst :: InBounds(worst, inputLimit, outputLimit)
                            && Cost(model, worst) == Reservation(model, inputLimit, outputLimit)
  {
    var worst := Usage(inputLimit, 0, 0, inputLimit, outputLimit, 0);
    assert InBounds(worst, inputLimit, outputLimit);
    if model == LUNA {
      assert Rates(model).value == RateCard(100, 10, 125, 250, 500);
    } else if model == SOL {
      assert Rates(model).value == RateCard(2000, 100, 2500, 5000, 10000);
    } else {
      assert Rates(model).value == RateCard(20, 20, 20, 20, 0);
    }
  }

  /**
   * What one more token of each kind costs, in nano-dollars; reasoning is part of the output and costs
   * nothing more.
   */
  lemma TokenPrices(model: string, u: Usage)
    requires Supported(model)
    ensures Cost(model, u.(input := u.input + 1)) - Cost(model, u)
            == if model == LUNA then 100 else if model == SOL then 2000 else 20
    ensures Cost(model, u.(output := u.output + 1)) - Cost(model, u)
            == if model == LUNA then 500 else if model == SOL then 10000 else 0
    ensures Cost(model, u.(input := u.input + 1, cached := u.cached + 1)) - Cost(model, u)
            == if model == LUNA then 10 else if model == SOL then 100 else 20
    ensures Cost(model, u.(input := u.input + 1, write30 := u.write30 + 1)) - Cost(model, u)
            == if model == LUNA then 125 else if model == SOL then 2500 else 20
    ensures Cost(model, u.(input := u.input + 1, write12 := u.write12 + 1)) - Cost(model, u)
            == if model == LUNA then 250 else if model == SOL then 5000 else 20
    ensures Cost(model, u.(reasoning := u.reasoning + 1)) == Cost(model, u)
    ensures Cost(model, Usage(0, 0, 0, 0, 0, 0)) == 0
  {
    hide CostAt;
    OneMoreToken(Rates(model).value, u);
  }

  lemma OneMoreToken(r: RateCard, u: Usage)
    ensures CostAt(r, u.(input := u.input + 1)) == CostAt(r, u) + r.input
    ensures CostAt(r, u.(output := u.output + 1)) == CostAt(r, u) + r.output
    ensures CostAt(r, u.(input := u.input + 1, cached := u.cached + 1)) == CostAt(r, u) + r.cached
    ensures CostAt(r, u.(input := u.input + 1, write30 := u.write30 + 1)) == CostAt(r, u) + r.write30
    ensures CostAt(r, u.(input := u.input + 1, write12 := u.write12 + 1)) == CostAt(r, u) + r.write12
    ensures CostAt(r, u.(reasoning := u.reasoning + 1)) == CostAt(r, u) && CostAt(r, Usage(0, 0, 0, 0, 0, 0)) == 0
  {
    var plain := u.input - u.cached - u.write30 - u.write12;
    assert (plain + 1) * r.input == plain * r.input + r.input;
    assert (u.cached + 1) * r.cached == u.cached * r.cached + r.cached;
    assert (u.write30 + 1) * r.write30 == u.write30 * r.write30 + r.write30;
    assert (u.write12 + 1) * r.write12 == u.write12 * r.write12 + r.write12;
    assert (u.output + 1) * r.output == u.output * r.output + r.output;
  }

  /* ---- budget amounts ---- */

  predicate Digit(c: char) {
    '0' <= c <= '9'
  }

  predicate AllDigits(s: string) {
    forall i :: 0 <= i < |s| ==> Digit(s[i])
  }

  function DigitChar(n: nat): (c: char)
    requires n < 10
    ensures Digit(c) && (c as int) - ('0' as int) == n
  {
    ((('0' as int) + n) as char)
  }

  /** The number a string of decimal digits denotes. */
  function Value(s: string): (n: nat)
    requires AllDigits(s)
  {
    if s == "" then 0 else 10 * Value(s[..|s| - 1]) + ((s[|s| - 1] as int) - ('0' as int))
  }

  /** Plain decimal, without leading zeros. */
  function Decimal(n: nat): (s: string)
    ensures AllDigits(s) && s != ""
    ensures s == "0" || s[0] != '0'
    ensures n > 0 ==> s[0] != '0'
  {
    if n < 10 then [DigitChar(n)] else Decimal(n / 10) + [DigitChar(n % 10)]
  }

  function TwoDigits(n: nat): string
    requires n < 100
  {
    [DigitChar(n / 10), DigitChar(n % 10)]
  }

  function Dot(s: string): (i: nat)
    ensures i <= |s|
    ensures forall k :: 0 <= k < i ==> s[k] != '.'
    ensures i < |s| ==> s[i] == '.'
  {
    if s == "" || s[0] == '.' then 0 else 1 + Dot(s[1..])
  }

  /** Up to five digits without a leading zero, then optionally a point and one or two digits. */
  predicate BudgetSyntax(s: string) {
    var dot := Dot(s);
    var whole := s[..dot];
    && 1 <= |whole| <= 5 && AllDigits(whole) && (whole == "0" || whole[0] != '0')
    && (dot < |s| ==> 1 <= |s| - dot - 1 <= 2 && AllDigits(s[dot + 1..]))
  }

  function PadEnd(cents: string): string
    requires |cents| <= 2
  {
    if |cents| == 0 then "00" else if |cents| == 1 then cents + "0" else cents
  }

  /** None stands for the source's invalid_budget error. */
  function ParseBudget(s: string): Option<nat> {
    if !BudgetSyntax(s) then None
    else
      var dot := Dot(s);
      var cents := PadEnd(if dot < |s| then s[dot + 1..] else "");
      assert AllDigits(cents);
      var nano := Value(s[..dot]) * USD_NANO + Value(cents) * CENT_NANO;
      if nano == 0 then None else Some(nano)
  }

  /** The settings form of an amount; None stands for invalid_budget. */
  function BudgetUsd(nano: int): Option<string> {
    if nano <= 0 || nano % CENT_NANO != 0 then None
    else
      var text := Decimal(nano / USD_NANO) + "." + TwoDigits(nano / CENT_NANO % 100);
      if ParseBudget(text) != Some(nano) then None else Some(text)
  }

  lemma {:induction false} DecimalDenotes(n: nat)
    ensures Value(Decimal(n)) == n
  {
    if n < 10 {
      assert Decimal(n)[..0] == "";
    } else {
      DecimalDenotes(n / 10);
      var s := Decimal(n);
      assert s[..|s| - 1] == Decimal(n / 10);
    }
  }

  lemma {:induction false} DecimalLength(n: nat, k: nat, power: nat)
    requires k >= 1 && power == Power10(k)
    ensures |Decimal(n)| <= k <==> n < power
    decreases k
  {
    assert power == 10 * Power10(k - 1);
    if n < 10 {
      PowersGrow(0, k - 1);
    } else {
      assert |Decimal(n)| == |Decimal(n / 10)| + 1;
      if k > 1 {
        DecimalLength(n / 10, k - 1, Power10(k - 1));
      }
    }
  }

  function Power10(k: nat): nat {
    if k == 0 then 1 else 10 * Power10(k - 1)
  }

  lemma {:induction false} ValueBelowPower(s: string)
    requires AllDigits(s)
    ensures Value(s) < Power10(|s|)
  {
    if s != "" {
      ValueBelowPower(s[..|s| - 1]);
    }
  }

  lemma DotAfterDigits(whole: string, cents: string)
    requires AllDigits(whole)
    ensures Dot(whole + "." + cents) == |whole|
  {
    var s := whole + "." + cents;
    assert s[|whole|] == '.';
    assert forall k :: 0 <= k < |whole| ==> s[k] == whole[k];
  }

  lemma TwoDigitsDenote(n: nat)
    requires n < 100
    ensures AllDigits(TwoDigits(n)) && Value(TwoDigits(n)) == n
  {
    var s := TwoDigits(n);
    assert s[..1] == [s[0]];
    assert s[..1][..0] == "";
    assert Value(s[..1]) == n / 10;
  }

  lemma SplitAmount(nano: nat)
    requires nano % CENT_NANO == 0
    ensures nano == nano / USD_NANO * USD_NANO + nano / CENT_NANO % 100 * CENT_NANO
    ensures nano / USD_NANO < 100_000 <==> nano <= MAX_BUDGET_NANO
  {
    var cents := nano / CENT_NANO;
    assert nano == cents * CENT_NANO;
    assert nano / USD_NANO == cents / 100;
  }

  /** What the settings form denotes when it is read back, before the range check. */
  lemma SettingsFormParses(nano: nat)
    requires nano > 0 && nano % CENT_NANO == 0
    ensures var text := Decimal(nano / USD_NANO) + "." + TwoDigits(nano / CENT_NANO % 100);
            ParseBudget(text) == if nano <= MAX_BUDGET_NANO then Some(nano) else None
  {
    SplitAmount(nano);
    assert Power10(5) == 100_000;
    DecimalLength(nano / USD_NANO, 5, 100_000);
    WrittenAmountParses(nano / USD_NANO, nano / CENT_NANO % 100);
  }

  lemma WrittenAmountParses(dollars: nat, cents: nat)
    requires cents < 100 && dollars + cents > 0
    ensures ParseBudget(Decimal(dollars) + "." + TwoDigits(cents))
            == if |Decimal(dollars)| <= 5 then Some(dollars * USD_NANO + cents * CENT_NANO) else None
  {
    hide Decimal, Value, Dot, Power10;
    var whole, rest := Decimal(dollars), TwoDigits(cents);
    var text := whole + "." + rest;
    DotAfterDigits(whole, rest);
    assert text[..|whole|] == whole && text[|whole| + 1..] == rest;
    TwoDigitsDenote(cents);
    DecimalDenotes(dollars);
  }

  /** One digit behind the point counts tens of cents, and none counts nothing: 1.5 is 1.50, and 1 is 1.00. */
  lemma MissingDigitsAreZeros(whole: string, tens: char)
    requires AllDigits(whole) && Digit(tens)
    ensures ParseBudget(whole + "." + [tens]) == ParseBudget(whole + "." + [tens, '0'])
    ensures ParseBudget(whole) == ParseBudget(whole + "." + "00")
  {
    hide Value;
    var one, two, none := whole + "." + [tens], whole + "." + [tens, '0'], whole + "." + "00";
    DotAfterDigits(whole, [tens]);
    DotAfterDigits(whole, [tens, '0']);
    DotAfterDigits(whole, "00");
    NoDot(whole);
    assert one[..|whole|] == two[..|whole|] == none[..|whole|] == whole[..|whole|] == whole;
    assert one[|whole| + 1..] == [tens] && two[|whole| + 1..] == [tens, '0'] && none[|whole| + 1..] == "00";
    assert [tens] + "0" == [tens, '0'];
  }

  lemma NoDot(s: string)
    requires AllDigits(s)
    ensures Dot(s) == |s|
  {
    if Dot(s) < |s| { assert Digit(s[Dot(s)]); }
  }

  /** The settings form exists exactly for positive whole-cent amounts below one hundred thousand dollars. */
  lemma BudgetUsdDefined(nano: int)
    ensures BudgetUsd(nano).Some? <==> 0 < nano <= MAX_BUDGET_NANO && nano % CENT_NANO == 0
  {
    if 0 < nano && nano % CENT_NANO == 0 {
      SettingsFormParses(nano);
    }
  }

  /** Every accepted budget survives being stored, printed and parsed again. */
  lemma BudgetRoundTrip(s: string)
    requires ParseBudget(s).Some?
    ensures var nano := ParseBudget(s).value;
            BudgetUsd(nano).Some? && ParseBudget(BudgetUsd(nano).value) == Some(nano)
  {
    var dot := Dot(s);
    var cents := PadEnd(if dot < |s| then s[dot + 1..] else "");
    assert AllDigits(cents);
    ValueBelowPower(s[..dot]);
    ValueBelowPower(cents);
    assert Power10(2) == 100;
    PowersGrow(dot, 5);
    assert Power10(5) == 100_000;
    BudgetUsdDefined(ParseBudget(s).value);
  }

  lemma {:induction false} PowersGrow(j: nat, k: nat)
    requires j <= k
    ensures Power10(j) <= Power10(k)
    decreases k - j
  {
    if j < k {
      PowersGrow(j + 1, k);
    }
  }

  /* ---- request ids ---- */

  predicate HexDigit(c: char) {
    Digit(c) || 'a' <= c <= 'f' || 'A' <= c <= 'F'
  }

  function LowerChar(c: char): char {
    if 'A' <= c <= 'Z' then ((c as int) + 32) as char else c
  }

  function Lower(s: string): (l: string)
    ensures |l| == |s|
    ensures forall i :: 0 <= i < |s| ==> l[i] == LowerChar(s[i])
  {
    seq(|s|, i requires 0 <= i < |s| => LowerChar(s[i]))
  }

  /** A version 4 UUID in text form, in either letter case. */
  predicate ValidRequestId(s: string) {
    && |s| == 36
    && (forall i :: 0 <= i < 36 ==> if i in {8, 13, 18, 23} then s[i] == '-' else HexDigit(s[i]))
    && s[14] == '4'
    && LowerChar(s[19]) in {'8', '9', 'a', 'b'}
  }

  /** The one spelling under which a request id is stored. */
  predicate Canonical(s: string) {
    ValidRequestId(s) && Lower(s) == s
  }

  lemma LowerIsCanonical(s: string)
    requires ValidRequestId(s)
    ensures Canonical(Lower(s))
  {
    assert forall i :: 0 <= i < 36 ==> LowerChar(LowerChar(s[i])) == LowerChar(s[i]);
  }
}
