/**
 The display helpers of the mobile client's currency utilities: the
 percentage with its division-by-zero guard, the cleaning and reading of a
 typed currency amount, and the "time remaining" label of a deadline.
 */
module Currency {
  import opened Numeric
  import opened Decimal
  import opened Calendar

  // ---------------------------------------------------------------------------
  // calculatePercentage

  /** `calculatePercentage(part, total)`: 0 for a zero total, otherwise 100 * part / total rounded. */
  function CalculatePercentage(part: int, total: int): (r: int)
    ensures total == 0 ==> r == 0
    ensures total != 0 ==>
      (r as real) - 0.5 <= ((100 * part) as real) / (total as real) < (r as real) + 0.5
  {
    if total == 0 then 0 else RoundRatio(100 * part, total)
  }

  /** A part of a positive total is between 0 and 100 percent of it. */
  lemma PercentageInRange(part: int, total: int)
    requires 0 <= part <= total && total > 0
    ensures 0 <= CalculatePercentage(part, total) <= 100
  {
    RoundRatioMonotone(0, 100 * part, total);
    RoundRatioMonotone(100 * part, 100 * total, total);
    var hundred := RoundRatio(100 * total, total);
    assert ((100 * total) as real) / (total as real) == 100.0;
    assert hundred == 100;
  }

  /** The seed stokvel's card: 45000 saved of a 60000 target is 75 percent. */
  lemma PercentageExample()
    ensures CalculatePercentage(45000, 60000) == 75
  {
    assert ((100 * 45000) as real) / (60000 as real) == 75.0;
  }

  // ---------------------------------------------------------------------------
  // parseCurrency

  /** The characters the cleaning step keeps: the class `[\d.]`. */
  predicate Kept(c: char) {
    IsDigit(c) || c == '.'
  }

  /** `s.replace(/[^\d.]/g, '')`: the digits and dots of `s`, in their original order. */
  function Clean(s: string): (r: string)
    ensures |r| <= |s|
    ensures forall i :: 0 <= i < |r| ==> Kept(r[i])
  {
    if s == [] then []
    else if Kept(s[0]) then [s[0]] + Clean(s[1..])
    else Clean(s[1..])
  }

  /** Cleaning drops every other character and keeps every digit and dot as often as it occurs. */
  lemma {:induction false} CleanCounts(s: string)
    ensures forall c :: multiset(Clean(s))[c] == if Kept(c) then multiset(s)[c] else 0
  {
    if s != [] {
      CleanCounts(s[1..]);
      assert s == [s[0]] + s[1..];
    }
  }

  /** Cleaning distributes over concatenation, so the kept characters keep their order. */
  lemma {:induction false} CleanAppend(a: string, b: string)
    ensures Clean(a + b) == Clean(a) + Clean(b)
    decreases |a|
  {
    if a == [] {
      assert a + b == b;
    } else {
      assert (a + b)[0] == a[0] && (a + b)[1..] == a[1..] + b;
      CleanAppend(a[1..], b);
    }
  }

  /** A string of digits and dots is left as it is. */
  lemma {:induction false} CleanKeepsCleanString(s: string)
    requires forall i :: 0 <= i < |s| ==> Kept(s[i])
    ensures Clean(s) == s
  {
    if s != [] {
      CleanKeepsCleanString(s[1..]);
    }
  }

  /** A string with no digit or dot cleans to nothing. */
  lemma {:induction false} CleanDropsAll(s: string)
    requires forall i :: 0 <= i < |s| ==> !Kept(s[i])
    ensures Clean(s) == []
  {
    if s != [] {
      CleanDropsAll(s[1..]);
    }
  }

  /** Cleaning is idempotent. */
  lemma CleanIdempotent(s: string)
    ensures Clean(Clean(s)) == Clean(s)
  {
    CleanKeepsCleanString(Clean(s));
  }

  /** The longest run of digits at the start of `s`. */
  function LeadingDigits(s: string): (r: string)
    ensures |r| <= |s| && r == s[..|r|] && AllDigits(r)
    ensures |r| < |s| ==> !IsDigit(s[|r|])
  {
    if s != [] && IsDigit(s[0]) then [s[0]] + LeadingDigits(s[1..]) else []
  }

  function Pow10(n: nat): (p: nat)
    ensures p >= 1
  {
    if n == 0 then 1 else 10 * Pow10(n - 1)
  }

  /**
   `parseFloat(cleaned) || 0` on a cleaned string: the longest prefix of the
   form digits [ "." digits ] read as an exact decimal, or 0 when that prefix
   holds no digit (parseFloat gives NaN, which `|| 0` replaces).
   */
  function ParseCleaned(c: string): (r: real)
    ensures r >= 0.0
  {
    var whole := LeadingDigits(c);
    var rest := c[|whole|..];
    var fraction := if rest != [] && rest[0] == '.' then LeadingDigits(rest[1..]) else [];
    (DigitsValue(whole) as real) + (DigitsValue(fraction) as real) / (Pow10(|fraction|) as real)
  }

  /** `parseCurrency(s)`: clean the string, then read the number at its start. */
  function ParseCurrency(s: string): (r: real)
    ensures r >= 0.0
    ensures (forall i :: 0 <= i < |Clean(s)| ==> !IsDigit(Clean(s)[i])) ==> r == 0.0
  {
    var c := Clean(s);
    var whole := LeadingDigits(c);
    assert |whole| > 0 ==> IsDigit(c[0]);
    ParseCleaned(c)
  }

  /** An amount whose digits and dots spell out a whole number is read back as that number. */
  lemma ParseCurrencyReadsWholeNumber(s: string, n: nat)
    requires Clean(s) == NatToString(n)
    ensures ParseCurrency(s) == n as real
  {
    var c := NatToString(n);
    AllDigitsLeading(c);
    DigitsValueOfNatToString(n);
    assert c[|c|..] == [];
    assert ParseCleaned(c) == (n as real) + (0 as real) / (1 as real);
  }

  lemma {:induction false} AllDigitsLeading(s: string)
    requires AllDigits(s)
    ensures LeadingDigits(s) == s
  {
    if s != [] {
      AllDigitsLeading(s[1..]);
    }
  }

  // ---------------------------------------------------------------------------
  // timeUntilDate

  /** The label `timeUntilDate` chooses, before it is rendered as text. */
  datatype TimeLeft = Expired | Days(days: int) | Weeks(weeks: int) | Months(months: int)

  /**
   `timeUntilDate`, given `diff = target - now` in milliseconds: "Expired" in
   the past, else the whole days rounded up, shown in days below a week, in
   weeks (rounded up) below thirty days, and in months (of 30 days, rounded
   up) beyond.
   */
  function TimeUntil(diff: int): (t: TimeLeft)
    ensures t == Expired <==> diff < 0
    ensures t == Days(0) <==> diff == 0
    ensures t == Days(1) <==> 0 < diff <= MsPerDay
    ensures t.Days? <==> 0 <= diff <= 6 * MsPerDay
    ensures t.Days? ==> 0 <= t.days <= 6 && (t.days - 1) * MsPerDay < diff <= t.days * MsPerDay
    ensures t.Weeks? <==> 6 * MsPerDay < diff <= 29 * MsPerDay
    ensures t.Weeks? ==> 1 <= t.weeks <= 5 && (t.weeks - 1) * 7 * MsPerDay < diff <= t.weeks * 7 * MsPerDay
    ensures t.Months? <==> 29 * MsPerDay < diff
    ensures t.Months? ==> t.months >= 1 && (t.months - 1) * 30 * MsPerDay < diff <= t.months * 30 * MsPerDay
  {
    if diff < 0 then Expired
    else
      var days := CeilDiv(diff, MsPerDay);
      DayCount(diff, days, 1);
      DayCount(diff, days, 6);
      DayCount(diff, days, 29);
      if days == 1 then Days(1)
      else if days < 7 then Days(days)
      else if days < 30 then NestedCeil(diff, MsPerDay, 7); Weeks(CeilDiv(days, 7))
      else NestedCeil(diff, MsPerDay, 30); Months(CeilDiv(days, 30))
  }

  /** Whole days rounded up are at most `k` exactly when the difference is at most `k` days. */
  lemma DayCount(diff: int, days: int, k: int)
    requires (days - 1) * MsPerDay < diff <= days * MsPerDay
    ensures days <= k <==> diff <= k * MsPerDay
  {
    if days <= k {
      MulMonotone(days, k, MsPerDay);
    } else {
      MulMonotone(k, days - 1, MsPerDay);
    }
  }

  /** Rounding up to whole units and then to whole groups of k units is rounding up to whole groups. */
  lemma NestedCeil(diff: int, unit: int, k: int)
    requires unit > 0 && k > 0
    ensures var groups := CeilDiv(CeilDiv(diff, unit), k);
      (groups - 1) * k * unit < diff <= groups * k * unit
  {
    var units := CeilDiv(diff, unit);
    var groups := CeilDiv(units, k);
    assert (groups - 1) * k < units <= groups * k;
    assert (groups - 1) * k <= units - 1;
    MulMonotone((groups - 1) * k, units - 1, unit);
    MulMonotone(units, groups * k, unit);
    assert (groups - 1) * k * unit <= (units - 1) * unit;
    assert units * unit <= groups * k * unit;
  }

  predicate EndsWith(s: string, suffix: string) {
    |suffix| <= |s| && s[|s| - |suffix|..] == suffix
  }

  /** A count followed by a plural unit; it is never "Expired", which does not end in 's'. */
  function WithUnit(n: int, unit: string): (s: string)
    requires |unit| > 0 && unit[|unit| - 1] == 's'
    ensures EndsWith(s, unit) && s != "Expired"
  {
    var s := IntToString(n) + unit;
    assert s[|s| - |unit|..] == unit;
    assert s[|s| - 1] == 's';
    s
  }

  /** The label `timeUntilDate` shows: "Expired", or a count with its unit, "day" alone in the singular. */
  function Render(t: TimeLeft): (s: string)
    ensures s == "Expired" <==> t.Expired?
    ensures t.Days? && t.days == 1 ==> s == "1 day"
    ensures t.Days? && t.days != 1 ==> EndsWith(s, " days")
    ensures t.Weeks? ==> EndsWith(s, " weeks")
    ensures t.Months? ==> EndsWith(s, " months")
  {
    match t
    case Expired => "Expired"
    case Days(n) => if n == 1 then "1 day" else WithUnit(n, " days")
    case Weeks(n) => WithUnit(n, " weeks")
    case Months(n) => WithUnit(n, " months")
  }

  /** The count a label carries. */
  function Count(t: TimeLeft): int
    requires !t.Expired?
  {
    match t
    case Days(n) => n
    case Weeks(n) => n
    case Months(n) => n
  }

  /** A count followed by a unit word reads back, with `parseCurrency`, as the count. */
  lemma CountWithUnitReadsBack(n: nat, unit: string)
    requires forall i :: 0 <= i < |unit| ==> !Kept(unit[i])
    ensures ParseCurrency(NatToString(n) + unit) == n as real
  {
    CleanAppend(NatToString(n), unit);
    CleanKeepsCleanString(NatToString(n));
    CleanDropsAll(unit);
    ParseCurrencyReadsWholeNumber(NatToString(n) + unit, n);
  }

  /** The number shown in a rendered label, read back with `parseCurrency`, is the label's count. */
  lemma RenderShowsCount(t: TimeLeft)
    requires !t.Expired? && Count(t) >= 0
    ensures ParseCurrency(Render(t)) == Count(t) as real
  {
    match t
    case Days(n) =>
      if n == 1 {
        assert NatToString(1) == "1";
        assert Render(t) == NatToString(1) + " day";
        CountWithUnitReadsBack(1, " day");
      } else {
        CountWithUnitReadsBack(n, " days");
      }
    case Weeks(n) =>
      CountWithUnitReadsBack(n, " weeks");
    case Months(n) =>
      CountWithUnitReadsBack(n, " months");
  }

  /** Every label `timeUntilDate` produces for a date not yet passed shows a count that reads back as itself. */
  lemma TimeUntilLabelReadsBack(diff: int)
    requires diff >= 0
    ensures var t := TimeUntil(diff); !t.Expired? && ParseCurrency(Render(t)) == Count(t) as real
  {
    RenderShowsCount(TimeUntil(diff));
  }
}
