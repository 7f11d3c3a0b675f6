/**
 The financial-literacy routes: the module catalogue per language with its
 English fallback, and the two calculators. The lesson bodies (texts,
 videos, quizzes) are static content and are represented by their titles.
 */
module Education {
  import opened Js

  /** A learning module: its id, title and description. */
  datatype Module = Module(id: int, title: string, description: string)

  const EnglishModules: seq<Module> := [
    Module(1, "Understanding Stokvels", "Learn the basics of traditional South African savings groups"),
    Module(2, "Digital Payments with MoMo", "Master mobile money transactions and digital financial services"),
    Module(3, "Building Credit and Savings", "Learn how to build a strong financial foundation")
  ]

  /** The catalogue: English in full, isiZulu and isiXhosa with their first module only. */
  const Catalogue: map<string, seq<Module>> := map[
    "en" := EnglishModules,
    "zu" := [Module(1, "Ukuqonda Ama-Stokvel", "Funda izisekelo zamaqembu okonga aseNingizimu Afrika")],
    "xh" := [Module(1, "Ukuqonda ii-Stokvel", "Funda iziseko zamaqela okonga aseMzantsi Afrika")]
  ]

  /** `educationContent[req.query.lang || 'en'] || educationContent.en`. */
  function ModulesFor(lang: Option<string>): (modules: seq<Module>)
    ensures var key := StrOr(lang, "en");
      modules == if key in Catalogue then Catalogue[key] else EnglishModules
    ensures !StrTruthy(lang) ==> modules == EnglishModules
  {
    var key := StrOr(lang, "en");
    if key in Catalogue then Catalogue[key] else EnglishModules
  }

  /** The first module of `modules` whose id is `id`, as `Array.prototype.find` returns it. */
  function FindModule(modules: seq<Module>, id: int): (r: Option<Module>)
    ensures r.None? <==> forall i :: 0 <= i < |modules| ==> modules[i].id != id
    ensures r.Some? ==> r.value in modules && r.value.id == id
    ensures r.Some? ==> exists i :: 0 <= i < |modules| && modules[i] == r.value
                                    && forall j :: 0 <= j < i ==> modules[j].id != id
  {
    match FindIndex(modules, (m: Module) => m.id == id)
    case None => None
    case Some(i) => Some(modules[i])
  }

  datatype Lookup = Found(entry: Module) | NotFound

  /** `GET /modules/:id?lang=`: the module with that id in the chosen language's list, or 404. */
  function ModuleById(lang: Option<string>, id: int): (r: Lookup)
    ensures r.NotFound? <==> forall m :: m in ModulesFor(lang) ==> m.id != id
    ensures r.Found? ==> r.entry in ModulesFor(lang) && r.entry.id == id
  {
    match FindModule(ModulesFor(lang), id)
    case Some(m) => Found(m)
    case None => NotFound
  }

  /** A language without a catalogue entry is served the English list, for listing and for lookup alike. */
  lemma UnknownLanguageFallsBack(lang: string, id: int)
    requires lang !in Catalogue
    ensures ModulesFor(Some(lang)) == EnglishModules
    ensures ModuleById(Some(lang), id) == ModuleById(None, id)
  {
  }

  /** The fallback is per language, not per module: isiZulu has no module 2 although English does. */
  lemma NoPerModuleFallback()
    ensures ModuleById(Some("zu"), 2) == NotFound
    ensures ModuleById(Some("en"), 2).Found?
  {
    assert ModulesFor(Some("zu")) == Catalogue["zu"];
    assert ModulesFor(Some("en"))[1].id == 2;
  }

  // ---------------------------------------------------------------------------
  // Calculators

  /** One slot of the rotation: which member is paid, in which month, how much. */
  datatype Payout = Payout(member: int, month: int, amount: int)

  datatype StokvelProjection = StokvelProjection(
    totalPool: int, individualTotal: int, rotationAmount: int, payoutSchedule: seq<Payout>)

  /** `new Array(len)`, which `Array.from` calls, throws a RangeError for a length of 2^32 or more. */
  const ArrayLengthLimit: int := 0x1_0000_0000

  /** The rotation's slots in order: slot i pays member i + 1 in month i + 1; a negative count gives none. */
  function Slots(members: int, rotationAmount: int): (s: seq<Payout>)
    ensures |s| == if members < 0 then 0 else members
    ensures forall i :: 0 <= i < |s| ==> s[i] == Payout(i + 1, i + 1, rotationAmount)
  {
    if members <= 0 then [] else Slots(members - 1, rotationAmount) + [Payout(members, members, rotationAmount)]
  }

  /**
   `Array.from({length: members}, (_, i) => ...)`: one slot per member, or
   None when the length is too large for an array and the call throws.
   */
  function PayoutSchedule(members: int, rotationAmount: int): (r: Option<seq<Payout>>)
    ensures r.None? <==> members >= ArrayLengthLimit
    ensures r.Some? ==> |r.value| == if members < 0 then 0 else members
    ensures r.Some? ==> forall i :: 0 <= i < |r.value| ==> r.value[i] == Payout(i + 1, i + 1, rotationAmount)
  {
    if members >= ArrayLengthLimit then None else Some(Slots(members, rotationAmount))
  }

  function TotalPaidOut(s: seq<Payout>): int {
    if s == [] then 0 else TotalPaidOut(s[..|s| - 1]) + s[|s| - 1].amount
  }

  /**
   `POST /calculate/stokvel`. The route has no try/catch, so a schedule too
   long for an array ends the request with Express's 500, modelled as None.
   */
  function ProjectStokvel(members: int, monthlyContribution: int, duration: int): (r: Option<StokvelProjection>)
    ensures r.None? <==> members >= ArrayLengthLimit
    ensures r.Some? ==>
      var p := r.value;
      && p.rotationAmount == members * monthlyContribution
      && p.individualTotal == monthlyContribution * duration
      && p.totalPool == p.rotationAmount * duration == members * p.individualTotal
      && Some(p.payoutSchedule) == PayoutSchedule(members, p.rotationAmount)
  {
    var rotationAmount := members * monthlyContribution;
    assert members * monthlyContribution * duration == members * (monthlyContribution * duration);
    match PayoutSchedule(members, rotationAmount)
    case None => None
    case Some(schedule) =>
      Some(StokvelProjection(members * monthlyContribution * duration, monthlyContribution * duration,
                             rotationAmount, schedule))
  }

  /** Over one full rotation every member is paid out once, so the payouts add up to members times the rotation amount. */
  lemma {:induction false} ScheduleTotal(members: nat, rotationAmount: int)
    ensures TotalPaidOut(Slots(members, rotationAmount)) == members * rotationAmount
  {
    if members > 0 {
      var s := Slots(members, rotationAmount);
      var prev := Slots(members - 1, rotationAmount);
      assert TotalPaidOut(s) == TotalPaidOut(prev) + rotationAmount by {
        assert s == prev + [Payout(members, members, rotationAmount)];
        assert s[..|s| - 1] == prev && s[|s| - 1].amount == rotationAmount;
      }
      ScheduleTotal(members - 1, rotationAmount);
      assert members * rotationAmount == (members - 1) * rotationAmount + rotationAmount;
    }
  }

  /** One full rotation pays out what all members contribute in a month, times the group size. */
  lemma RotationPaysOutPool(members: nat, monthlyContribution: int)
    ensures var r := ProjectStokvel(members, monthlyContribution, members);
      members < ArrayLengthLimit ==> r.Some? && TotalPaidOut(r.value.payoutSchedule) == r.value.totalPool
  {
    ScheduleTotal(members, members * monthlyContribution);
  }

  // ---------------------------------------------------------------------------
  // Savings calculator

  /** `x ** n` for a natural exponent. */
  function Power(x: real, n: nat): real {
    if n == 0 then 1.0 else x * Power(x, n - 1)
  }

  lemma {:induction false} PowerNonZero(x: real, n: nat)
    requires x != 0.0
    ensures Power(x, n) != 0.0
  {
    if n > 0 {
      PowerNonZero(x, n - 1);
    }
  }

  /**
   `x ** n` for any whole exponent: a negative one divides 1 by the power, and
   `0 ** n` for negative `n` is Infinity, represented by None.
   */
  function IntPower(x: real, n: int): (r: Option<real>)
    ensures r.None? <==> x == 0.0 && n < 0
    ensures n >= 0 ==> r == Some(Power(x, n))
    ensures r.Some? && n < 0 ==> r.value * Power(x, -n) == 1.0
  {
    if n >= 0 then Some(Power(x, n))
    else if x == 0.0 then None
    else
      PowerNonZero(x, -n);
      Some(1.0 / Power(x, -n))
  }

  /** The balance of `n` monthly deposits of 1 growing at `rate` a month: the sum of (1 + rate)^k for k < n. */
  function AnnuitySum(rate: real, n: nat): real {
    if n == 0 then 0.0 else AnnuitySum(rate, n - 1) + Power(1.0 + rate, n - 1)
  }

  datatype Savings = Savings(totalContributions: int, futureValue: Option<real>, interestEarned: Option<real>)

  /**
   `POST /calculate/savings` for a whole number of months, which the route
   does not check, so it may be negative. `interestRate` is the annual
   percentage (absent or 0 means 0). The future value is
   `monthlyAmount * (((1 + rate) ** months - 1) / rate)` with no guard for a
   zero rate, where the division is 0/0 = NaN; and at a rate of -1200 percent
   a negative month count raises 0 to a negative power, which is Infinity,
   so the future value is infinite or NaN. None stands for those values
   (JSON null), and the interest earned, computed from the future value, is
   then non-finite as well.
   */
  function CalculateSavings(monthlyAmount: int, months: int, interestRate: Option<real>): (r: Savings)
    ensures r.totalContributions == monthlyAmount * months
    ensures r.futureValue.None? <==>
      !RealTruthy(interestRate) || (months < 0 && interestRate.value == -1200.0)
    ensures r.interestEarned.None? <==> r.futureValue.None?
    ensures r.futureValue.Some? ==>
      r.interestEarned.value == r.futureValue.value - (r.totalContributions as real)
  {
    var total := monthlyAmount * months;
    var fv := FutureValue(monthlyAmount, months, MonthlyRate(interestRate));
    Savings(total, fv, if fv.Some? then Some(fv.value - (total as real)) else None)
  }

  /** `(interestRate || 0) / 100 / 12`: the monthly rate of an annual percentage. */
  function MonthlyRate(interestRate: Option<real>): (rate: real)
    ensures rate * 1200.0 == RealOr(interestRate, 0.0)
  {
    RealOr(interestRate, 0.0) / 100.0 / 12.0
  }

  /** `monthlyAmount * (((1 + rate) ** months - 1) / rate)` at a monthly rate; None when it is not finite. */
  function FutureValue(monthlyAmount: int, months: int, rate: real): (r: Option<real>)
    ensures r.None? <==> rate == 0.0 || (months < 0 && rate == -1.0)
  {
    if rate == 0.0 then None
    else match IntPower(1.0 + rate, months)
      case None => None
      case Some(grown) => Some((monthlyAmount as real) * ((grown - 1.0) / rate))
  }

  /** The closed formula is the sum of the deposits' compounded values: ((1+r)^n - 1) / r is the annuity sum. */
  lemma {:induction false} ClosedFormIsAnnuitySum(rate: real, n: nat)
    requires rate != 0.0
    ensures (Power(1.0 + rate, n) - 1.0) / rate == AnnuitySum(rate, n)
  {
    if n > 0 {
      ClosedFormIsAnnuitySum(rate, n - 1);
      var p := Power(1.0 + rate, n - 1);
      assert Power(1.0 + rate, n) == (1.0 + rate) * p;
      AnnuityStep(rate, p, AnnuitySum(rate, n - 1));
    }
  }

  /** One more month: if q is (p - 1) / rate, then ((1 + rate) p - 1) / rate is q + p. */
  lemma AnnuityStep(rate: real, p: real, q: real)
    requires rate != 0.0 && q == (p - 1.0) / rate
    ensures ((1.0 + rate) * p - 1.0) / rate == q + p
  {
    assert q * rate == p - 1.0;
    assert (1.0 + rate) * p - 1.0 == (q + p) * rate;
  }

  /** With a non-zero rate the future value is the monthly amount times the annuity sum. */
  lemma FutureValueIsAnnuity(monthlyAmount: int, months: nat, interestRate: real)
    requires interestRate != 0.0
    ensures var sv := CalculateSavings(monthlyAmount, months, Some(interestRate));
      sv.futureValue.Some? && sv.futureValue.value == (monthlyAmount as real) * AnnuitySum(interestRate / 1200.0, months)
  {
    var rate := interestRate / 100.0 / 12.0;
    assert rate != 0.0 && rate == interestRate / 1200.0;
    var sum := AnnuitySum(rate, months);
    ClosedFormIsAnnuitySum(rate, months);
    var sv := CalculateSavings(monthlyAmount, months, Some(interestRate));
    assert sv.futureValue.value == (monthlyAmount as real) * ((Power(1.0 + rate, months) - 1.0) / rate);
    assert sv.futureValue.value == (monthlyAmount as real) * sum;
  }

  /**
   At a zero rate the formula gives NaN, not the `monthlyAmount * months` a
   guard would give: the 12-month, 1000-a-month example has no future value.
   */
  lemma ZeroRateHasNoFutureValue()
    ensures CalculateSavings(1000, 12, None) == Savings(12000, None, None)
    ensures CalculateSavings(1000, 12, Some(0.0)).futureValue.None?
  {
  }

  /**
   A negative month count discounts instead of compounding: the future value
   over -n months is minus the annuity sum over n months divided by n months'
   growth.
   */
  lemma NegativeMonthsDiscount(monthlyAmount: int, n: nat, interestRate: real)
    requires interestRate != 0.0 && interestRate != -1200.0
    ensures var rate := MonthlyRate(Some(interestRate));
      var sv := CalculateSavings(monthlyAmount, -(n as int), Some(interestRate));
      && Power(1.0 + rate, n) != 0.0
      && sv.futureValue == Some(Discounted(monthlyAmount, rate, n))
  {
    FutureValueOfNegativeMonths(monthlyAmount, n, MonthlyRate(Some(interestRate)));
  }

  /** Minus the annuity sum of n deposits, divided by n months' growth. */
  function Discounted(monthlyAmount: int, rate: real, n: nat): real
    requires Power(1.0 + rate, n) != 0.0
  {
    -(monthlyAmount as real) * AnnuitySum(rate, n) / Power(1.0 + rate, n)
  }

  /** FutureValue over -n months, at a monthly rate, is the discounted annuity sum. */
  lemma FutureValueOfNegativeMonths(monthlyAmount: int, n: nat, rate: real)
    requires rate != 0.0 && rate != -1.0
    ensures Power(1.0 + rate, n) != 0.0
    ensures FutureValue(monthlyAmount, -(n as int), rate) == Some(Discounted(monthlyAmount, rate, n))
  {
    var p := Power(1.0 + rate, n);
    var m := monthlyAmount as real;
    NegativePower(1.0 + rate, n);
    var g := IntPower(1.0 + rate, -(n as int));
    assert g.Some? && g.value == 1.0 / p;
    var fv := FutureValue(monthlyAmount, -(n as int), rate);
    assert fv.Some? && fv.value == m * ((g.value - 1.0) / rate);
    ClosedFormIsAnnuitySum(rate, n);
    DiscountStep(m, p, rate, AnnuitySum(rate, n));
    var x := Discounted(monthlyAmount, rate, n);
    assert fv.value == x;
  }

  /** A negative power of a non-zero base is the reciprocal of the positive one. */
  lemma NegativePower(x: real, n: nat)
    requires x != 0.0
    ensures Power(x, n) != 0.0 && IntPower(x, -(n as int)) == Some(1.0 / Power(x, n))
  {
    PowerNonZero(x, n);
    if n == 0 {
      assert IntPower(x, 0) == Some(Power(x, 0));
    }
  }

  /** The algebra of one discounted value: with sum = (p - 1) / rate, (1/p - 1) / rate is -sum / p. */
  lemma DiscountStep(m: real, p: real, rate: real, sum: real)
    requires p != 0.0 && rate != 0.0 && sum == (p - 1.0) / rate
    ensures m * ((1.0 / p - 1.0) / rate) == -m * sum / p
  {
    var q := (1.0 / p - 1.0) / rate;
    var d := -sum / p;
    assert q * rate == 1.0 / p - 1.0;
    assert sum * rate == p - 1.0;
    assert d * p == -sum;
    assert d * rate * p == -(p - 1.0);
    assert d * rate == 1.0 / p - 1.0;
    assert q == d;
  }
}
