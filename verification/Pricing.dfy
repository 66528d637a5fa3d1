/** Cost totals (packages/kernel/src/costing.ts) and the client price made of them (packages/kernel/src/h203-commercial-policy.ts). */
module Pricing {
  import opened Options

  datatype Category = Accommodation | Transport | Activities | AvEvents | ParkFeesMisc | Other

  const COST_LINE_CATEGORIES := [Accommodation, Transport, Activities, AvEvents, ParkFeesMisc, Other]

  datatype CostLine = CostLine(category: Category, lineTotal: real)

  datatype Totals = Totals(
    totalCost: real, sellPrice: real, marginPercent: real, marginAmount: real, perPerson: Option<real>,
    categoryTotals: map<Category, real>)

  // ---------------------------------------------------------------- cents

  /** `Math.round`: to the nearest whole number, halves up. */
  function Round(x: real): int {
    (x + 0.5).Floor
  }

  function RoundMoney(x: real): real {
    Round(x * 100.0) as real / 100.0
  }

  predicate WholeCents(x: real) {
    x * 100.0 == (x * 100.0).Floor as real
  }

  lemma CentsOf(n: int)
    ensures n as real / 100.0 * 100.0 == n as real && WholeCents(n as real / 100.0)
  {
    var x := n as real / 100.0;
    assert x * 100.0 == n as real;
    assert (n as real).Floor == n;
  }

  /** Rounding gives whole cents at most half a cent away, and leaves whole cents alone. */
  lemma RoundMoneyNearest(x: real)
    ensures WholeCents(RoundMoney(x)) && x - 0.005 < RoundMoney(x) <= x + 0.005
    ensures WholeCents(x) ==> RoundMoney(x) == x
  {
    CentsOf(Round(x * 100.0));
    RoundWithin(x * 100.0);
  }

  lemma RoundWithin(y: real)
    ensures y - 0.5 < Round(y) as real <= y + 0.5
    ensures y == y.Floor as real ==> Round(y) as real == y
  {
    var n := Round(y);
    assert n as real <= y + 0.5 < (n + 1) as real == n as real + 1.0;
    if y == y.Floor as real {
      WholeRounds(y.Floor);
    }
  }

  lemma WholeRounds(n: int)
    ensures Round(n as real) == n
  {
    assert n as real <= n as real + 0.5 < (n + 1) as real;
  }

  lemma CentsAdd(x: real, y: real)
    requires WholeCents(x) && WholeCents(y)
    ensures WholeCents(x + y) && WholeCents(x - y)
  {
    var n, m := (x * 100.0).Floor, (y * 100.0).Floor;
    assert (x + y) * 100.0 == (n + m) as real && (x - y) * 100.0 == (n - m) as real;
    assert ((n + m) as real).Floor == n + m && ((n - m) as real).Floor == n - m;
  }

  function ComputeLineTotal(quantity: real, unitCost: real): real {
    Round(quantity * unitCost * 100.0) as real / 100.0
  }

  lemma LineTotalIsCents(quantity: real, unitCost: real)
    ensures WholeCents(ComputeLineTotal(quantity, unitCost))
  {
    var n := Round(quantity * unitCost * 100.0);
    assert ComputeLineTotal(quantity, unitCost) * 100.0 == n as real;
    assert (n as real).Floor == n;
  }

  // ---------------------------------------------------------------- totals

  function Sum(lines: seq<CostLine>): real {
    if lines == [] then 0.0 else Sum(lines[..|lines| - 1]) + lines[|lines| - 1].lineTotal
  }

  /** The exact sum of a category's lines. */
  function SumOf(lines: seq<CostLine>, c: Category): real {
    if lines == [] then 0.0
    else
      var last := lines[|lines| - 1];
      SumOf(lines[..|lines| - 1], c) + (if last.category == c then last.lineTotal else 0.0)
  }

  /** What the loop accumulates for a category: a sum that is rounded after every line. */
  function CategoryTotal(lines: seq<CostLine>, c: Category): real {
    if lines == [] then 0.0
    else
      var last, before := lines[|lines| - 1], CategoryTotal(lines[..|lines| - 1], c);
      if last.category == c then RoundMoney(before + last.lineTotal) else before
  }

  function Total(lines: seq<CostLine>): real {
    RoundMoney(Sum(lines))
  }

  function SellPrice(totalCost: real, markupPercent: Option<real>, sellPriceOverride: Option<real>): real {
    if sellPriceOverride.Some? then RoundMoney(sellPriceOverride.value)
    else if markupPercent.Some? then Round(totalCost * (1.0 + markupPercent.value / 100.0) * 100.0) as real / 100.0
    else totalCost
  }

  function Percent(margin: real, price: real): real {
    if price > 0.0 then Round(margin / price * 10000.0) as real / 100.0 else 0.0
  }

  function PerPerson(price: real, paxCount: Option<int>): Option<real> {
    if paxCount.Some? && paxCount.value > 0 then Some(RoundMoney(price / paxCount.value as real)) else None
  }

  method ComputeCostTotals(lines: seq<CostLine>, markupPercent: Option<real>, sellPriceOverride: Option<real>, paxCount: Option<int>)
    returns (r: Totals)
    ensures r.totalCost == Total(lines)
    ensures forall c :: c in r.categoryTotals && r.categoryTotals[c] == CategoryTotal(lines, c)
    ensures r.sellPrice == SellPrice(r.totalCost, markupPercent, sellPriceOverride)
    ensures r.marginAmount == RoundMoney(r.sellPrice - r.totalCost)
    ensures r.marginPercent == Percent(r.marginAmount, r.sellPrice)
    ensures r.perPerson == PerPerson(r.sellPrice, paxCount)
  {
    var categoryTotals: map<Category, real> := map c | c in COST_LINE_CATEGORIES :: 0.0;
    var totalCost := 0.0;
    forall c: Category
      ensures c in COST_LINE_CATEGORIES
    {
      AllCategories(c);
    }
    for i := 0 to |lines|
      invariant totalCost == Sum(lines[..i])
      invariant forall c :: c in categoryTotals && categoryTotals[c] == CategoryTotal(lines[..i], c)
    {
      assert lines[..i + 1][..i] == lines[..i];
      var line := lines[i];
      totalCost := totalCost + line.lineTotal;
      categoryTotals := categoryTotals[line.category := RoundMoney(categoryTotals[line.category] + line.lineTotal)];
    }
    assert lines[..|lines|] == lines;
    totalCost := RoundMoney(totalCost);
    var sellPrice := SellPrice(totalCost, markupPercent, sellPriceOverride);
    var marginAmount := RoundMoney(sellPrice - totalCost);
    r := Totals(totalCost, sellPrice, Percent(marginAmount, sellPrice), marginAmount, PerPerson(sellPrice, paxCount), categoryTotals);
  }

  lemma AllCategories(c: Category)
    ensures c in COST_LINE_CATEGORIES
  {
    assert c == COST_LINE_CATEGORIES[0] || c == COST_LINE_CATEGORIES[1] || c == COST_LINE_CATEGORIES[2]
        || c == COST_LINE_CATEGORIES[3] || c == COST_LINE_CATEGORIES[4] || c == COST_LINE_CATEGORIES[5];
  }

  /** The six category totals together. */
  function AllTotals(lines: seq<CostLine>): real {
    CategoryTotal(lines, Accommodation) + CategoryTotal(lines, Transport) + CategoryTotal(lines, Activities)
    + CategoryTotal(lines, AvEvents) + CategoryTotal(lines, ParkFeesMisc) + CategoryTotal(lines, Other)
  }

  lemma {:induction false} SumsAreCents(lines: seq<CostLine>, c: Category)
    requires forall i :: 0 <= i < |lines| ==> WholeCents(lines[i].lineTotal)
    ensures WholeCents(Sum(lines)) && WholeCents(CategoryTotal(lines, c))
    ensures CategoryTotal(lines, c) == SumOf(lines, c)
  {
    if lines != [] {
      var n := |lines| - 1;
      SumsAreCents(lines[..n], c);
      CentsAdd(Sum(lines[..n]), lines[n].lineTotal);
      CentsAdd(CategoryTotal(lines[..n], c), lines[n].lineTotal);
      RoundMoneyNearest(CategoryTotal(lines[..n], c) + lines[n].lineTotal);
    }
  }

  /** Each line counts in one category. */
  lemma {:induction false} CategoriesPartition(lines: seq<CostLine>)
    ensures SumOf(lines, Accommodation) + SumOf(lines, Transport) + SumOf(lines, Activities)
          + SumOf(lines, AvEvents) + SumOf(lines, ParkFeesMisc) + SumOf(lines, Other) == Sum(lines)
  {
    if lines != [] {
      CategoriesPartition(lines[..|lines| - 1]);
    }
  }

  /** With line totals in whole cents nothing is rounded away: categories are exact and add up to the total cost. */
  lemma CategoriesAddUp(lines: seq<CostLine>)
    requires forall i :: 0 <= i < |lines| ==> WholeCents(lines[i].lineTotal)
    ensures forall c :: CategoryTotal(lines, c) == SumOf(lines, c)
    ensures AllTotals(lines) == Total(lines) == Sum(lines)
  {
    forall c
      ensures CategoryTotal(lines, c) == SumOf(lines, c) && WholeCents(Sum(lines))
    {
      SumsAreCents(lines, c);
    }
    SumsAreCents(lines, Other);
    CategoriesPartition(lines);
    RoundMoneyNearest(Sum(lines));
  }

  /** A number of lines of one category with the same amount. */
  function Copies(c: Category, amount: real, n: nat): (lines: seq<CostLine>)
    ensures |lines| == n && forall i :: 0 <= i < n ==> lines[i] == CostLine(c, amount)
  {
    if n == 0 then [] else Copies(c, amount, n - 1) + [CostLine(c, amount)]
  }

  function Times(n: nat, x: real): real {
    if n == 0 then 0.0 else Times(n - 1, x) + x
  }

  lemma {:induction false} TimesAdds(n: nat, x: real, y: real)
    ensures Times(n, x + y) == Times(n, x) + Times(n, y)
  {
    if n > 0 {
      TimesAdds(n - 1, x, y);
    }
  }

  lemma {:induction false} TimesWhole(n: nat, x: real)
    requires WholeCents(x)
    ensures WholeCents(Times(n, x))
  {
    if n > 0 {
      TimesWhole(n - 1, x);
      CentsAdd(Times(n - 1, x), x);
    }
  }

  lemma Distributes(a: real, x: real)
    ensures (a + 1.0) * x == a * x + x
  {
  }

  lemma {:induction false} TimesProduct(n: nat, x: real)
    ensures Times(n, x) == n as real * x
  {
    if n > 0 {
      TimesProduct(n - 1, x);
      Distributes((n - 1) as real, x);
      assert (n - 1) as real + 1.0 == n as real;
    }
  }

  /** Enough copies of any fraction make a cent. */
  lemma Archimedes(fraction: real) returns (n: nat)
    requires fraction > 0.0
    ensures Times(n, fraction) >= 0.01
  {
    var q := 0.01 / fraction;
    Quotient(0.01, fraction, 0.0);
    assert q * fraction == 0.01;
    n := q.Floor + 1;
    TimesProduct(n, fraction);
    Grows(q, n as real, fraction);
  }

  lemma Grows(q: real, n: real, fraction: real)
    requires q <= n && fraction > 0.0
    ensures q * fraction <= n * fraction
  {
    assert (n - q) * fraction >= 0.0;
  }

  lemma {:induction false} SumOfCopies(c: Category, amount: real, n: nat)
    ensures Sum(Copies(c, amount, n)) == Times(n, amount)
  {
    if n > 0 {
      SumOfCopies(c, amount, n - 1);
      assert Copies(c, amount, n)[..n - 1] == Copies(c, amount, n - 1);
    }
  }

  /** Added to whole cents, an amount is rounded on its own. */
  lemma RoundMoneyShifted(whole: real, amount: real)
    requires WholeCents(whole)
    ensures RoundMoney(whole + amount) == whole + RoundMoney(amount)
  {
    var k, y := (whole * 100.0).Floor, amount * 100.0;
    var n := Round(y);
    assert n as real <= y + 0.5 < (n + 1) as real;
    assert (k + n) as real <= k as real + y + 0.5 < (k + n + 1) as real;
    assert (whole + amount) * 100.0 == k as real + y;
    assert Round(k as real + y) == k + n;
  }

  lemma CategorySnoc(lines: seq<CostLine>, line: CostLine, d: Category)
    ensures CategoryTotal(lines + [line], d) ==
      if line.category == d then RoundMoney(CategoryTotal(lines, d) + line.lineTotal) else CategoryTotal(lines, d)
  {
    assert (lines + [line])[..|lines|] == lines;
  }

  /** The category rounds each copy on its own. */
  lemma {:induction false} CategoryOfCopies(c: Category, amount: real, n: nat)
    ensures CategoryTotal(Copies(c, amount, n), c) == Times(n, RoundMoney(amount))
  {
    if n > 0 {
      CategoryOfCopies(c, amount, n - 1);
      CategorySnoc(Copies(c, amount, n - 1), CostLine(c, amount), c);
      OneCopyMore(n, amount);
    }
  }

  lemma {:induction false} OtherCategories(c: Category, amount: real, n: nat, d: Category)
    requires d != c
    ensures CategoryTotal(Copies(c, amount, n), d) == 0.0
  {
    if n > 0 {
      OtherCategories(c, amount, n - 1, d);
      CategorySnoc(Copies(c, amount, n - 1), CostLine(c, amount), d);
    }
  }

  lemma OneCopyMore(n: nat, amount: real)
    requires n > 0
    ensures RoundMoney(Times(n - 1, RoundMoney(amount)) + amount) == Times(n, RoundMoney(amount))
  {
    RoundMoneyNearest(amount);
    TimesWhole(n - 1, RoundMoney(amount));
    RoundMoneyShifted(Times(n - 1, RoundMoney(amount)), amount);
  }

  lemma AllOfCopies(c: Category, amount: real, n: nat)
    ensures AllTotals(Copies(c, amount, n)) == Times(n, RoundMoney(amount))
  {
    forall d
      ensures CategoryTotal(Copies(c, amount, n), d) == if d == c then Times(n, RoundMoney(amount)) else 0.0
    {
      if d == c {
        CategoryOfCopies(c, amount, n);
      } else {
        OtherCategories(c, amount, n, d);
      }
    }
  }

  /** The total of copies is what their category has and the rounded sum of what each copy is off. */
  lemma TotalOfCopies(c: Category, amount: real, n: nat)
    ensures Total(Copies(c, amount, n)) == Times(n, RoundMoney(amount)) + RoundMoney(Times(n, amount - RoundMoney(amount)))
  {
    var rounded := RoundMoney(amount);
    SumOfCopies(c, amount, n);
    TimesAdds(n, rounded, amount - rounded);
    RoundMoneyNearest(amount);
    TimesWhole(n, rounded);
    RoundMoneyShifted(Times(n, rounded), Times(n, amount - rounded));
    assert rounded + (amount - rounded) == amount;
  }

  lemma {:induction false} TimesNegative(n: nat, x: real)
    ensures Times(n, -x) == -Times(n, x)
  {
    if n > 0 {
      TimesNegative(n - 1, x);
    }
  }

  /** An amount that is off its rounding by some fraction of a cent: enough copies show it in the total. */
  lemma FractionShows(c: Category, amount: real) returns (n: nat)
    requires !WholeCents(amount)
    ensures AllTotals(Copies(c, amount, n)) != Total(Copies(c, amount, n))
  {
    var off := amount - RoundMoney(amount);
    RoundMoneyNearest(amount);
    n := Archimedes(if off > 0.0 then off else -off);
    TimesNegative(n, off);
    AllOfCopies(c, amount, n);
    TotalOfCopies(c, amount, n);
    RoundMoneyNearest(Times(n, off));
  }

  /** The amount may be on any number of lines of the category without losing anything. */
  ghost predicate SafeAmount(c: Category, amount: real) {
    forall n: nat :: AllTotals(Copies(c, amount, n)) == Total(Copies(c, amount, n))
  }

  /** The categories add up to the total for every number of lines with an amount exactly when the amount is in whole cents. */
  lemma AddsUpIffWholeCents(c: Category, amount: real)
    ensures SafeAmount(c, amount) <==> WholeCents(amount)
  {
    if WholeCents(amount) {
      forall n: nat
        ensures AllTotals(Copies(c, amount, n)) == Total(Copies(c, amount, n))
      {
        CategoriesAddUp(Copies(c, amount, n));
      }
    } else {
      var n := FractionShows(c, amount);
    }
  }

  // ---------------------------------------------------------------- the client price

  datatype TaxMode = NoTax | TaxRate | TaxAmount

  datatype PriceInput = PriceInput(
    lines: seq<CostLine>,
    currency: string,
    markupPercent: Option<real>,
    sellPriceOverride: Option<real>,
    paxCount: Option<int>,
    fileFeeAmount: Option<real>,
    taxMode: Option<TaxMode>,
    taxRatePercent: Option<real>,
    taxAmountEntered: Option<real>
  )

  datatype Composition = Composition(
    totalCost: real,
    baseSellPrice: real,
    fileFeeAmount: real,
    fileFeeIncorporated: bool,
    taxMode: TaxMode,
    taxAmount: real,
    clientSellingPrice: real,
    marginAmount: real,
    marginPercent: real,
    markupPercentApplied: Option<real>,
    perPerson: Option<real>
  )

  const H203_DEFAULT_MARKUP_PERCENT := 25.0
  const H203_APPROVED_MARGIN_FLOOR_PERCENT := 15.0
  const H203_FILE_FEE_USD := 200.0

  /** A text whose upper-case form is `USD`; the long s is an S in upper case. */
  predicate IsUsd(currency: string) {
    && |currency| == 3
    && (currency[0] == 'U' || currency[0] == 'u')
    && (currency[1] == 'S' || currency[1] == 's' || currency[1] == '\U{17F}')
    && (currency[2] == 'D' || currency[2] == 'd')
  }

  function FileFee(currency: string, explicit: Option<real>): real {
    if explicit.Some? then RoundMoney(explicit.value) else if IsUsd(currency) then H203_FILE_FEE_USD else 0.0
  }

  function Markup(input: PriceInput): Option<real> {
    if input.sellPriceOverride.None? && input.markupPercent.None? then Some(H203_DEFAULT_MARKUP_PERCENT) else input.markupPercent
  }

  function Mode(input: PriceInput): TaxMode {
    if input.taxMode.Some? then input.taxMode.value else NoTax
  }

  function TaxOn(base: real, ratePercent: real): real {
    RoundMoney(base * (ratePercent / 100.0))
  }

  function Tax(input: PriceInput, base: real): real {
    if Mode(input).TaxAmount? && input.taxAmountEntered.Some? then RoundMoney(input.taxAmountEntered.value)
    else if Mode(input).TaxRate? && input.taxRatePercent.Some? then TaxOn(base, input.taxRatePercent.value)
    else 0.0
  }

  function Price(input: PriceInput): Composition {
    var totalCost := Total(input.lines);
    var base := SellPrice(totalCost, Markup(input), input.sellPriceOverride);
    PriceOf(input, totalCost, base, FileFee(input.currency, input.fileFeeAmount), Tax(input, base))
  }

  /** The composition of the amounts. */
  function PriceOf(input: PriceInput, totalCost: real, base: real, fee: real, tax: real): Composition {
    var price := if input.sellPriceOverride.Some? then base else RoundMoney(base + fee + tax);
    var profit := RoundMoney(price - totalCost);
    Composition(
      totalCost, base, fee, input.sellPriceOverride.None? && fee > 0.0,
      Mode(input), tax, price, profit, Percent(profit, price), Markup(input), PerPerson(price, input.paxCount))
  }

  /** The cost and the price before fee and tax. */
  method CoreTotals(input: PriceInput, markupPercent: Option<real>) returns (totalCost: real, base: real)
    ensures totalCost == Total(input.lines) && base == SellPrice(totalCost, markupPercent, input.sellPriceOverride)
  {
    var core := ComputeCostTotals(input.lines, markupPercent, input.sellPriceOverride, input.paxCount);
    totalCost, base := core.totalCost, core.sellPrice;
  }

  method ComposeClientPrice(input: PriceInput) returns (r: Composition)
    ensures r == Price(input)
  {
    var markupPercent := if input.sellPriceOverride.None? && input.markupPercent.None?
      then Some(H203_DEFAULT_MARKUP_PERCENT) else input.markupPercent;
    var totalCost, base := CoreTotals(input, markupPercent);
    var taxMode := if input.taxMode.Some? then input.taxMode.value else NoTax;
    var taxAmount := 0.0;
    if taxMode.TaxAmount? && input.taxAmountEntered.Some? {
      taxAmount := RoundMoney(input.taxAmountEntered.value);
    } else if taxMode.TaxRate? && input.taxRatePercent.Some? {
      taxAmount := TaxOn(base, input.taxRatePercent.value);
      assert taxAmount == Tax(input, base);
    }
    var fee := FileFee(input.currency, input.fileFeeAmount);
    var overrideIsFinal := input.sellPriceOverride.Some?;
    var price := if overrideIsFinal then base else RoundMoney(base + fee + taxAmount);
    var profit := RoundMoney(price - totalCost);
    r := Composition(
      totalCost, base, fee, !overrideIsFinal && fee > 0.0, taxMode, taxAmount, price, profit,
      Percent(profit, price), markupPercent, PerPerson(price, input.paxCount));
    assert r == PriceOf(input, totalCost, base, fee, taxAmount);
  }

  // ---------------------------------------------------------------- what the amounts are

  /** The nearest amount in whole cents, half a cent going up. */
  predicate NearestCents(r: real, x: real) {
    WholeCents(r) && x - 0.005 < r <= x + 0.005
  }

  /** There is only one. */
  lemma NearestIsOne(r: real, q: real, x: real)
    requires NearestCents(r, x) && NearestCents(q, x)
    ensures r == q
  {
    var n, m := (r * 100.0).Floor, (q * 100.0).Floor;
    assert -1.0 < (n - m) as real < 1.0;
  }

  lemma HundredthIsNearest(x: real)
    ensures NearestCents(Round(x * 100.0) as real / 100.0, x)
  {
    RoundMoneyNearest(x);
  }

  /** A line's total is quantity times unit cost, to the nearest cent. */
  lemma LineTotalIsProduct(quantity: real, unitCost: real)
    ensures NearestCents(ComputeLineTotal(quantity, unitCost), quantity * unitCost)
  {
    HundredthIsNearest(quantity * unitCost);
  }

  /** The price before fee and tax: the override, the cost with the markup on top, or the cost. */
  predicate SellsFor(price: real, totalCost: real, markupPercent: Option<real>, sellPriceOverride: Option<real>) {
    match (sellPriceOverride, markupPercent)
    case (Some(said), _) => NearestCents(price, said)
    case (None, Some(percent)) => NearestCents(price, totalCost * (1.0 + percent / 100.0))
    case (None, None) => price == totalCost
  }

  lemma SellPriceIsSo(totalCost: real, markupPercent: Option<real>, sellPriceOverride: Option<real>)
    ensures SellsFor(SellPrice(totalCost, markupPercent, sellPriceOverride), totalCost, markupPercent, sellPriceOverride)
  {
    if sellPriceOverride.Some? {
      RoundMoneyNearest(sellPriceOverride.value);
    } else if markupPercent.Some? {
      HundredthIsNearest(totalCost * (1.0 + markupPercent.value / 100.0));
    }
  }

  /** The text spells USD, in whatever case; a long s is an S in upper case. */
  predicate SpellsUsd(currency: string) {
    && |currency| == 3 && currency[0] in ['U', 'u'] && currency[1] in ['S', 's', '\U{17F}'] && currency[2] in ['D', 'd']
  }

  /** The file fee: what is said, else two hundred for US dollars, else none. */
  predicate ChargesFee(fee: real, currency: string, said: Option<real>) {
    match said
    case Some(amount) => NearestCents(fee, amount)
    case None => fee == if SpellsUsd(currency) then 200.0 else 0.0
  }

  /** The tax: the amount entered in amount mode, the rate of the price before fee and tax in rate mode, else none. */
  predicate Taxes(tax: real, input: PriceInput, base: real) {
    match input.taxMode
    case Some(TaxAmount) => if input.taxAmountEntered.Some? then NearestCents(tax, input.taxAmountEntered.value) else tax == 0.0
    case Some(TaxRate) =>
      if input.taxRatePercent.Some? then NearestCents(tax, base * (input.taxRatePercent.value / 100.0)) else tax == 0.0
    case _ => tax == 0.0
  }

  lemma FeeAndTaxAreSo(input: PriceInput, base: real)
    ensures ChargesFee(FileFee(input.currency, input.fileFeeAmount), input.currency, input.fileFeeAmount)
    ensures Taxes(Tax(input, base), input, base)
  {
    if input.fileFeeAmount.Some? {
      RoundMoneyNearest(input.fileFeeAmount.value);
    }
    if input.taxAmountEntered.Some? {
      RoundMoneyNearest(input.taxAmountEntered.value);
    }
    if input.taxRatePercent.Some? {
      RoundMoneyNearest(base * (input.taxRatePercent.value / 100.0));
    }
  }

  /** A share in percent of a price, to the nearest hundredth; none of a price that is not positive. */
  predicate ShareOf(percent: real, margin: real, price: real) {
    if price > 0.0 then NearestCents(percent, margin / price * 100.0) else percent == 0.0
  }

  lemma PercentIsShare(margin: real, price: real)
    ensures ShareOf(Percent(margin, price), margin, price)
  {
    if price > 0.0 {
      HundredthIsNearest(margin / price * 100.0);
      assert margin / price * 10000.0 == margin / price * 100.0 * 100.0;
    }
  }

  predicate PerHead(amount: Option<real>, price: real, paxCount: Option<int>) {
    if paxCount.Some? && paxCount.value > 0 then amount.Some? && NearestCents(amount.value, price / paxCount.value as real) else amount == None
  }

  /**
   * What each amount of a composition is, each to the nearest cent: cost, price before fee and tax with a quarter on top
   * when nothing else is said, fee, tax, final price, margin, its share of the price, and the price per person.
   */
  lemma PriceIsComposed(input: PriceInput)
    ensures var r := Price(input);
      && NearestCents(r.totalCost, Sum(input.lines))
      && r.markupPercentApplied == (if input.sellPriceOverride == None && input.markupPercent == None then Some(25.0) else input.markupPercent)
      && SellsFor(r.baseSellPrice, r.totalCost, r.markupPercentApplied, input.sellPriceOverride)
      && ChargesFee(r.fileFeeAmount, input.currency, input.fileFeeAmount)
      && Taxes(r.taxAmount, input, r.baseSellPrice)
      && r.taxMode == (if input.taxMode.Some? then input.taxMode.value else NoTax)
      && (if input.sellPriceOverride.Some? then r.clientSellingPrice == r.baseSellPrice
          else NearestCents(r.clientSellingPrice, r.baseSellPrice + r.fileFeeAmount + r.taxAmount))
      && NearestCents(r.marginAmount, r.clientSellingPrice - r.totalCost)
      && ShareOf(r.marginPercent, r.marginAmount, r.clientSellingPrice)
      && PerHead(r.perPerson, r.clientSellingPrice, input.paxCount)
      && (r.fileFeeIncorporated <==> input.sellPriceOverride == None && r.fileFeeAmount > 0.0)
  {
    var r := Price(input);
    RoundMoneyNearest(Sum(input.lines));
    SellPriceIsSo(r.totalCost, Markup(input), input.sellPriceOverride);
    FeeAndTaxAreSo(input, r.baseSellPrice);
    RoundMoneyNearest(r.baseSellPrice + r.fileFeeAmount + r.taxAmount);
    RoundMoneyNearest(r.clientSellingPrice - r.totalCost);
    PercentIsShare(r.marginAmount, r.clientSellingPrice);
    PerHeadIsSo(r.clientSellingPrice, input.paxCount);
  }

  lemma PerHeadIsSo(price: real, paxCount: Option<int>)
    ensures PerHead(PerPerson(price, paxCount), price, paxCount)
  {
    if paxCount.Some? && paxCount.value > 0 {
      RoundMoneyNearest(price / paxCount.value as real);
    }
  }

  // ---------------------------------------------------------------- how the amounts add up

  /** Every amount of a composition is in whole cents. */
  lemma AmountsAreCents(input: PriceInput)
    ensures var r := Price(input);
      WholeCents(r.totalCost) && WholeCents(r.baseSellPrice) && WholeCents(r.fileFeeAmount) && WholeCents(r.taxAmount)
      && WholeCents(r.clientSellingPrice)
  {
    var r := Price(input);
    RoundMoneyNearest(Sum(input.lines));
    BaseIsCents(r.totalCost, Markup(input), input.sellPriceOverride);
    FeeAndTaxAreCents(input, r.baseSellPrice);
    RoundMoneyNearest(r.baseSellPrice + r.fileFeeAmount + r.taxAmount);
  }

  lemma BaseIsCents(totalCost: real, markupPercent: Option<real>, sellPriceOverride: Option<real>)
    requires WholeCents(totalCost)
    ensures WholeCents(SellPrice(totalCost, markupPercent, sellPriceOverride))
  {
    if sellPriceOverride.Some? {
      RoundMoneyNearest(sellPriceOverride.value);
    } else if markupPercent.Some? {
      LineTotalIsCents(totalCost, 1.0 + markupPercent.value / 100.0);
    }
  }

  lemma FeeAndTaxAreCents(input: PriceInput, base: real)
    ensures WholeCents(FileFee(input.currency, input.fileFeeAmount)) && WholeCents(Tax(input, base))
  {
    if input.fileFeeAmount.Some? {
      RoundMoneyNearest(input.fileFeeAmount.value);
    }
    if input.taxAmountEntered.Some? {
      RoundMoneyNearest(input.taxAmountEntered.value);
    }
    if input.taxRatePercent.Some? {
      RoundMoneyNearest(base * (input.taxRatePercent.value / 100.0));
    }
  }

  /** Cost and margin make the client price, always; base, fee and tax do exactly when no price overrides them or they cancel out. */
  lemma PriceAddsUp(input: PriceInput)
    ensures var r := Price(input);
      && r.totalCost + r.marginAmount == r.clientSellingPrice
      && (r.clientSellingPrice == r.baseSellPrice + r.fileFeeAmount + r.taxAmount
          <==> input.sellPriceOverride.None? || r.fileFeeAmount + r.taxAmount == 0.0)
  {
    var r := Price(input);
    AmountsAreCents(input);
    CentsAdd(r.clientSellingPrice, r.totalCost);
    RoundMoneyNearest(r.clientSellingPrice - r.totalCost);
    CentsAdd(r.baseSellPrice, r.fileFeeAmount);
    CentsAdd(r.baseSellPrice + r.fileFeeAmount, r.taxAmount);
    RoundMoneyNearest(r.baseSellPrice + r.fileFeeAmount + r.taxAmount);
  }

  // ---------------------------------------------------------------- the margin floor

  predicate MarginMeetsApprovedFloor(marginPercent: real) {
    marginPercent >= H203_APPROVED_MARGIN_FLOOR_PERCENT
  }

  lemma Quotient(a: real, b: real, k: real)
    requires b > 0.0
    ensures a / b >= k <==> a >= k * b
  {
    var q := a / b;
    assert q * b == a;
    if q >= k {
      assert (q - k) * b >= 0.0;
    } else {
      assert (k - q) * b > 0.0;
    }
  }

  /** The rounded percentage reaches 15 exactly when the margin is at least 14.995 percent of the price. */
  lemma FloorAsRatio(margin: real, price: real)
    requires price > 0.0
    ensures MarginMeetsApprovedFloor(Percent(margin, price)) <==> margin >= 0.14995 * price
  {
    Quotient(margin, price, 0.14995);
    var n := Round(margin / price * 10000.0);
    assert n as real / 100.0 >= 15.0 <==> n >= 1500;
    assert n >= 1500 <==> margin / price * 10000.0 + 0.5 >= 1500.0;
  }

  /** A quarter on top of some cents of cost, rounded, and some cents of fee and tax: the margin in whole numbers. */
  lemma QuarterMarkup(cost: nat, extra: nat)
    ensures var price := (5 * cost + 2) / 4 + extra;
      100000 * (price - cost) >= 14995 * price && price > 0 <==> cost >= 2 || extra > 0
  {
    if cost >= 7 {
      assert 4 * ((5 * cost + 2) / 4) >= 5 * cost - 1;
    }
  }

  lemma MarkedUpCents(cost: nat)
    ensures SellPrice(cost as real / 100.0, Some(25.0), None) == ((5 * cost + 2) / 4) as real / 100.0
  {
    var x := cost as real / 100.0 * (1.0 + 25.0 / 100.0) * 100.0;
    assert x == cost as real * 1.25;
    QuarterRounds(cost, x);
  }

  lemma QuarterRounds(cost: nat, x: real)
    requires x == cost as real * 1.25
    ensures Round(x) == (5 * cost + 2) / 4
  {
    var n := (5 * cost + 2) / 4;
    assert 4 * n <= 5 * cost + 2 < 4 * (n + 1);
    assert (4 * n) as real <= (5 * cost + 2) as real < (4 * (n + 1)) as real;
    assert n as real <= x + 0.5 < (n + 1) as real;
  }

  /**
   * With the default markup and no negative amounts, the price meets the approved margin floor exactly when the cost is
   * at least two cents or some fee or tax is added.
   */
  lemma DefaultMarkupMeetsFloor(input: PriceInput)
    requires input.sellPriceOverride.None? && input.markupPercent.None?
    requires var r := Price(input); r.totalCost >= 0.0 && r.fileFeeAmount >= 0.0 && r.taxAmount >= 0.0
    ensures var r := Price(input);
      MarginMeetsApprovedFloor(r.marginPercent) <==> r.totalCost >= 0.02 || r.fileFeeAmount + r.taxAmount > 0.0
  {
    var r := Price(input);
    AmountsAreCents(input);
    PriceAddsUp(input);
    CentsAdd(r.fileFeeAmount, r.taxAmount);
    var cost := (r.totalCost * 100.0).Floor;
    var extra := ((r.fileFeeAmount + r.taxAmount) * 100.0).Floor;
    assert r.totalCost == cost as real / 100.0;
    MarkedUpCents(cost);
    QuarterMarkup(cost, extra);
    FloorInCents(r, cost, extra);
  }

  lemma FloorInCents(r: Composition, cost: nat, extra: nat)
    requires r.totalCost * 100.0 == cost as real && (r.fileFeeAmount + r.taxAmount) * 100.0 == extra as real
    requires r.clientSellingPrice == r.baseSellPrice + r.fileFeeAmount + r.taxAmount == r.totalCost + r.marginAmount
    requires r.baseSellPrice == ((5 * cost + 2) / 4) as real / 100.0
    requires r.marginPercent == Percent(r.marginAmount, r.clientSellingPrice)
    ensures var price := (5 * cost + 2) / 4 + extra;
      MarginMeetsApprovedFloor(r.marginPercent) <==> 100000 * (price - cost) >= 14995 * price && price > 0
  {
    var price := (5 * cost + 2) / 4 + extra;
    assert r.clientSellingPrice * 100.0 == price as real;
    assert r.marginAmount * 100.0 == (price - cost) as real;
    if price > 0 {
      FloorAsRatio(r.marginAmount, r.clientSellingPrice);
      assert r.marginAmount >= 0.14995 * r.clientSellingPrice <==> (100000 * (price - cost)) as real >= (14995 * price) as real;
    }
  }
}
