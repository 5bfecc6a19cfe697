/**
  Money as whole cents and rates as hundredths of a percent: the arithmetic of _quantize_money, _parse_amount,
  _parse_vat_rate_optional and _compute_vat_lines in app/billing/services.py.
 */
module Money {
  import opened Wrappers

  type Cents = int

  // A rate of 24.00 % is 2400.
  type Rate = int

  const FULL_RATE: Rate := 10000

  function Abs(n: int): nat {
    if n < 0 then -n else n
  }

  // An exact product of cents and a rate, rounded to cents: Decimal's ROUND_HALF_UP, ties away from zero.
  function HalfUp(n: int): Cents {
    if n >= 0 then (n + FULL_RATE / 2) / FULL_RATE else -((-n + FULL_RATE / 2) / FULL_RATE)
  }

  // The nearest integer to x, ties to the even neighbour: Decimal's default rounding.
  function HalfEven(x: real): int {
    var low := x.Floor;
    var rest := x - low as real;
    if rest < 0.5 then low
    else if rest > 0.5 then low + 1
    else if low % 2 == 0 then low else low + 1
  }

  // On a tie the even neighbour is taken, otherwise the nearer one.
  lemma HalfEvenNearest(x: real, n: int)
    ensures n == HalfEven(x) <==>
      -0.5 <= x - n as real <= 0.5 && (x - n as real == 0.5 || x - n as real == -0.5 ==> n % 2 == 0)
  {
  }

  datatype VatLines = VatLines(subtotal: Cents, vat: Cents, total: Cents)

  function ComputeVatLines(subtotal: Cents, rate: Rate): VatLines {
    var vat := HalfUp(subtotal * rate);
    VatLines(subtotal, vat, subtotal + vat)
  }

  // What a request carries in an amount or rate field: nothing (null or blank text), text that is no decimal number,
  // or a number.
  datatype RawNumber = Blank | Malformed | Number(value: real)

  // The whole number of cents, or of hundredths of a percent, that a request means.
  predicate Means(raw: RawNumber, n: int) {
    raw.Number? && -0.5 <= raw.value * 100.0 - n as real <= 0.5
  }

  predicate AmountReads(raw: RawNumber) {
    raw.Number? && raw.value * 100.0 >= -0.5
  }

  predicate RateReads(raw: RawNumber) {
    raw.Blank? || (raw.Number? && -0.5 <= raw.value * 100.0 <= 10000.5)
  }

  // A required amount, in cents.
  function ParseAmount(raw: RawNumber): (r: Option<Cents>)
    ensures r.Some? <==> raw.Number? && raw.value * 100.0 >= -0.5
    ensures r.Some? ==> r.value >= 0
    ensures r.Some? ==> -0.5 <= raw.value * 100.0 - r.value as real <= 0.5
  {
    match raw
    case Number(value) => var cents := HalfEven(value * 100.0); if cents < 0 then None else Some(cents)
    case _ => None
  }

  // An optional rate: Some(None) is a blank field, None an error.
  function ParseRate(raw: RawNumber): (r: Option<Option<Rate>>)
    ensures r.Some? && r.value.None? <==> raw == Blank
    ensures r.Some? <==> raw == Blank || (raw.Number? && -0.5 <= raw.value * 100.0 <= 10000.5)
    ensures r.Some? && r.value.Some? ==> raw.Number? && 0 <= r.value.value <= FULL_RATE
    ensures r.Some? && r.value.Some? ==> -0.5 <= raw.value * 100.0 - r.value.value as real <= 0.5
  {
    match raw
    case Blank => Some(None)
    case Malformed => None
    case Number(value) =>
      var rate := HalfEven(value * 100.0);
      if 0 <= rate <= FULL_RATE then Some(Some(rate)) else None
  }

  // HalfUp gives the only whole number of cents within half a cent, the one further from zero on a tie.
  lemma HalfUpNearest(n: int, k: Cents)
    ensures n >= 0 ==> (k == HalfUp(n) <==> -FULL_RATE < 2 * (FULL_RATE * k - n) <= FULL_RATE)
    ensures n <= 0 ==> (k == HalfUp(n) <==> -FULL_RATE < 2 * (n - FULL_RATE * k) <= FULL_RATE)
  {
  }

  lemma HalfUpMonotone(m: int, n: int)
    requires m <= n
    ensures HalfUp(m) <= HalfUp(n)
  {
  }

  // The VAT is within half a cent of subtotal times rate, and the total is exact.
  lemma VatWithinHalfCent(subtotal: Cents, rate: Rate)
    ensures var l := ComputeVatLines(subtotal, rate);
      && l.subtotal == subtotal && l.total == l.subtotal + l.vat
      && 2 * Abs(FULL_RATE * l.vat - subtotal * rate) <= FULL_RATE
  {
    HalfUpNearest(subtotal * rate, HalfUp(subtotal * rate));
  }

  lemma VatBounds(subtotal: Cents, rate: Rate)
    requires 0 <= subtotal && 0 <= rate <= FULL_RATE
    ensures 0 <= ComputeVatLines(subtotal, rate).vat <= subtotal
    ensures subtotal <= ComputeVatLines(subtotal, rate).total <= 2 * subtotal
  {
    assert 0 <= subtotal * rate <= subtotal * FULL_RATE;
    HalfUpMonotone(0, subtotal * rate);
    HalfUpMonotone(subtotal * rate, subtotal * FULL_RATE);
    HalfUpNearest(subtotal * FULL_RATE, subtotal);
  }

  lemma VatMonotone(subtotal: Cents, rate: Rate, subtotal': Cents, rate': Rate)
    requires 0 <= subtotal <= subtotal' && 0 <= rate <= rate'
    ensures ComputeVatLines(subtotal, rate).vat <= ComputeVatLines(subtotal', rate').vat
    ensures ComputeVatLines(subtotal, rate).total <= ComputeVatLines(subtotal', rate').total
  {
    assert subtotal * rate <= subtotal' * rate;
    assert subtotal' * rate <= subtotal' * rate';
    HalfUpMonotone(subtotal * rate, subtotal' * rate');
  }
}
