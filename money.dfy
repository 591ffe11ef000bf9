/** Currency arithmetic of the expense tracker: HST at 13% on a tax-exclusive
    amount, rounded to cents, and the total of an amount and its HST.

    Every amount is an integer number of cents. A value finer than a cent
    (13% of an amount in cents) is an integer number of hundredths of a cent. */
module Money {

  /** The one HST rate the tracker applies, in percent. */
  const HstRatePercent: int := 13

  /** A number as `parseFloat` yields it: either not a number or a finite
      amount of cents. */
  datatype Num = NaN | Finite(cents: int)

  /** `toFixed(2)` on a value of `h` hundredths of a cent: the nearest whole
      cent, a tie going away from zero (so half-up for non-negative values). */
  function RoundToCents(h: int): (c: int)
    ensures -50 <= h - 100 * c <= 50
    ensures h - 100 * c == 50 ==> h < 0
    ensures h - 100 * c == -50 ==> h > 0
  {
    if h >= 0 then (h + 50) / 100 else -((-h + 50) / 100)
  }

  /** The three properties of RoundToCents determine its result. */
  lemma RoundToCentsUnique(h: int, c: int)
    requires -50 <= h - 100 * c <= 50
    requires h - 100 * c == 50 ==> h < 0
    requires h - 100 * c == -50 ==> h > 0
    ensures c == RoundToCents(h)
  {
    var r := RoundToCents(h);
    assert -100 <= 100 * (r - c) <= 100;
    assert -1 <= r - c <= 1;
  }

  /** Rounding to cents never reverses the order of two values. */
  lemma RoundToCentsMonotone(h: int, k: int)
    requires h <= k
    ensures RoundToCents(h) <= RoundToCents(k)
  {
  }

  /** Rounding a negated value gives the negated rounding. */
  lemma RoundToCentsOdd(h: int)
    ensures RoundToCents(-h) == -RoundToCents(h)
  {
    RoundToCentsUnique(-h, -RoundToCents(h));
  }

  /** calculateHst: 13% of the amount, rounded to cents. */
  function CalculateHst(amount: int): (hst: int)
    ensures -50 <= HstRatePercent * amount - 100 * hst <= 50
    ensures HstRatePercent * amount - 100 * hst == 50 ==> amount < 0
    ensures HstRatePercent * amount - 100 * hst == -50 ==> amount > 0
  {
    RoundToCents(HstRatePercent * amount)
  }

  /** The HST of a non-negative amount is non-negative and at most the amount. */
  lemma HstBounds(amount: int)
    requires amount >= 0
    ensures 0 <= CalculateHst(amount) <= amount
  {
    var hst := CalculateHst(amount);
    assert 100 * hst <= 13 * amount + 50;
  }

  /** A larger amount never carries a smaller HST. */
  lemma HstMonotone(a: int, b: int)
    requires a <= b
    ensures CalculateHst(a) <= CalculateHst(b)
  {
    RoundToCentsMonotone(HstRatePercent * a, HstRatePercent * b);
  }

  /** The HST of a refund (a negative amount) mirrors that of the purchase. */
  lemma HstOdd(amount: int)
    ensures CalculateHst(-amount) == -CalculateHst(amount)
  {
    assert HstRatePercent * -amount == -(HstRatePercent * amount);
    RoundToCentsOdd(HstRatePercent * amount);
  }

  /** calculateTotal: amount plus HST, rounded to cents. Both are whole cents,
      so the rounding loses nothing: the total exceeds the amount by exactly
      the HST. */
  function CalculateTotal(amount: int, hst: int): (total: int)
    ensures total - amount == hst
  {
    RoundToCents(100 * (amount + hst))
  }

  /** `calculateHst` applied to a number that may be NaN: `toFixed` of NaN is
      "NaN", which `parseFloat` reads back as NaN. A number's HST lies within
      half a cent of 13% of it, a tie going away from zero. */
  function HstOf(x: Num): (r: Num)
    ensures r.NaN? <==> x.NaN?
    ensures r.Finite? ==> -50 <= HstRatePercent * x.cents - 100 * r.cents <= 50
    ensures r.Finite? && HstRatePercent * x.cents - 100 * r.cents == 50 ==> x.cents < 0
    ensures r.Finite? && HstRatePercent * x.cents - 100 * r.cents == -50 ==> x.cents > 0
  {
    match x
    case NaN => NaN
    case Finite(a) => Finite(CalculateHst(a))
  }

  /** `calculateTotal` applied to numbers that may be NaN: NaN if either is,
      and otherwise a total exceeding the amount by exactly the HST. */
  function TotalOf(x: Num, hst: Num): (r: Num)
    ensures r.NaN? <==> x.NaN? || hst.NaN?
    ensures r.Finite? ==> r.cents - x.cents == hst.cents
  {
    if x.NaN? || hst.NaN? then NaN else Finite(CalculateTotal(x.cents, hst.cents))
  }

  /** `isNaN(x) ? 0 : x`: NaN becomes 0 and a number is kept. What this means
      for the stored fields is stated on NormaliseAmount. */
  function OrZero(x: Num): (r: int)
  {
    match x
    case NaN => 0
    case Finite(a) => a
  }

  /** The amount, HST and total fields that a record and a draft hold. */
  datatype Amounts = Amounts(amount: int, hst: int, total: int) {
    /** The HST is that of the amount and the total is the amount plus the HST. */
    predicate Consistent()
    {
      hst == CalculateHst(amount) && total == CalculateTotal(amount, hst)
    }
  }

  /** What both amount-change handlers store for a typed amount: the parsed
      number, its HST and its total, each NaN replaced by 0. A typed amount
      that is not a number leaves all three 0, a number is kept, and in both
      cases no field is left inconsistent with the others. */
  function NormaliseAmount(parsed: Num): (r: Amounts)
    ensures parsed.NaN? ==> r == Amounts(0, 0, 0)
    ensures parsed.Finite? ==> r.amount == parsed.cents
    ensures r.Consistent()
  {
    var hst := HstOf(parsed);
    assert CalculateHst(0) == 0;
    Amounts(OrZero(parsed), OrZero(hst), OrZero(TotalOf(parsed, hst)))
  }
}
