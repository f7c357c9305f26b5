/**
 Prices: so much of a base asset for so much of a quote asset.

 Two prices of the same pair are compared by multiplying across in 128 bits. A price turns
 an amount of either side into the other, rounding down.
 */
module Price {
  import opened Optional

  const WORD128 := 0x1_0000_0000_0000_0000_0000_0000_0000_0000
  const MAX_AMOUNT := 0x7fff_ffff_ffff_ffff

  /** A symbol is a number whose lowest byte is the decimals; the rest is the name. */
  type Symbol = nat

  function NameOf(s: Symbol): nat {
    s / 256
  }

  /** Amounts are signed 64-bit numbers. */
  type Share = n: int | -MAX_AMOUNT - 1 <= n <= MAX_AMOUNT witness 0

  datatype Amount = Amount(units: Share, symbol: Symbol)
  datatype Price = Price(base: Amount, quote: Amount)

  predicate Positive(p: Price) {
    0 < p.base.units <= MAX_AMOUNT && 0 < p.quote.units <= MAX_AMOUNT
  }

  /** Conversion to and multiplication of unsigned 128-bit numbers. */
  function U128(n: int): nat {
    n % WORD128
  }

  function Times(a: int, b: int): nat {
    U128(a) * U128(b) % WORD128
  }

  predicate Equal(a: Price, b: Price) {
    && a.base.symbol == b.base.symbol && a.quote.symbol == b.quote.symbol
    && Times(b.quote.units, a.base.units) == Times(a.quote.units, b.base.units)
  }

  predicate Less(a: Price, b: Price) {
    if a.base.symbol != b.base.symbol then a.base.symbol < b.base.symbol
    else if a.quote.symbol != b.quote.symbol then a.quote.symbol < b.quote.symbol
    else Times(b.quote.units, a.base.units) < Times(a.quote.units, b.base.units)
  }

  // ---------------------------------------------------------------------
  // The order
  // ---------------------------------------------------------------------

  lemma {:induction false} TimesExact(a: int, b: int)
    requires 0 <= a <= MAX_AMOUNT && 0 <= b <= MAX_AMOUNT
    ensures Times(a, b) == a * b
  {
    Bounded(a, b, MAX_AMOUNT);
    assert a % WORD128 == a && b % WORD128 == b;
    assert MAX_AMOUNT * MAX_AMOUNT < WORD128;
  }

  lemma {:induction false} Bounded(a: int, b: int, m: int)
    requires 0 <= a <= m && 0 <= b <= m
    ensures 0 <= a * b <= m * m
  {
    Monotone(a, m, b);
    Monotone(b, m, m);
    assert a * b <= m * b && m * b == b * m;
  }

  lemma {:induction false} Monotone(a: int, b: int, c: int)
    requires a <= b && c >= 0
    ensures a * c <= b * c
  {
    assert (b - a) * c >= 0;
  }

  lemma {:induction false} StrictlyMonotone(a: int, b: int, c: int)
    requires c > 0
    ensures a < b <==> a * c < b * c
  {
    if a < b {
      assert (b - a) * c > 0;
    } else {
      Monotone(b, a, c);
    }
  }

  /** Crosswise comparison is transitive: x1/y1, x2/y2, x3/y3 with positive parts. */
  lemma {:induction false} CrossTransitive(x1: int, y1: int, x2: int, y2: int, x3: int, y3: int)
    requires y1 > 0 && y2 > 0 && y3 > 0
    ensures x1 * y2 < x2 * y1 && x2 * y3 <= x3 * y2 ==> x1 * y3 < x3 * y1
    ensures x1 * y2 <= x2 * y1 && x2 * y3 < x3 * y2 ==> x1 * y3 < x3 * y1
    ensures x1 * y2 <= x2 * y1 && x2 * y3 <= x3 * y2 ==> x1 * y3 <= x3 * y1
  {
    StrictlyMonotone(x1 * y2, x2 * y1, y3);
    StrictlyMonotone(x2 * y1, x1 * y2, y3);
    StrictlyMonotone(x2 * y3, x3 * y2, y1);
    StrictlyMonotone(x3 * y2, x2 * y3, y1);
    StrictlyMonotone(x1 * y3, x3 * y1, y2);
    StrictlyMonotone(x3 * y1, x1 * y3, y2);
    Swap(x1, y2, y3);
    Swap(x2, y1, y3);
    Swap(x3, y2, y1);
  }

  lemma {:induction false} Swap(x: int, y: int, z: int)
    ensures x * y * z == x * z * y
  {
    assert y * z == z * y;
    assert x * y * z == x * (y * z);
    assert x * z * y == x * (z * y);
  }

  lemma {:induction false} CrossOf(a: Price, b: Price)
    requires Positive(a) && Positive(b)
    ensures Times(b.quote.units, a.base.units) == a.base.units * b.quote.units
    ensures Times(a.quote.units, b.base.units) == b.base.units * a.quote.units
  {
    TimesExact(b.quote.units, a.base.units);
    TimesExact(a.quote.units, b.base.units);
  }

  /** Neither is less than the other. */
  predicate Incomparable(a: Price, b: Price) {
    !Less(a, b) && !Less(b, a)
  }

  /** On positive prices the order is a strict weak order, and its ties are the equal prices. */
  lemma {:induction false} StrictWeakOrder(a: Price, b: Price, c: Price)
    requires Positive(a) && Positive(b) && Positive(c)
    ensures !Less(a, a)
    ensures Less(a, b) && Less(b, c) ==> Less(a, c)
    ensures Incomparable(a, b) && Incomparable(b, c) ==> Incomparable(a, c)
    ensures Incomparable(a, b) <==> Equal(a, b)
  {
    CrossOf(a, a);
    CrossOf(a, b);
    CrossOf(b, a);
    CrossOf(b, c);
    CrossOf(c, b);
    CrossOf(a, c);
    CrossOf(c, a);
    CrossTransitive(a.base.units, a.quote.units, b.base.units, b.quote.units, c.base.units, c.quote.units);
    CrossTransitive(c.base.units, c.quote.units, b.base.units, b.quote.units, a.base.units, a.quote.units);
  }

  // ---------------------------------------------------------------------
  // Conversion
  // ---------------------------------------------------------------------

  /** A 128-bit result cut down to a signed 64-bit amount. */
  function ToAmount(n: nat): Share {
    var low := n % 0x1_0000_0000_0000_0000;
    if low <= MAX_AMOUNT then low else low - 0x1_0000_0000_0000_0000
  }

  function Convert(a: Amount, p: Price): Option<Amount> {
    if NameOf(a.symbol) == NameOf(p.base.symbol) then
      if p.base.units > 0
      then Some(Amount(ToAmount(Times(a.units, p.quote.units) / U128(p.base.units)), p.quote.symbol)) else None
    else if NameOf(a.symbol) == NameOf(p.quote.symbol) then
      if p.quote.units > 0
      then Some(Amount(ToAmount(Times(a.units, p.base.units) / U128(p.quote.units)), p.base.symbol)) else None
    else None
  }

  /** The amount the conversion stands for, before it is cut down. */
  function Exact(units: nat, from: nat, to: nat): nat
    requires from > 0
  {
    units * to / from
  }

  lemma {:induction false} DivideDown(x: nat, d: nat)
    requires d > 0
    ensures x / d * d <= x < (x / d + 1) * d
  {
    assert x == d * (x / d) + x % d;
  }

  /** There and back again, rounding down both times, is never more. */
  lemma {:induction false} NoGain(units: nat, from: nat, to: nat)
    requires from > 0 && to > 0
    ensures Exact(Exact(units, from, to), to, from) <= units
  {
    var there := Exact(units, from, to);
    var back := Exact(there, to, from);
    DivideDown(units * to, from);
    DivideDown(there * from, to);
    assert back * to <= there * from <= units * to;
    StrictlyMonotone(units, back, to);
  }

  predicate Convertible(a: Amount, p: Price) {
    Positive(p) && a.units >= 0 && NameOf(p.base.symbol) != NameOf(p.quote.symbol)
  }

  lemma {:induction false} Converted(a: Amount, p: Price)
    requires Convertible(a, p) && NameOf(a.symbol) == NameOf(p.base.symbol)
    ensures Convert(a, p) == Some(Amount(ToAmount(Exact(a.units, p.base.units, p.quote.units)), p.quote.symbol))
  {
    TimesExact(a.units, p.quote.units);
    assert U128(p.base.units) == p.base.units;
  }

  lemma {:induction false} ConvertedBack(a: Amount, p: Price)
    requires Convertible(a, p) && NameOf(a.symbol) == NameOf(p.quote.symbol)
    ensures Convert(a, p) == Some(Amount(ToAmount(Exact(a.units, p.quote.units, p.base.units)), p.base.symbol))
  {
    TimesExact(a.units, p.base.units);
    assert U128(p.quote.units) == p.quote.units;
  }

  lemma {:induction false} ExactMonotone(x: nat, y: nat, from: nat, to: nat)
    requires x <= y && from > 0
    ensures Exact(x, from, to) <= Exact(y, from, to)
  {
    Monotone(x, y, to);
    DivideMonotone(x * to, y * to, from);
  }

  lemma {:induction false} DivideMonotone(x: nat, y: nat, d: nat)
    requires x <= y && d > 0
    ensures x / d <= y / d
  {
    DivideDown(x, d);
    DivideDown(y, d);
    if x / d > y / d {
      Monotone(y / d + 1, x / d, d);
    }
  }

  lemma {:induction false} CutDown(n: nat)
    ensures ToAmount(n) >= 0 ==> ToAmount(n) <= n
    ensures n <= MAX_AMOUNT ==> ToAmount(n) == n
  {
  }

  /**
   Converting base to quote and back at a positive price never gains, as long as the converted
   amount, cut down to 64 bits, is not negative.
   */
  lemma {:induction false} ThereAndBack(a: Amount, p: Price)
    requires Convertible(a, p) && NameOf(a.symbol) == NameOf(p.base.symbol)
    requires ToAmount(Exact(a.units, p.base.units, p.quote.units)) >= 0
    ensures Convert(a, p).Some? && Convert(Convert(a, p).value, p).Some?
    ensures Convert(Convert(a, p).value, p).value.symbol == p.base.symbol
    ensures 0 <= Convert(Convert(a, p).value, p).value.units <= a.units
  {
    var exact := Exact(a.units, p.base.units, p.quote.units);
    var there := ToAmount(exact);
    Converted(a, p);
    CutDown(exact);
    ConvertedBack(Amount(there, p.quote.symbol), p);
    NoGain(a.units, p.base.units, p.quote.units);
    ExactMonotone(there, exact, p.quote.units, p.base.units);
    CutDown(Exact(there, p.quote.units, p.base.units));
  }

  /**
   A negative amount of the quote is taken as a number close to two to the 128th; what comes back
   is the quotient of the distance from there, cut down.
   */
  lemma {:induction false} NegativeBack(a: Amount, p: Price)
    requires Positive(p) && NameOf(p.base.symbol) != NameOf(p.quote.symbol)
    requires NameOf(a.symbol) == NameOf(p.quote.symbol) && a.units < 0
    ensures 0 < (0 - a.units) * p.base.units < WORD128
    ensures Convert(a, p) ==
            Some(Amount(ToAmount((WORD128 - (0 - a.units) * p.base.units) / p.quote.units), p.base.symbol))
  {
    TimesNegative(0 - a.units, p.base.units);
    assert U128(p.quote.units) == p.quote.units;
  }

  lemma {:induction false} TimesNegative(k: int, b: int)
    requires 0 < k <= MAX_AMOUNT + 1 && 0 < b <= MAX_AMOUNT
    ensures 0 < k * b < WORD128 && Times(0 - k, b) == WORD128 - k * b
  {
    Bounded(k, b, MAX_AMOUNT + 1);
    assert (MAX_AMOUNT + 1) * (MAX_AMOUNT + 1) < WORD128;
    StrictlyMonotone(0, k, b);
    assert U128(0 - k) == WORD128 - k && U128(b) == b;
    Distribute(k, b);
    WholeWords(WORD128 - k * b, b - 1);
  }

  lemma {:induction false} Distribute(k: int, b: int)
    ensures (WORD128 - k) * b == WORD128 - k * b + (b - 1) * WORD128
  {
  }

  lemma {:induction false} WholeWords(x: nat, k: nat)
    requires x < WORD128
    ensures (x + k * WORD128) % WORD128 == x
  {
  }

  /** It does gain where the converted amount becomes negative: two units come back as four. */
  lemma {:induction false} Gains()
    ensures var p := Price(Amount(1, 256), Amount(MAX_AMOUNT, 512));
            && Convertible(Amount(2, 256), p)
            && Convert(Amount(2, 256), p) == Some(Amount(-2, 512))
            && Convert(Amount(-2, 512), p) == Some(Amount(4, 256))
  {
    var p := Price(Amount(1, 256), Amount(MAX_AMOUNT, 512));
    Converted(Amount(2, 256), p);
    NegativeBack(Amount(-2, 512), p);
  }

  // ---------------------------------------------------------------------
  // What order and conversion come to
  // ---------------------------------------------------------------------

  /** How many units of the base one unit of the quote is worth. */
  function Ratio(p: Price): real
    requires Positive(p)
  {
    p.base.units as real / p.quote.units as real
  }

  lemma {:induction false} CrossRatio(x: real, y: real, z: real, w: real)
    requires y > 0.0 && w > 0.0
    ensures x / y < z / w <==> x * w < z * y
  {
    var p, q := x / y, z / w;
    assert x == p * y && z == q * w;
    assert z * y - x * w == (q - p) * (y * w) by {
      assert q * w * y == q * (y * w) && p * y * w == p * (y * w);
    }
    assert y * w > 0.0;
    if q > p {
      assert (q - p) * (y * w) > 0.0;
    } else {
      assert (p - q) * (y * w) >= 0.0;
    }
  }

  /** The larger price is the one with the larger ratio; symbols come first, the base before the quote. */
  lemma {:induction false} LargerRatio(a: Price, b: Price)
    requires Positive(a) && Positive(b)
    ensures a.base.symbol == b.base.symbol && a.quote.symbol == b.quote.symbol ==> (Less(a, b) <==> Ratio(a) < Ratio(b))
    ensures a.base.symbol < b.base.symbol ==> Less(a, b)
    ensures a.base.symbol == b.base.symbol && a.quote.symbol < b.quote.symbol ==> Less(a, b)
  {
    CrossOf(a, b);
    RatioOrder(a.base.units, a.quote.units, b.base.units, b.quote.units);
  }

  lemma {:induction false} RatioOrder(x: int, y: int, z: int, w: int)
    requires y > 0 && w > 0
    ensures x as real / y as real < z as real / w as real <==> x * w < z * y
  {
    CrossRatio(x as real, y as real, z as real, w as real);
    ProductAsReal(x, w);
    ProductAsReal(z, y);
  }

  lemma {:induction false} ProductAsReal(x: int, y: int)
    ensures (x * y) as real == x as real * y as real
  {
  }

  /** A conversion keeps the ratio up to the unit it rounds down, and then drops all but 64 bits. */
  lemma {:induction false} ConvertsDown(a: Amount, p: Price) returns (q: nat)
    requires Convertible(a, p) && NameOf(a.symbol) == NameOf(p.base.symbol)
    ensures q * p.base.units <= a.units * p.quote.units < (q + 1) * p.base.units
    ensures Convert(a, p).Some? && Convert(a, p).value.symbol == p.quote.symbol
    ensures (Convert(a, p).value.units - q) % 0x1_0000_0000_0000_0000 == 0
  {
    q := Exact(a.units, p.base.units, p.quote.units);
    Converted(a, p);
    DivideDown(a.units * p.quote.units, p.base.units);
    AmountBits(q);
  }

  lemma {:induction false} AmountBits(n: nat)
    ensures (ToAmount(n) - n) % 0x1_0000_0000_0000_0000 == 0
  {
  }

  /** An amount of neither side is not converted, nor any by a side that is not positive. */
  lemma {:induction false} NotConverted(a: Amount, p: Price)
    ensures NameOf(a.symbol) != NameOf(p.base.symbol) && NameOf(a.symbol) != NameOf(p.quote.symbol) ==>
              Convert(a, p) == None
    ensures NameOf(a.symbol) == NameOf(p.base.symbol) ==> (Convert(a, p) == None <==> p.base.units <= 0)
    ensures NameOf(a.symbol) != NameOf(p.base.symbol) && NameOf(a.symbol) == NameOf(p.quote.symbol) ==>
              (Convert(a, p) == None <==> p.quote.units <= 0)
  {
  }
}
