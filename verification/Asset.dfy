/**
 Amounts in print, and prices.

 An asset is printed with its decimals and its symbol and read back from there. Prices are
 compared by multiplying across, and convert amounts from either side to the other.
 */
module Asset {
  import opened Optional

  const MAX_AMOUNT: int := 0x7fff_ffff_ffff_ffff
  const MIN_AMOUNT: int := -0x8000_0000_0000_0000
  const MAX_DECIMALS := 14
  const MAX_SYMBOL := 6

  datatype Asset = Asset(amount: int, decimals: nat, symbol: string)

  // ---------------------------------------------------------------------
  // Decimal numbers
  // ---------------------------------------------------------------------

  function Digit(d: nat): char
    requires d < 10
  {
    '0' + d as char
  }

  predicate IsDigit(c: char) {
    '0' <= c <= '9'
  }

  /** A natural number in decimal, without leading zeros. */
  function Decimal(n: nat): string {
    if n < 10 then [Digit(n)] else Decimal(n / 10) + [Digit(n % 10)]
  }

  function ParseDigits(s: string): Option<nat> {
    if s == [] then Some(0)
    else
      match ParseDigits(s[..|s| - 1])
      case None => None
      case Some(n) =>
        var c := s[|s| - 1];
        if IsDigit(c) then Some(10 * n + (c - '0') as nat) else None
  }

  function Ranged(n: int): Option<int> {
    if MIN_AMOUNT <= n <= MAX_AMOUNT then Some(n) else None
  }

  /** A number has digits, perhaps after a sign, and nothing else, and fits in 64 bits. */
  function ParseNumber(s: string): Option<int> {
    if s == [] then None
    else
      var signed := s[0] == '-' || s[0] == '+';
      var digits := if signed then s[1..] else s;
      match ParseDigits(digits)
      case None => None
      case Some(n) => if digits == [] then None else Ranged(if s[0] == '-' then 0 - n else n)
  }

  predicate AllDigits(s: string) {
    forall i :: 0 <= i < |s| ==> IsDigit(s[i])
  }

  lemma {:induction false} OnlyDigitsParse(s: string)
    requires ParseDigits(s).Some?
    ensures AllDigits(s)
  {
    if s != [] {
      OnlyDigitsParse(s[..|s| - 1]);
    }
  }

  lemma {:induction false} DecimalReadsBack(n: nat)
    ensures ParseDigits(Decimal(n)) == Some(n)
    ensures Decimal(n) != [] && AllDigits(Decimal(n))
    decreases n
  {
    var s := Decimal(n);
    if n < 10 {
      assert s[..0] == [];
    } else {
      DecimalReadsBack(n / 10);
      assert s[..|s| - 1] == Decimal(n / 10);
    }
  }

  function Power10(d: nat): (p: nat)
    ensures p >= 1
  {
    if d == 0 then 1 else 10 * Power10(d - 1)
  }

  /** A number between one and two times a power of ten is a one and as many digits as the power says. */
  lemma {:induction false} LeadingOne(d: nat, f: nat)
    requires f < Power10(d)
    ensures |Decimal(Power10(d) + f)| == d + 1 && Decimal(Power10(d) + f)[0] == '1'
    decreases d
  {
    if d > 0 {
      var n := Power10(d) + f;
      assert n / 10 == Power10(d - 1) + f / 10;
      PowerPositive(d);
      LeadingOne(d - 1, f / 10);
      assert Decimal(n) == Decimal(n / 10) + [Digit(n % 10)];
    }
  }

  lemma {:induction false} PowerPositive(d: nat)
    ensures Power10(d) >= 1 && (d > 0 ==> Power10(d) >= 10)
  {
    if d > 0 {
      PowerPositive(d - 1);
    }
  }

  // ---------------------------------------------------------------------
  // Printing and parsing
  // ---------------------------------------------------------------------

  /** Division that truncates toward zero, and its remainder. */
  function Quotient(a: int, b: nat): int
    requires b > 0
  {
    if a >= 0 then a / b else -(-a / b)
  }

  function Remainder(a: int, b: nat): int
    requires b > 0
  {
    a - b * Quotient(a, b)
  }

  lemma {:induction false} Divided(a: int, p: nat)
    requires p > 0
    ensures a >= 0 ==> Quotient(a, p) == a / p && Remainder(a, p) == a % p
    ensures a < 0 ==> Quotient(a, p) == -(-a / p) && Remainder(a, p) == -(-a % p)
  {
    var m := if a >= 0 then a else -a;
    var q, r := m / p, m % p;
    assert m == p * q + r;
    assert p * -q == -(p * q);
  }

  function Print(n: int): string {
    if n >= 0 then Decimal(n) else "-" + Decimal(-n)
  }

  /** The precision plus the remainder, without its first character. */
  function Fraction(a: Asset): string {
    PowerPositive(a.decimals);
    var p := Power10(a.decimals);
    var s := Print(p + Remainder(a.amount, p));
    if s == [] then [] else s[1..]
  }

  function ToString(a: Asset): string {
    PowerPositive(a.decimals);
    var whole := Print(Quotient(a.amount, Power10(a.decimals)));
    (if a.decimals > 0 then whole + "." + Fraction(a) else whole) + " " + a.symbol
  }

  function Find(s: string, c: char): (k: nat)
    ensures k <= |s| && (forall i :: 0 <= i < k ==> s[i] != c) && (k < |s| ==> s[k] == c)
  {
    if s == [] || s[0] == c then 0 else 1 + Find(s[1..], c)
  }

  predicate IsSpace(c: char) {
    c == ' ' || ('\t' <= c <= '\r')
  }

  function TrimFront(s: string): string {
    if s != [] && IsSpace(s[0]) then TrimFront(s[1..]) else s
  }

  function TrimBack(s: string): string {
    if s != [] && IsSpace(s[|s| - 1]) then TrimBack(s[..|s| - 1]) else s
  }

  function Symbol(s: string): string {
    if |s| > MAX_SYMBOL then s[..MAX_SYMBOL] else s
  }

  /** The decimals that are found where there is no dot. */
  const NO_DOT := 255

  /** Scales the whole part, adds the fraction with a one in front, and takes the one away. */
  function Combine(whole: int, fraction: int, decimals: nat): Option<int> {
    var p := Power10(decimals);
    if Ranged(whole * p).Some? && Ranged(whole * p + fraction).Some? then Ranged(whole * p + fraction - p) else None
  }

  /**
   The number before the dot, the digits between dot and space, and at most six characters
   after the space; without a space the symbol is the start of the whole text.
   */
  function FromString(from: string): Option<Asset> {
    var s := TrimBack(TrimFront(from));
    var space, dot := Find(s, ' '), Find(s, '.');
    var symbol := Symbol(if space < |s| then s[space + 1..] else s);
    match ParseNumber(s[..dot])
    case None => None
    case Some(whole) =>
      if dot == |s| then Some(Asset(whole, NO_DOT, symbol))
      else if space < dot then None
      else
        WithFraction(whole, s[dot + 1..space], symbol)
  }

  function WithFraction(whole: int, digits: string, symbol: string): Option<Asset> {
    match ParseNumber("1" + digits)
    case None => None
    case Some(fraction) =>
      if |digits| > MAX_DECIMALS then None
      else
        match Combine(whole, fraction, |digits|)
        case None => None
        case Some(amount) => Some(Asset(amount, |digits|, symbol))
  }

  /** What the round trip is promised for. */
  predicate Printable(a: Asset) {
    0 <= a.amount <= MAX_AMOUNT && 1 <= a.decimals <= MAX_DECIMALS && SymbolOk(a.symbol)
  }

  lemma {:induction false} FirstFound(front: string, c: char, back: string)
    requires forall i :: 0 <= i < |front| ==> front[i] != c
    ensures Find(front + [c] + back, c) == |front|
  {
    var s := front + [c] + back;
    assert s[|front|] == c;
    assert forall i :: 0 <= i < |front| ==> s[i] == front[i];
  }

  lemma {:induction false} PrintedFraction(d: nat, f: nat)
    requires f < Power10(d)
    ensures var s := Decimal(Power10(d) + f);
            s != [] && s == "1" + s[1..] && |s[1..]| == d && AllDigits(s[1..]) && ParseDigits(s) == Some(Power10(d) + f)
  {
    LeadingOne(d, f);
    DecimalReadsBack(Power10(d) + f);
  }

  /** How an amount that is not negative is printed. */
  lemma {:induction false} Printed(a: Asset, p: nat, q: nat, r: nat)
    requires 0 <= a.amount && a.decimals > 0 && p == Power10(a.decimals) > 0 && q == a.amount / p && r == a.amount % p
    ensures "1" + Fraction(a) == Decimal(p + r) && |Fraction(a)| == a.decimals && AllDigits(Fraction(a))
    ensures ToString(a) == Decimal(q) + "." + Fraction(a) + " " + a.symbol
  {
    Divided(a.amount, p);
    PrintedFraction(a.decimals, r);
  }

  /** Neither a dot nor a space. */
  predicate Plain(s: string) {
    forall i :: 0 <= i < |s| ==> s[i] != '.' && !IsSpace(s[i])
  }

  predicate SymbolOk(symbol: string) {
    0 < |symbol| <= MAX_SYMBOL && forall i :: 0 <= i < |symbol| ==> !IsSpace(symbol[i])
  }

  /** The printed form falls apart into the parts it was made of. */
  lemma {:induction false} Taken(whole: string, fraction: string, symbol: string)
    requires whole != [] && Plain(whole) && AllDigits(fraction) && SymbolOk(symbol)
    ensures var s := whole + "." + fraction + " " + symbol;
            && TrimBack(TrimFront(s)) == s
            && Find(s, '.') == |whole| && Find(s, ' ') == |whole| + 1 + |fraction|
            && s[..|whole|] == whole && s[|whole| + 1..|whole| + 1 + |fraction|] == fraction
            && s[|whole| + 2 + |fraction|..] == symbol
  {
    var s := whole + "." + fraction + " " + symbol;
    assert s[0] == whole[0] && s[|s| - 1] == symbol[|symbol| - 1];
    assert s == whole + ['.'] + (fraction + " " + symbol);
    FirstFound(whole, '.', fraction + " " + symbol);
    var front := whole + "." + fraction;
    assert s == front + [' '] + symbol;
    FirstFound(front, ' ', symbol);
  }

  lemma {:induction false} NumberParses(n: nat)
    requires n <= MAX_AMOUNT
    ensures ParseNumber(Decimal(n)) == Some(n)
  {
    DecimalReadsBack(n);
    assert IsDigit(Decimal(n)[0]);
  }

  lemma {:induction false} TakenParses(whole: string, fraction: string, symbol: string)
    requires whole != [] && Plain(whole) && AllDigits(fraction) && SymbolOk(symbol)
    ensures FromString(whole + "." + fraction + " " + symbol) ==
            match ParseNumber(whole) case None => None case Some(w) => WithFraction(w, fraction, symbol)
  {
    Taken(whole, fraction, symbol);
  }

  /** Printing and parsing gives the asset back exactly if amount and precision together fit in 64 bits. */
  lemma {:induction false} PrintParse(a: Asset)
    requires Printable(a)
    ensures FromString(ToString(a)) == if a.amount + Power10(a.decimals) <= MAX_AMOUNT then Some(a) else None
  {
    var p := Power10(a.decimals);
    PowerPositive(a.decimals);
    var q, r := a.amount / p, a.amount % p;
    WholeRanged(a.amount, p);
    PrintedParses(a, p, q, r);
    FractionCounts(a, q, r, p);
  }

  lemma {:induction false} PrintedParses(a: Asset, p: nat, q: nat, r: nat)
    requires Printable(a) && p == Power10(a.decimals) > 0 && q == a.amount / p <= a.amount && r == a.amount % p
    ensures FromString(ToString(a)) == WithFraction(q, Fraction(a), a.symbol)
    ensures |Fraction(a)| == a.decimals && ParseNumber("1" + Fraction(a)) == Some(p + r)
  {
    Printed(a, p, q, r);
    PrecisionFits(a.decimals);
    NumberParses(p + r);
    DecimalReadsBack(q);
    NumberParses(q);
    TakenParses(Decimal(q), Fraction(a), a.symbol);
  }

  lemma {:induction false} FractionCounts(a: Asset, q: nat, r: nat, p: nat)
    requires p == Power10(a.decimals) && a.amount == q * p + r && r < p && a.amount <= MAX_AMOUNT
    requires |Fraction(a)| == a.decimals <= MAX_DECIMALS && ParseNumber("1" + Fraction(a)) == Some(p + r)
    ensures WithFraction(q, Fraction(a), a.symbol) == if a.amount + p <= MAX_AMOUNT then Some(a) else None
  {
    assert Combine(q, p + r, a.decimals) == if a.amount + p <= MAX_AMOUNT then Some(a.amount) else None;
  }

  lemma {:induction false} WholeRanged(amount: nat, p: nat)
    requires p > 0
    ensures amount / p <= amount && amount / p * p + amount % p == amount
  {
    var q, r := amount / p, amount % p;
    assert amount == p * q + r;
    TimesAtLeast(q, p);
  }

  lemma {:induction false} TimesAtLeast(q: nat, p: nat)
    requires p > 0
    ensures q * p == p * q >= q
  {
    assert q * p == q * (p - 1) + q;
  }

  /** Every precision that has a place in the table is far below the largest amount. */
  lemma {:induction false} PrecisionFits(d: nat)
    requires d <= MAX_DECIMALS
    ensures 2 * Power10(d) <= MAX_AMOUNT
  {
    PowerGrows(d, MAX_DECIMALS);
    assert Power10(14) == 10000000 * Power10(7) && Power10(7) == 10000000;
  }

  lemma {:induction false} PowerGrows(d: nat, e: nat)
    requires d <= e
    ensures Power10(d) <= Power10(e)
    decreases e
  {
    if d < e {
      PowerGrows(d, e - 1);
    }
  }

  /** A number below a power of ten has at most as many digits as the power says. */
  lemma {:induction false} ShortDecimal(d: nat, n: nat)
    requires d > 0 && n < Power10(d)
    ensures |Decimal(n)| <= d
    decreases d
  {
    if n >= 10 {
      assert Power10(d) == 10 * Power10(d - 1);
      ShortDecimal(d - 1, n / 10);
    }
  }

  /** How a negative amount is printed: its whole part, and the precision less its remainder. */
  lemma {:induction false} NegativePrinted(a: Asset, p: nat, q: int, r: int)
    requires a.decimals > 0 && p == Power10(a.decimals) && 0 <= r < p
    requires Quotient(a.amount, p) == -q && Remainder(a.amount, p) == -r
    ensures |Decimal(p - r)| > 0 && Fraction(a) == Decimal(p - r)[1..] && AllDigits(Fraction(a))
    ensures ToString(a) == Print(-q) + "." + Fraction(a) + " " + a.symbol
  {
    DecimalReadsBack(p - r);
  }

  lemma {:induction false} PlainPrint(n: int)
    ensures Print(n) != [] && Plain(Print(n))
    ensures MIN_AMOUNT <= n <= MAX_AMOUNT ==> ParseNumber(Print(n)) == Some(n)
  {
    if n >= 0 {
      DecimalReadsBack(n);
      assert IsDigit(Decimal(n)[0]);
    } else {
      DecimalReadsBack(-n);
      assert Print(n)[1..] == Decimal(-n);
    }
  }

  /** A negative amount comes back exactly if it is a whole number of units. */
  lemma {:induction false} NegativeComesBack(a: Asset)
    requires MIN_AMOUNT <= a.amount < 0 && 1 <= a.decimals <= MAX_DECIMALS && SymbolOk(a.symbol)
    ensures FromString(ToString(a)) == Some(a) <==> a.amount % Power10(a.decimals) == 0
  {
    var q, r := NegativeParts(a.amount, Power10(a.decimals));
    NegativeCase(a, Power10(a.decimals), q, r);
  }

  /** Whole units and remainder of what a negative amount is below nought. */
  lemma {:induction false} NegativeParts(amount: int, p: nat) returns (q: int, r: int)
    requires amount < 0 && p > 0
    ensures 0 <= q <= -amount && 0 <= r < p && -amount == q * p + r
    ensures Quotient(amount, p) == -q && Remainder(amount, p) == -r
    ensures amount % p == 0 <==> r == 0
  {
    q, r := -amount / p, -amount % p;
    WholeRanged(-amount, p);
    Divided(amount, p);
    RemainderOfNegative(amount, p, q, r);
  }

  lemma {:induction false} NegativeCase(a: Asset, p: nat, q: int, r: int)
    requires MIN_AMOUNT <= a.amount < 0 && 1 <= a.decimals <= MAX_DECIMALS && SymbolOk(a.symbol)
    requires p == Power10(a.decimals) && 0 <= q <= -a.amount && 0 <= r < p && -a.amount == q * p + r
    requires Quotient(a.amount, p) == -q && Remainder(a.amount, p) == -r
    ensures FromString(ToString(a)) == Some(a) <==> r == 0
  {
    NegativePrinted(a, p, q, r);
    NegativeParses(a, q);
    if r == 0 {
      PrecisionFits(a.decimals);
      NegatedProduct(q, p);
      CombineWhole(-q, p, a.decimals, a.amount);
      WholeNegative(a, p, q);
    } else {
      PartNegative(a, p, q, r);
    }
  }

  lemma {:induction false} NegativeParses(a: Asset, q: int)
    requires ToString(a) == Print(-q) + "." + Fraction(a) + " " + a.symbol && AllDigits(Fraction(a)) &&
             SymbolOk(a.symbol)
    requires 0 <= q <= -MIN_AMOUNT
    ensures FromString(ToString(a)) == WithFraction(-q, Fraction(a), a.symbol)
  {
    PlainPrint(-q);
    TakenParses(Print(-q), Fraction(a), a.symbol);
  }

  lemma {:induction false} WholeNegative(a: Asset, p: nat, q: int)
    requires p == Power10(a.decimals) && Combine(-q, p, a.decimals) == Some(a.amount)
    requires a.decimals <= MAX_DECIMALS && |Decimal(p)| > 0 && Fraction(a) == Decimal(p)[1..]
    ensures WithFraction(-q, Fraction(a), a.symbol) == Some(a)
  {
    PrintedFraction(a.decimals, 0);
    PrecisionFits(a.decimals);
    NumberParses(p);
  }

  lemma {:induction false} NegatedProduct(q: int, p: int)
    ensures -q * p == -(q * p)
  {
  }

  lemma {:induction false} CombineWhole(whole: int, p: int, decimals: nat, amount: int)
    requires p == Power10(decimals) && 0 <= p <= MAX_AMOUNT && whole * p == amount && MIN_AMOUNT <= amount < 0
    ensures Combine(whole, p, decimals) == Some(amount)
  {
  }

  /** With a remainder, the printed fraction has fewer digits than the decimals. */
  lemma {:induction false} PartNegative(a: Asset, p: nat, q: int, r: int)
    requires p == Power10(a.decimals) && 0 < r < p && a.decimals > 0
    requires |Decimal(p - r)| > 0 && Fraction(a) == Decimal(p - r)[1..]
    ensures WithFraction(-q, Fraction(a), a.symbol) != Some(a)
  {
    ShortDecimal(a.decimals, p - r);
  }

  lemma {:induction false} RemainderOfNegative(amount: int, p: nat, q: int, r: int)
    requires p > 0 && -amount == q * p + r && 0 <= r < p
    ensures amount % p == 0 <==> r == 0
  {
    var k, m := amount / p, amount % p;
    assert amount == p * k + m;
    assert m + r == p * (-q - k) by {
      assert p * (-q - k) == -(q * p) - p * k;
    }
    BetweenMultiples(p, -q - k, m + r);
  }

  /** Between nought and twice a number lies only that number as a multiple of it. */
  lemma {:induction false} BetweenMultiples(p: nat, k: int, x: int)
    requires p > 0 && x == p * k && 0 <= x < 2 * p
    ensures x == 0 || x == p
  {
    if k <= -1 {
      MultiplesGrow(p, k, -1);
    } else if k >= 2 {
      MultiplesGrow(p, 2, k);
    }
  }

  lemma {:induction false} MultiplesGrow(p: int, j: int, k: int)
    requires p > 0 && j <= k
    ensures p * j <= p * k
  {
    assert p * k - p * j == p * (k - j);
  }

  /**
   Without decimals there is no dot before the space. Nothing is read back, or, if the symbol is
   blank, something with other decimals.
   */
  lemma {:induction false} NoDecimalsLost(amount: int, symbol: string)
    ensures FromString(ToString(Asset(amount, 0, symbol))) != Some(Asset(amount, 0, symbol))
    ensures symbol != [] && !IsSpace(symbol[|symbol| - 1]) ==> FromString(ToString(Asset(amount, 0, symbol))) == None
  {
    var number, text := Print(amount), ToString(Asset(amount, 0, symbol));
    PlainNumber(amount);
    assert Power10(0) == 1;
    assert text == number + " " + symbol;
    assert text[0] == number[0] && TrimFront(text) == text;
    TrimmedPrefix(text, |number|);
    var s := TrimBack(text);
    var dot := Find(s, '.');
    assert forall i :: 0 <= i < |number| ==> s[i] == number[i];
    if |s| > |number| {
      assert s[|number|] == ' ' && dot > |number|;
      SpaceNeverParses(s[..dot], |number|);
    }
    if symbol != [] && !IsSpace(symbol[|symbol| - 1]) {
      assert text[|text| - 1] == symbol[|symbol| - 1];
    }
  }

  /** A printed number has no dot and no white space. */
  lemma {:induction false} PlainNumber(amount: int)
    ensures Print(amount) != []
    ensures forall i :: 0 <= i < |Print(amount)| ==> Print(amount)[i] != '.' && !IsSpace(Print(amount)[i])
  {
    DecimalReadsBack(if amount >= 0 then amount else -amount);
  }

  /** Trimming at the back stops at a character that is not white space. */
  lemma {:induction false} TrimmedPrefix(s: string, n: nat)
    requires 0 < n <= |s| && !IsSpace(s[n - 1])
    ensures n <= |TrimBack(s)| <= |s| && TrimBack(s) == s[..|TrimBack(s)|]
    decreases |s|
  {
    if IsSpace(s[|s| - 1]) {
      TrimmedPrefix(s[..|s| - 1], n);
      assert s[..|s| - 1][..|TrimBack(s)|] == s[..|TrimBack(s)|];
    }
  }

  lemma {:induction false} SpaceNeverParses(s: string, k: nat)
    requires 0 < k < |s| && s[k] == ' '
    ensures ParseNumber(s) == None
  {
    var digits := if s[0] == '-' || s[0] == '+' then s[1..] else s;
    assert digits[if s[0] == '-' || s[0] == '+' then k - 1 else k] == ' ';
    if ParseDigits(digits).Some? {
      OnlyDigitsParse(digits);
    }
  }

  /** Digits stand highest first. */
  lemma {:induction false} DigitsExample()
    ensures Decimal(150) == "150" && ParseDigits("150") == Some(150)
    ensures Decimal(100) == "100"
  {
    assert Decimal(150) == Decimal(15) + "0" && Decimal(15) == Decimal(1) + "5";
    assert Decimal(100) == Decimal(10) + "0" && Decimal(10) == Decimal(1) + "0";
    DecimalReadsBack(150);
  }

  lemma {:induction false} PrintExample()
    ensures ToString(Asset(10050, 2, "SUP")) == "100.50 SUP"
  {
    var a := Asset(10050, 2, "SUP");
    assert Power10(2) == 10 * Power10(1) && Power10(1) == 10 * Power10(0);
    Printed(a, 100, 100, 50);
    DigitsExample();
    assert "1" + Fraction(a) == "150";
    assert Fraction(a) == ("1" + Fraction(a))[1..] == "50";
  }
}
