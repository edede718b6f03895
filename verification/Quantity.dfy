/** Resource quantities: decimal text with a unit, converted to whole millicores or bytes. */
module Quantity {
  import opened Arithmetic
  import opened Wrappers

  const I64_MAX: int := 0x7FFF_FFFF_FFFF_FFFF
  const I128_MAX: int := 0x7FFF_FFFF_FFFF_FFFF_FFFF_FFFF_FFFF_FFFF

  predicate IsDigit(c: char) { '0' <= c <= '9' }

  predicate AllDigits(s: string) { forall i | 0 <= i < |s| :: IsDigit(s[i]) }

  /** The length of the numeric part: everything up to the first other character. */
  function NumericLength(s: string): (n: nat)
    ensures n <= |s|
  {
    if s == "" || !(IsDigit(s[0]) || s[0] == '.') then 0 else 1 + NumericLength(s[1..])
  }

  /** Cut at the first point. Without one, the fraction is empty. */
  function SplitPoint(n: string): (string, string) {
    if n == "" then ("", "")
    else if n[0] == '.' then ("", n[1..])
    else
      var (whole, fraction) := SplitPoint(n[1..]);
      ([n[0]] + whole, fraction)
  }

  function Whole(s: string): string { SplitPoint(s[..NumericLength(s)]).0 }
  function Fraction(s: string): string { SplitPoint(s[..NumericLength(s)]).1 }
  function Suffix(s: string): string { s[NumericLength(s)..] }

  predicate SyntaxValid(s: string) {
    && s != "" && s[0] != '-'
    && Whole(s) != ""
    && !('.' in s[..NumericLength(s)] && Fraction(s) == "")
    && |Fraction(s)| <= 9
    && AllDigits(Fraction(s))
    && Suffix(s) in ["", "m", "u", "n", "Ki", "Mi", "Gi", "Ti", "k", "K", "M", "G"]
  }

  /** The number a digit string denotes. */
  function Digits(s: string): nat {
    if s == "" then 0
    else 10 * Digits(s[..|s| - 1]) + (if IsDigit(s[|s| - 1]) then (s[|s| - 1] - '0') as int else 0)
  }

  function Pow10(n: nat): (p: nat)
    ensures p >= 1
  {
    if n == 0 then 1 else 10 * Pow10(n - 1)
  }

  /** Checked 128-bit arithmetic on values that are never negative. */
  function Checked(x: int): Option<int> { if x <= I128_MAX then Some(x) else None }

  /** What a suffix multiplies and divides by. */
  function Factors(suffix: string): Option<(nat, nat)> {
    if suffix == "" then Some((1, 1))
    else if suffix == "m" then Some((1, 1_000))
    else if suffix == "u" then Some((1, 1_000_000))
    else if suffix == "n" then Some((1, 1_000_000_000))
    else if suffix == "Ki" then Some((1_024, 1))
    else if suffix == "Mi" then Some((1_024 * 1_024, 1))
    else if suffix == "Gi" then Some((1_024 * 1_024 * 1_024, 1))
    else if suffix == "Ti" then Some((1_024 * 1_024 * 1_024 * 1_024, 1))
    else if suffix == "k" || suffix == "K" then Some((1_000, 1))
    else if suffix == "M" then Some((1_000_000, 1))
    else if suffix == "G" then Some((1_000_000_000, 1))
    else None
  }

  /** A quantity converts only in its own dimension. */
  predicate FitsDimension(suffix: string, cpu: bool) {
    if cpu then suffix !in ["Ki", "Mi", "Gi", "Ti", "k", "K", "M", "G"] else suffix !in ["u", "n"]
  }

  function RoundUp(numerator: int, denominator: int): int
    requires denominator > 0
  {
    numerator / denominator + (if numerator % denominator != 0 then 1 else 0)
  }

  /** CPU counts in thousandths of a core. */
  function Factor(cpu: bool): nat { if cpu then 1000 else 1 }

  /** `whole * scale + fraction`, every step checked. */
  function Base(whole: nat, scale: nat, fraction: Option<nat>): Option<int> {
    match Checked(whole)
    case None => None
    case Some(x) =>
      match Checked(x * scale)
      case None => None
      case Some(y) =>
        if fraction.None? then Checked(y)
        else match Checked(fraction.value)
             case None => None
             case Some(f) => Checked(y + f)
  }

  /** Multiply out, divide, round up, and narrow to 64 bits. */
  function Convert(base: int, mul: int, factor: int, denominator: int): Option<int>
    requires denominator > 0
  {
    match Checked(base * mul)
    case None => None
    case Some(x) =>
      match Checked(x * factor)
      case None => None
      case Some(numerator) =>
        var rounded := RoundUp(numerator, denominator);
        if rounded <= I64_MAX then Some(rounded) else None
  }

  /** Fixed-point conversion with every intermediate step checked against 128 bits. */
  function Scaled(s: string, cpu: bool): Option<int> {
    var scale := Pow10(|Fraction(s)|);
    match Base(Digits(Whole(s)), scale, if Fraction(s) == "" then None else Some(Digits(Fraction(s))))
    case None => None
    case Some(base) =>
      match Factors(Suffix(s))
      case None => None
      case Some((mul, div)) =>
        if !FitsDimension(Suffix(s), cpu) || scale * div <= 0 then None
        else Convert(base, mul, Factor(cpu), scale * div)
  }

  // ----- what the text means -----

  /** `r` is the fraction numerator / denominator rounded up. */
  predicate IsCeiling(r: int, numerator: int, denominator: int) {
    (r - 1) * denominator < numerator <= r * denominator
  }

  /** The quantity in the target unit is Numerator / Denominator, exactly: the digits without
      their point, times the unit, over the power of ten of the point and the unit's divisor. */
  function Numerator(s: string, cpu: bool): int
    requires Factors(Suffix(s)).Some?
  {
    (Digits(Whole(s)) * Pow10(|Fraction(s)|) + Digits(Fraction(s))) * Factors(Suffix(s)).value.0 * Factor(cpu)
  }

  function Denominator(s: string): int
    requires Factors(Suffix(s)).Some?
  {
    Pow10(|Fraction(s)|) * Factors(Suffix(s)).value.1
  }

  lemma RoundUpIsCeiling(numerator: int, denominator: int)
    requires denominator > 0
    ensures IsCeiling(RoundUp(numerator, denominator), numerator, denominator)
  {
    var q, r := numerator / denominator, numerator % denominator;
    assert numerator == q * denominator + r;
    assert (q + 1) * denominator == q * denominator + denominator;
    assert (q - 1) * denominator == q * denominator - denominator;
  }

  lemma CeilingIsUnique(r: int, q: int, numerator: int, denominator: int)
    requires denominator > 0 && IsCeiling(r, numerator, denominator) && IsCeiling(q, numerator, denominator)
    ensures r == q
  {
    if r < q { MulOrder(r, q - 1, denominator); }
    if q < r { MulOrder(q, r - 1, denominator); }
  }

  lemma MulPositive(a: int, b: int)
    requires a > 0 && b > 0
    ensures a * b >= a && a * b >= b && a * b > 0
  {
    MulOrder(1, a, b);
    MulOrder(1, b, a);
  }

  lemma MulNonNegative(a: int, b: int)
    requires a >= 0 && b > 0
    ensures a <= a * b
  {
    MulOrder(1, b, a);
  }

  lemma {:induction false} Pow10Grows(a: nat, b: nat)
    requires a <= b
    ensures Pow10(a) <= Pow10(b)
    decreases b
  {
    if a < b { Pow10Grows(a, b - 1); }
  }

  lemma SmallScale(fraction: string)
    requires |fraction| <= 9
    ensures 0 < Pow10(|fraction|) <= 1_000_000_000
  {
    Pow10Grows(|fraction|, 9);
  }

  lemma FactorsAreSmall(suffix: string)
    requires Factors(suffix).Some?
    ensures var (mul, div) := Factors(suffix).value; mul > 0 && 0 < div <= 1_000_000_000
  {
  }

  /** If the rounded result fits 64 bits, the numerator fits 128. */
  lemma NoOverflow(r: int, numerator: int, denominator: int)
    requires 0 < denominator <= 1_000_000_000_000_000_000
    requires IsCeiling(r, numerator, denominator) && r <= I64_MAX
    ensures numerator <= I128_MAX
  {
    MulOrder(r, I64_MAX, denominator);
    MulOrder(denominator, 1_000_000_000_000_000_000, I64_MAX);
  }

  lemma ConvertChecked(base: int, mul: int, factor: int, denominator: int)
    requires base >= 0 && mul > 0 && factor > 0 && 0 < denominator <= 1_000_000_000_000_000_000
    ensures var rounded := RoundUp(base * mul * factor, denominator);
            (if base > I128_MAX then None else Convert(base, mul, factor, denominator))
            == if rounded <= I64_MAX then Some(rounded) else None
  {
    var x := base * mul;
    MulNonNegative(base, mul);
    MulNonNegative(x, factor);
    var numerator := x * factor;
    RoundUpIsCeiling(numerator, denominator);
    if RoundUp(numerator, denominator) <= I64_MAX {
      NoOverflow(RoundUp(numerator, denominator), numerator, denominator);
    }
  }

  lemma BaseChecked(whole: nat, scale: nat, fraction: Option<nat>)
    requires scale > 0
    ensures whole * scale + fraction.GetOr(0) >= 0
    ensures Base(whole, scale, fraction) == Checked(whole * scale + fraction.GetOr(0))
  {
    MulNonNegative(whole, scale);
  }

  /** Conversion is exact: in its own dimension a valid quantity gives its exact value
      rounded up, and fails only when that is beyond 64 bits; in the other it gives nothing. */
  lemma ScaledIsExact(s: string, cpu: bool)
    requires SyntaxValid(s)
    ensures Factors(Suffix(s)).Some? && Denominator(s) > 0
    ensures !FitsDimension(Suffix(s), cpu) ==> Scaled(s, cpu) == None
    ensures FitsDimension(Suffix(s), cpu) ==>
              match Scaled(s, cpu)
              case Some(r) => IsCeiling(r, Numerator(s, cpu), Denominator(s)) && r <= I64_MAX
              case None => forall r | IsCeiling(r, Numerator(s, cpu), Denominator(s)) :: r > I64_MAX
  {
    FactorsAreSmall(Suffix(s));
    SmallScale(Fraction(s));
    var fraction := if Fraction(s) == "" then None else Some(Digits(Fraction(s)));
    var (mul, div) := Factors(Suffix(s)).value;
    var scale := Pow10(|Fraction(s)|);
    var base := Digits(Whole(s)) * scale + fraction.GetOr(0);
    MulPositive(scale, div);
    MulOrder(scale, 1_000_000_000, div);
    BaseChecked(Digits(Whole(s)), scale, fraction);
    ConvertChecked(base, mul, Factor(cpu), scale * div);
    RoundUpIsCeiling(Numerator(s, cpu), Denominator(s));
    forall r | IsCeiling(r, Numerator(s, cpu), Denominator(s)) ensures r == RoundUp(Numerator(s, cpu), Denominator(s)) {
      CeilingIsUnique(r, RoundUp(Numerator(s, cpu), Denominator(s)), Numerator(s, cpu), Denominator(s));
    }
  }
}
