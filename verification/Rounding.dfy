/** Integer division with five rounding modes, for every sign. */
module Rounding {
  import opened Wrappers

  datatype Mode = Truncate | Floor | Ceil | HalfUp | HalfEven

  /** BigInt `/`: toward zero. Dafny's own division keeps the remainder non-negative. */
  function TruncDiv(n: int, d: int): int
    requires d != 0
  {
    if (n >= 0) == (d > 0) then Abs(n) / Abs(d) else -(Abs(n) / Abs(d))
  }

  /** BigInt `%`: the sign of the dividend. */
  function TruncMod(n: int, d: int): int
    requires d != 0
  {
    n - TruncDiv(n, d) * d
  }

  function Abs(n: int): int {
    if n < 0 then -n else n
  }

  datatype DivisionError = ZeroDivisor

  function DivRound(n: int, d: int, mode: Mode): Result<int, DivisionError> {
    if d == 0 then Err(ZeroDivisor) else Ok(Round(n, d, mode))
  }

  function Round(n: int, d: int, mode: Mode): int
    requires d != 0
  {
    if d < 0 then Adjust(-n, -d, mode) else Adjust(n, d, mode)
  }

  /** The truncated quotient, moved by one as the mode asks. */
  function Adjust(n: int, d: int, mode: Mode): int
    requires d > 0
  {
    var q, r := TruncDiv(n, d), TruncMod(n, d);
    if r == 0 then q
    else
      var sign := if n >= 0 then 1 else -1;
      var twice := 2 * Abs(r);
      match mode
      case Truncate => q
      case Floor => if n < 0 then q - 1 else q
      case Ceil => if n > 0 then q + 1 else q
      case HalfUp => if twice >= d then q + sign else q
      case HalfEven =>
        if twice < d then q
        else if twice > d then q + sign
        else if TruncMod(q, 2) == 0 then q else q + sign
  }

  // ---- products and their order --------------------------------------------------------------------

  lemma ProductsKeepOrder(a: int, b: int, whole: int)
    requires a <= b && whole > 0
    ensures a * whole <= b * whole
  {
  }

  lemma FactorsKeepOrder(a: int, b: int, whole: int)
    requires a * whole < b * whole && whole > 0
    ensures a < b
  {
    if b <= a {
      ProductsKeepOrder(b, a, whole);
    }
  }

  lemma RatesKeepOrder(gross: int, rate: int, scale: int)
    requires 0 <= gross && rate <= scale
    ensures gross * rate <= gross * scale < (gross + 1) * scale || scale <= 0
  {
  }

  // ---- what each mode means ----------------------------------------------------------------------

  /** p = q * d is the multiple of d that mode picks for n; q matters only for ties. */
  predicate Picks(mode: Mode, n: int, d: int, q: int, p: int) {
    match mode
    case Truncate => if n >= 0 then 0 <= p <= n < p + d else p - d < n <= p <= 0
    case Floor => p <= n < p + d
    case Ceil => p - d < n <= p
    case HalfUp => if n >= 0 then 2 * p - d <= 2 * n < 2 * p + d else 2 * p - d < 2 * n <= 2 * p + d
    case HalfEven => Abs(2 * n - 2 * p) <= d && (Abs(2 * n - 2 * p) == d ==> q % 2 == 0)
  }

  /** q is the rounding of n / d in the given mode, any signs. */
  predicate IsRounding(mode: Mode, n: int, d: int, q: int)
    requires d != 0
  {
    if d < 0 then Picks(mode, -n, -d, q, q * -d) else Picks(mode, n, d, q, q * d)
  }

  lemma DivFacts(a: int, d: int)
    requires a >= 0 && d > 0
    ensures a == (a / d) * d + a % d && 0 <= a % d < d && a / d >= 0
    ensures (a / d) * d >= 0 && -(a / d) * d == -((a / d) * d)
  {}

  lemma TruncDivFacts(n: int, d: int)
    requires d > 0
    ensures n >= 0 ==> TruncMod(n, d) == n % d && TruncDiv(n, d) == n / d && 0 <= TruncMod(n, d) < d
    ensures n < 0 ==> -d < TruncMod(n, d) <= 0
    ensures n == TruncDiv(n, d) * d + TruncMod(n, d)
    ensures if n >= 0 then TruncDiv(n, d) * d >= 0 else TruncDiv(n, d) * d <= 0
  {
    DivFacts(Abs(n), d);
  }

  lemma Parity(q: int)
    ensures TruncMod(q, 2) == 0 <==> q % 2 == 0
  {
    TruncDivFacts(q, 2);
  }

  lemma AdjustPicks(n: int, d: int, mode: Mode)
    requires d > 0
    ensures var q := Adjust(n, d, mode); Picks(mode, n, d, q, q * d)
  {
    TruncDivFacts(n, d);
    var q, r := TruncDiv(n, d), TruncMod(n, d);
    var p := q * d;
    Parity(q);
    var chosen := Adjust(n, d, mode);
    var sign := if n >= 0 then 1 else -1;
    assert chosen == q || chosen == q + sign;
    Shifted(q, d);
    ChoicePicks(mode, n, d, q, r, p, chosen);
  }

  lemma Shifted(q: int, d: int)
    ensures (q + 1) * d == q * d + d && (q - 1) * d == q * d - d
  {}

  /** The arithmetic of `Adjust`, with q * d named p. */
  lemma ChoicePicks(mode: Mode, n: int, d: int, q: int, r: int, p: int, chosen: int)
    requires d > 0 && n == p + r && (if n >= 0 then 0 <= r < d && p >= 0 else -d < r <= 0 && p <= 0)
    requires n == 0 ==> r == 0
    requires chosen == (
      if r == 0 then q
      else
        var sign := if n >= 0 then 1 else -1;
        match mode
        case Truncate => q
        case Floor => if n < 0 then q - 1 else q
        case Ceil => if n > 0 then q + 1 else q
        case HalfUp => if 2 * Abs(r) >= d then q + sign else q
        case HalfEven => if 2 * Abs(r) < d then q else if 2 * Abs(r) > d then q + sign else if q % 2 == 0 then q else q + sign)
    ensures Picks(mode, n, d, chosen, p + (chosen - q) * d)
  {
    assert chosen - q == 0 || chosen - q == 1 || chosen - q == -1;
    assert (chosen - q) * d == if chosen == q then 0 else if chosen > q then d else -d;
  }

  lemma MultiplesAreSpaced(q: int, q': int, d: int)
    requires d > 0 && q < q'
    ensures q * d + d <= q' * d && (q * d + d == q' * d ==> q' == q + 1)
  {
    var k := q' - q - 1;
    assert q' * d == q * d + d + k * d;
    assert k > 0 ==> k * d >= d;
  }

  lemma {:induction false} PicksAreOrdered(mode: Mode, n: int, n': int, d: int, q: int, p: int, q': int, p': int)
    requires d > 0 && n <= n' && Picks(mode, n, d, q, p) && Picks(mode, n', d, q', p')
    requires q' < q ==> p' + d <= p && (p' + d == p ==> q == q' + 1)
    ensures q <= q'
  {}

  /** Every mode is monotone in the dividend. */
  lemma PicksIsMonotone(mode: Mode, n: int, n': int, d: int, q: int, q': int)
    requires d > 0 && n <= n' && Picks(mode, n, d, q, q * d) && Picks(mode, n', d, q', q' * d)
    ensures q <= q'
  {
    if q' < q {
      MultiplesAreSpaced(q', q, d);
    }
    PicksAreOrdered(mode, n, n', d, q, q * d, q', q' * d);
  }

  /** `divRound` returns exactly the integer its mode describes, for all signs and modes. */
  lemma RoundMeetsItsMode(n: int, d: int, mode: Mode, q: int)
    requires d != 0
    ensures q == Round(n, d, mode) <==> IsRounding(mode, n, d, q)
  {
    var N, D := if d < 0 then -n else n, if d < 0 then -d else d;
    AdjustPicks(N, D, mode);
    if IsRounding(mode, n, d, q) {
      PicksIsMonotone(mode, N, N, D, q, Adjust(N, D, mode));
      PicksIsMonotone(mode, N, N, D, Adjust(N, D, mode), q);
    }
  }

  /** Half-even is the nearest integer, even on ties: no other integer is within half a divisor and even. */
  lemma HalfEvenIsNearest(n: int, d: int, q: int)
    requires d != 0
    ensures q == Round(n, d, HalfEven) <==>
            2 * Abs(n - q * d) <= Abs(d) && (2 * Abs(n - q * d) == Abs(d) ==> q % 2 == 0)
  {
    RoundMeetsItsMode(n, d, HalfEven, q);
    assert q * -d == -(q * d);
  }

  /** The mode that does to -n what `mode` does to n. */
  function Mirrored(mode: Mode): Mode {
    match mode
    case Floor => Ceil
    case Ceil => Floor
    case other => other
  }

  lemma PicksMirror(mode: Mode, n: int, d: int, q: int, p: int)
    requires d > 0 && Picks(mode, n, d, q, p) && (n == 0 ==> p == 0)
    ensures Picks(Mirrored(mode), -n, d, -q, -p)
  {}

  lemma AdjustMirror(n: int, d: int, mode: Mode, q: int, q': int)
    requires d > 0 && Picks(mode, n, d, q, q * d) && (n == 0 ==> q == 0)
    requires Picks(Mirrored(mode), -n, d, q', q' * d)
    ensures q' == -q
  {
    PicksMirror(mode, n, d, q, q * d);
    assert -q * d == -(q * d);
    PicksIsMonotone(Mirrored(mode), -n, -n, d, q', -q);
    PicksIsMonotone(Mirrored(mode), -n, -n, d, -q, q');
  }

  /** Floor and ceil are each other's mirror image; the other modes are their own. */
  lemma Mirror(n: int, d: int, mode: Mode)
    requires d != 0
    ensures Round(-n, d, Mirrored(mode)) == -Round(n, d, mode)
    ensures Round(-n, -d, mode) == Round(n, d, mode)
  {
    var N, D := if d < 0 then -n else n, if d < 0 then -d else d;
    AdjustPicks(N, D, mode);
    AdjustPicks(-N, D, Mirrored(mode));
    AdjustOfZero(D, mode);
    AdjustMirror(N, D, mode, Adjust(N, D, mode), Adjust(-N, D, Mirrored(mode)));
  }

  lemma AdjustOfZero(d: int, mode: Mode)
    requires d > 0
    ensures Adjust(0, d, mode) == 0
  {
    TruncDivFacts(0, d);
  }

  /** Every mode is monotone in the dividend. */
  lemma RoundIsMonotone(n: int, n': int, d: int, mode: Mode)
    requires d != 0 && n <= n'
    ensures if d > 0 then Round(n, d, mode) <= Round(n', d, mode) else Round(n', d, mode) <= Round(n, d, mode)
  {
    if d > 0 {
      AdjustIsMonotone(n, n', d, mode);
    } else {
      AdjustIsMonotone(-n', -n, -d, mode);
    }
  }

  lemma AdjustIsMonotone(n: int, n': int, d: int, mode: Mode)
    requires d > 0 && n <= n'
    ensures Adjust(n, d, mode) <= Adjust(n', d, mode)
  {
    AdjustPicks(n, d, mode);
    AdjustPicks(n', d, mode);
    PicksIsMonotone(mode, n, n', d, Adjust(n, d, mode), Adjust(n', d, mode));
  }

  /** A multiple of the divisor is divided exactly. */
  lemma RoundOfMultiple(q: int, d: int, mode: Mode)
    requires d != 0
    ensures Round(q * d, d, mode) == q
  {
    assert -(q * d) == q * -d;
    RoundMeetsItsMode(q * d, d, mode, q);
  }

  /** Moving the dividend by less than the divisor moves the result by at most one. */
  lemma RoundGrowsSlowly(n: int, n': int, d: int, mode: Mode)
    requires d != 0 && n <= n' < n + Abs(d)
    ensures if d > 0 then Round(n, d, mode) <= Round(n', d, mode) <= Round(n, d, mode) + 1
            else Round(n', d, mode) <= Round(n, d, mode) <= Round(n', d, mode) + 1
  {
    if d > 0 {
      AdjustGrowsSlowly(n, n', d, mode);
    } else {
      AdjustGrowsSlowly(-n', -n, -d, mode);
    }
  }

  lemma AdjustGrowsSlowly(n: int, n': int, d: int, mode: Mode)
    requires d > 0 && n <= n' < n + d
    ensures Adjust(n, d, mode) <= Adjust(n', d, mode) <= Adjust(n, d, mode) + 1
  {
    AdjustIsMonotone(n, n', d, mode);
    AdjustPicks(n, d, mode);
    AdjustPicks(n', d, mode);
    var q, q' := Adjust(n, d, mode), Adjust(n', d, mode);
    if q + 1 < q' {
      MultiplesAreSpaced(q + 1, q', d);
      Shifted(q, d);
      FarApart(mode, n, n', d, q, q * d, q', q' * d);
    }
  }

  lemma FarApart(mode: Mode, n: int, n': int, d: int, q: int, p: int, q': int, p': int)
    requires d > 0 && n <= n' && Picks(mode, n, d, q, p) && Picks(mode, n', d, q', p')
    requires p + 2 * d <= p'
    ensures n + d <= n'
  {}

  // ---- the hand-written half-even divisions --------------------------------------------------------

  /** The division of the ledger checker and of the refund helper, for a non-negative numerator. */
  function HandHalfEven(numerator: int, denominator: int): int
    requires numerator >= 0 && denominator > 0
  {
    var quotient, remainder := TruncDiv(numerator, denominator), TruncMod(numerator, denominator);
    var twice := remainder * 2;
    if twice > denominator then quotient + 1
    else if twice == denominator && TruncMod(quotient, 2) != 0 then quotient + 1
    else quotient
  }

  datatype HalfEvenError = RoundingInvalidInput | RoundingScaleInvalid

  /** `roundHalfEven`: the rounded value, and the remainder before rounding. */
  function RoundHalfEven(numerator: int, denominator: int): Result<(int, int), HalfEvenError> {
    if numerator < 0 then Err(RoundingInvalidInput)
    else if denominator <= 0 then Err(RoundingScaleInvalid)
    else Ok((HandHalfEven(numerator, denominator), TruncMod(numerator, denominator)))
  }

  /** Both agree with `divRound`, and the remainder returned is within half a divisor of a whole share. */
  lemma HandHalfEvenAgrees(numerator: int, denominator: int)
    ensures RoundHalfEven(numerator, denominator).Ok? <==> numerator >= 0 && denominator > 0
    ensures RoundHalfEven(numerator, denominator).Ok? ==>
              var (value, remainder) := RoundHalfEven(numerator, denominator).value;
              && Ok(value) == DivRound(numerator, denominator, HalfEven)
              && 0 <= remainder < denominator
              && (value * denominator + remainder == numerator || (value - 1) * denominator + remainder == numerator)
  {
    if numerator >= 0 && denominator > 0 {
      TruncDivFacts(numerator, denominator);
      var q := TruncDiv(numerator, denominator);
      assert (q + 1 - 1) * denominator == q * denominator;
    }
  }
}
