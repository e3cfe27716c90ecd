/**
 Fixed-scale decimals as text: the printer and parser of database columns, and the exact conversion
 between written decimals and integer base units.
 */
module FixedDecimals {
  import opened Wrappers
  import opened Amounts
  import opened DecimalText
  import opened Rounding
  import opened Whitespace

  // ---- digits --------------------------------------------------------------------------------------------

  function Pow10(n: nat): (p: nat)
    ensures p > 0
  {
    if n == 0 then 1 else 10 * Pow10(n - 1)
  }

  /** `"0".repeat(n)`. */
  function Zeros(n: nat): (z: string)
    ensures |z| == n && AllDigits(z) && forall i :: 0 <= i < n ==> z[i] == '0'
  {
    if n == 0 then "" else Zeros(n - 1) + "0"
  }

  lemma {:induction false} PowAdds(a: nat, b: nat)
    ensures Pow10(a + b) == Pow10(a) * Pow10(b)
  {
    if a > 0 {
      PowAdds(a - 1, b);
      assert 10 * (Pow10(a - 1) * Pow10(b)) == 10 * Pow10(a - 1) * Pow10(b);
    }
  }

  lemma {:induction false} ToNatJoins(a: string, b: string)
    requires AllDigits(a) && AllDigits(b)
    ensures AllDigits(a + b) && ToNat(a + b) == ToNat(a) * Pow10(|b|) + ToNat(b)
  {
    if b == [] {
      assert a + b == a;
    } else {
      var front, last := b[..|b| - 1], b[|b| - 1];
      ToNatJoins(a, front);
      assert (a + b)[..|a + b| - 1] == a + front;
      TenTimes(ToNat(a), Pow10(|front|));
    }
  }

  lemma TenTimes(x: int, p: int)
    ensures 10 * (x * p) == x * (10 * p)
  {
  }

  lemma {:induction false} ZerosAreZero(n: nat)
    ensures ToNat(Zeros(n)) == 0
  {
    if n > 0 {
      ZerosAreZero(n - 1);
      assert Zeros(n)[..n - 1] == Zeros(n - 1);
    }
  }

  lemma LeadingZerosDoNotCount(n: nat, s: string)
    requires AllDigits(s)
    ensures ToNat(Zeros(n) + s) == ToNat(s)
  {
    ZerosAreZero(n);
    ToNatJoins(Zeros(n), s);
    NothingTimes(Pow10(|s|));
  }

  lemma NothingTimes(x: nat)
    ensures 0 * x == 0
  {
  }

  lemma TrailingZerosScale(s: string, n: nat)
    requires AllDigits(s)
    ensures ToNat(s + Zeros(n)) == ToNat(s) * Pow10(n)
  {
    ZerosAreZero(n);
    ToNatJoins(s, Zeros(n));
  }

  lemma {:induction false} ToNatIsSmall(s: string)
    requires AllDigits(s)
    ensures ToNat(s) < Pow10(|s|)
  {
    if s != [] {
      ToNatIsSmall(s[..|s| - 1]);
    }
  }

  /** A number below 10^n has at most n digits, for n above zero. */
  lemma {:induction false} TextIsShort(x: nat, n: nat)
    requires x < Pow10(n) && n > 0
    ensures |ToText(x)| <= n
  {
    if x >= 10 {
      assert n > 1;
      TextIsShort(x / 10, n - 1);
    }
  }

  // ---- database columns ------------------------------------------------------------------------------------

  /** `padStart(n, "0")`. */
  function PadStart(s: string, n: nat): string {
    if |s| >= n then s else Zeros(n - |s|) + s
  }

  function Whole(value: nat, scale: nat): nat
    requires scale > 0
  {
    value / scale
  }

  function Part(value: nat, scale: nat): nat
    requires scale > 0
  {
    value % scale
  }

  lemma WholeAndPart(value: nat, scale: nat)
    requires scale > 0
    ensures Whole(value, scale) * scale + Part(value, scale) == value && Part(value, scale) < scale
  {
  }

  function WithPoint(whole: nat, part: nat, decimals: nat): string {
    ToText(whole) + "." + PadStart(ToText(part), decimals)
  }

  function AbsText(value: nat, decimals: nat): string {
    if decimals == 0 then ToText(value)
    else WithPoint(Whole(value, Pow10(decimals)), Part(value, Pow10(decimals)), decimals)
  }

  /** `formatDecimalForDb` at fixed scale. */
  function FormatDecimal(value: int, decimals: nat): string {
    if value < 0 then "-" + AbsText(-value, decimals) else AbsText(value, decimals)
  }

  /** Only what is below zero has a sign in front. */
  lemma SignedBelowZero(value: int, decimals: nat)
    ensures FormatDecimal(value, decimals) != [] && (FormatDecimal(value, decimals)[0] == '-' <==> value < 0)
  {
    var text := AbsText(if value < 0 then -value else value, decimals);
    assert text != [] && IsDigit(text[0]);
  }

  datatype ParseError = SyntaxError

  /** The digits of a text that matches the precision: the unsigned pattern with its point removed. */
  function Unscaled(body: string, decimals: nat): Option<string> {
    if decimals == 0 then
      if body != [] && IsDigits(body) then Some(body) else None
    else if |body| < decimals + 2 then None
    else
      var point := |body| - decimals - 1;
      if body[point] == '.' && IsDigits(body[..point]) && IsDigits(body[point + 1..]) then Some(body[..point] + body[point + 1..])
      else None
  }

  predicate IsDigits(s: string)
    ensures IsDigits(s) <==> AllDigits(s)
  {
    if s == [] then true else IsDigits(s[..|s| - 1]) && IsDigit(s[|s| - 1])
  }

  /** `parseDecimalDbValue`. */
  function ParseDecimal(formatted: string, decimals: nat): Result<int, ParseError> {
    var negative := formatted != [] && formatted[0] == '-';
    var digits := Unscaled(if negative then formatted[1..] else formatted, decimals);
    match digits
    case None => Err(SyntaxError)
    case Some(ds) => if IsDigits(ds) then Ok(if negative then 0 - ToNat(ds) else ToNat(ds)) else Err(SyntaxError)
  }

  lemma PadStartPads(part: nat, decimals: nat)
    requires decimals > 0 && part < Pow10(decimals)
    ensures var frac := PadStart(ToText(part), decimals);
            |frac| == decimals && AllDigits(frac) && ToNat(frac) == part
  {
    TextIsShort(part, decimals);
    TextRoundTrip(part);
    LeadingZerosDoNotCount(decimals - |ToText(part)|, ToText(part));
  }

  lemma WithPointParses(whole: nat, part: nat, decimals: nat)
    requires decimals > 0 && part < Pow10(decimals)
    ensures var text := WithPoint(whole, part, decimals);
            && text != [] && text[0] != '-' && Unscaled(text, decimals).Some?
            && AllDigits(Unscaled(text, decimals).value)
            && ToNat(Unscaled(text, decimals).value) == whole * Pow10(decimals) + part
  {
    var front, frac := ToText(whole), PadStart(ToText(part), decimals);
    PadStartPads(part, decimals);
    TextRoundTrip(whole);
    ToNatJoins(front, frac);
    var text := front + "." + frac;
    assert text[..|front|] == front && text[|front| + 1..] == frac;
  }

  lemma AbsTextParses(value: nat, decimals: nat)
    ensures var text := AbsText(value, decimals);
            && text != [] && text[0] != '-' && Unscaled(text, decimals).Some?
            && AllDigits(Unscaled(text, decimals).value) && ToNat(Unscaled(text, decimals).value) == value
  {
    if decimals == 0 {
      TextRoundTrip(value);
    } else {
      WholeAndPart(value, Pow10(decimals));
      WithPointParses(Whole(value, Pow10(decimals)), Part(value, Pow10(decimals)), decimals);
    }
  }

  /** Parsing undoes printing, for every integer and every scale. */
  lemma PrintThenParse(value: int, decimals: nat)
    ensures ParseDecimal(FormatDecimal(value, decimals), decimals) == Ok(value)
  {
    AbsTextParses(Abs(value), decimals);
    if value < 0 {
      assert ("-" + AbsText(-value, decimals))[1..] == AbsText(-value, decimals);
    }
  }

  // ---- written decimals to base units ----------------------------------------------------------------------

  datatype CentsError = InvalidAmount | Overflow

  /** A written decimal: its integer digits and its fractional digits. */
  datatype Written = Written(int_: string, frac: string)

  ghost predicate ValidWritten(w: Written) {
    w.int_ != [] && AllDigits(w.int_) && AllDigits(w.frac)
  }

  /** `/[1-9]/.test(s)`. */
  predicate HasNonZero(s: string) {
    if s == [] then false else HasNonZero(s[..|s| - 1]) || '1' <= s[|s| - 1] <= '9'
  }

  /** `frac` filled up or cut to the wanted number of digits. */
  function Kept(frac: string, decimals: nat): string {
    (frac + Zeros(decimals))[..decimals]
  }

  function Discarded(frac: string, decimals: nat): string {
    if |frac| > decimals then frac[decimals..] else ""
  }

  /** Whether the discarded digits push the result up. */
  predicate RoundsUp(discarded: string, rounding: Mode) {
    HasNonZero(discarded)
    && if rounding == Ceil then true
       else if rounding == HalfUp then
         var first, rest := discarded[0], discarded[1..];
         first > '5' || (first == '5' && HasNonZero(rest)) || (first == '5' && !HasNonZero(rest))
       else false
  }

  /** The arithmetic of `toCentsExact` on parsed digits. */
  function ToCents(w: Written, decimals: nat, rounding: Mode): Result<int, CentsError>
    requires ValidWritten(w)
  {
    var digits := w.int_ + Kept(w.frac, decimals);
    var magnitude := ToNat(digits) + if RoundsUp(Discarded(w.frac, decimals), rounding) then 1 else 0;
    if InRange(magnitude) then Ok(magnitude) else Err(Overflow)
  }

  lemma {:induction false} NonZeroDigits(s: string)
    requires AllDigits(s)
    ensures HasNonZero(s) <==> ToNat(s) > 0
  {
    if s != [] {
      NonZeroDigits(s[..|s| - 1]);
    }
  }

  /** The first of some digits decides which half of the range they are in. */
  lemma FirstDigitDecides(s: string)
    requires AllDigits(s) && s != []
    ensures s[0] >= '5' <==> 2 * ToNat(s) >= Pow10(|s|)
  {
    var rest, p := s[1..], Pow10(|s| - 1);
    assert s == [s[0]] + rest;
    assert [s[0]][..0] == [];
    ToNatJoins([s[0]], rest);
    ToNatIsSmall(rest);
    var d := DigitValue(s[0]);
    assert ToNat([s[0]]) == d;
    HalfOfTen(d, ToNat(rest), p);
  }

  lemma HalfOfTen(d: nat, r: nat, p: nat)
    requires d < 10 && r < p
    ensures d >= 5 <==> 2 * (d * p + r) >= 10 * p
  {
    if d >= 5 {
      assert d * p >= 5 * p;
    } else {
      assert d * p <= 4 * p;
    }
  }

  ghost predicate CentsMode(rounding: Mode) {
    rounding == Floor || rounding == Ceil || rounding == HalfUp
  }

  lemma AddTimes(a: int, b: int, c: int)
    ensures (a + b) * c == a * c + b * c && (a - b) * c == a * c - b * c
  {
  }

  lemma PositiveTimes(a: int, c: int)
    requires c > 0
    ensures a >= 0 ==> a * c >= 0
    ensures a > 0 ==> a * c > 0
  {
  }

  lemma OrderScales(a: int, b: int, c: int)
    requires c > 0
    ensures a <= b <==> a * c <= b * c
  {
    AddTimes(b, a, c);
    AddTimes(a, b, c);
    if a <= b {
      PositiveTimes(b - a, c);
    } else {
      PositiveTimes(a - b, c);
    }
  }

  lemma TwiceTimes(a: int, c: int)
    ensures (2 * a) * c == 2 * (a * c)
  {
  }

  /** A common factor of dividend and divisor does not change the rounding. */
  lemma PicksScale(mode: Mode, n: int, d: int, q: int, p: int, c: int)
    requires c > 0 && n >= 0 && CentsMode(mode) && Picks(mode, n, d, q, p)
    ensures Picks(mode, n * c, d * c, q, p * c)
  {
    PositiveTimes(n, c);
    if mode == HalfUp {
      OrderScales(2 * p - d, 2 * n, c);
      OrderScales(2 * p + d, 2 * n, c);
      AddTimes(2 * p, d, c);
      TwiceTimes(p, c);
      TwiceTimes(n, c);
    } else {
      OrderScales(p, n, c);
      OrderScales(n, p, c);
      OrderScales(p + d, n, c);
      OrderScales(n, p - d, c);
      AddTimes(p, d, c);
    }
  }

  lemma TimesAssociate(a: int, b: int, c: int)
    ensures a * b * c == a * (b * c)
  {
  }

  lemma RoundScales(n: int, d: int, c: int, mode: Mode)
    requires n >= 0 && d > 0 && c > 0 && CentsMode(mode)
    ensures d * c > 0 && Round(n * c, d * c, mode) == Round(n, d, mode)
  {
    var q := Round(n, d, mode);
    RoundMeetsItsMode(n, d, mode, q);
    PicksScale(mode, n, d, q, q * d, c);
    PositiveTimes(d, c);
    TimesAssociate(q, d, c);
    RoundMeetsItsMode(n * c, d * c, mode, q);
  }

  lemma RoundOfSplit(head: int, r: int, d: int, mode: Mode)
    requires head >= 0 && 0 <= r < d && CentsMode(mode)
    ensures Round(head * d + r, d, mode)
            == head + if (mode == Ceil && r > 0) || (mode == HalfUp && 2 * r >= d) then 1 else 0
  {
    var q := head + if (mode == Ceil && r > 0) || (mode == HalfUp && 2 * r >= d) then 1 else 0;
    PositiveTimes(head, d);
    AddTimes(head, 1, d);
    assert q * d == head * d || q * d == head * d + d;
    RoundMeetsItsMode(head * d + r, d, mode, q);
  }

  lemma {:induction false} ZerosCut(n: nat, k: nat)
    requires k <= n
    ensures Zeros(n)[..k] == Zeros(k)
  {
    if k < n {
      ZerosCut(n - 1, k);
    }
  }

  lemma DiscardedDecide(discarded: string, rounding: Mode)
    requires AllDigits(discarded) && CentsMode(rounding)
    ensures RoundsUp(discarded, rounding)
            <==> (rounding == Ceil && ToNat(discarded) > 0) || (rounding == HalfUp && discarded != [] && 2 * ToNat(discarded) >= Pow10(|discarded|))
  {
    NonZeroDigits(discarded);
    if discarded != [] {
      FirstDigitDecides(discarded);
    }
  }

  lemma RoundOfExact(n: int, a: int, b: int, mode: Mode)
    requires b > 0
    ensures Round(n * (a * b), b, mode) == n * a
  {
    TimesAssociate(n, a, b);
    RoundOfMultiple(n * a, b, mode);
  }

  lemma KeptOfShort(frac: string, decimals: nat)
    requires |frac| <= decimals
    ensures Kept(frac, decimals) == frac + Zeros(decimals - |frac|)
  {
    ZerosCut(decimals, decimals - |frac|);
  }

  /** Few digits: nothing is discarded, and the division by 10^|frac| is exact. */
  lemma ShortFraction(w: Written, decimals: nat, rounding: Mode)
    requires ValidWritten(w) && CentsMode(rounding) && |w.frac| <= decimals
    ensures AllDigits(w.int_ + Kept(w.frac, decimals))
    ensures ToNat(w.int_ + Kept(w.frac, decimals)) == Round(ToNat(w.int_ + w.frac) * Pow10(decimals), Pow10(|w.frac|), rounding)
  {
    var k := decimals - |w.frac|;
    KeptOfShort(w.frac, decimals);
    assert w.int_ + Kept(w.frac, decimals) == w.int_ + w.frac + Zeros(k);
    TrailingZerosScale(w.int_ + w.frac, k);
    PowAdds(k, |w.frac|);
    RoundOfExact(ToNat(w.int_ + w.frac), Pow10(k), Pow10(|w.frac|), rounding);
  }

  /** Many digits: the discarded ones are the remainder of a division by their power of ten. */
  lemma LongFraction(w: Written, decimals: nat, rounding: Mode)
    requires ValidWritten(w) && CentsMode(rounding) && |w.frac| > decimals
    ensures AllDigits(w.int_ + Kept(w.frac, decimals))
    ensures ToNat(w.int_ + Kept(w.frac, decimals)) + (if RoundsUp(Discarded(w.frac, decimals), rounding) then 1 else 0)
            == Round(ToNat(w.int_ + w.frac) * Pow10(decimals), Pow10(|w.frac|), rounding)
  {
    hide ToNat, Pow10, Round, RoundsUp;
    var head, tail := w.int_ + w.frac[..decimals], w.frac[decimals..];
    var k := |tail|;
    assert Kept(w.frac, decimals) == w.frac[..decimals];
    assert w.int_ + w.frac == head + tail;
    ToNatJoins(head, tail);
    ToNatIsSmall(tail);
    DiscardedDecide(tail, rounding);
    RoundOfSplit(ToNat(head), ToNat(tail), Pow10(k), rounding);
    RoundScales(ToNat(w.int_ + w.frac), Pow10(k), Pow10(decimals), rounding);
    PowAdds(k, decimals);
  }

  /** The converted amount is the written decimal times 10^decimals, rounded once and exactly as asked. */
  lemma ToCentsIsExact(w: Written, decimals: nat, rounding: Mode)
    requires ValidWritten(w) && CentsMode(rounding)
    ensures var exact := Round(ToNat(w.int_ + w.frac) * Pow10(decimals), Pow10(|w.frac|), rounding);
            ToCents(w, decimals, rounding) == if InRange(exact) then Ok(exact) else Err(Overflow)
  {
    if |w.frac| <= decimals {
      ShortFraction(w, decimals, rounding);
    } else {
      LongFraction(w, decimals, rounding);
    }
  }

  // ---- reading and writing the decimal ---------------------------------------------------------------------

  function IndexOf(s: string, c: char): (i: nat)
    ensures i <= |s| && c !in s[..i] && (i < |s| ==> s[i] == c)
  {
    if s == [] || s[0] == c then 0 else 1 + IndexOf(s[1..], c)
  }

  /** `/^0+(?=\d)/` removed. */
  function StripLeadingZeros(s: string): string {
    if |s| > 1 && s[0] == '0' && IsDigit(s[1]) then StripLeadingZeros(s[1..]) else s
  }

  function StripTrailingZeros(s: string): string {
    if s != [] && s[|s| - 1] == '0' then StripTrailingZeros(s[..|s| - 1]) else s
  }

  /** A plus sign is passed over; a minus sign is refused. */
  function Unsigned(text: string): string {
    if text != [] && text[0] == '+' then text[1..] else text
  }

  /** Digits, a point, digits: one part or the other may be missing. */
  function ParseBody(body: string): (w: Option<Written>)
    ensures w.Some? ==> ValidWritten(w.value)
  {
    var point := IndexOf(body, '.');
    var whole, frac := body[..point], if point < |body| then body[point + 1..] else "";
    if (whole == [] && frac == []) || !IsDigits(whole) || !IsDigits(frac) then None
    else
      StripKeepsDigits(whole);
      Some(Written(if whole == [] then "0" else StripLeadingZeros(whole), frac))
  }

  /** The pattern of `parseDecimalDigits` on a text without exponent. */
  function ParseDigits(text: string): (w: Option<Written>)
    ensures w.Some? ==> ValidWritten(w.value)
  {
    if text != [] && text[0] == '-' then None else ParseBody(Unsigned(text))
  }

  lemma {:induction false} StripKeepsDigits(s: string)
    requires AllDigits(s)
    ensures AllDigits(StripLeadingZeros(s)) && ToNat(StripLeadingZeros(s)) == ToNat(s)
    ensures s != [] ==> StripLeadingZeros(s) != []
  {
    if |s| > 1 && s[0] == '0' {
      StripKeepsDigits(s[1..]);
      LeadingZerosDoNotCount(1, s[1..]);
      assert Zeros(1) == Zeros(0) + "0" == "0";
      assert s == "0" + s[1..];
    }
  }

  lemma {:induction false} StripTrailingSplits(s: string)
    ensures var t := StripTrailingZeros(s); |t| <= |s| && s == t + Zeros(|s| - |t|)
  {
    if s != [] && s[|s| - 1] == '0' {
      StripTrailingSplits(s[..|s| - 1]);
    }
  }

  // ---- exponents -------------------------------------------------------------------------------------------

  predicate IsE(c: char) {
    c == 'e' || c == 'E'
  }

  /** Where `split(/[eE]/)` first cuts. */
  function CutAtE(s: string): (i: nat)
    ensures i <= |s| && (i < |s| ==> IsE(s[i]))
  {
    if s == [] || IsE(s[0]) then 0 else 1 + CutAtE(s[1..])
  }

  function DigitPrefix(s: string): (d: string)
    ensures AllDigits(d)
  {
    if s != [] && IsDigit(s[0]) then [s[0]] + DigitPrefix(s[1..]) else ""
  }

  /** `parseInt(s, 10)`. */
  function ParseInt(s: string): Option<int> {
    var t := TrimStart(s);
    var signed := t != [] && (t[0] == '+' || t[0] == '-');
    var digits := DigitPrefix(if signed then t[1..] else t);
    if digits == [] then None else Some(if signed && t[0] == '-' then 0 - ToNat(digits) else ToNat(digits))
  }

  /** The digits of a mantissa with the point at an index, which may lie outside them. */
  function MovePoint(digits: string, pointIndex: int): string {
    if pointIndex <= 0 then "0" + "." + (Zeros(-pointIndex) + digits)
    else if pointIndex >= |digits| then digits + Zeros(pointIndex - |digits|)
    else digits[..pointIndex] + "." + digits[pointIndex..]
  }

  /** What is left of the mantissa when its first point is taken out, and where the point goes. */
  function MantissaDigits(mantissa: string): string {
    var dot := IndexOf(mantissa, '.');
    mantissa[..dot] + if dot < |mantissa| then mantissa[dot + 1..] else ""
  }

  /** The text between the first and the second exponent letter. */
  function ExponentText(text: string): string {
    var cut := CutAtE(text);
    var tail := if cut < |text| then text[cut + 1..] else "";
    tail[..CutAtE(tail)]
  }

  /** `expandExponent`. */
  function ExpandExponent(text: string): string {
    var negative := text != [] && text[0] == '-';
    var unsigned := if negative then text[1..] else text;
    var exponent := ParseInt(ExponentText(unsigned));
    if exponent.None? then text
    else
      var mantissa := unsigned[..CutAtE(unsigned)];
      var moved := MovePoint(MantissaDigits(mantissa), IndexOf(mantissa, '.') + exponent.value);
      if negative then "-" + moved else moved
  }

  /** `toCentsExact`. */
  function ToCentsExact(amount: string, decimals: nat, rounding: Mode): Result<int, CentsError> {
    var text := Trim(amount);
    var w := ParseDigits(if CutAtE(text) < |text| then ExpandExponent(text) else text);
    if w.None? then Err(InvalidAmount) else ToCents(w.value, decimals, rounding)
  }

  lemma {:induction false} IndexIsThere(whole: string, frac: string)
    requires AllDigits(whole)
    ensures IndexOf(whole + "." + frac, '.') == |whole|
  {
    if whole != [] {
      assert IsDigit(whole[0]);
      IndexIsThere(whole[1..], frac);
      assert (whole + "." + frac)[1..] == whole[1..] + "." + frac;
    }
  }

  lemma {:induction false} NoPoint(whole: string)
    requires AllDigits(whole)
    ensures IndexOf(whole, '.') == |whole|
  {
    if whole != [] {
      assert IsDigit(whole[0]);
      NoPoint(whole[1..]);
    }
  }

  lemma ReadsPoint(whole: string, frac: string)
    requires AllDigits(whole) && AllDigits(frac) && whole != []
    ensures ParseDigits(whole + "." + frac) == Some(Written(StripLeadingZeros(whole), frac))
  {
    var text := whole + "." + frac;
    assert IsDigit(whole[0]) && text[0] == whole[0];
    IndexIsThere(whole, frac);
    assert text[..|whole|] == whole && text[|whole| + 1..] == frac;
  }

  lemma ReadsWhole(whole: string)
    requires AllDigits(whole) && whole != []
    ensures ParseDigits(whole) == Some(Written(StripLeadingZeros(whole), ""))
  {
    assert IsDigit(whole[0]);
    NoPoint(whole);
    assert whole[..|whole|] == whole;
  }

  /** Leading zeros do not count. */
  lemma StripJoins(whole: string, s: string)
    requires AllDigits(whole) && AllDigits(s)
    ensures AllDigits(StripLeadingZeros(whole) + s) && AllDigits(whole + s)
    ensures ToNat(StripLeadingZeros(whole) + s) == ToNat(whole + s)
  {
    StripKeepsDigits(whole);
    ToNatJoins(StripLeadingZeros(whole), s);
    ToNatJoins(whole, s);
  }

  /** m / 10^g is n / 10^f times 10^up and divided by 10^down, compared crosswise. */
  ghost predicate SameValue(m: nat, g: nat, down: nat, n: nat, f: nat, up: nat) {
    m * Pow10(f + down) == n * Pow10(g + up)
  }

  lemma PowersJoin(n: nat, a: nat, b: nat)
    ensures n * Pow10(a) * Pow10(b) == n * Pow10(a + b)
  {
    PowAdds(a, b);
    TimesAssociate(n, Pow10(a), Pow10(b));
  }

  lemma ZeroInFront(s: string)
    requires AllDigits(s)
    ensures AllDigits("0" + s) && ToNat("0" + s) == ToNat(s)
  {
    var zero := "0";
    assert zero[..0] == "" && ToNat("") == 0 && ToNat(zero) == 0;
    ToNatJoins(zero, s);
    NothingTimes(Pow10(|s|));
  }

  /** The text reads as m / 10^g. */
  ghost predicate Reads(text: string, m: nat, g: nat) {
    var w := ParseDigits(text);
    w.Some? && |w.value.frac| == g && ToNat(w.value.int_ + w.value.frac) == m
  }

  lemma PointBefore(digits: string, zeros: nat)
    requires AllDigits(digits)
    ensures Reads("0" + "." + (Zeros(zeros) + digits), ToNat(digits) * Pow10(0), zeros + |digits|)
  {
    TimesPowZero(ToNat(digits));
    var zero, frac := "0", Zeros(zeros) + digits;
    ReadsPoint(zero, frac);
    StripJoins(zero, frac);
    ZeroInFront(frac);
    LeadingZerosDoNotCount(zeros, digits);
  }

  lemma PointAfter(digits: string, zeros: nat)
    requires AllDigits(digits) && digits != []
    ensures Reads(digits + Zeros(zeros), ToNat(digits) * Pow10(zeros), 0)
  {
    ReadsWhole(digits + Zeros(zeros));
    StripJoins(digits + Zeros(zeros), "");
    TrailingZerosScale(digits, zeros);
    assert digits + Zeros(zeros) + "" == digits + Zeros(zeros);
  }

  lemma PointInside(digits: string, point: nat)
    requires AllDigits(digits) && 0 < point < |digits|
    ensures Reads(digits[..point] + "." + digits[point..], ToNat(digits) * Pow10(0), |digits| - point)
  {
    var front, back := digits[..point], digits[point..];
    TimesPowZero(ToNat(digits));
    CutJoins(digits, point);
    ReadsPoint(front, back);
    StripJoins(front, back);
  }

  lemma CutJoins<T>(s: seq<T>, k: nat)
    requires k <= |s|
    ensures s[..k] + s[k..] == s
  {
  }

  lemma TimesPowZero(n: nat)
    ensures n * Pow10(0) == n
  {
  }

  /** Where the point lands, and what the digits are worth there. */
  lemma MovedReads(digits: string, pointIndex: int) returns (z: nat, g: nat)
    requires AllDigits(digits) && digits != ""
    ensures Reads(MovePoint(digits, pointIndex), ToNat(digits) * Pow10(z), g)
    ensures g == z + |digits| - pointIndex
  {
    if pointIndex <= 0 {
      PointBefore(digits, -pointIndex);
      z, g := 0, |digits| - pointIndex;
    } else if pointIndex >= |digits| {
      PointAfter(digits, pointIndex - |digits|);
      z, g := pointIndex - |digits|, 0;
    } else {
      PointInside(digits, pointIndex);
      z, g := 0, |digits| - pointIndex;
    }
  }

  lemma CrossPowers(n: nat, z: nat, g: nat, down: nat, f: nat, up: nat)
    requires z + f + down == g + up
    ensures SameValue(n * Pow10(z), g, down, n, f, up)
  {
    PowersJoin(n, z, f + down);
    assert z + (f + down) == g + up;
  }

  function Up(exponent: int): nat {
    if exponent > 0 then exponent else 0
  }

  /**
   Moving the point multiplies the written value by the power of ten, exactly: with i digits before the
   point and f after it, the value is ToNat(i + f) / 10^|f|, and the fractions are compared crosswise.
   */
  lemma ExponentIsExact(whole: string, frac: string, exponent: int) returns (m: nat, g: nat)
    requires AllDigits(whole) && AllDigits(frac) && whole + frac != ""
    ensures Reads(MovePoint(whole + frac, |whole| + exponent), m, g)
    ensures SameValue(m, g, Up(-exponent), ToNat(whole + frac), |frac|, Up(exponent))
  {
    hide ParseDigits, ToNat, Pow10, MovePoint, SameValue, Reads;
    var z;
    z, g := MovedReads(whole + frac, |whole| + exponent);
    m := ToNat(whole + frac) * Pow10(z);
    CrossPowers(ToNat(whole + frac), z, g, Up(-exponent), |frac|, Up(exponent));
  }

  // ---- base units to written decimals ----------------------------------------------------------------------

  /** The digits of the amount around the point, filled up to a whole part. */
  function SplitDigits(digits: string, decimals: nat): (string, string) {
    if |digits| > decimals then (digits[..|digits| - decimals], digits[|digits| - decimals..])
    else ("0", Zeros(decimals - |digits|) + digits)
  }

  /** `fromCentsExact`: trailing zeros of the fraction go, and the point with them when nothing is left. */
  function FromCentsExact(cents: int, decimals: nat): Result<string, CentsError> {
    if cents < 0 || !InRange(cents) then Err(InvalidAmount)
    else
      var (whole, frac) := SplitDigits(ToText(cents), decimals);
      var kept := StripTrailingZeros(frac);
      Ok(if kept == "" then whole else whole + "." + kept)
  }

  /** The shortest way to write the amount: no zero in front of another digit, none at the end of the fraction. */
  ghost predicate IsShortest(text: string, whole: string, frac: string) {
    && AllDigits(whole) && whole != "" && (whole[0] == '0' ==> whole == "0")
    && AllDigits(frac) && (frac != "" ==> frac[|frac| - 1] != '0')
    && text == if frac == "" then whole else whole + "." + frac
  }

  lemma FromCentsSays(cents: int, decimals: nat) returns (whole: string, frac: string)
    requires cents >= 0 && InRange(cents)
    ensures FromCentsExact(cents, decimals).Ok? && IsShortest(FromCentsExact(cents, decimals).value, whole, frac)
    ensures |frac| <= decimals && AllDigits(whole + frac + Zeros(decimals - |frac|))
    ensures ToNat(whole + frac + Zeros(decimals - |frac|)) == cents
  {
    hide InRange, ToNat, ToText, SplitDigits, StripTrailingZeros, AllDigits, Zeros;
    var split := SplitDigits(ToText(cents), decimals);
    SplitHolds(cents, decimals);
    whole, frac := split.0, StripTrailingZeros(split.1);
    StripTrailingSays(split.1);
    WholeStartsWell(cents, decimals);
    assert whole + frac + Zeros(decimals - |frac|) == whole + (frac + Zeros(decimals - |frac|));
    DigitsJoin(whole, split.1);
  }

  lemma {:induction false} NothingLeftToStrip(s: string)
    ensures var t := StripTrailingZeros(s); t != [] ==> t[|t| - 1] != '0'
  {
    if s != [] && s[|s| - 1] == '0' {
      NothingLeftToStrip(s[..|s| - 1]);
    }
  }

  lemma StripTrailingSays(s: string)
    requires AllDigits(s)
    ensures var t := StripTrailingZeros(s);
            && |t| <= |s| && s == t + Zeros(|s| - |t|) && AllDigits(t) && (t != [] ==> t[|t| - 1] != '0')
  {
    hide StripTrailingZeros;
    StripTrailingSplits(s);
    NothingLeftToStrip(s);
    assert StripTrailingZeros(s) == s[..|StripTrailingZeros(s)|];
  }

  lemma DigitsJoin(a: string, b: string)
    requires AllDigits(a) && AllDigits(b)
    ensures AllDigits(a + b)
  {
  }

  lemma WholeStartsWell(cents: nat, decimals: nat)
    ensures var whole := SplitDigits(ToText(cents), decimals).0; whole != [] && (whole[0] == '0' ==> whole == "0")
  {
    var text := ToText(cents);
    if |text| > decimals && text[0] == '0' {
      assert cents == 0 && text == "0";
    }
  }

  lemma SplitHolds(cents: nat, decimals: nat)
    ensures var (whole, frac) := SplitDigits(ToText(cents), decimals);
            && whole != [] && AllDigits(whole) && AllDigits(frac) && |frac| == decimals && ToNat(whole + frac) == cents
  {
    var digits := ToText(cents);
    TextRoundTrip(cents);
    if |digits| > decimals {
      assert digits[..|digits| - decimals] + digits[|digits| - decimals..] == digits;
    } else {
      ZeroInFront(Zeros(decimals - |digits|) + digits);
      LeadingZerosDoNotCount(decimals - |digits|, digits);
    }
  }

  /** A plain text of digits and a point has no exponent and nothing to trim. */
  lemma {:induction false} NoExponent(s: string)
    requires forall i :: 0 <= i < |s| ==> IsDigit(s[i]) || s[i] == '.'
    ensures CutAtE(s) == |s|
  {
    if s != [] {
      assert IsDigit(s[0]) || s[0] == '.';
      NoExponent(s[1..]);
    }
  }

  lemma PlainText(text: string)
    requires text != [] && forall i :: 0 <= i < |text| ==> IsDigit(text[i]) || text[i] == '.'
    ensures Trim(text) == text && CutAtE(text) == |text|
  {
    NoExponent(text);
    assert IsDigit(text[0]) || text[0] == '.';
    assert IsDigit(text[|text| - 1]) || text[|text| - 1] == '.';
    TrimKeeps(text);
  }

  /** Filling the kept digits up again gives the fraction back, and nothing is discarded. */
  lemma KeptFillsUp(frac: string)
    requires AllDigits(frac)
    ensures var kept := StripTrailingZeros(frac);
            AllDigits(kept) && |kept| <= |frac| && Kept(kept, |frac|) == frac && Discarded(kept, |frac|) == ""
  {
    StripTrailingSplits(frac);
    KeptOfShort(StripTrailingZeros(frac), |frac|);
  }

  /** The written amount reads as its own digits. */
  lemma WrittenReads(whole: string, kept: string)
    requires AllDigits(whole) && AllDigits(kept) && whole != []
    ensures var text := if kept == "" then whole else whole + "." + kept;
            Trim(text) == text && CutAtE(text) == |text| && ParseDigits(text) == Some(Written(StripLeadingZeros(whole), kept))
  {
    hide ParseDigits, Trim, CutAtE, StripLeadingZeros;
    PlainText(if kept == "" then whole else whole + "." + kept);
    if kept == "" {
      ReadsWhole(whole);
    } else {
      ReadsPoint(whole, kept);
    }
  }

  lemma ToCentsOfKept(whole: string, frac: string, rounding: Mode)
    requires AllDigits(whole) && AllDigits(frac) && whole != [] && InRange(ToNat(whole + frac))
    ensures var w := Written(StripLeadingZeros(whole), StripTrailingZeros(frac));
            ValidWritten(w) && ToCents(w, |frac|, rounding) == Ok(ToNat(whole + frac))
  {
    StripKeepsDigits(whole);
    StripJoins(whole, frac);
    KeptFillsUp(frac);
  }

  /** Converting the written amount gives the amount back: every in-range amount, every precision, every rounding. */
  lemma CentsRoundTrip(cents: int, decimals: nat, rounding: Mode)
    requires cents >= 0 && InRange(cents)
    ensures FromCentsExact(cents, decimals).Ok?
    ensures ToCentsExact(FromCentsExact(cents, decimals).value, decimals, rounding) == Ok(cents)
  {
    var (whole, frac) := SplitDigits(ToText(cents), decimals);
    SplitHolds(cents, decimals);
    ToCentsOfKept(whole, frac, rounding);
    WrittenReads(whole, StripTrailingZeros(frac));
  }
}
