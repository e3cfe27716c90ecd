/**
 Which texts `toCentsExact` reads as amounts, and what it makes of them. Written decimals, with or without
 an exponent, are converted exactly; but the exponent is cut out of the text by hand, so that some texts
 that are no decimals are read, and one form that is a decimal is not.
 */
module CentsText {
  import opened Wrappers
  import opened Amounts
  import opened DecimalText
  import opened Rounding
  import opened Whitespace
  import opened FixedDecimals

  // ---- texts without an exponent -----------------------------------------------------------------------

  /** Digits with a point somewhere among them, or none. */
  ghost predicate IsDecimal(text: string, whole: string, frac: string) {
    && AllDigits(whole) && AllDigits(frac) && whole + frac != ""
    && (text == whole + "." + frac || (frac == "" && text == whole))
  }

  ghost predicate ReadsAsDecimal(text: string) {
    exists whole, frac :: IsDecimal(Unsigned(text), whole, frac)
  }

  lemma DecimalStarts(text: string, whole: string, frac: string)
    requires IsDecimal(text, whole, frac)
    ensures text != [] && text[0] != '-' && text[0] != '+'
    ensures IndexOf(text, '.') == |whole|
  {
    assert whole == [] ==> text[0] == '.';
    assert whole != [] ==> text[0] == whole[0];
    if text == whole + "." + frac {
      IndexIsThere(whole, frac);
    } else {
      NoPoint(whole);
    }
  }

  lemma DecimalParses(text: string, whole: string, frac: string)
    requires IsDecimal(Unsigned(text), whole, frac)
    ensures ParseDigits(text) == Some(Written(if whole == [] then "0" else StripLeadingZeros(whole), frac))
  {
    hide ToNat, StripLeadingZeros, Reads;
    var body := Unsigned(text);
    DecimalStarts(body, whole, frac);
    assert body[..|whole|] == whole;
    assert |whole| < |body| ==> body[|whole| + 1..] == frac;
  }

  /** A decimal is read as itself. */
  lemma DecimalReads(text: string, whole: string, frac: string)
    requires IsDecimal(Unsigned(text), whole, frac)
    ensures Reads(text, ToNat(whole + frac), |frac|)
  {
    hide ParseDigits;
    DecimalParses(text, whole, frac);
    if whole == [] {
      ZeroInFront(frac);
      assert whole + frac == frac;
    } else {
      StripKeepsDigits(whole);
      StripJoins(whole, frac);
    }
  }

  lemma OnlyDecimalsRead(text: string)
    requires ParseDigits(text).Some?
    ensures ReadsAsDecimal(text)
  {
    var body := Unsigned(text);
    var point := IndexOf(body, '.');
    var whole, frac := body[..point], if point < |body| then body[point + 1..] else "";
    assert point < |body| ==> body == whole + "." + frac;
    assert IsDecimal(body, whole, frac);
  }

  lemma ReadsExactlyDecimals(text: string)
    ensures ParseDigits(text).Some? <==> ReadsAsDecimal(text)
  {
    if ReadsAsDecimal(text) {
      var whole, frac :| IsDecimal(Unsigned(text), whole, frac);
      DecimalReads(text, whole, frac);
    }
    if ParseDigits(text).Some? {
      OnlyDecimalsRead(text);
    }
  }

  // ---- texts with an exponent --------------------------------------------------------------------------

  /** Moving the point into these characters leaves a decimal. */
  ghost predicate MovesToDecimal(digits: string, point: int) {
    if point <= 0 then AllDigits(digits)
    else if point < |digits| then AllDigits(Unsigned(digits))
    else ReadsAsDecimal(digits + Zeros(point - |digits|))
  }

  lemma PointInFront(digits: string, zeros: nat)
    ensures ParseDigits("0" + "." + (Zeros(zeros) + digits)).Some? <==> AllDigits(digits)
  {
    var zero, rest := "0", Zeros(zeros) + digits;
    var text := zero + "." + rest;
    IndexIsThere(zero, rest);
    assert text[..1] == zero && text[1 + 1..] == rest;
    assert AllDigits(rest) <==> AllDigits(digits) by {
      assert forall i :: 0 <= i < |digits| ==> rest[zeros + i] == digits[i];
    }
  }

  lemma {:induction false} IndexAtMost(s: string, c: char, k: nat)
    requires k < |s| && s[k] == c
    ensures IndexOf(s, c) <= k
  {
    if k > 0 && s[0] != c {
      IndexAtMost(s[1..], c, k - 1);
    }
  }

  lemma SplitAtPoint(front: string, back: string)
    requires back != ""
    ensures ParseBody(front + "." + back).Some? <==> AllDigits(front + back)
  {
    var body := front + "." + back;
    var point := IndexOf(body, '.');
    assert body[|front|] == '.';
    if point < |front| {
      assert body[point + 1..][|front| - point - 1] == '.';
      assert body[point] == front[point];
    } else {
      IndexAtMost(body, '.', |front|);
      assert body[..point] == front && body[point + 1..] == back;
    }
    JoinedDigits(front, back);
  }

  lemma SignedPointWithin(front: string, back: string)
    requires front != [] && back != [] && (front[0] == '+' || front[0] == '-')
    ensures ParseDigits(front + "." + back).Some? <==> front[0] == '+' && AllDigits(front[1..] + back)
  {
    hide ParseBody, AllDigits;
    TailOfJoin(front + ".", back);
    TailOfJoin(front, ".");
    SplitAtPoint(front[1..], back);
  }

  lemma PlainPointWithin(front: string, back: string)
    requires front != [] && back != [] && front[0] != '+' && front[0] != '-'
    ensures ParseDigits(front + "." + back).Some? <==> AllDigits(front + back)
  {
    hide ParseBody, AllDigits;
    SplitAtPoint(front, back);
  }

  lemma PointWithin(digits: string, point: nat)
    requires 0 < point < |digits|
    ensures ParseDigits(digits[..point] + "." + digits[point..]).Some? <==> AllDigits(Unsigned(digits))
  {
    hide ParseDigits, AllDigits;
    var front, back := digits[..point], digits[point..];
    CutJoins(digits, point);
    if digits[0] == '+' || digits[0] == '-' {
      TailOfJoin(front, back);
      SignedPointWithin(front, back);
      if digits[0] == '-' {
        SignIsNoDigit(digits);
      }
    } else {
      PlainPointWithin(front, back);
    }
  }

  lemma TailOfJoin(front: string, back: string)
    requires front != []
    ensures (front + back)[1..] == front[1..] + back && (front + back)[0] == front[0]
  {
  }

  lemma SignIsNoDigit(text: string)
    requires text != [] && text[0] == '-'
    ensures !AllDigits(text)
  {
    assert !IsDigit(text[0]);
  }

  lemma JoinedDigits(a: string, b: string)
    ensures AllDigits(a + b) <==> AllDigits(a) && AllDigits(b)
  {
    assert forall i :: 0 <= i < |a| ==> (a + b)[i] == a[i];
    assert forall i :: 0 <= i < |b| ==> (a + b)[|a| + i] == b[i];
  }

  lemma MovedIsReadExactlyWhen(digits: string, point: int)
    ensures ParseDigits(MovePoint(digits, point)).Some? <==> MovesToDecimal(digits, point)
  {
    if point <= 0 {
      PointInFront(digits, -point);
    } else if point < |digits| {
      PointWithin(digits, point);
    } else {
      ReadsExactlyDecimals(digits + Zeros(point - |digits|));
    }
  }

  ghost predicate MantissaIsRead(mantissa: string, exponent: Option<int>) {
    && exponent.Some? && (mantissa == [] || mantissa[0] != '-')
    && MovesToDecimal(MantissaDigits(mantissa), IndexOf(mantissa, '.') + exponent.value)
  }

  /** The texts that are read, by their characters. */
  ghost predicate IsRead(text: string) {
    var cut := CutAtE(text);
    if cut == |text| then ReadsAsDecimal(text) else MantissaIsRead(text[..cut], ParseInt(ExponentText(text)))
  }

  lemma {:induction false} CutAfterSign(text: string)
    requires text != [] && !IsE(text[0])
    ensures CutAtE(text) == 1 + CutAtE(text[1..])
  {
  }

  lemma {:induction false} IndexAfterSign(text: string)
    requires text != [] && text[0] != '.'
    ensures IndexOf(text, '.') == 1 + IndexOf(text[1..], '.')
  {
  }

  lemma DecimalCharacters(text: string, whole: string, frac: string, k: nat)
    requires IsDecimal(text, whole, frac) && k < |text|
    ensures text[k] == '.' || IsDigit(text[k])
  {
    if text == whole + "." + frac {
      if k < |whole| {
        assert text[k] == whole[k];
      } else if k > |whole| {
        assert text[k] == frac[k - |whole| - 1];
      }
    }
  }

  /** An exponent letter that stays in the text spoils it. */
  lemma LetterIsNotRead(text: string)
    requires CutAtE(text) < |text|
    ensures ParseDigits(text).None?
  {
    if ParseDigits(text).Some? {
      OnlyDecimalsRead(text);
      var whole, frac :| IsDecimal(Unsigned(text), whole, frac);
      var i := CutAtE(text);
      var body := Unsigned(text);
      assert i > 0 || body == text;
      var k := if body == text then i else i - 1;
      assert body[k] == text[i];
      DecimalCharacters(body, whole, frac, k);
    }
  }

  lemma MinusIsNotRead(text: string)
    requires text != [] && text[0] == '-'
    ensures ParseDigits(text).None?
  {
  }

  lemma MinusIsRefused(text: string)
    requires CutAtE(text) < |text| && text[0] == '-'
    ensures ParseDigits(ExpandExponent(text)).None? && !IsRead(text)
  {
    hide ParseDigits, MovePoint, ParseInt, ExponentText, MantissaDigits;
    CutAfterSign(text);
    assert text[..CutAtE(text)][0] == '-';
    if ExpandExponent(text) == text {
      LetterIsNotRead(text);
    } else {
      MinusIsNotRead(ExpandExponent(text));
    }
  }

  lemma ExpandsTo(text: string)
    requires CutAtE(text) < |text| && text[0] != '-'
    ensures var mantissa, exponent := text[..CutAtE(text)], ParseInt(ExponentText(text));
            ExpandExponent(text) == if exponent.None? then text
                                    else MovePoint(MantissaDigits(mantissa), IndexOf(mantissa, '.') + exponent.value)
  {
    hide MovePoint, ParseInt, IndexOf, CutAtE, ExponentText, MantissaDigits;
  }

  lemma MantissaDecides(text: string)
    requires CutAtE(text) < |text| && text[0] != '-'
    ensures ParseDigits(ExpandExponent(text)).Some? <==> MantissaIsRead(text[..CutAtE(text)], ParseInt(ExponentText(text)))
  {
    hide ParseDigits, MovePoint, ParseInt, ExpandExponent, ExponentText, MantissaDigits, IndexOf, MovesToDecimal, CutAtE;
    ExpandsTo(text);
    var mantissa, exponent := text[..CutAtE(text)], ParseInt(ExponentText(text));
    if exponent.None? {
      LetterIsNotRead(text);
    } else {
      MovedIsReadExactlyWhen(MantissaDigits(mantissa), IndexOf(mantissa, '.') + exponent.value);
    }
  }

  lemma ExpandedIsReadExactlyWhen(text: string)
    requires CutAtE(text) < |text|
    ensures ParseDigits(ExpandExponent(text)).Some? <==> IsRead(text)
  {
    hide ParseDigits, ParseInt, ExpandExponent, ExponentText, MantissaIsRead, CutAtE, ReadsAsDecimal;
    if text[0] == '-' {
      MinusIsRefused(text);
    } else {
      MantissaDecides(text);
    }
  }

  /** A text is refused as an amount if and only if it is not one of the texts that are read. */
  lemma RefusedExactlyWhen(amount: string, decimals: nat, rounding: Mode)
    ensures ToCentsExact(amount, decimals, rounding) == Err(InvalidAmount) <==> !IsRead(Trim(amount))
  {
    hide ParseDigits, ExpandExponent, ToCents, IsRead;
    var text := Trim(amount);
    if CutAtE(text) < |text| {
      ExpandedIsReadExactlyWhen(text);
    } else {
      ReadsExactlyDecimals(text);
      PlainIsRead(text);
    }
    ToCentsInvalidNever(amount, decimals, rounding);
  }

  lemma PlainIsRead(text: string)
    requires CutAtE(text) == |text|
    ensures IsRead(text) <==> ReadsAsDecimal(text)
  {
  }

  lemma ToCentsInvalidNever(amount: string, decimals: nat, rounding: Mode)
    ensures forall w :: ValidWritten(w) ==> ToCents(w, decimals, rounding) != Err(InvalidAmount)
  {
  }

  // ---- what the amounts are ----------------------------------------------------------------------------

  /** n / 10^f times 10^up and divided by 10^down, in base units, rounded once and exactly as asked. */
  function Exact(n: nat, f: nat, up: nat, down: nat, decimals: nat, rounding: Mode): Result<int, CentsError> {
    var exact := Round(n * Pow10(decimals + up), Pow10(f + down), rounding);
    if InRange(exact) then Ok(exact) else Err(Overflow)
  }

  lemma SameValueSameRounding(m: nat, g: nat, down: nat, n: nat, f: nat, up: nat, decimals: nat, rounding: Mode)
    requires SameValue(m, g, down, n, f, up) && CentsMode(rounding)
    ensures Round(m * Pow10(decimals), Pow10(g), rounding) == Round(n * Pow10(decimals + up), Pow10(f + down), rounding)
  {
    var left, right := m * Pow10(decimals), n * Pow10(decimals + up);
    assert left * Pow10(f + down) == right * Pow10(g) by {
      PowersJoin(m, decimals, f + down);
      PowersJoin(m, f + down, decimals);
      PowersJoin(n, g + up, decimals);
      PowersJoin(n, decimals + up, g);
      assert decimals + (f + down) == f + down + decimals && g + up + decimals == decimals + up + g;
    }
    ScaleUp(left, Pow10(g), Pow10(f + down), rounding);
    ScaleUp(right, Pow10(f + down), Pow10(g), rounding);
    Commute(Pow10(g), Pow10(f + down));
  }

  lemma ScaleUp(n: int, d: int, c: int, rounding: Mode)
    requires n >= 0 && d > 0 && c > 0 && CentsMode(rounding)
    ensures d * c > 0 && Round(n * c, d * c, rounding) == Round(n, d, rounding)
  {
    RoundScales(n, d, c, rounding);
  }

  lemma Commute(a: int, b: int)
    ensures a * b == b * a
  {
  }

  lemma ReadsConverts(text: string, m: nat, g: nat, down: nat, n: nat, f: nat, up: nat, decimals: nat, rounding: Mode)
    requires Reads(text, m, g) && SameValue(m, g, down, n, f, up) && CentsMode(rounding)
    ensures ToCents(ParseDigits(text).value, decimals, rounding) == Exact(n, f, up, down, decimals, rounding)
  {
    hide ParseDigits, ToCents, Round, SameValue;
    ToCentsIsExact(ParseDigits(text).value, decimals, rounding);
    SameValueSameRounding(m, g, down, n, f, up, decimals, rounding);
  }

  /** A decimal without an exponent is converted exactly. */
  lemma WrittenIsConverted(amount: string, whole: string, frac: string, decimals: nat, rounding: Mode)
    requires IsDecimal(Unsigned(Trim(amount)), whole, frac) && CentsMode(rounding)
    ensures ToCentsExact(amount, decimals, rounding) == Exact(ToNat(whole + frac), |frac|, 0, 0, decimals, rounding)
  {
    hide ParseDigits, ToCents, Round, Pow10;
    var text := Trim(amount);
    DecimalHasNoLetter(text, whole, frac);
    DecimalReads(text, whole, frac);
    assert SameValue(ToNat(whole + frac), |frac|, 0, ToNat(whole + frac), |frac|, 0);
    ReadsConverts(text, ToNat(whole + frac), |frac|, 0, ToNat(whole + frac), |frac|, 0, decimals, rounding);
  }

  lemma DecimalHasNoLetter(text: string, whole: string, frac: string)
    requires IsDecimal(Unsigned(text), whole, frac)
    ensures CutAtE(text) == |text|
  {
    if CutAtE(text) < |text| {
      LetterIsNotRead(text);
      DecimalReads(text, whole, frac);
    }
  }

  lemma DecimalDigits(text: string, whole: string, frac: string)
    requires IsDecimal(text, whole, frac)
    ensures AllDigits(whole) && AllDigits(frac) && AllDigits(whole + frac) && whole + frac != ""
  {
  }

  lemma ReadsIsSome(text: string, m: nat, g: nat)
    requires Reads(text, m, g)
    ensures ParseDigits(text).Some?
  {
  }

  lemma MantissaSplits(mantissa: string, whole: string, frac: string)
    requires IsDecimal(mantissa, whole, frac)
    ensures IndexOf(mantissa, '.') == |whole| && MantissaDigits(mantissa) == whole + frac
  {
    DecimalStarts(mantissa, whole, frac);
    assert mantissa[..|whole|] == whole;
    assert |whole| < |mantissa| ==> mantissa[|whole| + 1..] == frac;
  }

  lemma MantissaConverts(mantissa: string, whole: string, frac: string, exponent: int, decimals: nat, rounding: Mode)
    requires IsDecimal(mantissa, whole, frac) && CentsMode(rounding)
    ensures var w := ParseDigits(MovePoint(MantissaDigits(mantissa), IndexOf(mantissa, '.') + exponent));
            w.Some? && ToCents(w.value, decimals, rounding)
                       == Exact(ToNat(whole + frac), |frac|, Up(exponent), Up(-exponent), decimals, rounding)
  {
    hide ParseDigits, ToCents, Round, Pow10, MovePoint, SameValue, Exact, ToNat, Reads, IsDecimal, IndexOf, MantissaDigits;
    DecimalDigits(mantissa, whole, frac);
    MantissaSplits(mantissa, whole, frac);
    var m, g := ExponentIsExact(whole, frac, exponent);
    ReadsIsSome(MovePoint(whole + frac, |whole| + exponent), m, g);
    ReadsConverts(MovePoint(whole + frac, |whole| + exponent), m, g, Up(-exponent), ToNat(whole + frac), |frac|, Up(exponent),
                  decimals, rounding);
  }

  /**
   A decimal with an exponent is converted exactly: the exponent is whatever `parseInt` makes of the text
   after the letter.
   */
  lemma ScientificIsConverted(amount: string, whole: string, frac: string, exponent: int, decimals: nat, rounding: Mode)
    requires var text := Trim(amount);
             var cut := CutAtE(text);
             cut < |text| && IsDecimal(text[..cut], whole, frac) && ParseInt(ExponentText(text)) == Some(exponent)
    requires CentsMode(rounding)
    ensures ToCentsExact(amount, decimals, rounding)
            == Exact(ToNat(whole + frac), |frac|, Up(exponent), Up(-exponent), decimals, rounding)
  {
    hide ParseDigits, ToCents, MovePoint, ParseInt, ExpandExponent, ExponentText, Exact, ToNat, IsDecimal, IndexOf, MantissaDigits, CutAtE, Trim;
    var text := Trim(amount);
    var mantissa := text[..CutAtE(text)];
    DecimalStarts(mantissa, whole, frac);
    assert text[0] == mantissa[0];
    ExpandsTo(text);
    MantissaConverts(mantissa, whole, frac, exponent, decimals, rounding);
  }

  // ---- a plus sign in front of an exponent -------------------------------------------------------------

  /** The sign counts as a character when the point is moved. */
  lemma PlusMovedReads(digits: string, point: int) returns (z: nat, g: nat)
    requires AllDigits(digits) && digits != "" && point >= 0
    ensures Reads(MovePoint("+" + digits, point + 1), ToNat(digits) * Pow10(z), g)
    ensures g == z + |digits| - point
  {
    hide ParseDigits, ToNat, Pow10;
    var signed := "+" + digits;
    if point >= |digits| {
      z, g := point - |digits|, 0;
      var whole := digits + Zeros(z);
      assert Unsigned(signed + Zeros(z)) == whole && whole + "" == whole;
      DecimalReads(signed + Zeros(z), whole, "");
      TrailingZerosScale(digits, z);
    } else {
      z, g := 0, |digits| - point;
      var front, back := digits[..point], digits[point..];
      assert signed[..point + 1] == "+" + front && signed[point + 1..] == back;
      assert Unsigned(signed[..point + 1] + "." + signed[point + 1..]) == front + "." + back;
      CutJoins(digits, point);
      DecimalReads(signed[..point + 1] + "." + signed[point + 1..], front, back);
      TimesPowZero(ToNat(digits));
    }
  }

  lemma PlusSlices(mantissa: string, k: nat)
    requires k <= |mantissa|
    ensures ("+" + mantissa)[..k + 1] == "+" + mantissa[..k]
    ensures k < |mantissa| ==> ("+" + mantissa)[k + 2..] == mantissa[k + 1..]
  {
  }

  lemma PlusIndex(mantissa: string)
    ensures IndexOf("+" + mantissa, '.') == IndexOf(mantissa, '.') + 1
  {
    var signed := "+" + mantissa;
    assert signed[1..] == mantissa && signed[0] == '+';
    IndexAfterSign(signed);
  }

  lemma PlusInFront(mantissa: string)
    ensures MantissaDigits("+" + mantissa) == "+" + MantissaDigits(mantissa)
  {
    hide IndexOf;
    PlusIndex(mantissa);
    var k := IndexOf(mantissa, '.');
    PlusSlices(mantissa, k);
    JoinsAssociate("+", mantissa[..k], if k < |mantissa| then mantissa[k + 1..] else "");
  }

  lemma JoinsAssociate(a: string, b: string, c: string)
    ensures a + b + c == a + (b + c)
  {
  }

  lemma PlusSplits(whole: string, frac: string, mantissa: string)
    requires IsDecimal(mantissa, whole, frac)
    ensures IndexOf("+" + mantissa, '.') == |whole| + 1 && MantissaDigits("+" + mantissa) == "+" + (whole + frac)
  {
    hide IsDecimal, IndexOf, MantissaDigits;
    MantissaSplits(mantissa, whole, frac);
    PlusIndex(mantissa);
    PlusInFront(mantissa);
  }

  lemma PlusInFrontIsRefused(mantissa: string, whole: string, frac: string, exponent: int)
    requires IsDecimal(mantissa, whole, frac) && |whole| + exponent < 0
    ensures ParseDigits(MovePoint("+" + (whole + frac), |whole| + 1 + exponent)).None?
  {
    PlusIsNotDigits(whole + frac);
    MovedIsReadExactlyWhen("+" + (whole + frac), |whole| + 1 + exponent);
  }

  lemma PlusInFrontIsConverted(mantissa: string, whole: string, frac: string, exponent: int, decimals: nat, rounding: Mode)
    requires IsDecimal(mantissa, whole, frac) && |whole| + exponent >= 0 && CentsMode(rounding)
    ensures var w := ParseDigits(MovePoint("+" + (whole + frac), |whole| + 1 + exponent));
            w.Some? && ToCents(w.value, decimals, rounding)
                       == Exact(ToNat(whole + frac), |frac|, Up(exponent), Up(-exponent), decimals, rounding)
  {
    hide ParseDigits, ToCents, Round, Pow10, MovePoint, SameValue, Exact, ToNat, Reads, IsDecimal;
    DecimalDigits(mantissa, whole, frac);
    var z, g := PlusMovedReads(whole + frac, |whole| + exponent);
    CrossPowers(ToNat(whole + frac), z, g, Up(-exponent), |frac|, Up(exponent));
    ReadsIsSome(MovePoint("+" + (whole + frac), |whole| + 1 + exponent), ToNat(whole + frac) * Pow10(z), g);
    ReadsConverts(MovePoint("+" + (whole + frac), |whole| + 1 + exponent), ToNat(whole + frac) * Pow10(z), g, Up(-exponent),
                  ToNat(whole + frac), |frac|, Up(exponent), decimals, rounding);
  }

  /**
   With a plus sign in front, a decimal with an exponent is converted exactly if the point stays among or
   behind its digits, and refused if and only if the exponent moves it in front of them.
   */
  lemma SignedScientificIsConverted(amount: string, mantissa: string, whole: string, frac: string, exponent: int, decimals: nat, rounding: Mode)
    requires var text := Trim(amount);
             var cut := CutAtE(text);
             cut < |text| && text[..cut] == "+" + mantissa && ParseInt(ExponentText(text)) == Some(exponent)
    requires IsDecimal(mantissa, whole, frac) && CentsMode(rounding)
    ensures ToCentsExact(amount, decimals, rounding)
            == if |whole| + exponent < 0 then Err(InvalidAmount)
               else Exact(ToNat(whole + frac), |frac|, Up(exponent), Up(-exponent), decimals, rounding)
  {
    hide ParseDigits, ToCents, MovePoint, ParseInt, ExpandExponent, Exact, IndexOf, MantissaDigits, ToNat;
    var text := Trim(amount);
    PlusSplits(whole, frac, mantissa);
    assert text[0] == ("+" + mantissa)[0];
    ExpandsTo(text);
    if |whole| + exponent < 0 {
      PlusInFrontIsRefused(mantissa, whole, frac, exponent);
    } else {
      PlusInFrontIsConverted(mantissa, whole, frac, exponent, decimals, rounding);
    }
  }

  lemma PlusIsNotDigits(digits: string)
    ensures !AllDigits("+" + digits)
  {
    assert !IsDigit(("+" + digits)[0]);
  }

  // ---- exponents as they are written -------------------------------------------------------------------

  lemma {:induction false} DigitPrefixReads(digits: string, rest: string)
    requires AllDigits(digits) && (rest != [] ==> !IsDigit(rest[0]))
    ensures DigitPrefix(digits + rest) == digits
  {
    if digits == [] {
      assert digits + rest == rest;
    } else {
      DigitPrefixReads(digits[1..], rest);
      assert (digits + rest)[1..] == digits[1..] + rest;
    }
  }

  lemma ParseIntOfDigits(digits: string, rest: string)
    requires AllDigits(digits) && digits != [] && (rest != [] ==> !IsDigit(rest[0]))
    ensures ParseInt(digits + rest) == Some(ToNat(digits))
  {
    hide ToNat;
    DigitPrefixReads(digits, rest);
    assert IsDigit(digits[0]) && (digits + rest)[0] == digits[0];
  }

  /** `parseInt` reads a sign and the digits behind it, and lets the rest go. */
  lemma ParseIntOfSigned(sign: char, digits: string, rest: string)
    requires sign == '+' || sign == '-'
    requires AllDigits(digits) && digits != [] && (rest != [] ==> !IsDigit(rest[0]))
    ensures ParseInt([sign] + (digits + rest)) == Some(if sign == '-' then 0 - ToNat(digits) else ToNat(digits))
  {
    hide ToNat, DigitPrefix;
    DigitPrefixReads(digits, rest);
    var text := [sign] + (digits + rest);
    assert text[1..] == digits + rest && !IsSpace(text[0]);
  }

  /** A text that begins, after white space, with a sign or none and a digit. */
  ghost predicate BeginsInteger(text: string, front: string, sign: string, digits: string, rest: string) {
    && text == front + (sign + (digits + rest)) && AllSpace(front) && (sign == "" || sign == "+" || sign == "-")
    && AllDigits(digits) && digits != "" && (rest != "" ==> !IsDigit(rest[0]))
  }

  lemma ParseIntSays(text: string, front: string, sign: string, digits: string, rest: string)
    requires BeginsInteger(text, front, sign, digits, rest)
    ensures ParseInt(text) == Some(if sign == "-" then 0 - ToNat(digits) else ToNat(digits))
  {
    hide ToNat, DigitPrefix;
    var body := sign + (digits + rest);
    assert IsDigit(digits[0]) && body[0] == if sign == "" then digits[0] else sign[0];
    TrimStartStrips(front, body);
    DigitPrefixReads(digits, rest);
    if sign == "" {
      assert body == digits + rest;
    } else {
      assert body[1..] == digits + rest;
    }
  }

  lemma {:induction false} DigitPrefixSplits(s: string)
    ensures var d := DigitPrefix(s); |d| <= |s| && s == d + s[|d|..] && (|d| < |s| ==> !IsDigit(s[|d|]))
  {
    if s != [] && IsDigit(s[0]) {
      DigitPrefixSplits(s[1..]);
    }
  }

  /** The sign, the digits and the rest of a text without white space in front. */
  lemma SplitInteger(t: string) returns (sign: string, digits: string, rest: string)
    ensures t == sign + (digits + rest) && (sign == "" || sign == "+" || sign == "-")
    ensures digits == DigitPrefix(if t != [] && (t[0] == '+' || t[0] == '-') then t[1..] else t)
    ensures AllDigits(digits) && (rest != "" ==> !IsDigit(rest[0]))
  {
    hide DigitPrefix;
    var signed := t != [] && (t[0] == '+' || t[0] == '-');
    var body := if signed then t[1..] else t;
    sign := if signed then t[..1] else "";
    digits := DigitPrefix(body);
    DigitPrefixSplits(body);
    rest := body[|digits|..];
    assert body == digits + rest && t == sign + body;
  }

  /** `parseInt` finds no number in any other text. */
  lemma OnlyIntegersParse(text: string) returns (front: string, sign: string, digits: string, rest: string)
    requires ParseInt(text).Some?
    ensures BeginsInteger(text, front, sign, digits, rest)
  {
    hide ToNat, DigitPrefix, TrimStart;
    var k := TrimStartSplits(text);
    front := text[..k];
    sign, digits, rest := SplitInteger(text[k..]);
    assert text == front + text[k..];
  }

  lemma {:induction false} CutBehind(front: string, letter: char, tail: string)
    requires CutAtE(front) == |front| && IsE(letter)
    ensures CutAtE(front + ([letter] + tail)) == |front|
  {
    var text := front + ([letter] + tail);
    if front == [] {
      assert text[0] == letter;
    } else {
      CutBehind(front[1..], letter, tail);
      assert text[1..] == front[1..] + ([letter] + tail);
    }
  }

  /** A text with one exponent letter falls into its mantissa and the exponent. */
  lemma LetterSplits(mantissa: string, letter: char, tail: string)
    requires CutAtE(mantissa) == |mantissa| && IsE(letter) && CutAtE(tail) == |tail|
    ensures var text := mantissa + ([letter] + tail);
            var cut := CutAtE(text);
            cut == |mantissa| < |text| && text[..cut] == mantissa && ExponentText(text) == tail
  {
    CutBehind(mantissa, letter, tail);
    var text := mantissa + ([letter] + tail);
    assert text[|mantissa| + 1..] == tail;
  }

  function Signed(negative: bool, n: nat): int {
    if negative then 0 - n else n
  }

  /** For all digits and every exponent: a written decimal, "e", and the exponent, with or without a minus sign. */
  lemma ScientificTextIsConverted(mantissa: string, whole: string, frac: string, letter: char, negative: bool, digits: string,
                                  decimals: nat, rounding: Mode)
    requires IsDecimal(mantissa, whole, frac) && (letter == 'e' || letter == 'E') && AllDigits(digits) && digits != [] && CentsMode(rounding)
    ensures var amount := mantissa + ([letter] + ((if negative then "-" else "") + digits));
            var exponent := Signed(negative, ToNat(digits));
            ToCentsExact(amount, decimals, rounding)
            == Exact(ToNat(whole + frac), |frac|, Up(exponent), Up(-exponent), decimals, rounding)
  {
    hide ToNat, Exact, ToCentsExact, ParseInt, ExponentText, CutAtE, IndexOf, Trim, IsDecimal;
    var tail := (if negative then "-" else "") + digits;
    var amount := mantissa + ([letter] + tail);
    ScientificTrims(mantissa, whole, frac, letter, negative, digits);
    ExponentReads(negative, digits);
    MantissaHasNoLetter(mantissa, whole, frac);
    LetterSplits(mantissa, letter, tail);
    ScientificIsConverted(amount, whole, frac, Signed(negative, ToNat(digits)), decimals, rounding);
  }

  lemma MantissaHasNoLetter(mantissa: string, whole: string, frac: string)
    requires IsDecimal(mantissa, whole, frac)
    ensures CutAtE(mantissa) == |mantissa|
  {
    DecimalStarts(mantissa, whole, frac);
    DecimalHasNoLetter(mantissa, whole, frac);
  }

  lemma ExponentReads(negative: bool, digits: string)
    requires AllDigits(digits) && digits != []
    ensures var tail := (if negative then "-" else "") + digits;
            ParseInt(tail) == Some(Signed(negative, ToNat(digits))) && CutAtE(tail) == |tail|
  {
    hide ToNat, ParseInt;
    assert digits + "" == digits;
    if negative {
      ParseIntOfSigned('-', digits, "");
      assert "-" + digits == ['-'] + (digits + "");
      DigitsHaveNoLetter(digits);
      assert ("-" + digits)[1..] == digits;
    } else {
      ParseIntOfDigits(digits, "");
      DigitsHaveNoLetter(digits);
      assert "" + digits == digits;
    }
  }

  lemma {:induction false} DigitsHaveNoLetter(digits: string)
    requires AllDigits(digits)
    ensures CutAtE(digits) == |digits|
  {
    if digits != [] {
      assert IsDigit(digits[0]);
      DigitsHaveNoLetter(digits[1..]);
    }
  }

  lemma ScientificTrims(mantissa: string, whole: string, frac: string, letter: char, negative: bool, digits: string)
    requires IsDecimal(mantissa, whole, frac) && IsE(letter) && AllDigits(digits) && digits != []
    ensures var amount := mantissa + ([letter] + ((if negative then "-" else "") + digits)); Trim(amount) == amount
  {
    hide IndexOf, Trim;
    DecimalStarts(mantissa, whole, frac);
    var amount := mantissa + ([letter] + ((if negative then "-" else "") + digits));
    assert amount[0] == mantissa[0];
    assert amount[|amount| - 1] == digits[|digits| - 1];
    assert IsDigit(digits[|digits| - 1]);
    assert mantissa[0] == '.' || IsDigit(mantissa[0]) by {
      assert whole == [] ==> mantissa[0] == '.';
      assert whole != [] ==> mantissa[0] == whole[0];
    }
    TrimKeeps(amount);
  }

  // ---- texts that are no decimals ------------------------------------------------------------------------

  lemma OneDigit(s: string)
    requires |s| == 1 && IsDigit(s[0])
    ensures AllDigits(s) && ToNat(s) == DigitValue(s[0]) && CutAtE(s) == 1
  {
    assert s[..0] == "";
    assert s[1..] == "";
  }

  /** Characters after the exponent's digits are passed over: "1e2x" is a hundred. */
  lemma JunkAfterTheExponentIsRead()
    ensures ToCentsExact("1e2x", 0, Floor) == Ok(100)
  {
    hide ParseInt, Exact, ParseDigits, ExpandExponent, ToCents, IndexOf, MovePoint;
    var amount, whole := "1e2x", "1";
    assert Trim(amount) == amount && CutAtE(amount) == 1 && amount[..1] == whole;
    var tail := amount[2..];
    assert tail == "2" + "x" && CutAtE(tail) == 2 && tail[..2] == tail && ExponentText(amount) == tail;
    OneDigit("2");
    OneDigit("1");
    ParseIntOfDigits("2", "x");
    assert IsDecimal(whole, whole, "") && whole + "" == whole;
    ScientificIsConverted(amount, whole, "", 2, 0, Floor);
    OneHundred();
  }

  lemma OneHundred()
    ensures Exact(1, 0, 2, 0, 0, Floor) == Ok(100)
  {
    assert Pow10(2) == 10 * Pow10(1) && Pow10(1) == 10 * Pow10(0) && Pow10(0) == 1;
    RoundOfMultiple(100, 1, Floor);
  }

  /** A letter without a mantissa counts as zero: "e5" is accepted. */
  lemma MissingMantissaIsRead()
    ensures IsRead("e5")
  {
    assert "e5" == "" + (['e'] + "5");
    hide ParseInt, ToNat, ParseDigits;
    OneDigit("5");
    LetterSplits("", 'e', "5");
    ParseIntOfDigits("5", "");
    assert "5" + "" == "5";
    assert MantissaDigits("") == "" && IndexOf("", '.') == 0;
    ZerosAreDecimal(5);
  }

  lemma ZerosAreDecimal(n: nat)
    requires n > 0
    ensures ReadsAsDecimal("" + Zeros(n))
  {
    var zeros := Zeros(n);
    assert "" + zeros == zeros && zeros + "" == zeros;
    assert IsDecimal(Unsigned("" + zeros), zeros, "");
  }

  lemma TwoPoints()
    ensures CutAtE("1.2.3") == 5 && IndexOf("1.2.3", '.') == 1 && MantissaDigits("1.2.3") == "12" + "." + "3"
  {
    var mantissa := "1.2.3";
    assert mantissa[..1] == "1" && mantissa[2..] == "2.3";
  }

  /** A second point in the mantissa goes unnoticed when the exponent moves the first one behind it. */
  lemma SecondPointIsRead()
    ensures IsRead("1.2.3e9")
  {
    hide ParseInt, ToNat, ParseDigits, ExponentText, ReadsAsDecimal, MantissaDigits, IndexOf, CutAtE, Zeros, Unsigned, Trim;
    assert "1.2.3e9" == "1.2.3" + (['e'] + "9");
    TwoPoints();
    var mantissa := "1.2.3";
    OneDigit("9");
    LetterSplits(mantissa, 'e', "9");
    ParseIntOfDigits("9", "");
    assert "9" + "" == "9";
    PointStaysDecimal("12", "3", 6);
  }

  lemma PointStaysDecimal(whole: string, frac: string, n: nat)
    requires AllDigits(whole) && AllDigits(frac) && whole != []
    ensures ReadsAsDecimal(whole + "." + frac + Zeros(n))
  {
    var text := whole + "." + frac + Zeros(n);
    assert text == whole + "." + (frac + Zeros(n));
    assert text[0] == whole[0] && IsDigit(whole[0]);
    assert IsDecimal(Unsigned(text), whole, frac + Zeros(n));
  }
}
