/** Withholding tax: a flat rate, and a progressive schedule of brackets. */
module BracketTax {
  import opened Wrappers
  import opened Rounding
  import opened Amounts
  import opened Sums

  datatype TaxError =
    | InvalidAmount | InvalidTaxRate | InvalidScale | AmountOutOfRange
    | EmptyBrackets | RateExceedsScale | InvalidBracket | TaxExceedsAmount

  /** upTo None is the catch-all; mode None takes the call's own. */
  datatype Bracket = Bracket(upTo: Option<int>, rate: int, scale: int, mode: Option<Mode>)

  datatype Estimate = Estimate(
    grossAmount: int, bracketTaxes: seq<int>, totalTaxAmount: int, netAmount: int, effectiveRateBps: int)

  // ---- validation --------------------------------------------------------------------------------

  /** A non-negative amount in range; `invalid` is the caller's code for a negative one. */
  function NonNegative(value: int, invalid: TaxError): Option<TaxError> {
    if value < 0 then Some(invalid) else if !InRange(value) then Some(AmountOutOfRange) else None
  }

  function First(a: Option<TaxError>, b: Option<TaxError>): Option<TaxError> {
    if a.Some? then a else b
  }

  function BracketError(b: Bracket): Option<TaxError> {
    First(NonNegative(b.rate, InvalidTaxRate),
    First(NonNegative(b.scale, InvalidScale),
    First(if b.scale <= 0 then Some(InvalidScale) else None,
    First(if b.rate > b.scale then Some(RateExceedsScale) else None,
          if b.upTo.None? then None else NonNegative(b.upTo.value, InvalidBracket)))))
  }

  /** What is wrong with the place of bracket i in the schedule. */
  function OrderError(bs: seq<Bracket>, i: nat): Option<TaxError>
    requires i < |bs|
  {
    if bs[i].upTo.None? then (if i != |bs| - 1 then Some(InvalidBracket) else None)
    else if i > 0 && bs[i - 1].upTo.Some? && bs[i].upTo.value <= bs[i - 1].upTo.value then Some(InvalidBracket)
    else None
  }

  ghost predicate BracketsOk(bs: seq<Bracket>) {
    forall i :: 0 <= i < |bs| ==> BracketError(bs[i]).None?
  }

  ghost predicate OrderOk(bs: seq<Bracket>) {
    forall i :: 0 <= i < |bs| ==> OrderError(bs, i).None?
  }

  /** A schedule the source accepts: sound brackets, bounds ascending, a catch-all only at the end. */
  ghost predicate ValidSchedule(bs: seq<Bracket>) {
    bs != [] && BracketsOk(bs) && OrderOk(bs)
  }

  // ---- the tax in closed form --------------------------------------------------------------------

  /** The bound below bracket i. */
  function Lower(bs: seq<Bracket>, i: nat): int
    requires i <= |bs|
  {
    if i == 0 || bs[i - 1].upTo.None? then 0 else bs[i - 1].upTo.value
  }

  /** The part of the gross amount inside bracket i. */
  function Slice(bs: seq<Bracket>, i: nat, gross: int): int
    requires i < |bs|
  {
    var low := Lower(bs, i);
    if gross <= low then 0
    else if bs[i].upTo.Some? && bs[i].upTo.value < gross then bs[i].upTo.value - low
    else gross - low
  }

  function ModeOf(b: Bracket, mode: Mode): Mode {
    if b.mode.Some? then b.mode.value else mode
  }

  function TaxOn(b: Bracket, slice: int, mode: Mode): int
    requires b.scale > 0
  {
    Round(slice * b.rate, b.scale, ModeOf(b, mode))
  }

  /** The tax of brackets i, i + 1, ... */
  function TaxFrom(bs: seq<Bracket>, i: nat, gross: int, mode: Mode): int
    requires i <= |bs| && BracketsOk(bs)
    decreases |bs| - i
  {
    if i == |bs| then 0 else TaxOn(bs[i], Slice(bs, i, gross), mode) + TaxFrom(bs, i + 1, gross, mode)
  }

  function Tax(bs: seq<Bracket>, gross: int, mode: Mode): int
    requires ValidSchedule(bs)
  {
    TaxFrom(bs, 0, gross, mode)
  }

  // ---- one more unit of gross ----------------------------------------------------------------------

  lemma TaxOnNothing(b: Bracket, mode: Mode)
    requires BracketError(b).None?
    ensures TaxOn(b, 0, mode) == 0
  {
    RoundOfMultiple(0, b.scale, ModeOf(b, mode));
  }

  /** One more unit in a bracket adds nothing or one unit of tax, whatever the rate and the mode. */
  lemma OneMoreUnit(b: Bracket, slice: int, mode: Mode)
    requires BracketError(b).None? && slice >= 0
    ensures TaxOn(b, slice, mode) <= TaxOn(b, slice + 1, mode) <= TaxOn(b, slice, mode) + 1
  {
    var m := ModeOf(b, mode);
    assert (slice + 1) * b.rate == slice * b.rate + b.rate;
    assert slice * b.rate >= 0;
    if b.rate < b.scale {
      RoundGrowsSlowly(slice * b.rate, (slice + 1) * b.rate, b.scale, m);
    } else {
      RoundOfMultiple(slice, b.scale, m);
      RoundOfMultiple(slice + 1, b.scale, m);
    }
  }

  /** Brackets above the gross amount owe nothing. */
  lemma {:induction false} NothingAbove(bs: seq<Bracket>, i: nat, gross: int, mode: Mode)
    requires ValidSchedule(bs) && i <= |bs| && gross >= 0 && (i < |bs| ==> gross <= Lower(bs, i))
    ensures TaxFrom(bs, i, gross, mode) == 0
    decreases |bs| - i
  {
    if i < |bs| {
      TaxOnNothing(bs[i], mode);
      if i + 1 < |bs| {
        BoundsAscend(bs, i);
        NothingAbove(bs, i + 1, gross, mode);
      }
    }
  }

  lemma BoundsAscend(bs: seq<Bracket>, i: nat)
    requires ValidSchedule(bs) && i < |bs|
    ensures 0 <= Lower(bs, i)
    ensures i + 1 < |bs| ==> bs[i].upTo.Some? && Lower(bs, i + 1) == bs[i].upTo.value
    ensures bs[i].upTo.Some? ==> Lower(bs, i) <= bs[i].upTo.value
  {
    assert BracketError(bs[i]).None? && OrderError(bs, i).None?;
    if i > 0 {
      assert BracketError(bs[i - 1]).None? && OrderError(bs, i - 1).None?;
    }
  }

  /** Only the bracket that holds the extra unit changes. */
  lemma {:induction false} OneMoreFrom(bs: seq<Bracket>, i: nat, gross: int, mode: Mode)
    requires ValidSchedule(bs) && i <= |bs| && gross >= 0 && (i < |bs| ==> Lower(bs, i) <= gross)
    ensures TaxFrom(bs, i, gross, mode) <= TaxFrom(bs, i, gross + 1, mode) <= TaxFrom(bs, i, gross, mode) + 1
    decreases |bs| - i
  {
    if i < |bs| {
      BoundsAscend(bs, i);
      if bs[i].upTo.Some? && bs[i].upTo.value <= gross {
        OneMoreFrom(bs, i + 1, gross, mode);
      } else {
        OneMoreUnit(bs[i], Slice(bs, i, gross), mode);
        NothingAbove(bs, i + 1, gross, mode);
        NothingAbove(bs, i + 1, gross + 1, mode);
      }
    }
  }

  /** Raising the gross amount by one raises the tax by zero or one, for every schedule and mix of modes. */
  lemma OneMoreUnitOfGross(bs: seq<Bracket>, gross: int, mode: Mode)
    requires ValidSchedule(bs) && gross >= 0
    ensures Tax(bs, gross, mode) <= Tax(bs, gross + 1, mode) <= Tax(bs, gross, mode) + 1
  {
    OneMoreFrom(bs, 0, gross, mode);
  }

  /** Both the tax and what is left of the gross amount never fall as the gross amount rises. */
  lemma {:induction false} TaxAndNetAreMonotone(bs: seq<Bracket>, low: int, high: int, mode: Mode)
    requires ValidSchedule(bs) && 0 <= low <= high
    ensures Tax(bs, low, mode) <= Tax(bs, high, mode)
    ensures low - Tax(bs, low, mode) <= high - Tax(bs, high, mode)
    decreases high - low
  {
    if low < high {
      OneMoreUnitOfGross(bs, low, mode);
      TaxAndNetAreMonotone(bs, low + 1, high, mode);
    }
  }

  /** The tax lies between nothing and the gross amount: the source's last check never fails. */
  lemma TaxWithinGross(bs: seq<Bracket>, gross: int, mode: Mode)
    requires ValidSchedule(bs) && gross >= 0
    ensures 0 <= Tax(bs, gross, mode) <= gross
  {
    NothingAbove(bs, 0, 0, mode);
    TaxAndNetAreMonotone(bs, 0, gross, mode);
  }

  // ---- the estimator -----------------------------------------------------------------------------

  /** `validateBracket` over the schedule, stopping at the first fault. */
  method ValidateBrackets(bs: seq<Bracket>) returns (e: Option<TaxError>)
    ensures e.None? <==> BracketsOk(bs)
    ensures e.Some? ==> exists i :: 0 <= i < |bs| && e == BracketError(bs[i]) && BracketsOk(bs[..i])
  {
    for i := 0 to |bs|
      invariant BracketsOk(bs[..i])
    {
      e := BracketError(bs[i]);
      if e.Some? {
        return;
      }
    }
    assert bs[..|bs|] == bs;
    e := None;
  }

  method ValidateOrder(bs: seq<Bracket>) returns (e: Option<TaxError>)
    ensures e == if OrderOk(bs) then None else Some(InvalidBracket)
  {
    var prevUpTo: Option<int> := None;
    for i := 0 to |bs|
      invariant prevUpTo == if i == 0 then None else bs[i - 1].upTo
      invariant forall k :: 0 <= k < i ==> OrderError(bs, k).None?
    {
      var upTo := bs[i].upTo;
      if upTo.None? {
        if i != |bs| - 1 {
          assert OrderError(bs, i).Some?;
          return Some(InvalidBracket);
        }
      } else if prevUpTo.Some? && upTo.value <= prevUpTo.value {
        assert OrderError(bs, i).Some?;
        return Some(InvalidBracket);
      }
      prevUpTo := upTo;
    }
    return None;
  }

  ghost function SliceTaxes(bs: seq<Bracket>, gross: int, mode: Mode): seq<int>
    requires BracketsOk(bs)
  {
    seq(|bs|, i requires 0 <= i < |bs| => TaxOn(bs[i], Slice(bs, i, gross), mode))
  }

  lemma {:induction false} TaxIsTheSumOfSlices(bs: seq<Bracket>, i: nat, gross: int, mode: Mode)
    requires BracketsOk(bs) && i <= |bs|
    ensures TaxFrom(bs, i, gross, mode) == Sum(SliceTaxes(bs, gross, mode)[i..])
    decreases |bs| - i
  {
    if i < |bs| {
      TaxIsTheSumOfSlices(bs, i + 1, gross, mode);
      assert SliceTaxes(bs, gross, mode)[i..][1..] == SliceTaxes(bs, gross, mode)[i + 1..];
    }
  }

  lemma TaxIsTheWholeSum(bs: seq<Bracket>, gross: int, mode: Mode)
    requires ValidSchedule(bs)
    ensures Tax(bs, gross, mode) == Sum(SliceTaxes(bs, gross, mode))
  {
    TaxIsTheSumOfSlices(bs, 0, gross, mode);
    assert SliceTaxes(bs, gross, mode)[0..] == SliceTaxes(bs, gross, mode);
  }

  /** What `remaining` and `lowerBound` mean before bracket i. */
  ghost predicate AtBracket(bs: seq<Bracket>, i: nat, gross: int, remaining: int, lowerBound: int)
    requires i <= |bs|
  {
    && remaining >= 0
    && (i < |bs| ==> if remaining > 0 then lowerBound == Lower(bs, i) && remaining == gross - lowerBound
                     else gross <= Lower(bs, i))
  }

  /** The slice that the loop cuts off what remains is the clamped slice of the gross amount. */
  lemma SliceFits(bs: seq<Bracket>, i: nat, gross: int, remaining: int, lowerBound: int, slice: int,
                  mode: Mode)
    requires gross >= 0 && ValidSchedule(bs) && i < |bs| && AtBracket(bs, i, gross, remaining, lowerBound) && remaining > 0
    requires slice == var bandWidth := if bs[i].upTo.None? then remaining else bs[i].upTo.value - lowerBound;
                      if remaining < bandWidth then remaining else bandWidth
    ensures slice == Slice(bs, i, gross) && TaxOn(bs[i], slice, mode) == SliceTaxes(bs, gross, mode)[i]
    ensures AtBracket(bs, i + 1, gross, remaining - slice, if bs[i].upTo.Some? then bs[i].upTo.value else lowerBound)
  {
    BoundsAscend(bs, i);
  }

  lemma NothingLeft(bs: seq<Bracket>, i: nat, gross: int, remaining: int, lowerBound: int, mode: Mode)
    requires gross >= 0 && ValidSchedule(bs) && i < |bs| && AtBracket(bs, i, gross, remaining, lowerBound) && remaining <= 0
    ensures SliceTaxes(bs, gross, mode)[i] == 0
    ensures AtBracket(bs, i + 1, gross, remaining, lowerBound)
  {
    BoundsAscend(bs, i);
    TaxOnNothing(bs[i], mode);
  }

  /** One turn of the bracket loop. */
  method TaxBracket(gross: int, bs: seq<Bracket>, i: nat, mode: Mode, remaining0: int, lowerBound0: int)
    returns (bracketTax: int, remaining: int, lowerBound: int)
    requires gross >= 0 && ValidSchedule(bs) && i < |bs| && AtBracket(bs, i, gross, remaining0, lowerBound0)
    ensures bracketTax == SliceTaxes(bs, gross, mode)[i]
    ensures AtBracket(bs, i + 1, gross, remaining, lowerBound)
  {
    bracketTax, remaining, lowerBound := 0, remaining0, lowerBound0;
    if remaining <= 0 {
      NothingLeft(bs, i, gross, remaining, lowerBound, mode);
    } else {
      var upTo := bs[i].upTo;
      var bandWidth := if upTo.None? then remaining else upTo.value - lowerBound;
      var slice := if remaining < bandWidth then remaining else bandWidth;
      SliceFits(bs, i, gross, remaining, lowerBound, slice, mode);
      bracketTax := TaxOn(bs[i], slice, mode);
      remaining := remaining - slice;
      if upTo.Some? {
        lowerBound := upTo.value;
      }
    }
  }

  /** The loop over `remaining` and `lowerBound` gives each bracket the tax of its clamped slice. */
  method TaxBrackets(gross: int, bs: seq<Bracket>, mode: Mode) returns (bracketTaxes: seq<int>, totalTaxAmount: int)
    requires gross >= 0 && ValidSchedule(bs)
    ensures bracketTaxes == SliceTaxes(bs, gross, mode)
    ensures totalTaxAmount == Sum(bracketTaxes) == Tax(bs, gross, mode)
  {
    bracketTaxes, totalTaxAmount := [], 0;
    var remaining, lowerBound := gross, 0;
    ghost var taxes := SliceTaxes(bs, gross, mode);
    for i := 0 to |bs|
      invariant bracketTaxes == taxes[..i] && totalTaxAmount == Sum(bracketTaxes)
      invariant AtBracket(bs, i, gross, remaining, lowerBound)
    {
      var bracketTax;
      bracketTax, remaining, lowerBound := TaxBracket(gross, bs, i, mode, remaining, lowerBound);
      SumSnoc(bracketTaxes, bracketTax);
      OneMore(taxes, i);
      bracketTaxes := bracketTaxes + [bracketTax];
      totalTaxAmount := totalTaxAmount + bracketTax;
    }
    assert taxes[..|bs|] == taxes;
    TaxIsTheWholeSum(bs, gross, mode);
  }

  // ---- what the caller can count on ------------------------------------------------------------------

  /** A value of the amount range: an integer of 128 bits, without its sign. */
  ghost predicate IsAmount(value: int) {
    0 <= value < 0x8000_0000_0000_0000_0000_0000_0000_0000
  }

  ghost predicate SoundBracket(b: Bracket) {
    0 <= b.rate <= b.scale && 0 < b.scale && IsAmount(b.scale) && (b.upTo.Some? ==> IsAmount(b.upTo.value))
  }

  /** Each bound is above the ones before it, and only the last bracket may do without. */
  ghost predicate BoundsRise(bs: seq<Bracket>) {
    forall i, j :: 0 <= i < j < |bs| ==>
      bs[i].upTo.Some? && (bs[j].upTo.Some? ==> bs[i].upTo.value < bs[j].upTo.value)
  }

  lemma AmountsInRange(value: int)
    ensures IsAmount(value) <==> InRange(value) && value >= 0
  {
  }

  lemma SoundExactlyWhen(b: Bracket)
    ensures BracketError(b).None? <==> SoundBracket(b)
  {
    hide InRange, IsAmount;
    AmountsInRange(b.rate);
    AmountsInRange(b.scale);
    if b.upTo.Some? {
      AmountsInRange(b.upTo.value);
    }
    if SoundBracket(b) {
      assert IsAmount(b.rate) by { RateIsAmount(b); }
    }
  }

  lemma RateIsAmount(b: Bracket)
    requires SoundBracket(b)
    ensures IsAmount(b.rate)
  {
  }

  /** The first thing wrong with a bracket decides its error: rate before scale before bound. */
  lemma BracketErrorSays(b: Bracket)
    ensures b.rate < 0 ==> BracketError(b) == Some(InvalidTaxRate)
    ensures b.rate >= 0 && !IsAmount(b.rate) ==> BracketError(b) == Some(AmountOutOfRange)
    ensures IsAmount(b.rate) && b.scale <= 0 ==> BracketError(b) == Some(InvalidScale)
    ensures IsAmount(b.rate) && b.scale > 0 && !IsAmount(b.scale) ==> BracketError(b) == Some(AmountOutOfRange)
    ensures IsAmount(b.rate) && 0 < b.scale < b.rate && IsAmount(b.scale) ==> BracketError(b) == Some(RateExceedsScale)
    ensures 0 <= b.rate <= b.scale && 0 < b.scale && IsAmount(b.scale) && b.upTo.Some? ==>
              && (b.upTo.value < 0 ==> BracketError(b) == Some(InvalidBracket))
              && (b.upTo.value >= 0 && !IsAmount(b.upTo.value) ==> BracketError(b) == Some(AmountOutOfRange))
  {
  }

  lemma ValidExactlyWhen(bs: seq<Bracket>)
    ensures ValidSchedule(bs) <==> bs != [] && BoundsRise(bs) && forall i :: 0 <= i < |bs| ==> SoundBracket(bs[i])
  {
    hide BracketError, SoundBracket;
    forall i | 0 <= i < |bs| ensures BracketError(bs[i]).None? <==> SoundBracket(bs[i]) {
      SoundExactlyWhen(bs[i]);
    }
    OrderedExactlyWhen(bs);
  }

  lemma OrderedExactlyWhen(bs: seq<Bracket>)
    ensures OrderOk(bs) <==> BoundsRise(bs)
  {
    if OrderOk(bs) {
      OrderedRises(bs);
    }
    if BoundsRise(bs) {
      forall i | 0 <= i < |bs| ensures OrderError(bs, i).None? {
        RisingIsOrdered(bs, i);
      }
    }
  }

  lemma OrderedRises(bs: seq<Bracket>)
    requires OrderOk(bs)
    ensures BoundsRise(bs)
  {
    forall i, j | 0 <= i < j < |bs|
      ensures bs[i].upTo.Some? && (bs[j].upTo.Some? ==> bs[i].upTo.value < bs[j].upTo.value)
    {
      OrderedFrom(bs, i, j);
    }
  }

  lemma RisingIsOrdered(bs: seq<Bracket>, i: nat)
    requires BoundsRise(bs) && i < |bs|
    ensures OrderError(bs, i).None?
  {
    if i < |bs| - 1 {
      var above := bs[|bs| - 1];
      assert bs[i].upTo.Some?;
    }
    if i > 0 {
      var below := bs[i - 1];
      assert bs[i].upTo.Some? ==> below.upTo.value < bs[i].upTo.value;
    }
  }

  lemma {:induction false} OrderedFrom(bs: seq<Bracket>, i: nat, j: nat)
    requires OrderOk(bs) && i < j < |bs|
    ensures bs[i].upTo.Some? && (bs[j].upTo.Some? ==> bs[i].upTo.value < bs[j].upTo.value)
    decreases j
  {
    assert OrderError(bs, i).None? && OrderError(bs, j - 1).None? && OrderError(bs, j).None?;
    if i < j - 1 {
      OrderedFrom(bs, i, j - 1);
    }
  }

  /** The tax of bracket i: its rate on the part of the gross amount between its bounds, rounded its own way if it has one. */
  ghost predicate TaxesItsBand(bs: seq<Bracket>, i: nat, gross: int, mode: Mode, tax: int)
    requires i < |bs| && bs[i].scale > 0
  {
    var low := if i == 0 || bs[i - 1].upTo.None? then 0 else bs[i - 1].upTo.value;
    var high := if bs[i].upTo.None? || gross < bs[i].upTo.value then gross else bs[i].upTo.value;
    IsRounding(if bs[i].mode.Some? then bs[i].mode.value else mode,
               (if high > low then high - low else 0) * bs[i].rate, bs[i].scale, tax)
  }

  lemma SliceTaxesItsBand(bs: seq<Bracket>, i: nat, gross: int, mode: Mode)
    requires ValidSchedule(bs) && i < |bs|
    ensures bs[i].scale > 0 && TaxesItsBand(bs, i, gross, mode, SliceTaxes(bs, gross, mode)[i])
  {
    assert BracketError(bs[i]).None?;
    BoundsAscend(bs, i);
    RoundMeetsItsMode(Slice(bs, i, gross) * bs[i].rate, bs[i].scale, ModeOf(bs[i], mode), SliceTaxes(bs, gross, mode)[i]);
  }

  /** A schedule need not end with a catch-all: what lies above its last bound goes untaxed. */
  lemma AboveTheLastBoundIsFree(bs: seq<Bracket>, gross: int, mode: Mode)
    requires ValidSchedule(bs) && bs[|bs| - 1].upTo.Some? && gross >= bs[|bs| - 1].upTo.value
    ensures Tax(bs, gross, mode) == Tax(bs, bs[|bs| - 1].upTo.value, mode)
  {
    SameTaxAbove(bs, 0, gross, mode);
  }

  lemma {:induction false} BelowTheLastBound(bs: seq<Bracket>, i: nat)
    requires ValidSchedule(bs) && i < |bs| && bs[|bs| - 1].upTo.Some?
    ensures Lower(bs, i) <= Lower(bs, |bs|) && bs[i].upTo.Some? && bs[i].upTo.value <= Lower(bs, |bs|)
    decreases |bs| - i
  {
    BoundsAscend(bs, i);
    if i + 1 < |bs| {
      BelowTheLastBound(bs, i + 1);
    }
  }

  lemma SameSliceAbove(bs: seq<Bracket>, i: nat, gross: int)
    requires ValidSchedule(bs) && i < |bs| && bs[|bs| - 1].upTo.Some? && gross >= bs[|bs| - 1].upTo.value
    ensures BracketsOk(bs) && Slice(bs, i, gross) == Slice(bs, i, bs[|bs| - 1].upTo.value)
  {
    BelowTheLastBound(bs, i);
    BoundsAscend(bs, i);
  }

  lemma {:induction false} SameTaxAbove(bs: seq<Bracket>, i: nat, gross: int, mode: Mode)
    requires ValidSchedule(bs) && i <= |bs| && bs[|bs| - 1].upTo.Some? && gross >= bs[|bs| - 1].upTo.value
    ensures TaxFrom(bs, i, gross, mode) == TaxFrom(bs, i, bs[|bs| - 1].upTo.value, mode)
    decreases |bs| - i
  {
    if i < |bs| {
      hide ValidSchedule, TaxOn;
      SameSliceAbove(bs, i, gross);
      SameTaxAbove(bs, i + 1, gross, mode);
    }
  }

  /** What the estimator reports about a total, besides its parts. */
  ghost predicate Reconciles(e: Estimate, gross: int) {
    && e.grossAmount == gross
    && e.netAmount == gross - e.totalTaxAmount
    && 0 <= e.totalTaxAmount <= gross
    && 0 <= e.effectiveRateBps <= 10_000
    && (gross > 0 ==>
          e.effectiveRateBps * gross <= e.totalTaxAmount * 10_000 < (e.effectiveRateBps + 1) * gross)
  }

  /** The estimator fails exactly when an input is bad; its last check, tax above gross, never does. */
  method EstimateBracketTax(gross: int, bs: seq<Bracket>, mode: Mode) returns (r: Result<Estimate, TaxError>)
    ensures gross < 0 ==> r == Err(InvalidAmount)
    ensures gross >= 0 && !IsAmount(gross) ==> r == Err(AmountOutOfRange)
    ensures IsAmount(gross) && bs == [] ==> r == Err(EmptyBrackets)
    ensures IsAmount(gross) && bs != [] && !BracketsOk(bs) ==>
              exists i :: 0 <= i < |bs| && BracketError(bs[i]).Some? && r == Err(BracketError(bs[i]).value) && BracketsOk(bs[..i])
    ensures IsAmount(gross) && bs != [] && BracketsOk(bs) && !BoundsRise(bs) ==> r == Err(InvalidBracket)
    ensures r.Ok? <==> IsAmount(gross) && bs != [] && BoundsRise(bs) && forall i :: 0 <= i < |bs| ==> SoundBracket(bs[i])
    ensures r.Ok? ==> ValidSchedule(bs) && |r.value.bracketTaxes| == |bs|
                      && forall i :: 0 <= i < |bs| ==> TaxesItsBand(bs, i, gross, mode, r.value.bracketTaxes[i])
    ensures r.Ok? ==>
              && r.value.bracketTaxes == SliceTaxes(bs, gross, mode)
              && r.value.totalTaxAmount == Sum(r.value.bracketTaxes) == Tax(bs, gross, mode)
              && Reconciles(r.value, gross)
  {
    AmountsInRange(gross);
    ValidExactlyWhen(bs);
    var bad := NonNegative(gross, InvalidAmount);
    if bad.Some? {
      return Err(bad.value);
    }
    if bs == [] {
      return Err(EmptyBrackets);
    }
    bad := ValidateBrackets(bs);
    if bad.Some? {
      return Err(bad.value);
    }
    bad := ValidateOrder(bs);
    if bad.Some? {
      return Err(bad.value);
    }
    var bracketTaxes, totalTaxAmount := TaxBrackets(gross, bs, mode);
    forall i | 0 <= i < |bs| ensures bs[i].scale > 0 && TaxesItsBand(bs, i, gross, mode, bracketTaxes[i]) {
      SliceTaxesItsBand(bs, i, gross, mode);
    }
    TaxWithinGross(bs, gross, mode);
    if totalTaxAmount > gross {
      return Err(TaxExceedsAmount);
    }
    EffectiveRate(totalTaxAmount, gross);
    var bps := if gross > 0 then TruncDiv(totalTaxAmount * 10_000, gross) else 0;
    return Ok(Estimate(gross, bracketTaxes, totalTaxAmount, gross - totalTaxAmount, bps));
  }

  lemma EffectiveRate(total: int, gross: int)
    requires 0 <= total <= gross
    ensures gross > 0 ==>
              var bps := TruncDiv(total * 10_000, gross);
              0 <= bps <= 10_000 && bps * gross <= total * 10_000 < (bps + 1) * gross
  {
    if gross > 0 {
      TruncDivFacts(total * 10_000, gross);
      var bps := TruncDiv(total * 10_000, gross);
      assert (bps + 1) * gross == bps * gross + gross;
      if bps > 10_000 {
        MultiplesAreSpaced(10_000, bps, gross);
      }
    }
  }

  // ---- the flat rate -------------------------------------------------------------------------------

  datatype Deduction = Deduction(
    grossAmount: int, taxRate: int, taxAmount: int, netAmount: int, remainder: int, taxScale: int)

  /** `calculateTaxDeduction`. */
  function CalculateTaxDeduction(gross: int, rate: int, scale: int, mode: Mode): Result<Deduction, TaxError> {
    var bad := First(NonNegative(gross, InvalidAmount),
               First(NonNegative(rate, InvalidTaxRate), NonNegative(scale, InvalidTaxRate)));
    if bad.Some? then Err(bad.value)
    else if scale == 0 then Err(InvalidTaxRate)
    else if rate > scale then Err(TaxExceedsAmount)
    else
      var tax := Round(gross * rate, scale, mode);
      if tax > gross then Err(TaxExceedsAmount)
      else Ok(Deduction(gross, rate, tax, gross - tax, TruncMod(gross * rate, scale), scale))
  }

  /** `verifyTaxDeductionRemainder`. */
  predicate VerifyRemainder(d: Deduction)
    requires d.taxScale != 0
  {
    var product := d.grossAmount * d.taxRate;
    && product == TruncDiv(product, d.taxScale) * d.taxScale + d.remainder
    && d.grossAmount == d.netAmount + d.taxAmount
  }

  /** `previewTaxWithholding`: the contract's own truncating arithmetic at 10000 basis points. */
  function PreviewTaxWithholding(balance: int, bps: int): Result<Deduction, TaxError> {
    var bad := First(NonNegative(balance, InvalidAmount), NonNegative(bps, InvalidTaxRate));
    if bad.Some? then Err(bad.value)
    else if bps > 10_000 then Err(RateExceedsScale)
    else
      var product := balance * bps;
      var withheld := TruncDiv(product, 10_000);
      Ok(Deduction(balance, bps, withheld, balance - withheld, TruncMod(product, 10_000), 10_000))
  }

  /** The "exceeds gross" branch is dead: only inputs decide, and what is computed passes the verifier. */
  lemma DeductionIsSound(gross: int, rate: int, scale: int, mode: Mode)
    ensures var r := CalculateTaxDeduction(gross, rate, scale, mode);
            && (r.Ok? <==> 0 <= gross && 0 <= rate <= scale && 0 < scale && InRange(gross) && InRange(scale))
            && (r.Ok? ==> VerifyRemainder(r.value) && 0 <= r.value.taxAmount <= gross && 0 <= r.value.netAmount)
            && (r.Ok? ==> IsRounding(mode, gross * rate, scale, r.value.taxAmount))
            && (r.Ok? ==> r.value.grossAmount == gross && r.value.taxRate == rate && r.value.taxScale == scale)
  {
    if scale != 0 {
      RoundMeetsItsMode(gross * rate, scale, mode, Round(gross * rate, scale, mode));
    }
    if 0 <= gross && 0 <= rate <= scale && 0 < scale {
      RateOfAmount(gross, rate, scale, mode);
      TruncDivFacts(gross * rate, scale);
    }
  }

  lemma RateOfAmount(gross: int, rate: int, scale: int, mode: Mode)
    requires 0 <= gross && 0 <= rate <= scale && 0 < scale
    ensures 0 <= Round(gross * rate, scale, mode) <= gross
    ensures gross * rate >= 0
  {
    assert 0 <= gross * rate <= gross * scale;
    RoundOfMultiple(gross, scale, mode);
    RoundOfMultiple(0, scale, mode);
    RoundIsMonotone(0 * scale, gross * rate, scale, mode);
    RoundIsMonotone(gross * rate, gross * scale, scale, mode);
  }

  /** The preview is the truncating deduction at a scale of 10000, save for the code of an excessive rate. */
  lemma PreviewIsTruncatingDeduction(balance: int, bps: int)
    ensures var preview, full := PreviewTaxWithholding(balance, bps), CalculateTaxDeduction(balance, bps, 10_000, Truncate);
            if preview == Err(RateExceedsScale) then full == Err(TaxExceedsAmount) else preview == full
  {
    if 0 <= balance && 0 <= bps <= 10_000 {
      RateOfAmount(balance, bps, 10_000, Truncate);
    }
  }

  /** A flat rate is a schedule of one catch-all bracket. */
  lemma FlatRateIsOneBracket(gross: int, rate: int, scale: int, mode: Mode)
    requires CalculateTaxDeduction(gross, rate, scale, mode).Ok?
    ensures ValidSchedule([Bracket(None, rate, scale, None)])
    ensures Tax([Bracket(None, rate, scale, None)], gross, mode) == CalculateTaxDeduction(gross, rate, scale, mode).value.taxAmount
  {
    var bs := [Bracket(None, rate, scale, None)];
    DeductionIsSound(gross, rate, scale, mode);
    assert BracketError(bs[0]).None? && OrderError(bs, 0).None?;
    assert TaxFrom(bs, 1, gross, mode) == 0;
    TaxOnNothing(bs[0], mode);
    assert gross == 0 ==> gross * rate == 0;
  }
}
