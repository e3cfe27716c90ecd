/**
 Splitting an amount by weights: the fee and payment allocators hand back a remainder, the report and
 ledger splitters hand their dust to the leading parts.

 Share weights are taken after their scaling to integers.
 */
module ShareSplits {
  import opened Wrappers
  import opened Amounts
  import opened Rounding
  import opened Sums

  datatype SplitError = InvalidAmount | EmptyInput | InvalidShares | InvalidScale | SplitMismatch | FeeExceedsAmount

  // ---- proportional shares -----------------------------------------------------------------------------

  function ShareOf(total: int, weight: nat, whole: nat): int
    requires whole > 0
  {
    TruncDiv(total * weight, whole)
  }

  ghost function Shares(total: int, weights: seq<nat>, whole: nat): seq<int>
    requires whole > 0
  {
    if weights == [] then [] else Shares(total, weights[..|weights| - 1], whole) + [ShareOf(total, weights[|weights| - 1], whole)]
  }

  lemma {:induction false} SharesAt(total: int, weights: seq<nat>, whole: nat)
    requires whole > 0
    ensures |Shares(total, weights, whole)| == |weights|
    ensures forall i :: 0 <= i < |weights| ==> Shares(total, weights, whole)[i] == ShareOf(total, weights[i], whole)
  {
    if weights != [] {
      SharesAt(total, weights[..|weights| - 1], whole);
    }
  }

  /** A shortfall on the side of zero, of at most `most`. */
  predicate Short(total: int, short: int, most: int) {
    if total >= 0 then 0 <= short <= most else -most <= short <= 0
  }

  /** One share falls short of its exact value by less than one, on the side of zero. */
  lemma ShareFallsShort(total: int, weight: nat, whole: nat)
    requires whole > 0
    ensures Short(total, total * weight - ShareOf(total, weight, whole) * whole, whole - 1)
  {
    TruncDivFacts(total * weight, whole);
    assert total >= 0 ==> total * weight >= 0;
    assert total < 0 ==> total * weight <= 0;
  }

  lemma ShortfallsAdd(total: int, front: int, weight: int, given: int, share: int, whole: int, n: nat)
    requires Short(total, total * front - given * whole, n * (whole - 1)) && Short(total, total * weight - share * whole, whole - 1)
    ensures Short(total, total * (front + weight) - (given + share) * whole, (n + 1) * (whole - 1))
  {
    var most := n * (whole - 1);
    assert (n + 1) * (whole - 1) == most + (whole - 1);
    var a, b, c, d := total * front, total * weight, given * whole, share * whole;
    assert total * (front + weight) == a + b && (given + share) * whole == c + d;
  }

  lemma {:induction false} SharesFallShort(total: int, weights: seq<nat>, whole: nat)
    requires whole > 0
    ensures Short(total, total * Sum(weights) - Sum(Shares(total, weights, whole)) * whole, |weights| * (whole - 1))
  {
    if weights != [] {
      var front, last := weights[..|weights| - 1], weights[|weights| - 1];
      SharesFallShort(total, front, whole);
      SumSnoc(front, last);
      assert weights == front + [last];
      SumSnoc(Shares(total, front, whole), ShareOf(total, last, whole));
      ShareFallsShort(total, last, whole);
      ShortfallsAdd(total, Sum(front), last, Sum(Shares(total, front, whole)), ShareOf(total, last, whole), whole, |front|);
    }
  }

  /** A shortfall of less than n wholes is, counted in wholes, less than n. */
  lemma ShortInWholes(total: int, given: int, whole: int, n: int)
    requires whole > 0 && n > 0 && Short(total, total * whole - given * whole, n * (whole - 1))
    ensures Short(total, total - given, n - 1)
  {
    var x := total - given;
    assert x * whole == total * whole - given * whole;
    assert n * (whole - 1) == n * whole - n;
    if total >= 0 {
      FactorsKeepOrder(x, n, whole);
      assert (-1) * whole < x * whole;
      FactorsKeepOrder(-1, x, whole);
    } else {
      assert (-n) * whole == -(n * whole);
      FactorsKeepOrder(-n, x, whole);
      assert x * whole < 1 * whole;
      FactorsKeepOrder(x, 1, whole);
    }
  }

  /**
   What the shares leave over is smaller in size than the number of shares and has the sign of the total,
   also for a negative total.
   */
  lemma RemainderIsSmall(total: int, weights: seq<nat>)
    requires weights != [] && Sum(weights) > 0
    ensures Short(total, total - Sum(Shares(total, weights, Sum(weights))), |weights| - 1)
  {
    var whole := Sum(weights);
    SharesFallShort(total, weights, whole);
    ShortInWholes(total, Sum(Shares(total, weights, whole)), whole, |weights|);
  }

  lemma {:induction false} WeightsAddUp(weights: seq<nat>)
    ensures Sum(weights) >= 0
  {
    SumNonNegative(weights);
  }

  /** The loop the allocators share: each share truncated, and their running sum. */
  method ShareLoop(total: int, weights: seq<nat>, whole: nat) returns (shares: seq<int>, given: int)
    requires whole > 0
    ensures shares == Shares(total, weights, whole) && given == Sum(shares)
  {
    shares, given := [], 0;
    for i := 0 to |weights|
      invariant shares == Shares(total, weights[..i], whole) && given == Sum(shares)
    {
      assert weights[..i + 1][..i] == weights[..i];
      var product := total * weights[i];
      var share := TruncDiv(product, whole);
      SumSnoc(shares, share);
      shares := shares + [share];
      given := given + share;
    }
    assert weights[..|weights|] == weights;
  }

  method SumWeights(weights: seq<nat>) returns (whole: nat)
    ensures whole == Sum(weights)
  {
    whole := 0;
    for i := 0 to |weights|
      invariant whole == Sum(weights[..i])
    {
      assert weights[..i + 1] == weights[..i] + [weights[i]];
      SumSnoc(weights[..i], weights[i]);
      whole := whole + weights[i];
    }
    assert weights[..|weights|] == weights;
  }

  /** `reduce` with a sum. */
  method SumUp(parts: seq<int>) returns (total: int)
    ensures total == Sum(parts)
  {
    total := 0;
    for i := 0 to |parts|
      invariant total == Sum(parts[..i])
    {
      OneMore(parts, i);
      SumSnoc(parts[..i], parts[i]);
      total := total + parts[i];
    }
    assert parts[..|parts|] == parts;
  }

  // ---- the allocators ------------------------------------------------------------------------------------

  datatype Allocation = Allocation(parts: seq<int>, remainder: int)

  /** `allocatePartialPayment`: the total may be negative. */
  method AllocatePartialPayment(total: int, weights: seq<nat>) returns (r: Result<Allocation, SplitError>)
    ensures r.Ok? <==> InRange(total) && weights != [] && Sum(weights) > 0
    ensures r.Ok? ==>
              && |r.value.parts| == |weights| && Sum(r.value.parts) + r.value.remainder == total
              && Short(total, r.value.remainder, |weights| - 1)
              && forall i :: 0 <= i < |weights| ==> IsRounding(Truncate, total * weights[i], Sum(weights), r.value.parts[i])
  {
    WeightsAddUp(weights);
    if !InRange(total) {
      return Err(InvalidAmount);
    }
    if weights == [] {
      return Err(InvalidShares);
    }
    var whole := SumWeights(weights);
    if whole <= 0 {
      return Err(InvalidShares);
    }
    var parts, given := ShareLoop(total, weights, whole);
    RemainderIsSmall(total, weights);
    SharesAreTruncations(total, weights, whole);
    return Ok(Allocation(parts, total - given));
  }

  lemma SharesAreTruncations(total: int, weights: seq<nat>, whole: nat)
    requires whole > 0
    ensures |Shares(total, weights, whole)| == |weights|
    ensures forall i :: 0 <= i < |weights| ==> IsRounding(Truncate, total * weights[i], whole, Shares(total, weights, whole)[i])
  {
    SharesAt(total, weights, whole);
    forall i | 0 <= i < |weights| ensures IsRounding(Truncate, total * weights[i], whole, ShareOf(total, weights[i], whole)) {
      RoundMeetsItsMode(total * weights[i], whole, Truncate, ShareOf(total, weights[i], whole));
    }
  }

  /** `calculateFeeShares`: the total must not be negative. */
  method CalculateFeeShares(total: int, weights: seq<nat>) returns (r: Result<Allocation, SplitError>)
    ensures r.Ok? <==> InRange(total) && total >= 0 && weights != [] && Sum(weights) > 0
    ensures r.Ok? ==>
              && |r.value.parts| == |weights| && Sum(r.value.parts) + r.value.remainder == total
              && 0 <= r.value.remainder < |weights|
              && forall i :: 0 <= i < |weights| ==> IsRounding(Floor, total * weights[i], Sum(weights), r.value.parts[i])
  {
    if !InRange(total) {
      return Err(InvalidAmount);
    }
    if weights == [] {
      return Err(InvalidShares);
    }
    if total < 0 {
      return Err(InvalidAmount);
    }
    var whole := SumWeights(weights);
    if whole <= 0 {
      return Err(InvalidShares);
    }
    var parts, given := ShareLoop(total, weights, whole);
    RemainderIsSmall(total, weights);
    SharesAreFloors(total, weights, whole);
    return Ok(Allocation(parts, total - given));
  }

  lemma SharesAreFloors(total: int, weights: seq<nat>, whole: nat)
    requires whole > 0 && total >= 0
    ensures |Shares(total, weights, whole)| == |weights|
    ensures forall i :: 0 <= i < |weights| ==> IsRounding(Floor, total * weights[i], whole, Shares(total, weights, whole)[i])
  {
    SharesAreTruncations(total, weights, whole);
    forall i | 0 <= i < |weights| ensures total * weights[i] >= 0 {}
  }

  datatype Deductions = Deductions(feeShares: seq<int>, totalFee: int, netAmount: int)

  /** `calculateFeeShareDeductions`: the fees never exceed the gross amount, so that error never comes. */
  method CalculateFeeShareDeductions(gross: int, weights: seq<nat>) returns (r: Result<Deductions, SplitError>)
    ensures r.Ok? <==> InRange(gross) && gross >= 0 && weights != [] && Sum(weights) > 0
    ensures r != Err(FeeExceedsAmount)
    ensures r.Ok? ==>
              && r.value.totalFee == Sum(r.value.feeShares) && r.value.netAmount == gross - r.value.totalFee
              && 0 <= r.value.netAmount < |weights| && |r.value.feeShares| == |weights|
              && forall i :: 0 <= i < |weights| ==> IsRounding(Floor, gross * weights[i], Sum(weights), r.value.feeShares[i])
  {
    if !InRange(gross) {
      return Err(InvalidAmount);
    }
    if weights == [] {
      return Err(InvalidShares);
    }
    if gross < 0 {
      return Err(InvalidAmount);
    }
    var whole := SumWeights(weights);
    if whole <= 0 {
      return Err(InvalidShares);
    }
    var feeShares, totalFee := ShareLoop(gross, weights, whole);
    RemainderIsSmall(gross, weights);
    SharesAreFloors(gross, weights, whole);
    if totalFee > gross {
      return Err(FeeExceedsAmount);
    }
    return Ok(Deductions(feeShares, totalFee, gross - totalFee));
  }

  // ---- dust to the leading parts -----------------------------------------------------------------------------

  /** One more for each of the first `dust` parts. */
  predicate Dusted(base: seq<int>, parts: seq<int>, dust: int) {
    |parts| == |base| && forall i :: 0 <= i < |base| ==> parts[i] == base[i] + if i < dust then 1 else 0
  }

  /** What the floor shares leave over. */
  ghost function Dust(amount: int, weights: seq<nat>): int
    requires Sum(weights) > 0
  {
    amount - Sum(Shares(amount, weights, Sum(weights)))
  }

  /** The split: every part its share, the first few one more. */
  ghost function Split(amount: int, weights: seq<nat>): (parts: seq<int>)
    requires Sum(weights) > 0
    ensures |parts| == |weights|
  {
    seq(|weights|, i requires 0 <= i < |weights| =>
      ShareOf(amount, weights[i], Sum(weights)) + if i < Dust(amount, weights) then 1 else 0)
  }

  /** The parts sum to the amount; each is its floor share, or one more; there is less dust than there are parts. */
  lemma SplitConserves(amount: int, weights: seq<nat>)
    requires amount >= 0 && weights != [] && Sum(weights) > 0
    ensures Sum(Split(amount, weights)) == amount && 0 <= Dust(amount, weights) < |weights|
    ensures forall i :: 0 <= i < |weights| ==>
              IsRounding(Floor, amount * weights[i], Sum(weights), Split(amount, weights)[i] - if i < Dust(amount, weights) then 1 else 0)
  {
    var whole := Sum(weights);
    RemainderIsSmall(amount, weights);
    SharesAt(amount, weights, whole);
    SharesAreFloors(amount, weights, whole);
    SumOfDusted(Shares(amount, weights, whole), Split(amount, weights), Dust(amount, weights));
  }

  lemma {:induction false} SumOfDusted(base: seq<int>, parts: seq<int>, dust: int)
    requires Dusted(base, parts, dust) && 0 <= dust <= |base|
    ensures Sum(parts) == Sum(base) + dust
  {
    if base != [] {
      SumOfDusted(base[1..], parts[1..], if dust > 0 then dust - 1 else 0);
    }
  }

  /** `splitByWeights`; the circular loop never comes round, and the parts always reconcile. */
  method SplitByWeights(amount: int, weights: seq<int>) returns (r: Result<seq<int>, SplitError>)
    ensures r.Ok? <==> InRange(amount) && amount >= 0 && weights != []
                       && (forall w :: w in weights ==> InRange(w) && w >= 0) && Sum(weights) != 0
    ensures r != Err(SplitMismatch)
    ensures r.Ok? ==>
              (forall i :: 0 <= i < |weights| ==> weights[i] >= 0) && Sum(weights) > 0 && r.value == Split(amount, weights)
  {
    if !InRange(amount) || amount < 0 {
      return Err(InvalidAmount);
    }
    if weights == [] {
      return Err(EmptyInput);
    }
    hide Split, Dust, Dusted, InRange, Shares;
    var normalized: seq<nat>, whole: nat := [], 0;
    for i := 0 to |weights|
      invariant |normalized| == i && forall k :: 0 <= k < i ==> normalized[k] == weights[k]
      invariant forall k :: 0 <= k < i ==> InRange(weights[k])
      invariant whole == Sum(weights[..i])
    {
      if !InRange(weights[i]) || weights[i] < 0 {
        assert weights[i] in weights;
        return Err(InvalidAmount);
      }
      assert weights[..i + 1] == weights[..i] + [weights[i]];
      SumSnoc(weights[..i], weights[i]);
      normalized, whole := normalized + [weights[i]], whole + weights[i];
    }
    assert weights[..|weights|] == weights && normalized == weights;
    if whole == 0 {
      return Err(InvalidScale);
    }
    var parts, handed := ShareLoop(amount, normalized, whole);
    SplitConserves(amount, normalized);
    SharesAt(amount, normalized, whole);
    parts := HandOutDust(parts, amount - handed);
    var total := SumUp(parts);
    if total != amount {
      return Err(SplitMismatch);
    }
    return Ok(parts);
  }

  /** The circular dust loop. */
  method HandOutDust(base: seq<int>, dust0: int) returns (parts: seq<int>)
    requires 0 <= dust0 < |base|
    ensures Dusted(base, parts, dust0) && Sum(parts) == Sum(base) + dust0
  {
    parts := base;
    var i, dust := 0, dust0;
    while dust > 0
      invariant 0 <= dust && i == dust0 - dust
      invariant Dusted(base, parts, i) && Sum(parts) == Sum(base) + i
    {
      SumUpdate(parts, i, parts[i] + 1);
      parts := parts[i := parts[i] + 1];
      dust := dust - 1;
      NotAround(i + 1, |parts|);
      i := (i + 1) % |parts|;
    }
  }

  lemma NotAround(i: int, n: int)
    requires 0 <= i < n
    ensures i % n == i
  {
  }

  /**
   Dust goes by position, not by weight: a part of weight zero gets a unit if and only if its place comes
   before the end of the dust.
   */
  lemma ZeroWeightGetsDustByPosition(amount: int, weights: seq<nat>, i: nat)
    requires amount >= 0 && Sum(weights) > 0 && i < |weights| && weights[i] == 0
    ensures Split(amount, weights)[i] == if i < Dust(amount, weights) then 1 else 0
  {
    hide Dust, ShareOf;
    NothingForNothing(amount, Sum(weights));
  }

  lemma NothingForNothing(amount: int, whole: nat)
    requires whole > 0
    ensures ShareOf(amount, 0, whole) == 0
  {
    assert amount * 0 == 0;
  }

  /** One unit among the weights 0, 1 and 1 goes to the weight 0. */
  lemma ZeroWeightTakesTheUnit()
    ensures Sum([0, 1, 1]) == 2 && Split(1, [0, 1, 1]) == [1, 0, 0]
  {
    var w: seq<nat> := [0, 1, 1];
    SumSnoc([], 0);
    SumSnoc([0], 1);
    SumSnoc([0, 1], 1);
    assert [] + [0] == [0] && [0] + [1] == [0, 1] && [0, 1] + [1] == w;
    SharesAt(1, w, 2);
    assert ShareOf(1, 0, 2) == 0 && ShareOf(1, 1, 2) == 0;
    SumZero(Shares(1, w, 2));
    assert Dust(1, w) == 1;
  }

  /** `divideWithRounding`: equal parts, the first few one more; they sum to the amount. */
  method DivideWithRounding(amount: int, divisor: int) returns (r: Result<seq<int>, SplitError>)
    ensures r.Ok? <==> InRange(amount) && amount >= 0 && divisor > 0
    ensures r.Ok? ==>
              && |r.value| == divisor && Sum(r.value) == amount
              && (forall i, j :: 0 <= i <= j < divisor ==> 0 <= r.value[i] - r.value[j] <= 1)
  {
    if !InRange(amount) || amount < 0 {
      return Err(InvalidAmount);
    }
    if divisor <= 0 {
      return Err(InvalidScale);
    }
    TruncDivFacts(amount, divisor);
    var truncated := TruncDiv(amount, divisor);
    var dustCount := amount - truncated * divisor;
    var parts: seq<int> := [];
    for i := 0 to divisor
      invariant |parts| == i
      invariant forall k :: 0 <= k < i ==> parts[k] == truncated + if k < dustCount then 1 else 0
      invariant Sum(parts) == i * truncated + if i < dustCount then i else dustCount
    {
      var part := if i < dustCount then truncated + 1 else truncated;
      SumSnoc(parts, part);
      assert (i + 1) * truncated == i * truncated + truncated;
      parts := parts + [part];
    }
    return Ok(parts);
  }

  // ---- fees ------------------------------------------------------------------------------------------------

  const BASIS_POINTS_DIVISOR := 10_000

  /** `applyFeeBasisPoints`. */
  function ApplyFeeBasisPoints(amount: int, basisPoints: int): Result<(int, int), SplitError> {
    if !InRange(amount) || amount < 0 then Err(InvalidAmount)
    else if !InRange(basisPoints) || basisPoints < 0 || basisPoints > BASIS_POINTS_DIVISOR then Err(InvalidScale)
    else
      var fee := Round(amount * basisPoints, BASIS_POINTS_DIVISOR, HalfEven);
      Ok((fee, amount - fee))
  }

  lemma ProductsGrow(a: int, b: int, rate: int)
    requires 0 <= a <= b && rate >= 0
    ensures 0 <= a * rate <= b * rate
  {
  }

  lemma ScaledFee(amount: int, more: int, rate: int, scale: int)
    requires 0 <= amount <= more && 0 <= rate <= scale && scale > 0
    ensures 0 <= Round(amount * rate, scale, HalfEven) <= amount
    ensures Round(amount * rate, scale, HalfEven) <= Round(more * rate, scale, HalfEven)
    ensures IsRounding(HalfEven, amount * rate, scale, Round(amount * rate, scale, HalfEven))
  {
    RoundMeetsItsMode(amount * rate, scale, HalfEven, Round(amount * rate, scale, HalfEven));
    RoundOfMultiple(0, scale, HalfEven);
    RoundOfMultiple(amount, scale, HalfEven);
    RatesKeepOrder(amount, rate, scale);
    ProductsGrow(amount, more, rate);
    RoundIsMonotone(0, amount * rate, scale, HalfEven);
    RoundIsMonotone(amount * rate, amount * scale, scale, HalfEven);
    RoundIsMonotone(amount * rate, more * rate, scale, HalfEven);
  }

  /** The fee is the nearest integer, ties to even, neither negative nor above the amount; and it grows with the amount. */
  lemma BasisPointFee(amount: int, more: int, basisPoints: int)
    requires InRange(amount) && InRange(more) && 0 <= amount <= more && 0 <= basisPoints <= BASIS_POINTS_DIVISOR
    ensures var r, s := ApplyFeeBasisPoints(amount, basisPoints), ApplyFeeBasisPoints(more, basisPoints);
            && r.Ok? && s.Ok? && r.value.0 + r.value.1 == amount
            && 0 <= r.value.0 <= amount && IsRounding(HalfEven, amount * basisPoints, BASIS_POINTS_DIVISOR, r.value.0)
            && r.value.0 <= s.value.0
  {
    ScaledFee(amount, more, basisPoints, BASIS_POINTS_DIVISOR);
  }

  // ---- ledger sums -------------------------------------------------------------------------------------------

  ghost predicate AllValid(amounts: seq<int>) {
    forall i :: 0 <= i < |amounts| ==> amounts[i] >= 0 && InRange(amounts[i])
  }

  lemma {:induction false} PrefixIsSmaller(amounts: seq<int>, n: nat)
    requires n <= |amounts| && AllValid(amounts)
    ensures 0 <= Sum(amounts[..n]) <= Sum(amounts)
  {
    assert amounts == amounts[..n] + amounts[n..];
    SumAppend(amounts[..n], amounts[n..]);
    SumNonNegative(amounts[..n]);
    SumNonNegative(amounts[n..]);
  }

  /** `sumLedgerAmounts` past its rate limit: checking every partial sum rejects exactly the sums that leave the range. */
  method SumLedgerAmounts(amounts: seq<int>) returns (r: Result<int, SplitError>)
    ensures r.Ok? <==> AllValid(amounts) && InRange(Sum(amounts))
    ensures r.Ok? ==> r.value == Sum(amounts)
  {
    var total := 0;
    for i := 0 to |amounts|
      invariant AllValid(amounts[..i])
      invariant total == Sum(amounts[..i]) && total >= 0 && InRange(total)
    {
      if amounts[i] < 0 || !InRange(amounts[i]) {
        return Err(InvalidAmount);
      }
      assert amounts[..i + 1] == amounts[..i] + [amounts[i]];
      SumSnoc(amounts[..i], amounts[i]);
      var next := total + amounts[i];
      if !InRange(next) {
        if AllValid(amounts) {
          PrefixIsSmaller(amounts, i + 1);
        }
        return Err(InvalidAmount);
      }
      total := next;
    }
    assert amounts[..|amounts|] == amounts;
    return Ok(total);
  }

  datatype SplitSum = SplitSum(total: int, isMatch: bool)

  /** `assertLedgerSplitSum`: a mismatch is reported, or refused when the caller asks for that. */
  method AssertLedgerSplitSum(splits: seq<int>, expectedBase: int, rejectMismatch: bool) returns (r: Result<SplitSum, SplitError>)
    ensures r.Ok? ==> r.value == SplitSum(Sum(splits), Sum(splits) == expectedBase)
    ensures r.Ok? <==> splits != [] && AllValid([expectedBase]) && AllValid(splits) && InRange(Sum(splits))
                       && (rejectMismatch ==> Sum(splits) == expectedBase)
    ensures r == Err(SplitMismatch) <==> splits != [] && AllValid([expectedBase]) && AllValid(splits) && InRange(Sum(splits))
                                         && rejectMismatch && Sum(splits) != expectedBase
  {
    if splits == [] {
      return Err(EmptyInput);
    }
    assert AllValid([expectedBase]) ==> [expectedBase][0] == expectedBase;
    if expectedBase < 0 || !InRange(expectedBase) {
      return Err(InvalidAmount);
    }
    var sum := SumLedgerAmounts(splits);
    if sum.Err? {
      return Err(InvalidAmount);
    }
    if sum.value != expectedBase && rejectMismatch {
      return Err(SplitMismatch);
    }
    return Ok(SplitSum(sum.value, sum.value == expectedBase));
  }

  // ---- percentage allocation ---------------------------------------------------------------------------------

  datatype PercentageShare = PercentageShare(recipient: string, percentage: real)

  datatype AllocationError =
    | InvalidBaseAmount | EmptyShares | InvalidPercentage | InvalidShareAmount | SumOverflow | Mismatch

  function TotalPercentage(shares: seq<PercentageShare>): real {
    if shares == [] then 0.0 else TotalPercentage(shares[..|shares| - 1]) + shares[|shares| - 1].percentage
  }

  /** The tolerance leaves room for rounding in the percentages. */
  predicate SumsToWhole(shares: seq<PercentageShare>) {
    -0.0001 <= TotalPercentage(shares) - 100.0 <= 0.0001
  }

  /** `Math.round(percentage * 100)`. */
  function Points(share: PercentageShare): int {
    (share.percentage * 100.0 + 0.5).Floor
  }

  predicate ValidShare(share: PercentageShare) {
    share.recipient != "" && 0.0 <= share.percentage <= 100.0
  }

  ghost predicate ValidShares(shares: seq<PercentageShare>) {
    forall i :: 0 <= i < |shares| ==> ValidShare(shares[i])
  }

  function AllPoints(shares: seq<PercentageShare>): (points: seq<int>)
    ensures |points| == |shares| && forall i :: 0 <= i < |shares| ==> points[i] == Points(shares[i])
  {
    seq(|shares|, i requires 0 <= i < |shares| => Points(shares[i]))
  }

  lemma ValidSharesHavePoints(shares: seq<PercentageShare>)
    requires ValidShares(shares)
    ensures forall p :: p in AllPoints(shares) ==> p >= 0
  {
    forall i | 0 <= i < |shares| ensures Points(shares[i]) >= 0 {
      assert ValidShare(shares[i]);
    }
  }

  /** The amounts before the dust. */
  ghost function PointAmounts(base: int, points: seq<int>): (amounts: seq<int>)
    ensures |amounts| == |points|
  {
    seq(|points|, i requires 0 <= i < |points| => TruncDiv(base * points[i], BASIS_POINTS_DIVISOR))
  }

  /** What the allocation of percentages depends on. */
  ghost predicate Allocates(base: int, shares: seq<PercentageShare>) {
    && InRange(base) && base >= 0 && shares != [] && SumsToWhole(shares) && ValidShares(shares)
    && Sum(PointAmounts(base, AllPoints(shares))) <= base
  }

  /** The dust goes to the last amount, if there is any above zero. */
  ghost function WithDust(base: int, amounts: seq<int>): seq<int>
    requires amounts != []
  {
    var dust := base - Sum(amounts);
    if dust > 0 then amounts[|amounts| - 1 := amounts[|amounts| - 1] + dust] else amounts
  }

  lemma WithDustSums(base: int, amounts: seq<int>)
    requires amounts != []
    ensures Sum(WithDust(base, amounts)) == if Sum(amounts) <= base then base else Sum(amounts)
  {
    SumUpdate(amounts, |amounts| - 1, amounts[|amounts| - 1] + base - Sum(amounts));
  }

  lemma {:induction false} PartOfSum(parts: seq<int>, i: nat)
    requires i < |parts| && forall k :: 0 <= k < |parts| ==> parts[k] >= 0
    ensures parts[i] <= Sum(parts)
  {
    if i > 0 {
      PartOfSum(parts[1..], i - 1);
    } else {
      SumNonNegative(parts[1..]);
    }
  }

  /** `validateFeeShare` for every share: the amount first, then the recipient, then the percentage. */
  method ValidateAmounts(base: int, amounts: seq<int>, shares: seq<PercentageShare>) returns (e: Option<AllocationError>)
    requires |amounts| == |shares|
    ensures e.None? <==> ValidShares(shares) && forall i :: 0 <= i < |shares| ==> 0 <= amounts[i] <= base
    ensures e.Some? ==> e.value == InvalidShareAmount || e.value == InvalidPercentage
  {
    for i := 0 to |shares|
      invariant forall k :: 0 <= k < i ==> ValidShare(shares[k]) && 0 <= amounts[k] <= base
    {
      if amounts[i] < 0 || amounts[i] > base || shares[i].recipient == "" {
        return Some(InvalidShareAmount);
      }
      if shares[i].percentage < 0.0 || shares[i].percentage > 100.0 {
        return Some(InvalidPercentage);
      }
    }
    return None;
  }

  /** The amounts of the shares, and their total. */
  method AmountLoop(base: int, shares: seq<PercentageShare>) returns (amounts: seq<int>, given: int)
    ensures amounts == PointAmounts(base, AllPoints(shares)) && given == Sum(amounts)
  {
    amounts, given := [], 0;
    for i := 0 to |shares|
      invariant |amounts| == i && given == Sum(amounts)
      invariant forall k :: 0 <= k < i ==> amounts[k] == TruncDiv(base * Points(shares[k]), BASIS_POINTS_DIVISOR)
    {
      var amount := TruncDiv(base * Points(shares[i]), BASIS_POINTS_DIVISOR);
      SumSnoc(amounts, amount);
      amounts, given := amounts + [amount], given + amount;
    }
  }

  method AddPercentages(shares: seq<PercentageShare>) returns (total: real)
    ensures total == TotalPercentage(shares)
  {
    total := 0.0;
    for i := 0 to |shares|
      invariant total == TotalPercentage(shares[..i])
    {
      assert shares[..i + 1][..i] == shares[..i];
      total := total + shares[i].percentage;
    }
    assert shares[..|shares|] == shares;
  }

  /** Valid shares whose amounts do not pass the base are allocated, and only those. */
  lemma AllocatesExactlyWhen(base: int, shares: seq<PercentageShare>)
    requires InRange(base) && base >= 0 && shares != []
    ensures var amounts := WithDust(base, PointAmounts(base, AllPoints(shares)));
            && |amounts| == |shares|
            && (ValidShares(shares) ==> forall i :: 0 <= i < |shares| ==> amounts[i] >= 0)
            && (ValidShares(shares) && Sum(PointAmounts(base, AllPoints(shares))) <= base ==>
                  forall i :: 0 <= i < |shares| ==> amounts[i] <= base)
            && (Sum(amounts) == base <==> Sum(PointAmounts(base, AllPoints(shares))) <= base)
  {
    var points := AllPoints(shares);
    WithDustSums(base, PointAmounts(base, points));
    if ValidShares(shares) {
      ValidSharesHavePoints(shares);
      var amounts := WithDust(base, PointAmounts(base, points));
      forall i | 0 <= i < |shares| ensures TruncDiv(base * points[i], BASIS_POINTS_DIVISOR) >= 0 {
        assert points[i] in points;
        assert base * points[i] >= 0;
        TruncDivFacts(base * points[i], BASIS_POINTS_DIVISOR);
      }
      forall i | 0 <= i < |shares| ensures amounts[i] <= Sum(amounts) {
        PartOfSum(amounts, i);
      }
    }
  }

  /** `calculatePercentageFeeAllocation`, with the `calculateFeeAllocation` it ends in. */
  method AllocateByPercentage(base: int, shares: seq<PercentageShare>) returns (r: Result<seq<int>, AllocationError>)
    ensures r.Ok? <==> Allocates(base, shares)
    ensures r.Ok? ==> Sum(r.value) == base && r.value == WithDust(base, PointAmounts(base, AllPoints(shares)))
    ensures InRange(base) && base >= 0 && shares != [] ==> (r == Err(InvalidPercentage) <== !SumsToWhole(shares))
  {
    hide PointAmounts, AllPoints, TotalPercentage, ValidShares, Sum;
    if !InRange(base) || base < 0 {
      return Err(InvalidBaseAmount);
    }
    if shares == [] {
      return Err(EmptyShares);
    }
    var totalPercentage := AddPercentages(shares);
    if totalPercentage - 100.0 > 0.0001 || 100.0 - totalPercentage > 0.0001 {
      return Err(InvalidPercentage);
    }
    var amounts, given := AmountLoop(base, shares);
    var dust, last := base - given, |amounts| - 1;
    if dust > 0 {
      amounts := amounts[last := amounts[last] + dust];
    }
    AllocatesExactlyWhen(base, shares);
    var invalid := ValidateAmounts(base, amounts, shares);
    if invalid.Some? {
      return Err(invalid.value);
    }
    var sum := SumLedgerAmounts(amounts);
    if sum.Err? {
      return Err(SumOverflow);
    }
    if sum.value != base {
      return Err(Mismatch);
    }
    return Ok(amounts);
  }

  /** Basis points of at most 10000 together never pass the base amount. */
  lemma WholePercentagesFit(base: int, basisPoints: seq<nat>)
    requires base >= 0 && Sum(basisPoints) <= BASIS_POINTS_DIVISOR
    ensures Sum(PointAmounts(base, basisPoints)) <= base
  {
    SharesAt(base, basisPoints, BASIS_POINTS_DIVISOR);
    assert PointAmounts(base, basisPoints) == Shares(base, basisPoints, BASIS_POINTS_DIVISOR);
    var given := Sum(Shares(base, basisPoints, BASIS_POINTS_DIVISOR));
    SharesFallShort(base, basisPoints, BASIS_POINTS_DIVISOR);
    RatesKeepOrder(base, Sum(basisPoints), BASIS_POINTS_DIVISOR);
    FactorsKeepOrder(given, base + 1, BASIS_POINTS_DIVISOR);
  }

  const A_SIXTH := PercentageShare("r", 16.66667)

  /** Six sixths pass the percentage check and every other one, but at 16.67% each they allocate 10002 of 10000. */
  lemma SixSixthsPassTheBase()
    ensures var shares := [A_SIXTH, A_SIXTH, A_SIXTH, A_SIXTH, A_SIXTH, A_SIXTH];
            && SumsToWhole(shares) && ValidShares(shares)
            && Sum(PointAmounts(10_000, AllPoints(shares))) == 10_002 && !Allocates(10_000, shares)
  {
    var shares := [A_SIXTH, A_SIXTH, A_SIXTH, A_SIXTH, A_SIXTH, A_SIXTH];
    assert Points(A_SIXTH) == 1667;
    TruncDivFacts(10_000 * 1667, BASIS_POINTS_DIVISOR);
    assert PointAmounts(10_000, AllPoints(shares)) == [1667, 1667, 1667, 1667, 1667, 1667];
    SixTimes(1667);
    SixPercentages(A_SIXTH);
  }

  lemma NoPercentages()
    ensures TotalPercentage([]) == 0.0
  {
  }

  lemma PercentagesSnoc(shares: seq<PercentageShare>, x: PercentageShare)
    ensures TotalPercentage(shares + [x]) == TotalPercentage(shares) + x.percentage
  {
    assert (shares + [x])[..|shares|] == shares;
  }

  lemma SixPercentages(x: PercentageShare)
    ensures TotalPercentage([x, x, x, x, x, x]) == 6.0 * x.percentage
  {
    hide TotalPercentage;
    NoPercentages();
    PercentagesSnoc([], x);
    PercentagesSnoc([x], x);
    PercentagesSnoc([x, x], x);
    PercentagesSnoc([x, x, x], x);
    PercentagesSnoc([x, x, x, x], x);
    PercentagesSnoc([x, x, x, x, x], x);
    assert [] + [x] == [x] && [x] + [x] == [x, x] && [x, x] + [x] == [x, x, x] && [x, x, x] + [x] == [x, x, x, x];
    assert [x, x, x, x] + [x] == [x, x, x, x, x] && [x, x, x, x, x] + [x] == [x, x, x, x, x, x];
  }

  lemma SixTimes(x: int)
    ensures Sum([x, x, x, x, x, x]) == 6 * x
  {
    SumSnoc([], x);
    SumSnoc([x], x);
    SumSnoc([x, x], x);
    SumSnoc([x, x, x], x);
    SumSnoc([x, x, x, x], x);
    SumSnoc([x, x, x, x, x], x);
    assert [] + [x] == [x] && [x] + [x] == [x, x] && [x, x] + [x] == [x, x, x] && [x, x, x] + [x] == [x, x, x, x];
    assert [x, x, x, x] + [x] == [x, x, x, x, x] && [x, x, x, x, x] + [x] == [x, x, x, x, x, x];
  }
}
