/** Splitting a turn's billed tokens over price components, and pricing them, in exact arithmetic. */
module Billing {
  import opened Arithmetic
  import opened Basics
  import opened ClaudeScan

  // Division that rounds toward zero, for a positive divisor.
  function TruncDiv(a: int, b: int): int
    requires b > 0
  {
    if a >= 0 then a / b else -((-a) / b)
  }

  function ApportionUsage(t: Turn): Usage {
    if t.tokensInDelta <= 0 || (t.curCacheCreation == 0 && t.curCacheRead == 0) || t.CurEffective() <= 0 then
      Usage(t.tokensInDelta, 0, 0, t.outputTokens)
    else
      var inDelta := TruncDiv(t.tokensInDelta * t.curInput, t.CurEffective());
      var cwDelta := TruncDiv(t.tokensInDelta * t.curCacheCreation, t.CurEffective());
      Usage(inDelta, cwDelta, t.tokensInDelta - inDelta - cwDelta, t.outputTokens)
  }

  predicate Sensible(t: Turn) {
    t.tokensInDelta >= 0 && t.curInput >= 0 && t.curCacheCreation >= 0 && t.curCacheRead >= 0
  }

  // `part` of `delta` tokens for a share of cur out of total, rounded by less than `slack`.
  ghost predicate RoundedDown(part: int, delta: int, cur: int, total: int) {
    part * total <= delta * cur < (part + 1) * total
  }

  lemma DivBounds(a: int, b: int)
    requires a >= 0 && b > 0
    ensures RoundedDown(TruncDiv(a, b), 1, a, b) && TruncDiv(a, b) >= 0
  {
  }

  lemma ShareBounds(a: int, b: int)
    requires a >= 0 && b > 0
    ensures var x := TruncDiv(a, b);
            x >= 0 && x * b <= a < (x + 1) * b && (x + 1) * b == x * b + b
  {
    DivBounds(a, b);
  }

  lemma SharesAddUp(d: int, a: int, b: int, c: int)
    ensures d * (a + b + c) == d * a + d * b + d * c
  {
  }

  lemma RestTimes(d: int, x: int, y: int, total: int)
    ensures (d - x - y) * total == d * total - x * total - y * total
  {
  }

  // No token is lost or invented, whatever the inputs.
  lemma ApportionConserves(t: Turn)
    ensures ApportionUsage(t).EffectiveIn() == t.tokensInDelta && ApportionUsage(t).output == t.outputTokens
  {
  }

  // For sensible counts every part is non-negative; input and cache creation lose less than
  // one token to rounding, and cache read gains less than two.
  lemma ApportionBounds(t: Turn)
    requires Sensible(t) && t.tokensInDelta > 0 && t.curCacheCreation + t.curCacheRead > 0
    ensures var u, total := ApportionUsage(t), t.CurEffective();
            && u.input >= 0 && u.cacheCreation >= 0 && u.cacheRead >= 0
            && RoundedDown(u.input, t.tokensInDelta, t.curInput, total)
            && RoundedDown(u.cacheCreation, t.tokensInDelta, t.curCacheCreation, total)
            && t.tokensInDelta * t.curCacheRead <= u.cacheRead * total < t.tokensInDelta * t.curCacheRead + 2 * total
  {
    var u, total, d := ApportionUsage(t), t.CurEffective(), t.tokensInDelta;
    MulMonotone(d, 0, t.curInput);
    MulMonotone(d, 0, t.curCacheCreation);
    MulMonotone(d, 0, t.curCacheRead);
    ShareBounds(d * t.curInput, total);
    ShareBounds(d * t.curCacheCreation, total);
    SharesAddUp(d, t.curInput, t.curCacheCreation, t.curCacheRead);
    RestTimes(d, u.input, u.cacheCreation, total);
    if u.cacheRead < 0 {
      NegativeTimes(u.cacheRead, total);
    }
  }

  lemma NegativeTimes(a: int, b: int)
    requires a < 0 && b > 0
    ensures a * b < 0
  {
  }

  // The bound of two is the least: for every total there is a turn whose cache read is billed
  // 2 - 2/total tokens too many.
  lemma ApportionBoundIsTight(total: int)
    requires total >= 3
    ensures var t := Turn("m", total - 1, 0, 1, 1, total - 2);
            && Sensible(t) && t.CurEffective() == total
            && ApportionUsage(t).cacheRead * total == t.tokensInDelta * t.curCacheRead + 2 * total - 2
  {
    var d := total - 1;
    assert d * 1 == d && d / total == 0;
    assert d * total == d * (total - 2) + 2 * d;
  }

  // ----- pricing, in USD per million tokens -----

  datatype ModelPrice = ModelPrice(inputPerM: real, cacheReadPerM: real, outputPerM: real)

  datatype LivePrice = LivePrice(inputPerM: real, outputPerM: real, cacheReadPerM: real, cacheWritePerM: real)

  const MILLION := 1_000_000.0

  function Cost(tokens: int, perM: real): real {
    tokens as real * perM / MILLION
  }

  // Cost of a turn from the built-in table, whose entry for the model is a parameter.
  function Estimate(entry: Option<ModelPrice>, tokensIn: int, tokensOut: int): Option<real> {
    if tokensIn <= 0 && tokensOut <= 0 then None
    else
      match entry
      case None => None
      case Some(p) => Some(Cost(tokensIn, p.inputPerM) + Cost(tokensOut, p.outputPerM))
  }

  function EffectiveRate(rate: real, fallback: real): real {
    if rate <= 0.0 then fallback else rate
  }

  // Cost by component: live prices when there are any, else the table.
  function EstimateUsage(live: Option<LivePrice>, entry: Option<ModelPrice>, u: Usage): Option<real> {
    if u.input <= 0 && u.cacheCreation <= 0 && u.cacheRead <= 0 && u.output <= 0 then None
    else if live.Some? then
      var pr := live.value;
      Some(Cost(u.input, pr.inputPerM)
           + Cost(u.cacheCreation, EffectiveRate(pr.cacheWritePerM, pr.inputPerM))
           + Cost(u.cacheRead, EffectiveRate(pr.cacheReadPerM, pr.inputPerM))
           + Cost(u.output, pr.outputPerM))
    else if u.EffectiveIn() <= 0 && u.output <= 0 then None
    else
      match entry
      case None => None
      case Some(p) =>
        Some(Cost(u.input, p.inputPerM)
             + Cost(u.cacheCreation, p.inputPerM)
             + Cost(u.cacheRead, EffectiveRate(p.cacheReadPerM, p.inputPerM))
             + Cost(u.output, p.outputPerM))
  }

  lemma CostAdds(a: int, b: int, c: int, perM: real)
    ensures Cost(a, perM) + Cost(b, perM) + Cost(c, perM) == Cost(a + b + c, perM)
  {
    var x, y, z := a as real, b as real, c as real;
    assert (x + y + z) * perM == x * perM + y * perM + z * perM;
  }

  lemma CostsDiffer(tokens: int, p: real, q: real)
    ensures Cost(tokens, p) == Cost(tokens, q) <==> tokens == 0 || p == q
  {
    var x := tokens as real;
    assert x * p - x * q == x * (p - q);
    if x != 0.0 && p - q != 0.0 {
      NonZeroTimes(x, p - q);
    }
  }

  lemma NonZeroTimes(a: real, b: real)
    requires a != 0.0 && b != 0.0
    ensures a * b != 0.0
  {
  }

  // A split turn is priced exactly when the unsplit one is.
  lemma SplitPricedExactlyWhen(entry: Option<ModelPrice>, t: Turn)
    ensures EstimateUsage(None, entry, ApportionUsage(t)).Some?
       <==> Estimate(entry, t.tokensInDelta, t.outputTokens).Some?
  {
    ApportionConserves(t);
  }

  // Splitting leaves the table price alone exactly when the model has no cache-read rate of
  // its own (or one equal to its input rate), or no token was apportioned to cache reads.
  lemma SplitKeepsPriceExactlyWhen(p: ModelPrice, t: Turn)
    requires t.tokensInDelta > 0 || t.outputTokens > 0
    ensures EstimateUsage(None, Some(p), ApportionUsage(t)) == Estimate(Some(p), t.tokensInDelta, t.outputTokens)
       <==> p.cacheReadPerM <= 0.0 || p.cacheReadPerM == p.inputPerM || ApportionUsage(t).cacheRead == 0
  {
    SplitPricedExactlyWhen(Some(p), t);
    ApportionConserves(t);
    var u, rate := ApportionUsage(t), EffectiveRate(p.cacheReadPerM, p.inputPerM);
    CostAdds(u.input, u.cacheCreation, u.cacheRead, p.inputPerM);
    CostsDiffer(u.cacheRead, rate, p.inputPerM);
    SplitDifference(
      EstimateUsage(None, Some(p), u).value, Estimate(Some(p), t.tokensInDelta, t.outputTokens).value,
      Cost(u.input, p.inputPerM), Cost(u.cacheCreation, p.inputPerM), Cost(u.cacheRead, p.inputPerM),
      Cost(u.cacheRead, rate),
      Cost(u.output, p.outputPerM));
  }

  // What the split saves: the tokens apportioned to cache reads, at the difference of the rates.
  lemma CacheReadsCostLess(p: ModelPrice, t: Turn)
    requires t.tokensInDelta > 0 || t.outputTokens > 0
    requires 0.0 < p.cacheReadPerM < p.inputPerM && ApportionUsage(t).cacheRead > 0
    ensures var split := EstimateUsage(None, Some(p), ApportionUsage(t));
            var whole := Estimate(Some(p), t.tokensInDelta, t.outputTokens);
            split.Some? && whole.Some? && split.value < whole.value
  {
    SplitPricedExactlyWhen(Some(p), t);
    ApportionConserves(t);
    var u := ApportionUsage(t);
    CostAdds(u.input, u.cacheCreation, u.cacheRead, p.inputPerM);
    assert u.cacheRead as real * p.cacheReadPerM < u.cacheRead as real * p.inputPerM;
  }

  // A turn read wholly from the cache, at a tenth of the input rate.
  lemma CachedTurnCostsATenth()
    ensures var t, p := Turn("m", 1000, 0, 0, 0, 1000), ModelPrice(3.0, 0.3, 15.0);
            && EstimateUsage(None, Some(p), ApportionUsage(t)) == Some(0.0003)
            && Estimate(Some(p), t.tokensInDelta, t.outputTokens) == Some(0.003)
  {
    var t := Turn("m", 1000, 0, 0, 0, 1000);
    assert 1000 * 0 / 1000 == 0;
    assert ApportionUsage(t) == Usage(0, 0, 1000, 0);
  }

  lemma SplitDifference(split: real, whole: real, a: real, b: real, c: real, c': real, o: real)
    requires split == a + b + c' + o && whole == a + b + c + o
    ensures split == whole <==> c' == c
  {
  }

  // With live prices the split differs from all tokens at the input rate by what the cache tokens of
  // either kind cost more or less at a rate of their own.
  lemma LiveSplitDiffers(pr: LivePrice, entry: Option<ModelPrice>, t: Turn)
    requires t.tokensInDelta > 0
    ensures var u, split := ApportionUsage(t), EstimateUsage(Some(pr), entry, ApportionUsage(t));
            var whole := Cost(t.tokensInDelta, pr.inputPerM) + Cost(t.outputTokens, pr.outputPerM);
            && split.Some?
            && split.value - whole ==
               (if pr.cacheWritePerM > 0.0 then Cost(u.cacheCreation, pr.cacheWritePerM - pr.inputPerM) else 0.0)
               + (if pr.cacheReadPerM > 0.0 then Cost(u.cacheRead, pr.cacheReadPerM - pr.inputPerM) else 0.0)
  {
    var u := ApportionUsage(t);
    ApportionConserves(t);
    CostAdds(u.input, u.cacheCreation, u.cacheRead, pr.inputPerM);
    RateDiffers(u.cacheCreation, pr.cacheWritePerM, pr.inputPerM);
    RateDiffers(u.cacheRead, pr.cacheReadPerM, pr.inputPerM);
  }

  lemma RateDiffers(tokens: int, rate: real, base: real)
    ensures Cost(tokens, rate) - Cost(tokens, base) == Cost(tokens, rate - base)
  {
    var x := tokens as real;
    assert x * rate - x * base == x * (rate - base);
  }
}
