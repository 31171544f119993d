/**
 Token normalisation and pricing.

 The helpers compute on `int64`, so the verifier proves that none of their operations leaves
 the machine range, whatever the upstream provider reports.
 */
module Usage {
  import opened Numbers
  import opened Options

  newtype int64 = x: int | MIN_INT64 <= x <= MAX_INT64

  /** How a provider's counters relate to each other. */
  datatype Semantics = Unknown | Subset | Independent | SeparateReasoning

  datatype Detail = Detail(input: int64, output: int64, reasoning: int64, cached: int64,
                           cacheRead: int64, cacheCreation: int64, total: int64)

  /** `Unreported` is the zero value kept when the provider reported no usage at all. */
  datatype Quality = Unreported | Complete | Inconsistent | Unclassified

  datatype Input = Input(total: int64, uncached: int64, cacheRead: int64, cacheWrite: int64)

  datatype Output = Output(total: int64, nonReasoning: int64, reasoning: int64)

  datatype Breakdown = Breakdown(quality: Quality, total: int64, input: Input, output: Output, unclassified: int64)

  const NOTHING := Breakdown(Unreported, 0, Input(0, 0, 0, 0), Output(0, 0, 0), 0)

  // ---------------------------------------------------------------------------------------
  // Validity
  // ---------------------------------------------------------------------------------------

  predicate NonNegative(b: Breakdown) {
    && b.total >= 0 && b.unclassified >= 0
    && b.input.total >= 0 && b.input.uncached >= 0 && b.input.cacheRead >= 0 && b.input.cacheWrite >= 0
    && b.output.total >= 0 && b.output.nonReasoning >= 0 && b.output.reasoning >= 0
  }

  /** The check the engine applies: its sums are int64 sums and wrap around. */
  predicate Valid(b: Breakdown) {
    && b.quality != Unreported
    && NonNegative(b)
    && b.input.total as int == Wrap64(b.input.uncached as int + b.input.cacheRead as int + b.input.cacheWrite as int)
    && b.output.total as int == Wrap64(b.output.nonReasoning as int + b.output.reasoning as int)
    && b.total as int == Wrap64(b.input.total as int + b.output.total as int + b.unclassified as int)
    && (b.quality == Complete ==> b.unclassified == 0)
  }

  predicate Billable(b: Breakdown) {
    Valid(b) && b.quality == Complete
  }

  /** The buckets add up exactly, not merely modulo 2^64. */
  predicate Exact(b: Breakdown) {
    && b.quality != Unreported
    && NonNegative(b)
    && b.input.total as int == b.input.uncached as int + b.input.cacheRead as int + b.input.cacheWrite as int
    && b.output.total as int == b.output.nonReasoning as int + b.output.reasoning as int
    && b.total as int == b.input.total as int + b.output.total as int + b.unclassified as int
    && (b.quality == Complete ==> b.unclassified == 0)
  }

  predicate SumsFit(b: Breakdown) {
    && b.input.uncached as int + b.input.cacheRead as int + b.input.cacheWrite as int <= MAX_INT64
    && b.output.nonReasoning as int + b.output.reasoning as int <= MAX_INT64
    && b.input.total as int + b.output.total as int + b.unclassified as int <= MAX_INT64
  }

  /** The engine's check means what it says exactly for breakdowns whose sums do not overflow. */
  lemma ExactIffValidAndFits(b: Breakdown)
    ensures Exact(b) <==> Valid(b) && SumsFit(b)
  {
    if Valid(b) && SumsFit(b) {
      assert MIN_INT64 <= b.input.uncached as int + b.input.cacheRead as int + b.input.cacheWrite as int;
    }
  }

  /** An overflowing sum that the check accepts: three full input buckets. */
  lemma ValidIsNotAlwaysExact()
    ensures exists b :: Billable(b) && !Exact(b)
  {
    var m: int64 := 0x7fff_ffff_ffff_ffff;
    var b := Breakdown(Complete, m - 2, Input(m - 2, m, m, m), Output(0, 0, 0), 0);
    assert Billable(b) && !Exact(b);
  }

  // ---------------------------------------------------------------------------------------
  // Checked sums
  // ---------------------------------------------------------------------------------------

  datatype Checked = Checked(sum: int64, ok: bool)

  function Total(values: seq<int64>): int {
    if values == [] then 0 else Total(values[..|values| - 1]) + values[|values| - 1] as int
  }

  ghost predicate AllNatural(values: seq<int64>) {
    forall i :: 0 <= i < |values| ==> values[i] >= 0
  }

  lemma {:induction false} TotalGrows(values: seq<int64>, i: nat)
    requires AllNatural(values) && i <= |values|
    ensures 0 <= Total(values[..i]) <= Total(values)
    decreases |values|
  {
    if i == |values| {
      assert values[..i] == values;
      if i > 0 { TotalGrows(values[..i - 1], i - 1); }
      if i > 0 { assert values[..i - 1][..i - 1] == values[..i - 1]; }
    } else {
      TotalGrows(values[..|values| - 1], i);
      assert values[..|values| - 1][..i] == values[..i];
    }
  }

  /** The sum of natural numbers that fits int64; everything else is refused with a zero. */
  method CheckedTokenSum(values: seq<int64>) returns (r: Checked)
    ensures r.ok <==> AllNatural(values) && Total(values) <= MAX_INT64
    ensures r.sum as int == if r.ok then Total(values) else 0
  {
    var total: int64 := 0;
    for i := 0 to |values|
      invariant AllNatural(values[..i])
      invariant 0 <= total && total as int == Total(values[..i])
    {
      var value := values[i];
      if value < 0 || total > 0x7fff_ffff_ffff_ffff - value {
        if AllNatural(values) {
          assert values[..i + 1][..i] == values[..i];
          TotalGrows(values, i + 1);
        }
        return Checked(0, false);
      }
      assert values[..i + 1][..i] == values[..i];
      total := total + value;
    }
    assert values[..|values|] == values;
    return Checked(total, true);
  }

  /** The same for two and for three summands, as the builders below use it. */
  function Sum2(a: int64, b: int64): Checked {
    if a >= 0 && b >= 0 && a as int + b as int <= MAX_INT64 then Checked(a + b, true) else Checked(0, false)
  }

  function Sum3(a: int64, b: int64, c: int64): Checked {
    if a >= 0 && b >= 0 && c >= 0 && a as int + b as int + c as int <= MAX_INT64 then Checked(a + b + c, true)
    else Checked(0, false)
  }

  lemma SumsAreTotals(a: int64, b: int64, c: int64)
    ensures Sum2(a, b).ok <==> AllNatural([a, b]) && Total([a, b]) <= MAX_INT64
    ensures Sum2(a, b).sum as int == if Sum2(a, b).ok then Total([a, b]) else 0
    ensures Sum3(a, b, c).ok <==> AllNatural([a, b, c]) && Total([a, b, c]) <= MAX_INT64
    ensures Sum3(a, b, c).sum as int == if Sum3(a, b, c).ok then Total([a, b, c]) else 0
  {
    var two, three := [a, b], [a, b, c];
    assert two[..1] == [a] && three[..2] == two && [a][..0] == [];
    assert two[0] == a && two[1] == b && three[0] == a && three[1] == b && three[2] == c;
    assert Total([a]) == a as int;
    assert Total(two) == Total(two[..1]) + two[1] as int;
    assert Total(three) == Total(three[..2]) + three[2] as int;
  }

  // ---------------------------------------------------------------------------------------
  // Builders
  // ---------------------------------------------------------------------------------------

  function CompleteBreakdown(input: int64, cacheRead: int64, cacheWrite: int64, output: int64,
          reasoning: int64, total: int64): (b: Breakdown)
    requires input >= 0 && cacheRead >= 0 && cacheWrite >= 0 && output >= 0 && reasoning >= 0
    requires input as int + cacheRead as int + cacheWrite as int <= MAX_INT64
    requires output as int + reasoning as int <= MAX_INT64
  {
    Breakdown(Complete, total, Input(input + cacheRead + cacheWrite, input, cacheRead, cacheWrite),
              Output(output + reasoning, output, reasoning), 0)
  }

  function InconsistentBreakdown(total: int64, computed: int64): (b: Breakdown)
    ensures Exact(b) && (total > 0 ==> b.total == total)
  {
    var t := if total <= 0 then computed else total;
    var u := if t < 0 then 0 else t;
    Breakdown(Inconsistent, u, Input(0, 0, 0, 0), Output(0, 0, 0), u)
  }

  function UnclassifiedBreakdown(total: int64): (b: Breakdown)
    ensures Exact(b) && (total > 0 ==> b.total == total)
  {
    if total < 0 then InconsistentBreakdown(total, 0)
    else if total == 0 then Breakdown(Complete, 0, Input(0, 0, 0, 0), Output(0, 0, 0), 0)
    else Breakdown(Unclassified, total, Input(0, 0, 0, 0), Output(0, 0, 0), total)
  }

  function ResolveTotal(total: int64, expected: int64): Checked {
    if total < 0 || expected < 0 then Checked(0, false)
    else if total == 0 then Checked(expected, true)
    else Checked(total, total == expected)
  }

  /** OpenAI style: caches are part of the input, reasoning part of the output. */
  function SubsetBreakdown(input: int64, cacheRead: int64, cacheWrite: int64, output: int64, reasoning: int64,
          total: int64): (b: Breakdown)
  {
    var expected := Sum2(input, output);
    var cache := Sum2(cacheRead, cacheWrite);
    if !expected.ok || !cache.ok || cache.sum > input || reasoning < 0 || reasoning > output then
      InconsistentBreakdown(total, expected.sum)
    else if total < 0 || (total > 0 && total < expected.sum) then
      InconsistentBreakdown(total, expected.sum)
    else
      var b := CompleteBreakdown(input - cache.sum, cacheRead, cacheWrite, output - reasoning, reasoning, expected.sum);
      if total > expected.sum then
        if input > 0 && output > 0 then InconsistentBreakdown(total, expected.sum)
        else b.(quality := Unclassified, total := total, unclassified := total - expected.sum)
      else b
  }

  function IndependentBreakdown(input: int64, cacheRead: int64, cacheWrite: int64, output: int64,
          reasoning: int64, total: int64): (b: Breakdown)
  {
    var inputTotal := Sum3(input, cacheRead, cacheWrite);
    var outputTotal := Sum2(output, reasoning);
    var expected := Sum2(inputTotal.sum, outputTotal.sum);
    if !inputTotal.ok || !outputTotal.ok || !expected.ok then
      InconsistentBreakdown(total, expected.sum)
    else
      var resolved := ResolveTotal(total, expected.sum);
      if !resolved.ok then InconsistentBreakdown(total, expected.sum)
      else CompleteBreakdown(input, cacheRead, cacheWrite, output, reasoning, resolved.sum)
  }

  /**
   Anthropic style: caches come on top of the input; reasoning is on top of the output or
   inside it, as the reported total decides.
   */
  function ProviderIndependentBreakdown(input: int64, cacheRead: int64, cacheWrite: int64, output: int64,
          reasoning: int64, total: int64): (b: Breakdown)
  {
    var inputTotal := Sum3(input, cacheRead, cacheWrite);
    var separate := Sum3(inputTotal.sum, output, reasoning);
    if !inputTotal.ok || !separate.ok then
      InconsistentBreakdown(total, 0)
    else if total == separate.sum then
      IndependentBreakdown(input, cacheRead, cacheWrite, output, reasoning, total)
    else if reasoning < 0 || reasoning > output then
      InconsistentBreakdown(total, 0)
    else
      IndependentBreakdown(input, cacheRead, cacheWrite, output - reasoning, reasoning, total)
  }

  /** Gemini style: caches are part of the input, reasoning comes on top of the output. */
  function SeparateReasoningBreakdown(input: int64, cacheRead: int64, cacheWrite: int64, output: int64,
          reasoning: int64, total: int64): (b: Breakdown)
  {
    var cache := Sum2(cacheRead, cacheWrite);
    if input < 0 || !cache.ok || cache.sum > input then
      InconsistentBreakdown(total, 0)
    else
      var outputTotal := Sum2(output, reasoning);
      var expected := Sum2(input, outputTotal.sum);
      if !outputTotal.ok || !expected.ok then InconsistentBreakdown(total, expected.sum)
      else
        var resolved := ResolveTotal(total, expected.sum);
        if !resolved.ok then InconsistentBreakdown(total, expected.sum)
        else CompleteBreakdown(input - cache.sum, cacheRead, cacheWrite, output, reasoning, resolved.sum)
  }

  function Larger(a: int64, b: int64): int64 {
    if a > b then a else b
  }

  function UnclassifiedLowerBound(d: Detail): Checked {
    var cache := Sum2(d.cacheRead, d.cacheCreation);
    if !cache.ok || d.input < 0 || d.output < 0 || d.reasoning < 0 || d.cached < 0 then Checked(0, false)
    else Sum2(Larger(Larger(d.input, cache.sum), d.cached), Larger(d.output, d.reasoning))
  }

  predicate HasTokens(d: Detail) {
    d.input != 0 || d.output != 0 || d.reasoning != 0 || d.cached != 0 || d.cacheRead != 0 || d.cacheCreation != 0
        || d.total != 0
  }

  predicate OnlyTotal(d: Detail) {
    d.total > 0 && d.input == 0 && d.output == 0 && d.reasoning == 0 && d.cacheRead == 0 && d.cacheCreation == 0
        && d.cached == 0
  }

  /** Children that no parent total can hold. */
  predicate Orphans(d: Detail, s: Semantics) {
    s == Unknown || s == Subset || (s == SeparateReasoning && (d.cacheRead > 0 || d.cacheCreation > 0 || d.cached > 0))
  }

  /** The breakdown under the provider's own semantics. */
  function ByProvider(d: Detail, s: Semantics): Breakdown {
    match s
    case Subset =>
      // Children of an absent parent stay in the unclassified remainder.
      SubsetBreakdown(d.input, if d.input == 0 then 0 else d.cacheRead, if d.input == 0 then 0 else d.cacheCreation,
                      d.output, if d.output == 0 then 0 else d.reasoning, d.total)
    case Independent =>
      ProviderIndependentBreakdown(d.input, d.cacheRead, d.cacheCreation, d.output, d.reasoning, d.total)
    case SeparateReasoning =>
      SeparateReasoningBreakdown(d.input, d.cacheRead, d.cacheCreation, d.output, d.reasoning, d.total)
    case Unknown =>
      var bound := UnclassifiedLowerBound(d);
      if !bound.ok then InconsistentBreakdown(d.total, 0)
      else UnclassifiedBreakdown(if d.total == 0 then bound.sum else d.total)
  }

  predicate NoParents(d: Detail) {
    d.total == 0 && d.input == 0 && d.output == 0
  }

  /** Records without parent totals are settled before the provider's semantics apply. */
  function BeforeProvider(d: Detail, s: Semantics, otherwise: Breakdown): Breakdown {
    var bound := UnclassifiedLowerBound(d);
    if !HasTokens(d) then NOTHING
    else if OnlyTotal(d) && (s == Subset || s == Unknown) then UnclassifiedBreakdown(d.total)
    else if NoParents(d) && !bound.ok then InconsistentBreakdown(d.total, 0)
    else if NoParents(d) && bound.sum > 0 && Orphans(d, s) then UnclassifiedBreakdown(bound.sum)
    else otherwise
  }

  function UsageBreakdown(d: Detail, s: Semantics): Breakdown {
    BeforeProvider(d, s, ByProvider(d, s))
  }

  // ---------------------------------------------------------------------------------------
  // What the builders mean
  // ---------------------------------------------------------------------------------------

  lemma SubsetBreakdownIsExact(input: int64, cacheRead: int64, cacheWrite: int64, output: int64,
          reasoning: int64, total: int64)
    ensures var b := SubsetBreakdown(input, cacheRead, cacheWrite, output, reasoning, total);
            Exact(b) && (total > 0 ==> b.total == total)
  {
  }

  /** OpenAI style: caches are part of the input, reasoning part of the output. */
  lemma SubsetBreakdownMeaning(input: int64, cacheRead: int64, cacheWrite: int64, output: int64,
          reasoning: int64, total: int64)
    ensures var b := SubsetBreakdown(input, cacheRead, cacheWrite, output, reasoning, total);
            b.quality == Complete <==>
              && cacheRead >= 0 && cacheWrite >= 0 && reasoning >= 0
              && cacheRead as int + cacheWrite as int <= input as int && reasoning <= output
              && input as int + output as int <= MAX_INT64
              && (total == 0 || total as int == input as int + output as int)
    ensures var b := SubsetBreakdown(input, cacheRead, cacheWrite, output, reasoning, total);
            b.quality == Complete ==>
              && b.input.total == input && b.input.cacheRead == cacheRead && b.input.cacheWrite == cacheWrite
              && b.output.total == output && b.output.reasoning == reasoning
  {
  }

  lemma ProviderIndependentBreakdownIsExact(input: int64, cacheRead: int64, cacheWrite: int64, output: int64,
          reasoning: int64, total: int64)
    ensures var b := ProviderIndependentBreakdown(input, cacheRead, cacheWrite, output, reasoning, total);
            Exact(b) && (total > 0 ==> b.total == total)
  {
  }

  /** Anthropic style: caches come on top of the input; reasoning is on top of the output or
   inside it, as the reported total decides. */
  lemma ProviderIndependentBreakdownMeaning(input: int64, cacheRead: int64, cacheWrite: int64, output: int64,
          reasoning: int64, total: int64)
    ensures var b := ProviderIndependentBreakdown(input, cacheRead, cacheWrite, output, reasoning, total);
            var inside := input as int + cacheRead as int + cacheWrite as int + output as int;
            b.quality == Complete <==>
              && input >= 0 && cacheRead >= 0 && cacheWrite >= 0 && output >= 0 && reasoning >= 0
              && inside + reasoning as int <= MAX_INT64
              && (total as int == inside + reasoning as int
                   || (reasoning <= output && (total == 0 || total as int == inside)))
    ensures var b := ProviderIndependentBreakdown(input, cacheRead, cacheWrite, output, reasoning, total);
            var inside := input as int + cacheRead as int + cacheWrite as int + output as int;
            b.quality == Complete ==>
              && b.input.uncached == input && b.input.cacheRead == cacheRead && b.input.cacheWrite == cacheWrite
              && b.output.reasoning == reasoning
              && b.output.total as int ==
                   output as int + if total as int == inside + reasoning as int then reasoning as int else 0
  {
  }

  lemma SeparateReasoningBreakdownIsExact(input: int64, cacheRead: int64, cacheWrite: int64, output: int64,
          reasoning: int64, total: int64)
    ensures var b := SeparateReasoningBreakdown(input, cacheRead, cacheWrite, output, reasoning, total);
            Exact(b) && (total > 0 ==> b.total == total)
  {
  }

  /** Gemini style: caches are part of the input, reasoning comes on top of the output. */
  lemma SeparateReasoningBreakdownMeaning(input: int64, cacheRead: int64, cacheWrite: int64, output: int64,
          reasoning: int64, total: int64)
    ensures var b := SeparateReasoningBreakdown(input, cacheRead, cacheWrite, output, reasoning, total);
            b.quality == Complete <==>
              && cacheRead >= 0 && cacheWrite >= 0 && output >= 0 && reasoning >= 0
              && cacheRead as int + cacheWrite as int <= input as int
              && input as int + output as int + reasoning as int <= MAX_INT64
              && (total == 0 || total as int == input as int + output as int + reasoning as int)
    ensures var b := SeparateReasoningBreakdown(input, cacheRead, cacheWrite, output, reasoning, total);
            b.quality == Complete ==>
              && b.input.total == input && b.input.cacheRead == cacheRead && b.input.cacheWrite == cacheWrite
              && b.output == Output(output + reasoning, output, reasoning)
  {
    var cache, outputTotal := Sum2(cacheRead, cacheWrite), Sum2(output, reasoning);
    var expected := Sum2(input, outputTotal.sum);
    assert outputTotal.ok <==> output >= 0 && reasoning >= 0 && output as int + reasoning as int <= MAX_INT64;
    assert cache.ok <==> cacheRead >= 0 && cacheWrite >= 0 && cacheRead as int + cacheWrite as int <= MAX_INT64;
    assert outputTotal.ok && expected.ok ==> expected.sum as int == input as int + output as int + reasoning as int;
  }

  ghost predicate Kept(b: Breakdown, total: int64) {
    Exact(b) && (total > 0 ==> b.total == total)
  }

  lemma SubsetUsage(d: Detail)
    ensures Kept(ByProvider(d, Subset), d.total)
  {
    SubsetBreakdownIsExact(d.input, if d.input == 0 then 0 else d.cacheRead,
                           if d.input == 0 then 0 else d.cacheCreation,
                           d.output, if d.output == 0 then 0 else d.reasoning, d.total);
  }

  lemma IndependentUsage(d: Detail)
    ensures Kept(ByProvider(d, Independent), d.total)
  {
    ProviderIndependentBreakdownIsExact(d.input, d.cacheRead, d.cacheCreation, d.output, d.reasoning, d.total);
  }

  lemma SeparateUsage(d: Detail)
    ensures Kept(ByProvider(d, SeparateReasoning), d.total)
  {
    SeparateReasoningBreakdownIsExact(d.input, d.cacheRead, d.cacheCreation, d.output, d.reasoning, d.total);
  }

  lemma ProviderUsage(d: Detail, s: Semantics)
    ensures Kept(ByProvider(d, s), d.total)
  {
    match s
    case Subset => SubsetUsage(d);
    case Independent => IndependentUsage(d);
    case SeparateReasoning => SeparateUsage(d);
    case Unknown =>
  }

  lemma BeforeProviderUsage(d: Detail, s: Semantics, otherwise: Breakdown)
    requires HasTokens(d) && Kept(otherwise, d.total)
    ensures Kept(BeforeProvider(d, s, otherwise), d.total)
  {
  }

  lemma AlwaysExact(d: Detail, s: Semantics)
    requires HasTokens(d)
    ensures Kept(UsageBreakdown(d, s), d.total)
  {
    ProviderUsage(d, s);
    BeforeProviderUsage(d, s, ByProvider(d, s));
  }

  /**
   Whatever a provider reports, as long as it reports something: the result is a valid breakdown
   whose buckets add up exactly, and a positive reported total is kept.
   */
  lemma AlwaysValid(d: Detail, s: Semantics)
    requires HasTokens(d)
    ensures Valid(UsageBreakdown(d, s)) && Exact(UsageBreakdown(d, s))
    ensures d.total > 0 ==> UsageBreakdown(d, s).total == d.total
  {
    AlwaysExact(d, s);
    ExactIffValidAndFits(UsageBreakdown(d, s));
  }

  // ---------------------------------------------------------------------------------------
  // Pricing
  // ---------------------------------------------------------------------------------------

  /** Rates in USD per million tokens; missing cache rates inherit the input rate. */
  datatype Rates = Rates(input: real, output: real, cacheRead: Option<real>, cacheWrite: Option<real>)

  datatype PriceRates = PriceRates(base: Rates, longContext: Option<Tier>)

  datatype Tier = Tier(threshold: int64, rates: Rates)

  datatype Applied = Applied(input: real, output: real, cacheRead: real, cacheWrite: real)

  datatype Price = Price(base: Applied, longContext: Option<(int64, Applied)>)

  function ResolveRates(r: Rates): Applied {
    Applied(r.input, r.output, if r.cacheRead.Some? then r.cacheRead.value else r.input,
            if r.cacheWrite.Some? then r.cacheWrite.value else r.input)
  }

  function Resolve(r: PriceRates): Price {
    Price(ResolveRates(r.base),
          match r.longContext case None => None case Some(t) => Some((t.threshold, ResolveRates(t.rates))))
  }

  datatype Cost = Cost(totalUSD: real, uncachedInputUSD: real, cacheReadUSD: real, cacheWriteUSD: real, outputUSD: real,
                       uncachedInput: int64, cacheRead: int64, cacheWrite: int64, billedOutput: int64,
                       longContext: bool)

  const NO_COST := Cost(0.0, 0.0, 0.0, 0.0, 0.0, 0, 0, 0, 0, false)

  function PerMillion(tokens: int64, rate: real): real {
    if tokens <= 0 || rate == 0.0 then 0.0 else tokens as real / 1_000_000.0 * rate
  }

  function ComputeCost(price: Price, b: Breakdown): Cost {
    if !Billable(b) then NO_COST else
      var long := price.longContext.Some? && b.input.total > price.longContext.value.0;
      var rates := if long then price.longContext.value.1 else price.base;
      var uncached := PerMillion(b.input.uncached, rates.input);
      var read := PerMillion(b.input.cacheRead, rates.cacheRead);
      var write := PerMillion(b.input.cacheWrite, rates.cacheWrite);
      var out := PerMillion(b.output.total, rates.output);
      Cost(uncached + read + write + out, uncached, read, write, out,
           b.input.uncached, b.input.cacheRead, b.input.cacheWrite, b.output.total, long)
  }

  lemma PerMillionScales(tokens: int64, rate: real)
    requires tokens >= 0
    ensures PerMillion(tokens, rate) * 1_000_000.0 == tokens as real * rate
    ensures rate >= 0.0 ==> PerMillion(tokens, rate) >= 0.0
  {
  }

  /** Every reported token of a billable record is priced in exactly one of the four buckets. */
  lemma EveryTokenPricedOnce(d: Detail, s: Semantics, price: Price)
    requires HasTokens(d) && Billable(UsageBreakdown(d, s))
    ensures var b, c := UsageBreakdown(d, s), ComputeCost(price, UsageBreakdown(d, s));
            && c.uncachedInput >= 0 && c.cacheRead >= 0 && c.cacheWrite >= 0 && c.billedOutput >= 0
            && c.uncachedInput as int + c.cacheRead as int + c.cacheWrite as int + c.billedOutput as int ==
                 b.total as int
            && (d.total > 0 ==> b.total == d.total)
  {
    AlwaysExact(d, s);
  }

  /** An amount is what the tokens cost at a rate in USD per million. */
  predicate CostsAt(usd: real, tokens: int64, rate: real) {
    usd * 1_000_000.0 == tokens as real * rate && (rate >= 0.0 ==> usd >= 0.0)
  }

  /** A cache rate that is not given is the input rate. */
  predicate CacheCosts(usd: real, tokens: int64, given: Option<real>, input: real) {
    (given.Some? ==> CostsAt(usd, tokens, given.value)) && (given.None? ==> CostsAt(usd, tokens, input))
  }

  lemma PerMillionCosts(tokens: int64, rate: real)
    requires tokens >= 0
    ensures CostsAt(PerMillion(tokens, rate), tokens, rate)
  {
    PerMillionScales(tokens, rate);
  }

  lemma ComputedAt(price: Price, b: Breakdown, rates: Applied) returns (c: Cost)
    requires Billable(b)
    requires var long := price.longContext.Some? && b.input.total > price.longContext.value.0;
             rates == if long then price.longContext.value.1 else price.base
    ensures c == ComputeCost(price, b)
    ensures CostsAt(c.uncachedInputUSD, b.input.uncached, rates.input)
    ensures CostsAt(c.cacheReadUSD, b.input.cacheRead, rates.cacheRead)
    ensures CostsAt(c.cacheWriteUSD, b.input.cacheWrite, rates.cacheWrite)
    ensures CostsAt(c.outputUSD, b.output.total, rates.output)
  {
    PerMillionCosts(b.input.uncached, rates.input);
    PerMillionCosts(b.input.cacheRead, rates.cacheRead);
    PerMillionCosts(b.input.cacheWrite, rates.cacheWrite);
    PerMillionCosts(b.output.total, rates.output);
    c := ComputeCost(price, b);
  }

  lemma CostsAddUp(price: Price, b: Breakdown)
    ensures var c := ComputeCost(price, b);
            c.totalUSD == c.uncachedInputUSD + c.cacheReadUSD + c.cacheWriteUSD + c.outputUSD
    ensures var c := ComputeCost(price, b);
            Billable(b) ==>
              && c.uncachedInput == b.input.uncached && c.cacheRead == b.input.cacheRead
              && c.cacheWrite == b.input.cacheWrite && c.billedOutput == b.output.total
              && c.longContext == (price.longContext.Some? && b.input.total > price.longContext.value.0)
    ensures !Billable(b) ==> ComputeCost(price, b) == Cost(0.0, 0.0, 0.0, 0.0, 0.0, 0, 0, 0, 0, false)
  {
  }

  /** The price that applies to all of a request: the one for long inputs when the input exceeds its threshold. */
  function RatesFor(r: PriceRates, inputTokens: int64): Rates {
    if r.longContext.Some? && inputTokens > r.longContext.value.threshold then r.longContext.value.rates else r.base
  }

  /** Every bucket costs its tokens at its own rate; a record that is not billable costs nothing. */
  lemma CostOfTokens(b: Breakdown, r: PriceRates) returns (c: Cost)
    ensures c == ComputeCost(Resolve(r), b)
    ensures c.totalUSD == c.uncachedInputUSD + c.cacheReadUSD + c.cacheWriteUSD + c.outputUSD
    ensures !Billable(b) ==> c == Cost(0.0, 0.0, 0.0, 0.0, 0.0, 0, 0, 0, 0, false)
    ensures Billable(b) ==>
              && c.uncachedInput == b.input.uncached && c.cacheRead == b.input.cacheRead
              && c.cacheWrite == b.input.cacheWrite && c.billedOutput == b.output.total
              && c.longContext == (r.longContext.Some? && b.input.total > r.longContext.value.threshold)
              && var rates := if c.longContext then r.longContext.value.rates else r.base;
                 && CostsAt(c.uncachedInputUSD, c.uncachedInput, rates.input)
                 && CacheCosts(c.cacheReadUSD, c.cacheRead, rates.cacheRead, rates.input)
                 && CacheCosts(c.cacheWriteUSD, c.cacheWrite, rates.cacheWrite, rates.input)
                 && CostsAt(c.outputUSD, c.billedOutput, rates.output)
  {
    CostsAddUp(Resolve(r), b);
    if Billable(b) {
      c := ComputedAt(Resolve(r), b, ResolveRates(RatesFor(r, b.input.total)));
    } else {
      c := NO_COST;
    }
  }
}
