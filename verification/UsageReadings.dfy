/**
 What a usage record is read as, field by field and in true integers: when it is complete, when some of it
 stays unclassified, and what is in every bucket. The readings do not mention how a breakdown is computed.
 */
module UsageReadings {
  import opened Numbers
  import opened Usage

  function Larger(a: int, b: int): int {
    if a > b then a else b
  }

  predicate Reported(d: Detail) {
    !(d.input == d.output == d.reasoning == d.cached == d.cacheRead == d.cacheCreation == d.total == 0)
  }

  /** A record with neither a total nor a parent of its parts. */
  predicate Parentless(d: Detail) {
    d.total == 0 && d.input == 0 && d.output == 0
  }

  function Caches(d: Detail): int {
    d.cacheRead as int + d.cacheCreation as int
  }

  /** What the record proves at least: its largest known input and its largest known output. */
  function AtLeast(d: Detail): int {
    Larger(Larger(d.input as int, Caches(d)), d.cached as int) + Larger(d.output as int, d.reasoning as int)
  }

  predicate Countable(d: Detail) {
    && d.input >= 0 && d.output >= 0 && d.reasoning >= 0 && d.cached >= 0 && d.cacheRead >= 0 && d.cacheCreation >= 0
    && Caches(d) <= MAX_INT64 && AtLeast(d) <= MAX_INT64
  }

  /** What every bucket holds; the totals are the sums of their parts. */
  predicate Holds(b: Breakdown, uncached: int, read: int, write: int, output: int, reasoning: int, unclassified: int) {
    && b.input.uncached as int == uncached && b.input.cacheRead as int == read && b.input.cacheWrite as int == write
    && b.input.total as int == uncached + read + write
    && b.output.nonReasoning as int == output && b.output.reasoning as int == reasoning
    && b.output.total as int == output + reasoning
    && b.unclassified as int == unclassified
    && b.total as int == uncached + read + write + output + reasoning + unclassified
  }

  /** Nothing but a number of tokens is known. */
  predicate OnlyCounted(b: Breakdown, tokens: int) {
    Holds(b, 0, 0, 0, 0, 0, tokens)
  }

  /** A part of an absent parent is not counted. */
  function PartOf(part: int64, parent: int64): int {
    if parent == 0 then 0 else part as int
  }

  /**
   OpenAI style: the caches are part of the input and the reasoning part of the output. A record is complete
   when the parts fit their parents and the total is absent or the sum of the parents. What the total
   exceeds a lone parent by is unclassified, and so is everything of a record without total and parents.
   */
  predicate ReadAsSubset(d: Detail, b: Breakdown) {
    var read, write := PartOf(d.cacheRead, d.input), PartOf(d.cacheCreation, d.input);
    var reasoning, sum := PartOf(d.reasoning, d.output), d.input as int + d.output as int;
    var fits := && read >= 0 && write >= 0 && read + write <= d.input as int
                && 0 <= reasoning <= d.output as int && sum <= MAX_INT64;
    && (b.quality == Complete <==> sum > 0 && fits && (d.total == 0 || d.total as int == sum))
    && (b.quality == Complete ==>
          Holds(b, d.input as int - read - write, read, write, d.output as int - reasoning, reasoning, 0))
    && (b.quality == Unclassified <==>
          if Parentless(d) then Countable(d) else fits && d.total as int > sum && (d.input == 0 || d.output == 0))
    && (b.quality == Unclassified ==>
          if Parentless(d) then OnlyCounted(b, AtLeast(d))
          else Holds(b, d.input as int - read - write, read, write, d.output as int - reasoning, reasoning,
                     d.total as int - sum))
  }

  /**
   Anthropic style: the caches come on top of the input. The reasoning comes on top of the output when the
   total says so, and is part of it otherwise. Nothing is ever unclassified.
   */
  predicate ReadAsIndependent(d: Detail, b: Breakdown) {
    var inside := d.input as int + Caches(d) + d.output as int;
    var onTop := d.total as int == inside + d.reasoning as int;
    && (b.quality == Complete <==>
          && d.input >= 0 && d.cacheRead >= 0 && d.cacheCreation >= 0 && d.output >= 0 && d.reasoning >= 0
          && inside + d.reasoning as int <= MAX_INT64
          && (onTop || (d.reasoning <= d.output && (d.total == 0 || d.total as int == inside)))
          && (Parentless(d) ==> d.cached >= 0))
    && (b.quality == Complete ==>
          Holds(b, d.input as int, d.cacheRead as int, d.cacheCreation as int,
                d.output as int - (if onTop then 0 else d.reasoning as int), d.reasoning as int, 0))
    && b.quality != Unclassified
  }

  /**
   Gemini style: the caches are part of the input and the reasoning comes on top of the output. Only caches
   without total and parents are unclassified.
   */
  predicate ReadAsSeparate(d: Detail, b: Breakdown) {
    var sum := d.input as int + d.output as int + d.reasoning as int;
    && (b.quality == Complete <==>
          && d.cacheRead >= 0 && d.cacheCreation >= 0 && d.output >= 0 && d.reasoning >= 0
          && Caches(d) <= d.input as int && sum <= MAX_INT64
          && (d.total == 0 || d.total as int == sum)
          && (Parentless(d) ==> d.cached == 0))
    && (b.quality == Complete ==>
          Holds(b, d.input as int - Caches(d), d.cacheRead as int, d.cacheCreation as int,
                d.output as int, d.reasoning as int, 0))
    && (b.quality == Unclassified <==> Parentless(d) && Countable(d) && Larger(Caches(d), d.cached as int) > 0)
    && (b.quality == Unclassified ==> OnlyCounted(b, AtLeast(d)))
  }

  /** A provider nobody knows: its tokens are counted, by the total or else by what the parts prove. */
  predicate ReadAsUnknown(d: Detail, b: Breakdown) {
    && b.quality != Complete
    && (b.quality == Unclassified <==> Countable(d) && d.total >= 0)
    && (b.quality == Unclassified ==> OnlyCounted(b, if d.total > 0 then d.total as int else AtLeast(d)))
  }

  /** An inconsistent record keeps a number and nothing else. */
  predicate Discarded(b: Breakdown) {
    b.quality == Inconsistent ==> OnlyCounted(b, b.total as int)
  }

  // ---------------------------------------------------------------------------------------
  // Records settled before the provider's semantics apply
  // ---------------------------------------------------------------------------------------

  lemma BoundIs(d: Detail)
    ensures UnclassifiedLowerBound(d).ok <==> Countable(d)
    ensures Countable(d) ==> UnclassifiedLowerBound(d).sum as int == AtLeast(d)
  {
  }

  lemma ReportedIs(d: Detail)
    ensures HasTokens(d) <==> Reported(d)
    ensures Reported(d) && Countable(d) && d.total == 0 ==> AtLeast(d) > 0
  {
  }

  /** What is known of a record before the provider's semantics apply, when they give `b`. */
  predicate Settled(d: Detail, s: Semantics, b: Breakdown, r: Breakdown) {
    if Parentless(d) && !Countable(d) then r.quality == Inconsistent && OnlyCounted(r, 0)
    else if Parentless(d) && Orphans(d, s) then r.quality == Unclassified && OnlyCounted(r, AtLeast(d))
    else if OnlyTotal(d) && (s == Subset || s == Unknown) then
      r.quality == Unclassified && OnlyCounted(r, d.total as int)
    else r == b
  }

  lemma UncountableFirst(d: Detail, s: Semantics, b: Breakdown)
    requires Reported(d) && Parentless(d) && !Countable(d)
    ensures BeforeProvider(d, s, b).quality == Inconsistent && OnlyCounted(BeforeProvider(d, s, b), 0)
  {
    BoundIs(d);
  }

  lemma OrphansFirst(d: Detail, s: Semantics, b: Breakdown)
    requires Reported(d) && Parentless(d) && Countable(d)
    ensures if Orphans(d, s)
            then BeforeProvider(d, s, b).quality == Unclassified && OnlyCounted(BeforeProvider(d, s, b), AtLeast(d))
            else BeforeProvider(d, s, b) == b
  {
    BoundIs(d);
    ReportedIs(d);
  }

  lemma ParentsFirst(d: Detail, s: Semantics, b: Breakdown)
    requires Reported(d) && !Parentless(d)
    ensures if OnlyTotal(d) && (s == Subset || s == Unknown)
            then BeforeProvider(d, s, b).quality == Unclassified
                 && OnlyCounted(BeforeProvider(d, s, b), d.total as int)
            else BeforeProvider(d, s, b) == b
  {
  }

  lemma SettledFirst(d: Detail, s: Semantics, b: Breakdown, r: Breakdown)
    requires Reported(d) && r == BeforeProvider(d, s, b)
    ensures Settled(d, s, b, r)
  {
    if !Parentless(d) {
      ParentsFirst(d, s, b);
    } else if Countable(d) {
      OrphansFirst(d, s, b);
    } else {
      UncountableFirst(d, s, b);
    }
  }

  // ---------------------------------------------------------------------------------------
  // The readings
  // ---------------------------------------------------------------------------------------

  predicate SubsetRule(input: int, read: int, write: int, output: int, reasoning: int, total: int, b: Breakdown) {
    var fits := && read >= 0 && write >= 0 && read + write <= input
                && 0 <= reasoning <= output && input + output <= MAX_INT64;
    var sum := input + output;
    && (b.quality == Complete <==> fits && (total == 0 || total == sum))
    && (b.quality == Unclassified <==> fits && total > sum && (input == 0 || output == 0))
    && (b.quality == Complete || b.quality == Unclassified ==>
          Holds(b, input - read - write, read, write, output - reasoning, reasoning,
                if b.quality == Complete then 0 else total - sum))
  }

  lemma SubsetBuilder(input: int64, read: int64, write: int64, output: int64, reasoning: int64, total: int64)
    ensures SubsetRule(input as int, read as int, write as int, output as int, reasoning as int, total as int,
                       SubsetBreakdown(input, read, write, output, reasoning, total))
  {
  }

  lemma SubsetIsRead(d: Detail, b: Breakdown, r: Breakdown)
    requires Reported(d) && Settled(d, Subset, b, r)
    requires SubsetRule(d.input as int, PartOf(d.cacheRead, d.input), PartOf(d.cacheCreation, d.input),
                        d.output as int, PartOf(d.reasoning, d.output), d.total as int, b)
    ensures ReadAsSubset(d, r)
  {
  }

  lemma SubsetProvider(d: Detail) returns (b: Breakdown)
    ensures b == ByProvider(d, Subset)
    ensures SubsetRule(d.input as int, PartOf(d.cacheRead, d.input), PartOf(d.cacheCreation, d.input),
                       d.output as int, PartOf(d.reasoning, d.output), d.total as int, b)
  {
    SubsetBuilder(d.input, if d.input == 0 then 0 else d.cacheRead, if d.input == 0 then 0 else d.cacheCreation,
                  d.output, if d.output == 0 then 0 else d.reasoning, d.total);
    b := ByProvider(d, Subset);
  }

  lemma SubsetReading(d: Detail) returns (r: Breakdown)
    requires Reported(d)
    ensures r == UsageBreakdown(d, Subset) && ReadAsSubset(d, r)
  {
    var b := SubsetProvider(d);
    r := BeforeProvider(d, Subset, b);
    SettledFirst(d, Subset, b, r);
    SubsetIsRead(d, b, r);
  }

  predicate IndependentRule(input: int, read: int, write: int, output: int, reasoning: int, total: int, b: Breakdown) {
    var inside := input + read + write + output;
    var onTop := total == inside + reasoning;
    && (b.quality == Complete <==>
          && input >= 0 && read >= 0 && write >= 0 && output >= 0 && reasoning >= 0
          && inside + reasoning <= MAX_INT64
          && (onTop || (reasoning <= output && (total == 0 || total == inside))))
    && (b.quality == Complete ==>
          Holds(b, input, read, write, output - (if onTop then 0 else reasoning), reasoning, 0))
    && b.quality != Unclassified
  }

  lemma IndependentBuilder(input: int64, read: int64, write: int64, output: int64, reasoning: int64, total: int64)
    ensures IndependentRule(input as int, read as int, write as int, output as int, reasoning as int, total as int,
                            ProviderIndependentBreakdown(input, read, write, output, reasoning, total))
  {
    ProviderIndependentBreakdownMeaning(input, read, write, output, reasoning, total);
    ProviderIndependentBreakdownIsExact(input, read, write, output, reasoning, total);
  }

  lemma IndependentIsRead(d: Detail, b: Breakdown, r: Breakdown)
    requires Reported(d) && Settled(d, Independent, b, r)
    requires IndependentRule(d.input as int, d.cacheRead as int, d.cacheCreation as int, d.output as int,
                             d.reasoning as int, d.total as int, b)
    ensures ReadAsIndependent(d, r)
  {
  }

  lemma IndependentProvider(d: Detail) returns (b: Breakdown)
    ensures b == ByProvider(d, Independent)
    ensures IndependentRule(d.input as int, d.cacheRead as int, d.cacheCreation as int, d.output as int,
                            d.reasoning as int, d.total as int, b)
  {
    IndependentBuilder(d.input, d.cacheRead, d.cacheCreation, d.output, d.reasoning, d.total);
    b := ByProvider(d, Independent);
  }

  lemma IndependentReading(d: Detail) returns (r: Breakdown)
    requires Reported(d)
    ensures r == UsageBreakdown(d, Independent) && ReadAsIndependent(d, r)
  {
    var b := IndependentProvider(d);
    r := BeforeProvider(d, Independent, b);
    SettledFirst(d, Independent, b, r);
    IndependentIsRead(d, b, r);
  }

  predicate SeparateRule(input: int, read: int, write: int, output: int, reasoning: int, total: int, b: Breakdown) {
    && (b.quality == Complete <==>
          && read >= 0 && write >= 0 && output >= 0 && reasoning >= 0
          && read + write <= input && input + output + reasoning <= MAX_INT64
          && (total == 0 || total == input + output + reasoning))
    && (b.quality == Complete ==> Holds(b, input - read - write, read, write, output, reasoning, 0))
    && b.quality != Unclassified
  }

  lemma SeparateBuilder(input: int64, read: int64, write: int64, output: int64, reasoning: int64, total: int64)
    ensures SeparateRule(input as int, read as int, write as int, output as int, reasoning as int, total as int,
                         SeparateReasoningBreakdown(input, read, write, output, reasoning, total))
  {
    SeparateReasoningBreakdownMeaning(input, read, write, output, reasoning, total);
    SeparateReasoningBreakdownIsExact(input, read, write, output, reasoning, total);
  }

  lemma SeparateIsRead(d: Detail, b: Breakdown, r: Breakdown)
    requires Reported(d) && Settled(d, SeparateReasoning, b, r)
    requires SeparateRule(d.input as int, d.cacheRead as int, d.cacheCreation as int, d.output as int,
                          d.reasoning as int, d.total as int, b)
    ensures ReadAsSeparate(d, r)
  {
  }

  lemma SeparateProvider(d: Detail) returns (b: Breakdown)
    ensures b == ByProvider(d, SeparateReasoning)
    ensures SeparateRule(d.input as int, d.cacheRead as int, d.cacheCreation as int, d.output as int,
                         d.reasoning as int, d.total as int, b)
  {
    SeparateBuilder(d.input, d.cacheRead, d.cacheCreation, d.output, d.reasoning, d.total);
    b := ByProvider(d, SeparateReasoning);
  }

  lemma SeparateReading(d: Detail) returns (r: Breakdown)
    requires Reported(d)
    ensures r == UsageBreakdown(d, SeparateReasoning) && ReadAsSeparate(d, r)
  {
    var b := SeparateProvider(d);
    r := BeforeProvider(d, SeparateReasoning, b);
    SettledFirst(d, SeparateReasoning, b, r);
    SeparateIsRead(d, b, r);
  }

  predicate UnknownRule(d: Detail, b: Breakdown) {
    if !Countable(d) then b.quality == Inconsistent
    else
      var tokens := if d.total == 0 then AtLeast(d) else d.total as int;
      if tokens < 0 then b.quality == Inconsistent
      else tokens > 0 ==> b.quality == Unclassified && OnlyCounted(b, tokens)
  }

  lemma UnknownIsRead(d: Detail, b: Breakdown, r: Breakdown)
    requires Reported(d) && Settled(d, Unknown, b, r) && UnknownRule(d, b)
    ensures ReadAsUnknown(d, r)
  {
    ReportedIs(d);
  }

  lemma UnknownProvider(d: Detail) returns (b: Breakdown)
    ensures b == ByProvider(d, Unknown)
    ensures UnknownRule(d, b)
  {
    BoundIs(d);
    b := ByProvider(d, Unknown);
  }

  lemma UnknownReading(d: Detail) returns (r: Breakdown)
    requires Reported(d)
    ensures r == UsageBreakdown(d, Unknown) && ReadAsUnknown(d, r)
  {
    var b := UnknownProvider(d);
    r := BeforeProvider(d, Unknown, b);
    SettledFirst(d, Unknown, b, r);
    UnknownIsRead(d, b, r);
  }

  // ---------------------------------------------------------------------------------------
  // What fits no reading
  // ---------------------------------------------------------------------------------------

  lemma SubsetDiscards(input: int64, read: int64, write: int64, output: int64, reasoning: int64, total: int64)
    ensures Discarded(SubsetBreakdown(input, read, write, output, reasoning, total))
  {
  }

  lemma IndependentDiscards(input: int64, read: int64, write: int64, output: int64, reasoning: int64, total: int64)
    ensures Discarded(ProviderIndependentBreakdown(input, read, write, output, reasoning, total))
  {
  }

  lemma SeparateDiscards(input: int64, read: int64, write: int64, output: int64, reasoning: int64, total: int64)
    ensures Discarded(SeparateReasoningBreakdown(input, read, write, output, reasoning, total))
  {
  }

  lemma DiscardedByProvider(d: Detail, s: Semantics)
    ensures Discarded(ByProvider(d, s))
  {
    match s
    case Subset =>
      SubsetDiscards(d.input, if d.input == 0 then 0 else d.cacheRead, if d.input == 0 then 0 else d.cacheCreation,
                     d.output, if d.output == 0 then 0 else d.reasoning, d.total);
    case Independent => IndependentDiscards(d.input, d.cacheRead, d.cacheCreation, d.output, d.reasoning, d.total);
    case SeparateReasoning => SeparateDiscards(d.input, d.cacheRead, d.cacheCreation, d.output, d.reasoning, d.total);
    case Unknown =>
      var b := UnknownProvider(d);
  }

  lemma SettledDiscards(d: Detail, s: Semantics, b: Breakdown, r: Breakdown)
    requires Settled(d, s, b, r) && Discarded(b)
    ensures Discarded(r)
  {
  }

  /** A record without tokens is none; what fits no reading keeps its positive total and nothing else. */
  lemma OtherReading(d: Detail, s: Semantics)
    ensures UsageBreakdown(d, s).quality == Unreported <==> !Reported(d)
    ensures Discarded(UsageBreakdown(d, s))
    ensures d.total > 0 ==> UsageBreakdown(d, s).total == d.total
  {
    ReportedIs(d);
    if Reported(d) {
      var b := ByProvider(d, s);
      DiscardedByProvider(d, s);
      SettledFirst(d, s, b, BeforeProvider(d, s, b));
      SettledDiscards(d, s, b, BeforeProvider(d, s, b));
      AlwaysExact(d, s);
    }
  }

  /** Exactly the complete records are billed. */
  lemma BilledIffComplete(d: Detail, s: Semantics)
    requires Reported(d)
    ensures Billable(UsageBreakdown(d, s)) <==> UsageBreakdown(d, s).quality == Complete
  {
    ReportedIs(d);
    AlwaysValid(d, s);
  }
}
