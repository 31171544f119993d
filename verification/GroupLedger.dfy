/**
 The day ledger of one key, group and business day.

 `raw` is everything spent, `credit` what a reset forgave. Usage that started before the last reset
 but arrives after it is spent and forgiven at once.
 */
module GroupLedger {
  import opened Numbers
  import opened Options

  datatype Day = Day(
    raw: int, credit: int, cutoff: Option<int>, error: bool, tokens: int, requests: int, incomplete: int)

  const EMPTY_DAY := Day(0, 0, None, false, 0, 0, 0)

  /** Addition of natural int64 values; nothing when it would overflow. */
  function AddGroupCount(a: int, b: int): (r: Option<int>)
    ensures r.Some? <==> a >= 0 && b >= 0 && a + b <= MAX_INT64
    ensures r.Some? ==> r.value == a + b
  {
    if a < 0 || b < 0 || a > MAX_INT64 - b then None else Some(a + b)
  }

  /**
   One usage record: when it started, its cost in nano-dollars (none when it is not a number or too
   large), whether it has a price and billable tokens, and its tokens when they are consistent.
   */
  datatype Charge = Charge(at: int, amount: Option<int>, billable: bool, tokens: Option<int>)

  predicate LegalCharge(c: Charge) {
    && (c.amount.Some? ==> 0 <= c.amount.value <= MAX_INT64)
    && (c.tokens.Some? ==> 0 <= c.tokens.value <= MAX_INT64)
  }

  predicate Priced(c: Charge) {
    c.amount.Some? && c.billable
  }

  predicate Forgiven(d: Day, c: Charge) {
    d.cutoff.Some? && c.at < d.cutoff.value
  }

  function NewCredit(d: Day, c: Charge): Option<int>
    requires Priced(c)
  {
    if Forgiven(d, c) then AddGroupCount(d.credit, c.amount.value) else Some(d.credit)
  }

  /** The cost attributed to the record, when it is. */
  function AttributedCost(d: Day, c: Charge): Option<int> {
    if Priced(c) && AddGroupCount(d.raw, c.amount.value).Some? && NewCredit(d, c).Some? then c.amount else None
  }

  function Spent(d: Day, c: Charge): Day {
    var cost := AttributedCost(d, c);
    if cost.Some? then d.(raw := d.raw + cost.value, credit := NewCredit(d, c).value)
    else d.(incomplete := d.incomplete + 1, error := d.error || c.amount.None? || c.billable)
  }

  function CountedRequest(d: Day): Day {
    var n := AddGroupCount(d.requests, 1);
    if n.Some? then d.(requests := n.value) else d.(incomplete := d.incomplete + 1)
  }

  function CountedTokens(d: Day, c: Charge): Day {
    if c.tokens.None? then d else
      var n := AddGroupCount(d.tokens, c.tokens.value);
      if n.Some? then d.(tokens := n.value) else d.(incomplete := d.incomplete + 1)
  }

  function Charged(d: Day, c: Charge): Day {
    CountedTokens(CountedRequest(Spent(d, c)), c)
  }

  function ResetAt(d: Day, now: int): Day {
    d.(credit := d.raw, cutoff := Some(now))
  }

  function One(b: bool): int {
    if b then 1 else 0
  }

  /**
   One record on a ledger, amount by amount. A cost with a price is added when the total fits int64, and forgiven when
   the record started before the last reset; a cost that is lost sets the error. Requests and tokens are counted while
   they fit, and whatever could not be counted makes the ledger incomplete.
   */
  lemma ChargeMeans(d: Day, c: Charge)
    requires 0 <= d.credit <= d.raw <= MAX_INT64 && LegalCharge(c)
    ensures var e := Charged(d, c);
            var counts := c.billable && c.amount.Some? && d.raw + c.amount.value <= MAX_INT64;
            && e.raw == d.raw + (if counts then c.amount.value else 0)
            && e.credit == d.credit + (if counts && d.cutoff.Some? && c.at < d.cutoff.value then c.amount.value else 0)
            && e.cutoff == d.cutoff
            && (e.error <==> d.error || c.amount.None? || (c.billable && !counts))
    ensures var e := Charged(d, c);
            var counts := c.billable && c.amount.Some? && d.raw + c.amount.value <= MAX_INT64;
            var request := 0 <= d.requests < MAX_INT64;
            var tokens := c.tokens.Some? && d.tokens >= 0 && d.tokens + c.tokens.value <= MAX_INT64;
            && e.requests == d.requests + One(request)
            && e.tokens == d.tokens + (if tokens then c.tokens.value else 0)
            && e.incomplete == d.incomplete + One(!counts) + One(!request) + One(c.tokens.Some? && !tokens)
  {
  }

  // ---------------------------------------------------------------------------------------
  // Runs
  // ---------------------------------------------------------------------------------------

  datatype Event = Usage(charge: Charge) | Reset(now: int)

  predicate LegalEvents(es: seq<Event>) {
    forall i :: 0 <= i < |es| && es[i].Usage? ==> LegalCharge(es[i].charge)
  }

  function After(d: Day, e: Event): Day {
    match e case Usage(c) => Charged(d, c) case Reset(now) => ResetAt(d, now)
  }

  function Run(es: seq<Event>): Day {
    if es == [] then EMPTY_DAY else After(Run(es[..|es| - 1]), es[|es| - 1])
  }

  /** The cost attributed to the i-th event of a run. */
  function CostAt(es: seq<Event>, i: nat): int
    requires i < |es|
  {
    if es[i].Reset? then 0 else
      match AttributedCost(Run(es[..i]), es[i].charge) case Some(cost) => cost case None => 0
  }

  /** The costs attributed from an index on to records that started at the cutoff or later. */
  function CostsSince(es: seq<Event>, from: nat, cutoff: Option<int>): int
    decreases |es|
  {
    if |es| <= from then 0 else
      var n := |es| - 1;
      CostsSince(es[..n], from, cutoff)
      + if es[n].Usage? && (cutoff.Some? ==> cutoff.value <= es[n].charge.at) then CostAt(es, n) else 0
  }

  ghost predicate Bounded(d: Day) {
    0 <= d.credit <= d.raw <= MAX_INT64
  }

  /** The credit never overflows alone: it fits whenever the total does. */
  lemma CreditNeverOverflowsAlone(d: Day, c: Charge)
    requires Bounded(d) && Priced(c) && LegalCharge(c)
    ensures AddGroupCount(d.raw, c.amount.value).Some? ==> NewCredit(d, c).Some?
    ensures AttributedCost(d, c).Some? <==> d.raw + c.amount.value <= MAX_INT64
  {
  }

  /** One usage record more: it is spent by what is attributed to it, and forgiven when it is old. */
  lemma UsageStep(es: seq<Event>)
    requires es != [] && es[|es| - 1].Usage?
    requires Bounded(Run(es[..|es| - 1])) && LegalCharge(es[|es| - 1].charge)
    ensures var n, d, e := |es| - 1, Run(es[..|es| - 1]), Run(es);
            && e.raw == d.raw + CostAt(es, n)
            && e.credit == d.credit + (if Forgiven(d, es[n].charge) then CostAt(es, n) else 0)
            && e.cutoff == d.cutoff
            && Bounded(e) && CostAt(es, n) >= 0
  {
  }

  lemma ResetStep(es: seq<Event>)
    requires es != [] && es[|es| - 1].Reset?
    ensures Run(es).raw == Run(es).credit == Run(es[..|es| - 1]).raw
    ensures Run(es).cutoff == Some(es[|es| - 1].now)
  {
  }

  /** Every ledger of every run: 0 <= credit <= raw <= MAX_INT64, and raw is what was attributed. */
  lemma {:induction false} RawIsAttributed(es: seq<Event>)
    requires LegalEvents(es)
    ensures Bounded(Run(es))
    ensures Run(es).raw == CostsSince(es, 0, None)
  {
    if es != [] {
      RawIsAttributed(es[..|es| - 1]);
      if es[|es| - 1].Usage? { UsageStep(es); } else { ResetStep(es); }
    }
  }

  predicate LastReset(es: seq<Event>, k: nat) {
    k < |es| && es[k].Reset? && forall j :: k < j < |es| ==> es[j].Usage?
  }

  /** Without a reset nothing is forgiven: everything attributed counts against the limit. */
  lemma {:induction false} UsedWithoutReset(es: seq<Event>)
    requires LegalEvents(es) && forall j :: 0 <= j < |es| ==> es[j].Usage?
    ensures Run(es).raw - Run(es).credit == CostsSince(es, 0, None)
    ensures Run(es).credit == 0 && Run(es).cutoff == None
  {
    RawIsAttributed(es);
    if es != [] {
      UsedWithoutReset(es[..|es| - 1]);
      RawIsAttributed(es[..|es| - 1]);
      UsageStep(es);
    }
  }

  lemma UsedStep(es: seq<Event>, from: nat, cutoff: int)
    requires from < |es| && es[|es| - 1].Usage?
    ensures var n := |es| - 1;
            CostsSince(es, from, Some(cutoff)) ==
              CostsSince(es[..n], from, Some(cutoff)) + if cutoff <= es[n].charge.at then CostAt(es, n) else 0
  {
  }

  /**
   What counts against the limit after a reset is exactly the cost of the records that arrived
   since and started at its cutoff or later.
   */
  lemma {:induction false} UsedSinceReset(es: seq<Event>, k: nat)
    requires LegalEvents(es) && LastReset(es, k)
    ensures Run(es).raw - Run(es).credit == CostsSince(es, k + 1, Some(es[k].now))
    ensures Run(es).cutoff == Some(es[k].now)
    decreases |es|
  {
    var n := |es| - 1;
    RawIsAttributed(es[..n]);
    if k < n {
      UsedSinceReset(es[..n], k);
      UsageStep(es);
      UsedStep(es, k + 1, es[k].now);
    } else {
      ResetStep(es);
      assert CostsSince(es, k + 1, Some(es[k].now)) == 0;
    }
  }

  // ---------------------------------------------------------------------------------------
  // Completeness
  // ---------------------------------------------------------------------------------------

  /** What every record of a run would add up to: cost, tokens and requests. */
  datatype Totals = Totals(cost: int, tokens: int, requests: int)

  function WithCharge(t: Totals, c: Charge): Totals {
    Totals(t.cost + (if Priced(c) then c.amount.value else 0),
           t.tokens + (if c.tokens.Some? then c.tokens.value else 0), t.requests + 1)
  }

  function TotalsOf(es: seq<Event>): Totals {
    if es == [] then Totals(0, 0, 0)
    else if es[|es| - 1].Reset? then TotalsOf(es[..|es| - 1])
    else WithCharge(TotalsOf(es[..|es| - 1]), es[|es| - 1].charge)
  }

  predicate AllPriced(es: seq<Event>) {
    forall i :: 0 <= i < |es| && es[i].Usage? ==> Priced(es[i].charge)
  }

  predicate TotalsFit(t: Totals) {
    t.cost <= MAX_INT64 && t.tokens <= MAX_INT64 && t.requests <= MAX_INT64
  }

  predicate NaturalTotals(t: Totals) {
    t.cost >= 0 && t.tokens >= 0 && t.requests >= 0
  }

  predicate Matches(d: Day, t: Totals) {
    d.raw == t.cost && d.tokens == t.tokens && d.requests == t.requests
  }

  /** A ledger with no incomplete record: all records priced, all totals fit, and it shows them. */
  predicate ShowsTotals(d: Day, priced: bool, t: Totals) {
    && d.incomplete >= 0
    && (d.incomplete == 0 <==> priced && TotalsFit(t))
    && (d.incomplete == 0 ==> Matches(d, t))
  }

  /** One record more on a complete ledger. */
  lemma CompleteStep(d: Day, c: Charge, t: Totals)
    requires Bounded(d) && LegalCharge(c) && d.incomplete == 0 && Matches(d, t) && TotalsFit(t) && NaturalTotals(t)
    ensures ShowsTotals(Charged(d, c), Priced(c), WithCharge(t, c))
  {
    CreditNeverOverflowsAlone(d, if Priced(c) then c else Charge(0, Some(0), true, None));
  }

  lemma IncompleteStays(d: Day, c: Charge)
    ensures Charged(d, c).incomplete >= d.incomplete
  {
  }

  /** Totals only grow, so they fit before when they fit after. */
  lemma TotalsGrow(t: Totals, c: Charge)
    requires NaturalTotals(t) && LegalCharge(c)
    ensures NaturalTotals(WithCharge(t, c)) && (TotalsFit(WithCharge(t, c)) ==> TotalsFit(t))
  {
  }

  lemma ChargeShows(d: Day, c: Charge, priced: bool, t: Totals)
    requires Bounded(d) && LegalCharge(c) && NaturalTotals(t) && ShowsTotals(d, priced, t)
    ensures ShowsTotals(Charged(d, c), priced && Priced(c), WithCharge(t, c))
  {
    IncompleteStays(d, c);
    TotalsGrow(t, c);
    if d.incomplete == 0 { CompleteStep(d, c, t); }
  }

  lemma AllPricedStep(es: seq<Event>)
    requires es != []
    ensures AllPriced(es) <==> AllPriced(es[..|es| - 1]) && (es[|es| - 1].Usage? ==> Priced(es[|es| - 1].charge))
  {
    var front := es[..|es| - 1];
    forall i | 0 <= i < |front| ensures front[i] == es[i] { }
  }

  /**
   A ledger shows no incomplete record exactly when every record had a price and all totals fit;
   and then its cost, tokens and requests are the true totals of all records.
   */
  lemma {:induction false} CompleteIff(es: seq<Event>)
    requires LegalEvents(es)
    ensures NaturalTotals(TotalsOf(es))
    ensures ShowsTotals(Run(es), AllPriced(es), TotalsOf(es))
  {
    if es != [] {
      var front, last := es[..|es| - 1], es[|es| - 1];
      CompleteIff(front);
      AllPricedStep(es);
      if last.Usage? {
        RawIsAttributed(front);
        ChargeShows(Run(front), last.charge, AllPriced(front), TotalsOf(front));
        TotalsGrow(TotalsOf(front), last.charge);
      }
    }
  }

  // ---------------------------------------------------------------------------------------
  // Errors and denial
  // ---------------------------------------------------------------------------------------

  /** A record whose cost is known to be missing from the total. */
  predicate Lost(es: seq<Event>, i: nat)
    requires i < |es|
  {
    es[i].Usage? && (es[i].charge.amount.None? || (es[i].charge.billable && CostAt(es, i) != es[i].charge.amount.value))
  }

  lemma {:induction false} CostAtPrefix(es: seq<Event>, n: nat, i: nat)
    requires i < n <= |es|
    ensures CostAt(es[..n], i) == CostAt(es, i)
  {
    assert es[..n][..i] == es[..i];
  }

  lemma ErrorStep(es: seq<Event>)
    requires es != [] && Bounded(Run(es[..|es| - 1]))
    requires es[|es| - 1].Usage? ==> LegalCharge(es[|es| - 1].charge)
    ensures Run(es).error <==> Run(es[..|es| - 1]).error || Lost(es, |es| - 1)
  {
  }

  /** The accounting error is set exactly when some record's cost was lost, and stays set. */
  lemma {:induction false} ErrorIffLost(es: seq<Event>)
    requires LegalEvents(es)
    ensures Run(es).error <==> exists i :: 0 <= i < |es| && Lost(es, i)
  {
    if es != [] {
      var n := |es| - 1;
      var front := es[..n];
      ErrorIffLost(front);
      RawIsAttributed(front);
      forall i | 0 <= i < n ensures Lost(es, i) <==> Lost(front, i) { CostAtPrefix(es, n, i); }
      ErrorStep(es);
    }
  }

  lemma {:induction false} ErrorIsSticky(es: seq<Event>, n: nat)
    requires n <= |es| && Run(es[..n]).error
    ensures Run(es).error
    decreases |es|
  {
    if n < |es| {
      assert es[..|es| - 1][..n] == es[..n];
      ErrorIsSticky(es[..|es| - 1], n);
    } else {
      assert es[..n] == es;
    }
  }

  datatype Refusal = AccountingUnavailable | QuotaExceeded

  /** What the ledger says about an admission under a daily limit. */
  function DayRefusal(d: Day, limit: Option<int>): Option<Refusal> {
    if d.error then Some(AccountingUnavailable)
    else if limit.Some? && d.raw - d.credit >= limit.value then Some(QuotaExceeded)
    else None
  }

  lemma UsageOnlyAdds(d: Day, c: Charge)
    requires Bounded(d) && LegalCharge(c)
    ensures Bounded(Charged(d, c))
    ensures Charged(d, c).raw - Charged(d, c).credit >= d.raw - d.credit
  {
  }

  /** Once the day denies, no usage makes it admit again: only a reset or the next day does. */
  lemma {:induction false} DenialLasts(es: seq<Event>, n: nat, limit: Option<int>)
    requires LegalEvents(es) && n <= |es| && forall j :: n <= j < |es| ==> es[j].Usage?
    requires DayRefusal(Run(es[..n]), limit).Some?
    ensures DayRefusal(Run(es), limit).Some?
    decreases |es|
  {
    if n < |es| {
      var front := es[..|es| - 1];
      assert front[..n] == es[..n];
      DenialLasts(front, n, limit);
      RawIsAttributed(front);
      UsageOnlyAdds(Run(front), es[|es| - 1].charge);
    } else {
      assert es[..n] == es;
    }
  }

  /** A reset lets a day without accounting errors admit again, under every positive limit. */
  lemma ResetAdmits(d: Day, now: int, limit: Option<int>)
    requires limit.Some? ==> limit.value > 0
    ensures DayRefusal(ResetAt(d, now), limit).None? <==> !d.error
  {
  }
}
