/**
 Smooth weighted round-robin over changing subsets of credentials.

 `PickStep` says what one pick does to a pool without mentioning the order in which the
 candidates arrive; the class in Scheduler.dfy computes it with the scheduler's own loops.
 */
module RoundRobin {
  import opened Numbers
  import opened Text

  const MAX_POOLS_PER_KEY := 256
  const MAX_CREDENTIALS_PER_POOL := 1024

  /** The "weight" attribute after trimming: absent, not a decimal integer, or an integer. */
  datatype WeightAttribute = Blank | Malformed | Number(value: int)

  /** A credential identifier. */
  datatype Id = Id(text: string)

  const NO_ID := Id("")

  predicate Before(a: Id, b: Id) {
    Less(a.text, b.text)
  }

  datatype Candidate = Candidate(id: Id, weight: WeightAttribute)

  datatype Pool = Pool(current: map<Id, int>, weights: map<Id, int>)

  const EMPTY_POOL := Pool(map[], map[])

  /** Values outside int64 fail to parse and count as zero, like every other unusable weight. */
  function CandidateWeight(c: Candidate): (w: int)
    ensures 0 <= w <= MAX_INT64
  {
    match c.weight
    case Blank => 1
    case Malformed => 0
    case Number(n) => if 0 < n <= MAX_INT64 then n else 0
  }

  function PositiveIds(cs: seq<Candidate>): (ids: seq<Id>) {
    if cs == [] then [] else
      PositiveIds(cs[..|cs| - 1]) + (if CandidateWeight(cs[|cs| - 1]) > 0 then [cs[|cs| - 1].id] else [])
  }

  /** The last positive weight reported for an identifier is the one in force. */
  function WeightsOf(cs: seq<Candidate>): (ws: map<Id, int>)
    ensures forall id :: id in ws ==> 0 < ws[id] <= MAX_INT64
  {
    if cs == [] then map[] else
      var rest := WeightsOf(cs[..|cs| - 1]);
      var c := cs[|cs| - 1];
      if CandidateWeight(c) > 0 then rest[c.id := CandidateWeight(c)] else rest
  }

  lemma {:induction false} WeightsCoverIds(cs: seq<Candidate>)
    ensures forall id :: id in PositiveIds(cs) <==> id in WeightsOf(cs)
  {
    if cs != [] { WeightsCoverIds(cs[..|cs| - 1]); }
  }

  // ---------------------------------------------------------------------------------------
  // One pick
  // ---------------------------------------------------------------------------------------

  ghost predicate WeightsChanged(pool: Pool, ws: map<Id, int>) {
    exists id :: id in ws && id in pool.weights && pool.weights[id] != ws[id]
  }

  /** A changed weight restarts the whole pool's scores; the new weights are remembered. */
  ghost function Refreshed(pool: Pool, ws: map<Id, int>): Pool {
    Pool(if WeightsChanged(pool, ws) then map[] else pool.current, pool.weights + ws)
  }

  /** The scores of the members of a set. */
  ghost function On(ws: map<Id, int>, pool: Pool): map<Id, int> {
    map id | id in ws :: Get(pool.current, id)
  }

  /** A pool that has seen too many credentials forgets the absent ones. */
  ghost function Trimmed(pool: Pool, ws: map<Id, int>): Pool {
    if |pool.current| > MAX_CREDENTIALS_PER_POOL
    then Pool(On(ws, pool), On(ws, Pool(pool.weights, map[])))
    else pool
  }

  ghost function Base(pool: Pool, ws: map<Id, int>): Pool {
    Trimmed(Refreshed(pool, ws), ws)
  }

  /** Highest score, ties to the lowest identifier; the empty identifier wins only unopposed. */
  ghost predicate Beats(scores: map<Id, int>, winner: Id, other: Id) {
    Get(scores, other) < Get(scores, winner) || (Get(scores, other) == Get(scores, winner) && !Before(other, winner))
  }

  ghost predicate Best(scores: map<Id, int>, ids: set<Id>, winner: Id) {
    && winner in ids
    && (winner == NO_ID ==> ids == {NO_ID})
    && (forall id :: id in ids && id != NO_ID ==> Beats(scores, winner, id))
  }

  /** Everyone present gains and the winner pays the total. */
  ghost predicate Pay(base: Pool, gains: map<Id, int>, total: int, selected: Id, after: Pool) {
    Award(Plus(base.current, gains), total, gains.Keys, base.weights, selected, after)
  }

  ghost predicate Award(scores: map<Id, int>, total: int, ids: set<Id>, weights: map<Id, int>, selected: Id,
          after: Pool) {
    && Best(scores, ids, selected)
    && after == Pool(scores[selected := Get(scores, selected) - total], weights)
  }

  /**
   One pick. `gains` is what the round adds to each present score: the weight, times the number
   of times the identifier is listed.
   */
  ghost predicate PickStep(before: Pool, ws: map<Id, int>, gains: map<Id, int>, selected: Id, after: Pool) {
    Pay(Base(before, ws), gains, Sum(gains), selected, after)
  }

  /** Every int64 operation of the pick stays in range. */
  ghost predicate Fits(before: Pool, ws: map<Id, int>, gains: map<Id, int>) {
    FitsFrom(Base(before, ws).current, gains)
  }

  ghost predicate FitsFrom(current: map<Id, int>, gains: map<Id, int>) {
    && Sum(gains) <= MAX_INT64
    && forall id :: id in gains ==>
         && MIN_INT64 <= Get(current, id)
         && Get(current, id) + gains[id] <= MAX_INT64
         && MIN_INT64 <= Get(current, id) + gains[id] - Sum(gains) <= MAX_INT64
  }

  lemma AwardIsDeterministic(scores: map<Id, int>, total: int, ids: set<Id>, weights: map<Id, int>,
                             s: Id, p: Pool, t: Id, q: Pool)
    requires Award(scores, total, ids, weights, s, p) && Award(scores, total, ids, weights, t, q)
    ensures s == t && p == q
  {
    LessTotal(s.text, t.text);
  }

  /** A pick is a function of the pool, the weights and the gains. */
  lemma PickIsDeterministic(before: Pool, ws: map<Id, int>, gains: map<Id, int>, s: Id, p: Pool, t: Id, q: Pool)
    requires PickStep(before, ws, gains, s, p) && PickStep(before, ws, gains, t, q)
    ensures s == t && p == q
  {
    var base := Base(before, ws);
    AwardIsDeterministic(Plus(base.current, gains), Sum(gains), gains.Keys, base.weights, s, p, t, q);
  }

  lemma AwardConserves(current: map<Id, int>, gains: map<Id, int>, weights: map<Id, int>, s: Id, after: Pool)
    requires Award(Plus(current, gains), Sum(gains), gains.Keys, weights, s, after)
    ensures Sum(after.current) == Sum(current)
  {
    SumTransfer(current, gains, s);
  }

  /** The pool is not cut down to the present candidates in this pick. */
  ghost predicate KeepsAbsent(before: Pool, ws: map<Id, int>) {
    |Refreshed(before, ws).current| <= MAX_CREDENTIALS_PER_POOL
  }

  /** Conservation of one pick, weight changes included; the trim loses exactly the absent scores. */
  lemma PickConserves(before: Pool, ws: map<Id, int>, gains: map<Id, int>, s: Id, after: Pool)
    requires PickStep(before, ws, gains, s, after)
    ensures KeepsAbsent(before, ws) ==>
              Sum(after.current) == (if WeightsChanged(before, ws) then 0 else Sum(before.current))
    ensures !KeepsAbsent(before, ws) ==> Sum(after.current) == Sum(On(ws, before))
  {
    var base := Base(before, ws);
    AwardConserves(base.current, gains, base.weights, s, after);
    if WeightsChanged(before, ws) { SumEmpty(Refreshed(before, ws).current); }
  }

  lemma PickLeavesAbsentAlone(before: Pool, ws: map<Id, int>, gains: map<Id, int>, s: Id, after: Pool, id: Id)
    requires PickStep(before, ws, gains, s, after)
    requires KeepsAbsent(before, ws) && !WeightsChanged(before, ws) && id !in gains
    ensures id in after.current <==> id in before.current
    ensures Get(after.current, id) == Get(before.current, id)
  {
  }

  /** What one pick is offered. */
  datatype Round = Round(weights: map<Id, int>, gains: map<Id, int>)

  ghost predicate Turn(before: Pool, round: Round, selected: Id, after: Pool) {
    KeepsAbsent(before, round.weights) && PickStep(before, round.weights, round.gains, selected, after)
  }

  /** `after` is reached from `before` by picks from the given, arbitrarily changing, subsets. */
  ghost predicate Reaches(before: Pool, rounds: seq<Round>, after: Pool)
    decreases |rounds|
  {
    if rounds == [] then before == after else
      exists s, p :: Turn(before, rounds[0], s, p) && Reaches(p, rounds[1..], after)
  }

  lemma {:induction false} ScoresSumToZero(before: Pool, rounds: seq<Round>, after: Pool)
    requires Reaches(before, rounds, after)
    requires Sum(before.current) == 0
    ensures Sum(after.current) == 0
    decreases |rounds|
  {
    if rounds != [] {
      var s, p :| Turn(before, rounds[0], s, p) && Reaches(p, rounds[1..], after);
      PickConserves(before, rounds[0].weights, rounds[0].gains, s, p);
      ScoresSumToZero(p, rounds[1..], after);
    }
  }

  // ---------------------------------------------------------------------------------------
  // Order of the candidates
  // ---------------------------------------------------------------------------------------

  /** No identifier is offered with two different positive weights. */
  ghost predicate ConsistentWeights(cs: seq<Candidate>) {
    forall c, d :: c in cs && d in cs && c.id == d.id && CandidateWeight(c) > 0 && CandidateWeight(d) > 0 ==>
                     CandidateWeight(c) == CandidateWeight(d)
  }

  /** What each listed identifier gains in the round. */
  ghost function GainsOf(ids: seq<Id>, ws: map<Id, int>): map<Id, int> {
    if ids == [] then map[] else
      var rest := GainsOf(ids[..|ids| - 1], ws);
      var id := ids[|ids| - 1];
      rest[id := Get(rest, id) + Get(ws, id)]
  }

  ghost function RoundOf(cs: seq<Candidate>): Round {
    Round(WeightsOf(cs), GainsOf(PositiveIds(cs), WeightsOf(cs)))
  }

  /** What a pick promises of real candidates: an offered one, and a pick step when every sum fits int64. */
  ghost predicate Promised(before: Pool, candidates: seq<Candidate>, id: Id, after: Pool) {
    && id in PositiveIds(candidates)
    && var round := RoundOf(candidates);
       Fits(before, round.weights, round.gains) ==> PickStep(before, round.weights, round.gains, id, after)
  }

  /** The gains depend on how often an identifier is listed, not on where. */
  lemma {:induction false} GainsByCount(ids: seq<Id>, ws: map<Id, int>)
    ensures forall id :: id in GainsOf(ids, ws) <==> id in multiset(ids)
    ensures forall id :: Get(GainsOf(ids, ws), id) == multiset(ids)[id] * Get(ws, id)
  {
    if ids != [] {
      var front, last := ids[..|ids| - 1], ids[|ids| - 1];
      assert ids == front + [last];
      GainsByCount(front, ws);
      forall id ensures Get(GainsOf(ids, ws), id) == multiset(ids)[id] * Get(ws, id) {
        assert multiset(ids)[id] == multiset(front)[id] + if id == last then 1 else 0;
        OnceMore(multiset(front)[id], Get(ws, id), id == last);
      }
    }
  }

  lemma OnceMore(n: int, w: int, more: bool)
    ensures (n + if more then 1 else 0) * w == n * w + (if more then w else 0)
  {
  }

  lemma SameBagSameGains(ids: seq<Id>, js: seq<Id>, ws: map<Id, int>)
    requires multiset(ids) == multiset(js)
    ensures GainsOf(ids, ws) == GainsOf(js, ws)
  {
    GainsByCount(ids, ws);
    GainsByCount(js, ws);
    forall id | id in GainsOf(ids, ws) ensures id in GainsOf(js, ws) && GainsOf(ids, ws)[id] == GainsOf(js, ws)[id] {
      assert Get(GainsOf(ids, ws), id) == Get(GainsOf(js, ws), id);
    }
  }

  ghost predicate Distinct(ids: seq<Id>) {
    forall i, j :: 0 <= i < j < |ids| ==> ids[i] != ids[j]
  }

  lemma DistinctOnce(ids: seq<Id>, id: Id)
    requires Distinct(ids) && id in ids
    ensures multiset(ids)[id] == 1
  {
    var i :| 0 <= i < |ids| && ids[i] == id;
    assert ids == ids[..i] + [id] + ids[i + 1..];
    assert id !in multiset(ids[..i]) && id !in multiset(ids[i + 1..]);
  }

  lemma DistinctGain(ids: seq<Id>, ws: map<Id, int>, id: Id)
    requires Distinct(ids) && id in ids
    ensures id in GainsOf(ids, ws) && GainsOf(ids, ws)[id] == Get(ws, id)
  {
    GainsByCount(ids, ws);
    DistinctOnce(ids, id);
    assert Get(GainsOf(ids, ws), id) == 1 * Get(ws, id);
  }

  /** When every identifier is listed once, a round's gains are the weights. */
  lemma DistinctGains(cs: seq<Candidate>)
    requires Distinct(PositiveIds(cs))
    ensures RoundOf(cs).gains == RoundOf(cs).weights == WeightsOf(cs)
  {
    WeightsCoverIds(cs);
    DistinctGainsAre(PositiveIds(cs), WeightsOf(cs));
  }

  lemma DistinctGainsAre(ids: seq<Id>, ws: map<Id, int>)
    requires Distinct(ids) && forall id :: id in ws <==> id in ids
    ensures GainsOf(ids, ws) == ws
  {
    forall id | id in ws ensures id in GainsOf(ids, ws) && GainsOf(ids, ws)[id] == ws[id] {
      DistinctGain(ids, ws, id);
    }
    forall id | id in GainsOf(ids, ws) ensures id in ws {
      GainsByCount(ids, ws);
    }
  }

  lemma {:induction false} PositiveIdsAppend(cs: seq<Candidate>, ds: seq<Candidate>)
    ensures PositiveIds(cs + ds) == PositiveIds(cs) + PositiveIds(ds)
  {
    if ds == [] {
      assert cs + ds == cs;
    } else {
      PositiveIdsAppend(cs, ds[..|ds| - 1]);
      assert (cs + ds)[..|cs + ds| - 1] == cs + ds[..|ds| - 1];
    }
  }

  lemma IdsWithout(left: seq<Candidate>, c: Candidate, right: seq<Candidate>)
    ensures multiset(PositiveIds(left + [c] + right)) ==
            multiset(PositiveIds(left + right)) + multiset(PositiveIds([c]))
  {
    PositiveIdsAppend(left, right);
    PositiveIdsAppend(left, [c]);
    PositiveIdsAppend(left + [c], right);
  }

  /** Taking one element out of two equal bags. */
  lemma SameBagWithout(front: seq<Candidate>, c: Candidate, left: seq<Candidate>, right: seq<Candidate>)
    requires multiset(front + [c]) == multiset(left + [c] + right)
    ensures multiset(front) == multiset(left + right)
  {
    assert multiset(front) == multiset(front + [c]) - multiset{c};
    assert multiset(left + right) == multiset(left + [c] + right) - multiset{c};
  }

  lemma {:induction false} SameBagSameIds(cs: seq<Candidate>, ds: seq<Candidate>)
    requires multiset(cs) == multiset(ds)
    ensures multiset(PositiveIds(cs)) == multiset(PositiveIds(ds))
    decreases |cs|
  {
    if cs == [] {
      assert |ds| == |multiset(ds)| == 0;
    } else {
      var c, front := cs[|cs| - 1], cs[..|cs| - 1];
      assert cs == front + [c];
      assert c in multiset(cs);
      var i :| 0 <= i < |ds| && ds[i] == c;
      var left, right := ds[..i], ds[i + 1..];
      assert ds == left + [c] + right;
      SameBagWithout(front, c, left, right);
      SameBagSameIds(front, left + right);
      IdsWithout(left, c, right);
      PositiveIdsAppend(front, [c]);
    }
  }

  lemma {:induction false} WeightComesFromACandidate(cs: seq<Candidate>, id: Id)
    requires id in WeightsOf(cs)
    ensures exists c :: c in cs && c.id == id && CandidateWeight(c) == WeightsOf(cs)[id]
  {
    var c, front := cs[|cs| - 1], cs[..|cs| - 1];
    assert c in cs;
    if !(CandidateWeight(c) > 0 && c.id == id) {
      WeightComesFromACandidate(front, id);
      var d :| d in front && d.id == id && CandidateWeight(d) == WeightsOf(front)[id];
      assert d in cs;
    }
  }

  lemma SameBagSameWeight(cs: seq<Candidate>, ds: seq<Candidate>, id: Id)
    requires multiset(cs) == multiset(ds) && ConsistentWeights(cs)
    requires id in WeightsOf(cs)
    ensures id in WeightsOf(ds) && WeightsOf(ds)[id] == WeightsOf(cs)[id]
  {
    SameBagSameIds(cs, ds);
    WeightsCoverIds(cs);
    assert id in multiset(PositiveIds(cs));
    assert id in PositiveIds(ds);
    WeightsCoverIds(ds);
    WeightComesFromACandidate(cs, id);
    WeightComesFromACandidate(ds, id);
    var d :| d in ds && d.id == id && CandidateWeight(d) == WeightsOf(ds)[id];
    assert d in multiset(cs);
    assert d in cs;
  }

  lemma SameBagSameWeights(cs: seq<Candidate>, ds: seq<Candidate>)
    requires multiset(cs) == multiset(ds) && ConsistentWeights(cs)
    ensures WeightsOf(cs) == WeightsOf(ds)
  {
    forall id | id in WeightsOf(cs) ensures id in WeightsOf(ds) && WeightsOf(ds)[id] == WeightsOf(cs)[id] {
      SameBagSameWeight(cs, ds, id);
    }
    assert forall d :: d in ds <==> d in multiset(cs);
    forall id | id in WeightsOf(ds) ensures id in WeightsOf(cs) {
      SameBagSameWeight(ds, cs, id);
    }
  }

  /** Any candidate can be put last, where its weight is the one that counts. */
  lemma MoveToEnd(cs: seq<Candidate>, c: Candidate) returns (ds: seq<Candidate>)
    requires c in cs && CandidateWeight(c) > 0
    ensures multiset(ds) == multiset(cs)
    ensures c.id in WeightsOf(ds) && WeightsOf(ds)[c.id] == CandidateWeight(c)
  {
    var i :| 0 <= i < |cs| && cs[i] == c;
    ds := cs[..i] + cs[i + 1..] + [c];
    assert cs == cs[..i] + [c] + cs[i + 1..];
    assert ds[..|ds| - 1] == cs[..i] + cs[i + 1..];
  }

  /**
   The order in which the host lists the candidates is irrelevant exactly when no identifier
   carries two different positive weights.
   */
  lemma OrderIrrelevantIff(cs: seq<Candidate>)
    ensures ConsistentWeights(cs) <==> forall ds :: multiset(ds) == multiset(cs) ==> RoundOf(ds) == RoundOf(cs)
  {
    if ConsistentWeights(cs) {
      forall ds | multiset(ds) == multiset(cs) ensures RoundOf(ds) == RoundOf(cs) {
        SameBagSameIds(cs, ds);
        SameBagSameWeights(cs, ds);
        SameBagSameGains(PositiveIds(ds), PositiveIds(cs), WeightsOf(cs));
      }
    } else {
      var c, d :| c in cs && d in cs && c.id == d.id && CandidateWeight(c) > 0 && CandidateWeight(d) > 0 &&
                  CandidateWeight(c) != CandidateWeight(d);
      var xs := MoveToEnd(cs, c);
      var ys := MoveToEnd(cs, d);
      assert RoundOf(xs).weights != RoundOf(ys).weights;
    }
  }

  // ---------------------------------------------------------------------------------------
  // What the listings of a credential say
  // ---------------------------------------------------------------------------------------

  /** A listing counts with its weight: one when none is given, and only from 1 to the largest int64. */
  ghost predicate CountsAs(c: Candidate, w: int) {
    match c.weight
    case Blank => w == 1
    case Malformed => false
    case Number(n) => w == n && 1 <= n <= 0x7fff_ffff_ffff_ffff
  }

  ghost predicate Listed(cs: seq<Candidate>, i: nat, id: Id) {
    i < |cs| && cs[i].id == id && exists w :: CountsAs(cs[i], w)
  }

  /** The weight in force is that of the last listing that counts. */
  ghost predicate InForce(cs: seq<Candidate>, id: Id, w: int) {
    exists i: nat :: Listed(cs, i, id) && CountsAs(cs[i], w) && forall j: nat :: Listed(cs, j, id) ==> j <= i
  }

  /** Where a credential is listed with a weight that counts. */
  ghost function Listings(cs: seq<Candidate>, id: Id): set<nat> {
    set i: nat | i < |cs| && Listed(cs, i, id)
  }

  lemma CountsIff(c: Candidate, w: int)
    ensures CountsAs(c, w) <==> w == CandidateWeight(c) > 0
  {
  }

  lemma ListedIff(cs: seq<Candidate>, i: nat, id: Id)
    requires i < |cs|
    ensures Listed(cs, i, id) <==> cs[i].id == id && CandidateWeight(cs[i]) > 0
  {
    CountsIff(cs[i], CandidateWeight(cs[i]));
    if w :| CountsAs(cs[i], w) { CountsIff(cs[i], w); }
  }

  lemma ListingsStep(cs: seq<Candidate>, id: Id)
    requires cs != []
    ensures var n := |cs| - 1;
            Listings(cs, id) == Listings(cs[..n], id) + (if Listed(cs, n, id) then {n} else {})
    ensures |Listings(cs, id)| == |Listings(cs[..|cs| - 1], id)| + if Listed(cs, |cs| - 1, id) then 1 else 0
  {
    var n := |cs| - 1;
    forall i: nat | i < n ensures Listed(cs[..n], i, id) <==> Listed(cs, i, id) { assert cs[..n][i] == cs[i]; }
  }

  lemma {:induction false} ListingsCounted(cs: seq<Candidate>, id: Id)
    ensures multiset(PositiveIds(cs))[id] == |Listings(cs, id)|
  {
    if cs != [] {
      var n := |cs| - 1;
      ListingsCounted(cs[..n], id);
      ListingsStep(cs, id);
      ListedIff(cs, n, id);
    }
  }

  lemma LastListingCounts(cs: seq<Candidate>, id: Id, w: int)
    requires cs != [] && Listed(cs, |cs| - 1, id)
    ensures InForce(cs, id, w) <==> CountsAs(cs[|cs| - 1], w)
  {
    var n := |cs| - 1;
    if InForce(cs, id, w) {
      var i: nat :| Listed(cs, i, id) && CountsAs(cs[i], w) && forall j: nat :: Listed(cs, j, id) ==> j <= i;
      assert i == n;
    }
  }

  lemma OtherListingsKeep(cs: seq<Candidate>, id: Id, w: int)
    requires cs != [] && !Listed(cs, |cs| - 1, id)
    ensures InForce(cs, id, w) <==> InForce(cs[..|cs| - 1], id, w)
  {
    var n := |cs| - 1;
    var front := cs[..n];
    forall i: nat ensures Listed(front, i, id) <==> Listed(cs, i, id) {
      if i < n { assert front[i] == cs[i]; }
    }
    if i: nat :| Listed(front, i, id) && CountsAs(front[i], w) && forall j: nat :: Listed(front, j, id) ==> j <= i {
      assert Listed(cs, i, id) && CountsAs(cs[i], w);
    }
    if i: nat :| Listed(cs, i, id) && CountsAs(cs[i], w) && forall j: nat :: Listed(cs, j, id) ==> j <= i {
      assert Listed(front, i, id) && CountsAs(front[i], w);
    }
  }

  /** The weights of a round are those in force. */
  lemma {:induction false} WeightInForceIff(cs: seq<Candidate>, id: Id, w: int)
    ensures id in WeightsOf(cs) && WeightsOf(cs)[id] == w <==> InForce(cs, id, w)
  {
    if cs != [] {
      var n := |cs| - 1;
      ListedIff(cs, n, id);
      CountsIff(cs[n], w);
      if Listed(cs, n, id) {
        LastListingCounts(cs, id, w);
      } else {
        WeightInForceIff(cs[..n], id, w);
        OtherListingsKeep(cs, id, w);
      }
    }
  }
}
