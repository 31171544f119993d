/** The scheduler: a mutable map of pools, and the loops that carry out one pick. */
module Scheduler {
  import opened Numbers
  import opened Sequences
  import opened Text
  import opened RoundRobin

  ghost predicate Ascending(ids: seq<Id>) {
    forall i, j :: 0 <= i < j < |ids| ==> !Before(ids[j], ids[i])
  }

  function Inserted(sorted: seq<Id>, k: nat, id: Id): seq<Id>
    requires k <= |sorted|
  {
    sorted[..k] + [id] + sorted[k..]
  }

  lemma InsertKeepsOrder(sorted: seq<Id>, k: nat, id: Id)
    requires Ascending(sorted) && k <= |sorted|
    requires forall i :: 0 <= i < k ==> !Before(id, sorted[i])
    requires k < |sorted| ==> Before(id, sorted[k])
    ensures Ascending(Inserted(sorted, k, id))
  {
    forall j | k <= j < |sorted| ensures !Before(sorted[j], id) {
      if Before(sorted[j], id) {
        LessTransitive(sorted[j].text, id.text, sorted[k].text);
        LessIrreflexive(sorted[k].text);
      }
    }
  }

  lemma InsertKeepsBag(sorted: seq<Id>, k: nat, id: Id)
    requires k <= |sorted|
    ensures multiset(Inserted(sorted, k, id)) == multiset(sorted) + multiset{id}
  {
    assert sorted == sorted[..k] + sorted[k..];
  }

  method SortById(ids: seq<Id>) returns (sorted: seq<Id>)
    ensures multiset(sorted) == multiset(ids) && Ascending(sorted)
  {
    sorted := [];
    for n := 0 to |ids|
      invariant multiset(sorted) == multiset(ids[..n]) && Ascending(sorted)
    {
      var k := 0;
      while k < |sorted| && !Before(ids[n], sorted[k])
        invariant k <= |sorted| && forall i :: 0 <= i < k ==> !Before(ids[n], sorted[i])
      {
        k := k + 1;
      }
      InsertKeepsOrder(sorted, k, ids[n]);
      InsertKeepsBag(sorted, k, ids[n]);
      assert ids[..n + 1] == ids[..n] + [ids[n]];
      sorted := Inserted(sorted, k, ids[n]);
    }
    assert ids[..|ids|] == ids;
  }

  /** The weights of the identifiers handled so far. */
  ghost function Among(ws: map<Id, int>, done: seq<Id>): map<Id, int> {
    map id | id in ws && id in done :: ws[id]
  }

  lemma AmongStep(ws: map<Id, int>, ids: seq<Id>, i: nat)
    requires i < |ids| && ids[i] in ws
    ensures Among(ws, ids[..i + 1]) == Among(ws, ids[..i])[ids[i] := ws[ids[i]]]
  {
    assert ids[..i + 1] == ids[..i] + [ids[i]];
  }

  lemma AmongAll(ws: map<Id, int>, ids: seq<Id>)
    requires forall id :: id in ws ==> id in ids
    ensures Among(ws, ids[..|ids|]) == ws
  {
    assert ids[..|ids|] == ids;
  }

  lemma MergeStep(before: Pool, some: map<Id, int>, id: Id, w: int)
    ensures before.weights + some[id := w] == (before.weights + some)[id := w]
    ensures (id in some ==> some[id] == w) ==>
              WeightsChanged(before, some[id := w]) ==
              (WeightsChanged(before, some) || (id in before.weights + some && (before.weights + some)[id] != w))
  {
    var more := some[id := w];
    if id in some ==> some[id] == w {
      if WeightsChanged(before, some) {
        var j :| j in some && j in before.weights && before.weights[j] != some[j];
        assert j in more && more[j] != before.weights[j];
      }
      if id in before.weights && before.weights[id] != w {
        assert id in more && more[id] != before.weights[id];
      }
    }
  }

  lemma OnStep(some: map<Id, int>, id: Id, w: int, pool: Pool)
    ensures On(some[id := w], pool) == On(some, pool)[id := Get(pool.current, id)]
  {
  }

  lemma {:induction false} PrefixGains(ids: seq<Id>, ws: map<Id, int>, i: nat)
    requires i <= |ids| && forall id :: id in ws ==> ws[id] >= 0
    ensures Sum(GainsOf(ids[..i], ws)) <= Sum(GainsOf(ids, ws))
    ensures forall id :: 0 <= Get(GainsOf(ids[..i], ws), id) <= Get(GainsOf(ids, ws), id)
    decreases |ids|
  {
    if i == |ids| {
      assert ids[..i] == ids;
      GainsAreNatural(ids, ws);
    } else {
      var front, last := ids[..|ids| - 1], ids[|ids| - 1];
      assert front[..i] == ids[..i];
      PrefixGains(front, ws, i);
      SumUpdate(GainsOf(front, ws), last, Get(GainsOf(front, ws), last) + Get(ws, last));
    }
  }

  lemma {:induction false} GainsAreNatural(ids: seq<Id>, ws: map<Id, int>)
    requires forall id :: id in ws ==> ws[id] >= 0
    ensures forall id :: 0 <= Get(GainsOf(ids, ws), id)
    ensures 0 <= Sum(GainsOf(ids, ws))
  {
    if ids == [] {
      SumEmpty(GainsOf(ids, ws));
    } else {
      var front, last := ids[..|ids| - 1], ids[|ids| - 1];
      GainsAreNatural(front, ws);
      SumUpdate(GainsOf(front, ws), last, Get(GainsOf(front, ws), last) + Get(ws, last));
      forall id ensures 0 <= Get(GainsOf(ids, ws), id) {
        assert 0 <= Get(GainsOf(front, ws), id) && 0 <= Get(GainsOf(front, ws), last);
      }
    }
  }

  /** Where the scoring loop stands after the first `i` identifiers, as far as int64 did not overflow. */
  datatype Tally = Tally(scores: map<Id, int>, selected: Id, highest: int, total: int)

  ghost predicate Exact(current: map<Id, int>, gains: map<Id, int>, done: seq<Id>, t: Tally) {
    && t.total == Sum(gains)
    && (forall id :: Get(t.scores, id) == Get(current, id) + Get(gains, id))
    && (done != [] ==> t.highest == Get(t.scores, t.selected))
    && (forall id :: id in done && id != NO_ID ==> Beats(t.scores, t.selected, id))
  }

  ghost predicate Sensible(done: seq<Id>, selected: Id) {
    && (if done == [] then selected == NO_ID else selected in done)
    && (selected == NO_ID ==> forall id :: id in done ==> id == NO_ID)
  }

  /** One iteration of the scoring loop. */
  function Scored(t: Tally, id: Id, w: int): Tally {
    var score := Wrap64(Get(t.scores, id) + w);
    var wins := t.selected == NO_ID || score > t.highest || (score == t.highest && Before(id, t.selected));
    Tally(t.scores[id := score], if wins then id else t.selected, if wins then score else t.highest,
          Wrap64(t.total + w))
  }

  lemma ScoredSensible(done: seq<Id>, t: Tally, id: Id, w: int)
    requires Sensible(done, t.selected)
    requires forall j :: j in done ==> !Before(id, j)
    ensures Sensible(done + [id], Scored(t, id, w).selected)
  {
  }

  lemma ScoredBeats(done: seq<Id>, t: Tally, id: Id, w: int, j: Id)
    requires Sensible(done, t.selected) && w > 0 && j in done + [id] && j != NO_ID
    requires forall j :: j in done ==> !Before(id, j)
    requires done != [] ==> t.highest == Get(t.scores, t.selected)
    requires forall j :: j in done && j != NO_ID ==> Beats(t.scores, t.selected, j)
    requires MIN_INT64 <= Get(t.scores, id) + w <= MAX_INT64
    ensures Beats(Scored(t, id, w).scores, Scored(t, id, w).selected, j)
  {
    LessIrreflexive(id.text);
    if done != [] { assert !Before(id, t.selected); }
    if j != id { assert j in done && Beats(t.scores, t.selected, j); }
  }

  lemma ScoredExact(current: map<Id, int>, gains: map<Id, int>, done: seq<Id>, t: Tally, id: Id, w: int)
    requires Exact(current, gains, done, t) && Sensible(done, t.selected) && w > 0
    requires forall j :: j in done ==> !Before(id, j)
    requires MIN_INT64 <= t.total + w <= MAX_INT64 && MIN_INT64 <= Get(t.scores, id) + w <= MAX_INT64
    ensures Exact(current, gains[id := Get(gains, id) + w], done + [id], Scored(t, id, w))
  {
    SumUpdate(gains, id, Get(gains, id) + w);
    forall j | j in done + [id] && j != NO_ID ensures Beats(Scored(t, id, w).scores, Scored(t, id, w).selected, j) {
      ScoredBeats(done, t, id, w, j);
    }
  }

  lemma GainsStep(ids: seq<Id>, ws: map<Id, int>, i: nat)
    requires i < |ids| && ids[i] in ws
    ensures var gains := GainsOf(ids[..i], ws);
            GainsOf(ids[..i + 1], ws) == gains[ids[i] := Get(gains, ids[i]) + ws[ids[i]]]
  {
    assert ids[..i + 1][..i] == ids[..i];
  }

  lemma PrefixFits(current: map<Id, int>, ids: seq<Id>, ws: map<Id, int>, i: nat)
    requires i < |ids| && ids[i] in ws && forall id :: id in ws ==> ws[id] > 0
    requires FitsFrom(current, GainsOf(ids, ws))
    ensures var gains, id := GainsOf(ids[..i], ws), ids[i];
            && 0 <= Sum(gains) && Sum(gains) + ws[id] <= MAX_INT64
            && MIN_INT64 <= Get(current, id) + Get(gains, id)
            && Get(current, id) + Get(gains, id) + ws[id] <= MAX_INT64
  {
    GainsByCount(ids, ws);
    assert ids[i] in multiset(ids);
    PrefixBounded(ids, ws, i);
  }

  lemma PrefixBounded(ids: seq<Id>, ws: map<Id, int>, i: nat)
    requires i < |ids| && ids[i] in ws && forall id :: id in ws ==> ws[id] > 0
    ensures var gains, id := GainsOf(ids[..i], ws), ids[i];
            && 0 <= Sum(gains) && Sum(gains) + ws[id] <= Sum(GainsOf(ids, ws))
            && 0 <= Get(gains, id) && Get(gains, id) + ws[id] <= Get(GainsOf(ids, ws), id)
  {
    var gains, id := GainsOf(ids[..i], ws), ids[i];
    GainsStep(ids, ws, i);
    GainsAreNatural(ids[..i], ws);
    PrefixGains(ids, ws, i + 1);
    SumUpdate(gains, id, Get(gains, id) + ws[id]);
    assert Get(GainsOf(ids[..i + 1], ws), id) == Get(gains, id) + ws[id];
  }

  /** The scoring loop as a fold over the first `n` identifiers: every int64 sum wraps. */
  function ScoredTo(current: map<Id, int>, ids: seq<Id>, ws: map<Id, int>, n: nat): Tally
    requires n <= |ids|
  {
    if n == 0 then Tally(current, NO_ID, 0, 0)
    else Scored(ScoredTo(current, ids, ws, n - 1), ids[n - 1], Get(ws, ids[n - 1]))
  }

  /** The winner pays the total. */
  function Paid(t: Tally): map<Id, int> {
    t.scores[t.selected := Wrap64(Get(t.scores, t.selected) - t.total)]
  }

  ghost predicate SortedFrom(sorted: seq<Id>, ids: seq<Id>) {
    multiset(sorted) == multiset(ids) && Ascending(sorted)
  }

  /** What the scoring loop makes of the pool it starts from. */
  ghost predicate WrappedScore(base: Pool, ws: map<Id, int>, sorted: seq<Id>, selected: Id, after: Pool) {
    var t := ScoredTo(base.current, sorted, ws, |sorted|);
    selected == t.selected && after == Pool(Paid(t), base.weights)
  }

  /** One pick in int64 arithmetic, for the usable identifiers in order. */
  ghost predicate WrappedPick(before: Pool, ws: map<Id, int>, sorted: seq<Id>, selected: Id, after: Pool) {
    WrappedScore(Base(before, ws), ws, sorted, selected, after)
  }

  lemma SortedCovers(sorted: seq<Id>, ids: seq<Id>)
    requires SortedFrom(sorted, ids)
    ensures |sorted| == |ids| && forall id :: id in sorted <==> id in ids
  {
    SameBag(sorted, ids);
  }

  lemma LastIsGreatest(a: seq<Id>, id: Id)
    requires Ascending(a) && id in a
    ensures !Before(a[|a| - 1], id)
  {
    var i :| 0 <= i < |a| && a[i] == id;
    LessIrreflexive(id.text);
  }

  lemma SameLast(a: seq<Id>, b: seq<Id>)
    requires Ascending(a) && SortedFrom(b, a) && a != []
    ensures b != [] && a[|a| - 1] == b[|b| - 1]
  {
    SortedCovers(b, a);
    LastIsGreatest(a, b[|b| - 1]);
    LastIsGreatest(b, a[|a| - 1]);
    LessTotal(a[|a| - 1].text, b[|b| - 1].text);
  }

  /** There is one sorted order, so a pick is a function of the pool and the candidates. */
  lemma {:induction false} SortedIsUnique(a: seq<Id>, b: seq<Id>)
    requires Ascending(a) && SortedFrom(b, a)
    ensures a == b
    decreases |a|
  {
    SortedCovers(b, a);
    if a != [] {
      SameLast(a, b);
      BagWithoutLast(a);
      BagWithoutLast(b);
      SortedIsUnique(a[..|a| - 1], b[..|b| - 1]);
      assert a == a[..|a| - 1] + [a[|a| - 1]] && b == b[..|b| - 1] + [b[|b| - 1]];
    }
  }

  lemma {:induction false} KeysOfPrefix(current: map<Id, int>, ids: seq<Id>, ws: map<Id, int>, n: nat)
    requires n <= |ids|
    ensures ScoredTo(current, ids, ws, n).scores.Keys == current.Keys + GainsOf(ids[..n], ws).Keys
  {
    if n > 0 {
      KeysOfPrefix(current, ids, ws, n - 1);
      assert ids[..n][..n - 1] == ids[..n - 1];
    }
  }

  lemma NotBeforeLast(ids: seq<Id>, i: nat)
    requires Ascending(ids) && i < |ids|
    ensures forall j :: j in ids[..i] ==> !Before(ids[i], j)
  {
  }

  lemma {:induction false} SensiblePrefix(current: map<Id, int>, ids: seq<Id>, ws: map<Id, int>, n: nat)
    requires Ascending(ids) && n <= |ids|
    ensures Sensible(ids[..n], ScoredTo(current, ids, ws, n).selected)
  {
    if n > 0 {
      SensiblePrefix(current, ids, ws, n - 1);
      NotBeforeLast(ids, n - 1);
      assert ids[..n] == ids[..n - 1] + [ids[n - 1]];
      ScoredSensible(ids[..n - 1], ScoredTo(current, ids, ws, n - 1), ids[n - 1], Get(ws, ids[n - 1]));
    }
  }

  /** One identifier more, as long as its sums fit. */
  lemma TallyExact(current: map<Id, int>, gains: map<Id, int>, done: seq<Id>, t: Tally, id: Id, w: int)
    requires Exact(current, gains, done, t) && Sensible(done, t.selected) && w > 0
    requires forall j :: j in done ==> !Before(id, j)
    requires 0 <= Sum(gains) && Sum(gains) + w <= MAX_INT64
    requires MIN_INT64 <= Get(current, id) + Get(gains, id) && Get(current, id) + Get(gains, id) + w <= MAX_INT64
    ensures Exact(current, gains[id := Get(gains, id) + w], done + [id], Scored(t, id, w))
  {
    assert Get(t.scores, id) == Get(current, id) + Get(gains, id);
    ScoredExact(current, gains, done, t, id, w);
  }

  lemma ExactStep(current: map<Id, int>, ids: seq<Id>, ws: map<Id, int>, n: nat, t: Tally)
    requires Ascending(ids) && n < |ids| && ids[n] in ws && ws[ids[n]] > 0
    requires Exact(current, GainsOf(ids[..n], ws), ids[..n], t) && Sensible(ids[..n], t.selected)
    requires var gains, id := GainsOf(ids[..n], ws), ids[n];
             && 0 <= Sum(gains) && Sum(gains) + ws[id] <= MAX_INT64
             && MIN_INT64 <= Get(current, id) + Get(gains, id)
             && Get(current, id) + Get(gains, id) + ws[id] <= MAX_INT64
    ensures var gains, id := GainsOf(ids[..n], ws), ids[n];
            Exact(current, gains[id := Get(gains, id) + ws[id]], ids[..n] + [id], Scored(t, id, ws[id]))
  {
    NotBeforeLast(ids, n);
    TallyExact(current, GainsOf(ids[..n], ws), ids[..n], t, ids[n], ws[ids[n]]);
  }

  /** The same step, in terms of the lists one longer. */
  lemma ExactNext(current: map<Id, int>, ids: seq<Id>, ws: map<Id, int>, n: nat)
    requires n < |ids| && ids[n] in ws
    requires var gains, id := GainsOf(ids[..n], ws), ids[n];
             Exact(current, gains[id := Get(gains, id) + ws[id]], ids[..n] + [id],
                   Scored(ScoredTo(current, ids, ws, n), id, ws[id]))
    ensures Exact(current, GainsOf(ids[..n + 1], ws), ids[..n + 1], ScoredTo(current, ids, ws, n + 1))
  {
    GainsStep(ids, ws, n);
    assert ids[..n + 1] == ids[..n] + [ids[n]];
  }

  /** All sums of the pick fit int64, and every listed identifier has a positive weight. */
  ghost predicate Payable(current: map<Id, int>, ids: seq<Id>, ws: map<Id, int>) {
    && FitsFrom(current, GainsOf(ids, ws))
    && (forall id :: id in ids ==> id in ws) && (forall id :: id in ws ==> ws[id] > 0)
  }

  lemma PayableStep(current: map<Id, int>, ids: seq<Id>, ws: map<Id, int>, n: nat)
    requires Payable(current, ids, ws) && n < |ids|
    ensures ids[n] in ws && ws[ids[n]] > 0
    ensures var gains, id := GainsOf(ids[..n], ws), ids[n];
            && 0 <= Sum(gains) && Sum(gains) + ws[id] <= MAX_INT64
            && MIN_INT64 <= Get(current, id) + Get(gains, id)
            && Get(current, id) + Get(gains, id) + ws[id] <= MAX_INT64
  {
    PrefixFits(current, ids, ws, n);
  }

  ghost predicate ExactTo(current: map<Id, int>, ids: seq<Id>, ws: map<Id, int>, n: nat)
    requires n <= |ids|
  {
    Exact(current, GainsOf(ids[..n], ws), ids[..n], ScoredTo(current, ids, ws, n))
  }

  lemma ExactGrows(current: map<Id, int>, ids: seq<Id>, ws: map<Id, int>, n: nat)
    requires Ascending(ids) && n < |ids| && Payable(current, ids, ws) && ExactTo(current, ids, ws, n)
    ensures ExactTo(current, ids, ws, n + 1)
  {
    SensiblePrefix(current, ids, ws, n);
    PayableStep(current, ids, ws, n);
    ExactStep(current, ids, ws, n, ScoredTo(current, ids, ws, n));
    ExactNext(current, ids, ws, n);
  }

  /** While the sums of the whole pick fit int64, the fold is exact and its best so far beats the rest. */
  lemma {:induction false} ExactPrefix(current: map<Id, int>, ids: seq<Id>, ws: map<Id, int>, n: nat)
    requires Ascending(ids) && n <= |ids| && Payable(current, ids, ws)
    ensures ExactTo(current, ids, ws, n)
  {
    if n == 0 {
      SumEmpty(GainsOf(ids[..0], ws));
    } else {
      ExactPrefix(current, ids, ws, n - 1);
      ExactGrows(current, ids, ws, n - 1);
    }
  }

  lemma TallyDone(current: map<Id, int>, ids: seq<Id>, gains: map<Id, int>, t: Tally)
    requires ids != [] && (forall id :: id in gains <==> id in ids)
    requires t.scores.Keys == current.Keys + gains.Keys
    requires Sensible(ids, t.selected) && Exact(current, gains, ids, t)
    ensures t.scores == Plus(current, gains) && Best(t.scores, gains.Keys, t.selected)
  {
    forall id | id in t.scores ensures t.scores[id] == Plus(current, gains)[id] {
      assert Get(t.scores, id) == Get(current, id) + Get(gains, id);
    }
    assert t.selected == NO_ID ==> gains.Keys == {NO_ID};
  }

  lemma GainsCover(ids: seq<Id>, ws: map<Id, int>)
    ensures forall id :: id in GainsOf(ids, ws) <==> id in ids
  {
    GainsByCount(ids, ws);
    assert forall id :: id in ids <==> id in multiset(ids);
  }

  /** The finished fold, when every sum fits. */
  lemma FoldIsExact(current: map<Id, int>, ids: seq<Id>, ws: map<Id, int>)
    requires ids != [] && Ascending(ids) && FitsFrom(current, GainsOf(ids, ws))
    requires (forall id :: id in ids ==> id in ws) && (forall id :: id in ws ==> ws[id] > 0)
    ensures var gains, t := GainsOf(ids, ws), ScoredTo(current, ids, ws, |ids|);
            && t.total == Sum(gains) && t.scores == Plus(current, gains)
            && Best(t.scores, gains.Keys, t.selected) && t.selected in gains
  {
    var t := ScoredTo(current, ids, ws, |ids|);
    assert ids[..|ids|] == ids;
    KeysOfPrefix(current, ids, ws, |ids|);
    SensiblePrefix(current, ids, ws, |ids|);
    ExactPrefix(current, ids, ws, |ids|);
    GainsCover(ids, ws);
    TallyDone(current, ids, GainsOf(ids, ws), t);
  }

  lemma FoldIsAward(base: Pool, ws: map<Id, int>, ids: seq<Id>, selected: Id, after: Pool)
    requires WrappedScore(base, ws, ids, selected, after) && ids != [] && Ascending(ids)
    requires (forall id :: id in ids ==> id in ws) && (forall id :: id in ws ==> ws[id] > 0)
    requires FitsFrom(base.current, GainsOf(ids, ws))
    ensures Pay(base, GainsOf(ids, ws), Sum(GainsOf(ids, ws)), selected, after)
  {
    var gains := GainsOf(ids, ws);
    FoldIsExact(base.current, ids, ws);
    assert Get(Plus(base.current, gains), selected) == Get(base.current, selected) + Get(gains, selected);
    assert MIN_INT64 <= Get(Plus(base.current, gains), selected) - Sum(gains) <= MAX_INT64;
  }

  /** One pick among real candidates, in int64 arithmetic. */
  ghost predicate Picked(before: Pool, candidates: seq<Candidate>, id: Id, after: Pool) {
    exists sorted ::
      SortedFrom(sorted, PositiveIds(candidates)) && WrappedPick(before, WeightsOf(candidates), sorted, id, after)
  }

  /** Picks are deterministic, wrap-around included. */
  lemma PickedIsDeterministic(before: Pool, candidates: seq<Candidate>, id: Id, after: Pool, other: Id, later: Pool)
    requires Picked(before, candidates, id, after) && Picked(before, candidates, other, later)
    ensures id == other && after == later
  {
    var ids, ws := PositiveIds(candidates), WeightsOf(candidates);
    var a :| SortedFrom(a, ids) && WrappedPick(before, ws, a, id, after);
    var b :| SortedFrom(b, ids) && WrappedPick(before, ws, b, other, later);
    SortedIsUnique(a, b);
  }

  lemma ChoosesOffered(base: Pool, ws: map<Id, int>, sorted: seq<Id>, id: Id, after: Pool)
    requires WrappedScore(base, ws, sorted, id, after) && sorted != [] && Ascending(sorted)
    ensures id in sorted
  {
    SensiblePrefix(base.current, sorted, ws, |sorted|);
    assert sorted[..|sorted|] == sorted;
  }

  /** A pick chooses an offered candidate, and takes the pick step when its sums fit int64. */
  lemma PickedIsPromised(before: Pool, candidates: seq<Candidate>, id: Id, after: Pool)
    requires Picked(before, candidates, id, after) && PositiveIds(candidates) != []
    ensures Promised(before, candidates, id, after)
  {
    var ids, ws := PositiveIds(candidates), WeightsOf(candidates);
    var sorted :| SortedFrom(sorted, ids) && WrappedPick(before, ws, sorted, id, after);
    SortedCovers(sorted, ids);
    ChoosesOffered(Base(before, ws), ws, sorted, id, after);
    WeightsCoverIds(candidates);
    SortedPromise(before, ws, ids, sorted, id, after);
  }

  lemma SortedPromise(before: Pool, ws: map<Id, int>, ids: seq<Id>, sorted: seq<Id>, id: Id, after: Pool)
    requires SortedFrom(sorted, ids) && WrappedPick(before, ws, sorted, id, after) && sorted != []
    requires (forall j :: j in ids <==> j in ws) && (forall j :: j in ws ==> ws[j] > 0)
    ensures Fits(before, ws, GainsOf(ids, ws)) ==> PickStep(before, ws, GainsOf(ids, ws), id, after)
  {
    SortedCovers(sorted, ids);
    SameBagSameGains(ids, sorted, ws);
    if Fits(before, ws, GainsOf(ids, ws)) { FoldIsAward(Base(before, ws), ws, sorted, id, after); }
  }

  // ---------------------------------------------------------------------------------------
  // Order of the candidates
  // ---------------------------------------------------------------------------------------

  /** The outcome of a call: with fewer than two usable candidates the pool is not touched. */
  ghost predicate Chosen(before: Pool, candidates: seq<Candidate>, id: Id, after: Pool) {
    var ids := PositiveIds(candidates);
    if |ids| == 0 then id == NO_ID && after == before
    else if |ids| == 1 then id == ids[0] && after == before
    else Picked(before, candidates, id, after)
  }

  /** Two lists of candidates that always lead to the same winner and the same pool. */
  ghost predicate SamePicks(cs: seq<Candidate>, ds: seq<Candidate>) {
    forall before, id, after :: Chosen(before, cs, id, after) <==> Chosen(before, ds, id, after)
  }

  lemma InsertionPoint(sorted: seq<Id>, id: Id) returns (k: nat)
    requires Ascending(sorted)
    ensures k <= |sorted| && (forall i :: 0 <= i < k ==> !Before(id, sorted[i]))
            && (k < |sorted| ==> Before(id, sorted[k]))
  {
    k := 0;
    while k < |sorted| && !Before(id, sorted[k])
      invariant k <= |sorted| && forall i :: 0 <= i < k ==> !Before(id, sorted[i])
    {
      k := k + 1;
    }
  }

  lemma {:induction false} SortedExists(ids: seq<Id>) returns (sorted: seq<Id>)
    ensures SortedFrom(sorted, ids)
  {
    sorted := [];
    if ids != [] {
      var front, last := ids[..|ids| - 1], ids[|ids| - 1];
      var rest := SortedExists(front);
      var k := InsertionPoint(rest, last);
      InsertKeepsOrder(rest, k, last);
      InsertKeepsBag(rest, k, last);
      assert ids == front + [last];
      sorted := Inserted(rest, k, last);
    }
  }

  /** Every call has an outcome. */
  lemma ChoiceExists(before: Pool, candidates: seq<Candidate>) returns (id: Id, after: Pool)
    ensures Chosen(before, candidates, id, after)
  {
    var ids := PositiveIds(candidates);
    if |ids| < 2 {
      id, after := if ids == [] then NO_ID else ids[0], before;
    } else {
      var sorted := SortedExists(ids);
      var base := Base(before, WeightsOf(candidates));
      var t := ScoredTo(base.current, sorted, WeightsOf(candidates), |sorted|);
      id, after := t.selected, Pool(Paid(t), base.weights);
      assert WrappedPick(before, WeightsOf(candidates), sorted, id, after);
    }
  }

  lemma SameInputsSamePick(before: Pool, ws: map<Id, int>, ids: seq<Id>, js: seq<Id>, id: Id, after: Pool)
    requires multiset(ids) == multiset(js)
    requires exists sorted :: SortedFrom(sorted, ids) && WrappedPick(before, ws, sorted, id, after)
    ensures exists sorted :: SortedFrom(sorted, js) && WrappedPick(before, ws, sorted, id, after)
  {
    var sorted :| SortedFrom(sorted, ids) && WrappedPick(before, ws, sorted, id, after);
    assert SortedFrom(sorted, js);
  }

  lemma SameBagSamePicks(cs: seq<Candidate>, ds: seq<Candidate>, before: Pool, id: Id, after: Pool)
    requires multiset(cs) == multiset(ds) && ConsistentWeights(cs) && Chosen(before, cs, id, after)
    ensures Chosen(before, ds, id, after)
  {
    SameBagSameIds(cs, ds);
    SameBagSameWeights(cs, ds);
    var ids, js := PositiveIds(cs), PositiveIds(ds);
    SameBag(ids, js);
    if |ids| == 1 {
      assert js[0] in ids;
    } else if |ids| >= 2 {
      SameInputsSamePick(before, WeightsOf(cs), ids, js, id, after);
    }
  }

  lemma SameBagStaysConsistent(cs: seq<Candidate>, ds: seq<Candidate>)
    requires multiset(cs) == multiset(ds) && ConsistentWeights(cs)
    ensures ConsistentWeights(ds)
  {
    SameBag(cs, ds);
  }

  /** A pool that has not been used takes over the weights in force. */
  lemma WeightsAreRemembered(cs: seq<Candidate>, id: Id, after: Pool, j: Id)
    requires Picked(EMPTY_POOL, cs, id, after) && j in WeightsOf(cs)
    ensures j in after.weights && after.weights[j] == WeightsOf(cs)[j]
  {
  }

  lemma {:induction false} ListedOnce(cs: seq<Candidate>, c: Candidate)
    requires c in cs && CandidateWeight(c) > 0
    ensures PositiveIds(cs) != []
  {
    if cs[|cs| - 1] != c { ListedOnce(cs[..|cs| - 1], c); }
  }

  lemma ListedTwice(cs: seq<Candidate>, c: Candidate, d: Candidate)
    requires c in cs && d in cs && c != d && CandidateWeight(c) > 0 && CandidateWeight(d) > 0
    ensures |PositiveIds(cs)| >= 2
  {
    var i :| 0 <= i < |cs| && cs[i] == c;
    assert cs == cs[..i] + [c] + cs[i + 1..];
    ListedOnce(cs[..i] + cs[i + 1..], d);
    ListedOnce([c], c);
    IdsWithout(cs[..i], c, cs[i + 1..]);
    SumOfSizes(PositiveIds(cs), PositiveIds(cs[..i] + cs[i + 1..]), PositiveIds([c]));
  }

  lemma SumOfSizes(all: seq<Id>, some: seq<Id>, others: seq<Id>)
    requires multiset(all) == multiset(some) + multiset(others)
    ensures |all| == |some| + |others|
  {
    assert |multiset(all)| == |all| && |multiset(some)| == |some| && |multiset(others)| == |others|;
  }

  /** Two reorderings that put different weights in force leave different pools. */
  lemma OtherWeightsOtherPick(xs: seq<Candidate>, ys: seq<Candidate>, j: Id)
    requires |PositiveIds(xs)| >= 2 && |PositiveIds(ys)| >= 2
    requires j in WeightsOf(xs) && j in WeightsOf(ys) && WeightsOf(xs)[j] != WeightsOf(ys)[j]
    ensures !SamePicks(xs, ys)
  {
    var id, after := ChoiceExists(EMPTY_POOL, xs);
    if Chosen(EMPTY_POOL, ys, id, after) {
      WeightsAreRemembered(xs, id, after, j);
      WeightsAreRemembered(ys, id, after, j);
    }
  }

  /**
   The order in which the host lists the candidates is irrelevant, for the winner and for the pool, exactly
   when no identifier carries two different positive weights. int64 wrap-around is included.
   */
  lemma PickOrderIrrelevantIff(cs: seq<Candidate>)
    ensures ConsistentWeights(cs) <==> forall ds :: multiset(ds) == multiset(cs) ==> SamePicks(cs, ds)
  {
    if ConsistentWeights(cs) {
      forall ds, before, id, after | multiset(ds) == multiset(cs)
        ensures Chosen(before, cs, id, after) <==> Chosen(before, ds, id, after)
      {
        SameBagStaysConsistent(cs, ds);
        if Chosen(before, cs, id, after) { SameBagSamePicks(cs, ds, before, id, after); }
        if Chosen(before, ds, id, after) { SameBagSamePicks(ds, cs, before, id, after); }
      }
    } else {
      var c, d :| c in cs && d in cs && c.id == d.id && CandidateWeight(c) > 0 && CandidateWeight(d) > 0 &&
                  CandidateWeight(c) != CandidateWeight(d);
      var xs := MoveToEnd(cs, c);
      var ys := MoveToEnd(cs, d);
      SameBag(cs, xs);
      SameBag(cs, ys);
      ListedTwice(xs, c, d);
      ListedTwice(ys, c, d);
      OtherWeightsOtherPick(xs, ys, c.id);
      if SamePicks(cs, xs) && SamePicks(cs, ys) { assert SamePicks(xs, ys); }
    }
  }

  /** Three listings, of which the first two are one credential's: what the fold makes of an empty pool. */
  lemma ThreeScored(a: Id, b: Id, ws: map<Id, int>)
    requires a != NO_ID && Before(a, b) && a != b && a in ws && b in ws && 0 < ws[a] <= 5 && 0 < ws[b] <= 5
    ensures ScoredTo(map[], [a, a, b], ws, 3).selected == if 2 * ws[a] >= ws[b] then a else b
  {
    LessIrreflexive(a.text);
    NotBeforeBoth(a, b);
    var ids := [a, a, b];
    assert ScoredTo(map[], ids, ws, 1) == Tally(map[a := ws[a]], a, ws[a], ws[a]);
    assert ScoredTo(map[], ids, ws, 2) == Tally(map[a := 2 * ws[a]], a, 2 * ws[a], 2 * ws[a]);
  }

  lemma NotBeforeBoth(a: Id, b: Id)
    requires Before(a, b)
    ensures !Before(b, a)
  {
    if Before(b, a) {
      LessTransitive(a.text, b.text, a.text);
      LessIrreflexive(a.text);
    }
  }

  lemma ThreeListed(a: Candidate, c: Candidate, b: Candidate)
    requires CandidateWeight(a) > 0 && CandidateWeight(b) > 0 && CandidateWeight(c) > 0 && a.id == c.id != b.id
    ensures PositiveIds([a, c, b]) == [a.id, a.id, b.id]
    ensures WeightsOf([a, c, b]) == map[a.id := CandidateWeight(c), b.id := CandidateWeight(b)]
  {
    assert [a, c, b][..2] == [a, c] && [a, c][..1] == [a];
    assert PositiveIds([a]) == [a.id] && WeightsOf([a]) == map[a.id := CandidateWeight(a)];
  }

  lemma BaseOfEmpty(ws: map<Id, int>)
    ensures Base(EMPTY_POOL, ws) == Pool(map[], ws)
  {
  }

  lemma PickFromEmpty(cs: seq<Candidate>, selected: Id)
    requires Ascending(PositiveIds(cs)) && |PositiveIds(cs)| >= 2
    requires selected == ScoredTo(map[], PositiveIds(cs), WeightsOf(cs), |PositiveIds(cs)|).selected
    ensures exists after :: Chosen(EMPTY_POOL, cs, selected, after)
  {
    var sorted, ws := PositiveIds(cs), WeightsOf(cs);
    BaseOfEmpty(ws);
    var after := Pool(Paid(ScoredTo(map[], sorted, ws, |sorted|)), ws);
    assert SortedFrom(sorted, sorted) && WrappedPick(EMPTY_POOL, ws, sorted, selected, after);
    assert Chosen(EMPTY_POOL, cs, selected, after);
  }

  /** The pick among three listings of two credentials, the earlier of which is listed twice. */
  lemma ThreePicked(a: Candidate, c: Candidate, b: Candidate)
    requires a.id == c.id != NO_ID && Before(a.id, b.id)
    requires 0 < CandidateWeight(a) && 0 < CandidateWeight(b) <= 5 && 0 < CandidateWeight(c) <= 5
    ensures var winner := if 2 * CandidateWeight(c) >= CandidateWeight(b) then a.id else b.id;
            exists after :: Chosen(EMPTY_POOL, [a, c, b], winner, after)
  {
    LessIrreflexive(a.id.text);
    NotBeforeBoth(a.id, b.id);
    ThreeListed(a, c, b);
    ThreeScored(a.id, b.id, WeightsOf([a, c, b]));
    PickFromEmpty([a, c, b], if 2 * CandidateWeight(c) >= CandidateWeight(b) then a.id else b.id);
  }

  /** An instance: the credential listed twice wins or loses by the weight that is listed last. */
  lemma OrderChangesWinner() returns (cs: seq<Candidate>, ds: seq<Candidate>, p: Pool, q: Pool)
    ensures multiset(cs) == multiset(ds)
    ensures Chosen(EMPTY_POOL, cs, Id("a"), p) && Chosen(EMPTY_POOL, ds, Id("b"), q)
  {
    var a1, a5, b3 := Candidate(Id("a"), Number(1)), Candidate(Id("a"), Number(5)), Candidate(Id("b"), Number(3));
    cs, ds := [a1, a5, b3], [a5, a1, b3];
    assert Before(Id("a"), Id("b"));
    ThreePicked(a1, a5, b3);
    ThreePicked(a5, a1, b3);
    p :| Chosen(EMPTY_POOL, cs, Id("a"), p);
    q :| Chosen(EMPTY_POOL, ds, Id("b"), q);
  }

  // ---------------------------------------------------------------------------------------
  // What a pick does, credential by credential
  // ---------------------------------------------------------------------------------------

  /** A credential is offered with another weight than the pool remembers: all scores start again. */
  ghost predicate Restarts(before: Pool, cs: seq<Candidate>) {
    exists id, w :: InForce(cs, id, w) && id in before.weights && before.weights[id] != w
  }

  /** The pool has kept more scores than it may, and forgets the credentials that are not offered. */
  ghost predicate ForgetsAbsent(before: Pool, cs: seq<Candidate>) {
    !Restarts(before, cs) && |before.current| > 1024
  }

  /** A credential gains its weight in force with every listing that counts. */
  ghost function Gains(cs: seq<Candidate>): map<Id, int> {
    map id | id in WeightsOf(cs) :: |Listings(cs, id)| * WeightsOf(cs)[id]
  }

  function ScoreBefore(before: Pool, restarts: bool, id: Id): int {
    if !restarts && id in before.current then before.current[id] else 0
  }

  /** All sums of the pick are int64 values. */
  ghost predicate SumsInRange(before: Pool, restarts: bool, gains: map<Id, int>) {
    && Sum(gains) <= MAX_INT64
    && forall id :: id in gains ==>
         var score := ScoreBefore(before, restarts, id);
         && MIN_INT64 <= score && score + gains[id] <= MAX_INT64
         && MIN_INT64 <= score + gains[id] - Sum(gains) <= MAX_INT64
  }

  /** The winner has the highest score after gaining, of equal ones the lowest identifier, and the empty one last. */
  ghost predicate WinsPick(before: Pool, restarts: bool, gains: map<Id, int>, winner: Id) {
    && winner in gains && (winner == NO_ID ==> forall id :: id in gains ==> id == NO_ID)
    && forall id :: id in gains && id != NO_ID ==>
         var mine := ScoreBefore(before, restarts, winner) + gains[winner];
         var other := ScoreBefore(before, restarts, id) + gains[id];
         other < mine || (other == mine && !Less(id.text, winner.text))
  }

  /** Whoever is offered has gained, and the winner has paid the total. */
  ghost predicate PaysOut(before: Pool, restarts: bool, gains: map<Id, int>, winner: Id, after: map<Id, int>) {
    forall id :: id in gains ==>
      && id in after
      && after[id] == ScoreBefore(before, restarts, id) + gains[id] - if id == winner then Sum(gains) else 0
  }

  /** Offered weights are remembered; whoever is not offered is left alone or forgotten. */
  ghost predicate Remembers(before: Pool, ws: map<Id, int>, restarts: bool, forgets: bool, after: Pool) {
    && (forall id :: id in ws ==> id in after.weights && after.weights[id] == ws[id])
    && (forall id :: id !in ws ==>
          && (id in after.weights <==> id in before.weights && !forgets)
          && (id in after.weights ==> after.weights[id] == before.weights[id])
          && (id in after.current <==> id in before.current && !restarts && !forgets)
          && (id in after.current ==> after.current[id] == before.current[id]))
  }

  ghost predicate InRange(before: Pool, cs: seq<Candidate>) {
    SumsInRange(before, Restarts(before, cs), Gains(cs))
  }

  ghost predicate PickResult(before: Pool, cs: seq<Candidate>, winner: Id, after: Pool) {
    && WinsPick(before, Restarts(before, cs), Gains(cs), winner)
    && PaysOut(before, Restarts(before, cs), Gains(cs), winner, after.current)
    && Remembers(before, WeightsOf(cs), Restarts(before, cs), ForgetsAbsent(before, cs), after)
  }

  lemma RestartsIff(before: Pool, cs: seq<Candidate>)
    ensures Restarts(before, cs) <==> WeightsChanged(before, WeightsOf(cs))
  {
    forall id, w ensures id in WeightsOf(cs) && WeightsOf(cs)[id] == w <==> InForce(cs, id, w) {
      WeightInForceIff(cs, id, w);
    }
    if WeightsChanged(before, WeightsOf(cs)) {
      var id :| id in WeightsOf(cs) && id in before.weights && before.weights[id] != WeightsOf(cs)[id];
      assert InForce(cs, id, WeightsOf(cs)[id]);
    }
  }

  lemma GainsAre(cs: seq<Candidate>)
    ensures RoundOf(cs).gains == Gains(cs)
  {
    var ids, ws := PositiveIds(cs), WeightsOf(cs);
    GainsByCount(ids, ws);
    WeightsCoverIds(cs);
    forall id ensures id in RoundOf(cs).gains <==> id in ws { assert id in multiset(ids) <==> id in ids; }
    forall id | id in ws ensures RoundOf(cs).gains[id] == Gains(cs)[id] {
      ListingsCounted(cs, id);
      assert Get(RoundOf(cs).gains, id) == multiset(ids)[id] * Get(ws, id);
    }
  }

  lemma BaseStarts(before: Pool, ws: map<Id, int>, restarts: bool, base: Pool)
    requires restarts == WeightsChanged(before, ws) && base == Base(before, ws)
    ensures Remembers(before, ws, restarts, !restarts && |before.current| > 1024, base)
    ensures forall id :: id in ws ==> Get(base.current, id) == ScoreBefore(before, restarts, id)
  {
  }

  lemma PayWins(before: Pool, restarts: bool, base: Pool, gains: map<Id, int>, winner: Id, after: Pool)
    requires forall id :: id in gains ==> Get(base.current, id) == ScoreBefore(before, restarts, id)
    requires Pay(base, gains, Sum(gains), winner, after)
    ensures WinsPick(before, restarts, gains, winner)
  {
    var scores := Plus(base.current, gains);
    forall id | id in gains ensures id in scores && scores[id] == ScoreBefore(before, restarts, id) + gains[id] { }
    forall id | id in gains && id != NO_ID ensures Beats(scores, winner, id) { }
  }

  lemma PayPays(before: Pool, restarts: bool, base: Pool, gains: map<Id, int>, winner: Id, after: Pool)
    requires forall id :: id in gains ==> Get(base.current, id) == ScoreBefore(before, restarts, id)
    requires Pay(base, gains, Sum(gains), winner, after)
    ensures PaysOut(before, restarts, gains, winner, after.current) && after.weights == base.weights
    ensures forall id :: id !in gains ==>
              && (id in after.current <==> id in base.current)
              && (id in after.current ==> after.current[id] == base.current[id])
  {
  }

  /** A pick from given scores, in the same terms. */
  lemma PayMeans(before: Pool, ws: map<Id, int>, restarts: bool, forgets: bool, base: Pool, gains: map<Id, int>,
                 winner: Id, after: Pool)
    requires Remembers(before, ws, restarts, forgets, base) && gains.Keys == ws.Keys
    requires forall id :: id in gains ==> Get(base.current, id) == ScoreBefore(before, restarts, id)
    requires Pay(base, gains, Sum(gains), winner, after)
    ensures WinsPick(before, restarts, gains, winner)
    ensures PaysOut(before, restarts, gains, winner, after.current)
    ensures Remembers(before, ws, restarts, forgets, after)
  {
    PayWins(before, restarts, base, gains, winner, after);
    PayPays(before, restarts, base, gains, winner, after);
  }

  /** A pick whose sums stay in range does exactly that. */
  lemma PickMeans(before: Pool, cs: seq<Candidate>, winner: Id, after: Pool)
    requires Picked(before, cs, winner, after) && PositiveIds(cs) != []
    ensures InRange(before, cs) ==> PickResult(before, cs, winner, after)
  {
    if InRange(before, cs) {
      RestartsIff(before, cs);
      GainsAre(cs);
      PickedIsPromised(before, cs, winner, after);
      StepMeans(before, WeightsOf(cs), Restarts(before, cs), Gains(cs), winner, after);
    }
  }

  lemma StepMeans(before: Pool, ws: map<Id, int>, restarts: bool, gains: map<Id, int>, winner: Id, after: Pool)
    requires restarts == WeightsChanged(before, ws) && gains.Keys == ws.Keys && SumsInRange(before, restarts, gains)
    requires Fits(before, ws, gains) ==> PickStep(before, ws, gains, winner, after)
    ensures WinsPick(before, restarts, gains, winner)
    ensures PaysOut(before, restarts, gains, winner, after.current)
    ensures Remembers(before, ws, restarts, !restarts && |before.current| > 1024, after)
  {
    var base := Base(before, ws);
    BaseStarts(before, ws, restarts, base);
    assert Fits(before, ws, gains);
    PayMeans(before, ws, restarts, !restarts && |before.current| > 1024, base, gains, winner, after);
  }

  /** The scope's pools a pick keeps: opening one too many drops them all. */
  function KeptPools(pools: map<Id, Pool>, pool: Id): map<Id, Pool> {
    if pool !in pools && |pools| >= MAX_POOLS_PER_KEY then map[] else pools
  }

  /** Pools are dropped only by opening a new one beside 256 others, and there are never more. */
  ghost predicate OnePoolMore(pools: map<Id, Pool>, pool: Id, after: map<Id, Pool>) {
    && pool in after && (|pools| <= 256 ==> |after| <= 256)
    && (forall p :: p != pool ==> (p in after <==> p in pools && (pool in pools || |pools| < 256)))
    && (forall p :: p != pool && p in after ==> p in pools && after[p] == pools[p])
  }

  lemma OneMorePool(pools: map<Id, Pool>, pool: Id, state: Pool)
    ensures OnePoolMore(pools, pool, KeptPools(pools, pool)[pool := state])
  {
    var kept := KeptPools(pools, pool);
    var after := kept[pool := state];
    assert after.Keys == kept.Keys + {pool};
    assert |after| == |after.Keys| && |kept| == |kept.Keys|;
    if pool in kept { assert after.Keys == kept.Keys; }
  }

  class SubsetScheduler {
    var keys: map<Id, map<Id, Pool>>

    constructor ()
      ensures keys == map[]
    {
      keys := map[];
    }

    /** The pool as the pick finds it; one that has not been used yet is empty. */
    function PoolAt(scope: Id, pool: Id): Pool
      reads this
    {
      if scope in keys && pool in keys[scope] then keys[scope][pool] else EMPTY_POOL
    }

    function PoolsOf(scope: Id): map<Id, Pool>
      reads this
    {
      if scope in keys then keys[scope] else map[]
    }

    function PoolsKept(scope: Id, pool: Id): map<Id, Pool>
      reads this
    {
      KeptPools(PoolsOf(scope), pool)
    }

    /**
     With fewer than two usable candidates nothing is scheduled and nothing is remembered. Else the pick
     is the wrapping one, which is a pick step whenever its sums fit int64.
     */
    method Pick(scope: Id, pool: Id, candidates: seq<Candidate>) returns (id: Id)
      modifies this
      ensures |PositiveIds(candidates)| == 0 ==> id == NO_ID && keys == old(keys)
      ensures |PositiveIds(candidates)| == 1 ==> id == PositiveIds(candidates)[0] && keys == old(keys)
      ensures |PositiveIds(candidates)| >= 2 ==>
                && keys == old(keys)[scope := old(PoolsKept(scope, pool))[pool := PoolAt(scope, pool)]]
                && Picked(old(PoolAt(scope, pool)), candidates, id, PoolAt(scope, pool))
                && Promised(old(PoolAt(scope, pool)), candidates, id, PoolAt(scope, pool))
      ensures Chosen(old(PoolAt(scope, pool)), candidates, id, PoolAt(scope, pool))
      ensures |PositiveIds(candidates)| >= 2 && InRange(old(PoolAt(scope, pool)), candidates) ==>
                PickResult(old(PoolAt(scope, pool)), candidates, id, PoolAt(scope, pool))
      ensures |PositiveIds(candidates)| >= 2 ==> OnePoolMore(old(PoolsOf(scope)), pool, keys[scope])
    {
      var positive, weights := Usable(candidates);
      if |positive| == 0 {
        return NO_ID;
      }
      if |positive| == 1 {
        return positive[0];
      }
      var after;
      id, after := PickFrom(PoolAt(scope, pool), positive, weights);
      PickedIsPromised(PoolAt(scope, pool), candidates, id, after);
      PickMeans(PoolAt(scope, pool), candidates, id, after);
      Remember(scope, pool, after);
    }

    method Remember(scope: Id, pool: Id, after: Pool)
      modifies this
      ensures keys == old(keys)[scope := old(PoolsKept(scope, pool))[pool := after]]
      ensures PoolAt(scope, pool) == after && OnePoolMore(old(PoolsOf(scope)), pool, keys[scope])
    {
      OneMorePool(PoolsOf(scope), pool, after);
      keys := keys[scope := PoolsKept(scope, pool)[pool := after]];
    }

    method PickFrom(before: Pool, positive: seq<Id>, weights: map<Id, int>) returns (id: Id, after: Pool)
      requires positive != [] && forall j :: j in positive <==> j in weights
      ensures exists sorted :: SortedFrom(sorted, positive) && WrappedPick(before, weights, sorted, id, after)
    {
      var sorted := SortById(positive);
      SortedCovers(sorted, positive);
      var base := Refresh(before, sorted, weights);
      var scores;
      scores, id := Score(base.current, sorted, weights);
      after := Pool(scores, base.weights);
      assert SortedFrom(sorted, positive) && WrappedPick(before, weights, sorted, id, after);
    }

    method Usable(candidates: seq<Candidate>) returns (positive: seq<Id>, weights: map<Id, int>)
      ensures positive == PositiveIds(candidates) && weights == WeightsOf(candidates)
      ensures forall id :: id in positive <==> id in weights
    {
      positive, weights := [], map[];
      for i := 0 to |candidates|
        invariant positive == PositiveIds(candidates[..i]) && weights == WeightsOf(candidates[..i])
      {
        var c := candidates[i];
        var weight := CandidateWeight(c);
        assert candidates[..i + 1][..i] == candidates[..i];
        if weight > 0 {
          positive := positive + [c.id];
          weights := weights[c.id := weight];
        }
      }
      assert candidates[..|candidates|] == candidates;
      WeightsCoverIds(candidates);
    }

    method Refresh(before: Pool, ids: seq<Id>, weights: map<Id, int>) returns (base: Pool)
      requires forall id :: id in ids <==> id in weights
      ensures base == Base(before, weights)
    {
      var merged, changed := before.weights, false;
      for i := 0 to |ids|
        invariant changed == WeightsChanged(before, Among(weights, ids[..i]))
        invariant merged == before.weights + Among(weights, ids[..i])
      {
        AmongStep(weights, ids, i);
        MergeStep(before, Among(weights, ids[..i]), ids[i], weights[ids[i]]);
        if ids[i] in merged && merged[ids[i]] != weights[ids[i]] {
          changed := true;
        }
        merged := merged[ids[i] := weights[ids[i]]];
      }
      AmongAll(weights, ids);
      base := Pool(if changed then map[] else before.current, merged);
      if |base.current| > MAX_CREDENTIALS_PER_POOL {
        base := Keep(base, ids, weights);
      }
    }

    method Keep(pool: Pool, ids: seq<Id>, weights: map<Id, int>) returns (kept: Pool)
      requires forall id :: id in ids <==> id in weights
      ensures kept == Pool(On(weights, pool), On(weights, Pool(pool.weights, map[])))
    {
      var current, keptWeights := map[], map[];
      for i := 0 to |ids|
        invariant current == On(Among(weights, ids[..i]), pool)
        invariant keptWeights == On(Among(weights, ids[..i]), Pool(pool.weights, map[]))
      {
        AmongStep(weights, ids, i);
        OnStep(Among(weights, ids[..i]), ids[i], weights[ids[i]], pool);
        OnStep(Among(weights, ids[..i]), ids[i], weights[ids[i]], Pool(pool.weights, map[]));
        current := current[ids[i] := Get(pool.current, ids[i])];
        keptWeights := keptWeights[ids[i] := Get(pool.weights, ids[i])];
      }
      AmongAll(weights, ids);
      kept := Pool(current, keptWeights);
    }

    method Score(current: map<Id, int>, ids: seq<Id>, weights: map<Id, int>)
      returns (scores: map<Id, int>, selected: Id)
      ensures var t := ScoredTo(current, ids, weights, |ids|); selected == t.selected && scores == Paid(t)
    {
      var t := Tally(current, NO_ID, 0, 0);
      for i := 0 to |ids|
        invariant t == ScoredTo(current, ids, weights, i)
      {
        t := Consider(t, ids[i], Get(weights, ids[i]));
      }
      selected := t.selected;
      scores := t.scores[selected := Wrap64(Get(t.scores, selected) - t.total)];
    }

    method Consider(t: Tally, id: Id, weight: int) returns (next: Tally)
      ensures next == Scored(t, id, weight)
    {
      var score := Wrap64(Get(t.scores, id) + weight);
      next := t.(total := Wrap64(t.total + weight), scores := t.scores[id := score]);
      if t.selected == NO_ID || score > t.highest || (score == t.highest && Before(id, t.selected)) {
        next := next.(selected := id, highest := score);
      }
    }

    method Prune(scopes: set<Id>)
      modifies this
      ensures keys == map scope | scope in old(keys) && scope in scopes :: old(keys)[scope]
    {
      var pending := keys.Keys;
      while pending != {}
        invariant pending <= old(keys).Keys
        invariant keys == map scope | scope in old(keys) && (scope in scopes || scope in pending) :: old(keys)[scope]
        decreases |pending|
      {
        var scope :| scope in pending;
        pending := pending - {scope};
        if scope !in scopes {
          keys := keys - {scope};
        }
      }
    }
  }
}
