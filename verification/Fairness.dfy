/** Exact fairness of the round-robin while the same set of credentials is offered. */
module Fairness {
  import opened Numbers
  import opened Text
  import opened RoundRobin

  ghost predicate FixedSet(ws: map<Id, int>) {
    |ws| >= 2 && forall id :: id in ws ==> ws[id] > 0
  }

  ghost predicate AllZero(ws: map<Id, int>, pool: Pool) {
    forall id :: id in ws ==> Get(pool.current, id) == 0
  }

  ghost predicate OfferAll(ws: map<Id, int>, before: Pool, s: Id, after: Pool) {
    PickStep(before, ws, ws, s, after)
  }

  /** A history in which the whole set is offered again and again. */
  datatype Trace = Start(pool: Pool) | Then(earlier: Trace, pick: Id, pool: Pool)

  ghost predicate FromZero(ws: map<Id, int>, t: Trace) {
    match t
    case Start(pool) => AllZero(ws, pool)
    case Then(earlier, pick, pool) => FromZero(ws, earlier) && OfferAll(ws, earlier.pool, pick, pool)
  }

  function Rounds(t: Trace): nat {
    if t.Start? then 0 else Rounds(t.earlier) + 1
  }

  function Wins(t: Trace, id: Id): nat {
    if t.Start? then 0 else Wins(t.earlier, id) + if t.pick == id then 1 else 0
  }

  /** How often each member was picked. */
  ghost function Counts(ws: map<Id, int>, t: Trace): map<Id, int> {
    map id | id in ws :: Wins(t, id)
  }

  /** One pick as the set's own scores see it. */
  ghost predicate SetStep(ws: map<Id, int>, total: int, x: map<Id, int>, s: Id, y: map<Id, int>) {
    && x.Keys == ws.Keys == y.Keys
    && Best(Plus(x, ws), ws.Keys, s)
    && forall id :: id in ws ==> y[id] == x[id] + ws[id] - (if id == s then total else 0)
  }

  /** The set's scores survive weight refresh and trim. */
  ghost predicate AtRest(ws: map<Id, int>, pool: Pool) {
    !WeightsChanged(pool, ws) || AllZero(ws, pool)
  }

  lemma BestOnSet(ws: map<Id, int>, scores: map<Id, int>, subset: map<Id, int>, s: Id)
    requires Best(scores, ws.Keys, s)
    requires forall id :: id in ws ==> Get(scores, id) == Get(subset, id)
    ensures Best(subset, ws.Keys, s)
  {
  }

  lemma SameScoresOnSet(ws: map<Id, int>, current: map<Id, int>, x: map<Id, int>)
    requires x.Keys == ws.Keys && forall id :: id in ws ==> x[id] == Get(current, id)
    ensures forall id :: id in ws ==> Get(Plus(current, ws), id) == Get(Plus(x, ws), id)
  {
  }

  lemma AwardOnSet(ws: map<Id, int>, current: map<Id, int>, x: map<Id, int>, total: int,
                   weights: map<Id, int>, s: Id, after: Pool)
    requires Award(Plus(current, ws), total, ws.Keys, weights, s, after)
    requires x.Keys == ws.Keys && forall id :: id in ws ==> x[id] == Get(current, id)
    ensures SetStep(ws, total, x, s, On(ws, after))
  {
    SameScoresOnSet(ws, current, x);
    BestOnSet(ws, Plus(current, ws), Plus(x, ws), s);
  }

  /** `base` still holds the set's scores and agrees with its weights. */
  ghost predicate Undisturbed(ws: map<Id, int>, before: Pool, base: Pool) {
    && (forall id :: id in ws ==> Get(base.current, id) == Get(before.current, id))
    && (forall id :: id in ws ==> id in base.weights && base.weights[id] == ws[id])
  }

  lemma BaseOnSet(ws: map<Id, int>, before: Pool)
    requires AtRest(ws, before)
    ensures Undisturbed(ws, before, Base(before, ws))
  {
  }

  lemma StepOnSet(ws: map<Id, int>, total: int, before: Pool, base: Pool, s: Id, after: Pool)
    requires Undisturbed(ws, before, base) && Pay(base, ws, total, s, after)
    ensures SetStep(ws, total, On(ws, before), s, On(ws, after))
    ensures AtRest(ws, after)
  {
    AwardOnSet(ws, base.current, On(ws, before), total, base.weights, s, after);
  }

  /** A trace as the set's own scores see it. */
  ghost predicate SetTrace(ws: map<Id, int>, total: int, t: Trace) {
    match t
    case Start(pool) => forall id :: id in ws ==> On(ws, pool)[id] == 0
    case Then(earlier, pick, pool) =>
      SetTrace(ws, total, earlier) && SetStep(ws, total, On(ws, earlier.pool), pick, On(ws, pool))
  }

  lemma {:induction false} Project(ws: map<Id, int>, t: Trace)
    requires FromZero(ws, t)
    ensures SetTrace(ws, Sum(ws), t) && AtRest(ws, t.pool)
  {
    if t.Then? {
      var p := t.earlier.pool;
      Project(ws, t.earlier);
      BaseOnSet(ws, p);
      StepOnSet(ws, Sum(ws), p, Base(p, ws), t.pick, t.pool);
    }
  }

  lemma PositiveMemberOfPositiveSum(ws: map<Id, int>, scores: map<Id, int>, s: Id)
    requires scores.Keys == ws.Keys && Best(scores, ws.Keys, s) && NO_ID !in ws
    requires Sum(scores) > 0
    ensures Get(scores, s) > 0
  {
    if Get(scores, s) <= 0 {
      var zeros := map id | id in scores :: 0;
      assert forall id :: id in scores ==> Beats(scores, s, id);
      SumMonotone(scores, zeros);
      SumOfZeros(zeros);
    }
  }

  lemma TotalIsPositive(ws: map<Id, int>)
    requires FixedSet(ws)
    ensures Sum(ws) > 0
  {
    var id :| id in ws;
    SumPeel(ws, id);
    var rest := ws - {id};
    var zeros := map j | j in rest :: 0;
    SumMonotone(zeros, rest);
    SumOfZeros(zeros);
  }

  lemma SetStepKeepsSum(ws: map<Id, int>, x: map<Id, int>, s: Id, y: map<Id, int>)
    requires SetStep(ws, Sum(ws), x, s, y)
    ensures Sum(y) == Sum(x)
  {
    SumShift(x, ws, Sum(ws), s, y);
  }

  ghost predicate AboveFloor(ws: map<Id, int>, total: int, y: map<Id, int>) {
    forall id :: id in ws ==> id in y && -total < y[id]
  }

  lemma StepAboveFloor(ws: map<Id, int>, total: int, x: map<Id, int>, s: Id, y: map<Id, int>)
    requires FixedSet(ws) && SetStep(ws, total, x, s, y) && AboveFloor(ws, total, x)
    requires Get(Plus(x, ws), s) > 0
    ensures AboveFloor(ws, total, y)
  {
  }

  /** A winner's score was positive before it paid the total. */
  lemma SetStepKeepsFloor(ws: map<Id, int>, x: map<Id, int>, s: Id, y: map<Id, int>)
    requires FixedSet(ws) && NO_ID !in ws && SetStep(ws, Sum(ws), x, s, y)
    requires Sum(x) == 0 && AboveFloor(ws, Sum(ws), x)
    ensures AboveFloor(ws, Sum(ws), y)
  {
    TotalIsPositive(ws);
    SumPlus(x, ws);
    PositiveMemberOfPositiveSum(ws, Plus(x, ws), s);
    StepAboveFloor(ws, Sum(ws), x, s, y);
  }

  lemma {:induction false} TraceBalance(ws: map<Id, int>, t: Trace)
    requires SetTrace(ws, Sum(ws), t)
    ensures Sum(On(ws, t.pool)) == 0
  {
    if t.Start? {
      SumOfZeros(On(ws, t.pool));
    } else {
      TraceBalance(ws, t.earlier);
      SetStepKeepsSum(ws, On(ws, t.earlier.pool), t.pick, On(ws, t.pool));
    }
  }

  lemma {:induction false} TraceFloor(ws: map<Id, int>, t: Trace)
    requires FixedSet(ws) && NO_ID !in ws && SetTrace(ws, Sum(ws), t)
    ensures AboveFloor(ws, Sum(ws), On(ws, t.pool))
  {
    if t.Start? {
      TotalIsPositive(ws);
    } else {
      TraceFloor(ws, t.earlier);
      TraceBalance(ws, t.earlier);
      SetStepKeepsFloor(ws, On(ws, t.earlier.pool), t.pick, On(ws, t.pool));
    }
  }

  lemma Earn(x: int, y: int, k: int, l: int, w: int, total: int, c: int, d: int, won: bool)
    requires x == k * w - total * c && l == k + 1 && d == (if won then c + 1 else c)
    requires y == x + w - (if won then total else 0)
    ensures y == l * w - total * d
  {
  }

  /**
   The closed form of the scores: a member has earned its weight in each of the rounds and
   paid the total for each time it won.
   */
  lemma {:induction false} ClosedForm(ws: map<Id, int>, total: int, t: Trace, id: Id)
    requires SetTrace(ws, total, t) && id in ws
    ensures On(ws, t.pool)[id] == Rounds(t) * ws[id] - total * Wins(t, id)
  {
    if t.Then? {
      ClosedForm(ws, total, t.earlier, id);
      OneRoundMore(ws, total, t, id);
      Earn(On(ws, t.earlier.pool)[id], On(ws, t.pool)[id], Rounds(t.earlier), Rounds(t), ws[id], total,
           Wins(t.earlier, id), Wins(t, id), t.pick == id);
    }
  }

  lemma OneRoundMore(ws: map<Id, int>, total: int, t: Trace, id: Id)
    requires SetTrace(ws, total, t) && t.Then? && id in ws
    ensures On(ws, t.pool)[id] == On(ws, t.earlier.pool)[id] + ws[id] - (if t.pick == id then total else 0)
    ensures Rounds(t) == Rounds(t.earlier) + 1
    ensures Wins(t, id) == if t.pick == id then Wins(t.earlier, id) + 1 else Wins(t.earlier, id)
  {
  }

  lemma {:induction false} TraceCounts(ws: map<Id, int>, total: int, t: Trace)
    requires SetTrace(ws, total, t)
    ensures Sum(Counts(ws, t)) == Rounds(t)
  {
    if t.Start? {
      SumOfZeros(Counts(ws, t));
    } else {
      TraceCounts(ws, total, t.earlier);
      CountOneMore(ws, t);
    }
  }

  lemma CountOneMore(ws: map<Id, int>, t: Trace)
    requires t.Then? && t.pick in ws
    ensures Sum(Counts(ws, t)) == Sum(Counts(ws, t.earlier)) + 1
  {
    SumUpdate(Counts(ws, t.earlier), t.pick, Wins(t.earlier, t.pick) + 1);
    assert Counts(ws, t.earlier)[t.pick := Wins(t.earlier, t.pick) + 1] == Counts(ws, t);
  }

  lemma {:induction false} EmptyIdNeverWins(ws: map<Id, int>, total: int, t: Trace)
    requires FixedSet(ws) && SetTrace(ws, total, t)
    ensures Wins(t, NO_ID) == 0
  {
    if t.Then? {
      EmptyIdNeverWins(ws, total, t.earlier);
      assert |ws| == |ws.Keys|;
    }
  }

  /** After T rounds nobody has won more often than its weight, so everybody exactly as often. */
  lemma CycleCounts(ws: map<Id, int>, t: Trace, id: Id)
    requires FixedSet(ws) && NO_ID !in ws && SetTrace(ws, Sum(ws), t) && Rounds(t) == Sum(ws)
    requires id in ws
    ensures Wins(t, id) == ws[id] && On(ws, t.pool)[id] == 0
  {
    CycleBounds(ws, t);
    EqualSumsEqualMaps(Counts(ws, t), ws, id);
    ScoreAtCycle(ws, Sum(ws), t, id);
  }

  lemma ScoreAtCycle(ws: map<Id, int>, total: int, t: Trace, id: Id)
    requires SetTrace(ws, total, t) && id in ws && Rounds(t) == total && Wins(t, id) == ws[id]
    ensures On(ws, t.pool)[id] == 0
  {
    ClosedForm(ws, total, t, id);
    PaidInFull(Rounds(t), total, ws[id], Wins(t, id));
  }

  lemma PaidInFull(k: int, total: int, w: int, c: int)
    requires k == total && c == w
    ensures k * w - total * c == 0
  {
  }

  lemma CycleBounds(ws: map<Id, int>, t: Trace)
    requires FixedSet(ws) && NO_ID !in ws && SetTrace(ws, Sum(ws), t) && Rounds(t) == Sum(ws)
    ensures Sum(Counts(ws, t)) == Sum(ws)
    ensures forall j :: j in ws ==> Counts(ws, t)[j] <= ws[j]
  {
    TotalIsPositive(ws);
    TraceFloor(ws, t);
    TraceCounts(ws, Sum(ws), t);
    forall j | j in ws ensures Counts(ws, t)[j] <= ws[j] {
      NotAboveItsWeight(ws, Sum(ws), t, j);
    }
  }

  lemma NotAboveItsWeight(ws: map<Id, int>, total: int, t: Trace, id: Id)
    requires SetTrace(ws, total, t) && Rounds(t) == total && total > 0
    requires AboveFloor(ws, total, On(ws, t.pool)) && id in ws
    ensures Wins(t, id) <= ws[id]
  {
    ClosedForm(ws, total, t, id);
    AtMostItsWeight(total, ws[id], Wins(t, id), On(ws, t.pool)[id]);
  }

  lemma AtMostItsWeight(total: int, w: int, c: int, score: int)
    requires total > 0 && score == total * w - total * c && -total < score
    ensures c <= w
  {
    assert score == total * (w - c);
    if w - c <= -1 { Scale(total, w - c); }
  }

  lemma Scale(total: int, d: int)
    requires total > 0 && d <= -1
    ensures total * d <= -total
  {
  }

  /**
   Exact fairness. From all-zero scores, T picks choose every credential exactly as often as its
   weight, precisely when no credential has the empty identifier; and then every score is zero again.
   */
  lemma FullCycle(ws: map<Id, int>, t: Trace)
    requires FixedSet(ws) && FromZero(ws, t) && Rounds(t) == Sum(ws)
    ensures NO_ID !in ws <==> forall id :: id in ws ==> Wins(t, id) == ws[id]
    ensures NO_ID !in ws ==> AllZero(ws, t.pool)
  {
    Project(ws, t);
    if NO_ID !in ws {
      forall id | id in ws ensures Wins(t, id) == ws[id] && On(ws, t.pool)[id] == 0 {
        CycleCounts(ws, t, id);
      }
    } else {
      EmptyIdNeverWins(ws, Sum(ws), t);
    }
  }

  lemma SetStepIsDeterministic(ws: map<Id, int>, total: int, x: map<Id, int>, s: Id, y: map<Id, int>, t: Id,
          z: map<Id, int>)
    requires SetStep(ws, total, x, s, y) && SetStep(ws, total, x, t, z)
    ensures s == t && y == z
  {
    LessTotal(s.text, t.text);
  }

  lemma PeriodicStart(ws: map<Id, int>, a: Trace, b: Trace)
    requires FixedSet(ws) && NO_ID !in ws && a.Start?
    requires SetTrace(ws, Sum(ws), a) && SetTrace(ws, Sum(ws), b) && Rounds(b) == Sum(ws)
    ensures On(ws, a.pool) == On(ws, b.pool)
  {
    forall id | id in ws ensures On(ws, a.pool)[id] == On(ws, b.pool)[id] {
      CycleCounts(ws, b, id);
    }
  }

  lemma PeriodicStep(ws: map<Id, int>, total: int, a: Trace, b: Trace)
    requires a.Then? && b.Then? && SetTrace(ws, total, a) && SetTrace(ws, total, b)
    requires On(ws, a.earlier.pool) == On(ws, b.earlier.pool)
    ensures On(ws, a.pool) == On(ws, b.pool)
  {
    SetStepIsDeterministic(ws, total, On(ws, a.earlier.pool), a.pick, On(ws, a.pool), b.pick, On(ws, b.pool));
  }

  /** The scores repeat with period T. */
  lemma {:induction false} Periodic(ws: map<Id, int>, total: int, a: Trace, b: Trace)
    requires FixedSet(ws) && NO_ID !in ws && total == Sum(ws) > 0
    requires SetTrace(ws, total, a) && SetTrace(ws, total, b)
    requires Rounds(b) == Rounds(a) + total
    ensures On(ws, a.pool) == On(ws, b.pool)
  {
    if a.Start? {
      PeriodicStart(ws, a, b);
    } else {
      Periodic(ws, total, a.earlier, b.earlier);
      PeriodicStep(ws, total, a, b);
    }
  }

  lemma WindowOnSet(ws: map<Id, int>, total: int, a: Trace, b: Trace, id: Id)
    requires SetTrace(ws, total, a) && SetTrace(ws, total, b) && total > 0
    requires Rounds(b) == Rounds(a) + total && id in ws
    requires On(ws, a.pool)[id] == On(ws, b.pool)[id]
    ensures Wins(b, id) == Wins(a, id) + ws[id]
  {
    ClosedForm(ws, total, a, id);
    ClosedForm(ws, total, b, id);
    WindowCount(On(ws, a.pool)[id], Rounds(a), Rounds(b), total, ws[id], Wins(a, id), Wins(b, id));
  }

  /** Any T consecutive picks of a run are exactly fair, so no credential ever starves. */
  lemma AnyWindowIsFair(ws: map<Id, int>, a: Trace, b: Trace, id: Id)
    requires FixedSet(ws) && NO_ID !in ws && FromZero(ws, a) && FromZero(ws, b)
    requires Rounds(b) == Rounds(a) + Sum(ws) && id in ws
    ensures Wins(b, id) == Wins(a, id) + ws[id]
  {
    TotalIsPositive(ws);
    Project(ws, a);
    Project(ws, b);
    Periodic(ws, Sum(ws), a, b);
    WindowOnSet(ws, Sum(ws), a, b, id);
  }

  lemma WindowCount(score: int, k: int, l: int, total: int, w: int, c: int, d: int)
    requires total > 0 && l == k + total
    requires score == k * w - total * c && score == l * w - total * d
    ensures d == c + w
  {
    assert total * (w + c - d) == 0;
    if w + c - d <= -1 { Scale(total, w + c - d); }
    if d - c - w <= -1 { Scale(total, d - c - w); }
  }

  lemma Opposite(n: int, total: int)
    ensures n * (1 - total) == -(n * (total - 1))
  {
  }

  lemma FloorOfOthers(rest: map<Id, int>, n: nat, total: int)
    requires n == |rest| && forall j :: j in rest ==> -total < rest[j]
    ensures n * (1 - total) <= Sum(rest)
  {
    var floor := map j | j in rest :: 1 - total;
    assert floor.Keys == rest.Keys;
    assert |floor| == |floor.Keys| && |rest| == |rest.Keys|;
    SumMonotone(floor, rest);
    SumOfConstant(floor, n, 1 - total);
  }

  lemma ScoreCeiling(ws: map<Id, int>, total: int, y: map<Id, int>, id: Id)
    requires y.Keys == ws.Keys && Sum(y) == 0 && AboveFloor(ws, total, y) && id in ws
    ensures y[id] <= (|ws| - 1) * (total - 1)
  {
    SumPeel(y, id);
    assert |y.Keys| == |ws.Keys|;
    FloorOfOthers(y - {id}, |ws| - 1, total);
    Opposite(|ws| - 1, total);
  }

  /**
   The range of the scores between picks, and a bound on the weights under which the int64
   arithmetic of every pick of a run is exact.
   */
  lemma ScoresStayInRange(ws: map<Id, int>, total: int, limit: int, t: Trace)
    requires FixedSet(ws) && NO_ID !in ws && FromZero(ws, t)
    requires total == Sum(ws) && limit == (|ws| - 1) * (total - 1)
    ensures forall id :: id in ws ==> -total < Get(t.pool.current, id) <= limit
    ensures |ws| * total <= MAX_INT64 ==> Fits(t.pool, ws, ws)
  {
    forall id | id in ws ensures -total < Get(t.pool.current, id) <= limit {
      ScoreInRange(ws, total, limit, t, id);
    }
    if |ws| * total <= MAX_INT64 { PickFits(ws, total, t); }
  }

  lemma ScoreOnSet(ws: map<Id, int>, total: int, limit: int, t: Trace, id: Id)
    requires FixedSet(ws) && NO_ID !in ws && SetTrace(ws, total, t) && id in ws
    requires total == Sum(ws) && limit == (|ws| - 1) * (total - 1)
    ensures -total < On(ws, t.pool)[id] <= limit
  {
    TraceFloor(ws, t);
    TraceBalance(ws, t);
    ScoreCeiling(ws, total, On(ws, t.pool), id);
  }

  lemma ScoreInRange(ws: map<Id, int>, total: int, limit: int, t: Trace, id: Id)
    requires FixedSet(ws) && NO_ID !in ws && FromZero(ws, t) && id in ws
    requires total == Sum(ws) && limit == (|ws| - 1) * (total - 1)
    ensures -total < Get(t.pool.current, id) <= limit
  {
    Project(ws, t);
    ScoreOnSet(ws, total, limit, t, id);
  }

  lemma MemberFits(ws: map<Id, int>, total: int, t: Trace, id: Id)
    requires FixedSet(ws) && NO_ID !in ws && FromZero(ws, t) && id in ws
    requires total == Sum(ws) && |ws| * total <= MAX_INT64
    ensures total <= MAX_INT64 && MIN_INT64 <= Get(t.pool.current, id)
    ensures Get(t.pool.current, id) + ws[id] <= MAX_INT64
    ensures MIN_INT64 <= Get(t.pool.current, id) + ws[id] - total <= MAX_INT64
  {
    var limit := (|ws| - 1) * (total - 1);
    ScoreInRange(ws, total, limit, t, id);
    WeightWithinTotal(ws, id);
    RangeArithmetic(|ws|, total, limit, ws[id], Get(t.pool.current, id));
  }

  lemma PickFits(ws: map<Id, int>, total: int, t: Trace)
    requires FixedSet(ws) && NO_ID !in ws && FromZero(ws, t)
    requires total == Sum(ws) && |ws| * total <= MAX_INT64
    ensures Fits(t.pool, ws, ws)
  {
    Project(ws, t);
    BaseOnSet(ws, t.pool);
    forall id | id in ws
      ensures total <= MAX_INT64 && MIN_INT64 <= Get(t.pool.current, id)
      ensures Get(t.pool.current, id) + ws[id] <= MAX_INT64
      ensures MIN_INT64 <= Get(t.pool.current, id) + ws[id] - total <= MAX_INT64
    {
      MemberFits(ws, total, t, id);
    }
    var id :| id in ws;
    assert ws[id] > 0;
  }

  lemma WeightWithinTotal(ws: map<Id, int>, id: Id)
    requires FixedSet(ws) && id in ws
    ensures ws[id] <= Sum(ws)
  {
    SumPeel(ws, id);
    var rest := ws - {id};
    var zeros := map j | j in rest :: 0;
    SumMonotone(zeros, rest);
    SumOfZeros(zeros);
  }

  lemma RangeArithmetic(n: int, total: int, limit: int, w: int, score: int)
    requires n >= 2 && 0 < w <= total && n * total <= MAX_INT64
    requires limit == (n - 1) * (total - 1) && -total < score <= limit
    ensures total <= MAX_INT64 && MIN_INT64 <= score && score + w <= MAX_INT64 && MIN_INT64 <= score + w - total
  {
    assert limit == n * total - n - total + 1;
    assert 2 * total <= n * total;
  }

  // ---------------------------------------------------------------------------------------
  // Histories exist
  // ---------------------------------------------------------------------------------------

  lemma BetterOfTwo(scores: map<Id, int>, ids: set<Id>, a: Id, b: Id) returns (w: Id)
    requires a !in ids && Best(scores, ids, b)
    ensures Best(scores, ids + {a}, w)
  {
    if a == NO_ID || (b != NO_ID && Beats(scores, b, a)) {
      w := b;
      BeatsItself(scores, a);
    } else {
      w := a;
      BeatsItself(scores, a);
      if b != NO_ID { BeatsAll(scores, ids, a, b); }
    }
  }

  lemma BeatsItself(scores: map<Id, int>, a: Id)
    ensures Beats(scores, a, a)
  {
    LessIrreflexive(a.text);
  }

  /** Who is not beaten by the best beats everybody the best beats. */
  lemma BeatsAll(scores: map<Id, int>, ids: set<Id>, a: Id, b: Id)
    requires Best(scores, ids, b) && b != NO_ID && !Beats(scores, b, a)
    ensures forall id :: id in ids && id != NO_ID ==> Beats(scores, a, id)
  {
    forall id | id in ids && id != NO_ID ensures Beats(scores, a, id) {
      assert Beats(scores, b, id);
      if Get(scores, id) == Get(scores, b) == Get(scores, a) && Before(id, a) {
        LessTransitive(id.text, a.text, b.text);
      }
    }
  }

  lemma {:induction false} BestExists(scores: map<Id, int>, ids: set<Id>) returns (w: Id)
    requires ids != {}
    ensures Best(scores, ids, w)
    decreases |ids|
  {
    var a :| a in ids;
    if ids == {a} {
      BeatsItself(scores, a);
      w := a;
    } else {
      var b := BestExists(scores, ids - {a});
      w := BetterOfTwo(scores, ids - {a}, a, b);
      assert ids - {a} + {a} == ids;
    }
  }

  /** A set can be offered any number of times: histories of every length exist. */
  lemma {:induction false} TraceExists(ws: map<Id, int>, n: nat) returns (t: Trace)
    requires FixedSet(ws)
    ensures FromZero(ws, t) && Rounds(t) == n
  {
    if n == 0 {
      t := Start(EMPTY_POOL);
    } else {
      var earlier := TraceExists(ws, n - 1);
      var base := Base(earlier.pool, ws);
      var scores := Plus(base.current, ws);
      assert |ws.Keys| == |ws|;
      var s := BestExists(scores, ws.Keys);
      t := Then(earlier, s, Pool(scores[s := Get(scores, s) - Sum(ws)], base.weights));
    }
  }

  /** Two credentials of equal weight, one without an identifier: it is not chosen in a full cycle. */
  lemma EmptyIdStarves() returns (ws: map<Id, int>, t: Trace)
    ensures ws == map[NO_ID := 1, Id("a") := 1] && FixedSet(ws)
    ensures FromZero(ws, t) && Rounds(t) == Sum(ws) == 2 && Wins(t, NO_ID) == 0
  {
    ws := map[NO_ID := 1, Id("a") := 1];
    assert |ws| == 2;
    SumOfConstant(ws, 2, 1);
    t := TraceExists(ws, 2);
    Project(ws, t);
    EmptyIdNeverWins(ws, Sum(ws), t);
  }

  // ---------------------------------------------------------------------------------------
  // Real candidate lists
  // ---------------------------------------------------------------------------------------

  /** A history of picks among candidate lists, each keeping what a pick promises. */
  datatype Serving = Fresh(pool: Pool) | Served(earlier: Serving, offer: seq<Candidate>, pick: Id, pool: Pool)

  /** The list offers exactly the set, each identifier once, in any order and beside unusable candidates. */
  ghost predicate Offers(ws: map<Id, int>, cs: seq<Candidate>) {
    Distinct(PositiveIds(cs)) && WeightsOf(cs) == ws
  }

  ghost predicate ServesSet(ws: map<Id, int>, s: Serving) {
    match s
    case Fresh(pool) => AllZero(ws, pool)
    case Served(earlier, offer, pick, pool) =>
      ServesSet(ws, earlier) && Offers(ws, offer) && Promised(earlier.pool, offer, pick, pool)
  }

  function TraceOf(s: Serving): Trace {
    match s
    case Fresh(pool) => Start(pool)
    case Served(earlier, _, pick, pool) => Then(TraceOf(earlier), pick, pool)
  }

  lemma PoolOfTrace(s: Serving)
    ensures TraceOf(s).pool == s.pool
  {
  }

  lemma OfferIsPick(ws: map<Id, int>, before: Pool, cs: seq<Candidate>, id: Id, after: Pool)
    requires Offers(ws, cs) && Promised(before, cs, id, after) && Fits(before, ws, ws)
    ensures OfferAll(ws, before, id, after)
  {
    DistinctGains(cs);
  }

  /** While n*T fits int64, every sum of the history fits, so it is a history of the fixed set. */
  lemma {:induction false} ServingIsTrace(ws: map<Id, int>, total: int, s: Serving)
    requires FixedSet(ws) && NO_ID !in ws && total == Sum(ws) && |ws| * total <= MAX_INT64 && ServesSet(ws, s)
    ensures FromZero(ws, TraceOf(s))
  {
    if s.Served? {
      ServingIsTrace(ws, total, s.earlier);
      PoolOfTrace(s.earlier);
      PickFits(ws, total, TraceOf(s.earlier));
      OfferIsPick(ws, s.earlier.pool, s.offer, s.pick, s.pool);
    }
  }

  /**
   What callers of the scheduler get: while the same distinct credentials are offered, in whatever
   order, and n*T fits int64, any T consecutive picks choose each exactly as often as its weight.
   */
  lemma RealListsAreFair(ws: map<Id, int>, total: int, a: Serving, b: Serving, id: Id)
    requires FixedSet(ws) && NO_ID !in ws && total == Sum(ws) && |ws| * total <= MAX_INT64 && id in ws
    requires ServesSet(ws, a) && ServesSet(ws, b) && Rounds(TraceOf(b)) == Rounds(TraceOf(a)) + total
    ensures Wins(TraceOf(b), id) == Wins(TraceOf(a), id) + ws[id]
  {
    ServingIsTrace(ws, total, a);
    ServingIsTrace(ws, total, b);
    AnyWindowIsFair(ws, TraceOf(a), TraceOf(b), id);
  }

  /** And the first T picks return every score to zero. */
  lemma RealCycleReturnsToZero(ws: map<Id, int>, total: int, s: Serving)
    requires FixedSet(ws) && NO_ID !in ws && total == Sum(ws) && |ws| * total <= MAX_INT64
    requires ServesSet(ws, s) && Rounds(TraceOf(s)) == total
    ensures AllZero(ws, s.pool)
  {
    ServingIsTrace(ws, total, s);
    FullCycle(ws, TraceOf(s));
    PoolOfTrace(s);
  }
}
