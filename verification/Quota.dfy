/**
 Quota windows and cycles.

 Times are integer nanoseconds since the Unix epoch; Go's zero time is a distinguished instant far
 before it, so comparisons with an unset time behave as they do in the engine.
 */
module Quota {
  import opened Text

  const SECOND: int := 1_000_000_000
  const ZERO_TIME: int := -62_135_596_800 * SECOND
  const MAX_PERIOD_SECONDS: int := 9_223_372_036
  const MAX_NAME_BYTES: nat := 128
  const MAX_QUOTA_COUNT: int := 0x1f_ffff_ffff_ffff
  const YEAR_10000: int := 253_402_300_800 * SECOND

  predicate IsZero(t: int) {
    t == ZERO_TIME
  }

  function Unix(t: int): int {
    t / SECOND
  }

  /** Go's remainder takes the sign of the dividend. */
  function GoRemainder(a: int, m: int): int
    requires m > 0
  {
    if a >= 0 then a % m else -((-a) % m)
  }

  /** What a window is called: the bytes of its trimmed name, and the name in lower case. */
  datatype Title = Title(bytes: string, lower: string)

  /** Zero disables a dimension; an unset anchor lets the first admission start the cycle. */
  datatype Window = Window(
    id: Name, title: Title, period: int, amount: real, tokens: int, requests: int, anchor: int)

  datatype Plan = Plan(id: Name, windows: seq<Window>)

  datatype Cycle = Cycle(
    planId: Name, startAt: int, endAt: int, usageSince: int, spent: real, usedTokens: int, usedRequests: int)

  datatype Usage = Usage(amount: real, tokens: int, requests: int)

  const NO_CYCLE := Cycle(NO_NAME, ZERO_TIME, ZERO_TIME, ZERO_TIME, 0.0, 0, 0)

  // ---------------------------------------------------------------------------------------
  // Intervals
  // ---------------------------------------------------------------------------------------

  function NewCycle(w: Window, planId: Name, now: int): Cycle
    requires w.period > 0
  {
    var start, since :=
      if IsZero(w.anchor) then now else
        var r := GoRemainder(Unix(now) - Unix(w.anchor), w.period);
        (Unix(now) - if r < 0 then r + w.period else r) * SECOND,
      if IsZero(w.anchor) then ZERO_TIME else now;
    Cycle(planId, start, start + w.period * SECOND, since, 0.0, 0, 0)
  }

  ghost predicate Anchored(w: Window) {
    w.period > 0 && !IsZero(w.anchor)
  }

  /** The corrected remainder is the Euclidean one, before the anchor as well as after it. */
  lemma CorrectedRemainder(a: int, m: int)
    requires m > 0
    ensures (if GoRemainder(a, m) < 0 then GoRemainder(a, m) + m else GoRemainder(a, m)) == a % m
  {
    if a < 0 {
      var q, r := (-a) / m, (-a) % m;
      assert a == m * (-q) - r;
      if r == 0 { EuclideanUnique(a, m, -q, 0); } else {
        assert m * (-q - 1) == m * (-q) - m;
        EuclideanUnique(a, m, -q - 1, m - r);
      }
    }
  }

  lemma EuclideanUnique(a: int, m: int, q: int, r: int)
    requires m > 0 && a == m * q + r && 0 <= r < m
    ensures a / m == q && a % m == r
  {
    var d := a / m - q;
    assert a == m * (a / m) + a % m;
    assert m * d == r - a % m;
    if d >= 1 { AtLeastOnce(m, d); }
    if d <= -1 { AtLeastOnce(m, -d); }
  }

  lemma AtLeastOnce(m: int, d: int)
    requires m > 0 && d >= 1
    ensures m * d >= m
  {
  }

  /** The start of the interval in seconds. */
  lemma AnchoredStart(w: Window, planId: Name, now: int)
    requires Anchored(w)
    ensures NewCycle(w, planId, now).startAt == (Unix(now) - (Unix(now) - Unix(w.anchor)) % w.period) * SECOND
  {
    CorrectedRemainder(Unix(now) - Unix(w.anchor), w.period);
  }

  /** The interval contains the instant it was computed for and is aligned with the anchor. */
  lemma IntervalContainsNow(w: Window, planId: Name, now: int)
    requires Anchored(w)
    ensures var c := NewCycle(w, planId, now);
            && c.startAt <= now < c.endAt
            && c.endAt == c.startAt + w.period * SECOND
            && c.startAt % SECOND == 0
            && (Unix(c.startAt) - Unix(w.anchor)) % w.period == 0
            && c.startAt <= c.usageSince == now < c.endAt
  {
    AnchoredStart(w, planId, now);
    var a := Unix(now) - Unix(w.anchor);
    var r := a % w.period;
    assert Unix((Unix(now) - r) * SECOND) == Unix(now) - r;
    assert a - r == w.period * (a / w.period);
    EuclideanUnique(a - r, w.period, a / w.period, 0);
  }

  /**
   The intervals partition the timeline: an instant belongs to the interval of `now` exactly when
   it has the same interval.
   */
  lemma IntervalsPartition(w: Window, planId: Name, now: int, t: int)
    requires Anchored(w)
    ensures var c, d := NewCycle(w, planId, now), NewCycle(w, planId, t);
            && (c.startAt <= t < c.endAt <==> d.startAt == c.startAt)
            && (d.startAt == c.startAt <==> d.endAt == c.endAt)
            && (d.startAt != c.startAt ==> d.endAt <= c.startAt || c.endAt <= d.startAt)
  {
    AnchoredStart(w, planId, now);
    AnchoredStart(w, planId, t);
    IntervalContainsNow(w, planId, now);
    IntervalContainsNow(w, planId, t);
    var a, b := Unix(now) - Unix(w.anchor), Unix(t) - Unix(w.anchor);
    SameBlock(a, b, w.period);
  }

  lemma SameBlock(a: int, b: int, m: int)
    requires m > 0
    ensures a - a % m <= b < a - a % m + m <==> b - b % m == a - a % m
    ensures b - b % m != a - a % m ==> b - b % m + m <= a - a % m || a - a % m + m <= b - b % m
  {
    var p, q := a / m, b / m;
    assert a - a % m == m * p && b - b % m == m * q;
    if q >= p + 1 { assert m * q >= m * (p + 1) == m * p + m; }
    if p >= q + 1 { assert m * p >= m * (q + 1) == m * q + m; }
  }

  function SameSchedule(w: Window, other: Window): bool {
    && w.period == other.period && IsZero(w.anchor) == IsZero(other.anchor)
    && (w.anchor == other.anchor
        || (w.period > 0 && w.anchor % SECOND == other.anchor % SECOND
            && GoRemainder(Unix(w.anchor) - Unix(other.anchor), w.period) == 0))
  }

  lemma RemainderZero(a: int, m: int)
    requires m > 0
    ensures GoRemainder(a, m) == 0 <==> a % m == 0
    ensures GoRemainder(-a, m) == 0 <==> GoRemainder(a, m) == 0
  {
    CorrectedRemainder(a, m);
  }

  /** Congruent anchors give the same blocks. */
  lemma ShiftedBlocks(n: int, a: int, b: int, m: int)
    requires m > 0 && (a - b) % m == 0
    ensures (n - a) % m == (n - b) % m
  {
    var q, r := (n - a) / m, (n - a) % m;
    var k := (a - b) / m;
    assert a - b == m * k;
    assert n - b == m * q + r + m * k == m * (q + k) + r;
    EuclideanUnique(n - b, m, q + k, r);
  }

  ghost predicate SameIntervals(w: Window, other: Window)
    requires w.period > 0 && other.period > 0
  {
    forall now: int ::
      NewCycle(w, NO_NAME, now).startAt == NewCycle(other, NO_NAME, now).startAt &&
      NewCycle(w, NO_NAME, now).endAt == NewCycle(other, NO_NAME, now).endAt
  }

  ghost predicate ValidAnchor(w: Window) {
    Anchored(w) && w.anchor % SECOND == 0
  }

  /** Two windows count as the same schedule exactly when they never disagree about an interval. */
  lemma SameScheduleIff(w: Window, other: Window)
    requires ValidAnchor(w) && ValidAnchor(other)
    ensures SameSchedule(w, other) <==> SameIntervals(w, other)
  {
    if SameSchedule(w, other) {
      forall now: int
        ensures NewCycle(w, NO_NAME, now).startAt == NewCycle(other, NO_NAME, now).startAt
        ensures NewCycle(w, NO_NAME, now).endAt == NewCycle(other, NO_NAME, now).endAt
      {
        SameStart(w, other, NO_NAME, now);
      }
    }
    if SameIntervals(w, other) {
      var now := other.anchor;
      assert NewCycle(w, NO_NAME, now).startAt == NewCycle(other, NO_NAME, now).startAt;
      assert NewCycle(w, NO_NAME, now).endAt == NewCycle(other, NO_NAME, now).endAt;
      SamePeriod(w, other, NewCycle(w, NO_NAME, now).startAt);
      AnchoredStart(w, NO_NAME, now);
      AnchoredStart(other, NO_NAME, now);
      assert (Unix(now) - Unix(other.anchor)) % other.period == 0;
      assert (Unix(other.anchor) - Unix(w.anchor)) % w.period == 0;
      RemainderZero(Unix(other.anchor) - Unix(w.anchor), w.period);
    }
  }

  lemma SamePeriod(w: Window, other: Window, start: int)
    requires start + w.period * SECOND == start + other.period * SECOND
    ensures w.period == other.period
  {
  }

  lemma SameStart(w: Window, other: Window, planId: Name, now: int)
    requires SameSchedule(w, other) && w.period > 0
    ensures NewCycle(w, planId, now).startAt == NewCycle(other, planId, now).startAt
  {
    if Anchored(w) && w.anchor != other.anchor {
      RemainderZero(Unix(w.anchor) - Unix(other.anchor), w.period);
      ShiftedBlocks(Unix(now), Unix(w.anchor), Unix(other.anchor), w.period);
      AnchoredStart(w, planId, now);
      AnchoredStart(other, planId, now);
    }
  }
}
