/**
 Binding periods: which billing mode and plan hold for a key at an instant.

 Business days are those of UTC+8. A schedule takes effect at the next business midnight; the past is
 never rewritten.
 */
module GroupBindings {
  import opened Options
  import opened Text
  import opened Quota

  const DAY: int := 86_400 * SECOND
  const UTC_OFFSET: int := 8 * 3_600 * SECOND

  /** The number of the business day. */
  function GroupDate(at: int): int {
    (at + UTC_OFFSET) / DAY
  }

  function NextGroupDay(at: int): (next: int)
    ensures at < next && Aligned(next)
    ensures GroupDate(next) == GroupDate(at) + 1
  {
    (GroupDate(at) + 1) * DAY - UTC_OFFSET
  }

  predicate Aligned(t: int) {
    (t + UTC_OFFSET) % DAY == 0
  }

  /** A business day is the 24 hours from its midnight in UTC+8, counted from 1970. */
  lemma DayIs(t: int, d: int)
    ensures GroupDate(t) == d <==>
              d * 86_400_000_000_000 - 28_800_000_000_000 <= t < (d + 1) * 86_400_000_000_000 - 28_800_000_000_000
    ensures NextGroupDay(t) == (GroupDate(t) + 1) * 86_400_000_000_000 - 28_800_000_000_000
  {
    var n := t + UTC_OFFSET;
    assert n == DAY * (n / DAY) + n % DAY;
    if d * DAY <= n < (d + 1) * DAY { EuclideanUnique(n, DAY, d, n - d * DAY); }
  }

  /** There is no business midnight strictly between an instant and the next one. */
  lemma NoMidnightBetween(at: int, t: int)
    requires Aligned(t) && at < t
    ensures NextGroupDay(at) <= t
  {
  }

  lemma NextGroupDayMonotone(s: int, t: int)
    requires s <= t
    ensures NextGroupDay(s) <= NextGroupDay(t)
  {
  }

  datatype Mode = Legacy | Grouped

  datatype Period = Period(mode: Mode, planId: Option<Name>, from: int, to: Option<int>)

  predicate Covers(p: Period, at: int) {
    p.from <= at && (p.to.None? || at < p.to.value)
  }

  /** The first period that covers the instant. */
  function BindingAt(periods: seq<Period>, at: int): Option<Period> {
    if periods == [] then None
    else if Covers(periods[0], at) then Some(periods[0])
    else BindingAt(periods[1..], at)
  }

  /** Ascending, contiguous, aligned; only the last is open, and only the last may be pending. */
  ghost predicate Chain(periods: seq<Period>, clock: int) {
    && (forall i :: 0 <= i < |periods| ==> Aligned(periods[i].from))
    && (forall i :: 0 <= i < |periods| ==> (periods[i].mode == Grouped <==> periods[i].planId.Some?))
    && (forall i :: 0 <= i < |periods| - 1 ==> periods[i].from <= clock)
    && (forall i :: 0 <= i < |periods| - 1 ==> periods[i].to == Some(periods[i + 1].from))
    && (forall i, j :: 0 <= i < j < |periods| ==> periods[i].from < periods[j].from)
    && (periods != [] ==> periods[|periods| - 1].to == None && periods[|periods| - 1].from <= NextGroupDay(clock))
  }

  /** Time passing does not disturb a chain. */
  lemma ChainAges(periods: seq<Period>, clock: int, now: int)
    requires Chain(periods, clock) && clock <= now
    ensures Chain(periods, now)
  {
    NextGroupDayMonotone(clock, now);
  }

  function Clipped(p: Period, boundary: int): Period {
    if p.to.None? || p.to.value > boundary then p.(to := Some(boundary)) else p
  }

  /** The started periods, cut off at the boundary. */
  function Started(periods: seq<Period>, now: int, boundary: int): seq<Period> {
    if periods == [] then [] else
      var front, last := Started(periods[..|periods| - 1], now, boundary), periods[|periods| - 1];
      if last.from > now then front else front + [Clipped(last, boundary)]
  }

  function Rescheduled(periods: seq<Period>, now: int, mode: Mode, planId: Option<Name>): seq<Period> {
    Started(periods, now, NextGroupDay(now)) + [Period(mode, planId, NextGroupDay(now), None)]
  }

  /** Periods that started and end in time are kept as they are. */
  lemma {:induction false} StartedKeeps(periods: seq<Period>, now: int, boundary: int)
    requires forall i :: 0 <= i < |periods| ==>
            periods[i].from <= now && periods[i].to.Some? && periods[i].to.value <= boundary
    ensures Started(periods, now, boundary) == periods
  {
    if periods != [] { StartedKeeps(periods[..|periods| - 1], now, boundary); }
  }

  /** A chain loses at most its pending period; the running one is closed at the boundary. */
  lemma StartedOfChain(periods: seq<Period>, clock: int, now: int)
    requires Chain(periods, clock) && clock <= now && periods != []
    ensures var n, boundary := |periods| - 1, NextGroupDay(now);
            Started(periods, now, boundary) ==
              if periods[n].from <= now then periods[..n] + [periods[n].(to := Some(boundary))] else periods[..n]
    ensures var n := |periods| - 1;
            periods[n].from > now ==> periods[n].from == NextGroupDay(now)
  {
    var n, boundary := |periods| - 1, NextGroupDay(now);
    NextGroupDayMonotone(clock, now);
    if periods[n].from > now { NoMidnightBetween(now, periods[n].from); }
    forall i | 0 <= i < n ensures periods[i].to.Some? && periods[i].to.value <= boundary {
      assert periods[i].to == Some(periods[i + 1].from);
    }
    StartedKeeps(periods[..n], now, boundary);
  }

  lemma RescheduledChain(periods: seq<Period>, clock: int, now: int, mode: Mode, planId: Option<Name>)
    requires Chain(periods, clock) && clock <= now && (mode == Grouped <==> planId.Some?)
    ensures Chain(Rescheduled(periods, now, mode, planId), now)
  {
    if periods != [] { StartedOfChain(periods, clock, now); }
  }

  lemma {:induction false} BindingAtAppend(front: seq<Period>, p: Period, at: int)
    ensures BindingAt(front + [p], at) ==
              if BindingAt(front, at).Some? then BindingAt(front, at) else if Covers(p, at) then Some(p) else None
  {
    if front == [] {
      assert front + [p] == [p];
    } else {
      assert (front + [p])[1..] == front[1..] + [p];
      BindingAtAppend(front[1..], p, at);
    }
  }

  lemma {:induction false} NoneCovers(periods: seq<Period>, at: int)
    requires forall i :: 0 <= i < |periods| ==> !Covers(periods[i], at)
    ensures BindingAt(periods, at) == None
  {
    if periods != [] { NoneCovers(periods[1..], at); }
  }

  lemma {:induction false} StartedEnds(periods: seq<Period>, now: int, boundary: int)
    ensures forall p :: p in Started(periods, now, boundary) ==> p.to.Some? && p.to.value <= boundary
  {
    if periods != [] { StartedEnds(periods[..|periods| - 1], now, boundary); }
  }

  /** The same binding, apart from how long it will last. */
  predicate SameBinding(a: Option<Period>, b: Option<Period>) {
    match (a, b)
    case (Some(p), Some(q)) => p.mode == q.mode && p.planId == q.planId && p.from == q.from
    case (None, None) => true
    case _ => false
  }

  /**
   A reschedule leaves the binding of every instant before the next midnight as it was, and makes
   the new mode and plan hold at every instant from it on.
   */
  lemma RescheduleIsExact(periods: seq<Period>, clock: int, now: int, mode: Mode, planId: Option<Name>, at: int)
    requires Chain(periods, clock) && clock <= now
    ensures var after, boundary := BindingAt(Rescheduled(periods, now, mode, planId), at), NextGroupDay(now);
            if at < boundary then SameBinding(after, BindingAt(periods, at))
            else after == Some(Period(mode, planId, boundary, None))
  {
    var boundary := NextGroupDay(now);
    var started, p := Started(periods, now, boundary), Period(mode, planId, boundary, None);
    BindingAtAppend(started, p, at);
    StartedEnds(periods, now, boundary);
    if at >= boundary {
      forall i | 0 <= i < |started| ensures !Covers(started[i], at) { assert started[i] in started; }
      NoneCovers(started, at);
    } else if periods != [] {
      var n := |periods| - 1;
      StartedOfChain(periods, clock, now);
      assert periods == periods[..n] + [periods[n]];
      BindingAtAppend(periods[..n], periods[n], at);
      if periods[n].from <= now { BindingAtAppend(periods[..n], periods[n].(to := Some(boundary)), at); }
    }
  }

  /** Adjacent periods never overlap: at most one covers an instant. */
  lemma CoverIsUnique(periods: seq<Period>, clock: int, i: nat, at: int)
    requires Chain(periods, clock) && i < |periods| && Covers(periods[i], at)
    ensures BindingAt(periods, at) == Some(periods[i])
    ensures forall j :: 0 <= j < |periods| && Covers(periods[j], at) ==> j == i
  {
    forall j | 0 <= j < |periods| && j != i ensures !Covers(periods[j], at) {
      if j < i { assert periods[j].to == Some(periods[j + 1].from) && periods[j + 1].from <= periods[i].from; }
      if j > i { assert periods[i].to == Some(periods[i + 1].from) && periods[i + 1].from <= periods[j].from; }
    }
    assert periods == periods[..i] + ([periods[i]] + periods[i + 1..]);
    FirstCover(periods, i, at);
  }

  lemma {:induction false} FirstCover(periods: seq<Period>, i: nat, at: int)
    requires i < |periods| && Covers(periods[i], at)
    requires forall j :: 0 <= j < i ==> !Covers(periods[j], at)
    ensures BindingAt(periods, at) == Some(periods[i])
  {
    if i > 0 { FirstCover(periods[1..], i - 1, at); }
  }

  /** Bindings change at business midnights only. */
  lemma CoverIsDaily(p: Period, a: int, b: int)
    requires Aligned(p.from) && (p.to.Some? ==> Aligned(p.to.value)) && GroupDate(a) == GroupDate(b)
    ensures Covers(p, a) <==> Covers(p, b)
  {
  }

  lemma {:induction false} BindingIsDaily(periods: seq<Period>, a: int, b: int)
    requires forall i :: 0 <= i < |periods| ==>
            Aligned(periods[i].from) && (periods[i].to.Some? ==> Aligned(periods[i].to.value))
    requires GroupDate(a) == GroupDate(b)
    ensures BindingAt(periods, a) == BindingAt(periods, b)
  {
    if periods != [] {
      CoverIsDaily(periods[0], a, b);
      BindingIsDaily(periods[1..], a, b);
    }
  }

  lemma ChainBindingIsDaily(periods: seq<Period>, clock: int, a: int, b: int)
    requires Chain(periods, clock) && GroupDate(a) == GroupDate(b)
    ensures BindingAt(periods, a) == BindingAt(periods, b)
  {
    forall i | 0 <= i < |periods| ensures periods[i].to.Some? ==> Aligned(periods[i].to.value) {
      assert i < |periods| - 1 ==> periods[i].to == Some(periods[i + 1].from);
    }
    BindingIsDaily(periods, a, b);
  }

  /** Without a pending period the binding in force stays in force. */
  lemma BindingStays(periods: seq<Period>, clock: int, now: int, t: int)
    requires Chain(periods, clock) && now <= t && BindingAt(periods, now).Some?
    requires forall p :: p in periods ==> p.from <= now
    ensures BindingAt(periods, t) == BindingAt(periods, now)
  {
    if periods == [] {
    } else {
      var n := |periods| - 1;
      assert periods[n] in periods;
      CoverIsUnique(periods, clock, n, now);
      CoverIsUnique(periods, clock, n, t);
    }
  }

  // ---------------------------------------------------------------------------------------
  // The loops
  // ---------------------------------------------------------------------------------------

  method FindBinding(periods: seq<Period>, at: int) returns (found: Option<Period>, grouped: bool)
    ensures found == BindingAt(periods, at)
    ensures grouped <==> found.Some? && found.value.mode == Grouped
  {
    var i := 0;
    while i < |periods|
      invariant 0 <= i <= |periods|
      invariant forall j :: 0 <= j < i ==> !Covers(periods[j], at)
    {
      if Covers(periods[i], at) {
        FirstCover(periods, i, at);
        return Some(periods[i]), periods[i].mode == Grouped;
      }
      i := i + 1;
    }
    NoneCovers(periods, at);
    return None, false;
  }

  method Reschedule(periods: seq<Period>, now: int, mode: Mode, planId: Option<Name>) returns (result: seq<Period>)
    ensures result == Rescheduled(periods, now, mode, planId)
  {
    var boundary := NextGroupDay(now);
    result := [];
    var i := 0;
    while i < |periods|
      invariant 0 <= i <= |periods|
      invariant result == Started(periods[..i], now, boundary)
    {
      assert periods[..i + 1][..i] == periods[..i];
      var p := periods[i];
      i := i + 1;
      if p.from > now { continue; }
      if p.to.None? || p.to.value > boundary { p := p.(to := Some(boundary)); }
      result := result + [p];
    }
    assert periods[..i] == periods;
    result := result + [Period(mode, planId, boundary, None)];
  }

  /** What management shows: the running period and the pending one. */
  method BindingView(periods: seq<Period>, now: int, ghost clock: int)
    returns (active: Option<Period>, pending: Option<Period>)
    ensures if active.Some? then active.value in periods && Covers(active.value, now)
            else forall p :: p in periods ==> !Covers(p, now)
    ensures if pending.Some? then pending.value in periods && pending.value.from > now
            else forall p :: p in periods ==> p.from <= now
    ensures Chain(periods, clock) && clock <= now ==> active == BindingAt(periods, now)
    ensures Chain(periods, clock) && clock <= now && pending.Some? ==>
              pending.value == periods[|periods| - 1] && pending.value.from == NextGroupDay(now)
  {
    active, pending := None, None;
    var i := 0;
    while i < |periods|
      invariant 0 <= i <= |periods|
      invariant if active.Some? then active.value in periods[..i] && Covers(active.value, now)
                else forall p :: p in periods[..i] ==> !Covers(p, now)
      invariant if pending.Some? then pending.value in periods[..i] && pending.value.from > now
                else forall p :: p in periods[..i] ==> p.from <= now
    {
      var p := periods[i];
      assert periods[..i + 1] == periods[..i] + [p];
      if now < p.from {
        pending := Some(p);
      } else if p.to.None? || now < p.to.value {
        active := Some(p);
      }
      i := i + 1;
    }
    assert periods[..i] == periods;
    ViewOfChain(periods, now, clock, active, pending);
  }

  lemma ViewOfChain(periods: seq<Period>, now: int, clock: int, active: Option<Period>, pending: Option<Period>)
    requires if active.Some? then active.value in periods && Covers(active.value, now)
             else forall p :: p in periods ==> !Covers(p, now)
    requires pending.Some? ==> pending.value in periods && pending.value.from > now
    ensures Chain(periods, clock) && clock <= now ==> active == BindingAt(periods, now)
    ensures Chain(periods, clock) && clock <= now && pending.Some? ==>
              pending.value == periods[|periods| - 1] && pending.value.from == NextGroupDay(now)
  {
    if Chain(periods, clock) && clock <= now {
      if active.Some? {
        var i :| 0 <= i < |periods| && periods[i] == active.value;
        CoverIsUnique(periods, clock, i, now);
      } else {
        NoneCovers(periods, now);
      }
      if periods != [] { StartedOfChain(periods, clock, now); }
    }
  }
}
