/** The life of one key's quota cycles: settle, view, activate, charge, validate. */
module Cycles {
  import opened Numbers
  import opened Options
  import opened Text
  import opened Quota

  /** The fields of a key that quota accounting reads and writes. */
  datatype Key = Key(planId: Name, cycles: map<Name, Cycle>)

  const UNBOUND := Key(NO_NAME, map[])

  // ---------------------------------------------------------------------------------------
  // Plans
  // ---------------------------------------------------------------------------------------

  predicate ValidWindow(w: Window) {
    && w.id != NO_NAME && 0 < |w.title.bytes| <= MAX_NAME_BYTES
    && w.amount >= 0.0 && 0 <= w.tokens <= MAX_QUOTA_COUNT && 0 <= w.requests <= MAX_QUOTA_COUNT
    && !(w.amount == 0.0 && w.tokens == 0 && w.requests == 0)
    && 0 < w.period <= MAX_PERIOD_SECONDS
    && (!IsZero(w.anchor) ==> 0 <= w.anchor < YEAR_10000 && w.anchor % SECOND == 0)
  }

  /** Two windows of a plan share neither identifier, name nor period. */
  predicate Differ(v: Window, w: Window) {
    v.id != w.id && v.title.lower != w.title.lower && v.period != w.period
  }

  predicate ValidPlan(p: Plan) {
    && p.id != NO_NAME && p.windows != []
    && (forall i :: 0 <= i < |p.windows| ==> ValidWindow(p.windows[i]))
    && (forall i :: 0 <= i < |p.windows| ==> IsZero(p.windows[i].anchor) == IsZero(p.windows[0].anchor))
    && (forall i, j :: 0 <= i < j < |p.windows| ==> Differ(p.windows[i], p.windows[j]))
  }

  function WindowAt(ws: seq<Window>, id: Name): (w: Option<Window>)
    ensures w.Some? ==> w.value in ws && w.value.id == id
    ensures w.None? ==> forall v :: v in ws ==> v.id != id
  {
    if ws == [] then None else if ws[0].id == id then Some(ws[0]) else WindowAt(ws[1..], id)
  }

  lemma {:induction false} WindowAtIs(ws: seq<Window>, w: Window)
    requires w in ws
    requires forall i, j :: 0 <= i < j < |ws| ==> ws[i].id != ws[j].id
    ensures WindowAt(ws, w.id) == Some(w)
  {
    if ws[0] != w {
      assert w in ws[1..];
      var i :| 0 < i < |ws| && ws[i] == w;
      WindowAtIs(ws[1..], w);
    }
  }

  // ---------------------------------------------------------------------------------------
  // Validation
  // ---------------------------------------------------------------------------------------

  predicate ValidCycle(c: Cycle, planId: Name, w: Window)
    requires w.period > 0
  {
    && c.planId == planId && !IsZero(c.startAt) && !IsZero(c.endAt)
    && c.endAt == c.startAt + w.period * SECOND
    && c.spent >= 0.0 && 0 <= c.usedTokens <= MAX_INT64 && 0 <= c.usedRequests <= MAX_INT64
    && (!IsZero(w.anchor) ==> NewCycle(w, planId, c.startAt).startAt == c.startAt)
    && (!IsZero(c.usageSince) ==> c.startAt <= c.usageSince < c.endAt)
  }

  predicate PositivePeriods(ws: seq<Window>) {
    forall i :: 0 <= i < |ws| ==> ws[i].period > 0
  }

  /** The check that loading a key applies; `plan` is the zero plan when the key's plan is unknown. */
  predicate ValidateCycles(key: Key, plan: Plan)
    requires PositivePeriods(plan.windows)
  {
    && (key.planId != NO_NAME ==> plan.id == key.planId)
    && forall id :: id in key.cycles ==>
         var w := WindowAt(plan.windows, id);
         w.Some? && ValidCycle(key.cycles[id], key.planId, w.value)
  }

  /** A fresh cycle passes the check, whenever the clock is past 1970. */
  lemma NewCycleIsValid(w: Window, planId: Name, now: int)
    requires ValidWindow(w) && now >= 0
    ensures ValidCycle(NewCycle(w, planId, now), planId, w)
  {
    if Anchored(w) {
      var c := NewCycle(w, planId, now);
      IntervalContainsNow(w, planId, now);
      IntervalsPartition(w, planId, now, c.startAt);
    }
  }

  /** Editing a window without moving its schedule keeps its cycles valid. */
  lemma SameScheduleKeepsValid(c: Cycle, planId: Name, w: Window, other: Window)
    requires w.period > 0 && other.period > 0
    requires SameSchedule(other, w) && ValidCycle(c, planId, w)
    ensures ValidCycle(c, planId, other)
  {
    SameStart(other, w, planId, c.startAt);
  }

  // ---------------------------------------------------------------------------------------
  // Settle, view, activate
  // ---------------------------------------------------------------------------------------

  function Settled(key: Key, now: int): Key {
    key.(cycles := map id | id in key.cycles && now < key.cycles[id].endAt :: key.cycles[id])
  }

  /** The cycle a window is shown with: none before the first admission, unless the window is anchored. */
  function Shown(key: Key, w: Window, planId: Name, now: int): Cycle
    requires w.period > 0
  {
    var c := if w.id in key.cycles then key.cycles[w.id] else NO_CYCLE;
    if IsZero(c.startAt) && !IsZero(w.anchor) then NewCycle(w, planId, now) else c
  }

  predicate Exhausted(w: Window, c: Cycle) {
    || (w.amount > 0.0 && c.spent >= w.amount)
    || (w.tokens > 0 && c.usedTokens >= w.tokens)
    || (w.requests > 0 && c.usedRequests >= w.requests)
  }

  predicate Blocks(key: Key, w: Window, planId: Name, now: int)
    requires w.period > 0
  {
    Exhausted(w, Shown(key, w, planId, now))
  }

  predicate QuotaBlocked(key: Key, plan: Plan, now: int)
    requires PositivePeriods(plan.windows)
  {
    exists i :: 0 <= i < |plan.windows| && Blocks(key, plan.windows[i], plan.id, now)
  }

  /** The latest end of an exhausted window; the zero time when none is. */
  function RetryAt(key: Key, ws: seq<Window>, planId: Name, now: int): int
    requires PositivePeriods(ws)
  {
    if ws == [] then ZERO_TIME else
      var rest := RetryAt(key, ws[..|ws| - 1], planId, now);
      var w := ws[|ws| - 1];
      if Blocks(key, w, planId, now) then Max(rest, Shown(key, w, planId, now).endAt) else rest
  }

  lemma {:induction false} RetryAtIsLatest(key: Key, ws: seq<Window>, planId: Name, now: int)
    requires PositivePeriods(ws)
    ensures forall i :: 0 <= i < |ws| && Blocks(key, ws[i], planId, now) ==>
                          Shown(key, ws[i], planId, now).endAt <= RetryAt(key, ws, planId, now)
    ensures RetryAt(key, ws, planId, now) == ZERO_TIME
            || exists i :: 0 <= i < |ws| && Blocks(key, ws[i], planId, now) &&
                           RetryAt(key, ws, planId, now) == Shown(key, ws[i], planId, now).endAt
  {
    if ws != [] { RetryAtIsLatest(key, ws[..|ws| - 1], planId, now); }
  }

  /** Every window without a cycle gets one. */
  function Opened(cycles: map<Name, Cycle>, ws: seq<Window>, planId: Name, now: int): map<Name, Cycle>
    requires PositivePeriods(ws)
  {
    if ws == [] then cycles else
      var rest := Opened(cycles, ws[..|ws| - 1], planId, now);
      var w := ws[|ws| - 1];
      if w.id in rest then rest else rest[w.id := NewCycle(w, planId, now)]
  }

  lemma {:induction false} OpenedIs(cycles: map<Name, Cycle>, ws: seq<Window>, planId: Name, now: int)
    requires PositivePeriods(ws)
    ensures forall id :: id in cycles ==>
            id in Opened(cycles, ws, planId, now) && Opened(cycles, ws, planId, now)[id] == cycles[id]
    ensures forall w :: w in ws ==> w.id in Opened(cycles, ws, planId, now)
    ensures forall id :: id in Opened(cycles, ws, planId, now) && id !in cycles ==>
              exists w :: w in ws && w.id == id && Opened(cycles, ws, planId, now)[id] == NewCycle(w, planId, now)
  {
    if ws != [] {
      OpenedIs(cycles, ws[..|ws| - 1], planId, now);
      assert forall w :: w in ws <==> w in ws[..|ws| - 1] || w == ws[|ws| - 1];
    }
  }

  function Activated(key: Key, plan: Plan, now: int): Key
    requires PositivePeriods(plan.windows)
  {
    key.(cycles := Opened(key.cycles, plan.windows, plan.id, now))
  }

  /** Admission: expire, look, and open the missing cycles only when nothing is exhausted. */
  function Authorized(key: Key, plan: Plan, at: int): Key
    requires PositivePeriods(plan.windows)
  {
    var k := Settled(key, at);
    if QuotaBlocked(k, plan, at) then k else Activated(k, plan, at)
  }

  /** The decision looks at the key as admission leaves it. */
  predicate Admits(key: Key, plan: Plan, at: int)
    requires PositivePeriods(plan.windows)
  {
    !QuotaBlocked(Authorized(key, plan, at), plan, at)
  }

  // ---------------------------------------------------------------------------------------
  // Charging
  // ---------------------------------------------------------------------------------------

  function AddQuotaCount(current: int, delta: int): int {
    if delta > MAX_INT64 - current then MAX_INT64 else current + delta
  }

  /** Usage belongs to a cycle when it started inside it, and not before the cycle counts usage. */
  predicate Eligible(c: Cycle, at: int) {
    c.startAt <= at && c.usageSince <= at && at < c.endAt
  }

  function ChargedCycle(c: Cycle, planId: Name, at: int, u: Usage): Cycle {
    if c.planId == planId && Eligible(c, at)
    then c.(spent := c.spent + u.amount, usedTokens := AddQuotaCount(c.usedTokens, u.tokens),
            usedRequests := AddQuotaCount(c.usedRequests, u.requests))
    else c
  }

  function Charged(key: Key, at: int, u: Usage): Key {
    if key.planId == NO_NAME || IsZero(at) then key else
      key.(cycles := map id | id in key.cycles :: ChargedCycle(key.cycles[id], key.planId, at, u))
  }

  predicate NaturalUsage(u: Usage) {
    u.amount >= 0.0 && 0 <= u.tokens <= MAX_INT64 && 0 <= u.requests <= MAX_INT64
  }

  // ---------------------------------------------------------------------------------------
  // Validation is kept
  // ---------------------------------------------------------------------------------------

  lemma SettledKeepsValid(key: Key, plan: Plan, now: int)
    requires PositivePeriods(plan.windows) && ValidateCycles(key, plan)
    ensures ValidateCycles(Settled(key, now), plan)
  {
  }

  lemma ActivatedKeepsValid(key: Key, plan: Plan, now: int)
    requires ValidPlan(plan) && key.planId == plan.id && now >= 0 && ValidateCycles(key, plan)
    ensures ValidateCycles(Activated(key, plan, now), plan)
  {
    var k := Activated(key, plan, now);
    forall id | id in k.cycles
      ensures WindowAt(plan.windows, id).Some? && ValidCycle(k.cycles[id], k.planId, WindowAt(plan.windows, id).value)
    {
      OpenedIs(key.cycles, plan.windows, plan.id, now);
      if id !in key.cycles {
        var w :| w in plan.windows && w.id == id && k.cycles[id] == NewCycle(w, plan.id, now);
        WindowAtIs(plan.windows, w);
        NewCycleIsValid(w, plan.id, now);
      }
    }
  }

  lemma AuthorizedKeepsValid(key: Key, plan: Plan, at: int)
    requires ValidPlan(plan) && key.planId == plan.id && at >= 0 && ValidateCycles(key, plan)
    ensures ValidateCycles(Authorized(key, plan, at), plan)
  {
    SettledKeepsValid(key, plan, at);
    if !QuotaBlocked(Settled(key, at), plan, at) { ActivatedKeepsValid(Settled(key, at), plan, at); }
  }

  lemma ChargedKeepsValid(key: Key, plan: Plan, at: int, u: Usage)
    requires PositivePeriods(plan.windows) && NaturalUsage(u) && ValidateCycles(key, plan)
    ensures ValidateCycles(Charged(key, at, u), plan)
  {
    var k := Charged(key, at, u);
    forall id | id in k.cycles
      ensures WindowAt(plan.windows, id).Some? && ValidCycle(k.cycles[id], k.planId, WindowAt(plan.windows, id).value)
    {
      assert id in key.cycles;
    }
  }

  // ---------------------------------------------------------------------------------------
  // What an admission means, window by window
  // ---------------------------------------------------------------------------------------

  predicate Running(key: Key, w: Window, at: int) {
    w.id in key.cycles && at < key.cycles[w.id].endAt
  }

  /** Every limit of the window, where it has one, is still above what the cycle has counted. */
  predicate Spare(w: Window, c: Cycle) {
    && (w.amount > 0.0 ==> c.spent < w.amount)
    && (w.tokens > 0 ==> c.usedTokens < w.tokens)
    && (w.requests > 0 ==> c.usedRequests < w.requests)
  }

  /** A cycle opened at an instant: empty, a period long, and from the instant on or aligned with the anchor. */
  predicate OpenedAt(w: Window, planId: Name, at: int, c: Cycle) {
    && c.planId == planId && c.spent == 0.0 && c.usedTokens == 0 && c.usedRequests == 0
    && c.endAt == c.startAt + w.period * 1_000_000_000 && c.startAt <= at < c.endAt
    && (IsZero(w.anchor) ==> c.startAt == at && IsZero(c.usageSince))
    && (!IsZero(w.anchor) ==> Multiple(c.startAt - w.anchor, w.period * 1_000_000_000) && c.usageSince == at)
  }

  predicate Multiple(a: int, m: int) {
    m > 0 && a % m == 0
  }

  lemma MultipleOf(a: int, m: int, k: int)
    requires m > 0 && a == m * k
    ensures Multiple(a, m)
  {
    EuclideanUnique(a, m, k, 0);
  }

  lemma NewCycleOpens(w: Window, planId: Name, at: int)
    requires ValidWindow(w)
    ensures OpenedAt(w, planId, at, NewCycle(w, planId, at))
  {
    if Anchored(w) {
      var c := NewCycle(w, planId, at);
      IntervalContainsNow(w, planId, at);
      var k := (Unix(c.startAt) - Unix(w.anchor)) / w.period;
      assert Unix(c.startAt) - Unix(w.anchor) == w.period * k;
      assert c.startAt - w.anchor == (Unix(c.startAt) - Unix(w.anchor)) * SECOND;
      Scaled(w.period, k);
      MultipleOf(c.startAt - w.anchor, w.period * SECOND, k);
    }
  }

  lemma Scaled(p: int, k: int)
    ensures p * k * SECOND == p * SECOND * k
  {
  }

  /** Whether a window holds the admission up is for its running cycle alone. */
  lemma BlocksIff(key: Key, plan: Plan, w: Window, at: int)
    requires ValidPlan(plan) && w in plan.windows && ValidateCycles(key, plan)
    ensures var k := Settled(key, at);
            && (Blocks(k, w, plan.id, at) <==> Running(key, w, at) && !Spare(w, key.cycles[w.id]))
            && (Running(key, w, at) ==> Shown(k, w, plan.id, at) == key.cycles[w.id])
  {
    assert ValidWindow(w);
    if Running(key, w, at) { assert !IsZero(key.cycles[w.id].startAt); }
  }

  lemma BlockedIff(key: Key, plan: Plan, at: int)
    requires ValidPlan(plan) && ValidateCycles(key, plan)
    ensures QuotaBlocked(Settled(key, at), plan, at) <==>
              exists w :: w in plan.windows && Running(key, w, at) && !Spare(w, key.cycles[w.id])
  {
    if w :| w in plan.windows && Running(key, w, at) && !Spare(w, key.cycles[w.id]) {
      UsedUpBlocks(key, plan, w, at);
    }
    if QuotaBlocked(Settled(key, at), plan, at) {
      var i :| 0 <= i < |plan.windows| && Blocks(Settled(key, at), plan.windows[i], plan.id, at);
      BlocksIff(key, plan, plan.windows[i], at);
    }
  }

  lemma UsedUpBlocks(key: Key, plan: Plan, w: Window, at: int)
    requires ValidPlan(plan) && ValidateCycles(key, plan)
    requires w in plan.windows && Running(key, w, at) && !Spare(w, key.cycles[w.id])
    ensures QuotaBlocked(Settled(key, at), plan, at)
  {
    BlocksIff(key, plan, w, at);
    var i :| 0 <= i < |plan.windows| && plan.windows[i] == w;
    assert Blocks(Settled(key, at), plan.windows[i], plan.id, at);
  }

  /** A cycle that has counted nothing blocks no window. */
  lemma EmptyBlocksNothing(key: Key, w: Window, planId: Name, at: int)
    requires ValidWindow(w) && w.id in key.cycles && !IsZero(key.cycles[w.id].startAt)
    requires key.cycles[w.id].spent == 0.0 && key.cycles[w.id].usedTokens == key.cycles[w.id].usedRequests == 0
    ensures !Blocks(key, w, planId, at)
  {
  }

  /** Opening cycles does not change what the others block. */
  lemma OpenedWindow(key: Key, plan: Plan, w: Window, at: int)
    requires ValidPlan(plan) && at >= 0 && w in plan.windows && !Blocks(key, w, plan.id, at)
    ensures !Blocks(Activated(key, plan, at), w, plan.id, at)
  {
    OpenedIs(key.cycles, plan.windows, plan.id, at);
    if w.id !in key.cycles {
      var v :| v in plan.windows && v.id == w.id
               && Activated(key, plan, at).cycles[w.id] == NewCycle(v, plan.id, at);
      NewCycleOpens(v, plan.id, at);
      SameWindow(plan, v, w);
      NewCycleIsValid(w, plan.id, at);
      EmptyBlocksNothing(Activated(key, plan, at), w, plan.id, at);
    }
  }

  lemma OpeningBlocksNothing(key: Key, plan: Plan, at: int)
    requires ValidPlan(plan) && at >= 0 && !QuotaBlocked(key, plan, at)
    ensures !QuotaBlocked(Activated(key, plan, at), plan, at)
  {
    forall i | 0 <= i < |plan.windows| ensures !Blocks(Activated(key, plan, at), plan.windows[i], plan.id, at) {
      assert plan.windows[i] in plan.windows;
      OpenedWindow(key, plan, plan.windows[i], at);
    }
  }

  /** The decision. */
  lemma AllowedIff(key: Key, plan: Plan, at: int)
    requires Loaded(key, plan, at)
    ensures Admits(key, plan, at) <==> !QuotaBlocked(Settled(key, at), plan, at)
    ensures Admits(key, plan, at) <==>
              forall w :: w in plan.windows && Running(key, w, at) ==> Spare(w, key.cycles[w.id])
  {
    BlockedIff(key, plan, at);
    if !QuotaBlocked(Settled(key, at), plan, at) { OpeningBlocksNothing(Settled(key, at), plan, at); }
  }

  /** The key after the decision: expired cycles are gone, and only an admission opens those that are missing. */
  ghost predicate LeavesCycles(key: Key, plan: Plan, at: int, allowed: bool, after: Key) {
    && after.planId == key.planId
    && (!allowed ==> after.cycles == map id | id in key.cycles && at < key.cycles[id].endAt :: key.cycles[id])
    && (allowed ==>
          && (forall id :: id in after.cycles <==> exists w :: w in plan.windows && w.id == id)
          && (forall w :: w in plan.windows && w.id in after.cycles ==>
                if Running(key, w, at) then after.cycles[w.id] == key.cycles[w.id]
                else OpenedAt(w, plan.id, at, after.cycles[w.id])))
  }

  lemma OnlyPlanWindows(key: Key, plan: Plan, id: Name)
    requires PositivePeriods(plan.windows) && ValidateCycles(key, plan) && id in key.cycles
    ensures exists w :: w in plan.windows && w.id == id
  {
    assert WindowAt(plan.windows, id).Some?;
    assert WindowAt(plan.windows, id).value in plan.windows;
  }

  /** Activation opens a cycle for every window without one, and for nothing else. */
  lemma ActivatedCycles(key: Key, plan: Plan, at: int)
    requires ValidPlan(plan)
    requires forall id :: id in key.cycles ==> exists w :: w in plan.windows && w.id == id
    ensures var after := Activated(key, plan, at);
            && (forall id :: id in after.cycles <==> exists w :: w in plan.windows && w.id == id)
            && (forall w :: w in plan.windows && w.id in after.cycles ==>
                  if w.id in key.cycles then after.cycles[w.id] == key.cycles[w.id]
                  else OpenedAt(w, plan.id, at, after.cycles[w.id]))
  {
    OpenedIs(key.cycles, plan.windows, plan.id, at);
    forall w | w in plan.windows && w.id !in key.cycles
      ensures OpenedAt(w, plan.id, at, Activated(key, plan, at).cycles[w.id])
    {
      var v :| v in plan.windows && v.id == w.id
               && Activated(key, plan, at).cycles[w.id] == NewCycle(v, plan.id, at);
      SameWindow(plan, v, w);
      NewCycleOpens(w, plan.id, at);
    }
  }

  lemma CyclesAfter(key: Key, plan: Plan, at: int)
    requires Loaded(key, plan, at)
    ensures LeavesCycles(key, plan, at, Admits(key, plan, at), Authorized(key, plan, at))
  {
    AllowedIff(key, plan, at);
    if Admits(key, plan, at) {
      forall id | id in Settled(key, at).cycles ensures exists w :: w in plan.windows && w.id == id {
        OnlyPlanWindows(key, plan, id);
      }
      ActivatedCycles(Settled(key, at), plan, at);
    }
  }

  lemma SameWindow(plan: Plan, v: Window, w: Window)
    requires ValidPlan(plan) && v in plan.windows && w in plan.windows && v.id == w.id
    ensures v == w
  {
    DistinctIds(plan);
    WindowAtIs(plan.windows, v);
    WindowAtIs(plan.windows, w);
  }

  /** The key as loading and every operation leave it: bound to the plan, with valid cycles. */
  ghost predicate Loaded(key: Key, plan: Plan, at: int) {
    ValidPlan(plan) && plan.id == key.planId && at >= 0 && ValidateCycles(key, plan)
  }

  /** A denial names the latest end of the running cycles that are used up. */
  ghost predicate LatestEnd(key: Key, plan: Plan, at: int, retryAt: int) {
    && (exists w :: w in plan.windows && Running(key, w, at) && !Spare(w, key.cycles[w.id])
                    && key.cycles[w.id].endAt == retryAt)
    && (forall w :: w in plan.windows && Running(key, w, at) && !Spare(w, key.cycles[w.id]) ==>
          key.cycles[w.id].endAt <= retryAt)
  }

  lemma RetryIsLatestEnd(key: Key, plan: Plan, at: int)
    requires Loaded(key, plan, at) && !Admits(key, plan, at)
    ensures LatestEnd(key, plan, at, RetryAt(Authorized(key, plan, at), plan.windows, plan.id, at))
  {
    AllowedIff(key, plan, at);
    SettledRetry(key, plan, at);
  }

  /** The windows that hold admissions up are the used-up ones, until their cycles end. */
  ghost predicate HeldUp(key: Key, ws: seq<Window>, planId: Name, at: int)
    requires PositivePeriods(ws)
  {
    forall i :: 0 <= i < |ws| ==>
      && (Blocks(Settled(key, at), ws[i], planId, at) <==>
            Running(key, ws[i], at) && !Spare(ws[i], key.cycles[ws[i].id]))
      && (Running(key, ws[i], at) ==> Shown(Settled(key, at), ws[i], planId, at) == key.cycles[ws[i].id])
  }

  lemma EndsByRetry(key: Key, ws: seq<Window>, planId: Name, at: int, w: Window)
    requires PositivePeriods(ws) && HeldUp(key, ws, planId, at)
    requires w in ws && Running(key, w, at) && !Spare(w, key.cycles[w.id])
    ensures at < key.cycles[w.id].endAt <= RetryAt(Settled(key, at), ws, planId, at)
  {
    RetryAtIsLatest(Settled(key, at), ws, planId, at);
    var i :| 0 <= i < |ws| && ws[i] == w;
  }

  lemma RetryIsAnEnd(key: Key, ws: seq<Window>, planId: Name, at: int) returns (w: Window)
    requires PositivePeriods(ws) && HeldUp(key, ws, planId, at)
    requires RetryAt(Settled(key, at), ws, planId, at) != ZERO_TIME
    ensures w in ws && Running(key, w, at) && !Spare(w, key.cycles[w.id])
    ensures key.cycles[w.id].endAt == RetryAt(Settled(key, at), ws, planId, at)
  {
    var k := Settled(key, at);
    RetryAtIsLatest(k, ws, planId, at);
    var i :| 0 <= i < |ws| && Blocks(k, ws[i], planId, at)
             && RetryAt(k, ws, planId, at) == Shown(k, ws[i], planId, at).endAt;
    w := ws[i];
  }

  lemma HeldUpIs(key: Key, plan: Plan, at: int)
    requires Loaded(key, plan, at)
    ensures HeldUp(key, plan.windows, plan.id, at)
  {
    forall i | 0 <= i < |plan.windows|
      ensures Blocks(Settled(key, at), plan.windows[i], plan.id, at) <==>
                Running(key, plan.windows[i], at) && !Spare(plan.windows[i], key.cycles[plan.windows[i].id])
      ensures Running(key, plan.windows[i], at) ==>
                Shown(Settled(key, at), plan.windows[i], plan.id, at) == key.cycles[plan.windows[i].id]
    {
      BlocksIff(key, plan, plan.windows[i], at);
    }
  }

  lemma HeldUntil(key: Key, plan: Plan, at: int)
    requires at >= 0 && PositivePeriods(plan.windows) && HeldUp(key, plan.windows, plan.id, at)
    requires exists v :: v in plan.windows && Running(key, v, at) && !Spare(v, key.cycles[v.id])
    ensures LatestEnd(key, plan, at, RetryAt(Settled(key, at), plan.windows, plan.id, at))
  {
    var ws, r := plan.windows, RetryAt(Settled(key, at), plan.windows, plan.id, at);
    forall u | u in ws && Running(key, u, at) && !Spare(u, key.cycles[u.id]) ensures at < key.cycles[u.id].endAt <= r {
      EndsByRetry(key, ws, plan.id, at, u);
    }
    var w := RetryIsAnEnd(key, ws, plan.id, at);
  }

  lemma SettledRetry(key: Key, plan: Plan, at: int)
    requires Loaded(key, plan, at) && QuotaBlocked(Settled(key, at), plan, at)
    ensures LatestEnd(key, plan, at, RetryAt(Settled(key, at), plan.windows, plan.id, at))
  {
    BlockedIff(key, plan, at);
    HeldUpIs(key, plan, at);
    HeldUntil(key, plan, at);
  }

  /**
   Exactly the running cycles that are used up deny an admission; a denial names the latest of their ends; and only an
   admission opens cycles, empty ones, for the windows without a running one.
   */
  lemma AuthorizeMeans(key: Key, plan: Plan, at: int)
    requires Loaded(key, plan, at)
    ensures Admits(key, plan, at) <==>
              forall w :: w in plan.windows && Running(key, w, at) ==> Spare(w, key.cycles[w.id])
    ensures LeavesCycles(key, plan, at, Admits(key, plan, at), Authorized(key, plan, at))
    ensures !Admits(key, plan, at) ==>
              LatestEnd(key, plan, at, RetryAt(Authorized(key, plan, at), plan.windows, plan.id, at))
  {
    AllowedIff(key, plan, at);
    CyclesAfter(key, plan, at);
    if !Admits(key, plan, at) { RetryIsLatestEnd(key, plan, at); }
  }

  lemma DistinctIds(p: Plan)
    requires ValidPlan(p)
    ensures forall i, j :: 0 <= i < j < |p.windows| ==> p.windows[i].id != p.windows[j].id
  {
    forall i, j | 0 <= i < j < |p.windows| ensures p.windows[i].id != p.windows[j].id {
      assert Differ(p.windows[i], p.windows[j]);
    }
  }

  // ---------------------------------------------------------------------------------------
  // The key object
  // ---------------------------------------------------------------------------------------

  datatype Decision = Decision(allowed: bool, retryAt: int)

  class KeyState {
    var planId: Name
    var cycles: map<Name, Cycle>

    constructor ()
      ensures Value() == UNBOUND
    {
      planId, cycles := NO_NAME, map[];
    }

    function Value(): Key
      reads this
    {
      Key(planId, cycles)
    }

    method SettleExpired(now: int) returns (changed: bool)
      modifies this
      ensures Value() == Settled(old(Value()), now)
      ensures changed <==> Value() != old(Value())
    {
      changed := false;
      var pending := cycles.Keys;
      while pending != {}
        invariant pending <= old(cycles).Keys && planId == old(planId)
        invariant cycles == map id | id in old(cycles) && (id in pending || now < old(cycles)[id].endAt) ::
                              old(cycles)[id]
        invariant changed <==> exists id :: id in old(cycles) && id !in cycles
        decreases |pending|
      {
        var id :| id in pending;
        pending := pending - {id};
        if cycles[id].endAt <= now {
          cycles := cycles - {id};
          changed := true;
          assert id in old(cycles) && id !in cycles;
        }
      }
      if !changed { assert cycles == old(cycles); }
    }

    /** The summary of the quota view: whether a window is exhausted, and until when. */
    method View(plan: Plan, now: int) returns (blocked: bool, retryAt: int)
      requires PositivePeriods(plan.windows)
      ensures blocked == QuotaBlocked(Value(), plan, now)
      ensures retryAt == RetryAt(Value(), plan.windows, plan.id, now)
    {
      blocked, retryAt := false, ZERO_TIME;
      for i := 0 to |plan.windows|
        invariant blocked <==> exists j :: 0 <= j < i && Blocks(Value(), plan.windows[j], plan.id, now)
        invariant retryAt == RetryAt(Value(), plan.windows[..i], plan.id, now)
      {
        assert plan.windows[..i + 1][..i] == plan.windows[..i];
        var cycle := Shown(Value(), plan.windows[i], plan.id, now);
        if Exhausted(plan.windows[i], cycle) {
          blocked := true;
          if cycle.endAt > retryAt {
            retryAt := cycle.endAt;
          }
        }
      }
      assert plan.windows[..|plan.windows|] == plan.windows;
    }

    method ActivateCycles(plan: Plan, now: int) returns (changed: bool)
      requires PositivePeriods(plan.windows)
      modifies this
      ensures Value() == Activated(old(Value()), plan, now)
      ensures changed <==> Value() != old(Value())
    {
      changed := false;
      for i := 0 to |plan.windows|
        invariant planId == old(planId) && old(cycles).Keys <= cycles.Keys
        invariant cycles == Opened(old(cycles), plan.windows[..i], plan.id, now)
        invariant if changed then cycles.Keys != old(cycles).Keys else cycles == old(cycles)
      {
        assert plan.windows[..i + 1][..i] == plan.windows[..i];
        var w := plan.windows[i];
        if w.id !in cycles {
          cycles := cycles[w.id := NewCycle(w, plan.id, now)];
          changed := true;
          assert w.id in cycles.Keys && w.id !in old(cycles).Keys;
        }
      }
      assert plan.windows[..|plan.windows|] == plan.windows;
    }

    method ChargeCycles(at: int, usage: Usage)
      modifies this
      ensures Value() == Charged(old(Value()), at, usage)
    {
      if planId == NO_NAME || IsZero(at) {
        return;
      }
      var pending := cycles.Keys;
      while pending != {}
        invariant pending <= cycles.Keys && planId == old(planId)
        invariant cycles == map id | id in old(cycles) ::
                    if id in pending then old(cycles)[id] else ChargedCycle(old(cycles)[id], planId, at, usage)
        decreases |pending|
      {
        var id :| id in pending;
        pending := pending - {id};
        var cycle := cycles[id];
        if cycle.planId == planId && Eligible(cycle, at) {
          cycles := cycles[id := ChargedCycle(cycle, planId, at, usage)];
        }
      }
    }

    /** Admission of a key bound to a known plan. */
    method Authorize(plan: Plan, at: int) returns (d: Decision)
      requires PositivePeriods(plan.windows)
      modifies this
      ensures Value() == Authorized(old(Value()), plan, at)
      ensures d.allowed == Admits(old(Value()), plan, at)
      ensures d.retryAt == RetryAt(Value(), plan.windows, plan.id, at)
      ensures Loaded(old(Value()), plan, at) ==>
                && (d.allowed <==> forall w :: w in plan.windows && Running(old(Value()), w, at) ==>
                                     Spare(w, old(cycles)[w.id]))
                && LeavesCycles(old(Value()), plan, at, d.allowed, Value())
                && (!d.allowed ==> LatestEnd(old(Value()), plan, at, d.retryAt))
    {
      if Loaded(Value(), plan, at) { AuthorizeMeans(Value(), plan, at); }
      var settled := SettleExpired(at);
      var blocked, retryAt := View(plan, at);
      if !blocked {
        var activated := ActivateCycles(plan, at);
        if activated {
          blocked, retryAt := View(plan, at);
        }
      }
      d := Decision(!blocked, retryAt);
    }
  }
}
