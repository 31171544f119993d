/**
 What a live cycle has counted.

 A history of the key is replayed beside its state: for each live cycle, the admission that
 started it and every report processed since. The counters are then the saturated sums of the
 reports that started inside the cycle and not before it was opened.
 */
module Counters {
  import opened Numbers
  import opened Text
  import opened Quota
  import opened Cycles

  datatype Report = Report(start: int, usage: Usage)

  /** Everything that changes a key's cycles; an edit drops the windows whose schedule moved. */
  datatype Event =
    | Admission(plan: Plan, at: int)
    | Reported(report: Report, at: int)
    | Settle(at: int)
    | Reset
    | Bind(planId: Name)
    | Edit(dropped: set<Name>)

  datatype Life = Life(birth: int, reports: seq<Report>)

  datatype Account = Account(key: Key, lives: map<Name, Life>)

  ghost predicate Legal(key: Key, e: Event) {
    match e
    case Admission(plan, at) => ValidPlan(plan) && plan.id == key.planId && at >= 0
    case Reported(report, at) => NaturalUsage(report.usage)
    case _ => true
  }

  function After(key: Key, e: Event): Key
    requires e.Admission? ==> PositivePeriods(e.plan.windows)
  {
    match e
    case Admission(plan, at) => Authorized(key, plan, at)
    case Reported(r, at) => Settled(Charged(key, r.start, r.usage), at)
    case Settle(at) => Settled(key, at)
    case Reset => key.(cycles := map[])
    case Bind(planId) => if planId == key.planId then key else Key(planId, map[])
    case Edit(dropped) => key.(cycles := key.cycles - dropped)
  }

  /** A cycle of the new state that is the continuation of one in the old state. */
  predicate Continues(key: Key, e: Event, id: Name) {
    id in key.cycles && (e.Admission? ==> e.at < key.cycles[id].endAt)
  }

  function Track(a: Account, e: Event): Account
    requires e.Admission? ==> PositivePeriods(e.plan.windows)
    requires a.lives.Keys == a.key.cycles.Keys
  {
    var key := After(a.key, e);
    Account(key, map id | id in key.cycles ::
      if !Continues(a.key, e, id) then Life(match e case Admission(_, at) => at case _ => 0, [])
      else if e.Reported? then Life(a.lives[id].birth, a.lives[id].reports + [e.report])
      else a.lives[id])
  }

  function TokensOf(c: Cycle, birth: int, rs: seq<Report>): int {
    if rs == [] then 0 else
      TokensOf(c, birth, rs[..|rs| - 1])
      + if birth <= rs[|rs| - 1].start < c.endAt then rs[|rs| - 1].usage.tokens else 0
  }

  function RequestsOf(c: Cycle, birth: int, rs: seq<Report>): int {
    if rs == [] then 0 else
      RequestsOf(c, birth, rs[..|rs| - 1])
      + if birth <= rs[|rs| - 1].start < c.endAt then rs[|rs| - 1].usage.requests else 0
  }

  function AmountOf(c: Cycle, birth: int, rs: seq<Report>): real {
    if rs == [] then 0.0 else
      AmountOf(c, birth, rs[..|rs| - 1])
      + if birth <= rs[|rs| - 1].start < c.endAt then rs[|rs| - 1].usage.amount else 0.0
  }

  /** The cycle is what its life says: opened at its birth, counting exactly what started since. */
  ghost predicate Accounts(c: Cycle, planId: Name, life: Life) {
    && c.planId == planId && planId != NO_NAME
    && life.birth >= 0 && life.birth == Max(c.startAt, c.usageSince)
    && c.usedTokens == Min(MAX_INT64, TokensOf(c, life.birth, life.reports))
    && c.usedRequests == Min(MAX_INT64, RequestsOf(c, life.birth, life.reports))
    && c.spent == AmountOf(c, life.birth, life.reports)
    && TokensOf(c, life.birth, life.reports) >= 0 && RequestsOf(c, life.birth, life.reports) >= 0
  }

  ghost predicate Consistent(a: Account) {
    && a.lives.Keys == a.key.cycles.Keys
    && forall id :: id in a.key.cycles ==> Accounts(a.key.cycles[id], a.key.planId, a.lives[id])
  }

  /** Charging moves no boundary, so the sums are over the same reports. */
  lemma {:induction false} SameSums(c: Cycle, d: Cycle, birth: int, rs: seq<Report>)
    requires c.endAt == d.endAt
    ensures TokensOf(c, birth, rs) == TokensOf(d, birth, rs)
    ensures RequestsOf(c, birth, rs) == RequestsOf(d, birth, rs)
    ensures AmountOf(c, birth, rs) == AmountOf(d, birth, rs)
  {
    if rs != [] { SameSums(c, d, birth, rs[..|rs| - 1]); }
  }

  /** One report more adds its usage when it started inside the life of the cycle. */
  lemma SumsStep(c: Cycle, d: Cycle, birth: int, rs: seq<Report>, r: Report)
    requires c.endAt == d.endAt
    ensures var inside, more := birth <= r.start < c.endAt, rs + [r];
            && TokensOf(d, birth, more) == TokensOf(c, birth, rs) + (if inside then r.usage.tokens else 0)
            && RequestsOf(d, birth, more) == RequestsOf(c, birth, rs) + (if inside then r.usage.requests else 0)
            && AmountOf(d, birth, more) == AmountOf(c, birth, rs) + (if inside then r.usage.amount else 0.0)
  {
    assert (rs + [r])[..|rs + [r]| - 1] == rs;
    SameSums(c, d, birth, rs);
  }

  lemma ChargeAccounts(c: Cycle, planId: Name, life: Life, r: Report)
    requires Accounts(c, planId, life) && NaturalUsage(r.usage)
    ensures Accounts(if IsZero(r.start) then c else ChargedCycle(c, planId, r.start, r.usage), planId,
                     Life(life.birth, life.reports + [r]))
  {
    var d := if IsZero(r.start) then c else ChargedCycle(c, planId, r.start, r.usage);
    SumsStep(c, d, life.birth, life.reports, r);
  }

  lemma NewCycleAccounts(w: Window, planId: Name, at: int)
    requires w.period > 0 && planId != NO_NAME && at >= 0
    ensures Accounts(NewCycle(w, planId, at), planId, Life(at, []))
  {
    if Anchored(w) { IntervalContainsNow(w, planId, at); }
  }

  lemma AdmissionConsistent(a: Account, plan: Plan, at: int, id: Name)
    requires Consistent(a) && Legal(a.key, Admission(plan, at))
    requires id in Authorized(a.key, plan, at).cycles
    ensures Accounts(Authorized(a.key, plan, at).cycles[id], a.key.planId, Track(a, Admission(plan, at)).lives[id])
  {
    var k := Settled(a.key, at);
    if id !in k.cycles {
      OpenedIs(k.cycles, plan.windows, plan.id, at);
      var w :| w in plan.windows && w.id == id && Activated(k, plan, at).cycles[id] == NewCycle(w, plan.id, at);
      NewCycleAccounts(w, plan.id, at);
    } else {
      OpenedIs(k.cycles, plan.windows, plan.id, at);
    }
  }

  lemma ReportConsistent(a: Account, r: Report, at: int, id: Name)
    requires Consistent(a) && NaturalUsage(r.usage)
    requires id in Settled(Charged(a.key, r.start, r.usage), at).cycles
    ensures Accounts(Settled(Charged(a.key, r.start, r.usage), at).cycles[id], a.key.planId,
            Track(a, Reported(r, at)).lives[id])
  {
    assert id in a.key.cycles;
    ChargeAccounts(a.key.cycles[id], a.key.planId, a.lives[id], r);
  }

  lemma TrackConsistent(a: Account, e: Event)
    requires Consistent(a) && Legal(a.key, e)
    ensures Consistent(Track(a, e))
  {
    var b := Track(a, e);
    forall id | id in b.key.cycles ensures Accounts(b.key.cycles[id], b.key.planId, b.lives[id]) {
      match e
      case Admission(plan, at) => AdmissionConsistent(a, plan, at, id);
      case Reported(r, at) => ReportConsistent(a, r, at, id);
      case _ =>
    }
  }

  ghost predicate LegalRun(a: Account, es: seq<Event>)
    requires a.lives.Keys == a.key.cycles.Keys
    decreases |es|
  {
    es == [] || (Legal(a.key, es[0]) && LegalRun(Track(a, es[0]), es[1..]))
  }

  function TrackAll(a: Account, es: seq<Event>): (b: Account)
    requires a.lives.Keys == a.key.cycles.Keys
    requires LegalRun(a, es)
    ensures b.lives.Keys == b.key.cycles.Keys
    decreases |es|
  {
    if es == [] then a else TrackAll(Track(a, es[0]), es[1..])
  }

  /**
   Over any run: each live cycle has counted, saturating, exactly the reports processed during its
   life that started at or after its opening and before its end.
   */
  lemma {:induction false} CountersAreExact(a: Account, es: seq<Event>)
    requires Consistent(a) && LegalRun(a, es)
    ensures Consistent(TrackAll(a, es))
    decreases |es|
  {
    if es != [] {
      TrackConsistent(a, es[0]);
      CountersAreExact(Track(a, es[0]), es[1..]);
    }
  }

  /** A new key has nothing to account for. */
  lemma FreshIsConsistent(planId: Name)
    ensures Consistent(Account(Key(planId, map[]), map[]))
  {
  }

  /** So a key that starts without cycles counts exactly ever after. */
  lemma CountersFromFresh(planId: Name, es: seq<Event>)
    requires LegalRun(Account(Key(planId, map[]), map[]), es)
    ensures Consistent(TrackAll(Account(Key(planId, map[]), map[]), es))
  {
    FreshIsConsistent(planId);
    CountersAreExact(Account(Key(planId, map[]), map[]), es);
  }

  /** Usage that started before a cycle was opened is never charged to it. */
  lemma OldUsageIsNotCharged(a: Account, id: Name, r: Report)
    requires Consistent(a) && id in a.key.cycles && r.start < a.lives[id].birth
    ensures Charged(a.key, r.start, r.usage).cycles[id] == a.key.cycles[id]
  {
  }

  /**
   A cycle that replaces one dropped by a reset, a rebind or a moved schedule is opened later, and
   so never sees usage that started before the drop.
   */
  lemma {:induction false} ReplacementIgnoresOldUsage(a: Account, es: seq<Event>, id: Name, since: int, r: Report)
    requires Consistent(a) && LegalRun(a, es)
    requires id in a.key.cycles ==> since <= a.lives[id].birth
    requires forall e :: e in es && e.Admission? ==> since <= e.at
    requires r.start < since
    ensures var b := TrackAll(a, es);
            id in b.key.cycles ==>
              && since <= b.lives[id].birth
              && Charged(b.key, r.start, r.usage).cycles[id] == b.key.cycles[id]
    decreases |es|
  {
    if es != [] {
      var b := Track(a, es[0]);
      TrackConsistent(a, es[0]);
      assert forall e :: e in es[1..] ==> e in es;
      assert id in b.key.cycles && !Continues(a.key, es[0], id) ==> es[0].Admission? && es[0] in es;
      ReplacementIgnoresOldUsage(b, es[1..], id, since, r);
    } else if id in a.key.cycles {
      OldUsageIsNotCharged(a, id, r);
    }
  }
}
