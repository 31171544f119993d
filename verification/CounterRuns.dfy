/**
 Counters over runs of the whole plan state machine: what an operation means to one key, and that every
 key of every reachable state counts exactly.
 */
module CounterRuns {
  import opened Numbers
  import opened Options
  import opened Text
  import opened Quota
  import opened Cycles
  import opened Plans
  import C = Counters

  /** A key that is not known yet has no plan and no cycles. */
  function QuotaOf(s: State, scope: Name): Key {
    if scope in s.keys then s.keys[scope].quota else UNBOUND
  }

  /** What an admission or a settlement means to a key: its plan may be gone. */
  function SettledEvent(plans: seq<Plan>, key: Key, now: int): Option<C.Event> {
    if key.planId == NO_NAME then None
    else if PlanOf(plans, key.planId).id == key.planId then Some(C.Settle(now))
    else Some(C.Bind(NO_NAME))
  }

  function AdmissionEvent(plans: seq<Plan>, key: Key, at: int): Option<C.Event> {
    if key.planId == NO_NAME then None
    else match FindPlan(plans, key.planId)
      case None => Some(C.Bind(NO_NAME))
      case Some(p) => Some(C.Admission(p, at))
  }

  function UpdateEvent(key: Key, scope: Name, id: Name, selected: Option<set<Name>>, moved: set<Name>)
    : Option<C.Event>
  {
    if key.planId == id then
      if selected.Some? && scope !in selected.value then Some(C.Bind(NO_NAME)) else Some(C.Edit(moved))
    else if selected.Some? && scope in selected.value && key.planId == NO_NAME then Some(C.Bind(id))
    else None
  }

  function MovedBy(s: State, id: Name, windows: Option<seq<Window>>, now: int, newIds: seq<Name>): set<Name>
    requires windows.Some? ==> |newIds| == |windows.value|
  {
    var i := PlanIndex(s.plans, id);
    if i == |s.plans| || windows.None? then {} else
      match PreparedAll(windows.value, s.plans[i].windows, now, newIds)
      case None => {}
      case Some(ws) => Moved(s.plans[i].windows, ws)
  }

  /** What an operation means to one key: at most one event. */
  ghost function EventOf(s: State, op: Op, scope: Name): Option<C.Event>
    requires PlansOk(s.plans) && Legal(op)
  {
    var key := QuotaOf(s, scope);
    match op
    case Authorize(j, at) => if j == scope && scope in s.keys then AdmissionEvent(s.plans, key, at) else None
    case Report(j, start, usage, at, grouped) =>
      if j != scope || scope == NO_NAME || grouped then None else Some(C.Reported(C.Report(start, usage), at))
    case SettleViews(scopes, now) =>
      if scope in s.keys && scope in scopes && !s.keys[scope].deleted then SettledEvent(s.plans, key, now) else None
    case BindKey(j, planId) =>
      if j != scope || FindPlan(s.plans, planId).None? || !IsLive(s, scope) then None else Some(C.Bind(planId))
    case UnbindKey(j) =>
      if j != scope || !IsLive(s, scope) || key.planId == NO_NAME then None else Some(C.Bind(NO_NAME))
    case ResetQuota(chosen) =>
      var scopes := ToReset(s, chosen);
      if scopes.Some? && scope in scopes.value && scope in s.keys then Some(C.Reset) else None
    case SyncKeys(_, _) => None
    case CreatePlan(plan, freeId, scopes, now, newIds) =>
      if Created(s, Named(plan, freeId), scopes, now, newIds).Some? && scope in scopes && scope in s.keys
      then Some(C.Bind(Named(plan, freeId).id)) else None
    case UpdatePlan(id, windows, selected, now, newIds) =>
      if Updated(s, id, windows, selected, now, newIds).Some? && scope in s.keys
      then UpdateEvent(key, scope, id, selected, MovedBy(s, id, windows, now, newIds)) else None
    case DeletePlan(id) =>
      if Deleted(s, id).Some? && scope in s.keys && key.planId == id then Some(C.Bind(NO_NAME)) else None
  }

  function AfterEvent(key: Key, e: Option<C.Event>): Key
    requires e.Some? && e.value.Admission? ==> PositivePeriods(e.value.plan.windows)
  {
    if e.None? then key else C.After(key, e.value)
  }

  ghost predicate LegalEvent(key: Key, e: Option<C.Event>) {
    e.Some? ==> C.Legal(key, e.value)
  }

  lemma EventIsLegal(s: State, op: Op, scope: Name)
    requires Inv(s) && Legal(op)
    ensures LegalEvent(QuotaOf(s, scope), EventOf(s, op, scope))
  {
    if op.Authorize? && FindPlan(s.plans, QuotaOf(s, scope).planId).Some? {
      assert FindPlan(s.plans, QuotaOf(s, scope).planId).value in s.plans;
    }
  }

  /** A key whose plan is unknown has no cycles to settle. */
  lemma NothingToSettle(plans: seq<Plan>, key: Key, at: int)
    requires PlansOk(plans) && KeyOk(plans, key) && FindPlan(plans, key.planId).None?
    ensures key.cycles == map[] && Settled(key, at) == key
  {
  }

  lemma ReportIsEvent(s: State, scope: Name, start: int, usage: Usage, at: int)
    requires Inv(s) && NaturalUsage(usage) && scope != NO_NAME
    ensures ReportedKey(s.plans, QuotaOf(s, scope), start, usage, at, false)
         == C.After(QuotaOf(s, scope), C.Reported(C.Report(start, usage), at))
  {
    var key := QuotaOf(s, scope);
    if FindPlan(s.plans, key.planId).None? {
      if scope !in s.keys { UnboundIsOk(s.plans); }
      NothingToSettle(s.plans, key, at);
      ReportedKeyOk(s.plans, key, start, usage, at, false);
    }
  }

  lemma BindingIsEvent(s: State, op: Op, scope: Name)
    requires Inv(s) && Legal(op) && (op.BindKey? || op.UnbindKey?)
    ensures QuotaOf(Apply(s, op), scope) == AfterEvent(QuotaOf(s, scope), EventOf(s, op, scope))
  {
  }

  lemma SyncIsEvent(s: State, op: Op, scope: Name)
    requires Inv(s) && Legal(op) && op.SyncKeys?
    ensures QuotaOf(Apply(s, op), scope) == AfterEvent(QuotaOf(s, scope), EventOf(s, op, scope))
  {
  }

  lemma DeletionIsEvent(s: State, op: Op, scope: Name)
    requires Inv(s) && Legal(op) && op.DeletePlan?
    ensures QuotaOf(Apply(s, op), scope) == AfterEvent(QuotaOf(s, scope), EventOf(s, op, scope))
  {
  }

  lemma ResetIsEvent(s: State, op: Op, scope: Name)
    requires Inv(s) && Legal(op) && op.ResetQuota?
    ensures QuotaOf(Apply(s, op), scope) == AfterEvent(QuotaOf(s, scope), EventOf(s, op, scope))
  {
  }

  lemma CreateIsEvent(s: State, plan: Plan, scopes: set<Name>, now: int, newIds: seq<Name>, scope: Name)
    requires |newIds| == |plan.windows| && Created(s, plan, scopes, now, newIds).Some?
    ensures QuotaOf(Created(s, plan, scopes, now, newIds).value, scope) ==
              if scope in scopes && scope in s.keys
              then C.After(QuotaOf(s, scope), C.Bind(plan.id)) else QuotaOf(s, scope)
  {
    if scope in scopes { assert CanBind(s, scope); }
  }

  lemma UpdateIsEvent(s: State, id: Name, windows: Option<seq<Window>>, selected: Option<set<Name>>, now: int,
          newIds: seq<Name>, scope: Name)
    requires windows.Some? ==> |newIds| == |windows.value|
    requires Updated(s, id, windows, selected, now, newIds).Some? && scope in s.keys
    ensures QuotaOf(Updated(s, id, windows, selected, now, newIds).value, scope) ==
              UpdatedKey(QuotaOf(s, scope), scope, id, selected, MovedBy(s, id, windows, now, newIds))
  {
  }

  lemma UpdatedKeyIsEvent(key: Key, scope: Name, id: Name, selected: Option<set<Name>>, moved: set<Name>)
    requires id != NO_NAME
    ensures UpdatedKey(key, scope, id, selected, moved) == AfterEvent(key, UpdateEvent(key, scope, id, selected, moved))
  {
  }

  /** An operation changes a key by the one event it means to it, and by nothing else. */
  lemma StepIsEvent(s: State, op: Op, scope: Name)
    requires Inv(s) && Legal(op)
    ensures LegalEvent(QuotaOf(s, scope), EventOf(s, op, scope))
    ensures QuotaOf(Apply(s, op), scope) == AfterEvent(QuotaOf(s, scope), EventOf(s, op, scope))
  {
    EventIsLegal(s, op, scope);
    match op
    case Authorize(_, _) =>
    case Report(j, start, usage, at, grouped) => if j == scope != NO_NAME { ReportIsEvent(s, scope, start, usage, at); }
    case SettleViews(_, _) =>
    case ResetQuota(_) => ResetIsEvent(s, op, scope);
    case CreatePlan(plan, freeId, scopes, now, newIds) =>
      if Created(s, Named(plan, freeId), scopes, now, newIds).Some? {
        CreateIsEvent(s, Named(plan, freeId), scopes, now, newIds, scope);
      }
    case UpdatePlan(id, windows, selected, now, newIds) =>
      if Updated(s, id, windows, selected, now, newIds).Some? && scope in s.keys {
        UpdateIsEvent(s, id, windows, selected, now, newIds, scope);
        UpdatedKeyIsEvent(QuotaOf(s, scope), scope, id, selected, MovedBy(s, id, windows, now, newIds));
      }
    case SyncKeys(_, _) => SyncIsEvent(s, op, scope);
    case DeletePlan(_) => DeletionIsEvent(s, op, scope);
    case _ => BindingIsEvent(s, op, scope);
  }

  // ---------------------------------------------------------------------------------------
  // Runs
  // ---------------------------------------------------------------------------------------

  ghost predicate LegalOps(ops: seq<Op>) {
    forall op :: op in ops ==> Legal(op)
  }

  /** The history of one key beside a run. */
  ghost function AccountAfter(s: State, ops: seq<Op>, scope: Name, a: C.Account): (b: C.Account)
    requires Inv(s) && LegalOps(ops) && C.Consistent(a) && a.key == QuotaOf(s, scope)
    ensures C.Consistent(b) && b.key == QuotaOf(Run(s, ops), scope)
  {
    if ops == [] then a else
      var n := |ops| - 1;
      var before, m := AccountAfter(s, ops[..n], scope, a), Run(s, ops[..n]);
      StepIsEvent(m, ops[n], scope);
      var e := EventOf(m, ops[n], scope);
      if e.None? then before else
        C.TrackConsistent(before, e.value);
        C.Track(before, e.value)
  }

  /**
   In every state a run of the state machine reaches from one in which the key has no cycles, each of
   the key's cycles has counted, saturating, exactly the reports of its life that started inside it.
   */
  lemma EveryKeyCountsExactly(s: State, ops: seq<Op>, scope: Name)
    requires Inv(s) && LegalOps(ops) && QuotaOf(s, scope).cycles == map[]
    ensures var start := C.Account(QuotaOf(s, scope), map[]);
            && C.Consistent(start)
            && var b, key := AccountAfter(s, ops, scope, start), QuotaOf(Run(s, ops), scope);
               forall id :: id in key.cycles ==> id in b.lives && C.Accounts(key.cycles[id], key.planId, b.lives[id])
  {
    C.FreshIsConsistent(QuotaOf(s, scope).planId);
    assert QuotaOf(s, scope) == Key(QuotaOf(s, scope).planId, map[]);
  }

  // ---------------------------------------------------------------------------------------
  // Replaced cycles
  // ---------------------------------------------------------------------------------------

  /** The window has no cycle yet, or one that was opened at the instant or later. */
  predicate OpenedSince(key: Key, id: Name, since: int) {
    id in key.cycles ==> since <= Max(key.cycles[id].startAt, key.cycles[id].usageSince)
  }

  lemma AdmissionOpensLater(key: Key, plan: Plan, at: int, id: Name, since: int)
    requires C.Legal(key, C.Admission(plan, at)) && OpenedSince(key, id, since) && since <= at
    ensures OpenedSince(Authorized(key, plan, at), id, since)
  {
    var k := Settled(key, at);
    OpenedIs(k.cycles, plan.windows, plan.id, at);
    if id in Authorized(key, plan, at).cycles && id !in k.cycles {
      var w :| w in plan.windows && w.id == id && Activated(k, plan, at).cycles[id] == NewCycle(w, plan.id, at);
    }
  }

  lemma EventOpensLater(key: Key, e: Option<C.Event>, id: Name, since: int)
    requires LegalEvent(key, e) && OpenedSince(key, id, since)
    requires e.Some? && e.value.Admission? ==> since <= e.value.at
    ensures OpenedSince(AfterEvent(key, e), id, since)
  {
    if e.Some? && e.value.Admission? { AdmissionOpensLater(key, e.value.plan, e.value.at, id, since); }
  }

  lemma StepOpensLater(s: State, op: Op, scope: Name, id: Name, since: int)
    requires Inv(s) && Legal(op) && OpenedSince(QuotaOf(s, scope), id, since)
    requires op.Authorize? && op.scope == scope ==> since <= op.at
    ensures OpenedSince(QuotaOf(Apply(s, op), scope), id, since)
  {
    StepIsEvent(s, op, scope);
    EventOpensLater(QuotaOf(s, scope), EventOf(s, op, scope), id, since);
  }

  ghost predicate AdmittedSince(ops: seq<Op>, scope: Name, since: int) {
    forall op :: op in ops && op.Authorize? && op.scope == scope ==> since <= op.at
  }

  lemma {:induction false} RunOpensLater(s: State, ops: seq<Op>, scope: Name, id: Name, since: int)
    requires Inv(s) && LegalOps(ops) && AdmittedSince(ops, scope, since)
    requires OpenedSince(QuotaOf(s, scope), id, since)
    ensures OpenedSince(QuotaOf(Run(s, ops), scope), id, since)
  {
    if ops != [] {
      var n := |ops| - 1;
      assert ops[n] in ops;
      RunOpensLater(s, ops[..n], scope, id, since);
      StepOpensLater(Run(s, ops[..n]), ops[n], scope, id, since);
    }
  }

  /**
   A window without a cycle, be it that a reset, a rebind or a plan edit dropped it, gets a replacement from
   some later admission. Whatever else the state machine does, usage that started before those admissions
   never reaches the replacement.
   */
  lemma ReplacementIgnoresOldUsage(s: State, ops: seq<Op>, scope: Name, id: Name, since: int, late: Op)
    requires Inv(s) && LegalOps(ops) && AdmittedSince(ops, scope, since)
    requires id !in QuotaOf(s, scope).cycles
    requires late.Report? && Legal(late) && late.scope == scope && late.start < since
    ensures var before, after := QuotaOf(Run(s, ops), scope), QuotaOf(Apply(Run(s, ops), late), scope);
            id in after.cycles ==> id in before.cycles && after.cycles[id] == before.cycles[id]
  {
    RunOpensLater(s, ops, scope, id, since);
    StepIsEvent(Run(s, ops), late, scope);
  }
}
