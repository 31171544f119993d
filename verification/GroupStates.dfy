/**
 Grouped billing as one state machine: groups, plans, binding periods and day ledgers.

 The ledger a usage record is charged to depends on its scope, its model and its start time only;
 no later operation moves it.
 */
module GroupStates {
  import opened Options
  import opened Text
  import opened Quota
  import opened GroupTexts
  import opened GroupBindings
  import opened GroupModels
  import Ledger = GroupLedger

  const MAX_CONCURRENCY_LIMIT: int := 10_000

  datatype Policy = Policy(groupId: Name, enabled: bool, dailyLimit: Option<int>, concurrencyLimit: Option<int>)

  datatype GroupPlan = GroupPlan(name: string, policies: seq<Policy>, revision: int)

  datatype Binding = Binding(periods: seq<Period>, revision: int, unclassified: int)

  datatype DayKey = DayKey(scope: Name, groupId: Name, date: int)

  datatype Groups = Groups(
    groups: map<Name, Group>, plans: map<Name, GroupPlan>, bindings: map<Name, Binding>, days: map<DayKey, Ledger.Day>)

  /** A usage record: an unset start time is Go's zero time; `arrived` is when the host reported it. */
  datatype Record = Record(
    scope: Name, model: Name, start: int, arrived: int, amount: Option<int>, billable: bool, tokens: Option<int>)

  const NO_BINDING := Binding([], 0, 0)

  function BindingOf(s: Groups, scope: Name): Binding {
    if scope in s.bindings then s.bindings[scope] else NO_BINDING
  }

  function DayOf(s: Groups, k: DayKey): Ledger.Day {
    if k in s.days then s.days[k] else Ledger.EMPTY_DAY
  }

  function PolicyOf(policies: seq<Policy>, groupId: Name): Option<Policy> {
    if policies == [] then None
    else if policies[0].groupId == groupId then Some(policies[0])
    else PolicyOf(policies[1..], groupId)
  }

  function PoliciesOf(s: Groups, planId: Name): seq<Policy> {
    if planId in s.plans then s.plans[planId].policies else []
  }

  predicate IsGrouped(s: Groups, scope: Name, at: int) {
    var b := BindingAt(BindingOf(s, scope).periods, at);
    b.Some? && b.value.mode == Grouped
  }

  // ---------------------------------------------------------------------------------------
  // Operations
  // ---------------------------------------------------------------------------------------

  predicate ValidPolicy(groups: map<Name, Group>, p: Policy) {
    && p.groupId in groups && groups[p.groupId].status == Published
    && (p.dailyLimit.Some? ==> p.dailyLimit.value > 0)
    && (p.concurrencyLimit.Some? ==> 1 <= p.concurrencyLimit.value <= MAX_CONCURRENCY_LIMIT)
  }

  predicate ValidPolicies(groups: map<Name, Group>, policies: seq<Policy>) {
    && policies != []
    && (forall i :: 0 <= i < |policies| ==> ValidPolicy(groups, policies[i]))
    && (forall i, j :: 0 <= i < j < |policies| ==> policies[i].groupId != policies[j].groupId)
  }

  /** No expected revision creates the plan, under an identifier that is not taken. */
  predicate CanSave(s: Groups, id: Name, expected: Option<int>, name: string, policies: seq<Policy>) {
    && ValidText(Trimmed(name), MAX_NAME, false) && ValidPolicies(s.groups, policies)
    && if expected.None? then id !in s.plans else id in s.plans && s.plans[id].revision == expected.value
  }

  function PlanSaved(s: Groups, id: Name, expected: Option<int>, name: string, policies: seq<Policy>): Groups {
    if !CanSave(s, id, expected, name, policies) then s else
      var revision := if expected.None? then 1 else expected.value + 1;
      s.(plans := s.plans[id := GroupPlan(Trimmed(name), policies, revision)])
  }

  predicate CanSchedule(s: Groups, scope: Name, live: bool, mode: Mode, planId: Option<Name>, expected: int) {
    && (mode == Grouped <==> planId.Some?)
    && live && (planId.Some? ==> planId.value in s.plans)
    && BindingOf(s, scope).revision == expected
  }

  function Scheduled(s: Groups, scope: Name, live: bool, mode: Mode, planId: Option<Name>, expected: int,
          now: int): Groups {
    if !CanSchedule(s, scope, live, mode, planId, expected) then s else
      var b := BindingOf(s, scope);
      var periods := Rescheduled(b.periods, now, mode, planId);
      s.(bindings := s.bindings[scope := Binding(periods, b.revision + 1, b.unclassified)])
  }

  function Today(scope: Name, groupId: Name, now: int): DayKey {
    DayKey(scope, groupId, GroupDate(now))
  }

  /** Only a grouped key with the group's policy, or with usage in it today, can be reset. */
  predicate CanReset(s: Groups, scope: Name, live: bool, groupId: Name, now: int) {
    var b := BindingAt(BindingOf(s, scope).periods, now);
    && live && groupId in s.groups && IsGrouped(s, scope, now)
    && (Today(scope, groupId, now) in s.days
        || (b.value.planId.Some? && PolicyOf(PoliciesOf(s, b.value.planId.value), groupId).Some?))
  }

  function DayReset(s: Groups, scope: Name, live: bool, groupId: Name, now: int): Groups {
    if !CanReset(s, scope, live, groupId, now) then s else
      LedgerReset(s, Today(scope, groupId, now), now)
  }

  function LedgerReset(s: Groups, k: DayKey, now: int): Groups {
    s.(days := s.days[k := Ledger.ResetAt(DayOf(s, k), now)])
  }

  datatype Target = OldMode | Unclassified | Day(key: DayKey)

  /** Where a record is charged: a function of its scope, model and start time. */
  ghost function TargetOf(s: Groups, scope: Name, model: Name, at: int, strip: Name -> Name): Target {
    if !IsGrouped(s, scope, at) then OldMode else
      match RequestOwner(s.groups, model, at, strip)
      case None => Unclassified
      case Some(id) => Day(DayKey(scope, id, GroupDate(at)))
  }

  /** A record without a start time is placed by its arrival, and never in a ledger. */
  ghost function RecordTarget(s: Groups, r: Record, strip: Name -> Name): Target {
    if !IsZero(r.start) then TargetOf(s, r.scope, r.model, r.start, strip)
    else if IsGrouped(s, r.scope, r.arrived) then Unclassified
    else OldMode
  }

  function ChargeOf(r: Record): Ledger.Charge {
    Ledger.Charge(r.start, r.amount, r.billable, r.tokens)
  }

  function CountedUnclassified(s: Groups, scope: Name): Groups {
    var b := BindingOf(s, scope);
    s.(bindings := s.bindings[scope := b.(unclassified := b.unclassified + 1)])
  }

  function ChargedTo(s: Groups, k: DayKey, c: Ledger.Charge): Groups {
    s.(days := s.days[k := Ledger.Charged(DayOf(s, k), c)])
  }

  ghost function Accounted(s: Groups, r: Record, strip: Name -> Name): Groups {
    match RecordTarget(s, r, strip)
    case OldMode => s
    case Unclassified => CountedUnclassified(s, r.scope)
    case Day(k) => ChargedTo(s, k, ChargeOf(r))
  }

  datatype Op =
    | Edit(edit: GroupOp)
    | SavePlan(id: Name, revision: Option<int>, name: string, policies: seq<Policy>)
    | Schedule(scope: Name, live: bool, mode: Mode, planId: Option<Name>, expected: int)
    | ResetDay(scope: Name, live: bool, groupId: Name)
    | Account(record: Record)

  ghost predicate Legal(op: Op) {
    op.Account? ==> Ledger.LegalCharge(ChargeOf(op.record))
  }

  /** A refused operation changes nothing. */
  ghost function Apply(s: Groups, op: Op, now: int, strip: Name -> Name): Groups {
    match op
    case Edit(edit) => s.(groups := Applied(s.groups, edit, now))
    case SavePlan(id, revision, name, policies) => PlanSaved(s, id, revision, name, policies)
    case Schedule(scope, live, mode, planId, expected) => Scheduled(s, scope, live, mode, planId, expected, now)
    case ResetDay(scope, live, groupId) => DayReset(s, scope, live, groupId, now)
    case Account(r) => Accounted(s, r, strip)
  }

  // ---------------------------------------------------------------------------------------
  // The invariant
  // ---------------------------------------------------------------------------------------

  /** A stored policy: its group was published once, and its limits are positive. */
  ghost predicate PolicyOk(groups: map<Name, Group>, p: Policy) {
    && p.groupId in groups && groups[p.groupId].status != Draft
    && (p.dailyLimit.Some? ==> p.dailyLimit.value > 0)
    && (p.concurrencyLimit.Some? ==> 1 <= p.concurrencyLimit.value <= MAX_CONCURRENCY_LIMIT)
  }

  ghost predicate PlansOk(s: Groups) {
    forall id, p :: id in s.plans && p in s.plans[id].policies ==> PolicyOk(s.groups, p)
  }

  ghost predicate BindingOk(b: Binding, plans: map<Name, GroupPlan>, clock: int) {
    && Chain(b.periods, clock)
    && forall p :: p in b.periods && p.planId.Some? ==> p.planId.value in plans
  }

  ghost predicate Inv(s: Groups, clock: int) {
    && CatalogueOk(s.groups, clock)
    && PlansOk(s)
    && (forall scope :: scope in s.bindings ==> BindingOk(s.bindings[scope], s.plans, clock))
    && (forall k :: k in s.days ==> Ledger.Bounded(s.days[k]))
  }

  lemma BindingOfOk(s: Groups, scope: Name, clock: int)
    requires Inv(s, clock)
    ensures BindingOk(BindingOf(s, scope), s.plans, clock)
  {
  }

  lemma BindingAges(b: Binding, plans: map<Name, GroupPlan>, clock: int, now: int)
    requires BindingOk(b, plans, clock) && clock <= now
    ensures BindingOk(b, plans, now)
  {
    ChainAges(b.periods, clock, now);
  }

  lemma InvAges(s: Groups, clock: int, now: int)
    requires Inv(s, clock) && clock <= now
    ensures Inv(s, now)
  {
    forall scope | scope in s.bindings ensures BindingOk(s.bindings[scope], s.plans, now) {
      BindingAges(s.bindings[scope], s.plans, clock, now);
    }
  }

  /** A group that left the draft state never returns to it, so stored policies stay sound. */
  lemma EditInv(s: Groups, clock: int, edit: GroupOp, now: int)
    requires Inv(s, clock) && clock <= now
    ensures Inv(s.(groups := Applied(s.groups, edit, now)), now)
  {
    InvAges(s, clock, now);
    CatalogueKept(s.groups, clock, edit, now);
    var t := s.(groups := Applied(s.groups, edit, now));
    forall id, p | id in t.plans && p in t.plans[id].policies ensures PolicyOk(t.groups, p) {
      assert PolicyOk(s.groups, p);
    }
  }

  lemma SaveInv(s: Groups, now: int, id: Name, expected: Option<int>, name: string, policies: seq<Policy>)
    requires Inv(s, now)
    ensures Inv(PlanSaved(s, id, expected, name, policies), now)
  {
    var t := PlanSaved(s, id, expected, name, policies);
    if CanSave(s, id, expected, name, policies) {
      forall j, p | j in t.plans && p in t.plans[j].policies ensures PolicyOk(t.groups, p) {
        if j == id { assert ValidPolicy(s.groups, p); } else { assert PolicyOk(s.groups, p); }
      }
      forall scope | scope in t.bindings ensures BindingOk(t.bindings[scope], t.plans, now) {
        assert BindingOk(s.bindings[scope], s.plans, now);
      }
    }
  }

  lemma {:induction false} StartedPlans(periods: seq<Period>, now: int, boundary: int, plans: map<Name, GroupPlan>)
    requires forall p :: p in periods && p.planId.Some? ==> p.planId.value in plans
    ensures forall p :: p in Started(periods, now, boundary) && p.planId.Some? ==> p.planId.value in plans
  {
    if periods != [] { StartedPlans(periods[..|periods| - 1], now, boundary, plans); }
  }

  lemma ScheduleInv(s: Groups, clock: int, scope: Name, live: bool, mode: Mode, planId: Option<Name>,
          expected: int, now: int)
    requires Inv(s, clock) && clock <= now
    ensures Inv(Scheduled(s, scope, live, mode, planId, expected, now), now)
  {
    InvAges(s, clock, now);
    var t := Scheduled(s, scope, live, mode, planId, expected, now);
    if CanSchedule(s, scope, live, mode, planId, expected) {
      var b := BindingOf(s, scope);
      BindingOfOk(s, scope, clock);
      RescheduledChain(b.periods, clock, now, mode, planId);
      StartedPlans(b.periods, now, NextGroupDay(now), s.plans);
      assert BindingOk(t.bindings[scope], t.plans, now);
    }
  }

  lemma AccountInv(s: Groups, now: int, r: Record, strip: Name -> Name)
    requires Inv(s, now) && Ledger.LegalCharge(ChargeOf(r))
    ensures Inv(Accounted(s, r, strip), now)
  {
    BindingOfOk(s, r.scope, now);
    var target := RecordTarget(s, r, strip);
    if target.Day? {
      Ledger.UsageOnlyAdds(DayOf(s, target.key), ChargeOf(r));
    }
  }

  lemma ApplyInv(s: Groups, clock: int, op: Op, now: int, strip: Name -> Name)
    requires Inv(s, clock) && clock <= now && Legal(op)
    ensures Inv(Apply(s, op, now, strip), now)
  {
    InvAges(s, clock, now);
    match op
    case Edit(edit) => EditInv(s, clock, edit, now);
    case SavePlan(id, revision, name, policies) => SaveInv(s, now, id, revision, name, policies);
    case Schedule(scope, live, mode, planId, expected) =>
      ScheduleInv(s, clock, scope, live, mode, planId, expected, now);
    case ResetDay(scope, live, groupId) =>
    case Account(r) => AccountInv(s, now, r, strip);
  }

  // ---------------------------------------------------------------------------------------
  // Runs under a clock that never goes back
  // ---------------------------------------------------------------------------------------

  datatype Step = Step(op: Op, now: int)

  predicate Timed(steps: seq<Step>, clock: int)
    decreases |steps|
  {
    steps == [] || (clock <= steps[0].now && Timed(steps[1..], steps[0].now))
  }

  ghost predicate LegalSteps(steps: seq<Step>) {
    forall i :: 0 <= i < |steps| ==> Legal(steps[i].op)
  }

  function ClockAfter(steps: seq<Step>, clock: int): int {
    if steps == [] then clock else steps[|steps| - 1].now
  }

  ghost function Run(s: Groups, steps: seq<Step>, strip: Name -> Name): Groups
    decreases |steps|
  {
    if steps == [] then s else Run(Apply(s, steps[0].op, steps[0].now, strip), steps[1..], strip)
  }

  /** One step of a run, and what is left of it. */
  lemma FirstStepInv(s: Groups, clock: int, steps: seq<Step>, strip: Name -> Name) returns (u: Groups)
    requires Inv(s, clock) && Timed(steps, clock) && LegalSteps(steps) && steps != []
    ensures u == Apply(s, steps[0].op, steps[0].now, strip) && Inv(u, steps[0].now)
    ensures Timed(steps[1..], steps[0].now) && LegalSteps(steps[1..])
    ensures ClockAfter(steps[1..], steps[0].now) == ClockAfter(steps, clock)
  {
    u := Apply(s, steps[0].op, steps[0].now, strip);
    ApplyInv(s, clock, steps[0].op, steps[0].now, strip);
  }

  lemma {:induction false} RunInv(s: Groups, clock: int, steps: seq<Step>, strip: Name -> Name)
    requires Inv(s, clock) && Timed(steps, clock) && LegalSteps(steps)
    ensures Inv(Run(s, steps, strip), ClockAfter(steps, clock))
    decreases |steps|
  {
    if steps != [] {
      var u := FirstStepInv(s, clock, steps, strip);
      RunInv(u, steps[0].now, steps[1..], strip);
    }
  }

  // ---------------------------------------------------------------------------------------
  // Frozen history
  // ---------------------------------------------------------------------------------------

  /** Only a reschedule touches binding periods. */
  lemma PeriodsKept(s: Groups, op: Op, now: int, strip: Name -> Name, scope: Name)
    requires !op.Schedule?
    ensures BindingOf(Apply(s, op, now, strip), scope).periods == BindingOf(s, scope).periods
  {
  }

  lemma ScheduledMode(s: Groups, clock: int, key: Name, live: bool, mode: Mode, planId: Option<Name>,
          expected: int, now: int, scope: Name, at: int)
    requires Inv(s, clock) && clock <= now && at < NextGroupDay(now)
    ensures IsGrouped(Scheduled(s, key, live, mode, planId, expected, now), scope, at) <==> IsGrouped(s, scope, at)
  {
    if key == scope && CanSchedule(s, scope, live, mode, planId, expected) {
      BindingOfOk(s, scope, clock);
      RescheduleIsExact(BindingOf(s, scope).periods, clock, now, mode, planId, at);
    }
  }

  lemma ModeIsFrozen(s: Groups, clock: int, op: Op, now: int, strip: Name -> Name, scope: Name, at: int)
    requires Inv(s, clock) && clock <= now && at < NextGroupDay(now)
    ensures IsGrouped(Apply(s, op, now, strip), scope, at) <==> IsGrouped(s, scope, at)
  {
    if op.Schedule? {
      ScheduledMode(s, clock, op.scope, op.live, op.mode, op.planId, op.expected, now, scope, at);
    } else {
      PeriodsKept(s, op, now, strip, scope);
    }
  }

  lemma OwnersAreFrozen(s: Groups, clock: int, op: Op, now: int, strip: Name -> Name, model: Name, at: int)
    requires Inv(s, clock) && clock <= now && at < now
    ensures RequestOwner(Apply(s, op, now, strip).groups, model, at, strip) == RequestOwner(s.groups, model, at, strip)
  {
    if op.Edit? {
      OwnerIsFrozen(s.groups, clock, op.edit, now, model, at);
      OwnerIsFrozen(s.groups, clock, op.edit, now, strip(model), at);
    }
  }

  lemma TargetIsFrozen(s: Groups, clock: int, op: Op, now: int, strip: Name -> Name, scope: Name, model: Name, at: int)
    requires Inv(s, clock) && clock <= now && at < now
    ensures TargetOf(Apply(s, op, now, strip), scope, model, at, strip) == TargetOf(s, scope, model, at, strip)
  {
    ModeIsFrozen(s, clock, op, now, strip, scope, at);
    OwnersAreFrozen(s, clock, op, now, strip, model, at);
  }

  /**
   The target of a usage record is a function of scope, model and start time only: whatever
   operations follow its start, the record lands where it would have landed at once.
   */
  lemma {:induction false} DelayedUsageLandsTheSame(s: Groups, clock: int, steps: seq<Step>,
          strip: Name -> Name, scope: Name, model: Name, at: int)
    requires Inv(s, clock) && Timed(steps, clock) && LegalSteps(steps)
    requires steps != [] ==> at < steps[0].now
    ensures TargetOf(Run(s, steps, strip), scope, model, at, strip) == TargetOf(s, scope, model, at, strip)
    decreases |steps|
  {
    if steps != [] {
      var t := Apply(s, steps[0].op, steps[0].now, strip);
      TargetIsFrozen(s, clock, steps[0].op, steps[0].now, strip, scope, model, at);
      ApplyInv(s, clock, steps[0].op, steps[0].now, strip);
      DelayedUsageLandsTheSame(t, steps[0].now, steps[1..], strip, scope, model, at);
    }
  }

  /** The publication that gives a grouped key's request an owner, or a better one. */
  ghost predicate Moves(s: Groups, op: Op, now: int, strip: Name -> Name, scope: Name, model: Name) {
    && IsGrouped(s, scope, now)
    && op.Edit? && op.edit.Publish? && Edited(s.groups, op.edit, now).Some?
    && (model in s.groups[op.edit.id].models
        || (strip(model) in s.groups[op.edit.id].models && OwnerOf(s.groups, model, now).None?))
  }

  /**
   At the very instant of an operation the target is not frozen. It moves exactly when a grouped
   key's request is given an owner, or a new one, by the publication made at that instant.
   */
  lemma TargetNowChangesIff(s: Groups, clock: int, op: Op, now: int, strip: Name -> Name, scope: Name, model: Name)
    requires Inv(s, clock) && clock <= now
    ensures TargetOf(Apply(s, op, now, strip), scope, model, now, strip) != TargetOf(s, scope, model, now, strip) <==>
              Moves(s, op, now, strip, scope, model)
  {
    ModeIsFrozen(s, clock, op, now, strip, scope, now);
    if op.Edit? {
      RequestOwnerNowChangesIff(s.groups, clock, op.edit, now, model, strip);
    } else {
      GroupsKept(s, op, now, strip);
    }
  }

  lemma GroupsKept(s: Groups, op: Op, now: int, strip: Name -> Name)
    requires !op.Edit?
    ensures Apply(s, op, now, strip).groups == s.groups
  {
  }

  lemma RequestOwnerNowChangesIff(groups: map<Name, Group>, clock: int, op: GroupOp, now: int, model: Name,
          strip: Name -> Name)
    requires CatalogueOk(groups, clock) && clock <= now
    ensures RequestOwner(Applied(groups, op, now), model, now, strip) != RequestOwner(groups, model, now, strip) <==>
              && op.Publish? && Edited(groups, op, now).Some?
              && (model in groups[op.id].models
                  || (strip(model) in groups[op.id].models && OwnerOf(groups, model, now).None?))
  {
    OwnerNowChangesIff(groups, clock, op, now, model);
    OwnerNowChangesIff(groups, clock, op, now, strip(model));
    OwnerAfterPublish(groups, clock, op, now, model);
    OwnerAfterPublish(groups, clock, op, now, strip(model));
    if op.Publish? && Edited(groups, op, now).Some? {
      OwnerIsOld(groups, op, now, model);
      OwnerIsOld(groups, op, now, strip(model));
    }
  }

  /** A draft owns nothing, so an owner is never the group being published. */
  lemma OwnerIsOld(groups: map<Name, Group>, op: GroupOp, now: int, model: Name)
    requires op.Publish? && Edited(groups, op, now).Some?
    ensures OwnerOf(groups, model, now) != Some(op.id)
  {
  }

  lemma OwnerAfterPublish(groups: map<Name, Group>, clock: int, op: GroupOp, now: int, model: Name)
    requires CatalogueOk(groups, clock) && clock <= now
    ensures op.Publish? && Edited(groups, op, now).Some? && model in groups[op.id].models ==>
              OwnerOf(groups, model, now) == None && OwnerOf(Applied(groups, op, now), model, now) == Some(op.id)
  {
    if op.Publish? && Edited(groups, op, now).Some? && model in groups[op.id].models {
      CatalogueKept(groups, clock, op, now);
      assert ValidModels(groups[op.id].models);
      assert IsOwner(Applied(groups, op, now), op.id, model, now);
      OwnerIsUnique(Applied(groups, op, now), op.id, model, now);
    }
  }

  // ---------------------------------------------------------------------------------------
  // History at the very instant of operations
  // ---------------------------------------------------------------------------------------

  /** Some step made at the instant moves the target. */
  ghost predicate SomeMove(s: Groups, steps: seq<Step>, strip: Name -> Name, scope: Name, model: Name, at: int)
    decreases |steps|
  {
    steps != [] &&
    ((steps[0].now == at && Moves(s, steps[0].op, at, strip, scope, model))
     || SomeMove(Apply(s, steps[0].op, steps[0].now, strip), steps[1..], strip, scope, model, at))
  }

  /** No owner, the owner of the model without its suffix, the owner of the model itself. */
  ghost function Rank(groups: map<Name, Group>, model: Name, at: int, strip: Name -> Name): nat {
    if OwnerOf(groups, model, at).Some? then 2 else if OwnerOf(groups, strip(model), at).Some? then 1 else 0
  }

  /** An owner at an instant stays the owner then. */
  lemma OwnerStaysNow(groups: map<Name, Group>, clock: int, op: GroupOp, now: int, model: Name)
    requires CatalogueOk(groups, clock) && clock <= now
    ensures OwnerOf(groups, model, now).Some? ==>
            OwnerOf(Applied(groups, op, now), model, now) == OwnerOf(groups, model, now)
  {
    OwnerNowChangesIff(groups, clock, op, now, model);
    OwnerAfterPublish(groups, clock, op, now, model);
  }

  lemma RankGrows(s: Groups, clock: int, op: Op, now: int, strip: Name -> Name, scope: Name, model: Name)
    requires Inv(s, clock) && clock <= now
    ensures var t := Apply(s, op, now, strip);
            && Rank(s.groups, model, now, strip) <= Rank(t.groups, model, now, strip)
            && (Moves(s, op, now, strip, scope, model) ==>
                 Rank(s.groups, model, now, strip) < Rank(t.groups, model, now, strip))
  {
    if op.Edit? {
      OwnerStaysNow(s.groups, clock, op.edit, now, model);
      OwnerStaysNow(s.groups, clock, op.edit, now, strip(model));
      OwnerAfterPublish(s.groups, clock, op.edit, now, model);
      OwnerAfterPublish(s.groups, clock, op.edit, now, strip(model));
    } else {
      GroupsKept(s, op, now, strip);
    }
  }

  /** Ranks at an earlier instant are frozen too. */
  lemma RankIsFrozen(s: Groups, clock: int, op: Op, now: int, strip: Name -> Name, model: Name, at: int)
    requires Inv(s, clock) && clock <= now && at < now
    ensures Rank(Apply(s, op, now, strip).groups, model, at, strip) == Rank(s.groups, model, at, strip)
  {
    if op.Edit? {
      OwnerIsFrozen(s.groups, clock, op.edit, now, model, at);
      OwnerIsFrozen(s.groups, clock, op.edit, now, strip(model), at);
    }
  }

  /** While nothing moves the target it stays; once something did, the request has a better owner for good. */
  lemma {:induction false} RunRank(s: Groups, clock: int, steps: seq<Step>, strip: Name -> Name, scope: Name,
          model: Name, at: int)
    requires Inv(s, clock) && Timed(steps, clock) && LegalSteps(steps) && (steps != [] ==> at <= steps[0].now)
    ensures var t := Run(s, steps, strip);
            && Rank(s.groups, model, at, strip) <= Rank(t.groups, model, at, strip)
            && (SomeMove(s, steps, strip, scope, model, at) ==>
                  IsGrouped(s, scope, at) && Rank(s.groups, model, at, strip) < Rank(t.groups, model, at, strip))
            && (!SomeMove(s, steps, strip, scope, model, at) ==>
                  TargetOf(t, scope, model, at, strip) == TargetOf(s, scope, model, at, strip))
            && (IsGrouped(t, scope, at) <==> IsGrouped(s, scope, at))
    decreases |steps|
  {
    if steps != [] {
      var op, now := steps[0].op, steps[0].now;
      ApplyInv(s, clock, op, now, strip);
      ModeIsFrozen(s, clock, op, now, strip, scope, at);
      RunRank(Apply(s, op, now, strip), now, steps[1..], strip, scope, model, at);
      if now == at {
        RankGrows(s, clock, op, now, strip, scope, model);
        TargetNowChangesIff(s, clock, op, now, strip, scope, model);
      } else {
        RankIsFrozen(s, clock, op, now, strip, model, at);
        TargetIsFrozen(s, clock, op, now, strip, scope, model, at);
      }
    }
  }

  /** What left the draft state keeps its models and its publication time. */
  ghost predicate PublishedKept(a: map<Name, Group>, b: map<Name, Group>) {
    forall id :: id in a && a[id].status != Draft ==>
      id in b && b[id].status != Draft && b[id].models == a[id].models && b[id].publishedAt == a[id].publishedAt
  }

  lemma {:induction false} RunKeepsPublished(s: Groups, steps: seq<Step>, strip: Name -> Name)
    ensures PublishedKept(s.groups, Run(s, steps, strip).groups)
    decreases |steps|
  {
    if steps != [] {
      RunKeepsPublished(Apply(s, steps[0].op, steps[0].now, strip), steps[1..], strip);
      StepKeepsPublished(s, steps[0].op, steps[0].now, strip);
    }
  }

  lemma StepKeepsPublished(s: Groups, op: Op, now: int, strip: Name -> Name)
    ensures PublishedKept(s.groups, Apply(s, op, now, strip).groups)
  {
    if !op.Edit? { GroupsKept(s, op, now, strip); }
  }

  /** A better owner is another one. */
  lemma BetterIsOther(a: map<Name, Group>, b: map<Name, Group>, model: Name, at: int, strip: Name -> Name)
    requires PublishedKept(a, b) && Rank(a, model, at, strip) < Rank(b, model, at, strip)
    ensures RequestOwner(a, model, at, strip) != RequestOwner(b, model, at, strip)
  {
    var earlier, next := RequestOwner(a, model, at, strip), RequestOwner(b, model, at, strip);
    if earlier == next && earlier.Some? {
      assert IsOwner(a, earlier.value, strip(model), at);
      assert IsOwner(b, next.value, model, at);
      assert IsOwner(a, earlier.value, model, at);
    }
  }

  lemma TargetMovesFrom(s: Groups, clock: int, steps: seq<Step>, strip: Name -> Name, scope: Name, model: Name, at: int)
    requires Inv(s, clock) && Timed(steps, clock) && LegalSteps(steps) && (steps != [] ==> at <= steps[0].now)
    ensures TargetOf(Run(s, steps, strip), scope, model, at, strip) != TargetOf(s, scope, model, at, strip) <==>
              SomeMove(s, steps, strip, scope, model, at)
  {
    RunRank(s, clock, steps, strip, scope, model, at);
    if SomeMove(s, steps, strip, scope, model, at) {
      RunKeepsPublished(s, steps, strip);
      BetterIsOther(s.groups, Run(s, steps, strip).groups, model, at, strip);
    }
  }

  /** How many steps of a run come before an instant. */
  function Earlier(steps: seq<Step>, at: int): (n: nat)
    ensures n <= |steps|
  {
    if steps == [] || at <= steps[0].now then 0 else Earlier(steps[1..], at) + 1
  }

  /**
   The exact statement over whole runs and every instant, past or to come: once the clock has reached the
   start of a record, its target moves exactly when an operation made at that very instant gives its request
   an owner or a better one.
   */
  lemma {:induction false} TargetMovesIff(s: Groups, clock: int, steps: seq<Step>, strip: Name -> Name, scope: Name,
          model: Name, at: int)
    requires Inv(s, clock) && Timed(steps, clock) && LegalSteps(steps)
    ensures var n := Earlier(steps, at);
            var reached := Run(s, steps[..n], strip);
            TargetOf(Run(s, steps, strip), scope, model, at, strip) != TargetOf(reached, scope, model, at, strip) <==>
              SomeMove(reached, steps[n..], strip, scope, model, at)
    decreases |steps|
  {
    if steps == [] || at <= steps[0].now {
      TargetMovesFrom(s, clock, steps, strip, scope, model, at);
    } else {
      var n := Earlier(steps, at);
      ApplyInv(s, clock, steps[0].op, steps[0].now, strip);
      assert steps[..n][1..] == steps[1..][..n - 1];
      TargetMovesIff(Apply(s, steps[0].op, steps[0].now, strip), steps[0].now, steps[1..], strip, scope, model, at);
    }
  }

  /** An instance: publishing the draft that has the model moves the target of a record that starts just then. */
  lemma PublicationMovesTarget() returns (s: Groups, op: Op, now: int, strip: Name -> Name, scope: Name, model: Name)
    ensures Inv(s, now) && IsGrouped(s, scope, now) && Legal(op)
    ensures TargetOf(s, scope, model, now, strip) == Unclassified
    ensures TargetOf(Apply(s, op, now, strip), scope, model, now, strip) ==
              Day(DayKey(scope, Name("g"), GroupDate(now)))
  {
    scope, model, now, strip := Name("key"), Name("m"), NextGroupDay(0), n => n;
    var draft := Group(Draft, true, [model], 1, None, About("g", "", 0));
    var period := Period(Grouped, Some(Name("p")), now, None);
    s := Groups(map[Name("g") := draft], map[Name("p") := GroupPlan("p", [], 1)],
                map[scope := Binding([period], 1, 0)], map[]);
    op := Edit(Publish(Name("g"), 1));
    NextGroupDayMonotone(0, now);
    assert BindingAt([period], now) == Some(period);
    forall id, m ensures !IsOwner(s.groups, id, m, now) { }
    var t := Apply(s, op, now, strip);
    assert !IsSpace(draft.about.name[0]) && Trimmed("g") == "g";
    assert CatalogueOk(s.groups, now);
    assert Edited(s.groups, op.edit, now).Some?;
    OwnerAfterPublish(s.groups, now, op.edit, now, model);
  }
}
