/**
 What charging and admission mean, by the periods that cover an instant, the groups that own a model and the
 policies of a plan: without the searches that find them.
 */
module GroupMeaning {
  import opened Options
  import opened Text
  import opened Quota
  import opened GroupTexts
  import opened GroupBindings
  import opened GroupModels
  import opened GroupStates
  import opened GroupGate
  import Ledger = GroupLedger

  // ---------------------------------------------------------------------------------------
  // Periods, owners, policies
  // ---------------------------------------------------------------------------------------

  /** The period of the key that covers the instant. */
  ghost predicate InForce(s: Groups, scope: Name, p: Period, at: int) {
    && scope in s.bindings && p in s.bindings[scope].periods
    && p.from <= at && (p.to.Some? ==> at < p.to.value)
  }

  ghost predicate GroupedAt(s: Groups, scope: Name, at: int) {
    exists p :: InForce(s, scope, p, at) && p.mode == Grouped
  }

  /** The group has the model and was published by then; archiving it later does not matter. */
  ghost predicate Had(groups: map<Name, Group>, id: Name, model: Name, at: int) {
    && model != NO_NAME && id in groups && model in groups[id].models
    && groups[id].status != Draft && groups[id].publishedAt.Some? && groups[id].publishedAt.value <= at
  }

  /** The group of a request: that of the model, and only without one that of the model without its suffix. */
  ghost predicate HadRequest(groups: map<Name, Group>, id: Name, model: Name, at: int, strip: Name -> Name) {
    Had(groups, id, model, at) || (Had(groups, id, strip(model), at) && forall j :: !Had(groups, j, model, at))
  }

  /** The first policy for the group in the plan that is in force. */
  ghost predicate Subscribed(s: Groups, scope: Name, id: Name, at: int, policy: Policy) {
    exists p :: InForce(s, scope, p, at) && p.mode == Grouped && p.planId.Some? && p.planId.value in s.plans
                && FirstFor(s.plans[p.planId.value].policies, id, policy)
  }

  ghost predicate FirstFor(policies: seq<Policy>, id: Name, policy: Policy) {
    exists i :: 0 <= i < |policies| && policies[i] == policy && policy.groupId == id
                && forall j :: 0 <= j < i ==> policies[j].groupId != id
  }

  lemma CoverIsInForce(s: Groups, clock: int, scope: Name, at: int, p: Period)
    requires Chain(BindingOf(s, scope).periods, clock)
    ensures BindingAt(BindingOf(s, scope).periods, at) == Some(p) <==> InForce(s, scope, p, at)
  {
    var periods := BindingOf(s, scope).periods;
    BindingIsStored(periods, at);
    if InForce(s, scope, p, at) {
      var i :| 0 <= i < |periods| && periods[i] == p;
      CoverIsUnique(periods, clock, i, at);
    }
  }

  lemma BindingIsInForce(s: Groups, clock: int, scope: Name, at: int, p: Period)
    requires Inv(s, clock)
    ensures BindingAt(BindingOf(s, scope).periods, at) == Some(p) <==> InForce(s, scope, p, at)
  {
    BindingOfOk(s, scope, clock);
    CoverIsInForce(s, clock, scope, at, p);
  }

  lemma {:induction false} BindingIsStored(periods: seq<Period>, at: int)
    ensures BindingAt(periods, at).Some? ==>
              BindingAt(periods, at).value in periods && Covers(BindingAt(periods, at).value, at)
  {
    if periods != [] { BindingIsStored(periods[1..], at); }
  }

  lemma GroupedIff(s: Groups, clock: int, scope: Name, at: int)
    requires Inv(s, clock)
    ensures IsGrouped(s, scope, at) <==> GroupedAt(s, scope, at)
  {
    var b := BindingAt(BindingOf(s, scope).periods, at);
    if b.Some? { BindingIsInForce(s, clock, scope, at, b.value); }
    if p :| InForce(s, scope, p, at) && p.mode == Grouped { BindingIsInForce(s, clock, scope, at, p); }
  }

  lemma OwnerIff(groups: map<Name, Group>, model: Name, at: int, id: Name)
    requires Exclusive(groups)
    ensures OwnerOf(groups, model, at) == Some(id) <==> Had(groups, id, model, at)
  {
    if Had(groups, id, model, at) {
      assert IsOwner(groups, id, model, at);
      OwnerIsUnique(groups, id, model, at);
    }
  }

  lemma RequestOwnerIff(groups: map<Name, Group>, model: Name, at: int, strip: Name -> Name, id: Name)
    requires Exclusive(groups)
    ensures RequestOwner(groups, model, at, strip) == Some(id) <==> HadRequest(groups, id, model, at, strip)
  {
    forall j ensures OwnerOf(groups, model, at) == Some(j) <==> Had(groups, j, model, at) {
      OwnerIff(groups, model, at, j);
    }
    OwnerIff(groups, strip(model), at, id);
  }

  lemma {:induction false} PolicyIff(policies: seq<Policy>, id: Name, policy: Policy)
    ensures PolicyOf(policies, id) == Some(policy) <==> FirstFor(policies, id, policy)
  {
    if policies != [] && policies[0].groupId != id {
      PolicyIff(policies[1..], id, policy);
      if i :| 0 <= i < |policies| && policies[i] == policy && policy.groupId == id
              && forall j :: 0 <= j < i ==> policies[j].groupId != id {
        assert policies[1..][i - 1] == policy;
        assert forall j :: 0 <= j < i - 1 ==> policies[1..][j] == policies[j + 1];
      }
      if i :| 0 <= i < |policies[1..]| && policies[1..][i] == policy && policy.groupId == id
              && forall j :: 0 <= j < i ==> policies[1..][j].groupId != id {
        assert policies[i + 1] == policy;
        forall j | 0 <= j < i + 1 ensures policies[j].groupId != id {
          if j > 0 { assert policies[j] == policies[1..][j - 1]; }
        }
      }
    }
  }

  // ---------------------------------------------------------------------------------------
  // Charging
  // ---------------------------------------------------------------------------------------

  /** A record with a start time is placed by it, another by its arrival. */
  function PlacedAt(r: Record): int {
    if IsZero(r.start) then r.arrived else r.start
  }

  /** The group whose ledger the record is charged to. */
  ghost predicate ChargedGroup(s: Groups, r: Record, strip: Name -> Name, id: Name) {
    GroupedAt(s, r.scope, r.start) && !IsZero(r.start) && HadRequest(s.groups, id, r.model, r.start, strip)
  }

  /**
   What a record does: nothing when its key was not grouped; else it is charged to the ledger of its key, of the
   group of its model and of the day it started, or counted as unclassified when there is none.
   */
  ghost predicate RecordDoes(s: Groups, r: Record, strip: Name -> Name, t: Groups) {
    && (!GroupedAt(s, r.scope, PlacedAt(r)) ==> t == s)
    && (forall id :: ChargedGroup(s, r, strip, id) ==>
          var k, c := DayKey(r.scope, id, GroupDate(r.start)), Ledger.Charge(r.start, r.amount, r.billable, r.tokens);
          t == s.(days := s.days[k := Ledger.Charged(DayOf(s, k), c)]))
    && (GroupedAt(s, r.scope, PlacedAt(r)) && (forall id :: !ChargedGroup(s, r, strip, id)) ==>
          && r.scope in s.bindings
          && var b := s.bindings[r.scope];
             t == s.(bindings := s.bindings[r.scope := b.(unclassified := b.unclassified + 1)]))
  }

  /** The target of a record, in the same terms. */
  ghost predicate TargetIs(s: Groups, r: Record, strip: Name -> Name, target: Target) {
    && (target == OldMode <==> !GroupedAt(s, r.scope, PlacedAt(r)))
    && (forall id :: target == Day(DayKey(r.scope, id, GroupDate(r.start))) <==> ChargedGroup(s, r, strip, id))
    && (target.Day? ==> ChargedGroup(s, r, strip, target.key.groupId))
  }

  lemma TargetIff(s: Groups, clock: int, r: Record, strip: Name -> Name)
    requires Inv(s, clock)
    ensures TargetIs(s, r, strip, RecordTarget(s, r, strip))
  {
    GroupedIff(s, clock, r.scope, PlacedAt(r));
    forall id ensures RequestOwner(s.groups, r.model, r.start, strip) == Some(id) <==>
                        HadRequest(s.groups, id, r.model, r.start, strip) {
      RequestOwnerIff(s.groups, r.model, r.start, strip, id);
    }
  }

  lemma AccountsTo(s: Groups, r: Record, strip: Name -> Name)
    requires TargetIs(s, r, strip, RecordTarget(s, r, strip))
    ensures RecordDoes(s, r, strip, Accounted(s, r, strip))
  {
  }

  lemma AccountMeans(s: Groups, clock: int, r: Record, strip: Name -> Name)
    requires Inv(s, clock)
    ensures RecordDoes(s, r, strip, Accounted(s, r, strip))
  {
    TargetIff(s, clock, r, strip);
    AccountsTo(s, r, strip);
  }

  // ---------------------------------------------------------------------------------------
  // Admission
  // ---------------------------------------------------------------------------------------

  /** The policy that opens the group to the key: switched on, as the group itself is, and the group published. */
  ghost predicate OpenedBy(s: Groups, scope: Name, id: Name, now: int, p: Policy) {
    && Subscribed(s, scope, id, now, p) && p.enabled
    && id in s.groups && s.groups[id].enabled && s.groups[id].status == Published
  }

  /** What counts against the limit of the day: everything spent and not forgiven. */
  function SpentToday(s: Groups, k: DayKey): int {
    if k in s.days then s.days[k].raw - s.days[k].credit else 0
  }

  ghost predicate Broken(s: Groups, k: DayKey) {
    k in s.days && s.days[k].error
  }

  /** The ledger's answer under an open policy. */
  ghost predicate DayAnswers(s: Groups, k: DayKey, p: Policy, now: int, gate: Gate) {
    if Broken(s, k) then gate == Refused(AccountingUnavailable, None)
    else if p.dailyLimit.Some? && SpentToday(s, k) >= p.dailyLimit.value then
      gate == Refused(QuotaExceeded, Some(NextGroupDay(now)))
    else gate == Open(k.groupId, p.concurrencyLimit)
  }

  /**
   The answer to a request: not for this gate when the key is not grouped; refused while the books are not saved,
   when no group has the model, and when no policy opens the group; else what today's ledger says.
   */
  ghost predicate Answers(s: Groups, scope: Name, wanted: Name, now: int, saved: bool, strip: Name -> Name,
          gate: Gate)
  {
    && (gate == NotGrouped <==> !GroupedAt(s, scope, now))
    && (GroupedAt(s, scope, now) && !saved ==> gate == Refused(AccountingUnavailable, None))
    && (GroupedAt(s, scope, now) && saved ==>
          && ((forall id :: !HadRequest(s.groups, id, wanted, now, strip)) ==> gate == Refused(ModelNotGrouped, None))
          && (forall id ::
                HadRequest(s.groups, id, wanted, now, strip) && (forall p :: !OpenedBy(s, scope, id, now, p)) ==>
                  gate == Refused(GroupDisabled, None))
          && (forall id, p :: HadRequest(s.groups, id, wanted, now, strip) && OpenedBy(s, scope, id, now, p) ==>
                DayAnswers(s, DayKey(scope, id, GroupDate(now)), p, now, gate)))
  }

  lemma SubscribedIff(s: Groups, clock: int, scope: Name, id: Name, now: int, b: Period, policy: Policy)
    requires Inv(s, clock) && BindingAt(BindingOf(s, scope).periods, now) == Some(b)
    requires b.mode == Grouped && b.planId.Some?
    ensures PolicyOf(PoliciesOf(s, b.planId.value), id) == Some(policy) <==> Subscribed(s, scope, id, now, policy)
  {
    BindingIsInForce(s, clock, scope, now, b);
    PolicyIff(PoliciesOf(s, b.planId.value), id, policy);
    if p :| InForce(s, scope, p, now) && p.mode == Grouped && p.planId.Some? && p.planId.value in s.plans
            && FirstFor(s.plans[p.planId.value].policies, id, policy) {
      BindingIsInForce(s, clock, scope, now, p);
    }
  }

  /** The gate of one group, under the plan in force. */
  lemma PolicyMeans(s: Groups, clock: int, scope: Name, id: Name, now: int, b: Period)
    requires Inv(s, clock) && id in s.groups && BindingAt(BindingOf(s, scope).periods, now) == Some(b)
    requires b.mode == Grouped && b.planId.Some?
    ensures PolicyAnswers(s, scope, id, now, PolicyGate(s, scope, b.planId.value, id, now))
  {
    var policy := PolicyOf(PoliciesOf(s, b.planId.value), id);
    forall p ensures policy == Some(p) <==> Subscribed(s, scope, id, now, p) {
      SubscribedIff(s, clock, scope, id, now, b, p);
    }
    OpenedIff(s, scope, id, now, policy);
    PolicyDecides(s, scope, b.planId.value, id, now);
  }

  ghost predicate PolicyAnswers(s: Groups, scope: Name, id: Name, now: int, gate: Gate) {
    && ((forall p :: !OpenedBy(s, scope, id, now, p)) ==> gate == Refused(GroupDisabled, None))
    && (forall p :: OpenedBy(s, scope, id, now, p) ==>
          DayAnswers(s, DayKey(scope, id, GroupDate(now)), p, now, gate))
  }

  lemma PolicyDecides(s: Groups, scope: Name, planId: Name, id: Name, now: int)
    requires id in s.groups
    requires var policy := PolicyOf(PoliciesOf(s, planId), id);
             && (PolicyOpen(s.groups[id], policy) <==> exists p :: OpenedBy(s, scope, id, now, p))
             && (forall p :: OpenedBy(s, scope, id, now, p) ==> policy == Some(p))
    ensures PolicyAnswers(s, scope, id, now, PolicyGate(s, scope, planId, id, now))
  {
  }

  lemma OpenedIff(s: Groups, scope: Name, id: Name, now: int, policy: Option<Policy>)
    requires id in s.groups && forall p :: policy == Some(p) <==> Subscribed(s, scope, id, now, p)
    ensures PolicyOpen(s.groups[id], policy) <==> exists p :: OpenedBy(s, scope, id, now, p)
    ensures forall p :: OpenedBy(s, scope, id, now, p) ==> policy == Some(p)
  {
    if PolicyOpen(s.groups[id], policy) {
      assert Subscribed(s, scope, id, now, policy.value);
      assert OpenedBy(s, scope, id, now, policy.value);
    }
  }

  lemma GateMeans(s: Groups, clock: int, scope: Name, wanted: Name, now: int, saved: bool, strip: Name -> Name)
    requires Inv(s, clock)
    ensures Answers(s, scope, wanted, now, saved, strip, GateOf(s, scope, wanted, now, saved, strip))
  {
    GroupedIff(s, clock, scope, now);
    forall id ensures RequestOwner(s.groups, wanted, now, strip) == Some(id) <==>
                        HadRequest(s.groups, id, wanted, now, strip) {
      RequestOwnerIff(s.groups, wanted, now, strip, id);
    }
    var b, owner := BindingAt(BindingOf(s, scope).periods, now), RequestOwner(s.groups, wanted, now, strip);
    if IsGrouped(s, scope, now) {
      BindingOfOk(s, scope, clock);
      BindingIsStored(BindingOf(s, scope).periods, now);
      if owner.Some? { PolicyMeans(s, clock, scope, owner.value, now, b.value); }
    }
  }

  /** Only a key that is grouped now, and has a policy or usage of the group today, can be reset. */
  lemma ResetMeans(s: Groups, clock: int, scope: Name, live: bool, groupId: Name, now: int)
    requires Inv(s, clock)
    ensures CanReset(s, scope, live, groupId, now) <==>
              && live && groupId in s.groups && GroupedAt(s, scope, now)
              && (DayKey(scope, groupId, GroupDate(now)) in s.days || exists p :: Subscribed(s, scope, groupId, now, p))
  {
    GroupedIff(s, clock, scope, now);
    if IsGrouped(s, scope, now) {
      var b := BindingAt(BindingOf(s, scope).periods, now).value;
      BindingOfOk(s, scope, clock);
      BindingIsStored(BindingOf(s, scope).periods, now);
      var policy := PolicyOf(PoliciesOf(s, b.planId.value), groupId);
      forall p ensures policy == Some(p) <==> Subscribed(s, scope, groupId, now, p) {
        SubscribedIff(s, clock, scope, groupId, now, b, p);
      }
      if policy.Some? { assert Subscribed(s, scope, groupId, now, policy.value); }
    }
  }

  // ---------------------------------------------------------------------------------------
  // Configuration
  // ---------------------------------------------------------------------------------------

  /** The models of a group: some, all with a name, none twice. */
  ghost predicate ModelsFit(models: seq<Name>) {
    |models| > 0 && forall i :: 0 <= i < |models| ==>
      models[i].text != "" && forall j :: 0 <= j < i ==> models[j] != models[i]
  }

  ghost predicate TextsFit(name: string, description: string) {
    ValidText(name, 80, false) && ValidText(description, 1000, true)
  }

  lemma FitsIff(models: seq<Name>, a: About)
    ensures ModelsFit(models) <==> ValidModels(models)
    ensures TextsFit(a.name, a.description) <==> ValidAbout(a)
  {
    assert forall m: Name :: m.text == "" <==> m == NO_NAME;
  }

  /** A new group is an enabled draft of the given models and texts. */
  lemma CreateGroupMeans(groups: map<Name, Group>, id: Name, models: seq<Name>, name: string, description: string,
          pool: Option<int>, now: int)
    ensures var g := Edited(groups, Create(id, models, name, description, pool), now);
            && (g.Some? <==> id !in groups && pool.Some? && ModelsFit(models) && TextsFit(Trimmed(name), description))
            && (g.Some? ==>
                  && g.value.status == Draft && g.value.enabled && g.value.models == models && g.value.revision == 1
                  && g.value.publishedAt == None && g.value.about.name == Trimmed(name)
                  && g.value.about.description == description && g.value.about.pool == pool.value)
  {
    FitsIff(models, About(Trimmed(name), description, 0));
  }

  /** A part of a group after an edit: the given one, or the one it had. */
  ghost predicate Took<T>(given: Option<T>, had: T, has: T) {
    if given.Some? then has == given.value else has == had
  }

  /** An edit needs the revision it was made for, leaves published models alone and must leave a valid group. */
  lemma UpdateGroupMeans(groups: map<Name, Group>, id: Name, expected: int, patch: GroupPatch, now: int)
    requires id in groups && groups[id].revision == expected && GroupOk(groups[id], now)
    ensures var g, had := Edited(groups, Update(id, expected, patch), now), groups[id];
            && (g.Some? <==>
                  && (patch.models.Some? ==> had.status == Draft && ModelsFit(patch.models.value))
                  && (patch.name.Some? ==> ValidText(Trimmed(patch.name.value), 80, false))
                  && (patch.description.Some? ==> ValidText(patch.description.value, 1000, true))
                  && (patch.pool.Some? ==> patch.pool.value.Some?))
            && (g.Some? ==>
                  && Took(patch.models, had.models, g.value.models) && Took(patch.enabled, had.enabled, g.value.enabled)
                  && g.value.about.name == (if patch.name.Some? then Trimmed(patch.name.value) else had.about.name)
                  && Took(patch.description, had.about.description, g.value.about.description)
                  && Took(patch.pool, Some(had.about.pool), Some(g.value.about.pool))
                  && g.value.status == had.status && g.value.publishedAt == had.publishedAt
                  && g.value.revision == expected + 1)
  {
    var had := groups[id];
    FitsIff(if patch.models.Some? then patch.models.value else had.models, had.about);
    FitsIff(had.models, had.about);
  }

  /** Publishing needs a draft none of whose models any group ever published has; archiving a published group. */
  lemma PublishGroupMeans(groups: map<Name, Group>, id: Name, expected: int, archive: bool, now: int)
    requires id in groups && groups[id].revision == expected && Exclusive(groups)
    ensures var g := Edited(groups, if archive then Archive(id, expected) else Publish(id, expected), now);
            && (g.Some? <==>
                  if archive then groups[id].status == Published
                  else groups[id].status == Draft
                       && forall m, other :: m in groups[id].models ==> !Had(groups, other, m, now))
            && (g.Some? ==>
                  g.value == if archive then groups[id].(status := Archived, enabled := false, revision := expected + 1)
                             else groups[id].(status := Published, publishedAt := Some(now), revision := expected + 1))
  {
    forall m, other ensures OwnerOf(groups, m, now) == Some(other) <==> Had(groups, other, m, now) {
      OwnerIff(groups, m, now, other);
    }
    assert forall m :: OwnerOf(groups, m, now).Some? ==> Had(groups, OwnerOf(groups, m, now).value, m, now);
  }

  /** Nothing is edited under another revision than the group has, or without the group. */
  lemma StaleEditsFail(groups: map<Name, Group>, op: GroupOp, now: int)
    requires !op.Create? && (op.id !in groups || groups[op.id].revision != op.expected)
    ensures Applied(groups, op, now) == groups
  {
  }

  /** A policy of a plan: for a published group, its limits, if any, a positive amount and a number from 1 to 10000. */
  ghost predicate PolicyFits(groups: map<Name, Group>, p: Policy) {
    && p.groupId in groups && groups[p.groupId].status == Published
    && (p.dailyLimit.Some? ==> p.dailyLimit.value > 0)
    && (p.concurrencyLimit.Some? ==> 1 <= p.concurrencyLimit.value <= 10_000)
  }

  /** A plan takes exactly the given policies and name, when they fit and its revision is the expected one. */
  lemma SavePlanMeans(s: Groups, id: Name, expected: Option<int>, name: string, policies: seq<Policy>)
    ensures var t := PlanSaved(s, id, expected, name, policies);
            var accepted := && ValidText(Trimmed(name), 80, false) && |policies| > 0
                            && (forall i :: 0 <= i < |policies| ==> PolicyFits(s.groups, policies[i]))
                            && (forall i, j :: 0 <= i < j < |policies| ==> policies[i].groupId != policies[j].groupId)
                            && (expected.None? ==> id !in s.plans)
                            && (expected.Some? ==> id in s.plans && s.plans[id].revision == expected.value);
            var revision := if expected.Some? then expected.value + 1 else 1;
            && (CanSave(s, id, expected, name, policies) <==> accepted)
            && t == if accepted then s.(plans := s.plans[id := GroupPlan(Trimmed(name), policies, revision)]) else s
  {
    forall i | 0 <= i < |policies| ensures PolicyFits(s.groups, policies[i]) <==> ValidPolicy(s.groups, policies[i]) { }
    if ValidPolicies(s.groups, policies) {
      forall i | 0 <= i < |policies| ensures PolicyFits(s.groups, policies[i]) {
        assert ValidPolicy(s.groups, policies[i]);
      }
    }
  }

  /** The key is under this mode and plan at the instant. */
  ghost predicate BoundTo(s: Groups, scope: Name, at: int, mode: Mode, planId: Option<Name>) {
    exists p :: InForce(s, scope, p, at) && p.mode == mode && p.planId == planId
  }

  /** A schedule needs a live key, a plan exactly in the grouped mode, one that exists, and the expected revision. */
  ghost predicate MaySchedule(s: Groups, scope: Name, live: bool, mode: Mode, planId: Option<Name>, expected: int) {
    && live && (mode == Grouped <==> planId.Some?) && (planId.Some? ==> planId.value in s.plans)
    && expected == (if scope in s.bindings then s.bindings[scope].revision else 0)
  }

  lemma BoundIff(s: Groups, clock: int, scope: Name, at: int, mode: Mode, planId: Option<Name>)
    requires Chain(BindingOf(s, scope).periods, clock)
    ensures BoundTo(s, scope, at, mode, planId) <==>
              var b := BindingAt(BindingOf(s, scope).periods, at);
              b.Some? && b.value.mode == mode && b.value.planId == planId
  {
    var b := BindingAt(BindingOf(s, scope).periods, at);
    if b.Some? { CoverIsInForce(s, clock, scope, at, b.value); }
    if p :| InForce(s, scope, p, at) && p.mode == mode && p.planId == planId {
      CoverIsInForce(s, clock, scope, at, p);
    }
  }

  /** When a schedule is accepted, and what it leaves alone. */
  lemma ScheduleAccepted(s: Groups, scope: Name, live: bool, mode: Mode, planId: Option<Name>, expected: int, now: int)
    ensures var t := Scheduled(s, scope, live, mode, planId, expected, now);
            && (CanSchedule(s, scope, live, mode, planId, expected) <==>
                  MaySchedule(s, scope, live, mode, planId, expected))
            && (!MaySchedule(s, scope, live, mode, planId, expected) ==> t == s)
            && t == s.(bindings := t.bindings)
            && (forall other :: other != scope ==> BindingOf(t, other) == BindingOf(s, other))
  {
  }

  /** An accepted one changes nothing before the next business midnight and everything from it on. */
  lemma ScheduleMeans(s: Groups, clock: int, scope: Name, live: bool, mode: Mode, planId: Option<Name>, expected: int,
          now: int, at: int, m: Mode, id: Option<Name>)
    requires Chain(BindingOf(s, scope).periods, clock) && clock <= now
    requires MaySchedule(s, scope, live, mode, planId, expected)
    ensures BoundTo(Scheduled(s, scope, live, mode, planId, expected, now), scope, at, m, id) <==>
              if at < NextGroupDay(now) then BoundTo(s, scope, at, m, id) else m == mode && id == planId
  {
    var periods := BindingOf(s, scope).periods;
    RescheduledChain(periods, clock, now, mode, planId);
    RescheduleIsExact(periods, clock, now, mode, planId, at);
    BoundIff(s, clock, scope, at, m, id);
    BoundIff(Scheduled(s, scope, live, mode, planId, expected, now), now, scope, at, m, id);
  }
}
