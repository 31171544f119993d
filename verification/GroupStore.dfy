/** The store's grouped-billing operations, each proved against its specification. */
module GroupStore {
  import opened Options
  import opened Text
  import opened Quota
  import opened GroupTexts
  import opened GroupBindings
  import opened GroupModels
  import opened GroupStates
  import opened GroupGate
  import opened GroupMeaning
  import Ledger = GroupLedger

  method FindPolicy(policies: seq<Policy>, groupId: Name) returns (found: Option<Policy>)
    ensures found == PolicyOf(policies, groupId)
  {
    var i := 0;
    while i < |policies|
      invariant 0 <= i <= |policies|
      invariant PolicyOf(policies, groupId) == PolicyOf(policies[i..], groupId)
    {
      if policies[i].groupId == groupId { return Some(policies[i]); }
      i := i + 1;
    }
    return None;
  }

  /** Accepts exactly the policy lists whose groups are published and distinct and whose limits are in range. */
  method CheckPolicies(groups: map<Name, Group>, policies: seq<Policy>) returns (ok: bool)
    ensures ok <==> ValidPolicies(groups, policies)
  {
    if policies == [] { return false; }
    var seen: set<Name>, i := {}, 0;
    while i < |policies|
      invariant 0 <= i <= |policies|
      invariant forall j :: 0 <= j < i ==> ValidPolicy(groups, policies[j])
      invariant forall j, k :: 0 <= j < k < i ==> policies[j].groupId != policies[k].groupId
      invariant forall g :: g in seen <==> exists j :: 0 <= j < i && policies[j].groupId == g
    {
      var p := policies[i];
      if p.groupId !in groups || groups[p.groupId].status != Published { return false; }
      if p.groupId in seen { return false; }
      seen := seen + {p.groupId};
      if p.dailyLimit.Some? && p.dailyLimit.value <= 0 { return false; }
      if p.concurrencyLimit.Some?
          && (p.concurrencyLimit.value < 1 || p.concurrencyLimit.value > MAX_CONCURRENCY_LIMIT) {
        return false;
      }
      i := i + 1;
    }
    return true;
  }

  /** The name is trimmed before it is checked. */
  method Normalize(name: string, description: string, pool: Option<int>) returns (about: Option<About>)
    ensures about == Described(name, description, pool)
  {
    var ok := CheckText(Trimmed(name), MAX_NAME, false);
    if !ok { return None; }
    ok := CheckText(description, MAX_DESCRIPTION, true);
    if !ok || pool.None? { return None; }
    return Some(About(Trimmed(name), description, pool.value));
  }

  /** The patched group, unless the patch is refused. */
  method EditGroup(before: Group, patch: GroupPatch) returns (edited: Option<Group>)
    ensures edited == UpdatedGroup(before, patch)
  {
    var g, name, description, pool := before, before.about.name, before.about.description, Some(before.about.pool);
    if patch.models.Some? {
      if g.status != Draft { return None; }
      g := g.(models := patch.models.value);
    }
    if patch.name.Some? { name := patch.name.value; }
    if patch.description.Some? { description := patch.description.value; }
    if patch.enabled.Some? { g := g.(enabled := patch.enabled.value); }
    if patch.pool.Some? { pool := patch.pool.value; }
    var about := Normalize(name, description, pool);
    if about.None? || !ValidModels(g.models) { return None; }
    return Some(g.(about := about.value, revision := g.revision + 1));
  }

  class GroupedBilling {
    var groups: map<Name, Group>
    var plans: map<Name, GroupPlan>
    var bindings: map<Name, Binding>
    var days: map<DayKey, Ledger.Day>

    /** The state the specification speaks about. */
    ghost function View(): Groups
      reads this
    {
      Groups(groups, plans, bindings, days)
    }

    constructor ()
      ensures View() == Groups(map[], map[], map[], map[])
      ensures forall clock :: Inv(View(), clock)
    {
      groups, plans, bindings, days := map[], map[], map[], map[];
    }

    /** The identifier is one that no group has. */
    method CreateResourceGroup(id: Name, models: seq<Name>, name: string, description: string, pool: Option<int>,
            now: int, ghost strip: Name -> Name) returns (ok: bool)
      requires id !in groups
      modifies this`groups
      ensures View() == Apply(old(View()), Edit(Create(id, models, name, description, pool)), now, strip)
      ensures ok <==> ValidModels(models) && pool.Some? && ValidText(Trimmed(name), MAX_NAME, false)
                      && ValidText(description, MAX_DESCRIPTION, true)
    {
      var about := Normalize(name, description, pool);
      ok := about.Some? && ValidModels(models);
      if ok { groups := groups[id := Group(Draft, true, models, 1, None, about.value)]; }
    }

    /** Nothing happens without a reason. */
    method UpdateResourceGroup(id: Name, expected: int, patch: GroupPatch, reason: string, now: int,
            ghost strip: Name -> Name)
      returns (ok: bool)
      modifies this`groups
      ensures View() == if ValidReason(reason) then Apply(old(View()), Edit(Update(id, expected, patch)), now, strip)
                        else old(View())
      ensures ok <==> ValidReason(reason) && Edited(old(groups), Update(id, expected, patch), now).Some?
    {
      ok := CheckText(reason, MAX_REASON, false);
      if !ok { return false; }
      if id !in groups || groups[id].revision != expected { return false; }
      var g := EditGroup(groups[id], patch);
      if g.None? { return false; }
      groups := groups[id := g.value];
      return true;
    }

    method PublishResourceGroup(id: Name, expected: int, reason: string, archive: bool, now: int, ghost clock: int,
            ghost strip: Name -> Name)
      returns (ok: bool)
      requires Inv(View(), clock) && clock <= now
      modifies this`groups
      ensures var op := if archive then Archive(id, expected) else Publish(id, expected);
              && View() == (if ValidReason(reason) then Apply(old(View()), Edit(op), now, strip) else old(View()))
              && (ok <==> ValidReason(reason) && Edited(old(groups), op, now).Some?)
    {
      ok := CheckText(reason, MAX_REASON, false);
      if !ok { return false; }
      if id !in groups || groups[id].revision != expected { return false; }
      var g := groups[id];
      if archive {
        if g.status != Published { return false; }
        g := g.(status := Archived, enabled := false);
      } else {
        if g.status != Draft { return false; }
        var conflict := AnyOwned(groups, g.models, now);
        if conflict { return false; }
        g := g.(status := Published, publishedAt := Some(now));
      }
      groups := groups[id := g.(revision := g.revision + 1)];
      return true;
    }

    /** No expected revision creates the plan, under an identifier that no plan has; replacing one needs a reason. */
    method SaveGroupPlan(id: Name, expected: Option<int>, name: string, policies: seq<Policy>, reason: string,
            now: int, ghost strip: Name -> Name)
      returns (ok: bool)
      requires expected.None? ==> id !in plans
      modifies this`plans
      ensures View() == if expected.None? || ValidReason(reason)
                        then Apply(old(View()), SavePlan(id, expected, name, policies), now, strip) else old(View())
      ensures ok <==> (expected.None? || ValidReason(reason)) && CanSave(old(View()), id, expected, name, policies)
    {
      if expected.Some? {
        ok := CheckText(reason, MAX_REASON, false);
        if !ok { return false; }
      }
      ok := CheckText(Trimmed(name), MAX_NAME, false);
      if !ok { return false; }
      ok := CheckPolicies(groups, policies);
      if !ok { return false; }
      var revision := 1;
      if expected.Some? {
        if id !in plans || plans[id].revision != expected.value { return false; }
        revision := plans[id].revision + 1;
      }
      plans := plans[id := GroupPlan(Trimmed(name), policies, revision)];
    }

    /** `live` says that the key exists and is not deleted. */
    method ScheduleGroupBinding(scope: Name, live: bool, mode: Mode, planId: Option<Name>, expected: int,
            reason: string, now: int, ghost strip: Name -> Name)
      returns (ok: bool)
      modifies this`bindings
      ensures View() == if ValidReason(reason)
                        then Apply(old(View()), Schedule(scope, live, mode, planId, expected), now, strip)
                        else old(View())
      ensures ok <==> ValidReason(reason) && CanSchedule(old(View()), scope, live, mode, planId, expected)
    {
      ok := CheckText(reason, MAX_REASON, false);
      if !ok { return false; }
      if (mode == Legacy && planId.Some?) || (mode == Grouped && planId.None?) { return false; }
      if !live || (planId.Some? && planId.value !in plans) { return false; }
      var b := if scope in bindings then bindings[scope] else NO_BINDING;
      if b.revision != expected { return false; }
      var periods := Reschedule(b.periods, now, mode, planId);
      bindings := bindings[scope := Binding(periods, b.revision + 1, b.unclassified)];
      return true;
    }

    method PolicyIn(planId: Name, groupId: Name) returns (policy: Option<Policy>)
      ensures policy == PolicyOf(PoliciesOf(View(), planId), groupId)
    {
      policy := FindPolicy(if planId in plans then plans[planId].policies else [], groupId);
    }

    method ResetLedger(k: DayKey, now: int)
      modifies this`days
      ensures View() == LedgerReset(old(View()), k, now)
    {
      var d := if k in days then days[k] else Ledger.EMPTY_DAY;
      days := days[k := d.(credit := d.raw, cutoff := Some(now))];
    }

    method ResetGroupDay(scope: Name, live: bool, groupId: Name, reason: string, now: int, ghost clock: int,
            ghost strip: Name -> Name) returns (ok: bool)
      requires Inv(View(), clock) && clock <= now
      modifies this`days
      ensures View() == if ValidReason(reason) then Apply(old(View()), ResetDay(scope, live, groupId), now, strip)
                        else old(View())
      ensures ok <==> ValidReason(reason) && CanReset(old(View()), scope, live, groupId, now)
      ensures ok <==>
                && ValidReason(reason) && live && groupId in groups && GroupedAt(old(View()), scope, now)
                && (DayKey(scope, groupId, GroupDate(now)) in old(days)
                    || exists p :: Subscribed(old(View()), scope, groupId, now, p))
    {
      ResetMeans(View(), clock, scope, live, groupId, now);
      ok := CheckText(reason, MAX_REASON, false);
      if !ok { return false; }
      ok := MayReset(scope, live, groupId, now, clock);
      if ok { ResetLedger(DayKey(scope, groupId, GroupDate(now)), now); }
    }

    method MayReset(scope: Name, live: bool, groupId: Name, now: int, ghost clock: int) returns (ok: bool)
      requires Inv(View(), clock) && clock <= now
      ensures ok <==> CanReset(View(), scope, live, groupId, now)
    {
      if !live || groupId !in groups { return false; }
      var b := if scope in bindings then bindings[scope] else NO_BINDING;
      var period, grouped := FindBinding(b.periods, now);
      if !grouped { return false; }
      BindingOfOk(View(), scope, clock);
      GroupedHasPlan(b.periods, clock, now);
      var policy := PolicyIn(period.value.planId.value, groupId);
      return policy.Some? || DayKey(scope, groupId, GroupDate(now)) in days;
    }

    /** Where the record goes: nowhere here, to a count, or to a ledger. */
    method TargetFor(r: Record, strip: Name -> Name) returns (target: Target)
      requires Exclusive(groups)
      ensures target == RecordTarget(View(), r, strip)
    {
      var at := if IsZero(r.start) then r.arrived else r.start;
      var b := if r.scope in bindings then bindings[r.scope] else NO_BINDING;
      var period, grouped := FindBinding(b.periods, at);
      if !grouped { return OldMode; }
      var owner := RequestModelOwner(groups, r.model, at, strip);
      if owner.None? || IsZero(r.start) { return Unclassified; }
      return Day(DayKey(r.scope, owner.value, GroupDate(at)));
    }

    method CountUnclassified(scope: Name)
      modifies this`bindings
      ensures View() == CountedUnclassified(old(View()), scope)
    {
      var b := if scope in bindings then bindings[scope] else NO_BINDING;
      bindings := bindings[scope := b.(unclassified := b.unclassified + 1)];
    }

    method ChargeLedger(k: DayKey, c: Ledger.Charge)
      modifies this`days
      ensures View() == ChargedTo(old(View()), k, c)
    {
      var next := ChargeDay(if k in days then days[k] else Ledger.EMPTY_DAY, c);
      days := days[k := next];
    }

    /** Charges one usage record; true when the key was grouped when the record started. */
    method AccountGroupUsage(r: Record, now: int, ghost clock: int, strip: Name -> Name) returns (grouped: bool)
      requires Inv(View(), clock) && clock <= now
      modifies this`days, this`bindings
      ensures View() == Apply(old(View()), Account(r), now, strip)
      ensures grouped <==> GroupedAt(old(View()), r.scope, PlacedAt(r))
      ensures RecordDoes(old(View()), r, strip, View())
    {
      AccountMeans(View(), clock, r, strip);
      TargetIff(View(), clock, r, strip);
      var target := TargetFor(r, strip);
      ChargeTarget(r, target);
      return target != OldMode;
    }

    method ChargeTarget(r: Record, target: Target)
      modifies this`days, this`bindings
      ensures View() == match target
                        case OldMode => old(View())
                        case Unclassified => CountedUnclassified(old(View()), r.scope)
                        case Day(k) => ChargedTo(old(View()), k, ChargeOf(r))
    {
      match target
      case OldMode =>
      case Unclassified => CountUnclassified(r.scope);
      case Day(k) => ChargeLedger(k, ChargeOf(r));
    }

    /** The admission decision, up to the concurrency slot. */
    method Admit(scope: Name, model: Name, requested: Name, now: int, saved: bool, ghost clock: int,
            strip: Name -> Name) returns (gate: Gate)
      requires Inv(View(), clock) && clock <= now
      ensures gate == GateOf(View(), scope, Wanted(model, requested), now, saved, strip)
      ensures Answers(View(), scope, if requested == NO_NAME then model else requested, now, saved, strip, gate)
    {
      GateMeans(View(), clock, scope, Wanted(model, requested), now, saved, strip);
      var b := if scope in bindings then bindings[scope] else NO_BINDING;
      var period, grouped := FindBinding(b.periods, now);
      if !grouped { return NotGrouped; }
      if !saved { return Refused(AccountingUnavailable, None); }
      var wanted := if requested == NO_NAME then model else requested;
      var owner := RequestModelOwner(groups, wanted, now, strip);
      if owner.None? { return Refused(ModelNotGrouped, None); }
      if period.value.planId.None? { return Refused(GroupDisabled, None); }
      gate := CheckPolicy(scope, period.value.planId.value, owner.value, now);
    }

    method CheckPolicy(scope: Name, planId: Name, groupId: Name, now: int) returns (gate: Gate)
      requires groupId in groups
      ensures gate == PolicyGate(View(), scope, planId, groupId, now)
    {
      var g := groups[groupId];
      var policy := PolicyIn(planId, groupId);
      if policy.None? || !policy.value.enabled || !g.enabled || g.status != Published {
        return Refused(GroupDisabled, None);
      }
      var k := DayKey(scope, groupId, GroupDate(now));
      gate := CheckDay(if k in days then days[k] else Ledger.EMPTY_DAY, groupId, policy.value, now);
    }
  }

  method CheckDay(d: Ledger.Day, groupId: Name, policy: Policy, now: int) returns (gate: Gate)
    ensures gate == DayGate(d, groupId, policy, now)
  {
    if d.error { return Refused(AccountingUnavailable, None); }
    if policy.dailyLimit.Some? && d.raw - d.credit >= policy.dailyLimit.value {
      return Refused(QuotaExceeded, Some(NextGroupDay(now)));
    }
    return Open(groupId, policy.concurrencyLimit);
  }

  lemma GroupedHasPlan(periods: seq<Period>, clock: int, at: int)
    requires Chain(periods, clock)
    ensures var b := BindingAt(periods, at);
            b.Some? ==> b.value in periods && (b.value.mode == Grouped <==> b.value.planId.Some?)
  {
    FoundIn(periods, at);
  }

  lemma {:induction false} FoundIn(periods: seq<Period>, at: int)
    ensures BindingAt(periods, at).Some? ==> BindingAt(periods, at).value in periods
  {
    if periods != [] { FoundIn(periods[1..], at); }
  }

  /** The branches of charging one record, in the order they are taken. */
  method ChargeDay(d: Ledger.Day, c: Ledger.Charge) returns (next: Ledger.Day)
    ensures next == Ledger.Charged(d, c)
  {
    next := d;
    if c.amount.None? { next := next.(error := true); }
    var priced := c.amount.Some? && c.billable;
    if priced {
      var raw := Ledger.AddGroupCount(d.raw, c.amount.value);
      var credit := Some(d.credit);
      if d.cutoff.Some? && c.at < d.cutoff.value { credit := Ledger.AddGroupCount(d.credit, c.amount.value); }
      if raw.Some? && credit.Some? {
        next := next.(raw := raw.value, credit := credit.value);
      } else {
        priced := false;
        next := next.(error := true);
      }
    }
    if !priced { next := next.(incomplete := next.incomplete + 1); }
    var requests := Ledger.AddGroupCount(next.requests, 1);
    next := if requests.Some? then next.(requests := requests.value) else next.(incomplete := next.incomplete + 1);
    if c.tokens.Some? {
      var tokens := Ledger.AddGroupCount(next.tokens, c.tokens.value);
      next := if tokens.Some? then next.(tokens := tokens.value) else next.(incomplete := next.incomplete + 1);
    }
  }
}
