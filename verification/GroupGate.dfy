/** Admission of a grouped key, up to its concurrency slot, and when a refused one is admitted again. */
module GroupGate {
  import opened Options
  import opened Text
  import opened GroupBindings
  import opened GroupModels
  import opened GroupStates
  import Ledger = GroupLedger

  datatype Code = AccountingUnavailable | ModelNotGrouped | GroupDisabled | QuotaExceeded

  /** A key in the old mode is not handled here; an open gate names the group and its concurrency limit. */
  datatype Gate = NotGrouped | Refused(code: Code, retryAt: Option<int>) | Open(groupId: Name, limit: Option<int>)

  function Wanted(model: Name, requested: Name): Name {
    if requested == NO_NAME then model else requested
  }

  predicate PolicyOpen(g: Group, policy: Option<Policy>) {
    policy.Some? && policy.value.enabled && g.enabled && g.status == Published
  }

  function DayGate(d: Ledger.Day, groupId: Name, policy: Policy, now: int): Gate {
    match Ledger.DayRefusal(d, policy.dailyLimit)
    case Some(AccountingUnavailable) => Refused(AccountingUnavailable, None)
    case Some(QuotaExceeded) => Refused(QuotaExceeded, Some(NextGroupDay(now)))
    case None => Open(groupId, policy.concurrencyLimit)
  }

  /** `saved` says that no change awaits its write to disk, or that the retry just made succeeded. */
  ghost function GateOf(s: Groups, scope: Name, wanted: Name, now: int, saved: bool, strip: Name -> Name): Gate {
    var b := BindingAt(BindingOf(s, scope).periods, now);
    if b.None? || b.value.mode != Grouped then NotGrouped
    else if !saved then Refused(AccountingUnavailable, None)
    else
      match RequestOwner(s.groups, wanted, now, strip)
      case None => Refused(ModelNotGrouped, None)
      case Some(id) =>
        if b.value.planId.None? then Refused(GroupDisabled, None) else
          PolicyGate(s, scope, b.value.planId.value, id, now)
  }

  function PolicyGate(s: Groups, scope: Name, planId: Name, groupId: Name, now: int): Gate
    requires groupId in s.groups
  {
    var policy := PolicyOf(PoliciesOf(s, planId), groupId);
    if !PolicyOpen(s.groups[groupId], policy) then Refused(GroupDisabled, None)
    else DayGate(DayOf(s, Today(scope, groupId, now)), groupId, policy.value, now)
  }

  /** An accounting error denies every admission to that ledger, however the run continues that day. */
  lemma ErrorDenies(s: Groups, scope: Name, wanted: Name, now: int, saved: bool, strip: Name -> Name, groupId: Name)
    requires RequestOwner(s.groups, wanted, now, strip) == Some(groupId)
    requires DayOf(s, Today(scope, groupId, now)).error
    ensures !GateOf(s, scope, wanted, now, saved, strip).Open?
  {
  }

  lemma ErrorStays(s: Groups, op: Op, now: int, strip: Name -> Name, k: DayKey)
    requires DayOf(s, k).error
    ensures DayOf(Apply(s, op, now, strip), k).error
  {
  }

  lemma {:induction false} ErrorDeniesForGood(s: Groups, steps: seq<Step>,
          strip: Name -> Name, scope: Name, wanted: Name, at: int, saved: bool, groupId: Name)
    requires DayOf(s, Today(scope, groupId, at)).error
    ensures var t := Run(s, steps, strip);
            RequestOwner(t.groups, wanted, at, strip) == Some(groupId) ==>
                !GateOf(t, scope, wanted, at, saved, strip).Open?
    decreases |steps|
  {
    if steps != [] {
      ErrorStays(s, steps[0].op, steps[0].now, strip, Today(scope, groupId, at));
      var t := Apply(s, steps[0].op, steps[0].now, strip);
      ErrorDeniesForGood(t, steps[1..], strip, scope, wanted, at, saved, groupId);
    } else if RequestOwner(s.groups, wanted, at, strip) == Some(groupId) {
      ErrorDenies(s, scope, wanted, at, saved, strip, groupId);
    }
  }

  // ---------------------------------------------------------------------------------------
  // The retry hint
  // ---------------------------------------------------------------------------------------

  /** The ledger of the business day refuses the request. */
  ghost predicate DayRefuses(s: Groups, scope: Name, wanted: Name, now: int, strip: Name -> Name) {
    var b, owner := BindingAt(BindingOf(s, scope).periods, now), RequestOwner(s.groups, wanted, now, strip);
    && b.Some? && b.value.planId.Some? && owner.Some?
    && var policy := PolicyOf(PoliciesOf(s, b.value.planId.value), owner.value);
       policy.Some? && Ledger.DayRefusal(DayOf(s, Today(scope, owner.value, now)), policy.value.dailyLimit).Some?
  }

  lemma DayRefusesDenies(s: Groups, scope: Name, wanted: Name, now: int, saved: bool, strip: Name -> Name)
    requires DayRefuses(s, scope, wanted, now, strip)
    ensures !GateOf(s, scope, wanted, now, saved, strip).Open?
  {
  }

  lemma QuotaRefusal(s: Groups, scope: Name, wanted: Name, now: int, saved: bool, strip: Name -> Name)
    requires GateOf(s, scope, wanted, now, saved, strip).Refused?
            && GateOf(s, scope, wanted, now, saved, strip).code == QuotaExceeded
    ensures DayRefuses(s, scope, wanted, now, strip)
    ensures GateOf(s, scope, wanted, now, saved, strip).retryAt == Some(NextGroupDay(now))
  {
  }

  /** Owners found now are the owners at every later instant until something is published. */
  lemma OwnerStays(groups: map<Name, Group>, clock: int, model: Name, now: int, at: int)
    requires CatalogueOk(groups, clock) && clock <= now <= at
    ensures OwnerOf(groups, model, at) == OwnerOf(groups, model, now)
  {
    forall id ensures IsOwner(groups, id, model, now) <==> IsOwner(groups, id, model, at) { }
    SameOwner(groups, groups, model, now);
    var late := OwnerOf(groups, model, at);
    if late.Some? { OwnerIsUnique(groups, late.value, model, now); }
  }

  lemma RequestOwnerStays(groups: map<Name, Group>, clock: int, model: Name, now: int, at: int, strip: Name -> Name)
    requires CatalogueOk(groups, clock) && clock <= now <= at
    ensures RequestOwner(groups, model, at, strip) == RequestOwner(groups, model, now, strip)
  {
    OwnerStays(groups, clock, model, now, at);
    OwnerStays(groups, clock, strip(model), now, at);
  }

  lemma SameDay(now: int, t: int)
    requires now <= t < NextGroupDay(now)
    ensures GroupDate(t) == GroupDate(now)
  {
  }

  /** The refusal holds for the rest of the business day. */
  lemma RefusesAllDay(s: Groups, clock: int, scope: Name, wanted: Name, now: int, t: int, strip: Name -> Name)
    requires Inv(s, clock) && clock <= now <= t < NextGroupDay(now)
    requires DayRefuses(s, scope, wanted, now, strip)
    ensures DayRefuses(s, scope, wanted, t, strip)
  {
    SameDay(now, t);
    BindingOfOk(s, scope, clock);
    ChainBindingIsDaily(BindingOf(s, scope).periods, clock, now, t);
    RequestOwnerStays(s.groups, clock, wanted, now, t, strip);
  }

  lemma ChargeKeepsRefusal(d: Ledger.Day, c: Ledger.Charge, limit: Option<int>)
    requires Ledger.Bounded(d) && Ledger.LegalCharge(c)
    ensures Ledger.DayRefusal(d, limit).Some? ==> Ledger.DayRefusal(Ledger.Charged(d, c), limit).Some?
  {
    Ledger.UsageOnlyAdds(d, c);
  }

  /** A usage record moves neither groups, plans nor periods, and only adds to a ledger. */
  lemma UsageOnlyCharges(s: Groups, clock: int, r: Record, strip: Name -> Name, k: DayKey, limit: Option<int>)
    requires Inv(s, clock) && Ledger.LegalCharge(ChargeOf(r))
    ensures var t := Accounted(s, r, strip);
            && t.groups == s.groups && t.plans == s.plans
            && (Ledger.DayRefusal(DayOf(s, k), limit).Some? ==> Ledger.DayRefusal(DayOf(t, k), limit).Some?)
  {
    var target := RecordTarget(s, r, strip);
    if target == Day(k) { ChargeKeepsRefusal(DayOf(s, k), ChargeOf(r), limit); }
  }

  ghost predicate OnlyUsage(steps: seq<Step>) {
    forall i :: 0 <= i < |steps| ==> steps[i].op.Account?
  }

  /** Steps that touch ledgers and counts only: usage and resets, of any key. */
  ghost predicate OnlyLedgers(steps: seq<Step>) {
    forall i :: 0 <= i < |steps| ==> steps[i].op.Account? || steps[i].op.ResetDay?
  }

  ghost predicate SameSetup(s: Groups, u: Groups, scope: Name) {
    u.groups == s.groups && u.plans == s.plans && BindingOf(u, scope).periods == BindingOf(s, scope).periods
  }

  lemma {:induction false} LedgersKeepSetup(s: Groups, steps: seq<Step>, strip: Name -> Name, scope: Name)
    requires OnlyLedgers(steps)
    ensures SameSetup(s, Run(s, steps, strip), scope)
    decreases |steps|
  {
    if steps != [] {
      var u := Apply(s, steps[0].op, steps[0].now, strip);
      PeriodsKept(s, steps[0].op, steps[0].now, strip, scope);
      LedgersKeepSetup(u, steps[1..], strip, scope);
    }
  }

  /** A ledger that refuses keeps refusing, whatever usage arrives. */
  lemma {:induction false} DayStaysRefused(s: Groups, clock: int, steps: seq<Step>, strip: Name -> Name, k: DayKey,
          limit: Option<int>)
    requires Inv(s, clock) && OnlyUsage(steps) && LegalSteps(steps) && Timed(steps, clock)
    requires Ledger.DayRefusal(DayOf(s, k), limit).Some?
    ensures Ledger.DayRefusal(DayOf(Run(s, steps, strip), k), limit).Some?
    decreases |steps|
  {
    if steps != [] {
      UsageOnlyCharges(s, clock, steps[0].op.record, strip, k, limit);
      ApplyInv(s, clock, steps[0].op, steps[0].now, strip);
      DayStaysRefused(Apply(s, steps[0].op, steps[0].now, strip), steps[0].now, steps[1..], strip, k, limit);
    }
  }

  lemma RefusedWhateverArrives(s: Groups, clock: int, steps: seq<Step>, scope: Name, wanted: Name, t: int,
          strip: Name -> Name)
    requires Inv(s, clock) && OnlyUsage(steps) && LegalSteps(steps) && Timed(steps, clock)
    requires DayRefuses(s, scope, wanted, t, strip)
    ensures DayRefuses(Run(s, steps, strip), scope, wanted, t, strip)
  {
    var b, owner := BindingAt(BindingOf(s, scope).periods, t), RequestOwner(s.groups, wanted, t, strip);
    var policy := PolicyOf(PoliciesOf(s, b.value.planId.value), owner.value);
    LedgersKeepSetup(s, steps, strip, scope);
    DayStaysRefused(s, clock, steps, strip, Today(scope, owner.value, t), policy.value.dailyLimit);
  }

  /** Before the hinted instant the request is refused, whatever usage arrives. */
  lemma RefusedBeforeMidnight(s: Groups, clock: int, steps: seq<Step>, scope: Name, wanted: Name, now: int,
          t: int, saved: bool, strip: Name -> Name)
    requires Inv(s, clock) && clock <= now <= t < NextGroupDay(now)
    requires OnlyUsage(steps) && LegalSteps(steps) && Timed(steps, now)
    requires GateOf(s, scope, wanted, now, true, strip) == Refused(QuotaExceeded, Some(NextGroupDay(now)))
    ensures !GateOf(Run(s, steps, strip), scope, wanted, t, saved, strip).Open?
  {
    QuotaRefusal(s, scope, wanted, now, true, strip);
    RefusesAllDay(s, clock, scope, wanted, now, t, strip);
    InvAges(s, clock, now);
    RefusedWhateverArrives(s, now, steps, scope, wanted, t, strip);
    DayRefusesDenies(Run(s, steps, strip), scope, wanted, t, saved, strip);
  }

  /** The daily limit that applies to the request, when its key is grouped. */
  ghost function LimitOf(s: Groups, scope: Name, wanted: Name, now: int, strip: Name -> Name): Option<int> {
    var b, owner := BindingAt(BindingOf(s, scope).periods, now), RequestOwner(s.groups, wanted, now, strip);
    if b.None? || b.value.planId.None? || owner.None? then None else
      var policy := PolicyOf(PoliciesOf(s, b.value.planId.value), owner.value);
      if policy.None? then None else policy.value.dailyLimit
  }

  /** The gate refuses for the quota only; everything else about the request is in order. */
  lemma OnlyTheQuota(s: Groups, scope: Name, wanted: Name, now: int, strip: Name -> Name)
    requires GateOf(s, scope, wanted, now, true, strip) == Refused(QuotaExceeded, Some(NextGroupDay(now)))
    ensures RequestOwner(s.groups, wanted, now, strip).Some? && BindingAt(BindingOf(s, scope).periods, now).Some?
    ensures LimitOf(s, scope, wanted, now, strip).Some?
  {
  }

  /** Under the same groups, plans and binding only the ledger decides. */
  lemma SameBindingSameGate(s: Groups, u: Groups, scope: Name, wanted: Name, now: int, t: int, strip: Name -> Name)
    requires GateOf(s, scope, wanted, now, true, strip) == Refused(QuotaExceeded, Some(NextGroupDay(now)))
    requires u.groups == s.groups && u.plans == s.plans
    requires RequestOwner(s.groups, wanted, t, strip) == RequestOwner(s.groups, wanted, now, strip)
    requires BindingAt(BindingOf(u, scope).periods, t) == BindingAt(BindingOf(s, scope).periods, now)
    ensures RequestOwner(s.groups, wanted, now, strip).Some?
    ensures GateOf(u, scope, wanted, t, true, strip).Open? <==>
              Ledger.DayRefusal(DayOf(u, Today(scope, RequestOwner(s.groups, wanted, now, strip).value, t)),
                                LimitOf(s, scope, wanted, now, strip)).None?
  {
  }

  /**
   From the hinted instant on, unless another binding is pending, whatever usage and resets came in between:
   the request is admitted exactly when the ledger of the business day it comes in does not refuse it; so it
   is when nothing was charged there.
   */
  lemma AdmittedFromMidnight(s: Groups, clock: int, steps: seq<Step>, scope: Name, wanted: Name, now: int, t: int,
          strip: Name -> Name)
    requires Inv(s, clock) && clock <= now && NextGroupDay(now) <= t
    requires OnlyLedgers(steps)
    requires GateOf(s, scope, wanted, now, true, strip) == Refused(QuotaExceeded, Some(NextGroupDay(now)))
    requires forall p :: p in BindingOf(s, scope).periods ==> p.from <= now
    ensures RequestOwner(s.groups, wanted, now, strip).Some?
    ensures var k, u := Today(scope, RequestOwner(s.groups, wanted, now, strip).value, t), Run(s, steps, strip);
            && (GateOf(u, scope, wanted, t, true, strip).Open? <==>
                  Ledger.DayRefusal(DayOf(u, k), LimitOf(s, scope, wanted, now, strip)).None?)
            && (k !in u.days ==> GateOf(u, scope, wanted, t, true, strip).Open?)
  {
    OnlyTheQuota(s, scope, wanted, now, strip);
    BindingOfOk(s, scope, clock);
    BindingStays(BindingOf(s, scope).periods, clock, now, t);
    RequestOwnerStays(s.groups, clock, wanted, now, t, strip);
    LedgersKeepSetup(s, steps, strip, scope);
    SameBindingSameGate(s, Run(s, steps, strip), scope, wanted, now, t, strip);
    LimitIsPositive(s, clock, scope, wanted, now, strip);
    var k, u := Today(scope, RequestOwner(s.groups, wanted, now, strip).value, t), Run(s, steps, strip);
    if k !in u.days { NothingChargedAdmits(u, k, LimitOf(s, scope, wanted, now, strip)); }
  }

  lemma NothingChargedAdmits(u: Groups, k: DayKey, limit: Option<int>)
    requires k !in u.days && (limit.Some? ==> limit.value > 0)
    ensures Ledger.DayRefusal(DayOf(u, k), limit).None?
  {
  }

  lemma LimitIsPositive(s: Groups, clock: int, scope: Name, wanted: Name, now: int, strip: Name -> Name)
    requires Inv(s, clock)
    ensures LimitOf(s, scope, wanted, now, strip).Some? ==> LimitOf(s, scope, wanted, now, strip).value > 0
  {
    var b, owner := BindingAt(BindingOf(s, scope).periods, now), RequestOwner(s.groups, wanted, now, strip);
    if LimitOf(s, scope, wanted, now, strip).Some? {
      var planId := b.value.planId.value;
      PolicyIsStored(PoliciesOf(s, planId), owner.value);
      assert planId in s.plans;
      assert PolicyOk(s.groups, PolicyOf(PoliciesOf(s, planId), owner.value).value);
    }
  }

  lemma {:induction false} PolicyIsStored(policies: seq<Policy>, groupId: Name)
    requires PolicyOf(policies, groupId).Some?
    ensures PolicyOf(policies, groupId).value in policies
  {
    if policies[0].groupId != groupId { PolicyIsStored(policies[1..], groupId); }
  }
}
