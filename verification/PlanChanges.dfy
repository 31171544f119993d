/** What plan and key operations announce for saving: enough for every change they make. */
module PlanChanges {
  import opened Options
  import opened Text
  import opened Plans

  /** No key set means every key. */
  datatype Announced = Announced(plans: bool, keys: Option<set<Name>>)

  const NOTHING := Announced(false, Some({}))

  /** Resetting a key without cycles changes nothing. */
  function WithCycles(s: State, scopes: set<Name>): set<Name> {
    set scope | scope in scopes && scope in s.keys && s.keys[scope].quota.cycles != map[]
  }

  ghost function AnnouncedBy(s: State, op: Op): Announced
    requires PlansOk(s.plans) && Legal(op)
  {
    match op
    case Authorize(scope, at) =>
      if scope in s.keys && AuthorizedKey(s.plans, s.keys[scope].quota, at) != s.keys[scope].quota
      then Announced(false, Some({scope})) else NOTHING
    case Report(scope, _, _, _, _) => Announced(false, Some(if scope == NO_NAME then {} else {scope}))
    case SettleViews(scopes, now) =>
      Announced(false, Some(set scope | scope in scopes && scope in s.keys && !s.keys[scope].deleted
                                        && SettledPlan(s.plans, s.keys[scope].quota, now) != s.keys[scope].quota))
    case BindKey(scope, planId) =>
      if FindPlan(s.plans, planId).None? || !IsLive(s, scope) || s.keys[scope].quota.planId == planId then NOTHING
      else Announced(false, Some({scope}))
    case UnbindKey(scope) =>
      if !IsLive(s, scope) || s.keys[scope].quota.planId == NO_NAME then NOTHING else Announced(false, Some({scope}))
    case ResetQuota(chosen) =>
      (match ToReset(s, chosen) case None => NOTHING case Some(scopes) => Announced(false, Some(WithCycles(s, scopes))))
    case SyncKeys(listed, allowEmpty) =>
      if (listed == {} && !allowEmpty) || Synced(s, listed) == s then NOTHING else Announced(false, None)
    case CreatePlan(plan, freeId, scopes, now, newIds) =>
      if Created(s, Named(plan, freeId), scopes, now, newIds).Some? then Announced(true, Some(scopes)) else NOTHING
    case UpdatePlan(id, windows, selected, now, newIds) =>
      if Updated(s, id, windows, selected, now, newIds).Some? then Announced(true, None) else NOTHING
    case DeletePlan(id) => if Deleted(s, id).Some? then Announced(true, None) else NOTHING
  }

  predicate SameRecord(s: State, t: State, scope: Name) {
    (scope in t.keys <==> scope in s.keys) && (scope in s.keys && scope in t.keys ==> t.keys[scope] == s.keys[scope])
  }

  lemma ResetCovers(s: State, scopes: set<Name>, scope: Name)
    requires scope !in WithCycles(s, scopes)
    ensures SameRecord(s, WasReset(s, scopes), scope)
  {
    if scope in s.keys && scope in scopes {
      var key := s.keys[scope].quota;
      assert key.(cycles := map[]) == key;
    }
  }

  /** Every operation announces each key and the plans it changes, and no key record ever disappears. */
  lemma AnnouncementsCover(s: State, op: Op, scope: Name)
    requires PlansOk(s.plans) && Legal(op)
    ensures var t, a := Apply(s, op), AnnouncedBy(s, op);
            && (!a.plans ==> t.plans == s.plans)
            && (a.keys.Some? && scope !in a.keys.value ==> SameRecord(s, t, scope))
            && (scope in s.keys ==> scope in t.keys)
  {
    match op
    case ResetQuota(chosen) =>
      var scopes := ToReset(s, chosen);
      if scopes.Some? && scope !in WithCycles(s, scopes.value) { ResetCovers(s, scopes.value, scope); }
    case _ =>
  }
}
