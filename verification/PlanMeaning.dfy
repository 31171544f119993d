/**
 When a plan or key operation is accepted and what every plan and key is afterwards, key by key and window by window.
 */
module PlanMeaning {
  import opened Options
  import opened Text
  import opened Quota
  import opened Cycles
  import opened Plans

  // ---------------------------------------------------------------------------------------
  // Schedules
  // ---------------------------------------------------------------------------------------

  /** Two windows reset at the same instants: a period apart, by whole periods. */
  predicate SameResets(v: Window, w: Window) {
    && v.period == w.period && (IsZero(v.anchor) <==> IsZero(w.anchor))
    && (v.anchor == w.anchor || (v.period > 0 && Multiple(v.anchor - w.anchor, v.period * 1_000_000_000)))
  }

  lemma SplitsAt(t: int)
    ensures t == Unix(t) * SECOND + t % SECOND
  {
  }

  lemma SameResetsIff(v: Window, w: Window)
    ensures SameSchedule(v, w) <==> SameResets(v, w)
  {
    if v.period == w.period && v.anchor != w.anchor && v.period > 0 {
      var a, p := Unix(v.anchor) - Unix(w.anchor), v.period;
      SplitsAt(v.anchor);
      SplitsAt(w.anchor);
      RemainderZero(a, p);
      if SameSchedule(v, w) {
        assert a == p * (a / p);
        Scaled(p, a / p);
        MultipleOf(v.anchor - w.anchor, p * SECOND, a / p);
      }
      if SameResets(v, w) { WholePeriods(v.anchor, w.anchor, p, (v.anchor - w.anchor) / (p * SECOND)); }
    }
  }

  lemma WholePeriods(a: int, b: int, p: int, k: int)
    requires p > 0 && a - b == p * SECOND * k
    ensures a % SECOND == b % SECOND && (Unix(a) - Unix(b)) % p == 0
  {
    Scaled(p, k);
    SplitsAt(b);
    EuclideanUnique(a, SECOND, Unix(b) + p * k, b % SECOND);
    EuclideanUnique(p * k, p, k, 0);
  }

  // ---------------------------------------------------------------------------------------
  // Preparing windows
  // ---------------------------------------------------------------------------------------

  /** The window of that identifier that the plan has now. */
  ghost predicate Prior(existing: seq<Window>, id: Name, w: Window) {
    w in existing && w.id == id
  }

  /** The given window has a right to be kept or made: a new one, or one of the plan's. */
  ghost predicate Known(w: Window, existing: seq<Window>) {
    w.id == NO_NAME || exists v :: Prior(existing, w.id, v)
  }

  ghost predicate StartsInTime(w: Window, now: int) {
    0 < w.period <= MAX_PERIOD_SECONDS && now < w.anchor <= now + w.period * 1_000_000_000
  }

  lemma PriorIs(existing: seq<Window>, id: Name, v: Window)
    requires forall i, j :: 0 <= i < j < |existing| ==> existing[i].id != existing[j].id
    ensures WindowAt(existing, id) == Some(v) <==> Prior(existing, id, v)
  {
    if Prior(existing, id, v) { WindowAtIs(existing, v); }
  }

  /**
   One window of an edit: it is refused when it is unknown, or has an anchor that neither continues the schedule it had
   nor starts a new one within a period. Otherwise only its identifier, when it has none, and the anchor of a continued
   schedule are filled in.
   */
  lemma PreparedMeans(w: Window, existing: seq<Window>, now: int, newId: Name)
    requires forall i, j :: 0 <= i < j < |existing| ==> existing[i].id != existing[j].id
    requires NO_NAME != newId && forall v :: v in existing ==> v.id != NO_NAME
    ensures var continues := exists v :: Prior(existing, w.id, v) && SameResets(w, v);
            var r := PreparedWindow(w, existing, now, newId);
            && (r.Some? <==> Known(w, existing) && (IsZero(w.anchor) || continues || StartsInTime(w, now)))
            && (r.Some? ==>
                  && r.value == w.(id := r.value.id, anchor := r.value.anchor)
                  && r.value.id == (if w.id == NO_NAME then newId else w.id)
                  && (r.value.anchor == w.anchor || exists v :: Prior(existing, w.id, v) && r.value.anchor == v.anchor)
                  && (forall v :: Prior(existing, w.id, v) && SameResets(w, v) ==> r.value.anchor == v.anchor))
  {
    forall v ensures WindowAt(existing, w.id) == Some(v) <==> Prior(existing, w.id, v) { PriorIs(existing, w.id, v); }
    forall v ensures SameSchedule(w, v) <==> SameResets(w, v) { SameResetsIff(w, v); }
    if WindowAt(existing, w.id).Some? {
      var v := WindowAt(existing, w.id).value;
      assert Prior(existing, w.id, v);
    }
  }

  // ---------------------------------------------------------------------------------------
  // Plans
  // ---------------------------------------------------------------------------------------

  ghost predicate IsUnbound(s: State, scope: Name) {
    scope in s.keys && !s.keys[scope].deleted && s.keys[scope].quota.planId == NO_NAME
  }

  /** A key bound afresh: without cycles, and otherwise as it was. */
  function Bound(r: KeyRecord, id: Name): KeyRecord {
    KeyRecord(Key(id, map[]), r.deleted, r.inConfig)
  }

  /** A plan is created exactly when it is valid, its identifier new and every chosen key live and without a plan. */
  lemma CreateMeans(s: State, plan: Plan, freeId: Name, scopes: set<Name>, now: int, newIds: seq<Name>)
    requires |newIds| == |plan.windows|
    ensures var ws := PreparedAll(plan.windows, [], now, newIds);
            var id := if plan.id == NO_NAME then freeId else plan.id;
            var r := Created(s, Named(plan, freeId), scopes, now, newIds);
            && (r.Some? <==>
                  && ws.Some? && ValidPlan(Plan(id, ws.value)) && (forall p :: p in s.plans ==> p.id != id)
                  && forall scope :: scope in scopes ==> IsUnbound(s, scope))
            && (r.Some? ==>
                  && r.value.plans == s.plans + [Plan(id, ws.value)] && r.value.keys.Keys == s.keys.Keys
                  && forall scope :: scope in s.keys ==>
                       r.value.keys[scope] == if scope in scopes then Bound(s.keys[scope], id) else s.keys[scope])
  {
    forall scope ensures CanBind(s, scope) <==> IsUnbound(s, scope) { }
    var id := if plan.id == NO_NAME then freeId else plan.id;
    PlanIsFound(s.plans, id);
  }

  lemma {:induction false} PlanIsFound(plans: seq<Plan>, id: Name)
    ensures FindPlan(plans, id).Some? <==> id != NO_NAME && exists p :: p in plans && p.id == id
  {
    if plans != [] { PlanIsFound(plans[1..], id); }
  }

  /** Only the plan goes, and only its keys are released. */
  lemma DeleteMeans(s: State, id: Name)
    requires PlansOk(s.plans)
    ensures var r := Deleted(s, id);
            && (r.Some? <==> id != NO_NAME && exists p :: p in s.plans && p.id == id)
            && (r.Some? ==>
                  && (forall p :: p in r.value.plans <==> p in s.plans && p.id != id)
                  && r.value.keys.Keys == s.keys.Keys
                  && forall scope :: scope in s.keys ==>
                       r.value.keys[scope] ==
                         if s.keys[scope].quota.planId == id then Bound(s.keys[scope], NO_NAME) else s.keys[scope])
  {
    var i := PlanIndex(s.plans, id);
    if i < |s.plans| {
      assert s.plans[i] in s.plans;
      var rest := s.plans[..i] + s.plans[i + 1..];
      forall p ensures p in rest <==> p in s.plans && p.id != id {
        if j :| 0 <= j < |s.plans| && s.plans[j] == p && p.id != id {
          assert j < i ==> rest[j] == p;
          assert j > i ==> rest[j - 1] == p;
        }
      }
    }
  }

  // ---------------------------------------------------------------------------------------
  // Keys
  // ---------------------------------------------------------------------------------------

  ghost predicate IsBound(s: State, scope: Name) {
    scope in s.keys && !s.keys[scope].deleted && s.keys[scope].quota.planId != NO_NAME
  }

  /** A reset of chosen keys needs some, and all of them live and bound; a reset of all takes those that are. */
  lemma ResetMeans(s: State, chosen: Option<set<Name>>)
    ensures var r := ToReset(s, chosen);
            && (r.Some? <==>
                  chosen.Some? ==> chosen.value != {} && forall scope :: scope in chosen.value ==> IsBound(s, scope))
            && (r.Some? ==>
                  && (forall scope :: scope in r.value <==>
                        IsBound(s, scope) && (chosen.Some? ==> scope in chosen.value))
                  && var t := WasReset(s, r.value);
                     && t.plans == s.plans && t.keys.Keys == s.keys.Keys
                     && forall scope :: scope in s.keys ==>
                          var had := s.keys[scope];
                          t.keys[scope] == if scope in r.value then Bound(had, had.quota.planId) else had)
  {
    var bound := set scope | scope in s.keys && IsLive(s, scope) && s.keys[scope].quota.planId != NO_NAME;
    forall scope ensures scope in bound <==> IsBound(s, scope) { }
  }

  /** A listed key is live and its plan and cycles stay; a key that had been listed and is not any more is deleted. */
  lemma SyncMeans(s: State, listed: set<Name>, scope: Name)
    ensures var t := Synced(s, listed);
            && t.plans == s.plans
            && (scope in t.keys <==> scope in s.keys || scope in listed)
            && (scope in t.keys ==> t.keys[scope].quota == if scope in s.keys then s.keys[scope].quota else UNBOUND)
            && (scope in t.keys && scope in listed ==> !t.keys[scope].deleted && t.keys[scope].inConfig)
            && (scope in t.keys && scope !in listed ==>
                  && !t.keys[scope].inConfig
                  && t.keys[scope].deleted == (s.keys[scope].deleted || s.keys[scope].inConfig))
  {
  }

  /** Binding needs a live key and a known plan, and starts without cycles unless the key had that plan already. */
  lemma BindMeans(s: State, scope: Name, planId: Name)
    requires PlansOk(s.plans)
    ensures var t := Apply(s, BindKey(scope, planId));
            var accepted := planId != NO_NAME && (exists p :: p in s.plans && p.id == planId)
                            && scope in s.keys && !s.keys[scope].deleted;
            && (!accepted ==> t == s)
            && (accepted ==>
                  t == if s.keys[scope].quota.planId == planId then s
                       else s.(keys := s.keys[scope := Bound(s.keys[scope], planId)]))
  {
    PlanIsFound(s.plans, planId);
  }

  lemma UnbindMeans(s: State, scope: Name)
    requires PlansOk(s.plans)
    ensures Apply(s, UnbindKey(scope)) ==
              if IsBound(s, scope) then s.(keys := s.keys[scope := Bound(s.keys[scope], NO_NAME)]) else s
  {
  }

  // ---------------------------------------------------------------------------------------
  // Editing a plan
  // ---------------------------------------------------------------------------------------

  /** A key may be selected for the plan when it is on it, or live and on none. */
  ghost predicate Selectable(s: State, scope: Name, id: Name) {
    scope in s.keys && (s.keys[scope].quota.planId == id || IsUnbound(s, scope))
  }

  ghost predicate AllSelectable(s: State, selected: Option<set<Name>>, id: Name) {
    selected.Some? ==> forall scope :: scope in selected.value ==> Selectable(s, scope, id)
  }

  /** The windows the edited plan gets. */
  function NewWindows(prior: seq<Window>, windows: Option<seq<Window>>, now: int, newIds: seq<Name>)
    : Option<seq<Window>>
    requires windows.Some? ==> |newIds| == |windows.value|
  {
    if windows.Some? then PreparedAll(windows.value, prior, now, newIds) else Some(prior)
  }

  /** The cycle of a window is kept when the edited plan has a window of its identifier with the same resets. */
  ghost predicate Keeps(prior: seq<Window>, ws: seq<Window>, id: Name) {
    exists w, v :: w in prior && v in ws && w.id == v.id == id && SameResets(v, w)
  }

  /** One key after the edit. */
  ghost predicate KeyEdited(r: KeyRecord, scope: Name, id: Name, selected: Option<set<Name>>, prior: seq<Window>,
          ws: seq<Window>, after: KeyRecord) {
    if r.quota.planId == id && (selected.Some? ==> scope in selected.value) then
      && after == r.(quota := after.quota) && after.quota.planId == id
      && (forall c :: c in after.quota.cycles <==> c in r.quota.cycles && Keeps(prior, ws, c))
      && (forall c :: c in after.quota.cycles ==> c in r.quota.cycles && after.quota.cycles[c] == r.quota.cycles[c])
    else if r.quota.planId == id then after == Bound(r, NO_NAME)
    else if r.quota.planId == NO_NAME && selected.Some? && scope in selected.value then after == Bound(r, id)
    else after == r
  }

  lemma IndexIs(plans: seq<Plan>, i: nat)
    requires PlansOk(plans) && i < |plans|
    ensures PlanIndex(plans, plans[i].id) == i
  {
  }

  lemma UpdateAccepted(s: State, i: nat, windows: Option<seq<Window>>, selected: Option<set<Name>>, now: int,
          newIds: seq<Name>)
    requires PlansOk(s.plans) && i < |s.plans| && (windows.Some? ==> |newIds| == |windows.value|)
    ensures var id, ws := s.plans[i].id, NewWindows(s.plans[i].windows, windows, now, newIds);
            Updated(s, id, windows, selected, now, newIds).Some? <==>
              ws.Some? && ValidPlan(Plan(id, ws.value)) && AllSelectable(s, selected, id)
  {
    var id := s.plans[i].id;
    IndexIs(s.plans, i);
    assert ValidPlan(s.plans[i]);
    forall scope ensures CanSelect(s, scope, id) <==> Selectable(s, scope, id) { }
  }

  lemma MovedIs(prior: seq<Window>, ws: seq<Window>, id: Name)
    requires forall i, j :: 0 <= i < j < |prior| ==> prior[i].id != prior[j].id
    requires exists w :: w in prior && w.id == id
    ensures id !in Moved(prior, ws) <==> Keeps(prior, ws, id)
  {
    var w :| w in prior && w.id == id;
    forall v | v in prior && v.id == id ensures v == w {
      WindowAtIs(prior, v);
      WindowAtIs(prior, w);
    }
    ContinuedIff(w, ws);
  }

  lemma ContinuedIff(w: Window, ws: seq<Window>)
    ensures Continued(w, ws) <==> exists v :: v in ws && v.id == w.id && SameResets(v, w)
  {
    forall v ensures SameSchedule(v, w) <==> SameResets(v, w) { SameResetsIff(v, w); }
    if v :| v in ws && v.id == w.id && SameResets(v, w) {
      var i :| 0 <= i < |ws| && ws[i] == v;
    }
  }

  lemma SameWindowsKeepAll(prior: seq<Window>, id: Name)
    requires exists w :: w in prior && w.id == id
    ensures Keeps(prior, prior, id)
  {
  }

  lemma KeyAfterUpdate(s: State, i: nat, windows: Option<seq<Window>>, selected: Option<set<Name>>, now: int,
          newIds: seq<Name>, scope: Name)
    requires Inv(s) && i < |s.plans| && (windows.Some? ==> |newIds| == |windows.value|) && scope in s.keys
    requires Updated(s, s.plans[i].id, windows, selected, now, newIds).Some?
    ensures var prior, ws := s.plans[i].windows, NewWindows(s.plans[i].windows, windows, now, newIds);
            KeyEdited(s.keys[scope], scope, s.plans[i].id, selected, prior, ws.value,
                      Updated(s, s.plans[i].id, windows, selected, now, newIds).value.keys[scope])
  {
    var p, key := s.plans[i], s.keys[scope].quota;
    IndexIs(s.plans, i);
    assert ValidPlan(p);
    if key.planId == p.id {
      FindPlanIs(s.plans, i);
      DistinctIds(p);
      forall c | c in key.cycles
        ensures c !in Moved(p.windows, NewWindows(p.windows, windows, now, newIds).value) <==>
                Keeps(p.windows, NewWindows(p.windows, windows, now, newIds).value, c)
        ensures Keeps(p.windows, p.windows, c)
      {
        OnlyPlanWindows(key, p, c);
        MovedIs(p.windows, NewWindows(p.windows, windows, now, newIds).value, c);
        SameWindowsKeepAll(p.windows, c);
      }
    }
  }

  /**
   An edit is accepted exactly when the plan exists and stays valid and all selected keys are its own or free. Then
   the plan alone is replaced, and a key keeps exactly the cycles of windows with the same resets, is released, is bound
   afresh or stays as it was.
   */
  lemma UpdateMeans(s: State, i: nat, windows: Option<seq<Window>>, selected: Option<set<Name>>, now: int,
          newIds: seq<Name>)
    requires Inv(s) && i < |s.plans| && (windows.Some? ==> |newIds| == |windows.value|)
    ensures var p := s.plans[i];
            var ws, r := NewWindows(p.windows, windows, now, newIds), Updated(s, p.id, windows, selected, now, newIds);
            && (r.Some? <==> ws.Some? && ValidPlan(Plan(p.id, ws.value)) && AllSelectable(s, selected, p.id))
            && (r.Some? ==>
                  && r.value.plans == s.plans[i := Plan(p.id, ws.value)] && r.value.keys.Keys == s.keys.Keys
                  && forall scope :: scope in s.keys ==>
                       KeyEdited(s.keys[scope], scope, p.id, selected, p.windows, ws.value, r.value.keys[scope]))
  {
    var p := s.plans[i];
    UpdateAccepted(s, i, windows, selected, now, newIds);
    IndexIs(s.plans, i);
    if Updated(s, p.id, windows, selected, now, newIds).Some? {
      forall scope | scope in s.keys
        ensures KeyEdited(s.keys[scope], scope, p.id, selected, p.windows,
                          NewWindows(p.windows, windows, now, newIds).value,
                          Updated(s, p.id, windows, selected, now, newIds).value.keys[scope])
      {
        KeyAfterUpdate(s, i, windows, selected, now, newIds, scope);
      }
    }
  }

  /** Without such a plan nothing is edited. */
  lemma NothingToUpdate(s: State, id: Name, windows: Option<seq<Window>>, selected: Option<set<Name>>, now: int,
          newIds: seq<Name>)
    requires windows.Some? ==> |newIds| == |windows.value|
    requires id == NO_NAME || forall p :: p in s.plans ==> p.id != id
    ensures Updated(s, id, windows, selected, now, newIds).None?
  {
  }
}
