/** Plans, keys and every operation that touches cycles; the load-time check is their invariant. */
module Plans {
  import opened Options
  import opened Sequences
  import opened Text
  import opened Quota
  import opened Cycles

  datatype KeyRecord = KeyRecord(quota: Key, deleted: bool, inConfig: bool)

  datatype State = State(plans: seq<Plan>, keys: map<Name, KeyRecord>)

  function FindPlan(plans: seq<Plan>, id: Name): (p: Option<Plan>)
    ensures p.Some? ==> p.value in plans && p.value.id == id != NO_NAME
    ensures p.None? && id != NO_NAME ==> forall q :: q in plans ==> q.id != id
  {
    if plans == [] || id == NO_NAME then None
    else if plans[0].id == id then Some(plans[0])
    else FindPlan(plans[1..], id)
  }

  /** Looking up an unknown plan yields the zero plan. */
  function PlanOf(plans: seq<Plan>, id: Name): Plan {
    match FindPlan(plans, id) case Some(p) => p case None => Plan(NO_NAME, [])
  }

  predicate IsLive(s: State, scope: Name) {
    scope in s.keys && !s.keys[scope].deleted
  }

  ghost predicate PlansOk(plans: seq<Plan>) {
    && (forall i :: 0 <= i < |plans| ==> ValidPlan(plans[i]))
    && (forall i, j :: 0 <= i < j < |plans| ==> plans[i].id != plans[j].id)
  }

  /** The key passes the check that loading applies, against the plans as they are. */
  ghost predicate KeyOk(plans: seq<Plan>, key: Key)
    requires PlansOk(plans)
  {
    ValidateCycles(key, PlanOf(plans, key.planId))
  }

  ghost predicate Inv(s: State) {
    PlansOk(s.plans) && forall scope :: scope in s.keys ==> KeyOk(s.plans, s.keys[scope].quota)
  }

  // ---------------------------------------------------------------------------------------
  // Window preparation
  // ---------------------------------------------------------------------------------------

  /** A new window gets a fresh identifier; a moved schedule must start within one period. */
  function PreparedWindow(w: Window, existing: seq<Window>, now: int, newId: Name): Option<Window> {
    var prior := WindowAt(existing, w.id);
    if w.id != NO_NAME && prior.None? then None else
      var v := if w.id == NO_NAME then w.(id := newId) else w;
      if IsZero(v.anchor) then Some(v)
      else if prior.Some? && SameSchedule(v, prior.value) then Some(v.(anchor := prior.value.anchor))
      else if 0 < v.period <= MAX_PERIOD_SECONDS && now < v.anchor <= now + v.period * SECOND then Some(v)
      else None
  }

  function PreparedAll(ws: seq<Window>, existing: seq<Window>, now: int, newIds: seq<Name>): Option<seq<Window>>
    requires |newIds| == |ws|
  {
    if ws == [] then Some([]) else
      var n := |ws| - 1;
      match PreparedAll(ws[..n], existing, now, newIds[..n])
      case None => None
      case Some(front) =>
        match PreparedWindow(ws[n], existing, now, newIds[n])
        case None => None
        case Some(w) => Some(InsertByPeriod(front, w))
  }

  function InsertByPeriod(ws: seq<Window>, w: Window): (r: seq<Window>)
    ensures multiset(r) == multiset(ws) + multiset{w}
  {
    if ws == [] || ws[|ws| - 1].period <= w.period then ws + [w]
    else
      assert ws == ws[..|ws| - 1] + [ws[|ws| - 1]];
      InsertByPeriod(ws[..|ws| - 1], w) + [ws[|ws| - 1]]
  }

  predicate ByPeriod(ws: seq<Window>) {
    forall i, j :: 0 <= i < j < |ws| ==> ws[i].period <= ws[j].period
  }

  lemma InsertMembers(ws: seq<Window>, w: Window)
    ensures forall v :: v in InsertByPeriod(ws, w) <==> v in ws || v == w
  {
    assert forall v :: v in InsertByPeriod(ws, w) <==> v in multiset(InsertByPeriod(ws, w));
    assert forall v :: v in ws <==> v in multiset(ws);
  }

  lemma AppendKeepsOrder(ws: seq<Window>, w: Window)
    requires ByPeriod(ws) && forall v :: v in ws ==> v.period <= w.period
    ensures ByPeriod(ws + [w])
  {
    forall i | 0 <= i < |ws| ensures ws[i].period <= w.period { assert ws[i] in ws; }
  }

  lemma {:induction false} InsertKeepsOrder(ws: seq<Window>, w: Window)
    requires ByPeriod(ws)
    ensures ByPeriod(InsertByPeriod(ws, w))
  {
    if ws == [] || ws[|ws| - 1].period <= w.period {
      AppendKeepsOrder(ws, w);
    } else {
      var n := |ws| - 1;
      InsertKeepsOrder(ws[..n], w);
      InsertMembers(ws[..n], w);
      AppendKeepsOrder(InsertByPeriod(ws[..n], w), ws[n]);
    }
  }

  /** Prepared windows come in the order of their periods. */
  lemma {:induction false} PreparedIsOrdered(ws: seq<Window>, existing: seq<Window>, now: int, newIds: seq<Name>)
    requires |newIds| == |ws| && PreparedAll(ws, existing, now, newIds).Some?
    ensures ByPeriod(PreparedAll(ws, existing, now, newIds).value)
  {
    if ws != [] {
      var n := |ws| - 1;
      PreparedIsOrdered(ws[..n], existing, now, newIds[..n]);
      InsertKeepsOrder(PreparedAll(ws[..n], existing, now, newIds[..n]).value,
                       PreparedWindow(ws[n], existing, now, newIds[n]).value);
    }
  }

  /** One of the first windows is prepared to this one. */
  ghost predicate GivenBefore(ws: seq<Window>, existing: seq<Window>, now: int, newIds: seq<Name>, n: nat, v: Window)
    requires |newIds| == |ws| && n <= |ws|
  {
    exists i :: 0 <= i < n && PreparedWindow(ws[i], existing, now, newIds[i]) == Some(v)
  }

  lemma GivenInFront(ws: seq<Window>, existing: seq<Window>, now: int, newIds: seq<Name>, n: nat, v: Window)
    requires |newIds| == |ws| && n <= |ws|
    ensures GivenBefore(ws[..n], existing, now, newIds[..n], n, v) <==> GivenBefore(ws, existing, now, newIds, n, v)
  {
    if GivenBefore(ws, existing, now, newIds, n, v) {
      var i :| 0 <= i < n && PreparedWindow(ws[i], existing, now, newIds[i]) == Some(v);
      assert PreparedWindow(ws[..n][i], existing, now, newIds[..n][i]) == Some(v);
    }
  }

  lemma GivenNext(ws: seq<Window>, existing: seq<Window>, now: int, newIds: seq<Name>, n: nat, v: Window)
    requires |newIds| == |ws| && n < |ws|
    ensures GivenBefore(ws, existing, now, newIds, n + 1, v) <==>
              GivenBefore(ws, existing, now, newIds, n, v)
              || PreparedWindow(ws[n], existing, now, newIds[n]) == Some(v)
  {
  }

  /** The prepared windows are the given ones, each prepared. */
  lemma {:induction false} PreparedAreGiven(ws: seq<Window>, existing: seq<Window>, now: int, newIds: seq<Name>,
            v: Window)
    requires |newIds| == |ws| && PreparedAll(ws, existing, now, newIds).Some?
    ensures v in PreparedAll(ws, existing, now, newIds).value <==>
              GivenBefore(ws, existing, now, newIds, |ws|, v)
  {
    if ws != [] {
      var n := |ws| - 1;
      PreparedAreGiven(ws[..n], existing, now, newIds[..n], v);
      GivenInFront(ws, existing, now, newIds, n, v);
      GivenNext(ws, existing, now, newIds, n, v);
      InsertMembers(PreparedAll(ws[..n], existing, now, newIds[..n]).value,
                    PreparedWindow(ws[n], existing, now, newIds[n]).value);
    }
  }

  /** A window that continues an existing schedule carries the anchor of that schedule. */
  lemma PreparedKeepsAnchors(ws: seq<Window>, existing: seq<Window>, now: int, newIds: seq<Name>, v: Window)
    requires |newIds| == |ws| && PreparedAll(ws, existing, now, newIds).Some?
    requires forall id :: id in newIds ==> WindowAt(existing, id).None?
    requires v in PreparedAll(ws, existing, now, newIds).value && !IsZero(v.anchor)
    ensures var prior := WindowAt(existing, v.id);
            prior.Some? && SameSchedule(v, prior.value) ==> v.anchor == prior.value.anchor
  {
    PreparedAreGiven(ws, existing, now, newIds, v);
    var i :| 0 <= i < |ws| && PreparedWindow(ws[i], existing, now, newIds[i]) == Some(v);
    assert newIds[i] in newIds;
  }

  lemma LastIsLongest(ws: seq<Window>, w: Window)
    requires ByPeriod(ws) && w in ws
    ensures w.period <= ws[|ws| - 1].period
  {
  }

  predicate DistinctPeriods(ws: seq<Window>) {
    forall v, w :: v in ws && w in ws && v.period == w.period ==> v == w
  }

  lemma SameLastWindow(a: seq<Window>, b: seq<Window>)
    requires ByPeriod(a) && ByPeriod(b) && DistinctPeriods(a) && a != [] && b != []
    requires forall w :: w in a <==> w in b
    ensures a[|a| - 1] == b[|b| - 1]
  {
    LastIsLongest(a, b[|b| - 1]);
    LastIsLongest(b, a[|a| - 1]);
  }

  lemma FrontIsOrdered(a: seq<Window>)
    requires ByPeriod(a) && DistinctPeriods(a) && a != []
    ensures ByPeriod(a[..|a| - 1]) && DistinctPeriods(a[..|a| - 1])
  {
  }

  /** With distinct periods, as a valid plan has, there is one order: how it is sorted does not matter. */
  lemma {:induction false} OrderIsUnique(a: seq<Window>, b: seq<Window>)
    requires ByPeriod(a) && ByPeriod(b) && DistinctPeriods(a) && DistinctPeriods(b)
    requires multiset(a) == multiset(b)
    ensures a == b
    decreases |a|
  {
    SameBag(a, b);
    if a != [] {
      SameLastWindow(a, b);
      FrontIsOrdered(a);
      FrontIsOrdered(b);
      BagWithoutLast(a);
      BagWithoutLast(b);
      OrderIsUnique(a[..|a| - 1], b[..|b| - 1]);
      Rejoined(a, b);
    }
  }

  lemma Rejoined(a: seq<Window>, b: seq<Window>)
    requires a != [] && b != [] && a[..|a| - 1] == b[..|b| - 1] && a[|a| - 1] == b[|b| - 1]
    ensures a == b
  {
    assert a == a[..|a| - 1] + [a[|a| - 1]] && b == b[..|b| - 1] + [b[|b| - 1]];
  }

  // ---------------------------------------------------------------------------------------
  // Operations
  // ---------------------------------------------------------------------------------------

  datatype Op =
    | Authorize(scope: Name, at: int)
    | Report(scope: Name, start: int, usage: Usage, at: int, grouped: bool)
    | SettleViews(scopes: set<Name>, now: int)
    | BindKey(scope: Name, planId: Name)
    | UnbindKey(scope: Name)
    | ResetQuota(chosen: Option<set<Name>>)
    | SyncKeys(listed: set<Name>, allowEmpty: bool)
    | CreatePlan(plan: Plan, freeId: Name, scopes: set<Name>, now: int, newIds: seq<Name>)
    | UpdatePlan(id: Name, windows: Option<seq<Window>>, selected: Option<set<Name>>, now: int, newIds: seq<Name>)
    | DeletePlan(id: Name)

  function WithQuota(r: KeyRecord, key: Key): KeyRecord {
    r.(quota := key)
  }

  function AuthorizedKey(plans: seq<Plan>, key: Key, at: int): Key
    requires forall p :: p in plans ==> PositivePeriods(p.windows)
  {
    if key.planId == NO_NAME then key else
      match FindPlan(plans, key.planId) case None => UNBOUND case Some(p) => Authorized(key, p, at)
  }

  function ReportedKey(plans: seq<Plan>, key: Key, start: int, usage: Usage, at: int, grouped: bool): Key {
    if grouped then key else
      var charged := Charged(key, start, usage);
      if FindPlan(plans, key.planId).Some? then Settled(charged, at) else charged
  }

  function SettledPlan(plans: seq<Plan>, key: Key, now: int): Key {
    if key.planId == NO_NAME then key
    else if PlanOf(plans, key.planId).id == key.planId then Settled(key, now) else UNBOUND
  }

  predicate CanBind(s: State, scope: Name) {
    IsLive(s, scope) && s.keys[scope].quota.planId == NO_NAME
  }

  /** A selected key is live or already on the plan, and on no other plan. */
  predicate CanSelect(s: State, scope: Name, id: Name) {
    && scope in s.keys
    && (s.keys[scope].deleted ==> s.keys[scope].quota.planId == id)
    && (s.keys[scope].quota.planId == NO_NAME || s.keys[scope].quota.planId == id)
  }

  /** Windows of the old plan whose schedule the new plan does not continue. */
  function Moved(prior: seq<Window>, updated: seq<Window>): set<Name> {
    set w | w in prior && !Continued(w, updated) :: w.id
  }

  predicate Continued(prior: Window, updated: seq<Window>) {
    exists i :: 0 <= i < |updated| && updated[i].id == prior.id && SameSchedule(updated[i], prior)
  }

  function UpdatedKey(key: Key, scope: Name, id: Name, selected: Option<set<Name>>, moved: set<Name>): Key {
    if key.planId == id then
      if selected.Some? && scope !in selected.value then UNBOUND else key.(cycles := key.cycles - moved)
    else if selected.Some? && scope in selected.value && key.planId == NO_NAME then Key(id, map[])
    else key
  }

  function PlanIndex(plans: seq<Plan>, id: Name): (i: nat)
    ensures i <= |plans|
    ensures i < |plans| ==> plans[i].id == id
    ensures forall j :: 0 <= j < i ==> plans[j].id != id
  {
    if plans == [] || plans[0].id == id then 0 else PlanIndex(plans[1..], id) + 1
  }

  /** A plan without an identifier gets one that is free. */
  function Named(plan: Plan, freeId: Name): Plan {
    if plan.id == NO_NAME then plan.(id := freeId) else plan
  }

  function Created(s: State, plan: Plan, scopes: set<Name>, now: int, newIds: seq<Name>): Option<State>
    requires |newIds| == |plan.windows|
  {
    match PreparedAll(plan.windows, [], now, newIds)
    case None => None
    case Some(ws) =>
      var p := plan.(windows := ws);
      if !ValidPlan(p) || FindPlan(s.plans, p.id).Some? || exists scope :: scope in scopes && !CanBind(s, scope)
      then None
      else Some(State(s.plans + [p], map scope | scope in s.keys ::
        if scope in scopes then WithQuota(s.keys[scope], Key(p.id, map[])) else s.keys[scope]))
  }

  function Updated(s: State, id: Name, windows: Option<seq<Window>>, selected: Option<set<Name>>, now: int,
          newIds: seq<Name>): Option<State>
    requires windows.Some? ==> |newIds| == |windows.value|
  {
    var i := PlanIndex(s.plans, id);
    if id == NO_NAME || i == |s.plans| then None else
      var prior := s.plans[i].windows;
      match (if windows.Some? then PreparedAll(windows.value, prior, now, newIds) else Some(prior))
      case None => None
      case Some(ws) =>
        var p := s.plans[i].(windows := ws);
        if !ValidPlan(p) || (selected.Some? && exists scope :: scope in selected.value && !CanSelect(s, scope, id))
        then None
        else
          var moved := if windows.Some? then Moved(prior, ws) else {};
          Some(State(s.plans[i := p], map scope | scope in s.keys ::
            WithQuota(s.keys[scope], UpdatedKey(s.keys[scope].quota, scope, id, selected, moved))))
  }

  function Deleted(s: State, id: Name): Option<State> {
    var i := PlanIndex(s.plans, id);
    if id == NO_NAME || i == |s.plans| then None else
      Some(State(s.plans[..i] + s.plans[i + 1..], map scope | scope in s.keys ::
        if s.keys[scope].quota.planId == id then WithQuota(s.keys[scope], UNBOUND) else s.keys[scope]))
  }

  /** The keys a reset applies to; a named key must be live and bound. */
  function ToReset(s: State, chosen: Option<set<Name>>): Option<set<Name>> {
    var bound := set scope | scope in s.keys && IsLive(s, scope) && s.keys[scope].quota.planId != NO_NAME;
    match chosen
    case None => Some(bound)
    case Some(scopes) => if scopes == {} || !(scopes <= bound) then None else Some(scopes)
  }

  function WasReset(s: State, scopes: set<Name>): State {
    s.(keys := map scope | scope in s.keys ::
      if scope in scopes then WithQuota(s.keys[scope], s.keys[scope].quota.(cycles := map[])) else s.keys[scope])
  }

  function ListedRecord(keys: map<Name, KeyRecord>, scope: Name): KeyRecord {
    (if scope in keys then keys[scope] else KeyRecord(UNBOUND, false, false)).(deleted := false, inConfig := true)
  }

  function VanishedRecord(r: KeyRecord): KeyRecord {
    if r.inConfig then r.(deleted := true, inConfig := false) else r
  }

  function Listed(given: seq<Name>, scopeOf: Name -> Name): set<Name> {
    set key | key in given && scopeOf(key) != NO_NAME :: scopeOf(key)
  }

  /** Listed keys become live, created when new; synchronised keys that vanished become deleted. */
  function Synced(s: State, listed: set<Name>): State {
    s.(keys := map scope | scope in s.keys.Keys + listed ::
      if scope in listed then ListedRecord(s.keys, scope) else VanishedRecord(s.keys[scope]))
  }

  ghost predicate Legal(op: Op) {
    match op
    case Authorize(_, at) => at >= 0
    case Report(_, _, usage, _, _) => NaturalUsage(usage)
    case CreatePlan(plan, _, _, _, newIds) => |newIds| == |plan.windows|
    case UpdatePlan(_, windows, _, _, newIds) => windows.Some? ==> |newIds| == |windows.value|
    case _ => true
  }

  /** The state after an operation; a refused one changes nothing. */
  ghost function Apply(s: State, op: Op): State
    requires PlansOk(s.plans) && Legal(op)
  {
    match op
    case Authorize(scope, at) =>
      if scope !in s.keys then s else
        s.(keys := s.keys[scope := WithQuota(s.keys[scope], AuthorizedKey(s.plans, s.keys[scope].quota, at))])
    case Report(scope, start, usage, at, grouped) =>
      if scope == NO_NAME then s else
        var r := if scope in s.keys then s.keys[scope] else KeyRecord(UNBOUND, false, false);
        s.(keys := s.keys[scope := WithQuota(r, ReportedKey(s.plans, r.quota, start, usage, at, grouped))])
    case SettleViews(scopes, now) =>
      s.(keys := map scope | scope in s.keys ::
        if scope in scopes && !s.keys[scope].deleted
        then WithQuota(s.keys[scope], SettledPlan(s.plans, s.keys[scope].quota, now)) else s.keys[scope])
    case BindKey(scope, planId) =>
      if FindPlan(s.plans, planId).None? || !IsLive(s, scope) || s.keys[scope].quota.planId == planId then s
      else s.(keys := s.keys[scope := WithQuota(s.keys[scope], Key(planId, map[]))])
    case UnbindKey(scope) =>
      if !IsLive(s, scope) || s.keys[scope].quota.planId == NO_NAME then s
      else s.(keys := s.keys[scope := WithQuota(s.keys[scope], UNBOUND)])
    case ResetQuota(chosen) => (match ToReset(s, chosen) case None => s case Some(scopes) => WasReset(s, scopes))
    case SyncKeys(listed, allowEmpty) => if listed == {} && !allowEmpty then s else Synced(s, listed)
    case CreatePlan(plan, freeId, scopes, now, newIds) =>
      (match Created(s, Named(plan, freeId), scopes, now, newIds) case None => s case Some(t) => t)
    case UpdatePlan(id, windows, selected, now, newIds) =>
      (match Updated(s, id, windows, selected, now, newIds) case None => s case Some(t) => t)
    case DeletePlan(id) => (match Deleted(s, id) case None => s case Some(t) => t)
  }

  // ---------------------------------------------------------------------------------------
  // Plan lookup after edits
  // ---------------------------------------------------------------------------------------

  lemma {:induction false} FindPlanIs(plans: seq<Plan>, i: nat)
    requires PlansOk(plans) && i < |plans|
    ensures FindPlan(plans, plans[i].id) == Some(plans[i])
  {
    if i > 0 {
      assert plans[1..][i - 1] == plans[i];
      FindPlanIs(plans[1..], i - 1);
    }
  }

  lemma {:induction false} FindPlanAppend(plans: seq<Plan>, p: Plan, id: Name)
    requires id != p.id
    ensures FindPlan(plans + [p], id) == FindPlan(plans, id)
  {
    if plans != [] {
      assert (plans + [p])[1..] == plans[1..] + [p];
      FindPlanAppend(plans[1..], p, id);
    }
  }

  lemma {:induction false} FindPlanReplace(plans: seq<Plan>, i: nat, p: Plan, id: Name)
    requires i < |plans| && plans[i].id == p.id && id != p.id
    ensures FindPlan(plans[i := p], id) == FindPlan(plans, id)
  {
    if i > 0 {
      assert plans[i := p][1..] == plans[1..][i - 1 := p];
      FindPlanReplace(plans[1..], i - 1, p, id);
    } else {
      assert plans[0 := p][1..] == plans[1..];
    }
  }

  lemma {:induction false} FindPlanRemove(plans: seq<Plan>, i: nat, id: Name)
    requires i < |plans| && plans[i].id != id
    ensures FindPlan(plans[..i] + plans[i + 1..], id) == FindPlan(plans, id)
  {
    if i > 0 {
      TailWithout(plans, i);
      FindPlanRemove(plans[1..], i - 1, id);
    } else {
      assert plans[..0] + plans[1..] == plans[1..];
    }
  }

  // ---------------------------------------------------------------------------------------
  // The invariant
  // ---------------------------------------------------------------------------------------

  lemma UnboundIsOk(plans: seq<Plan>)
    requires PlansOk(plans)
    ensures KeyOk(plans, UNBOUND)
  {
  }

  lemma AuthorizedKeyOk(plans: seq<Plan>, key: Key, at: int)
    requires PlansOk(plans) && KeyOk(plans, key) && at >= 0
    ensures KeyOk(plans, AuthorizedKey(plans, key, at))
  {
    if FindPlan(plans, key.planId).Some? { AuthorizedKeepsValid(key, PlanOf(plans, key.planId), at); }
  }

  lemma ReportedKeyOk(plans: seq<Plan>, key: Key, start: int, usage: Usage, at: int, grouped: bool)
    requires PlansOk(plans) && KeyOk(plans, key) && NaturalUsage(usage)
    ensures KeyOk(plans, ReportedKey(plans, key, start, usage, at, grouped))
  {
    var plan := PlanOf(plans, key.planId);
    ChargedKeepsValid(key, plan, start, usage);
    SettledKeepsValid(Charged(key, start, usage), plan, at);
  }

  lemma SettledPlanOk(plans: seq<Plan>, key: Key, now: int)
    requires PlansOk(plans) && KeyOk(plans, key)
    ensures KeyOk(plans, SettledPlan(plans, key, now))
  {
    SettledKeepsValid(key, PlanOf(plans, key.planId), now);
  }

  lemma CreatedInv(s: State, plan: Plan, scopes: set<Name>, now: int, newIds: seq<Name>)
    requires Inv(s) && |newIds| == |plan.windows| && Created(s, plan, scopes, now, newIds).Some?
    ensures Inv(Created(s, plan, scopes, now, newIds).value)
  {
    var t := Created(s, plan, scopes, now, newIds).value;
    var p := t.plans[|s.plans|];
    assert t.plans == s.plans + [p];
    assert forall i :: 0 <= i < |s.plans| ==> s.plans[i] in s.plans;
    assert PlansOk(t.plans);
    FindPlanIs(t.plans, |s.plans|);
    forall scope | scope in t.keys ensures KeyOk(t.plans, t.keys[scope].quota) {
      var key := s.keys[scope].quota;
      assert KeyOk(s.plans, key);
      if key.planId != p.id { FindPlanAppend(s.plans, p, key.planId); }
    }
  }

  /** A cycle is valid for the window that continues its own. */
  lemma ContinuedCycleOk(c: Cycle, planId: Name, w: Window, p: Plan)
    requires ValidPlan(p) && w.period > 0 && ValidCycle(c, planId, w) && Continued(w, p.windows)
    ensures var v := WindowAt(p.windows, w.id); v.Some? && v.value.period > 0 && ValidCycle(c, planId, v.value)
  {
    var i :| 0 <= i < |p.windows| && p.windows[i].id == w.id && SameSchedule(p.windows[i], w);
    assert ValidWindow(p.windows[i]);
    DistinctIds(p);
    WindowAtIs(p.windows, p.windows[i]);
    SameScheduleKeepsValid(c, planId, w, p.windows[i]);
  }

  /** A key of the edited plan keeps only cycles whose window continues. */
  lemma UpdatedCyclesOk(key: Key, prior: Plan, p: Plan, moved: set<Name>)
    requires ValidPlan(prior) && ValidPlan(p) && p.id == prior.id == key.planId
    requires ValidateCycles(key, prior)
    requires moved == Moved(prior.windows, p.windows) || p.windows == prior.windows
    ensures ValidateCycles(key.(cycles := key.cycles - moved), p)
  {
    forall id | id in key.cycles - moved
      ensures WindowAt(p.windows, id).Some? && ValidCycle(key.cycles[id], key.planId, WindowAt(p.windows, id).value)
    {
      var w := WindowAt(prior.windows, id).value;
      if p.windows != prior.windows {
        assert w.id == id && (w.id in Moved(prior.windows, p.windows) || Continued(w, p.windows));
        ContinuedCycleOk(key.cycles[id], key.planId, w, p);
      }
    }
  }

  lemma UpdatedKeyOk(plans: seq<Plan>, i: nat, p: Plan, key: Key, scope: Name, selected: Option<set<Name>>,
          moved: set<Name>)
    requires PlansOk(plans) && i < |plans| && plans[i].id == p.id && ValidPlan(p) && PlansOk(plans[i := p])
    requires KeyOk(plans, key)
    requires moved == Moved(plans[i].windows, p.windows) || p.windows == plans[i].windows
    ensures KeyOk(plans[i := p], UpdatedKey(key, scope, p.id, selected, moved))
  {
    FindPlanIs(plans, i);
    FindPlanIs(plans[i := p], i);
    if key.planId == p.id {
      UpdatedCyclesOk(key, plans[i], p, moved);
    } else {
      FindPlanReplace(plans, i, p, key.planId);
    }
  }

  lemma UpdatedInv(s: State, id: Name, windows: Option<seq<Window>>, selected: Option<set<Name>>, now: int,
          newIds: seq<Name>)
    requires Inv(s) && (windows.Some? ==> |newIds| == |windows.value|)
    requires Updated(s, id, windows, selected, now, newIds).Some?
    ensures Inv(Updated(s, id, windows, selected, now, newIds).value)
  {
    var t := Updated(s, id, windows, selected, now, newIds).value;
    var i := PlanIndex(s.plans, id);
    var p := t.plans[i];
    assert PlansOk(t.plans);
    var moved := if windows.Some? then Moved(s.plans[i].windows, p.windows) else {};
    forall scope | scope in t.keys ensures KeyOk(t.plans, t.keys[scope].quota) {
      UpdatedKeyOk(s.plans, i, p, s.keys[scope].quota, scope, selected, moved);
    }
  }

  /** Removing a plan leaves the others valid and distinct. */
  lemma RemovedPlansOk(plans: seq<Plan>, i: nat)
    requires PlansOk(plans) && i < |plans|
    ensures PlansOk(plans[..i] + plans[i + 1..])
  {
  }

  lemma DeletedInv(s: State, id: Name)
    requires Inv(s) && Deleted(s, id).Some?
    ensures Inv(Deleted(s, id).value)
  {
    var t := Deleted(s, id).value;
    var i := PlanIndex(s.plans, id);
    RemovedPlansOk(s.plans, i);
    forall scope | scope in t.keys ensures KeyOk(t.plans, t.keys[scope].quota) {
      var key := s.keys[scope].quota;
      if key.planId != id { FindPlanRemove(s.plans, i, key.planId); }
    }
  }

  lemma ApplyInv(s: State, op: Op)
    requires Inv(s) && Legal(op)
    ensures Inv(Apply(s, op))
  {
    UnboundIsOk(s.plans);
    match op
    case Authorize(scope, at) => if scope in s.keys { AuthorizedKeyOk(s.plans, s.keys[scope].quota, at); }
    case Report(scope, start, usage, at, grouped) =>
      var key := if scope in s.keys then s.keys[scope].quota else UNBOUND;
      ReportedKeyOk(s.plans, key, start, usage, at, grouped);
    case SettleViews(scopes, now) =>
      forall scope | scope in s.keys ensures KeyOk(s.plans, SettledPlan(s.plans, s.keys[scope].quota, now)) {
        SettledPlanOk(s.plans, s.keys[scope].quota, now);
      }
    case CreatePlan(plan, freeId, scopes, now, newIds) =>
      if Created(s, Named(plan, freeId), scopes, now, newIds).Some? {
        CreatedInv(s, Named(plan, freeId), scopes, now, newIds);
      }
    case UpdatePlan(id, windows, selected, now, newIds) =>
      if Updated(s, id, windows, selected, now, newIds).Some? { UpdatedInv(s, id, windows, selected, now, newIds); }
    case DeletePlan(id) => if Deleted(s, id).Some? { DeletedInv(s, id); }
    case _ =>
  }

  /**
   Whatever sequence of operations is carried out, every key of the resulting state passes the
   check that loading applies.
   */
  ghost function Run(s: State, ops: seq<Op>): (t: State)
    requires Inv(s) && forall op :: op in ops ==> Legal(op)
    ensures Inv(t)
  {
    if ops == [] then s else
      var m := Run(s, ops[..|ops| - 1]);
      ApplyInv(m, ops[|ops| - 1]);
      Apply(m, ops[|ops| - 1])
  }

  // ---------------------------------------------------------------------------------------
  // What the edits do to bindings and cycles
  // ---------------------------------------------------------------------------------------

  /** Editing a plan with a key list makes that list the plan's complete key set. */
  lemma UpdateReplacesKeySet(s: State, id: Name, windows: Option<seq<Window>>, selected: set<Name>, now: int,
          newIds: seq<Name>, scope: Name)
    requires windows.Some? ==> |newIds| == |windows.value|
    requires Updated(s, id, windows, Some(selected), now, newIds).Some?
    ensures var t := Updated(s, id, windows, Some(selected), now, newIds).value;
            && t.keys.Keys == s.keys.Keys && selected <= t.keys.Keys
            && (scope in t.keys ==> (t.keys[scope].quota.planId == id <==> scope in selected))
  {
    forall other | other in selected ensures other in s.keys {
      assert CanSelect(s, other, id);
    }
    if scope in selected { assert CanSelect(s, scope, id); }
  }

  /** A key that stays on the plan keeps exactly the cycles of the windows that continue, untouched. */
  lemma UpdateKeepsContinuedCycles(s: State, id: Name, windows: seq<Window>, selected: Option<set<Name>>,
          now: int, newIds: seq<Name>, scope: Name, w: Window)
    requires Inv(s) && |newIds| == |windows| && scope in s.keys && s.keys[scope].quota.planId == id
    requires Updated(s, id, Some(windows), selected, now, newIds).Some?
    requires selected.Some? ==> scope in selected.value
    requires w in s.plans[PlanIndex(s.plans, id)].windows && w.id in s.keys[scope].quota.cycles
    ensures var t := Updated(s, id, Some(windows), selected, now, newIds).value;
            && (w.id in t.keys[scope].quota.cycles <==> Continued(w, t.plans[PlanIndex(s.plans, id)].windows))
            && (w.id in t.keys[scope].quota.cycles ==>
                 t.keys[scope].quota.cycles[w.id] == s.keys[scope].quota.cycles[w.id])
  {
    var t := Updated(s, id, Some(windows), selected, now, newIds).value;
    var i := PlanIndex(s.plans, id);
    var before, after := s.plans[i].windows, t.plans[i].windows;
    if w.id in Moved(before, after) {
      var v :| v in before && !Continued(v, after) && v.id == w.id;
      WindowAtIs(before, v);
      WindowAtIs(before, w);
    }
  }

  /** No key is left on a deleted plan, and no other key is touched. */
  lemma DeleteReleasesKeys(s: State, id: Name, scope: Name)
    requires Deleted(s, id).Some? && scope in s.keys
    ensures var t := Deleted(s, id).value;
            && t.keys[scope].quota.planId != id
            && (s.keys[scope].quota.planId != id ==> t.keys[scope] == s.keys[scope])
  {
    assert id != NO_NAME;
  }

  // ---------------------------------------------------------------------------------------
  // The store's loops
  // ---------------------------------------------------------------------------------------

  /** What the windows before an index have used up. */
  datatype Used = Used(ids: set<Name>, names: set<string>, periods: set<int>)

  function UsedBy(ws: seq<Window>): Used {
    Used(set w | w in ws :: w.id, set w | w in ws :: w.title.lower, set w | w in ws :: w.period)
  }

  /** The windows before an index pass the checks of a plan. */
  predicate CheckedTo(ws: seq<Window>, n: nat)
    requires n <= |ws|
  {
    && (forall i :: 0 <= i < n ==> ValidWindow(ws[i]) && IsZero(ws[i].anchor) == IsZero(ws[0].anchor))
    && (forall i, j :: 0 <= i < j < n ==> Differ(ws[i], ws[j]))
  }

  lemma CheckedNext(ws: seq<Window>, n: nat, used: Used)
    requires n < |ws| && CheckedTo(ws, n) && used == UsedBy(ws[..n])
    ensures CheckedTo(ws, n + 1) <==>
              && ValidWindow(ws[n]) && IsZero(ws[n].anchor) == IsZero(ws[0].anchor)
              && ws[n].id !in used.ids && ws[n].title.lower !in used.names && ws[n].period !in used.periods
  {
    assert forall i :: 0 <= i < n ==> ws[i] in ws[..n];
    assert forall w :: w in ws[..n] ==> exists i :: 0 <= i < n && ws[i] == w;
  }

  lemma UsedNext(ws: seq<Window>, n: nat)
    requires n < |ws|
    ensures var u, w := UsedBy(ws[..n]), ws[n];
            UsedBy(ws[..n + 1]) == Used(u.ids + {w.id}, u.names + {w.title.lower}, u.periods + {w.period})
  {
    assert ws[..n + 1] == ws[..n] + [ws[n]];
  }

  /** What one window must be. */
  ghost predicate WindowFits(w: Window) {
    && w.id.text != "" && 1 <= |w.title.bytes| <= 128
    && w.amount >= 0.0 && 0 <= w.tokens <= 9_007_199_254_740_991 && 0 <= w.requests <= 9_007_199_254_740_991
    && (w.amount > 0.0 || w.tokens > 0 || w.requests > 0)
    && 1 <= w.period <= 9_223_372_036
    && (IsZero(w.anchor) || (0 <= w.anchor < 253_402_300_800_000_000_000 && w.anchor % 1_000_000_000 == 0))
  }

  /** What a plan must be: windows that fit, that share nothing, and that all or none are anchored. */
  ghost predicate PlanFits(p: Plan) {
    && p.id.text != "" && |p.windows| > 0
    && (forall i :: 0 <= i < |p.windows| ==> WindowFits(p.windows[i]))
    && (forall i, j :: 0 <= i < |p.windows| && 0 <= j < |p.windows| ==>
          IsZero(p.windows[i].anchor) == IsZero(p.windows[j].anchor))
    && (forall i, j :: 0 <= i < j < |p.windows| ==>
          var v, w := p.windows[i], p.windows[j];
          v.id != w.id && v.title.lower != w.title.lower && v.period != w.period)
  }

  lemma FitsIff(p: Plan)
    ensures ValidPlan(p) <==> PlanFits(p)
  {
    forall w: Window ensures ValidWindow(w) <==> WindowFits(w) { NamedIff(w.id); }
    NamedIff(p.id);
    if PlanFits(p) {
      forall i, j | 0 <= i < j < |p.windows| ensures Differ(p.windows[i], p.windows[j]) { }
    }
    if ValidPlan(p) {
      forall i, j | 0 <= i < j < |p.windows| ensures p.windows[i].id != p.windows[j].id
        && p.windows[i].title.lower != p.windows[j].title.lower && p.windows[i].period != p.windows[j].period
      {
        assert Differ(p.windows[i], p.windows[j]);
      }
    }
  }

  lemma NamedIff(n: Name)
    ensures n.text != "" <==> n != NO_NAME
  {
  }

  /** Accepts exactly the valid plans. */
  method Validate(p: Plan) returns (ok: bool)
    ensures ok <==> ValidPlan(p)
    ensures ok <==> PlanFits(p)
  {
    FitsIff(p);
    if p.id == NO_NAME || p.windows == [] {
      return false;
    }
    var ws := p.windows;
    var ids: set<Name>, names: set<string>, periods: set<int> := {}, {}, {};
    for i := 0 to |ws|
      invariant CheckedTo(ws, i) && Used(ids, names, periods) == UsedBy(ws[..i])
    {
      var w := ws[i];
      CheckedNext(ws, i, Used(ids, names, periods));
      if !ValidWindow(w) || w.id in ids || w.title.lower in names || w.period in periods
         || IsZero(w.anchor) != IsZero(ws[0].anchor) {
        return false;
      }
      UsedNext(ws, i);
      ids, names, periods := ids + {w.id}, names + {w.title.lower}, periods + {w.period};
    }
    return true;
  }

  /** A selected key that has no plan gets this one. */
  function NewlyBound(r: KeyRecord, id: Name, selected: bool): KeyRecord {
    if selected && r.quota.planId == NO_NAME then WithQuota(r, Key(id, map[])) else r
  }

  lemma BindableAreUnbound(s: State, id: Name, scopes: set<Name>)
    requires forall scope :: scope in scopes ==> CanBind(s, scope)
    ensures scopes <= s.keys.Keys
    ensures (map scope | scope in s.keys :: NewlyBound(s.keys[scope], id, scope in scopes)) ==
            (map scope | scope in s.keys ::
              if scope in scopes then WithQuota(s.keys[scope], Key(id, map[])) else s.keys[scope])
  {
  }

  function MarkedListed(keys: map<Name, KeyRecord>, listed: set<Name>): map<Name, KeyRecord> {
    map scope | scope in keys.Keys + listed :: if scope in listed then ListedRecord(keys, scope) else keys[scope]
  }

  lemma MarkOneMore(keys: map<Name, KeyRecord>, done: set<Name>, scope: Name)
    requires scope !in done
    ensures var marked := MarkedListed(keys, done);
            MarkedListed(keys, done + {scope}) == marked[scope := ListedRecord(marked, scope)]
  {
  }

  class PlanStore {
    var plans: seq<Plan>
    var keys: map<Name, KeyRecord>

    constructor ()
      ensures Value() == State([], map[])
    {
      plans, keys := [], map[];
    }

    function Value(): State
      reads this
    {
      State(plans, keys)
    }

    method PrepareWindows(windows: seq<Window>, existing: seq<Window>, now: int,
            newIds: seq<Name>) returns (r: Option<seq<Window>>)
      requires |newIds| == |windows|
      ensures r == PreparedAll(windows, existing, now, newIds)
      ensures r.Some? ==> ByPeriod(r.value)
    {
      var prepared: seq<Window> := [];
      for i := 0 to |windows|
        invariant PreparedAll(windows[..i], existing, now, newIds[..i]) == Some(prepared)
      {
        assert windows[..i + 1][..i] == windows[..i] && newIds[..i + 1][..i] == newIds[..i];
        var w := PreparedWindow(windows[i], existing, now, newIds[i]);
        if w.None? {
          PreparedFails(windows, existing, now, newIds, i + 1);
          return None;
        }
        prepared := InsertByPeriod(prepared, w.value);
      }
      assert windows[..|windows|] == windows && newIds[..|windows|] == newIds;
      PreparedIsOrdered(windows, existing, now, newIds);
      return Some(prepared);
    }

    method AllBindable(scopes: set<Name>) returns (ok: bool)
      ensures ok <==> forall scope :: scope in scopes ==> CanBind(Value(), scope)
    {
      var pending := scopes;
      while pending != {}
        invariant pending <= scopes && forall scope :: scope in scopes - pending ==> CanBind(Value(), scope)
        decreases |pending|
      {
        var scope :| scope in pending;
        if !CanBind(Value(), scope) {
          return false;
        }
        pending := pending - {scope};
      }
      return true;
    }

    /** Binds the still unbound ones of the given keys. */
    method BindAll(id: Name, scopes: set<Name>)
      requires scopes <= keys.Keys && id != NO_NAME
      modifies this`keys
      ensures keys == map scope | scope in old(keys) ::
                        NewlyBound(old(keys)[scope], id, scope in scopes)
    {
      var pending := scopes;
      while pending != {}
        invariant pending <= scopes && keys.Keys == old(keys).Keys
        invariant forall scope :: scope in keys ==>
                    keys[scope] == NewlyBound(old(keys)[scope], id, scope in scopes && scope !in pending)
        decreases |pending|
      {
        var scope :| scope in pending;
        pending := pending - {scope};
        if keys[scope].quota.planId == NO_NAME {
          keys := keys[scope := WithQuota(keys[scope], Key(id, map[]))];
        }
      }
    }

    /** `freeId` is the identifier that is made up when the plan has none. */
    method CreatePlan(plan: Plan, freeId: Name, scopes: set<Name>, now: int, newIds: seq<Name>) returns (ok: bool)
      requires |newIds| == |plan.windows|
      modifies this
      ensures ok <==> old(Created(Value(), Named(plan, freeId), scopes, now, newIds)).Some?
      ensures Value() ==
              if ok then old(Created(Value(), Named(plan, freeId), scopes, now, newIds)).value else old(Value())
    {
      var named := plan;
      if named.id == NO_NAME {
        named := named.(id := freeId);
      }
      ok := CreateNamed(named, scopes, now, newIds);
    }

    method CreateNamed(plan: Plan, scopes: set<Name>, now: int, newIds: seq<Name>) returns (ok: bool)
      requires |newIds| == |plan.windows|
      modifies this
      ensures ok <==> old(Created(Value(), plan, scopes, now, newIds)).Some?
      ensures Value() == if ok then old(Created(Value(), plan, scopes, now, newIds)).value else old(Value())
    {
      var ws := PrepareWindows(plan.windows, [], now, newIds);
      if ws.None? {
        return false;
      }
      var p := plan.(windows := ws.value);
      var valid := Validate(p);
      if !valid || FindPlan(plans, p.id).Some? {
        return false;
      }
      var bindable := AllBindable(scopes);
      if !bindable {
        return false;
      }
      BindableAreUnbound(Value(), p.id, scopes);
      BindAll(p.id, scopes);
      plans := plans + [p];
      return true;
    }

    method MovedWindows(before: seq<Window>, after: seq<Window>) returns (moved: set<Name>)
      ensures moved == Moved(before, after)
    {
      moved := {};
      for i := 0 to |before|
        invariant moved == Moved(before[..i], after)
      {
        assert before[..i + 1] == before[..i] + [before[i]];
        if !Continued(before[i], after) {
          moved := moved + {before[i].id};
        }
      }
      assert before[..|before|] == before;
    }

    /** Releases the keys no longer selected and drops the moved windows of the others. */
    method TrimKeys(id: Name, selected: Option<set<Name>>, moved: set<Name>)
      modifies this`keys
      ensures keys == map scope | scope in old(keys) ::
                        if old(keys)[scope].quota.planId != id then old(keys)[scope]
                        else WithQuota(old(keys)[scope], UpdatedKey(old(keys)[scope].quota, scope, id, selected, moved))
    {
      var pending := keys.Keys;
      while pending != {}
        invariant pending <= keys.Keys == old(keys).Keys
        invariant forall scope :: scope in keys ==> (keys[scope] ==
                    if scope in pending || old(keys)[scope].quota.planId != id then old(keys)[scope]
                    else WithQuota(old(keys)[scope], UpdatedKey(old(keys)[scope].quota, scope, id, selected, moved)))
        decreases |pending|
      {
        var scope :| scope in pending;
        pending := pending - {scope};
        var key := keys[scope].quota;
        if key.planId == id {
          if selected.Some? && scope !in selected.value {
            keys := keys[scope := WithQuota(keys[scope], UNBOUND)];
          } else {
            keys := keys[scope := WithQuota(keys[scope], key.(cycles := key.cycles - moved))];
          }
        }
      }
    }

    /** Rebinds the keys of the plan in place, then binds the newly selected ones. */
    method RebindKeys(id: Name, selected: Option<set<Name>>, moved: set<Name>)
      requires id != NO_NAME
      requires selected.Some? ==> selected.value <= keys.Keys
      modifies this`keys
      ensures keys == map scope | scope in old(keys) ::
                        WithQuota(old(keys)[scope], UpdatedKey(old(keys)[scope].quota, scope, id, selected, moved))
    {
      TrimKeys(id, selected, moved);
      if selected.Some? {
        BindAll(id, selected.value);
      }
    }

    method UpdatePlan(id: Name, windows: Option<seq<Window>>, selected: Option<set<Name>>, now: int,
            newIds: seq<Name>) returns (ok: bool)
      requires windows.Some? ==> |newIds| == |windows.value|
      modifies this
      ensures ok <==> old(Updated(Value(), id, windows, selected, now, newIds)).Some?
      ensures Value() == if ok then old(Updated(Value(), id, windows, selected, now, newIds)).value else old(Value())
    {
      var i := PlanIndex(plans, id);
      if id == NO_NAME || i == |plans| {
        return false;
      }
      var before := plans[i].windows;
      var updated := plans[i];
      if windows.Some? {
        var ws := PrepareWindows(windows.value, before, now, newIds);
        if ws.None? {
          return false;
        }
        updated := updated.(windows := ws.value);
      }
      var valid := Validate(updated);
      if !valid {
        return false;
      }
      if selected.Some? {
        var pending := selected.value;
        while pending != {}
          invariant pending <= selected.value
          invariant forall scope :: scope in selected.value - pending ==> CanSelect(Value(), scope, id)
          decreases |pending|
        {
          var scope :| scope in pending;
          if !CanSelect(Value(), scope, id) {
            return false;
          }
          pending := pending - {scope};
        }
      }
      var moved := {};
      if windows.Some? {
        moved := MovedWindows(before, updated.windows);
      }
      assert selected.Some? ==> forall scope :: scope in selected.value ==> CanSelect(Value(), scope, id);
      RebindKeys(id, selected, moved);
      plans := plans[i := updated];
      return true;
    }

    method DeletePlan(id: Name) returns (ok: bool)
      modifies this
      ensures ok <==> old(Deleted(Value(), id)).Some?
      ensures Value() == if ok then old(Deleted(Value(), id)).value else old(Value())
    {
      var i := PlanIndex(plans, id);
      if id == NO_NAME || i == |plans| {
        return false;
      }
      plans := plans[..i] + plans[i + 1..];
      ReleaseKeys(id);
      return true;
    }

    /** Takes the plan away from every key that has it. */
    method ReleaseKeys(id: Name)
      modifies this`keys
      ensures keys == map scope | scope in old(keys) ::
                if old(keys)[scope].quota.planId == id then WithQuota(old(keys)[scope], UNBOUND) else old(keys)[scope]
    {
      var pending := keys.Keys;
      while pending != {}
        invariant pending <= old(keys).Keys && keys.Keys == old(keys).Keys
        invariant forall scope :: scope in keys ==>
                    (keys[scope] == if scope !in pending && old(keys)[scope].quota.planId == id
                                    then WithQuota(old(keys)[scope], UNBOUND) else old(keys)[scope])
        decreases |pending|
      {
        var scope :| scope in pending;
        pending := pending - {scope};
        if keys[scope].quota.planId == id {
          keys := keys[scope := WithQuota(keys[scope], UNBOUND)];
        }
      }
    }

    method ResetQuota(chosen: Option<set<Name>>) returns (ok: bool)
      modifies this
      ensures ok <==> old(ToReset(Value(), chosen)).Some?
      ensures Value() == if ok then WasReset(old(Value()), old(ToReset(Value(), chosen)).value) else old(Value())
    {
      var scopes := ToReset(Value(), chosen);
      if scopes.None? {
        return false;
      }
      var pending := scopes.value;
      while pending != {}
        invariant plans == old(plans) && pending <= scopes.value
        invariant keys == map scope | scope in old(keys) ::
                    if scope in scopes.value && scope !in pending
                    then WithQuota(old(keys)[scope], old(keys)[scope].quota.(cycles := map[])) else old(keys)[scope]
        decreases |pending|
      {
        var scope :| scope in pending;
        pending := pending - {scope};
        keys := keys[scope := WithQuota(keys[scope], keys[scope].quota.(cycles := map[]))];
      }
      return true;
    }

    method MarkListed(listed: set<Name>)
      modifies this`keys
      ensures keys == MarkedListed(old(keys), listed)
    {
      var pending := listed;
      while pending != {}
        invariant pending <= listed && keys == MarkedListed(old(keys), listed - pending)
        decreases |pending|
      {
        var scope :| scope in pending;
        MarkOneMore(old(keys), listed - pending, scope);
        assert listed - pending + {scope} == listed - (pending - {scope});
        pending := pending - {scope};
        keys := keys[scope := ListedRecord(keys, scope)];
      }
      assert listed - pending == listed;
    }

    method MarkVanished(listed: set<Name>)
      modifies this`keys
      ensures keys.Keys == old(keys).Keys
      ensures forall scope :: scope in keys ==>
                keys[scope] == if scope in listed then old(keys)[scope] else VanishedRecord(old(keys)[scope])
    {
      var pending := keys.Keys;
      while pending != {}
        invariant pending <= keys.Keys == old(keys).Keys
        invariant forall scope :: scope in keys ==>
                    keys[scope] ==
                      if scope in listed || scope in pending then old(keys)[scope] else VanishedRecord(old(keys)[scope])
        decreases |pending|
      {
        var scope :| scope in pending;
        pending := pending - {scope};
        if scope !in listed {
          keys := keys[scope := VanishedRecord(keys[scope])];
        }
      }
    }

    /** The scopes of the host's keys; a key without one is skipped. */
    method ScopesOf(given: seq<Name>, scopeOf: Name -> Name) returns (listed: set<Name>)
      ensures listed == Listed(given, scopeOf)
    {
      listed := {};
      for i := 0 to |given|
        invariant listed == Listed(given[..i], scopeOf)
      {
        assert given[..i + 1] == given[..i] + [given[i]];
        if scopeOf(given[i]) != NO_NAME {
          listed := listed + {scopeOf(given[i])};
        }
      }
      assert given[..|given|] == given;
    }

    /** `scopeOf` hashes a key to its scope. A list without any scope is refused unless it is meant. */
    method SyncKeys(given: seq<Name>, scopeOf: Name -> Name, allowEmpty: bool) returns (ok: bool)
      modifies this`keys
      ensures ok <==> Listed(given, scopeOf) != {} || allowEmpty
      ensures Value() == if ok then Synced(old(Value()), Listed(given, scopeOf)) else old(Value())
    {
      var listed := ScopesOf(given, scopeOf);
      if listed == {} && !allowEmpty {
        return false;
      }
      MarkListed(listed);
      MarkVanished(listed);
      assert keys == Synced(old(Value()), listed).keys;
      return true;
    }
  }

  /** Once a prefix of the windows is refused, so are all of them. */
  lemma {:induction false} PreparedFails(ws: seq<Window>, existing: seq<Window>, now: int, newIds: seq<Name>, i: nat)
    requires |newIds| == |ws| && i <= |ws| && PreparedAll(ws[..i], existing, now, newIds[..i]).None?
    ensures PreparedAll(ws, existing, now, newIds).None?
    decreases |ws|
  {
    if i == |ws| {
      assert ws[..i] == ws && newIds[..i] == newIds;
    } else {
      var n := |ws| - 1;
      assert ws[..n][..i] == ws[..i] && newIds[..n][..i] == newIds[..i];
      PreparedFails(ws[..n], existing, now, newIds[..n], i);
    }
  }
}
