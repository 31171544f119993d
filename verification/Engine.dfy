/**
 The whole engine over one database: what every operation does to the state, what it announces, and
 what is on disk while saves fail at will.
 */
module Engine {
  import opened Options
  import opened Text
  import opened Quota
  import opened Pending
  import opened Persistence
  import C = Cycles
  import P = Plans
  import PC = PlanChanges
  import PM = PlanMeaning
  import G = GroupStates
  import GD = GroupDays
  import GM = GroupMeaning

  /** The part of the state the plan operations speak about. */
  function PlanView(m: Memory): P.State {
    P.State(m.plans, map scope | scope in m.keys :: m.keys[scope].record)
  }

  function GroupView(m: Memory): G.Groups {
    G.Groups(m.grouped.groups, m.grouped.plans, m.grouped.bindings, m.days)
  }

  function SettingsOf(m: Memory, given: map<Name, Blob>, scope: Name): Blob {
    if scope in given then given[scope] else if scope in m.keys then m.keys[scope].settings else 0
  }

  function WithPlans(m: Memory, t: P.State, settings: map<Name, Blob>): Memory {
    m.(plans := t.plans, keys := map scope | scope in t.keys :: KeyEntry(t.keys[scope], SettingsOf(m, settings, scope)))
  }

  function WithGroups(m: Memory, g: G.Groups): Memory {
    m.(grouped := GroupedConfig(g.groups, g.plans, g.bindings), days := g.days)
  }

  lemma ViewsOfPlans(m: Memory, t: P.State, settings: map<Name, Blob>)
    ensures PlanView(WithPlans(m, t, settings)) == t
    ensures GroupView(WithPlans(m, t, settings)) == GroupView(m)
  {
    assert PlanView(WithPlans(m, t, settings)).keys == t.keys;
  }

  lemma ViewsOfGroups(m: Memory, g: G.Groups)
    ensures PlanView(WithGroups(m, g)) == PlanView(m)
    ensures GroupView(WithGroups(m, g)) == g
  {
  }

  // ---------------------------------------------------------------------------------------
  // Operations
  // ---------------------------------------------------------------------------------------

  /**
   Authorisation, settlement and key and plan edits; key synchronisation with what it shows of each key;
   grouped edits; one usage record; edits of the other parts; and the write before new grouped spending.
   */
  datatype Op =
    | QuotaOp(quota: P.Op)
    | Sync(listed: set<Name>, allowEmpty: bool, shown: map<Name, Blob>)
    | GroupOp(grouped: G.Op)
    | Record(record: G.Record, usage: Usage, failed: bool, seen: Blob)
    | SetKey(scope: Name, settings: Blob)
    | SetRoutes(routes: Blob, bindings: map<Name, Blob>)
    | SetCredentials(credentials: Blob)
    | SetLabels(labels: Blob)
    | RetryOp

  ghost predicate LegalOp(op: Op) {
    match op
    case QuotaOp(quota) => P.Legal(quota) && !quota.Report? && !quota.SyncKeys?
    case Sync(listed, _, shown) => shown.Keys <= listed
    case GroupOp(grouped) => !grouped.Account?
    case Record(record, usage, _, _) => G.Legal(G.Account(record)) && C.NaturalUsage(usage)
    case _ => true
  }

  /** Usage and settlement change memory at once; the rest is configuration. */
  predicate IsUpdate(op: Op) {
    op.Record? || (op.QuotaOp? && (op.quota.Authorize? || op.quota.SettleViews?))
  }

  ghost function ReportOf(m: Memory, op: Op, strip: Name -> Name): P.Op
    requires op.Record?
  {
    P.Report(op.record.scope, op.record.start, op.usage, op.record.arrived,
             G.RecordTarget(GroupView(m), op.record, strip) != G.OldMode)
  }

  function Seen(op: Op): map<Name, Blob>
    requires op.Record?
  {
    if op.record.scope == NO_NAME then map[] else map[op.record.scope := op.seen]
  }

  /** Everything known of the listed keys stays, unless they show something new. */
  ghost function Synchronised(m: Memory, op: Op): Memory
    requires op.Sync?
  {
    if op.listed == {} && !op.allowEmpty then m else WithPlans(m, P.Synced(PlanView(m), op.listed), op.shown)
  }

  ghost function Next(m: Memory, op: Op, now: int, strip: Name -> Name): Memory
    requires P.PlansOk(m.plans) && LegalOp(op)
  {
    match op
    case QuotaOp(quota) => WithPlans(m, P.Apply(PlanView(m), quota), map[])
    case Sync(_, _, _) => Synchronised(m, op)
    case GroupOp(grouped) => WithGroups(m, G.Apply(GroupView(m), grouped, now, strip))
    case Record(record, _, _, _) =>
      WithPlans(WithGroups(m, G.Accounted(GroupView(m), record, strip)),
                P.Apply(PlanView(m), ReportOf(m, op, strip)), Seen(op))
    case SetKey(scope, settings) =>
      if scope in m.keys then m.(keys := m.keys[scope := m.keys[scope].(settings := settings)]) else m
    case SetRoutes(routes, bindings) =>
      m.(routes := routes,
         keys := map scope | scope in m.keys :: KeyEntry(m.keys[scope].record, SettingsOf(m, bindings, scope)))
    case SetCredentials(credentials) => m.(credentials := credentials)
    case SetLabels(labels) => m.(labels := labels)
    case RetryOp => m
  }

  /** What is known of a key's quota: nothing of a key that is seen for the first time. */
  function QuotaOf(m: Memory, scope: Name): C.Key {
    if scope in m.keys then m.keys[scope].record.quota else C.UNBOUND
  }

  /** A quota after usage: charged to the running cycles, and cycles that have ended are dropped under a known plan. */
  ghost predicate UsageCounted(m: Memory, key: C.Key, record: G.Record, usage: Usage, after: C.Key) {
    var charged := C.Charged(key, record.start, usage);
    if exists p :: p in m.plans && p.id == key.planId && p.id != NO_NAME
    then after == C.Settled(charged, record.arrived) else after == charged
  }

  /** What a report does to the keys, when the record is counted here or left to grouped billing. */
  ghost predicate KeysReported(m: Memory, record: G.Record, usage: Usage, grouped: bool, next: Memory) {
    var scope := record.scope;
    && (forall other :: other != scope || scope == NO_NAME ==> SameAt(next.keys, m.keys, other))
    && (scope != NO_NAME ==>
          && scope in next.keys
          && (grouped ==> QuotaOf(next, scope) == QuotaOf(m, scope))
          && (!grouped ==> UsageCounted(m, QuotaOf(m, scope), record, usage, QuotaOf(next, scope))))
  }

  lemma ReportedKeys(m: Memory, w: Memory, record: G.Record, usage: Usage, grouped: bool, seen: map<Name, Blob>)
    requires P.PlansOk(m.plans) && w.keys == m.keys && w.plans == m.plans && seen.Keys <= {record.scope}
    requires C.NaturalUsage(usage) && (record.scope == NO_NAME ==> seen == map[])
    ensures var t := P.Apply(PlanView(m), P.Report(record.scope, record.start, usage, record.arrived, grouped));
            t.plans == m.plans && KeysReported(m, record, usage, grouped, WithPlans(w, t, seen))
  {
    PM.PlanIsFound(m.plans, QuotaOf(m, record.scope).planId);
  }

  lemma RecordTurnsTo(m: Memory, op: Op, now: int, strip: Name -> Name)
    requires P.PlansOk(m.plans) && LegalOp(op) && op.Record?
    ensures GroupView(Next(m, op, now, strip)) == G.Accounted(GroupView(m), op.record, strip)
    ensures Next(m, op, now, strip).plans == m.plans
    ensures KeysReported(m, op.record, op.usage, G.RecordTarget(GroupView(m), op.record, strip) != G.OldMode,
                         Next(m, op, now, strip))
  {
    var g, t := G.Accounted(GroupView(m), op.record, strip), P.Apply(PlanView(m), ReportOf(m, op, strip));
    var grouped := G.RecordTarget(GroupView(m), op.record, strip) != G.OldMode;
    ReportedKeys(m, WithGroups(m, g), op.record, op.usage, grouped, Seen(op));
    ViewsOfGroups(m, g);
    ViewsOfPlans(WithGroups(m, g), t, Seen(op));
  }

  /** A record goes one way only: to the grouped ledgers when its key was grouped, else to the key's quota. */
  lemma RecordGoesOneWay(m: Memory, clock: int, op: Op, now: int, strip: Name -> Name)
    requires Sound(m, clock) && LegalOp(op) && op.Record?
    ensures GM.RecordDoes(GroupView(m), op.record, strip, GroupView(Next(m, op, now, strip)))
    ensures Next(m, op, now, strip).plans == m.plans
    ensures KeysReported(m, op.record, op.usage, GM.GroupedAt(GroupView(m), op.record.scope, GM.PlacedAt(op.record)),
                         Next(m, op, now, strip))
  {
    GM.TargetIff(GroupView(m), clock, op.record, strip);
    GM.AccountMeans(GroupView(m), clock, op.record, strip);
    RecordTurnsTo(m, op, now, strip);
  }

  /** The keys a synchronisation shows are shown as given; every other setting of a key stays. */
  ghost predicate SettingsAfter(m: Memory, given: map<Name, Blob>, next: Memory) {
    forall scope :: scope in next.keys ==>
      && (scope in given ==> next.keys[scope].settings == given[scope])
      && (scope !in given && scope in m.keys ==> next.keys[scope].settings == m.keys[scope].settings)
  }

  predicate SameElsewhere(m: Memory, next: Memory) {
    next.labels == m.labels && next.routes == m.routes && next.credentials == m.credentials
  }

  /** Each operation does its part of the work and no other: what it means there is said where that part is. */
  lemma NextDoes(m: Memory, op: Op, now: int, strip: Name -> Name)
    requires P.PlansOk(m.plans) && LegalOp(op)
    ensures var next := Next(m, op, now, strip);
            && (op.QuotaOp? ==>
                  && PlanView(next) == P.Apply(PlanView(m), op.quota) && GroupView(next) == GroupView(m)
                  && SettingsAfter(m, map[], next) && SameElsewhere(m, next))
            && (op.Sync? ==>
                  && PlanView(next) == P.Apply(PlanView(m), P.SyncKeys(op.listed, op.allowEmpty))
                  && GroupView(next) == GroupView(m) && SameElsewhere(m, next)
                  && (op.listed != {} || op.allowEmpty ==> SettingsAfter(m, op.shown, next)))
            && (op.GroupOp? ==>
                  && GroupView(next) == G.Apply(GroupView(m), op.grouped, now, strip) && PlanView(next) == PlanView(m)
                  && next.keys == m.keys && SameElsewhere(m, next))
            && (op.RetryOp? ==> next == m)
  {
    match op
    case QuotaOp(quota) => ViewsOfPlans(m, P.Apply(PlanView(m), quota), map[]);
    case Sync(listed, _, shown) => ViewsOfPlans(m, P.Synced(PlanView(m), listed), shown);
    case GroupOp(grouped) => ViewsOfGroups(m, G.Apply(GroupView(m), grouped, now, strip));
    case _ =>
  }

  /** An edit of an opaque part sets exactly that part. */
  lemma SettingsDo(m: Memory, op: Op, now: int, strip: Name -> Name)
    requires P.PlansOk(m.plans)
    requires op.SetKey? || op.SetRoutes? || op.SetCredentials? || op.SetLabels?
    ensures var next := Next(m, op, now, strip);
            && PlanView(next) == PlanView(m) && GroupView(next) == GroupView(m)
            && next.labels == (if op.SetLabels? then op.labels else m.labels)
            && next.credentials == (if op.SetCredentials? then op.credentials else m.credentials)
            && next.routes == (if op.SetRoutes? then op.routes else m.routes)
            && SettingsAfter(m, match op case SetKey(scope, settings) => map[scope := settings]
                                case SetRoutes(_, bindings) => bindings case _ => map[], next)
  {
    SettingsKeepViews(m, op, now, strip);
  }

  // ---------------------------------------------------------------------------------------
  // Announcements
  // ---------------------------------------------------------------------------------------

  datatype Announced = Announced(
    keys: Option<set<Name>>, days: set<G.DayKey>,
    grouped: bool, labels: bool, plans: bool, routes: bool, credentials: bool)

  const NOTHING := Announced(Some({}), {}, false, false, false, false, false)

  ghost function AnnouncedBy(m: Memory, op: Op, now: int, strip: Name -> Name): Announced
    requires P.PlansOk(m.plans) && LegalOp(op)
  {
    match op
    case QuotaOp(quota) =>
      var a := PC.AnnouncedBy(PlanView(m), quota);
      NOTHING.(keys := a.keys, plans := a.plans)
    case Sync(_, _, _) => if Synchronised(m, op) == m then NOTHING else NOTHING.(keys := None)
    case GroupOp(grouped) =>
      var a := GD.AnnouncedBy(GroupView(m), grouped, now, strip);
      NOTHING.(days := a.days, grouped := a.config)
    case Record(record, _, _, _) =>
      var a := GD.AnnouncedBy(GroupView(m), G.Account(record), now, strip);
      NOTHING.(keys := Some(Seen(op).Keys), days := a.days, grouped := a.config)
    case SetKey(scope, _) => NOTHING.(keys := Some(if scope in m.keys then {scope} else {}))
    case SetRoutes(_, bindings) => NOTHING.(routes := true, keys := Some(bindings.Keys))
    case SetCredentials(_) => NOTHING.(credentials := true)
    case SetLabels(_) => NOTHING.(labels := true)
    case RetryOp => NOTHING
  }

  /** The changes list exactly what is announced, in any order. */
  ghost predicate Announces(c: Changes, a: Announced) {
    && (c.allKeys <==> a.keys.None?)
    && (a.keys.Some? ==> forall n :: n in c.keys <==> n in a.keys.value)
    && (forall k :: k in c.days <==> k in a.days)
    && c.grouped == a.grouped && c.labels == a.labels && c.plans == a.plans
    && c.routes == a.routes && c.credentials == a.credentials
  }

  lemma QuotaIsCovered(m: Memory, op: Op, now: int, strip: Name -> Name, c: Changes)
    requires P.PlansOk(m.plans) && LegalOp(op) && op.QuotaOp? && Announces(c, AnnouncedBy(m, op, now, strip))
    ensures Covers(c, Next(m, op, now, strip), m) && Grows(m, Next(m, op, now, strip))
  {
    var s, t := PlanView(m), P.Apply(PlanView(m), op.quota);
    forall n ensures c.allKeys || n in c.keys || SameAt(Next(m, op, now, strip).keys, m.keys, n) {
      PC.AnnouncementsCover(s, op.quota, n);
    }
    forall n | n in m.keys ensures n in t.keys { PC.AnnouncementsCover(s, op.quota, n); }
    PC.AnnouncementsCover(s, op.quota, NO_NAME);
  }

  lemma GroupsAreCovered(m: Memory, op: G.Op, now: int, strip: Name -> Name, c: Changes, next: Memory)
    requires var a := GD.AnnouncedBy(GroupView(m), op, now, strip);
             (c.grouped <==> a.config) && forall k :: k in c.days <==> k in a.days
    requires GroupView(next) == G.Apply(GroupView(m), op, now, strip)
    ensures (c.grouped || next.grouped == m.grouped) && CoversDays(c, next, m) && m.days.Keys <= next.days.Keys
  {
    GD.AnnouncementsCover(GroupView(m), op, now, strip);
    forall k ensures k in c.days || SameAt(next.days, m.days, k) {
      if k !in c.days { assert G.DayOf(GroupView(next), k) == G.DayOf(GroupView(m), k); }
    }
  }

  lemma RecordKeysAreCovered(m: Memory, op: Op, now: int, strip: Name -> Name, c: Changes, n: Name)
    requires P.PlansOk(m.plans) && LegalOp(op) && op.Record? && Announces(c, AnnouncedBy(m, op, now, strip))
    ensures n in c.keys || SameAt(Next(m, op, now, strip).keys, m.keys, n)
    ensures n in m.keys ==> n in Next(m, op, now, strip).keys
  {
  }

  lemma RecordIsCovered(m: Memory, op: Op, now: int, strip: Name -> Name, c: Changes)
    requires P.PlansOk(m.plans) && LegalOp(op) && op.Record? && Announces(c, AnnouncedBy(m, op, now, strip))
    ensures Covers(c, Next(m, op, now, strip), m) && Grows(m, Next(m, op, now, strip))
  {
    var next := Next(m, op, now, strip);
    var g := G.Accounted(GroupView(m), op.record, strip);
    ViewsOfGroups(m, g);
    ViewsOfPlans(WithGroups(m, g), P.Apply(PlanView(m), ReportOf(m, op, strip)), Seen(op));
    GroupsAreCovered(m, G.Account(op.record), now, strip, c, next);
    forall n ensures c.allKeys || n in c.keys || SameAt(next.keys, m.keys, n) {
      RecordKeysAreCovered(m, op, now, strip, c, n);
    }
    forall n | n in m.keys ensures n in next.keys { RecordKeysAreCovered(m, op, now, strip, c, n); }
  }

  lemma SyncIsCovered(m: Memory, op: Op, c: Changes)
    requires op.Sync? && LegalOp(op) && (Synchronised(m, op) != m ==> c.allKeys)
    ensures Covers(c, Synchronised(m, op), m) && Grows(m, Synchronised(m, op))
  {
  }

  /** Every operation announces all it changes, and drops no key and no ledger. */
  lemma NextIsCovered(m: Memory, op: Op, now: int, strip: Name -> Name, c: Changes)
    requires P.PlansOk(m.plans) && LegalOp(op) && Announces(c, AnnouncedBy(m, op, now, strip))
    ensures Covers(c, Next(m, op, now, strip), m) && Grows(m, Next(m, op, now, strip))
  {
    match op
    case QuotaOp(_) => QuotaIsCovered(m, op, now, strip, c);
    case Sync(_, _, _) => SyncIsCovered(m, op, c);
    case GroupOp(grouped) => GroupsAreCovered(m, grouped, now, strip, c, Next(m, op, now, strip));
    case Record(_, _, _, _) => RecordIsCovered(m, op, now, strip, c);
    case _ =>
  }

  // ---------------------------------------------------------------------------------------
  // Sound states
  // ---------------------------------------------------------------------------------------

  /** What loading checks of keys, and the invariant of grouped billing. */
  ghost predicate Sound(m: Memory, clock: int) {
    P.Inv(PlanView(m)) && G.Inv(GroupView(m), clock)
  }

  lemma QuotaIsSound(m: Memory, clock: int, op: Op)
    requires Sound(m, clock) && LegalOp(op) && op.QuotaOp?
    ensures Sound(WithPlans(m, P.Apply(PlanView(m), op.quota), map[]), clock)
  {
    P.ApplyInv(PlanView(m), op.quota);
    PlansAreSound(m, clock, P.Apply(PlanView(m), op.quota), map[]);
  }

  lemma SyncIsSound(m: Memory, clock: int, op: Op)
    requires Sound(m, clock) && op.Sync?
    ensures Sound(Synchronised(m, op), clock)
  {
    if op.listed != {} || op.allowEmpty {
      P.ApplyInv(PlanView(m), P.SyncKeys(op.listed, op.allowEmpty));
      PlansAreSound(m, clock, P.Synced(PlanView(m), op.listed), op.shown);
    }
  }

  lemma GroupsAreSound(m: Memory, clock: int, op: G.Op, now: int, strip: Name -> Name)
    requires Sound(m, clock) && clock <= now && G.Legal(op)
    ensures Sound(WithGroups(m, G.Apply(GroupView(m), op, now, strip)), now)
  {
    G.ApplyInv(GroupView(m), clock, op, now, strip);
    ViewsOfGroups(m, G.Apply(GroupView(m), op, now, strip));
  }

  lemma ReportIsSound(m: Memory, op: Op, strip: Name -> Name)
    requires P.Inv(PlanView(m)) && LegalOp(op) && op.Record?
    ensures P.Inv(P.Apply(PlanView(m), ReportOf(m, op, strip)))
  {
    P.ApplyInv(PlanView(m), ReportOf(m, op, strip));
  }

  lemma AccountIsSound(m: Memory, clock: int, op: Op, strip: Name -> Name)
    requires G.Inv(GroupView(m), clock) && LegalOp(op) && op.Record?
    ensures G.Inv(G.Accounted(GroupView(m), op.record, strip), clock)
  {
    G.AccountInv(GroupView(m), clock, op.record, strip);
  }

  lemma BothAreSound(m: Memory, clock: int, g: G.Groups, t: P.State, settings: map<Name, Blob>)
    requires G.Inv(g, clock) && P.Inv(t)
    ensures Sound(WithPlans(WithGroups(m, g), t, settings), clock)
  {
    ViewsOfGroups(m, g);
    PlansAreSound(WithGroups(m, g), clock, t, settings);
  }

  lemma RecordIsSound(m: Memory, clock: int, op: Op, now: int, strip: Name -> Name)
    requires Sound(m, clock) && LegalOp(op) && op.Record?
    ensures Sound(Next(m, op, now, strip), clock)
  {
    AccountIsSound(m, clock, op, strip);
    ReportIsSound(m, op, strip);
    BothAreSound(m, clock, G.Accounted(GroupView(m), op.record, strip),
                 P.Apply(PlanView(m), ReportOf(m, op, strip)), Seen(op));
  }

  lemma PlansAreSound(m: Memory, clock: int, t: P.State, settings: map<Name, Blob>)
    requires G.Inv(GroupView(m), clock) && P.Inv(t)
    ensures Sound(WithPlans(m, t, settings), clock)
  {
    ViewsOfPlans(m, t, settings);
  }

  lemma SettingsKeepViews(m: Memory, op: Op, now: int, strip: Name -> Name)
    requires P.PlansOk(m.plans)
    requires op.SetKey? || op.SetRoutes? || op.SetCredentials? || op.SetLabels? || op.RetryOp?
    ensures PlanView(Next(m, op, now, strip)) == PlanView(m) && GroupView(Next(m, op, now, strip)) == GroupView(m)
  {
    assert PlanView(Next(m, op, now, strip)).keys == PlanView(m).keys;
  }

  lemma SoundAges(m: Memory, clock: int, now: int)
    requires Sound(m, clock) && clock <= now
    ensures Sound(m, now)
  {
    G.InvAges(GroupView(m), clock, now);
  }

  lemma NextIsSound(m: Memory, clock: int, op: Op, now: int, strip: Name -> Name)
    requires Sound(m, clock) && clock <= now && LegalOp(op)
    ensures Sound(Next(m, op, now, strip), now)
  {
    SoundAges(m, clock, now);
    match op
    case QuotaOp(_) => QuotaIsSound(m, now, op);
    case Sync(_, _, _) => SyncIsSound(m, now, op);
    case GroupOp(grouped) => GroupsAreSound(m, now, grouped, now, strip);
    case Record(_, _, _, _) => RecordIsSound(m, now, op, now, strip);
    case _ => SettingsKeepViews(m, op, now, strip);
  }

  // ---------------------------------------------------------------------------------------
  // Calls
  // ---------------------------------------------------------------------------------------

  /** One call: the changes it announces, whether its save would succeed, and whether it is refused. */
  datatype Call = Call(op: Op, now: int, changes: Changes, saves: bool, refused: bool)

  ghost predicate EventsFit(s: State, op: Op, c: Changes) {
    && c.normal == Range(s.normal.reported, s.normal.reported + if op.Record? && !op.failed then 1 else 0)
    && c.errors == Range(s.errors.reported, s.errors.reported + if op.Record? && op.failed then 1 else 0)
    && c.audits == Range(s.audits, s.audits + |c.audits|) && (c.audits != [] ==> op.GroupOp?)
    && LegalCutoff(c)
  }

  ghost predicate LegalCall(s: State, call: Call, strip: Name -> Name)
    requires P.PlansOk(s.memory.plans)
  {
    && LegalOp(call.op)
    && Announces(call.changes, AnnouncedBy(s.memory, call.op, call.now, strip))
    && EventsFit(s, call.op, call.changes)
    && (call.refused ==> !IsUpdate(call.op) && Next(s.memory, call.op, call.now, strip) == s.memory)
  }

  ghost function StepOf(s: State, call: Call, strip: Name -> Name): Step
    requires P.PlansOk(s.memory.plans) && LegalOp(call.op)
  {
    if call.op.RetryOp? then Retry(call.saves)
    else if IsUpdate(call.op) then Update(Next(s.memory, call.op, call.now, strip), call.changes, call.saves)
    else Edit(Next(s.memory, call.op, call.now, strip), call.changes, call.saves, call.refused)
  }

  /** Nothing about the announced changes has to be supposed: every call is an honest step. */
  lemma CallIsLegal(s: State, call: Call, strip: Name -> Name)
    requires P.PlansOk(s.memory.plans) && LegalCall(s, call, strip)
    ensures Legal(s, StepOf(s, call, strip))
  {
    NextIsCovered(s.memory, call.op, call.now, strip, call.changes);
  }

  /** What holds at every moment, and so after every crash. */
  ghost predicate EngineInv(s: State, clock: int) {
    Inv(s) && Sound(s.memory, clock) && Sound(s.disk.memory, clock)
  }

  lemma MemoryIsOldOrNext(s: State, call: Call, strip: Name -> Name)
    requires P.PlansOk(s.memory.plans) && LegalOp(call.op)
    ensures var t := Apply(s, StepOf(s, call, strip));
            t.memory == s.memory || t.memory == Next(s.memory, call.op, call.now, strip)
  {
  }

  lemma CallInv(s: State, clock: int, call: Call, strip: Name -> Name)
    requires EngineInv(s, clock) && clock <= call.now && LegalCall(s, call, strip)
    ensures EngineInv(Apply(s, StepOf(s, call, strip)), call.now)
  {
    CallIsLegal(s, call, strip);
    StepInv(s, StepOf(s, call, strip));
    NextIsSound(s.memory, clock, call.op, call.now, strip);
    SoundAges(s.memory, clock, call.now);
    SoundAges(s.disk.memory, clock, call.now);
    MemoryIsOldOrNext(s, call, strip);
    DiskIsOldOrNew(s, StepOf(s, call, strip));
  }

  /** The state at an instant. */
  datatype Moment = Moment(state: State, clock: int)

  ghost predicate Good(m: Moment) {
    EngineInv(m.state, m.clock)
  }

  ghost predicate MayCall(m: Moment, call: Call, strip: Name -> Name)
    requires Good(m)
  {
    m.clock <= call.now && LegalCall(m.state, call, strip)
  }

  ghost function Called(m: Moment, call: Call, strip: Name -> Name): (n: Moment)
    requires Good(m) && MayCall(m, call, strip)
    ensures Good(n)
  {
    CallInv(m.state, m.clock, call, strip);
    Moment(Apply(m.state, StepOf(m.state, call, strip)), call.now)
  }

  ghost predicate MayCallAll(m: Moment, calls: seq<Call>, strip: Name -> Name)
    requires Good(m)
    decreases |calls|
  {
    calls == [] || (MayCall(m, calls[0], strip) && MayCallAll(Called(m, calls[0], strip), calls[1..], strip))
  }

  ghost function After(m: Moment, calls: seq<Call>, strip: Name -> Name): (n: Moment)
    requires Good(m) && MayCallAll(m, calls, strip)
    ensures Good(n)
    decreases |calls|
  {
    if calls == [] then m else After(Called(m, calls[0], strip), calls[1..], strip)
  }

  /**
   Over any run of the engine, with saves failing at will: memory and disk are sound, so a restart after
   a crash passes the checks of loading; wherever they differ it is pending; the queues are the newest
   thousand unsaved events; no event is on disk twice and every audit of an edit that took effect once.
   */
  lemma NothingIsLost(m: Moment, calls: seq<Call>, strip: Name -> Name)
    requires Good(m) && MayCallAll(m, calls, strip)
    ensures var n := After(m, calls, strip);
            var t := n.state;
            && Sound(t.memory, n.clock) && Sound(t.disk.memory, n.clock)
            && Covers(t.dirty, t.memory, t.disk.memory)
            && QueueIs(t.dirty.normal, t.normal) && QueueIs(t.dirty.errors, t.errors)
            && Ascending(t.disk.normal, t.normal.settled) && Ascending(t.disk.errors, t.errors.settled)
            && t.disk.audits == Range(0, t.audits)
  {
    assert Good(After(m, calls, strip));
  }

  /** Whether a call changes memory: usage and settlement always do, configuration when it needs no failing save. */
  predicate TakesEffectNow(s: State, call: Call) {
    IsUpdate(call.op)
    || (!call.op.RetryOp? && !call.refused && (call.saves || (Empty(s.dirty) && Empty(call.changes))))
  }

  /** Memory after a run of calls: each call that takes effect adds what its operation does, and no other. */
  ghost predicate ReplayedTo(m: Moment, memory: Memory, calls: seq<Call>, strip: Name -> Name, result: Memory)
    requires Good(m) && MayCallAll(m, calls, strip) && P.PlansOk(memory.plans)
    decreases |calls|
  {
    if calls == [] then memory == result else
      var next := if TakesEffectNow(m.state, calls[0]) then Next(memory, calls[0].op, calls[0].now, strip) else memory;
      P.PlansOk(next.plans) && ReplayedTo(Called(m, calls[0], strip), next, calls[1..], strip, result)
  }

  lemma CalledMemory(m: Moment, call: Call, strip: Name -> Name)
    requires Good(m) && MayCall(m, call, strip)
    ensures Called(m, call, strip).state.memory ==
              if TakesEffectNow(m.state, call) then Next(m.state.memory, call.op, call.now, strip) else m.state.memory
  {
    CallIsLegal(m.state, call, strip);
    MemoryAfter(m.state, StepOf(m.state, call, strip));
  }

  /** In memory nothing is lost either: it is the fold of every call that took effect, whatever saves failed. */
  lemma {:induction false} MemoryIsReplay(m: Moment, calls: seq<Call>, strip: Name -> Name)
    requires Good(m) && MayCallAll(m, calls, strip)
    ensures ReplayedTo(m, m.state.memory, calls, strip, After(m, calls, strip).state.memory)
    decreases |calls|
  {
    if calls != [] {
      CalledMemory(m, calls[0], strip);
      MemoryIsReplay(Called(m, calls[0], strip), calls[1..], strip);
    }
  }

  /** What is on disk after a crash passes the cycle, window and grouped checks: every call leaves it sound. */
  lemma DiskStaysSound(m: Moment, call: Call, strip: Name -> Name)
    requires Good(m) && MayCall(m, call, strip)
    ensures Sound(Called(m, call, strip).state.disk.memory, call.now)
    ensures Sound(Called(m, call, strip).state.memory, call.now)
  {
    CallInv(m.state, m.clock, call, strip);
  }

  /** A new database is sound, and the engine starts on it. */
  lemma FreshEngine(clock: int)
    ensures var m := Memory(map[], map[], GroupedConfig(map[], map[], map[]), 0, [], 0, 0);
            Good(Moment(State(m, Disk(m, [], [], []), NO_CHANGES, Count(0, 0), Count(0, 0), 0), clock))
  {
  }
}
