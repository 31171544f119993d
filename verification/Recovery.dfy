/** After a refusal for quota, the announced instant is exactly when admission works again. */
module Recovery {
  import opened Text
  import opened Quota
  import opened Cycles

  /** What can happen to a key while its configuration does not change. */
  datatype Event = Admission(at: int) | Report(start: int, usage: Usage, at: int)

  function After(key: Key, plan: Plan, e: Event): Key
    requires PositivePeriods(plan.windows)
  {
    match e
    case Admission(at) => Authorized(key, plan, at)
    case Report(start, usage, at) => Settled(Charged(key, start, usage), at)
  }

  function Run(key: Key, plan: Plan, es: seq<Event>): Key
    requires PositivePeriods(plan.windows)
  {
    if es == [] then key else After(Run(key, plan, es[..|es| - 1]), plan, es[|es| - 1])
  }

  ghost predicate Legal(e: Event) {
    e.at >= 0 && (e.Report? ==> NaturalUsage(e.usage))
  }

  ghost predicate Healthy(key: Key, plan: Plan) {
    ValidPlan(plan) && key.planId == plan.id && ValidateCycles(key, plan)
  }

  lemma AfterKeepsHealthy(key: Key, plan: Plan, e: Event)
    requires Healthy(key, plan) && Legal(e)
    ensures Healthy(After(key, plan, e), plan)
  {
    match e
    case Admission(at) => AuthorizedKeepsValid(key, plan, at);
    case Report(start, usage, at) =>
      ChargedKeepsValid(key, plan, start, usage);
      SettledKeepsValid(Charged(key, start, usage), plan, at);
  }

  // ---------------------------------------------------------------------------------------
  // Until then: refused
  // ---------------------------------------------------------------------------------------

  /** An exhausted cycle that lives until `r`. */
  ghost predicate Stuck(key: Key, w: Window, r: int) {
    w.id in key.cycles && key.cycles[w.id].endAt == r && Exhausted(w, key.cycles[w.id])
  }

  lemma StuckBlocks(key: Key, plan: Plan, w: Window, r: int, t: int)
    requires Healthy(key, plan) && w in plan.windows && Stuck(key, w, r) && t < r
    ensures QuotaBlocked(Settled(key, t), plan, t)
    ensures Authorized(key, plan, t) == Settled(key, t)
  {
    var k := Settled(key, t);
    assert Shown(k, w, plan.id, t) == key.cycles[w.id];
    assert Blocks(k, w, plan.id, t);
  }

  lemma ChargeKeepsStuck(key: Key, plan: Plan, w: Window, r: int, start: int, u: Usage)
    requires Healthy(key, plan) && Stuck(key, w, r) && NaturalUsage(u)
    ensures Stuck(Charged(key, start, u), w, r)
  {
  }

  lemma AfterKeepsStuck(key: Key, plan: Plan, w: Window, r: int, e: Event)
    requires Healthy(key, plan) && w in plan.windows && Stuck(key, w, r) && Legal(e) && e.at < r
    ensures Stuck(After(key, plan, e), w, r)
    ensures After(key, plan, e).cycles.Keys <= key.cycles.Keys
  {
    match e
    case Admission(at) => StuckBlocks(key, plan, w, r, at);
    case Report(start, usage, at) => ChargeKeepsStuck(key, plan, w, r, start, usage);
  }

  lemma {:induction false} RunKeepsStuck(key: Key, plan: Plan, w: Window, r: int, es: seq<Event>)
    requires Healthy(key, plan) && w in plan.windows && Stuck(key, w, r)
    requires forall e :: e in es ==> Legal(e) && e.at < r
    ensures Healthy(Run(key, plan, es), plan) && Stuck(Run(key, plan, es), w, r)
    ensures Run(key, plan, es).cycles.Keys <= key.cycles.Keys
  {
    if es != [] {
      var front, e := es[..|es| - 1], es[|es| - 1];
      RunKeepsStuck(key, plan, w, r, front);
      AfterKeepsHealthy(Run(key, plan, front), plan, e);
      AfterKeepsStuck(Run(key, plan, front), plan, w, r, e);
    }
  }

  // ---------------------------------------------------------------------------------------
  // From then on: admitted
  // ---------------------------------------------------------------------------------------

  /** Whatever is exhausted ends by `r`. */
  ghost predicate ClearBy(key: Key, plan: Plan, r: int) {
    forall w :: w in plan.windows && w.id in key.cycles && Exhausted(w, key.cycles[w.id]) ==>
        key.cycles[w.id].endAt <= r
  }

  lemma AdmissionKeepsClear(key: Key, plan: Plan, r: int, at: int)
    requires Healthy(key, plan) && ClearBy(key, plan, r)
    ensures ClearBy(Authorized(key, plan, at), plan, r)
  {
    var k := Settled(key, at);
    OpenedIs(k.cycles, plan.windows, plan.id, at);
  }

  lemma ClearAdmits(key: Key, plan: Plan, r: int, t: int)
    requires Healthy(key, plan) && ClearBy(key, plan, r) && r <= t
    ensures Admits(key, plan, t)
  {
    var k := Settled(key, t);
    forall i | 0 <= i < |plan.windows| ensures !Blocks(k, plan.windows[i], plan.id, t) {
      NotBlocked(key, plan, r, t, plan.windows[i], k);
    }
    OpenedIs(k.cycles, plan.windows, plan.id, t);
    var a := Activated(k, plan, t);
    forall i | 0 <= i < |plan.windows| ensures !Blocks(a, plan.windows[i], plan.id, t) {
      NotBlocked(key, plan, r, t, plan.windows[i], a);
    }
  }

  lemma NotBlocked(key: Key, plan: Plan, r: int, t: int, w: Window, k: Key)
    requires Healthy(key, plan) && ClearBy(key, plan, r) && r <= t && w in plan.windows
    requires w.id in k.cycles ==>
               || (w.id in key.cycles && k.cycles[w.id] == key.cycles[w.id] && t < key.cycles[w.id].endAt)
               || (k.cycles[w.id].spent == 0.0 && k.cycles[w.id].usedTokens == 0 && k.cycles[w.id].usedRequests == 0)
    ensures !Blocks(k, w, plan.id, t)
  {
  }

  lemma {:induction false} RunKeepsClear(key: Key, plan: Plan, r: int, es: seq<Event>)
    requires Healthy(key, plan) && ClearBy(key, plan, r)
    requires forall e :: e in es ==> Legal(e) && e.Admission?
    ensures Healthy(Run(key, plan, es), plan) && ClearBy(Run(key, plan, es), plan, r)
  {
    if es != [] {
      var front, e := es[..|es| - 1], es[|es| - 1];
      RunKeepsClear(key, plan, r, front);
      AfterKeepsHealthy(Run(key, plan, front), plan, e);
      AdmissionKeepsClear(Run(key, plan, front), plan, r, e.at);
    }
  }

  // ---------------------------------------------------------------------------------------
  // The announced instant
  // ---------------------------------------------------------------------------------------

  lemma BlockedIsLive(k: Key, plan: Plan, w: Window, at: int)
    requires Healthy(k, plan) && w in plan.windows
    ensures Blocks(k, w, plan.id, at) <==> w.id in k.cycles && Exhausted(w, k.cycles[w.id])
    ensures w.id in k.cycles ==> Shown(k, w, plan.id, at) == k.cycles[w.id]
  {
  }

  lemma IndexOf(ws: seq<Window>, w: Window) returns (i: nat)
    requires w in ws
    ensures i < |ws| && ws[i] == w
  {
    i :| 0 <= i < |ws| && ws[i] == w;
  }

  lemma ExhaustedEndsByRetryAt(k: Key, plan: Plan, at: int, w: Window)
    requires Healthy(k, plan) && w in plan.windows && w.id in k.cycles && Exhausted(w, k.cycles[w.id])
    ensures k.cycles[w.id].endAt <= RetryAt(k, plan.windows, plan.id, at)
  {
    RetryAtIsLatest(k, plan.windows, plan.id, at);
    BlockedIsLive(k, plan, w, at);
    var i := IndexOf(plan.windows, w);
    assert Blocks(k, plan.windows[i], plan.id, at);
  }

  lemma SomeWindowIsExhausted(k: Key, plan: Plan, at: int) returns (w: Window)
    requires Healthy(k, plan) && QuotaBlocked(k, plan, at)
    ensures w in plan.windows && w.id in k.cycles && Exhausted(w, k.cycles[w.id])
  {
    var j :| 0 <= j < |plan.windows| && Blocks(k, plan.windows[j], plan.id, at);
    w := plan.windows[j];
    BlockedIsLive(k, plan, w, at);
  }

  lemma RetryAtIsAttained(k: Key, plan: Plan, at: int) returns (w: Window)
    requires Healthy(k, plan) && RetryAt(k, plan.windows, plan.id, at) > ZERO_TIME
    ensures w in plan.windows && Stuck(k, w, RetryAt(k, plan.windows, plan.id, at))
  {
    RetryAtIsLatest(k, plan.windows, plan.id, at);
    var i :| 0 <= i < |plan.windows| && Blocks(k, plan.windows[i], plan.id, at)
             && RetryAt(k, plan.windows, plan.id, at) == Shown(k, plan.windows[i], plan.id, at).endAt;
    w := plan.windows[i];
    BlockedIsLive(k, plan, w, at);
  }

  /** The view of a settled key that is blocked: one window lasts until `r`, all exhausted ones end by `r`. */
  lemma BlockedView(k: Key, plan: Plan, at: int) returns (w: Window)
    requires Healthy(k, plan) && Settled(k, at) == k && at >= 0 && QuotaBlocked(k, plan, at)
    ensures var r := RetryAt(k, plan.windows, plan.id, at);
            at < r && w in plan.windows && Stuck(k, w, r) && ClearBy(k, plan, r)
  {
    var v := SomeWindowIsExhausted(k, plan, at);
    ExhaustedEndsByRetryAt(k, plan, at, v);
    LiveAfter(k, at, v.id);
    w := RetryAtIsAttained(k, plan, at);
    RetryAtClears(k, plan, at);
  }

  lemma LiveAfter(k: Key, at: int, id: Name)
    requires Settled(k, at) == k && id in k.cycles
    ensures at < k.cycles[id].endAt
  {
    assert id in Settled(k, at).cycles;
  }

  lemma RetryAtClears(k: Key, plan: Plan, at: int)
    requires Healthy(k, plan)
    ensures ClearBy(k, plan, RetryAt(k, plan.windows, plan.id, at))
  {
    forall u | u in plan.windows && u.id in k.cycles && Exhausted(u, k.cycles[u.id])
      ensures k.cycles[u.id].endAt <= RetryAt(k, plan.windows, plan.id, at)
    {
      ExhaustedEndsByRetryAt(k, plan, at, u);
    }
  }

  lemma ViewShowsExhausted(k: Key, plan: Plan, at: int, w: Window)
    requires Healthy(k, plan) && !QuotaBlocked(k, plan, at) && w in plan.windows && w.id in k.cycles
    ensures !Exhausted(w, k.cycles[w.id])
  {
    BlockedIsLive(k, plan, w, at);
    var n := IndexOf(plan.windows, w);
    assert !Blocks(k, plan.windows[n], plan.id, at);
  }

  lemma SettledTwice(key: Key, at: int)
    ensures Settled(Settled(key, at), at) == Settled(key, at)
  {
  }

  lemma UnblockedIsClear(k: Key, plan: Plan, at: int)
    requires Healthy(k, plan) && !QuotaBlocked(k, plan, at)
    ensures ClearBy(k, plan, at)
  {
    forall w | w in plan.windows && w.id in k.cycles ensures !Exhausted(w, k.cycles[w.id]) {
      ViewShowsExhausted(k, plan, at, w);
    }
  }

  /** A refusal means that a settled cycle is exhausted: admission opens nothing. */
  lemma DenialBlocks(key: Key, plan: Plan, at: int)
    requires Healthy(key, plan) && at >= 0 && !Admits(key, plan, at)
    ensures QuotaBlocked(Settled(key, at), plan, at)
    ensures Authorized(key, plan, at) == Settled(key, at)
  {
    var k := Settled(key, at);
    if !QuotaBlocked(k, plan, at) {
      SettledKeepsValid(key, plan, at);
      UnblockedIsClear(k, plan, at);
      SettledTwice(key, at);
      ClearAdmits(k, plan, at, at);
    }
  }

  /**
   After a refusal that announces `r`, whatever happens before `r`, usage included: no cycle is
   started, and admission is refused at every instant before `r`.
   */
  lemma RefusedBeforeRetryAt(key: Key, plan: Plan, at: int, es: seq<Event>, t: int)
    requires Healthy(key, plan) && at >= 0 && !Admits(key, plan, at)
    requires var r := RetryAt(Authorized(key, plan, at), plan.windows, plan.id, at);
             t < r && forall e :: e in es ==> Legal(e) && e.at < r
    ensures !Admits(Run(Authorized(key, plan, at), plan, es), plan, t)
    ensures Run(Authorized(key, plan, at), plan, es).cycles.Keys <= key.cycles.Keys
  {
    var k := Settled(key, at);
    DenialBlocks(key, plan, at);
    SettledKeepsValid(key, plan, at);
    SettledTwice(key, at);
    var r := RetryAt(k, plan.windows, plan.id, at);
    var w := BlockedView(k, plan, at);
    RunKeepsStuck(k, plan, w, r, es);
    StuckBlocks(Run(k, plan, es), plan, w, r, t);
  }

  /**
   After a refusal that announces `r`, as long as no usage arrives, whatever admissions are
   attempted: admission is granted at every instant from `r` on, and `r` lies in the future.
   */
  lemma AdmittedFromRetryAt(key: Key, plan: Plan, at: int, es: seq<Event>, t: int)
    requires Healthy(key, plan) && at >= 0 && !Admits(key, plan, at)
    requires forall e :: e in es ==> Legal(e) && e.Admission?
    ensures var r := RetryAt(Authorized(key, plan, at), plan.windows, plan.id, at);
            at < r && (r <= t ==> Admits(Run(Authorized(key, plan, at), plan, es), plan, t))
  {
    var k := Settled(key, at);
    DenialBlocks(key, plan, at);
    SettledKeepsValid(key, plan, at);
    SettledTwice(key, at);
    var r := RetryAt(k, plan.windows, plan.id, at);
    var w := BlockedView(k, plan, at);
    RunKeepsClear(k, plan, r, es);
    if r <= t { ClearAdmits(Run(k, plan, es), plan, r, t); }
  }
}
