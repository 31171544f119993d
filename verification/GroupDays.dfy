/** Every ledger of every run of grouped billing is the ledger of exactly the events that concern it. */
module GroupDays {
  import opened Options
  import opened Text
  import opened GroupBindings
  import opened GroupModels
  import opened GroupStates
  import Ledger = GroupLedger

  /** What a step means to one ledger: at most one event. */
  ghost function EventOf(s: Groups, step: Step, k: DayKey, strip: Name -> Name): seq<Ledger.Event> {
    match step.op
    case ResetDay(scope, live, groupId) =>
      if CanReset(s, scope, live, groupId, step.now) && Today(scope, groupId, step.now) == k
      then [Ledger.Reset(step.now)] else []
    case Account(r) => if RecordTarget(s, r, strip) == Day(k) then [Ledger.Usage(ChargeOf(r))] else []
    case _ => []
  }

  ghost function EventsOf(s: Groups, steps: seq<Step>, k: DayKey, strip: Name -> Name): seq<Ledger.Event>
    decreases |steps|
  {
    if steps == [] then [] else
      EventOf(s, steps[0], k, strip) + EventsOf(Apply(s, steps[0].op, steps[0].now, strip), steps[1..], k, strip)
  }

  /** An event of a ledger is a legal charge of its business day, or a reset on that day. */
  ghost predicate Concerns(e: Ledger.Event, k: DayKey) {
    match e
    case Usage(c) => Ledger.LegalCharge(c) && GroupDate(c.at) == k.date
    case Reset(now) => GroupDate(now) == k.date
  }

  lemma StepConcerns(s: Groups, step: Step, k: DayKey, strip: Name -> Name)
    requires Legal(step.op)
    ensures forall e :: e in EventOf(s, step, k, strip) ==> Concerns(e, k)
  {
  }

  /** A step changes the ledger by the event it means to it, and by nothing else. */
  lemma StepIsEvent(s: Groups, step: Step, k: DayKey, strip: Name -> Name)
    ensures |EventOf(s, step, k, strip)| <= 1
    ensures DayOf(Apply(s, step.op, step.now, strip), k) ==
              if EventOf(s, step, k, strip) == [] then DayOf(s, k)
              else Ledger.After(DayOf(s, k), EventOf(s, step, k, strip)[0])
  {
  }

  lemma StepDay(s: Groups, step: Step, k: DayKey, strip: Name -> Name, es: seq<Ledger.Event>)
    requires DayOf(s, k) == Ledger.Run(es)
    ensures DayOf(Apply(s, step.op, step.now, strip), k) == Ledger.Run(es + EventOf(s, step, k, strip))
  {
    StepIsEvent(s, step, k, strip);
    Extended(es, EventOf(s, step, k, strip));
  }

  lemma Extended(es: seq<Ledger.Event>, more: seq<Ledger.Event>)
    requires |more| <= 1
    ensures Ledger.Run(es + more) == if more == [] then Ledger.Run(es) else Ledger.After(Ledger.Run(es), more[0])
  {
    if more == [] {
      assert es + more == es;
    } else {
      assert (es + more)[..|es + more| - 1] == es;
    }
  }

  lemma {:induction false} AllConcern(s: Groups, steps: seq<Step>, k: DayKey, strip: Name -> Name)
    requires LegalSteps(steps)
    ensures forall e :: e in EventsOf(s, steps, k, strip) ==> Concerns(e, k)
    decreases |steps|
  {
    if steps != [] {
      StepConcerns(s, steps[0], k, strip);
      AllConcern(Apply(s, steps[0].op, steps[0].now, strip), steps[1..], k, strip);
    }
  }

  lemma {:induction false} RunDay(s: Groups, steps: seq<Step>, k: DayKey, strip: Name -> Name, es: seq<Ledger.Event>)
    requires DayOf(s, k) == Ledger.Run(es)
    ensures DayOf(Run(s, steps, strip), k) == Ledger.Run(es + EventsOf(s, steps, k, strip))
    decreases |steps|
  {
    if steps == [] {
      assert es + [] == es;
    } else {
      var first := EventOf(s, steps[0], k, strip);
      StepDay(s, steps[0], k, strip, es);
      RunDay(Apply(s, steps[0].op, steps[0].now, strip), steps[1..], k, strip, es + first);
      Reassociated(es, first, EventsOf(Apply(s, steps[0].op, steps[0].now, strip), steps[1..], k, strip));
    }
  }

  lemma Reassociated(a: seq<Ledger.Event>, b: seq<Ledger.Event>, c: seq<Ledger.Event>)
    ensures a + b + c == a + (b + c)
  {
  }

  /**
   Over any run from a state without the ledger: its total is the sum of the costs attributed to it,
   its credit never exceeds the total, what is left after a reset is the cost of the records that
   arrived since and started at the cutoff or later, its error says exactly whether a cost was lost, and
   without incomplete records its cost, tokens and requests are the true totals.
   */
  lemma LedgersAreExact(s: Groups, steps: seq<Step>, k: DayKey, strip: Name -> Name)
    requires LegalSteps(steps) && k !in s.days
    ensures var es, d := EventsOf(s, steps, k, strip), DayOf(Run(s, steps, strip), k);
            && (forall e :: e in es ==> Concerns(e, k))
            && Ledger.Bounded(d)
            && d.raw == Ledger.CostsSince(es, 0, None)
            && (forall i :: 0 <= i < |es| && Ledger.LastReset(es, i) ==>
                  d.raw - d.credit == Ledger.CostsSince(es, i + 1, Some(es[i].now)) && d.cutoff == Some(es[i].now))
            && (d.error <==> exists i :: 0 <= i < |es| && Ledger.Lost(es, i))
            && (d.incomplete == 0 <==> Ledger.AllPriced(es) && Ledger.TotalsFit(Ledger.TotalsOf(es)))
            && (d.incomplete == 0 ==> Ledger.Matches(d, Ledger.TotalsOf(es)))
  {
    var es := EventsOf(s, steps, k, strip);
    RunDay(s, steps, k, strip, []);
    AllConcern(s, steps, k, strip);
    assert [] + es == es;
    forall i | 0 <= i < |es| ensures es[i].Usage? ==> Ledger.LegalCharge(es[i].charge) { assert Concerns(es[i], k); }
    Ledger.RawIsAttributed(es);
    Ledger.ErrorIffLost(es);
    Ledger.CompleteIff(es);
    forall i | 0 <= i < |es| && Ledger.LastReset(es, i)
      ensures Ledger.Run(es).raw - Ledger.Run(es).credit == Ledger.CostsSince(es, i + 1, Some(es[i].now))
      ensures Ledger.Run(es).cutoff == Some(es[i].now)
    {
      Ledger.UsedSinceReset(es, i);
    }
  }

  // ---------------------------------------------------------------------------------------
  // What is announced for saving
  // ---------------------------------------------------------------------------------------

  datatype Announced = Announced(config: bool, days: set<DayKey>)

  ghost function AnnouncedBy(s: Groups, op: Op, now: int, strip: Name -> Name): Announced {
    match op
    case Edit(edit) => Announced(Edited(s.groups, edit, now).Some?, {})
    case SavePlan(id, revision, name, policies) => Announced(CanSave(s, id, revision, name, policies), {})
    case Schedule(scope, live, mode, planId, expected) =>
      Announced(CanSchedule(s, scope, live, mode, planId, expected), {})
    case ResetDay(scope, live, groupId) =>
      Announced(false, if CanReset(s, scope, live, groupId, now) then {Today(scope, groupId, now)} else {})
    case Account(r) =>
      match RecordTarget(s, r, strip)
      case OldMode => Announced(false, {})
      case Unclassified => Announced(true, {})
      case Day(k) => Announced(false, {k})
  }

  /** Every operation announces all it changes, and no ledger ever disappears. */
  lemma AnnouncementsCover(s: Groups, op: Op, now: int, strip: Name -> Name)
    ensures var t, a := Apply(s, op, now, strip), AnnouncedBy(s, op, now, strip);
            && (!a.config ==> t.groups == s.groups && t.plans == s.plans && t.bindings == s.bindings)
            && (forall k :: k !in a.days ==> (k in t.days <==> k in s.days) && DayOf(t, k) == DayOf(s, k))
            && s.days.Keys <= t.days.Keys
            && (a == Announced(false, {}) ==> t == s)
  {
  }
}
