/**
 Admission and completion of a request, which may race.

 An admission call looks up or creates the record of its request, does slow work, commits and ends;
 a completion may arrive at any point. Each of these is one step, as the lock around it makes it.
 Records are heap objects that calls share, so they are modelled by reference: a map from references
 to records. The call that creates a record lends it its own number as the reference.
 */
module Admission {
  import opened Options
  import opened Text
  import opened Slots
  import GroupGate

  datatype Record = Record(calls: int, completed: bool)

  datatype Call = Call(id: Name, record: Option<nat>)

  /** The registered requests, the records, and the admission calls in flight. */
  datatype Registry = Registry(admissions: map<Name, nat>, records: map<nat, Record>, calls: map<nat, Call>)

  datatype State = State(slots: Held, registry: Registry)

  /** What the slow part of an admission and the checks around the commit came to. */
  datatype Attempt = Attempt(gate: GroupGate.Gate, generate: bool, scope: Name, limit: int, authorized: bool)

  datatype Step =
    | Begin(call: nat, id: Name)
    | Commit(call: nat, attempt: Attempt)
    | End(call: nat)
    | Complete(id: Name)

  ghost predicate Legal(g: Registry, step: Step) {
    match step
    case Begin(c, _) => c !in g.calls && c !in g.records
    case Commit(c, _) => c in g.calls
    case End(c) => c in g.calls
    case Complete(_) => true
  }

  // ---------------------------------------------------------------------------------------
  // The steps
  // ---------------------------------------------------------------------------------------

  function RecordAt(records: map<nat, Record>, r: nat): Record {
    if r in records then records[r] else Record(0, false)
  }

  predicate IsCompleted(g: Registry, record: Option<nat>) {
    record.Some? && RecordAt(g.records, record.value).completed
  }

  predicate Admits(slots: Held, completed: bool, id: Name, a: Attempt) {
    !completed &&
    match a.gate
    case Refused(_, _) => false
    case Open(groupId, limit) => a.generate ==> Allows(GroupDecision(slots, GroupSlot(a.scope, groupId), id, limit))
    case NotGrouped => (a.generate ==> KeyDecision(slots, a.scope, id, a.limit).allowed) && a.authorized
  }

  /** A slot acquired by an admission that is then refused is given back. */
  function Committed(slots: Held, completed: bool, id: Name, a: Attempt): Held {
    if completed || !a.generate || a.gate.Refused? then slots
    else if a.gate.Open? then GroupAcquired(slots, GroupSlot(a.scope, a.gate.groupId), id, a.gate.limit)
    else
      var d := KeyDecision(slots, a.scope, id, a.limit);
      if d.acquired && !a.authorized then Freed(KeyAcquired(slots, a.scope, id, a.limit), id)
      else KeyAcquired(slots, a.scope, id, a.limit)
  }

  /** The record a new call of the request shares: the registered one, or one of its own. */
  function SharedRecord(g: Registry, call: nat, id: Name): nat {
    if id in g.admissions then g.admissions[id] else call
  }

  function Began(g: Registry, call: nat, id: Name): Registry {
    if id == NO_NAME then g.(calls := g.calls[call := Call(id, None)]) else
      var r := SharedRecord(g, call, id);
      Registry(g.admissions[id := r],
               g.records[r := RecordAt(g.records, r).(calls := RecordAt(g.records, r).calls + 1)],
               g.calls[call := Call(id, Some(r))])
  }

  function Ended(g: Registry, call: nat): Registry
    requires call in g.calls
  {
    var c := g.calls[call];
    if c.record.None? then g.(calls := g.calls - {call}) else
      var r := c.record.value;
      var n := RecordAt(g.records, r).calls - 1;
      Registry(if n == 0 then g.admissions - {c.id} else g.admissions,
               g.records[r := RecordAt(g.records, r).(calls := n)],
               g.calls - {call})
  }

  function Marked(g: Registry, id: Name): Registry {
    if id !in g.admissions then g else
      var r := g.admissions[id];
      g.(records := g.records[r := RecordAt(g.records, r).(completed := true)])
  }

  function Apply(s: State, step: Step): State
    requires Legal(s.registry, step)
  {
    match step
    case Begin(call, id) => s.(registry := Began(s.registry, call, id))
    case Commit(call, a) =>
      var c := s.registry.calls[call];
      s.(slots := Committed(s.slots, IsCompleted(s.registry, c.record), c.id, a))
    case End(call) => s.(registry := Ended(s.registry, call))
    case Complete(id) => State(Freed(s.slots, id), Marked(s.registry, id))
  }

  // ---------------------------------------------------------------------------------------
  // The invariant
  // ---------------------------------------------------------------------------------------

  ghost function Sharing(calls: map<nat, Call>, r: nat): set<nat> {
    set c | c in calls && calls[c].record == Some(r)
  }

  /** Each record counts the calls in flight that share it. */
  ghost predicate CallsCounted(g: Registry) {
    forall r :: r in g.records ==> g.records[r].calls == |Sharing(g.calls, r)|
  }

  /** A call shares the record its request is registered under; without an identifier it has none. */
  predicate IsRegistered(g: Registry, c: Call) {
    if c.id == NO_NAME then c.record == None else c.id in g.admissions && c.record == Some(g.admissions[c.id])
  }

  ghost predicate CallsRegistered(g: Registry) {
    forall c :: c in g.calls ==> IsRegistered(g, g.calls[c])
  }

  /** A request is registered only while some call of it is in flight, under a record of its own. */
  ghost predicate RegistrationsLive(g: Registry) {
    && NO_NAME !in g.admissions
    && (forall id :: id in g.admissions ==> g.admissions[id] in g.records && Sharing(g.calls, g.admissions[id]) != {})
    && (forall i, j :: i in g.admissions && j in g.admissions && g.admissions[i] == g.admissions[j] ==> i == j)
  }

  ghost predicate RegistryOk(g: Registry) {
    CallsCounted(g) && CallsRegistered(g) && RegistrationsLive(g)
  }

  ghost predicate Inv(s: State) {
    SlotsOk(s.slots) && RegistryOk(s.registry)
  }

  lemma SharingAdded(calls: map<nat, Call>, call: nat, c: Call)
    requires call !in calls
    ensures forall r: nat :: Sharing(calls[call := c], r) ==
              if c.record == Some(r) then Sharing(calls, r) + {call} else Sharing(calls, r)
    ensures forall r: nat :: call !in Sharing(calls, r)
  {
  }

  lemma SharingRemoved(calls: map<nat, Call>, call: nat)
    requires call in calls
    ensures forall r: nat :: Sharing(calls - {call}, r) == Sharing(calls, r) - {call}
    ensures forall r: nat :: call in Sharing(calls, r) <==> calls[call].record == Some(r)
  {
  }

  /** A reference that names no record is held by no call. */
  lemma NobodyShares(g: Registry, r: nat)
    requires RegistryOk(g) && r !in g.records
    ensures Sharing(g.calls, r) == {}
    ensures forall id :: id in g.admissions ==> g.admissions[id] != r
  {
  }

  lemma OneMore(calls: set<nat>, call: nat)
    requires call !in calls
    ensures |calls + {call}| == |calls| + 1
  {
  }

  lemma BeganCount(g: Registry, call: nat, id: Name, r: nat)
    requires RegistryOk(g) && Legal(g, Begin(call, id)) && r in Began(g, call, id).records
    ensures Began(g, call, id).records[r].calls == |Sharing(Began(g, call, id).calls, r)|
  {
    SharingAdded(g.calls, call, Began(g, call, id).calls[call]);
    if id != NO_NAME && r == SharedRecord(g, call, id) {
      OneMore(Sharing(g.calls, r), call);
      if r !in g.records { NobodyShares(g, r); }
    }
  }

  lemma BeganCounted(g: Registry, call: nat, id: Name)
    requires RegistryOk(g) && Legal(g, Begin(call, id))
    ensures CallsCounted(Began(g, call, id))
  {
    forall r | r in Began(g, call, id).records
      ensures Began(g, call, id).records[r].calls == |Sharing(Began(g, call, id).calls, r)|
    {
      BeganCount(g, call, id, r);
    }
  }

  lemma BeganRegistered(g: Registry, call: nat, id: Name)
    requires RegistryOk(g) && Legal(g, Begin(call, id))
    ensures CallsRegistered(Began(g, call, id))
  {
    var h := Began(g, call, id);
    forall c | c in h.calls ensures IsRegistered(h, h.calls[c]) {
      if c != call { assert IsRegistered(g, g.calls[c]); }
    }
  }

  lemma BeganLive(g: Registry, call: nat, id: Name)
    requires RegistryOk(g) && Legal(g, Begin(call, id))
    ensures RegistrationsLive(Began(g, call, id))
  {
    var h := Began(g, call, id);
    SharingAdded(g.calls, call, h.calls[call]);
    NobodyShares(g, call);
    forall j | j in h.admissions ensures h.admissions[j] in h.records && Sharing(h.calls, h.admissions[j]) != {} {
      if j == id { assert call in Sharing(h.calls, h.admissions[j]); }
    }
    BeganInjective(g, call, id);
  }

  lemma BeganInjective(g: Registry, call: nat, id: Name)
    requires RegistryOk(g) && Legal(g, Begin(call, id))
    ensures var h := Began(g, call, id).admissions;
            NO_NAME !in h && forall i, j :: i in h && j in h && h[i] == h[j] ==> i == j
  {
    if id !in g.admissions { NobodyShares(g, call); }
  }

  lemma BeganOk(g: Registry, call: nat, id: Name)
    requires RegistryOk(g) && Legal(g, Begin(call, id))
    ensures RegistryOk(Began(g, call, id))
  {
    BeganCounted(g, call, id);
    BeganRegistered(g, call, id);
    BeganLive(g, call, id);
  }

  lemma EndedCounted(g: Registry, call: nat)
    requires RegistryOk(g) && call in g.calls
    ensures CallsCounted(Ended(g, call))
  {
    var h, c := Ended(g, call), g.calls[call];
    SharingRemoved(g.calls, call);
    assert IsRegistered(g, c);
    forall r | r in h.records ensures h.records[r].calls == |Sharing(h.calls, r)| {
      assert |Sharing(g.calls, r) - {call}| == |Sharing(g.calls, r)| - if call in Sharing(g.calls, r) then 1 else 0;
    }
  }

  /** Two calls of one request share one record, and calls of two requests share none. */
  lemma SameRequestSameRecord(g: Registry, c: nat, d: nat)
    requires RegistryOk(g) && c in g.calls && d in g.calls && g.calls[c].record.Some?
    ensures g.calls[d].id == g.calls[c].id <==> g.calls[d].record == g.calls[c].record
  {
    assert IsRegistered(g, g.calls[c]) && IsRegistered(g, g.calls[d]);
  }

  lemma EndedRegistered(g: Registry, call: nat)
    requires RegistryOk(g) && call in g.calls
    ensures CallsRegistered(Ended(g, call))
  {
    var h, c := Ended(g, call), g.calls[call];
    SharingRemoved(g.calls, call);
    forall d | d in h.calls ensures IsRegistered(h, h.calls[d]) {
      assert IsRegistered(g, g.calls[d]);
      if c.record.Some? && h.records[c.record.value].calls == 0 && g.calls[d].id == c.id {
        SameRequestSameRecord(g, call, d);
        LastCall(g, call, d);
      }
    }
  }

  lemma LastCall(g: Registry, call: nat, d: nat)
    requires RegistryOk(g) && call in g.calls && d in g.calls && d != call
    requires g.calls[call].record.Some? && g.calls[d].record == g.calls[call].record
    ensures RecordAt(g.records, g.calls[call].record.value).calls > 1
  {
    var r := g.calls[call].record.value;
    assert IsRegistered(g, g.calls[call]);
    assert {call, d} <= Sharing(g.calls, r);
    Larger({call, d}, Sharing(g.calls, r));
  }

  lemma {:induction false} Larger(a: set<nat>, b: set<nat>)
    requires a <= b
    ensures |a| <= |b|
  {
    if x :| x in a {
      Larger(a - {x}, b - {x});
    }
  }

  lemma EndedLive(g: Registry, call: nat)
    requires RegistryOk(g) && call in g.calls
    ensures RegistrationsLive(Ended(g, call))
  {
    var h, c := Ended(g, call), g.calls[call];
    SharingRemoved(g.calls, call);
    EndedCounted(g, call);
    assert IsRegistered(g, c);
    forall id | id in h.admissions ensures h.admissions[id] in h.records && Sharing(h.calls, h.admissions[id]) != {} {
      assert Sharing(g.calls, g.admissions[id]) != {};
    }
  }

  lemma EndedOk(g: Registry, call: nat)
    requires RegistryOk(g) && call in g.calls
    ensures RegistryOk(Ended(g, call))
  {
    EndedCounted(g, call);
    EndedRegistered(g, call);
    EndedLive(g, call);
  }

  lemma MarkedOk(g: Registry, id: Name)
    requires RegistryOk(g)
    ensures RegistryOk(Marked(g, id))
  {
  }

  lemma CommittedOk(slots: Held, completed: bool, id: Name, a: Attempt)
    requires SlotsOk(slots)
    ensures SlotsOk(Committed(slots, completed, id, a))
  {
    if a.gate.Open? {
      AfterOk(slots, AcquireGroup(GroupSlot(a.scope, a.gate.groupId), id, a.gate.limit));
    }
    AfterOk(slots, AcquireKey(a.scope, id, a.limit));
    AfterOk(KeyAcquired(slots, a.scope, id, a.limit), Release(id));
  }

  lemma StepInv(s: State, step: Step)
    requires Inv(s) && Legal(s.registry, step)
    ensures Inv(Apply(s, step))
  {
    match step
    case Begin(call, id) => BeganOk(s.registry, call, id);
    case Commit(call, a) =>
      var c := s.registry.calls[call];
      CommittedOk(s.slots, IsCompleted(s.registry, c.record), c.id, a);
    case End(call) => EndedOk(s.registry, call);
    case Complete(id) =>
      AfterOk(s.slots, Release(id));
      MarkedOk(s.registry, id);
  }

  /**
   What a call needs besides a request that is not over: a gate that does not refuse; in the old mode the quota's
   authorization; and for a generation the slot it holds already, or room for it.
   */
  ghost predicate Passes(slots: Held, id: Name, a: Attempt) {
    match a.gate
    case Refused(_, _) => false
    case Open(groupId, limit) => a.generate ==> PassesGroup(slots, GroupSlot(a.scope, groupId), id, limit)
    case NotGrouped => a.authorized && (a.generate ==> PassesKey(slots, a.scope, id, a.limit))
  }

  /** The slots after the answer: an admitted generation holds its slot, and everything else is as it was. */
  ghost predicate Settles(slots: Held, admitted: bool, id: Name, a: Attempt, after: Held) {
    if !admitted || !a.generate then after == slots
    else if a.gate.Open? then
      after.groups.slots == slots.groups.slots[id := GroupSlot(a.scope, a.gate.groupId)] && after.keys == slots.keys
    else if a.scope == NO_NAME || id == NO_NAME then after == slots
    else after.keys.slots == slots.keys.slots[id := a.scope] && after.groups == slots.groups
  }

  /** Exactly who is admitted, and exactly which slots are held then. */
  lemma CommitMeans(slots: Held, completed: bool, id: Name, a: Attempt)
    requires SlotsOk(slots)
    ensures Admits(slots, completed, id, a) <==> !completed && Passes(slots, id, a)
    ensures Settles(slots, !completed && Passes(slots, id, a), id, a, Committed(slots, completed, id, a))
  {
    KeyAnswerIff(slots, a.scope, id, a.limit);
    if a.gate.Open? { GroupAnswerIff(slots, GroupSlot(a.scope, a.gate.groupId), id, a.gate.limit); }
    if !Admits(slots, completed, id, a) { RefusalLeavesNoTrace(slots, completed, id, a); }
  }

  /** A refused admission leaves no trace in the slots, whatever it had acquired. */
  lemma RefusalLeavesNoTrace(slots: Held, completed: bool, id: Name, a: Attempt)
    requires SlotsOk(slots) && !Admits(slots, completed, id, a)
    ensures Committed(slots, completed, id, a) == slots
  {
    if KeyDecision(slots, a.scope, id, a.limit).acquired { ReleaseUndoesAcquire(slots.keys, id, a.scope); }
  }

  /** An admitted generation with an identifier and an owner holds a slot. */
  lemma AdmissionHoldsSlot(slots: Held, completed: bool, id: Name, a: Attempt)
    requires SlotsOk(slots) && Admits(slots, completed, id, a)
    requires a.generate && id != NO_NAME && (a.gate.NotGrouped? ==> a.scope != NO_NAME)
    ensures Holds(Committed(slots, completed, id, a), id)
  {
  }

  // ---------------------------------------------------------------------------------------
  // Completion wins
  // ---------------------------------------------------------------------------------------

  predicate Doomed(g: Registry, id: Name) {
    id in g.admissions ==> RecordAt(g.records, g.admissions[id]).completed
  }

  /** The request holds no slot, and whoever is still admitting it is going to be refused. */
  predicate Over(s: State, id: Name) {
    !Holds(s.slots, id) && Doomed(s.registry, id)
  }

  lemma FreedHoldsNothing(slots: Held, id: Name)
    requires SlotsOk(slots)
    ensures !Holds(Freed(slots, id), id)
    ensures forall other :: !Holds(slots, other) ==> !Holds(Freed(slots, id), other)
  {
  }

  lemma CompleteMakesOver(s: State, id: Name)
    requires Inv(s)
    ensures Over(Apply(s, Complete(id)), id)
  {
    FreedHoldsNothing(s.slots, id);
  }

  lemma OthersUntouched(slots: Held, completed: bool, id: Name, a: Attempt, other: Name)
    requires other != id
    ensures Holds(Committed(slots, completed, id, a), other) <==> Holds(slots, other)
  {
  }

  lemma CommitKeepsOver(s: State, call: nat, a: Attempt, id: Name)
    requires Inv(s) && call in s.registry.calls && Over(s, id)
    ensures Over(Apply(s, Commit(call, a)), id)
  {
    var c := s.registry.calls[call];
    assert IsRegistered(s.registry, c);
    if c.id != id {
      OthersUntouched(s.slots, IsCompleted(s.registry, c.record), c.id, a, id);
    } else if id == NO_NAME {
      CommittedOk(s.slots, IsCompleted(s.registry, c.record), c.id, a);
    }
  }

  lemma BeginKeepsDoomed(g: Registry, call: nat, id: Name, j: Name)
    requires RegistryOk(g) && Legal(g, Begin(call, j)) && Doomed(g, id)
    requires j == id ==> id in g.admissions || id == NO_NAME
    ensures Doomed(Began(g, call, j), id)
  {
    NobodyShares(g, call);
  }

  lemma EndKeepsDoomed(g: Registry, call: nat, id: Name)
    requires RegistryOk(g) && call in g.calls && Doomed(g, id)
    ensures Doomed(Ended(g, call), id)
  {
  }

  /** Only a new admission that finds no call in flight can undo a completion. */
  lemma StepKeepsOver(s: State, step: Step, id: Name)
    requires Inv(s) && Legal(s.registry, step) && Over(s, id)
    requires step.Begin? && step.id == id ==> id in s.registry.admissions || id == NO_NAME
    ensures Over(Apply(s, step), id)
  {
    match step
    case Begin(call, j) => BeginKeepsDoomed(s.registry, call, id, j);
    case Commit(call, a) => CommitKeepsOver(s, call, a, id);
    case End(call) => EndKeepsDoomed(s.registry, call, id);
    case Complete(j) => FreedHoldsNothing(s.slots, j);
  }

  ghost predicate LegalRun(s: State, steps: seq<Step>)
    decreases |steps|
  {
    steps == [] || (Legal(s.registry, steps[0]) && LegalRun(Apply(s, steps[0]), steps[1..]))
  }

  ghost function Run(s: State, steps: seq<Step>): State
    requires LegalRun(s, steps)
    decreases |steps|
  {
    if steps == [] then s else Run(Apply(s, steps[0]), steps[1..])
  }

  /** In every interleaving each record counts exactly the calls in flight that share it. */
  lemma {:induction false} RunInv(s: State, steps: seq<Step>)
    requires Inv(s) && LegalRun(s, steps)
    ensures var t := Run(s, steps);
            && Inv(t)
            && (forall r :: r in t.registry.records ==> t.registry.records[r].calls == |Sharing(t.registry.calls, r)|)
            && (forall id :: id in t.registry.admissions ==> Sharing(t.registry.calls, t.registry.admissions[id]) != {})
    decreases |steps|
  {
    if steps != [] {
      StepInv(s, steps[0]);
      RunInv(Apply(s, steps[0]), steps[1..]);
    }
  }

  lemma {:induction false} OverLasts(s: State, steps: seq<Step>, id: Name)
    requires Inv(s) && LegalRun(s, steps) && Over(s, id)
    requires forall i :: 0 <= i < |steps| && steps[i].Begin? ==> steps[i].id != id
    ensures Over(Run(s, steps), id)
    decreases |steps|
  {
    if steps != [] {
      StepKeepsOver(s, steps[0], id);
      StepInv(s, steps[0]);
      OverLasts(Apply(s, steps[0]), steps[1..], id);
    }
  }

  /**
   If a completion follows the last admission call begun for a request, then in every interleaving
   with the calls still in flight the request holds no slot, from the completion on.
   */
  lemma CompletedRequestHoldsNothing(s: State, id: Name, steps: seq<Step>)
    requires Inv(s) && LegalRun(Apply(s, Complete(id)), steps)
    requires forall i :: 0 <= i < |steps| && steps[i].Begin? ==> steps[i].id != id
    ensures !Holds(Run(Apply(s, Complete(id)), steps).slots, id)
  {
    CompleteMakesOver(s, id);
    StepInv(s, Complete(id));
    OverLasts(Apply(s, Complete(id)), steps, id);
  }

  /** When no call is in flight nothing is registered: the markers do not leak. */
  lemma NothingLeaks(g: Registry)
    requires RegistryOk(g) && g.calls == map[]
    ensures g.admissions == map[]
  {
    assert forall r: nat :: Sharing(g.calls, r) == {};
  }

  const START := State(Slots.EMPTY, Registry(map[], map[], map[]))

  lemma StartInv()
    ensures Inv(START)
  {
    EmptyOk();
  }

  // ---------------------------------------------------------------------------------------
  // The application object
  // ---------------------------------------------------------------------------------------

  class App {
    const store: SlotStore
    var admissions: map<Name, nat>
    var records: map<nat, Record>
    ghost var calls: map<nat, Call>

    ghost function Registered(): Registry
      reads this
    {
      Registry(admissions, records, calls)
    }

    ghost function View(): State
      reads this, store
    {
      State(store.View(), Registered())
    }

    constructor ()
      ensures View() == START && Inv(View()) && fresh(store)
    {
      store := new SlotStore();
      admissions, records, calls := map[], map[], map[];
      new;
      StartInv();
    }

    /** The registry stays well formed by `BeganOk`. */
    method BeginAdmission(call: nat, id: Name) returns (record: Option<nat>)
      requires Legal(Registered(), Begin(call, id)) && (id in admissions ==> admissions[id] in records)
      modifies this`admissions, this`records, this`calls
      ensures Registered() == Began(old(Registered()), call, id)
      ensures calls == old(calls)[call := Call(id, record)]
    {
      record := None;
      if id != NO_NAME {
        var r := Register(call, id);
        records := records[r := records[r].(calls := records[r].calls + 1)];
        record := Some(r);
      }
      calls := calls[call := Call(id, record)];
    }

    /** The record registered for the request, created when there is none. */
    method Register(call: nat, id: Name) returns (r: nat)
      requires id in admissions ==> admissions[id] in records
      requires call !in records
      modifies this`admissions, this`records
      ensures r == SharedRecord(old(Registered()), call, id)
      ensures admissions == old(admissions)[id := r]
      ensures records == old(records)[r := RecordAt(old(records), r)]
    {
      if id in admissions {
        r := admissions[id];
      } else {
        r := call;
        records := records[r := Record(0, false)];
        admissions := admissions[id := r];
      }
    }

    method EndAdmission(ghost call: nat, id: Name, record: Option<nat>)
      requires RegistryOk(Registered()) && call in calls && calls[call] == Call(id, record)
      modifies this`admissions, this`records, this`calls
      ensures RegistryOk(Registered()) && Registered() == Ended(old(Registered()), call)
    {
      EndedOk(Registered(), call);
      assert IsRegistered(Registered(), calls[call]);
      calls := calls - {call};
      if record.None? { return; }
      var r := record.value;
      records := records[r := records[r].(calls := records[r].calls - 1)];
      if records[r].calls == 0 { admissions := admissions - {id}; }
    }

    /** What happens under the lock that completion takes too. */
    method CommitAdmission(id: Name, record: Option<nat>, a: Attempt) returns (admitted: bool)
      requires SlotsOk(store.View()) && (record.Some? ==> record.value in records)
      modifies store
      ensures SlotsOk(store.View())
      ensures store.View() == Committed(old(store.View()), IsCompleted(Registered(), record), id, a)
      ensures admitted <==> Admits(old(store.View()), IsCompleted(Registered(), record), id, a)
      ensures admitted <==>
                && !(record.Some? && records[record.value].completed)
                && Passes(old(store.View()), id, a)
      ensures Settles(old(store.View()), admitted, id, a, store.View())
    {
      CommitMeans(store.View(), IsCompleted(Registered(), record), id, a);
      if record.Some? && records[record.value].completed { return false; }
      match a.gate {
        case Refused(_, _) => return false;
        case Open(groupId, limit) =>
          if !a.generate { return true; }
          var answer := store.AcquireGroupSlot(GroupSlot(a.scope, groupId), id, limit);
          return Allows(answer);
        case NotGrouped =>
          admitted := CommitOldMode(id, a);
      }
    }

    method CommitOldMode(id: Name, a: Attempt) returns (admitted: bool)
      requires SlotsOk(store.View()) && a.gate.NotGrouped?
      modifies store
      ensures SlotsOk(store.View())
      ensures store.View() == Committed(old(store.View()), false, id, a)
      ensures admitted <==> Admits(old(store.View()), false, id, a)
      ensures admitted <==> a.authorized && (a.generate ==> PassesKey(old(store.View()), a.scope, id, a.limit))
      ensures Settles(old(store.View()), admitted, id, a, store.View())
    {
      CommitMeans(store.View(), false, id, a);
      if !a.generate { return a.authorized; }
      var slot := store.AcquireSlot(a.scope, id, a.limit);
      if !slot.allowed { return false; }
      if !a.authorized {
        if slot.acquired { var _ := store.ReleaseSlot(id); }
        return false;
      }
      return true;
    }

    method CompleteRequest(id: Name)
      requires Inv(View())
      modifies this`records, store
      ensures Inv(View()) && View() == Apply(old(View()), Complete(id))
      ensures Over(View(), id)
    {
      StepInv(View(), Complete(id));
      CompleteMakesOver(View(), id);
      if id in admissions {
        var r := admissions[id];
        records := records[r := records[r].(completed := true)];
      }
      var _ := store.ReleaseSlot(id);
    }
  }
}
