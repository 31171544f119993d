/**
 Concurrency slots.

 A table maps each admitted request to what it occupies, and keeps a counter per occupied thing that
 is absent at zero. Keys in the old mode and resource groups have a table each.
 */
module Slots {
  import opened Numbers
  import opened Options
  import opened Text

  datatype Table<K(==)> = Table(slots: map<Name, K>, active: map<K, int>)

  datatype GroupSlot = GroupSlot(scope: Name, groupId: Name)

  datatype Held = Held(keys: Table<Name>, groups: Table<GroupSlot>)

  ghost function Holders<K>(slots: map<Name, K>, k: K): set<Name> {
    set id | id in slots && slots[id] == k
  }

  /** Every counter is the number of requests mapped to it, and is absent at zero. */
  ghost predicate Counted<K(!new)>(t: Table<K>) {
    forall k :: Get(t.active, k) == |Holders(t.slots, k)| && (k in t.active <==> Holders(t.slots, k) != {})
  }

  function Acquired<K>(t: Table<K>, id: Name, k: K): Table<K> {
    Table(t.slots[id := k], t.active[k := Get(t.active, k) + 1])
  }

  function Released<K>(t: Table<K>, id: Name): Table<K> {
    if id !in t.slots then t else
      var k := t.slots[id];
      Table(t.slots - {id}, if Get(t.active, k) <= 1 then t.active - {k} else t.active[k := t.active[k] - 1])
  }

  lemma HoldersAcquired<K>(slots: map<Name, K>, id: Name, k: K, j: K)
    requires id !in slots
    ensures Holders(slots[id := k], j) == if j == k then Holders(slots, j) + {id} else Holders(slots, j)
  {
  }

  lemma HoldersReleased<K>(slots: map<Name, K>, id: Name, j: K)
    requires id in slots
    ensures Holders(slots - {id}, j) == Holders(slots, j) - {id}
    ensures id in Holders(slots, j) <==> slots[id] == j
  {
  }

  lemma AcquiredCounted<K(!new)>(t: Table<K>, id: Name, k: K)
    requires Counted(t) && id !in t.slots
    ensures Counted(Acquired(t, id, k))
  {
    forall j
      ensures Holders(t.slots[id := k], j) == if j == k then Holders(t.slots, j) + {id} else Holders(t.slots, j)
    {
      HoldersAcquired(t.slots, id, k, j);
    }
  }

  lemma ReleasedCounted<K(!new)>(t: Table<K>, id: Name)
    requires Counted(t)
    ensures Counted(Released(t, id))
  {
    if id in t.slots {
      var u, k := Released(t, id), t.slots[id];
      HoldersReleased(t.slots, id, k);
      assert |Holders(t.slots, k) - {id}| == |Holders(t.slots, k)| - 1;
      forall j ensures Get(u.active, j) == |Holders(u.slots, j)| && (j in u.active <==> Holders(u.slots, j) != {}) {
        HoldersReleased(t.slots, id, j);
      }
    }
  }

  /** Giving a slot back undoes taking it. */
  lemma ReleaseUndoesAcquire<K(!new)>(t: Table<K>, id: Name, k: K)
    requires Counted(t) && id !in t.slots
    ensures Released(Acquired(t, id, k), id) == t
  {
    assert t.slots[id := k] - {id} == t.slots;
    assert k in t.active <==> Get(t.active, k) > 0;
  }

  lemma ReleaseIsIdempotent<K(!new)>(t: Table<K>, id: Name)
    ensures Released(Released(t, id), id) == Released(t, id)
    ensures id !in Released(t, id).slots
    ensures forall other :: other in t.slots && other != id ==>
            other in Released(t, id).slots && Released(t, id).slots[other] == t.slots[other]
  {
  }

  /** The counters add up to the number of slots held. */
  lemma {:induction false} CountersAddUp<K(!new)>(t: Table<K>)
    requires Counted(t)
    ensures Sum(t.active) == |t.slots|
    decreases |t.slots|
  {
    if id :| id in t.slots {
      var u, k := Released(t, id), t.slots[id];
      ReleasedCounted(t, id);
      CountersAddUp(u);
      assert |t.slots - {id}| == |t.slots| - 1;
      HoldersReleased(t.slots, id, k);
      assert Holders(t.slots, k) != {} && k in t.active;
      if Get(t.active, k) <= 1 {
        SumPeel(t.active, k);
      } else {
        SumUpdate(t.active, k, t.active[k] - 1);
      }
    } else {
      forall k ensures k !in t.active { assert Holders(t.slots, k) == {}; }
      SumEmpty(t.active);
    }
  }

  // ---------------------------------------------------------------------------------------
  // The operations
  // ---------------------------------------------------------------------------------------

  datatype SlotDecision = SlotDecision(allowed: bool, acquired: bool, limit: int, active: int)

  ghost predicate SlotsOk(s: Held) {
    && Counted(s.keys) && Counted(s.groups)
    && (forall id :: id in s.keys.slots ==> id !in s.groups.slots)
    && NO_NAME !in s.keys.slots && NO_NAME !in s.groups.slots
  }

  predicate Holds(s: Held, id: Name) {
    id in s.keys.slots || id in s.groups.slots
  }

  /** A limit of zero is no limit; a request without an identifier cannot be limited safely. */
  function KeyDecision(s: Held, scope: Name, id: Name, limit: int): SlotDecision {
    var active := Get(s.keys.active, scope);
    if scope == NO_NAME then SlotDecision(true, false, 0, 0)
    else if id in s.groups.slots then SlotDecision(false, false, 0, 0)
    else if id == NO_NAME then SlotDecision(limit <= 0, false, limit, active)
    else if id in s.keys.slots then SlotDecision(s.keys.slots[id] == scope, false, limit, active)
    else if limit > 0 && active >= limit then SlotDecision(false, false, limit, active)
    else SlotDecision(true, true, limit, active + 1)
  }

  function KeyAcquired(s: Held, scope: Name, id: Name, limit: int): Held {
    if KeyDecision(s, scope, id, limit).acquired then s.(keys := Acquired(s.keys, id, scope)) else s
  }

  datatype GroupAnswer = Granted | AlreadyGranted | NoRequestId | OtherOwner | OtherMode | Full

  predicate Allows(a: GroupAnswer) {
    a == Granted || a == AlreadyGranted
  }

  function GroupDecision(s: Held, slot: GroupSlot, id: Name, limit: Option<int>): GroupAnswer {
    if id == NO_NAME then NoRequestId
    else if id in s.groups.slots then if s.groups.slots[id] == slot then AlreadyGranted else OtherOwner
    else if id in s.keys.slots then OtherMode
    else if limit.Some? && Get(s.groups.active, slot) >= limit.value then Full
    else Granted
  }

  function GroupAcquired(s: Held, slot: GroupSlot, id: Name, limit: Option<int>): Held {
    if GroupDecision(s, slot, id, limit) == Granted then s.(groups := Acquired(s.groups, id, slot)) else s
  }

  function Freed(s: Held, id: Name): Held {
    if id == NO_NAME then s
    else if id in s.keys.slots then s.(keys := Released(s.keys, id))
    else s.(groups := Released(s.groups, id))
  }

  /** The limit is the one in force at that moment; it may differ from call to call. */
  datatype Op =
    | AcquireKey(scope: Name, id: Name, limit: int)
    | AcquireGroup(slot: GroupSlot, id: Name, groupLimit: Option<int>)
    | Release(id: Name)

  function After(s: Held, op: Op): Held {
    match op
    case AcquireKey(scope, id, limit) => KeyAcquired(s, scope, id, limit)
    case AcquireGroup(slot, id, limit) => GroupAcquired(s, slot, id, limit)
    case Release(id) => Freed(s, id)
  }

  const EMPTY := Held(Table(map[], map[]), Table(map[], map[]))

  lemma EmptyOk()
    ensures SlotsOk(EMPTY)
  {
    assert forall k: Name :: Holders(EMPTY.keys.slots, k) == {};
    assert forall k: GroupSlot :: Holders(EMPTY.groups.slots, k) == {};
  }

  lemma AfterOk(s: Held, op: Op)
    requires SlotsOk(s)
    ensures SlotsOk(After(s, op))
  {
    match op
    case AcquireKey(scope, id, limit) =>
      if KeyDecision(s, scope, id, limit).acquired { AcquiredCounted(s.keys, id, scope); }
    case AcquireGroup(slot, id, limit) =>
      if GroupDecision(s, slot, id, limit) == Granted { AcquiredCounted(s.groups, id, slot); }
    case Release(id) =>
      ReleasedCounted(s.keys, id);
      ReleasedCounted(s.groups, id);
  }

  /** A new acquisition leaves the count within the limit in force, however limits changed before. */
  lemma AcquisitionRespectsLimit(s: Held, scope: Name, slot: GroupSlot, id: Name, limit: int, groupLimit: Option<int>)
    requires SlotsOk(s)
    ensures KeyDecision(s, scope, id, limit).acquired ==>
              && id !in Holders(s.keys.slots, scope)
              && id in Holders(KeyAcquired(s, scope, id, limit).keys.slots, scope)
              && (limit > 0 ==> |Holders(KeyAcquired(s, scope, id, limit).keys.slots, scope)| <= limit)
              && KeyDecision(s, scope, id, limit).active ==
                   |Holders(KeyAcquired(s, scope, id, limit).keys.slots, scope)|
    ensures GroupDecision(s, slot, id, groupLimit) == Granted ==>
              && id in Holders(GroupAcquired(s, slot, id, groupLimit).groups.slots, slot)
              && (groupLimit.Some? ==>
                    |Holders(GroupAcquired(s, slot, id, groupLimit).groups.slots, slot)| <= groupLimit.value)
  {
    AfterOk(s, AcquireKey(scope, id, limit));
    AfterOk(s, AcquireGroup(slot, id, groupLimit));
  }

  /** A request that holds no slot is turned away by concurrency exactly when the limit is reached. */
  lemma RefusedExactlyWhenFull(s: Held, scope: Name, slot: GroupSlot, id: Name, limit: int, groupLimit: Option<int>)
    requires SlotsOk(s) && id != NO_NAME && !Holds(s, id)
    ensures scope != NO_NAME ==>
            (!KeyDecision(s, scope, id, limit).allowed <==> 0 < limit <= |Holders(s.keys.slots, scope)|)
    ensures !Allows(GroupDecision(s, slot, id, groupLimit)) <==>
            groupLimit.Some? && groupLimit.value <= |Holders(s.groups.slots, slot)|
  {
    assert Get(s.keys.active, scope) == |Holders(s.keys.slots, scope)|;
    assert Get(s.groups.active, slot) == |Holders(s.groups.slots, slot)|;
  }

  ghost predicate KeyRoom(s: Held, scope: Name, limit: int) {
    limit <= 0 || |Holders(s.keys.slots, scope)| < limit
  }

  ghost predicate GroupRoom(s: Held, slot: GroupSlot, limit: Option<int>) {
    limit.None? || |Holders(s.groups.slots, slot)| < limit.value
  }

  /** The request takes a slot of the key: it has an identifier, holds nothing yet and finds room. */
  ghost predicate TakesKeySlot(s: Held, scope: Name, id: Name, limit: int) {
    scope != NO_NAME && id != NO_NAME && !Holds(s, id) && KeyRoom(s, scope, limit)
  }

  ghost predicate TakesGroupSlot(s: Held, slot: GroupSlot, id: Name, limit: Option<int>) {
    id != NO_NAME && !Holds(s, id) && GroupRoom(s, slot, limit)
  }

  /**
   A request passes the key's concurrency when nothing can be attributed to a key, when it holds this slot
   already, when it takes one, or when it has no identifier and the key no limit.
   */
  ghost predicate PassesKey(s: Held, scope: Name, id: Name, limit: int) {
    || scope == NO_NAME
    || (id == NO_NAME && limit <= 0)
    || (id in s.keys.slots && s.keys.slots[id] == scope)
    || TakesKeySlot(s, scope, id, limit)
  }

  ghost predicate PassesGroup(s: Held, slot: GroupSlot, id: Name, limit: Option<int>) {
    (id in s.groups.slots && s.groups.slots[id] == slot) || TakesGroupSlot(s, slot, id, limit)
  }

  /** A table after a reservation: the request is among the holders, and everybody else stays. */
  function SlotTaken<K>(slots: map<Name, K>, taken: bool, id: Name, k: K): map<Name, K> {
    if taken then slots[id := k] else slots
  }

  /** The answer and the effect of a reservation, by counting holders; holders determine the counters. */
  lemma KeyAnswerIff(s: Held, scope: Name, id: Name, limit: int)
    requires SlotsOk(s)
    ensures KeyDecision(s, scope, id, limit).allowed <==> PassesKey(s, scope, id, limit)
    ensures KeyDecision(s, scope, id, limit).acquired <==> TakesKeySlot(s, scope, id, limit)
    ensures var t := KeyAcquired(s, scope, id, limit);
            && t.keys.slots == SlotTaken(s.keys.slots, TakesKeySlot(s, scope, id, limit), id, scope)
            && t.groups == s.groups
  {
    assert Get(s.keys.active, scope) == |Holders(s.keys.slots, scope)|;
  }

  lemma GroupAnswerIff(s: Held, slot: GroupSlot, id: Name, limit: Option<int>)
    requires SlotsOk(s)
    ensures Allows(GroupDecision(s, slot, id, limit)) <==> PassesGroup(s, slot, id, limit)
    ensures GroupDecision(s, slot, id, limit) == Granted <==> TakesGroupSlot(s, slot, id, limit)
    ensures var t := GroupAcquired(s, slot, id, limit);
            && t.groups.slots == SlotTaken(s.groups.slots, TakesGroupSlot(s, slot, id, limit), id, slot)
            && t.keys == s.keys
  {
    assert Get(s.groups.active, slot) == |Holders(s.groups.slots, slot)|;
  }

  /** Counters that count the same holders are the same. */
  lemma CountersAreUnique<K(!new)>(t: Table<K>, u: Table<K>)
    requires Counted(t) && Counted(u) && t.slots == u.slots
    ensures t == u
  {
    forall k ensures k in t.active <==> k in u.active { assert k in t.active <==> Holders(t.slots, k) != {}; }
    forall k | k in t.active ensures t.active[k] == u.active[k] {
      assert Get(t.active, k) == |Holders(t.slots, k)| == Get(u.active, k);
    }
  }

  /** The same operation, perhaps under another limit. */
  predicate SameRequest(a: Op, b: Op) {
    match (a, b)
    case (AcquireKey(scope, id, _), AcquireKey(scope', id', _)) => scope == scope' && id == id'
    case (AcquireGroup(slot, id, _), AcquireGroup(slot', id', _)) => slot == slot' && id == id'
    case (Release(id), Release(id')) => id == id'
    case _ => false
  }

  /** Admitting the same request again, or releasing it again, changes nothing. */
  lemma DuplicatesAreHarmless(s: Held, op: Op, again: Op)
    requires SlotsOk(s)
    requires SameRequest(op, again)
    requires op.AcquireKey? ==> KeyDecision(s, op.scope, op.id, op.limit).acquired
    requires op.AcquireGroup? ==> GroupDecision(s, op.slot, op.id, op.groupLimit) == Granted
    ensures After(After(s, op), again) == After(s, op)
    ensures again.AcquireKey? ==>
            var d := KeyDecision(After(s, op), again.scope, again.id, again.limit); d.allowed && !d.acquired
    ensures again.AcquireGroup? ==>
            GroupDecision(After(s, op), again.slot, again.id, again.groupLimit) == AlreadyGranted
  {
    if op.Release? {
      ReleaseIsIdempotent(s.keys, op.id);
      ReleaseIsIdempotent(s.groups, op.id);
    }
  }

  ghost function Run(s: Held, ops: seq<Op>): Held
    decreases |ops|
  {
    if ops == [] then s else Run(After(s, ops[0]), ops[1..])
  }

  /** In every reachable state the counters are the holders, and no request is in both tables. */
  lemma {:induction false} RunOk(s: Held, ops: seq<Op>)
    requires SlotsOk(s)
    ensures SlotsOk(Run(s, ops))
    decreases |ops|
  {
    if ops != [] {
      AfterOk(s, ops[0]);
      RunOk(After(s, ops[0]), ops[1..]);
    }
  }

  // ---------------------------------------------------------------------------------------
  // The store's four maps
  // ---------------------------------------------------------------------------------------

  class SlotStore {
    var activeRequests: map<Name, Name>
    var activeByScope: map<Name, int>
    var groupSlots: map<Name, GroupSlot>
    var groupActive: map<GroupSlot, int>

    ghost function View(): Held
      reads this
    {
      Held(Table(activeRequests, activeByScope), Table(groupSlots, groupActive))
    }

    constructor ()
      ensures View() == EMPTY && SlotsOk(View())
    {
      activeRequests, activeByScope, groupSlots, groupActive := map[], map[], map[], map[];
      new;
      EmptyOk();
    }

    method AcquireSlot(scope: Name, id: Name, keyLimit: int) returns (decision: SlotDecision)
      requires SlotsOk(View())
      modifies this
      ensures SlotsOk(View())
      ensures View() == KeyAcquired(old(View()), scope, id, keyLimit)
      ensures decision == KeyDecision(old(View()), scope, id, keyLimit)
      ensures decision.allowed <==> PassesKey(old(View()), scope, id, keyLimit)
      ensures decision.acquired <==> TakesKeySlot(old(View()), scope, id, keyLimit)
      ensures activeRequests == SlotTaken(old(activeRequests), decision.acquired, id, scope)
      ensures groupSlots == old(groupSlots)
    {
      KeyAnswerIff(View(), scope, id, keyLimit);
      AfterOk(View(), AcquireKey(scope, id, keyLimit));
      decision := SlotDecision(true, false, 0, 0);
      if scope == NO_NAME { return; }
      if id in groupSlots {
        decision := decision.(allowed := false);
        return;
      }
      decision := decision.(limit := keyLimit, active := Get(activeByScope, scope));
      if id == NO_NAME {
        decision := decision.(allowed := decision.limit <= 0);
        return;
      }
      if id in activeRequests {
        decision := decision.(allowed := activeRequests[id] == scope);
        return;
      }
      if decision.limit > 0 && decision.active >= decision.limit {
        decision := decision.(allowed := false);
        return;
      }
      activeRequests := activeRequests[id := scope];
      activeByScope := activeByScope[scope := decision.active + 1];
      decision := decision.(active := decision.active + 1, acquired := true);
    }

    method AcquireGroupSlot(slot: GroupSlot, id: Name, limit: Option<int>) returns (answer: GroupAnswer)
      requires SlotsOk(View())
      modifies this
      ensures SlotsOk(View())
      ensures View() == GroupAcquired(old(View()), slot, id, limit)
      ensures answer == GroupDecision(old(View()), slot, id, limit)
      ensures Allows(answer) <==> PassesGroup(old(View()), slot, id, limit)
      ensures groupSlots == SlotTaken(old(groupSlots), TakesGroupSlot(old(View()), slot, id, limit), id, slot)
      ensures activeRequests == old(activeRequests)
    {
      GroupAnswerIff(View(), slot, id, limit);
      AfterOk(View(), AcquireGroup(slot, id, limit));
      if id == NO_NAME { return NoRequestId; }
      if id in groupSlots { return if groupSlots[id] == slot then AlreadyGranted else OtherOwner; }
      if id in activeRequests { return OtherMode; }
      var count := Get(groupActive, slot);
      if limit.Some? && count >= limit.value { return Full; }
      groupSlots := groupSlots[id := slot];
      groupActive := groupActive[slot := count + 1];
      return Granted;
    }

    method ReleaseGroupSlot(id: Name) returns (released: bool)
      modifies this
      ensures View() == old(View()).(groups := Released(old(View()).groups, id))
      ensures released <==> id in old(groupSlots)
    {
      if id !in groupSlots { return false; }
      var slot := groupSlots[id];
      groupSlots := groupSlots - {id};
      if Get(groupActive, slot) <= 1 {
        groupActive := groupActive - {slot};
      } else {
        groupActive := groupActive[slot := groupActive[slot] - 1];
      }
      return true;
    }

    method ReleaseSlot(id: Name) returns (released: bool)
      requires SlotsOk(View())
      modifies this
      ensures SlotsOk(View())
      ensures View() == Freed(old(View()), id)
      ensures released <==> Holds(old(View()), id)
      ensures !Holds(View(), id)
      ensures activeRequests == old(activeRequests) - {id} && groupSlots == old(groupSlots) - {id}
    {
      AfterOk(View(), Release(id));
      if id == NO_NAME { return false; }
      if id !in activeRequests {
        released := ReleaseGroupSlot(id);
        return;
      }
      var scope := activeRequests[id];
      activeRequests := activeRequests - {id};
      var active := Get(activeByScope, scope);
      if active > 1 {
        activeByScope := activeByScope[scope := active - 1];
      } else {
        activeByScope := activeByScope - {scope};
      }
      return true;
    }
  }
}
