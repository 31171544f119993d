/** What still has to be written to disk: a set of parts of the state, and queues of events. */
module Pending {
  import opened Numbers
  import opened Text
  import opened Quota
  import opened GroupStates

  const MAX_PENDING: nat := 1000

  /** An event is known by the order in which it was reported. */
  datatype Changes = Changes(
    keys: seq<Name>, allKeys: bool, days: seq<DayKey>,
    grouped: bool, labels: bool, plans: bool, routes: bool, credentials: bool,
    audits: seq<nat>, normal: seq<nat>, errors: seq<nat>, cutoff: int)

  const NO_CHANGES := Changes([], false, [], false, false, false, false, false, [], [], [], ZERO_TIME)

  predicate Empty(c: Changes) {
    && !c.grouped && c.days == [] && !c.labels && c.audits == [] && c.keys == [] && !c.allKeys
    && !c.plans && !c.routes && !c.credentials && c.normal == [] && c.errors == [] && IsZero(c.cutoff)
  }

  lemma EmptyIsNoChanges(c: Changes)
    ensures Empty(c) <==> c == NO_CHANGES
  {
  }

  function Newest(events: seq<nat>): seq<nat> {
    if |events| > MAX_PENDING then events[|events| - MAX_PENDING..] else events
  }

  function Bounded(c: Changes): Changes {
    c.(normal := Newest(c.normal), errors := Newest(c.errors))
  }

  /** The names in order of first appearance. */
  function Distinct<T(==)>(names: seq<T>): seq<T> {
    if names == [] then [] else
      var front, last := Distinct(names[..|names| - 1]), names[|names| - 1];
      if last in front then front else front + [last]
  }

  function FirstAt<T(==)>(names: seq<T>, n: T): (i: nat)
    requires n in names
    ensures i < |names| && names[i] == n && n !in names[..i]
  {
    if names[0] == n then 0 else FirstAt(names[1..], n) + 1
  }

  lemma {:induction false} FirstIsFirst<T>(names: seq<T>, more: seq<T>, n: T)
    requires n in names
    ensures FirstAt(names + more, n) == FirstAt(names, n)
  {
    if names[0] != n {
      assert (names + more)[1..] == names[1..] + more;
      FirstIsFirst(names[1..], more, n);
    }
  }

  /** Members stay, once each, in the order of their first appearance. */
  lemma {:induction false} DistinctKeepsMembers<T>(names: seq<T>)
    ensures forall n :: n in Distinct(names) <==> n in names
    ensures forall i, j :: 0 <= i < j < |Distinct(names)| ==>
            FirstAt(names, Distinct(names)[i]) < FirstAt(names, Distinct(names)[j])
  {
    if names != [] {
      var front, last := names[..|names| - 1], names[|names| - 1];
      DistinctKeepsMembers(front);
      assert names == front + [last];
      forall n | n in front ensures FirstAt(names, n) == FirstAt(front, n) { FirstIsFirst(front, [last], n); }
      assert last !in front ==> FirstAt(names, last) == |front|;
    }
  }

  /** Nothing is forgotten but the oldest events beyond the bound. */
  function Merged(c: Changes, next: Changes): Changes {
    if Empty(c) then Bounded(next)
    else if Empty(next) then Bounded(c)
    else Bounded(Joined(c, next))
  }

  function Joined(c: Changes, next: Changes): Changes {
    Changes(
      if c.allKeys || next.allKeys then [] else Distinct(c.keys + next.keys),
      c.allKeys || next.allKeys,
      Distinct(c.days + next.days),
      c.grouped || next.grouped, c.labels || next.labels, c.plans || next.plans,
      c.routes || next.routes, c.credentials || next.credentials,
      c.audits + next.audits, c.normal + next.normal, c.errors + next.errors,
      Max(c.cutoff, next.cutoff))
  }

  /** A change set that announces a part exactly when one side did, and queues exactly the newest events of both. */
  ghost predicate IsUnion(m: Changes, c: Changes, next: Changes) {
    && (m.allKeys <==> c.allKeys || next.allKeys)
    && (!m.allKeys ==> forall k :: k in m.keys <==> k in c.keys || k in next.keys)
    && (forall k :: k in m.days <==> k in c.days || k in next.days)
    && (m.grouped <==> c.grouped || next.grouped) && (m.labels <==> c.labels || next.labels)
    && (m.plans <==> c.plans || next.plans) && (m.routes <==> c.routes || next.routes)
    && (m.credentials <==> c.credentials || next.credentials)
    && m.audits == c.audits + next.audits
    && m.normal == Newest(c.normal + next.normal) && m.errors == Newest(c.errors + next.errors)
    && m.cutoff == Max(c.cutoff, next.cutoff)
  }

  predicate LegalCutoff(c: Changes) {
    IsZero(c.cutoff) || c.cutoff > ZERO_TIME
  }

  lemma NothingAdds(c: Changes)
    requires LegalCutoff(c)
    ensures IsUnion(Bounded(c), NO_CHANGES, c) && IsUnion(Bounded(c), c, NO_CHANGES)
  {
    assert [] + c.audits == c.audits == c.audits + [];
    assert [] + c.normal == c.normal == c.normal + [];
    assert [] + c.errors == c.errors == c.errors + [];
  }

  /** The merge is the union. */
  lemma MergedIsUnion(c: Changes, next: Changes)
    requires LegalCutoff(c) && LegalCutoff(next)
    ensures IsUnion(Merged(c, next), c, next)
  {
    EmptyIsNoChanges(c);
    EmptyIsNoChanges(next);
    if Empty(c) {
      NothingAdds(next);
    } else if Empty(next) {
      NothingAdds(c);
    } else {
      DistinctKeepsMembers(c.keys + next.keys);
      DistinctKeepsMembers(c.days + next.days);
    }
  }

  lemma MergedEmptyIff(c: Changes, next: Changes)
    requires LegalCutoff(c) && LegalCutoff(next)
    ensures Empty(Merged(c, next)) <==> Empty(c) && Empty(next)
  {
    MergedIsUnion(c, next);
    if !Empty(c) && !Empty(next) {
      DistinctKeepsMembers(c.keys + next.keys);
      DistinctKeepsMembers(c.days + next.days);
      if c.keys != [] { assert c.keys[0] in c.keys + next.keys; }
      if c.days != [] { assert c.days[0] in c.days + next.days; }
    }
  }

  // ---------------------------------------------------------------------------------------
  // The loops
  // ---------------------------------------------------------------------------------------

  method MergeNames<T(==)>(a: seq<T>, b: seq<T>) returns (result: seq<T>)
    ensures result == Distinct(a + b)
  {
    var all, seen: set<T>, i := a + b, {}, 0;
    result := [];
    while i < |all|
      invariant 0 <= i <= |all|
      invariant result == Distinct(all[..i])
      invariant forall n :: n in seen <==> n in result
    {
      assert all[..i + 1][..i] == all[..i];
      if all[i] !in seen {
        seen := seen + {all[i]};
        result := result + [all[i]];
      }
      i := i + 1;
    }
    assert all[..i] == all;
  }

  method Merge(c: Changes, next: Changes) returns (result: Changes)
    ensures result == Merged(c, next)
  {
    if Empty(c) { return Bounded(next); }
    if Empty(next) { return Bounded(c); }
    result := Join(c, next);
    result := Bounded(result);
  }

  method Join(c: Changes, next: Changes) returns (result: Changes)
    ensures result == Joined(c, next)
  {
    var days := MergeNames(c.days, next.days);
    result := Changes([], c.allKeys || next.allKeys, days, c.grouped || next.grouped, c.labels || next.labels,
                      c.plans || next.plans, c.routes || next.routes, c.credentials || next.credentials,
                      c.audits + next.audits, c.normal + next.normal, c.errors + next.errors, next.cutoff);
    if result.cutoff < c.cutoff { result := result.(cutoff := c.cutoff); }
    if result.allKeys { return; }
    var keys := MergeNames(c.keys, next.keys);
    result := result.(keys := keys);
  }
}
