/**
 Write-behind persistence.

 Usage and settlement change memory at once and are written when a save succeeds; configuration
 edits reach memory only with their save. A save writes the announced parts of the state, all of
 them or nothing. Settings without rules of their own are opaque.
 */
module Persistence {
  import opened Text
  import Quota
  import opened Pending
  import GroupModels
  import GroupStates
  import GroupLedger
  import Plans

  /** Settings that nothing here depends on: they are stored and loaded. */
  type Blob = int

  /** A key: its quota and life cycle, and its other settings. */
  datatype KeyEntry = KeyEntry(record: Plans.KeyRecord, settings: Blob)

  datatype GroupedConfig = GroupedConfig(
    groups: map<Name, GroupModels.Group>, plans: map<Name, GroupStates.GroupPlan>,
    bindings: map<Name, GroupStates.Binding>)

  datatype Memory = Memory(
    keys: map<Name, KeyEntry>, days: map<GroupStates.DayKey, GroupLedger.Day>,
    grouped: GroupedConfig, labels: Blob, plans: seq<Quota.Plan>, routes: Blob, credentials: Blob)

  datatype Disk = Disk(memory: Memory, audits: seq<nat>, normal: seq<nat>, errors: seq<nat>)

  function Upserted<K, V>(disk: map<K, V>, memory: map<K, V>, names: seq<K>): map<K, V> {
    disk + map n | n in memory && n in names :: memory[n]
  }

  function SavedMemory(d: Memory, m: Memory, c: Changes): Memory {
    Memory(if c.allKeys then d.keys + m.keys else Upserted(d.keys, m.keys, c.keys),
           Upserted(d.days, m.days, c.days),
           if c.grouped then m.grouped else d.grouped,
           if c.labels then m.labels else d.labels,
           if c.plans then m.plans else d.plans,
           if c.routes then m.routes else d.routes,
           if c.credentials then m.credentials else d.credentials)
  }

  function Saved(d: Disk, m: Memory, c: Changes): Disk {
    Disk(SavedMemory(d.memory, m, c), d.audits + c.audits, d.normal + c.normal, d.errors + c.errors)
  }

  // ---------------------------------------------------------------------------------------
  // Coverage
  // ---------------------------------------------------------------------------------------

  predicate SameAt<K, V(==)>(a: map<K, V>, b: map<K, V>, n: K) {
    (n in a <==> n in b) && (n in a && n in b ==> a[n] == b[n])
  }

  ghost predicate CoversKeys(c: Changes, m: Memory, d: Memory) {
    forall n :: c.allKeys || n in c.keys || SameAt(m.keys, d.keys, n)
  }

  ghost predicate CoversDays(c: Changes, m: Memory, d: Memory) {
    forall n :: n in c.days || SameAt(m.days, d.days, n)
  }

  predicate CoversParts(c: Changes, m: Memory, d: Memory) {
    && (c.grouped || m.grouped == d.grouped) && (c.labels || m.labels == d.labels)
    && (c.plans || m.plans == d.plans) && (c.routes || m.routes == d.routes)
    && (c.credentials || m.credentials == d.credentials)
  }

  /** Wherever two states differ, the changes announce it. */
  ghost predicate Covers(c: Changes, m: Memory, d: Memory) {
    CoversKeys(c, m, d) && CoversDays(c, m, d) && CoversParts(c, m, d)
  }

  /** Keys and day ledgers are added and changed, never removed. */
  predicate Grows(d: Memory, m: Memory) {
    d.keys.Keys <= m.keys.Keys && d.days.Keys <= m.days.Keys
  }

  lemma CoveredSaveEquals(c: Changes, m: Memory, d: Memory)
    requires Covers(c, m, d) && Grows(d, m)
    ensures SavedMemory(d, m, c) == m
  {
    var s := SavedMemory(d, m, c);
    forall n ensures SameAt(s.keys, m.keys, n) {
      assert c.allKeys || n in c.keys || SameAt(m.keys, d.keys, n);
    }
    forall n ensures SameAt(s.days, m.days, n) {
      assert n in c.days || SameAt(m.days, d.days, n);
    }
    SameEverywhere(s.keys, m.keys);
    SameEverywhere(s.days, m.days);
  }

  lemma SameEverywhere<K(!new), V>(a: map<K, V>, b: map<K, V>)
    requires forall n :: SameAt(a, b, n)
    ensures a == b
  {
    forall n ensures n in a <==> n in b { assert SameAt(a, b, n); }
    forall n | n in a ensures a[n] == b[n] { assert SameAt(a, b, n); }
  }

  lemma MergeCovers(dirty: Changes, c: Changes, d: Memory, m: Memory, next: Memory)
    requires Covers(dirty, m, d) && Covers(c, next, m) && LegalCutoff(dirty) && LegalCutoff(c)
    ensures Covers(Merged(dirty, c), next, d)
  {
    MergedIsUnion(dirty, c);
    var u := Merged(dirty, c);
    forall n ensures u.allKeys || n in u.keys || SameAt(next.keys, d.keys, n) {
      assert dirty.allKeys || n in dirty.keys || SameAt(m.keys, d.keys, n);
      assert c.allKeys || n in c.keys || SameAt(next.keys, m.keys, n);
    }
    forall n ensures n in u.days || SameAt(next.days, d.days, n) {
      assert n in dirty.days || SameAt(m.days, d.days, n);
      assert n in c.days || SameAt(next.days, m.days, n);
    }
  }

  lemma EmptyCoversEqual(c: Changes, m: Memory, d: Memory)
    requires Empty(c) && Covers(c, m, d)
    ensures m == d
  {
    forall n ensures SameAt(m.keys, d.keys, n) { assert n !in c.keys; }
    forall n ensures SameAt(m.days, d.days, n) { assert n !in c.days; }
    SameEverywhere(m.keys, d.keys);
    SameEverywhere(m.days, d.days);
  }

  lemma EqualIsCovered(c: Changes, m: Memory)
    ensures Covers(c, m, m)
  {
  }

  // ---------------------------------------------------------------------------------------
  // Events
  // ---------------------------------------------------------------------------------------

  /** The events reported from one number up to another. */
  function Range(from: nat, to: nat): (r: seq<nat>)
    requires from <= to
    ensures |r| == to - from && forall i :: 0 <= i < |r| ==> r[i] == from + i
  {
    seq(to - from, i requires 0 <= i => from + i)
  }

  /** How many events of a kind were reported, and how many when the last save succeeded. */
  datatype Count = Count(reported: nat, settled: nat)

  /** The queue is exactly the newest thousand of the events reported since the last save. */
  ghost predicate QueueIs(queue: seq<nat>, n: Count) {
    n.settled <= n.reported && queue == Newest(Range(n.settled, n.reported))
  }

  /** On disk every event is at most once, in order. */
  ghost predicate Ascending(events: seq<nat>, below: nat) {
    && (forall i :: 0 <= i < |events| ==> events[i] < below)
    && (forall i, j :: 0 <= i < j < |events| ==> events[i] < events[j])
  }

  lemma QueueGrows(queue: seq<nat>, n: Count, more: seq<nat>)
    requires QueueIs(queue, n) && more == Range(n.reported, n.reported + |more|)
    ensures QueueIs(Newest(queue + more), n.(reported := n.reported + |more|))
  {
    var a := Range(n.settled, n.reported);
    assert a + more == Range(n.settled, n.reported + |more|);
    NewestOfNewest(a, more);
  }

  lemma NewestOfNewest(a: seq<nat>, b: seq<nat>)
    ensures Newest(Newest(a) + b) == Newest(a + b)
  {
    if |a| > MAX_PENDING { NewestOfSum(a, b, |a| - MAX_PENDING); }
  }

  lemma NewestOfSum(a: seq<nat>, b: seq<nat>, k: nat)
    requires |a| == MAX_PENDING + k
    ensures Newest(a[k..] + b) == Newest(a + b)
  {
    DropOfSum(a, b, k);
    DropTwice(a + b, k, |b|);
    NewestIs(a[k..] + b, |b|);
    NewestIs(a + b, k + |b|);
  }

  lemma NewestIs(events: seq<nat>, k: nat)
    requires |events| == MAX_PENDING + k
    ensures Newest(events) == events[k..]
  {
  }

  lemma DropOfSum(a: seq<nat>, b: seq<nat>, k: nat)
    requires k <= |a|
    ensures a[k..] + b == (a + b)[k..]
  {
  }

  lemma DropTwice(a: seq<nat>, k: nat, j: nat)
    requires k + j <= |a|
    ensures a[k..][j..] == a[k + j..]
  {
  }

  lemma QueuePersists(disk: seq<nat>, queue: seq<nat>, n: Count)
    requires Ascending(disk, n.settled) && QueueIs(queue, n)
    ensures Ascending(disk + queue, n.reported)
    ensures QueueIs([], Count(n.reported, n.reported))
  {
  }

  // ---------------------------------------------------------------------------------------
  // Steps
  // ---------------------------------------------------------------------------------------

  datatype State = State(memory: Memory, disk: Disk, dirty: Changes, normal: Count, errors: Count, audits: nat)

  /** Whether the save of a step would succeed is not for the store to know. */
  datatype Step =
    | Update(next: Memory, changes: Changes, saves: bool)
    | Edit(next: Memory, changes: Changes, saves: bool, refused: bool)
    | Retry(saves: bool)

  /** New events are the next ones in order; an update writes no audits, an edit no request events. */
  ghost predicate Honest(s: State, next: Memory, c: Changes) {
    && Covers(c, next, s.memory) && Grows(s.memory, next) && LegalCutoff(c)
    && c.normal == Range(s.normal.reported, s.normal.reported + |c.normal|)
    && c.errors == Range(s.errors.reported, s.errors.reported + |c.errors|)
    && c.audits == Range(s.audits, s.audits + |c.audits|)
  }

  ghost predicate Legal(s: State, step: Step) {
    match step
    case Update(next, c, _) => Honest(s, next, c) && c.audits == []
    case Edit(next, c, _, _) => Honest(s, next, c) && c.normal == [] && c.errors == []
    case Retry(_) => true
  }

  function Reported(s: State, c: Changes): State {
    s.(normal := s.normal.(reported := s.normal.reported + |c.normal|),
       errors := s.errors.(reported := s.errors.reported + |c.errors|),
       audits := s.audits + |c.audits|)
  }

  /** A successful save: everything announced is on disk and nothing is pending. */
  function Flushed(s: State, c: Changes): State {
    s.(disk := Saved(s.disk, s.memory, c), dirty := NO_CHANGES,
       normal := s.normal.(settled := s.normal.reported), errors := s.errors.(settled := s.errors.reported))
  }

  function AfterUpdate(s: State, next: Memory, c: Changes, saves: bool): State {
    var t, all := Reported(s, c).(memory := next), Merged(s.dirty, c);
    if Empty(all) then t
    else if saves then Flushed(t, all)
    else t.(dirty := all)
  }

  function AfterEdit(s: State, next: Memory, c: Changes, saves: bool, refused: bool): State {
    var t, all := Reported(s, c).(memory := next), Merged(s.dirty, c);
    if refused || (!Empty(all) && !saves) then s
    else if Empty(all) then t
    else Flushed(t, all)
  }

  function AfterRetry(s: State, saves: bool): State {
    if Empty(s.dirty) || !saves then s else Flushed(s, s.dirty)
  }

  function Apply(s: State, step: Step): State {
    match step
    case Update(next, c, saves) => AfterUpdate(s, next, c, saves)
    case Edit(next, c, saves, refused) => AfterEdit(s, next, c, saves, refused)
    case Retry(saves) => AfterRetry(s, saves)
  }

  ghost predicate Inv(s: State) {
    && Covers(s.dirty, s.memory, s.disk.memory) && Grows(s.disk.memory, s.memory) && LegalCutoff(s.dirty)
    && s.dirty.audits == [] && s.disk.audits == Range(0, s.audits)
    && QueueIs(s.dirty.normal, s.normal) && Ascending(s.disk.normal, s.normal.settled)
    && QueueIs(s.dirty.errors, s.errors) && Ascending(s.disk.errors, s.errors.settled)
  }

  lemma FlushedInv(s: State, c: Changes)
    requires Covers(c, s.memory, s.disk.memory) && Grows(s.disk.memory, s.memory)
    requires s.disk.audits + c.audits == Range(0, s.audits)
    requires QueueIs(c.normal, s.normal) && Ascending(s.disk.normal, s.normal.settled)
    requires QueueIs(c.errors, s.errors) && Ascending(s.disk.errors, s.errors.settled)
    ensures Inv(Flushed(s, c))
    ensures Flushed(s, c).disk.memory == s.memory
  {
    CoveredSaveEquals(c, s.memory, s.disk.memory);
    QueuePersists(s.disk.normal, c.normal, s.normal);
    QueuePersists(s.disk.errors, c.errors, s.errors);
    EqualIsCovered(NO_CHANGES, s.memory);
  }

  /** What is pending once a step's changes are merged in. */
  lemma MergedPending(s: State, next: Memory, c: Changes)
    requires Inv(s) && Honest(s, next, c)
    ensures var t, all := Reported(s, c).(memory := next), Merged(s.dirty, c);
            && Covers(all, next, s.disk.memory) && Grows(s.disk.memory, next) && LegalCutoff(all)
            && all.audits == c.audits && s.disk.audits + c.audits == Range(0, t.audits)
            && QueueIs(all.normal, t.normal) && QueueIs(all.errors, t.errors)
  {
    MergeCovers(s.dirty, c, s.disk.memory, s.memory, next);
    MergedQueues(s, next, c);
  }

  lemma MergedQueues(s: State, next: Memory, c: Changes)
    requires Inv(s) && Honest(s, next, c)
    ensures var t, all := Reported(s, c), Merged(s.dirty, c);
            && LegalCutoff(all)
            && all.audits == c.audits && s.disk.audits + c.audits == Range(0, t.audits)
            && QueueIs(all.normal, t.normal) && QueueIs(all.errors, t.errors)
  {
    QueueGrows(s.dirty.normal, s.normal, c.normal);
    QueueGrows(s.dirty.errors, s.errors, c.errors);
    AuditsGrow(s.disk.audits, s.audits, c.audits);
    MergedQueuesAre(s.dirty, c);
  }

  lemma MergedQueuesAre(dirty: Changes, c: Changes)
    requires LegalCutoff(dirty) && LegalCutoff(c) && dirty.audits == []
    ensures var m := Merged(dirty, c);
            && LegalCutoff(m) && m.audits == c.audits
            && m.normal == Newest(dirty.normal + c.normal) && m.errors == Newest(dirty.errors + c.errors)
  {
    MergedIsUnion(dirty, c);
    assert dirty.audits + c.audits == c.audits;
  }

  lemma AuditsGrow(disk: seq<nat>, n: nat, more: seq<nat>)
    requires disk == Range(0, n) && more == Range(n, n + |more|)
    ensures disk + more == Range(0, n + |more|)
  {
  }

  lemma UpdateInv(s: State, next: Memory, c: Changes, saves: bool)
    requires Inv(s) && Honest(s, next, c) && c.audits == []
    ensures Inv(AfterUpdate(s, next, c, saves))
    ensures saves ==> AfterUpdate(s, next, c, saves).disk.memory == next
  {
    var t, all := Reported(s, c).(memory := next), Merged(s.dirty, c);
    MergedPending(s, next, c);
    if Empty(all) {
      MergedEmptyIff(s.dirty, c);
      EmptyIsNoChanges(all);
      EmptyIsNoChanges(s.dirty);
      EmptyCoversEqual(all, next, s.disk.memory);
    } else if saves {
      FlushedInv(t, all);
    }
  }

  lemma EditInv(s: State, next: Memory, c: Changes, saves: bool, refused: bool)
    requires Inv(s) && Honest(s, next, c) && c.normal == [] && c.errors == []
    ensures Inv(AfterEdit(s, next, c, saves, refused))
    ensures saves && !refused ==>
            AfterEdit(s, next, c, saves, refused).disk.memory == AfterEdit(s, next, c, saves, refused).memory == next
  {
    var t, all := Reported(s, c).(memory := next), Merged(s.dirty, c);
    MergedPending(s, next, c);
    if refused || (!Empty(all) && !saves) {
    } else if Empty(all) {
      MergedEmptyIff(s.dirty, c);
      EmptyIsNoChanges(all);
      EmptyIsNoChanges(s.dirty);
      EmptyCoversEqual(all, next, s.disk.memory);
    } else {
      FlushedInv(t, all);
    }
  }

  lemma RetryInv(s: State, saves: bool)
    requires Inv(s)
    ensures Inv(AfterRetry(s, saves))
    ensures saves ==> AfterRetry(s, saves).disk.memory == s.memory
  {
    if Empty(s.dirty) {
      EmptyCoversEqual(s.dirty, s.memory, s.disk.memory);
    } else if saves {
      FlushedInv(s, s.dirty);
    }
  }

  lemma StepInv(s: State, step: Step)
    requires Inv(s) && Legal(s, step)
    ensures Inv(Apply(s, step))
  {
    match step
    case Update(next, c, saves) => UpdateInv(s, next, c, saves);
    case Edit(next, c, saves, refused) => EditInv(s, next, c, saves, refused);
    case Retry(saves) => RetryInv(s, saves);
  }

  /** A step whose save succeeds leaves nothing for a crash to lose. */
  lemma OneSaveIsEnough(s: State, step: Step)
    requires Inv(s) && Legal(s, step) && step.saves && (step.Edit? ==> !step.refused)
    ensures Apply(s, step).disk.memory == Apply(s, step).memory
  {
    match step
    case Update(next, c, saves) => UpdateInv(s, next, c, saves);
    case Edit(next, c, saves, refused) => EditInv(s, next, c, saves, refused);
    case Retry(saves) => RetryInv(s, saves);
  }

  /** What is on disk is what was there, or what memory is now: never a mixture. */
  lemma DiskIsOldOrNew(s: State, step: Step)
    requires Inv(s) && Legal(s, step)
    ensures Apply(s, step).disk.memory == s.disk.memory || Apply(s, step).disk.memory == Apply(s, step).memory
  {
    if step.saves && (step.Edit? ==> !step.refused) { OneSaveIsEnough(s, step); }
  }

  /** Whether a step changes memory: an update always does, an edit when it is accepted and needs no failing save. */
  predicate TakesEffect(s: State, step: Step) {
    match step
    case Update(_, _, _) => true
    case Edit(_, c, saves, refused) => !refused && (saves || (Empty(s.dirty) && Empty(c)))
    case Retry(_) => false
  }

  /** Whether a step's save succeeds: there is something to write, and writing works. */
  predicate SavesNow(s: State, step: Step) {
    match step
    case Update(_, c, saves) => saves && !(Empty(s.dirty) && Empty(c))
    case Edit(_, c, saves, refused) => !refused && saves && !(Empty(s.dirty) && Empty(c))
    case Retry(saves) => saves && !Empty(s.dirty)
  }

  /** The events of one kind that a step reports. */
  function NormalOf(step: Step): seq<nat> {
    if step.Update? then step.changes.normal else []
  }

  function ErrorsOf(step: Step): seq<nat> {
    if step.Update? then step.changes.errors else []
  }

  /** What a step does to memory: usage counts at once, whether it is saved or not. */
  lemma MemoryAfter(s: State, step: Step)
    requires Inv(s) && Legal(s, step)
    ensures Apply(s, step).memory == if TakesEffect(s, step) then step.next else s.memory
  {
    if !step.Retry? { MergedEmptyIff(s.dirty, step.changes); }
  }

  /**
   What a step does to the disk: a save that succeeds writes all of memory and the queues, the newest thousand
   of what was pending and of what is new; otherwise the disk stays as it is.
   */
  lemma DiskAfter(s: State, step: Step)
    requires Inv(s) && Legal(s, step)
    ensures var t := Apply(s, step);
            if SavesNow(s, step) then
              && t.disk.memory == t.memory && Empty(t.dirty)
              && t.disk.normal == s.disk.normal + Newest(s.dirty.normal + NormalOf(step))
              && t.disk.errors == s.disk.errors + Newest(s.dirty.errors + ErrorsOf(step))
            else t.disk == s.disk
  {
    var c := if step.Retry? then NO_CHANGES else step.changes;
    MergedEmptyIff(s.dirty, c);
    MergedQueuesAre(s.dirty, c);
    if SavesNow(s, step) {
      OneSaveIsEnough(s, step);
      QueuesAreNewest(s);
    }
  }

  lemma QueuesAreNewest(s: State)
    requires Inv(s)
    ensures Newest(s.dirty.normal + []) == s.dirty.normal && Newest(s.dirty.errors + []) == s.dirty.errors
  {
    assert s.dirty.normal + [] == s.dirty.normal && s.dirty.errors + [] == s.dirty.errors;
  }

  /** A configuration edit that fails, for whatever reason, changes memory, disk and pending changes not at all. */
  lemma FailedEditChangesNothing(s: State, next: Memory, c: Changes, saves: bool, refused: bool)
    requires Inv(s) && Honest(s, next, c)
    requires refused || (!saves && (next != s.memory || !Empty(s.dirty)))
    ensures Apply(s, Edit(next, c, saves, refused)) == s
  {
    if !refused {
      MergedEmptyIff(s.dirty, c);
      if Empty(c) { EmptyCoversEqual(c, next, s.memory); }
    }
  }

  ghost predicate LegalRun(s: State, steps: seq<Step>)
    decreases |steps|
  {
    steps == [] || (Legal(s, steps[0]) && LegalRun(Apply(s, steps[0]), steps[1..]))
  }

  ghost function Run(s: State, steps: seq<Step>): State
    requires LegalRun(s, steps)
    decreases |steps|
  {
    if steps == [] then s else Run(Apply(s, steps[0]), steps[1..])
  }

  /**
   Over any run, with saves failing at will: wherever memory and disk differ it is pending; the queue of
   either kind is exactly the newest thousand unsaved events; no event is on disk twice, and every
   audit of an edit that took effect is there once.
   */
  lemma {:induction false} NothingIsForgotten(s: State, steps: seq<Step>)
    requires Inv(s) && LegalRun(s, steps)
    ensures var t := Run(s, steps);
            && Inv(t)
            && Covers(t.dirty, t.memory, t.disk.memory)
            && t.dirty.normal == Newest(Range(t.normal.settled, t.normal.reported))
            && t.dirty.errors == Newest(Range(t.errors.settled, t.errors.reported))
            && Ascending(t.disk.normal, t.normal.settled) && Ascending(t.disk.errors, t.errors.settled)
            && t.disk.audits == Range(0, t.audits)
    decreases |steps|
  {
    if steps != [] {
      StepInv(s, steps[0]);
      NothingIsForgotten(Apply(s, steps[0]), steps[1..]);
    }
  }

  /** The contents a run should come to: those of every update, and of exactly the edits that took effect. */
  ghost predicate ReplaysTo(s: State, m: Memory, steps: seq<Step>, result: Memory)
    requires LegalRun(s, steps)
    decreases |steps|
  {
    if steps == [] then m == result
    else ReplaysTo(Apply(s, steps[0]), if TakesEffect(s, steps[0]) then steps[0].next else m, steps[1..], result)
  }

  /** Memory is the fold of the updates and of the edits that took effect, whatever saves fail. */
  lemma {:induction false} MemoryIsReplay(s: State, steps: seq<Step>)
    requires Inv(s) && LegalRun(s, steps)
    ensures ReplaysTo(s, s.memory, steps, Run(s, steps).memory)
    decreases |steps|
  {
    if steps != [] {
      MemoryAfter(s, steps[0]);
      StepInv(s, steps[0]);
      MemoryIsReplay(Apply(s, steps[0]), steps[1..]);
    }
  }

  /** At most a thousand events of either kind are ever pending together. */
  ghost predicate NeverOverflows(s: State, steps: seq<Step>)
    requires LegalRun(s, steps)
    decreases |steps|
  {
    steps != [] ==>
      && s.normal.reported + |NormalOf(steps[0])| - s.normal.settled <= MAX_PENDING
      && s.errors.reported + |ErrorsOf(steps[0])| - s.errors.settled <= MAX_PENDING
      && NeverOverflows(Apply(s, steps[0]), steps[1..])
  }

  /** Every event up to the last save is on disk. */
  ghost predicate EventsStored(s: State) {
    s.disk.normal == Range(0, s.normal.settled) && s.disk.errors == Range(0, s.errors.settled)
  }

  lemma RangesJoin(a: nat, b: nat, c: nat)
    requires a <= b <= c
    ensures Range(a, b) + Range(b, c) == Range(a, c)
  {
  }

  lemma StoresOne(disk: seq<nat>, queue: seq<nat>, n: Count, more: seq<nat>)
    requires n.settled <= n.reported && disk == Range(0, n.settled) && QueueIs(queue, n)
    requires more == Range(n.reported, n.reported + |more|) && n.reported + |more| - n.settled <= MAX_PENDING
    ensures disk + Newest(queue + more) == Range(0, n.reported + |more|)
  {
    RangesJoin(n.settled, n.reported, n.reported + |more|);
    RangesJoin(0, n.settled, n.reported + |more|);
  }

  lemma CountsAfter(s: State, step: Step)
    requires Inv(s) && Legal(s, step)
    ensures var t := Apply(s, step);
            && t.normal.reported == s.normal.reported + |NormalOf(step)|
            && t.errors.reported == s.errors.reported + |ErrorsOf(step)|
            && t.normal.settled == (if SavesNow(s, step) then t.normal.reported else s.normal.settled)
            && t.errors.settled == (if SavesNow(s, step) then t.errors.reported else s.errors.settled)
  {
    var c := if step.Retry? then NO_CHANGES else step.changes;
    MergedEmptyIff(s.dirty, c);
  }

  lemma EventsStep(s: State, step: Step)
    requires Inv(s) && Legal(s, step) && EventsStored(s)
    requires s.normal.reported + |NormalOf(step)| - s.normal.settled <= MAX_PENDING
    requires s.errors.reported + |ErrorsOf(step)| - s.errors.settled <= MAX_PENDING
    ensures EventsStored(Apply(s, step))
  {
    DiskAfter(s, step);
    CountsAfter(s, step);
    StoresOne(s.disk.normal, s.dirty.normal, s.normal, NormalOf(step));
    StoresOne(s.disk.errors, s.dirty.errors, s.errors, ErrorsOf(step));
  }

  /** While at most a thousand events are pending at a time, a save puts every reported event on disk, once. */
  lemma {:induction false} EveryEventIsStored(s: State, steps: seq<Step>)
    requires Inv(s) && LegalRun(s, steps) && NeverOverflows(s, steps) && EventsStored(s)
    ensures EventsStored(Run(s, steps))
    decreases |steps|
  {
    if steps != [] {
      EventsStep(s, steps[0]);
      StepInv(s, steps[0]);
      EveryEventIsStored(Apply(s, steps[0]), steps[1..]);
    }
  }

  lemma WasMemoryLater(s: State, steps: seq<Step>, k: nat, m: Memory)
    requires steps != [] && Legal(s, steps[0]) && WasMemory(Apply(s, steps[0]), steps[1..], k, m)
    ensures WasMemory(s, steps, k + 1, m)
  {
    var first := steps[..k + 1];
    assert first[0] == steps[0] && first[1..] == steps[1..][..k];
  }

  lemma WasMemoryFirst(s: State, steps: seq<Step>)
    ensures WasMemory(s, steps, 0, s.memory)
  {
    assert steps[..0] == [];
  }

  /** What a crash loses: the disk is the memory of some earlier moment of the run, or what it was at first. */
  lemma {:induction false} DiskIsAnEarlierMemory(s: State, steps: seq<Step>)
    requires Inv(s) && LegalRun(s, steps)
    ensures Run(s, steps).disk.memory == s.disk.memory || exists k :: WasMemory(s, steps, k, Run(s, steps).disk.memory)
    decreases |steps|
  {
    if steps != [] {
      var t, m := Apply(s, steps[0]), Run(s, steps).disk.memory;
      StepInv(s, steps[0]);
      DiskIsAnEarlierMemory(t, steps[1..]);
      if k: nat :| WasMemory(t, steps[1..], k, m) {
        WasMemoryLater(s, steps, k, m);
      } else {
        DiskIsOldOrNew(s, steps[0]);
        WasMemoryFirst(t, steps[1..]);
      }
    }
  }

  /** The contents of memory after the first steps of a run. */
  ghost predicate WasMemory(s: State, steps: seq<Step>, k: nat, m: Memory) {
    k <= |steps| && LegalRun(s, steps[..k]) && Run(s, steps[..k]).memory == m
  }

  // ---------------------------------------------------------------------------------------
  // The store
  // ---------------------------------------------------------------------------------------

  class Repository {
    var contents: Disk

    constructor (d: Disk)
      ensures contents == d
    {
      contents := d;
    }

    /** One transaction: all of the changes, or nothing. */
    method Save(m: Memory, c: Changes, succeeds: bool) returns (ok: bool)
      modifies this
      ensures ok == succeeds
      ensures contents == if ok then Saved(old(contents), m, c) else old(contents)
    {
      if succeeds { contents := Saved(contents, m, c); }
      return succeeds;
    }
  }

  class Store {
    var memory: Memory
    var dirty: Changes
    const repo: Repository
    ghost var normal: Count
    ghost var errors: Count
    ghost var audits: nat

    ghost function View(): State
      reads this, repo
    {
      State(memory, repo.contents, dirty, normal, errors, audits)
    }

    constructor (m: Memory)
      ensures Inv(View()) && memory == m && fresh(repo)
    {
      memory, dirty := m, NO_CHANGES;
      repo := new Repository(Disk(m, [], [], []));
      normal, errors, audits := Count(0, 0), Count(0, 0), 0;
      new;
      EqualIsCovered(NO_CHANGES, m);
    }

    ghost method Report(c: Changes)
      modifies this`normal, this`errors, this`audits
      ensures View() == Reported(old(View()), c)
    {
      normal := normal.(reported := normal.reported + |c.normal|);
      errors := errors.(reported := errors.reported + |c.errors|);
      audits := audits + |c.audits|;
    }

    ghost method Settle()
      modifies this`normal, this`errors
      ensures View() == old(View()).(normal := old(normal).(settled := old(normal).reported),
                                     errors := old(errors).(settled := old(errors).reported))
    {
      normal := normal.(settled := normal.reported);
      errors := errors.(settled := errors.reported);
    }

    /** `next` and `c` are what the update makes of the live state and the changes it announces. */
    method UpdateResult(next: Memory, c: Changes, saves: bool)
      modifies this, repo
      ensures View() == AfterUpdate(old(View()), next, c, saves)
      ensures memory == next
      ensures !saves ==> repo.contents == old(repo.contents)
    {
      memory := next;
      Report(c);
      var changes := Merge(dirty, c);
      if !Empty(changes) {
        var ok := repo.Save(memory, changes, saves);
        if ok {
          dirty := NO_CHANGES;
          Settle();
        } else {
          dirty := changes;
        }
      }
    }

    /** The edit works on a copy, which becomes the state only once it is saved. */
    method EditConfiguration(next: Memory, c: Changes, saves: bool, refused: bool) returns (ok: bool)
      modifies this, repo
      ensures View() == AfterEdit(old(View()), next, c, saves, refused)
      ensures !ok ==> View() == old(View())
      ensures ok <==> !refused && (saves || Empty(Merged(old(dirty), c)))
      ensures ok ==> memory == next
    {
      if refused { return false; }
      var changes := Merge(dirty, c);
      if !Empty(changes) {
        ok := repo.Save(next, changes, saves);
        if !ok { return; }
        dirty := NO_CHANGES;
        Report(c);
        Settle();
      } else {
        Report(c);
      }
      memory := next;
      return true;
    }

    /** Before new spending of a grouped key, pending changes must reach the disk. */
    method RetryPending(saves: bool) returns (ok: bool)
      modifies this, repo
      ensures View() == AfterRetry(old(View()), saves)
      ensures ok <==> Empty(old(dirty)) || saves
      ensures ok ==> Empty(dirty)
      ensures memory == old(memory) && (!ok ==> repo.contents == old(repo.contents))
    {
      if Empty(dirty) { return true; }
      ok := repo.Save(memory, dirty, saves);
      if ok {
        dirty := NO_CHANGES;
        Settle();
      }
    }
  }
}
