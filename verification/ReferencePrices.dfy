/**
 Reference prices: cached lookups beside a single refresh.

 Two locks make the steps atomic. A reader holds the storage lock, shared, from entering to
 leaving; a refresh holds it exclusively from writing the catalogue to publishing it. The small
 state (metadata, sequence, cache) has a lock of its own, so a cache hit can fall between a write
 and its publication.
 */
module ReferencePrices {
  import opened Options
  import opened Text
  import opened Quota
  import opened PriceMatching
  import opened PriceCache
  import Usage

  const HOUR: int := 3_600 * SECOND
  const MINUTE: int := 60 * SECOND

  datatype Meta = Meta(
    version: nat, usable: bool, content: Name, fetchedAt: int, lastAttempt: int, retryAfter: int, failures: nat)

  datatype Phase = Idle | Downloading(previous: Meta) | Writing(next: Meta, changed: bool) | Committed(next: Meta)

  datatype Progress = Entered | Checked | Queried(found: Option<Reference>)

  datatype Reader = Reader(keys: seq<Name>, progress: Progress)

  /**
   The repository (`disk`, `catalogue`), the shared small state, the readers inside, and for the
   specification: the catalogue of every version, the key list each cache entry was made for, and the
   sequence numbers at which a download was started.
   */
  datatype State = State(
    disk: Meta, catalogue: seq<Reference>,
    meta: Meta, sequence: nat, phase: Phase, cache: Cache,
    readers: map<nat, Reader>,
    history: map<nat, seq<Reference>>, origins: map<Name, seq<Name>>, started: seq<nat>)

  datatype Match = Match(found: Option<Reference>, meta: Meta, sequence: nat)

  datatype Step =
    | Hit(keys: seq<Name>)
    | Enter(reader: nat, keys: seq<Name>)
    | Check(reader: nat)
    | Query(reader: nat)
    | Insert(reader: nat)
    | Leave(reader: nat)
    | Start(observed: nat, force: bool, found: bool, now: int)
    | Write(prices: seq<Reference>, content: Name, now: int)
    | Publish
    | Finish
    | Fail(now: int, stored: bool)

  ghost predicate Legal(s: State, step: Step) {
    match step
    case Hit(keys) => KeyList(keys) && Join(keys) in s.cache.entries
    case Enter(r, keys) => KeyList(keys) && r !in s.readers && !s.phase.Writing?
    case Check(r) => r in s.readers && s.readers[r].progress.Entered?
    case Query(r) => r in s.readers && s.readers[r].progress.Checked?
    case Insert(r) => r in s.readers && s.readers[r].progress.Queried? && KeyList(s.readers[r].keys)
    case Leave(r) => r in s.readers
    case Start(_, _, _, _) => true
    case Write(prices, _, _) => s.phase.Downloading? && s.readers == map[] && prices != []
    case Publish => s.phase.Writing?
    case Finish => s.phase.Committed?
    case Fail(_, _) => s.phase.Downloading?
  }

  // ---------------------------------------------------------------------------------------
  // Metadata
  // ---------------------------------------------------------------------------------------

  function NeedsRefresh(m: Meta, found: bool, now: int): bool {
    !m.usable || IsZero(m.fetchedAt) || now - m.fetchedAt > 24 * HOUR || (!found && now - m.fetchedAt > HOUR)
  }

  /** There is no usable catalogue, it is over a day old, or over an hour old and it lacks the price. */
  predicate Due(m: Meta, found: bool, now: int) {
    || !m.usable || IsZero(m.fetchedAt)
    || now - m.fetchedAt > (if found then 86_400_000_000_000 else 3_600_000_000_000)
  }

  function PowerOfTwo(n: nat): int {
    if n == 0 then 1 else 2 * PowerOfTwo(n - 1)
  }

  /** One minute, doubled with each failure in a row, up to an hour. */
  function Backoff(failures: nat): int
    requires failures >= 1
  {
    var d := MINUTE * PowerOfTwo(if failures - 1 < 6 then failures - 1 else 6);
    if d < HOUR then d else HOUR
  }

  lemma BackoffGrows(f: nat, g: nat)
    requires 1 <= f <= g
    ensures MINUTE <= Backoff(f) <= Backoff(g) <= HOUR
  {
    PowersGrow(if f - 1 < 6 then f - 1 else 6, if g - 1 < 6 then g - 1 else 6);
  }

  /** A minute after the first failure, and twice the delay after each further one, up to an hour. */
  lemma BackoffDoubles(f: nat)
    requires f >= 1
    ensures Backoff(1) == 60_000_000_000
    ensures Backoff(f + 1) == if 2 * Backoff(f) < 3_600_000_000_000 then 2 * Backoff(f) else 3_600_000_000_000
  {
    assert PowerOfTwo(0) == 1 && PowerOfTwo(5) == 32 && PowerOfTwo(6) == 64;
    if f > 6 { assert Backoff(f) == Backoff(f + 1); }
  }

  lemma {:induction false} PowersGrow(m: nat, n: nat)
    requires m <= n
    ensures 1 <= PowerOfTwo(m) <= PowerOfTwo(n)
    decreases n
  {
    if m < n { PowersGrow(m, n - 1); } else if n > 0 { PowersGrow(n - 1, n - 1); }
  }

  function Failed(m: Meta, now: int): Meta {
    m.(lastAttempt := now, failures := m.failures + 1, retryAfter := now + Backoff(m.failures + 1))
  }

  /** The metadata of a successful download; the same content keeps its version. */
  function Fetched(m: Meta, content: Name, now: int): Meta {
    var next := if Unchanged(m, content) then m else m.(version := m.version + 1, content := content, usable := true);
    next.(fetchedAt := now, lastAttempt := now, failures := 0, retryAfter := ZERO_TIME)
  }

  predicate Unchanged(m: Meta, content: Name) {
    m.usable && m.content == content
  }

  predicate SameCatalogue(a: Meta, b: Meta) {
    a.version == b.version && a.usable == b.usable
  }

  // ---------------------------------------------------------------------------------------
  // Steps
  // ---------------------------------------------------------------------------------------

  /** Whether a refresh call starts a download, rather than joining one or coming too late or too early. */
  predicate Starts(s: State, observed: nat, force: bool, found: bool, now: int) {
    s.phase.Idle? && observed == s.sequence && (force || (NeedsRefresh(s.meta, found, now) && now >= s.meta.retryAfter))
  }

  function Written(s: State, prices: seq<Reference>, content: Name, now: int): State {
    var next, changed := Fetched(s.disk, content, now), !Unchanged(s.disk, content);
    s.(phase := Writing(next, changed), disk := next,
       catalogue := if changed then prices else s.catalogue,
       history := if changed then s.history[next.version := prices] else s.history)
  }

  function Published(s: State): State
    requires s.phase.Writing?
  {
    s.(phase := Committed(s.phase.next), meta := s.phase.next,
       cache := if s.phase.changed then NO_ENTRIES else s.cache)
  }

  function Apply(s: State, step: Step): State
    requires Legal(s, step)
  {
    match step
    case Hit(keys) => s.(cache := Touched(s.cache, Join(keys)))
    case Enter(r, keys) => s.(readers := s.readers[r := Reader(keys, Entered)])
    case Check(r) =>
      if s.meta.usable then s.(readers := s.readers[r := s.readers[r].(progress := Checked)])
      else s.(readers := s.readers - {r})
    case Query(r) =>
      var keys := s.readers[r].keys;
      s.(readers := s.readers[r := Reader(keys, Queried(MatchKeys(Candidates(s.catalogue, keys), keys)))])
    case Insert(r) =>
      var keys := s.readers[r].keys;
      s.(readers := s.readers - {r},
         cache := Inserted(s.cache, Entry(Join(keys), s.readers[r].progress.found)),
         origins := s.origins[Join(keys) := keys])
    case Leave(r) => s.(readers := s.readers - {r})
    case Start(observed, force, found, now) =>
      if Starts(s, observed, force, found, now)
      then s.(phase := Downloading(s.meta), started := s.started + [s.sequence]) else s
    case Write(prices, content, now) => Written(s, prices, content, now)
    case Publish => Published(s)
    case Finish => s.(phase := Idle, meta := s.phase.next, sequence := s.sequence + 1)
    case Fail(now, stored) =>
      var next := Failed(s.phase.previous, now);
      s.(phase := Idle, meta := next, sequence := s.sequence + 1, disk := if stored then next else s.disk)
  }

  /** What a lookup returns when the step ends it, and for which keys. */
  function Answer(s: State, step: Step): Option<(seq<Name>, Match)>
    requires Legal(s, step)
  {
    match step
    case Hit(keys) => Some((keys, Match(s.cache.entries[Join(keys)].found, s.meta, s.sequence)))
    case Check(r) => if s.meta.usable then None else Some((s.readers[r].keys, Match(None, s.meta, s.sequence)))
    case Insert(r) => Some((s.readers[r].keys, Match(s.readers[r].progress.found, s.meta, s.sequence)))
    case _ => None
  }

  /** The answer is the match in the catalogue of the version it names; without a usable one it is none. */
  predicate Exact(s: State, keys: seq<Name>, m: Match) {
    if m.meta.usable then m.meta.version in s.history && m.found == MatchKeys(s.history[m.meta.version], keys)
    else m.found == None
  }

  // ---------------------------------------------------------------------------------------
  // The invariant
  // ---------------------------------------------------------------------------------------

  /** The key lists that are asked for, and no two of them share a cache entry. */
  ghost predicate Injective(asked: iset<seq<Name>>) {
    && (forall ks :: ks in asked ==> KeyList(ks))
    && (forall ks, ls :: ks in asked && ls in asked && Join(ks) == Join(ls) ==> ks == ls)
  }

  ghost predicate VersionsOk(s: State) {
    && (s.disk.usable ==> s.disk.version in s.history && s.history[s.disk.version] == s.catalogue)
    && (s.meta.usable ==> s.meta.version in s.history)
    && (forall v :: v in s.history ==> v <= s.disk.version)
    && match s.phase
       case Idle => SameCatalogue(s.meta, s.disk)
       case Downloading(previous) => previous == s.meta && SameCatalogue(s.meta, s.disk)
       case Writing(next, changed) =>
         next == s.disk && s.readers == map[] && (!changed ==> SameCatalogue(s.meta, s.disk))
       case Committed(next) => next == s.meta == s.disk
  }

  ghost predicate EntryOk(s: State, key: Name, asked: iset<seq<Name>>)
    requires key in s.cache.entries
  {
    && s.meta.usable && s.meta.version in s.history
    && key in s.origins && s.origins[key] in asked && KeyList(s.origins[key]) && Join(s.origins[key]) == key
    && s.cache.entries[key].found == MatchKeys(s.history[s.meta.version], s.origins[key])
  }

  ghost predicate EntriesOk(s: State, asked: iset<seq<Name>>) {
    forall k :: k in s.cache.entries ==> EntryOk(s, k, asked)
  }

  ghost predicate ReaderOk(s: State, r: Reader, asked: iset<seq<Name>>) {
    && r.keys in asked
    && (!r.progress.Entered? ==> s.meta.usable)
    && (r.progress.Queried? ==> r.progress.found == MatchKeys(s.catalogue, r.keys))
  }

  ghost predicate ReadersOk(s: State, asked: iset<seq<Name>>) {
    forall r :: r in s.readers ==> ReaderOk(s, s.readers[r], asked)
  }

  /** Downloads start at strictly increasing sequence numbers; the running one has the current number. */
  ghost predicate StartsOk(s: State) {
    && (forall i, j :: 0 <= i < j < |s.started| ==> s.started[i] < s.started[j])
    && (forall i :: 0 <= i < |s.started| ==>
         s.started[i] <= s.sequence && (s.phase.Idle? ==> s.started[i] < s.sequence))
  }

  ghost predicate Inv(s: State, asked: iset<seq<Name>>) {
    CacheOk(s.cache) && VersionsOk(s) && EntriesOk(s, asked) && ReadersOk(s, asked) && StartsOk(s)
  }

  ghost predicate Asks(step: Step, asked: iset<seq<Name>>) {
    match step case Hit(keys) => keys in asked case Enter(_, keys) => keys in asked case _ => true
  }

  lemma CacheKept(s: State, step: Step)
    requires CacheOk(s.cache) && Legal(s, step)
    ensures CacheOk(Apply(s, step).cache)
  {
    match step
    case Hit(keys) => TouchedOk(s.cache, Join(keys));
    case Insert(r) => InsertedOk(s.cache, Entry(Join(s.readers[r].keys), s.readers[r].progress.found));
    case _ =>
  }

  lemma VersionsKept(s: State, step: Step)
    requires VersionsOk(s) && Legal(s, step)
    ensures VersionsOk(Apply(s, step))
  {
  }

  lemma StartsKept(s: State, step: Step)
    requires StartsOk(s) && Legal(s, step)
    ensures StartsOk(Apply(s, step))
  {
  }

  /** While anyone reads, memory and repository agree on the catalogue. */
  lemma ReadersSeeCurrent(s: State, r: nat)
    requires VersionsOk(s) && r in s.readers
    ensures SameCatalogue(s.meta, s.disk)
    ensures s.meta.usable ==> s.meta.version in s.history && s.history[s.meta.version] == s.catalogue
  {
  }

  lemma ReadersKept(s: State, step: Step, asked: iset<seq<Name>>)
    requires Injective(asked) && Inv(s, asked) && Legal(s, step) && Asks(step, asked)
    ensures ReadersOk(Apply(s, step), asked)
  {
    var t := Apply(s, step);
    forall r | r in t.readers ensures ReaderOk(t, t.readers[r], asked) {
      if r in s.readers {
        assert ReaderOk(s, s.readers[r], asked);
        if step.Query? && step.reader == r {
          CandidatesSufficeForAll(s.catalogue, s.readers[r].keys, s.readers[r].keys);
        }
      }
    }
  }

  lemma InsertKeepsEntries(s: State, r: nat, asked: iset<seq<Name>>)
    requires Injective(asked) && Inv(s, asked) && Legal(s, Insert(r))
    ensures EntriesOk(Apply(s, Insert(r)), asked)
  {
    var t, keys, found := Apply(s, Insert(r)), s.readers[r].keys, s.readers[r].progress.found;
    assert ReaderOk(s, s.readers[r], asked);
    ReadersSeeCurrent(s, r);
    InsertedEntries(s.cache, Entry(Join(keys), found));
    forall k | k in t.cache.entries ensures EntryOk(t, k, asked) {
      if k != Join(keys) { assert EntryOk(s, k, asked); }
    }
  }

  lemma EntriesKept(s: State, step: Step, asked: iset<seq<Name>>)
    requires Injective(asked) && Inv(s, asked) && Legal(s, step) && Asks(step, asked)
    ensures EntriesOk(Apply(s, step), asked)
  {
    var t := Apply(s, step);
    if step.Insert? {
      InsertKeepsEntries(s, step.reader, asked);
    } else {
      if step.Hit? { TouchedOk(s.cache, Join(step.keys)); }
      forall k | k in t.cache.entries ensures EntryOk(t, k, asked) {
        assert EntryOk(s, k, asked);
      }
    }
  }

  lemma StepInv(s: State, step: Step, asked: iset<seq<Name>>)
    requires Injective(asked) && Inv(s, asked) && Legal(s, step) && Asks(step, asked)
    ensures Inv(Apply(s, step), asked)
  {
    CacheKept(s, step);
    VersionsKept(s, step);
    StartsKept(s, step);
    ReadersKept(s, step, asked);
    EntriesKept(s, step, asked);
  }

  /** A version names one catalogue for good. */
  lemma HistoryIsStable(s: State, step: Step, v: nat)
    requires VersionsOk(s) && Legal(s, step) && v in s.history
    ensures v in Apply(s, step).history && Apply(s, step).history[v] == s.history[v]
  {
  }

  lemma AnswerIsExact(s: State, step: Step, asked: iset<seq<Name>>)
    requires Injective(asked) && Inv(s, asked) && Legal(s, step) && Asks(step, asked)
    ensures Answer(s, step).Some? ==>
            Exact(s, Answer(s, step).value.0, Answer(s, step).value.1) && Answer(s, step).value.1.meta == s.meta
  {
    match step
    case Hit(keys) => assert EntryOk(s, Join(keys), asked);
    case Insert(r) =>
      assert ReaderOk(s, s.readers[r], asked);
      ReadersSeeCurrent(s, r);
    case _ =>
  }

  // ---------------------------------------------------------------------------------------
  // Runs
  // ---------------------------------------------------------------------------------------

  ghost predicate LegalRun(s: State, steps: seq<Step>)
    decreases |steps|
  {
    steps == [] || (Legal(s, steps[0]) && LegalRun(Apply(s, steps[0]), steps[1..]))
  }

  ghost function Run(s: State, steps: seq<Step>): State
    requires LegalRun(s, steps)
    decreases |steps|
  {
    if steps == [] then s else Run(Apply(s, steps[0]), steps[1..])
  }

  ghost predicate AsksOnly(steps: seq<Step>, asked: iset<seq<Name>>) {
    forall i :: 0 <= i < |steps| ==> Asks(steps[i], asked)
  }

  ghost predicate AllExact(s: State, steps: seq<Step>)
    requires LegalRun(s, steps)
    decreases |steps|
  {
    steps == [] ||
    (&& (Answer(s, steps[0]).Some? ==> Exact(s, Answer(s, steps[0]).value.0, Answer(s, steps[0]).value.1))
     && AllExact(Apply(s, steps[0]), steps[1..]))
  }

  /**
   In every interleaving the cache stays bounded and in step with its list, and no sequence number starts two
   downloads.
   */
  lemma {:induction false} RunInv(s: State, steps: seq<Step>, asked: iset<seq<Name>>)
    requires Injective(asked) && Inv(s, asked) && LegalRun(s, steps) && AsksOnly(steps, asked)
    ensures Inv(Run(s, steps), asked)
    decreases |steps|
  {
    if steps != [] {
      StepInv(s, steps[0], asked);
      RunInv(Apply(s, steps[0]), steps[1..], asked);
    }
  }

  lemma {:induction false} LookupsAreExact(s: State, steps: seq<Step>, asked: iset<seq<Name>>)
    requires Injective(asked) && Inv(s, asked) && LegalRun(s, steps) && AsksOnly(steps, asked)
    ensures AllExact(s, steps)
    decreases |steps|
  {
    if steps != [] {
      AnswerIsExact(s, steps[0], asked);
      StepInv(s, steps[0], asked);
      LookupsAreExact(Apply(s, steps[0]), steps[1..], asked);
    }
  }

  const NEVER := Meta(0, false, NO_NAME, ZERO_TIME, ZERO_TIME, ZERO_TIME, 0)

  const START := State(NEVER, [], NEVER, 0, Idle, NO_ENTRIES, map[], map[], map[], [])

  lemma StartInv(asked: iset<seq<Name>>)
    ensures Inv(START, asked)
  {
  }

  // ---------------------------------------------------------------------------------------
  // When lookups are exact
  // ---------------------------------------------------------------------------------------

  /** Whoever asks for these lists, in whatever order and beside whatever refreshes, gets exact answers. */
  ghost predicate AlwaysExact(asked: iset<seq<Name>>) {
    forall steps: seq<Step> :: LegalRun(START, steps) && AsksOnly(steps, asked) ==> AllExact(START, steps)
  }

  lemma Preceded(s: State, step: Step, rest: seq<Step>)
    requires Legal(s, step) && LegalRun(Apply(s, step), rest) && !AllExact(Apply(s, step), rest)
    ensures LegalRun(s, [step] + rest) && !AllExact(s, [step] + rest)
  {
    assert ([step] + rest)[1..] == rest;
  }

  const RATES := Usage.PriceRates(Usage.Rates(1.0, 1.0, None, None), None)

  function Entries(ks: seq<Name>, ls: seq<Name>): seq<Reference>
    requires ks != [] && ls != []
  {
    [Reference(Name("p"), ks[0], true, Some(RATES)), Reference(Name("p"), ls[0], true, Some(RATES))]
  }

  lemma EntriesTellApart(ks: seq<Name>, ls: seq<Name>)
    requires KeyList(ks) && KeyList(ls) && ks != [] && ls != [] && ks[0] != ls[0]
    ensures var ps := Entries(ks, ls); MatchKeys(ps, ks) == Some(ps[0]) && MatchKeys(ps, ls) == Some(ps[1])
  {
    var ps := Entries(ks, ls);
    assert Keyed(ps[0], ks[0]) && Keyed(ps[1], ls[0]) && !Keyed(ps[0], ls[0]) && !Keyed(ps[1], ks[0]);
    assert ps[0] in ps && ps[1] in ps;
    assert ps[1..] == [ps[1]];
    assert FirstRelevant(ps[1..], ls[0], true) == Some(ps[1]);
    assert HasCanonical(ps, ks[0]) && HasCanonical(ps, ls[0]);
  }

  /** One list is looked up, and the other is answered from its cache entry. */
  function Collision(ks: seq<Name>, ls: seq<Name>): seq<Step>
    requires ks != [] && ls != []
  {
    [Start(0, true, true, 0)] + ([Write(Entries(ks, ls), Name("content"), 0)] + ([Publish] + ([Finish] +
    ([Enter(0, ks)] + ([Check(0)] + ([Query(0)] + ([Insert(0)] + [Hit(ls)])))))))
  }

  /** The state in which the catalogue is published and nobody reads. */
  function Ready(ps: seq<Reference>, cache: Cache, readers: map<nat, Reader>, origins: map<Name, seq<Name>>): State {
    var meta := Fetched(NEVER, Name("content"), 0);
    State(meta, ps, meta, 1, Idle, cache, readers, map[1 := ps], origins, [0])
  }

  lemma CollisionEnd(ps: seq<Reference>, ks: seq<Name>, ls: seq<Name>)
    requires KeyList(ks) && KeyList(ls) && Join(ks) == Join(ls) && MatchKeys(ps, ks) != MatchKeys(ps, ls)
    ensures var s := Ready(ps, NO_ENTRIES, map[0 := Reader(ks, Queried(MatchKeys(ps, ks)))], map[]);
            LegalRun(s, [Insert(0)] + [Hit(ls)]) && !AllExact(s, [Insert(0)] + [Hit(ls)])
  {
    var s := Ready(ps, NO_ENTRIES, map[0 := Reader(ks, Queried(MatchKeys(ps, ks)))], map[]);
    var t := Apply(s, Insert(0));
    assert !AllExact(t, [Hit(ls)]);
    Preceded(s, Insert(0), [Hit(ls)]);
  }

  lemma CollisionQuery(ps: seq<Reference>, ks: seq<Name>, ls: seq<Name>)
    requires KeyList(ks) && KeyList(ls) && Join(ks) == Join(ls) && MatchKeys(ps, ks) != MatchKeys(ps, ls)
    ensures var s := Ready(ps, NO_ENTRIES, map[0 := Reader(ks, Checked)], map[]);
            var tail := [Query(0)] + ([Insert(0)] + [Hit(ls)]);
            LegalRun(s, tail) && !AllExact(s, tail)
  {
    CandidatesSufficeForAll(ps, ks, ks);
    CollisionEnd(ps, ks, ls);
    var s := Ready(ps, NO_ENTRIES, map[0 := Reader(ks, Checked)], map[]);
    assert Apply(s, Query(0)) == Ready(ps, NO_ENTRIES, map[0 := Reader(ks, Queried(MatchKeys(ps, ks)))], map[]);
    Preceded(s, Query(0), [Insert(0)] + [Hit(ls)]);
  }

  lemma CollisionTail(ps: seq<Reference>, ks: seq<Name>, tail: seq<Step>)
    requires KeyList(ks)
    requires var s := Ready(ps, NO_ENTRIES, map[0 := Reader(ks, Checked)], map[]);
             LegalRun(s, tail) && !AllExact(s, tail)
    ensures var s, steps := Ready(ps, NO_ENTRIES, map[], map[]), [Enter(0, ks)] + ([Check(0)] + tail);
            LegalRun(s, steps) && !AllExact(s, steps)
  {
    var s0, s1 := Ready(ps, NO_ENTRIES, map[], map[]), Ready(ps, NO_ENTRIES, map[0 := Reader(ks, Entered)], map[]);
    assert Apply(s1, Check(0)) == Ready(ps, NO_ENTRIES, map[0 := Reader(ks, Checked)], map[]);
    Preceded(s1, Check(0), tail);
    assert Apply(s0, Enter(0, ks)) == s1;
    Preceded(s0, Enter(0, ks), [Check(0)] + tail);
  }

  lemma CollisionHead(ps: seq<Reference>, tail: seq<Step>)
    requires ps != []
    requires LegalRun(Ready(ps, NO_ENTRIES, map[], map[]), tail) && !AllExact(Ready(ps, NO_ENTRIES, map[], map[]), tail)
    ensures var steps :=
              [Start(0, true, true, 0)] + ([Write(ps, Name("content"), 0)] + ([Publish] + ([Finish] + tail)));
            LegalRun(START, steps) && !AllExact(START, steps)
  {
    var s1 := Apply(START, Start(0, true, true, 0));
    var s2 := Apply(s1, Write(ps, Name("content"), 0));
    var s3 := Apply(s2, Publish);
    assert s3.history == map[1 := ps] && s3.started == [0];
    assert Apply(s3, Finish) == Ready(ps, NO_ENTRIES, map[], map[]);
    Preceded(s3, Finish, tail);
    Preceded(s2, Publish, [Finish] + tail);
    Preceded(s1, Write(ps, Name("content"), 0), [Publish] + ([Finish] + tail));
    Preceded(START, Start(0, true, true, 0), [Write(ps, Name("content"), 0)] + ([Publish] + ([Finish] + tail)));
  }

  lemma CollisionIsWrong(ks: seq<Name>, ls: seq<Name>)
    requires KeyList(ks) && KeyList(ls) && ks != ls && Join(ks) == Join(ls)
    ensures ks != [] && ls != []
    ensures LegalRun(START, Collision(ks, ls)) && !AllExact(START, Collision(ks, ls))
  {
    SharedEntriesDifferFirst(ks, ls);
    var ps := Entries(ks, ls);
    EntriesTellApart(ks, ls);
    CollisionQuery(ps, ks, ls);
    CollisionTail(ps, ks, [Query(0)] + ([Insert(0)] + [Hit(ls)]));
    CollisionHead(ps, [Enter(0, ks)] + ([Check(0)] + ([Query(0)] + ([Insert(0)] + [Hit(ls)]))));
  }

  lemma CollisionAsks(ks: seq<Name>, ls: seq<Name>, asked: iset<seq<Name>>)
    requires ks != [] && ls != [] && ks in asked && ls in asked
    ensures AsksOnly(Collision(ks, ls), asked)
  {
  }

  /** Lookups are always exact exactly when no two of the lists asked for share a cache entry. */
  lemma AlwaysExactIff(asked: iset<seq<Name>>)
    requires forall ks :: ks in asked ==> KeyList(ks)
    ensures AlwaysExact(asked) <==> Injective(asked)
  {
    if Injective(asked) {
      StartInv(asked);
      forall steps: seq<Step> | LegalRun(START, steps) && AsksOnly(steps, asked) ensures AllExact(START, steps) {
        LookupsAreExact(START, steps, asked);
      }
    } else {
      var ks, ls :| ks in asked && ls in asked && Join(ks) == Join(ls) && ks != ls;
      CollisionIsWrong(ks, ls);
      CollisionAsks(ks, ls, asked);
    }
  }

  /** Model keys without NUL characters are safe, however many lists are asked for. */
  lemma NulFreeIsAlwaysExact(asked: iset<seq<Name>>)
    requires forall ks :: ks in asked ==> KeyList(ks) && NulFree(ks)
    ensures AlwaysExact(asked)
  {
    forall ks, ls | ks in asked && ls in asked && Join(ks) == Join(ls) ensures ks == ls {
      NulFreeJoinsDiffer(ks, ls);
    }
    AlwaysExactIff(asked);
  }

  /** A key that contains a NUL character can be answered with the price of another request. */
  lemma NulCharactersCollide()
    ensures var ks, ls := [Name(['a', NUL, 'b'])], [Name("a"), Name("b")];
            KeyList(ks) && KeyList(ls) && !AlwaysExact(iset{ks, ls})
  {
    var ks, ls := [Name(['a', NUL, 'b'])], [Name("a"), Name("b")];
    assert Join(ls).text == ['a', NUL, 'b'];
    NoSlash(['a', NUL, 'b']);
    NoSlash("a");
    NoSlash("b");
    assert |ks| != |ls|;
    AlwaysExactIff(iset{ks, ls});
  }

  lemma NoSlash(s: string)
    requires '/' !in s
    ensures AfterSlash(s) == s
  {
  }

  /** The lists that lookups ask for, when no model name has a NUL character. */
  ghost function Asked(strip: Name -> Name): iset<seq<Name>> {
    iset upstream: Name, requested: Name | NUL !in strip(upstream).text && NUL !in strip(requested).text ::
      PriceKeys(upstream, requested, strip)
  }

  /** Lookups for model names without NUL characters are exact, in every interleaving with refreshes. */
  lemma NulFreeModelsAreAlwaysExact(strip: Name -> Name)
    ensures AlwaysExact(Asked(strip))
  {
    forall ks | ks in Asked(strip) ensures KeyList(ks) && NulFree(ks) {
      var upstream, requested :|
        NUL !in strip(upstream).text && NUL !in strip(requested).text && ks == PriceKeys(upstream, requested, strip);
      PriceKeysAreKeyList(upstream, requested, strip);
      PriceKeysAreNulFree(upstream, requested, strip);
    }
    NulFreeIsAlwaysExact(Asked(strip));
  }

  // ---------------------------------------------------------------------------------------
  // The pace of refreshes
  // ---------------------------------------------------------------------------------------

  /** The state once a download has been written, published and ended. */
  function Refreshed(s: State, prices: seq<Reference>, content: Name, now: int): State
    requires Legal(s, Write(prices, content, now))
  {
    Apply(Apply(Apply(s, Write(prices, content, now)), Publish), Finish)
  }

  /**
   After a successful refresh the catalogue is usable and holds the downloaded content under a version that moves
   exactly when the content is new; nobody refreshes again on their own for a day, or an hour when a price is missing.
   */
  lemma SuccessPaces(s: State, prices: seq<Reference>, content: Name, now: int, t: int, found: bool)
    requires Legal(s, Write(prices, content, now)) && !IsZero(now) && t >= ZERO_TIME
    ensures var u := Refreshed(s, prices, content, now);
            && u.meta == u.disk && u.meta.usable && u.meta.content == content && u.meta.failures == 0
            && (if s.disk.usable && s.disk.content == content
                then u.meta.version == s.disk.version && u.catalogue == s.catalogue
                else u.meta.version == s.disk.version + 1 && u.catalogue == prices)
            && u.sequence == s.sequence + 1 && u.phase == Idle
            && (Starts(u, u.sequence, false, found, t) <==>
                  t - now > if found then 86_400_000_000_000 else 3_600_000_000_000)
  {
  }

  /** After a failure only the schedule changes: nobody tries again on their own before the delay is over. */
  lemma FailurePaces(s: State, now: int, stored: bool, t: int, found: bool)
    requires s.phase.Downloading?
    ensures var u, m := Apply(s, Fail(now, stored)), s.phase.previous;
            && u.meta == m.(lastAttempt := now, failures := m.failures + 1, retryAfter := now + Backoff(m.failures + 1))
            && u.catalogue == s.catalogue && u.cache == s.cache && u.sequence == s.sequence + 1 && u.phase == Idle
            && (Starts(u, u.sequence, false, found, t) <==> Due(m, found, t) && t >= now + Backoff(m.failures + 1))
            && Starts(u, u.sequence, true, found, t)
  {
  }

  // ---------------------------------------------------------------------------------------
  // The manager: each method is one lock region, and one step
  // ---------------------------------------------------------------------------------------

  /**
   The answer names a version and tells what its catalogue says: the price of the first of the keys that any entry
   is of, and none when there is no usable catalogue.
   */
  ghost predicate Tells(s: State, keys: seq<Name>, m: Match) {
    if !m.meta.usable then m.found == None
    else m.meta.version in s.history
         && forall p :: m.found == Some(p) <==> FirstPrices(s.history[m.meta.version], keys, p)
  }

  lemma ExactIffTells(s: State, keys: seq<Name>, m: Match)
    ensures Exact(s, keys, m) <==> Tells(s, keys, m)
  {
    if m.meta.usable && m.meta.version in s.history {
      var ps := s.history[m.meta.version];
      forall p ensures MatchKeys(ps, keys) == Some(p) <==> FirstPrices(ps, keys, p) { LookupIff(ps, keys, p); }
      if Tells(s, keys, m) { SameValues(m.found, MatchKeys(ps, keys)); }
    }
  }

  lemma SameValues(a: Option<Reference>, b: Option<Reference>)
    requires forall p :: a == Some(p) <==> b == Some(p)
    ensures a == b
  {
    if b.Some? { assert a == Some(b.value); }
  }

  class ReferencePriceManager {
    /** The repository. */
    var disk: Meta
    var catalogue: seq<Reference>

    /** The shared small state. */
    var metadata: Meta
    var refreshSequence: nat
    var phase: Phase
    var entries: map<Name, Entry>
    var recency: seq<Entry>

    ghost var readers: map<nat, Reader>
    ghost var history: map<nat, seq<Reference>>
    ghost var origins: map<Name, seq<Name>>
    ghost var started: seq<nat>

    ghost function View(): State
      reads this
    {
      State(disk, catalogue, metadata, refreshSequence, phase, Cache(entries, recency),
            readers, history, origins, started)
    }

    constructor ()
      ensures View() == START
    {
      disk, catalogue, metadata, refreshSequence, phase := NEVER, [], NEVER, 0, Idle;
      entries, recency, readers, history, origins, started := map[], [], map[], map[], map[], [];
    }

    /** A cached entry is moved to the front and answers at once. */
    method TryHit(keys: seq<Name>) returns (answer: Option<Match>)
      requires KeyList(keys)
      modifies this`recency
      ensures answer.None? ==> View() == old(View()) && Join(keys) !in entries
      ensures answer.Some? ==> Legal(old(View()), Hit(keys)) && View() == Apply(old(View()), Hit(keys))
      ensures answer.Some? ==> Answer(old(View()), Hit(keys)) == Some((keys, answer.value))
    {
      var key := Join(keys);
      if key !in entries { return None; }
      recency := [entries[key]] + Without(recency, key);
      return Some(Match(entries[key].found, metadata, refreshSequence));
    }

    /** The shared storage lock is taken. */
    ghost method EnterRead(r: nat, keys: seq<Name>)
      requires Legal(View(), Enter(r, keys))
      modifies this`readers
      ensures View() == Apply(old(View()), Enter(r, keys))
    {
      readers := readers[r := Reader(keys, Entered)];
    }

    /** Without a usable catalogue the lookup ends here. */
    method CheckUsable(ghost r: nat) returns (answer: Option<Match>)
      requires Legal(View(), Check(r))
      modifies this`readers
      ensures View() == Apply(old(View()), Check(r))
      ensures answer == match Answer(old(View()), Check(r)) case Some(a) => Some(a.1) case None => None
    {
      if !metadata.usable {
        readers := readers - {r};
        return Some(Match(None, metadata, refreshSequence));
      }
      readers := readers[r := readers[r].(progress := Checked)];
      return None;
    }

    method QueryCandidates(ghost r: nat, keys: seq<Name>) returns (found: Option<Reference>)
      requires Legal(View(), Query(r)) && readers[r].keys == keys
      modifies this`readers
      ensures View() == Apply(old(View()), Query(r)) && readers == old(readers)[r := Reader(keys, Queried(found))]
    {
      found := MatchReferencePriceKeys(Candidates(catalogue, keys), keys);
      readers := readers[r := Reader(keys, Queried(found))];
    }

    /** The match is cached, the least recently used entry makes room, and the storage lock is released. */
    method CacheMatch(ghost r: nat, keys: seq<Name>, found: Option<Reference>) returns (answer: Match)
      requires Legal(View(), Insert(r)) && readers[r] == Reader(keys, Queried(found))
      modifies this`entries, this`recency, this`readers, this`origins
      ensures View() == Apply(old(View()), Insert(r))
      ensures Answer(old(View()), Insert(r)) == Some((keys, answer))
    {
      PutFront(Entry(Join(keys), found));
      EvictLast();
      readers, origins := readers - {r}, origins[Join(keys) := keys];
      return Match(found, metadata, refreshSequence);
    }

    method PutFront(e: Entry)
      modifies this`entries, this`recency
      ensures entries == old(entries)[e.key := e]
      ensures recency == FrontList(Cache(old(entries), old(recency)), e)
    {
      if e.key in entries { recency := Without(recency, e.key); }
      recency := [e] + recency;
      entries := entries[e.key := e];
    }

    method EvictLast()
      modifies this`entries, this`recency
      ensures Cache(entries, recency) == Trimmed(old(entries), old(recency))
    {
      if |recency| > CAPACITY {
        entries := entries - {recency[|recency| - 1].key};
        recency := recency[..|recency| - 1];
      }
    }

    /** A failed query ends the lookup with an error. */
    ghost method LeaveRead(r: nat)
      requires Legal(View(), Leave(r))
      modifies this`readers
      ensures View() == Apply(old(View()), Leave(r))
    {
      readers := readers - {r};
    }

    /** Whether this caller is the one to download; nobody else is until the refresh ends. */
    method BeginRefresh(observed: nat, force: bool, found: bool, now: int) returns (starts: bool)
      modifies this`phase, this`started
      ensures View() == Apply(old(View()), Start(observed, force, found, now))
      ensures starts <==> Starts(old(View()), observed, force, found, now)
      ensures starts <==>
                && old(phase) == Idle && observed == refreshSequence
                && (force || (now >= metadata.retryAfter && Due(metadata, found, now)))
    {
      if !phase.Idle? { return false; }
      if observed != refreshSequence { return false; }
      if !force && (!NeedsRefresh(metadata, found, now) || now < metadata.retryAfter) { return false; }
      phase, started := Downloading(metadata), started + [refreshSequence];
      return true;
    }

    /** Under the exclusive storage lock: the catalogue, when it is new, and its metadata in one transaction. */
    method WriteCatalogue(prices: seq<Reference>, content: Name, now: int)
      requires Legal(View(), Write(prices, content, now))
      modifies this`disk, this`catalogue, this`phase, this`history
      ensures View() == Apply(old(View()), Write(prices, content, now))
    {
      var changed := !(disk.usable && disk.content == content);
      var next := disk;
      if changed {
        next := next.(version := next.version + 1, content := content, usable := true);
        catalogue, history := prices, history[next.version := prices];
      }
      next := next.(fetchedAt := now, lastAttempt := now, failures := 0, retryAfter := ZERO_TIME);
      disk, phase := next, Writing(next, changed);
    }

    /** New content empties the cache in the step that publishes its version. */
    method PublishCatalogue()
      requires Legal(View(), Publish)
      modifies this`metadata, this`entries, this`recency, this`phase
      ensures View() == Apply(old(View()), Publish)
    {
      metadata := phase.next;
      if phase.changed { entries, recency := map[], []; }
      phase := Committed(phase.next);
    }

    method FinishRefresh()
      requires Legal(View(), Finish)
      modifies this`metadata, this`refreshSequence, this`phase
      ensures View() == Apply(old(View()), Finish)
    {
      metadata, refreshSequence, phase := phase.next, refreshSequence + 1, Idle;
    }

    /** One failure more; whether its metadata reached the disk does not matter to anybody else. */
    method FailRefresh(now: int, stored: bool)
      requires Legal(View(), Fail(now, stored))
      modifies this`metadata, this`refreshSequence, this`phase, this`disk
      ensures View() == Apply(old(View()), Fail(now, stored))
    {
      var next := phase.previous;
      next := next.(lastAttempt := now, failures := next.failures + 1);
      next := next.(retryAfter := now + Backoff(next.failures));
      if stored { disk := next; }
      metadata, refreshSequence, phase := next, refreshSequence + 1, Idle;
    }

    /**
     A whole lookup that nothing interrupts is exact, wherever the state came from. `queryable` says whether the
     repository can be queried; a lookup that fails leaves no trace.
     */
    method Lookup(ghost r: nat, upstream: Name, requested: Name, strip: Name -> Name, queryable: bool,
            ghost asked: iset<seq<Name>>)
      returns (answer: Option<Match>)
      requires Injective(asked) && Inv(View(), asked) && PriceKeys(upstream, requested, strip) in asked
      requires r !in readers && !phase.Writing?
      modifies this`entries, this`recency, this`readers, this`origins
      ensures Inv(View(), asked)
      ensures answer.Some? ==> answer.value.meta == metadata
                               && Exact(View(), PriceKeys(upstream, requested, strip), answer.value)
      ensures answer.Some? ==> Tells(View(), PriceKeys(upstream, requested, strip), answer.value)
      ensures answer.None? ==> !queryable && View() == old(View())
    {
      var keys := ReferencePriceKeys(upstream, requested, strip);
      PriceKeysAreKeyList(upstream, requested, strip);
      answer := TryHit(keys);
      if answer.Some? {
        Stepped(old(View()), Hit(keys), asked);
      } else {
        answer := LookupInStorage(r, keys, queryable, asked);
      }
      if answer.Some? { ExactIffTells(View(), keys, answer.value); }
    }

    method LookupInStorage(ghost r: nat, keys: seq<Name>, queryable: bool, ghost asked: iset<seq<Name>>)
      returns (answer: Option<Match>)
      requires Injective(asked) && Inv(View(), asked) && keys in asked && KeyList(keys)
      requires r !in readers && !phase.Writing?
      modifies this`entries, this`recency, this`readers, this`origins
      ensures Inv(View(), asked)
      ensures answer.Some? ==> answer.value.meta == metadata && Exact(View(), keys, answer.value)
      ensures answer.None? ==> !queryable && View() == old(View())
    {
      answer := EnterAndCheck(r, keys, asked);
      if answer.Some? { return; }
      if !queryable {
        LeaveRead(r);
        assert readers == old(readers);
        return None;
      }
      var found := QueryAndCache(r, keys, asked);
      return Some(found);
    }

    method EnterAndCheck(ghost r: nat, keys: seq<Name>, ghost asked: iset<seq<Name>>) returns (answer: Option<Match>)
      requires Injective(asked) && Inv(View(), asked) && keys in asked && KeyList(keys)
      requires r !in readers && !phase.Writing?
      modifies this`readers
      ensures Inv(View(), asked)
      ensures answer.Some? ==> answer.value.meta == metadata && Exact(View(), keys, answer.value)
      ensures answer.None? ==> readers == old(readers)[r := Reader(keys, Checked)]
    {
      Stepped(View(), Enter(r, keys), asked);
      EnterRead(r, keys);
      Stepped(View(), Check(r), asked);
      answer := CheckUsable(r);
    }

    method QueryAndCache(ghost r: nat, keys: seq<Name>, ghost asked: iset<seq<Name>>) returns (answer: Match)
      requires Injective(asked) && Inv(View(), asked) && keys in asked && KeyList(keys)
      requires Legal(View(), Query(r)) && readers[r].keys == keys
      modifies this`entries, this`recency, this`readers, this`origins
      ensures Inv(View(), asked) && answer.meta == metadata && Exact(View(), keys, answer)
    {
      Stepped(View(), Query(r), asked);
      var found := QueryCandidates(r, keys);
      Stepped(View(), Insert(r), asked);
      answer := CacheMatch(r, keys, found);
    }
  }

  /** A step keeps the invariant, the catalogues of the known versions, and answers exactly. */
  lemma Stepped(s: State, step: Step, asked: iset<seq<Name>>)
    requires Injective(asked) && Inv(s, asked) && Legal(s, step) && Asks(step, asked)
    requires step.Hit? || step.Enter? || step.Check? || step.Query? || step.Insert?
    ensures Inv(Apply(s, step), asked) && Apply(s, step).history == s.history
    ensures Answer(s, step).Some? ==>
              Exact(s, Answer(s, step).value.0, Answer(s, step).value.1) && Answer(s, step).value.1.meta == s.meta
  {
    StepInv(s, step, asked);
    AnswerIsExact(s, step, asked);
  }
}
