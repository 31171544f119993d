/**
 Which reference price a model gets.

 Identifiers are normalised; a namespace in front of the last slash does not count. The model's
 canonical entry decides; without one, all entries of the model must agree.
 */
module PriceMatching {
  import opened Options
  import opened Text
  import Usage

  datatype Reference = Reference(provider: Name, modelId: Name, canonical: bool, rates: Option<Usage.PriceRates>)

  function AfterSlash(s: string): string {
    if '/' in s then AfterSlash(s[1..]) else s
  }

  function ModelKey(id: Name): Name {
    Name(AfterSlash(id.text))
  }

  predicate EndsInSlash(prefix: string) {
    prefix == [] || prefix[|prefix| - 1] == '/'
  }

  /** What the namespace is: nothing, or everything up to the last slash. */
  function Namespace(s: string): string {
    if '/' in s then [s[0]] + Namespace(s[1..]) else ""
  }

  lemma {:induction false} KeyIsLastSegment(s: string)
    ensures s == Namespace(s) + AfterSlash(s)
    ensures '/' !in AfterSlash(s) && EndsInSlash(Namespace(s))
  {
    if '/' in s {
      KeyIsLastSegment(s[1..]);
      assert s == [s[0]] + s[1..];
      NamespaceEnds(s);
    }
  }

  lemma NamespaceEnds(s: string)
    requires '/' in s && EndsInSlash(Namespace(s[1..]))
    ensures EndsInSlash(Namespace(s))
  {
    if Namespace(s[1..]) == "" {
      assert '/' !in s[1..];
      assert s == [s[0]] + s[1..];
    }
  }

  // ---------------------------------------------------------------------------------------
  // One key
  // ---------------------------------------------------------------------------------------

  predicate Keyed(p: Reference, key: Name) {
    ModelKey(p.modelId) == key
  }

  predicate HasCanonical(ps: seq<Reference>, key: Name) {
    exists p :: p in ps && p.canonical && Keyed(p, key)
  }

  /** The entries that decide: the canonical ones if there are any, else all. */
  predicate Relevant(p: Reference, key: Name, canonical: bool) {
    Keyed(p, key) && (canonical ==> p.canonical)
  }

  predicate Agreed(ps: seq<Reference>, key: Name, canonical: bool) {
    && (forall p :: p in ps && Relevant(p, key, canonical) ==> p.rates.Some?)
    && (forall p, q :: p in ps && q in ps && Relevant(p, key, canonical) && Relevant(q, key, canonical) ==>
         p.rates == q.rates)
  }

  function FirstRelevant(ps: seq<Reference>, key: Name, canonical: bool): Option<Reference> {
    if ps == [] then None
    else if Relevant(ps[0], key, canonical) then Some(ps[0])
    else FirstRelevant(ps[1..], key, canonical)
  }

  /** The model is priced when the entries that decide all have rates and agree on them. */
  function MatchKey(ps: seq<Reference>, key: Name): Option<Reference> {
    var canonical := HasCanonical(ps, key);
    if key == NO_NAME || !Agreed(ps, key, canonical) then None else FirstRelevant(ps, key, canonical)
  }

  lemma {:induction false} FirstRelevantIs(ps: seq<Reference>, key: Name, canonical: bool)
    ensures var r := FirstRelevant(ps, key, canonical);
            if r.Some? then r.value in ps && Relevant(r.value, key, canonical)
            else forall p :: p in ps ==> !Relevant(p, key, canonical)
  {
    if ps != [] { FirstRelevantIs(ps[1..], key, canonical); }
  }

  /** A match exists exactly when the key has entries and its deciding entries have one common rate. */
  lemma MatchIff(ps: seq<Reference>, key: Name)
    ensures MatchKey(ps, key).Some? <==>
              && key != NO_NAME && (exists p :: p in ps && Keyed(p, key))
              && exists rates :: forall p :: p in ps && Relevant(p, key, HasCanonical(ps, key)) ==>
                   p.rates == Some(rates)
    ensures MatchKey(ps, key).Some? ==> MatchKey(ps, key).value in ps && MatchKey(ps, key).value.rates.Some?
  {
    var canonical := HasCanonical(ps, key);
    FirstRelevantIs(ps, key, canonical);
    var first := FirstRelevant(ps, key, canonical);
    if MatchKey(ps, key).Some? {
      var rates := first.value.rates.value;
      assert forall p :: p in ps && Relevant(p, key, canonical) ==> p.rates == Some(rates);
    }
    if p :| p in ps && Keyed(p, key) {
      if canonical {
        var c :| c in ps && c.canonical && Keyed(c, key);
        assert Relevant(c, key, canonical);
      } else {
        assert Relevant(p, key, canonical);
      }
    }
  }

  method MatchReferencePriceKey(key: Name, ps: seq<Reference>) returns (matched: Option<Reference>)
    ensures matched == MatchKey(ps, key)
  {
    if key == NO_NAME { return None; }
    var canonical, i := false, 0;
    while i < |ps|
      invariant 0 <= i <= |ps|
      invariant canonical ==> HasCanonical(ps, key)
      invariant !canonical ==> forall j :: 0 <= j < i ==> !(ps[j].canonical && Keyed(ps[j], key))
    {
      if ps[i].canonical && ModelKey(ps[i].modelId) == key {
        canonical := true;
        break;
      }
      i := i + 1;
    }
    assert canonical == HasCanonical(ps, key);
    matched, i := None, 0;
    while i < |ps|
      invariant 0 <= i <= |ps|
      invariant matched.None? ==> forall j :: 0 <= j < i ==> !Relevant(ps[j], key, canonical)
      invariant matched.Some? ==> matched == FirstRelevant(ps, key, canonical) && matched.value.rates.Some?
      invariant matched.Some? ==> matched.value in ps && Relevant(matched.value, key, canonical)
      invariant matched.Some? ==> forall j :: 0 <= j < i && Relevant(ps[j], key, canonical) ==>
              ps[j].rates == matched.value.rates
      invariant matched.None? ==> FirstRelevant(ps, key, canonical) == FirstRelevant(ps[i..], key, canonical)
    {
      var p := ps[i];
      if ModelKey(p.modelId) != key || (canonical && !p.canonical) {
        i := i + 1;
        continue;
      }
      assert p in ps && Relevant(p, key, canonical);
      if p.rates.None? { return None; }
      if matched.Some? && matched.value.rates.value != p.rates.value { return None; }
      if matched.None? { matched := Some(p); }
      i := i + 1;
    }
  }

  // ---------------------------------------------------------------------------------------
  // A list of keys
  // ---------------------------------------------------------------------------------------

  predicate HasEntry(ps: seq<Reference>, key: Name) {
    exists p :: p in ps && Keyed(p, key)
  }

  /** The first key with any entry decides, even when its entries conflict. */
  function MatchKeys(ps: seq<Reference>, keys: seq<Name>): Option<Reference> {
    if keys == [] then None
    else if HasEntry(ps, keys[0]) then MatchKey(ps, keys[0])
    else MatchKeys(ps, keys[1..])
  }

  method MatchReferencePriceKeys(ps: seq<Reference>, keys: seq<Name>) returns (matched: Option<Reference>)
    ensures matched == MatchKeys(ps, keys)
    ensures forall p :: matched == Some(p) <==> FirstPrices(ps, keys, p)
  {
    matched := SearchKeys(ps, keys);
    forall p ensures MatchKeys(ps, keys) == Some(p) <==> FirstPrices(ps, keys, p) { LookupIff(ps, keys, p); }
  }

  method SearchKeys(ps: seq<Reference>, keys: seq<Name>) returns (matched: Option<Reference>)
    ensures matched == MatchKeys(ps, keys)
  {
    var i := 0;
    while i < |keys|
      invariant 0 <= i <= |keys|
      invariant MatchKeys(ps, keys) == MatchKeys(ps, keys[i..])
    {
      var j := 0;
      while j < |ps|
        invariant 0 <= j <= |ps|
        invariant forall k :: 0 <= k < j ==> !Keyed(ps[k], keys[i])
      {
        if ModelKey(ps[j].modelId) == keys[i] {
          assert ps[j] in ps;
          matched := MatchReferencePriceKey(keys[i], ps);
          return;
        }
        j := j + 1;
      }
      i := i + 1;
    }
    return None;
  }

  // ---------------------------------------------------------------------------------------
  // What a lookup finds, by positions in the catalogue
  // ---------------------------------------------------------------------------------------

  /** The entry has a say about the key: it is of that model, and canonical if any entry of the model is. */
  ghost predicate Decides(ps: seq<Reference>, key: Name, i: nat) {
    && i < |ps| && ModelKey(ps[i].modelId) == key
    && ((exists j :: 0 <= j < |ps| && ps[j].canonical && ModelKey(ps[j].modelId) == key) ==> ps[i].canonical)
  }

  /** The entry is the first that has a say, has rates, and all that have a say have the same. */
  ghost predicate PricesAt(ps: seq<Reference>, key: Name, i: nat) {
    && key != NO_NAME && Decides(ps, key, i) && ps[i].rates.Some?
    && forall j: nat :: Decides(ps, key, j) ==> i <= j && ps[j].rates == ps[i].rates
  }

  ghost predicate Prices(ps: seq<Reference>, key: Name, p: Reference) {
    exists i: nat :: PricesAt(ps, key, i) && ps[i] == p
  }

  /** The first of the keys that any entry is of. */
  ghost predicate IsDeciding(ps: seq<Reference>, keys: seq<Name>, n: nat) {
    && n < |keys| && (exists i :: 0 <= i < |ps| && ModelKey(ps[i].modelId) == keys[n])
    && forall m, i :: 0 <= m < n && 0 <= i < |ps| ==> ModelKey(ps[i].modelId) != keys[m]
  }

  lemma DecidesIsRelevant(ps: seq<Reference>, key: Name, i: nat)
    requires i < |ps|
    ensures Decides(ps, key, i) <==> Relevant(ps[i], key, HasCanonical(ps, key))
  {
    if c :| c in ps && c.canonical && Keyed(c, key) {
      var j :| 0 <= j < |ps| && ps[j] == c;
    }
  }

  lemma {:induction false} FirstRelevantAt(ps: seq<Reference>, key: Name, canonical: bool) returns (i: nat)
    requires FirstRelevant(ps, key, canonical).Some?
    ensures i < |ps| && Relevant(ps[i], key, canonical) && FirstRelevant(ps, key, canonical) == Some(ps[i])
    ensures forall j :: 0 <= j < i ==> !Relevant(ps[j], key, canonical)
  {
    if Relevant(ps[0], key, canonical) {
      i := 0;
    } else {
      var k := FirstRelevantAt(ps[1..], key, canonical);
      i := k + 1;
      forall j | 0 <= j < i ensures !Relevant(ps[j], key, canonical) {
        if j > 0 { assert ps[j] == ps[1..][j - 1]; }
      }
    }
  }

  lemma MatchedPrices(ps: seq<Reference>, key: Name)
    requires MatchKey(ps, key).Some?
    ensures Prices(ps, key, MatchKey(ps, key).value)
  {
    var canonical := HasCanonical(ps, key);
    var i := FirstRelevantAt(ps, key, canonical);
    DecidesIsRelevant(ps, key, i);
    forall j: nat | Decides(ps, key, j) ensures i <= j && ps[j].rates == ps[i].rates {
      DecidesIsRelevant(ps, key, j);
      assert ps[i] in ps && ps[j] in ps;
    }
    assert PricesAt(ps, key, i);
  }

  lemma PricedIsMatched(ps: seq<Reference>, key: Name, i: nat)
    requires PricesAt(ps, key, i)
    ensures MatchKey(ps, key) == Some(ps[i])
  {
    var canonical := HasCanonical(ps, key);
    DecidesIsRelevant(ps, key, i);
    assert ps[i] in ps;
    FirstRelevantIs(ps, key, canonical);
    forall p | p in ps && Relevant(p, key, canonical) ensures p.rates == ps[i].rates {
      var j :| 0 <= j < |ps| && ps[j] == p;
      DecidesIsRelevant(ps, key, j);
    }
    var k := FirstRelevantAt(ps, key, canonical);
    DecidesIsRelevant(ps, key, k);
  }

  /** A key has the price of the first entry that has a say, exactly when all that have a say agree on it. */
  lemma KeyPriceIff(ps: seq<Reference>, key: Name, p: Reference)
    ensures MatchKey(ps, key) == Some(p) <==> Prices(ps, key, p)
  {
    if MatchKey(ps, key) == Some(p) { MatchedPrices(ps, key); }
    if i: nat :| PricesAt(ps, key, i) && ps[i] == p { PricedIsMatched(ps, key, i); }
  }

  lemma EntryAt(ps: seq<Reference>, key: Name)
    ensures HasEntry(ps, key) <==> exists i :: 0 <= i < |ps| && ModelKey(ps[i].modelId) == key
  {
    if p :| p in ps && Keyed(p, key) {
      var i :| 0 <= i < |ps| && ps[i] == p;
    }
    if i :| 0 <= i < |ps| && ModelKey(ps[i].modelId) == key { assert ps[i] in ps && Keyed(ps[i], key); }
  }

  lemma DecidingShifts(ps: seq<Reference>, keys: seq<Name>, n: nat)
    requires keys != [] && !HasEntry(ps, keys[0])
    ensures IsDeciding(ps, keys, n + 1) <==> IsDeciding(ps, keys[1..], n)
    ensures !IsDeciding(ps, keys, 0)
  {
    EntryAt(ps, keys[0]);
    if IsDeciding(ps, keys, n + 1) {
      forall m, i | 0 <= m < n && 0 <= i < |ps| ensures ModelKey(ps[i].modelId) != keys[1..][m] {
        assert keys[1..][m] == keys[m + 1];
      }
    }
    if IsDeciding(ps, keys[1..], n) {
      forall m, i | 0 <= m < n + 1 && 0 <= i < |ps| ensures ModelKey(ps[i].modelId) != keys[m] {
        if m > 0 { assert keys[m] == keys[1..][m - 1]; }
      }
    }
  }

  /** The deciding key has this price. */
  ghost predicate FirstPrices(ps: seq<Reference>, keys: seq<Name>, p: Reference) {
    exists n: nat :: IsDeciding(ps, keys, n) && Prices(ps, keys[n], p)
  }

  /**
   A lookup finds a price exactly when the first of its keys that any entry is of has that price. When the entries
   of that key conflict or lack rates there is none, whatever the later keys have.
   */
  lemma {:induction false} LookupIff(ps: seq<Reference>, keys: seq<Name>, p: Reference)
    ensures MatchKeys(ps, keys) == Some(p) <==> FirstPrices(ps, keys, p)
  {
    if keys != [] {
      EntryAt(ps, keys[0]);
      if HasEntry(ps, keys[0]) {
        KeyPriceIff(ps, keys[0], p);
        assert IsDeciding(ps, keys, 0);
        forall n: nat | IsDeciding(ps, keys, n) ensures n == 0 { }
      } else {
        LookupIff(ps, keys[1..], p);
        if n: nat :| IsDeciding(ps, keys, n) && Prices(ps, keys[n], p) {
          DecidingShifts(ps, keys, n - 1);
          assert IsDeciding(ps, keys[1..], n - 1) && Prices(ps, keys[1..][n - 1], p);
        }
        if n: nat :| IsDeciding(ps, keys[1..], n) && Prices(ps, keys[1..][n], p) {
          DecidingShifts(ps, keys, n);
          assert IsDeciding(ps, keys, n + 1) && Prices(ps, keys[n + 1], p);
        }
      }
    }
  }

  const AUTO := Name("auto")

  /** The key of a model, without the namespace and without the host's request-option suffix. */
  function KeyOf(model: Name, strip: Name -> Name): Name {
    ModelKey(strip(model))
  }

  /**
   The keys to try: the upstream model's, then the requested one's unless that is "auto"; none twice and none
   empty.
   */
  function PriceKeys(upstream: Name, requested: Name, strip: Name -> Name): (keys: seq<Name>)
    ensures |keys| <= 2 && (|keys| == 2 ==> keys[0] != keys[1])
    ensures forall k :: k in keys <==>
              && k != NO_NAME
              && (k == KeyOf(upstream, strip) || (k == KeyOf(requested, strip) && strip(requested) != AUTO))
    ensures KeyOf(upstream, strip) != NO_NAME ==> keys != [] && keys[0] == KeyOf(upstream, strip)
  {
    var first := if KeyOf(upstream, strip) == NO_NAME then [] else [KeyOf(upstream, strip)];
    var second := KeyOf(requested, strip);
    if strip(requested) == AUTO || second == NO_NAME || second in first then first else first + [second]
  }

  method ReferencePriceKeys(upstream: Name, requested: Name, strip: Name -> Name) returns (keys: seq<Name>)
    ensures keys == PriceKeys(upstream, requested, strip)
  {
    keys := [];
    var models := [upstream, requested];
    for i := 0 to 2
      invariant i == 0 ==> keys == []
      invariant i == 1 ==> keys == if KeyOf(upstream, strip) == NO_NAME then [] else [KeyOf(upstream, strip)]
      invariant i == 2 ==> keys == PriceKeys(upstream, requested, strip)
    {
      var base := strip(models[i]);
      if i == 1 && base == AUTO { continue; }
      var key := ModelKey(base);
      if key != NO_NAME && (keys == [] || keys[0] != key) { keys := keys + [key]; }
    }
  }

  // ---------------------------------------------------------------------------------------
  // Candidates
  // ---------------------------------------------------------------------------------------

  /** What the repository returns for some keys: the entries under them, in catalogue order. */
  function Candidates(ps: seq<Reference>, keys: seq<Name>): seq<Reference> {
    if ps == [] then []
    else if ModelKey(ps[0].modelId) in keys && ModelKey(ps[0].modelId) != NO_NAME
    then [ps[0]] + Candidates(ps[1..], keys)
    else Candidates(ps[1..], keys)
  }

  lemma {:induction false} CandidatesAre(ps: seq<Reference>, keys: seq<Name>)
    ensures forall p :: p in Candidates(ps, keys) <==>
            p in ps && ModelKey(p.modelId) in keys && ModelKey(p.modelId) != NO_NAME
  {
    if ps != [] { CandidatesAre(ps[1..], keys); }
  }

  lemma {:induction false} FirstAmongCandidates(ps: seq<Reference>, keys: seq<Name>, key: Name, canonical: bool)
    requires key in keys && key != NO_NAME
    ensures FirstRelevant(Candidates(ps, keys), key, canonical) == FirstRelevant(ps, key, canonical)
  {
    if ps != [] {
      FirstAmongCandidates(ps[1..], keys, key, canonical);
      var rest := Candidates(ps[1..], keys);
      assert ([ps[0]] + rest)[1..] == rest;
    }
  }

  /** Matching among the candidates is matching in the whole catalogue. */
  lemma CandidatesSuffice(ps: seq<Reference>, keys: seq<Name>, key: Name)
    requires key in keys && key != NO_NAME
    ensures MatchKey(Candidates(ps, keys), key) == MatchKey(ps, key)
    ensures HasEntry(Candidates(ps, keys), key) <==> HasEntry(ps, key)
  {
    CandidatesAre(ps, keys);
    var cs := Candidates(ps, keys);
    assert HasCanonical(cs, key) == HasCanonical(ps, key);
    FirstAmongCandidates(ps, keys, key, HasCanonical(ps, key));
  }

  lemma {:induction false} CandidatesSufficeForAll(ps: seq<Reference>, all: seq<Name>, keys: seq<Name>)
    requires NO_NAME !in keys && forall k :: k in keys ==> k in all
    ensures MatchKeys(Candidates(ps, all), keys) == MatchKeys(ps, keys)
  {
    if keys != [] {
      CandidatesSuffice(ps, all, keys[0]);
      CandidatesSufficeForAll(ps, all, keys[1..]);
    }
  }

  // ---------------------------------------------------------------------------------------
  // Many models at once
  // ---------------------------------------------------------------------------------------

  const BATCH_SIZE: nat := 128

  /** The keys of a batch, without duplicates. */
  method BatchKeys(batch: seq<Name>, strip: Name -> Name) returns (keys: seq<Name>)
    ensures forall k :: k in keys <==> k != NO_NAME && exists m :: m in batch && KeyOf(m, strip) == k
  {
    keys := [];
    var seen: set<Name>, i := {}, 0;
    while i < |batch|
      invariant 0 <= i <= |batch|
      invariant forall k :: k in seen <==> k in keys
      invariant forall k :: k in keys ==> k != NO_NAME && exists m :: m in batch && KeyOf(m, strip) == k
      invariant forall j :: 0 <= j < i && KeyOf(batch[j], strip) != NO_NAME ==> KeyOf(batch[j], strip) in keys
    {
      var key := KeyOf(batch[i], strip);
      if key != NO_NAME && key !in seen {
        assert batch[i] in batch;
        seen := seen + {key};
        keys := keys + [key];
      }
      i := i + 1;
    }
  }

  predicate GroupedByKey(groups: map<Name, seq<Reference>>, ps: seq<Reference>, key: Name) {
    key != NO_NAME ==> (if key in groups then groups[key] else []) == Candidates(ps, [key])
  }

  lemma GroupStep(groups: map<Name, seq<Reference>>, ps: seq<Reference>, p: Reference, k: Name)
    requires GroupedByKey(groups, ps, k)
    ensures var key := ModelKey(p.modelId);
            GroupedByKey(groups[key := (if key in groups then groups[key] else []) + [p]], ps + [p], k)
  {
    if k != NO_NAME { CandidatesAppend(ps, p, k); }
  }

  /** Candidates gathered by key, each list in catalogue order. */
  method GroupByKey(ps: seq<Reference>) returns (groups: map<Name, seq<Reference>>)
    ensures forall k :: GroupedByKey(groups, ps, k)
  {
    groups := map[];
    var i := 0;
    while i < |ps|
      invariant 0 <= i <= |ps|
      invariant forall k :: GroupedByKey(groups, ps[..i], k)
    {
      ghost var before := groups;
      var key := ModelKey(ps[i].modelId);
      groups := groups[key := (if key in groups then groups[key] else []) + [ps[i]]];
      ghost var grouped := ps[..i + 1];
      assert grouped == ps[..i] + [ps[i]];
      forall k ensures GroupedByKey(groups, grouped, k) {
        assert GroupedByKey(before, ps[..i], k);
        GroupStep(before, ps[..i], ps[i], k);
      }
      i := i + 1;
    }
    assert ps[..i] == ps;
  }

  lemma {:induction false} CandidatesAppend(ps: seq<Reference>, p: Reference, k: Name)
    requires k != NO_NAME
    ensures Candidates(ps + [p], [k]) == Candidates(ps, [k]) + if Keyed(p, k) then [p] else []
  {
    if ps == [] {
      assert ps + [p] == [p] && [p][1..] == [];
    } else {
      assert (ps + [p])[1..] == ps[1..] + [p];
      CandidatesAppend(ps[1..], p, k);
    }
  }

  /** Each model is matched as it would be alone in the whole catalogue; unpriced models are left out. */
  method LookupModels(catalogue: seq<Reference>, models: seq<Name>, strip: Name -> Name)
    returns (matched: map<Name, Reference>)
    ensures forall m :: m in matched <==> m in models && MatchKey(catalogue, KeyOf(m, strip)).Some?
    ensures forall m :: m in matched ==> MatchKey(catalogue, KeyOf(m, strip)) == Some(matched[m])
    ensures forall m :: m in matched ==> m in models && Prices(catalogue, KeyOf(m, strip), matched[m])
    ensures forall m, p :: m in models && Prices(catalogue, KeyOf(m, strip), p) ==> m in matched && matched[m] == p
  {
    matched := map[];
    var start := 0;
    while start < |models|
      invariant 0 <= start <= |models|
      invariant forall m :: m in matched ==>
              m in models[..start] && MatchKey(catalogue, KeyOf(m, strip)) == Some(matched[m])
      invariant forall m :: m in models[..start] && MatchKey(catalogue, KeyOf(m, strip)).Some? ==> m in matched
    {
      var end := if start + BATCH_SIZE < |models| then start + BATCH_SIZE else |models|;
      var batch := models[start..end];
      assert models[..end] == models[..start] + batch;
      var found := LookupBatch(catalogue, batch, strip);
      matched := matched + found;
      start := end;
    }
    assert models[..start] == models;
    forall m | m in matched ensures Prices(catalogue, KeyOf(m, strip), matched[m]) {
      KeyPriceIff(catalogue, KeyOf(m, strip), matched[m]);
    }
    forall m, p | m in models && Prices(catalogue, KeyOf(m, strip), p) ensures m in matched && matched[m] == p {
      KeyPriceIff(catalogue, KeyOf(m, strip), p);
    }
  }

  /** Matching in the group of a key is matching in the whole catalogue. */
  method MatchInGroup(ghost catalogue: seq<Reference>, ghost keys: seq<Name>,
          groups: map<Name, seq<Reference>>, key: Name)
    returns (found: Option<Reference>)
    requires key != NO_NAME ==> key in keys
    requires GroupedByKey(groups, Candidates(catalogue, keys), key)
    ensures found == MatchKey(catalogue, key)
  {
    found := MatchReferencePriceKey(key, if key in groups then groups[key] else []);
    if key != NO_NAME {
      CandidatesSuffice(catalogue, keys, key);
      CandidatesSuffice(Candidates(catalogue, keys), [key], key);
    }
  }

  method LookupBatch(catalogue: seq<Reference>, batch: seq<Name>, strip: Name -> Name)
    returns (matched: map<Name, Reference>)
    ensures forall m :: m in matched <==> m in batch && MatchKey(catalogue, KeyOf(m, strip)).Some?
    ensures forall m :: m in matched ==> MatchKey(catalogue, KeyOf(m, strip)) == Some(matched[m])
  {
    var keys := BatchKeys(batch, strip);
    var prices := Candidates(catalogue, keys);
    var groups := GroupByKey(prices);
    matched := map[];
    var i := 0;
    while i < |batch|
      invariant 0 <= i <= |batch|
      invariant forall m :: m in matched <==> m in batch[..i] && MatchKey(catalogue, KeyOf(m, strip)).Some?
      invariant forall m :: m in matched ==> MatchKey(catalogue, KeyOf(m, strip)) == Some(matched[m])
    {
      assert batch[i] in batch;
      var found := MatchInGroup(catalogue, keys, groups, KeyOf(batch[i], strip));
      assert batch[..i + 1] == batch[..i] + [batch[i]];
      if found.Some? { matched := matched[batch[i] := found.value]; }
      i := i + 1;
    }
    assert batch[..i] == batch;
  }
}
