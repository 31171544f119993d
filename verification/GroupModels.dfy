/**
 Resource groups: which published group owns a model at an instant.

 Models are normalised identifiers; the host's request-option suffix is removed by a function the
 model takes as given. A map is searched in no particular order, so an owner must be unique.
 */
module GroupModels {
  import opened Options
  import opened Text
  import opened GroupTexts

  datatype Status = Draft | Published | Archived

  /** What a group is called, and its normalised credential pool, on which nothing here depends. */
  datatype About = About(name: string, description: string, pool: int)

  datatype Group = Group(
    status: Status, enabled: bool, models: seq<Name>, revision: int, publishedAt: Option<int>, about: About)

  /** An archived group keeps owning its models; a draft owns none. */
  predicate Owns(g: Group, model: Name, at: int) {
    g.status != Draft && g.publishedAt.Some? && g.publishedAt.value <= at && model in g.models
  }

  ghost predicate IsOwner(groups: map<Name, Group>, id: Name, model: Name, at: int) {
    id in groups && Owns(groups[id], model, at)
  }

  /** The owner, when there is one. */
  ghost function OwnerOf(groups: map<Name, Group>, model: Name, at: int): (owner: Option<Name>)
    ensures owner.Some? ==> model != NO_NAME && IsOwner(groups, owner.value, model, at)
    ensures owner.None? ==> model == NO_NAME || forall id :: !IsOwner(groups, id, model, at)
  {
    if model != NO_NAME && exists id :: IsOwner(groups, id, model, at) then
      var id :| IsOwner(groups, id, model, at);
      Some(id)
    else None
  }

  /** A configured model is preferred to the one its request-option suffix leaves. */
  ghost function RequestOwner(groups: map<Name, Group>, model: Name, at: int,
          strip: Name -> Name): (owner: Option<Name>)
    ensures owner.Some? ==> owner.value in groups && groups[owner.value].status != Draft
  {
    var exact := OwnerOf(groups, model, at);
    if exact.Some? then exact else OwnerOf(groups, strip(model), at)
  }

  // ---------------------------------------------------------------------------------------
  // The catalogue and its operations
  // ---------------------------------------------------------------------------------------

  predicate ValidModels(models: seq<Name>) {
    && models != [] && NO_NAME !in models
    && (forall i, j :: 0 <= i < j < |models| ==> models[i] != models[j])
  }

  predicate ValidAbout(a: About) {
    ValidText(a.name, MAX_NAME, false) && ValidText(a.description, MAX_DESCRIPTION, true)
  }

  ghost predicate GroupOk(g: Group, clock: int) {
    && ValidModels(g.models) && ValidAbout(g.about) && Trimmed(g.about.name) == g.about.name
    && (g.status == Draft <==> g.publishedAt.None?)
    && (g.publishedAt.Some? ==> g.publishedAt.value <= clock)
  }

  predicate Shares(g: Group, h: Group, model: Name) {
    g.status != Draft && h.status != Draft && model in g.models && model in h.models
  }

  /** No two published or archived groups share a model. */
  ghost predicate Exclusive(groups: map<Name, Group>) {
    forall a, b, model | a in groups && b in groups :: Shares(groups[a], groups[b], model) ==> a == b
  }

  ghost predicate CatalogueOk(groups: map<Name, Group>, clock: int) {
    Exclusive(groups) && forall id :: id in groups ==> GroupOk(groups[id], clock)
  }

  /**
   The given parts of an edit. A model name that is blank or too long is no name, and a credential pool that
   cannot be normalised is none.
   */
  datatype GroupPatch = GroupPatch(
    models: Option<seq<Name>>, enabled: Option<bool>, name: Option<string>, description: Option<string>,
    pool: Option<Option<int>>)

  datatype GroupOp =
    | Create(id: Name, models: seq<Name>, name: string, description: string, pool: Option<int>)
    | Update(id: Name, expected: int, patch: GroupPatch)
    | Publish(id: Name, expected: int)
    | Archive(id: Name, expected: int)

  function Given<T>(given: Option<T>, stored: T): T {
    if given.Some? then given.value else stored
  }

  /** The normalised description of a group, unless it is refused. */
  function Described(name: string, description: string, pool: Option<int>): Option<About> {
    if pool.None? then None else
      var a := About(Trimmed(name), description, pool.value);
      if ValidAbout(a) then Some(a) else None
  }

  function UpdatedGroup(g: Group, patch: GroupPatch): Option<Group> {
    if patch.models.Some? && g.status != Draft then None else
      var models := Given(patch.models, g.models);
      match Described(Given(patch.name, g.about.name), Given(patch.description, g.about.description),
                      Given(patch.pool, Some(g.about.pool)))
      case None => None
      case Some(about) =>
        if !ValidModels(models) then None
        else Some(Group(g.status, Given(patch.enabled, g.enabled), models, g.revision + 1, g.publishedAt, about))
  }

  function CreatedGroup(models: seq<Name>, name: string, description: string, pool: Option<int>): Option<Group> {
    match Described(name, description, pool)
    case None => None
    case Some(about) => if ValidModels(models) then Some(Group(Draft, true, models, 1, None, about)) else None
  }

  /** A published group may not take a model that is owned already. */
  ghost predicate Free(groups: map<Name, Group>, models: seq<Name>, now: int) {
    forall m :: m in models ==> OwnerOf(groups, m, now).None?
  }

  ghost function PublishedGroup(groups: map<Name, Group>, g: Group, now: int): Option<Group> {
    if g.status == Draft && Free(groups, g.models, now)
    then Some(g.(status := Published, publishedAt := Some(now), revision := g.revision + 1)) else None
  }

  function ArchivedGroup(g: Group): Option<Group> {
    if g.status == Published then Some(g.(status := Archived, enabled := false, revision := g.revision + 1)) else None
  }

  /** The edited group, or nothing when the edit is refused. */
  ghost function Edited(groups: map<Name, Group>, op: GroupOp, now: int): Option<Group> {
    if op.Create? then
      if op.id in groups then None else CreatedGroup(op.models, op.name, op.description, op.pool)
    else if op.id !in groups || groups[op.id].revision != op.expected then None
    else match op
      case Update(_, _, patch) => UpdatedGroup(groups[op.id], patch)
      case Publish(_, _) => PublishedGroup(groups, groups[op.id], now)
      case _ => ArchivedGroup(groups[op.id])
  }

  ghost function Applied(groups: map<Name, Group>, op: GroupOp, now: int): map<Name, Group> {
    var g := Edited(groups, op, now);
    if g.Some? then groups[op.id := g.value] else groups
  }

  // ---------------------------------------------------------------------------------------
  // Uniqueness and frozen history
  // ---------------------------------------------------------------------------------------

  /** The owner does not depend on the order the groups are searched in. */
  lemma OwnerIsUnique(groups: map<Name, Group>, id: Name, model: Name, at: int)
    requires Exclusive(groups) && model != NO_NAME && IsOwner(groups, id, model, at)
    ensures OwnerOf(groups, model, at) == Some(id)
  {
    var owner := OwnerOf(groups, model, at);
    assert Shares(groups[owner.value], groups[id], model);
  }

  /** An edit of one group that neither takes nor gives up a model at an instant changes no owner then. */
  lemma SameOwner(groups: map<Name, Group>, next: map<Name, Group>, model: Name, at: int)
    requires Exclusive(groups) && Exclusive(next)
    requires forall id :: IsOwner(groups, id, model, at) <==> IsOwner(next, id, model, at)
    ensures OwnerOf(next, model, at) == OwnerOf(groups, model, at)
  {
    var a := OwnerOf(groups, model, at);
    if a.Some? { OwnerIsUnique(next, a.value, model, at); }
  }

  lemma EditedGroupOk(groups: map<Name, Group>, clock: int, op: GroupOp, now: int)
    requires CatalogueOk(groups, clock) && clock <= now && Edited(groups, op, now).Some?
    ensures GroupOk(Edited(groups, op, now).value, now)
  {
    if op.Create? { TrimmedTwice(op.name); }
    if op.Update? && op.patch.name.Some? { TrimmedTwice(op.patch.name.value); }
  }

  /** The published group shares no model with any other that ever was published. */
  lemma PublishIsExclusive(groups: map<Name, Group>, clock: int, op: GroupOp, now: int, other: Name, model: Name)
    requires CatalogueOk(groups, clock) && clock <= now && Edited(groups, op, now).Some?
    requires other in groups && other != op.id && groups[other].status != Draft
    requires model in groups[other].models && Edited(groups, op, now).value.status != Draft
    ensures model !in Edited(groups, op, now).value.models
  {
    assert GroupOk(groups[other], clock);
    assert op.id in groups ==> (Shares(groups[op.id], groups[other], model) ==> op.id == other);
    if op.Publish? {
      assert IsOwner(groups, other, model, now);
      assert model != NO_NAME;
      assert OwnerOf(groups, model, now).Some?;
    }
  }

  /** Every operation keeps the catalogue well formed and exclusive. */
  lemma CatalogueKept(groups: map<Name, Group>, clock: int, op: GroupOp, now: int)
    requires CatalogueOk(groups, clock) && clock <= now
    ensures CatalogueOk(Applied(groups, op, now), now)
  {
    var next := Applied(groups, op, now);
    if Edited(groups, op, now).Some? {
      EditedGroupOk(groups, clock, op, now);
      forall a, b, model | a in next && b in next && Shares(next[a], next[b], model)
        ensures a == b
      {
        if a == op.id && b != op.id { PublishIsExclusive(groups, clock, op, now, b, model); }
        if b == op.id && a != op.id { PublishIsExclusive(groups, clock, op, now, a, model); }
      }
    }
  }

  /** What a group owned before now it still owned, and nothing more. */
  lemma OwnedBefore(groups: map<Name, Group>, clock: int, op: GroupOp, now: int, id: Name, model: Name, at: int)
    requires CatalogueOk(groups, clock) && clock <= now && at < now
    ensures IsOwner(Applied(groups, op, now), id, model, at) <==> IsOwner(groups, id, model, at)
  {
  }

  /** The owner of any model at any instant before an operation never changes. */
  lemma OwnerIsFrozen(groups: map<Name, Group>, clock: int, op: GroupOp, now: int, model: Name, at: int)
    requires CatalogueOk(groups, clock) && clock <= now && at < now
    ensures OwnerOf(Applied(groups, op, now), model, at) == OwnerOf(groups, model, at)
  {
    CatalogueKept(groups, clock, op, now);
    forall id ensures IsOwner(groups, id, model, at) <==> IsOwner(Applied(groups, op, now), id, model, at) {
      OwnedBefore(groups, clock, op, now, id, model, at);
    }
    SameOwner(groups, Applied(groups, op, now), model, at);
  }

  /**
   At the very instant of an operation history is not frozen: exactly a publication that brings in
   the model changes who owns it.
   */
  lemma OwnerNowChangesIff(groups: map<Name, Group>, clock: int, op: GroupOp, now: int, model: Name)
    requires CatalogueOk(groups, clock) && clock <= now
    ensures OwnerOf(Applied(groups, op, now), model, now) != OwnerOf(groups, model, now) <==>
              op.Publish? && Edited(groups, op, now).Some? && model in groups[op.id].models
  {
    var next := Applied(groups, op, now);
    CatalogueKept(groups, clock, op, now);
    if op.Publish? && Edited(groups, op, now).Some? && model in groups[op.id].models {
      assert ValidModels(groups[op.id].models);
      assert IsOwner(next, op.id, model, now);
      OwnerIsUnique(next, op.id, model, now);
      assert OwnerOf(groups, model, now).None?;
    } else {
      forall id ensures IsOwner(groups, id, model, now) <==> IsOwner(next, id, model, now) { }
      SameOwner(groups, next, model, now);
    }
  }

  // ---------------------------------------------------------------------------------------
  // The searches
  // ---------------------------------------------------------------------------------------

  method OwnsModel(models: seq<Name>, model: Name) returns (found: bool)
    ensures found <==> model in models
  {
    var i := 0;
    while i < |models|
      invariant 0 <= i <= |models|
      invariant model !in models[..i]
    {
      if models[i] == model { return true; }
      i := i + 1;
    }
    assert models[..i] == models;
    return false;
  }

  /** Groups are visited in an arbitrary order. */
  method ModelOwner(groups: map<Name, Group>, model: Name, at: int) returns (owner: Option<Name>)
    ensures owner.Some? ==> model != NO_NAME && IsOwner(groups, owner.value, model, at)
    ensures owner.None? ==> model == NO_NAME || forall id :: !IsOwner(groups, id, model, at)
    ensures Exclusive(groups) ==> owner == OwnerOf(groups, model, at)
  {
    if model == NO_NAME { return None; }
    var rest := groups.Keys;
    while rest != {}
      invariant rest <= groups.Keys
      invariant forall id :: id in groups && id !in rest ==> !IsOwner(groups, id, model, at)
      decreases |rest|
    {
      var id :| id in rest;
      rest := rest - {id};
      var g := groups[id];
      if g.status == Draft || g.publishedAt.None? || at < g.publishedAt.value { continue; }
      var found := OwnsModel(g.models, model);
      if found {
        if Exclusive(groups) { OwnerIsUnique(groups, id, model, at); }
        return Some(id);
      }
    }
    return None;
  }

  /** Whether some model is owned already. */
  method AnyOwned(groups: map<Name, Group>, models: seq<Name>, now: int) returns (conflict: bool)
    requires Exclusive(groups)
    ensures conflict <==> !Free(groups, models, now)
  {
    var i := 0;
    while i < |models|
      invariant 0 <= i <= |models|
      invariant forall j :: 0 <= j < i ==> OwnerOf(groups, models[j], now).None?
    {
      var owner := ModelOwner(groups, models[i], now);
      if owner.Some? {
        assert models[i] in models;
        return true;
      }
      i := i + 1;
    }
    return false;
  }

  method RequestModelOwner(groups: map<Name, Group>, model: Name, at: int,
          strip: Name -> Name) returns (owner: Option<Name>)
    requires Exclusive(groups)
    ensures owner == RequestOwner(groups, model, at, strip)
  {
    owner := ModelOwner(groups, model, at);
    if owner.None? { owner := ModelOwner(groups, strip(model), at); }
  }
}
