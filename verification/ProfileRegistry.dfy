/**
 The stored conversion profiles, the index of their identifiers, and the bindings that refer to them.
 */
module ProfileRegistry {
  import opened Options
  import opened Bindings
  import B = BindingIndex
  import M = Mapping

  type Profiles = map<string, M.Profile>

  datatype Outcome = Completed | BuiltIn | NoSuchProfile | IdTaken | Invalid | InUse | NotSaved

  /** What validation says of a profile, and of a profile for the bindings of a stage. */
  datatype Checks = Checks(accepts: M.Profile -> bool, fits: (M.Profile, Stage) -> bool)

  predicate Known(builtIns: Profiles, profiles: Profiles, id: string) {
    id in builtIns || id in profiles
  }

  function Lookup(builtIns: Profiles, profiles: Profiles, id: string): M.Profile
    requires Known(builtIns, profiles, id)
  {
    if id in builtIns then builtIns[id] else profiles[id]
  }

  /** The identifier index is a bijection with the profiles, built in and stored, none of which share an id. */
  ghost predicate Indexed(builtIns: Profiles, profiles: Profiles, ids: map<string, string>) {
    && builtIns.Keys !! profiles.Keys
    && (forall n :: n in ids ==> Known(builtIns, profiles, ids[n]) && Lookup(builtIns, profiles, ids[n]).identifier == n)
    && (forall id :: Known(builtIns, profiles, id) ==>
          Lookup(builtIns, profiles, id).identifier in ids && ids[Lookup(builtIns, profiles, id).identifier] == id)
    && (forall id :: id in profiles ==> profiles[id].id == id)
  }

  /** Every binding that names a profile names one that exists. */
  ghost predicate Referenced(builtIns: Profiles, profiles: Profiles, bindings: Table) {
    forall b :: b in bindings && bindings[b].profile != "" ==> Known(builtIns, profiles, bindings[b].profile)
  }

  /** The stored profiles after storing one more, and the index after moving its identifier. */
  function Stored(profiles: Profiles, p: M.Profile): Profiles {
    profiles[p.id := p]
  }

  function Renamed(profiles: Profiles, ids: map<string, string>, p: M.Profile): map<string, string> {
    (if p.id in profiles then ids - {profiles[p.id].identifier} else ids)[p.identifier := p.id]
  }

  predicate FreeName(ids: map<string, string>, p: M.Profile) {
    p.identifier in ids ==> ids[p.identifier] == p.id
  }

  lemma StoringKeepsIndexed(builtIns: Profiles, profiles: Profiles, ids: map<string, string>, p: M.Profile)
    requires Indexed(builtIns, profiles, ids) && p.id !in builtIns && FreeName(ids, p)
    ensures Indexed(builtIns, Stored(profiles, p), Renamed(profiles, ids, p))
  {
    var profiles', ids' := Stored(profiles, p), Renamed(profiles, ids, p);
    forall id | Known(builtIns, profiles', id)
      ensures Lookup(builtIns, profiles', id).identifier in ids' && ids'[Lookup(builtIns, profiles', id).identifier] == id
    {
      if id != p.id {
        assert Lookup(builtIns, profiles', id) == Lookup(builtIns, profiles, id);
        assert ids[Lookup(builtIns, profiles, id).identifier] == id;
        assert p.id in profiles ==> ids[profiles[p.id].identifier] == p.id by { assert p.id in profiles ==> Known(builtIns, profiles, p.id); }
      }
    }
  }

  lemma RemovingKeepsIndexed(builtIns: Profiles, profiles: Profiles, ids: map<string, string>, id: string)
    requires Indexed(builtIns, profiles, ids) && id in profiles
    ensures Indexed(builtIns, profiles - {id}, ids - {profiles[id].identifier})
  {
    var profiles' := profiles - {id};
    assert id !in builtIns && Known(builtIns, profiles, id) && Lookup(builtIns, profiles, id) == profiles[id];
    forall n | n in ids && n != profiles[id].identifier
      ensures ids[n] != id && Known(builtIns, profiles', ids[n]) && Lookup(builtIns, profiles', ids[n]).identifier == n
    {
      assert Known(builtIns, profiles, ids[n]);
    }
    forall other | Known(builtIns, profiles', other)
      ensures var n := Lookup(builtIns, profiles', other).identifier;
              n != profiles[id].identifier && n in ids && ids[n] == other
    {
      assert Known(builtIns, profiles, other) && Lookup(builtIns, profiles', other) == Lookup(builtIns, profiles, other);
      assert ids[Lookup(builtIns, profiles, other).identifier] == other && ids[profiles[id].identifier] == id;
    }
  }

  /** The id a reference stands for: ids go before identifiers. */
  function Resolved(builtIns: Profiles, profiles: Profiles, ids: map<string, string>, reference: string): string {
    if reference == "" || Known(builtIns, profiles, reference) || reference !in ids then reference else ids[reference]
  }

  /** A reference stands for an existing profile if it is its id, or its identifier and no other profile's id. */
  lemma ResolvedIsKnown(builtIns: Profiles, profiles: Profiles, ids: map<string, string>, reference: string)
    requires Indexed(builtIns, profiles, ids) && reference != ""
    ensures var id := Resolved(builtIns, profiles, ids, reference);
            Known(builtIns, profiles, id) <==>
              Known(builtIns, profiles, reference)
              || exists p :: Known(builtIns, profiles, p) && Lookup(builtIns, profiles, p).identifier == reference
  {
    if reference in ids {
      assert Known(builtIns, profiles, ids[reference]) && Lookup(builtIns, profiles, ids[reference]).identifier == reference;
    }
  }

  /** Ids go before identifiers: a reference that is an id stands for itself, else for the profile with that identifier. */
  lemma IdsGoFirst(builtIns: Profiles, profiles: Profiles, ids: map<string, string>, reference: string, id: string)
    requires Indexed(builtIns, profiles, ids) && reference != ""
    ensures reference in builtIns || reference in profiles ==> Resolved(builtIns, profiles, ids, reference) == reference
    ensures reference !in builtIns && reference !in profiles
              && ((id in builtIns && builtIns[id].identifier == reference) || (id in profiles && profiles[id].identifier == reference)) ==>
              Resolved(builtIns, profiles, ids, reference) == id
  {
    if Known(builtIns, profiles, id) {
      assert Lookup(builtIns, profiles, id).identifier in ids;
    }
  }

  // ----- importing several profiles -----

  /** No two of the imported profiles share an id or an identifier. */
  predicate DistinctProfiles(items: seq<M.Profile>) {
    forall i, j :: 0 <= i < j < |items| ==> items[i].id != items[j].id && items[i].identifier != items[j].identifier
  }

  function StoredAll(profiles: Profiles, items: seq<M.Profile>): Profiles {
    if items == [] then profiles else Stored(StoredAll(profiles, items[..|items| - 1]), items[|items| - 1])
  }

  predicate Newer(profiles: Profiles, p: M.Profile) {
    p.id in profiles ==> p.version > profiles[p.id].version
  }

  predicate FitsBindings(checks: Checks, bindings: Table, p: M.Profile) {
    forall b :: b in bindings && bindings[b].profile == p.id ==> checks.fits(p, bindings[b].EffectiveStage())
  }

  predicate Importable(checks: Checks, builtIns: Profiles, profiles: Profiles, ids: map<string, string>, bindings: Table, p: M.Profile) {
    p.id !in builtIns && Newer(profiles, p) && FreeName(ids, p) && FitsBindings(checks, bindings, p)
  }

  lemma {:induction false} StoredAllHas(profiles: Profiles, items: seq<M.Profile>, id: string)
    requires DistinctProfiles(items)
    ensures forall i :: 0 <= i < |items| && items[i].id == id ==>
              id in StoredAll(profiles, items) && StoredAll(profiles, items)[id] == items[i]
    ensures (forall i :: 0 <= i < |items| ==> items[i].id != id) ==>
              (id in StoredAll(profiles, items) <==> id in profiles)
              && (id in profiles ==> StoredAll(profiles, items)[id] == profiles[id])
  {
    if items != [] {
      var last := |items| - 1;
      var front := items[..last];
      StoredAllHas(profiles, front, id);
      assert forall i :: 0 <= i < last ==> front[i] == items[i];
      assert StoredAll(profiles, items) == Stored(StoredAll(profiles, front), items[last]);
      if items[last].id != id && exists i :: 0 <= i < |items| && items[i].id == id {
        var i :| 0 <= i < |items| && items[i].id == id;
        assert front[i].id == id;
      }
    }
  }

  /** A change keeps the id, and the identifier unless it gives one. */
  function Changed(id: string, profiles: Profiles, changed: M.Profile): M.Profile
    requires id in profiles
  {
    changed.(id := id, identifier := if changed.identifier == "" then profiles[id].identifier else changed.identifier)
  }

  /** A stored change has the id it was asked for and, with or without giving it again, an identifier; all else is as given. */
  lemma ChangeIsStored(profiles: Profiles, id: string, changed: M.Profile)
    requires id in profiles
    ensures var p := Changed(id, profiles, changed);
            && Stored(profiles, p) == profiles[id := p]
            && p == changed.(id := p.id, identifier := p.identifier) && p.id == id
            && p.identifier == (if changed.identifier != "" then changed.identifier else profiles[id].identifier)
  {
  }

  /** What may be stored: not under a built-in id, newer than what it replaces, and without taking an identifier away. */
  lemma StorableExactlyIf(checks: Checks, builtIns: Profiles, profiles: Profiles, ids: map<string, string>, bindings: Table, p: M.Profile)
    requires Indexed(builtIns, profiles, ids)
    ensures Importable(checks, builtIns, profiles, ids, bindings, p) <==>
              && p.id !in builtIns && (p.id in profiles ==> profiles[p.id].version < p.version)
              && (forall id :: id in profiles && id != p.id ==> profiles[id].identifier != p.identifier)
              && (forall id :: id in builtIns ==> builtIns[id].identifier != p.identifier)
              && (forall b :: b in bindings && bindings[b].profile == p.id ==>
                    checks.fits(p, if bindings[b].stage == Consumer then Consumer else Provider))
  {
    forall id | Known(builtIns, profiles, id)
      ensures Lookup(builtIns, profiles, id).identifier in ids && ids[Lookup(builtIns, profiles, id).identifier] == id
    {
    }
    if p.identifier in ids {
      assert Known(builtIns, profiles, ids[p.identifier]) && Lookup(builtIns, profiles, ids[p.identifier]).identifier == p.identifier;
    }
    assert forall id :: id in profiles ==> Known(builtIns, profiles, id) && Lookup(builtIns, profiles, id) == profiles[id];
    assert forall id :: id in builtIns ==> Known(builtIns, profiles, id) && Lookup(builtIns, profiles, id) == builtIns[id];
  }

  /** Importing never takes a profile away and never puts an older version in its place. */
  lemma VersionsOnlyGrow(checks: Checks, builtIns: Profiles, profiles: Profiles, ids: map<string, string>, bindings: Table,
                         items: seq<M.Profile>, id: string)
    requires DistinctProfiles(items) && id in profiles
    requires forall i :: 0 <= i < |items| ==> Importable(checks, builtIns, profiles, ids, bindings, items[i])
    ensures id in StoredAll(profiles, items) && StoredAll(profiles, items)[id].version >= profiles[id].version
    ensures StoredAll(profiles, items)[id].version == profiles[id].version ==> StoredAll(profiles, items)[id] == profiles[id]
  {
    StoredAllHas(profiles, items, id);
    if i :| 0 <= i < |items| && items[i].id == id {
      assert Newer(profiles, items[i]);
    }
  }

  class Registry {
    const builtIns: Profiles
    const checks: Checks
    const routes: B.BindingTable
    var profiles: Profiles
    var ids: map<string, string>

    ghost predicate Valid()
      reads this, routes
    {
      && routes.Valid() && Indexed(builtIns, profiles, ids) && Referenced(builtIns, profiles, routes.bindings)
    }

    /** A registry that holds the built-in profiles only; their identifiers are distinct. */
    constructor (builtIns: Profiles, ids: map<string, string>, checks: Checks, routes: B.BindingTable)
      requires Indexed(builtIns, map[], ids) && routes.Valid() && routes.bindings == map[]
      ensures Valid() && profiles == map[] && this.builtIns == builtIns && this.routes == routes
    {
      this.builtIns, this.ids, this.checks, this.routes := builtIns, ids, checks, routes;
      profiles := map[];
    }

    /** Profiles may be referred to by identifier; stored bindings hold ids. */
    method ResolveReference(reference: string) returns (id: string)
      requires Valid()
      ensures id == Resolved(builtIns, profiles, ids, reference)
    {
      if reference == "" {
        return "";
      }
      if reference in builtIns || reference in profiles {
        return reference;
      }
      if reference in ids {
        return ids[reference];
      }
      return reference;
    }

    /** Store a profile under a new id. */
    method Create(item: M.Profile, saved: bool) returns (outcome: Outcome)
      requires Valid()
      modifies this
      ensures Valid()
      ensures outcome == Completed <==> checks.accepts(item) && !Known(builtIns, old(profiles), item.id) && item.identifier !in old(ids) && saved
      ensures profiles == if outcome == Completed then Stored(old(profiles), item) else old(profiles)
    {
      if !checks.accepts(item) {
        return Invalid;
      }
      if item.id in builtIns {
        return BuiltIn;
      }
      if item.id in profiles {
        return IdTaken;
      }
      if item.identifier in ids {
        return Invalid;
      }
      if !saved {
        return NotSaved;
      }
      StoringKeepsIndexed(builtIns, profiles, ids, item);
      ids := ids[item.identifier := item.id];
      profiles := profiles[item.id := item];
      return Completed;
    }

    /** Replace a profile by a newer version that still fits every binding that uses it. */
    method Update(reference: string, changed: M.Profile, saved: bool) returns (outcome: Outcome, ghost id: string)
      requires Valid()
      modifies this
      ensures Valid()
      ensures id == Resolved(builtIns, old(profiles), old(ids), reference)
      ensures outcome == Completed <==>
                && id in old(profiles) && saved
                && var item := Changed(id, old(profiles), changed);
                   checks.accepts(item) && Importable(checks, builtIns, old(profiles), old(ids), routes.bindings, item)
      ensures outcome == Completed ==> profiles == Stored(old(profiles), Changed(id, old(profiles), changed))
      ensures outcome != Completed ==> profiles == old(profiles)
    {
      var target := ResolveReference(reference);
      id := target;
      if target in builtIns {
        return BuiltIn, id;
      }
      if target !in profiles {
        return NoSuchProfile, id;
      }
      var current := profiles[target];
      var item := Changed(target, profiles, changed);
      if !checks.accepts(item) || item.version <= current.version {
        return Invalid, id;
      }
      if item.identifier in ids && ids[item.identifier] != target {
        return Invalid, id;
      }
      var fits := FitsAll(item);
      if !fits {
        return Invalid, id;
      }
      if !saved {
        return NotSaved, id;
      }
      StoringKeepsIndexed(builtIns, profiles, ids, item);
      ids := ids - {current.identifier};
      profiles := profiles[target := item];
      ids := ids[item.identifier := target];
      return Completed, id;
    }

    method FitsAll(item: M.Profile) returns (fits: bool)
      ensures fits == FitsBindings(checks, routes.bindings, item)
    {
      var left := routes.bindings.Keys;
      while left != {}
        invariant left <= routes.bindings.Keys
        invariant forall b :: b in routes.bindings && b !in left && routes.bindings[b].profile == item.id ==>
                    checks.fits(item, routes.bindings[b].EffectiveStage())
        decreases |left|
      {
        var b :| b in left;
        left := left - {b};
        if routes.bindings[b].profile == item.id && !checks.fits(item, routes.bindings[b].EffectiveStage()) {
          return false;
        }
      }
      return true;
    }

    method UsedByBinding(id: string) returns (used: bool)
      ensures used <==> exists b :: b in routes.bindings && routes.bindings[b].profile == id
    {
      var left := routes.bindings.Keys;
      while left != {}
        invariant left <= routes.bindings.Keys
        invariant forall b :: b in routes.bindings && b !in left ==> routes.bindings[b].profile != id
        decreases |left|
      {
        var b :| b in left;
        left := left - {b};
        if routes.bindings[b].profile == id {
          return true;
        }
      }
      return false;
    }

    /** Remove a stored profile that no binding refers to. */
    method Delete(reference: string, removed: bool) returns (outcome: Outcome, ghost id: string)
      requires Valid()
      modifies this
      ensures Valid()
      ensures id == Resolved(builtIns, old(profiles), old(ids), reference)
      ensures outcome == Completed <==>
                id in old(profiles) && removed && forall b :: b in routes.bindings ==> routes.bindings[b].profile != id
      ensures outcome == Completed ==> profiles == old(profiles) - {id}
      ensures outcome != Completed ==> profiles == old(profiles) && ids == old(ids)
    {
      var target := ResolveReference(reference);
      id := target;
      if target in builtIns {
        return BuiltIn, id;
      }
      if target !in profiles {
        return NoSuchProfile, id;
      }
      var used := UsedByBinding(target);
      if used {
        return InUse, id;
      }
      if !removed {
        return NotSaved, id;
      }
      RemovingKeepsIndexed(builtIns, profiles, ids, target);
      ids := ids - {profiles[target].identifier};
      profiles := profiles - {target};
      return Completed, id;
    }

    /** Store several profiles, all or none. */
    method Import(items: seq<M.Profile>, saved: bool) returns (outcome: Outcome)
      requires Valid()
      modifies this
      ensures Valid()
      ensures outcome == Completed <==>
                && items != [] && DistinctProfiles(items) && saved
                && (forall i :: 0 <= i < |items| ==> checks.accepts(items[i]))
                && (forall i :: 0 <= i < |items| ==> Importable(checks, builtIns, old(profiles), old(ids), routes.bindings, items[i]))
      ensures profiles == if outcome == Completed then StoredAll(old(profiles), items) else old(profiles)
    {
      if items == [] {
        return Invalid;
      }
      var distinct := CheckDistinct(items);
      if !distinct {
        return Invalid;
      }
      var importable := CheckImportable(items);
      if !importable {
        return Invalid;
      }
      if !saved {
        return NotSaved;
      }
      for k := 0 to |items|
        invariant Indexed(builtIns, profiles, ids) && profiles == StoredAll(old(profiles), items[..k])
        invariant forall m :: k <= m < |items| ==> FreeName(ids, items[m])
      {
        assert items[..k + 1][..k] == items[..k];
        StoringKeepsIndexed(builtIns, profiles, ids, items[k]);
        if items[k].id in profiles {
          ids := ids - {profiles[items[k].id].identifier};
        }
        profiles := profiles[items[k].id := items[k]];
        ids := ids[items[k].identifier := items[k].id];
      }
      assert items[..|items|] == items;
      forall id | id in old(profiles)
        ensures id in profiles
      {
        StoredAllHas(old(profiles), items, id);
      }
      return Completed;
    }

    method CheckDistinct(items: seq<M.Profile>) returns (ok: bool)
      ensures ok <==> DistinctProfiles(items) && forall i :: 0 <= i < |items| ==> checks.accepts(items[i])
    {
      var seen, seenIdentifiers := {}, {};
      for k := 0 to |items|
        invariant DistinctProfiles(items[..k]) && forall i :: 0 <= i < k ==> checks.accepts(items[i])
        invariant seen == set i | 0 <= i < k :: items[i].id
        invariant seenIdentifiers == set i | 0 <= i < k :: items[i].identifier
      {
        if !checks.accepts(items[k]) || items[k].id in seen || items[k].identifier in seenIdentifiers {
          return false;
        }
        seen := seen + {items[k].id};
        seenIdentifiers := seenIdentifiers + {items[k].identifier};
      }
      assert items[..|items|] == items;
      return true;
    }

    method CheckImportable(items: seq<M.Profile>) returns (ok: bool)
      ensures ok <==> forall i :: 0 <= i < |items| ==> Importable(checks, builtIns, profiles, ids, routes.bindings, items[i])
    {
      for k := 0 to |items|
        invariant forall i :: 0 <= i < k ==> Importable(checks, builtIns, profiles, ids, routes.bindings, items[i])
      {
        var item := items[k];
        if item.id in builtIns || (item.id in profiles && item.version <= profiles[item.id].version)
           || (item.identifier in ids && ids[item.identifier] != item.id) {
          return false;
        }
        var fits := FitsAll(item);
        if !fits {
          return false;
        }
      }
      return true;
    }

    /** A new binding names its profile by id or identifier; one that names none or an existing one may be stored. */
    method CreateBinding(item: Binding, accepted: bool, saved: bool) returns (outcome: Bindings.Outcome, ghost stored: Binding)
      requires Valid()
      modifies routes
      ensures Valid()
      ensures stored == item.(profile := Resolved(builtIns, profiles, ids, item.profile)).Canonical()
      ensures outcome.Done? ==> stored.profile == "" || Known(builtIns, profiles, stored.profile)
      ensures outcome == Creating(old(routes.bindings), item.(profile := stored.profile),
                                  accepted && (stored.profile == "" || Known(builtIns, profiles, stored.profile)), saved)
      ensures routes.bindings == if outcome.Done? then old(routes.bindings)[item.id := stored] else old(routes.bindings)
    {
      var profile, known := ResolveForBinding(item.profile);
      var named := item.(profile := profile);
      stored := named.Canonical();
      CanonicalKeepsProfile(named);
      StoringKeepsReferenced(builtIns, profiles, routes.bindings, stored);
      outcome := routes.CreateBinding(named, accepted && known, saved);
    }

    method UpdateBinding(id: string, item: Binding, accepted: bool, saved: bool) returns (outcome: Bindings.Outcome, ghost stored: Binding)
      requires Valid()
      modifies routes
      ensures Valid()
      ensures stored == item.(id := id, profile := Resolved(builtIns, profiles, ids, item.profile)).Canonical()
      ensures outcome.Done? ==> stored.profile == "" || Known(builtIns, profiles, stored.profile)
      ensures outcome == Updating(old(routes.bindings), id, item.(profile := stored.profile),
                                  accepted && (stored.profile == "" || Known(builtIns, profiles, stored.profile)), saved)
      ensures routes.bindings == if outcome.Done? then old(routes.bindings)[id := stored] else old(routes.bindings)
    {
      var profile, known := ResolveForBinding(item.profile);
      var named := item.(profile := profile);
      stored := named.(id := id).Canonical();
      CanonicalKeepsProfile(named.(id := id));
      StoringKeepsReferenced(builtIns, profiles, routes.bindings, stored);
      outcome := routes.UpdateBinding(id, named, accepted && known, saved);
    }

    method ResolveForBinding(reference: string) returns (profile: string, known: bool)
      requires Valid()
      ensures profile == Resolved(builtIns, profiles, ids, reference)
      ensures known <==> profile == "" || Known(builtIns, profiles, profile)
    {
      profile := ResolveReference(reference);
      known := profile == "" || profile in builtIns || profile in profiles;
    }
  }

  lemma CanonicalKeepsProfile(b: Binding)
    ensures b.Canonical().profile == b.profile && b.Canonical().id == b.id
  {
  }

  lemma StoringKeepsReferenced(builtIns: Profiles, profiles: Profiles, bindings: Table, b: Binding)
    requires Referenced(builtIns, profiles, bindings)
    ensures b.profile == "" || Known(builtIns, profiles, b.profile) ==> Referenced(builtIns, profiles, bindings[b.id := b])
  {
  }
}
