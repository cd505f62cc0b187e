/** The binding table and its two indexes, updated in place. */
module BindingIndex {
  import opened Options
  import opened StringOrder
  import opened Bindings

  function Ids(byKey: map<Key, seq<string>>, key: Key): seq<string> {
    if key in byKey then byKey[key] else []
  }

  ghost predicate Tidy(byKey: map<Key, seq<string>>) {
    forall k :: k in byKey ==> byKey[k] != [] && Ascending(byKey[k])
  }

  /** Under every key the index lists exactly the bindings with that key, in ascending order and once each. */
  ghost predicate KeysAgree(bindings: Table, byKey: map<Key, seq<string>>) {
    Tidy(byKey) && forall k, id :: id in Ids(byKey, k) <==> id in bindings && bindings[id].SourceKey() == k
  }

  /** The model index is a bijection with the provider bindings. */
  ghost predicate ModelsAgree(bindings: Table, byModel: map<Key, string>) {
    && (forall k :: k in byModel ==> byModel[k] in bindings && bindings[byModel[k]].IsProvider() && bindings[byModel[k]].ModelKey() == k)
    && (forall id :: id in bindings && bindings[id].IsProvider() ==>
          bindings[id].ModelKey() in byModel && byModel[bindings[id].ModelKey()] == id)
  }

  /** The indexes hold nothing that is not in the bindings: equal bindings have equal indexes, however they came about. */
  lemma IndexesAreDetermined(bindings: Table, byKey: map<Key, seq<string>>, byModel: map<Key, string>,
                             byKey': map<Key, seq<string>>, byModel': map<Key, string>)
    requires KeysAgree(bindings, byKey) && ModelsAgree(bindings, byModel)
    requires KeysAgree(bindings, byKey') && ModelsAgree(bindings, byModel')
    ensures byKey == byKey' && byModel == byModel'
  {
    forall k
      ensures k in byKey <==> k in byKey'
      ensures k in byKey ==> byKey[k] == byKey'[k]
    {
      SameIds(bindings, byKey, byKey', k);
    }
    forall k
      ensures k in byModel <==> k in byModel'
      ensures k in byModel ==> byModel[k] == byModel'[k]
    {
    }
  }

  lemma SameIds(bindings: Table, byKey: map<Key, seq<string>>, byKey': map<Key, seq<string>>, k: Key)
    requires KeysAgree(bindings, byKey) && KeysAgree(bindings, byKey')
    ensures (k in byKey <==> k in byKey') && Ids(byKey, k) == Ids(byKey', k)
  {
    forall id
      ensures id in Ids(byKey, k) <==> id in Ids(byKey', k)
    {
      assert id in Ids(byKey, k) <==> id in bindings && bindings[id].SourceKey() == k;
    }
    AscendingIsUnique(Ids(byKey, k), Ids(byKey', k));
  }

  class BindingTable {
    var bindings: Table
    var byKey: map<Key, seq<string>>
    var byModel: map<Key, string>

    ghost predicate Valid()
      reads this
    {
      Consistent(bindings) && KeysAgree(bindings, byKey) && ModelsAgree(bindings, byModel)
    }

    constructor ()
      ensures Valid() && bindings == map[]
    {
      bindings, byKey, byModel := map[], map[], map[];
    }

    /** List an identifier under a key, unless it is there already. */
    method AddKey(key: Key, id: string)
      requires Tidy(byKey)
      modifies `byKey
      ensures Tidy(byKey)
      ensures forall k, x :: x in Ids(byKey, k) <==> x in Ids(old(byKey), k) || (k == key && x == id)
    {
      var ids := Ids(byKey, key);
      var index := 0;
      while index < |ids|
        invariant index <= |ids| && id !in ids[..index]
      {
        if ids[index] == id {
          return;
        }
        index := index + 1;
      }
      assert ids[..index] == ids;
      AppendingSorts(ids, id);
      byKey := byKey[key := Sorted(ids + [id])];
    }

    static lemma AppendingSorts(ids: seq<string>, id: string)
      requires Ascending(ids) && id !in ids
      ensures Ascending(Sorted(ids + [id])) && forall x :: x in Sorted(ids + [id]) <==> x in ids || x == id
    {
      assert (ids + [id])[..|ids|] == ids;
      SortedIsStable(ids);
      InsertAdds(ids, id);
      InsertKeepsAscending(ids, id);
    }

    /** Take an identifier off a key; a key without identifiers goes too. */
    method RemoveKey(key: Key, id: string)
      requires Tidy(byKey)
      modifies `byKey
      ensures Tidy(byKey)
      ensures forall k, x :: x in Ids(byKey, k) <==> x in Ids(old(byKey), k) && !(k == key && x == id)
    {
      var ids := Ids(byKey, key);
      var index := 0;
      while index < |ids| && ids[index] != id
        invariant index <= |ids| && id !in ids[..index]
      {
        index := index + 1;
      }
      if index < |ids| {
        OneOccurrence(ids, index);
        ids := ids[..index] + ids[index + 1..];
      }
      if |ids| == 0 {
        byKey := byKey - {key};
        return;
      }
      byKey := byKey[key := ids];
    }

    static lemma OneOccurrence(ids: seq<string>, index: nat)
      requires Ascending(ids) && index < |ids|
      ensures var rest := ids[..index] + ids[index + 1..];
              Ascending(rest) && forall x :: x in rest <==> x in ids && x != ids[index]
    {
      var rest := ids[..index] + ids[index + 1..];
      forall i, j | 0 <= i < j < |rest|
        ensures Less(rest[i], rest[j])
      {
        assert rest[i] == ids[if i < index then i else i + 1] && rest[j] == ids[if j < index then j else j + 1];
      }
      forall x | x in ids && x != ids[index]
        ensures x in rest
      {
        var i :| 0 <= i < |ids| && ids[i] == x;
        assert rest[if i < index then i else i - 1] == x;
      }
      forall x | x in rest
        ensures x in ids && x != ids[index]
      {
        var i :| 0 <= i < |rest| && rest[i] == x;
        var k := if i < index then i else i + 1;
        assert ids[k] == x;
        if x == ids[index] { AscendingIsDistinct(ids, k, index); }
      }
    }

    method HasOtherKey(key: Key, id: string) returns (found: bool)
      ensures found <==> exists x :: x in Ids(byKey, key) && x != id
    {
      var ids := Ids(byKey, key);
      var index := 0;
      while index < |ids|
        invariant index <= |ids| && forall i :: 0 <= i < index ==> ids[i] == id
      {
        if ids[index] != id {
          assert ids[index] in Ids(byKey, key);
          return true;
        }
        index := index + 1;
      }
      return false;
    }

    /** Store a new binding, unless its id or its place is taken. */
    method CreateBinding(item: Binding, accepted: bool, saved: bool) returns (outcome: Outcome)
      requires Valid()
      modifies this
      ensures Valid() && Changes(old(bindings), Create(item, accepted, saved), bindings)
      ensures outcome == Creating(old(bindings), item, accepted, saved)
      ensures bindings == if outcome == Done then old(bindings)[item.id := item.Canonical()] else old(bindings)
    {
      var stored := item.Canonical();
      CanonicalKeepsRoute(item);
      if !accepted {
        return Rejected;
      }
      if stored.id in bindings {
        return AlreadyExists;
      }
      if !stored.IsProvider() && |Ids(byKey, stored.SourceKey())| > 0 {
        TakenKey(bindings, byKey, stored);
        return AlreadyExists;
      }
      if stored.IsProvider() && stored.ModelKey() in byModel {
        return AlreadyExists;
      }
      PlaceIsFree(bindings, byKey, byModel, stored);
      if !saved {
        return StoreFailed;
      }
      List(stored);
      return Done;
    }

    static lemma TakenKey(bindings: Table, byKey: map<Key, seq<string>>, b: Binding)
      requires KeysAgree(bindings, byKey) && !b.IsProvider() && b.id !in bindings && |Ids(byKey, b.SourceKey())| > 0
      ensures !Free(bindings, b)
    {
      var id := Ids(byKey, b.SourceKey())[0];
      assert id in Ids(byKey, b.SourceKey());
      assert id in bindings && bindings[id].SourceKey() == b.SourceKey();
      assert Clash(bindings[id], b) && id != b.id;
    }

    static lemma PlaceIsFree(bindings: Table, byKey: map<Key, seq<string>>, byModel: map<Key, string>, b: Binding)
      requires KeysAgree(bindings, byKey) && ModelsAgree(bindings, byModel)
      requires b.IsProvider() ==> b.ModelKey() !in byModel || byModel[b.ModelKey()] == b.id
      requires !b.IsProvider() ==> Ids(byKey, b.SourceKey()) == [] || forall x :: x in Ids(byKey, b.SourceKey()) ==> x == b.id
      ensures Free(bindings, b)
    {
      forall id | id in bindings && id != b.id
        ensures !Clash(bindings[id], b)
      {
        assert id in Ids(byKey, bindings[id].SourceKey());
      }
    }

    /** Replace a binding; its stage and both sides of its route may change. */
    method UpdateBinding(id: string, item: Binding, accepted: bool, saved: bool) returns (outcome: Outcome)
      requires Valid()
      modifies this
      ensures Valid() && Changes(old(bindings), Update(id, item, accepted, saved), bindings)
      ensures outcome == Updating(old(bindings), id, item, accepted, saved)
      ensures bindings == if outcome == Done then old(bindings)[id := item.(id := id).Canonical()] else old(bindings)
    {
      var stored := item.(id := id).Canonical();
      CanonicalKeepsRoute(item.(id := id));
      if id !in bindings {
        return NotFound;
      }
      var current := bindings[id];
      if !accepted {
        return Rejected;
      }
      if !stored.IsProvider() {
        var other := HasOtherKey(stored.SourceKey(), id);
        if other {
          OtherHasKey(bindings, byKey, stored);
          return AlreadyExists;
        }
      }
      if stored.IsProvider() && stored.ModelKey() in byModel && byModel[stored.ModelKey()] != id {
        return AlreadyExists;
      }
      PlaceIsFree(bindings, byKey, byModel, stored);
      if !saved {
        return StoreFailed;
      }
      Replace(current, stored);
      return Done;
    }

    method Replace(current: Binding, item: Binding)
      requires Valid() && item.id in bindings && bindings[item.id] == current
      requires Free(bindings, item) && item.Canonical() == item
      modifies this
      ensures Valid() && bindings == old(bindings)[item.id := item]
    {
      Unlist(current);
      List(item);
    }

    static lemma OtherHasKey(bindings: Table, byKey: map<Key, seq<string>>, b: Binding)
      requires KeysAgree(bindings, byKey) && !b.IsProvider()
      requires exists x :: x in Ids(byKey, b.SourceKey()) && x != b.id
      ensures !Free(bindings, b)
    {
      var id :| id in Ids(byKey, b.SourceKey()) && id != b.id;
      assert id in bindings && bindings[id].SourceKey() == b.SourceKey();
      assert Clash(bindings[id], b);
    }

    /** Take a stored binding out of both indexes and the table. */
    method Unlist(item: Binding)
      requires Valid() && item.id in bindings && bindings[item.id] == item
      modifies this
      ensures Valid() && bindings == old(bindings) - {item.id}
    {
      bindings := bindings - {item.id};
      RemoveKey(item.SourceKey(), item.id);
      UnlistedKeys(old(bindings), old(byKey), item, byKey);
      UnlistedModels(old(bindings), byModel, item);
      if item.IsProvider() {
        byModel := byModel - {item.ModelKey()};
      }
    }

    static lemma UnlistedKeys(bindings: Table, byKey: map<Key, seq<string>>, item: Binding, byKey': map<Key, seq<string>>)
      requires KeysAgree(bindings, byKey) && Tidy(byKey') && item.id in bindings && bindings[item.id] == item
      requires forall k, x :: x in Ids(byKey', k) <==> x in Ids(byKey, k) && !(k == item.SourceKey() && x == item.id)
      ensures KeysAgree(bindings - {item.id}, byKey')
    {
    }

    static lemma UnlistedModels(bindings: Table, byModel: map<Key, string>, item: Binding)
      requires ModelsAgree(bindings, byModel) && item.id in bindings && bindings[item.id] == item
      ensures ModelsAgree(bindings - {item.id}, if item.IsProvider() then byModel - {item.ModelKey()} else byModel)
    {
    }

    /** Put a binding whose id and place are free into the table and both indexes. */
    method List(item: Binding)
      requires Valid() && item.id !in bindings && Free(bindings, item) && item.Canonical() == item
      modifies this
      ensures Valid() && bindings == old(bindings)[item.id := item]
    {
      bindings := bindings[item.id := item];
      AddKey(item.SourceKey(), item.id);
      ListedKeys(old(bindings), old(byKey), item, byKey);
      ListedModels(old(bindings), byModel, item);
      StoringKeepsConsistent(old(bindings), item);
      if item.IsProvider() {
        byModel := byModel[item.ModelKey() := item.id];
      }
    }

    static lemma ListedKeys(bindings: Table, byKey: map<Key, seq<string>>, item: Binding, byKey': map<Key, seq<string>>)
      requires KeysAgree(bindings, byKey) && Tidy(byKey') && item.id !in bindings
      requires forall k, x :: x in Ids(byKey', k) <==> x in Ids(byKey, k) || (k == item.SourceKey() && x == item.id)
      ensures KeysAgree(bindings[item.id := item], byKey')
    {
    }

    static lemma ListedModels(bindings: Table, byModel: map<Key, string>, item: Binding)
      requires ModelsAgree(bindings, byModel) && item.id !in bindings && Free(bindings, item)
      ensures ModelsAgree(bindings[item.id := item], if item.IsProvider() then byModel[item.ModelKey() := item.id] else byModel)
    {
      forall id | id in bindings && bindings[id].IsProvider() && item.IsProvider()
        ensures bindings[id].ModelKey() != item.ModelKey()
      {
        assert !Clash(bindings[id], item);
      }
    }

    method DeleteBinding(id: string, removed: bool) returns (outcome: Outcome)
      requires Valid()
      modifies this
      ensures Valid() && Changes(old(bindings), Delete(id, removed), bindings)
      ensures outcome == if id !in old(bindings) then NotFound else if removed then Done else StoreFailed
      ensures bindings == if outcome == Done then old(bindings) - {id} else old(bindings)
    {
      if id !in bindings {
        return NotFound;
      }
      if !removed {
        return StoreFailed;
      }
      Unlist(bindings[id]);
      return Done;
    }

    /**
     Remove every binding to be pruned, in ascending order of their ids, up to the first one the store
     fails to remove.
     */
    method PruneBindings(doomed: Binding -> bool, removes: string -> bool) returns (deleted: nat, failed: bool, ghost order: seq<string>)
      requires Valid()
      modifies this
      ensures Valid() && Ascending(order) && deleted <= |order|
      ensures forall id :: id in order <==> id in old(bindings) && doomed(old(bindings)[id])
      ensures bindings == old(bindings) - Elements(order[..deleted])
      ensures Changes(old(bindings), Prune(Elements(order), deleted), bindings)
      ensures failed <==> deleted < |order|
      ensures (forall i :: 0 <= i < deleted ==> removes(order[i])) && (failed ==> !removes(order[deleted]))
    {
      var ids := Doomed(doomed);
      order := ids;
      deleted := 0;
      while deleted < |ids|
        invariant Valid() && deleted <= |ids|
        invariant bindings == old(bindings) - Elements(ids[..deleted])
        invariant forall i :: 0 <= i < deleted ==> removes(ids[i])
      {
        if !removes(ids[deleted]) {
          PrunedIsChange(old(bindings), ids, deleted);
          return deleted, true, order;
        }
        NotYetDeleted(old(bindings), ids, deleted);
        Unlist(bindings[ids[deleted]]);
        deleted := deleted + 1;
      }
      PrunedIsChange(old(bindings), ids, deleted);
      return deleted, false, order;
    }

    /** The ids of the bindings to be pruned, in ascending order. */
    method Doomed(doomed: Binding -> bool) returns (ids: seq<string>)
      ensures Ascending(ids)
      ensures forall id :: id in ids <==> id in bindings && doomed(bindings[id])
    {
      ids := [];
      var left := bindings.Keys;
      while left != {}
        invariant left <= bindings.Keys
        invariant forall i, j :: 0 <= i < j < |ids| ==> ids[i] != ids[j]
        invariant forall id :: id in ids <==> id in bindings && id !in left && doomed(bindings[id])
        decreases |left|
      {
        var id :| id in left;
        left := left - {id};
        if doomed(bindings[id]) {
          ids := ids + [id];
        }
      }
      SortedIsAscending(ids);
      ids := Sorted(ids);
    }

    static lemma NotYetDeleted(m: Table, ids: seq<string>, k: nat)
      requires Ascending(ids) && k < |ids| && ids[k] in m
      ensures ids[k] in m - Elements(ids[..k])
      ensures m - Elements(ids[..k + 1]) == (m - Elements(ids[..k])) - {ids[k]}
    {
      forall i | 0 <= i < k
        ensures ids[i] != ids[k]
      {
        Irreflexive(ids[k]);
      }
      assert ids[..k + 1] == ids[..k] + [ids[k]];
    }

    static lemma {:induction false} AsManyElements(ids: seq<string>, k: nat)
      requires Ascending(ids) && k <= |ids|
      ensures |Elements(ids[..k])| == k
    {
      if k > 0 {
        AsManyElements(ids, k - 1);
        forall i | 0 <= i < k - 1
          ensures ids[i] != ids[k - 1]
        {
          Irreflexive(ids[k - 1]);
        }
        assert Elements(ids[..k]) == Elements(ids[..k - 1]) + {ids[k - 1]};
      }
    }

    static lemma PrunedIsChange(m: Table, ids: seq<string>, k: nat)
      requires Ascending(ids) && k <= |ids| && forall id :: id in ids ==> id in m
      ensures Changes(m, Prune(Elements(ids), k), m - Elements(ids[..k]))
    {
      AsManyElements(ids, k);
      assert m.Keys - (m - Elements(ids[..k])).Keys == Elements(ids[..k]);
    }

    // ----- looking up -----

    /** The route of a provider property: of the enabled bindings from it, the one with the least id. */
    method ForwardRoute(provider: string, device: string, path: Path) returns (id: Option<string>)
      requires Valid()
      ensures var key := ProviderKey(provider, device, path);
              && (id.None? <==> forall x :: x in bindings && bindings[x].SourceKey() == key ==> !bindings[x].enabled)
              && (id.Some? ==>
                    && id.value in bindings && bindings[id.value].SourceKey() == key && bindings[id.value].enabled
                    && forall x :: x in bindings && bindings[x].SourceKey() == key && bindings[x].enabled ==>
                         x == id.value || Less(id.value, x))
    {
      var key := ProviderKey(provider, device, path);
      var ids := Ids(byKey, key);
      assert forall x :: x in ids <==> x in bindings && bindings[x].SourceKey() == key;
      id := FirstEnabled(ids);
    }

    method FirstEnabled(ids: seq<string>) returns (id: Option<string>)
      requires Ascending(ids) && forall x :: x in ids ==> x in bindings
      ensures id.None? <==> forall x :: x in ids ==> !bindings[x].enabled
      ensures id.Some? ==> id.value in ids && bindings[id.value].enabled
      ensures id.Some? ==> forall x :: x in ids && bindings[x].enabled ==> x == id.value || Less(id.value, x)
    {
      var index := 0;
      while index < |ids| && !bindings[ids[index]].enabled
        invariant index <= |ids|
        invariant forall i :: 0 <= i < index ==> !bindings[ids[i]].enabled
      {
        index := index + 1;
      }
      return if index < |ids| then Some(ids[index]) else None;
    }

    /** The route back from a unified property: its one owner, if that is enabled. */
    method ReverseRoute(provider: string, device: string, path: Path) returns (id: Option<string>)
      requires Valid()
      ensures var key := ProviderKey(provider, device, path);
              && (id.None? <==> forall x :: x in bindings && bindings[x].IsProvider() && bindings[x].ModelKey() == key ==> !bindings[x].enabled)
              && (id.Some? ==>
                    && id.value in bindings && bindings[id.value].IsProvider() && bindings[id.value].ModelKey() == key && bindings[id.value].enabled
                    && forall x :: x in bindings && bindings[x].IsProvider() && bindings[x].ModelKey() == key ==> x == id.value)
    {
      var key := ProviderKey(provider, device, path);
      if key !in byModel || !bindings[byModel[key]].enabled {
        return None;
      }
      return Some(byModel[key]);
    }
  }
}
