/** Routes between provider properties, the unified model and consumer properties, and what may be stored together. */
module Bindings {
  import opened Options

  datatype Path = Path(endpoint: string, capability: string, property: string)

  const NO_PATH := Path("", "", "")

  /** A binding written before stages existed has none. */
  datatype Stage = Unset | Provider | Consumer

  /** The source side of a route; the model side of a provider route is named by `ProviderKey` too. */
  datatype Key =
    | ProviderKey(provider: string, device: string, path: Path)
    | ConsumerKey(provider: string, device: string, target: string, consumerDevice: string, consumer: string, property: string)

  datatype Binding = Binding(
    id: string, stage: Stage, profile: string, provider: string, device: string, source: Path, deviceType: string,
    model: Path, consumer: string, target: string, consumerDevice: string, consumerProperty: string,
    enabled: bool, readback: bool, delays: seq<int>, step: Option<real>)
  {
    function EffectiveStage(): Stage {
      if stage == Unset then Provider else stage
    }

    predicate IsProvider() {
      EffectiveStage() == Provider
    }

    function ModelPath(): Path {
      if IsProvider() && model == NO_PATH then source else model
    }

    function SourceKey(): Key {
      if IsProvider() then ProviderKey(provider, device, source)
      else ConsumerKey(provider, device, target, consumerDevice, consumer, consumerProperty)
    }

    function ModelKey(): Key {
      ProviderKey(provider, device, ModelPath())
    }

    /** The form in which bindings are stored. */
    function Canonical(): Binding {
      var named := this.(stage := EffectiveStage(), model := ModelPath());
      if named.IsProvider() then named else named.(readback := false, delays := [], step := None)
    }
  }

  /** Storing the canonical form changes neither side of the route, and does not depend on how often it is done. */
  lemma CanonicalKeepsRoute(b: Binding)
    ensures var c := b.Canonical();
            && c.SourceKey() == b.SourceKey() && c.ModelKey() == b.ModelKey() && c.ModelPath() == b.ModelPath()
            && c.IsProvider() == b.IsProvider() && c.id == b.id && c.enabled == b.enabled
            && c.Canonical() == c && c.stage != Unset
  {
  }

  // ----- what may be stored together -----

  type Table = map<string, Binding>

  /** Two bindings that cannot both be stored: consumer routes to one target, or provider routes to one model property. */
  predicate Clash(a: Binding, b: Binding) {
    && a.IsProvider() == b.IsProvider()
    && if a.IsProvider() then a.ModelKey() == b.ModelKey() else a.SourceKey() == b.SourceKey()
  }

  ghost predicate Consistent(t: Table) {
    && (forall id :: id in t ==> t[id].id == id && t[id].Canonical() == t[id])
    && (forall a, b :: a in t && b in t && Clash(t[a], t[b]) ==> a == b)
  }

  predicate Free(t: Table, b: Binding) {
    forall id :: id in t && id != b.id ==> !Clash(t[id], b)
  }

  datatype Outcome = Done | AlreadyExists | NotFound | Rejected | StoreFailed

  datatype Change =
    | Create(item: Binding, accepted: bool, saved: bool)
    | Update(id: string, item: Binding, accepted: bool, saved: bool)
    | Delete(id: string, removed: bool)
    | Prune(doomed: set<string>, count: nat)

  function Creating(t: Table, item: Binding, accepted: bool, saved: bool): Outcome {
    if !accepted then Rejected
    else if item.id in t || !Free(t, item.Canonical()) then AlreadyExists
    else if !saved then StoreFailed
    else Done
  }

  function Updating(t: Table, id: string, item: Binding, accepted: bool, saved: bool): Outcome {
    if id !in t then NotFound
    else if !accepted then Rejected
    else if !Free(t, item.(id := id).Canonical()) then AlreadyExists
    else if !saved then StoreFailed
    else Done
  }

  /** The bindings after one change; only a change that is done has an effect. */
  ghost predicate Changes(t: Table, change: Change, t': Table) {
    match change
    case Create(item, accepted, saved) =>
      t' == if Creating(t, item, accepted, saved) == Done then t[item.id := item.Canonical()] else t
    case Update(id, item, accepted, saved) =>
      t' == if Updating(t, id, item, accepted, saved) == Done then t[id := item.(id := id).Canonical()] else t
    case Delete(id, removed) => t' == if removed then t - {id} else t
    case Prune(doomed, count) =>
      t'.Keys <= t.Keys && t.Keys - t'.Keys <= doomed && |t.Keys - t'.Keys| == count && forall id :: id in t' ==> t'[id] == t[id]
  }

  /** A binding may be stored where no other clashes with it. */
  lemma StoringKeepsConsistent(t: Table, b: Binding)
    requires Consistent(t) && Free(t, b) && b.Canonical() == b
    ensures Consistent(t[b.id := b])
  {
  }

  /** No change makes two stored bindings clash. */
  lemma ChangeKeepsConsistent(t: Table, change: Change, t': Table)
    requires Consistent(t) && Changes(t, change, t')
    ensures Consistent(t')
  {
    match change
    case Create(item, accepted, saved) =>
      CanonicalKeepsRoute(item);
      if Creating(t, item, accepted, saved) == Done { StoringKeepsConsistent(t, item.Canonical()); }
    case Update(id, item, accepted, saved) =>
      CanonicalKeepsRoute(item.(id := id));
      if Updating(t, id, item, accepted, saved) == Done { StoringKeepsConsistent(t, item.(id := id).Canonical()); }
    case Delete(_, _) =>
    case Prune(_, _) =>
  }

  ghost predicate IsHistory(tables: seq<Table>, changes: seq<Change>) {
    && |tables| == |changes| + 1 && tables[0] == map[]
    && forall i :: 0 <= i < |changes| ==> Changes(tables[i], changes[i], tables[i + 1])
  }

  /** After any sequence of changes, consumer targets and unified properties have one owner each. */
  lemma {:induction false} HistoryIsConsistent(tables: seq<Table>, changes: seq<Change>, i: nat)
    requires IsHistory(tables, changes) && i < |tables|
    ensures Consistent(tables[i])
  {
    if i > 0 {
      HistoryIsConsistent(tables, changes, i - 1);
      assert Changes(tables[i - 1], changes[i - 1], tables[i]);
      ChangeKeepsConsistent(tables[i - 1], changes[i - 1], tables[i]);
    }
  }

  // ----- clashes, and what is stored, field by field -----

  predicate IsConsumer(b: Binding) {
    b.stage == Consumer
  }

  /** Two consumer routes clash exactly if they agree in all six fields that name the consumer's property. */
  lemma ConsumersClash(a: Binding, b: Binding)
    requires IsConsumer(a) && IsConsumer(b)
    ensures Clash(a, b) <==>
              && a.provider == b.provider && a.device == b.device && a.target == b.target
              && a.consumerDevice == b.consumerDevice && a.consumer == b.consumer && a.consumerProperty == b.consumerProperty
  {
  }

  /** Where a provider route leads: its model path, or its source if it names none. */
  predicate Targets(b: Binding, path: Path) {
    if b.model.endpoint == "" && b.model.capability == "" && b.model.property == "" then path == b.source else path == b.model
  }

  /** Two provider routes clash exactly if they lead to one property of one device; a route to a consumer clashes with neither. */
  lemma ProvidersClash(a: Binding, b: Binding, path: Path, path': Path)
    requires !IsConsumer(a) && Targets(a, path) && Targets(b, path')
    ensures !IsConsumer(b) ==> (Clash(a, b) <==> a.provider == b.provider && a.device == b.device && path == path')
    ensures IsConsumer(b) ==> !Clash(a, b) && !Clash(b, a)
  {
  }

  /** Storing a provider route spells out its stage and its model path; storing a consumer route drops what only providers have. */
  lemma StoredForm(b: Binding, path: Path)
    requires Targets(b, path)
    ensures !IsConsumer(b) ==> b.Canonical() == b.(stage := Provider, model := path)
    ensures IsConsumer(b) ==> b.Canonical() == b.(readback := false, delays := [], step := None)
  {
  }

  /** Another stored route is in the place of this one. */
  ghost predicate Occupied(t: Table, b: Binding) {
    exists id :: id in t && id != b.id && InPlaceOf(t[id], b)
  }

  ghost predicate InPlaceOf(a: Binding, b: Binding) {
    && a.provider == b.provider && a.device == b.device
    && if IsConsumer(b) then
         IsConsumer(a) && a.target == b.target && a.consumerDevice == b.consumerDevice && a.consumer == b.consumer
         && a.consumerProperty == b.consumerProperty
       else !IsConsumer(a) && exists path :: Targets(a, path) && Targets(b, path)
  }

  /** A route is created exactly if it is acceptable, its id is new, its place is free and it can be saved; and updated likewise. */
  lemma StoredExactlyIf(t: Table, item: Binding, accepted: bool, saved: bool)
    ensures Creating(t, item, accepted, saved) == Done <==> accepted && item.id !in t && !Occupied(t, item) && saved
    ensures Updating(t, item.id, item, accepted, saved) == Done <==> accepted && item.id in t && !Occupied(t, item) && saved
    ensures Creating(t, item, accepted, saved) == AlreadyExists <==> accepted && (item.id in t || Occupied(t, item))
    ensures Updating(t, item.id, item, accepted, saved) == AlreadyExists <==> accepted && item.id in t && Occupied(t, item)
  {
    forall id | id in t
      ensures Clash(t[id], item.Canonical()) <==> InPlaceOf(t[id], item)
    {
      InPlaceIsClash(t[id], item);
    }
    assert item.(id := item.id) == item;
    assert item.Canonical().id == item.id;
  }

  lemma InPlaceIsClash(a: Binding, b: Binding)
    ensures Clash(a, b.Canonical()) <==> InPlaceOf(a, b)
  {
    assert Targets(a, a.ModelPath()) || IsConsumer(a);
    assert Targets(b, b.ModelPath()) || IsConsumer(b);
  }
}
