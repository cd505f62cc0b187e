/**
 What the unified properties of a device ought to be, given its provider properties and the stored
 bindings, without saying how they are computed. Conversions are functions of the binding.
 */
module Projections {
  import opened Options
  import opened Values
  import opened Bindings

  datatype Definition = Definition(kind: ValueType, min: Option<real>, max: Option<real>, step: Option<real>,
                                   unit: string, enum: seq<string>)

  /** One property of the provider's snapshot. */
  datatype Source = Source(path: Path, def: Definition, value: PropertyValue)

  datatype Projection = Projection(path: Path, def: Definition, value: PropertyValue, binding: string, explicit: bool)

  datatype Mapped = Mapped(def: Definition, value: PropertyValue)

  /** The default of a conversion profile: none, one that cannot be converted, or its converted value. */
  datatype Default = NoDefault | BadDefault | Default(def: Definition, value: PropertyValue)

  /**
   The device being mapped and everything the mapping consults besides the bindings: the profiles with
   their defaults, the conversions, the presentation step, and the unified model, which accepts paths and
   gives each accepted property its final definition and value.
   */
  datatype World = World(provider: string, device: string, profiles: map<string, Default>,
                         convert: (Binding, Source) -> Option<Mapped>,
                         present: (Binding, Definition) -> Definition,
                         accepts: Path -> bool,
                         shape: (Path, Definition, PropertyValue) -> Mapped)

  predicate Distinct(sources: seq<Source>) {
    forall i, j :: 0 <= i < j < |sources| ==> sources[i].path != sources[j].path
  }

  predicate Present(sources: seq<Source>, path: Path) {
    exists i :: 0 <= i < |sources| && sources[i].path == path
  }

  /** An enabled route from this device into the unified model. */
  predicate Routes(w: World, b: Binding) {
    b.IsProvider() && b.enabled && b.provider == w.provider && b.device == w.device
  }

  function Identity(s: Source): Projection {
    Projection(s.path, s.def, s.value, "", false)
  }

  /** What an explicit route makes of its source; none if its profile is missing or the conversion fails. */
  function Explicit(w: World, b: Binding, s: Source): Option<Projection> {
    if b.profile == "" then Some(Projection(b.ModelPath(), w.present(b, s.def), s.value, b.id, true))
    else if b.profile !in w.profiles then None
    else match w.convert(b, s)
         case None => None
         case Some(m) => Some(Projection(b.ModelPath(), w.present(b, m.def), m.value, b.id, true))
  }

  /** Whether a route whose source is absent is skipped, fails, or yields its profile's default. */
  predicate Skipped(w: World, b: Binding) {
    b.profile == "" || (b.profile in w.profiles && w.profiles[b.profile] == NoDefault)
  }

  function Missing(w: World, b: Binding): Option<Projection> {
    if b.profile in w.profiles && w.profiles[b.profile].Default? then
      var d := w.profiles[b.profile];
      Some(Projection(b.ModelPath(), w.present(b, d.def), d.value, b.id, true))
    else None
  }

  /** The property as the unified model shows it. */
  function Shaped(w: World, p: Projection): Projection {
    var m := w.shape(p.path, p.def, p.value);
    p.(def := m.def, value := m.value)
  }

  // ----- the specification -----

  /** A route that puts a property into the snapshot: its source is there, or its profile has a default. */
  predicate Contributes(w: World, sources: seq<Source>, b: Binding) {
    Routes(w, b) && (Present(sources, b.source) || !Skipped(w, b))
  }

  /** A conversion that is needed and fails. */
  ghost predicate Breaks(w: World, sources: seq<Source>, b: Binding) {
    && Routes(w, b)
    && ((exists i :: 0 <= i < |sources| && sources[i].path == b.source && Explicit(w, b, sources[i]).None?)
        || (!Present(sources, b.source) && !Skipped(w, b) && Missing(w, b).None?))
  }

  ghost predicate Fails(w: World, table: Table, sources: seq<Source>) {
    exists id :: id in table && Breaks(w, sources, table[id])
  }

  /** What an explicit route shows: its source converted, or its default if the source is absent. */
  ghost predicate ShownBy(w: World, sources: seq<Source>, b: Binding, x: Projection) {
    && Routes(w, b)
    && if Present(sources, b.source) then
         exists i :: 0 <= i < |sources| && sources[i].path == b.source
                     && Explicit(w, b, sources[i]).Some? && x == Shaped(w, Explicit(w, b, sources[i]).value)
       else !Skipped(w, b) && Missing(w, b).Some? && x == Shaped(w, Missing(w, b).value)
  }

  /** A native property that no contributing route takes the place of. */
  ghost predicate Native(w: World, table: Table, sources: seq<Source>, x: Projection) {
    && (exists i :: 0 <= i < |sources| && x == Shaped(w, Identity(sources[i])))
    && forall id :: id in table && Contributes(w, sources, table[id]) ==> table[id].ModelPath() != x.path
  }

  ghost predicate Shown(w: World, table: Table, sources: seq<Source>, x: Projection) {
    && w.accepts(x.path)
    && if x.explicit then x.binding in table && ShownBy(w, sources, table[x.binding], x)
       else Native(w, table, sources, x)
  }

  /** The snapshot holds each property that ought to be shown, and no other; every path occurs once. */
  ghost predicate Describes(w: World, table: Table, sources: seq<Source>, items: seq<Projection>) {
    && (forall x :: x in items <==> Shown(w, table, sources, x))
    && (forall i, j :: 0 <= i < j < |items| ==> items[i].path != items[j].path)
  }

  // ----- consequences -----

  predicate SameSources(a: seq<Source>, b: seq<Source>) {
    (forall s :: s in a ==> s in b) && (forall s :: s in b ==> s in a)
  }

  lemma SameShown(w: World, table: Table, a: seq<Source>, b: seq<Source>, x: Projection)
    requires SameSources(a, b) && Shown(w, table, a, x)
    ensures Shown(w, table, b, x)
  {
    forall path
      ensures Present(a, path) == Present(b, path)
    {
      SamePresent(a, b, path);
    }
    if x.explicit {
      var r := table[x.binding];
      if Present(a, r.source) {
        var i :| 0 <= i < |a| && a[i].path == r.source && Explicit(w, r, a[i]).Some? && x == Shaped(w, Explicit(w, r, a[i]).value);
        assert a[i] in b;
      }
    } else {
      var i :| 0 <= i < |a| && x == Shaped(w, Identity(a[i]));
      assert a[i] in b;
    }
  }

  lemma SamePresent(a: seq<Source>, b: seq<Source>, path: Path)
    requires SameSources(a, b)
    ensures Present(a, path) == Present(b, path)
  {
    if Present(a, path) {
      var i :| 0 <= i < |a| && a[i].path == path;
      assert a[i] in b;
    }
    if Present(b, path) {
      var i :| 0 <= i < |b| && b[i].path == path;
      assert b[i] in a;
    }
  }

  /** In whatever order the provider's properties are visited, the snapshot shows the same properties. */
  lemma OrderDoesNotMatter(w: World, table: Table, a: seq<Source>, b: seq<Source>, items: seq<Projection>, items': seq<Projection>)
    requires SameSources(a, b) && Describes(w, table, a, items) && Describes(w, table, b, items')
    ensures forall x :: x in items <==> x in items'
  {
    forall x
      ensures x in items <==> x in items'
    {
      if x in items { SameShown(w, table, a, b, x); }
      if x in items' { SameShown(w, table, b, a, x); }
    }
  }

  lemma FailureIsOrderless(w: World, table: Table, a: seq<Source>, b: seq<Source>)
    requires SameSources(a, b) && Fails(w, table, a)
    ensures Fails(w, table, b)
  {
    var id :| id in table && Breaks(w, a, table[id]);
    var r := table[id];
    SamePresent(a, b, r.source);
    if i :| 0 <= i < |a| && a[i].path == r.source && Explicit(w, r, a[i]).None? {
      assert a[i] in b;
    }
    assert Breaks(w, b, r);
  }

  // ----- what an item holds -----

  /** The item's definition and value are what the unified model makes of these. */
  predicate ShapedFrom(w: World, x: Projection, def: Definition, value: PropertyValue) {
    Mapped(x.def, x.value) == w.shape(x.path, def, value)
  }

  /** The item of a route whose source is present: the source as it is, or converted if the route names a profile. */
  predicate HoldsConverted(w: World, b: Binding, s: Source, x: Projection) {
    if b.profile == "" then ShapedFrom(w, x, w.present(b, s.def), s.value)
    else
      && b.profile in w.profiles && w.convert(b, s).Some?
      && ShapedFrom(w, x, w.present(b, w.convert(b, s).value.def), w.convert(b, s).value.value)
  }

  /** The item of a route whose source is absent: the default of its profile. */
  predicate HoldsDefault(w: World, b: Binding, x: Projection) {
    && b.profile != "" && b.profile in w.profiles && w.profiles[b.profile].Default?
    && ShapedFrom(w, x, w.present(b, w.profiles[b.profile].def), w.profiles[b.profile].value)
  }

  /** An enabled provider route of this device to this path. */
  predicate LeadsTo(w: World, b: Binding, path: Path) {
    && (b.stage == Provider || b.stage == Unset) && b.enabled && b.provider == w.provider && b.device == w.device
    && path == if b.model == Path("", "", "") then b.source else b.model
  }

  /** Every item of the snapshot holds what its route or its source says. */
  lemma WhatItemsHold(w: World, table: Table, sources: seq<Source>, items: seq<Projection>, x: Projection)
    requires Describes(w, table, sources, items) && x in items
    ensures w.accepts(x.path)
    ensures x.explicit ==> x.binding in table && LeadsTo(w, table[x.binding], x.path)
    ensures x.explicit && (exists s :: s in sources && s.path == table[x.binding].source) ==>
              exists s :: s in sources && s.path == table[x.binding].source && HoldsConverted(w, table[x.binding], s, x)
    ensures x.explicit && (forall s :: s in sources ==> s.path != table[x.binding].source) ==> HoldsDefault(w, table[x.binding], x)
    ensures !x.explicit ==> x.binding == "" && exists s :: s in sources && s.path == x.path && ShapedFrom(w, x, s.def, s.value)
  {
    if x.explicit {
      var b := table[x.binding];
      assert ShownBy(w, sources, b, x);
      if Present(sources, b.source) {
        var i :| 0 <= i < |sources| && sources[i].path == b.source && Explicit(w, b, sources[i]).Some?
                 && x == Shaped(w, Explicit(w, b, sources[i]).value);
        assert sources[i] in sources && HoldsConverted(w, b, sources[i], x);
      } else {
        forall s | s in sources ensures s.path != b.source {
          var i :| 0 <= i < |sources| && sources[i] == s;
        }
      }
    } else {
      assert Native(w, table, sources, x);
      var i :| 0 <= i < |sources| && x == Shaped(w, Identity(sources[i]));
      assert sources[i] in sources;
    }
  }

  /** A conversion that is needed and cannot be had. */
  ghost predicate Lacks(w: World, sources: seq<Source>, b: Binding) {
    && LeadsTo(w, b, if b.model == Path("", "", "") then b.source else b.model) && b.profile != ""
    && (|| b.profile !in w.profiles
        || (exists s :: s in sources && s.path == b.source && w.convert(b, s).None?)
        || ((forall s :: s in sources ==> s.path != b.source) && w.profiles[b.profile].BadDefault?))
  }

  /** The device cannot be mapped exactly if a route names a missing profile, or needs a conversion or default that fails. */
  lemma WhyMappingFails(w: World, table: Table, sources: seq<Source>)
    ensures Fails(w, table, sources) <==> exists id :: id in table && Lacks(w, sources, table[id])
  {
    forall id | id in table
      ensures Breaks(w, sources, table[id]) <==> Lacks(w, sources, table[id])
    {
      BreakingIsLacking(w, sources, table[id]);
    }
    if Fails(w, table, sources) {
      var id :| id in table && Breaks(w, sources, table[id]);
      assert Lacks(w, sources, table[id]);
    }
    if id :| id in table && Lacks(w, sources, table[id]) {
      assert Breaks(w, sources, table[id]);
    }
  }

  lemma BreakingIsLacking(w: World, sources: seq<Source>, b: Binding)
    ensures Breaks(w, sources, b) <==> Lacks(w, sources, b)
  {
    if Routes(w, b) {
      if Present(sources, b.source) {
        var k :| 0 <= k < |sources| && sources[k].path == b.source;
        assert sources[k] in sources && Explicit(w, b, sources[k]).None? ==> Breaks(w, sources, b);
        forall s | s in sources && s.path == b.source && w.convert(b, s).None?
          ensures b.profile != "" ==> Breaks(w, sources, b)
        {
          var i :| 0 <= i < |sources| && sources[i] == s;
          assert b.profile != "" ==> Explicit(w, b, sources[i]).None?;
        }
        forall i | 0 <= i < |sources| && sources[i].path == b.source && Explicit(w, b, sources[i]).None?
          ensures Lacks(w, sources, b)
        {
          assert sources[i] in sources;
        }
      } else {
        forall s | s in sources ensures s.path != b.source {
          var i :| 0 <= i < |sources| && sources[i] == s;
        }
      }
    }
  }

  /** There is something for the route to show: its source, or the default of its profile. */
  predicate Supplied(w: World, sources: seq<Source>, b: Binding) {
    || (exists s :: s in sources && s.path == b.source)
    || (b.profile != "" && b.profile in w.profiles && w.profiles[b.profile].Default?)
  }

  /** Every accepted source has an item at its path, and every contributing route the item of its own. */
  lemma NothingIsLeftOut(w: World, table: Table, sources: seq<Source>, items: seq<Projection>)
    requires Consistent(table) && Describes(w, table, sources, items) && !Fails(w, table, sources)
    ensures forall s :: s in sources && w.accepts(s.path) ==> exists x :: x in items && x.path == s.path
    ensures forall id, path :: id in table && LeadsTo(w, table[id], path) && w.accepts(path) && Supplied(w, sources, table[id]) ==>
              exists x :: x in items && x.path == path && x.explicit && x.binding == id
  {
    forall id | id in table && Contributes(w, sources, table[id]) && w.accepts(table[id].ModelPath())
      ensures exists x :: x in items && x.path == table[id].ModelPath() && x.explicit && x.binding == id
    {
      var x := RouteIsShown(w, table, sources, id);
    }
    forall s | s in sources && w.accepts(s.path)
      ensures exists x :: x in items && x.path == s.path
    {
      var i :| 0 <= i < |sources| && sources[i] == s;
      if id :| id in table && Contributes(w, sources, table[id]) && table[id].ModelPath() == s.path {
      } else {
        var x := Shaped(w, Identity(s));
        assert Native(w, table, sources, x);
        assert Shown(w, table, sources, x);
      }
    }
  }

  /** A contributing route of a device that can be mapped shows its item. */
  lemma RouteIsShown(w: World, table: Table, sources: seq<Source>, id: string) returns (x: Projection)
    requires id in table && table[id].id == id && Contributes(w, sources, table[id]) && w.accepts(table[id].ModelPath())
    requires !Fails(w, table, sources)
    ensures Shown(w, table, sources, x) && x.path == table[id].ModelPath() && x.explicit && x.binding == id
  {
    var b := table[id];
    assert !Breaks(w, sources, b);
    if Present(sources, b.source) {
      var i :| 0 <= i < |sources| && sources[i].path == b.source;
      x := Shaped(w, Explicit(w, b, sources[i]).value);
    } else {
      x := Shaped(w, Missing(w, b).value);
    }
  }

  // ----- the way back -----

  /** Where a write to a unified property is routed: to the source of its enabled owner, or straight through. */
  ghost predicate WritesTo(w: World, table: Table, path: Path, target: Path) {
    (exists id :: id in table && Owns(w, table[id], path) && table[id].source == target)
    || ((forall id :: id in table ==> !Owns(w, table[id], path)) && target == path)
  }

  predicate Owns(w: World, b: Binding, path: Path) {
    Routes(w, b) && b.ModelPath() == path
  }

  /** A write follows the one enabled route to its path back to the route's source; without a route it goes straight through. */
  lemma WritesFollowRoutes(w: World, table: Table, path: Path, target: Path, id: string)
    requires Consistent(table)
    ensures id in table && LeadsTo(w, table[id], path) ==> (WritesTo(w, table, path, target) <==> target == table[id].source)
    ensures (forall other :: other in table ==> !LeadsTo(w, table[other], path)) ==> (WritesTo(w, table, path, target) <==> target == path)
  {
    forall other | other in table
      ensures Owns(w, table[other], path) <==> LeadsTo(w, table[other], path)
    {
    }
    if id in table && LeadsTo(w, table[id], path) {
      forall other | other in table && Owns(w, table[other], path)
        ensures other == id
      {
        assert Clash(table[other], table[id]);
      }
    }
  }

  /** The route that owns the path names a profile that is not there. */
  predicate OwnerLacksProfile(w: World, b: Binding, path: Path) {
    Owns(w, b, path) && b.profile != "" && b.profile !in w.profiles
  }

  /** A write is refused for want of a profile only while the device cannot be mapped either. */
  lemma LackingProfileFails(w: World, table: Table, sources: seq<Source>, path: Path, id: string)
    requires id in table && OwnerLacksProfile(w, table[id], path)
    ensures Fails(w, table, sources)
  {
    var b := table[id];
    if i :| 0 <= i < |sources| && sources[i].path == b.source {
      assert Explicit(w, b, sources[i]).None?;
    }
    assert Breaks(w, sources, b);
  }

  /** A write to an explicitly routed property goes to the very property it was read from. */
  lemma ExplicitWritesBack(w: World, table: Table, sources: seq<Source>, items: seq<Projection>, x: Projection, i: nat)
    requires Consistent(table) && Describes(w, table, sources, items) && x in items && x.explicit
    requires i < |sources| && sources[i].path == table[x.binding].source
    ensures WritesTo(w, table, x.path, sources[i].path)
    ensures forall q :: WritesTo(w, table, x.path, q) ==> q == sources[i].path
  {
    var b := table[x.binding];
    assert ShownBy(w, sources, b, x) && Owns(w, b, x.path);
    forall id | id in table && Owns(w, table[id], x.path)
      ensures id == x.binding
    {
      assert Clash(table[id], b);
    }
  }

  /** A write to a native property goes back to it exactly if no enabled route owns its path; any such route lacks its source. */
  lemma NativeWritesBack(w: World, table: Table, sources: seq<Source>, items: seq<Projection>, x: Projection)
    requires Describes(w, table, sources, items) && x in items && !x.explicit
    ensures WritesTo(w, table, x.path, x.path) <==> forall id :: id in table ==> !Owns(w, table[id], x.path)
    ensures forall id :: id in table && Owns(w, table[id], x.path) ==> !Present(sources, table[id].source)
  {
    assert Native(w, table, sources, x);
    var i :| 0 <= i < |sources| && x == Shaped(w, Identity(sources[i]));
    forall id | id in table && Owns(w, table[id], x.path)
      ensures !Present(sources, table[id].source) && table[id].source != x.path
    {
      assert !Contributes(w, sources, table[id]);
      assert Present(sources, sources[i].path);
    }
  }

  /** If every enabled route of the device has its source in the snapshot, every write goes back to where its property came from. */
  lemma WritesGoBack(w: World, table: Table, sources: seq<Source>, items: seq<Projection>, x: Projection)
    requires Consistent(table) && Describes(w, table, sources, items) && x in items
    requires forall id :: id in table && Routes(w, table[id]) ==> Present(sources, table[id].source)
    ensures if x.explicit then x.binding in table && WritesTo(w, table, x.path, table[x.binding].source)
            else WritesTo(w, table, x.path, x.path)
  {
    if x.explicit {
      assert ShownBy(w, sources, table[x.binding], x) && Owns(w, table[x.binding], x.path);
    } else {
      NativeWritesBack(w, table, sources, items, x);
    }
  }
}
