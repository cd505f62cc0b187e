/** Mapping a provider snapshot into the unified model, property by property. */
module Snapshots {
  import opened Options
  import opened Values
  import opened StringOrder
  import opened Bindings
  import opened BindingIndex
  import opened Projections

  datatype Result = Snapshot(items: seq<Projection>) | Duplicate(path: Path) | Failed

  // ----- the projections of one source, and of the routes without one -----

  /** The native projection of a property, then those of its enabled routes in the order of their ids. */
  method ProjectProviderProperty(t: BindingTable, w: World, s: Source) returns (result: Option<seq<Projection>>, ghost ids: seq<string>)
    requires t.Valid()
    ensures Ascending(ids)
    ensures forall id :: id in ids <==> id in t.bindings && Routes(w, t.bindings[id]) && t.bindings[id].source == s.path
    ensures result.None? <==> exists id :: id in ids && Explicit(w, t.bindings[id], s).None?
    ensures result.Some? ==>
              && |result.value| == |ids| + 1 && result.value[0] == Identity(s)
              && forall i :: 0 <= i < |ids| ==> Explicit(w, t.bindings[ids[i]], s) == Some(result.value[i + 1])
  {
    var enabled := RoutesFrom(t, w, s.path);
    ids := enabled;
    var projections := ConvertAll(t, w, s, enabled);
    if projections.None? {
      return None, enabled;
    }
    var all := [Identity(s)] + projections.value;
    assert forall i :: 0 <= i < |enabled| ==> all[i + 1] == projections.value[i];
    return Some(all), enabled;
  }

  method RoutesFrom(t: BindingTable, w: World, path: Path) returns (ids: seq<string>)
    requires t.Valid()
    ensures Ascending(ids)
    ensures forall id :: id in ids <==> id in t.bindings && Routes(w, t.bindings[id]) && t.bindings[id].source == path
  {
    var key := ProviderKey(w.provider, w.device, path);
    var listed := Ids(t.byKey, key);
    assert forall id :: id in listed <==> id in t.bindings && t.bindings[id].SourceKey() == key;
    ids := EnabledOf(t, listed);
  }

  method ConvertAll(t: BindingTable, w: World, s: Source, ids: seq<string>) returns (result: Option<seq<Projection>>)
    requires forall id :: id in ids ==> id in t.bindings
    ensures result.None? <==> exists id :: id in ids && Explicit(w, t.bindings[id], s).None?
    ensures result.Some? ==> |result.value| == |ids|
    ensures result.Some? ==> forall i :: 0 <= i < |ids| ==> Explicit(w, t.bindings[ids[i]], s) == Some(result.value[i])
  {
    var projections := [];
    for i := 0 to |ids|
      invariant |projections| == i
      invariant forall k :: 0 <= k < i ==> Explicit(w, t.bindings[ids[k]], s) == Some(projections[k])
    {
      var projected := Explicit(w, t.bindings[ids[i]], s);
      if projected.None? {
        assert ids[i] in ids;
        return None;
      }
      projections := projections + [projected.value];
    }
    return Some(projections);
  }

  method EnabledOf(t: BindingTable, listed: seq<string>) returns (enabled: seq<string>)
    requires Ascending(listed) && forall id :: id in listed ==> id in t.bindings
    ensures Ascending(enabled) && forall id :: id in enabled <==> id in listed && t.bindings[id].enabled
  {
    enabled := [];
    for i := 0 to |listed|
      invariant Ascending(enabled)
      invariant forall id :: id in enabled <==> id in listed[..i] && t.bindings[id].enabled
    {
      forall id | id in enabled
        ensures Less(id, listed[i])
      {
        assert id in listed[..i];
      }
      if t.bindings[listed[i]].enabled {
        enabled := enabled + [listed[i]];
      }
      assert listed[..i + 1] == listed[..i] + [listed[i]];
    }
    assert listed[..|listed|] == listed;
  }

  /** The routes whose source is not in the snapshot, in the order of their ids, each giving its profile's default. */
  method ProjectMissing(t: BindingTable, w: World, available: set<Path>) returns (result: Option<seq<Projection>>, ghost ids: seq<string>)
    requires t.Valid()
    ensures Ascending(ids)
    ensures forall id :: id in ids <==> id in t.bindings && Defaulted(w, t.bindings[id], available)
    ensures result.None? <==> exists id :: id in ids && Missing(w, t.bindings[id]).None?
    ensures result.Some? ==> |result.value| == |ids|
    ensures result.Some? ==> forall i :: 0 <= i < |ids| ==> Missing(w, t.bindings[ids[i]]) == Some(result.value[i])
  {
    var kept := AbsentRoutes(t, w, available);
    ids := kept;
    result := DefaultAll(t, w, kept);
  }

  method AbsentRoutes(t: BindingTable, w: World, available: set<Path>) returns (kept: seq<string>)
    ensures Ascending(kept)
    ensures forall id :: id in kept <==> id in t.bindings && Defaulted(w, t.bindings[id], available)
  {
    kept := [];
    var left := t.bindings.Keys;
    while left != {}
      invariant left <= t.bindings.Keys
      invariant forall i, j :: 0 <= i < j < |kept| ==> kept[i] != kept[j]
      invariant forall id :: id in kept <==> id in t.bindings && id !in left && Defaulted(w, t.bindings[id], available)
      decreases |left|
    {
      var id :| id in left;
      left := left - {id};
      if Defaulted(w, t.bindings[id], available) {
        kept := kept + [id];
      }
    }
    SortedIsAscending(kept);
    kept := Sorted(kept);
  }

  predicate Defaulted(w: World, b: Binding, available: set<Path>) {
    Routes(w, b) && b.source !in available && !Skipped(w, b)
  }

  method DefaultAll(t: BindingTable, w: World, ids: seq<string>) returns (result: Option<seq<Projection>>)
    requires forall id :: id in ids ==> id in t.bindings
    ensures result.None? <==> exists id :: id in ids && Missing(w, t.bindings[id]).None?
    ensures result.Some? ==> |result.value| == |ids|
    ensures result.Some? ==> forall i :: 0 <= i < |ids| ==> Missing(w, t.bindings[ids[i]]) == Some(result.value[i])
  {
    var projections := [];
    for i := 0 to |ids|
      invariant |projections| == i
      invariant forall k :: 0 <= k < i ==> Missing(w, t.bindings[ids[k]]) == Some(projections[k])
    {
      var projected := Missing(w, t.bindings[ids[i]]);
      if projected.None? {
        assert ids[i] in ids;
        return None;
      }
      projections := projections + [projected.value];
    }
    return Some(projections);
  }

  // ----- placing projections -----

  /** `byTarget` finds the one property at each path. */
  ghost predicate Indexed(items: seq<Projection>, byTarget: map<Path, nat>) {
    && (forall p :: p in byTarget ==> byTarget[p] < |items| && items[byTarget[p]].path == p)
    && (forall i :: 0 <= i < |items| ==> items[i].path in byTarget && byTarget[items[i].path] == i)
  }

  type View = map<Path, Projection>

  function ViewOf(items: seq<Projection>, byTarget: map<Path, nat>): View
    requires forall p :: p in byTarget ==> byTarget[p] < |items|
  {
    map p | p in byTarget :: items[byTarget[p]]
  }

  /** A projection the unified model accepts, for a path that a projection of the same kind has already. */
  predicate Twin(w: World, view: View, p: Projection) {
    w.accepts(p.path) && p.path in view && view[p.path].explicit == p.explicit
  }

  /** An accepted projection takes a free path, or the path of a native property if it is explicit. */
  function Place(w: World, view: View, p: Projection): View {
    if w.accepts(p.path) && (p.explicit || p.path !in view) then view[p.path := Shaped(w, p)] else view
  }

  function PlaceAll(w: World, view: View, ps: seq<Projection>): Option<View> {
    if ps == [] then Some(view)
    else match PlaceAll(w, view, ps[..|ps| - 1])
         case None => None
         case Some(v) => if Twin(w, v, ps[|ps| - 1]) then None else Some(Place(w, v, ps[|ps| - 1]))
  }

  method AddProjection(w: World, items: seq<Projection>, byTarget: map<Path, nat>, p: Projection)
    returns (items': seq<Projection>, byTarget': map<Path, nat>, duplicate: bool)
    requires Indexed(items, byTarget)
    ensures Indexed(items', byTarget')
    ensures duplicate <==> Twin(w, ViewOf(items, byTarget), p)
    ensures !duplicate ==> ViewOf(items', byTarget') == Place(w, ViewOf(items, byTarget), p)
  {
    items', byTarget', duplicate := items, byTarget, false;
    if !w.accepts(p.path) {
      return;
    }
    var candidate := Shaped(w, p);
    if p.path in byTarget {
      var current := items[byTarget[p.path]];
      if current.explicit && !candidate.explicit {
        return;
      }
      if current.explicit == candidate.explicit {
        return items, byTarget, true;
      }
      items' := items[byTarget[p.path] := candidate];
      return;
    }
    byTarget' := byTarget[p.path := |items|];
    items' := items + [candidate];
  }

  method AddAll(w: World, items: seq<Projection>, byTarget: map<Path, nat>, ps: seq<Projection>)
    returns (items': seq<Projection>, byTarget': map<Path, nat>, duplicate: Option<Path>)
    requires Indexed(items, byTarget)
    ensures Indexed(items', byTarget')
    ensures duplicate.Some? <==> PlaceAll(w, ViewOf(items, byTarget), ps).None?
    ensures duplicate.None? ==> PlaceAll(w, ViewOf(items, byTarget), ps) == Some(ViewOf(items', byTarget'))
  {
    items', byTarget' := items, byTarget;
    for i := 0 to |ps|
      invariant Indexed(items', byTarget')
      invariant PlaceAll(w, ViewOf(items, byTarget), ps[..i]) == Some(ViewOf(items', byTarget'))
    {
      assert ps[..i + 1][..i] == ps[..i];
      var clash;
      items', byTarget', clash := AddProjection(w, items', byTarget', ps[i]);
      if clash {
        StuckStaysStuck(w, ViewOf(items, byTarget), ps, i + 1);
        return items', byTarget', Some(ps[i].path);
      }
    }
    assert ps[..|ps|] == ps;
    return items', byTarget', None;
  }

  lemma {:induction false} StuckStaysStuck(w: World, view: View, ps: seq<Projection>, n: nat)
    requires n <= |ps| && PlaceAll(w, view, ps[..n]).None?
    ensures PlaceAll(w, view, ps).None?
    decreases |ps|
  {
    if n < |ps| {
      assert ps[..|ps| - 1][..n] == ps[..n];
      StuckStaysStuck(w, view, ps[..|ps| - 1], n);
    } else {
      assert ps[..n] == ps;
    }
  }

  lemma {:induction false} PlaceFirst(w: World, view: View, p: Projection, ps: seq<Projection>)
    requires !Twin(w, view, p)
    ensures PlaceAll(w, view, [p] + ps) == PlaceAll(w, Place(w, view, p), ps)
  {
    if ps == [] {
      assert [p][..0] == [];
    } else {
      PlaceFirst(w, view, p, ps[..|ps| - 1]);
      assert ([p] + ps)[..|ps|] == [p] + ps[..|ps| - 1];
    }
  }

  // ----- what is on the board -----

  predicate SourceBefore(sources: seq<Source>, n: nat, path: Path)
    requires n <= |sources|
  {
    exists i :: 0 <= i < n && sources[i].path == path
  }

  /** Everything shown is accepted, and is what a finished route or a visited source shows. */
  ghost predicate OnlyRight(w: World, table: Table, sources: seq<Source>, n: nat, done: set<string>, view: View)
    requires n <= |sources| && done <= table.Keys
  {
    forall q :: q in view ==> RightAt(w, table, sources, n, done, view[q], q)
  }

  ghost predicate RightAt(w: World, table: Table, sources: seq<Source>, n: nat, done: set<string>, x: Projection, q: Path)
    requires n <= |sources| && done <= table.Keys
  {
    && x.path == q && w.accepts(q)
    && if x.explicit then x.binding in done && ShownBy(w, sources, table[x.binding], x) else NativeBefore(w, sources, n, x)
  }

  predicate NativeBefore(w: World, sources: seq<Source>, n: nat, x: Projection)
    requires n <= |sources|
  {
    exists i :: 0 <= i < n && x == Shaped(w, Identity(sources[i]))
  }

  /** Every finished route is shown. */
  ghost predicate RoutesShown(w: World, table: Table, done: set<string>, view: View)
    requires done <= table.Keys
  {
    forall id :: id in done ==> Routes(w, table[id]) && (w.accepts(table[id].ModelPath()) ==> ShowsRoute(view, table[id].ModelPath(), id))
  }

  predicate ShowsRoute(view: View, path: Path, id: string) {
    path in view && view[path].explicit && view[path].binding == id
  }

  /** At the path of every visited source something is shown. */
  ghost predicate SourcesShown(w: World, sources: seq<Source>, n: nat, view: View)
    requires n <= |sources|
  {
    forall i :: 0 <= i < n && w.accepts(sources[i].path) ==> sources[i].path in view
  }

  /** After the first n sources and the routes in `done`: their properties are shown, and nothing else. */
  ghost predicate Board(w: World, table: Table, sources: seq<Source>, n: nat, done: set<string>, view: View)
    requires n <= |sources|
  {
    && done <= table.Keys
    && OnlyRight(w, table, sources, n, done, view)
    && RoutesShown(w, table, done, view)
    && SourcesShown(w, sources, n, view)
  }

  lemma NativeIsNoTwin(w: World, table: Table, sources: seq<Source>, n: nat, done: set<string>, view: View)
    requires n < |sources| && Distinct(sources) && Board(w, table, sources, n, done, view)
    ensures !Twin(w, view, Identity(sources[n]))
  {
    var q := sources[n].path;
    if q in view {
      assert RightAt(w, table, sources, n, done, view[q], q);
      NotYetNative(w, sources, n, view[q]);
    }
  }

  lemma NotYetNative(w: World, sources: seq<Source>, n: nat, x: Projection)
    requires n < |sources| && Distinct(sources) && x.path == sources[n].path
    ensures !NativeBefore(w, sources, n, x)
  {
    forall i | 0 <= i < n
      ensures x != Shaped(w, Identity(sources[i]))
    {
      assert sources[i].path != sources[n].path;
    }
  }

  lemma NativePlaced(w: World, table: Table, sources: seq<Source>, n: nat, done: set<string>, view: View)
    requires n < |sources| && Distinct(sources) && Board(w, table, sources, n, done, view)
    ensures !Twin(w, view, Identity(sources[n]))
    ensures Board(w, table, sources, n + 1, done, Place(w, view, Identity(sources[n])))
  {
    NativeIsNoTwin(w, table, sources, n, done, view);
    var view' := Place(w, view, Identity(sources[n]));
    forall q | q in view'
      ensures RightAt(w, table, sources, n + 1, done, view'[q], q)
    {
      if q in view && view'[q] == view[q] {
        StillRight(w, table, sources, n, done, view[q], q);
      } else {
        assert view'[q] == Shaped(w, Identity(sources[n]));
      }
    }
  }

  lemma StillRight(w: World, table: Table, sources: seq<Source>, n: nat, done: set<string>, x: Projection, q: Path)
    requires n < |sources| && done <= table.Keys && RightAt(w, table, sources, n, done, x, q)
    ensures RightAt(w, table, sources, n + 1, done, x, q)
  {
    if !x.explicit {
      var i :| 0 <= i < n && x == Shaped(w, Identity(sources[i]));
    }
  }

  /** The route's projection is what the specification shows for it. */
  ghost predicate Right(w: World, table: Table, sources: seq<Source>, id: string, p: Projection) {
    id in table && p.explicit && p.binding == id && p.path == table[id].ModelPath() && ShownBy(w, sources, table[id], Shaped(w, p))
  }

  /** No finished route shows its property where another route of the device does. */
  lemma RouteIsNoTwin(w: World, table: Table, sources: seq<Source>, n: nat, done: set<string>, view: View, id: string, p: Projection)
    requires n <= |sources| && Consistent(table) && Board(w, table, sources, n, done, view)
    requires id !in done && Right(w, table, sources, id, p)
    ensures !Twin(w, view, p)
    ensures forall other :: other in done ==> table[other].ModelPath() != p.path
  {
    forall other | other in done
      ensures table[other].ModelPath() != p.path
    {
      OneOwner(w, table, other, id);
    }
    if p.path in view {
      assert RightAt(w, table, sources, n, done, view[p.path], p.path);
    }
  }

  lemma OneOwner(w: World, table: Table, other: string, id: string)
    requires Consistent(table) && other in table && id in table && other != id
    requires Routes(w, table[other]) && Routes(w, table[id])
    ensures table[other].ModelPath() != table[id].ModelPath()
  {
    assert !Clash(table[other], table[id]);
  }

  lemma RoutePlaced(w: World, table: Table, sources: seq<Source>, n: nat, done: set<string>, view: View, id: string, p: Projection)
    requires n <= |sources| && Consistent(table) && Board(w, table, sources, n, done, view)
    requires id !in done && Right(w, table, sources, id, p)
    ensures !Twin(w, view, p) && Board(w, table, sources, n, done + {id}, Place(w, view, p))
  {
    RouteIsNoTwin(w, table, sources, n, done, view, id, p);
    var view' := Place(w, view, p);
    forall q | q in view'
      ensures RightAt(w, table, sources, n, done + {id}, view'[q], q)
    {
      if q in view && view'[q] == view[q] {
        assert RightAt(w, table, sources, n, done, view[q], q);
      }
    }
  }

  predicate Separate(ids: seq<string>) {
    forall i, j :: 0 <= i < j < |ids| ==> ids[i] != ids[j]
  }

  /** Placing the projections of several routes succeeds, and finishes those routes. */
  lemma {:induction false} RoutesPlaced(w: World, table: Table, sources: seq<Source>, n: nat, done: set<string>, view: View,
                                        ids: seq<string>, ps: seq<Projection>)
    requires n <= |sources| && Consistent(table) && Board(w, table, sources, n, done, view)
    requires |ids| == |ps| && Separate(ids) && forall i :: 0 <= i < |ids| ==> ids[i] !in done && Right(w, table, sources, ids[i], ps[i])
    ensures PlaceAll(w, view, ps).Some? && Board(w, table, sources, n, done + Elements(ids), PlaceAll(w, view, ps).value)
    decreases |ps|
  {
    if ps == [] {
      assert done + Elements(ids) == done;
    } else {
      var last := |ps| - 1;
      RoutesPlaced(w, table, sources, n, done, view, ids[..last], ps[..last]);
      LastElement(done, ids);
      LastRoutePlaced(w, table, sources, n, done + Elements(ids[..last]), view, ids[last], ps);
    }
  }

  lemma LastElement(done: set<string>, ids: seq<string>)
    requires ids != [] && Separate(ids) && forall i :: 0 <= i < |ids| ==> ids[i] !in done
    ensures var last := |ids| - 1;
            ids[last] !in done + Elements(ids[..last]) && done + Elements(ids) == done + Elements(ids[..last]) + {ids[last]}
  {
    var last := |ids| - 1;
    assert ids == ids[..last] + [ids[last]];
  }

  lemma LastRoutePlaced(w: World, table: Table, sources: seq<Source>, n: nat, done: set<string>, view: View, id: string, ps: seq<Projection>)
    requires n <= |sources| && Consistent(table) && ps != []
    requires PlaceAll(w, view, ps[..|ps| - 1]).Some? && Board(w, table, sources, n, done, PlaceAll(w, view, ps[..|ps| - 1]).value)
    requires id !in done && Right(w, table, sources, id, ps[|ps| - 1])
    ensures PlaceAll(w, view, ps).Some? && Board(w, table, sources, n, done + {id}, PlaceAll(w, view, ps).value)
  {
    RoutePlaced(w, table, sources, n, done, PlaceAll(w, view, ps[..|ps| - 1]).value, id, ps[|ps| - 1]);
  }

  // ----- the snapshot -----

  /** The routes whose source is among the first n. */
  function Arrived(w: World, table: Table, sources: seq<Source>, n: nat): set<string>
    requires n <= |sources|
  {
    set id | id in table && Routes(w, table[id]) && SourceBefore(sources, n, table[id].source)
  }

  /** The whole board describes the snapshot. */
  lemma BoardDescribes(w: World, table: Table, sources: seq<Source>, done: set<string>, items: seq<Projection>, byTarget: map<Path, nat>)
    requires Distinct(sources) && Indexed(items, byTarget) && Board(w, table, sources, |sources|, done, ViewOf(items, byTarget))
    requires forall id :: id in done <==> id in table && Contributes(w, sources, table[id])
    ensures Describes(w, table, sources, items)
  {
    var view := ViewOf(items, byTarget);
    forall x: Projection
      ensures x in items <==> x.path in view && view[x.path] == x
    {
    }
    forall x: Projection | x.path in view && view[x.path] == x
      ensures Shown(w, table, sources, x)
    {
      assert RightAt(w, table, sources, |sources|, done, x, x.path);
    }
    forall x | Shown(w, table, sources, x)
      ensures x.path in view && view[x.path] == x
    {
      ShownIsOnBoard(w, table, sources, done, view, x);
    }
  }

  lemma ShownIsOnBoard(w: World, table: Table, sources: seq<Source>, done: set<string>, view: View, x: Projection)
    requires Distinct(sources) && Board(w, table, sources, |sources|, done, view)
    requires forall id :: id in done <==> id in table && Contributes(w, sources, table[id])
    requires Shown(w, table, sources, x)
    ensures x.path in view && view[x.path] == x
  {
    if x.explicit {
      assert x.binding in done && x.path == table[x.binding].ModelPath();
      assert RightAt(w, table, sources, |sources|, done, view[x.path], x.path);
      ShownOnce(w, sources, table[x.binding], x, view[x.path]);
    } else {
      var i :| 0 <= i < |sources| && x == Shaped(w, Identity(sources[i]));
      assert sources[i].path == x.path && x.path in view;
      assert RightAt(w, table, sources, |sources|, done, view[x.path], x.path);
      assert !view[x.path].explicit;
      var j :| 0 <= j < |sources| && view[x.path] == Shaped(w, Identity(sources[j]));
      assert i == j;
    }
  }

  lemma ShownOnce(w: World, sources: seq<Source>, b: Binding, x: Projection, y: Projection)
    requires Distinct(sources) && ShownBy(w, sources, b, x) && ShownBy(w, sources, b, y)
    ensures x == y
  {
  }

  lemma SourcePlaced(w: World, table: Table, sources: seq<Source>, n: nat, view: View, ids: seq<string>, ps: seq<Projection>)
    requires n < |sources| && Distinct(sources) && Consistent(table)
    requires Board(w, table, sources, n, Arrived(w, table, sources, n), view)
    requires Ascending(ids) && forall id :: id in ids <==> id in table && Routes(w, table[id]) && table[id].source == sources[n].path
    requires |ps| == |ids| + 1 && ps[0] == Identity(sources[n])
    requires forall i :: 0 <= i < |ids| ==> Explicit(w, table[ids[i]], sources[n]) == Some(ps[i + 1])
    ensures PlaceAll(w, view, ps).Some?
    ensures Board(w, table, sources, n + 1, Arrived(w, table, sources, n + 1), PlaceAll(w, view, ps).value)
  {
    var done := Arrived(w, table, sources, n);
    NativePlaced(w, table, sources, n, done, view);
    PlaceFirst(w, view, ps[0], ps[1..]);
    assert ps == [ps[0]] + ps[1..];
    forall i | 0 <= i < |ids|
      ensures ids[i] !in done && Right(w, table, sources, ids[i], ps[1..][i])
    {
      assert ids[i] in ids;
      RouteIsRight(w, table, sources, n, ids[i], ps[i + 1]);
    }
    AscendingIsSeparate(ids);
    RoutesPlaced(w, table, sources, n + 1, done, Place(w, view, ps[0]), ids, ps[1..]);
    ArrivedNext(w, table, sources, n, ids);
  }

  lemma AscendingIsSeparate(ids: seq<string>)
    requires Ascending(ids)
    ensures Separate(ids)
  {
    forall i, j | 0 <= i < j < |ids|
      ensures ids[i] != ids[j]
    {
      Irreflexive(ids[i]);
    }
  }

  lemma RouteIsRight(w: World, table: Table, sources: seq<Source>, n: nat, id: string, p: Projection)
    requires n < |sources| && Distinct(sources) && Consistent(table)
    requires id in table && Routes(w, table[id]) && table[id].source == sources[n].path
    requires Explicit(w, table[id], sources[n]) == Some(p)
    ensures id !in Arrived(w, table, sources, n) && Right(w, table, sources, id, p)
  {
    assert Present(sources, sources[n].path);
  }

  lemma ArrivedNext(w: World, table: Table, sources: seq<Source>, n: nat, ids: seq<string>)
    requires n < |sources|
    requires forall id :: id in ids <==> id in table && Routes(w, table[id]) && table[id].source == sources[n].path
    ensures Arrived(w, table, sources, n + 1) == Arrived(w, table, sources, n) + Elements(ids)
  {
    forall path
      ensures SourceBefore(sources, n + 1, path) <==> SourceBefore(sources, n, path) || path == sources[n].path
    {
      if SourceBefore(sources, n + 1, path) {
        var i :| 0 <= i < n + 1 && sources[i].path == path;
      }
      if SourceBefore(sources, n, path) {
        var i :| 0 <= i < n && sources[i].path == path;
      }
      assert path == sources[n].path ==> SourceBefore(sources, n + 1, path);
    }
  }

  /** With the defaults of the routes whose source is absent, every contributing route is finished. */
  lemma DefaultsPlaced(w: World, table: Table, sources: seq<Source>, view: View, available: set<Path>, ids: seq<string>, ps: seq<Projection>)
    requires Consistent(table) && Board(w, table, sources, |sources|, Arrived(w, table, sources, |sources|), view)
    requires forall path :: path in available <==> Present(sources, path)
    requires Ascending(ids) && forall id :: id in ids <==> id in table && Defaulted(w, table[id], available)
    requires |ps| == |ids| && forall i :: 0 <= i < |ids| ==> Missing(w, table[ids[i]]) == Some(ps[i])
    ensures PlaceAll(w, view, ps).Some?
    ensures Board(w, table, sources, |sources|, Arrived(w, table, sources, |sources|) + Elements(ids), PlaceAll(w, view, ps).value)
    ensures forall id :: id in Arrived(w, table, sources, |sources|) + Elements(ids) <==> id in table && Contributes(w, sources, table[id])
  {
    var done := Arrived(w, table, sources, |sources|);
    assert forall path :: SourceBefore(sources, |sources|, path) == Present(sources, path);
    forall i | 0 <= i < |ids|
      ensures ids[i] !in done && Right(w, table, sources, ids[i], ps[i])
    {
      assert ids[i] in ids;
    }
    AscendingIsSeparate(ids);
    RoutesPlaced(w, table, sources, |sources|, done, view, ids, ps);
  }

  /** No conversion failed for the first n sources. */
  ghost predicate NoneFailed(w: World, table: Table, sources: seq<Source>, n: nat)
    requires n <= |sources|
  {
    forall id, i :: id in table && 0 <= i < n && Routes(w, table[id]) && table[id].source == sources[i].path ==>
      Explicit(w, table[id], sources[i]).Some?
  }

  lemma OneFailed(w: World, table: Table, sources: seq<Source>, n: nat, ids: seq<string>)
    requires n < |sources|
    requires forall id :: id in ids <==> id in table && Routes(w, table[id]) && table[id].source == sources[n].path
    requires exists id :: id in ids && Explicit(w, table[id], sources[n]).None?
    ensures Fails(w, table, sources)
  {
    var id :| id in ids && Explicit(w, table[id], sources[n]).None?;
    assert Breaks(w, sources, table[id]);
  }

  lemma NoneFailedNext(w: World, table: Table, sources: seq<Source>, n: nat, ids: seq<string>)
    requires n < |sources| && NoneFailed(w, table, sources, n)
    requires forall id :: id in ids <==> id in table && Routes(w, table[id]) && table[id].source == sources[n].path
    requires forall id :: id in ids ==> Explicit(w, table[id], sources[n]).Some?
    ensures NoneFailed(w, table, sources, n + 1)
  {
  }

  lemma OneDefaultFailed(w: World, table: Table, sources: seq<Source>, available: set<Path>, ids: seq<string>)
    requires forall path :: path in available <==> Present(sources, path)
    requires forall id :: id in ids <==> id in table && Defaulted(w, table[id], available)
    requires exists id :: id in ids && Missing(w, table[id]).None?
    ensures Fails(w, table, sources)
  {
    var id :| id in ids && Missing(w, table[id]).None?;
    assert Breaks(w, sources, table[id]);
  }

  lemma NothingBreaks(w: World, table: Table, sources: seq<Source>, available: set<Path>, ids: seq<string>)
    requires NoneFailed(w, table, sources, |sources|)
    requires forall path :: path in available <==> Present(sources, path)
    requires forall id :: id in ids <==> id in table && Defaulted(w, table[id], available)
    requires forall id :: id in ids ==> Missing(w, table[id]).Some?
    ensures !Fails(w, table, sources)
  {
    forall id | id in table
      ensures !Breaks(w, sources, table[id])
    {
      assert Present(sources, table[id].source) || !Routes(w, table[id]) || Skipped(w, table[id]) || id in ids;
    }
  }

  /**
   The unified snapshot: with distinct source paths it never reports a duplicate, fails exactly when a
   conversion it needs fails, and otherwise is the snapshot the specification describes.
   */
  method MapSnapshot(t: BindingTable, w: World, sources: seq<Source>) returns (r: Result)
    requires t.Valid()
    ensures Distinct(sources) ==> !r.Duplicate?
    ensures Distinct(sources) ==> (r.Failed? <==> Fails(w, t.bindings, sources))
    ensures Distinct(sources) && r.Snapshot? ==> Describes(w, t.bindings, sources, r.items)
    ensures r.Snapshot? ==> forall i, j :: 0 <= i < j < |r.items| ==> r.items[i].path != r.items[j].path
  {
    var items, byTarget, available := [], map[], {};
    var duplicate;
    for n := 0 to |sources|
      invariant Indexed(items, byTarget)
      invariant forall path :: path in available <==> SourceBefore(sources, n, path)
      invariant NoneFailed(w, t.bindings, sources, n)
      invariant Distinct(sources) ==> Board(w, t.bindings, sources, n, Arrived(w, t.bindings, sources, n), ViewOf(items, byTarget))
    {
      available := available + {sources[n].path};
      var projections, ids := ProjectProviderProperty(t, w, sources[n]);
      if projections.None? {
        OneFailed(w, t.bindings, sources, n, ids);
        return Failed;
      }
      NoneFailedNext(w, t.bindings, sources, n, ids);
      if Distinct(sources) {
        SourcePlaced(w, t.bindings, sources, n, ViewOf(items, byTarget), ids, projections.value);
      }
      items, byTarget, duplicate := AddAll(w, items, byTarget, projections.value);
      if duplicate.Some? {
        return Duplicate(duplicate.value);
      }
    }
    assert forall path :: SourceBefore(sources, |sources|, path) == Present(sources, path);
    var missing, ids := ProjectMissing(t, w, available);
    if missing.None? {
      OneDefaultFailed(w, t.bindings, sources, available, ids);
      return Failed;
    }
    if Distinct(sources) {
      DefaultsPlaced(w, t.bindings, sources, ViewOf(items, byTarget), available, ids, missing.value);
    }
    NothingBreaks(w, t.bindings, sources, available, ids);
    items, byTarget, duplicate := AddAll(w, items, byTarget, missing.value);
    if duplicate.Some? {
      return Duplicate(duplicate.value);
    }
    if Distinct(sources) {
      BoardDescribes(w, t.bindings, sources, Arrived(w, t.bindings, sources, |sources|) + Elements(ids), items, byTarget);
    }
    return Snapshot(items);
  }

  /** The provider property a write to a unified property goes to, unless the profile of its owner is missing. */
  method ResolveWritePath(t: BindingTable, w: World, path: Path) returns (target: Option<Path>)
    requires t.Valid()
    ensures target.None? <==> exists id :: id in t.bindings && OwnerLacksProfile(w, t.bindings[id], path)
    ensures target.Some? ==> WritesTo(w, t.bindings, path, target.value)
  {
    var id := t.ReverseRoute(w.provider, w.device, path);
    if id.None? {
      return Some(path);
    }
    var b := t.bindings[id.value];
    assert Owns(w, b, path);
    if b.profile != "" && b.profile !in w.profiles {
      assert OwnerLacksProfile(w, b, path);
      return None;
    }
    return Some(b.source);
  }
}
