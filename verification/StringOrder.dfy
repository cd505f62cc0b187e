/** Identifiers in ascending order, as the string sort of the standard library leaves them. */
module StringOrder {

  predicate Less(a: string, b: string) {
    b != [] && (a == [] || a[0] < b[0] || (a[0] == b[0] && Less(a[1..], b[1..])))
  }

  predicate Ascending(ids: seq<string>) {
    forall i, j :: 0 <= i < j < |ids| ==> Less(ids[i], ids[j])
  }

  function Elements(ids: seq<string>): set<string> {
    set id | id in ids
  }

  function Insert(ids: seq<string>, id: string): seq<string> {
    if ids == [] then [id]
    else if Less(id, ids[0]) then [id] + ids
    else [ids[0]] + Insert(ids[1..], id)
  }

  function Sorted(ids: seq<string>): seq<string> {
    if ids == [] then [] else Insert(Sorted(ids[..|ids| - 1]), ids[|ids| - 1])
  }

  lemma {:induction false} Irreflexive(a: string)
    ensures !Less(a, a)
  {
    if a != [] { Irreflexive(a[1..]); }
  }

  lemma {:induction false} Transitive(a: string, b: string, c: string)
    requires Less(a, b) && Less(b, c)
    ensures Less(a, c)
  {
    if a != [] && a[0] == b[0] && b[0] == c[0] { Transitive(a[1..], b[1..], c[1..]); }
  }

  lemma {:induction false} Total(a: string, b: string)
    ensures Less(a, b) || a == b || Less(b, a)
  {
    if a != [] && b != [] && a[0] == b[0] {
      Total(a[1..], b[1..]);
      assert a == [a[0]] + a[1..] && b == [b[0]] + b[1..];
    }
  }

  /** The order is that of dictionaries: a prefix comes first, and otherwise the first difference decides. */
  lemma {:induction false} LessIsLexicographic(front: string, a: string, b: string)
    ensures a != "" ==> Less(front, front + a)
    ensures a != "" && b != "" && a[0] != b[0] ==> (Less(front + a, front + b) <==> a[0] < b[0])
  {
    if front == "" {
      assert front + a == a && front + b == b;
    } else {
      LessIsLexicographic(front[1..], a, b);
      assert (front + a)[1..] == front[1..] + a && (front + b)[1..] == front[1..] + b;
    }
  }

  lemma AscendingIsDistinct(ids: seq<string>, i: nat, j: nat)
    requires Ascending(ids) && i < |ids| && j < |ids| && ids[i] == ids[j]
    ensures i == j
  {
    Irreflexive(ids[i]);
  }

  lemma {:induction false} InsertAdds(ids: seq<string>, id: string)
    ensures forall x :: x in Insert(ids, id) <==> x in ids || x == id
  {
    if ids != [] {
      InsertAdds(ids[1..], id);
      assert ids == [ids[0]] + ids[1..];
    }
  }

  lemma {:induction false} InsertKeepsAscending(ids: seq<string>, id: string)
    requires Ascending(ids) && id !in ids
    ensures Ascending(Insert(ids, id))
  {
    if ids != [] {
      if Less(id, ids[0]) {
        forall j | 0 < j <= |ids|
          ensures Less(id, ([id] + ids)[j])
        {
          if j > 1 { Transitive(id, ids[0], ids[j - 1]); }
        }
      } else {
        Total(id, ids[0]);
        InsertKeepsAscending(ids[1..], id);
        InsertAdds(ids[1..], id);
        var rest := Insert(ids[1..], id);
        forall j | 0 <= j < |rest|
          ensures Less(ids[0], rest[j])
        {
          assert rest[j] in ids[1..] || rest[j] == id;
        }
      }
    }
  }

  lemma {:induction false} InsertAtEnd(ids: seq<string>, id: string)
    requires forall x :: x in ids ==> Less(x, id)
    ensures Insert(ids, id) == ids + [id]
  {
    if ids != [] {
      if Less(id, ids[0]) {
        Transitive(id, ids[0], id);
        Irreflexive(id);
      }
      InsertAtEnd(ids[1..], id);
      assert ids == [ids[0]] + ids[1..];
    }
  }

  /** Sorting leaves an ascending list as it is. */
  lemma {:induction false} SortedIsStable(ids: seq<string>)
    requires Ascending(ids)
    ensures Sorted(ids) == ids
  {
    if ids != [] {
      var front, last := ids[..|ids| - 1], ids[|ids| - 1];
      SortedIsStable(front);
      InsertAtEnd(front, last);
      assert ids == front + [last];
    }
  }

  lemma {:induction false} SortedIsAscending(ids: seq<string>)
    requires forall i, j :: 0 <= i < j < |ids| ==> ids[i] != ids[j]
    ensures Ascending(Sorted(ids)) && forall x :: x in Sorted(ids) <==> x in ids
  {
    if ids != [] {
      var front, last := ids[..|ids| - 1], ids[|ids| - 1];
      SortedIsAscending(front);
      InsertKeepsAscending(Sorted(front), last);
      InsertAdds(Sorted(front), last);
      assert ids == front + [last];
    }
  }

  /** There is one ascending list of given elements. */
  lemma {:induction false} AscendingIsUnique(a: seq<string>, b: seq<string>)
    requires Ascending(a) && Ascending(b) && forall x :: x in a <==> x in b
    ensures a == b
  {
    if a != [] {
      assert a[0] in b;
      assert b[0] in a;
      LeastFirst(a, b[0]);
      LeastFirst(b, a[0]);
      if a[0] != b[0] {
        Transitive(a[0], b[0], a[0]);
        Irreflexive(a[0]);
      }
      RestHasRest(a, b);
      AscendingIsUnique(a[1..], b[1..]);
    } else if b != [] {
      FirstIsIn(b);
      assert false;
    }
  }

  lemma FirstIsIn(ids: seq<string>)
    requires ids != []
    ensures ids[0] in ids
  {
  }

  lemma LeastFirst(ids: seq<string>, x: string)
    requires Ascending(ids) && x in ids
    ensures x == ids[0] || Less(ids[0], x)
  {
  }

  lemma RestHasRest(a: seq<string>, b: seq<string>)
    requires Ascending(a) && Ascending(b) && a != [] && b != [] && a[0] == b[0] && forall x :: x in a <==> x in b
    ensures forall x :: x in a[1..] <==> x in b[1..]
  {
    Irreflexive(a[0]);
    forall x
      ensures x in a[1..] <==> x in a && x != a[0]
      ensures x in b[1..] <==> x in b && x != b[0]
    {
    }
  }
}
