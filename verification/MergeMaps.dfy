/** The merge of two trees of values, the second taking precedence. */
module Merging {
  import opened Common
  import opened ValueTrees

  function Merge(a: Tree, b: Tree): Tree
    decreases Node(b)
  {
    map k | k in a.Keys + b.Keys ::
      if k !in b then a[k]
      else if k in a && a[k].Node? && b[k].Node? then Node(Merge(a[k].fields, b[k].fields))
      else b[k]
  }

  /** Both loops take the keys in any order. */
  method MergeMaps(a: Tree, b: Tree) returns (out: Tree)
    ensures out == Merge(a, b)
    decreases Node(b)
  {
    out := CopyMap(a);
    var todo := b.Keys;
    while todo != {}
      invariant todo <= b.Keys
      invariant forall k :: k in out <==> k in a || (k in b && k !in todo)
      invariant forall k | k in out :: out[k] == if k in todo then a[k] else Merge(a, b)[k]
    {
      var k :| k in todo;
      todo := todo - {k};
      if b[k].Node? && k in out && out[k].Node? {
        var merged := MergeMaps(out[k].fields, b[k].fields);
        out := out[k := Node(merged)];
      } else {
        out := out[k := b[k]];
      }
    }
  }

  method CopyMap(a: Tree) returns (out: Tree)
    ensures out == a
  {
    out := map[];
    var todo := a.Keys;
    while todo != {}
      invariant todo <= a.Keys
      invariant out == map k | k in a && k !in todo :: a[k]
    {
      var k :| k in todo;
      out := out[k := a[k]];
      todo := todo - {k};
    }
  }

  // ---------------------------------------------------------------------------
  // What a merge means

  /** The value of a merge at any path, from the values of the two trees. */
  lemma {:induction false} MergeMeaning(a: Tree, b: Tree, p: Path)
    ensures At(Node(Merge(a, b)), p) ==
            match At(Node(b), p) {
              case None => if LeafAbove(Node(b), p) then None else At(Node(a), p)
              case Some(Leaf(text)) => Some(Leaf(text))
              case Some(Node(over)) =>
                match At(Node(a), p) {
                  case Some(Node(under)) => Some(Node(Merge(under, over)))
                  case _ => Some(Node(over))
                }
            }
    decreases p
  {
    if p != [] && p[0] in a && p[0] in b && a[p[0]].Node? && b[p[0]].Node? {
      MergeMeaning(a[p[0]].fields, b[p[0]].fields, p[1..]);
    }
  }

  lemma EmptyIdentity(a: Tree)
    ensures Merge(a, map[]) == a && Merge(map[], a) == a
  {
  }

  lemma {:induction false} Idempotent(a: Tree)
    ensures Merge(a, a) == a
    decreases Node(a)
  {
    forall k | k in a && a[k].Node?
      ensures Merge(a[k].fields, a[k].fields) == a[k].fields
    {
      Idempotent(a[k].fields);
    }
  }

  /** Everything a holds is overridden by c. */
  ghost predicate Covered(a: Tree, c: Tree)
    decreases Node(c)
  {
    forall k | k in a :: k in c && (a[k].Node? && c[k].Node? ==> Covered(a[k].fields, c[k].fields))
  }

  lemma {:induction false} CoveredMeaning(a: Tree, c: Tree)
    ensures Covered(a, c) <==> Merge(a, c) == c
    decreases Node(c)
  {
    forall k | k in a && k in c && a[k].Node? && c[k].Node?
      ensures Covered(a[k].fields, c[k].fields) <==> Merge(a[k].fields, c[k].fields) == c[k].fields
    {
      CoveredMeaning(a[k].fields, c[k].fields);
    }
    if Covered(a, c) {
      assert forall k | k in a :: k in c;
      assert Merge(a, c).Keys == c.Keys;
    }
  }

  /** Where a leaf of b hides a map of a, a map of c must override all of that map. */
  ghost predicate Associates(a: Tree, b: Tree, c: Tree)
    decreases Node(c)
  {
    forall k | k in a && k in b && k in c :: AssociatesAt(a, b, c, k)
  }

  ghost predicate AssociatesAt(a: Tree, b: Tree, c: Tree, k: string)
    requires k in a && k in b && k in c
    decreases Node(c), 0
  {
    a[k].Node? && c[k].Node? ==>
      if b[k].Leaf? then Covered(a[k].fields, c[k].fields)
      else Associates(a[k].fields, b[k].fields, c[k].fields)
  }

  ghost predicate Associative(a: Tree, b: Tree, c: Tree) {
    Merge(Merge(a, b), c) == Merge(a, Merge(b, c))
  }

  lemma {:induction false} AssociativeExactlyWhen(a: Tree, b: Tree, c: Tree)
    ensures Associative(a, b, c) <==> Associates(a, b, c)
    decreases Node(c)
  {
    var left, right := Merge(Merge(a, b), c), Merge(a, Merge(b, c));
    assert left.Keys == right.Keys;
    forall k | k in left
      ensures left[k] == right[k] <==> (k in a && k in b && k in c ==> AssociatesAt(a, b, c, k))
    {
      AssociativeAt(a, b, c, k);
    }
  }

  lemma AssociativeAt(a: Tree, b: Tree, c: Tree, k: string)
    requires k in a || k in b || k in c
    ensures Merge(Merge(a, b), c)[k] == Merge(a, Merge(b, c))[k] <==>
        (k in a && k in b && k in c ==> AssociatesAt(a, b, c, k))
    decreases Node(c), 0
  {
    if k in a && k in b && k in c && a[k].Node? && c[k].Node? {
      if b[k].Leaf? {
        CoveredMeaning(a[k].fields, c[k].fields);
      } else {
        AssociativeExactlyWhen(a[k].fields, b[k].fields, c[k].fields);
      }
    }
  }

  /** In particular where no path is a map in one tree and a leaf in another. */
  lemma {:induction false} CompatibleAssociates(a: Tree, b: Tree, c: Tree)
    requires Compatible(Node(a), Node(b)) && Compatible(Node(b), Node(c))
    ensures Associative(a, b, c)
    decreases Node(c)
  {
    forall k | k in a && k in b && k in c && a[k].Node? && c[k].Node?
      ensures AssociatesAt(a, b, c, k)
    {
      CompatibleBelow(Node(a), Node(b), k);
      CompatibleBelow(Node(b), Node(c), k);
      assert At(a[k], []).Some? && At(b[k], []).Some?;
      CompatibleAssociates(a[k].fields, b[k].fields, c[k].fields);
      AssociativeExactlyWhen(a[k].fields, b[k].fields, c[k].fields);
    }
    AssociativeExactlyWhen(a, b, c);
  }

  /** A leaf that shadows a map makes the grouping matter: the map comes back when the
      later two are merged first. */
  lemma ShadowedMapReturns(k: string, under: Tree, text: string)
    requires under != map[]
    ensures !Associative(map[k := Node(under)], map[k := Leaf(text)], map[k := Node(map[])])
  {
    var a: Tree, b: Tree, c: Tree := map[k := Node(under)], map[k := Leaf(text)], map[k := Node(map[])];
    var j :| j in under;
    assert !Covered(a[k].fields, c[k].fields);
    assert !AssociatesAt(a, b, c, k);
    AssociativeExactlyWhen(a, b, c);
  }
}
