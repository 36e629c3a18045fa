/** Helm values: nested maps whose leaves are scalars and lists. */
module ValueTrees {
  import opened Common

  datatype Value = Leaf(text: string) | Node(fields: Tree)

  type Tree = map<string, Value>

  type Path = seq<string>

  /** The value at a path below v. */
  function At(v: Value, p: Path): Option<Value>
    decreases p
  {
    if p == [] then Some(v)
    else if v.Node? && p[0] in v.fields then At(v.fields[p[0]], p[1..])
    else None
  }

  /** Some leaf sits strictly above the path. */
  predicate LeafAbove(v: Value, p: Path)
    decreases p
  {
    && p != []
    && if v.Leaf? then true else p[0] in v.fields && LeafAbove(v.fields[p[0]], p[1..])
  }

  /** No path is a map in one of the two and a leaf in the other. */
  ghost predicate Compatible(a: Value, b: Value) {
    forall p | At(a, p).Some? && At(b, p).Some? :: At(a, p).value.Node? <==> At(b, p).value.Node?
  }

  lemma CompatibleBelow(a: Value, b: Value, k: string)
    requires a.Node? && b.Node? && k in a.fields && k in b.fields && Compatible(a, b)
    ensures Compatible(a.fields[k], b.fields[k])
  {
    forall p: Path | At(a.fields[k], p).Some? && At(b.fields[k], p).Some?
      ensures At(a.fields[k], p).value.Node? <==> At(b.fields[k], p).value.Node?
    {
      assert ([k] + p)[1..] == p;
      assert At(a, [k] + p) == At(a.fields[k], p) && At(b, [k] + p) == At(b.fields[k], p);
    }
  }
}
