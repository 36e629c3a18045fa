/** Trees as indented lines of YAML. */
module Renderings {
  import opened Orders
  import opened Texts
  import opened ValueTrees

  /** The lines of a marshalled leaf. */
  type Lines = s: seq<string> | Tidy(s) witness ["-"]

  /** How a key with a leaf is written. */
  type LeafFormat = (string, string) -> Lines

  function Indent(depth: nat): string {
    if depth == 0 then "" else Indent(depth - 1) + "  "
  }

  function Prefixed(prefix: string, lines: seq<string>): (r: seq<string>)
    ensures |r| == |lines|
    ensures forall i | 0 <= i < |r| :: r[i] == prefix + lines[i]
  {
    seq(|lines|, i requires 0 <= i < |lines| => prefix + lines[i])
  }

  lemma PrefixedTwice(outer: string, inner: string, lines: seq<string>)
    ensures Prefixed(outer, Prefixed(inner, lines)) == Prefixed(outer + inner, lines)
  {
    forall i | 0 <= i < |lines|
      ensures Prefixed(outer, Prefixed(inner, lines))[i] == Prefixed(outer + inner, lines)[i]
    {
      assert outer + (inner + lines[i]) == (outer + inner) + lines[i];
    }
  }

  lemma PrefixedConcat(prefix: string, a: seq<string>, b: seq<string>)
    ensures Prefixed(prefix, a + b) == Prefixed(prefix, a) + Prefixed(prefix, b)
  {
  }

  // ---------------------------------------------------------------------------
  // Keys in order

  /** keys lists s in order and without repetition. */
  ghost predicate Ordered(keys: seq<string>, s: set<string>) {
    && (forall i, j | 0 <= i < j < |keys| :: Less(keys[i], keys[j]))
    && (forall k :: k in keys <==> k in s)
  }

  /** keys lists s in any order and without repetition. */
  ghost predicate Lists(keys: seq<string>, s: set<string>) {
    multiset(keys) == multiset(s)
  }

  function Self(k: string): string {
    k
  }

  lemma RepeatedTwice(keys: seq<string>, i: nat, j: nat)
    requires i < j < |keys| && keys[i] == keys[j]
    ensures multiset(keys)[keys[i]] >= 2
  {
    assert keys == keys[..j] + keys[j..];
    assert keys[i] in multiset(keys[..j]) && keys[i] in multiset(keys[j..]);
  }

  /** Sorting the elements of a set puts them in order. */
  lemma SortOrders(keys: seq<string>, s: set<string>)
    requires Lists(keys, s)
    ensures Ordered(Sort(Self, keys), s)
  {
    var r := Sort(Self, keys);
    SortSorted(Self, keys);
    forall i, j | 0 <= i < j < |r|
      ensures Less(r[i], r[j])
    {
      assert Le(Self(r[i]), Self(r[j]));
      LeTotal(r[i], r[j]);
      if r[i] == r[j] {
        RepeatedTwice(r, i, j);
        assert false;
      }
    }
    forall k
      ensures k in r <==> k in s
    {
      assert k in r <==> k in multiset(r);
    }
  }

  lemma HeadOrdered(keys: seq<string>, s: set<string>)
    requires Ordered(keys, s) && keys != []
    ensures keys[0] in s && keys[0] !in keys[1..] && Ordered(keys[1..], s - {keys[0]})
  {
    LeReflexive(keys[0]);
  }

  lemma EmptyOrdered(keys: seq<string>, s: set<string>)
    requires Ordered(keys, s)
    ensures keys == [] <==> s == {}
  {
    assert keys != [] ==> keys[0] in s;
  }

  lemma {:induction false} OrderedUnique(a: seq<string>, b: seq<string>, s: set<string>)
    requires Ordered(a, s) && Ordered(b, s)
    ensures a == b
  {
    EmptyOrdered(a, s);
    EmptyOrdered(b, s);
    if a != [] && b != [] {
      assert a[0] in b && b[0] in a;
      LeTotal(a[0], b[0]);
      HeadOrdered(a, s);
      HeadOrdered(b, s);
      OrderedUnique(a[1..], b[1..], s - {a[0]});
      assert a == [a[0]] + a[1..] && b == [b[0]] + b[1..];
    }
  }

  lemma {:induction false} ListExists(s: set<string>)
    ensures exists keys :: Lists(keys, s)
  {
    if s == {} {
      assert Lists([], s);
    } else {
      var k :| k in s;
      ListExists(s - {k});
      var rest :| Lists(rest, s - {k});
      assert multiset(s) == multiset(s - {k}) + multiset{k};
      assert Lists(rest + [k], s);
    }
  }

  ghost function SortedKeys(s: set<string>): (keys: seq<string>)
    ensures Ordered(keys, s)
  {
    ListExists(s);
    var list :| Lists(list, s);
    SortOrders(list, s);
    Sort(Self, list)
  }

  function Only(keys: seq<string>, s: set<string>): (r: seq<string>)
    ensures forall k :: k in r <==> k in keys && k in s
  {
    if keys == [] then []
    else (if keys[0] in s then [keys[0]] else []) + Only(keys[1..], s)
  }

  lemma {:induction false} OnlyIgnores(keys: seq<string>, s: set<string>, k: string)
    requires k !in keys
    ensures Only(keys, s - {k}) == Only(keys, s)
  {
    if keys != [] {
      OnlyIgnores(keys[1..], s, k);
    }
  }

  /** The keys of a part of s stay in order. */
  lemma {:induction false} OnlyOrdered(keys: seq<string>, s: set<string>, part: set<string>)
    requires Ordered(keys, s) && part <= s
    ensures Ordered(Only(keys, part), part)
  {
    if keys != [] {
      var k, rest := keys[0], keys[1..];
      HeadOrdered(keys, s);
      OnlyOrdered(rest, s - {k}, part - {k});
      OnlyIgnores(rest, part, k);
      forall x | x in Only(rest, part)
        ensures Less(k, x)
      {
        assert x in rest;
      }
    }
  }

  lemma SortedKeysOf(keys: seq<string>, s: set<string>)
    requires Ordered(keys, s)
    ensures keys == SortedKeys(s)
  {
    OrderedUnique(keys, SortedKeys(s), s);
  }

  // ---------------------------------------------------------------------------
  // Rendering

  ghost function RenderKeys(leaf: LeafFormat, t: Tree, keys: seq<string>): seq<string>
    requires forall k | k in keys :: k in t
    decreases Node(t), 1, |keys|
  {
    if keys == [] then [] else RenderKey(leaf, keys[0], t[keys[0]]) + RenderKeys(leaf, t, keys[1..])
  }

  ghost function RenderKey(leaf: LeafFormat, key: string, v: Value): (r: seq<string>)
    ensures r != []
    decreases v
  {
    match v
    case Leaf(text) => leaf(key, text)
    case Node(fields) =>
      if fields == map[] then [key + ": {}"]
      else [key + ":"] + Prefixed("  ", Render(leaf, fields))
  }

  ghost function Render(leaf: LeafFormat, t: Tree): seq<string>
    decreases Node(t), 2
  {
    RenderKeys(leaf, t, SortedKeys(t.Keys))
  }

  lemma RenderNothing(leaf: LeafFormat)
    ensures Render(leaf, map[]) == []
  {
    var t: Tree := map[];
    EmptyOrdered(SortedKeys(t.Keys), t.Keys);
  }

  // ---------------------------------------------------------------------------
  // Trees whose keys are written as they are

  predicate TidyKey(key: string) {
    Plain(key) && (key == "" || !IsSpace(key[0]))
  }

  /** Keys of one line, not starting with a space, at every level. */
  ghost predicate TidyKeys(t: Tree)
    decreases Node(t)
  {
    forall k | k in t :: TidyKey(k) && (t[k].Node? ==> TidyKeys(t[k].fields))
  }

  lemma PlainPrefixed(prefix: string, lines: seq<string>)
    requires Plain(prefix) && AllPlain(lines)
    ensures AllPlain(Prefixed(prefix, lines))
  {
  }

  lemma HeadTidy(key: string, rest: string)
    requires TidyKey(key) && Plain(rest) && Ends(rest) && !IsSpace(rest[0])
    ensures Plain(key + rest) && Starts(key + rest) && Ends(key + rest)
  {
    var s := key + rest;
    assert s[|s| - 1] == rest[|rest| - 1];
    assert s[0] == if key == "" then rest[0] else key[0];
  }

  lemma NestedTidy(head: string, below: seq<string>)
    requires Plain(head) && Starts(head)
    requires below != [] && AllPlain(below) && Ends(below[|below| - 1])
    ensures Tidy([head] + Prefixed("  ", below))
  {
    PlainPrefixed("  ", below);
    var last := below[|below| - 1];
    assert ("  " + last)[|last| + 1] == last[|last| - 1];
    assert ([head] + Prefixed("  ", below))[|below|] == "  " + last;
  }

  lemma {:induction false} RenderKeyTidy(leaf: LeafFormat, key: string, v: Value)
    requires TidyKey(key) && (v.Node? ==> TidyKeys(v.fields))
    ensures Tidy(RenderKey(leaf, key, v))
    decreases v, 1
  {
    match v
    case Leaf(_) =>
    case Node(fields) =>
      HeadTidy(key, ": {}");
      HeadTidy(key, ":");
      if fields != map[] {
        var keys := SortedKeys(fields.Keys);
        EmptyOrdered(keys, fields.Keys);
        RenderKeysTidy(leaf, fields, keys);
        NestedTidy(key + ":", Render(leaf, fields));
      }
  }

  lemma {:induction false} RenderKeysTidy(leaf: LeafFormat, t: Tree, keys: seq<string>)
    requires TidyKeys(t) && keys != [] && forall k | k in keys :: k in t
    ensures var lines := RenderKeys(leaf, t, keys);
            lines != [] && AllPlain(lines) && Ends(lines[|lines| - 1])
    decreases Node(t), 0, |keys|
  {
    RenderKeyTidy(leaf, keys[0], t[keys[0]]);
    if |keys| > 1 {
      RenderKeysTidy(leaf, t, keys[1..]);
    } else {
      assert RenderKeys(leaf, t, keys[1..]) == [];
    }
  }
}
