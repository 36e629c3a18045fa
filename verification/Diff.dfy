/** The difference of two trees of values as text. */
module Diffs {
  import opened Orders
  import opened Texts
  import opened ValueTrees
  import opened Renderings
  import opened DiffSpec

  lemma WrittenTwice(text: string, x: seq<string>, y: seq<string>)
    ensures text + Joined(x) + Joined(y) == text + Joined(x + y)
  {
    JoinedConcat(x, y);
  }

  class Builder {
    var text: string

    constructor ()
      ensures text == ""
    {
      text := "";
    }

    method WriteString(s: string)
      modifies this
      ensures text == old(text) + s
    {
      text := text + s;
    }
  }

  /** Leaves written by the marshaller; the keys of every map in order. */
  method Diff(leaf: LeafFormat, a: Tree, b: Tree) returns (text: string)
    ensures text == Joined(DiffLines(leaf, a, b, 0))
  {
    if |a| == 0 && |b| == 0 {
      EmptyOrdered(SortedKeys(a.Keys + b.Keys), a.Keys + b.Keys);
      return "";
    }
    text := DiffRecursively(leaf, a, b, 0);
  }

  method DiffRecursively(leaf: LeafFormat, a: Tree, b: Tree, depth: nat) returns (text: string)
    ensures text == Joined(DiffLines(leaf, a, b, depth))
    decreases Node(a), 2
  {
    var buf := new Builder();
    var keys := CollectKeys(a, b);
    ghost var lines := DiffKeys(leaf, a, b, keys, depth);
    WriteKeys(leaf, a, b, keys, depth, buf);
    text := buf.text;
    assert text == Joined(lines);
  }

  /** The loop over the keys. */
  method WriteKeys(leaf: LeafFormat, a: Tree, b: Tree, keys: seq<string>, depth: nat, buf: Builder)
    requires forall k | k in keys :: k in a || k in b
    modifies buf
    ensures buf.text == old(buf.text) + Joined(DiffKeys(leaf, a, b, keys, depth))
    decreases Node(a), 1
  {
    ghost var whole := buf.text + Joined(DiffKeys(leaf, a, b, keys, depth));
    var todo := keys;
    while todo != []
      invariant forall k | k in todo :: k in a || k in b
      invariant buf.text + Joined(DiffKeys(leaf, a, b, todo, depth)) == whole
    {
      NextKey(leaf, a, b, todo, depth, buf.text);
      WriteKey(leaf, a, b, todo[0], depth, buf);
      todo := todo[1..];
    }
  }

  lemma NextKey(leaf: LeafFormat, a: Tree, b: Tree, keys: seq<string>, depth: nat, text: string)
    requires keys != [] && forall k | k in keys :: k in a || k in b
    ensures text + Joined(DiffKeys(leaf, a, b, keys, depth))
         == text + Joined(DiffKey(leaf, a, b, keys[0], depth)) + Joined(DiffKeys(leaf, a, b, keys[1..], depth))
  {
    WrittenTwice(text, DiffKey(leaf, a, b, keys[0], depth), DiffKeys(leaf, a, b, keys[1..], depth));
  }

  /** What one pass of the loop writes. */
  method WriteKey(leaf: LeafFormat, a: Tree, b: Tree, key: string, depth: nat, buf: Builder)
    requires key in a || key in b
    modifies buf
    ensures buf.text == old(buf.text) + Joined(DiffKey(leaf, a, b, key, depth))
    decreases Node(a), 0
  {
    ghost var before := buf.text;
    if key in a && key in b {
      if a[key] == b[key] {
        var asYaml := Marshal(leaf, key, a[key]);
        WriteWithPrepend("  ", asYaml, depth, buf);
        return;
      }
      var aWithKey, bWithKey := map[key := a[key]], map[key := b[key]];
      assert aWithKey[key] == a[key] && bWithKey[key] == b[key];
      var aIsMax := IsMaxDepth(aWithKey);
      var bIsMax := IsMaxDepth(bWithKey);
      if !aIsMax && !bIsMax {
        WriteWithPrepend("  ", key + ":", depth, buf);
        var child := DiffRecursively(leaf, a[key].fields, b[key].fields, depth + 1);
        buf.WriteString(child);
        WrittenTwice(before, Marked("  ", depth, TextLines(key + ":")),
                     DiffLines(leaf, a[key].fields, b[key].fields, depth + 1));
        return;
      }
      var aYaml := Marshal(leaf, key, a[key]);
      var bYaml := Marshal(leaf, key, b[key]);
      WriteWithPrepend("- ", aYaml, depth, buf);
      WriteWithPrepend("+ ", bYaml, depth, buf);
      WrittenTwice(before, Marked("- ", depth, TextLines(aYaml)), Marked("+ ", depth, TextLines(bYaml)));
    } else if key in a {
      var asYaml := Marshal(leaf, key, a[key]);
      WriteWithPrepend("- ", asYaml, depth, buf);
    } else {
      var asYaml := Marshal(leaf, key, b[key]);
      WriteWithPrepend("+ ", asYaml, depth, buf);
    }
  }

  /** The keys of either map, in order. */
  method CollectKeys(a: Tree, b: Tree) returns (keys: seq<string>)
    ensures keys == SortedKeys(a.Keys + b.Keys)
  {
    keys := AppendKeys([], a.Keys);
    keys := AppendKeys(keys, b.Keys - a.Keys);
    assert multiset(a.Keys + b.Keys) == multiset(a.Keys) + multiset(b.Keys - a.Keys);
    SortOrders(keys, a.Keys + b.Keys);
    keys := Sort(Self, keys);
    SortedKeysOf(keys, a.Keys + b.Keys);
  }

  method AppendKeys(keys: seq<string>, more: set<string>) returns (r: seq<string>)
    ensures multiset(r) == multiset(keys) + multiset(more)
  {
    r := keys;
    var todo := more;
    while todo != {}
      invariant todo <= more
      invariant multiset(r) == multiset(keys) + multiset(more - todo)
    {
      var k :| k in todo;
      r := r + [k];
      assert more - (todo - {k}) == (more - todo) + {k};
      todo := todo - {k};
    }
    assert more - todo == more;
  }

  method WriteWithPrepend(prepend: string, text: string, depth: nat, buf: Builder)
    modifies buf
    ensures buf.text == old(buf.text) + Joined(Marked(prepend, depth, TextLines(text)))
  {
    var lines := Split(TrimSpace(text));
    ghost var before := buf.text;
    ghost var marked := Marked(prepend, depth, lines);
    var i := 0;
    while i < |lines|
      invariant 0 <= i <= |lines|
      invariant buf.text == before + Joined(marked[..i])
    {
      NextLine(before, marked, i);
      buf.WriteString(prepend);
      WriteIndent(depth, buf);
      buf.WriteString(lines[i]);
      buf.WriteString("\n");
      assert buf.text == before + Joined(marked[..i]) + (marked[i] + "\n");
      i := i + 1;
    }
    assert marked[..i] == marked;
  }

  lemma NextLine(text: string, lines: seq<string>, i: nat)
    requires i < |lines|
    ensures text + Joined(lines[..i + 1]) == text + Joined(lines[..i]) + (lines[i] + "\n")
  {
    WrittenTwice(text, lines[..i], [lines[i]]);
    assert lines[..i + 1] == lines[..i] + [lines[i]];
    assert Joined([lines[i]]) == lines[i] + "\n";
  }

  method WriteIndent(depth: nat, buf: Builder)
    modifies buf
    ensures buf.text == old(buf.text) + Indent(depth)
  {
    ghost var before := buf.text;
    for i := 0 to depth
      invariant buf.text == before + Indent(i)
    {
      buf.WriteString("  ");
    }
  }

  method IsMaxDepth(m: Tree) returns (r: bool)
    ensures r <==> forall k | k in m :: m[k].Leaf?
  {
    var todo := m.Keys;
    while todo != {}
      invariant todo <= m.Keys
      invariant forall k | k in m && k !in todo :: m[k].Leaf?
    {
      var k :| k in todo;
      if m[k].Node? {
        return false;
      }
      todo := todo - {k};
    }
    return true;
  }

  /** yaml.Marshal of one key with its value. */
  method Marshal(leaf: LeafFormat, key: string, v: Value) returns (text: string)
    ensures text == Joined(RenderKey(leaf, key, v))
  {
    var lines := MarshalKey(leaf, key, v);
    text := Joined(lines);
  }

  method MarshalKey(leaf: LeafFormat, key: string, v: Value) returns (lines: seq<string>)
    ensures lines == RenderKey(leaf, key, v)
    decreases v, 2
  {
    match v
    case Leaf(text) => lines := leaf(key, text);
    case Node(fields) =>
      if |fields| == 0 {
        return [key + ": {}"];
      }
      var below := MarshalMap(leaf, fields);
      lines := [key + ":"] + Prefixed("  ", below);
  }

  method MarshalMap(leaf: LeafFormat, t: Tree) returns (lines: seq<string>)
    ensures lines == Render(leaf, t)
    decreases Node(t), 1
  {
    var none: Tree := map[];
    var keys := CollectKeys(t, none);
    assert t.Keys + none.Keys == t.Keys;
    lines := MarshalKeys(leaf, t, keys);
  }

  method MarshalKeys(leaf: LeafFormat, t: Tree, keys: seq<string>) returns (lines: seq<string>)
    requires forall k | k in keys :: k in t
    ensures lines == RenderKeys(leaf, t, keys)
    decreases Node(t), 0
  {
    lines := [];
    var todo := keys;
    while todo != []
      invariant forall k | k in todo :: k in t
      invariant lines + RenderKeys(leaf, t, todo) == RenderKeys(leaf, t, keys)
    {
      NextRendered(leaf, t, todo, lines);
      var one := MarshalKey(leaf, todo[0], t[todo[0]]);
      lines := lines + one;
      todo := todo[1..];
    }
  }

  lemma NextRendered(leaf: LeafFormat, t: Tree, keys: seq<string>, lines: seq<string>)
    requires keys != [] && forall k | k in keys :: k in t
    ensures lines + RenderKeys(leaf, t, keys)
         == lines + RenderKey(leaf, keys[0], t[keys[0]]) + RenderKeys(leaf, t, keys[1..])
  {
  }

  // ---------------------------------------------------------------------------
  // Reading the text

  lemma {:induction false} PlainIndent(depth: nat)
    ensures Plain(Indent(depth))
  {
    if depth > 0 {
      PlainIndent(depth - 1);
    }
  }

  lemma PlainMarked(mark: string, depth: nat, lines: seq<string>)
    requires Plain(mark) && AllPlain(lines)
    ensures AllPlain(Marked(mark, depth, lines))
  {
    PlainIndent(depth);
    PlainPrefixed(mark + Indent(depth), lines);
  }

  lemma {:induction false} PlainDiffKeys(leaf: LeafFormat, a: Tree, b: Tree, keys: seq<string>, depth: nat)
    requires forall k | k in keys :: k in a || k in b
    ensures AllPlain(DiffKeys(leaf, a, b, keys, depth))
    decreases Node(a), 1, |keys|
  {
    if keys != [] {
      PlainDiffKey(leaf, a, b, keys[0], depth);
      PlainDiffKeys(leaf, a, b, keys[1..], depth);
    }
  }

  lemma PlainDiffKey(leaf: LeafFormat, a: Tree, b: Tree, key: string, depth: nat)
    requires key in a || key in b
    ensures AllPlain(DiffKey(leaf, a, b, key, depth))
    decreases Node(a), 0
  {
    if key in a {
      PlainMarked("- ", depth, Written(leaf, key, a[key]));
      PlainMarked("  ", depth, Written(leaf, key, a[key]));
    }
    if key in b {
      PlainMarked("+ ", depth, Written(leaf, key, b[key]));
    }
    if key in a && key in b && a[key].Node? && b[key].Node? {
      PlainMarked("  ", depth, TextLines(key + ":"));
      PlainDiffKeys(leaf, a[key].fields, b[key].fields, SortedKeys(a[key].fields.Keys + b[key].fields.Keys), depth + 1);
    }
  }

  /** From the text of a difference: its marks tell whether the trees differ, whatever
      their keys; and either tree can be read back exactly when none of its empty maps
      meets a different map, if keys are written as they are. */
  lemma DiffTextFaithful(leaf: LeafFormat, a: Tree, b: Tree, text: string)
    requires text == Joined(DiffLines(leaf, a, b, 0))
    ensures HasMark(LinesOf(text)) <==> a != b
    ensures TidyKeys(a) && TidyKeys(b) ==> (Keep(LinesOf(text), '+') == Render(leaf, a) <==> Shown(a, b))
    ensures TidyKeys(a) && TidyKeys(b) ==> (Keep(LinesOf(text), '-') == Render(leaf, b) <==> Shown(b, a))
  {
    PlainDiffKeys(leaf, a, b, SortedKeys(a.Keys + b.Keys), 0);
    LinesOfJoined(DiffLines(leaf, a, b, 0));
    MarkedExactlyWhenDifferent(leaf, a, b, 0);
    if TidyKeys(a) && TidyKeys(b) {
      ReadsBackUnindented(leaf, a, b, '+');
      ReadsBackUnindented(leaf, a, b, '-');
    }
  }

  lemma ReadsBackUnindented(leaf: LeafFormat, a: Tree, b: Tree, drop: char)
    requires drop in {'+', '-'} && TidyKeys(a) && TidyKeys(b)
    ensures Keep(DiffLines(leaf, a, b, 0), drop) == Render(leaf, Own(drop, a, b))
       <==> Shown(Own(drop, a, b), Other(drop, a, b))
  {
    ReadsBackExactlyWhen(leaf, a, b, 0, drop);
    PrefixedNothing(Render(leaf, Own(drop, a, b)));
  }

  lemma PrefixedNothing(lines: seq<string>)
    ensures Prefixed("", lines) == lines
  {
    assert forall i | 0 <= i < |lines| :: "" + lines[i] == lines[i];
  }

  /** Identical trees give an empty text only when they are empty; nothing is marked. */
  lemma IdenticalTrees(leaf: LeafFormat, a: Tree)
    ensures Joined(DiffLines(leaf, a, a, 0)) == "" <==> a == map[]
    ensures !HasMark(DiffLines(leaf, a, a, 0))
    ensures TidyKeys(a) ==> DiffLines(leaf, a, a, 0) == Prefixed("  ", Render(leaf, a))
  {
    var keys := SortedKeys(a.Keys);
    assert a.Keys + a.Keys == a.Keys;
    EmptyOrdered(keys, a.Keys);
    MarkedExactlyWhenDifferent(leaf, a, a, 0);
    if keys != [] {
      assert DiffKey(leaf, a, a, keys[0], 0) != [];
    }
    if TidyKeys(a) {
      IdenticalKeys(leaf, a, keys);
    }
  }

  lemma {:induction false} IdenticalKeys(leaf: LeafFormat, a: Tree, keys: seq<string>)
    requires TidyKeys(a) && forall k | k in keys :: k in a
    ensures DiffKeys(leaf, a, a, keys, 0) == Prefixed("  ", RenderKeys(leaf, a, keys))
  {
    if keys != [] {
      IdenticalKeys(leaf, a, keys[1..]);
      WrittenTidy(leaf, keys[0], a[keys[0]]);
      assert "  " + Indent(0) == "  ";
      PrefixedConcat("  ", RenderKey(leaf, keys[0], a[keys[0]]), RenderKeys(leaf, a, keys[1..]));
    }
  }
}
