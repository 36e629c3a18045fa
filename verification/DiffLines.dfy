/** The lines of a difference of two trees, and what can be read off them. */
module DiffSpec {
  import opened Common
  import opened Texts
  import opened ValueTrees
  import opened Renderings

  function Marked(mark: string, depth: nat, lines: seq<string>): seq<string> {
    Prefixed(mark + Indent(depth), lines)
  }

  /** A key with its value as the marshaller writes it, trimmed and split into lines. */
  ghost function Written(leaf: LeafFormat, key: string, v: Value): seq<string> {
    TextLines(Joined(RenderKey(leaf, key, v)))
  }

  ghost function DiffLines(leaf: LeafFormat, a: Tree, b: Tree, depth: nat): seq<string>
    decreases Node(a), 2
  {
    DiffKeys(leaf, a, b, SortedKeys(a.Keys + b.Keys), depth)
  }

  ghost function DiffKeys(leaf: LeafFormat, a: Tree, b: Tree, keys: seq<string>, depth: nat): seq<string>
    requires forall k | k in keys :: k in a || k in b
    decreases Node(a), 1, |keys|
  {
    if keys == [] then [] else DiffKey(leaf, a, b, keys[0], depth) + DiffKeys(leaf, a, b, keys[1..], depth)
  }

  ghost function DiffKey(leaf: LeafFormat, a: Tree, b: Tree, key: string, depth: nat): seq<string>
    requires key in a || key in b
    decreases Node(a), 0
  {
    if key !in a then Marked("+ ", depth, Written(leaf, key, b[key]))
    else if key !in b then Marked("- ", depth, Written(leaf, key, a[key]))
    else if a[key] == b[key] then Marked("  ", depth, Written(leaf, key, a[key]))
    else if a[key].Node? && b[key].Node? then
      Marked("  ", depth, TextLines(key + ":")) + DiffLines(leaf, a[key].fields, b[key].fields, depth + 1)
    else
      Marked("- ", depth, Written(leaf, key, a[key])) + Marked("+ ", depth, Written(leaf, key, b[key]))
  }

  // ---------------------------------------------------------------------------
  // A line is marked exactly when the trees differ

  ghost predicate HasMark(lines: seq<string>) {
    exists i :: 0 <= i < |lines| && lines[i] != "" && lines[i][0] in {'+', '-'}
  }

  lemma MarkConcat(x: seq<string>, y: seq<string>)
    ensures HasMark(x + y) <==> HasMark(x) || HasMark(y)
  {
    assert forall i | 0 <= i < |x| :: (x + y)[i] == x[i];
    assert forall i | 0 <= i < |y| :: (x + y)[|x| + i] == y[i];
  }

  lemma MarkMarked(mark: string, depth: nat, lines: seq<string>)
    requires mark != "" && lines != []
    ensures HasMark(Marked(mark, depth, lines)) <==> mark[0] in {'+', '-'}
  {
    assert Marked(mark, depth, lines)[0][0] == mark[0];
  }

  predicate DifferAt(a: Tree, b: Tree, k: string) {
    !(k in a && k in b && a[k] == b[k])
  }

  lemma {:induction false} MarkedExactlyWhenDifferent(leaf: LeafFormat, a: Tree, b: Tree, depth: nat)
    ensures HasMark(DiffLines(leaf, a, b, depth)) <==> a != b
    decreases Node(a), 2
  {
    var keys := SortedKeys(a.Keys + b.Keys);
    MarksOfKeys(leaf, a, b, keys, depth);
    assert a == b <==> forall k | k in keys :: !DifferAt(a, b, k);
  }

  lemma {:induction false} MarksOfKeys(leaf: LeafFormat, a: Tree, b: Tree, keys: seq<string>, depth: nat)
    requires forall k | k in keys :: k in a || k in b
    ensures HasMark(DiffKeys(leaf, a, b, keys, depth)) <==> exists k :: k in keys && DifferAt(a, b, k)
    decreases Node(a), 1, |keys|
  {
    if keys != [] {
      MarksOfKey(leaf, a, b, keys[0], depth);
      MarksOfKeys(leaf, a, b, keys[1..], depth);
      MarkConcat(DiffKey(leaf, a, b, keys[0], depth), DiffKeys(leaf, a, b, keys[1..], depth));
    }
  }

  lemma MarksOfKey(leaf: LeafFormat, a: Tree, b: Tree, key: string, depth: nat)
    requires key in a || key in b
    ensures HasMark(DiffKey(leaf, a, b, key, depth)) <==> DifferAt(a, b, key)
    decreases Node(a), 0
  {
    if key !in a {
      MarkMarked("+ ", depth, Written(leaf, key, b[key]));
    } else if key !in b {
      MarkMarked("- ", depth, Written(leaf, key, a[key]));
    } else if a[key] == b[key] {
      MarkMarked("  ", depth, Written(leaf, key, a[key]));
    } else if a[key].Node? && b[key].Node? {
      MarkedExactlyWhenDifferent(leaf, a[key].fields, b[key].fields, depth + 1);
      MarkMarked("  ", depth, TextLines(key + ":"));
      MarkConcat(Marked("  ", depth, TextLines(key + ":")), DiffLines(leaf, a[key].fields, b[key].fields, depth + 1));
    } else {
      MarkMarked("- ", depth, Written(leaf, key, a[key]));
      MarkConcat(Marked("- ", depth, Written(leaf, key, a[key])), Marked("+ ", depth, Written(leaf, key, b[key])));
    }
  }

  // ---------------------------------------------------------------------------
  // Reading back either side

  /** The lines without those of one mark, and without their marks. */
  function Keep(lines: seq<string>, drop: char): seq<string> {
    if lines == [] then []
    else KeepLine(lines[0], drop) + Keep(lines[1..], drop)
  }

  function KeepLine(line: string, drop: char): seq<string> {
    if line != "" && line[0] == drop then [] else [Unmarked(line)]
  }

  function Unmarked(line: string): string {
    if |line| < 2 then "" else line[2..]
  }

  lemma {:induction false} KeepConcat(x: seq<string>, y: seq<string>, drop: char)
    ensures Keep(x + y, drop) == Keep(x, drop) + Keep(y, drop)
  {
    if x == [] {
      assert x + y == y;
    } else {
      var rest := x[1..];
      KeepConcat(rest, y, drop);
      assert (x + y)[0] == x[0] && (x + y)[1..] == rest + y;
      ConcatAssociative(KeepLine(x[0], drop), Keep(rest, drop), Keep(y, drop));
    }
  }

  lemma KeepCons(line: string, lines: seq<string>, drop: char)
    ensures Keep([line] + lines, drop) == KeepLine(line, drop) + Keep(lines, drop)
  {
    assert ([line] + lines)[1..] == lines;
  }

  lemma KeepMarkedLine(mark: string, line: string, drop: char)
    requires |mark| == 2
    ensures KeepLine(mark + line, drop) == if mark[0] == drop then [] else [line]
  {
    assert (mark + line)[2..] == line;
  }

  lemma {:induction false} KeepMarked(mark: string, depth: nat, lines: seq<string>, drop: char)
    requires |mark| == 2
    ensures Keep(Marked(mark, depth, lines), drop) == if mark[0] == drop then [] else Prefixed(Indent(depth), lines)
  {
    PrefixedTwice(mark, Indent(depth), lines);
    KeepPrefixed(mark, Prefixed(Indent(depth), lines), drop);
  }

  lemma {:induction false} KeepPrefixed(mark: string, lines: seq<string>, drop: char)
    requires |mark| == 2
    ensures Keep(Prefixed(mark, lines), drop) == if mark[0] == drop then [] else lines
  {
    if lines != [] {
      var l, rest := lines[0], lines[1..];
      KeepPrefixed(mark, rest, drop);
      assert lines == [l] + rest;
      assert Prefixed(mark, lines) == [mark + l] + Prefixed(mark, rest);
      KeepCons(mark + l, Prefixed(mark, rest), drop);
      KeepMarkedLine(mark, l, drop);
    }
  }

  /** The side that is read when the other side's mark is dropped. */
  function Own(drop: char, a: Tree, b: Tree): Tree {
    if drop == '+' then a else b
  }

  function Other(drop: char, a: Tree, b: Tree): Tree {
    if drop == '+' then b else a
  }

  /** Wherever two different maps meet, this side's is not empty. */
  ghost predicate Shown(own: Tree, other: Tree)
    decreases Node(own), 0
  {
    forall k | k in own && k in other :: ShownAt(own[k], other[k])
  }

  ghost predicate ShownAt(own: Value, other: Value)
    decreases own, 1
  {
    own != other && own.Node? && other.Node? ==> own.fields != map[] && Shown(own.fields, other.fields)
  }

  /** The lines of this side. */
  ghost function KeptLines(leaf: LeafFormat, a: Tree, b: Tree, depth: nat, drop: char): seq<string> {
    Keep(DiffLines(leaf, a, b, depth), drop)
  }

  /** Dropping the added lines gives the old tree, dropping the removed lines the new one,
      exactly when no empty map of that side meets a different map. */
  lemma {:induction false} ReadsBackExactlyWhen(leaf: LeafFormat, a: Tree, b: Tree, depth: nat, drop: char)
    requires drop in {'+', '-'} && TidyKeys(a) && TidyKeys(b)
    ensures |KeptLines(leaf, a, b, depth, drop)| == |Render(leaf, Own(drop, a, b))|
    ensures KeptLines(leaf, a, b, depth, drop) == Prefixed(Indent(depth), Render(leaf, Own(drop, a, b)))
       <==> Shown(Own(drop, a, b), Other(drop, a, b))
    decreases Node(a), 2
  {
    var keys := SortedKeys(a.Keys + b.Keys);
    var own := Own(drop, a, b);
    OnlyOrdered(keys, a.Keys + b.Keys, own.Keys);
    SortedKeysOf(Only(keys, own.Keys), own.Keys);
    ReadsBackKeys(leaf, a, b, keys, depth, drop);
  }

  lemma {:induction false} ReadsBackKeys(leaf: LeafFormat, a: Tree, b: Tree, keys: seq<string>, depth: nat, drop: char)
    requires drop in {'+', '-'} && TidyKeys(a) && TidyKeys(b)
    requires forall k | k in keys :: k in a || k in b
    ensures |Keep(DiffKeys(leaf, a, b, keys, depth), drop)|
         == |RenderKeys(leaf, Own(drop, a, b), Only(keys, Own(drop, a, b).Keys))|
    ensures Keep(DiffKeys(leaf, a, b, keys, depth), drop)
         == Prefixed(Indent(depth), RenderKeys(leaf, Own(drop, a, b), Only(keys, Own(drop, a, b).Keys)))
       <==> forall k | k in keys && k in a && k in b :: ShownAt(Own(drop, a, b)[k], Other(drop, a, b)[k])
    decreases Node(a), 1, |keys|
  {
    if keys != [] {
      var own := Own(drop, a, b);
      var k, rest := keys[0], keys[1..];
      ReadsBackKey(leaf, a, b, k, depth, drop);
      ReadsBackKeys(leaf, a, b, rest, depth, drop);
      KeepConcat(DiffKey(leaf, a, b, k, depth), DiffKeys(leaf, a, b, rest, depth), drop);
      if k in own {
        assert Only(keys, own.Keys)[1..] == Only(rest, own.Keys);
        PrefixedConcat(Indent(depth), RenderKey(leaf, k, own[k]), RenderKeys(leaf, own, Only(rest, own.Keys)));
        ConcatEqual(Keep(DiffKey(leaf, a, b, k, depth), drop), Keep(DiffKeys(leaf, a, b, rest, depth), drop),
                    Prefixed(Indent(depth), RenderKey(leaf, k, own[k])),
                    Prefixed(Indent(depth), RenderKeys(leaf, own, Only(rest, own.Keys))));
      } else {
        assert Only(keys, own.Keys) == Only(rest, own.Keys);
      }
    }
  }

  lemma ConcatEqual(a: seq<string>, b: seq<string>, c: seq<string>, d: seq<string>)
    requires |a| == |c|
    ensures a + b == c + d <==> a == c && b == d
  {
    if a + b == c + d {
      assert a == (a + b)[..|a|] && c == (c + d)[..|a|];
      assert b == (a + b)[|a|..] && d == (c + d)[|a|..];
    }
  }

  lemma ReadsBackKey(leaf: LeafFormat, a: Tree, b: Tree, key: string, depth: nat, drop: char)
    requires drop in {'+', '-'} && TidyKeys(a) && TidyKeys(b)
    requires key in a || key in b
    ensures key !in Own(drop, a, b) ==> Keep(DiffKey(leaf, a, b, key, depth), drop) == []
    ensures key in Own(drop, a, b) ==>
              && |Keep(DiffKey(leaf, a, b, key, depth), drop)| == |RenderKey(leaf, key, Own(drop, a, b)[key])|
              && (Keep(DiffKey(leaf, a, b, key, depth), drop)
                  == Prefixed(Indent(depth), RenderKey(leaf, key, Own(drop, a, b)[key]))
                  <==> (key in Other(drop, a, b) ==> ShownAt(Own(drop, a, b)[key], Other(drop, a, b)[key])))
    decreases Node(a), 0
  {
    if key in a {
      WrittenTidy(leaf, key, a[key]);
    }
    if key in b {
      WrittenTidy(leaf, key, b[key]);
    }
    if key in a && key in b && a[key] != b[key] {
      if a[key].Node? && b[key].Node? {
        var x, y := a[key].fields, b[key].fields;
        ReadsBackExactlyWhen(leaf, x, y, depth + 1, drop);
        ReadsBackMaps(leaf, Own(drop, x, y), Other(drop, x, y), key, depth, drop, DiffLines(leaf, x, y, depth + 1));
      } else {
        KeepMarked("- ", depth, RenderKey(leaf, key, a[key]), drop);
        KeepMarked("+ ", depth, RenderKey(leaf, key, b[key]), drop);
        KeepConcat(Marked("- ", depth, RenderKey(leaf, key, a[key])),
            Marked("+ ", depth, RenderKey(leaf, key, b[key])), drop);
      }
    } else if key in a {
      KeepMarked(if key in b then "  " else "- ", depth, RenderKey(leaf, key, a[key]), drop);
    } else {
      KeepMarked("+ ", depth, RenderKey(leaf, key, b[key]), drop);
    }
  }

  lemma WrittenTidy(leaf: LeafFormat, key: string, v: Value)
    requires TidyKey(key) && (v.Node? ==> TidyKeys(v.fields))
    ensures Written(leaf, key, v) == RenderKey(leaf, key, v) && TextLines(key + ":") == [key + ":"]
  {
    RenderKeyTidy(leaf, key, v);
    TextLinesOfTidy(RenderKey(leaf, key, v));
    TextLinesOfOne(key + ":");
  }

  /** A key under which both sides hold a map, given what is written below it. */
  lemma ReadsBackMaps(leaf: LeafFormat, own: Tree, other: Tree, key: string, depth: nat, drop: char, below: seq<string>)
    requires drop in {'+', '-'} && own != other
    requires |Keep(below, drop)| == |Render(leaf, own)|
    requires Keep(below, drop) == Prefixed(Indent(depth + 1), Render(leaf, own)) <==> Shown(own, other)
    ensures |Keep(Marked("  ", depth, [key + ":"]) + below, drop)| == |RenderKey(leaf, key, Node(own))|
    ensures Keep(Marked("  ", depth, [key + ":"]) + below, drop)
        == Prefixed(Indent(depth), RenderKey(leaf, key, Node(own)))
       <==> ShownAt(Node(own), Node(other))
  {
    KeepMarked("  ", depth, [key + ":"], drop);
    KeepConcat(Marked("  ", depth, [key + ":"]), below, drop);
    RenderedMap(leaf, key, own, depth, Keep(below, drop));
  }

  lemma RenderedMap(leaf: LeafFormat, key: string, t: Tree, depth: nat, below: seq<string>)
    requires |below| == |Render(leaf, t)|
    ensures 1 + |below| == |RenderKey(leaf, key, Node(t))|
    ensures Prefixed(Indent(depth), [key + ":"]) + below == Prefixed(Indent(depth), RenderKey(leaf, key, Node(t)))
       <==> t != map[] && below == Prefixed(Indent(depth + 1), Render(leaf, t))
  {
    if t == map[] {
      RenderNothing(leaf);
      HeadsDiffer(depth, key);
    } else {
      NestedEqual(depth, [key + ":"], below, Render(leaf, t));
    }
  }

  lemma HeadsDiffer(depth: nat, key: string)
    ensures Prefixed(Indent(depth), [key + ":"]) != Prefixed(Indent(depth), [key + ": {}"])
  {
    assert Prefixed(Indent(depth), [key + ":"])[0] != Prefixed(Indent(depth), [key + ": {}"])[0];
  }

  lemma NestedEqual(depth: nat, head: seq<string>, kept: seq<string>, below: seq<string>)
    ensures Prefixed(Indent(depth), head) + kept == Prefixed(Indent(depth), head + Prefixed("  ", below))
       <==> kept == Prefixed(Indent(depth + 1), below)
  {
    PrefixedConcat(Indent(depth), head, Prefixed("  ", below));
    PrefixedTwice(Indent(depth), "  ", below);
    ConcatEqual(Prefixed(Indent(depth), head), kept, Prefixed(Indent(depth), head), Prefixed(Indent(depth + 1), below));
  }

  // ---------------------------------------------------------------------------
  // An empty map that meets another map

  lemma {:induction false} AddedKeys(k: string, t: Tree)
    requires t != map[]
    ensures !Shown(map[k := Node(map[])], map[k := Node(t)]) && Shown(map[k := Node(t)], map[k := Node(map[])])
  {
    var own: Tree, other: Tree := map[k := Node(map[])], map[k := Node(t)];
    assert !ShownAt(own[k], other[k]) && ShownAt(other[k], own[k]);
  }

  /** Filling an empty map: the difference does not show that the old map was empty, while
      the new one can be read back. */
  lemma EmptyMapNotShown(leaf: LeafFormat, k: string, t: Tree)
    requires t != map[] && TidyKey(k) && TidyKeys(t)
    ensures var a: Tree, b: Tree := map[k := Node(map[])], map[k := Node(t)];
            && KeptLines(leaf, a, b, 0, '+') != Prefixed(Indent(0), Render(leaf, a))
            && KeptLines(leaf, a, b, 0, '-') == Prefixed(Indent(0), Render(leaf, b))
  {
    var a: Tree, b: Tree := map[k := Node(map[])], map[k := Node(t)];
    AddedKeys(k, t);
    assert TidyKeys(map[]);
    ReadsBackExactlyWhen(leaf, a, b, 0, '+');
    ReadsBackExactlyWhen(leaf, a, b, 0, '-');
  }
}
