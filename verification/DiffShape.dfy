/** The shape of a difference: one block of lines for every key, in key order, and in each
    block what is removed before what is added. The shape determines the lines. */
module DiffShape {
  import opened Common
  import opened Texts
  import opened ValueTrees
  import opened Renderings
  import opened DiffSpec

  /** The lines are those of the content, each behind the mark and the indentation. */
  ghost predicate LinesAre(mark: string, depth: nat, content: seq<string>, lines: seq<string>) {
    |lines| == |content| && forall i | 0 <= i < |lines| :: lines[i] == mark + Indent(depth) + content[i]
  }

  function Flat(blocks: seq<seq<string>>): seq<string> {
    if blocks == [] then [] else blocks[0] + Flat(blocks[1..])
  }

  /** A block in which the lines behind one mark come before those behind another. */
  ghost predicate FirstThen(mark: string, content: seq<string>, mark': string, content': seq<string>, depth: nat,
                            block: seq<string>)
  {
    && |content| <= |block|
    && LinesAre(mark, depth, content, block[..|content|]) && LinesAre(mark', depth, content', block[|content|..])
  }

  /** The block of a key: behind a mark of its own if only one tree has it or both agree; what is
      removed before what is added if they differ; and for two different maps their own
      difference, one level deeper, below the key. */
  ghost predicate BlockShows(leaf: LeafFormat, a: Tree, b: Tree, key: string, depth: nat, block: seq<string>)
    requires key in a || key in b
  {
    if key !in a then LinesAre("+ ", depth, Written(leaf, key, b[key]), block)
    else if key !in b then LinesAre("- ", depth, Written(leaf, key, a[key]), block)
    else if a[key] == b[key] then LinesAre("  ", depth, Written(leaf, key, a[key]), block)
    else if a[key].Leaf? || b[key].Leaf? then
      FirstThen("- ", Written(leaf, key, a[key]), "+ ", Written(leaf, key, b[key]), depth, block)
    else
      var head := TextLines(key + ":");
      && |head| <= |block| && LinesAre("  ", depth, head, block[..|head|])
      && block[|head|..] == DiffLines(leaf, a[key].fields, b[key].fields, depth + 1)
  }

  /** Blocks for exactly the keys of either tree, in order. */
  ghost predicate ShownBy(leaf: LeafFormat, a: Tree, b: Tree, depth: nat, lines: seq<string>, keys: seq<string>,
                          blocks: seq<seq<string>>)
  {
    && Ordered(keys, a.Keys + b.Keys) && |blocks| == |keys| && lines == Flat(blocks)
    && forall i | 0 <= i < |keys| :: keys[i] in a.Keys + b.Keys && BlockShows(leaf, a, b, keys[i], depth, blocks[i])
  }

  ghost predicate Shows(leaf: LeafFormat, a: Tree, b: Tree, depth: nat, lines: seq<string>) {
    exists keys, blocks :: ShownBy(leaf, a, b, depth, lines, keys, blocks)
  }

  lemma LinesAreMarked(mark: string, depth: nat, content: seq<string>, lines: seq<string>)
    ensures LinesAre(mark, depth, content, lines) <==> lines == Marked(mark, depth, content)
  {
  }

  lemma SplitLines(lines: seq<string>, x: seq<string>, y: seq<string>)
    ensures |x| <= |lines| && lines[..|x|] == x && lines[|x|..] == y <==> lines == x + y
  {
    if |x| <= |lines| {
      assert lines == lines[..|x|] + lines[|x|..];
    }
  }

  lemma FirstThenMarked(mark: string, content: seq<string>, mark': string, content': seq<string>, depth: nat,
                        block: seq<string>)
    ensures FirstThen(mark, content, mark', content', depth, block) <==>
            block == Marked(mark, depth, content) + Marked(mark', depth, content')
  {
    SplitLines(block, Marked(mark, depth, content), Marked(mark', depth, content'));
    if |content| <= |block| {
      LinesAreMarked(mark, depth, content, block[..|content|]);
      LinesAreMarked(mark', depth, content', block[|content|..]);
    }
  }

  /** The block of a key is what the code writes for it. */
  lemma BlockExactly(leaf: LeafFormat, a: Tree, b: Tree, key: string, depth: nat, block: seq<string>)
    requires key in a || key in b
    ensures BlockShows(leaf, a, b, key, depth, block) <==> block == DiffKey(leaf, a, b, key, depth)
  {
    if key !in a {
      LinesAreMarked("+ ", depth, Written(leaf, key, b[key]), block);
    } else if key !in b {
      LinesAreMarked("- ", depth, Written(leaf, key, a[key]), block);
    } else if a[key] == b[key] {
      LinesAreMarked("  ", depth, Written(leaf, key, a[key]), block);
    } else if a[key].Leaf? || b[key].Leaf? {
      FirstThenMarked("- ", Written(leaf, key, a[key]), "+ ", Written(leaf, key, b[key]), depth, block);
    } else {
      var head, x, y := TextLines(key + ":"), a[key].fields, b[key].fields;
      SplitLines(block, Marked("  ", depth, head), DiffLines(leaf, x, y, depth + 1));
      if |head| <= |block| {
        LinesAreMarked("  ", depth, head, block[..|head|]);
      }
    }
  }

  lemma {:induction false} FlatKeys(leaf: LeafFormat, a: Tree, b: Tree, keys: seq<string>, depth: nat,
                                    blocks: seq<seq<string>>)
    requires |blocks| == |keys| && forall k | k in keys :: k in a || k in b
    requires forall i | 0 <= i < |keys| :: blocks[i] == DiffKey(leaf, a, b, keys[i], depth)
    ensures Flat(blocks) == DiffKeys(leaf, a, b, keys, depth)
  {
    if keys != [] {
      FlatKeys(leaf, a, b, keys[1..], depth, blocks[1..]);
    }
  }

  /** The lines the code writes are exactly those of the shape. */
  lemma ShowsExactly(leaf: LeafFormat, a: Tree, b: Tree, depth: nat, lines: seq<string>)
    ensures Shows(leaf, a, b, depth, lines) <==> lines == DiffLines(leaf, a, b, depth)
  {
    if Shows(leaf, a, b, depth, lines) {
      var keys, blocks :| ShownBy(leaf, a, b, depth, lines, keys, blocks);
      ShownDetermined(leaf, a, b, depth, lines, keys, blocks);
    }
    var all := SortedKeys(a.Keys + b.Keys);
    var blocks := BlocksExist(leaf, a, b, all, depth);
    FlatKeys(leaf, a, b, all, depth, blocks);
    forall i | 0 <= i < |all|
      ensures all[i] in a.Keys + b.Keys && BlockShows(leaf, a, b, all[i], depth, blocks[i])
    {
      assert all[i] in all;
      BlockExactly(leaf, a, b, all[i], depth, blocks[i]);
    }
    assert ShownBy(leaf, a, b, depth, DiffLines(leaf, a, b, depth), all, blocks);
  }

  lemma ShownDetermined(leaf: LeafFormat, a: Tree, b: Tree, depth: nat, lines: seq<string>, keys: seq<string>,
                        blocks: seq<seq<string>>)
    requires ShownBy(leaf, a, b, depth, lines, keys, blocks)
    ensures lines == DiffLines(leaf, a, b, depth)
  {
    SortedKeysOf(keys, a.Keys + b.Keys);
    forall i | 0 <= i < |keys|
      ensures keys[i] in a.Keys + b.Keys && blocks[i] == DiffKey(leaf, a, b, keys[i], depth)
    {
      BlockExactly(leaf, a, b, keys[i], depth, blocks[i]);
    }
    FlatKeys(leaf, a, b, keys, depth, blocks);
  }

  lemma {:induction false} BlocksExist(leaf: LeafFormat, a: Tree, b: Tree, keys: seq<string>, depth: nat)
    returns (blocks: seq<seq<string>>)
    requires forall k | k in keys :: k in a || k in b
    ensures |blocks| == |keys| && forall i | 0 <= i < |keys| :: blocks[i] == DiffKey(leaf, a, b, keys[i], depth)
  {
    if keys == [] {
      blocks := [];
    } else {
      var rest := BlocksExist(leaf, a, b, keys[1..], depth);
      blocks := [DiffKey(leaf, a, b, keys[0], depth)] + rest;
    }
  }
}
