/** How ServiceIntentions decides that Consul holds what the resource says: sort the
    sources of both sides by their JSON form, then compare them one by one. */
module IntentionMatch {
  import opened Common
  import opened Orders

  /** The fields of an intention source that are compared. */
  datatype Compared = Compared(
    name: string,
    ns: string,
    partition: string,
    peer: string,
    action: string,
    permissions: seq<string>,
    description: string)

  /** A source as Consul's API has it; NoSource is nil. */
  datatype Source =
    | NoSource
    | Source(compared: Compared, kind: string, precedence: int, legacyId: string,
             legacyMeta: map<string, string>, legacyCreateTime: Option<int>, legacyUpdateTime: Option<int>)

  /** The JSON form of a source in field order: what comes before the Type field, the
      Type field, and what comes after it. */
  datatype Rendering = Rendering(before: Compared -> string, kind: string -> string, after: Compared -> string)

  /** JSON text up to a field boundary, or from one to the next, is never a proper prefix
      of other such text, and the text determines the fields. */
  ghost predicate Faithful(r: Rendering) {
    && (forall c :: r.before(c) != "")
    && (forall c, c' | IsPrefix(r.before(c), r.before(c')) :: r.before(c) == r.before(c'))
    && (forall k, k' | IsPrefix(r.kind(k), r.kind(k')) :: r.kind(k) == r.kind(k'))
    && (forall c, c' | r.before(c) == r.before(c') && r.after(c) == r.after(c') :: c == c')
  }

  /** sourceIntentionSortKey: the fields Consul fills in are zeroed, Type is kept. */
  function SortKey(r: Rendering, s: Source): string {
    match s
    case NoSource => ""
    case Source(c, kind, _, _, _, _, _) => r.before(c) + r.kind(kind) + r.after(c)
  }

  function Projection(s: Source): Option<Compared> {
    if s.NoSource? then None else Some(s.compared)
  }

  function Map<T, U>(f: T -> U, s: seq<T>): (r: seq<U>)
    ensures |r| == |s| && forall i | 0 <= i < |s| :: r[i] == f(s[i])
  {
    seq(|s|, i requires 0 <= i < |s| => f(s[i]))
  }

  /** The sources in the order they are compared in, reduced to the compared fields. */
  function Canonical(r: Rendering, s: seq<Source>): seq<Option<Compared>> {
    Map(Projection, Sort(x => SortKey(r, x), s))
  }

  predicate Matches(r: Rendering, a: seq<Source>, b: seq<Source>) {
    Canonical(r, a) == Canonical(r, b)
  }

  /** All sources of a list carry the same Type. */
  ghost predicate UniformType(s: seq<Source>, kind: string) {
    forall x | x in s && x.Source? :: x.kind == kind
  }

  /** The two lists hold the same sources, as far as compared fields go. */
  ghost predicate SameSources(a: seq<Source>, b: seq<Source>) {
    multiset(Map(Projection, a)) == multiset(Map(Projection, b))
  }

  // ---------------------------------------------------------------------------
  // Proofs

  function Without<T>(s: seq<T>, i: nat): (r: seq<T>)
    requires i < |s|
  {
    s[..i] + s[i + 1..]
  }

  lemma WithoutMultiset<T>(s: seq<T>, i: nat)
    requires i < |s|
    ensures multiset(Without(s, i)) == multiset(s) - multiset{s[i]}
  {
    assert s == s[..i] + [s[i]] + s[i + 1..];
  }

  lemma MapWithout<T, U>(f: T -> U, s: seq<T>, i: nat)
    requires i < |s|
    ensures multiset(Map(f, s)) == multiset(Map(f, Without(s, i))) + multiset{f(s[i])}
  {
    WithoutMultiset(Map(f, s), i);
    assert Map(f, Without(s, i)) == Without(Map(f, s), i);
  }

  lemma {:induction false} MapMultiset<T, U>(f: T -> U, a: seq<T>, b: seq<T>)
    requires multiset(a) == multiset(b)
    ensures multiset(Map(f, a)) == multiset(Map(f, b))
  {
    SameLength(a, b);
    if a != [] {
      assert a[0] in multiset(b);
      var i :| 0 <= i < |b| && b[i] == a[0];
      WithoutMultiset(a, 0);
      WithoutMultiset(b, i);
      MapMultiset(f, Without(a, 0), Without(b, i));
      MapWithout(f, a, 0);
      MapWithout(f, b, i);
    }
  }

  lemma CanonicalMultiset(r: Rendering, s: seq<Source>)
    ensures multiset(Canonical(r, s)) == multiset(Map(Projection, s))
  {
    MapMultiset(Projection, Sort(x => SortKey(r, x), s), s);
  }

  /** The order of projections that a Type induces. */
  function ComparedKey(r: Rendering, kind: string, p: Option<Compared>): string {
    match p
    case None => ""
    case Some(c) => r.before(c) + r.kind(kind) + r.after(c)
  }

  lemma KeyIdentifies(r: Rendering, p: Option<Compared>, q: Option<Compared>, kind: string)
    requires Faithful(r) && ComparedKey(r, kind, p) == ComparedKey(r, kind, q)
    ensures p == q
  {
    if p.Some? && q.Some? {
      var a, b := p.value, q.value;
      var x, y := r.kind(kind) + r.after(a), r.kind(kind) + r.after(b);
      assert r.before(a) + x == ComparedKey(r, kind, p) && r.before(b) + y == ComparedKey(r, kind, q);
      EitherPrefix(r.before(a), x, r.before(b), y);
      assert x == (r.before(a) + x)[|r.before(a)|..] == y;
      assert r.after(a) == x[|r.kind(kind)|..] == r.after(b);
    } else if p.Some? || q.Some? {
      assert false;
    }
  }

  /** Whenever two sources differ only in what comes after the Type, their Types do not
      reverse their order. */
  ghost predicate TypesInOrder(r: Rendering, s: seq<Source>) {
    forall x, y | x in s && y in s && LessAfter(r, x, y) :: Le(SortKey(r, x), SortKey(r, y))
  }

  predicate LessAfter(r: Rendering, x: Source, y: Source) {
    && x.Source? && y.Source? && r.before(x.compared) == r.before(y.compared)
    && Less(r.after(x.compared), r.after(y.compared))
  }

  /** One Type is always in order. */
  lemma UniformInOrder(r: Rendering, s: seq<Source>, kind: string)
    requires UniformType(s, kind)
    ensures TypesInOrder(r, s)
  {
    forall x, y | x in s && y in s && LessAfter(r, x, y)
      ensures Le(SortKey(r, x), SortKey(r, y))
    {
      LeTotal(r.after(x.compared), r.after(y.compared));
      LeAfterPrefix(r.before(x.compared) + r.kind(kind), r.after(x.compared), r.after(y.compared));
    }
  }

  lemma SameKeySameAfter(r: Rendering, x: Source, y: Source)
    requires Faithful(r) && x.Source? && y.Source? && r.before(x.compared) == r.before(y.compared)
    requires SortKey(r, x) == SortKey(r, y)
    ensures r.after(x.compared) == r.after(y.compared)
  {
    var b, k, k' := r.before(x.compared), r.kind(x.kind), r.kind(y.kind);
    var u, v := k + r.after(x.compared), k' + r.after(y.compared);
    assert SortKey(r, x) == b + u && SortKey(r, y) == b + v;
    assert u == (b + u)[|b|..] == (b + v)[|b|..] == v;
    EitherPrefix(k, r.after(x.compared), k', r.after(y.compared));
    assert r.after(x.compared) == u[|k|..] == v[|k'|..] == r.after(y.compared);
  }

  /** Sources in sort order are in the order of their compared fields. */
  lemma PairSorted(r: Rendering, x: Source, y: Source, order: string)
    requires Faithful(r) && Le(SortKey(r, x), SortKey(r, y))
    requires LessAfter(r, y, x) ==> Le(SortKey(r, y), SortKey(r, x))
    ensures Le(ComparedKey(r, order, Projection(x)), ComparedKey(r, order, Projection(y)))
  {
    if x.Source? && y.Source? {
      var b, b', a, a' := r.before(x.compared), r.before(y.compared), r.after(x.compared), r.after(y.compared);
      assert SortKey(r, x) == b + (r.kind(x.kind) + a) && SortKey(r, y) == b' + (r.kind(y.kind) + a');
      assert ComparedKey(r, order, Projection(x)) == b + (r.kind(order) + a);
      assert ComparedKey(r, order, Projection(y)) == b' + (r.kind(order) + a');
      if b == b' {
        if !Le(a, a') {
          LeTotal(SortKey(r, x), SortKey(r, y));
          LeTotal(a, a');
          SameKeySameAfter(r, x, y);
        }
        LeAfterPrefix(b, r.kind(order) + a, r.kind(order) + a');
        LeAfterPrefix(r.kind(order), a, a');
      } else {
        LeByPrefix(b, b', r.kind(x.kind) + a, r.kind(y.kind) + a');
        LeByPrefix(b, b', r.kind(order) + a, r.kind(order) + a');
      }
    }
  }

  lemma CanonicalSorted(r: Rendering, s: seq<Source>, order: string)
    requires Faithful(r) && TypesInOrder(r, s)
    ensures SortedBy(p => ComparedKey(r, order, p), Canonical(r, s))
  {
    var key := x => SortKey(r, x);
    SortSorted(key, s);
    var t, c := Sort(key, s), Canonical(r, s);
    forall i, j | 0 <= i < j < |c|
      ensures Le(ComparedKey(r, order, c[i]), ComparedKey(r, order, c[j]))
    {
      assert t[i] in multiset(s) && t[j] in multiset(s);
      assert Le(key(t[i]), key(t[j]));
      PairSorted(r, t[i], t[j], order);
    }
  }

  lemma SameSourcesMatch(r: Rendering, a: seq<Source>, b: seq<Source>)
    requires Faithful(r) && TypesInOrder(r, a) && TypesInOrder(r, b) && SameSources(a, b)
    ensures Matches(r, a, b)
  {
    CanonicalMultiset(r, a);
    CanonicalMultiset(r, b);
    CanonicalSorted(r, a, "");
    CanonicalSorted(r, b, "");
    forall p, q | p in Canonical(r, a) && q in Canonical(r, a) && ComparedKey(r, "", p) == ComparedKey(r, "", q)
      ensures p == q
    {
      KeyIdentifies(r, p, q, "");
    }
    SortedUnique(p => ComparedKey(r, "", p), Canonical(r, a), Canonical(r, b));
  }

  /** A list that matches one of a single Type is in order. */
  lemma MatchingInOrder(r: Rendering, a: seq<Source>, b: seq<Source>, x: Source, y: Source)
    requires Faithful(r) && TypesInOrder(r, a) && Matches(r, a, b)
    requires x in b && y in b && LessAfter(r, x, y)
    ensures Le(SortKey(r, x), SortKey(r, y))
  {
    var key := z => SortKey(r, z);
    var t, c := Sort(key, b), Canonical(r, b);
    assert x in multiset(t) && y in multiset(t);
    var j :| 0 <= j < |t| && t[j] == x;
    var i :| 0 <= i < |t| && t[i] == y;
    if j < i {
      SortSorted(key, b);
      assert Le(key(t[j]), key(t[i]));
    } else if i < j {
      CanonicalSorted(r, a, "");
      AfterSorted(r, c, i, j, x, y);
    } else {
      LeReflexive(SortKey(r, x));
    }
  }

  lemma AfterSorted(r: Rendering, c: seq<Option<Compared>>, i: nat, j: nat, x: Source, y: Source)
    requires i < j < |c| && SortedBy(p => ComparedKey(r, "", p), c)
    requires x.Source? && y.Source? && c[i] == Some(y.compared) && c[j] == Some(x.compared)
    requires r.before(x.compared) == r.before(y.compared)
    ensures Le(r.after(y.compared), r.after(x.compared))
  {
    assert Le(ComparedKey(r, "", c[i]), ComparedKey(r, "", c[j]));
    LeAfterPrefix(r.before(x.compared) + r.kind(""), r.after(y.compared), r.after(x.compared));
  }

  /** Sort-then-compare against a list of a single Type, as the sources of a resource are,
      accepts exactly when the sources are equal as multisets on the compared fields and
      the Types of the other list do not reverse the order of sources that differ only in
      what comes after the Type: the sort key keeps the Type, the comparison ignores it. */
  lemma MatchesExactlyWhen(r: Rendering, a: seq<Source>, b: seq<Source>, kind: string)
    requires Faithful(r) && UniformType(a, kind)
    ensures Matches(r, a, b) <==> SameSources(a, b) && TypesInOrder(r, b)
  {
    UniformInOrder(r, a, kind);
    if Matches(r, a, b) {
      MatchingListsAgree(r, a, b);
      forall x, y | x in b && y in b && LessAfter(r, x, y)
        ensures Le(SortKey(r, x), SortKey(r, y))
      {
        MatchingInOrder(r, a, b, x, y);
      }
    } else if SameSources(a, b) && TypesInOrder(r, b) {
      SameSourcesMatch(r, a, b);
    }
  }

  lemma MatchingListsAgree(r: Rendering, a: seq<Source>, b: seq<Source>)
    requires Matches(r, a, b)
    ensures SameSources(a, b)
  {
    CanonicalMultiset(r, a);
    CanonicalMultiset(r, b);
  }

  /** Without uniform Types a list may fail to match its own sources: two sources that
      agree up to the Type, whose Types and descriptions are ordered in opposite ways. */
  lemma MixedTypesMismatch(r: Rendering, a: Source, b: Source, kind: string)
    requires a.Source? && b.Source? && r.before(a.compared) == r.before(b.compared)
    requires Less(r.after(a.compared), r.after(b.compared))
    requires Less(SortKey(r, b), SortKey(r, a))
    ensures var same := [a.(kind := kind), b.(kind := kind)];
            SameSources([a, b], same) && !Matches(r, [a, b], same)
  {
    var same := [a.(kind := kind), b.(kind := kind)];
    var key := x => SortKey(r, x);
    assert Map(Projection, [a, b]) == Map(Projection, same);
    SortTwo(key, a, b);
    SortTwo(key, same[0], same[1]);
    LeTotal(SortKey(r, a), SortKey(r, b));
    LeTotal(r.after(a.compared), r.after(b.compared));
    LeAfterPrefix(r.before(a.compared) + r.kind(kind), r.after(a.compared), r.after(b.compared));
    assert Canonical(r, [a, b])[0] == Some(b.compared);
    assert Canonical(r, same)[0] == Some(a.compared);
  }

  /** The JSON form of sources that have a name, a Type and a description. */
  function NamedJson(): Rendering {
    Rendering((c: Compared) => "{\"Name\":\"" + c.name + "\"",
              (kind: string) => ",\"Type\":\"" + kind + "\"",
              (c: Compared) => ",\"Description\":\"" + c.description + "\"}")
  }

  function NamedSource(name: string, kind: string, description: string): Source {
    Source(Compared(name, "", "", "", "allow", [], description), kind, 0, "", map[], None, None)
  }

  /** The description decides between sources of one Type. */
  lemma DescriptionDecides(name: string, kind: string, x: char, y: char)
    requires x < y
    ensures Less(NamedJson().after(NamedSource(name, kind, [x]).compared),
        NamedJson().after(NamedSource(name, kind, [y]).compared))
  {
    var p, q := ",\"Description\":\"", "\"}";
    assert p + [y] + q == p + ([y] + q) && p + [x] + q == p + ([x] + q);
    LeAfterPrefix(p, [y] + q, [x] + q);
  }

  /** The Type decides before the description does. */
  lemma TypeDecides(name: string, x: char, y: char, d: string, e: string)
    requires x < y
    ensures Less(SortKey(NamedJson(), NamedSource(name, [x], d)), SortKey(NamedJson(), NamedSource(name, [y], e)))
  {
    var r := NamedJson();
    var a, b := NamedSource(name, [x], d), NamedSource(name, [y], e);
    var p := r.before(a.compared) + ",\"Type\":\"";
    var t, u := "\"" + r.after(a.compared), "\"" + r.after(b.compared);
    assert SortKey(r, a) == p + ([x] + t);
    assert SortKey(r, b) == p + ([y] + u);
    LeAfterPrefix(p, [y] + u, [x] + t);
  }

  /** Two sources of the same name, described as 1 and 2, whose Types are ordered the other
      way round. */
  lemma MixedTypesExample(name: string)
    ensures var a, b := NamedSource(name, "b", "1"), NamedSource(name, "a", "2");
            var same := [NamedSource(name, "", "1"), NamedSource(name, "", "2")];
            SameSources([a, b], same) && !Matches(NamedJson(), [a, b], same)
  {
    var a, b := NamedSource(name, "b", "1"), NamedSource(name, "a", "2");
    DescriptionDecides(name, "b", '1', '2');
    TypeDecides(name, 'a', 'b', "2", "1");
    MixedTypesMismatch(NamedJson(), a, b, "");
  }

  lemma SortTwo(key: Source -> string, a: Source, b: Source)
    ensures Sort(key, [a, b]) == if Le(key(a), key(b)) then [a, b] else [b, a]
  {
    assert [a, b][..1] == [a] && [a][..0] == [];
    assert Sort(key, [a]) == [a];
  }
}
