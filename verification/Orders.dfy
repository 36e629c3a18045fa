/** The order of strings, and sorting by it. */
module Orders {

  /** strings.Compare(a, b) <= 0 */
  predicate Le(a: string, b: string) {
    a == [] || (b != [] && (a[0] < b[0] || (a[0] == b[0] && Le(a[1..], b[1..]))))
  }

  predicate Less(a: string, b: string) {
    !Le(b, a)
  }

  lemma {:induction false} LeTotal(a: string, b: string)
    ensures Le(a, b) || Le(b, a)
    ensures Le(a, b) && Le(b, a) ==> a == b
  {
    if a != [] && b != [] && a[0] == b[0] {
      LeTotal(a[1..], b[1..]);
      if a[1..] == b[1..] {
        assert a == [a[0]] + a[1..] && b == [b[0]] + b[1..];
      }
    }
  }

  lemma {:induction false} LeReflexive(a: string)
    ensures Le(a, a)
  {
    LeTotal(a, a);
  }

  lemma {:induction false} LeTransitive(a: string, b: string, c: string)
    requires Le(a, b) && Le(b, c)
    ensures Le(a, c)
  {
    if a != [] && a[0] == b[0] && b[0] == c[0] {
      LeTransitive(a[1..], b[1..], c[1..]);
    }
  }

  /** A common prefix does not matter. */
  lemma {:induction false} LeAfterPrefix(p: string, a: string, b: string)
    ensures Le(p + a, p + b) <==> Le(a, b)
  {
    if p == [] {
      assert p + a == a && p + b == b;
    } else {
      LeAfterPrefix(p[1..], a, b);
      assert (p + a)[1..] == p[1..] + a && (p + b)[1..] == p[1..] + b;
    }
  }

  predicate IsPrefix(a: string, b: string) {
    |a| <= |b| && b[..|a|] == a
  }

  /** Of two strings that continue to the same text, one is a prefix of the other. */
  lemma EitherPrefix(a: string, x: string, b: string, y: string)
    requires a + x == b + y
    ensures IsPrefix(a, b) || IsPrefix(b, a)
  {
    assert forall i | 0 <= i < |a| :: (a + x)[i] == a[i];
    assert forall i | 0 <= i < |b| :: (b + y)[i] == b[i];
  }

  lemma PrefixTail(a: string, b: string)
    requires a != [] && b != []
    ensures IsPrefix(a, b) <==> a[0] == b[0] && IsPrefix(a[1..], b[1..])
  {
    if |a| <= |b| {
      assert b[..|a|] == [b[0]] + b[1..][..|a| - 1];
      assert a == [a[0]] + a[1..];
    }
  }

  /** What follows does not matter when neither string is a prefix of the other. */
  lemma {:induction false} LeByPrefix(a: string, b: string, x: string, y: string)
    requires !IsPrefix(a, b) && !IsPrefix(b, a)
    ensures Le(a + x, b + y) <==> Le(a, b)
  {
    PrefixTail(a, b);
    PrefixTail(b, a);
    if a[0] == b[0] {
      LeByPrefix(a[1..], b[1..], x, y);
    }
    assert (a + x)[1..] == a[1..] + x && (b + y)[1..] == b[1..] + y;
  }

  // ---------------------------------------------------------------------------
  // Sorting by a key

  predicate SortedBy<T>(key: T -> string, s: seq<T>) {
    forall i, j | 0 <= i < j < |s| :: Le(key(s[i]), key(s[j]))
  }

  /** x behind everything that does not come after it. */
  function Insert<T>(key: T -> string, s: seq<T>, x: T): (r: seq<T>)
    ensures multiset(r) == multiset(s) + multiset{x}
  {
    if s == [] || Le(key(s[|s| - 1]), key(x)) then s + [x]
    else
      assert s == s[..|s| - 1] + [s[|s| - 1]];
      Insert(key, s[..|s| - 1], x) + [s[|s| - 1]]
  }

  /** The stable sort of a list. */
  function Sort<T>(key: T -> string, s: seq<T>): (r: seq<T>)
    ensures multiset(r) == multiset(s)
  {
    if s == [] then []
    else
      assert s == s[..|s| - 1] + [s[|s| - 1]];
      Insert(key, Sort(key, s[..|s| - 1]), s[|s| - 1])
  }

  lemma {:induction false} InsertSorted<T>(key: T -> string, s: seq<T>, x: T)
    requires SortedBy(key, s)
    ensures SortedBy(key, Insert(key, s, x))
  {
    if s == [] {
    } else if Le(key(s[|s| - 1]), key(x)) {
      forall i | 0 <= i < |s|
        ensures Le(key(s[i]), key(x))
      {
        if i < |s| - 1 {
          LeTransitive(key(s[i]), key(s[|s| - 1]), key(x));
        }
      }
    } else {
      var init, last := s[..|s| - 1], s[|s| - 1];
      InsertSorted(key, init, x);
      var r := Insert(key, init, x);
      LeTotal(key(last), key(x));
      forall i | 0 <= i < |r|
        ensures Le(key(r[i]), key(last))
      {
        assert r[i] in multiset(r);
        if r[i] != x {
          assert r[i] in init;
        }
      }
    }
  }

  lemma {:induction false} SortSorted<T>(key: T -> string, s: seq<T>)
    ensures SortedBy(key, Sort(key, s))
  {
    if s != [] {
      SortSorted(key, s[..|s| - 1]);
      InsertSorted(key, Sort(key, s[..|s| - 1]), s[|s| - 1]);
    }
  }

  lemma GreatestLast<T>(key: T -> string, s: seq<T>, x: T)
    requires SortedBy(key, s) && x in s
    ensures Le(key(x), key(s[|s| - 1]))
  {
    LeReflexive(key(x));
  }

  /** Elements with the same key are the same. */
  ghost predicate Identifies<T>(key: T -> string, s: seq<T>) {
    forall x, y | x in s && y in s && key(x) == key(y) :: x == y
  }

  lemma InitIdentifies<T>(key: T -> string, s: seq<T>)
    requires s != [] && Identifies(key, s)
    ensures Identifies(key, s[..|s| - 1])
  {
  }

  lemma SameLast<T>(key: T -> string, s: seq<T>, t: seq<T>)
    requires SortedBy(key, s) && SortedBy(key, t)
    requires multiset(s) == multiset(t) && |s| == |t| > 0
    requires Identifies(key, s)
    ensures s[|s| - 1] == t[|t| - 1]
  {
    var x, y := s[|s| - 1], t[|t| - 1];
    assert x in t by { assert x in multiset(t); }
    assert y in s by { assert y in multiset(s); }
    GreatestLast(key, t, x);
    GreatestLast(key, s, y);
    LeTotal(key(x), key(y));
  }

  lemma SameLength<T>(s: seq<T>, t: seq<T>)
    requires multiset(s) == multiset(t)
    ensures |s| == |t|
  {
    assert |multiset(s)| == |s| && |multiset(t)| == |t|;
  }

  lemma InitSorted<T>(key: T -> string, s: seq<T>)
    requires s != [] && SortedBy(key, s)
    ensures SortedBy(key, s[..|s| - 1])
    ensures multiset(s[..|s| - 1]) == multiset(s) - multiset{s[|s| - 1]}
    ensures s == s[..|s| - 1] + [s[|s| - 1]]
  {
    assert s == s[..|s| - 1] + [s[|s| - 1]];
  }

  /** With keys that identify elements, a sorted list is determined by its elements. */
  lemma {:induction false} SortedUnique<T>(key: T -> string, s: seq<T>, t: seq<T>)
    requires SortedBy(key, s) && SortedBy(key, t)
    requires multiset(s) == multiset(t)
    requires Identifies(key, s)
    ensures s == t
  {
    SameLength(s, t);
    if s != [] {
      SameLast(key, s, t);
      InitSorted(key, s);
      InitSorted(key, t);
      InitIdentifies(key, s);
      SortedUnique(key, s[..|s| - 1], t[..|t| - 1]);
    }
  }
}
