/** Small shared definitions. */
module Common {

  /** The metadata that says where an object in Consul comes from. */
  const SOURCE_KEY := "external-source"
  const SOURCE_VALUE := "kubernetes"

  datatype Option<+T> = None | Some(value: T)

  /** The first element of a list that satisfies p. */
  function First<T>(s: seq<T>, p: T -> bool): (r: Option<T>)
    ensures r.None? <==> forall i | 0 <= i < |s| :: !p(s[i])
    ensures r.Some? ==> exists i :: 0 <= i < |s| && r.value == s[i] && p(s[i]) && forall j | 0 <= j < i :: !p(s[j])
  {
    if s == [] then None
    else if p(s[0]) then Some(s[0])
    else
      var r := First(s[1..], p);
      assert forall i | 0 < i < |s| :: s[i] == s[1..][i - 1];
      assert r.Some? ==> exists i :: 0 < i < |s| && r.value == s[i] && p(s[i]) && forall j | 0 <= j < i :: !p(s[j]) by {
        if r.Some? {
          var i :| 0 <= i < |s| - 1 && r.value == s[1..][i] && p(s[1..][i]) && forall j | 0 <= j < i :: !p(s[1..][j]);
          assert s[i + 1] == s[1..][i];
          assert forall j | 0 <= j < i + 1 :: !p(s[j]);
        }
      }
      r
  }

  lemma ConcatAssociative<T>(a: seq<T>, b: seq<T>, c: seq<T>)
    ensures a + b + c == a + (b + c)
  {
  }

  /** The Consul namespace for a Kubernetes namespace; none without Consul namespaces. */
  function ConsulNamespace(kubeNs: string, enabled: bool, destination: string, mirroring: bool,
      prefix: string): string {
    if !enabled then "" else if mirroring then prefix + kubeNs else destination
  }

  method ContainsString(slice: seq<string>, s: string) returns (found: bool)
    ensures found <==> s in slice
  {
    for i := 0 to |slice|
      invariant s !in slice[..i]
    {
      if slice[i] == s {
        return true;
      }
    }
    return false;
  }

  predicate HasPrefix(s: string, prefix: string) {
    |prefix| <= |s| && s[..|prefix|] == prefix
  }
}
