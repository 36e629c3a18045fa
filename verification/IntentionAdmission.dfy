/** The admission webhook of ServiceIntentions, and why admitted resources never
    configure the same Consul entry. */
module IntentionAdmission {
  import opened Common
  import opened ConfigEntries

  datatype HeaderMatch = HeaderMatch(
    name: string, present: bool, exact: string, prefix: string, suffix: string, regex: string, invert: bool)

  datatype HttpMatch = HttpMatch(
    pathExact: string, pathPrefix: string, pathRegex: string, headers: seq<HeaderMatch>, methods: seq<string>)

  datatype Permission = Permission(action: string, http: Option<HttpMatch>)

  datatype Source = Source(
    name: string, ns: string, partition: string, peer: string, action: string, permissions: seq<Permission>)

  /** A ServiceIntentions resource. */
  datatype Intention = Intention(
    kubeNs: string,
    kubeName: string,
    destinationName: string,
    destinationNs: string,
    sources: seq<Source>)

  datatype KubeKey = KubeKey(ns: string, name: string)

  type Store = map<KubeKey, Intention>

  function KubeKeyOf(intention: Intention): KubeKey {
    KubeKey(intention.kubeNs, intention.kubeName)
  }

  /** The resource, as far as its Consul key goes. */
  function AsResource(intention: Intention): Resource {
    Resource(intention.destinationName, "", false, map[], [], false, IntentionsSpec(intention.destinationNs, []),
        Unknown)
  }

  /** The Consul key the controller will use for the resource. */
  function ConsulKey(cfg: Config, intention: Intention): EntryKey {
    KeyOf(cfg, AsResource(intention))
  }

  /** DefaultNamespaceFields */
  function Defaulted(cfg: Config, intention: Intention): Intention {
    if cfg.enableNamespaces && intention.destinationNs == ""
    then intention.(destinationNs := MapNamespace(cfg, intention.kubeNs))
    else intention
  }

  /** A destination namespace that is given stays; a missing one becomes the mirrored or the
      configured namespace; without Consul namespaces nothing changes. */
  lemma DefaultedMeaning(cfg: Config, intention: Intention)
    ensures var d := Defaulted(cfg, intention);
            && d == intention.(destinationNs := d.destinationNs)
            && (!cfg.enableNamespaces || intention.destinationNs != "" ==> d.destinationNs == intention.destinationNs)
            && (cfg.enableNamespaces && intention.destinationNs == "" ==>
                  d.destinationNs == if cfg.mirroring then cfg.mirroringPrefix + intention.kubeNs
                                     else cfg.destinationNamespace)
  {
  }

  // ---------------------------------------------------------------------------
  // Validation

  predicate ActionOk(action: string) {
    action == "allow" || action == "deny"
  }

  method ValidateAction(action: string) returns (ok: bool)
    ensures ok <==> action == "allow" || action == "deny"
  {
    ok := ContainsString(["allow", "deny"], action);
  }

  /** No two of the flags are set. */
  ghost predicate AtMostOne(flags: seq<bool>) {
    forall i, j | 0 <= i < j < |flags| :: !(flags[i] && flags[j])
  }

  /** The ways to match a header or a path that are used. */
  function HeaderFlags(h: HeaderMatch): seq<bool> {
    [h.present, h.exact != "", h.regex != "", h.prefix != "", h.suffix != ""]
  }

  function PathFlags(h: HttpMatch): seq<bool> {
    [h.pathRegex != "", h.pathPrefix != "", h.pathExact != ""]
  }

  predicate PathOk(path: string) {
    path == "" || HasPrefix(path, "/")
  }

  ghost predicate MethodsOk(methods: seq<string>) {
    && (forall m | m in methods :: m in HTTP_METHODS)
    && (forall i, j | 0 <= i < j < |methods| :: methods[i] != methods[j])
  }

  const HTTP_METHODS := ["GET", "HEAD", "POST", "PUT", "PATCH", "DELETE", "CONNECT", "OPTIONS", "TRACE"]

  ghost predicate HttpOk(h: HttpMatch) {
    && PathOk(h.pathPrefix) && PathOk(h.pathExact) && AtMostOne(PathFlags(h))
    && MethodsOk(h.methods)
    && (forall i | 0 <= i < |h.headers| :: AtMostOne(HeaderFlags(h.headers[i])))
  }

  ghost predicate PermissionOk(p: Permission) {
    ActionOk(p.action) && (p.http.Some? ==> HttpOk(p.http.value))
  }

  /** A source allows or denies as a whole or by its permissions, not both. */
  ghost predicate AuthorizationOk(s: Source) {
    if s.permissions == [] then ActionOk(s.action)
    else s.action == "" && forall i | 0 <= i < |s.permissions| :: PermissionOk(s.permissions[i])
  }

  ghost predicate SourceOk(namespaces: bool, partitions: bool, s: Source) {
    && AuthorizationOk(s)
    && (s.ns != "" ==> namespaces)
    && (s.partition != "" ==> partitions)
    && !(s.peer != "" && s.partition != "")
  }

  ghost predicate Valid(cfg: Config, partitions: bool, intention: Intention) {
    && intention.sources != []
    && (intention.destinationNs != "" ==> cfg.enableNamespaces)
    && (forall i | 0 <= i < |intention.sources| :: SourceOk(cfg.enableNamespaces, partitions, intention.sources[i]))
  }

  function Count(flags: seq<bool>): (n: nat)
    ensures n == 0 <==> forall i | 0 <= i < |flags| :: !flags[i]
  {
    if flags == [] then 0
    else
      var last := |flags| - 1;
      assert forall i | 0 <= i < last :: flags[..last][i] == flags[i];
      Count(flags[..last]) + if flags[last] then 1 else 0
  }

  /** Counting is how the code decides. */
  lemma {:induction false} CountDecides(flags: seq<bool>)
    ensures Count(flags) <= 1 <==> AtMostOne(flags)
  {
    if flags != [] {
      var last := |flags| - 1;
      CountDecides(flags[..last]);
      assert forall i | 0 <= i < last :: flags[..last][i] == flags[i];
      if AtMostOne(flags[..last]) && flags[last] && Count(flags[..last]) != 0 {
        var i :| 0 <= i < last && flags[..last][i];
        assert flags[i] && flags[last];
      }
    }
  }

  method NumNotEmpty(ss: seq<string>) returns (count: nat)
    ensures count == Count(seq(|ss|, i requires 0 <= i < |ss| => ss[i] != ""))
  {
    count := 0;
    ghost var flags := seq(|ss|, i requires 0 <= i < |ss| => ss[i] != "");
    for i := 0 to |ss|
      invariant count == Count(flags[..i])
    {
      assert flags[..i + 1][..i] == flags[..i];
      if ss[i] != "" {
        count := count + 1;
      }
    }
    assert flags[..|ss|] == flags;
  }

  method ValidateHeaders(headers: seq<HeaderMatch>) returns (ok: bool)
    ensures ok <==> forall i | 0 <= i < |headers| :: AtMostOne(HeaderFlags(headers[i]))
  {
    ok := true;
    for i := 0 to |headers|
      invariant ok <==> forall j | 0 <= j < i :: AtMostOne(HeaderFlags(headers[j]))
    {
      var one := ValidateHeader(headers[i]);
      ok := ok && one;
    }
  }

  method ValidateHeader(h: HeaderMatch) returns (ok: bool)
    ensures ok <==> AtMostOne(HeaderFlags(h))
  {
    var hdrParts := 0;
    if h.present {
      hdrParts := hdrParts + 1;
    }
    var ss := [h.exact, h.regex, h.prefix, h.suffix];
    var n := NumNotEmpty(ss);
    hdrParts := hdrParts + n;
    ghost var rest := seq(|ss|, i requires 0 <= i < |ss| => ss[i] != "");
    assert HeaderFlags(h) == [h.present] + rest;
    CountCons(h.present, rest);
    CountDecides(HeaderFlags(h));
    ok := hdrParts <= 1;
  }

  lemma {:induction false} CountCons(first: bool, rest: seq<bool>)
    ensures Count([first] + rest) == (if first then 1 else 0) + Count(rest)
  {
    var all := [first] + rest;
    if rest == [] {
      assert all == [first] && all[..0] == [];
    } else {
      CountCons(first, rest[..|rest| - 1]);
      assert all[..|all| - 1] == [first] + rest[..|rest| - 1];
    }
  }

  method ValidateHttp(h: HttpMatch) returns (ok: bool)
    ensures ok <==> HttpOk(h)
  {
    var pathsOk := ValidatePaths(h);
    var methodsOk := ValidateMethods(h.methods);
    var headersOk := ValidateHeaders(h.headers);
    ok := pathsOk && methodsOk && headersOk;
  }

  method ValidatePaths(h: HttpMatch) returns (ok: bool)
    ensures ok <==> PathOk(h.pathPrefix) && PathOk(h.pathExact) && AtMostOne(PathFlags(h))
  {
    ok := true;
    var pathParts := 0;
    if h.pathRegex != "" {
      pathParts := pathParts + 1;
    }
    if h.pathPrefix != "" {
      pathParts := pathParts + 1;
      if !HasPrefix(h.pathPrefix, "/") {
        ok := false;
      }
    }
    if h.pathExact != "" {
      pathParts := pathParts + 1;
      if !HasPrefix(h.pathExact, "/") {
        ok := false;
      }
    }
    ghost var flags := PathFlags(h);
    assert AtMostOne(flags) <==> !(flags[0] && flags[1]) && !(flags[0] && flags[2]) && !(flags[1] && flags[2]);
    if pathParts > 1 {
      ok := false;
    }
  }

  method ValidateMethods(methods: seq<string>) returns (ok: bool)
    ensures ok <==> MethodsOk(methods)
  {
    ok := true;
    var found := {};
    for i := 0 to |methods|
      invariant forall m :: m in found <==> m in methods[..i]
      invariant ok <==> MethodsOk(methods[..i])
    {
      var known := ContainsString(HTTP_METHODS, methods[i]);
      if !known || methods[i] in found {
        ok := false;
      }
      NextMethod(methods, i);
      found := found + {methods[i]};
    }
    assert methods[..|methods|] == methods;
  }

  lemma NextMethod(methods: seq<string>, i: nat)
    requires i < |methods|
    ensures MethodsOk(methods[..i + 1]) <==>
            MethodsOk(methods[..i]) && methods[i] in HTTP_METHODS && methods[i] !in methods[..i]
    ensures forall m :: m in methods[..i + 1] <==> m in methods[..i] || m == methods[i]
  {
    assert methods[..i + 1] == methods[..i] + [methods[i]];
  }

  method ValidatePermissions(ps: seq<Permission>) returns (ok: bool)
    ensures ok <==> forall i | 0 <= i < |ps| :: PermissionOk(ps[i])
  {
    ok := true;
    for i := 0 to |ps|
      invariant ok <==> forall j | 0 <= j < i :: PermissionOk(ps[j])
    {
      var actionOk := ValidateAction(ps[i].action);
      ok := ok && actionOk;
      if ps[i].http.Some? {
        var httpOk := ValidateHttp(ps[i].http.value);
        ok := ok && httpOk;
      }
    }
  }

  predicate SingleDestination(cfg: Config) {
    !(cfg.enableNamespaces && cfg.mirroring)
  }

  predicate Conflict(cfg: Config, item: Intention, intention: Intention) {
    && item.destinationName == intention.destinationName
    && (SingleDestination(cfg) || item.destinationNs == intention.destinationNs)
  }

  datatype Request = Create(wanted: Intention) | Update(prev: Intention, wanted: Intention)

  /** What a request must satisfy to be admitted, the stored resources being items. */
  ghost predicate Admissible(cfg: Config, partitions: bool, items: seq<Intention>, req: Request) {
    && Valid(cfg, partitions, Defaulted(cfg, req.wanted))
    && (match req
        case Create(intention) => forall item | item in items :: !Conflict(cfg, item, Defaulted(cfg, intention))
        case Update(prev, intention) =>
          prev.destinationName == intention.destinationName && prev.destinationNs == intention.destinationNs)
  }

  /** The webhook: the answer, and the object as patched. */
  method Handle(cfg: Config, partitions: bool, items: seq<Intention>, req: Request)
    returns (allowed: bool, patched: Intention)
    ensures patched == Defaulted(cfg, req.wanted)
    ensures allowed <==> Admissible(cfg, partitions, items, req)
  {
    patched := req.wanted;
    if cfg.enableNamespaces {
      var namespace := MapNamespace(cfg, patched.kubeNs);
      if patched.destinationNs == "" {
        patched := patched.(destinationNs := namespace);
      }
    }
    var singleConsulDestNS := !(cfg.enableNamespaces && cfg.mirroring);
    match req
    case Create(_) =>
      for i := 0 to |items|
        invariant forall item | item in items[..i] :: !Conflict(cfg, item, patched)
      {
        var item := items[i];
        if singleConsulDestNS {
          if item.destinationName == patched.destinationName {
            assert Conflict(cfg, items[i], patched);
            return false, patched;
          }
        } else if item.destinationName == patched.destinationName && item.destinationNs == patched.destinationNs {
          assert Conflict(cfg, items[i], patched);
          return false, patched;
        }
      }
      allowed := Validate(cfg, partitions, patched);
    case Update(prev, intention) =>
      if prev.destinationName != intention.destinationName || prev.destinationNs != intention.destinationNs {
        return false, patched;
      }
      allowed := Validate(cfg, partitions, patched);
  }

  /** Validate: all errors are collected; ok when there is none. */
  method Validate(cfg: Config, partitions: bool, intention: Intention) returns (ok: bool)
    ensures ok <==> Valid(cfg, partitions, intention)
  {
    var sources := intention.sources;
    var authorizationsOk := ValidateAuthorizations(sources);
    var namespacesOk := ValidateNamespaces(cfg.enableNamespaces, intention);
    var peersOk := ValidatePeersAndPartitions(partitions, sources);
    ok := sources != [] && authorizationsOk && namespacesOk && peersOk;
  }

  method ValidateAuthorizations(sources: seq<Source>) returns (ok: bool)
    ensures ok <==> forall i | 0 <= i < |sources| :: AuthorizationOk(sources[i])
  {
    ok := true;
    for i := 0 to |sources|
      invariant ok <==> forall j | 0 <= j < i :: AuthorizationOk(sources[j])
    {
      var source := sources[i];
      if |source.permissions| > 0 && source.action != "" {
        ok := false;
      } else if |source.permissions| == 0 {
        var actionOk := ValidateAction(source.action);
        ok := ok && actionOk;
      } else {
        var permissionsOk := ValidatePermissions(source.permissions);
        ok := ok && permissionsOk;
      }
    }
  }

  method ValidateNamespaces(enabled: bool, intention: Intention) returns (ok: bool)
    ensures ok <==> (intention.destinationNs != "" ==> enabled)
                    && forall i | 0 <= i < |intention.sources| :: intention.sources[i].ns != "" ==> enabled
  {
    ok := true;
    if !enabled {
      if intention.destinationNs != "" {
        ok := false;
      }
      for i := 0 to |intention.sources|
        invariant ok <==> intention.destinationNs == "" && forall j | 0 <= j < i :: intention.sources[j].ns == ""
      {
        if intention.sources[i].ns != "" {
          ok := false;
        }
      }
    }
  }

  method ValidatePeersAndPartitions(enabled: bool, sources: seq<Source>) returns (ok: bool)
    ensures ok <==> forall i | 0 <= i < |sources| ::
                      (sources[i].partition != "" ==> enabled) && !(sources[i].peer != "" && sources[i].partition != "")
  {
    ok := true;
    for i := 0 to |sources|
      invariant ok <==> forall j | 0 <= j < i ::
                  (sources[j].partition != "" ==> enabled) && !(sources[j].peer != "" && sources[j].partition != "")
    {
      if sources[i].partition != "" && !enabled {
        ok := false;
      }
      if sources[i].peer != "" && sources[i].partition != "" {
        ok := false;
      }
    }
  }

  // ---------------------------------------------------------------------------
  // Runs

  /** Serialized requests that reach the store. */
  datatype Event =
    | Creates(intention: Intention, items: seq<Intention>)
    | Updates(key: KubeKey, intention: Intention, items: seq<Intention>)
    | Deletes(key: KubeKey)

  /** The webhook lists exactly what is stored. */
  ghost predicate Lists(items: seq<Intention>, store: Store) {
    forall intention :: intention in items <==> intention in store.Values
  }

  ghost predicate Step(cfg: Config, partitions: bool, store: Store, e: Event, store': Store) {
    match e
    case Creates(intention, items) =>
      && Lists(items, store) && intention.kubeNs != "" && KubeKeyOf(intention) !in store
      && store' == if Admissible(cfg, partitions, items, Create(intention))
                   then store[KubeKeyOf(intention) := Defaulted(cfg, intention)] else store
    case Updates(key, intention, items) =>
      && Lists(items, store) && key in store && KubeKeyOf(intention) == key
      && store' == if Admissible(cfg, partitions, items, Update(store[key], intention))
                   then store[key := Defaulted(cfg, intention)] else store
    case Deletes(key) => store' == store - {key}
  }

  ghost predicate IsRun(cfg: Config, partitions: bool, run: seq<Store>, es: seq<Event>) {
    && |run| == |es| + 1 && run[0] == map[]
    && forall i | 0 <= i < |es| :: Step(cfg, partitions, run[i], es[i], run[i + 1])
  }

  /** Stored resources have been defaulted and validated. */
  predicate StoredOk(cfg: Config, key: KubeKey, intention: Intention) {
    && KubeKeyOf(intention) == key && key.ns != "" && Defaulted(cfg, intention) == intention
    && (!cfg.enableNamespaces ==> intention.destinationNs == "")
  }

  ghost predicate Inv(cfg: Config, store: Store) {
    && (forall key | key in store :: StoredOk(cfg, key, store[key]))
    && (forall key, key' | key in store && key' in store && key != key' :: !Conflict(cfg, store[key], store[key']))
  }

  /** Resources that do not conflict have different Consul keys. */
  lemma DifferentKeys(cfg: Config, a: Intention, b: Intention)
    requires StoredOk(cfg, KubeKeyOf(a), a) && StoredOk(cfg, KubeKeyOf(b), b) && !Conflict(cfg, a, b)
    ensures ConsulKey(cfg, a) != ConsulKey(cfg, b)
  {
    if a.destinationName == b.destinationName {
      assert !SingleDestination(cfg);
      assert a.destinationNs != "" by {
        assert MapNamespace(cfg, a.kubeNs)[|cfg.mirroringPrefix|..] == a.kubeNs;
      }
      assert b.destinationNs != "" by {
        assert MapNamespace(cfg, b.kubeNs)[|cfg.mirroringPrefix|..] == b.kubeNs;
      }
    }
  }

  /** What counts as a conflict: the same Consul key, where namespaces are mirrored or there are
      none; where all entries go to one configured namespace, the same name. */
  lemma ConflictExactlyWhen(cfg: Config, a: Intention, b: Intention)
    requires StoredOk(cfg, KubeKeyOf(a), a) && StoredOk(cfg, KubeKeyOf(b), b)
    ensures !cfg.enableNamespaces || cfg.mirroring ==> (Conflict(cfg, a, b) <==> ConsulKey(cfg, a) == ConsulKey(cfg, b))
    ensures cfg.enableNamespaces && !cfg.mirroring ==> (Conflict(cfg, a, b) <==> a.destinationName == b.destinationName)
  {
    if !Conflict(cfg, a, b) {
      DifferentKeys(cfg, a, b);
    }
  }

  lemma UpdateKeepsKey(cfg: Config, partitions: bool, store: Store, e: Event, store': Store)
    requires Inv(cfg, store) && Step(cfg, partitions, store, e, store') && e.Updates?
    ensures e.key in store'
    ensures store'[e.key].destinationName == store[e.key].destinationName
    ensures store'[e.key].destinationNs == store[e.key].destinationNs
    ensures ConsulKey(cfg, store'[e.key]) == ConsulKey(cfg, store[e.key])
  {
    assert StoredOk(cfg, e.key, store[e.key]);
  }

  lemma StepKeepsInv(cfg: Config, partitions: bool, store: Store, e: Event, store': Store)
    requires Inv(cfg, store) && Step(cfg, partitions, store, e, store')
    ensures Inv(cfg, store')
  {
    match e
    case Creates(intention, items) =>
      if store' != store {
        var d := Defaulted(cfg, intention);
        assert StoredOk(cfg, KubeKeyOf(intention), d);
        forall key | key in store
          ensures !Conflict(cfg, store[key], d) && !Conflict(cfg, d, store[key])
        {
          assert store[key] in store.Values;
        }
      }
    case Updates(key, intention, items) =>
      UpdateKeepsKey(cfg, partitions, store, e, store');
      assert StoredOk(cfg, key, store[key]);
      assert StoredOk(cfg, key, store'[key]);
    case Deletes(_) =>
  }

  lemma {:induction false} ReachableInv(cfg: Config, partitions: bool, run: seq<Store>, es: seq<Event>, i: nat)
    requires IsRun(cfg, partitions, run, es) && i <= |es|
    ensures Inv(cfg, run[i])
  {
    if i > 0 {
      ReachableInv(cfg, partitions, run, es, i - 1);
      StepKeepsInv(cfg, partitions, run[i - 1], es[i - 1], run[i]);
    }
  }

  /** Admitted intentions never collide: after any sequence of creates, updates and
      deletes, distinct stored resources have distinct Consul keys, with a single Consul
      destination namespace as with mirroring. */
  lemma NeverCollide(cfg: Config, partitions: bool, run: seq<Store>, es: seq<Event>, i: nat, key: KubeKey,
      key': KubeKey)
    requires IsRun(cfg, partitions, run, es) && i <= |es|
    requires key in run[i] && key' in run[i] && key != key'
    ensures ConsulKey(cfg, run[i][key]) != ConsulKey(cfg, run[i][key'])
  {
    ReachableInv(cfg, partitions, run, es, i);
    DifferentKeys(cfg, run[i][key], run[i][key']);
  }

  /** No step changes the Consul key of a resource that stays: deletion is the only way
      an entry's key leaves the cluster. */
  lemma KeysImmutable(cfg: Config, partitions: bool, run: seq<Store>, es: seq<Event>, i: nat, key: KubeKey)
    requires IsRun(cfg, partitions, run, es) && i < |es|
    requires key in run[i] && key in run[i + 1]
    ensures ConsulKey(cfg, run[i + 1][key]) == ConsulKey(cfg, run[i][key])
  {
    ReachableInv(cfg, partitions, run, es, i);
    if es[i].Updates? {
      UpdateKeepsKey(cfg, partitions, run[i], es[i], run[i + 1]);
    }
  }

  /** The controller's view of a stored resource. */
  predicate Represents(r: Resource, intention: Intention) {
    && r.consulName == intention.destinationName && !r.global
    && r.spec.IntentionsSpec? && r.spec.destinationNs == intention.destinationNs
  }

  /** What the controller is promised: no admitted request changes the Consul key of a
      resource it sees. */
  lemma ControllerKeysImmutable(cfg: Config, partitions: bool, run: seq<Store>, es: seq<Event>, i: nat, key: KubeKey,
                                r: Resource, r': Resource)
    requires IsRun(cfg, partitions, run, es) && i < |es| && key in run[i] && key in run[i + 1]
    requires Represents(r, run[i][key]) && Represents(r', run[i + 1][key])
    ensures KeyOf(cfg, r) == KeyOf(cfg, r')
  {
    KeysImmutable(cfg, partitions, run, es, i, key);
  }
}
