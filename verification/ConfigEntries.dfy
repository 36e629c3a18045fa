/** Config entry resources, the Consul entries they become, and when the two match. */
module ConfigEntries {
  import opened Common
  import opened IntentionMatch

  const FINALIZER_NAME := "finalizers.consul.hashicorp.com"
  const DATACENTER_KEY := "consul.hashicorp.com/source-datacenter"
  const MIGRATE_ENTRY_KEY := "consul.hashicorp.com/migrate-entry"
  const INTENTIONS_KIND := "service-intentions"

  datatype TransparentProxy = TransparentProxy(outboundListenerPort: int, dialedDirectly: bool)

  const EMPTY_PROXY := TransparentProxy(0, false)

  /** The content of a config entry: the kinds with a transparent proxy section
      (service-defaults, proxy-defaults), service-intentions, and the others. */
  datatype Body =
    | Proxied(kind: string, fields: string, proxy: Option<TransparentProxy>)
    | Intentions(sources: seq<Source>)
    | Plain(kind: string, fields: string)

  datatype Entry = Entry(
    name: string,
    ns: string,
    partition: string,
    meta: map<string, string>,
    createIndex: nat,
    modifyIndex: nat,
    body: Body)

  datatype EntryKey = EntryKey(kind: string, ns: string, name: string)

  datatype Spec =
    | ProxiedSpec(kind: string, fields: string, proxy: Option<TransparentProxy>)
    | IntentionsSpec(destinationNs: string, sources: seq<Option<Compared>>)
    | PlainSpec(kind: string, fields: string)

  datatype Status = True | False | Unknown

  datatype Resource = Resource(
    consulName: string,
    mirroringNs: string,
    global: bool,
    annotations: map<string, string>,
    finalizers: seq<string>,
    deleting: bool,
    spec: Spec,
    status: Status)

  /** A controller's settings and the JSON encoder the match relies on. */
  datatype Config = Config(
    datacenter: string,
    enableNamespaces: bool,
    destinationNamespace: string,
    mirroring: bool,
    mirroringPrefix: string,
    json: Rendering)

  // ---------------------------------------------------------------------------
  // Conversion

  function ToSource(s: Option<Compared>): Source {
    match s
    case None => NoSource
    case Some(c) => Source(c, "", 0, "", map[], None, None)
  }

  function ToBody(spec: Spec): Body {
    match spec
    case ProxiedSpec(kind, fields, proxy) => Proxied(kind, fields, proxy)
    case IntentionsSpec(_, sources) => Intentions(Map(ToSource, sources))
    case PlainSpec(kind, fields) => Plain(kind, fields)
  }

  /** Only intentions carry a Consul namespace of their own. */
  function SpecNs(spec: Spec): string {
    if spec.IntentionsSpec? then spec.destinationNs else ""
  }

  function ToConsul(datacenter: string, r: Resource): Entry {
    Entry(r.consulName, SpecNs(r.spec), "",
          map[SOURCE_KEY := SOURCE_VALUE, DATACENTER_KEY := datacenter], 0, 0, ToBody(r.spec))
  }

  function Kind(spec: Spec): string {
    match spec
    case ProxiedSpec(kind, _, _) => kind
    case IntentionsSpec(_, _) => INTENTIONS_KIND
    case PlainSpec(kind, _) => kind
  }

  function MapNamespace(cfg: Config, kubeNs: string): string {
    ConsulNamespace(kubeNs, cfg.enableNamespaces, cfg.destinationNamespace, cfg.mirroring, cfg.mirroringPrefix)
  }

  /** consulNamespace */
  function EntryNamespace(cfg: Config, entryNs: string, mirroringNs: string, global: bool): string {
    if !cfg.enableNamespaces then ""
    else if entryNs != "" then entryNs
    else if !global && mirroringNs != "*" then MapNamespace(cfg, mirroringNs)
    else mirroringNs
  }

  /** ConsulMirroringNS: intentions use the namespace of their destination. */
  function MirroringNs(r: Resource): string {
    if r.spec.IntentionsSpec? then r.spec.destinationNs else r.mirroringNs
  }

  function KeyOf(cfg: Config, r: Resource): EntryKey {
    EntryKey(Kind(r.spec),
             EntryNamespace(cfg, SpecNs(r.spec), MirroringNs(r), r.global),
             r.consulName)
  }

  /** The datacenter an entry says it was created in; "" when it does not say. */
  function Owner(e: Entry): string {
    if DATACENTER_KEY in e.meta then e.meta[DATACENTER_KEY] else ""
  }

  // ---------------------------------------------------------------------------
  // Matching

  /** transparentProxyConfigComparer */
  predicate SameProxy(a: Option<TransparentProxy>, b: Option<TransparentProxy>) {
    (a.None? && b == Some(EMPTY_PROXY)) || (b.None? && a == Some(EMPTY_PROXY)) || a == b
  }

  predicate MatchesBody(json: Rendering, a: Body, b: Body) {
    match (a, b)
    case (Proxied(kind, fields, proxy), Proxied(kind', fields', proxy')) =>
      kind == kind' && fields == fields' && SameProxy(proxy, proxy')
    case (Intentions(sources), Intentions(sources')) => Matches(json, sources, sources')
    case (Plain(kind, fields), Plain(kind', fields')) => kind == kind' && fields == fields'
    case _ => false
  }

  /** MatchesConsul: Partition, Namespace, Meta and the indexes are ignored. */
  predicate MatchesConsul(json: Rendering, r: Resource, e: Entry) {
    ToConsul("", r).name == e.name && MatchesBody(json, ToConsul("", r).body, e.body)
  }

  /** Consul's freedom in storing what it is given: it fills in the partition and the
      indexes, turns a missing transparent proxy section into an empty one, and stores
      intention sources in its own order with its own fields and Types filled in. */
  ghost predicate StoredAs(written: Entry, stored: Entry) {
    && stored.name == written.name && stored.meta == written.meta
    && (written.ns != "" ==> stored.ns == written.ns)
    && match (written.body, stored.body)
       case (Proxied(kind, fields, proxy), Proxied(kind', fields', proxy')) =>
         kind' == kind && fields' == fields && (proxy' == proxy || (proxy.None? && proxy' == Some(EMPTY_PROXY)))
       case (Intentions(sources), Intentions(sources')) => SameSources(sources, sources')
       case (Plain(_, _), Plain(_, _)) => stored.body == written.body
       case _ => false
  }

  /** The Types Consul has filled in do not reverse the order of sources; they never do if
      they are all the same. */
  ghost predicate InOrder(json: Rendering, e: Entry) {
    e.body.Intentions? ==> TypesInOrder(json, e.body.sources)
  }

  /** The same content, whatever order and Types the sources of intentions have. */
  ghost predicate SameContent(json: Rendering, a: Body, b: Body) {
    if a.Intentions? && b.Intentions? then SameSources(a.sources, b.sources) else MatchesBody(json, a, b)
  }

  /** What is accepted has the same content. */
  lemma MatchingContent(json: Rendering, a: Body, b: Body)
    requires MatchesBody(json, a, b)
    ensures SameContent(json, a, b)
  {
    if a.Intentions? {
      MatchingListsAgree(json, a.sources, b.sources);
    }
  }

  /** Matching is an equivalence. */
  lemma MatchEquivalence(json: Rendering, a: Body, b: Body, c: Body)
    ensures MatchesBody(json, a, a)
    ensures MatchesBody(json, a, b) ==> MatchesBody(json, b, a)
    ensures MatchesBody(json, a, b) && MatchesBody(json, b, c) ==> MatchesBody(json, a, c)
  {
  }

  /** A resource that matches an entry still matches it when Consul stores it anew in its
      own way, exactly when the Types are in order. */
  lemma StoredMatchesExactlyWhen(json: Rendering, r: Resource, e: Entry, stored: Entry)
    requires Faithful(json) && MatchesConsul(json, r, e) && StoredAs(e, stored)
    ensures MatchesConsul(json, r, stored) <==> InOrder(json, stored)
  {
    if r.spec.IntentionsSpec? {
      var own := ToBody(r.spec).sources;
      MatchesExactlyWhen(json, own, e.body.sources, "");
      MatchesExactlyWhen(json, own, stored.body.sources, "");
    }
  }

  /** What a resource writes is owned by its datacenter, and matches the resource exactly
      when Consul stores it with the Types in order. */
  lemma WriteMatches(json: Rendering, dc: string, r: Resource, stored: Entry)
    requires Faithful(json) && StoredAs(ToConsul(dc, r), stored)
    ensures Owner(stored) == dc
    ensures MatchesConsul(json, r, stored) <==> InOrder(json, stored)
  {
    MatchEquivalence(json, ToBody(r.spec), ToBody(r.spec), ToBody(r.spec));
    StoredMatchesExactlyWhen(json, r, ToConsul(dc, r), stored);
  }
}
