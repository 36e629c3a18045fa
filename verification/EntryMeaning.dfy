/** What a resource's config entry says and where it is kept, told from the resource's spec
    and the settings alone. */
module EntryMeaning {
  import opened Common
  import opened IntentionMatch
  import opened ConfigEntries
  import opened Reconciling

  // ---------------------------------------------------------------------------
  // Content

  /** A transparent proxy section that says nothing. */
  predicate NoProxy(proxy: Option<TransparentProxy>) {
    proxy.None? || (proxy.value.outboundListenerPort == 0 && !proxy.value.dialedDirectly)
  }

  /** The entry says what the spec says. */
  ghost predicate Says(r: Resource, e: Entry) {
    && e.name == r.consulName
    && match r.spec
       case ProxiedSpec(kind, fields, proxy) =>
         && e.body.Proxied? && e.body.kind == kind && e.body.fields == fields
         && (e.body.proxy == proxy || (NoProxy(e.body.proxy) && NoProxy(proxy)))
       case IntentionsSpec(_, sources) =>
         e.body.Intentions? && multiset(Map(Projection, e.body.sources)) == multiset(sources)
       case PlainSpec(kind, fields) => e.body == Plain(kind, fields)
  }

  /** The sources of a resource as they are compared are the sources of its spec. */
  lemma SourcesKept(sources: seq<Option<Compared>>)
    ensures Map(Projection, Map(ToSource, sources)) == sources
  {
  }

  /** The match, without the conversion it is made of: the entry says what the spec says, and
      its Types are in order. */
  lemma MatchesExactlyWhenSays(json: Rendering, r: Resource, e: Entry)
    requires Faithful(json)
    ensures MatchesConsul(json, r, e) <==> Says(r, e) && InOrder(json, e)
  {
    if r.spec.IntentionsSpec? && e.body.Intentions? {
      SourcesKept(r.spec.sources);
      MatchesExactlyWhen(json, Map(ToSource, r.spec.sources), e.body.sources, "");
    }
  }

  /** What Consul holds after storing what the resource writes: the content of the spec, the
      destination's namespace, and metadata naming Kubernetes and the datacenter. */
  lemma WrittenSays(dc: string, r: Resource, stored: Entry)
    requires StoredAs(ToConsul(dc, r), stored)
    ensures Says(r, stored)
    ensures r.spec.IntentionsSpec? && r.spec.destinationNs != "" ==> stored.ns == r.spec.destinationNs
    ensures stored.meta == map[SOURCE_KEY := SOURCE_VALUE, DATACENTER_KEY := dc]
  {
    if r.spec.IntentionsSpec? {
      SourcesKept(r.spec.sources);
    }
  }

  // ---------------------------------------------------------------------------
  // Where it is kept

  predicate KindIs(spec: Spec, kind: string) {
    match spec
    case ProxiedSpec(k, _, _) => kind == k
    case IntentionsSpec(_, _) => kind == "service-intentions"
    case PlainSpec(k, _) => kind == k
  }

  /** The Consul namespace of an entry: none without namespaces; that of the destination for
      intentions; unchanged for global resources and the wildcard; otherwise the mirrored or
      the configured one. */
  predicate NamespaceIs(cfg: Config, r: Resource, ns: string) {
    var own := if r.spec.IntentionsSpec? then r.spec.destinationNs else r.mirroringNs;
    && (!cfg.enableNamespaces ==> ns == "")
    && (cfg.enableNamespaces ==>
          if r.spec.IntentionsSpec? && r.spec.destinationNs != "" then ns == r.spec.destinationNs
          else if r.global || own == "*" then ns == own
          else if cfg.mirroring then ns == cfg.mirroringPrefix + own
          else ns == cfg.destinationNamespace)
  }

  /** The key of a resource's entry, and no other. */
  lemma KeyExactlyWhen(cfg: Config, r: Resource, k: EntryKey)
    ensures k == KeyOf(cfg, r) <==> k.name == r.consulName && KindIs(r.spec, k.kind) && NamespaceIs(cfg, r, k.ns)
  {
  }

  // ---------------------------------------------------------------------------
  // What a successful reconcile leaves

  /** After a successful reconcile of a live resource Consul holds, under the resource's key,
      an entry that says what the spec says and names this datacenter. */
  lemma SuccessSays(cfg: Config, s: Stores, name: string, c: Calls, k: EntryKey)
    requires ConfigOk(cfg) && CallsOk(cfg, s, name, c)
    requires name in s.kube && !s.kube[name].deleting && Reconcile(cfg, s, name, c).ok
    requires var r := s.kube[name];
             k.name == r.consulName && KindIs(r.spec, k.kind) && NamespaceIs(cfg, r, k.ns)
    ensures var consul' := Reconcile(cfg, s, name, c).s.consul;
            && k in consul' && Says(s.kube[name], consul'[k])
            && DATACENTER_KEY in consul'[k].meta && consul'[k].meta[DATACENTER_KEY] == cfg.datacenter
  {
    var r := s.kube[name];
    KeyExactlyWhen(cfg, r, k);
    WrittenSays(cfg.datacenter, r, c.stored);
    OkLeaves(cfg, s, name, c);
    if MatchesNow(cfg, s, name) {
      MatchesExactlyWhenSays(cfg.json, r, s.consul[k]);
    }
  }

  /** A success left the matching entry alone, or wrote it. */
  lemma OkLeaves(cfg: Config, s: Stores, name: string, c: Calls)
    requires name in s.kube && !s.kube[name].deleting && Reconcile(cfg, s, name, c).ok
    ensures var k, consul' := KeyOf(cfg, s.kube[name]), Reconcile(cfg, s, name, c).s.consul;
            || (consul' == s.consul && MatchesNow(cfg, s, name) && Ours(cfg, s.consul, k))
            || consul' == s.consul[k := c.stored]
  {
    var r, matches := s.kube[name], MatchesNow(cfg, s, name);
    if HasFinalizer(r) {
      SyncEntryOk(cfg, s, name, matches, c);
    } else {
      var r' := r.(finalizers := r.finalizers + [FINALIZER_NAME]);
      SameSpec(cfg, r, r');
      SyncEntryOk(cfg, s.(kube := s.kube[name := r']), name, matches, c);
    }
  }
}
