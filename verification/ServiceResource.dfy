/** The service resource as it is written: informer events edit three maps under a
    lock, and every change of the registrations is handed to the Syncer. */
module ServiceResources {
  import opened Common
  import opened Catalog
  import opened ServiceIds
  import opened KubeTypes
  import opened Registrations
  import opened ResourceState

  class ServiceResource {
    const cfg: Config

    var serviceMap: map<string, Service>
    var endpointsMap: map<string, Endpoints>
    var consulMap: map<string, seq<Registration>>
    /** The argument of the last call of Syncer.Sync. */
    var synced: seq<Registration>

    ghost function St(): State
      reads this
    {
      State(serviceMap, endpointsMap, consulMap, synced)
    }

    constructor (cfg: Config)
      ensures this.cfg == cfg && St() == INIT
    {
      this.cfg := cfg;
      serviceMap, endpointsMap, consulMap, synced := map[], map[], map[], [];
    }

    method Upsert(key: string, raw: Option<Service>, loaded: Option<Endpoints>)
      modifies this
      ensures Step(cfg, old(St()), UpsertService(key, raw, loaded), St())
    {
      if raw.None? {
        return;
      }
      var service := raw.value;
      if !ShouldSync(cfg, service) {
        if key in serviceMap {
          DoDelete(key);
        }
        return;
      }
      serviceMap := serviceMap[key := service];
      if ShouldTrackEndpoints(key) {
        if loaded.Some? {
          endpointsMap := endpointsMap[key := loaded.value];
        }
      }
      GenerateRegistrations(key);
      SyncAll();
    }

    method Delete(key: string)
      modifies this
      ensures Step(cfg, old(St()), DeleteService(key), St())
    {
      DoDelete(key);
    }

    method DoDelete(key: string)
      modifies this
      ensures Deleted(old(St()), key, St())
    {
      serviceMap := serviceMap - {key};
      endpointsMap := endpointsMap - {key};
      if key in consulMap {
        consulMap := consulMap - {key};
        SyncAll();
      } else {
        assert consulMap - {key} == consulMap;
      }
    }

    /** serviceEndpointsResource.Upsert */
    method EndpointsUpsert(key: string, raw: Option<Endpoints>)
      modifies this
      ensures Step(cfg, old(St()), UpsertEndpoints(key, raw), St())
    {
      if raw.None? {
        return;
      }
      if !ShouldTrackEndpoints(key) {
        return;
      }
      endpointsMap := endpointsMap[key := raw.value];
      GenerateRegistrations(key);
      SyncAll();
    }

    /** serviceEndpointsResource.Delete */
    method EndpointsDelete(key: string)
      modifies this
      ensures Step(cfg, old(St()), DeleteEndpoints(key), St())
    {
      if key in endpointsMap {
        endpointsMap := endpointsMap - {key};
        if key in consulMap {
          consulMap := consulMap - {key};
          SyncAll();
        } else {
          assert consulMap - {key} == consulMap;
        }
      }
    }

    predicate ShouldTrackEndpoints(key: string)
      reads this
    {
      key in serviceMap && UsesEndpoints(cfg, serviceMap[key])
    }

    /** sync: everything kept, in map iteration order. */
    method SyncAll()
      modifies this`synced
      ensures multiset(synced) == Flat(consulMap)
    {
      var rs := [];
      var rest := consulMap;
      while rest != map[]
        invariant multiset(rs) + Flat(rest) == Flat(consulMap)
        decreases rest.Keys
      {
        var key :| key in rest;
        FlatRemove(rest, key);
        rs := rs + rest[key];
        rest := rest - {key};
      }
      synced := rs;
    }

    // -------------------------------------------------------------------------
    // Generating registrations

    method GenerateRegistrations(key: string)
      modifies this`consulMap
      ensures consulMap == if key !in serviceMap then old(consulMap)
                           else With(old(consulMap), key, Generate(cfg, serviceMap[key], Get(endpointsMap, key)))
    {
      if key !in serviceMap {
        return;
      }
      var svc := serviceMap[key];
      ghost var m := consulMap;
      consulMap := consulMap - {key};
      var base, choice := Base(svc);
      RegisterInstances(key, svc, base, choice, m);
    }

    /** The instances, by the kind of service. */
    method RegisterInstances(key: string, svc: Service, base: AgentService, choice: PortChoice,
                             ghost m: map<string, seq<Registration>>)
      requires consulMap == With(m, key, [])
      modifies this`consulMap
      ensures var subsets := if key in endpointsMap then endpointsMap[key].subsets else [];
              consulMap == With(m, key, InstancesFrom(cfg, svc, base, choice, subsets))
    {
      if |svc.externalIPs| > 0 {
        RegisterExternalIPs(key, svc.externalIPs, base, m);
        return;
      }
      match svc.kind
      case LoadBalancer =>
        if cfg.loadBalancerEndpointsSync {
          RegisterServiceInstance(key, base, choice, false, m);
        } else {
          RegisterIngress(key, svc.ingress, base, m);
        }
      case NodePort =>
        RegisterNodes(key, base, m);
      case ClusterIP =>
        RegisterServiceInstance(key, base, choice, true, m);
      case ExternalName =>
    }

    /** The base service and the port overrides. */
    method Base(svc: Service) returns (base: AgentService, choice: PortChoice)
      ensures base == BaseService(cfg, svc) && choice == ChoosePort(cfg, svc)
    {
      var name := Name(svc);
      var consulNs := ConsulNamespace(svc.namespace, cfg.enableNamespaces, cfg.destinationNamespace,
                                      cfg.mirroring, cfg.mirroringPrefix);
      choice := Port(svc);
      var meta := Meta(svc);
      var tags := Tags(svc);
      base := AgentService("", name, consulNs, tags, meta, "", choice.port);
    }

    method Name(svc: Service) returns (name: string)
      ensures name == ServiceName(cfg, svc)
    {
      name := svc.name;
      if cfg.prefix != "" {
        name := cfg.prefix + name;
      }
      assert name == cfg.prefix + svc.name;
      if cfg.addNamespaceSuffix {
        name := name + "-" + svc.namespace;
      }
      if ANNOTATION_NAME in svc.annotations {
        name := cfg.trimSpace(svc.annotations[ANNOTATION_NAME]);
      }
    }

    method Tags(svc: Service) returns (tags: seq<string>)
      ensures tags == ServiceTags(cfg, svc)
    {
      tags := [cfg.tag];
      if ANNOTATION_TAGS in svc.annotations {
        tags := tags + cfg.parseTags(svc.annotations[ANNOTATION_TAGS]);
      }
    }

    method Port(svc: Service) returns (choice: PortChoice)
      ensures choice == ChoosePort(cfg, svc)
    {
      var port, overrideName, overrideNumber := 0, "", 0;
      if |svc.ports| == 0 {
        return PortChoice(0, "", 0);
      }
      if ANNOTATION_PORT in svc.annotations {
        var parsed := cfg.parseInt(svc.annotations[ANNOTATION_PORT]);
        if parsed.Some? {
          port := parsed.value;
          overrideNumber := port;
        } else {
          overrideName := svc.annotations[ANNOTATION_PORT];
        }
      }
      if overrideName != "" {
        var i := 0;
        while i < |svc.ports| && svc.ports[i].name != overrideName
          invariant i <= |svc.ports|
          invariant forall j | 0 <= j < i :: svc.ports[j].name != overrideName
        {
          i := i + 1;
        }
        if i < |svc.ports| {
          var p := svc.ports[i];
          port := if svc.kind.NodePort? && p.nodePort > 0 then p.nodePort else p.port;
        }
        assert port == NamedPort(svc, overrideName);
      }
      if port == 0 {
        if svc.kind.NodePort? {
          var i := 0;
          while i < |svc.ports| && svc.ports[i].nodePort <= 0
            invariant i <= |svc.ports|
            invariant forall j | 0 <= j < i :: svc.ports[j].nodePort <= 0
          {
            i := i + 1;
          }
          if i < |svc.ports| {
            port := svc.ports[i].nodePort;
          }
        } else {
          port := svc.ports[0].port;
        }
        assert port == FallbackPort(svc);
      }
      choice := PortChoice(port, overrideName, overrideNumber);
    }

    method Meta(svc: Service) returns (meta: map<string, string>)
      ensures meta == BaseMeta(cfg, svc)
    {
      meta := map[SOURCE_KEY := SOURCE_VALUE, META_NAMESPACE := svc.namespace];
      meta := AddPortMeta(meta, svc.ports);
      meta := AddAnnotationMeta(meta, svc.annotations, ANNOTATION_META_PREFIX);
    }

    method AddPortMeta(start: map<string, string>, ports: seq<ServicePort>) returns (meta: map<string, string>)
      ensures meta == start + PortMeta(cfg, ports)
    {
      meta := start;
      for i := 0 to |ports|
        invariant meta == start + PortMeta(cfg, ports[..i])
      {
        meta := meta["port-" + ports[i].name := cfg.formatInt(ports[i].port)];
        assert ports[..i + 1][..i] == ports[..i];
      }
      assert ports[..|ports|] == ports;
    }

    method AddAnnotationMeta(start: map<string, string>, annotations: map<string, string>, prefix: string)
      returns (meta: map<string, string>)
      ensures meta == start + AnnotationMeta(annotations, prefix)
    {
      meta := start;
      var todo := MetaKeys(annotations, prefix);
      while todo != {}
        invariant todo <= MetaKeys(annotations, prefix)
        invariant forall k :: k in meta <==> k in start || (prefix + k in annotations && k !in todo)
        invariant forall k | k in meta ::
                    meta[k] == if prefix + k in annotations && k !in todo then annotations[prefix + k] else start[k]
      {
        var k :| k in todo;
        todo := todo - {k};
        meta := meta[k := annotations[prefix + k]];
      }
    }

    /** Appends a registration to the entry of the key. */
    method Append(key: string, r: Registration, ghost m: map<string, seq<Registration>>, ghost rs: seq<Registration>)
      requires consulMap == With(m, key, rs)
      modifies this`consulMap
      ensures consulMap == With(m, key, rs + [r])
    {
      consulMap := consulMap[key := (if key in consulMap then consulMap[key] else []) + [r]];
    }

    method RegisterExternalIPs(key: string, ips: seq<string>, base: AgentService,
                               ghost m: map<string, seq<Registration>>)
      requires consulMap == With(m, key, [])
      modifies this`consulMap
      ensures consulMap == With(m, key, ExternalIPInstances(cfg, base, ips))
    {
      for i := 0 to |ips|
        invariant consulMap == With(m, key, ExternalIPInstances(cfg, base, ips[..i]))
      {
        var ip := ips[i];
        assert ips[..i + 1][..i] == ips[..i];
        Append(key, Instance(cfg, base, ip, ip), m, ExternalIPInstances(cfg, base, ips[..i]));
      }
      assert ips[..|ips|] == ips;
    }

    method RegisterIngress(key: string, ingresses: seq<Ingress>, base: AgentService,
                           ghost m: map<string, seq<Registration>>)
      requires consulMap == With(m, key, [])
      modifies this`consulMap
      ensures consulMap == With(m, key, FirstSeen(Candidates(ingresses, i => IngressCandidate(cfg, base, i))))
    {
      var seen := {};
      ghost var f, cs := i => IngressCandidate(cfg, base, i), [];
      for i := 0 to |ingresses|
        invariant cs == Candidates(ingresses[..i], f)
        invariant Seen(seen, cs) && consulMap == With(m, key, FirstSeen(cs))
      {
        var ingress := ingresses[i];
        assert ingresses[..i + 1][..i] == ingresses[..i];
        var addr := ingress.ip;
        if addr == "" {
          addr := ingress.hostname;
        }
        if addr == "" {
          continue;
        }
        seen, cs := AppendNew(key, addr, Instance(cfg, base, addr, addr), seen, m, cs);
      }
      assert ingresses[..|ingresses|] == ingresses;
    }

    ghost predicate Seen(seen: set<string>, cs: seq<Candidate>) {
      forall addr :: addr in seen <==> SeenBefore(cs, addr)
    }

    /** Appends the registration unless its address was seen. */
    method AppendNew(key: string, addr: string, r: Registration, seen: set<string>,
                     ghost m: map<string, seq<Registration>>, ghost cs: seq<Candidate>)
      returns (seen': set<string>, ghost cs': seq<Candidate>)
      requires Seen(seen, cs) && consulMap == With(m, key, FirstSeen(cs))
      modifies this`consulMap
      ensures cs' == cs + [Candidate(addr, r)]
      ensures Seen(seen', cs') && consulMap == With(m, key, FirstSeen(cs'))
    {
      cs' := cs + [Candidate(addr, r)];
      assert cs'[..|cs|] == cs;
      assert forall a :: SeenBefore(cs', a) <==> SeenBefore(cs, a) || a == addr by {
        assert Candidate(addr, r) in cs';
        assert forall c :: c in cs' <==> c in cs || c == Candidate(addr, r);
      }
      seen' := seen;
      if addr in seen {
        assert FirstSeen(cs') == FirstSeen(cs);
        return;
      }
      seen' := seen + {addr};
      Append(key, r, m, FirstSeen(cs));
    }

    method RegisterServiceInstance(key: string, base: AgentService, choice: PortChoice, useHostname: bool,
                                   ghost m: map<string, seq<Registration>>)
      requires consulMap == With(m, key, [])
      modifies this`consulMap
      ensures var subsets := if key in endpointsMap then endpointsMap[key].subsets else [];
              consulMap == With(m, key, FirstSeen(EndpointCandidates(cfg, base, choice, useHostname, subsets)))
    {
      if key !in endpointsMap {
        return;
      }
      RegisterSubsets(key, base, choice, useHostname, endpointsMap[key].subsets, m);
    }

    method RegisterSubsets(key: string, base: AgentService, choice: PortChoice, useHostname: bool, subsets: seq<Subset>,
                           ghost m: map<string, seq<Registration>>)
      requires consulMap == With(m, key, [])
      modifies this`consulMap
      ensures consulMap == With(m, key, FirstSeen(EndpointCandidates(cfg, base, choice, useHostname, subsets)))
    {
      var seen := {};
      ghost var cs := [];
      for i := 0 to |subsets|
        invariant cs == EndpointCandidates(cfg, base, choice, useHostname, subsets[..i])
        invariant Seen(seen, cs) && consulMap == With(m, key, FirstSeen(cs))
      {
        NextSubset(cfg, base, choice, useHostname, subsets, i);
        var epPort := EndpointPort(choice, subsets[i]);
        seen, cs := RegisterSubset(key, base, choice, epPort, useHostname, subsets[i], seen, m, cs);
      }
      assert subsets[..|subsets|] == subsets;
    }

    method EndpointPort(choice: PortChoice, subset: Subset) returns (epPort: int)
      ensures epPort == EndpointPortOf(choice, subset)
    {
      epPort := choice.port;
      if choice.name != "" {
        var i := 0;
        while i < |subset.ports| && subset.ports[i].name != choice.name
          invariant i <= |subset.ports|
          invariant forall j | 0 <= j < i :: subset.ports[j].name != choice.name
        {
          i := i + 1;
        }
        if i < |subset.ports| {
          epPort := subset.ports[i].port;
        }
      } else if choice.number == 0 {
        if |subset.ports| > 0 {
          epPort := subset.ports[0].port;
        }
      }
    }

    /** The inner loop: the addresses of one subset. */
    method RegisterSubset(key: string, base: AgentService, ghost choice: PortChoice, epPort: int, useHostname: bool,
                          subset: Subset, seen: set<string>, ghost m: map<string, seq<Registration>>,
                          ghost cs: seq<Candidate>)
      returns (seen': set<string>, ghost cs': seq<Candidate>)
      requires epPort == EndpointPortOf(choice, subset)
      requires Seen(seen, cs) && consulMap == With(m, key, FirstSeen(cs))
      modifies this`consulMap
      ensures cs' == cs + SubsetCandidates(cfg, base, choice, useHostname, subset)
      ensures Seen(seen', cs') && consulMap == With(m, key, FirstSeen(cs'))
    {
      seen', cs' := seen, cs;
      ghost var f := a => EndpointCandidate(cfg, base, useHostname, epPort, a);
      for i := 0 to |subset.addresses|
        invariant cs' == cs + Candidates(subset.addresses[..i], f)
        invariant Seen(seen', cs') && consulMap == With(m, key, FirstSeen(cs'))
      {
        NextCandidate(cs, subset.addresses, i, f);
        seen', cs' := RegisterAddress(key, base, epPort, useHostname, subset.addresses[i], seen', m, cs');
      }
      assert subset.addresses[..|subset.addresses|] == subset.addresses;
    }

    method RegisterAddress(key: string, base: AgentService, epPort: int, useHostname: bool, a: EndpointAddress,
                           seen: set<string>, ghost m: map<string, seq<Registration>>, ghost cs: seq<Candidate>)
      returns (seen': set<string>, ghost cs': seq<Candidate>)
      requires Seen(seen, cs) && consulMap == With(m, key, FirstSeen(cs))
      modifies this`consulMap
      ensures cs' == cs + Addressed(EndpointCandidate(cfg, base, useHostname, epPort, a))
      ensures Seen(seen', cs') && consulMap == With(m, key, FirstSeen(cs'))
    {
      seen', cs' := seen, cs;
      var addr := a.ip;
      if addr == "" && useHostname {
        addr := a.hostname;
      }
      if addr == "" {
        return;
      }
      var meta := MetaOf(base.meta, a);
      seen', cs' := AppendNew(key, addr, Instance(cfg, base.(port := epPort, meta := meta), addr, addr), seen', m, cs');
    }

    method MetaOf(base: map<string, string>, a: EndpointAddress) returns (meta: map<string, string>)
      ensures meta == EndpointMeta(base, a)
    {
      meta := base;
      if a.targetRef.Some? {
        meta := meta[META_REF_NAME := a.targetRef.value.name];
        meta := meta[META_REF_KIND := a.targetRef.value.kind];
      }
      if a.nodeName.Some? {
        meta := meta[META_NODE_NAME := a.nodeName.value];
      }
    }

    method RegisterNodes(key: string, base: AgentService, ghost m: map<string, seq<Registration>>)
      requires consulMap == With(m, key, [])
      modifies this`consulMap
      ensures var subsets := if key in endpointsMap then endpointsMap[key].subsets else [];
              consulMap == With(m, key, NodePortInstances(cfg, base, subsets))
    {
      if key !in endpointsMap {
        return;
      }
      var subsets := endpointsMap[key].subsets;
      for i := 0 to |subsets|
        invariant consulMap == With(m, key, NodePortInstances(cfg, base, subsets[..i]))
      {
        assert subsets[..i + 1][..i] == subsets[..i];
        RegisterSubsetNodes(key, base, subsets[i].addresses, m, NodePortInstances(cfg, base, subsets[..i]));
      }
      assert subsets[..|subsets|] == subsets;
    }

    /** The inner loop: the addresses of one subset. */
    method RegisterSubsetNodes(key: string, base: AgentService, addresses: seq<EndpointAddress>,
                               ghost m: map<string, seq<Registration>>, ghost rs: seq<Registration>)
      requires consulMap == With(m, key, rs)
      modifies this`consulMap
      ensures consulMap == With(m, key, rs + NodeInstances(cfg, base, addresses))
    {
      ghost var done := rs;
      for j := 0 to |addresses|
        invariant done == rs + NodeInstances(cfg, base, addresses[..j])
        invariant consulMap == With(m, key, done)
      {
        assert addresses[..j + 1][..j] == addresses[..j];
        RegisterNode(key, base, addresses[j], m, done);
        done := done + NodeInstance(cfg, base, addresses[j]);
      }
      assert addresses[..|addresses|] == addresses;
    }

    method RegisterNode(key: string, base: AgentService, a: EndpointAddress,
                        ghost m: map<string, seq<Registration>>, ghost rs: seq<Registration>)
      requires consulMap == With(m, key, rs)
      modifies this`consulMap
      ensures consulMap == With(m, key, rs + NodeInstance(cfg, base, a))
    {
      assert rs + [] == rs;
      if a.nodeName.None? {
        return;
      }
      var node := cfg.getNode(a.nodeName.value);
      if node.None? {
        return;
      }
      var found := FindNodeAddress(node.value);
      if found.Some? {
        Append(key, Instance(cfg, base, a.ip, found.value.address), m, rs);
      }
    }

    method FindNodeAddress(addresses: seq<NodeAddress>) returns (found: Option<NodeAddress>)
      ensures found == NodeAddressFor(cfg.nodePortSync, addresses)
    {
      if cfg.nodePortSync.InternalOnly? {
        found := FindAddress(addresses, InternalIP);
      } else {
        found := FindAddress(addresses, ExternalIP);
      }
      if cfg.nodePortSync.ExternalFirst? && found.None? {
        found := FindAddress(addresses, InternalIP);
      }
    }

    /** Only the first address of the type is considered. */
    method FindAddress(addresses: seq<NodeAddress>, kind: NodeAddressType) returns (r: Option<NodeAddress>)
      ensures r == FirstOfKind(addresses, kind)
    {
      for i := 0 to |addresses|
        invariant forall j | 0 <= j < i :: addresses[j].kind != kind
      {
        if addresses[i].kind == kind {
          return Some(addresses[i]);
        }
      }
      return None;
    }
  }
}
