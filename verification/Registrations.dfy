/** Which registrations a Kubernetes service stands for, as a function of the service
    and its endpoints. ServiceResource computes it with loops. */
module Registrations {
  import opened Common
  import opened Catalog
  import opened ServiceIds
  import opened KubeTypes

  datatype NodePortSync = ExternalOnly | ExternalFirst | InternalOnly

  /** Settings, and the library calls and API lookups that are taken as given. */
  datatype Config = Config(
    allow: set<string>,
    deny: set<string>,
    tag: string,
    prefix: string,
    explicitEnable: bool,
    clusterIPSync: bool,
    loadBalancerEndpointsSync: bool,
    nodePortSync: NodePortSync,
    addNamespaceSuffix: bool,
    enableNamespaces: bool,
    destinationNamespace: string,
    mirroring: bool,
    mirroringPrefix: string,
    nodeName: string,
    sha1: Digest,
    parseInt: string -> Option<int>,
    formatInt: int -> string,
    trimSpace: string -> string,
    parseTags: string -> seq<string>,
    getNode: string -> Option<seq<NodeAddress>>)

  const ANNOTATION_NAME := "consul.hashicorp.com/service-name"
  const ANNOTATION_PORT := "consul.hashicorp.com/service-port"
  const ANNOTATION_TAGS := "consul.hashicorp.com/service-tags"
  const ANNOTATION_META_PREFIX := "consul.hashicorp.com/service-meta-"

  const META_NAMESPACE := "external-k8s-ns"
  const META_REF_KIND := "external-k8s-ref-kind"
  const META_REF_NAME := "external-k8s-ref-name"
  const META_NODE_NAME := "external-k8s-node-name"

  // ---------------------------------------------------------------------------
  // Selection

  /** strconv.ParseBool */
  function ParseBool(s: string): Option<bool> {
    if s in {"1", "t", "T", "true", "TRUE", "True"} then Some(true)
    else if s in {"0", "f", "F", "false", "FALSE", "False"} then Some(false)
    else None
  }

  predicate ShouldSync(cfg: Config, svc: Service) {
    && svc.namespace !in cfg.deny
    && ("*" in cfg.allow || svc.namespace in cfg.allow)
    && (svc.kind.ClusterIP? ==> cfg.clusterIPSync)
    && (if ANNOTATION_SYNC in svc.annotations && ParseBool(svc.annotations[ANNOTATION_SYNC]).Some?
        then ParseBool(svc.annotations[ANNOTATION_SYNC]).value
        else !cfg.explicitEnable)
  }

  /** The types whose instances come from endpoints. */
  predicate UsesEndpoints(cfg: Config, svc: Service) {
    svc.kind.NodePort? || svc.kind.ClusterIP? || (cfg.loadBalancerEndpointsSync && svc.kind.LoadBalancer?)
  }

  // ---------------------------------------------------------------------------
  // The base every instance of the service is copied from

  function ServiceName(cfg: Config, svc: Service): string {
    if ANNOTATION_NAME in svc.annotations then cfg.trimSpace(svc.annotations[ANNOTATION_NAME])
    else cfg.prefix + svc.name + if cfg.addNamespaceSuffix then "-" + svc.namespace else ""
  }

  /** The service port, and the port the annotation asks for by name or number. */
  datatype PortChoice = PortChoice(port: int, name: string, number: int)

  function ChoosePort(cfg: Config, svc: Service): PortChoice {
    if svc.ports == [] then PortChoice(0, "", 0)
    else
      var given := if ANNOTATION_PORT in svc.annotations then svc.annotations[ANNOTATION_PORT] else "";
      var number := if ANNOTATION_PORT in svc.annotations && cfg.parseInt(given).Some?
          then cfg.parseInt(given).value else 0;
      var name := if ANNOTATION_PORT in svc.annotations && cfg.parseInt(given).None? then given else "";
      var asked := if name != "" then NamedPort(svc, name) else number;
      PortChoice(if asked != 0 then asked else FallbackPort(svc), name, number)
  }

  function NamedPort(svc: Service, name: string): int {
    match First(svc.ports, (p: ServicePort) => p.name == name)
    case None => 0
    case Some(p) => if svc.kind.NodePort? && p.nodePort > 0 then p.nodePort else p.port
  }

  function FallbackPort(svc: Service): int
    requires svc.ports != []
  {
    if svc.kind.NodePort? then
      match First(svc.ports, (p: ServicePort) => p.nodePort > 0)
      case None => 0
      case Some(p) => p.nodePort
    else svc.ports[0].port
  }

  /** Metadata from annotations wins over port metadata, and that over the base. */
  function BaseMeta(cfg: Config, svc: Service): map<string, string> {
    map[SOURCE_KEY := SOURCE_VALUE, META_NAMESPACE := svc.namespace]
    + PortMeta(cfg, svc.ports) + AnnotationMeta(svc.annotations, ANNOTATION_META_PREFIX)
  }

  function PortMeta(cfg: Config, ports: seq<ServicePort>): map<string, string> {
    if ports == [] then map[]
    else
      var p := ports[|ports| - 1];
      PortMeta(cfg, ports[..|ports| - 1])[PortKey(p) := cfg.formatInt(p.port)]
  }

  function PortKey(p: ServicePort): string {
    "port-" + p.name
  }

  /** The metadata keys that annotations with the prefix name. */
  function MetaKeys(annotations: map<string, string>, prefix: string): (ks: set<string>)
    ensures forall k :: k in ks <==> prefix + k in annotations
  {
    var ks := set a | a in annotations && HasPrefix(a, prefix) :: a[|prefix|..];
    assert forall k :: k in ks <==> prefix + k in annotations by {
      forall k
        ensures k in ks <==> prefix + k in annotations
      {
        assert (prefix + k)[|prefix|..] == k && HasPrefix(prefix + k, prefix);
        if k in ks {
          var a :| a in annotations && HasPrefix(a, prefix) && a[|prefix|..] == k;
          assert a == prefix + k;
        }
      }
    }
    ks
  }

  function AnnotationMeta(annotations: map<string, string>, prefix: string): map<string, string> {
    map k | k in MetaKeys(annotations, prefix) :: annotations[prefix + k]
  }

  function ServiceTags(cfg: Config, svc: Service): seq<string> {
    [cfg.tag] + if ANNOTATION_TAGS in svc.annotations then cfg.parseTags(svc.annotations[ANNOTATION_TAGS]) else []
  }

  function BaseService(cfg: Config, svc: Service): AgentService {
    AgentService(
      "",
      ServiceName(cfg, svc),
      ConsulNamespace(svc.namespace, cfg.enableNamespaces, cfg.destinationNamespace, cfg.mirroring,
          cfg.mirroringPrefix),
      ServiceTags(cfg, svc),
      BaseMeta(cfg, svc),
      "",
      ChoosePort(cfg, svc).port)
  }

  /** A registration of the base service, its ID made from idAddr. */
  function Instance(cfg: Config, base: AgentService, idAddr: string, address: string): Registration {
    Registration(cfg.nodeName, "127.0.0.1", true, map[SOURCE_KEY := SOURCE_VALUE],
                 base.(id := ServiceId(cfg.sha1, base.name, idAddr), address := address))
  }

  // ---------------------------------------------------------------------------
  // Instances

  /** A possible instance, before duplicate addresses are dropped. */
  datatype Candidate = Candidate(addr: string, reg: Registration)

  predicate SeenBefore(cs: seq<Candidate>, addr: string) {
    exists c :: c in cs && c.addr == addr
  }

  /** The registrations of the candidates whose address did not occur before. */
  function FirstSeen(cs: seq<Candidate>): seq<Registration> {
    if cs == [] then []
    else
      var n := |cs| - 1;
      FirstSeen(cs[..n]) + if SeenBefore(cs[..n], cs[n].addr) then [] else [cs[n].reg]
  }

  /** The candidates that have an address at all. */
  function Candidates<T>(xs: seq<T>, f: T -> Candidate): seq<Candidate> {
    if xs == [] then []
    else
      var n := |xs| - 1;
      Candidates(xs[..n], f) + Addressed(f(xs[n]))
  }

  function Addressed(c: Candidate): seq<Candidate> {
    if c.addr == "" then [] else [c]
  }

  lemma NextCandidate<T>(before: seq<Candidate>, xs: seq<T>, i: nat, f: T -> Candidate)
    requires i < |xs|
    ensures before + Candidates(xs[..i + 1], f) == before + Candidates(xs[..i], f) + Addressed(f(xs[i]))
  {
    assert xs[..i + 1][..i] == xs[..i];
  }

  function EndpointPortOf(choice: PortChoice, subset: Subset): int {
    if choice.name != "" then
      match First(subset.ports, (p: EndpointPort) => p.name == choice.name)
      case None => choice.port
      case Some(p) => p.port
    else if choice.number == 0 && subset.ports != [] then subset.ports[0].port
    else choice.port
  }

  function EndpointMeta(meta: map<string, string>, a: EndpointAddress): map<string, string> {
    meta
    + (if a.targetRef.Some?
       then map[META_REF_NAME := a.targetRef.value.name, META_REF_KIND := a.targetRef.value.kind] else map[])
    + (if a.nodeName.Some? then map[META_NODE_NAME := a.nodeName.value] else map[])
  }

  function EndpointCandidate(cfg: Config, base: AgentService, useHostname: bool, port: int,
      a: EndpointAddress): Candidate {
    var addr := if a.ip == "" && useHostname then a.hostname else a.ip;
    Candidate(addr, Instance(cfg, base.(port := port, meta := EndpointMeta(base.meta, a)), addr, addr))
  }

  function SubsetCandidates(
    cfg: Config, base: AgentService, choice: PortChoice, useHostname: bool, subset: Subset): seq<Candidate>
  {
    Candidates(subset.addresses, a => EndpointCandidate(cfg, base, useHostname, EndpointPortOf(choice, subset), a))
  }

  function EndpointCandidates(
    cfg: Config, base: AgentService, choice: PortChoice, useHostname: bool, subsets: seq<Subset>): seq<Candidate>
  {
    if subsets == [] then []
    else
      var n := |subsets| - 1;
      EndpointCandidates(cfg, base, choice, useHostname, subsets[..n])
      + SubsetCandidates(cfg, base, choice, useHostname, subsets[n])
  }

  lemma NextSubset(cfg: Config, base: AgentService, choice: PortChoice, useHostname: bool, subsets: seq<Subset>, i: nat)
    requires i < |subsets|
    ensures EndpointCandidates(cfg, base, choice, useHostname, subsets[..i + 1])
         == EndpointCandidates(cfg, base, choice, useHostname, subsets[..i])
            + SubsetCandidates(cfg, base, choice, useHostname, subsets[i])
  {
    assert subsets[..i + 1][..i] == subsets[..i];
  }

  function IngressCandidate(cfg: Config, base: AgentService, i: Ingress): Candidate {
    var addr := if i.ip == "" then i.hostname else i.ip;
    Candidate(addr, Instance(cfg, base, addr, addr))
  }

  function ExternalIPInstances(cfg: Config, base: AgentService, ips: seq<string>): seq<Registration> {
    if ips == [] then []
    else
      var n := |ips| - 1;
      ExternalIPInstances(cfg, base, ips[..n]) + [Instance(cfg, base, ips[n], ips[n])]
  }

  function FirstOfKind(addresses: seq<NodeAddress>, kind: NodeAddressType): Option<NodeAddress> {
    First(addresses, (a: NodeAddress) => a.kind == kind)
  }

  /** The address a NodePort service is registered with on the node. */
  function NodeAddressFor(sync: NodePortSync, addresses: seq<NodeAddress>): Option<NodeAddress> {
    match sync
    case InternalOnly => FirstOfKind(addresses, InternalIP)
    case ExternalOnly => FirstOfKind(addresses, ExternalIP)
    case ExternalFirst =>
      var external := FirstOfKind(addresses, ExternalIP);
      if external.Some? then external else FirstOfKind(addresses, InternalIP)
  }

  function NodeInstance(cfg: Config, base: AgentService, a: EndpointAddress): seq<Registration> {
    if a.nodeName.None? || cfg.getNode(a.nodeName.value).None? then []
    else
      match NodeAddressFor(cfg.nodePortSync, cfg.getNode(a.nodeName.value).value)
      case None => []
      case Some(na) => [Instance(cfg, base, a.ip, na.address)]
  }

  function NodeInstances(cfg: Config, base: AgentService, addresses: seq<EndpointAddress>): seq<Registration> {
    if addresses == [] then []
    else
      var n := |addresses| - 1;
      NodeInstances(cfg, base, addresses[..n]) + NodeInstance(cfg, base, addresses[n])
  }

  function NodePortInstances(cfg: Config, base: AgentService, subsets: seq<Subset>): seq<Registration> {
    if subsets == [] then []
    else
      var n := |subsets| - 1;
      NodePortInstances(cfg, base, subsets[..n]) + NodeInstances(cfg, base, subsets[n].addresses)
  }

  /** The instances of a service, given the base they are copied from. */
  function InstancesFrom(
    cfg: Config, svc: Service, base: AgentService, choice: PortChoice, subsets: seq<Subset>): seq<Registration>
  {
    if svc.externalIPs != [] then ExternalIPInstances(cfg, base, svc.externalIPs)
    else
      match svc.kind
      case LoadBalancer =>
        if cfg.loadBalancerEndpointsSync then FirstSeen(EndpointCandidates(cfg, base, choice, false, subsets))
        else FirstSeen(Candidates(svc.ingress, i => IngressCandidate(cfg, base, i)))
      case NodePort => NodePortInstances(cfg, base, subsets)
      case ClusterIP => FirstSeen(EndpointCandidates(cfg, base, choice, true, subsets))
      case ExternalName => []
  }

  /** The registrations of a service, from scratch. */
  function Generate(cfg: Config, svc: Service, endpoints: Option<Endpoints>): seq<Registration> {
    InstancesFrom(cfg, svc, BaseService(cfg, svc), ChoosePort(cfg, svc),
                  if endpoints.Some? then endpoints.value.subsets else [])
  }

  // ---------------------------------------------------------------------------
  // What names and metadata mean

  /** The second name is the first with a dash and x, and x with a dash comes before the
      second namespace in the first. */
  predicate Shifts(name: string, ns: string, name': string, ns': string) {
    && |name| < |name'| && name'[..|name| + 1] == name + "-"
    && ns == name'[|name| + 1..] + "-" + ns'
  }

  lemma SuffixedNames(name: string, ns: string, name': string, ns': string)
    requires |name| <= |name'|
    ensures name + "-" + ns == name' + "-" + ns' <==> (name == name' && ns == ns') || Shifts(name, ns, name', ns')
  {
    var s, s', n := name + "-" + ns, name' + "-" + ns', |name|;
    assert s[..n + 1] == name + "-" && s[n + 1..] == ns;
    if |name'| == n {
      assert s'[..n + 1] == name' + "-" && s'[n + 1..] == ns';
      assert name == (name + "-")[..n] && name' == (name' + "-")[..n];
    } else {
      assert s'[..n + 1] == name'[..n + 1] && s'[n + 1..] == name'[n + 1..] + "-" + ns';
      assert s == s[..n + 1] + s[n + 1..] && s' == s'[..n + 1] + s'[n + 1..];
    }
  }

  /** Services without a name annotation get the same Consul name exactly when they have
      the same name and, with the namespace suffix, the same namespace; or when the suffix
      runs together with a name that has dashes. */
  lemma NamesCollideExactlyWhen(cfg: Config, a: Service, b: Service)
    requires ANNOTATION_NAME !in a.annotations && ANNOTATION_NAME !in b.annotations
    ensures ServiceName(cfg, a) == ServiceName(cfg, b) <==>
            if cfg.addNamespaceSuffix
            then (a.name == b.name && a.namespace == b.namespace)
                 || Shifts(a.name, a.namespace, b.name, b.namespace) || Shifts(b.name, b.namespace, a.name, a.namespace)
            else a.name == b.name
  {
    PrefixCancels(cfg.prefix, a.name, b.name);
    if cfg.addNamespaceSuffix {
      var x, y := a.name + "-" + a.namespace, b.name + "-" + b.namespace;
      assert ServiceName(cfg, a) == cfg.prefix + x && ServiceName(cfg, b) == cfg.prefix + y;
      PrefixCancels(cfg.prefix, x, y);
      if |a.name| <= |b.name| {
        SuffixedNames(a.name, a.namespace, b.name, b.namespace);
      } else {
        SuffixedNames(b.name, b.namespace, a.name, a.namespace);
      }
    } else {
      assert ServiceName(cfg, a) == cfg.prefix + a.name && ServiceName(cfg, b) == cfg.prefix + b.name;
    }
  }

  /** Service a in namespace b-c and service a-b in namespace c. */
  lemma NamesCollideExample(cfg: Config, svc: Service)
    requires cfg.addNamespaceSuffix && ANNOTATION_NAME !in svc.annotations
    ensures ServiceName(cfg, svc.(name := "a", namespace := "b-c"))
        == ServiceName(cfg, svc.(name := "a-b", namespace := "c"))
  {
    assert "b-c" == "a-b"[2..] + "-" + "c";
    assert Shifts("a", "b-c", "a-b", "c");
    NamesCollideExactlyWhen(cfg, svc.(name := "a", namespace := "b-c"), svc.(name := "a-b", namespace := "c"));
  }

  lemma PrefixCancels(prefix: string, x: string, y: string)
    ensures prefix + x == prefix + y <==> x == y
  {
    assert (prefix + x)[|prefix|..] == x && (prefix + y)[|prefix|..] == y;
  }

  predicate HasPortKey(ports: seq<ServicePort>, k: string) {
    exists i :: 0 <= i < |ports| && PortKey(ports[i]) == k
  }

  lemma {:induction false} PortMetaKeys(cfg: Config, ports: seq<ServicePort>, k: string)
    ensures k in PortMeta(cfg, ports) <==> HasPortKey(ports, k)
  {
    if ports != [] {
      var n := |ports| - 1;
      PortMetaKeys(cfg, ports[..n], k);
      assert forall i | 0 <= i < n :: ports[..n][i] == ports[i];
    }
  }

  lemma {:induction false} PortMetaValue(cfg: Config, ports: seq<ServicePort>, i: nat, k: string)
    requires LastWithKey(ports, i, k)
    ensures k in PortMeta(cfg, ports) && PortMeta(cfg, ports)[k] == cfg.formatInt(ports[i].port)
  {
    var n := |ports| - 1;
    if i < n {
      PortMetaValue(cfg, ports[..n], i, k);
    }
  }

  predicate LastWithKey(ports: seq<ServicePort>, i: int, k: string) {
    0 <= i < |ports| && PortKey(ports[i]) == k && forall j | i < j < |ports| :: PortKey(ports[j]) != k
  }

  lemma {:induction false} LastExists(ports: seq<ServicePort>, k: string) returns (i: nat)
    requires HasPortKey(ports, k)
    ensures LastWithKey(ports, i, k)
  {
    var n := |ports| - 1;
    if PortKey(ports[n]) == k {
      i := n;
    } else {
      var j :| 0 <= j < |ports| && PortKey(ports[j]) == k;
      assert ports[..n][j] == ports[j];
      i := LastExists(ports[..n], k);
    }
  }

  /** A metadata key has the value of its annotation; without one, of the last port of that
      name; without such a port, the source and the namespace. */
  lemma MetaMeaning(cfg: Config, svc: Service, k: string)
    ensures ANNOTATION_META_PREFIX + k in svc.annotations ==>
              k in BaseMeta(cfg, svc) && BaseMeta(cfg, svc)[k] == svc.annotations[ANNOTATION_META_PREFIX + k]
    ensures ANNOTATION_META_PREFIX + k !in svc.annotations ==>
              forall i | LastWithKey(svc.ports, i, k) ::
                k in BaseMeta(cfg, svc) && BaseMeta(cfg, svc)[k] == cfg.formatInt(svc.ports[i].port)
    ensures ANNOTATION_META_PREFIX + k !in svc.annotations && !HasPortKey(svc.ports, k) ==>
              && (k in BaseMeta(cfg, svc) <==> k in {SOURCE_KEY, META_NAMESPACE})
              && (k == SOURCE_KEY ==> BaseMeta(cfg, svc)[k] == SOURCE_VALUE)
              && (k == META_NAMESPACE ==> BaseMeta(cfg, svc)[k] == svc.namespace)
    ensures HasPortKey(svc.ports, k) <==> exists i :: LastWithKey(svc.ports, i, k)
  {
    var base := map[SOURCE_KEY := SOURCE_VALUE, META_NAMESPACE := svc.namespace];
    Layers(base, PortMeta(cfg, svc.ports), AnnotationMeta(svc.annotations, ANNOTATION_META_PREFIX), k);
    PortMetaKeys(cfg, svc.ports, k);
    forall i | LastWithKey(svc.ports, i, k)
      ensures k in PortMeta(cfg, svc.ports) && PortMeta(cfg, svc.ports)[k] == cfg.formatInt(svc.ports[i].port)
    {
      PortMetaValue(cfg, svc.ports, i, k);
    }
    if HasPortKey(svc.ports, k) {
      var i := LastExists(svc.ports, k);
    }
  }

  lemma Layers(a: map<string, string>, b: map<string, string>, c: map<string, string>, k: string)
    ensures k in a + b + c <==> k in a || k in b || k in c
    ensures k in c ==> (a + b + c)[k] == c[k]
    ensures k !in c && k in b ==> (a + b + c)[k] == b[k]
    ensures k !in c && k !in b && k in a ==> (a + b + c)[k] == a[k]
  {
  }

  // ---------------------------------------------------------------------------
  // What the generated registrations are

  /** Whether the registrations come from endpoints only. */
  predicate EndpointsOnly(cfg: Config, svc: Service) {
    svc.externalIPs == [] && (UsesEndpoints(cfg, svc) || svc.kind.ExternalName?)
  }

  lemma InstancesWithoutEndpoints(cfg: Config, svc: Service, base: AgentService, choice: PortChoice,
      subsets: seq<Subset>)
    ensures EndpointsOnly(cfg, svc) ==> InstancesFrom(cfg, svc, base, choice, []) == []
    ensures !EndpointsOnly(cfg, svc) ==>
              InstancesFrom(cfg, svc, base, choice, subsets) == InstancesFrom(cfg, svc, base, choice, [])
  {
  }

  /** Registrations that come from endpoints vanish with them; others ignore them. */
  lemma WithoutEndpoints(cfg: Config, svc: Service, endpoints: Option<Endpoints>)
    ensures EndpointsOnly(cfg, svc) ==> Generate(cfg, svc, None) == []
    ensures !EndpointsOnly(cfg, svc) ==> Generate(cfg, svc, endpoints) == Generate(cfg, svc, None)
  {
    InstancesWithoutEndpoints(cfg, svc, BaseService(cfg, svc), ChoosePort(cfg, svc),
                              if endpoints.Some? then endpoints.value.subsets else []);
  }

  /** The positions whose address is new, in order. */
  ghost function NewAt(cs: seq<Candidate>): (at: seq<nat>)
    ensures forall m | 0 <= m < |at| :: at[m] < |cs|
  {
    if cs == [] then []
    else
      var n := |cs| - 1;
      NewAt(cs[..n]) + if SeenBefore(cs[..n], cs[n].addr) then [] else [n]
  }

  ghost predicate IsNew(cs: seq<Candidate>, j: nat)
    requires j < |cs|
  {
    forall i | 0 <= i < j :: cs[i].addr != cs[j].addr
  }

  lemma {:induction false} NewAtMeaning(cs: seq<Candidate>)
    ensures forall m, n | 0 <= m < n < |NewAt(cs)| :: NewAt(cs)[m] < NewAt(cs)[n]
    ensures forall j: nat | j < |cs| :: j in NewAt(cs) <==> IsNew(cs, j)
  {
    if cs != [] {
      var n := |cs| - 1;
      NewAtMeaning(cs[..n]);
      SeenIsNotNew(cs);
      forall j: nat | j < |cs|
        ensures j in NewAt(cs) <==> IsNew(cs, j)
      {
        if j < n {
          NewInPrefix(cs, n, j);
        } else {
          assert j !in NewAt(cs[..n]);
        }
      }
    }
  }

  lemma {:induction false} FirstSeenAt(cs: seq<Candidate>)
    ensures |FirstSeen(cs)| == |NewAt(cs)|
    ensures forall m | 0 <= m < |NewAt(cs)| :: FirstSeen(cs)[m] == cs[NewAt(cs)[m]].reg
  {
    if cs != [] {
      FirstSeenAt(cs[..|cs| - 1]);
    }
  }

  /** Dropping duplicates keeps the order and keeps, for every address that occurs,
      the candidate at its first occurrence and no other. */
  lemma FirstSeenMeaning(cs: seq<Candidate>)
    ensures |FirstSeen(cs)| == |NewAt(cs)|
    ensures forall m | 0 <= m < |NewAt(cs)| :: FirstSeen(cs)[m] == cs[NewAt(cs)[m]].reg
    ensures forall m, n | 0 <= m < n < |NewAt(cs)| :: NewAt(cs)[m] < NewAt(cs)[n]
    ensures forall j: nat | j < |cs| :: j in NewAt(cs) <==> IsNew(cs, j)
  {
    FirstSeenAt(cs);
    NewAtMeaning(cs);
  }

  lemma SeenIsNotNew(cs: seq<Candidate>)
    requires cs != []
    ensures SeenBefore(cs[..|cs| - 1], cs[|cs| - 1].addr) <==> !IsNew(cs, |cs| - 1)
  {
    var n := |cs| - 1;
    if SeenBefore(cs[..n], cs[n].addr) {
      var c :| c in cs[..n] && c.addr == cs[n].addr;
      var i :| 0 <= i < n && cs[i] == c;
      assert !IsNew(cs, n);
    } else {
      forall i | 0 <= i < n
        ensures cs[i].addr != cs[n].addr
      {
        assert cs[i] in cs[..n];
      }
    }
  }

  lemma NewInPrefix(cs: seq<Candidate>, n: nat, j: nat)
    requires j < n <= |cs|
    ensures IsNew(cs, j) <==> IsNew(cs[..n], j)
  {
    assert forall i | 0 <= i <= j :: cs[..n][i] == cs[i];
  }

  /** The candidates are the addresses of the endpoints that are not empty, each with
      the port of its own subset and its own metadata. */
  lemma {:induction false} CandidatesAreEndpoints(
    cfg: Config, base: AgentService, choice: PortChoice, useHostname: bool, subsets: seq<Subset>)
    ensures forall c :: c in EndpointCandidates(cfg, base, choice, useHostname, subsets) <==>
              exists s, a :: s in subsets && a in s.addresses && CandidateOf(cfg, base, choice, useHostname, s, a, c)
  {
    if subsets != [] {
      var n := |subsets| - 1;
      CandidatesAreEndpoints(cfg, base, choice, useHostname, subsets[..n]);
      var last := subsets[n];
      assert subsets == subsets[..n] + [last];
      var f := a => EndpointCandidate(cfg, base, useHostname, EndpointPortOf(choice, last), a);
      CandidatesMembers(last.addresses, f);
      forall c
        ensures c in SubsetCandidates(cfg, base, choice, useHostname, last) <==>
                exists a :: a in last.addresses && CandidateOf(cfg, base, choice, useHostname, last, a, c)
      {
      }
    }
  }

  ghost predicate CandidateOf(
    cfg: Config, base: AgentService, choice: PortChoice, useHostname: bool, s: Subset, a: EndpointAddress, c: Candidate)
  {
    c.addr != "" && c == EndpointCandidate(cfg, base, useHostname, EndpointPortOf(choice, s), a)
  }

  lemma {:induction false} CandidatesMembers<T>(xs: seq<T>, f: T -> Candidate)
    ensures forall c :: c in Candidates(xs, f) <==> c.addr != "" && exists x :: x in xs && c == f(x)
  {
    if xs != [] {
      var n := |xs| - 1;
      CandidatesMembers(xs[..n], f);
      assert xs == xs[..n] + [xs[n]];
    }
  }

  /** A registration copied from the base: same name, namespace and tags, and an ID
      made from the name. */
  ghost predicate FromBase(cfg: Config, base: AgentService, r: Registration) {
    && r.service.tags == base.tags && r.service.name == base.name && r.service.ns == base.ns
    && exists addr :: r.service.id == ServiceId(cfg.sha1, base.name, addr)
  }

  lemma InstanceFromBase(cfg: Config, base: AgentService, port: int, meta: map<string, string>, idAddr: string,
      address: string)
    ensures FromBase(cfg, base, Instance(cfg, base.(port := port, meta := meta), idAddr, address))
  {
    var r := Instance(cfg, base.(port := port, meta := meta), idAddr, address);
    assert r.service.id == ServiceId(cfg.sha1, base.name, idAddr);
  }

  lemma FirstSeenMembers(cs: seq<Candidate>)
    ensures forall r | r in FirstSeen(cs) :: exists c :: c in cs && c.reg == r
  {
    FirstSeenMeaning(cs);
    forall r | r in FirstSeen(cs)
      ensures exists c :: c in cs && c.reg == r
    {
      var m :| 0 <= m < |FirstSeen(cs)| && FirstSeen(cs)[m] == r;
      assert cs[NewAt(cs)[m]] in cs;
    }
  }

  lemma {:induction false} ExternalIPMembers(cfg: Config, base: AgentService, ips: seq<string>)
    ensures forall r | r in ExternalIPInstances(cfg, base, ips) :: FromBase(cfg, base, r)
  {
    if ips != [] {
      var n := |ips| - 1;
      ExternalIPMembers(cfg, base, ips[..n]);
      InstanceFromBase(cfg, base, base.port, base.meta, ips[n], ips[n]);
    }
  }

  lemma {:induction false} NodeMembers(cfg: Config, base: AgentService, addresses: seq<EndpointAddress>)
    ensures forall r | r in NodeInstances(cfg, base, addresses) :: FromBase(cfg, base, r)
  {
    if addresses != [] {
      var n := |addresses| - 1;
      NodeMembers(cfg, base, addresses[..n]);
      forall r | r in NodeInstance(cfg, base, addresses[n])
        ensures FromBase(cfg, base, r)
      {
        InstanceFromBase(cfg, base, base.port, base.meta, addresses[n].ip, r.service.address);
      }
    }
  }

  lemma {:induction false} NodePortMembers(cfg: Config, base: AgentService, subsets: seq<Subset>)
    ensures forall r | r in NodePortInstances(cfg, base, subsets) :: FromBase(cfg, base, r)
  {
    if subsets != [] {
      var n := |subsets| - 1;
      NodePortMembers(cfg, base, subsets[..n]);
      NodeMembers(cfg, base, subsets[n].addresses);
    }
  }

  lemma EndpointMembers(cfg: Config, base: AgentService, choice: PortChoice, useHostname: bool, subsets: seq<Subset>)
    ensures forall r | r in FirstSeen(EndpointCandidates(cfg, base, choice, useHostname, subsets)) ::
        FromBase(cfg, base, r)
  {
    var cs := EndpointCandidates(cfg, base, choice, useHostname, subsets);
    FirstSeenMembers(cs);
    CandidatesAreEndpoints(cfg, base, choice, useHostname, subsets);
    forall c | c in cs
      ensures FromBase(cfg, base, c.reg)
    {
      var s, a :| s in subsets && a in s.addresses && CandidateOf(cfg, base, choice, useHostname, s, a, c);
      InstanceFromBase(cfg, base, EndpointPortOf(choice, s), EndpointMeta(base.meta, a), c.addr, c.addr);
    }
  }

  lemma IngressMembers(cfg: Config, base: AgentService, ingress: seq<Ingress>)
    ensures forall r | r in FirstSeen(Candidates(ingress, i => IngressCandidate(cfg, base, i))) ::
        FromBase(cfg, base, r)
  {
    var f := i => IngressCandidate(cfg, base, i);
    var cs := Candidates(ingress, f);
    FirstSeenMembers(cs);
    CandidatesMembers(ingress, f);
    forall c | c in cs
      ensures FromBase(cfg, base, c.reg)
    {
      InstanceFromBase(cfg, base, base.port, base.meta, c.addr, c.addr);
    }
  }

  lemma InstancesFromBase(cfg: Config, svc: Service, base: AgentService, choice: PortChoice, subsets: seq<Subset>)
    ensures forall r | r in InstancesFrom(cfg, svc, base, choice, subsets) :: FromBase(cfg, base, r)
  {
    if svc.externalIPs != [] {
      ExternalIPMembers(cfg, base, svc.externalIPs);
    } else {
      match svc.kind
      case LoadBalancer =>
        EndpointMembers(cfg, base, choice, false, subsets);
        IngressMembers(cfg, base, svc.ingress);
      case NodePort => NodePortMembers(cfg, base, subsets);
      case ClusterIP => EndpointMembers(cfg, base, choice, true, subsets);
      case ExternalName =>
    }
  }

  /** Every generated registration carries the tag, the service's Consul name and
      namespace, and an ID made from that name. */
  lemma GeneratedFromBase(cfg: Config, svc: Service, endpoints: Option<Endpoints>)
    ensures forall r | r in Generate(cfg, svc, endpoints) ::
              FromBase(cfg, BaseService(cfg, svc), r) && cfg.tag in r.service.tags
  {
    InstancesFromBase(cfg, svc, BaseService(cfg, svc), ChoosePort(cfg, svc),
                      if endpoints.Some? then endpoints.value.subsets else []);
    assert BaseService(cfg, svc).tags[0] == cfg.tag;
  }
}
