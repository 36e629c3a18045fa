/** What the registrations of a service say, told from the service, its endpoints and the
    nodes alone: which addresses occur, in which order, and every field of each
    registration. The description determines the registrations. */
module GeneratedInstances {
  import opened Common
  import opened Catalog
  import opened ServiceIds
  import opened KubeTypes
  import opened Registrations

  // ---------------------------------------------------------------------------
  // What all registrations of a service share

  predicate NameIs(cfg: Config, svc: Service, name: string) {
    if ANNOTATION_NAME in svc.annotations then name == cfg.trimSpace(svc.annotations[ANNOTATION_NAME])
    else if cfg.addNamespaceSuffix then name == cfg.prefix + svc.name + "-" + svc.namespace
    else name == cfg.prefix + svc.name
  }

  predicate NamespaceIs(cfg: Config, svc: Service, ns: string) {
    && (!cfg.enableNamespaces ==> ns == "")
    && (cfg.enableNamespaces && cfg.mirroring ==> ns == cfg.mirroringPrefix + svc.namespace)
    && (cfg.enableNamespaces && !cfg.mirroring ==> ns == cfg.destinationNamespace)
  }

  predicate TagsAre(cfg: Config, svc: Service, tags: seq<string>) {
    && tags != [] && tags[0] == cfg.tag
    && tags[1..] == if ANNOTATION_TAGS in svc.annotations then cfg.parseTags(svc.annotations[ANNOTATION_TAGS]) else []
  }

  /** The value of a metadata key. */
  ghost predicate MetaAt(cfg: Config, svc: Service, meta: map<string, string>, k: string) {
    if ANNOTATION_META_PREFIX + k in svc.annotations
    then k in meta && meta[k] == svc.annotations[ANNOTATION_META_PREFIX + k]
    else if HasPortKey(svc.ports, k)
    then exists i :: LastWithKey(svc.ports, i, k) && k == "port-" + svc.ports[i].name
                     && k in meta && meta[k] == cfg.formatInt(svc.ports[i].port)
    else if k == META_NAMESPACE then k in meta && meta[k] == svc.namespace
    else if k == SOURCE_KEY then k in meta && meta[k] == SOURCE_VALUE
    else k !in meta
  }

  ghost predicate MetaIs(cfg: Config, svc: Service, meta: map<string, string>) {
    forall k :: MetaAt(cfg, svc, meta, k)
  }

  /** The fields that do not depend on where the instance comes from, its address and its ID. */
  ghost predicate InstanceIs(cfg: Config, svc: Service, idAddr: string, address: string, r: Registration) {
    && r.node == cfg.nodeName && r.address == "127.0.0.1" && r.skipNodeUpdate
    && r.nodeMeta == map[SOURCE_KEY := SOURCE_VALUE]
    && NameIs(cfg, svc, r.service.name) && NamespaceIs(cfg, svc, r.service.ns) && TagsAre(cfg, svc, r.service.tags)
    && r.service.id == r.service.name + "-" + cfg.sha1(r.service.name + "-" + idAddr)[..12]
    && r.service.address == address
  }

  lemma InstanceDetermined(cfg: Config, svc: Service, idAddr: string, address: string, r: Registration,
                           r': Registration)
    requires InstanceIs(cfg, svc, idAddr, address, r) && InstanceIs(cfg, svc, idAddr, address, r')
    requires r.service.port == r'.service.port && r.service.meta == r'.service.meta
    ensures r == r'
  {
    var t, t' := r.service.tags, r'.service.tags;
    assert t == [t[0]] + t[1..] && t' == [t'[0]] + t'[1..];
  }

  lemma MetaDetermined(cfg: Config, svc: Service, m: map<string, string>, m': map<string, string>)
    requires MetaIs(cfg, svc, m) && MetaIs(cfg, svc, m')
    ensures m == m'
  {
    forall k
      ensures k in m <==> k in m'
      ensures k in m ==> m[k] == m'[k]
    {
      assert MetaAt(cfg, svc, m, k) && MetaAt(cfg, svc, m', k);
    }
  }

  /** Two addresses of one service have different IDs exactly when the digests of name and
      address differ within the first twelve characters. */
  lemma IdsDifferExactlyWhen(sha1: Digest, name: string, addr: string, addr': string)
    ensures ServiceId(sha1, name, addr) != ServiceId(sha1, name, addr') <==>
            sha1(name + "-" + addr)[..12] != sha1(name + "-" + addr')[..12]
  {
    PrefixCancels(name + "-", sha1(name + "-" + addr)[..12], sha1(name + "-" + addr')[..12]);
  }

  // ---------------------------------------------------------------------------
  // Ports

  predicate AskedNumber(cfg: Config, svc: Service, n: int) {
    && svc.ports != [] && n != 0
    && ANNOTATION_PORT in svc.annotations && cfg.parseInt(svc.annotations[ANNOTATION_PORT]) == Some(n)
  }

  predicate AskedName(cfg: Config, svc: Service, name: string) {
    && svc.ports != [] && name != ""
    && ANNOTATION_PORT in svc.annotations && svc.annotations[ANNOTATION_PORT] == name && cfg.parseInt(name).None?
  }

  predicate FirstNamed(ports: seq<ServicePort>, name: string, i: int) {
    0 <= i < |ports| && ports[i].name == name && forall j | 0 <= j < i :: ports[j].name != name
  }

  predicate FirstNodePort(ports: seq<ServicePort>, i: int) {
    0 <= i < |ports| && ports[i].nodePort > 0 && forall j | 0 <= j < i :: ports[j].nodePort <= 0
  }

  /** The port of the first service port of the name, if it is one. */
  ghost predicate NamedIs(svc: Service, name: string, port: int) {
    && port != 0
    && exists i :: FirstNamed(svc.ports, name, i) &&
         port == if svc.kind.NodePort? && svc.ports[i].nodePort > 0 then svc.ports[i].nodePort else svc.ports[i].port
  }

  ghost predicate FallbackIs(svc: Service, port: int) {
    if svc.ports == [] then port == 0
    else if svc.kind.NodePort? then
      (exists i :: FirstNodePort(svc.ports, i) && port == svc.ports[i].nodePort)
      || (port == 0 && forall i | 0 <= i < |svc.ports| :: svc.ports[i].nodePort <= 0)
    else port == svc.ports[0].port
  }

  /** The port of the service: the number asked for, the port of the name asked for, or a
      fallback if nothing is asked for or the name is not found. */
  ghost predicate PortIs(cfg: Config, svc: Service, port: int) {
    if exists n :: AskedNumber(cfg, svc, n) then AskedNumber(cfg, svc, port)
    else if exists name, p :: AskedName(cfg, svc, name) && NamedIs(svc, name, p)
    then exists name :: AskedName(cfg, svc, name) && NamedIs(svc, name, port)
    else FallbackIs(svc, port)
  }

  predicate FirstEndpointPort(ports: seq<EndpointPort>, name: string, i: int) {
    0 <= i < |ports| && ports[i].name == name && forall j | 0 <= j < i :: ports[j].name != name
  }

  /** The port of the instances of a subset. */
  ghost predicate SubsetPortIs(cfg: Config, svc: Service, subset: Subset, port: int) {
    if exists name :: AskedName(cfg, svc, name)
    then exists name :: AskedName(cfg, svc, name) && NamedSubsetPortIs(cfg, svc, subset, name, port)
    else if subset.ports == [] || exists n :: AskedNumber(cfg, svc, n) then PortIs(cfg, svc, port)
    else port == subset.ports[0].port
  }

  ghost predicate NamedSubsetPortIs(cfg: Config, svc: Service, subset: Subset, name: string, port: int) {
    if exists i :: FirstEndpointPort(subset.ports, name, i)
    then exists i :: FirstEndpointPort(subset.ports, name, i) && port == subset.ports[i].port
    else PortIs(cfg, svc, port)
  }

  lemma FirstUnique<T>(xs: seq<T>, p: T -> bool, i: nat, j: nat)
    requires i < |xs| && p(xs[i]) && forall k | 0 <= k < i :: !p(xs[k])
    requires j < |xs| && p(xs[j]) && forall k | 0 <= k < j :: !p(xs[k])
    ensures i == j
  {
  }

  lemma NamedDetermined(svc: Service, name: string, p: int, p': int)
    requires NamedIs(svc, name, p) && NamedIs(svc, name, p')
    ensures p == p'
  {
    var i :| FirstNamed(svc.ports, name, i) && p ==
      if svc.kind.NodePort? && svc.ports[i].nodePort > 0 then svc.ports[i].nodePort else svc.ports[i].port;
    var j :| FirstNamed(svc.ports, name, j) && p' ==
      if svc.kind.NodePort? && svc.ports[j].nodePort > 0 then svc.ports[j].nodePort else svc.ports[j].port;
    FirstUnique(svc.ports, (q: ServicePort) => q.name == name, i, j);
  }

  lemma FallbackDetermined(svc: Service, p: int, p': int)
    requires FallbackIs(svc, p) && FallbackIs(svc, p')
    ensures p == p'
  {
    if svc.ports != [] && svc.kind.NodePort? && exists i :: FirstNodePort(svc.ports, i) {
      var i :| FirstNodePort(svc.ports, i) && p == svc.ports[i].nodePort;
      var j :| FirstNodePort(svc.ports, j) && p' == svc.ports[j].nodePort;
      FirstUnique(svc.ports, (q: ServicePort) => q.nodePort > 0, i, j);
    }
  }

  lemma PortDetermined(cfg: Config, svc: Service, p: int, p': int)
    requires PortIs(cfg, svc, p) && PortIs(cfg, svc, p')
    ensures p == p'
  {
    if exists n :: AskedNumber(cfg, svc, n) {
    } else if exists name, q :: AskedName(cfg, svc, name) && NamedIs(svc, name, q) {
      var name :| AskedName(cfg, svc, name) && NamedIs(svc, name, p);
      NamedDetermined(svc, name, p, p');
    } else {
      FallbackDetermined(svc, p, p');
    }
  }

  lemma SubsetPortDetermined(cfg: Config, svc: Service, subset: Subset, p: int, p': int)
    requires SubsetPortIs(cfg, svc, subset, p) && SubsetPortIs(cfg, svc, subset, p')
    ensures p == p'
  {
    if exists name :: AskedName(cfg, svc, name) {
      var name :| AskedName(cfg, svc, name) && NamedSubsetPortIs(cfg, svc, subset, name, p);
      if exists i :: FirstEndpointPort(subset.ports, name, i) {
        var i :| FirstEndpointPort(subset.ports, name, i) && p == subset.ports[i].port;
        var j :| FirstEndpointPort(subset.ports, name, j) && p' == subset.ports[j].port;
        FirstUnique(subset.ports, (q: EndpointPort) => q.name == name, i, j);
      } else {
        PortDetermined(cfg, svc, p, p');
      }
    } else if subset.ports == [] || exists n :: AskedNumber(cfg, svc, n) {
      PortDetermined(cfg, svc, p, p');
    }
  }

  // ---------------------------------------------------------------------------
  // The port the code chooses

  lemma NamedPortMeaning(svc: Service, name: string)
    ensures NamedPort(svc, name) != 0 ==> NamedIs(svc, name, NamedPort(svc, name))
    ensures NamedPort(svc, name) == 0 ==> forall p :: !NamedIs(svc, name, p)
  {
    var named := (p: ServicePort) => p.name == name;
    var f := First(svc.ports, named);
    if f.Some? {
      var i :| 0 <= i < |svc.ports| && f.value == svc.ports[i] && named(svc.ports[i])
               && forall j | 0 <= j < i :: !named(svc.ports[j]);
      assert forall j | 0 <= j < i :: svc.ports[j].name != name by {
        assert forall j | 0 <= j < i :: !named(svc.ports[j]);
      }
      assert FirstNamed(svc.ports, name, i);
      forall j | FirstNamed(svc.ports, name, j)
        ensures j == i
      {
        FirstUnique(svc.ports, named, i, j);
      }
    } else {
      assert forall i | 0 <= i < |svc.ports| :: !named(svc.ports[i]);
    }
  }

  lemma FallbackPortMeaning(svc: Service)
    requires svc.ports != []
    ensures FallbackIs(svc, FallbackPort(svc))
  {
    if svc.kind.NodePort? {
      var open := (p: ServicePort) => p.nodePort > 0;
      var f := First(svc.ports, open);
      if f.Some? {
        var i :| 0 <= i < |svc.ports| && f.value == svc.ports[i] && open(svc.ports[i])
                 && forall j | 0 <= j < i :: !open(svc.ports[j]);
        assert forall j | 0 <= j < i :: svc.ports[j].nodePort <= 0 by {
          assert forall j | 0 <= j < i :: !open(svc.ports[j]);
        }
        assert FirstNodePort(svc.ports, i);
      } else {
        assert forall i | 0 <= i < |svc.ports| :: !open(svc.ports[i]);
      }
    }
  }

  lemma ChooseMeaning(cfg: Config, svc: Service)
    ensures PortIs(cfg, svc, ChoosePort(cfg, svc).port)
    ensures forall name :: AskedName(cfg, svc, name) <==> name != "" && ChoosePort(cfg, svc).name == name
    ensures (exists n :: AskedNumber(cfg, svc, n)) <==> ChoosePort(cfg, svc).number != 0
    ensures ChoosePort(cfg, svc).name != "" ==> ChoosePort(cfg, svc).number == 0
  {
    if svc.ports != [] {
      FallbackPortMeaning(svc);
      var c := ChoosePort(cfg, svc);
      if c.number != 0 {
        assert AskedNumber(cfg, svc, c.number);
      } else if c.name != "" {
        assert AskedName(cfg, svc, c.name);
        NamedPortMeaning(svc, c.name);
      }
    }
  }

  lemma SubsetPortMeaning(cfg: Config, svc: Service, subset: Subset)
    ensures SubsetPortIs(cfg, svc, subset, EndpointPortOf(ChoosePort(cfg, svc), subset))
  {
    ChooseMeaning(cfg, svc);
    var c := ChoosePort(cfg, svc);
    if c.name != "" {
      var named := (p: EndpointPort) => p.name == c.name;
      var f := First(subset.ports, named);
      assert AskedName(cfg, svc, c.name);
      if f.Some? {
        var i :| 0 <= i < |subset.ports| && f.value == subset.ports[i] && named(subset.ports[i])
                 && forall j | 0 <= j < i :: !named(subset.ports[j]);
        assert forall j | 0 <= j < i :: subset.ports[j].name != c.name by {
          assert forall j | 0 <= j < i :: !named(subset.ports[j]);
        }
        assert FirstEndpointPort(subset.ports, c.name, i);
      } else {
        assert forall i | 0 <= i < |subset.ports| :: !named(subset.ports[i]);
      }
      assert NamedSubsetPortIs(cfg, svc, subset, c.name, EndpointPortOf(c, subset));
    }
  }

  // ---------------------------------------------------------------------------
  // Places

  /** An address of a subset. */
  datatype Place = Place(subset: nat, index: nat)

  predicate IsPlace(subsets: seq<Subset>, p: Place) {
    p.subset < |subsets| && p.index < |subsets[p.subset].addresses|
  }

  function EndpointAt(subsets: seq<Subset>, p: Place): EndpointAddress
    requires IsPlace(subsets, p)
  {
    subsets[p.subset].addresses[p.index]
  }

  predicate Before(p: Place, q: Place) {
    p.subset < q.subset || (p.subset == q.subset && p.index < q.index)
  }

  ghost predicate Increasing(ps: seq<Place>) {
    forall i, j | 0 <= i < j < |ps| :: Before(ps[i], ps[j])
  }

  /** An increasing list is determined by its members. */
  lemma {:induction false} IncreasingUnique(ps: seq<Place>, qs: seq<Place>)
    requires Increasing(ps) && Increasing(qs) && forall p :: p in ps <==> p in qs
    ensures ps == qs
  {
    BothEmpty(ps, qs);
    if ps != [] {
      assert ps[0] in qs && qs[0] in ps;
      assert ps[0] == qs[0];
      forall p
        ensures p in ps[1..] <==> p in qs[1..]
      {
        TailMembers(ps, p);
        TailMembers(qs, p);
      }
      IncreasingUnique(ps[1..], qs[1..]);
      assert ps == [ps[0]] + ps[1..] && qs == [qs[0]] + qs[1..];
    }
  }

  lemma BothEmpty(ps: seq<Place>, qs: seq<Place>)
    requires forall p :: p in ps <==> p in qs
    ensures ps == [] <==> qs == []
  {
    if ps != [] {
      assert ps[0] in qs;
    }
    if qs != [] {
      assert qs[0] in ps;
    }
  }

  lemma TailMembers(ps: seq<Place>, p: Place)
    requires Increasing(ps) && ps != []
    ensures p in ps[1..] <==> p in ps && p != ps[0]
  {
  }

  // ---------------------------------------------------------------------------
  // Instances of endpoints

  predicate AddressIs(a: EndpointAddress, useHostname: bool, addr: string) {
    addr == if a.ip == "" && useHostname then a.hostname else a.ip
  }

  /** A place whose address is not empty and occurs nowhere before. */
  ghost predicate FirstPlace(subsets: seq<Subset>, useHostname: bool, p: Place, addr: string) {
    && IsPlace(subsets, p) && addr != "" && AddressIs(EndpointAt(subsets, p), useHostname, addr)
    && forall q | IsPlace(subsets, q) && Before(q, p) :: !AddressIs(EndpointAt(subsets, q), useHostname, addr)
  }

  ghost predicate IsFirstPlace(subsets: seq<Subset>, useHostname: bool, p: Place) {
    exists addr :: FirstPlace(subsets, useHostname, p, addr)
  }

  /** The metadata of an endpoint's own instance. */
  ghost predicate OwnMetaAt(cfg: Config, svc: Service, a: EndpointAddress, meta: map<string, string>, k: string) {
    if a.nodeName.Some? && k == META_NODE_NAME then k in meta && meta[k] == a.nodeName.value
    else if a.targetRef.Some? && k == META_REF_NAME then k in meta && meta[k] == a.targetRef.value.name
    else if a.targetRef.Some? && k == META_REF_KIND then k in meta && meta[k] == a.targetRef.value.kind
    else MetaAt(cfg, svc, meta, k)
  }

  ghost predicate OwnMetaIs(cfg: Config, svc: Service, a: EndpointAddress, meta: map<string, string>) {
    forall k :: OwnMetaAt(cfg, svc, a, meta, k)
  }

  /** The instance of a place: the address it has first, the port of its subset and its own
      metadata. */
  ghost predicate EndpointInstance(
    cfg: Config, svc: Service, subsets: seq<Subset>, useHostname: bool, p: Place, r: Registration)
  {
    && FirstPlace(subsets, useHostname, p, r.service.address)
    && InstanceIs(cfg, svc, r.service.address, r.service.address, r)
    && SubsetPortIs(cfg, svc, subsets[p.subset], r.service.port)
    && OwnMetaIs(cfg, svc, EndpointAt(subsets, p), r.service.meta)
  }

  /** One instance for every address that is not empty, in the order of first occurrences. */
  ghost predicate EndpointsStand(
    cfg: Config, svc: Service, subsets: seq<Subset>, useHostname: bool, rs: seq<Registration>, ps: seq<Place>)
  {
    && |ps| == |rs| && Increasing(ps)
    && (forall p :: p in ps <==> IsFirstPlace(subsets, useHostname, p))
    && (forall i | 0 <= i < |rs| :: EndpointInstance(cfg, svc, subsets, useHostname, ps[i], rs[i]))
  }

  lemma OwnMetaDetermined(cfg: Config, svc: Service, a: EndpointAddress, m: map<string, string>,
                          m': map<string, string>)
    requires OwnMetaIs(cfg, svc, a, m) && OwnMetaIs(cfg, svc, a, m')
    ensures m == m'
  {
    forall k
      ensures k in m <==> k in m'
      ensures k in m ==> m[k] == m'[k]
    {
      assert OwnMetaAt(cfg, svc, a, m, k) && OwnMetaAt(cfg, svc, a, m', k);
    }
  }

  lemma EndpointDetermined(cfg: Config, svc: Service, subsets: seq<Subset>, useHostname: bool, p: Place,
                           r: Registration, r': Registration)
    requires EndpointInstance(cfg, svc, subsets, useHostname, p, r)
    requires EndpointInstance(cfg, svc, subsets, useHostname, p, r')
    ensures r == r'
  {
    SubsetPortDetermined(cfg, svc, subsets[p.subset], r.service.port, r'.service.port);
    OwnMetaDetermined(cfg, svc, EndpointAt(subsets, p), r.service.meta, r'.service.meta);
    InstanceDetermined(cfg, svc, r.service.address, r.service.address, r, r');
  }

  lemma EndpointsDetermined(cfg: Config, svc: Service, subsets: seq<Subset>, useHostname: bool,
                            rs: seq<Registration>, ps: seq<Place>, rs': seq<Registration>, ps': seq<Place>)
    requires EndpointsStand(cfg, svc, subsets, useHostname, rs, ps)
    requires EndpointsStand(cfg, svc, subsets, useHostname, rs', ps')
    ensures rs == rs'
  {
    IncreasingUnique(ps, ps');
    forall i | 0 <= i < |rs|
      ensures rs[i] == rs'[i]
    {
      EndpointDetermined(cfg, svc, subsets, useHostname, ps[i], rs[i], rs'[i]);
    }
  }

  // ---------------------------------------------------------------------------
  // Instances of ingresses

  predicate IngressAddress(ingress: Ingress, addr: string) {
    addr == if ingress.ip == "" then ingress.hostname else ingress.ip
  }

  ghost predicate FirstIngress(ingresses: seq<Ingress>, i: nat, addr: string) {
    && i < |ingresses| && addr != "" && IngressAddress(ingresses[i], addr)
    && forall j | 0 <= j < i :: !IngressAddress(ingresses[j], addr)
  }

  ghost predicate IngressInstance(cfg: Config, svc: Service, p: Place, r: Registration) {
    && p.subset == 0 && FirstIngress(svc.ingress, p.index, r.service.address)
    && InstanceIs(cfg, svc, r.service.address, r.service.address, r)
    && PortIs(cfg, svc, r.service.port) && MetaIs(cfg, svc, r.service.meta)
  }

  /** The places of ingresses are those of a single subset. */
  ghost predicate IngressStand(cfg: Config, svc: Service, rs: seq<Registration>, ps: seq<Place>) {
    && |ps| == |rs| && Increasing(ps)
    && (forall p :: p in ps <==> p.subset == 0 && exists addr :: FirstIngress(svc.ingress, p.index, addr))
    && (forall i | 0 <= i < |rs| :: IngressInstance(cfg, svc, ps[i], rs[i]))
  }

  lemma IngressDetermined(cfg: Config, svc: Service, rs: seq<Registration>, ps: seq<Place>,
                          rs': seq<Registration>, ps': seq<Place>)
    requires IngressStand(cfg, svc, rs, ps) && IngressStand(cfg, svc, rs', ps')
    ensures rs == rs'
  {
    IncreasingUnique(ps, ps');
    forall i | 0 <= i < |rs|
      ensures rs[i] == rs'[i]
    {
      assert IngressInstance(cfg, svc, ps[i], rs[i]) && IngressInstance(cfg, svc, ps[i], rs'[i]);
      PortDetermined(cfg, svc, rs[i].service.port, rs'[i].service.port);
      MetaDetermined(cfg, svc, rs[i].service.meta, rs'[i].service.meta);
      InstanceDetermined(cfg, svc, rs[i].service.address, rs[i].service.address, rs[i], rs'[i]);
    }
  }

  // ---------------------------------------------------------------------------
  // Instances of external IPs

  ghost predicate ExternalIPsStand(cfg: Config, svc: Service, rs: seq<Registration>) {
    && |rs| == |svc.externalIPs|
    && forall i | 0 <= i < |rs| ::
         && InstanceIs(cfg, svc, svc.externalIPs[i], svc.externalIPs[i], rs[i])
         && PortIs(cfg, svc, rs[i].service.port) && MetaIs(cfg, svc, rs[i].service.meta)
  }

  lemma ExternalIPsDetermined(cfg: Config, svc: Service, rs: seq<Registration>, rs': seq<Registration>)
    requires ExternalIPsStand(cfg, svc, rs) && ExternalIPsStand(cfg, svc, rs')
    ensures rs == rs'
  {
    forall i | 0 <= i < |rs|
      ensures rs[i] == rs'[i]
    {
      PortDetermined(cfg, svc, rs[i].service.port, rs'[i].service.port);
      MetaDetermined(cfg, svc, rs[i].service.meta, rs'[i].service.meta);
      InstanceDetermined(cfg, svc, svc.externalIPs[i], svc.externalIPs[i], rs[i], rs'[i]);
    }
  }

  // ---------------------------------------------------------------------------
  // Instances of node ports

  ghost predicate FirstOf(addresses: seq<NodeAddress>, kind: NodeAddressType, address: string) {
    exists i :: FirstOfAt(addresses, kind, i) && address == addresses[i].address
  }

  predicate FirstOfAt(addresses: seq<NodeAddress>, kind: NodeAddressType, i: int) {
    0 <= i < |addresses| && addresses[i].kind == kind && forall j | 0 <= j < i :: addresses[j].kind != kind
  }

  predicate NoneOf(addresses: seq<NodeAddress>, kind: NodeAddressType) {
    forall i | 0 <= i < |addresses| :: addresses[i].kind != kind
  }

  /** The address of a node that is registered: the first external one, the first internal
      one, or an internal one for want of an external one, as configured. */
  ghost predicate NodeAddressIs(cfg: Config, addresses: seq<NodeAddress>, address: string) {
    || (!cfg.nodePortSync.InternalOnly? && FirstOf(addresses, ExternalIP, address))
    || (cfg.nodePortSync.InternalOnly? && FirstOf(addresses, InternalIP, address))
    || (cfg.nodePortSync.ExternalFirst? && NoneOf(addresses, ExternalIP) && FirstOf(addresses, InternalIP, address))
  }

  /** The endpoint is on a known node with such an address. */
  ghost predicate OnNode(cfg: Config, a: EndpointAddress, address: string) {
    a.nodeName.Some? && cfg.getNode(a.nodeName.value).Some?
    && NodeAddressIs(cfg, cfg.getNode(a.nodeName.value).value, address)
  }

  ghost predicate NodePlace(cfg: Config, subsets: seq<Subset>, p: Place) {
    IsPlace(subsets, p) && exists address :: OnNode(cfg, EndpointAt(subsets, p), address)
  }

  ghost predicate NodePlaceInstance(cfg: Config, svc: Service, subsets: seq<Subset>, p: Place, r: Registration) {
    && IsPlace(subsets, p) && OnNode(cfg, EndpointAt(subsets, p), r.service.address)
    && InstanceIs(cfg, svc, EndpointAt(subsets, p).ip, r.service.address, r)
    && PortIs(cfg, svc, r.service.port) && MetaIs(cfg, svc, r.service.meta)
  }

  /** One instance for every endpoint on such a node, in order. */
  ghost predicate NodesStand(cfg: Config, svc: Service, subsets: seq<Subset>, rs: seq<Registration>, ps: seq<Place>) {
    && |ps| == |rs| && Increasing(ps)
    && (forall p :: p in ps <==> NodePlace(cfg, subsets, p))
    && (forall i | 0 <= i < |rs| :: NodePlaceInstance(cfg, svc, subsets, ps[i], rs[i]))
  }

  lemma FirstOfDetermined(addresses: seq<NodeAddress>, kind: NodeAddressType, x: string, y: string)
    requires FirstOf(addresses, kind, x) && FirstOf(addresses, kind, y)
    ensures x == y
  {
    var i :| FirstOfAt(addresses, kind, i) && x == addresses[i].address;
    var j :| FirstOfAt(addresses, kind, j) && y == addresses[j].address;
    FirstUnique(addresses, (a: NodeAddress) => a.kind == kind, i, j);
  }

  lemma NodeAddressDetermined(cfg: Config, addresses: seq<NodeAddress>, x: string, y: string)
    requires NodeAddressIs(cfg, addresses, x) && NodeAddressIs(cfg, addresses, y)
    ensures x == y
  {
    if FirstOf(addresses, ExternalIP, x) && FirstOf(addresses, ExternalIP, y) {
      FirstOfDetermined(addresses, ExternalIP, x, y);
    }
    if FirstOf(addresses, InternalIP, x) && FirstOf(addresses, InternalIP, y) {
      FirstOfDetermined(addresses, InternalIP, x, y);
    }
  }

  lemma NodesDetermined(cfg: Config, svc: Service, subsets: seq<Subset>, rs: seq<Registration>, ps: seq<Place>,
                        rs': seq<Registration>, ps': seq<Place>)
    requires NodesStand(cfg, svc, subsets, rs, ps) && NodesStand(cfg, svc, subsets, rs', ps')
    ensures rs == rs'
  {
    IncreasingUnique(ps, ps');
    forall i | 0 <= i < |rs|
      ensures rs[i] == rs'[i]
    {
      NodeInstanceDetermined(cfg, svc, subsets, ps[i], rs[i], rs'[i]);
    }
  }

  lemma NodeInstanceDetermined(cfg: Config, svc: Service, subsets: seq<Subset>, p: Place, r: Registration,
                               r': Registration)
    requires NodePlaceInstance(cfg, svc, subsets, p, r) && NodePlaceInstance(cfg, svc, subsets, p, r')
    ensures r == r'
  {
    var a := EndpointAt(subsets, p);
    NodeAddressDetermined(cfg, cfg.getNode(a.nodeName.value).value, r.service.address, r'.service.address);
    PortDetermined(cfg, svc, r.service.port, r'.service.port);
    MetaDetermined(cfg, svc, r.service.meta, r'.service.meta);
    InstanceDetermined(cfg, svc, a.ip, r.service.address, r, r');
  }

  // ---------------------------------------------------------------------------
  // All kinds

  /** The list of registrations a service with its endpoints stands for. */
  ghost predicate Stands(cfg: Config, svc: Service, subsets: seq<Subset>, rs: seq<Registration>) {
    if svc.externalIPs != [] then ExternalIPsStand(cfg, svc, rs)
    else
      match svc.kind
      case LoadBalancer =>
        if cfg.loadBalancerEndpointsSync then exists ps :: EndpointsStand(cfg, svc, subsets, false, rs, ps)
        else exists ps :: IngressStand(cfg, svc, rs, ps)
      case NodePort => exists ps :: NodesStand(cfg, svc, subsets, rs, ps)
      case ClusterIP => exists ps :: EndpointsStand(cfg, svc, subsets, true, rs, ps)
      case ExternalName => rs == []
  }

  lemma StandsDetermined(cfg: Config, svc: Service, subsets: seq<Subset>, rs: seq<Registration>, rs': seq<Registration>)
    requires Stands(cfg, svc, subsets, rs) && Stands(cfg, svc, subsets, rs')
    ensures rs == rs'
  {
    if svc.externalIPs != [] {
      ExternalIPsDetermined(cfg, svc, rs, rs');
    } else {
      match svc.kind
      case LoadBalancer =>
        if cfg.loadBalancerEndpointsSync {
          var ps :| EndpointsStand(cfg, svc, subsets, false, rs, ps);
          var ps' :| EndpointsStand(cfg, svc, subsets, false, rs', ps');
          EndpointsDetermined(cfg, svc, subsets, false, rs, ps, rs', ps');
        } else {
          var ps :| IngressStand(cfg, svc, rs, ps);
          var ps' :| IngressStand(cfg, svc, rs', ps');
          IngressDetermined(cfg, svc, rs, ps, rs', ps');
        }
      case NodePort =>
        var ps :| NodesStand(cfg, svc, subsets, rs, ps);
        var ps' :| NodesStand(cfg, svc, subsets, rs', ps');
        NodesDetermined(cfg, svc, subsets, rs, ps, rs', ps');
      case ClusterIP =>
        var ps :| EndpointsStand(cfg, svc, subsets, true, rs, ps);
        var ps' :| EndpointsStand(cfg, svc, subsets, true, rs', ps');
        EndpointsDetermined(cfg, svc, subsets, true, rs, ps, rs', ps');
      case ExternalName =>
    }
  }
}
