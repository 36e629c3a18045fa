/** The code generates the registrations that a service stands for, and no others. */
module GenerateMeaning {
  import opened Common
  import opened Catalog
  import opened ServiceIds
  import opened KubeTypes
  import opened Registrations
  import opened GeneratedInstances

  // ---------------------------------------------------------------------------
  // One instance

  lemma BaseMetaIs(cfg: Config, svc: Service)
    ensures MetaIs(cfg, svc, BaseMeta(cfg, svc))
  {
    forall k
      ensures MetaAt(cfg, svc, BaseMeta(cfg, svc), k)
    {
      MetaMeaning(cfg, svc, k);
    }
  }

  lemma RefKeysDiffer()
    ensures META_REF_NAME != META_REF_KIND && META_REF_NAME != META_NODE_NAME && META_REF_KIND != META_NODE_NAME
  {
    assert META_REF_NAME[17] != META_REF_KIND[17];
  }

  lemma EndpointMetaIs(cfg: Config, svc: Service, a: EndpointAddress)
    ensures OwnMetaIs(cfg, svc, a, EndpointMeta(BaseMeta(cfg, svc), a))
  {
    var meta := BaseMeta(cfg, svc);
    RefKeysDiffer();
    BaseMetaIs(cfg, svc);
    forall k
      ensures OwnMetaAt(cfg, svc, a, EndpointMeta(meta, a), k)
    {
      assert MetaAt(cfg, svc, meta, k);
      OwnMetaFrom(meta, a, k);
    }
  }

  lemma OwnMetaFrom(meta: map<string, string>, a: EndpointAddress, k: string)
    requires META_REF_NAME != META_REF_KIND && META_REF_NAME != META_NODE_NAME && META_REF_KIND != META_NODE_NAME
    ensures var own := EndpointMeta(meta, a);
            if a.nodeName.Some? && k == META_NODE_NAME then k in own && own[k] == a.nodeName.value
            else if a.targetRef.Some? && k == META_REF_NAME then k in own && own[k] == a.targetRef.value.name
            else if a.targetRef.Some? && k == META_REF_KIND then k in own && own[k] == a.targetRef.value.kind
            else (k in own <==> k in meta) && (k in meta ==> own[k] == meta[k])
  {
  }

  /** Name, namespace and tags of the service. */
  ghost predicate SharedFields(cfg: Config, svc: Service, base: AgentService) {
    NameIs(cfg, svc, base.name) && NamespaceIs(cfg, svc, base.ns) && TagsAre(cfg, svc, base.tags)
  }

  lemma NameMeaning(cfg: Config, svc: Service)
    ensures NameIs(cfg, svc, ServiceName(cfg, svc))
  {
    assert cfg.prefix + svc.name + "" == cfg.prefix + svc.name;
    assert cfg.prefix + svc.name + ("-" + svc.namespace) == cfg.prefix + svc.name + "-" + svc.namespace;
  }

  lemma BaseShares(cfg: Config, svc: Service)
    ensures SharedFields(cfg, svc, BaseService(cfg, svc))
  {
    NameMeaning(cfg, svc);
    var tags := ServiceTags(cfg, svc);
    assert tags == [cfg.tag] + tags[1..];
  }

  lemma InstanceOf(cfg: Config, svc: Service, base: AgentService, idAddr: string, address: string)
    requires SharedFields(cfg, svc, base)
    ensures var r := Instance(cfg, base, idAddr, address);
            InstanceIs(cfg, svc, idAddr, address, r) && r.service.port == base.port && r.service.meta == base.meta
  {
  }

  lemma InstanceMeaning(cfg: Config, svc: Service, port: int, meta: map<string, string>, idAddr: string,
                        address: string)
    ensures var r := Instance(cfg, BaseService(cfg, svc).(port := port, meta := meta), idAddr, address);
            InstanceIs(cfg, svc, idAddr, address, r) && r.service.port == port && r.service.meta == meta
  {
    BaseShares(cfg, svc);
    InstanceOf(cfg, svc, BaseService(cfg, svc).(port := port, meta := meta), idAddr, address);
  }

  lemma BaseMeaning(cfg: Config, svc: Service, idAddr: string, address: string)
    ensures var r := Instance(cfg, BaseService(cfg, svc), idAddr, address);
            && InstanceIs(cfg, svc, idAddr, address, r)
            && PortIs(cfg, svc, r.service.port) && MetaIs(cfg, svc, r.service.meta)
  {
    var base := BaseService(cfg, svc);
    BaseShares(cfg, svc);
    InstanceOf(cfg, svc, base, idAddr, address);
    ChooseMeaning(cfg, svc);
    BaseMetaIs(cfg, svc);
  }

  // ---------------------------------------------------------------------------
  // External IPs

  lemma {:induction false} ExternalIPsAt(cfg: Config, base: AgentService, ips: seq<string>)
    ensures |ExternalIPInstances(cfg, base, ips)| == |ips|
    ensures forall i | 0 <= i < |ips| :: ExternalIPInstances(cfg, base, ips)[i] == Instance(cfg, base, ips[i], ips[i])
  {
    if ips != [] {
      ExternalIPsAt(cfg, base, ips[..|ips| - 1]);
    }
  }

  lemma ExternalIPsMeaning(cfg: Config, svc: Service)
    ensures ExternalIPsStand(cfg, svc, ExternalIPInstances(cfg, BaseService(cfg, svc), svc.externalIPs))
  {
    ExternalIPsAt(cfg, BaseService(cfg, svc), svc.externalIPs);
    forall i | 0 <= i < |svc.externalIPs|
      ensures var r := Instance(cfg, BaseService(cfg, svc), svc.externalIPs[i], svc.externalIPs[i]);
              && InstanceIs(cfg, svc, svc.externalIPs[i], svc.externalIPs[i], r)
              && PortIs(cfg, svc, r.service.port) && MetaIs(cfg, svc, r.service.meta)
    {
      BaseMeaning(cfg, svc, svc.externalIPs[i], svc.externalIPs[i]);
    }
  }

  // ---------------------------------------------------------------------------
  // Where candidates come from

  ghost predicate Rising(at: seq<nat>) {
    forall i, j | 0 <= i < j < |at| :: at[i] < at[j]
  }

  /** The candidates come from the elements with an address, in order. */
  ghost predicate ComeFrom<T>(xs: seq<T>, f: T -> Candidate, at: seq<nat>) {
    && |at| == |Candidates(xs, f)| && Rising(at)
    && (forall m | 0 <= m < |at| :: at[m] < |xs| && f(xs[at[m]]).addr != "" && Candidates(xs, f)[m] == f(xs[at[m]]))
    && (forall i: nat | i < |xs| && f(xs[i]).addr != "" :: i in at)
  }

  lemma {:induction false} CandidatesComeFrom<T>(xs: seq<T>, f: T -> Candidate) returns (at: seq<nat>)
    ensures ComeFrom(xs, f, at)
  {
    if xs == [] {
      at := [];
    } else {
      var n := |xs| - 1;
      var init := CandidatesComeFrom(xs[..n], f);
      at := init + if f(xs[n]).addr == "" then [] else [n];
      forall i: nat | i < |xs| && f(xs[i]).addr != ""
        ensures i in at
      {
        if i < n {
          assert xs[..n][i] == xs[i];
        }
      }
    }
  }

  /** The places of one subset at some indices. */
  lemma PlacesAt(n: nat, at: seq<nat>) returns (ps: seq<Place>)
    requires Rising(at)
    ensures |ps| == |at| && Increasing(ps)
    ensures forall m | 0 <= m < |ps| :: ps[m] == Place(n, at[m])
    ensures forall p :: p in ps <==> p.subset == n && p.index in at
  {
    ps := seq(|at|, m requires 0 <= m < |at| => Place(n, at[m]));
    forall p: Place | p.subset == n && p.index in at
      ensures p in ps
    {
      var m :| 0 <= m < |at| && at[m] == p.index;
      assert ps[m] == p;
    }
  }

  ghost predicate AllBefore(ps: seq<Place>, qs: seq<Place>) {
    forall p, q | p in ps && q in qs :: Before(p, q)
  }

  lemma IncreasingConcat(ps: seq<Place>, qs: seq<Place>)
    requires Increasing(ps) && Increasing(qs) && AllBefore(ps, qs)
    ensures Increasing(ps + qs)
  {
    var all := ps + qs;
    forall i, j | 0 <= i < j < |all|
      ensures Before(all[i], all[j])
    {
      if i < |ps| <= j {
        assert all[i] in ps && all[j] in qs;
      }
    }
  }

  /** The address at each place; none where there is no place. */
  type Addressing = Place -> string

  /** The candidates come from the places with an address, in order. */
  ghost predicate Sourced(addr: Addressing, cs: seq<Candidate>, qs: seq<Place>) {
    && |qs| == |cs| && Increasing(qs)
    && (forall m | 0 <= m < |cs| :: cs[m].addr == addr(qs[m]))
    && (forall p :: p in qs <==> addr(p) != "")
  }

  ghost predicate NewPlace(addr: Addressing, p: Place) {
    addr(p) != "" && forall q | Before(q, p) :: addr(q) != addr(p)
  }

  /** A candidate is new exactly when its place is. */
  lemma NewExactlyWhen(addr: Addressing, cs: seq<Candidate>, qs: seq<Place>, m: nat)
    requires Sourced(addr, cs, qs) && m < |cs|
    ensures IsNew(cs, m) <==> NewPlace(addr, qs[m])
  {
    assert qs[m] in qs;
    if IsNew(cs, m) {
      forall q | Before(q, qs[m])
        ensures addr(q) != addr(qs[m])
      {
        if q in qs {
          var l :| 0 <= l < |qs| && qs[l] == q;
          assert l < m;
        }
      }
    } else {
      var l :| 0 <= l < m && cs[l].addr == cs[m].addr;
      assert Before(qs[l], qs[m]);
    }
  }

  lemma Picked(qs: seq<Place>, at: seq<nat>) returns (ps: seq<Place>)
    requires Increasing(qs) && Rising(at) && forall i | 0 <= i < |at| :: at[i] < |qs|
    ensures |ps| == |at| && Increasing(ps)
    ensures forall i | 0 <= i < |ps| :: ps[i] == qs[at[i]]
  {
    ps := seq(|at|, i requires 0 <= i < |at| => qs[at[i]]);
  }

  /** The places that remain when duplicates are dropped. */
  lemma FirstSeenPlaces(addr: Addressing, cs: seq<Candidate>, qs: seq<Place>) returns (ps: seq<Place>)
    requires Sourced(addr, cs, qs)
    ensures |ps| == |FirstSeen(cs)| == |NewAt(cs)| && Increasing(ps)
    ensures forall p :: p in ps <==> NewPlace(addr, p)
    ensures forall i | 0 <= i < |ps| :: ps[i] == qs[NewAt(cs)[i]] && FirstSeen(cs)[i] == cs[NewAt(cs)[i]].reg
  {
    FirstSeenMeaning(cs);
    var at := NewAt(cs);
    ps := Picked(qs, at);
    forall p
      ensures p in ps <==> NewPlace(addr, p)
    {
      if p in ps {
        var i :| 0 <= i < |ps| && ps[i] == p;
        assert at[i] in at;
        NewExactlyWhen(addr, cs, qs, at[i]);
      }
      if NewPlace(addr, p) {
        var m :| 0 <= m < |qs| && qs[m] == p;
        NewExactlyWhen(addr, cs, qs, m);
        var i :| 0 <= i < |at| && at[i] == m;
        assert ps[i] == p;
      }
    }
  }

  // ---------------------------------------------------------------------------
  // Ingress

  function IngressAddrs(ingresses: seq<Ingress>): Addressing {
    p => IngressAddr(ingresses, p)
  }

  function IngressAddr(ingresses: seq<Ingress>, p: Place): string {
    if p.subset == 0 && p.index < |ingresses| then
      if ingresses[p.index].ip == "" then ingresses[p.index].hostname else ingresses[p.index].ip
    else ""
  }

  function IngressCandidates(cfg: Config, base: AgentService, ingresses: seq<Ingress>): seq<Candidate> {
    Candidates(ingresses, i => IngressCandidate(cfg, base, i))
  }

  lemma IngressSourced(cfg: Config, base: AgentService, ingresses: seq<Ingress>) returns (qs: seq<Place>)
    ensures Sourced(IngressAddrs(ingresses), IngressCandidates(cfg, base, ingresses), qs)
    ensures forall m | 0 <= m < |qs| ::
              && qs[m].subset == 0 && qs[m].index < |ingresses|
              && IngressCandidates(cfg, base, ingresses)[m] == IngressCandidate(cfg, base, ingresses[qs[m].index])
  {
    var at := CandidatesComeFrom(ingresses, i => IngressCandidate(cfg, base, i));
    qs := PlacesAt(0, at);
  }

  lemma IngressPlace(ingresses: seq<Ingress>, p: Place)
    ensures NewPlace(IngressAddrs(ingresses), p) <==>
            p.subset == 0 && exists addr :: FirstIngress(ingresses, p.index, addr)
    ensures NewPlace(IngressAddrs(ingresses), p) ==> FirstIngress(ingresses, p.index, IngressAddr(ingresses, p))
  {
    var a := IngressAddrs(ingresses);
    if NewPlace(a, p) {
      forall j | 0 <= j < p.index
        ensures !IngressAddress(ingresses[j], a(p))
      {
        assert Before(Place(0, j), p);
        assert a(Place(0, j)) != a(p);
      }
      assert FirstIngress(ingresses, p.index, a(p));
    }
    if p.subset == 0 && exists addr :: FirstIngress(ingresses, p.index, addr) {
      var addr :| FirstIngress(ingresses, p.index, addr);
      assert a(p) == addr;
      forall q | Before(q, p)
        ensures a(q) != a(p)
      {
        assert q.subset == 0 && q.index < p.index;
        assert !IngressAddress(ingresses[q.index], addr);
      }
    }
  }

  lemma IngressInstanceAt(cfg: Config, svc: Service, p: Place)
    requires p.index < |svc.ingress| && NewPlace(IngressAddrs(svc.ingress), p)
    ensures IngressInstance(cfg, svc, p, IngressCandidate(cfg, BaseService(cfg, svc), svc.ingress[p.index]).reg)
  {
    var addr := IngressAddr(svc.ingress, p);
    IngressPlace(svc.ingress, p);
    BaseMeaning(cfg, svc, addr, addr);
  }

  lemma IngressMeaning(cfg: Config, svc: Service) returns (ps: seq<Place>)
    ensures IngressStand(cfg, svc, FirstSeen(IngressCandidates(cfg, BaseService(cfg, svc), svc.ingress)), ps)
  {
    var base := BaseService(cfg, svc);
    var cs := IngressCandidates(cfg, base, svc.ingress);
    var qs := IngressSourced(cfg, base, svc.ingress);
    ps := FirstSeenPlaces(IngressAddrs(svc.ingress), cs, qs);
    forall i | 0 <= i < |ps|
      ensures IngressInstance(cfg, svc, ps[i], FirstSeen(cs)[i])
    {
      assert ps[i] in ps;
      IngressInstanceAt(cfg, svc, ps[i]);
    }
    forall p
      ensures p in ps <==> p.subset == 0 && exists addr :: FirstIngress(svc.ingress, p.index, addr)
    {
      IngressPlace(svc.ingress, p);
    }
  }

  // ---------------------------------------------------------------------------
  // Endpoints

  function EndpointAddr(subsets: seq<Subset>, useHostname: bool, p: Place): string {
    if !IsPlace(subsets, p) then ""
    else
      var a := EndpointAt(subsets, p);
      if a.ip == "" && useHostname then a.hostname else a.ip
  }

  /** The candidate at a place. */
  function CandidateAt(cfg: Config, base: AgentService, choice: PortChoice, useHostname: bool, subsets: seq<Subset>,
                       p: Place): Candidate
    requires IsPlace(subsets, p)
  {
    EndpointCandidate(cfg, base, useHostname, EndpointPortOf(choice, subsets[p.subset]), EndpointAt(subsets, p))
  }

  function EndpointAddrs(subsets: seq<Subset>, useHostname: bool): Addressing {
    p => EndpointAddr(subsets, useHostname, p)
  }

  /** The candidates of some subsets come from their places. */
  ghost predicate EndpointsFrom(cfg: Config, base: AgentService, choice: PortChoice, useHostname: bool,
                                subsets: seq<Subset>, cs: seq<Candidate>, qs: seq<Place>)
  {
    && |qs| == |cs| && Increasing(qs)
    && (forall m | 0 <= m < |cs| ::
          IsPlace(subsets, qs[m]) && cs[m] == CandidateAt(cfg, base, choice, useHostname, subsets, qs[m]))
  }

  lemma {:induction false} EndpointsComeFrom(cfg: Config, base: AgentService, choice: PortChoice, useHostname: bool,
                                             subsets: seq<Subset>) returns (qs: seq<Place>)
    ensures EndpointsFrom(cfg, base, choice, useHostname, subsets,
                          EndpointCandidates(cfg, base, choice, useHostname, subsets), qs)
    ensures forall p :: p in qs <==> EndpointAddr(subsets, useHostname, p) != ""
  {
    if subsets == [] {
      qs := [];
    } else {
      var n := |subsets| - 1;
      var init := EndpointsComeFrom(cfg, base, choice, useHostname, subsets[..n]);
      var last := SubsetComesFrom(cfg, base, choice, useHostname, subsets, n);
      qs := init + last;
      EarlierPlaces(subsets, useHostname, init);
      EndpointsSnoc(cfg, base, choice, useHostname, subsets, init, last);
    }
  }

  lemma SubsetComesFrom(cfg: Config, base: AgentService, choice: PortChoice, useHostname: bool, subsets: seq<Subset>,
                        n: nat) returns (last: seq<Place>)
    requires n < |subsets|
    ensures EndpointsFrom(cfg, base, choice, useHostname, subsets,
                          SubsetCandidates(cfg, base, choice, useHostname, subsets[n]), last)
    ensures forall p :: p in last <==> p.subset == n && EndpointAddr(subsets, useHostname, p) != ""
  {
    var port := EndpointPortOf(choice, subsets[n]);
    var at := CandidatesComeFrom(subsets[n].addresses, a => EndpointCandidate(cfg, base, useHostname, port, a));
    last := PlacesAt(n, at);
  }

  /** The places of all subsets but the last. */
  lemma EarlierPlaces(subsets: seq<Subset>, useHostname: bool, init: seq<Place>)
    requires subsets != []
    requires forall p :: p in init <==> EndpointAddr(subsets[..|subsets| - 1], useHostname, p) != ""
    ensures forall p :: p in init <==> p.subset < |subsets| - 1 && EndpointAddr(subsets, useHostname, p) != ""
  {
  }

  lemma EndpointsSnoc(cfg: Config, base: AgentService, choice: PortChoice, useHostname: bool, subsets: seq<Subset>,
                      init: seq<Place>, last: seq<Place>)
    requires subsets != []
    requires var n := |subsets| - 1;
             && EndpointsFrom(cfg, base, choice, useHostname, subsets[..n],
                              EndpointCandidates(cfg, base, choice, useHostname, subsets[..n]), init)
             && EndpointsFrom(cfg, base, choice, useHostname, subsets,
                              SubsetCandidates(cfg, base, choice, useHostname, subsets[n]), last)
             && (forall p | p in init :: p.subset < n) && (forall p | p in last :: p.subset == n)
    ensures EndpointsFrom(cfg, base, choice, useHostname, subsets,
                          EndpointCandidates(cfg, base, choice, useHostname, subsets), init + last)
  {
    var n := |subsets| - 1;
    var cs := EndpointCandidates(cfg, base, choice, useHostname, subsets[..n]);
    EarlierFrom(cfg, base, choice, useHostname, subsets, cs, init);
    FromConcat(cfg, base, choice, useHostname, subsets, cs, init,
               SubsetCandidates(cfg, base, choice, useHostname, subsets[n]), last);
  }

  lemma EarlierFrom(cfg: Config, base: AgentService, choice: PortChoice, useHostname: bool, subsets: seq<Subset>,
                    cs: seq<Candidate>, qs: seq<Place>)
    requires subsets != [] && EndpointsFrom(cfg, base, choice, useHostname, subsets[..|subsets| - 1], cs, qs)
    ensures EndpointsFrom(cfg, base, choice, useHostname, subsets, cs, qs)
  {
    forall m | 0 <= m < |qs|
      ensures IsPlace(subsets, qs[m])
      ensures CandidateAt(cfg, base, choice, useHostname, subsets[..|subsets| - 1], qs[m])
           == CandidateAt(cfg, base, choice, useHostname, subsets, qs[m])
    {
      assert IsPlace(subsets[..|subsets| - 1], qs[m]);
    }
  }

  lemma FromConcat(cfg: Config, base: AgentService, choice: PortChoice, useHostname: bool, subsets: seq<Subset>,
                   cs: seq<Candidate>, qs: seq<Place>, cs': seq<Candidate>, qs': seq<Place>)
    requires EndpointsFrom(cfg, base, choice, useHostname, subsets, cs, qs)
    requires EndpointsFrom(cfg, base, choice, useHostname, subsets, cs', qs') && AllBefore(qs, qs')
    ensures EndpointsFrom(cfg, base, choice, useHostname, subsets, cs + cs', qs + qs')
  {
    IncreasingConcat(qs, qs');
  }

  lemma EndpointPlace(subsets: seq<Subset>, useHostname: bool, p: Place)
    ensures NewPlace(EndpointAddrs(subsets, useHostname), p) <==> IsFirstPlace(subsets, useHostname, p)
    ensures NewPlace(EndpointAddrs(subsets, useHostname), p) ==>
              FirstPlace(subsets, useHostname, p, EndpointAddr(subsets, useHostname, p))
  {
    var a := EndpointAddrs(subsets, useHostname);
    if NewPlace(a, p) {
      forall q | IsPlace(subsets, q) && Before(q, p)
        ensures !AddressIs(EndpointAt(subsets, q), useHostname, a(p))
      {
        assert a(q) != a(p);
      }
      assert FirstPlace(subsets, useHostname, p, a(p));
    }
    if IsFirstPlace(subsets, useHostname, p) {
      var addr :| FirstPlace(subsets, useHostname, p, addr);
      assert a(p) == addr;
    }
  }

  lemma CandidateMeaning(cfg: Config, svc: Service, subsets: seq<Subset>, useHostname: bool, p: Place)
    requires FirstPlace(subsets, useHostname, p, EndpointAddr(subsets, useHostname, p))
    ensures var c := CandidateAt(cfg, BaseService(cfg, svc), ChoosePort(cfg, svc), useHostname, subsets, p);
            EndpointInstance(cfg, svc, subsets, useHostname, p, c.reg)
  {
    var a, subset := EndpointAt(subsets, p), subsets[p.subset];
    var addr := EndpointAddr(subsets, useHostname, p);
    SubsetPortMeaning(cfg, svc, subset);
    EndpointMetaIs(cfg, svc, a);
    InstanceMeaning(cfg, svc, EndpointPortOf(ChoosePort(cfg, svc), subset), EndpointMeta(BaseMeta(cfg, svc), a),
                    addr, addr);
  }

  lemma EndpointsMeaning(cfg: Config, svc: Service, subsets: seq<Subset>, useHostname: bool) returns (ps: seq<Place>)
    ensures var cs := EndpointCandidates(cfg, BaseService(cfg, svc), ChoosePort(cfg, svc), useHostname, subsets);
            EndpointsStand(cfg, svc, subsets, useHostname, FirstSeen(cs), ps)
  {
    var cs := EndpointCandidates(cfg, BaseService(cfg, svc), ChoosePort(cfg, svc), useHostname, subsets);
    var qs := EndpointsComeFrom(cfg, BaseService(cfg, svc), ChoosePort(cfg, svc), useHostname, subsets);
    ps := FirstSeenPlaces(EndpointAddrs(subsets, useHostname), cs, qs);
    forall i | 0 <= i < |ps|
      ensures EndpointInstance(cfg, svc, subsets, useHostname, ps[i], FirstSeen(cs)[i])
    {
      assert ps[i] in ps;
      EndpointPlace(subsets, useHostname, ps[i]);
      CandidateMeaning(cfg, svc, subsets, useHostname, ps[i]);
    }
    forall p
      ensures p in ps <==> IsFirstPlace(subsets, useHostname, p)
    {
      EndpointPlace(subsets, useHostname, p);
    }
  }

  // ---------------------------------------------------------------------------
  // Node ports

  lemma FirstOfKindMeaning(addresses: seq<NodeAddress>, kind: NodeAddressType)
    ensures var f := FirstOfKind(addresses, kind);
            if f.Some? then FirstOf(addresses, kind, f.value.address) && !NoneOf(addresses, kind)
            else NoneOf(addresses, kind)
  {
    var p := (a: NodeAddress) => a.kind == kind;
    var f := First(addresses, p);
    if f.Some? {
      var i :| 0 <= i < |addresses| && f.value == addresses[i] && p(addresses[i])
               && forall j | 0 <= j < i :: !p(addresses[j]);
      assert forall j | 0 <= j < i :: addresses[j].kind != kind by {
        assert forall j | 0 <= j < i :: !p(addresses[j]);
      }
      assert FirstOfAt(addresses, kind, i);
    } else {
      assert forall i | 0 <= i < |addresses| :: !p(addresses[i]);
    }
  }

  lemma NodeAddressMeaning(cfg: Config, addresses: seq<NodeAddress>)
    ensures var f := NodeAddressFor(cfg.nodePortSync, addresses);
            if f.Some? then NodeAddressIs(cfg, addresses, f.value.address)
            else forall address :: !NodeAddressIs(cfg, addresses, address)
  {
    FirstOfKindMeaning(addresses, ExternalIP);
    FirstOfKindMeaning(addresses, InternalIP);
  }

  /** An endpoint has an instance exactly when it is on a node with a suitable address. */
  lemma NodeInstanceMeaning(cfg: Config, svc: Service, a: EndpointAddress)
    ensures var rs := NodeInstance(cfg, BaseService(cfg, svc), a);
            if exists address :: OnNode(cfg, a, address) then
              |rs| == 1 && var r := rs[0];
              && OnNode(cfg, a, r.service.address) && InstanceIs(cfg, svc, a.ip, r.service.address, r)
              && PortIs(cfg, svc, r.service.port) && MetaIs(cfg, svc, r.service.meta)
            else rs == []
  {
    if a.nodeName.Some? && cfg.getNode(a.nodeName.value).Some? {
      var addresses := cfg.getNode(a.nodeName.value).value;
      NodeAddressMeaning(cfg, addresses);
      var f := NodeAddressFor(cfg.nodePortSync, addresses);
      if f.Some? {
        assert OnNode(cfg, a, f.value.address);
        BaseMeaning(cfg, svc, a.ip, f.value.address);
      }
    }
  }

  /** The endpoint at a place has an instance. */
  predicate HasInstance(cfg: Config, base: AgentService, subsets: seq<Subset>, p: Place) {
    IsPlace(subsets, p) && NodeInstance(cfg, base, EndpointAt(subsets, p)) != []
  }

  /** The instances come from places, in order. */
  ghost predicate NodesFrom(cfg: Config, base: AgentService, subsets: seq<Subset>, rs: seq<Registration>,
                            ps: seq<Place>)
  {
    && |ps| == |rs| && Increasing(ps)
    && (forall i | 0 <= i < |rs| ::
          IsPlace(subsets, ps[i]) && NodeInstance(cfg, base, EndpointAt(subsets, ps[i])) == [rs[i]])
  }

  lemma NodesConcat(cfg: Config, base: AgentService, subsets: seq<Subset>, rs: seq<Registration>, ps: seq<Place>,
                    rs': seq<Registration>, ps': seq<Place>)
    requires NodesFrom(cfg, base, subsets, rs, ps) && NodesFrom(cfg, base, subsets, rs', ps') && AllBefore(ps, ps')
    ensures NodesFrom(cfg, base, subsets, rs + rs', ps + ps')
  {
    IncreasingConcat(ps, ps');
  }

  lemma AddressFrom(cfg: Config, base: AgentService, subsets: seq<Subset>, p: Place) returns (ps: seq<Place>)
    requires IsPlace(subsets, p)
    ensures NodesFrom(cfg, base, subsets, NodeInstance(cfg, base, EndpointAt(subsets, p)), ps)
    ensures forall q :: q in ps <==> q == p && HasInstance(cfg, base, subsets, p)
  {
    ps := if HasInstance(cfg, base, subsets, p) then [p] else [];
  }

  lemma {:induction false} AddressesFrom(cfg: Config, base: AgentService, subsets: seq<Subset>, n: nat, k: nat)
    returns (ps: seq<Place>)
    requires n < |subsets| && k <= |subsets[n].addresses|
    ensures NodesFrom(cfg, base, subsets, NodeInstances(cfg, base, subsets[n].addresses[..k]), ps)
    ensures forall p :: p in ps <==> p.subset == n && p.index < k && HasInstance(cfg, base, subsets, p)
  {
    if k == 0 {
      ps := [];
    } else {
      var addresses, p := subsets[n].addresses, Place(n, k - 1);
      var init := AddressesFrom(cfg, base, subsets, n, k - 1);
      var last := AddressFrom(cfg, base, subsets, p);
      NodesConcat(cfg, base, subsets, NodeInstances(cfg, base, addresses[..k - 1]), init,
                  NodeInstance(cfg, base, EndpointAt(subsets, p)), last);
      NodeInstancesSnoc(cfg, base, addresses, k);
      ps := init + last;
    }
  }

  lemma NodeInstancesSnoc(cfg: Config, base: AgentService, addresses: seq<EndpointAddress>, k: nat)
    requires 0 < k <= |addresses|
    ensures NodeInstances(cfg, base, addresses[..k])
         == NodeInstances(cfg, base, addresses[..k - 1]) + NodeInstance(cfg, base, addresses[k - 1])
  {
    assert addresses[..k][..k - 1] == addresses[..k - 1];
  }

  lemma NodePortInstancesSnoc(cfg: Config, base: AgentService, subsets: seq<Subset>, n: nat)
    requires 0 < n <= |subsets|
    ensures NodePortInstances(cfg, base, subsets[..n])
         == NodePortInstances(cfg, base, subsets[..n - 1]) + NodeInstances(cfg, base, subsets[n - 1].addresses)
  {
    assert subsets[..n][..n - 1] == subsets[..n - 1];
  }

  lemma {:induction false} SubsetsFrom(cfg: Config, base: AgentService, subsets: seq<Subset>, n: nat)
    returns (ps: seq<Place>)
    requires n <= |subsets|
    ensures NodesFrom(cfg, base, subsets, NodePortInstances(cfg, base, subsets[..n]), ps)
    ensures forall p :: p in ps <==> p.subset < n && HasInstance(cfg, base, subsets, p)
  {
    if n == 0 {
      ps := [];
    } else {
      var addresses := subsets[n - 1].addresses;
      var init := SubsetsFrom(cfg, base, subsets, n - 1);
      var last := AddressesFrom(cfg, base, subsets, n - 1, |addresses|);
      assert addresses[..|addresses|] == addresses;
      NodesConcat(cfg, base, subsets, NodePortInstances(cfg, base, subsets[..n - 1]), init,
                  NodeInstances(cfg, base, addresses), last);
      NodePortInstancesSnoc(cfg, base, subsets, n);
      ps := init + last;
    }
  }

  lemma NodePlaceMeaning(cfg: Config, svc: Service, base: AgentService, subsets: seq<Subset>, p: Place)
    requires IsPlace(subsets, p) && base == BaseService(cfg, svc)
    ensures HasInstance(cfg, base, subsets, p) <==> NodePlace(cfg, subsets, p)
    ensures HasInstance(cfg, base, subsets, p) ==>
              NodePlaceInstance(cfg, svc, subsets, p, NodeInstance(cfg, base, EndpointAt(subsets, p))[0])
  {
    NodeInstanceMeaning(cfg, svc, EndpointAt(subsets, p));
  }

  lemma NodesMeaningFor(cfg: Config, svc: Service, base: AgentService, subsets: seq<Subset>, ps: seq<Place>)
    requires NodesFrom(cfg, base, subsets, NodePortInstances(cfg, base, subsets), ps)
    requires forall p :: p in ps <==> HasInstance(cfg, base, subsets, p)
    requires forall p | IsPlace(subsets, p) ::
               && (HasInstance(cfg, base, subsets, p) <==> NodePlace(cfg, subsets, p))
               && (HasInstance(cfg, base, subsets, p) ==>
                     NodePlaceInstance(cfg, svc, subsets, p, NodeInstance(cfg, base, EndpointAt(subsets, p))[0]))
    ensures NodesStand(cfg, svc, subsets, NodePortInstances(cfg, base, subsets), ps)
  {
  }

  lemma NodesMeaning(cfg: Config, svc: Service, subsets: seq<Subset>) returns (ps: seq<Place>)
    ensures NodesStand(cfg, svc, subsets, NodePortInstances(cfg, BaseService(cfg, svc), subsets), ps)
  {
    var base := BaseService(cfg, svc);
    ps := SubsetsFrom(cfg, base, subsets, |subsets|);
    assert subsets[..|subsets|] == subsets;
    forall p | IsPlace(subsets, p)
      ensures HasInstance(cfg, base, subsets, p) <==> NodePlace(cfg, subsets, p)
      ensures HasInstance(cfg, base, subsets, p) ==>
                NodePlaceInstance(cfg, svc, subsets, p, NodeInstance(cfg, base, EndpointAt(subsets, p))[0])
    {
      NodePlaceMeaning(cfg, svc, base, subsets, p);
    }
    NodesMeaningFor(cfg, svc, base, subsets, ps);
  }

  // ---------------------------------------------------------------------------
  // All kinds

  function SubsetsOf(endpoints: Option<Endpoints>): seq<Subset> {
    if endpoints.Some? then endpoints.value.subsets else []
  }

  lemma GenerateStands(cfg: Config, svc: Service, endpoints: Option<Endpoints>)
    ensures Stands(cfg, svc, SubsetsOf(endpoints), Generate(cfg, svc, endpoints))
  {
    var subsets := SubsetsOf(endpoints);
    if svc.externalIPs != [] {
      ExternalIPsMeaning(cfg, svc);
    } else {
      match svc.kind
      case LoadBalancer =>
        if cfg.loadBalancerEndpointsSync {
          var ps := EndpointsMeaning(cfg, svc, subsets, false);
        } else {
          var ps := IngressMeaning(cfg, svc);
        }
      case NodePort => var ps := NodesMeaning(cfg, svc, subsets);
      case ClusterIP => var ps := EndpointsMeaning(cfg, svc, subsets, true);
      case ExternalName =>
    }
  }

  /** The registrations the code generates are exactly those the service stands for. */
  lemma GeneratesExactly(cfg: Config, svc: Service, endpoints: Option<Endpoints>, rs: seq<Registration>)
    ensures rs == Generate(cfg, svc, endpoints) <==> Stands(cfg, svc, SubsetsOf(endpoints), rs)
  {
    GenerateStands(cfg, svc, endpoints);
    if Stands(cfg, svc, SubsetsOf(endpoints), rs) {
      StandsDetermined(cfg, svc, SubsetsOf(endpoints), rs, Generate(cfg, svc, endpoints));
    }
  }
}
