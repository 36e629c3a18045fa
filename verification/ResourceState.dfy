/** The state of the service resource and what each event does to it. The class
    ServiceResource is proved to take these steps. */
module ResourceState {
  import opened Common
  import opened Catalog
  import opened KubeTypes
  import opened Registrations

  datatype State = State(
    serviceMap: map<string, Service>,
    endpointsMap: map<string, Endpoints>,
    consulMap: map<string, seq<Registration>>,
    synced: seq<Registration>)     // the last list given to the Syncer

  /** Informer events. The payload is absent when the object has an unexpected type;
      loaded is the answer to the initial load of the endpoints, absent on error. */
  datatype Event =
    | UpsertService(key: string, service: Option<Service>, loaded: Option<Endpoints>)
    | DeleteService(key: string)
    | UpsertEndpoints(key: string, endpoints: Option<Endpoints>)
    | DeleteEndpoints(key: string)

  function Get<T>(m: map<string, T>, key: string): Option<T> {
    if key in m then Some(m[key]) else None
  }

  /** The registrations kept for a key; a key is present when there are some. */
  function Entry(m: map<string, seq<Registration>>, key: string): seq<Registration> {
    if key in m then m[key] else []
  }

  function With(m: map<string, seq<Registration>>, key: string, rs: seq<Registration>): map<string, seq<Registration>> {
    if rs == [] then m - {key} else m[key := rs]
  }

  /** All kept registrations. */
  ghost function Flat(m: map<string, seq<Registration>>): multiset<Registration> {
    if m == map[] then multiset{} else
      var key :| key in m;
      multiset(m[key]) + Flat(m - {key})
  }

  lemma {:induction false} FlatRemove(m: map<string, seq<Registration>>, key: string)
    requires key in m
    ensures Flat(m) == multiset(m[key]) + Flat(m - {key})
    decreases m.Keys
  {
    var k :| k in m && Flat(m) == multiset(m[k]) + Flat(m - {k});
    if k != key {
      FlatRemove(m - {k}, key);
      FlatRemove(m - {key}, k);
      assert m - {k} - {key} == m - {key} - {k};
    }
  }

  lemma {:induction false} FlatMembers(m: map<string, seq<Registration>>, r: Registration)
    ensures r in Flat(m) <==> exists key :: key in m && r in m[key]
    decreases m.Keys
  {
    if m != map[] {
      var k :| k in m && Flat(m) == multiset(m[k]) + Flat(m - {k});
      FlatMembers(m - {k}, r);
      forall key | key in m && r in m[key]
        ensures r in Flat(m)
      {
        assert key != k ==> key in m - {k} && r in (m - {k})[key];
      }
      if r in Flat(m - {k}) {
        var key :| key in m - {k} && r in (m - {k})[key];
        assert key in m && r in m[key];
      }
    }
  }

  // ---------------------------------------------------------------------------
  // Steps

  /** Registrations of the key generated anew, then synced. */
  ghost predicate Regenerated(cfg: Config, s: State, key: string, s': State)
    requires key in s.serviceMap
  {
    && s'.consulMap == With(s.consulMap, key, Generate(cfg, s.serviceMap[key], Get(s.endpointsMap, key)))
    && multiset(s'.synced) == Flat(s'.consulMap)
    && s' == s.(consulMap := s'.consulMap, synced := s'.synced)
  }

  /** Registrations of the key dropped, and synced if there were any. */
  ghost predicate Dropped(s: State, key: string, s': State) {
    && s'.consulMap == s.consulMap - {key}
    && (if key in s.consulMap then multiset(s'.synced) == Flat(s'.consulMap) else s'.synced == s.synced)
    && s' == s.(consulMap := s'.consulMap, synced := s'.synced)
  }

  ghost predicate Deleted(s: State, key: string, s': State) {
    Dropped(s.(serviceMap := s.serviceMap - {key}, endpointsMap := s.endpointsMap - {key}), key, s')
  }

  predicate Tracked(cfg: Config, s: State, key: string) {
    key in s.serviceMap && UsesEndpoints(cfg, s.serviceMap[key])
  }

  ghost predicate Step(cfg: Config, s: State, e: Event, s': State) {
    match e
    case UpsertService(key, None, _) => s' == s
    case UpsertService(key, Some(svc), loaded) =>
      if !ShouldSync(cfg, svc) then
        if key in s.serviceMap then Deleted(s, key, s') else s' == s
      else
        var known := s.(serviceMap := s.serviceMap[key := svc]);
        Regenerated(cfg,
                    if UsesEndpoints(cfg, svc) && loaded.Some?
                    then known.(endpointsMap := s.endpointsMap[key := loaded.value]) else known,
                    key, s')
    case DeleteService(key) => Deleted(s, key, s')
    case UpsertEndpoints(key, None) => s' == s
    case UpsertEndpoints(key, Some(endpoints)) =>
      if !Tracked(cfg, s, key) then s' == s
      else Regenerated(cfg, s.(endpointsMap := s.endpointsMap[key := endpoints]), key, s')
    case DeleteEndpoints(key) =>
      if key !in s.endpointsMap then s' == s
      else Dropped(s.(endpointsMap := s.endpointsMap - {key}), key, s')
  }

  const INIT := State(map[], map[], map[], [])

  // ---------------------------------------------------------------------------
  // The invariant

  /** What generating from scratch gives for a key now. */
  function Scratch(cfg: Config, s: State, key: string): seq<Registration> {
    if key in s.serviceMap then Generate(cfg, s.serviceMap[key], Get(s.endpointsMap, key)) else []
  }

  /** The kept entry is what generating from scratch gives. */
  predicate Exact(cfg: Config, s: State, key: string) {
    Entry(s.consulMap, key) == Scratch(cfg, s, key)
  }

  /** The one way an entry may be missing although scratch yields registrations. */
  predicate MayBeMissing(cfg: Config, s: State, key: string) {
    key in s.serviceMap && !EndpointsOnly(cfg, s.serviceMap[key]) && key !in s.consulMap
  }

  predicate KeyOk(cfg: Config, s: State, key: string) {
    && (key in s.consulMap ==> key in s.serviceMap && s.consulMap[key] != [])
    && (key in s.endpointsMap ==> key in s.serviceMap)
    && (key in s.serviceMap ==> ShouldSync(cfg, s.serviceMap[key]))
  }

  predicate EntryOk(cfg: Config, s: State, key: string) {
    Exact(cfg, s, key) || MayBeMissing(cfg, s, key)
  }

  ghost predicate Inv(cfg: Config, s: State) {
    && (forall key :: KeyOk(cfg, s, key))
    && (forall key :: EntryOk(cfg, s, key))
    && multiset(s.synced) == Flat(s.consulMap)
  }

  /** The maps hold the same for a key. */
  predicate SameFor(s: State, s': State, key: string) {
    && Get(s'.serviceMap, key) == Get(s.serviceMap, key)
    && Get(s'.endpointsMap, key) == Get(s.endpointsMap, key)
    && Get(s'.consulMap, key) == Get(s.consulMap, key)
  }

  lemma RegeneratedOthers(cfg: Config, s: State, own: string, s': State, key: string)
    requires own in s.serviceMap && Regenerated(cfg, s, own, s') && key != own
    ensures SameFor(s, s', key)
  {
  }

  lemma DroppedOthers(s: State, own: string, s': State, key: string)
    requires Dropped(s, own, s') && key != own
    ensures SameFor(s, s', key)
  {
  }

  lemma UpsertOthers(cfg: Config, s: State, own: string, svc: Service, loaded: Option<Endpoints>, s': State,
      key: string)
    requires Step(cfg, s, UpsertService(own, Some(svc), loaded), s') && key != own
    ensures SameFor(s, s', key)
  {
    var known := s.(serviceMap := s.serviceMap[own := svc]);
    if !ShouldSync(cfg, svc) {
      if own in s.serviceMap {
        DroppedOthers(s.(serviceMap := s.serviceMap - {own}, endpointsMap := s.endpointsMap - {own}), own, s', key);
      }
    } else if UsesEndpoints(cfg, svc) && loaded.Some? {
      RegeneratedOthers(cfg, known.(endpointsMap := s.endpointsMap[own := loaded.value]), own, s', key);
    } else {
      RegeneratedOthers(cfg, known, own, s', key);
    }
  }

  lemma UpsertEndpointsOthers(cfg: Config, s: State, own: string, endpoints: Endpoints, s': State, key: string)
    requires Step(cfg, s, UpsertEndpoints(own, Some(endpoints)), s') && key != own
    ensures SameFor(s, s', key)
  {
    if Tracked(cfg, s, own) {
      RegeneratedOthers(cfg, s.(endpointsMap := s.endpointsMap[own := endpoints]), own, s', key);
    }
  }

  /** An event leaves other keys alone. */
  lemma OtherKeys(cfg: Config, s: State, e: Event, s': State, key: string)
    requires Step(cfg, s, e, s') && key != e.key
    ensures SameFor(s, s', key)
  {
    if e.UpsertService? && e.service.Some? {
      UpsertOthers(cfg, s, e.key, e.service.value, e.loaded, s', key);
    } else if e.UpsertEndpoints? && e.endpoints.Some? {
      UpsertEndpointsOthers(cfg, s, e.key, e.endpoints.value, s', key);
    }
  }

  /** The key of the event, unless it is the deletion of endpoints. */
  lemma OwnKey(cfg: Config, s: State, e: Event, s': State)
    requires Step(cfg, s, e, s') && !e.DeleteEndpoints?
    ensures Exact(cfg, s', e.key) || (s' == s && (Upserts(e, e.key) ==> e.key !in s.serviceMap))
  {
  }

  lemma DeleteEndpointsKey(cfg: Config, s: State, s': State, key: string)
    requires EntryOk(cfg, s, key) && Step(cfg, s, DeleteEndpoints(key), s')
    ensures EntryOk(cfg, s', key)
  {
    if key in s.serviceMap {
      WithoutEndpoints(cfg, s.serviceMap[key], Get(s.endpointsMap, key));
    }
  }

  lemma SyncedKept(cfg: Config, s: State, e: Event, s': State)
    requires multiset(s.synced) == Flat(s.consulMap) && Step(cfg, s, e, s')
    ensures multiset(s'.synced) == Flat(s'.consulMap)
  {
    if e.key !in s.consulMap {
      assert s.consulMap - {e.key} == s.consulMap;
    }
  }

  lemma KeyKept(cfg: Config, s: State, e: Event, s': State, key: string)
    requires KeyOk(cfg, s, key) && Step(cfg, s, e, s')
    ensures KeyOk(cfg, s', key)
  {
    if key != e.key {
      OtherKeys(cfg, s, e, s', key);
    }
  }

  lemma EntryKept(cfg: Config, s: State, e: Event, s': State, key: string)
    requires EntryOk(cfg, s, key) && Step(cfg, s, e, s')
    ensures EntryOk(cfg, s', key)
  {
    if key != e.key {
      OtherKeys(cfg, s, e, s', key);
    } else if e.DeleteEndpoints? {
      DeleteEndpointsKey(cfg, s, s', key);
    } else {
      OwnKey(cfg, s, e, s');
    }
  }

  lemma StepKeepsInv(cfg: Config, s: State, e: Event, s': State)
    requires Inv(cfg, s) && Step(cfg, s, e, s')
    ensures Inv(cfg, s')
  {
    SyncedKept(cfg, s, e, s');
    forall key
      ensures KeyOk(cfg, s', key) && EntryOk(cfg, s', key)
    {
      KeyKept(cfg, s, e, s', key);
      EntryKept(cfg, s, e, s', key);
    }
  }

  /** Deleting endpoints drops the key's entry without generating it again. Starting
      from an exact entry, the new entry is exact too unless the service's
      registrations do not come from its endpoints at all. */
  lemma DeleteEndpointsExactIff(cfg: Config, s: State, s': State, key: string)
    requires KeyOk(cfg, s, key) && Exact(cfg, s, key) && Step(cfg, s, DeleteEndpoints(key), s')
    ensures Exact(cfg, s', key) <==>
            !(key in s.endpointsMap && key in s.consulMap && !EndpointsOnly(cfg, s.serviceMap[key]))
  {
    if key in s.serviceMap {
      WithoutEndpoints(cfg, s.serviceMap[key], Get(s.endpointsMap, key));
    }
  }

  // ---------------------------------------------------------------------------
  // Runs

  ghost predicate IsRun(cfg: Config, run: seq<State>, es: seq<Event>) {
    && |run| == |es| + 1
    && run[0] == INIT
    && forall i | 0 <= i < |es| :: Step(cfg, run[i], es[i], run[i + 1])
  }

  /** Skipped syncs are sound, and the maps agree, in every reachable state: the last
      list given to the Syncer is, as a multiset, everything kept; kept registrations
      and endpoints belong to known services, all of which should be synced; and every
      entry is what generating from scratch gives, or is missing for a service whose
      registrations do not come from endpoints. */
  lemma {:induction false} ReachableInv(cfg: Config, run: seq<State>, es: seq<Event>, i: nat)
    requires IsRun(cfg, run, es) && i <= |es|
    ensures Inv(cfg, run[i])
  {
    if i > 0 {
      ReachableInv(cfg, run, es, i - 1);
      StepKeepsInv(cfg, run[i - 1], es[i - 1], run[i]);
    }
  }

  predicate Upserts(e: Event, key: string) {
    e.UpsertService? && e.key == key && e.service.Some?
  }

  /** The event drops registrations of the key that do not come from its endpoints. */
  predicate Drops(cfg: Config, s: State, e: Event, key: string) {
    && e == DeleteEndpoints(key)
    && key in s.endpointsMap && key in s.consulMap
    && key in s.serviceMap && !EndpointsOnly(cfg, s.serviceMap[key])
  }

  /** The event generates the key's registrations anew or forgets its service. */
  predicate Restores(cfg: Config, s: State, e: Event, key: string) {
    || Upserts(e, key)
    || e == DeleteService(key)
    || (e.UpsertEndpoints? && e.key == key && e.endpoints.Some? && Tracked(cfg, s, key))
  }

  /** Registrations of the key were dropped and nothing has restored them since. */
  ghost predicate Lost(cfg: Config, run: seq<State>, es: seq<Event>, i: nat, key: string)
    requires |run| == |es| + 1 && i <= |es|
  {
    i > 0 &&
    (Drops(cfg, run[i - 1], es[i - 1], key)
        || (Lost(cfg, run, es, i - 1, key) && !Restores(cfg, run[i - 1], es[i - 1], key)))
  }

  /** What is kept when it is lost. */
  predicate Missing(cfg: Config, s: State, key: string) {
    key !in s.consulMap && Scratch(cfg, s, key) != []
  }

  lemma DropsMissing(cfg: Config, s: State, e: Event, s': State, key: string)
    requires KeyOk(cfg, s, key) && EntryOk(cfg, s, key) && Step(cfg, s, e, s') && Drops(cfg, s, e, key)
    ensures Missing(cfg, s', key)
  {
    WithoutEndpoints(cfg, s.serviceMap[key], Get(s.endpointsMap, key));
  }

  lemma StaysMissing(cfg: Config, s: State, e: Event, s': State, key: string)
    requires Missing(cfg, s, key) && key !in s.endpointsMap && Step(cfg, s, e, s') && !Restores(cfg, s, e, key)
    ensures Missing(cfg, s', key) && key !in s'.endpointsMap
  {
    if key != e.key {
      OtherKeys(cfg, s, e, s', key);
    }
  }

  lemma StepKeepsExact(cfg: Config, s: State, e: Event, s': State, key: string)
    requires KeyOk(cfg, s, key) && EntryOk(cfg, s, key) && Step(cfg, s, e, s')
    requires Exact(cfg, s, key) || Restores(cfg, s, e, key)
    requires !Drops(cfg, s, e, key)
    ensures Exact(cfg, s', key)
  {
    if key != e.key {
      OtherKeys(cfg, s, e, s', key);
    } else if e.DeleteEndpoints? {
      DeleteEndpointsExactIff(cfg, s, s', key);
    } else {
      OwnKey(cfg, s, e, s');
    }
  }

  /** Incremental equals from scratch, exactly when nothing was lost: in every run the
      kept entry of a key is what generating from the stored service and endpoints gives,
      absent entries included, unless a deletion of endpoints dropped registrations that
      do not come from endpoints and nothing has restored them since; then it is empty
      although there is something to register. */
  lemma {:induction false} ExactUnlessLost(cfg: Config, run: seq<State>, es: seq<Event>, i: nat, key: string)
    requires IsRun(cfg, run, es) && i <= |es|
    ensures Exact(cfg, run[i], key) <==> !Lost(cfg, run, es, i, key)
    ensures Lost(cfg, run, es, i, key) ==> Missing(cfg, run[i], key) && key !in run[i].endpointsMap
  {
    if i > 0 {
      ReachableInv(cfg, run, es, i - 1);
      assert KeyOk(cfg, run[i - 1], key) && EntryOk(cfg, run[i - 1], key);
      ExactUnlessLost(cfg, run, es, i - 1, key);
      StepExactUnlessLost(cfg, run[i - 1], es[i - 1], run[i], key, Lost(cfg, run, es, i - 1, key));
    }
  }

  lemma StepExactUnlessLost(cfg: Config, s: State, e: Event, s': State, key: string, lost: bool)
    requires KeyOk(cfg, s, key) && EntryOk(cfg, s, key) && Step(cfg, s, e, s')
    requires if lost then Missing(cfg, s, key) && key !in s.endpointsMap else Exact(cfg, s, key)
    ensures if Drops(cfg, s, e, key) || (lost && !Restores(cfg, s, e, key))
            then Missing(cfg, s', key) && key !in s'.endpointsMap else Exact(cfg, s', key)
  {
    if Drops(cfg, s, e, key) {
      DropsMissing(cfg, s, e, s', key);
    } else if lost && !Restores(cfg, s, e, key) {
      StaysMissing(cfg, s, e, s', key);
    } else {
      StepKeepsExact(cfg, s, e, s', key);
    }
  }

  // ---------------------------------------------------------------------------
  // A run that loses registrations

  lemma FlatSingle(key: string, rs: seq<Registration>)
    ensures Flat(map[key := rs]) == multiset(rs)
  {
    FlatRemove(map[key := rs], key);
    assert map[key := rs] - {key} == map[];
  }

  lemma ExternalIPsGenerate(cfg: Config, svc: Service, endpoints: Option<Endpoints>)
    requires svc.externalIPs != []
    ensures Generate(cfg, svc, endpoints) != []
  {
    assert ExternalIPInstances(cfg, BaseService(cfg, svc), svc.externalIPs) != [];
  }

  /** The state with one service and its registrations. */
  ghost function OneService(key: string, svc: Service, endpoints: Endpoints, rs: seq<Registration>): State {
    State(map[key := svc], map[key := endpoints], map[key := rs], rs)
  }

  lemma FirstUpsert(cfg: Config, key: string, svc: Service, endpoints: Endpoints)
    requires ShouldSync(cfg, svc) && UsesEndpoints(cfg, svc) && Generate(cfg, svc, Some(endpoints)) != []
    ensures Step(cfg, INIT, UpsertService(key, Some(svc), Some(endpoints)),
                 OneService(key, svc, endpoints, Generate(cfg, svc, Some(endpoints))))
  {
    FlatSingle(key, Generate(cfg, svc, Some(endpoints)));
  }

  lemma ThenEndpointsDeleted(cfg: Config, key: string, svc: Service, endpoints: Endpoints, rs: seq<Registration>)
    ensures Step(cfg, OneService(key, svc, endpoints, rs), DeleteEndpoints(key),
        State(map[key := svc], map[], map[], []))
  {
    var s := OneService(key, svc, endpoints, rs);
    assert s.consulMap - {key} == map[] && s.endpointsMap - {key} == map[];
  }

  /** Any synced service with external IPs whose endpoints are tracked: it is registered,
      its endpoints are deleted, and from then on its registrations are missing. */
  lemma ExternalIPsLost(cfg: Config, key: string, svc: Service, endpoints: Endpoints)
    returns (run: seq<State>, es: seq<Event>)
    requires ShouldSync(cfg, svc) && UsesEndpoints(cfg, svc) && svc.externalIPs != []
    ensures es == [UpsertService(key, Some(svc), Some(endpoints)), DeleteEndpoints(key)]
    ensures IsRun(cfg, run, es) && Exact(cfg, run[1], key) && !Exact(cfg, run[2], key)
  {
    var rs := Generate(cfg, svc, Some(endpoints));
    var s1, s2 := OneService(key, svc, endpoints, rs), State(map[key := svc], map[], map[], []);
    ExternalIPsGenerate(cfg, svc, Some(endpoints));
    ExternalIPsGenerate(cfg, svc, None);
    FirstUpsert(cfg, key, svc, endpoints);
    ThenEndpointsDeleted(cfg, key, svc, endpoints, rs);
    es := [UpsertService(key, Some(svc), Some(endpoints)), DeleteEndpoints(key)];
    run := [INIT, s1, s2];
    RunOfTwo(cfg, es[0], s1, es[1], s2);
    assert Exact(cfg, s1, key) && !Exact(cfg, s2, key);
  }

  lemma RunOfTwo(cfg: Config, e1: Event, s1: State, e2: Event, s2: State)
    requires Step(cfg, INIT, e1, s1) && Step(cfg, s1, e2, s2)
    ensures IsRun(cfg, [INIT, s1, s2], [e1, e2])
  {
    var run, es := [INIT, s1, s2], [e1, e2];
    forall i | 0 <= i < |es|
      ensures Step(cfg, run[i], es[i], run[i + 1])
    {
      assert i == 0 || i == 1;
    }
  }

  /** For instance a ClusterIP service, under the default settings but for ClusterIP sync. */
  lemma ClusterIPLost(cfg: Config, endpoints: Endpoints) returns (run: seq<State>, es: seq<Event>)
    requires cfg.clusterIPSync && !cfg.explicitEnable && "*" in cfg.allow && "default" !in cfg.deny
    ensures |es| == 2 && IsRun(cfg, run, es) && !Exact(cfg, run[2], "default/web")
  {
    var svc := Service("web", "default", map[], map[], ClusterIP, "", [], ["192.0.2.1"], []);
    run, es := ExternalIPsLost(cfg, "default/web", svc, endpoints);
  }
}
