/** What the service resource keeps, told from the history of events alone. */
module ResourceHistory {
  import opened Common
  import opened Catalog
  import opened KubeTypes
  import opened Registrations
  import opened ResourceState
  import opened GeneratedInstances
  import opened GenerateMeaning

  // ---------------------------------------------------------------------------
  // Which services are synced

  /** The annotation can be read as a boolean. */
  predicate SaysYes(svc: Service) {
    ANNOTATION_SYNC in svc.annotations && svc.annotations[ANNOTATION_SYNC] in {"1", "t", "T", "true", "TRUE", "True"}
  }

  predicate SaysNo(svc: Service) {
    ANNOTATION_SYNC in svc.annotations && svc.annotations[ANNOTATION_SYNC] in {"0", "f", "F", "false", "FALSE", "False"}
  }

  /** The reasons for which a service is not synced. */
  predicate Excluded(cfg: Config, svc: Service) {
    || svc.namespace in cfg.deny
    || !("*" in cfg.allow || svc.namespace in cfg.allow)
    || (svc.kind.ClusterIP? && !cfg.clusterIPSync)
    || SaysNo(svc)
    || (cfg.explicitEnable && !SaysYes(svc))
  }

  lemma YesOrNo(svc: Service)
    ensures !(SaysYes(svc) && SaysNo(svc))
  {
  }

  lemma SyncedExactlyWhen(cfg: Config, svc: Service)
    ensures ShouldSync(cfg, svc) <==> !Excluded(cfg, svc)
  {
    YesOrNo(svc);
  }

  // ---------------------------------------------------------------------------
  // The history of a key

  /** The last that was heard of a service, ignoring objects of unexpected types. */
  function LastService(es: seq<Event>, key: string): Option<Service> {
    if es == [] then None
    else
      var n := |es| - 1;
      if es[n] == DeleteService(key) then None
      else if es[n].UpsertService? && es[n].key == key && es[n].service.Some? then es[n].service
      else LastService(es[..n], key)
  }

  /** Its service if it is to be synced. */
  function Known(cfg: Config, es: seq<Event>, key: string): Option<Service> {
    var svc := LastService(es, key);
    if svc.Some? && !Excluded(cfg, svc.value) then svc else None
  }

  predicate FromEndpoints(cfg: Config, svc: Service) {
    match svc.kind
    case ClusterIP => true
    case NodePort => true
    case LoadBalancer => cfg.loadBalancerEndpointsSync
    case ExternalName => false
  }

  /** The endpoints after an event of their key, the service being known by then or not. */
  function EndpointsAfter(cfg: Config, before: Option<Endpoints>, svc: Option<Service>, e: Event): Option<Endpoints> {
    if svc.None? || e.DeleteEndpoints? then None
    else if !FromEndpoints(cfg, svc.value) then before
    else
      match e
      case UpsertService(_, Some(_), Some(loaded)) => Some(loaded)
      case UpsertEndpoints(_, Some(endpoints)) => Some(endpoints)
      case _ => before
  }

  /** The endpoints last heard of, or loaded, while the service was known and of a kind that
      uses them; forgotten when they are deleted or the service is. */
  function KnownEndpoints(cfg: Config, es: seq<Event>, key: string): Option<Endpoints> {
    if es == [] then None
    else
      var n := |es| - 1;
      var before := KnownEndpoints(cfg, es[..n], key);
      if es[n].key == key then EndpointsAfter(cfg, before, Known(cfg, es, key), es[n]) else before
  }

  /** The service after an event of its key. */
  function ServiceAfter(cfg: Config, known: Option<Service>, e: Event): Option<Service> {
    match e
    case UpsertService(_, Some(svc), _) => if Excluded(cfg, svc) then None else Some(svc)
    case DeleteService(_) => None
    case _ => known
  }

  lemma KnownSnoc(cfg: Config, es: seq<Event>, key: string)
    requires es != []
    ensures var n := |es| - 1;
            Known(cfg, es, key) ==
              if es[n].key == key then ServiceAfter(cfg, Known(cfg, es[..n], key), es[n]) else Known(cfg, es[..n], key)
  {
  }

  lemma OwnUpsert(cfg: Config, s: State, e: Event, s': State)
    requires Step(cfg, s, e, s') && KeyOk(cfg, s, e.key) && e.UpsertService?
    ensures var svc := ServiceAfter(cfg, Get(s.serviceMap, e.key), e);
            && Get(s'.serviceMap, e.key) == svc
            && Get(s'.endpointsMap, e.key) == EndpointsAfter(cfg, Get(s.endpointsMap, e.key), svc, e)
  {
    if e.service.Some? {
      SyncedExactlyWhen(cfg, e.service.value);
    }
  }

  lemma OwnHistory(cfg: Config, s: State, e: Event, s': State)
    requires Step(cfg, s, e, s') && KeyOk(cfg, s, e.key)
    ensures var svc := ServiceAfter(cfg, Get(s.serviceMap, e.key), e);
            && Get(s'.serviceMap, e.key) == svc
            && Get(s'.endpointsMap, e.key) == EndpointsAfter(cfg, Get(s.endpointsMap, e.key), svc, e)
  {
    if e.UpsertService? {
      OwnUpsert(cfg, s, e, s');
    }
  }

  lemma StepHistory(cfg: Config, s: State, e: Event, s': State, es: seq<Event>, key: string)
    requires Step(cfg, s, e, s') && KeyOk(cfg, s, key) && es != [] && es[|es| - 1] == e
    requires Get(s.serviceMap, key) == Known(cfg, es[..|es| - 1], key)
    requires Get(s.endpointsMap, key) == KnownEndpoints(cfg, es[..|es| - 1], key)
    ensures Get(s'.serviceMap, key) == Known(cfg, es, key)
    ensures Get(s'.endpointsMap, key) == KnownEndpoints(cfg, es, key)
  {
    KnownSnoc(cfg, es, key);
    if e.key == key {
      OwnHistory(cfg, s, e, s');
    } else {
      OtherKeys(cfg, s, e, s', key);
    }
  }

  /** In every run the services and endpoints that are kept are those the history tells. */
  lemma {:induction false} KeptFromHistory(cfg: Config, run: seq<State>, es: seq<Event>, i: nat, key: string)
    requires IsRun(cfg, run, es) && i <= |es|
    ensures Get(run[i].serviceMap, key) == Known(cfg, es[..i], key)
    ensures Get(run[i].endpointsMap, key) == KnownEndpoints(cfg, es[..i], key)
  {
    if i > 0 {
      KeptFromHistory(cfg, run, es, i - 1, key);
      ReachableInv(cfg, run, es, i - 1);
      assert KeyOk(cfg, run[i - 1], key);
      assert es[..i][..i - 1] == es[..i - 1];
      StepHistory(cfg, run[i - 1], es[i - 1], run[i], es[..i], key);
    }
  }

  /** None of the three maps ever holds a service that is to be left out: one in a denied
      namespace or outside the allowed ones, a ClusterIP service when these are not synced,
      one whose annotation says no, or one without a yes when that is required. */
  lemma NeverKept(cfg: Config, run: seq<State>, es: seq<Event>, i: nat, key: string)
    requires IsRun(cfg, run, es) && i <= |es|
    requires key in run[i].serviceMap || key in run[i].endpointsMap || key in run[i].consulMap
    ensures key in run[i].serviceMap && !Excluded(cfg, run[i].serviceMap[key])
  {
    ReachableInv(cfg, run, es, i);
    assert KeyOk(cfg, run[i], key);
    SyncedExactlyWhen(cfg, run[i].serviceMap[key]);
  }

  /** A service that was last upserted and is not to be left out is kept as it was. */
  lemma AlwaysKept(cfg: Config, run: seq<State>, es: seq<Event>, i: nat, key: string, svc: Service)
    requires IsRun(cfg, run, es) && i <= |es|
    requires LastService(es[..i], key) == Some(svc) && !Excluded(cfg, svc)
    ensures key in run[i].serviceMap && run[i].serviceMap[key] == svc
  {
    KeptFromHistory(cfg, run, es, i, key);
  }

  /** From the events alone: in every run the registrations kept for a key are those its
      service and endpoints stand for, or none if there is no such service, unless they were
      lost by a deletion of endpoints. */
  lemma RegisteredFromHistory(cfg: Config, run: seq<State>, es: seq<Event>, i: nat, key: string)
    requires IsRun(cfg, run, es) && i <= |es|
    ensures var svc, subsets := Known(cfg, es[..i], key), SubsetsOf(KnownEndpoints(cfg, es[..i], key));
            if svc.None? || Lost(cfg, run, es, i, key) then Entry(run[i].consulMap, key) == []
            else Stands(cfg, svc.value, subsets, Entry(run[i].consulMap, key))
  {
    KeptFromHistory(cfg, run, es, i, key);
    ExactUnlessLost(cfg, run, es, i, key);
    if key in run[i].serviceMap {
      GenerateStands(cfg, run[i].serviceMap[key], Get(run[i].endpointsMap, key));
    }
  }
}
