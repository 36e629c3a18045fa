/** Both directions of catalog sync put together: one Kubernetes cluster, one Consul
    catalog, the service resource with its syncer, and the sink with its source. */
module NoEcho {
  import opened Common
  import opened Catalog
  import opened KubeTypes
  import opened SyncIndex
  import opened Registrations
  import opened CatalogSource
  import Resource = ResourceState
  import Syncer = SyncerState
  import Sink = SinkState
  import Fixpoint = SinkFixpoint
  import EndToEnd
  import Convergence

  /** The tag is shared by both directions. */
  datatype Settings = Settings(cfg: Config, lower: string -> string, prefix: string, domain: string, namespace: string)

  function SyncerConfig(o: Settings): Syncer.Config {
    Syncer.Config(o.cfg.enableNamespaces, o.cfg.tag)
  }

  datatype World = World(
    cluster: map<string, Service>,     // by the informers' keys
    resource: Resource.State,
    syncer: Syncer.State,
    sink: Sink.State,
    pending: set<Service>,             // what the sink is about to create or update
    listed: Instances)                 // the catalog when the source listed it last

  datatype Event =
    | UserPut(key: string, svc: Service)
    | UserRemove(key: string)
    | SinkWrite(svc: Service)
    | SinkRemove(name: string)
    | ResourceHears(key: string, loaded: Option<Endpoints>)
    | EndpointsHeard(endpoints: Resource.Event)
    | SinkHears(key: string)
    | SinkLoop(loop: Sink.Event, create: seq<Service>, update: seq<Service>)
    | SyncerStep(step: Syncer.Event)
    | List(listing: Listing, services: map<string, string>)

  /** What an informer says of a key. */
  function ForResource(w: World, key: string, loaded: Option<Endpoints>): Resource.Event {
    if key in w.cluster then Resource.UpsertService(key, Some(w.cluster[key]), loaded) else Resource.DeleteService(key)
  }

  function ForSink(w: World, key: string): Sink.Event {
    if key in w.cluster then Sink.Upsert(key, Some(w.cluster[key])) else Sink.Delete(key)
  }

  ghost predicate Step(o: Settings, w: World, e: Event, w': World) {
    match e
    case UserPut(key, svc) =>
      // Users keep off the services labelled as the sink's.
      && !Sink.Labelled(svc) && (key in w.cluster ==> !Sink.Labelled(w.cluster[key]))
      && w' == w.(cluster := w.cluster[key := svc])
    case UserRemove(key) => w' == w.(cluster := w.cluster - {key})
    case SinkWrite(svc) =>
      && svc in w.pending
      && w' == w.(cluster := w.cluster[Fixpoint.KeyFor(o.namespace, svc.name) := svc.(namespace := o.namespace)])
    case SinkRemove(name) => w' == w.(cluster := w.cluster - {Fixpoint.KeyFor(o.namespace, name)})
    case ResourceHears(key, loaded) =>
      Resource.Step(o.cfg, w.resource, ForResource(w, key, loaded), w'.resource) && w' == w.(resource := w'.resource)
    case EndpointsHeard(event) =>
      && (event.UpsertEndpoints? || event.DeleteEndpoints?)
      && Resource.Step(o.cfg, w.resource, event, w'.resource) && w' == w.(resource := w'.resource)
    case SinkHears(key) =>
      Sink.Step(o.lower, w.sink, ForSink(w, key), w'.sink) && w' == w.(sink := w'.sink)
    case SinkLoop(loop, create, update) =>
      && (loop.Start? || loop.Receive? || loop.Coalesce? || loop.Evaluate? || loop.Finish?)
      && Sink.Step(o.lower, w.sink, loop, w'.sink)
      && (loop.Evaluate? ==> Sink.CreateList(w.sink, {}, create) && Sink.UpdateList(w.sink, {}, update))
      && w' == w.(sink := w'.sink, pending := if loop.Evaluate? then set x | x in create + update else w.pending)
    case SyncerStep(step) =>
      && (step.Sync? ==> step.rs == w.resource.synced)
      && Syncer.Step(SyncerConfig(o), w.syncer, step, w'.syncer) && w' == w.(syncer := w'.syncer)
    case List(listing, services) =>
      && ListingOf(w.syncer.catalog, listing) && CaseDistinct(o.lower, o.prefix, listing)
      && Collected(listing, o.cfg.tag, o.prefix, o.domain, services)
      && Sink.Step(o.lower, w.sink, Sink.SetServices(services), w'.sink)
      && w' == w.(sink := w'.sink, listed := w.syncer.catalog)
  }

  /** Any catalog, and any cluster without services labelled as the sink's. */
  ghost predicate Init(w: World) {
    && (forall key | key in w.cluster :: !Sink.Labelled(w.cluster[key]))
    && w.resource == Resource.INIT && w.syncer == Syncer.Init(w.syncer.catalog) && w.sink == Sink.INIT
    && w.pending == {} && w.listed == map[]
  }

  // ---------------------------------------------------------------------------
  // The invariant

  /** The sink's services are marked wherever they are. */
  ghost predicate SinkMarked(w: World) {
    && (forall key | key in w.cluster && Sink.Labelled(w.cluster[key]) :: Marked(w.cluster[key]))
    && CacheMarked(w.sink)
    && (forall x | x in w.pending :: Marked(x))
  }

  /** None of the sink's services is kept, let alone registered. */
  ghost predicate NotBack(o: Settings, w: World) {
    && Resource.Inv(o.cfg, w.resource)
    && (forall key | key in w.resource.serviceMap :: !Sink.Labelled(w.resource.serviceMap[key]))
  }

  /** No service that was tagged when the source last listed the catalog is one the sink
      works on. */
  ghost predicate NotForth(o: Settings, w: World) {
    forall k | k in w.listed && o.cfg.tag in w.listed[k].tags ::
      o.lower(o.prefix + w.listed[k].name) !in w.sink.sourceServices
  }

  /** Everything the syncer is to register carries the tag. */
  ghost predicate RegistersTagged(o: Settings, w: World) {
    Convergence.DesiredTagged(SyncerConfig(o), w.syncer)
  }

  ghost predicate Inv(o: Settings, w: World) {
    SinkMarked(w) && NotBack(o, w) && NotForth(o, w) && RegistersTagged(o, w)
  }

  lemma SinkMarkedKept(o: Settings, w: World, e: Event, w': World)
    requires SinkMarked(w) && Step(o, w, e, w')
    ensures SinkMarked(w')
  {
    match e
    case UserPut(_, _) =>
    case UserRemove(_) =>
    case SinkWrite(_) =>
    case SinkRemove(_) =>
    case ResourceHears(_, _) =>
    case EndpointsHeard(_) =>
    case SinkHears(key) => SinkStepMarked(o.lower, w.sink, ForSink(w, key), w'.sink);
    case SinkLoop(loop, create, update) => SinkLoopMarked(o, w, loop, create, update, w');
    case SyncerStep(_) =>
    case List(_, services) => SinkStepMarked(o.lower, w.sink, Sink.SetServices(services), w'.sink);
  }

  lemma SinkLoopMarked(o: Settings, w: World, loop: Sink.Event, create: seq<Service>, update: seq<Service>, w': World)
    requires SinkMarked(w) && Step(o, w, SinkLoop(loop, create, update), w')
    ensures SinkMarked(w')
  {
    SinkStepMarked(o.lower, w.sink, loop, w'.sink);
    if loop.Evaluate? {
      ListsMarked(w.sink, create, update);
    }
  }

  /** A service of the sink's that the resource hears of is not kept. */
  lemma NotBackKept(o: Settings, w: World, e: Event, w': World)
    requires SinkMarked(w) && NotBack(o, w) && Step(o, w, e, w')
    ensures NotBack(o, w')
  {
    if e.ResourceHears? {
      Resource.StepKeepsInv(o.cfg, w.resource, ForResource(w, e.key, e.loaded), w'.resource);
      HeardNotKept(o, w, e.key, e.loaded, w'.resource);
    } else if e.EndpointsHeard? {
      Resource.StepKeepsInv(o.cfg, w.resource, e.endpoints, w'.resource);
    }
  }

  lemma HeardNotKept(o: Settings, w: World, key: string, loaded: Option<Endpoints>, r': Resource.State)
    requires SinkMarked(w) && NotBack(o, w) && Resource.Step(o.cfg, w.resource, ForResource(w, key, loaded), r')
    ensures forall k | k in r'.serviceMap :: !Sink.Labelled(r'.serviceMap[k])
  {
    if key in w.cluster && Sink.Labelled(w.cluster[key]) {
      MarkedNotSynced(o.cfg, w.cluster[key]);
    }
    forall k | k in r'.serviceMap
      ensures !Sink.Labelled(r'.serviceMap[k])
    {
      if k != key {
        Resource.OtherKeys(o.cfg, w.resource, ForResource(w, key, loaded), r', k);
      }
    }
  }

  lemma NotForthKept(o: Settings, w: World, e: Event, w': World)
    requires NotForth(o, w) && Step(o, w, e, w')
    ensures NotForth(o, w')
  {
    if e.List? {
      forall k | k in w'.listed && o.cfg.tag in w'.listed[k].tags
        ensures o.lower(o.prefix + w'.listed[k].name) !in w'.sink.sourceServices
      {
        RegisteredNotSourced(o.lower, w.syncer.catalog, e.listing, o.cfg.tag, o.prefix, o.domain, e.services,
                             w.sink, w'.sink, k);
      }
    } else if e.SinkHears? {
      SourceKept(o.lower, w.sink, ForSink(w, e.key), w'.sink);
    } else if e.SinkLoop? {
      SourceKept(o.lower, w.sink, e.loop, w'.sink);
    }
  }

  lemma RegistersTaggedKept(o: Settings, w: World, e: Event, w': World)
    requires NotBack(o, w) && RegistersTagged(o, w) && Step(o, w, e, w')
    ensures RegistersTagged(o, w')
  {
    if e.SyncerStep? && e.step.Sync? {
      forall k: Key | HasReg(w'.syncer.namespaces, k.ns, k.id)
        ensures o.cfg.tag in w'.syncer.namespaces[k.ns][k.id].service.tags
      {
        DesiredFromList(w.resource.synced, k);
        var r :| r in w.resource.synced && w'.syncer.namespaces[k.ns][k.id] == r;
        var key := EndToEnd.ListedFromService(o.cfg, w.resource, r);
      }
    }
  }

  lemma StepKeepsInv(o: Settings, w: World, e: Event, w': World)
    requires Inv(o, w) && Step(o, w, e, w')
    ensures Inv(o, w')
  {
    SinkMarkedKept(o, w, e, w');
    NotBackKept(o, w, e, w');
    NotForthKept(o, w, e, w');
    RegistersTaggedKept(o, w, e, w');
  }

  // ---------------------------------------------------------------------------
  // Runs

  ghost predicate IsRun(o: Settings, run: seq<World>, es: seq<Event>) {
    && |run| == |es| + 1 && Init(run[0])
    && forall i | 0 <= i < |es| :: Step(o, run[i], es[i], run[i + 1])
  }

  lemma {:induction false} ReachableInv(o: Settings, run: seq<World>, es: seq<Event>, i: nat)
    requires IsRun(o, run, es) && i <= |es|
    ensures Inv(o, run[i])
  {
    if i > 0 {
      ReachableInv(o, run, es, i - 1);
      StepKeepsInv(o, run[i - 1], es[i - 1], run[i]);
    } else {
      assert Resource.Flat(map[]) == multiset{};
    }
  }

  /** No echo, in every run of the two directions together, whatever is heard when and
      whatever fails: no service of the sink's is registered in Consul, and no service that
      carried the tag when the catalog was last listed, as everything the syncer registers
      does, is created or updated in Kubernetes. */
  lemma NeverEchoes(o: Settings, run: seq<World>, es: seq<Event>, i: nat)
    requires IsRun(o, run, es) && i <= |es|
    ensures forall key | key in run[i].resource.consulMap ::
              key in run[i].resource.serviceMap && !Sink.Labelled(run[i].resource.serviceMap[key])
    ensures forall k: Key | HasReg(run[i].syncer.namespaces, k.ns, k.id) ::
              o.cfg.tag in run[i].syncer.namespaces[k.ns][k.id].service.tags
    ensures forall k | k in run[i].listed && o.cfg.tag in run[i].listed[k].tags ::
              var name := o.lower(o.prefix + run[i].listed[k].name);
              !Sink.ToCreate(run[i].sink, name) && !Sink.ToUpdate(run[i].sink, name)
  {
    ReachableInv(o, run, es, i);
    forall key | key in run[i].resource.consulMap
      ensures key in run[i].resource.serviceMap
    {
      assert Resource.KeyOk(o.cfg, run[i].resource, key);
    }
  }
}
