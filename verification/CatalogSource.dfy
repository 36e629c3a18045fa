/** The source that hands Consul services to the sink, and why the two directions of
    catalog sync do not echo each other. */
module CatalogSource {
  import opened Common
  import opened Catalog
  import opened KubeTypes
  import opened Registrations
  import Resource = ResourceState
  import Sink = SinkState

  /** What Consul lists: every service name with the tags of its instances. */
  type Listing = map<string, seq<string>>

  predicate Kept(listing: Listing, tag: string, name: string) {
    name in listing && tag !in listing[name]
  }

  /** The services handed to the sink: those without the tag, under their prefixed names. */
  ghost predicate Collected(listing: Listing, tag: string, prefix: string, domain: string,
                            services: map<string, string>)
  {
    && (forall s :: s in services <==> exists name :: Kept(listing, tag, name) && s == prefix + name)
    && (forall name | Kept(listing, tag, name) :: services[prefix + name] == name + ".service." + domain)
  }

  lemma SamePrefixedName(prefix: string, a: string, b: string)
    requires prefix + a == prefix + b
    ensures a == b
  {
    assert a == (prefix + a)[|prefix|..] == (prefix + b)[|prefix|..] == b;
  }

  /** The body of the loop of Run. */
  method CollectServices(listing: Listing, tag: string, prefix: string, domain: string)
    returns (services: map<string, string>)
    ensures Collected(listing, tag, prefix, domain, services)
  {
    services := map[];
    var todo := listing.Keys;
    while todo != {}
      invariant todo <= listing.Keys
      invariant forall s :: s in services <==>
          exists name :: Kept(listing, tag, name) && name !in todo && s == prefix + name
      invariant forall name | Kept(listing, tag, name) && name !in todo ::
          services[prefix + name] == name + ".service." + domain
    {
      var name :| name in todo;
      todo := todo - {name};
      var k8s := ContainsString(listing[name], tag);
      if !k8s {
        forall other | prefix + other == prefix + name
          ensures other == name
        {
          SamePrefixedName(prefix, other, name);
        }
        services := services[prefix + name := name + ".service." + domain];
      }
    }
  }

  // ---------------------------------------------------------------------------
  // No echo

  /** The listing tells the truth about the catalog. */
  ghost predicate ListingOf(c: Instances, listing: Listing) {
    && (forall k | k in c :: c[k].name in listing && forall t | t in c[k].tags :: t in listing[c[k].name])
    && (forall name | name in listing :: exists k :: k in c && c[k].name == name)
  }

  /** Listed names stay apart when lower-cased: Consul ignores the case of names. */
  ghost predicate CaseDistinct(lower: string -> string, prefix: string, listing: Listing) {
    forall n, m | n in listing && m in listing && lower(prefix + n) == lower(prefix + m) :: n == m
  }

  /** A name is among the services the sink works on exactly when some listed name without
      the tag has the same lower-case form. */
  lemma SourcedExactlyWhen(lower: string -> string, listing: Listing, tag: string, prefix: string, domain: string,
                           services: map<string, string>, s: Sink.State, s': Sink.State, name: string)
    requires Collected(listing, tag, prefix, domain, services)
    requires Sink.Step(lower, s, Sink.SetServices(services), s')
    ensures lower(prefix + name) in s'.sourceServices <==>
            exists n :: n in listing && tag !in listing[n] && lower(prefix + n) == lower(prefix + name)
  {
    if lower(prefix + name) in s'.sourceServices {
      var m :| m in services && lower(m) == lower(prefix + name);
      var n :| Kept(listing, tag, n) && m == prefix + n;
      assert Kept(listing, tag, n) && lower(prefix + n) == lower(prefix + name);
    }
  }

  /** Where it leads: to the lower-case DNS name of the service. */
  lemma SourcedTo(lower: string -> string, listing: Listing, tag: string, prefix: string, domain: string,
                  services: map<string, string>, s: Sink.State, s': Sink.State, name: string)
    requires Collected(listing, tag, prefix, domain, services) && CaseDistinct(lower, prefix, listing)
    requires Sink.Step(lower, s, Sink.SetServices(services), s')
    requires name in listing && tag !in listing[name]
    ensures lower(prefix + name) in s'.sourceServices
    ensures s'.sourceServices[lower(prefix + name)] == lower(name + ".service." + domain)
  {
    assert Kept(listing, tag, name);
    var k := lower(prefix + name);
    assert k in s'.sourceServices;
    var m :| m in services && lower(m) == k && s'.sourceServices[k] == lower(services[m]);
    var n :| Kept(listing, tag, n) && m == prefix + n;
    assert n == name;
  }

  /** A service of which any instance carries the tag, as every instance the syncer
      registers does, never gets among the services the sink works on. */
  lemma RegisteredNotSourced(lower: string -> string, c: Instances, listing: Listing, tag: string, prefix: string,
                             domain: string, services: map<string, string>, s: Sink.State, s': Sink.State, k: Key)
    requires ListingOf(c, listing) && CaseDistinct(lower, prefix, listing)
    requires Collected(listing, tag, prefix, domain, services)
    requires Sink.Step(lower, s, Sink.SetServices(services), s')
    requires k in c && tag in c[k].tags
    ensures lower(prefix + c[k].name) !in s'.sourceServices
  {
    SourcedExactlyWhen(lower, listing, tag, prefix, domain, services, s, s', c[k].name);
  }

  /** In particular every registration generated for a Kubernetes service. */
  lemma GeneratedNotSourced(lower: string -> string, cfg: Config, svc: Service, endpoints: Option<Endpoints>,
                            r: Registration, c: Instances, listing: Listing, prefix: string, domain: string,
                            services: map<string, string>, s: Sink.State, s': Sink.State, k: Key)
    requires r in Generate(cfg, svc, endpoints) && k in c && c[k] == r.service
    requires ListingOf(c, listing) && CaseDistinct(lower, prefix, listing)
    requires Collected(listing, cfg.tag, prefix, domain, services)
    requires Sink.Step(lower, s, Sink.SetServices(services), s')
    ensures lower(prefix + r.service.name) !in s'.sourceServices
  {
    GeneratedFromBase(cfg, svc, endpoints);
    RegisteredNotSourced(lower, c, listing, cfg.tag, prefix, domain, services, s, s', k);
  }

  /** Services collected from a listing in which the name carries the tag. */
  ghost predicate CollectedTagged(lower: string -> string, tag: string, prefix: string, domain: string, name: string,
                                  services: map<string, string>)
  {
    exists listing :: Collected(listing, tag, prefix, domain, services) && CaseDistinct(lower, prefix, listing)
                      && name in listing && tag in listing[name]
  }

  /** In every run of the sink: a name that is tagged in every listing it is given never
      gets among the services it works on. */
  lemma {:induction false} NeverSourced(lower: string -> string, run: seq<Sink.State>, es: seq<Sink.Event>, i: nat,
                                        tag: string, prefix: string, domain: string, name: string)
    requires Sink.IsRun(lower, run, es) && i <= |es|
    requires forall j | 0 <= j < i && es[j].SetServices? ::
        CollectedTagged(lower, tag, prefix, domain, name, es[j].svcs)
    ensures lower(prefix + name) !in run[i].sourceServices
  {
    if i > 0 {
      NeverSourced(lower, run, es, i - 1, tag, prefix, domain, name);
      if es[i - 1].SetServices? {
        var services := es[i - 1].svcs;
        var listing :| Collected(listing, tag, prefix, domain, services) && CaseDistinct(lower, prefix, listing)
                       && name in listing && tag in listing[name];
        SourcedExactlyWhen(lower, listing, tag, prefix, domain, services, run[i - 1], run[i], name);
      } else {
        SourceKept(lower, run[i - 1], es[i - 1], run[i]);
      }
    }
  }

  lemma SourceKept(lower: string -> string, s: Sink.State, e: Sink.Event, s': Sink.State)
    requires Sink.Step(lower, s, e, s') && !e.SetServices?
    ensures s'.sourceServices == s.sourceServices
  {
  }

  /** Marked as not to be synced to Consul. */
  predicate Marked(svc: Service) {
    ANNOTATION_SYNC in svc.annotations && svc.annotations[ANNOTATION_SYNC] == "false"
  }

  ghost predicate CacheMarked(s: Sink.State) {
    forall n | n in s.serviceMapConsul :: Marked(s.serviceMapConsul[n])
  }

  /** Nobody else unmarks the services labelled as the sink's. */
  predicate KeepsMarks(e: Sink.Event) {
    e.Upsert? && e.raw.Some? && Sink.Labelled(e.raw.value) ==> Marked(e.raw.value)
  }

  lemma SinkStepMarked(lower: string -> string, s: Sink.State, e: Sink.Event, s': Sink.State)
    requires CacheMarked(s) && KeepsMarks(e) && Sink.Step(lower, s, e, s')
    ensures CacheMarked(s')
  {
  }

  lemma ListsMarked(s: Sink.State, create: seq<Service>, update: seq<Service>)
    requires CacheMarked(s) && Sink.CreateList(s, {}, create) && Sink.UpdateList(s, {}, update)
    ensures forall x | x in create || x in update :: Marked(x)
  {
  }

  /** Whatever the sink creates or updates, at any point of any run, is marked. */
  lemma {:induction false} SinkOutputMarked(lower: string -> string, run: seq<Sink.State>, es: seq<Sink.Event>, i: nat,
                                            create: seq<Service>, update: seq<Service>)
    requires Sink.IsRun(lower, run, es) && i <= |es|
    requires forall j | 0 <= j < i :: KeepsMarks(es[j])
    ensures CacheMarked(run[i])
    ensures Sink.CreateList(run[i], {}, create) && Sink.UpdateList(run[i], {}, update) ==>
              forall x | x in create || x in update :: Marked(x)
  {
    if i > 0 {
      SinkOutputMarked(lower, run, es, i - 1, create, update);
      SinkStepMarked(lower, run[i - 1], es[i - 1], run[i]);
    }
  }

  /** In every run no service that is kept, and hence none that is registered, is marked,
      whatever its history. */
  lemma KeptNotMarked(cfg: Config, run: seq<Resource.State>, es: seq<Resource.Event>, i: nat, key: string)
    requires Resource.IsRun(cfg, run, es) && i <= |es|
    ensures key in run[i].consulMap || key in run[i].endpointsMap ==> key in run[i].serviceMap
    ensures key in run[i].serviceMap ==> !Marked(run[i].serviceMap[key])
  {
    Resource.ReachableInv(cfg, run, es, i);
    assert Resource.KeyOk(cfg, run[i], key);
    if key in run[i].serviceMap && Marked(run[i].serviceMap[key]) {
      MarkedNotSynced(cfg, run[i].serviceMap[key]);
    }
  }

  /** The service of the key was marked when it was last upserted. */
  predicate MarkedLast(es: seq<Resource.Event>, key: string) {
    es != [] &&
    var n := |es| - 1;
    if Resource.Upserts(es[n], key) then Marked(es[n].service.value) else MarkedLast(es[..n], key)
  }

  /** In every run a service that was last seen marked, as the sink's own services are, has
      no registrations and is not tracked, even if it was a native one before. */
  lemma {:induction false} MarkedNeverRegistered(
    cfg: Config, run: seq<Resource.State>, es: seq<Resource.Event>, i: nat, key: string)
    requires Resource.IsRun(cfg, run, es) && i <= |es|
    requires MarkedLast(es[..i], key)
    ensures key !in run[i].serviceMap && key !in run[i].consulMap && key !in run[i].endpointsMap
  {
    assert es[..i][..i - 1] == es[..i - 1];
    Resource.ReachableInv(cfg, run, es, i - 1);
    assert Resource.KeyOk(cfg, run[i - 1], key);
    if !Resource.Upserts(es[i - 1], key) {
      MarkedNeverRegistered(cfg, run, es, i - 1, key);
    }
    MarkedStep(cfg, run[i - 1], es[i - 1], run[i], key);
  }

  lemma MarkedStep(cfg: Config, s: Resource.State, e: Resource.Event, s': Resource.State, key: string)
    requires Resource.Step(cfg, s, e, s') && Resource.KeyOk(cfg, s, key)
    requires if Resource.Upserts(e, key) then Marked(e.service.value) else key !in s.serviceMap
    ensures key !in s'.serviceMap && key !in s'.consulMap && key !in s'.endpointsMap
  {
    if key != e.key {
      Resource.OtherKeys(cfg, s, e, s', key);
    } else if Resource.Upserts(e, key) {
      MarkedNotSynced(cfg, e.service.value);
    }
  }

  lemma MarkedNotSynced(cfg: Config, svc: Service)
    requires Marked(svc)
    ensures !ShouldSync(cfg, svc)
  {
    assert ParseBool("false") == Some(false);
  }
}
