/** The service resource and the syncer put together: when the syncer has converged,
    the tagged instances in Consul are what the Kubernetes services stand for. */
module EndToEnd {
  import opened Common
  import opened Catalog
  import opened SyncIndex
  import opened KubeTypes
  import opened Registrations
  import Resource = ResourceState
  import Syncer = SyncerState
  import opened Convergence

  /** With Consul namespaces, every service is mapped into a named one. */
  ghost predicate NamespacesNamed(cfg: Config, s: Resource.State) {
    forall key | key in s.serviceMap :: cfg.enableNamespaces ==> BaseService(cfg, s.serviceMap[key]).ns != ""
  }

  lemma ListedFromService(cfg: Config, s: Resource.State, r: Registration) returns (key: string)
    requires Resource.Inv(cfg, s) && r in s.synced
    ensures key in s.serviceMap && key in s.consulMap && r in s.consulMap[key]
    ensures r in Resource.Scratch(cfg, s, key)
    ensures FromBase(cfg, BaseService(cfg, s.serviceMap[key]), r) && cfg.tag in r.service.tags
  {
    assert r in multiset(s.synced);
    Resource.FlatMembers(s.consulMap, r);
    key :| key in s.consulMap && r in s.consulMap[key];
    assert Resource.KeyOk(cfg, s, key) && Resource.EntryOk(cfg, s, key);
    GeneratedFromBase(cfg, s.serviceMap[key], Resource.Get(s.endpointsMap, key));
  }

  /** Every list the resource hands over is one the syncer can work with: tagged, in
      the right kind of namespace, and with IDs that determine names. */
  lemma ListsFit(cfg: Config, s: Resource.State, scfg: Syncer.Config)
    requires Resource.Inv(cfg, s) && NamespacesNamed(cfg, s)
    requires scfg == Syncer.Config(cfg.enableNamespaces, cfg.tag)
    ensures Syncer.NamespacesMatch(scfg, s.synced)
    ensures IdsFromNames(cfg.sha1, s.synced)
    ensures forall r | r in s.synced :: scfg.tag in r.service.tags
  {
    forall r | r in s.synced
      ensures (cfg.enableNamespaces <==> r.service.ns != "") && IdFromName(cfg.sha1, r) && cfg.tag in r.service.tags
    {
      var key := ListedFromService(cfg, s, r);
    }
  }

  /** The state of the syncer after the resource's last list. */
  ghost predicate Follows(t: Syncer.State, s: Resource.State) {
    t.serviceNames == IndexNames(s.synced) && t.namespaces == IndexRegs(s.synced)
  }

  /** Handing the list over and one full sync without failures settle the syncer on it,
      whatever state it was in. */
  lemma SettlesOnList(cfg: Config, s: Resource.State, scfg: Syncer.Config, t: Syncer.State, t': Syncer.State,
      t'': Syncer.State)
    requires Resource.Inv(cfg, s) && NamespacesNamed(cfg, s)
    requires scfg == Syncer.Config(cfg.enableNamespaces, cfg.tag) && Syncer.StateOk(scfg, t)
    requires Syncer.Step(scfg, t, Syncer.Sync(s.synced), t')
    requires Syncer.Step(scfg, t', Syncer.SyncFull(true, {}, {}), t'')
    ensures Settled(scfg, t'') && Follows(t'', s)
  {
    ListsFit(cfg, s, scfg);
    Syncer.IndexInvFromList(scfg, t', s.synced);
    forall k: Key | HasReg(t'.namespaces, k.ns, k.id)
      ensures scfg.tag in t'.namespaces[k.ns][k.id].service.tags
    {
      DesiredFromList(s.synced, k);
    }
    FullSyncSettles(scfg, t', t'');
  }

  /** The tagged instances of a converged catalog are the listed registrations; where
      several share a key, one of them. */
  lemma ConvergedIsList(s: Resource.State, scfg: Syncer.Config, t: Syncer.State, k: Key)
    requires Follows(t, s) && Converged(scfg, t)
    ensures k in TaggedKeys(t.catalog, scfg.tag) <==> exists r :: r in s.synced && k == Key(r.service.ns, r.service.id)
    ensures k in TaggedKeys(t.catalog, scfg.tag) ==>
              exists r :: r in s.synced && k == Key(r.service.ns, r.service.id) && t.catalog[k] == r.service
  {
    DesiredFromList(s.synced, k);
    assert k in DesiredKeys(t.namespaces) <==> HasReg(t.namespaces, k.ns, k.id);
  }

  /** The registrations that services and endpoints stand for, lost ones left out. */
  ghost predicate IsGenerated(cfg: Config, run: seq<Resource.State>, es: seq<Resource.Event>, i: nat, r: Registration)
    requires |run| == |es| + 1 && i <= |es|
  {
    exists key :: key in run[i].serviceMap && r in Resource.Scratch(cfg, run[i], key)
        && !Resource.Lost(cfg, run, es, i, key)
  }

  /** In every run the list handed over last holds exactly the generated registrations. */
  lemma ListedExactly(cfg: Config, run: seq<Resource.State>, es: seq<Resource.Event>, i: nat, r: Registration)
    requires Resource.IsRun(cfg, run, es) && i <= |es|
    ensures r in run[i].synced <==> IsGenerated(cfg, run, es, i, r)
  {
    var s := run[i];
    Resource.ReachableInv(cfg, run, es, i);
    Resource.FlatMembers(s.consulMap, r);
    assert r in multiset(s.synced) <==> r in s.synced;
    if r in s.synced {
      var key := ListedFromService(cfg, s, r);
      Resource.ExactUnlessLost(cfg, run, es, i, key);
    }
    if IsGenerated(cfg, run, es, i, r) {
      var key :| key in s.serviceMap && r in Resource.Scratch(cfg, s, key) && !Resource.Lost(cfg, run, es, i, key);
      Resource.ExactUnlessLost(cfg, run, es, i, key);
    }
  }

  /** The tagged instances are precisely those that services and endpoints stand for, each
      being one of the generated instances of its key. */
  ghost predicate Mirrors(cfg: Config, run: seq<Resource.State>, es: seq<Resource.Event>, i: nat, c: Instances)
    requires |run| == |es| + 1 && i <= |es|
  {
    && (forall k :: k in TaggedKeys(c, cfg.tag) <==> GeneratedAt(cfg, run, es, i, k))
    && (forall k | k in TaggedKeys(c, cfg.tag) :: GeneratedAs(cfg, run, es, i, k, c[k]))
  }

  ghost predicate GeneratedAt(cfg: Config, run: seq<Resource.State>, es: seq<Resource.Event>, i: nat, k: Key)
    requires |run| == |es| + 1 && i <= |es|
  {
    exists r :: IsGenerated(cfg, run, es, i, r) && k == Key(r.service.ns, r.service.id)
  }

  ghost predicate GeneratedAs(cfg: Config, run: seq<Resource.State>, es: seq<Resource.Event>, i: nat, k: Key,
      v: AgentService)
    requires |run| == |es| + 1 && i <= |es|
  {
    exists r :: IsGenerated(cfg, run, es, i, r) && k == Key(r.service.ns, r.service.id) && v == r.service
  }

  /** The desired keys are those of the generated registrations. */
  lemma DesiredIsGenerated(cfg: Config, run: seq<Resource.State>, es: seq<Resource.Event>, i: nat, t: Syncer.State,
      k: Key)
    requires Resource.IsRun(cfg, run, es) && i <= |es| && Follows(t, run[i])
    ensures k in DesiredKeys(t.namespaces) <==> GeneratedAt(cfg, run, es, i, k)
  {
    DesiredFromList(run[i].synced, k);
    assert k in DesiredKeys(t.namespaces) <==> HasReg(t.namespaces, k.ns, k.id);
    if k in DesiredKeys(t.namespaces) {
      var r :| r in run[i].synced && k == Key(r.service.ns, r.service.id);
      ListedExactly(cfg, run, es, i, r);
    }
    if GeneratedAt(cfg, run, es, i, k) {
      var r :| IsGenerated(cfg, run, es, i, r) && k == Key(r.service.ns, r.service.id);
      ListedExactly(cfg, run, es, i, r);
    }
  }

  lemma ConvergedAs(cfg: Config, run: seq<Resource.State>, es: seq<Resource.Event>, i: nat,
                    scfg: Syncer.Config, t: Syncer.State, k: Key)
    requires Resource.IsRun(cfg, run, es) && i <= |es| && Follows(t, run[i])
    requires Converged(scfg, t) && k in TaggedKeys(t.catalog, scfg.tag)
    ensures GeneratedAs(cfg, run, es, i, k, t.catalog[k])
  {
    ConvergedIsList(run[i], scfg, t, k);
    var r :| r in run[i].synced && k == Key(r.service.ns, r.service.id) && t.catalog[k] == r.service;
    ListedExactly(cfg, run, es, i, r);
  }

  /** For a syncer settled on the list, converging is mirroring. */
  lemma ConvergedExactlyWhenMirrors(cfg: Config, run: seq<Resource.State>, es: seq<Resource.Event>, i: nat,
                                    scfg: Syncer.Config, t: Syncer.State)
    requires Resource.IsRun(cfg, run, es) && i <= |es|
    requires scfg == Syncer.Config(cfg.enableNamespaces, cfg.tag) && Settled(scfg, t) && Follows(t, run[i])
    ensures Converged(scfg, t) <==> Mirrors(cfg, run, es, i, t.catalog)
  {
    forall k
      ensures k in DesiredKeys(t.namespaces) <==> GeneratedAt(cfg, run, es, i, k)
    {
      DesiredIsGenerated(cfg, run, es, i, t, k);
    }
    if Converged(scfg, t) {
      forall k | k in TaggedKeys(t.catalog, cfg.tag)
        ensures GeneratedAs(cfg, run, es, i, k, t.catalog[k])
      {
        ConvergedAs(cfg, run, es, i, scfg, t, k);
      }
    } else if Mirrors(cfg, run, es, i, t.catalog) {
      TaggedIsDesired(scfg, t);
    }
  }

  lemma TaggedIsDesired(scfg: Syncer.Config, t: Syncer.State)
    requires Settled(scfg, t) && forall k :: k in TaggedKeys(t.catalog, scfg.tag) <==> k in DesiredKeys(t.namespaces)
    ensures Converged(scfg, t)
  {
    assert TaggedKeys(t.catalog, scfg.tag) == DesiredKeys(t.namespaces);
  }

  /** The whole pipeline, for any sequence of informer events. Whatever state the syncer is
      in: it gets the list that results, a full sync runs, and then n rounds follow. The
      tagged instances in Consul are then precisely those the services and endpoints stand
      for, registrations lost by a deletion of endpoints left out, if and only if no ID was
      shared by more than n unwanted instances. */
  lemma PipelineConverges(cfg: Config, run: seq<Resource.State>, es: seq<Resource.Event>, i: nat, scfg: Syncer.Config,
                          t: Syncer.State, t': Syncer.State, rounds: seq<Syncer.State>, n: nat)
    requires Resource.IsRun(cfg, run, es) && i <= |es| && NamespacesNamed(cfg, run[i])
    requires scfg == Syncer.Config(cfg.enableNamespaces, cfg.tag) && Syncer.StateOk(scfg, t)
    requires Syncer.Step(scfg, t, Syncer.Sync(run[i].synced), t')
    requires n < |rounds| && Syncer.Step(scfg, t', Syncer.SyncFull(true, {}, {}), rounds[0])
    requires forall j | 0 <= j < n :: Round(scfg, rounds[j], rounds[j + 1])
    ensures Mirrors(cfg, run, es, i, rounds[n].catalog) <==> SharedAtMost(Undesired(scfg, rounds[0]), n)
  {
    Resource.ReachableInv(cfg, run, es, i);
    SettlesOnList(cfg, run[i], scfg, t, t', rounds[0]);
    Converges(scfg, rounds, n);
    ConvergedExactlyWhenMirrors(cfg, run, es, i, scfg, rounds[n]);
  }

  /** The pipeline always gets there: from a syncer settled on the list there are rounds
      that lead to a mirror. */
  lemma PipelineReaches(cfg: Config, run: seq<Resource.State>, es: seq<Resource.Event>, i: nat,
                        scfg: Syncer.Config, t: Syncer.State) returns (rounds: seq<Syncer.State>)
    requires Resource.IsRun(cfg, run, es) && i <= |es|
    requires scfg == Syncer.Config(cfg.enableNamespaces, cfg.tag) && Settled(scfg, t) && Follows(t, run[i])
    ensures rounds != [] && rounds[0] == t && Mirrors(cfg, run, es, i, rounds[|rounds| - 1].catalog)
    ensures Rounds(scfg, rounds)
  {
    var n := |Undesired(scfg, t)|;
    rounds := RoundsExist(scfg, t, n);
    SharedAtMostAll(Undesired(scfg, t));
    Converges(scfg, rounds, n);
    ConvergedExactlyWhenMirrors(cfg, run, es, i, scfg, rounds[n]);
  }
}
