/** The controller as it is written: it edits its copy of the resource and writes to
    the Kubernetes and Consul stores one call after another. */
module ConfigEntryControllers {
  import opened Common
  import opened ConfigEntries
  import opened Reconciling

  class KubeCluster {
    var resources: map<string, Resource>
  }

  class ConsulStore {
    var entries: map<EntryKey, Entry>
  }

  class ConfigEntryController {
    const cfg: Config
    const kube: KubeCluster
    const consul: ConsulStore

    constructor (cfg: Config, kube: KubeCluster, consul: ConsulStore)
      ensures this.cfg == cfg && this.kube == kube && this.consul == consul
    {
      this.cfg, this.kube, this.consul := cfg, kube, consul;
    }

    ghost function St(): Stores
      reads kube, consul
    {
      Stores(kube.resources, consul.entries)
    }

    method ReconcileEntry(name: string, c: Calls) returns (ok: bool)
      modifies kube, consul
      ensures Result(St(), ok) == Reconcile(cfg, old(St()), name, c)
    {
      if !c.getOk {
        return false;
      }
      if name !in kube.resources {
        return true;
      }
      if !c.clientOk {
        return false;
      }
      var configEntry := kube.resources[name];
      var hasFinalizer := ContainsString(configEntry.finalizers, FINALIZER_NAME);
      if configEntry.deleting {
        if hasFinalizer {
          ok := FinalizeEntry(name, c);
          return;
        }
        return true;
      }
      ghost var matches := MatchesNow(cfg, St(), name);
      if !hasFinalizer {
        SameSpec(cfg, configEntry, configEntry.(finalizers := configEntry.finalizers + [FINALIZER_NAME]));
        configEntry := configEntry.(finalizers := configEntry.finalizers + [FINALIZER_NAME]);
        var done := Update(name, configEntry, c.update);
        if !done {
          return false;
        }
      }
      ok := SyncLive(name, matches, c);
    }

    method FinalizeEntry(name: string, c: Calls) returns (ok: bool)
      requires name in kube.resources
      modifies kube, consul
      ensures Result(St(), ok) == Finalize(cfg, old(St()), name, c)
    {
      var configEntry := kube.resources[name];
      var key := KeyOf(cfg, configEntry);
      if !c.consulGetOk {
        return false;
      }
      if key in consul.entries {
        if Owner(consul.entries[key]) == cfg.datacenter {
          if c.delete.Applied() {
            consul.entries := consul.entries - {key};
          }
          if !c.delete.Done? {
            SetSyncedCondition(name, False, c.status);
            return false;
          }
        }
      }
      var finalizers := RemoveFinalizer(configEntry.finalizers, FINALIZER_NAME);
      ok := Update(name, configEntry.(finalizers := finalizers), c.update);
    }

    method SyncLive(name: string, ghost matches: bool, c: Calls) returns (ok: bool)
      requires name in kube.resources && matches == MatchesNow(cfg, St(), name)
      modifies kube, consul
      ensures Result(St(), ok) == SyncEntry(cfg, old(St()), name, matches, c)
    {
      var configEntry := kube.resources[name];
      var key := KeyOf(cfg, configEntry);
      if !c.consulGetOk {
        SetSyncedCondition(name, False, c.status);
        return false;
      }
      if key !in consul.entries {
        if cfg.enableNamespaces {
          if !c.ensureOk {
            SetSyncedCondition(name, False, c.status);
            return false;
          }
        }
        ok := SetEntry(name, key, False, c);
        return;
      }
      var entry := consul.entries[key];
      var requiresMigration := false;
      if Owner(entry) != cfg.datacenter {
        if MIGRATE_ENTRY_KEY !in configEntry.annotations || configEntry.annotations[MIGRATE_ENTRY_KEY] != "true" {
          SetSyncedCondition(name, False, c.status);
          return false;
        }
        requiresMigration := true;
      }
      if !MatchesConsul(cfg.json, configEntry, entry) {
        if requiresMigration {
          SetSyncedCondition(name, False, c.status);
          return false;
        }
        ok := SetEntry(name, key, Unknown, c);
      } else if requiresMigration && Owner(entry) != cfg.datacenter {
        ok := SetEntry(name, key, Unknown, c);
      } else if configEntry.status != True {
        SetSyncedCondition(name, True, c.status);
        ok := c.status.Done?;
      } else {
        ok := true;
      }
    }

    /** Writes the entry and records the outcome in the status. */
    method SetEntry(name: string, key: EntryKey, onError: Status, c: Calls) returns (ok: bool)
      modifies kube, consul
      ensures Result(St(), ok) == Write(old(St()), name, key, onError, c)
    {
      if c.write.Applied() {
        consul.entries := consul.entries[key := c.stored];
      }
      if !c.write.Done? {
        SetSyncedCondition(name, onError, c.status);
        return false;
      }
      SetSyncedCondition(name, True, c.status);
      ok := c.status.Done?;
    }

    method Update(name: string, r: Resource, o: Outcome) returns (done: bool)
      requires name in kube.resources
      modifies kube
      ensures kube.resources == Updated(old(kube.resources), name, r, o) && done == o.Done?
    {
      if o.Applied() {
        var stored := r.(status := kube.resources[name].status);
        if stored.deleting && stored.finalizers == [] {
          kube.resources := kube.resources - {name};
        } else {
          kube.resources := kube.resources[name := stored];
        }
      }
      done := o.Done?;
    }

    method SetSyncedCondition(name: string, status: Status, o: Outcome)
      modifies kube
      ensures St() == WithStatus(old(St()), name, status, o)
    {
      if o.Applied() && name in kube.resources {
        kube.resources := kube.resources[name := kube.resources[name].(status := status)];
      }
    }

    method RemoveFinalizer(finalizers: seq<string>, f: string) returns (kept: seq<string>)
      ensures kept == Removed(finalizers, f)
    {
      kept := [];
      for i := 0 to |finalizers|
        invariant kept == Removed(finalizers[..i], f)
      {
        assert finalizers[..i + 1][..i] == finalizers[..i];
        if finalizers[i] != f {
          kept := kept + [finalizers[i]];
        }
      }
      assert finalizers[..|finalizers|] == finalizers;
    }
  }
}
