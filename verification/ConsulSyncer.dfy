/** The catalog syncer as it is written: fields edited in loops under a lock. Every
    API call may fail: the outcomes are parameters. */
module ConsulSyncers {
  import opened Catalog
  import opened SyncIndex
  import opened SyncerState

  class ConsulServer {
    var catalog: Instances
  }

  class ConsulSyncer {
    const cfg: Config
    const consul: ConsulServer

    var serviceNames: NameIndex
    var namespaces: RegIndex
    var deregs: map<string, Key>
    var watchers: map<Watch, nat>
    var running: map<nat, Watch>
    ghost var started: set<Watch>
    var nextHandle: nat
    var initialSync: bool

    ghost function St(): State
      reads this, consul
    {
      State(serviceNames, namespaces, deregs, watchers, running, started, nextHandle, initialSync, consul.catalog)
    }

    ghost predicate Valid()
      reads this, consul
    {
      StateOk(cfg, St())
    }

    constructor (cfg: Config, consul: ConsulServer)
      requires CatalogOk(cfg, consul.catalog)
      ensures this.cfg == cfg && this.consul == consul && Valid() && St() == Init(consul.catalog)
    {
      this.cfg, this.consul := cfg, consul;
      serviceNames, namespaces, deregs, watchers, running := map[], map[], map[], map[], map[];
      started, nextHandle, initialSync := {}, 0, false;
    }

    method Sync(rs: seq<Registration>)
      requires Valid() && NamespacesMatch(cfg, rs)
      modifies this
      ensures Valid() && Step(cfg, old(St()), Event.Sync(rs), St())
    {
      ghost var s := St();
      AddAll(rs);
      initialSync := true;
      IndexInvFromList(cfg, St(), rs);
      assert St() == s.(serviceNames := IndexNames(rs), namespaces := IndexRegs(rs), initialSync := true);
    }

    /** Rebuilds both indexes. */
    method AddAll(rs: seq<Registration>)
      modifies this`serviceNames, this`namespaces
      ensures serviceNames == IndexNames(rs) && namespaces == IndexRegs(rs)
    {
      serviceNames, namespaces := map[], map[];
      NoneIndexed();
      for i := 0 to |rs|
        invariant serviceNames == IndexNames(rs[..i]) && namespaces == IndexRegs(rs[..i])
      {
        NamesSnoc(rs[..i], rs[i]);
        RegsSnoc(rs[..i], rs[i]);
        assert rs[..i + 1] == rs[..i] + [rs[i]];
        Add(rs[i]);
      }
      assert rs[..|rs|] == rs;
    }

    /** Indexes one registration, initializing the namespace's entries if necessary. */
    method Add(r: Registration)
      modifies this`serviceNames, this`namespaces
      ensures var n, svc := old(serviceNames), r.service;
              serviceNames == n[svc.ns := NamesOf(n, svc.ns) + {svc.name}]
      ensures var g, svc := old(namespaces), r.service;
              namespaces == g[svc.ns := (if svc.ns in g then g[svc.ns] else map[])[svc.id := r]]
    {
      var ns := r.service.ns;
      if ns !in serviceNames {
        serviceNames := serviceNames[ns := {}];
      }
      serviceNames := serviceNames[ns := serviceNames[ns] + {r.service.name}];
      if ns !in namespaces {
        namespaces := namespaces[ns := map[]];
      }
      namespaces := namespaces[ns := namespaces[ns][r.service.id := r]];
    }

    /** One pass of watchReapableServices after the listing has been read. */
    method ReapPass(queryOk: Key -> bool)
      requires Valid() && initialSync
      modifies this`deregs
      ensures Valid()
      ensures Step(cfg, old(St()),
                   Event.Reap(Reaped(cfg, old(St()), Heard(TaggedKeys(consul.catalog, cfg.tag), queryOk))), St())
    {
      ReapAll(queryOk);
    }

    /** The loop over the listed services. */
    method ReapAll(queryOk: Key -> bool)
      requires CatalogOk(cfg, consul.catalog)
      modifies this`deregs
      ensures Scheduled(old(deregs), Reaped(cfg, old(St()), Heard(TaggedKeys(consul.catalog, cfg.tag), queryOk)),
          deregs)
    {
      ghost var d0, s, heard := deregs, St(), {};
      ghost var listed := TaggedKeys(consul.catalog, cfg.tag);
      var services := TaggedKeys(consul.catalog, cfg.tag);
      while services != {}
        invariant forall k | k in services :: k in listed
        invariant forall k :: k in heard <==> k in listed && k !in services && queryOk(k)
        invariant Scheduled(d0, Reaped(cfg, s, heard), deregs)
      {
        var k :| k in services;
        services := services - {k};
        ghost var d1 := deregs;
        ReapOne(k, queryOk(k));
        ReapedNext(cfg, s, heard, k, queryOk(k), d0, d1, deregs);
        heard := if queryOk(k) then heard + {k} else heard;
      }
      assert heard == Heard(listed, queryOk);
    }

    /** The body of the loop over the listed services. */
    method ReapOne(k: Key, queryOk: bool)
      requires CatalogOk(cfg, consul.catalog) && k in TaggedKeys(consul.catalog, cfg.tag)
      modifies this`deregs
      ensures Scheduled(old(deregs), if queryOk then ReapedBy(cfg, old(St()), k) else {}, deregs)
    {
      var svcNs := consul.catalog[k].ns;
      if !cfg.enableNamespaces {
        svcNs := "";
      }
      if svcNs in serviceNames {
        if consul.catalog[k].name in serviceNames[svcNs] {
          return;
        }
      }
      ScheduleReapServiceLocked(consul.catalog[k].name, svcNs, queryOk);
    }

    method ScheduleReapServiceLocked(name: string, ns: string, queryOk: bool)
      modifies this`deregs
      ensures Scheduled(old(deregs),
                        if queryOk
                        then InstancesOf(consul.catalog, cfg.tag, QueryNs(cfg.enableNamespaces, ns), name) else {},
                        deregs)
    {
      if !queryOk {
        return;
      }
      ghost var all := InstancesOf(consul.catalog, cfg.tag, QueryNs(cfg.enableNamespaces, ns), name);
      var services := InstancesOf(consul.catalog, cfg.tag, QueryNs(cfg.enableNamespaces, ns), name);
      while services != {}
        invariant services <= all && Scheduled(old(deregs), all - services, deregs)
      {
        var k :| k in services;
        ScheduleOne(old(deregs), all - services, k, ns);
        assert all - services + {k} == all - (services - {k});
        services := services - {k};
      }
      assert all - services == all;
    }

    /** One pass of watchService. */
    method Poll(w: Watch, queryOk: bool)
      requires Valid() && w in started
      modifies this`deregs
      ensures Valid() && Step(cfg, old(St()), Event.Poll(w, queryOk), St())
    {
      if !queryOk {
        return;
      }
      PollAll(w);
    }

    /** The loop over the instances that were found. */
    method PollAll(w: Watch)
      modifies this`deregs
      ensures Scheduled(old(deregs), WatchTargets(cfg, old(St()), w), deregs)
    {
      ghost var targets, done := WatchTargets(cfg, St(), w), {};
      ghost var all := InstancesOf(consul.catalog, cfg.tag, QueryNs(cfg.enableNamespaces, w.ns), w.name);
      var services := InstancesOf(consul.catalog, cfg.tag, QueryNs(cfg.enableNamespaces, w.ns), w.name);
      while services != {}
        invariant services <= all
        invariant forall k :: k in done <==> k in targets && k !in services
        invariant Scheduled(old(deregs), done, deregs)
      {
        var k :| k in services;
        services := services - {k};
        if w.ns in serviceNames {
          if consul.catalog[k].name in serviceNames[w.ns] && w.ns in namespaces && k.id in namespaces[w.ns] {
            continue;
          }
        }
        ScheduleOne(old(deregs), done, k, w.ns);
        done := done + {k};
      }
      assert done == targets;
    }

    /** Writes the deregistration of one instance. */
    method ScheduleOne(ghost d: map<string, Key>, ghost done: set<Key>, k: Key, ns: string)
      requires Scheduled(d, done, deregs) && k.ns == QueryNs(cfg.enableNamespaces, ns)
      modifies this`deregs
      ensures Scheduled(d, done + {k}, deregs)
    {
      ghost var d1 := deregs;
      deregs := deregs[k.id := Key("", k.id)];
      if cfg.enableNamespaces {
        deregs := deregs[k.id := Key(ns, k.id)];
      }
      assert Ids({k}) == {k.id};
      ScheduledTwice(d, done, d1, {k}, deregs);
    }

    /** The periodic full sync. */
    method SyncFull(clientOk: bool, deregOk: string -> bool, registerOk: Key -> bool)
      requires Valid()
      modifies this, consul
      ensures Valid()
      ensures Step(cfg, old(St()), Event.SyncFull(clientOk, FailedDeregs(old(deregs), deregOk),
                                                  FailedRegs(old(namespaces), registerOk)), St())
    {
      if !clientOk {
        return;
      }
      ghost var s := St();
      UpdateWatchers();
      ghost var t := St();
      UpdateCatalog(deregOk, registerOk);
      RewrittenOk(cfg, s, t, FailedDeregs(s.deregs, deregOk), FailedRegs(s.namespaces, registerOk), St());
    }

    /** The deregistrations, then the registrations. */
    method UpdateCatalog(deregOk: string -> bool, registerOk: Key -> bool)
      modifies this`deregs, consul
      ensures St() == old(St()).(deregs := map[], catalog :=
                Rewritten(old(St()), FailedDeregs(old(deregs), deregOk), FailedRegs(namespaces, registerOk)))
    {
      DeregisterAll(deregOk);
      deregs := map[];
      RegisterAll(registerOk);
    }

    method UpdateWatchers()
      requires WatcherInv(St())
      modifies this`watchers, this`running, this`started, this`nextHandle
      ensures WatcherInv(St()) && WatchersUpdated(old(St()), St())
      ensures SameButWatchers(old(St()), St())
    {
      StopWatchers();
      StartWatchers();
      started := started + watchers.Keys;
    }

    method StopWatchers()
      requires Paired(watchers, running, nextHandle)
      modifies this`watchers, this`running
      ensures Paired(watchers, running, nextHandle)
      ensures forall w :: w in watchers <==> w in old(watchers) && IsValid(serviceNames, w)
      ensures Stopped(old(watchers), old(running), watchers, running) && running.Keys <= old(running.Keys)
    {
      var todo := watchers.Keys;
      while todo != {}
        invariant todo <= watchers.Keys <= old(watchers.Keys)
        invariant forall w | w in old(watchers) :: w in watchers <==> w in todo || IsValid(serviceNames, w)
        invariant Paired(watchers, running, nextHandle)
        invariant Stopped(old(watchers), old(running), watchers, running) && running.Keys <= old(running.Keys)
      {
        var w :| w in todo;
        todo := todo - {w};
        if w.ns !in serviceNames || w.name !in serviceNames[w.ns] {
          StopOne(old(watchers), old(running), watchers, running, nextHandle, w);
          running := running - {watchers[w]};  // calling the cancel function
          watchers := watchers - {w};
        }
      }
    }

    method StartWatchers()
      requires Paired(watchers, running, nextHandle)
      requires forall w | w in watchers :: IsValid(serviceNames, w)
      modifies this`watchers, this`running, this`nextHandle
      ensures Paired(watchers, running, nextHandle) && old(nextHandle) <= nextHandle
      ensures watchers.Keys == ValidWatches(serviceNames)
      ensures forall w | w in old(watchers) :: watchers[w] == old(watchers)[w]
      ensures forall h | h in old(running) :: h in running && running[h] == old(running)[h]
      ensures Started(old(watchers), old(running), old(nextHandle), watchers, running, nextHandle)
    {
      ghost var ws0, rs0, next0 := watchers, running, nextHandle;
      var valid := ValidWatches(serviceNames);
      var todo := valid;
      while todo != {}
        invariant todo <= valid
        invariant Paired(watchers, running, nextHandle) && next0 <= nextHandle
        invariant forall w | w in ws0 :: w in watchers && watchers[w] == ws0[w]
        invariant forall w | w in watchers :: w in valid
        invariant forall w | w in valid :: w in watchers || w in todo
        invariant forall h | h in rs0 :: h in running && running[h] == rs0[h]
        invariant Started(ws0, rs0, next0, watchers, running, nextHandle)
      {
        var w :| w in todo;
        todo := todo - {w};
        if w !in watchers {
          StartOne(ws0, rs0, next0, watchers, running, nextHandle, w);
          running := running[nextHandle := w];
          watchers := watchers[w := nextHandle];
          nextHandle := nextHandle + 1;
        }
      }
    }

    method DeregisterAll(deregOk: string -> bool)
      modifies consul
      ensures consul.catalog == old(consul.catalog) - Targets(deregs, FailedDeregs(deregs, deregOk))
    {
      ghost var c, failed := consul.catalog, FailedDeregs(deregs, deregOk);
      var todo := deregs.Keys;
      while todo != {}
        invariant todo <= deregs.Keys
        invariant consul.catalog == c - Targets(deregs, failed + todo)
      {
        var id :| id in todo;
        ghost var before := Targets(deregs, failed + todo);
        todo := todo - {id};
        if deregOk(id) {
          consul.catalog := consul.catalog - {deregs[id]};
          assert Targets(deregs, failed + todo) == before + {deregs[id]};
        } else {
          assert Targets(deregs, failed + todo) == before;
        }
      }
      assert failed + todo == failed;
    }

    method RegisterAll(registerOk: Key -> bool)
      modifies consul
      ensures consul.catalog == Overwritten(old(consul.catalog), Desired(namespaces),
                                            DesiredKeys(namespaces) - FailedRegs(namespaces, registerOk))
    {
      ghost var c, written := consul.catalog, {};
      var todo := namespaces.Keys;
      while todo != {}
        invariant todo <= namespaces.Keys
        invariant forall k: Key :: k in written <==> HasReg(namespaces, k.ns, k.id) && registerOk(k) && k.ns !in todo
        invariant consul.catalog == Overwritten(c, Desired(namespaces), written)
      {
        var ns :| ns in todo;
        todo := todo - {ns};
        ghost var w := RegisterNamespace(ns, registerOk, c, written);
        written := written + w;
      }
      assert written == DesiredKeys(namespaces) - FailedRegs(namespaces, registerOk);
    }

    /** The inner loop of the registrations: the services of one namespace. */
    method RegisterNamespace(ns: string, registerOk: Key -> bool, ghost c: Instances, ghost before: set<Key>)
      returns (ghost written: set<Key>)
      requires ns in namespaces && before <= DesiredKeys(namespaces)
      requires consul.catalog == Overwritten(c, Desired(namespaces), before)
      modifies consul
      ensures forall k :: k in written <==> k.ns == ns && k.id in namespaces[ns] && registerOk(k)
      ensures written <= DesiredKeys(namespaces)
      ensures consul.catalog == Overwritten(c, Desired(namespaces), before + written)
    {
      written := {};
      ghost var desired := Desired(namespaces);
      assert before + written == before;
      var ids := namespaces[ns].Keys;
      while ids != {}
        invariant ids <= namespaces[ns].Keys
        invariant written <= desired.Keys
        invariant forall k :: k in written <==> k.ns == ns && k.id in namespaces[ns] && k.id !in ids && registerOk(k)
        invariant consul.catalog == Overwritten(c, desired, before + written)
      {
        var id :| id in ids;
        ids := ids - {id};
        var k := Key(ns, id);
        assert HasReg(namespaces, k.ns, k.id);
        if registerOk(k) {  // ensuring the namespace exists, registering
          OverwriteOne(c, desired, before + written, k);
          consul.catalog := consul.catalog[k := namespaces[ns][id].service];
          assert before + written + {k} == before + (written + {k});
          written := written + {k};
        }
      }
    }
  }
}
