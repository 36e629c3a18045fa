/** Safety of the catalog syncer over whole runs: any interleaving of syncs, reap
    passes, watcher passes, full syncs and outside edits, with any API failures. */
module SyncerRuns {
  import opened Catalog
  import opened SyncIndex
  import opened SyncerState

  ghost predicate IsRun(cfg: Config, run: seq<State>, es: seq<Event>) {
    && |run| == |es| + 1
    && run[0] == Init(run[0].catalog)
    && forall i | 0 <= i < |es| :: Step(cfg, run[i], es[i], run[i + 1])
  }

  // ---------------------------------------------------------------------------
  // The initial-sync gate

  /** Before the first Sync nothing is scheduled and nothing is watched. */
  ghost predicate Quiet(s: State) {
    && !s.initialSync
    && s.serviceNames == map[] && s.namespaces == map[] && s.deregs == map[]
    && s.watchers == map[] && s.running == map[] && s.started == {}
  }

  lemma QuietStep(cfg: Config, s: State, e: Event, s': State)
    requires Quiet(s) && Step(cfg, s, e, s') && !e.Sync?
    ensures Quiet(s')
    ensures !e.Outside? ==> s'.catalog == s.catalog
  {
    if e.SyncFull? && e.clientOk {
      QuietFullSync(cfg, s, e, s');
    }
  }

  lemma QuietFullSync(cfg: Config, s: State, e: Event, s': State)
    requires Quiet(s) && e.SyncFull? && e.clientOk && Step(cfg, s, e, s')
    ensures Quiet(s') && s'.catalog == s.catalog
  {
    assert ValidWatches(s.serviceNames) == {};
    assert s'.watchers == map[];
    assert s'.running == map[];
    QuietRewrite(s, e.failedDeregs, e.failedRegs);
  }

  lemma QuietRewrite(s: State, failedDeregs: set<string>, failedRegs: set<Key>)
    requires Quiet(s)
    ensures Rewritten(s, failedDeregs, failedRegs) == s.catalog
  {
    assert Targets(s.deregs, failedDeregs) == {} && DesiredKeys(s.namespaces) == {};
  }

  /** Whatever tagged services Consul already holds, until the first Sync the syncer
      schedules no deregistration, starts no watcher and leaves the catalog alone. */
  lemma {:induction false} InitialSyncGate(cfg: Config, run: seq<State>, es: seq<Event>, i: nat)
    requires IsRun(cfg, run, es) && i <= |es|
    requires forall j | 0 <= j < i :: !es[j].Sync?
    ensures Quiet(run[i])
    ensures i < |es| && !es[i].Outside? ==> run[i + 1].catalog == run[i].catalog
  {
    if i > 0 {
      InitialSyncGate(cfg, run, es, i - 1);
      QuietStep(cfg, run[i - 1], es[i - 1], run[i]);
    }
    if i < |es| && !es[i].Sync? {
      QuietStep(cfg, run[i], es[i], run[i + 1]);
    }
  }

  // ---------------------------------------------------------------------------
  // Watcher bookkeeping

  lemma StepKeepsWatcherInv(cfg: Config, s: State, e: Event, s': State)
    requires WatcherInv(s) && Step(cfg, s, e, s')
    ensures WatcherInv(s')
  {
  }

  /** At most one uncancelled watcher exists per namespace and name, and right after
      a full sync that got a client the live ones are exactly the valid services. */
  lemma {:induction false} WatcherBookkeeping(cfg: Config, run: seq<State>, es: seq<Event>, i: nat)
    requires IsRun(cfg, run, es) && i <= |es|
    ensures WatcherInv(run[i])
    ensures forall h, h' | h in run[i].running && h' in run[i].running && run[i].running[h] == run[i].running[h'] ::
        h == h'
    ensures i > 0 && es[i - 1].SyncFull? && es[i - 1].clientOk ==>
              run[i].running.Values == ValidWatches(run[i].serviceNames)
  {
    if i > 0 {
      WatcherBookkeeping(cfg, run, es, i - 1);
      StepKeepsWatcherInv(cfg, run[i - 1], es[i - 1], run[i]);
      if es[i - 1].SyncFull? && es[i - 1].clientOk {
        assert run[i].watchers.Keys == ValidWatches(run[i].serviceNames);
        forall w | w in run[i].watchers
          ensures w in run[i].running.Values
        {
          assert run[i].running[run[i].watchers[w]] == w;
        }
      }
    }
  }

  /** A goroutine is cancelled exactly by a full sync for which its service is not valid any
      more; the others run on, and new ones start only for services without one. */
  lemma CancelledExactlyWhen(cfg: Config, s: State, e: Event, s': State, h: nat)
    requires WatcherInv(s) && Step(cfg, s, e, s') && h in s.running
    ensures h in s'.running <==>
            !(e.SyncFull? && e.clientOk) ||
            (s.running[h].ns in s.serviceNames && s.running[h].name in s.serviceNames[s.running[h].ns])
    ensures h in s'.running ==> s'.running[h] == s.running[h]
    ensures forall h' | h' in s'.running && h' !in s.running :: s'.running[h'] !in s.running.Values
  {
    var w := s.running[h];
    assert s.watchers[w] == h;
    if e.SyncFull? && e.clientOk {
      assert w in s'.watchers <==> IsValid(s.serviceNames, w);
      forall h' | h' in s'.running && h' !in s.running
        ensures s'.running[h'] !in s.running.Values
      {
        assert s'.running[h'] !in s.watchers;
      }
    }
  }

  // ---------------------------------------------------------------------------
  // Instances of others

  ghost predicate Foreign(cfg: Config, s: State, k: Key, v: AgentService) {
    k in s.catalog && s.catalog[k] == v && k !in s.deregs.Values && k !in DesiredKeys(s.namespaces)
  }

  /** An event by which someone else leaves the instance alone. */
  ghost predicate LeavesAlone(e: Event, k: Key, v: AgentService) {
    && (e.Sync? ==> forall r | r in e.rs :: Key(r.service.ns, r.service.id) != k)
    && (e.Outside? ==> k in e.catalog && e.catalog[k] == v)
  }

  lemma ForeignStep(cfg: Config, s: State, e: Event, s': State, k: Key, v: AgentService)
    requires Foreign(cfg, s, k, v) && cfg.tag !in v.tags && LeavesAlone(e, k, v)
    requires Step(cfg, s, e, s')
    ensures Foreign(cfg, s', k, v)
  {
    match e
    case Sync(rs) =>
    case Reap(_) =>
      assert forall id | id in s'.deregs :: s'.deregs[id] != k;
    case Poll(_, _) =>
      assert forall id | id in s'.deregs :: s'.deregs[id] != k;
    case SyncFull(_, _, _) =>
    case Outside(_) =>
  }

  /** An instance that does not carry the tag and that Kubernetes never claims is never
      removed or changed by the syncer, however IDs are shared between namespaces. */
  lemma {:induction false} ForeignInstancesUntouched(
    cfg: Config, run: seq<State>, es: seq<Event>, i: nat, k: Key, v: AgentService)
    requires IsRun(cfg, run, es) && i <= |es|
    requires k in run[0].catalog && run[0].catalog[k] == v && cfg.tag !in v.tags
    requires forall j | 0 <= j < i :: LeavesAlone(es[j], k, v)
    ensures k in run[i].catalog && run[i].catalog[k] == v
    ensures Foreign(cfg, run[i], k, v)
  {
    if i > 0 {
      ForeignInstancesUntouched(cfg, run, es, i - 1, k, v);
      ForeignStep(cfg, run[i - 1], es[i - 1], run[i], k, v);
    }
  }

  // ---------------------------------------------------------------------------
  // A full sync

  /** Deregistrations may be stale. Whatever they name, a full sync leaves a wanted
      instance as desired unless the registration itself failed; an instance that is
      not (re-)registered is removed exactly when a deregistration of it went through,
      and is otherwise untouched. Nothing stays scheduled. */
  lemma SyncFullEffect(cfg: Config, s: State, e: Event, s': State, k: Key)
    requires e.SyncFull? && e.clientOk && Step(cfg, s, e, s')
    ensures s'.deregs == map[]
    ensures HasReg(s.namespaces, k.ns, k.id) && k !in e.failedRegs ==>
              k in s'.catalog && s'.catalog[k] == s.namespaces[k.ns][k.id].service
    ensures !HasReg(s.namespaces, k.ns, k.id) || k in e.failedRegs ==>
              && (k in s'.catalog <==>
                    k in s.catalog && !exists id :: id in s.deregs && id !in e.failedDeregs && s.deregs[id] == k)
              && (k in s'.catalog ==> s'.catalog[k] == s.catalog[k])
  {
    assert k in Targets(s.deregs, e.failedDeregs) <==>
           exists id :: id in s.deregs && id !in e.failedDeregs && s.deregs[id] == k;
  }
}
