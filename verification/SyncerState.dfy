/** The state of the catalog syncer, the remote catalog included, and what each
    locked section of it may do. The class ConsulSyncer is proved to take these
    steps; the theorems about whole runs are proved about the steps. */
module SyncerState {
  import opened Catalog
  import opened SyncIndex

  datatype Config = Config(enableNamespaces: bool, tag: string)

  /** A service watcher: one goroutine polls one service in one namespace. */
  datatype Watch = Watch(ns: string, name: string)

  datatype State = State(
    serviceNames: NameIndex,
    namespaces: RegIndex,
    deregs: map<string, Key>,      // keyed by service ID alone
    watchers: map<Watch, nat>,     // the cancel function kept for each watcher
    running: map<nat, Watch>,      // goroutines that were not cancelled
    started: set<Watch>,           // every watcher ever started
    nextHandle: nat,
    initialSync: bool,             // the channel has been closed
    catalog: Instances)

  // ---------------------------------------------------------------------------
  // Well-formedness

  /** How Consul reports instances: with their namespace when it has namespaces;
      otherwise everything lives in the one namespace "". */
  ghost predicate CatalogOk(cfg: Config, c: Instances) {
    forall k | k in c ::
      && c[k].id == k.id
      && (if cfg.enableNamespaces then c[k].ns == k.ns else k.ns == "")
  }

  /** A registration names a Consul namespace exactly when there are namespaces. */
  ghost predicate NamespacesMatch(cfg: Config, rs: seq<Registration>) {
    forall r | r in rs :: cfg.enableNamespaces <==> r.service.ns != ""
  }

  ghost predicate IndexInv(cfg: Config, s: State) {
    && (forall ns | ns in s.serviceNames || ns in s.namespaces :: cfg.enableNamespaces <==> ns != "")
    && (forall ns, id | ns in s.namespaces && id in s.namespaces[ns] ::
          var svc := s.namespaces[ns][id].service;
          svc.ns == ns && svc.id == id && svc.name in NamesOf(s.serviceNames, ns))
  }

  /** Uncancelled goroutines and kept cancel functions correspond one to one. */
  ghost predicate Paired(watchers: map<Watch, nat>, running: map<nat, Watch>, next: nat) {
    && (forall w | w in watchers :: watchers[w] in running && running[watchers[w]] == w)
    && (forall h | h in running :: h < next && running[h] in watchers && watchers[running[h]] == h)
  }

  ghost predicate WatcherInv(s: State) {
    Paired(s.watchers, s.running, s.nextHandle) && s.watchers.Keys <= s.started
  }

  /** Watchers, cancelled ones included, watch namespaces as Consul has them. */
  ghost predicate StartedFit(cfg: Config, s: State) {
    forall w | w in s.started :: QueryNs(cfg.enableNamespaces, w.ns) == w.ns
  }

  ghost predicate StateOk(cfg: Config, s: State) {
    CatalogOk(cfg, s.catalog) && IndexInv(cfg, s) && WatcherInv(s) && StartedFit(cfg, s)
  }

  // ---------------------------------------------------------------------------
  // What is scheduled for deregistration

  /** The tagged instances of services that are not valid at all. */
  function ReapTargets(cfg: Config, s: State): set<Key> {
    set k | k in TaggedKeys(s.catalog, cfg.tag) && s.catalog[k].name !in NamesOf(s.serviceNames, k.ns)
  }

  /** Those of them that a pass schedules. Each listed instance leads to one query for
      its service; heard are the instances for which it succeeded. */
  ghost function Reaped(cfg: Config, s: State, heard: set<Key>): set<Key> {
    set j | j in ReapTargets(cfg, s) && ServiceHeard(s.catalog, heard, j)
  }

  ghost predicate ServiceHeard(c: Instances, heard: set<Key>, j: Key)
    requires j in c
  {
    exists k :: k in heard && k in c && j.ns == k.ns && c[j].name == c[k].name
  }

  /** The listed instances for which the query succeeds. */
  function Heard(listed: set<Key>, queryOk: Key -> bool): set<Key> {
    set k | k in listed && queryOk(k)
  }

  /** What one listed instance leads to. */
  function ReapedBy(cfg: Config, s: State, k: Key): set<Key> {
    if k in ReapTargets(cfg, s) then InstancesOf(s.catalog, cfg.tag, k.ns, s.catalog[k].name) else {}
  }

  lemma ReapedMore(cfg: Config, s: State, heard: set<Key>, k: Key)
    requires k in TaggedKeys(s.catalog, cfg.tag)
    ensures Reaped(cfg, s, heard + {k}) == Reaped(cfg, s, heard) + ReapedBy(cfg, s, k)
  {
    forall j | j in ReapTargets(cfg, s)
      ensures ServiceHeard(s.catalog, heard + {k}, j) <==>
              ServiceHeard(s.catalog, heard, j) || (j.ns == k.ns && s.catalog[j].name == s.catalog[k].name)
    {
      assert k in heard + {k};
      assert forall l | l in heard :: l in heard + {k};
    }
  }

  /** The tagged instances of the watched service that are not valid. */
  function WatchTargets(cfg: Config, s: State, w: Watch): set<Key> {
    set k | k in InstancesOf(s.catalog, cfg.tag, QueryNs(cfg.enableNamespaces, w.ns), w.name)
            && !(w.name in NamesOf(s.serviceNames, w.ns) && HasReg(s.namespaces, w.ns, k.id))
  }

  /** The table after scheduling ks into d: it gains exactly their IDs. Where several
      of the keys share an ID one of them is kept, whichever came last. */
  ghost predicate Scheduled(d: map<string, Key>, ks: set<Key>, d': map<string, Key>) {
    && d'.Keys == d.Keys + Ids(ks)
    && (forall id | id in d' :: if id in Ids(ks) then d'[id] in ks && d'[id].id == id else d'[id] == d[id])
  }

  lemma ScheduledTwice(d0: map<string, Key>, ks: set<Key>, d1: map<string, Key>, ls: set<Key>, d2: map<string, Key>)
    requires Scheduled(d0, ks, d1) && Scheduled(d1, ls, d2)
    ensures Scheduled(d0, ks + ls, d2)
  {
    assert Ids(ks + ls) == Ids(ks) + Ids(ls);
  }

  /** One more listed instance, whose query may have failed. */
  lemma ReapedNext(cfg: Config, s: State, heard: set<Key>, k: Key, ok: bool,
                   d0: map<string, Key>, d1: map<string, Key>, d2: map<string, Key>)
    requires k in TaggedKeys(s.catalog, cfg.tag)
    requires Scheduled(d0, Reaped(cfg, s, heard), d1)
    requires Scheduled(d1, if ok then ReapedBy(cfg, s, k) else {}, d2)
    ensures Scheduled(d0, Reaped(cfg, s, if ok then heard + {k} else heard), d2)
  {
    ScheduledTwice(d0, Reaped(cfg, s, heard), d1, if ok then ReapedBy(cfg, s, k) else {}, d2);
    if ok {
      ReapedMore(cfg, s, heard, k);
    } else {
      assert Reaped(cfg, s, heard) + {} == Reaped(cfg, s, heard);
    }
  }

  // ---------------------------------------------------------------------------
  // The full sync

  predicate IsValid(n: NameIndex, w: Watch) {
    w.ns in n && w.name in n[w.ns]
  }

  function ValidWatches(n: NameIndex): (ws: set<Watch>)
    ensures forall w :: w in ws <==> IsValid(n, w)
  {
    set ns, name | ns in n && name in n[ns] :: Watch(ns, name)
  }

  /** The instances a deregistration table names, failed calls left out. */
  ghost function Targets(d: map<string, Key>, failed: set<string>): set<Key> {
    set id | id in d && id !in failed :: d[id]
  }

  ghost function FailedDeregs(d: map<string, Key>, ok: string -> bool): set<string> {
    set id | id in d && !ok(id)
  }

  ghost function FailedRegs(regs: RegIndex, ok: Key -> bool): set<Key> {
    set k | k in DesiredKeys(regs) && !ok(k)
  }

  /** Deregister first, then write every desired registration over what is left. */
  ghost function Rewritten(s: State, failedDeregs: set<string>, failedRegs: set<Key>): Instances {
    Overwritten(s.catalog - Targets(s.deregs, failedDeregs), Desired(s.namespaces),
                DesiredKeys(s.namespaces) - failedRegs)
  }

  ghost function Overwritten(c: Instances, regs: map<Key, Registration>, written: set<Key>): Instances
    requires written <= regs.Keys
  {
    map k | k in c.Keys + written :: if k in written then regs[k].service else c[k]
  }

  lemma OverwriteOne(c: Instances, regs: map<Key, Registration>, written: set<Key>, k: Key)
    requires written <= regs.Keys && k in regs
    ensures Overwritten(c, regs, written)[k := regs[k].service] == Overwritten(c, regs, written + {k})
  {
  }

  /** Watchers of services that are no longer valid are cancelled, missing ones are
      started, and the others keep running. */
  ghost predicate WatchersUpdated(s: State, s': State) {
    && s'.watchers.Keys == ValidWatches(s.serviceNames)
    && s.nextHandle <= s'.nextHandle
    && s'.started == s.started + s'.watchers.Keys
    && Stopped(s.watchers, s.running, s'.watchers, s'.running)
    && Started(s.watchers, s.running, s.nextHandle, s'.watchers, s'.running, s'.nextHandle)
  }

  /** The cancel functions called are those of the watchers that are gone. */
  ghost predicate Stopped(ws: map<Watch, nat>, rs: map<nat, Watch>, ws': map<Watch, nat>, rs': map<nat, Watch>) {
    var cancelled := set w | w in ws && w !in ws' :: ws[w];
    && (forall w | w in ws && w in ws' :: ws'[w] == ws[w])
    && (forall h | h in rs :: (h in rs' <==> h !in cancelled) && (h in rs' ==> rs'[h] == rs[h]))
  }

  /** Every new watcher is a new goroutine of its own, and there are no others. */
  ghost predicate Started(ws: map<Watch, nat>, rs: map<nat, Watch>, next: nat,
                          ws': map<Watch, nat>, rs': map<nat, Watch>, next': nat)
  {
    && (forall w | w in ws' && w !in ws :: next <= ws'[w] < next' && ws'[w] in rs' && rs'[ws'[w]] == w)
    && (forall h | h in rs' && h !in rs :: rs'[h] in ws' && rs'[h] !in ws && ws'[rs'[h]] == h)
  }

  lemma StopOne(ws0: map<Watch, nat>, rs0: map<nat, Watch>, ws: map<Watch, nat>, rs: map<nat, Watch>, next: nat,
      w: Watch)
    requires Paired(ws0, rs0, next) && Paired(ws, rs, next) && Stopped(ws0, rs0, ws, rs)
    requires ws.Keys <= ws0.Keys && rs.Keys <= rs0.Keys && w in ws
    ensures Paired(ws - {w}, rs - {ws[w]}, next) && Stopped(ws0, rs0, ws - {w}, rs - {ws[w]})
  {
  }

  lemma StartOne(ws0: map<Watch, nat>, rs0: map<nat, Watch>, next0: nat,
                 ws: map<Watch, nat>, rs: map<nat, Watch>, next: nat, w: Watch)
    requires Paired(ws, rs, next) && Started(ws0, rs0, next0, ws, rs, next)
    requires next0 <= next && ws0.Keys <= ws.Keys && w !in ws
    ensures Paired(ws[w := next], rs[next := w], next + 1)
    ensures Started(ws0, rs0, next0, ws[w := next], rs[next := w], next + 1)
  {
  }

  // ---------------------------------------------------------------------------
  // Steps

  /** The locked sections, with the outcome of the API calls made in them, and edits
      of the catalog by anyone else. */
  datatype Event =
    | Sync(rs: seq<Registration>)
    | Reap(scheduled: set<Key>)
    | Poll(w: Watch, queryOk: bool)
    | SyncFull(clientOk: bool, failedDeregs: set<string>, failedRegs: set<Key>)
    | Outside(catalog: Instances)

  ghost predicate Step(cfg: Config, s: State, e: Event, s': State) {
    match e
    case Sync(rs) =>
      s' == s.(serviceNames := IndexNames(rs), namespaces := IndexRegs(rs), initialSync := true)
    case Reap(ks) =>
      // A failed query schedules nothing for its service.
      s.initialSync && ks <= ReapTargets(cfg, s) &&
      Scheduled(s.deregs, ks, s'.deregs) && s' == s.(deregs := s'.deregs)
    case Poll(w, ok) =>
      // A cancelled watcher may still finish the pass it is in.
      w in s.started &&
      Scheduled(s.deregs, if ok then WatchTargets(cfg, s, w) else {}, s'.deregs) && s' == s.(deregs := s'.deregs)
    case SyncFull(ok, failedDeregs, failedRegs) =>
      if !ok then s' == s else
        WatchersUpdated(s, s') &&
        s' == s.(deregs := map[], catalog := Rewritten(s, failedDeregs, failedRegs),
                 watchers := s'.watchers, running := s'.running, started := s'.started, nextHandle := s'.nextHandle)
    case Outside(c) =>
      s' == s.(catalog := c)
  }

  ghost predicate SameButWatchers(s: State, t: State) {
    t == s.(watchers := t.watchers, running := t.running, started := t.started, nextHandle := t.nextHandle)
  }

  /** First the watchers, then the catalog. */
  lemma RewrittenOk(cfg: Config, s: State, t: State, failedDeregs: set<string>, failedRegs: set<Key>, s': State)
    requires StateOk(cfg, s) && WatcherInv(t) && WatchersUpdated(s, t) && SameButWatchers(s, t)
    requires s' == t.(deregs := map[], catalog := Rewritten(t, failedDeregs, failedRegs))
    ensures StateOk(cfg, s') && Step(cfg, s, SyncFull(true, failedDeregs, failedRegs), s')
  {
  }

  /** The state init leaves, over any catalog. */
  ghost function Init(c: Instances): State {
    State(map[], map[], map[], map[], map[], {}, 0, false, c)
  }

  lemma IndexInvFromList(cfg: Config, s: State, rs: seq<Registration>)
    requires s.serviceNames == IndexNames(rs) && s.namespaces == IndexRegs(rs)
    requires NamespacesMatch(cfg, rs)
    ensures IndexInv(cfg, s)
  {
    forall ns, id | ns in s.namespaces && id in s.namespaces[ns]
      ensures var svc := s.namespaces[ns][id].service;
              svc.ns == ns && svc.id == id && svc.name in NamesOf(s.serviceNames, ns)
    {
      assert s.namespaces[ns][id] == Last(rs, ns, id);
    }
  }
}
