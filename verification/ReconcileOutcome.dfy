/** The outcome of a reconcile for every combination of failing calls: what is written where,
    which status is recorded, and whether it reports success. */
module ReconcileOutcome {
  import opened Common
  import opened ConfigEntries
  import opened Reconciling

  /** The resource asks for existing entries to be taken over. */
  predicate AsksMigration(r: Resource) {
    "consul.hashicorp.com/migrate-entry" in r.annotations
    && r.annotations["consul.hashicorp.com/migrate-entry"] == "true"
  }

  predicate OwnedBy(consul: map<EntryKey, Entry>, k: EntryKey, dc: string) {
    && k in consul && DATACENTER_KEY in consul[k].meta && consul[k].meta[DATACENTER_KEY] == dc
  }

  // ---------------------------------------------------------------------------
  // Live resources

  /** The situation of a live resource. */
  datatype Live = Live(
    reached: bool,    // the finalizer is there and Consul is asked
    present: bool,    // Consul holds an entry under the key
    ours: bool,
    asks: bool,
    matches: bool)

  function LiveAt(cfg: Config, s: Stores, name: string, matches: bool, c: Calls): Live
    requires name in s.kube
  {
    var r, k := s.kube[name], KeyOf(cfg, s.kube[name]);
    Live(c.getOk && c.clientOk && (FINALIZER_NAME in r.finalizers || c.update.Done?),
         k in s.consul, OwnedBy(s.consul, k, cfg.datacenter), AsksMigration(r), matches)
  }

  /** Nothing has to be written. */
  predicate Settled(l: Live, c: Calls) {
    l.reached && c.consulGetOk && l.ours && l.matches
  }

  /** The entry is written: it is missing and its namespace is there, it is ours and does not
      match, or it is someone else's, matches, and is to be taken over. */
  predicate Writes(cfg: Config, l: Live, c: Calls) {
    && l.reached && c.consulGetOk
    && if !l.present then cfg.enableNamespaces ==> c.ensureOk
       else if l.ours then !l.matches
       else l.asks && l.matches
  }

  /** The status that is recorded, if recording it is not in vain. */
  function Recorded(cfg: Config, l: Live, c: Calls): Status {
    if Settled(l, c) || (Writes(cfg, l, c) && c.write.Done?) then True
    else if Writes(cfg, l, c) && l.present then Unknown
    else False
  }

  predicate Finishes(cfg: Config, l: Live, status: Status, c: Calls) {
    || (Settled(l, c) && (status == True || c.status.Done?))
    || (Writes(cfg, l, c) && c.write.Done? && c.status.Done?)
  }

  lemma SyncEntryOutcome(cfg: Config, s: Stores, name: string, matches: bool, c: Calls, l: Live)
    requires name in s.kube && cfg.datacenter != ""
    requires var r, k := s.kube[name], KeyOf(cfg, s.kube[name]);
             l == Live(true, k in s.consul, OwnedBy(s.consul, k, cfg.datacenter), AsksMigration(r), matches)
    requires matches ==> l.present
    ensures var res, r, k := SyncEntry(cfg, s, name, matches, c), s.kube[name], KeyOf(cfg, s.kube[name]);
            && res.s.consul == (if Writes(cfg, l, c) && c.write.Applied() then s.consul[k := c.stored] else s.consul)
            && res.s.kube == (if c.status.Applied() && !(Settled(l, c) && r.status == True)
                              then s.kube[name := r.(status := Recorded(cfg, l, c))] else s.kube)
            && (res.ok <==> Finishes(cfg, l, r.status, c))
  {
    assert MIGRATE_ENTRY_KEY == "consul.hashicorp.com/migrate-entry";
  }

  /** The finalizers of a live resource afterwards: ours is added unless it is there or the
      update does not get through. */
  function FinalizersAfter(r: Resource, c: Calls): seq<string> {
    if FINALIZER_NAME in r.finalizers || !(c.getOk && c.clientOk && c.update.Applied()) then r.finalizers
    else r.finalizers + [FINALIZER_NAME]
  }

  /** The outcome for a live resource. Consul changes only by the write, and only under the
      resource's key. The status is True exactly if the entry was found or written as it should
      be, Unknown if writing over an entry failed, and False otherwise; nothing is recorded
      before Consul is asked or if it says True already. */
  ghost predicate LiveEnds(cfg: Config, s: Stores, name: string, l: Live, c: Calls, res: Result)
    requires name in s.kube
  {
    var r, k := s.kube[name], KeyOf(cfg, s.kube[name]);
    var records := l.reached && c.status.Applied() && !(Settled(l, c) && r.status == True);
    && res.s.consul == (if Writes(cfg, l, c) && c.write.Applied() then s.consul[k := c.stored] else s.consul)
    && res.s.kube == s.kube[name := r.(finalizers := FinalizersAfter(r, c),
                                       status := if records then Recorded(cfg, l, c) else r.status)]
    && (res.ok <==> Finishes(cfg, l, r.status, c))
  }

  lemma LiveEndsIf(cfg: Config, s: Stores, name: string, matches: bool, c: Calls)
    requires name in s.kube && !s.kube[name].deleting && cfg.datacenter != ""
    requires matches ==> KeyOf(cfg, s.kube[name]) in s.consul
    ensures LiveEnds(cfg, s, name, LiveAt(cfg, s, name, matches, c), c, ReconcileIf(cfg, s, name, matches, c))
  {
    var r, l := s.kube[name], LiveAt(cfg, s, name, matches, c);
    if c.getOk && c.clientOk {
      if FINALIZER_NAME in r.finalizers {
        SyncEntryOutcome(cfg, s, name, matches, c, l);
      } else if c.update.Done? {
        var r' := r.(finalizers := r.finalizers + [FINALIZER_NAME]);
        SameSpec(cfg, r, r');
        SyncEntryOutcome(cfg, s.(kube := s.kube[name := r']), name, matches, c, l);
      }
    }
  }

  lemma LiveOutcome(cfg: Config, s: Stores, name: string, c: Calls)
    requires name in s.kube && !s.kube[name].deleting && cfg.datacenter != ""
    ensures LiveEnds(cfg, s, name, LiveAt(cfg, s, name, MatchesNow(cfg, s, name), c), c, Reconcile(cfg, s, name, c))
  {
    LiveEndsIf(cfg, s, name, MatchesNow(cfg, s, name), c);
  }

  // ---------------------------------------------------------------------------
  // Resources being deleted

  /** The outcome for a resource that is being deleted or is gone. The entry is deleted if it is
      ours; the finalizer is dropped once that is done, and a failure is recorded as False. */
  lemma DeletingOutcome(cfg: Config, s: Stores, name: string, c: Calls)
    requires name in s.kube && s.kube[name].deleting && cfg.datacenter != ""
    ensures var res, r, k := Reconcile(cfg, s, name, c), s.kube[name], KeyOf(cfg, s.kube[name]);
            var waits := FINALIZER_NAME in r.finalizers;
            var deletes := c.getOk && c.clientOk && waits && c.consulGetOk && OwnedBy(s.consul, k, cfg.datacenter);
            var drops := c.getOk && c.clientOk && waits && c.consulGetOk && (deletes ==> c.delete.Done?);
            && res.s.consul == (if deletes && c.delete.Applied() then s.consul - {k} else s.consul)
            && res.s.kube == (if drops && c.update.Applied()
                              then Persisted(s.kube, name, r.(finalizers := Removed(r.finalizers, FINALIZER_NAME)))
                              else if deletes && !drops && c.status.Applied() then s.kube[name := r.(status := False)]
                              else s.kube)
            && (res.ok <==> c.getOk && c.clientOk && (waits ==> drops && c.update.Done?))
  {
    var r := s.kube[name];
    var r' := r.(finalizers := Removed(r.finalizers, FINALIZER_NAME));
    assert r'.(status := r.status) == r';
  }

  lemma MissingOutcome(cfg: Config, s: Stores, name: string, c: Calls)
    requires name !in s.kube
    ensures Reconcile(cfg, s, name, c) == Result(s, c.getOk)
  {
  }
}
