/** Config entry controllers over whole runs: one controller per datacenter, each with
    its own Kubernetes cluster, all sharing one Consul store. Users create, edit and
    delete resources; API calls fail at will; others edit Consul. */
module ReconcileRuns {
  import opened Common
  import opened IntentionMatch
  import opened ConfigEntries
  import opened Reconciling

  datatype World = World(kube: map<string, map<string, Resource>>, consul: map<EntryKey, Entry>)

  datatype Event =
    | Create(dc: string, name: string, r: Resource)
    | Edit(dc: string, name: string, r: Resource)
    | RequestDeletion(dc: string, name: string)
    | ReconcileAt(dc: string, name: string, calls: Calls)
    | Outside(consul: map<EntryKey, Entry>)

  /** The controllers by datacenter. */
  type Controllers = map<string, Config>

  ghost predicate ControllersOk(cs: Controllers) {
    forall dc | dc in cs :: cs[dc].datacenter == dc && ConfigOk(cs[dc])
  }

  ghost predicate WithKube(w: World, dc: string, kube: map<string, Resource>, w': World) {
    w' == w.(kube := w.kube[dc := kube])
  }

  ghost predicate Step(cs: Controllers, w: World, e: Event, w': World) {
    match e
    case Create(dc, name, r) =>
      dc in w.kube && name !in w.kube[dc] && !r.deleting && WithKube(w, dc, w.kube[dc][name := r], w')
    case Edit(dc, name, r) =>
      // Nobody else strips our finalizer, and an entry's key is immutable.
      && dc in w.kube && dc in cs && name in w.kube[dc]
      && var was := w.kube[dc][name];
         && r.deleting == was.deleting && KeyOf(cs[dc], r) == KeyOf(cs[dc], was)
         && (HasFinalizer(was) ==> HasFinalizer(r))
         && WithKube(w, dc, Persisted(w.kube[dc], name, r), w')
    case RequestDeletion(dc, name) =>
      && dc in w.kube && name in w.kube[dc]
      && WithKube(w, dc, Persisted(w.kube[dc], name, w.kube[dc][name].(deleting := true)), w')
    case ReconcileAt(dc, name, calls) =>
      && dc in w.kube && dc in cs
      && var s := Stores(w.kube[dc], w.consul);
         var s' := Reconcile(cs[dc], s, name, calls).s;
         CallsOk(cs[dc], s, name, calls) && w' == World(w.kube[dc := s'.kube], s'.consul)
    case Outside(consul) =>
      // Nobody else stamps the tag of one of our datacenters.
      && w' == w.(consul := consul)
      && forall k | k in consul && Owner(consul[k]) in cs ::
           k in w.consul && Owner(w.consul[k]) == Owner(consul[k])
  }

  ghost predicate IsRun(cs: Controllers, run: seq<World>, es: seq<Event>) {
    && ControllersOk(cs)
    && |run| == |es| + 1
    && run[0].kube.Keys == cs.Keys
    && forall i | 0 <= i < |es| :: Step(cs, run[i], es[i], run[i + 1])
  }

  // ---------------------------------------------------------------------------
  // No dangling entries

  /** Some resource with this Consul key exists and carries the finalizer. */
  ghost predicate Held(cfg: Config, kube: map<string, Resource>, k: EntryKey) {
    exists name :: name in kube && KeyOf(cfg, kube[name]) == k && HasFinalizer(kube[name])
  }

  /** Every entry owned by one of the datacenters is held there. */
  ghost predicate NoDangling(cs: Controllers, w: World) {
    && w.kube.Keys == cs.Keys
    && forall k | k in w.consul && Owner(w.consul[k]) in cs ::
         var dc := Owner(w.consul[k]);
         Held(cs[dc], w.kube[dc], k)
  }

  /** Only the status of the resource changes when its entry is synced. */
  lemma SyncEntryKube(cfg: Config, s: Stores, name: string, matches: bool, c: Calls)
    requires name in s.kube
    ensures var kube', r := SyncEntry(cfg, s, name, matches, c).s.kube, s.kube[name];
            || kube' == s.kube
            || kube' == s.kube[name := r.(status := True)]
            || kube' == s.kube[name := r.(status := False)]
            || kube' == s.kube[name := r.(status := Unknown)]
  {
  }

  lemma FinalizeKube(cfg: Config, s: Stores, name: string, c: Calls)
    requires name in s.kube
    ensures var kube', r := Finalize(cfg, s, name, c).s.kube, s.kube[name];
            || kube' == s.kube
            || kube' == s.kube[name := r.(status := False)]
            || kube' == Persisted(s.kube, name, r.(finalizers := Removed(r.finalizers, FINALIZER_NAME)))
  {
    var r := s.kube[name];
    var r' := r.(finalizers := Removed(r.finalizers, FINALIZER_NAME));
    assert r'.(status := r.status) == r';
  }

  /** Entries that a reconcile leaves with another owner were there before. */
  lemma ForeignUnchanged(cfg: Config, s: Stores, name: string, matches: bool, c: Calls, k: EntryKey)
    requires name in s.kube ==> Owner(c.stored) == cfg.datacenter
    requires var s' := ReconcileIf(cfg, s, name, matches, c).s;
             k in s'.consul && Owner(s'.consul[k]) != cfg.datacenter
    ensures k in s.consul && ReconcileIf(cfg, s, name, matches, c).s.consul[k] == s.consul[k]
  {
    ConsulShape(cfg, s, name, matches, c);
  }

  /** A reconcile leaves other resources alone. */
  lemma OtherResourcesKept(cfg: Config, s: Stores, name: string, matches: bool, c: Calls, other: string)
    requires other != name
    ensures var kube' := ReconcileIf(cfg, s, name, matches, c).s.kube;
            (other in kube' <==> other in s.kube) && (other in s.kube ==> kube'[other] == s.kube[other])
  {
    if name in s.kube {
      var r := s.kube[name];
      FinalizeKube(cfg, s, name, c);
      SyncEntryOthers(cfg, s, name, matches, c, other);
      var r' := r.(finalizers := r.finalizers + [FINALIZER_NAME]);
      SyncEntryOthers(cfg, s.(kube := s.kube[name := r']), name, matches, c, other);
    }
  }

  lemma SyncEntryOthers(cfg: Config, s: Stores, name: string, matches: bool, c: Calls, other: string)
    requires name in s.kube && other != name
    ensures var kube' := SyncEntry(cfg, s, name, matches, c).s.kube;
            (other in kube' <==> other in s.kube) && (other in s.kube ==> kube'[other] == s.kube[other])
  {
    SyncEntryKube(cfg, s, name, matches, c);
  }

  lemma FinalizeGuards(cfg: Config, s: Stores, name: string, c: Calls)
    requires name in s.kube && HasFinalizer(s.kube[name])
    requires var s' := Finalize(cfg, s, name, c).s;
             var k := KeyOf(cfg, s.kube[name]);
             k in s'.consul && Owner(s'.consul[k]) == cfg.datacenter
    ensures var s' := Finalize(cfg, s, name, c).s;
            name in s'.kube && HasFinalizer(s'.kube[name]) && KeyOf(cfg, s'.kube[name]) == KeyOf(cfg, s.kube[name])
  {
  }

  lemma SyncEntryGuards(cfg: Config, s: Stores, name: string, matches: bool, c: Calls)
    requires name in s.kube && HasFinalizer(s.kube[name])
    ensures var s' := SyncEntry(cfg, s, name, matches, c).s;
            name in s'.kube && HasFinalizer(s'.kube[name]) && KeyOf(cfg, s'.kube[name]) == KeyOf(cfg, s.kube[name])
  {
    SyncEntryKube(cfg, s, name, matches, c);
  }

  /** The finalizer guards the entry: if Consul is left holding an entry of ours under the
      resource's key, the resource is left with the finalizer or never had it. */
  lemma FinalizerGuards(cfg: Config, s: Stores, name: string, matches: bool, c: Calls)
    requires name in s.kube
    requires var s' := ReconcileIf(cfg, s, name, matches, c).s;
             var k := KeyOf(cfg, s.kube[name]);
             k in s'.consul && Owner(s'.consul[k]) == cfg.datacenter
    ensures var s' := ReconcileIf(cfg, s, name, matches, c).s;
            || (s'.consul == s.consul && !HasFinalizer(s.kube[name]))
            || (name in s'.kube && HasFinalizer(s'.kube[name]) && KeyOf(cfg, s'.kube[name]) == KeyOf(cfg, s.kube[name]))
  {
    var r := s.kube[name];
    if HasFinalizer(r) {
      if c.getOk && c.clientOk {
        if r.deleting {
          FinalizeGuards(cfg, s, name, c);
        } else {
          SyncEntryGuards(cfg, s, name, matches, c);
        }
      }
    } else if !r.deleting {
      var r' := r.(finalizers := r.finalizers + [FINALIZER_NAME]);
      SyncEntryGuards(cfg, s.(kube := s.kube[name := r']), name, matches, c);
    }
  }

  lemma EntriesElsewhere(cfg: Config, s: Stores, name: string, matches: bool, c: Calls, k: EntryKey)
    requires name in s.kube ==> k != KeyOf(cfg, s.kube[name])
    ensures var consul' := ReconcileIf(cfg, s, name, matches, c).s.consul;
            (k in consul' <==> k in s.consul) && (k in consul' ==> consul'[k] == s.consul[k])
  {
    ConsulShape(cfg, s, name, matches, c);
  }

  lemma ReconcileKeepsHeld(cfg: Config, s: Stores, name: string, matches: bool, c: Calls, k: EntryKey)
    requires forall j | j in s.consul && Owner(s.consul[j]) == cfg.datacenter :: Held(cfg, s.kube, j)
    requires var s' := ReconcileIf(cfg, s, name, matches, c).s;
             k in s'.consul && Owner(s'.consul[k]) == cfg.datacenter
    ensures Held(cfg, ReconcileIf(cfg, s, name, matches, c).s.kube, k)
  {
    var s' := ReconcileIf(cfg, s, name, matches, c).s;
    if name in s.kube && k == KeyOf(cfg, s.kube[name]) {
      FinalizerGuards(cfg, s, name, matches, c);
      if s'.consul == s.consul && !HasFinalizer(s.kube[name]) {
        var n :| n in s.kube && KeyOf(cfg, s.kube[n]) == k && HasFinalizer(s.kube[n]);
        OtherResourcesKept(cfg, s, name, matches, c, n);
      }
    } else {
      EntriesElsewhere(cfg, s, name, matches, c, k);
      var n :| n in s.kube && KeyOf(cfg, s.kube[n]) == k && HasFinalizer(s.kube[n]);
      OtherResourcesKept(cfg, s, name, matches, c, n);
    }
  }

  /** Users cannot make an entry dangle either. */
  lemma UserStepKeepsHeld(cs: Controllers, w: World, e: Event, w': World, dc: string, k: EntryKey)
    requires Step(cs, w, e, w') && (e.Create? || e.Edit? || e.RequestDeletion?)
    requires dc in w.kube && dc in cs && Held(cs[dc], w.kube[dc], k)
    ensures dc in w'.kube && Held(cs[dc], w'.kube[dc], k)
  {
    var n :| n in w.kube[dc] && KeyOf(cs[dc], w.kube[dc][n]) == k && HasFinalizer(w.kube[dc][n]);
    assert n in w'.kube[dc] && KeyOf(cs[dc], w'.kube[dc][n]) == k && HasFinalizer(w'.kube[dc][n]);
  }

  lemma StepKeepsNoDangling(cs: Controllers, w: World, e: Event, w': World)
    requires ControllersOk(cs) && NoDangling(cs, w) && Step(cs, w, e, w')
    ensures NoDangling(cs, w')
  {
    forall k | k in w'.consul && Owner(w'.consul[k]) in cs
      ensures Held(cs[Owner(w'.consul[k])], w'.kube[Owner(w'.consul[k])], k)
    {
      var dc := Owner(w'.consul[k]);
      if e.ReconcileAt? {
        var s := Stores(w.kube[e.dc], w.consul);
        var matches := MatchesNow(cs[e.dc], s, e.name);
        if dc == e.dc {
          ReconcileKeepsHeld(cs[dc], s, e.name, matches, e.calls, k);
        } else {
          ForeignUnchanged(cs[e.dc], s, e.name, matches, e.calls, k);
        }
      } else if !e.Outside? {
        UserStepKeepsHeld(cs, w, e, w', dc, k);
      }
    }
  }

  /** No dangling entries: in every run, whatever fails, if Consul holds an entry owned by
      a datacenter then a resource there with that key still exists and carries the
      finalizer. */
  lemma {:induction false} NeverDangling(cs: Controllers, run: seq<World>, es: seq<Event>, i: nat)
    requires IsRun(cs, run, es) && i <= |es|
    requires NoDangling(cs, run[0])
    ensures NoDangling(cs, run[i])
  {
    if i > 0 {
      NeverDangling(cs, run, es, i - 1);
      StepKeepsNoDangling(cs, run[i - 1], es[i - 1], run[i]);
    }
  }

  // ---------------------------------------------------------------------------
  // Ownership across datacenters

  /** The event takes the entry over from its owner. */
  ghost predicate TakesOver(cs: Controllers, w: World, e: Event, w': World, k: EntryKey) {
    && e.ReconcileAt? && e.dc in cs && e.dc in w.kube && e.name in w.kube[e.dc]
    && k in w.consul && k in w'.consul
    && KeyOf(cs[e.dc], w.kube[e.dc][e.name]) == k
    && Migrated(cs[e.dc], w.kube[e.dc][e.name], w.consul[k], w'.consul[k])
  }

  /** Someone other than the owner acts, and nobody outside touches the entry. */
  ghost predicate NotByOwner(w: World, e: Event, owner: string, k: EntryKey) {
    && (e.ReconcileAt? ==> e.dc != owner)
    && (e.Outside? ==> k in w.consul && k in e.consul && e.consul[k] == w.consul[k])
  }

  lemma OwnershipStep(cs: Controllers, w: World, e: Event, w': World, k: EntryKey)
    requires ControllersOk(cs) && Step(cs, w, e, w')
    requires k in w.consul && NotByOwner(w, e, Owner(w.consul[k]), k)
    ensures k in w'.consul && (w'.consul[k] == w.consul[k] || TakesOver(cs, w, e, w', k))
  {
    if e.ReconcileAt? {
      OthersEntriesKept(cs[e.dc], Stores(w.kube[e.dc], w.consul), e.name, e.calls, k);
    }
  }

  /** Step m of the run is someone else's and does not take the entry over. */
  ghost predicate ByOthers(cs: Controllers, run: seq<World>, es: seq<Event>, m: nat, owner: string, k: EntryKey)
    requires m < |es| && |run| == |es| + 1
  {
    NotByOwner(run[m], es[m], owner, k) && !TakesOver(cs, run[m], es[m], run[m + 1], k)
  }

  /** Over any interleaving of reconciles by other datacenters and users' edits, an entry
      stays exactly as it is until one of them takes it over by migration. */
  lemma {:induction false} OwnershipKept(
    cs: Controllers, run: seq<World>, es: seq<Event>, i: nat, j: nat, k: EntryKey, e: Entry)
    requires IsRun(cs, run, es) && i <= j <= |es|
    requires k in run[i].consul && run[i].consul[k] == e
    requires forall m: nat | i <= m < j :: ByOthers(cs, run, es, m, Owner(e), k)
    ensures k in run[j].consul && run[j].consul[k] == e
    decreases j - i
  {
    if i < j {
      OwnershipKept(cs, run, es, i, j - 1, k, e);
      OwnershipRunStep(cs, run, es, j - 1, k, e);
    }
  }

  lemma OwnershipRunStep(cs: Controllers, run: seq<World>, es: seq<Event>, m: nat, k: EntryKey, e: Entry)
    requires IsRun(cs, run, es) && m < |es| && ByOthers(cs, run, es, m, Owner(e), k)
    requires k in run[m].consul && run[m].consul[k] == e
    ensures k in run[m + 1].consul && run[m + 1].consul[k] == e
  {
    OwnershipStep(cs, run[m], es[m], run[m + 1], k);
  }
}
