/** One reconcile of a config entry resource: the decisions ReconcileEntry makes, with
    every API call free to fail, and what a single reconcile achieves. */
module Reconciling {
  import opened Common
  import opened IntentionMatch
  import opened ConfigEntries

  /** A failed write may have been applied all the same: the reply got lost. */
  datatype Outcome = Done | Failed(applied: bool) {
    predicate Applied() { Done? || applied }
  }

  /** How the API calls of one reconcile turn out. Each is made at most once. */
  datatype Calls = Calls(
    getOk: bool,          // reading the resource
    clientOk: bool,       // creating the Consul client
    update: Outcome,      // updating the resource
    consulGetOk: bool,    // reading the entry
    ensureOk: bool,       // ensuring the Consul namespace exists
    write: Outcome,       // writing the entry ...
    stored: Entry,        // ... and how Consul stores it
    delete: Outcome,      // deleting the entry
    status: Outcome)      // updating the status

  datatype Stores = Stores(kube: map<string, Resource>, consul: map<EntryKey, Entry>)

  datatype Result = Result(s: Stores, ok: bool)

  // ---------------------------------------------------------------------------
  // The Kubernetes API

  function HasFinalizer(r: Resource): bool {
    FINALIZER_NAME in r.finalizers
  }

  /** The finalizers without the given one. */
  function Removed(fs: seq<string>, f: string): (r: seq<string>)
    ensures f !in r
    ensures forall g | g != f :: multiset(r)[g] == multiset(fs)[g]
  {
    if fs == [] then []
    else
      assert fs == fs[..|fs| - 1] + [fs[|fs| - 1]];
      Removed(fs[..|fs| - 1], f) + if fs[|fs| - 1] == f then [] else [fs[|fs| - 1]]
  }

  /** The order of the others stays: a list is treated element by element. */
  lemma RemovedSnoc(fs: seq<string>, g: string, f: string)
    ensures Removed([], f) == [] && Removed(fs + [g], f) == Removed(fs, f) + if g == f then [] else [g]
  {
    assert (fs + [g])[..|fs|] == fs;
  }

  /** An object being deleted disappears with its last finalizer. */
  function Persisted(kube: map<string, Resource>, name: string, r: Resource): map<string, Resource> {
    if r.deleting && r.finalizers == [] then kube - {name} else kube[name := r]
  }

  /** Updating the resource writes everything but the status. */
  function Updated(kube: map<string, Resource>, name: string, r: Resource, o: Outcome): map<string, Resource>
    requires name in kube
  {
    if o.Applied() then Persisted(kube, name, r.(status := kube[name].status)) else kube
  }

  function WithStatus(s: Stores, name: string, status: Status, o: Outcome): Stores {
    if o.Applied() && name in s.kube then s.(kube := s.kube[name := s.kube[name].(status := status)]) else s
  }

  // ---------------------------------------------------------------------------
  // The reconcile

  function Fail(s: Stores, name: string, status: Status, c: Calls): Result {
    Result(WithStatus(s, name, status, c.status), false)
  }

  function Succeed(s: Stores, name: string, c: Calls): Result {
    Result(WithStatus(s, name, True, c.status), c.status.Done?)
  }

  /** Writes the entry; a failure is reported under the given status. */
  function Write(s: Stores, name: string, k: EntryKey, onError: Status, c: Calls): Result {
    var written := if c.write.Applied() then s.(consul := s.consul[k := c.stored]) else s;
    if c.write.Done? then Succeed(written, name, c) else Fail(written, name, onError, c)
  }

  function Reconcile(cfg: Config, s: Stores, name: string, c: Calls): Result {
    ReconcileIf(cfg, s, name, MatchesNow(cfg, s, name), c)
  }

  /** Whether the resource matches the entry Consul holds under its key. */
  predicate MatchesNow(cfg: Config, s: Stores, name: string) {
    && name in s.kube && KeyOf(cfg, s.kube[name]) in s.consul
    && MatchesConsul(cfg.json, s.kube[name], s.consul[KeyOf(cfg, s.kube[name])])
  }

  /** The reconcile, given the outcome of the match. */
  function ReconcileIf(cfg: Config, s: Stores, name: string, matches: bool, c: Calls): Result {
    if !c.getOk then Result(s, false)
    else if name !in s.kube then Result(s, true)
    else if !c.clientOk then Result(s, false)
    else
      var r := s.kube[name];
      if r.deleting then
        if HasFinalizer(r) then Finalize(cfg, s, name, c) else Result(s, true)
      else if HasFinalizer(r) then SyncEntry(cfg, s, name, matches, c)
      else
        var s' := s.(kube := Updated(s.kube, name, r.(finalizers := r.finalizers + [FINALIZER_NAME]), c.update));
        if c.update.Done? then SyncEntry(cfg, s', name, matches, c) else Result(s', false)
  }

  /** The resource is being deleted and waits for us. */
  function Finalize(cfg: Config, s: Stores, name: string, c: Calls): Result
    requires name in s.kube
  {
    var r := s.kube[name];
    var k := KeyOf(cfg, r);
    if !c.consulGetOk then Result(s, false)
    else
      var ours := k in s.consul && Owner(s.consul[k]) == cfg.datacenter;
      var s' := if ours && c.delete.Applied() then s.(consul := s.consul - {k}) else s;
      if ours && !c.delete.Done? then Fail(s', name, False, c)
      else
        Result(s'.(kube := Updated(s.kube, name, r.(finalizers := Removed(r.finalizers, FINALIZER_NAME)), c.update)),
               c.update.Done?)
  }

  /** The resource is live and has our finalizer. */
  function SyncEntry(cfg: Config, s: Stores, name: string, matches: bool, c: Calls): Result
    requires name in s.kube
  {
    var r := s.kube[name];
    var k := KeyOf(cfg, r);
    if !c.consulGetOk then Fail(s, name, False, c)
    else if k !in s.consul then
      if cfg.enableNamespaces && !c.ensureOk then Fail(s, name, False, c) else Write(s, name, k, False, c)
    else
      var e := s.consul[k];
      var foreign := Owner(e) != cfg.datacenter;
      if foreign && !Migrates(r) then Fail(s, name, False, c)
      else if !matches then
        if foreign then Fail(s, name, False, c) else Write(s, name, k, Unknown, c)
      else if foreign then Write(s, name, k, Unknown, c)
      else if r.status != True then Succeed(s, name, c)
      else Result(s, true)
  }

  predicate Migrates(r: Resource) {
    MIGRATE_ENTRY_KEY in r.annotations && r.annotations[MIGRATE_ENTRY_KEY] == "true"
  }

  // ---------------------------------------------------------------------------
  // What one reconcile achieves

  /** Consul stores what it is given in one of its ways. */
  ghost predicate CallsOk(cfg: Config, s: Stores, name: string, c: Calls) {
    name in s.kube ==> StoredAs(ToConsul(cfg.datacenter, s.kube[name]), c.stored)
  }

  ghost predicate ConfigOk(cfg: Config) {
    cfg.datacenter != "" && Faithful(cfg.json)
  }

  predicate Ours(cfg: Config, consul: map<EntryKey, Entry>, k: EntryKey) {
    k in consul && Owner(consul[k]) == cfg.datacenter
  }

  /** Consul holds an entry owned by this datacenter, and the status says that it is synced. */
  ghost predicate Recorded(cfg: Config, s: Stores, name: string) {
    && name in s.kube
    && var r := s.kube[name];
       !r.deleting && HasFinalizer(r) && r.status == True && Ours(cfg, s.consul, KeyOf(cfg, r))
  }

  /** And the entry matches. */
  ghost predicate Synced(cfg: Config, s: Stores, name: string) {
    Recorded(cfg, s, name) && MatchesConsul(cfg.json, s.kube[name], s.consul[KeyOf(cfg, s.kube[name])])
  }

  /** Synced exactly if the Types of the entry are in order. */
  ghost predicate SyncedInOrder(cfg: Config, s: Stores, name: string) {
    Recorded(cfg, s, name) && (Synced(cfg, s, name) <==> InOrder(cfg.json, s.consul[KeyOf(cfg, s.kube[name])]))
  }

  /** A success left the matching entry alone, or wrote it. */
  lemma SyncEntryOk(cfg: Config, s: Stores, name: string, matches: bool, c: Calls)
    requires name in s.kube && (matches ==> KeyOf(cfg, s.kube[name]) in s.consul)
    requires SyncEntry(cfg, s, name, matches, c).ok
    ensures var s', r := SyncEntry(cfg, s, name, matches, c).s, s.kube[name];
            var k := KeyOf(cfg, r);
            && name in s'.kube && s'.kube[name] == r.(status := True)
            && ((s'.consul == s.consul && matches && Ours(cfg, s.consul, k)) || s'.consul == s.consul[k := c.stored])
  {
  }

  lemma SyncEntrySynced(cfg: Config, s: Stores, name: string, c: Calls)
    requires ConfigOk(cfg) && CallsOk(cfg, s, name, c)
    requires name in s.kube && !s.kube[name].deleting && HasFinalizer(s.kube[name])
    requires SyncEntry(cfg, s, name, MatchesNow(cfg, s, name), c).ok
    ensures SyncedInOrder(cfg, SyncEntry(cfg, s, name, MatchesNow(cfg, s, name), c).s, name)
  {
    var r := s.kube[name];
    SyncEntryOk(cfg, s, name, MatchesNow(cfg, s, name), c);
    RecordedInOrder(cfg, s, name, c, SyncEntry(cfg, s, name, MatchesNow(cfg, s, name), c).s);
  }

  lemma RecordedInOrder(cfg: Config, s: Stores, name: string, c: Calls, s': Stores)
    requires ConfigOk(cfg) && CallsOk(cfg, s, name, c)
    requires name in s.kube && !s.kube[name].deleting && HasFinalizer(s.kube[name])
    requires name in s'.kube && s'.kube[name] == s.kube[name].(status := True)
    requires var k := KeyOf(cfg, s.kube[name]);
             || (s'.consul == s.consul && MatchesNow(cfg, s, name) && Ours(cfg, s.consul, k))
             || s'.consul == s.consul[k := c.stored]
    ensures SyncedInOrder(cfg, s', name)
  {
    var r := s.kube[name];
    var e := s'.consul[KeyOf(cfg, r)];
    SameSpec(cfg, r, s'.kube[name]);
    if s'.consul == s.consul && MatchesNow(cfg, s, name) && Ours(cfg, s.consul, KeyOf(cfg, r)) {
      StoredUnchanged(e);
      StoredMatchesExactlyWhen(cfg.json, r, e, e);
    } else {
      WriteMatches(cfg.json, cfg.datacenter, r, c.stored);
    }
  }

  lemma StoredUnchanged(e: Entry)
    ensures StoredAs(e, e)
  {
  }

  /** Finalizers and status have no part in what is written or matched. */
  lemma SameSpec(cfg: Config, r: Resource, r': Resource)
    requires r' == r.(finalizers := r'.finalizers, status := r'.status, deleting := r'.deleting)
    ensures KeyOf(cfg, r') == KeyOf(cfg, r) && ToConsul(cfg.datacenter, r') == ToConsul(cfg.datacenter, r)
    ensures forall e :: MatchesConsul(cfg.json, r', e) == MatchesConsul(cfg.json, r, e)
  {
  }

  /** A reconcile of a live resource that reports success leaves an entry of ours, the
      finalizer and status True, and the entry matches exactly when its Types are in order. */
  lemma SuccessMeansSynced(cfg: Config, s: Stores, name: string, c: Calls)
    requires ConfigOk(cfg) && CallsOk(cfg, s, name, c)
    requires name in s.kube && !s.kube[name].deleting
    requires Reconcile(cfg, s, name, c).ok
    ensures SyncedInOrder(cfg, Reconcile(cfg, s, name, c).s, name)
  {
    var r := s.kube[name];
    if HasFinalizer(r) {
      SyncEntrySynced(cfg, s, name, c);
    } else {
      var r' := r.(finalizers := r.finalizers + [FINALIZER_NAME]);
      SameSpec(cfg, r, r');
      SyncEntrySynced(cfg, s.(kube := s.kube[name := r']), name, c);
    }
  }

  /** When no call fails, a live resource is synced unless Consul holds an entry of
      someone else's that the resource may not take over. */
  lemma SucceedsExactlyWhen(cfg: Config, s: Stores, name: string, c: Calls)
    requires name in s.kube && !s.kube[name].deleting
    requires c.getOk && c.clientOk && c.update.Done? && c.consulGetOk && c.ensureOk && c.write.Done? && c.status.Done?
    ensures var r := s.kube[name];
            var k := KeyOf(cfg, r);
            Reconcile(cfg, s, name, c).ok <==>
              k !in s.consul || Owner(s.consul[k]) == cfg.datacenter
              || (Migrates(r) && MatchesConsul(cfg.json, r, s.consul[k]))
  {
  }

  /** Fixpoint: once synced, let Consul return the entry stored in another of its ways. The
      resource still matches it exactly when the Types are in order, as those of the synced
      entry itself are; then a further reconcile writes nothing to Consul whatever its
      calls do, and if no call fails it changes nothing at all. */
  lemma SyncedIsFixpoint(cfg: Config, s: Stores, name: string, c: Calls, e: Entry)
    requires ConfigOk(cfg) && Synced(cfg, s, name) && StoredAs(s.consul[KeyOf(cfg, s.kube[name])], e)
    ensures var s' := s.(consul := s.consul[KeyOf(cfg, s.kube[name]) := e]);
            && (MatchesNow(cfg, s', name) <==> InOrder(cfg.json, e))
            && (InOrder(cfg.json, e) ==> Reconcile(cfg, s', name, c).s.consul == s'.consul)
            && (InOrder(cfg.json, e) && c.getOk && c.clientOk && c.consulGetOk ==>
                  Reconcile(cfg, s', name, c) == Result(s', true))
    ensures InOrder(cfg.json, s.consul[KeyOf(cfg, s.kube[name])])
  {
    var r := s.kube[name];
    var was := s.consul[KeyOf(cfg, r)];
    StoredMatchesExactlyWhen(cfg.json, r, was, e);
    StoredMatchesExactlyWhen(cfg.json, r, was, was);
  }

  /** A deleting resource whose calls succeed is gone from Consul if it was ours, and
      the finalizer is dropped; entries of others stay. */
  lemma DeletionCompletes(cfg: Config, s: Stores, name: string, c: Calls)
    requires name in s.kube && s.kube[name].deleting && HasFinalizer(s.kube[name])
    requires c.getOk && c.clientOk && c.consulGetOk && c.delete.Done? && c.update.Done?
    ensures var res := Reconcile(cfg, s, name, c);
            var k := KeyOf(cfg, s.kube[name]);
            && res.ok
            && (name in res.s.kube ==> !HasFinalizer(res.s.kube[name]))
            && res.s.consul == if k in s.consul && Owner(s.consul[k]) == cfg.datacenter then s.consul - {k}
                else s.consul
  {
  }

  // ---------------------------------------------------------------------------
  // Ownership

  /** The entry was taken over: the resource asks for migration and already matched, the
      tag is transferred, the content is the same, and it matches the old entry unless
      Consul now reverses the order of its sources. */
  ghost predicate Migrated(cfg: Config, r: Resource, e: Entry, e': Entry) {
    && Migrates(r) && MatchesConsul(cfg.json, r, e)
    && Owner(e') == cfg.datacenter
    && e'.name == e.name && SameContent(cfg.json, e.body, e'.body)
    && (InOrder(cfg.json, e') ==> MatchesBody(cfg.json, e.body, e'.body))
  }

  /** An entry of another owner is written over only where the resource asks for it and
      matches. */
  predicate MayWrite(cfg: Config, consul: map<EntryKey, Entry>, r: Resource, matches: bool) {
    KeyOf(cfg, r) in consul && !Ours(cfg, consul, KeyOf(cfg, r)) ==> matches && Migrates(r)
  }

  lemma SyncEntryShape(cfg: Config, s: Stores, name: string, matches: bool, c: Calls)
    requires name in s.kube
    ensures var consul', r := SyncEntry(cfg, s, name, matches, c).s.consul, s.kube[name];
            consul' == s.consul || (MayWrite(cfg, s.consul, r, matches)
                && consul' == s.consul[KeyOf(cfg, r) := c.stored])
  {
  }

  lemma FinalizeShape(cfg: Config, s: Stores, name: string, c: Calls)
    requires name in s.kube
    ensures var consul', k := Finalize(cfg, s, name, c).s.consul, KeyOf(cfg, s.kube[name]);
            consul' == s.consul || (Ours(cfg, s.consul, k) && consul' == s.consul - {k})
  {
  }

  /** What a reconcile can do to Consul: nothing, write the entry of its resource's key
      if it may, or delete that entry if it is ours. */
  lemma ConsulShape(cfg: Config, s: Stores, name: string, matches: bool, c: Calls)
    ensures var consul' := ReconcileIf(cfg, s, name, matches, c).s.consul;
            || consul' == s.consul
            || (name in s.kube && var r := s.kube[name]; var k := KeyOf(cfg, r);
                || (!r.deleting && MayWrite(cfg, s.consul, r, matches) && consul' == s.consul[k := c.stored])
                || (r.deleting && Ours(cfg, s.consul, k) && consul' == s.consul - {k}))
  {
    if name in s.kube {
      var r := s.kube[name];
      var r' := r.(finalizers := r.finalizers + [FINALIZER_NAME]);
      SameSpec(cfg, r, r');
      SyncEntryShape(cfg, s, name, matches, c);
      SyncEntryShape(cfg, s.(kube := s.kube[name := r']), name, matches, c);
      FinalizeShape(cfg, s, name, c);
    }
  }

  lemma WritesOwnKey(cfg: Config, s: Stores, name: string, matches: bool, c: Calls, k: EntryKey)
    requires k in s.consul
    requires Owner(s.consul[k]) != cfg.datacenter || name !in s.kube || k != KeyOf(cfg, s.kube[name])
    ensures var consul' := ReconcileIf(cfg, s, name, matches, c).s.consul;
            && k in consul'
            && (consul'[k] == s.consul[k] ||
                (name in s.kube && k == KeyOf(cfg, s.kube[name]) && !s.kube[name].deleting &&
                 matches && Migrates(s.kube[name]) && consul'[k] == c.stored))
  {
    ConsulShape(cfg, s, name, matches, c);
  }

  /** Entries under other keys, and entries of other owners except by migration, are
      neither deleted nor changed, whatever fails. */
  lemma OthersEntriesKept(cfg: Config, s: Stores, name: string, c: Calls, k: EntryKey)
    requires ConfigOk(cfg) && CallsOk(cfg, s, name, c)
    requires k in s.consul
    requires Owner(s.consul[k]) != cfg.datacenter || name !in s.kube || k != KeyOf(cfg, s.kube[name])
    ensures var consul' := Reconcile(cfg, s, name, c).s.consul;
            && k in consul'
            && (consul'[k] == s.consul[k] ||
                (name in s.kube && k == KeyOf(cfg, s.kube[name]) && !s.kube[name].deleting &&
                 Migrated(cfg, s.kube[name], s.consul[k], consul'[k])))
  {
    WritesOwnKey(cfg, s, name, MatchesNow(cfg, s, name), c, k);
    if name in s.kube && k == KeyOf(cfg, s.kube[name]) {
      var r := s.kube[name];
      WriteMatches(cfg.json, cfg.datacenter, r, c.stored);
      if MatchesConsul(cfg.json, r, s.consul[k]) {
        StoredContent(cfg, r, s.consul[k], c.stored);
      }
    }
  }

  /** What a resource writes has the content of the entry it matches. */
  lemma StoredContent(cfg: Config, r: Resource, e: Entry, stored: Entry)
    requires ConfigOk(cfg) && MatchesConsul(cfg.json, r, e) && StoredAs(ToConsul(cfg.datacenter, r), stored)
    ensures SameContent(cfg.json, e.body, stored.body)
    ensures InOrder(cfg.json, stored) ==> MatchesBody(cfg.json, e.body, stored.body)
  {
    var own := ToBody(r.spec);
    MatchingContent(cfg.json, own, e.body);
    WriteMatches(cfg.json, cfg.datacenter, r, stored);
    MatchEquivalence(cfg.json, own, e.body, own);
    MatchEquivalence(cfg.json, e.body, own, stored.body);
  }
}
