/** Diff and apply: when the sink's caches match the namespace and the calls succeed,
    applying the diff and hearing of the changes leaves nothing to do. */
module SinkFixpoint {
  import opened Common
  import opened KubeTypes
  import opened SinkState

  /** The services in the namespace the sink writes to. */
  type Cluster = map<string, Service>

  /** The informer's key of a service. */
  function KeyFor(namespace: string, name: string): string {
    namespace + "/" + name
  }

  lemma KeysDiffer(namespace: string, n: string, m: string)
    requires n != m
    ensures KeyFor(namespace, n) != KeyFor(namespace, m)
  {
    assert n == KeyFor(namespace, n)[|namespace| + 1..];
    assert m == KeyFor(namespace, m)[|namespace| + 1..];
  }

  ghost predicate ClusterOk(c: Cluster) {
    forall n | n in c :: c[n].name == n
  }

  /** The caches say of a name what the cluster says. */
  ghost predicate FaithfulAt(s: State, namespace: string, c: Cluster, n: string) {
    && (KeyFor(namespace, n) in s.keyToName <==> n in c)
    && (n in c ==> s.keyToName[KeyFor(namespace, n)] == n)
    && (n in s.serviceMap <==> n in c)
    && (n in s.serviceMapConsul <==> n in c && Labelled(c[n]))
    && (n in s.serviceMapConsul ==> s.serviceMapConsul[n] == c[n])
  }

  ghost predicate Faithful(s: State, namespace: string, c: Cluster) {
    forall n :: FaithfulAt(s, namespace, c, n)
  }

  // ---------------------------------------------------------------------------
  // Applying the diff

  /** The cluster after deleting, updating and creating with every call succeeding. */
  function Applied(s: State, namespace: string, c: Cluster): Cluster {
    map n | n in c.Keys + s.sourceServices.Keys && ((n in c && !ToDelete(s, n)) || ToCreate(s, n)) ::
      if ToCreate(s, n) then NewService(n, s.sourceServices[n]).(namespace := namespace)
      else if ToUpdate(s, n) then Retarget(s.serviceMapConsul[n], s.sourceServices[n])
      else c[n]
  }

  /** The three lists Run works through, applied in its order: deletions, then updates,
      then creations. */
  function DeleteAll(c: Cluster, names: seq<string>): Cluster {
    if names == [] then c else DeleteAll(c, names[..|names| - 1]) - {names[|names| - 1]}
  }

  function PutAll(c: Cluster, svcs: seq<Service>): Cluster {
    if svcs == [] then c
    else
      var svc := svcs[|svcs| - 1];
      PutAll(c, svcs[..|svcs| - 1])[svc.name := svc]
  }

  function InNamespace(namespace: string, svcs: seq<Service>): (r: seq<Service>)
    ensures |r| == |svcs| && forall i | 0 <= i < |r| :: r[i] == svcs[i].(namespace := namespace)
  {
    seq(|svcs|, i requires 0 <= i < |svcs| => svcs[i].(namespace := namespace))
  }

  lemma {:induction false} DeleteAllMeaning(c: Cluster, names: seq<string>, n: string)
    ensures n in DeleteAll(c, names) <==> n in c && n !in names
    ensures n in DeleteAll(c, names) ==> DeleteAll(c, names)[n] == c[n]
  {
    if names != [] {
      DeleteAllMeaning(c, names[..|names| - 1], n);
      assert names == names[..|names| - 1] + [names[|names| - 1]];
    }
  }

  lemma {:induction false} PutAllMeaning(c: Cluster, svcs: seq<Service>, n: string)
    requires forall i, j | 0 <= i < j < |svcs| :: svcs[i].name != svcs[j].name
    ensures n in PutAll(c, svcs) <==> n in c || Named(svcs, n)
    ensures !Named(svcs, n) && n in c ==> PutAll(c, svcs)[n] == c[n]
    ensures forall x | x in svcs && x.name == n :: PutAll(c, svcs)[n] == x
  {
    if svcs != [] {
      var init, x := svcs[..|svcs| - 1], svcs[|svcs| - 1];
      PutAllMeaning(c, init, n);
      assert svcs == init + [x];
      assert Named(svcs, n) <==> Named(init, n) || x.name == n by {
        assert x in svcs;
        assert forall y | y in init :: y in svcs;
      }
    }
  }

  /** Working through the lists does what the diff says, name by name. */
  lemma ListsApply(s: State, namespace: string, c: Cluster, create: seq<Service>, update: seq<Service>,
      delete: seq<string>)
    requires Faithful(s, namespace, c) && ClusterOk(c)
    requires CreateList(s, {}, create) && UpdateList(s, {}, update) && DeleteList(s, {}, delete)
    ensures PutAll(PutAll(DeleteAll(c, delete), update), InNamespace(namespace, create)) == Applied(s, namespace, c)
  {
    var c1 := DeleteAll(c, delete);
    var c2 := PutAll(c1, update);
    var created := InNamespace(namespace, create);
    var c3 := PutAll(c2, created);
    forall n
      ensures n in c3 <==> n in Applied(s, namespace, c)
      ensures n in c3 ==> c3[n] == Applied(s, namespace, c)[n]
    {
      assert FaithfulAt(s, namespace, c, n);
      DeleteAllMeaning(c, delete, n);
      PutAllMeaning(c1, update, n);
      PutAllMeaning(c2, created, n);
      NamedExactly(s, create, update, n);
      CreatedNamed(namespace, create, n);
    }
  }

  lemma NamedExactly(s: State, create: seq<Service>, update: seq<Service>, n: string)
    requires CreateList(s, {}, create) && UpdateList(s, {}, update)
    ensures Named(create, n) <==> ToCreate(s, n)
    ensures Named(update, n) <==> ToUpdate(s, n)
    ensures ToUpdate(s, n) ==>
              exists x :: x in update && x.name == n && x == Retarget(s.serviceMapConsul[n], s.sourceServices[n])
  {
  }

  lemma CreatedNamed(namespace: string, create: seq<Service>, n: string)
    ensures Named(InNamespace(namespace, create), n) <==> Named(create, n)
    ensures forall x | x in create && x.name == n :: x.(namespace := namespace) in InNamespace(namespace, create)
  {
    var r := InNamespace(namespace, create);
    forall x | x in create
      ensures x.(namespace := namespace) in r
    {
      var i :| 0 <= i < |create| && create[i] == x;
      assert r[i] == x.(namespace := namespace);
    }
    forall y | y in r
      ensures exists x :: x in create && x.name == y.name
    {
      var i :| 0 <= i < |r| && r[i] == y;
      assert create[i] in create;
    }
  }

  // ---------------------------------------------------------------------------
  // Hearing of the changes

  /** The informer handles a name by what the cluster holds now. */
  function Heard(s: State, namespace: string, c: Cluster, n: string): State {
    if n in c then Upserted(s, KeyFor(namespace, n), c[n]) else Deleted(s, KeyFor(namespace, n))
  }

  /** Handling a name leaves what is known of others. */
  lemma HeardOther(s: State, namespace: string, c: Cluster, n: string, m: string, d: Cluster)
    requires ClusterOk(c) && n != m
    requires KeyFor(namespace, n) in s.keyToName ==> s.keyToName[KeyFor(namespace, n)] == n
    ensures FaithfulAt(s, namespace, d, m) ==> FaithfulAt(Heard(s, namespace, c, n), namespace, d, m)
  {
    KeysDiffer(namespace, n, m);
    HeardLeaves(s, namespace, c, n, KeyFor(namespace, m), m);
  }

  /** The caches agree on a key and a name. */
  ghost predicate AgreeOn(s: State, s': State, key: string, name: string) {
    && (key in s'.keyToName <==> key in s.keyToName)
    && (key in s.keyToName ==> s'.keyToName[key] == s.keyToName[key])
    && (name in s'.serviceMap <==> name in s.serviceMap)
    && (name in s'.serviceMapConsul <==> name in s.serviceMapConsul)
    && (name in s.serviceMapConsul ==> s'.serviceMapConsul[name] == s.serviceMapConsul[name])
  }

  lemma HeardLeaves(s: State, namespace: string, c: Cluster, n: string, key: string, name: string)
    requires ClusterOk(c) && n != name && KeyFor(namespace, n) != key
    requires KeyFor(namespace, n) in s.keyToName ==> s.keyToName[KeyFor(namespace, n)] == n
    ensures AgreeOn(s, Heard(s, namespace, c, n), key, name)
  {
    if n in c {
      UpsertLeaves(s, KeyFor(namespace, n), c[n], key, name);
    } else {
      DeleteLeaves(s, KeyFor(namespace, n), key, name);
    }
  }

  lemma UpsertLeaves(s: State, at: string, svc: Service, key: string, name: string)
    requires at != key && svc.name != name
    ensures AgreeOn(s, Upserted(s, at, svc), key, name)
  {
  }

  lemma DeleteLeaves(s: State, at: string, key: string, name: string)
    requires at != key && (at in s.keyToName ==> s.keyToName[at] != name)
    ensures AgreeOn(s, Deleted(s, at), key, name)
  {
  }

  // ---------------------------------------------------------------------------
  // What the diff leads to

  /** The state in which the loop starts applying. */
  function Evaluated(s: State): State {
    s.(serviceMapConsul := Retargeted(s), phase := Applying)
  }

  /** The label that marks the sink's own services. */
  predicate HasLabel(svc: Service) {
    "consul" in svc.labels && svc.labels["consul"] == "true"
  }

  /** An alias for a Consul service: nothing but a name and where it leads. */
  predicate IsAlias(svc: Service, name: string, dns: string) {
    svc.name == name && svc.kind.ExternalName? && svc.externalName == dns && svc.ports == [] && svc.externalIPs == []
  }

  /** A new one: labelled as the sink's, not to be synced back, and nothing else. */
  predicate IsNewAlias(svc: Service) {
    && svc.labels == map["consul" := "true"]
    && svc.annotations == map["consul.hashicorp.com/service-sync" := "false"]
    && svc.ingress == []
  }

  /** The same object, whatever its spec. */
  predicate SameObject(svc: Service, svc': Service) {
    && svc'.name == svc.name && svc'.namespace == svc.namespace
    && svc'.labels == svc.labels && svc'.annotations == svc.annotations && svc'.ingress == svc.ingress
  }

  /** What the three lists hold, told from the caches and the source services: every source
      service the caches do not know is created, every labelled one that leads elsewhere is
      changed and nothing else about it, and every labelled one that is no source service is
      deleted; each once. */
  lemma ListsMeaning(s: State, create: seq<Service>, update: seq<Service>, delete: seq<string>)
    requires NamesOk(s) && CreateList(s, {}, create) && UpdateList(s, {}, update) && DeleteList(s, {}, delete)
    ensures forall x | x in create :: x.name in s.sourceServices
              && IsAlias(x, x.name, s.sourceServices[x.name]) && IsNewAlias(x) && x.namespace == ""
    ensures forall x | x in update :: x.name in s.sourceServices && x.name in s.serviceMapConsul
              && IsAlias(x, x.name, s.sourceServices[x.name]) && SameObject(s.serviceMapConsul[x.name], x)
    ensures forall n :: Named(create, n) <==> n in s.sourceServices && n !in s.serviceMapConsul && n !in s.serviceMap
    ensures forall n :: Named(update, n) <==>
              && n in s.sourceServices && n in s.serviceMapConsul
              && s.serviceMapConsul[n].externalName != s.sourceServices[n]
    ensures forall n :: n in delete <==> n in s.serviceMapConsul && n !in s.sourceServices
    ensures forall i, j | 0 <= i < j < |create| :: create[i].name != create[j].name
    ensures forall i, j | 0 <= i < j < |update| :: update[i].name != update[j].name
    ensures forall i, j | 0 <= i < j < |delete| :: delete[i] != delete[j]
  {
    forall n
      ensures Named(create, n) <==> ToCreate(s, n)
      ensures Named(update, n) <==> ToUpdate(s, n)
    {
      NamedExactly(s, create, update, n);
    }
  }

  /** The cluster the diff leads to: native services untouched, and the labelled services
      exactly the source services no native one shadows, each an alias with its external name
      if it was created or updated. */
  lemma AppliedMeaning(s: State, namespace: string, c: Cluster, n: string)
    requires Faithful(s, namespace, c) && ClusterOk(c)
    ensures var c' := Applied(s, namespace, c);
            && (n in c && !HasLabel(c[n]) ==> n in c' && c'[n] == c[n])
            && (n in c' && (ToCreate(s, n) || ToUpdate(s, n)) ==> IsAlias(c'[n], n, s.sourceServices[n]))
            && (n in c' && n in c ==> SameObject(c[n], c'[n]))
            && (n in c' && n !in c ==> IsNewAlias(c'[n]) && c'[n].namespace == namespace)
            && (n in c' && Labelled(c'[n]) <==> n in s.sourceServices && !(n in c && !Labelled(c[n])))
            && (n in c' && Labelled(c'[n]) ==> c'[n].externalName == s.sourceServices[n])
            && (n in c' ==> c'[n].name == n)
    ensures !(ToCreate(s, n) && ToUpdate(s, n)) && !(ToCreate(s, n) && ToDelete(s, n))
        && !(ToUpdate(s, n) && ToDelete(s, n))
  {
    assert FaithfulAt(s, namespace, c, n);
  }

  // ---------------------------------------------------------------------------
  // Notifications while the calls are being made

  /** The call for a name goes through, or the informer handles a name. */
  datatype Action = Call(name: string) | Hear(name: string)

  function CalledIn(actions: seq<Action>): set<string> {
    set a | a in actions && a.Call? :: a.name
  }

  /** The cluster on its way from c to c', when some of the calls have been made. */
  function Partly(c: Cluster, c': Cluster, called: set<string>): Cluster {
    map n | n in c.Keys + c'.Keys && (if n in called then n in c' else n in c) :: if n in called then c'[n] else c[n]
  }

  /** The caches after the actions, every name being handled by what the cluster holds at
      that moment. */
  function Interleaved(s: State, namespace: string, c: Cluster, c': Cluster, actions: seq<Action>): State {
    if actions == [] then s
    else
      var before := actions[..|actions| - 1];
      var t := Interleaved(s, namespace, c, c', before);
      match actions[|actions| - 1]
      case Call(_) => t
      case Hear(n) => Heard(t, namespace, Partly(c, c', CalledIn(before)), n)
  }

  /** The name is handled at some point after its call. */
  predicate HeardSince(actions: seq<Action>, n: string) {
    actions != [] &&
    var before := actions[..|actions| - 1];
    (actions[|actions| - 1] == Hear(n) && n in CalledIn(before)) || HeardSince(before, n)
  }

  /** The caches describe the old or the new cluster. */
  ghost predicate Either(s: State, namespace: string, c: Cluster, c': Cluster, n: string) {
    FaithfulAt(s, namespace, c, n) || FaithfulAt(s, namespace, c', n)
  }

  /** The two clusters hold the same kinds of services. */
  ghost predicate SameKinds(c: Cluster, c': Cluster) {
    && ClusterOk(c) && ClusterOk(c')
    && forall n | n in c && n in c' :: Labelled(c[n]) <==> Labelled(c'[n])
  }

  lemma HeardNow(s: State, namespace: string, d: Cluster, now: Cluster, n: string)
    requires ClusterOk(now) && FaithfulAt(s, namespace, d, n)
    requires n in d && n in now ==> (Labelled(d[n]) <==> Labelled(now[n]))
    ensures FaithfulAt(Heard(s, namespace, now, n), namespace, now, n)
  {
  }

  /** Handling a name on the way makes the caches describe the old cluster there, or the
      new one if the call has been made. */
  lemma HeardPartly(s: State, namespace: string, c: Cluster, c': Cluster, called: set<string>, n: string)
    requires SameKinds(c, c') && Either(s, namespace, c, c', n)
    ensures FaithfulAt(Heard(s, namespace, Partly(c, c', called), n), namespace, if n in called then c' else c, n)
  {
    var now := Partly(c, c', called);
    if FaithfulAt(s, namespace, c, n) {
      HeardNow(s, namespace, c, now, n);
    } else {
      HeardNow(s, namespace, c', now, n);
    }
  }

  /** What the caches say of a name after the actions. */
  lemma {:induction false} InterleavedAt(
    s: State, namespace: string, c: Cluster, c': Cluster, actions: seq<Action>, m: string)
    requires SameKinds(c, c') && forall n :: Either(s, namespace, c, c', n)
    ensures var t := Interleaved(s, namespace, c, c', actions);
            && Either(t, namespace, c, c', m) && t.sourceServices == s.sourceServices
            && (HeardSince(actions, m) ==> FaithfulAt(t, namespace, c', m))
            && (Hear(m) in actions && m !in CalledIn(actions) ==> FaithfulAt(t, namespace, c, m))
            && (Hear(m) !in actions && FaithfulAt(s, namespace, c, m) ==> FaithfulAt(t, namespace, c, m))
            && (Hear(m) !in actions && FaithfulAt(s, namespace, c', m) ==> FaithfulAt(t, namespace, c', m))
  {
    if actions != [] {
      var before, a := actions[..|actions| - 1], actions[|actions| - 1];
      assert actions == before + [a];
      assert forall x :: x in actions <==> x in before || x == a;
      assert CalledIn(before) <= CalledIn(actions);
      InterleavedAt(s, namespace, c, c', before, m);
      if a.Hear? {
        InterleavedAt(s, namespace, c, c', before, a.name);
        InterleavedStep(Interleaved(s, namespace, c, c', before), namespace, c, c', CalledIn(before), a.name, m);
        if HeardSince(before, m) {
          SinceIsCalled(before, m);
        }
      }
    }
  }

  lemma InterleavedStep(t: State, namespace: string, c: Cluster, c': Cluster, called: set<string>, n: string, m: string)
    requires SameKinds(c, c') && Either(t, namespace, c, c', n)
    ensures var t' := Heard(t, namespace, Partly(c, c', called), n);
            && t'.sourceServices == t.sourceServices
            && (n == m ==> FaithfulAt(t', namespace, if m in called then c' else c, m))
            && (n != m && FaithfulAt(t, namespace, c, m) ==> FaithfulAt(t', namespace, c, m))
            && (n != m && FaithfulAt(t, namespace, c', m) ==> FaithfulAt(t', namespace, c', m))
  {
    HeardSource(t, namespace, Partly(c, c', called), n);
    PartlyOk(c, c', called);
    if n == m {
      HeardPartly(t, namespace, c, c', called, n);
    } else {
      HeardOther(t, namespace, Partly(c, c', called), n, m, c);
      HeardOther(t, namespace, Partly(c, c', called), n, m, c');
    }
  }

  lemma HeardSource(s: State, namespace: string, c: Cluster, n: string)
    ensures Heard(s, namespace, c, n).sourceServices == s.sourceServices
  {
  }

  lemma PartlyOk(c: Cluster, c': Cluster, called: set<string>)
    requires ClusterOk(c) && ClusterOk(c')
    ensures ClusterOk(Partly(c, c', called))
  {
  }

  lemma {:induction false} SinceIsCalled(actions: seq<Action>, n: string)
    requires HeardSince(actions, n)
    ensures n in CalledIn(actions)
  {
    var before := actions[..|actions| - 1];
    if HeardSince(before, n) {
      SinceIsCalled(before, n);
    }
    assert forall a | a in before :: a in actions;
  }

  predicate Changes(s: State, n: string) {
    ToCreate(s, n) || ToUpdate(s, n) || ToDelete(s, n)
  }

  lemma AppliedElsewhere(s: State, namespace: string, c: Cluster, n: string)
    requires Faithful(s, namespace, c) && ClusterOk(c)
    ensures var c' := Applied(s, namespace, c);
            && (!Changes(s, n) ==> (n in c' <==> n in c) && (n in c ==> c'[n] == c[n]))
            && (n in c && n in c' ==> (Labelled(c[n]) <==> Labelled(c'[n])))
            && (n in c' ==> c'[n].name == n)
  {
    assert FaithfulAt(s, namespace, c, n);
  }

  // ---------------------------------------------------------------------------
  // The next diff

  lemma EvaluatedEither(s: State, namespace: string, c: Cluster, n: string)
    requires Faithful(s, namespace, c)
    ensures Either(Evaluated(s), namespace, c, Applied(s, namespace, c), n)
    ensures !ToUpdate(s, n) ==> FaithfulAt(Evaluated(s), namespace, c, n)
    ensures !ToCreate(s, n) && !ToDelete(s, n) ==> FaithfulAt(Evaluated(s), namespace, Applied(s, namespace, c), n)
  {
    assert FaithfulAt(s, namespace, c, n);
  }

  lemma AppliedKinds(s: State, namespace: string, c: Cluster)
    requires Faithful(s, namespace, c) && ClusterOk(c)
    ensures SameKinds(c, Applied(s, namespace, c))
  {
    forall n
      ensures var c' := Applied(s, namespace, c);
              (n in c && n in c' ==> (Labelled(c[n]) <==> Labelled(c'[n]))) && (n in c' ==> c'[n].name == n)
    {
      AppliedElsewhere(s, namespace, c, n);
    }
  }

  lemma PartlyAt(t: State, namespace: string, c: Cluster, c': Cluster, called: set<string>, n: string)
    ensures FaithfulAt(t, namespace, Partly(c, c', called), n) <==>
            FaithfulAt(t, namespace, if n in called then c' else c, n)
  {
  }

  /** The next diff at a name of which the caches know the truth. */
  lemma DiffAt(t: State, namespace: string, d: Cluster, n: string)
    requires FaithfulAt(t, namespace, d, n)
    ensures ToCreate(t, n) <==> n in t.sourceServices && n !in d
    ensures ToDelete(t, n) <==> n !in t.sourceServices && n in d && Labelled(d[n])
    ensures ToUpdate(t, n) <==>
            n in t.sourceServices && n in d && Labelled(d[n]) && d[n].externalName != t.sourceServices[n]
  {
  }

  /** A name whose call was made, if it needed one, has nothing left to do. */
  lemma NothingLeftAt(s: State, namespace: string, c: Cluster, t: State, n: string)
    requires Faithful(s, namespace, c) && ClusterOk(c) && t.sourceServices == s.sourceServices
    requires FaithfulAt(t, namespace, Applied(s, namespace, c), n)
    ensures !Changes(t, n)
  {
    AppliedMeaning(s, namespace, c, n);
    DiffAt(t, namespace, Applied(s, namespace, c), n);
    assert FaithfulAt(s, namespace, c, n);
  }

  /** A name whose call failed, and of which the caches know the truth, is left as it was. */
  lemma SameLeftAt(s: State, namespace: string, c: Cluster, t: State, n: string)
    requires Faithful(s, namespace, c) && t.sourceServices == s.sourceServices && FaithfulAt(t, namespace, c, n)
    ensures ToCreate(t, n) <==> ToCreate(s, n)
    ensures ToDelete(t, n) <==> ToDelete(s, n)
    ensures ToUpdate(t, n) <==> ToUpdate(s, n)
  {
    assert FaithfulAt(s, namespace, c, n);
    DiffAt(s, namespace, c, n);
    DiffAt(t, namespace, c, n);
  }

  /** A failed update of which nobody hears: the edited cache hides it. */
  lemma HiddenAt(s: State, namespace: string, c: Cluster, t: State, n: string)
    requires Faithful(s, namespace, c) && ClusterOk(c) && ToUpdate(s, n)
    requires FaithfulAt(t, namespace, Applied(s, namespace, c), n)
    ensures !FaithfulAt(t, namespace, c, n)
  {
    assert FaithfulAt(s, namespace, c, n);
    assert Applied(s, namespace, c)[n].externalName == s.sourceServices[n] != c[n].externalName;
  }

  /** No call was made for a name that needs one. */
  predicate Failed(s: State, actions: seq<Action>, n: string) {
    Changes(s, n) && n !in CalledIn(actions)
  }

  /** A failed update nobody heard of. */
  predicate Hidden(s: State, actions: seq<Action>, n: string) {
    ToUpdate(s, n) && n !in CalledIn(actions) && Hear(n) !in actions
  }

  /** What a round leaves to do, name by name, when calls and notifications interleave in
      any way and any of the calls fail: exactly the failed changes are found again by the
      next diff, except for failed updates that nobody hears of; and the caches describe
      the cluster everywhere else. A name that was changed must have been heard of after
      its call, or not at all in the case of an update. */
  lemma RoundOutcome(s: State, namespace: string, c: Cluster, actions: seq<Action>, n: string)
    requires Faithful(s, namespace, c) && ClusterOk(c)
    requires Changes(s, n) && n in CalledIn(actions) ==>
               HeardSince(actions, n) || (ToUpdate(s, n) && Hear(n) !in actions)
    ensures var c' := Applied(s, namespace, c);
            var s' := Interleaved(Evaluated(s), namespace, c, c', actions);
            && s'.sourceServices == s.sourceServices
            && (ToCreate(s', n) <==> ToCreate(s, n) && Failed(s, actions, n))
            && (ToDelete(s', n) <==> ToDelete(s, n) && Failed(s, actions, n))
            && (ToUpdate(s', n) <==> ToUpdate(s, n) && Failed(s, actions, n) && !Hidden(s, actions, n))
            && (FaithfulAt(s', namespace, Partly(c, c', CalledIn(actions)), n) <==> !Hidden(s, actions, n))
  {
    var c', s1 := Applied(s, namespace, c), Evaluated(s);
    var s' := Interleaved(s1, namespace, c, c', actions);
    forall m
      ensures Either(s1, namespace, c, c', m)
    {
      EvaluatedEither(s, namespace, c, m);
    }
    AppliedKinds(s, namespace, c);
    InterleavedAt(s1, namespace, c, c', actions, n);
    EvaluatedEither(s, namespace, c, n);
    PartlyAt(s', namespace, c, c', CalledIn(actions), n);
    if !Changes(s, n) {
      UnchangedBoth(s', s, namespace, c, n);
      NothingLeftAt(s, namespace, c, s', n);
    } else if n in CalledIn(actions) || Hidden(s, actions, n) {
      NothingLeftAt(s, namespace, c, s', n);
      if Hidden(s, actions, n) {
        HiddenAt(s, namespace, c, s', n);
      }
    } else {
      SameLeftAt(s, namespace, c, s', n);
    }
  }

  /** Where nothing changes, describing either cluster is describing both. */
  lemma UnchangedBoth(t: State, s: State, namespace: string, c: Cluster, n: string)
    requires Faithful(s, namespace, c) && ClusterOk(c) && !Changes(s, n)
    requires Either(t, namespace, c, Applied(s, namespace, c), n)
    ensures FaithfulAt(t, namespace, c, n) && FaithfulAt(t, namespace, Applied(s, namespace, c), n)
  {
    AppliedElsewhere(s, namespace, c, n);
  }

  /** Diff and apply reaches a fixpoint: when no call fails, the caches describe the new
      cluster and the next diff is empty. */
  lemma InterleavedFixpoint(s: State, namespace: string, c: Cluster, actions: seq<Action>)
    requires Faithful(s, namespace, c) && ClusterOk(c)
    requires forall n | Changes(s, n) :: n in CalledIn(actions)
    requires forall n | Changes(s, n) :: HeardSince(actions, n) || (ToUpdate(s, n) && Hear(n) !in actions)
    ensures var c' := Applied(s, namespace, c);
            var s' := Interleaved(Evaluated(s), namespace, c, c', actions);
            Partly(c, c', CalledIn(actions)) == c' && Faithful(s', namespace, c') && Items(s') == {}
  {
    AllCalled(s, namespace, c, CalledIn(actions));
    forall n
      ensures FaithfulAt(Interleaved(Evaluated(s), namespace, c, Applied(s, namespace, c), actions), namespace,
                         Applied(s, namespace, c), n)
    {
      RoundOutcome(s, namespace, c, actions, n);
    }
    NextDiffEmptyExactlyWhen(s, namespace, c, actions);
  }

  /** The diff that follows a round in which calls failed is empty exactly when every
      failed call was an update nobody heard of. */
  lemma NextDiffEmptyExactlyWhen(s: State, namespace: string, c: Cluster, actions: seq<Action>)
    requires Faithful(s, namespace, c) && ClusterOk(c)
    requires forall n | Changes(s, n) && n in CalledIn(actions) ::
               HeardSince(actions, n) || (ToUpdate(s, n) && Hear(n) !in actions)
    ensures var s' := Interleaved(Evaluated(s), namespace, c, Applied(s, namespace, c), actions);
            Items(s') == {} <==> forall n | Failed(s, actions, n) :: Hidden(s, actions, n)
  {
    var s' := Interleaved(Evaluated(s), namespace, c, Applied(s, namespace, c), actions);
    forall n
      ensures Changes(s', n) <==> Failed(s, actions, n) && !Hidden(s, actions, n)
    {
      RoundOutcome(s, namespace, c, actions, n);
    }
    ItemsEmpty(s');
  }

  lemma ItemsEmpty(s: State)
    ensures Items(s) == {} <==> forall n :: !Changes(s, n)
  {
    if Items(s) != {} {
      var x :| x in Items(s);
      assert Changes(s, x.name);
    }
    if n :| Changes(s, n) {
      if ToCreate(s, n) {
        assert CreateItem(n, s.sourceServices[n]) in Items(s);
      } else if ToUpdate(s, n) {
        assert UpdateItem(n, s.sourceServices[n]) in Items(s);
      } else {
        assert DeleteItem(n) in Items(s);
      }
    }
  }

  /** A hidden update: one labelled service with an outdated external name, whose update
      fails. Nothing is left to do, yet the cluster is not what it should be. */
  lemma HiddenUpdate(namespace: string, svc: Service, dns: string) returns (s: State, c: Cluster)
    requires Labelled(svc) && svc.externalName != dns
    ensures Faithful(s, namespace, c) && ClusterOk(c) && s.sourceServices == map[svc.name := dns]
    ensures c == map[svc.name := svc] && ToUpdate(s, svc.name)
    ensures Items(Interleaved(Evaluated(s), namespace, c, Applied(s, namespace, c), [])) == {}
  {
    var n := svc.name;
    c := map[n := svc];
    s := State(map[n := dns], map[KeyFor(namespace, n) := n], {n}, map[n := svc], true, false, Received, {});
    forall m
      ensures FaithfulAt(s, namespace, c, m)
    {
      if m != n {
        KeysDiffer(namespace, m, n);
      }
    }
    NextDiffEmptyExactlyWhen(s, namespace, c, []);
  }

  lemma AllCalled(s: State, namespace: string, c: Cluster, called: set<string>)
    requires Faithful(s, namespace, c) && ClusterOk(c)
    requires forall n | Changes(s, n) :: n in called
    ensures Partly(c, Applied(s, namespace, c), called) == Applied(s, namespace, c)
  {
    var c' := Applied(s, namespace, c);
    forall n
      ensures n in Partly(c, c', called) <==> n in c'
      ensures n in c' ==> Partly(c, c', called)[n] == c'[n]
    {
      AppliedElsewhere(s, namespace, c, n);
    }
  }
}
