/** The sink that turns Consul services into Kubernetes services: its state, the diff
    it computes, and what each locked section does. */
module SinkState {
  import opened Common
  import opened KubeTypes

  /** Where the single Run loop is. */
  datatype Phase =
    | NotStarted
    | Waiting      // for a trigger
    | Received     // a trigger, now coalescing
    | Applying     // the computed changes

  datatype State = State(
    sourceServices: map<string, string>,
    keyToName: map<string, string>,
    serviceMap: set<string>,
    serviceMapConsul: map<string, Service>,
    open: bool,           // triggerCh has been made
    buffered: bool,       // triggerCh holds a message
    phase: Phase,
    last: set<Item>)      // what crudList returned when last evaluated

  datatype Item = CreateItem(name: string, dns: string) | UpdateItem(name: string, dns: string)
      | DeleteItem(name: string)

  predicate Labelled(svc: Service) {
    "consul" in svc.labels && svc.labels["consul"] == "true"
  }

  // ---------------------------------------------------------------------------
  // The diff

  predicate ToCreate(s: State, name: string) {
    name in s.sourceServices && name !in s.serviceMapConsul && name !in s.serviceMap
  }

  predicate ToUpdate(s: State, name: string) {
    && name in s.sourceServices && name in s.serviceMapConsul
    && s.serviceMapConsul[name].externalName != s.sourceServices[name]
  }

  predicate ToDelete(s: State, name: string) {
    name in s.serviceMapConsul && name !in s.sourceServices
  }

  /** The service the sink creates: labelled as its own, and not synced back. */
  function NewService(name: string, dns: string): Service {
    Service(name, "", map["consul" := "true"], map[ANNOTATION_SYNC := "false"], ExternalName, dns, [], [], [])
  }

  /** An existing service with its whole spec replaced. */
  function Retarget(svc: Service, dns: string): Service {
    svc.(kind := ExternalName, externalName := dns, ports := [], externalIPs := [])
  }

  ghost function Items(s: State): set<Item> {
    (set n | n in s.sourceServices && ToCreate(s, n) :: CreateItem(n, s.sourceServices[n]))
    + (set n | n in s.sourceServices && ToUpdate(s, n) :: UpdateItem(n, s.sourceServices[n]))
    + (set n | n in s.serviceMapConsul && ToDelete(s, n) :: DeleteItem(n))
  }

  /** The list of creations, without duplicates, as far as names outside rest go. */
  ghost predicate CreateList(s: State, rest: set<string>, xs: seq<Service>) {
    && (forall i | 0 <= i < |xs| ::
          ToCreate(s, xs[i].name) && xs[i].name !in rest
              && xs[i] == NewService(xs[i].name, s.sourceServices[xs[i].name]))
    && (forall n | ToCreate(s, n) && n !in rest :: Named(xs, n))
    && (forall i, j | 0 <= i < j < |xs| :: xs[i].name != xs[j].name)
  }

  /** The list of updates likewise. */
  ghost predicate UpdateList(s: State, rest: set<string>, xs: seq<Service>) {
    && (forall i | 0 <= i < |xs| ::
          && ToUpdate(s, xs[i].name) && xs[i].name !in rest
          && xs[i] == Retarget(s.serviceMapConsul[xs[i].name], s.sourceServices[xs[i].name]))
    && (forall n | ToUpdate(s, n) && n !in rest :: Named(xs, n))
    && (forall i, j | 0 <= i < j < |xs| :: xs[i].name != xs[j].name)
  }

  /** The names to delete likewise. */
  ghost predicate DeleteList(s: State, rest: set<string>, xs: seq<string>) {
    && (forall n :: n in xs <==> ToDelete(s, n) && n !in rest)
    && (forall i, j | 0 <= i < j < |xs| :: xs[i] != xs[j])
  }

  lemma CreateMore(s: State, rest: set<string>, xs: seq<Service>, n: string)
    requires CreateList(s, rest, xs) && n in rest
    ensures !ToCreate(s, n) ==> CreateList(s, rest - {n}, xs)
    ensures ToCreate(s, n) ==> CreateList(s, rest - {n}, xs + [NewService(n, s.sourceServices[n])])
  {
    if ToCreate(s, n) {
      var x := NewService(n, s.sourceServices[n]);
      assert x in xs + [x];
      assert forall y | y in xs :: y in xs + [x];
    }
  }

  lemma UpdateMore(s: State, rest: set<string>, xs: seq<Service>, n: string)
    requires NamesOk(s) && UpdateList(s, rest, xs) && n in rest
    ensures !ToUpdate(s, n) ==> UpdateList(s, rest - {n}, xs)
    ensures ToUpdate(s, n) ==> UpdateList(s, rest - {n}, xs + [Retarget(s.serviceMapConsul[n], s.sourceServices[n])])
  {
    if ToUpdate(s, n) {
      var x := Retarget(s.serviceMapConsul[n], s.sourceServices[n]);
      assert x in xs + [x];
      assert forall y | y in xs :: y in xs + [x];
    }
  }

  ghost predicate Named(xs: seq<Service>, name: string) {
    exists x :: x in xs && x.name == name
  }

  /** Cached services are filed under their own names. */
  ghost predicate NamesOk(s: State) {
    forall n | n in s.serviceMapConsul :: s.serviceMapConsul[n].name == n
  }

  /** The cached services after crudList has edited them in place. */
  function Retargeted(s: State): map<string, Service> {
    map n | n in s.serviceMapConsul ::
      if ToUpdate(s, n) then Retarget(s.serviceMapConsul[n], s.sourceServices[n]) else s.serviceMapConsul[n]
  }

  /** The cache when the names in rest have not been looked at yet. */
  ghost predicate Edited(s: State, rest: set<string>, cache: map<string, Service>) {
    && cache.Keys == s.serviceMapConsul.Keys
    && forall n | n in cache :: cache[n] == if n in rest then s.serviceMapConsul[n] else Retargeted(s)[n]
  }

  // ---------------------------------------------------------------------------
  // Steps

  /** A non-blocking send on a channel with one slot. */
  function Trigger(s: State): State {
    if s.open then s.(buffered := true) else s
  }

  /** Names and entries lower-cased; where two names collide one of them wins. */
  ghost predicate Lowered(lower: string -> string, svcs: map<string, string>, m: map<string, string>) {
    && (forall n | n in svcs :: lower(n) in m)
    && (forall k | k in m :: exists n :: n in svcs && lower(n) == k && m[k] == lower(svcs[n]))
  }

  function Upserted(s: State, key: string, svc: Service): State {
    var known := s.(keyToName := s.keyToName[key := svc.name], serviceMap := s.serviceMap + {svc.name});
    if Labelled(svc) then Trigger(known.(serviceMapConsul := s.serviceMapConsul[svc.name := svc])) else known
  }

  function Deleted(s: State, key: string): State {
    if key !in s.keyToName then Trigger(s)
    else
      var name := s.keyToName[key];
      var gone := s.(keyToName := s.keyToName - {key}, serviceMap := s.serviceMap - {name},
                     serviceMapConsul := s.serviceMapConsul - {name});
      if name in s.sourceServices then Trigger(gone) else gone
  }

  datatype Event =
    | SetServices(svcs: map<string, string>)
    | Upsert(key: string, raw: Option<Service>)
    | Delete(key: string)
    | Start        // Run makes the channel and sends the initial message
    | Receive      // the loop takes a message
    | Coalesce     // while coalescing, it takes another one
    | Evaluate     // it computes the diff under the lock
    | Finish       // the API calls have been made

  ghost predicate Step(lower: string -> string, s: State, e: Event, s': State) {
    match e
    case SetServices(svcs) =>
      Lowered(lower, svcs, s'.sourceServices) && s' == Trigger(s.(sourceServices := s'.sourceServices))
    case Upsert(key, raw) => s' == if raw.Some? then Upserted(s, key, raw.value) else s
    case Delete(key) => s' == Deleted(s, key)
    case Start => s.phase.NotStarted? && s' == s.(open := true, buffered := true, phase := Waiting)
    case Receive => s.phase.Waiting? && s.buffered && s' == s.(buffered := false, phase := Received)
    case Coalesce => s.phase.Received? && s.buffered && s' == s.(buffered := false)
    case Evaluate => s.phase.Received?
        && s' == s.(serviceMapConsul := Retargeted(s), last := Items(s), phase := Applying)
    case Finish => s.phase.Applying? && s' == s.(phase := Waiting)
  }

  lemma StepKeepsNames(lower: string -> string, s: State, e: Event, s': State)
    requires NamesOk(s) && Step(lower, s, e, s')
    ensures NamesOk(s')
  {
    match e
    case SetServices(_) =>
    case Upsert(_, _) =>
    case Delete(_) =>
    case Start =>
    case Receive =>
    case Coalesce =>
    case Evaluate =>
    case Finish =>
  }

  const INIT := State(map[], map[], {}, map[], false, false, NotStarted, {})

  /** Which events send a message: every new set of source services, every change of a
      labelled service, and deletions of source services or of services never heard of. */
  lemma TriggersExactlyWhen(lower: string -> string, s: State, e: Event, s': State)
    requires Step(lower, s, e, s') && (e.SetServices? || e.Upsert? || e.Delete?)
    ensures s'.open == s.open && s'.phase == s.phase
    ensures s'.buffered <==> s.buffered || (s.open && Sends(s, e))
  {
  }

  predicate Sends(s: State, e: Event) {
    || e.SetServices?
    || (e.Upsert? && e.raw.Some? && "consul" in e.raw.value.labels && e.raw.value.labels["consul"] == "true")
    || (e.Delete? && (e.key in s.keyToName ==> s.keyToName[e.key] in s.sourceServices))
  }

  // ---------------------------------------------------------------------------
  // No lost wake-up

  /** If the diff has an item it did not have when last evaluated, the loop will look
      again: a trigger is buffered, or taken but not yet acted on, or still to be sent
      when Run starts. */
  ghost predicate Awake(s: State) {
    && (s.open <==> !s.phase.NotStarted?)
    && (Items(s) <= s.last || s.buffered || s.phase.Received? || s.phase.NotStarted?)
  }

  lemma UpsertShrinks(s: State, key: string, svc: Service)
    requires !Labelled(svc)
    ensures Items(Upserted(s, key, svc)) <= Items(s)
  {
  }

  lemma DeleteShrinks(s: State, key: string)
    requires key in s.keyToName && s.keyToName[key] !in s.sourceServices
    ensures Items(Deleted(s, key)) <= Items(s)
  {
  }

  /** Editing the cache in place makes the update items disappear and adds nothing. */
  lemma EvaluateShrinks(s: State)
    ensures Items(s.(serviceMapConsul := Retargeted(s), last := Items(s), phase := Applying)) <= Items(s)
  {
  }

  lemma StepKeepsAwake(lower: string -> string, s: State, e: Event, s': State)
    requires Awake(s) && Step(lower, s, e, s')
    ensures Awake(s')
  {
    match e
    case SetServices(_) =>
    case Upsert(key, raw) =>
      if raw.Some? && !Labelled(raw.value) {
        UpsertShrinks(s, key, raw.value);
      }
    case Delete(key) =>
      if key in s.keyToName && s.keyToName[key] !in s.sourceServices {
        DeleteShrinks(s, key);
      }
    case Start =>
    case Receive =>
    case Coalesce =>
    case Evaluate => EvaluateShrinks(s);
    case Finish => assert Items(s') == Items(s);
  }

  ghost predicate IsRun(lower: string -> string, run: seq<State>, es: seq<Event>) {
    && |run| == |es| + 1 && run[0] == INIT
    && forall i | 0 <= i < |es| :: Step(lower, run[i], es[i], run[i + 1])
  }

  /** No wake-up is lost in any interleaving, although the channel has a single slot,
      messages are coalesced, and most events send none. */
  lemma {:induction false} NoLostWakeup(lower: string -> string, run: seq<State>, es: seq<Event>, i: nat)
    requires IsRun(lower, run, es) && i <= |es|
    ensures Awake(run[i])
  {
    if i > 0 {
      NoLostWakeup(lower, run, es, i - 1);
      StepKeepsAwake(lower, run[i - 1], es[i - 1], run[i]);
    }
  }
}
