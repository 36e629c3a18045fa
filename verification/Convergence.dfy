/** Convergence of the catalog syncer: with the desired registrations fixed and calls
    succeeding, the tagged instances on the node become exactly the desired ones. */
module Convergence {
  import opened Catalog
  import opened SyncIndex
  import opened SyncerState
  import opened SyncerRuns

  /** A pass that schedules deregistrations, its queries succeeding. */
  datatype Pass = ReapPass | PollPass(w: Watch)

  function PassTargets(cfg: Config, s: State, p: Pass): set<Key> {
    match p
    case ReapPass => ReapTargets(cfg, s)
    case PollPass(w) => WatchTargets(cfg, s, w)
  }

  ghost predicate TakesPass(cfg: Config, s: State, p: Pass, s': State) {
    match p
    case ReapPass => Step(cfg, s, Reap(ReapTargets(cfg, s)), s')
    case PollPass(w) => w in s.watchers && Step(cfg, s, Poll(w, true), s')
  }

  ghost predicate TakesPasses(cfg: Config, ss: seq<State>, ps: seq<Pass>) {
    |ss| == |ps| + 1 && forall i | 0 <= i < |ps| :: TakesPass(cfg, ss[i], ps[i], ss[i + 1])
  }

  /** Between two full syncs there is a reap pass and a pass of every live watcher;
      passes come in any order and any number. */
  ghost predicate Fair(s: State, ps: seq<Pass>) {
    ReapPass in ps && forall w | w in s.watchers :: PollPass(w) in ps
  }

  ghost predicate RoundVia(cfg: Config, ss: seq<State>, ps: seq<Pass>, s': State) {
    && TakesPasses(cfg, ss, ps)
    && Fair(ss[0], ps)
    && Step(cfg, ss[|ps|], SyncFull(true, {}, {}), s')
  }

  ghost predicate Round(cfg: Config, s: State, s': State) {
    exists ss, ps :: RoundVia(cfg, ss, ps, s') && ss[0] == s
  }

  predicate SameIndexes(s: State, s': State) {
    s'.serviceNames == s.serviceNames && s'.namespaces == s.namespaces
  }

  /** The tagged instances nobody wants. */
  ghost function Undesired(cfg: Config, s: State): set<Key> {
    set k | k in TaggedKeys(s.catalog, cfg.tag) && !HasReg(s.namespaces, k.ns, k.id)
  }

  /** The situation right after a successful full sync. */
  ghost predicate Settled(cfg: Config, s: State) {
    && StateOk(cfg, s)
    && s.initialSync
    && s.deregs == map[]
    && s.watchers.Keys == ValidWatches(s.serviceNames)
    && Registered(cfg, s)
  }

  /** Every desired registration is in the catalog as given, and carries the tag. */
  ghost predicate Registered(cfg: Config, s: State) {
    forall k: Key | HasReg(s.namespaces, k.ns, k.id) ::
      && k in s.catalog
      && s.catalog[k] == s.namespaces[k.ns][k.id].service
      && cfg.tag in s.catalog[k].tags
  }

  ghost predicate DesiredTagged(cfg: Config, s: State) {
    forall k: Key | HasReg(s.namespaces, k.ns, k.id) :: cfg.tag in s.namespaces[k.ns][k.id].service.tags
  }

  /** The tagged instances are the desired registrations, nothing more and nothing less. */
  ghost predicate Converged(cfg: Config, s: State) {
    && TaggedKeys(s.catalog, cfg.tag) == DesiredKeys(s.namespaces)
    && forall k | k in DesiredKeys(s.namespaces) :: s.catalog[k] == s.namespaces[k.ns][k.id].service
  }

  // ---------------------------------------------------------------------------
  // What the passes schedule

  /** A reap pass all of whose queries succeed schedules every instance of every
      service that is not valid. */
  lemma AllHeard(cfg: Config, s: State)
    ensures Reaped(cfg, s, TaggedKeys(s.catalog, cfg.tag)) == ReapTargets(cfg, s)
  {
    forall k | k in ReapTargets(cfg, s)
      ensures ServiceHeard(s.catalog, TaggedKeys(s.catalog, cfg.tag), k)
    {
    }
  }

  /** When every call succeeds, no service goes unheard and nothing fails. */
  lemma NothingFails(listed: set<Key>, queryOk: Key -> bool, d: map<string, Key>, deregOk: string -> bool,
                     regs: RegIndex, registerOk: Key -> bool)
    requires (forall k :: queryOk(k) && registerOk(k)) && forall id :: deregOk(id)
    ensures Heard(listed, queryOk) == listed && FailedDeregs(d, deregOk) == {} && FailedRegs(regs, registerOk) == {}
  {
  }

  /** No pass ever schedules a wanted instance. */
  lemma TargetsUndesired(cfg: Config, s: State, p: Pass)
    requires StateOk(cfg, s) && Registered(cfg, s)
    requires p.PollPass? ==> IsValid(s.serviceNames, p.w)
    ensures PassTargets(cfg, s, p) <= Undesired(cfg, s)
  {
    forall k | k in PassTargets(cfg, s, p)
      ensures !HasReg(s.namespaces, k.ns, k.id)
    {
    }
  }

  /** Every unwanted instance is scheduled by the reap pass or by a live watcher. */
  lemma UndesiredCovered(cfg: Config, s: State, k: Key) returns (p: Pass)
    requires StateOk(cfg, s) && k in Undesired(cfg, s)
    ensures p == ReapPass || (p.PollPass? && IsValid(s.serviceNames, p.w))
    ensures k in PassTargets(cfg, s, p)
  {
    var w := Watch(k.ns, s.catalog[k].name);
    p := if IsValid(s.serviceNames, w) then PollPass(w) else ReapPass;
  }

  /** The union of what a list of passes schedules, seen from a state that differs
      only in the deregistration table. */
  ghost function AllTargets(cfg: Config, s: State, ps: seq<Pass>): set<Key> {
    set p, k | p in ps && k in PassTargets(cfg, s, p) :: k
  }

  lemma {:induction false} PassesSchedule(cfg: Config, ss: seq<State>, ps: seq<Pass>)
    requires TakesPasses(cfg, ss, ps)
    ensures ss[|ps|] == ss[0].(deregs := ss[|ps|].deregs)
    ensures Scheduled(ss[0].deregs, AllTargets(cfg, ss[0], ps), ss[|ps|].deregs)
  {
    if ps == [] {
      assert AllTargets(cfg, ss[0], ps) == {};
    } else {
      var n := |ps| - 1;
      var p := ps[n];
      assert ps == ps[..n] + [p];
      PassesSchedule(cfg, ss[..n + 1], ps[..n]);
      assert PassTargets(cfg, ss[n], p) == PassTargets(cfg, ss[0], p);
      ScheduledTwice(ss[0].deregs, AllTargets(cfg, ss[0], ps[..n]), ss[n].deregs, PassTargets(cfg, ss[0], p),
          ss[n + 1].deregs);
      assert AllTargets(cfg, ss[0], ps) == AllTargets(cfg, ss[0], ps[..n]) + PassTargets(cfg, ss[0], p);
    }
  }

  lemma PollsAreLive(cfg: Config, ss: seq<State>, ps: seq<Pass>, p: Pass)
    requires TakesPasses(cfg, ss, ps) && p in ps
    ensures p.PollPass? ==> p.w in ss[0].watchers
  {
    var i :| 0 <= i < |ps| && ps[i] == p;
    PassesSchedule(cfg, ss[..i + 1], ps[..i]);
    assert TakesPass(cfg, ss[i], ps[i], ss[i + 1]);
  }

  lemma FairPassesCover(cfg: Config, ss: seq<State>, ps: seq<Pass>)
    requires TakesPasses(cfg, ss, ps) && Settled(cfg, ss[0]) && Fair(ss[0], ps)
    ensures AllTargets(cfg, ss[0], ps) == Undesired(cfg, ss[0])
  {
    var s := ss[0];
    forall k | k in AllTargets(cfg, s, ps)
      ensures k in Undesired(cfg, s)
    {
      var p :| p in ps && k in PassTargets(cfg, s, p);
      PollsAreLive(cfg, ss, ps, p);
      TargetsUndesired(cfg, s, p);
    }
    forall k | k in Undesired(cfg, s)
      ensures k in AllTargets(cfg, s, ps)
    {
      var p := UndesiredCovered(cfg, s, k);
      assert p in ps;
    }
  }

  // ---------------------------------------------------------------------------
  // What a round achieves

  /** The instances the table names, one for each ID. */
  lemma {:induction false} OneTargetPerId(d: map<string, Key>)
    requires forall id | id in d :: d[id].id == id
    ensures |Targets(d, {})| == |d|
    ensures Ids(Targets(d, {})) == d.Keys
    decreases |d|
  {
    if d == map[] {
      assert Targets(d, {}) == {};
    } else {
      var id :| id in d;
      var rest := d - {id};
      assert |rest.Keys| == |d.Keys - {id}|;
      OneTargetPerId(rest);
      assert Targets(d, {}) == Targets(rest, {}) + {d[id]};
      assert d[id] !in Targets(rest, {});
      assert d.Keys == rest.Keys + {id};
    }
  }

  /** A round removes exactly one unwanted instance for every ID that has one. IDs are
      what deregistrations are keyed by, so instances that share an ID across
      namespaces shadow one another and go one round at a time. */
  lemma RoundTakes(cfg: Config, s: State, s': State) returns (taken: map<string, Key>)
    requires Settled(cfg, s) && Round(cfg, s, s')
    ensures Settled(cfg, s') && SameIndexes(s, s')
    ensures taken.Keys == Ids(Undesired(cfg, s))
    ensures forall id | id in taken :: taken[id] in Undesired(cfg, s) && taken[id].id == id
    ensures Undesired(cfg, s') == Undesired(cfg, s) - Targets(taken, {})
  {
    var ss: seq<State>, ps: seq<Pass> :| RoundVia(cfg, ss, ps, s') && ss[0] == s;
    var t := ss[|ps|];
    PassesSchedule(cfg, ss, ps);
    FairPassesCover(cfg, ss, ps);
    taken := t.deregs;
    FullSyncTakes(cfg, s, t, s');
  }

  /** A full sync after unwanted instances have been scheduled, one for each of their IDs. */
  lemma FullSyncTakes(cfg: Config, s: State, t: State, s': State)
    requires Settled(cfg, s) && t == s.(deregs := t.deregs) && Scheduled(map[], Undesired(cfg, s), t.deregs)
    requires Step(cfg, t, SyncFull(true, {}, {}), s')
    ensures Settled(cfg, s') && SameIndexes(s, s')
    ensures t.deregs.Keys == Ids(Undesired(cfg, s))
    ensures forall id | id in t.deregs :: t.deregs[id] in Undesired(cfg, s) && t.deregs[id].id == id
    ensures Undesired(cfg, s') == Undesired(cfg, s) - Targets(t.deregs, {})
  {
    FullSyncSettles(cfg, t, s');
    UndesiredAfterRound(cfg, s, t, s');
  }

  lemma RoundProgress(cfg: Config, s: State, s': State)
    requires Settled(cfg, s) && Round(cfg, s, s')
    ensures Settled(cfg, s') && SameIndexes(s, s')
    ensures Undesired(cfg, s') <= Undesired(cfg, s)
    ensures |Undesired(cfg, s')| == |Undesired(cfg, s)| - |Ids(Undesired(cfg, s))|
  {
    var taken := RoundTakes(cfg, s, s');
    OneTargetPerId(taken);
    var removed := Targets(taken, {});
    assert removed <= Undesired(cfg, s);
    assert |Undesired(cfg, s) - removed| == |Undesired(cfg, s)| - |removed|;
  }

  function WithId(ks: set<Key>, id: string): set<Key> {
    set k | k in ks && k.id == id
  }

  lemma RoundPerId(cfg: Config, s: State, s': State, id: string)
    requires Settled(cfg, s) && Round(cfg, s, s')
    ensures Settled(cfg, s') && SameIndexes(s, s')
    ensures |WithId(Undesired(cfg, s'), id)| == Minus(|WithId(Undesired(cfg, s), id)|, 1)
  {
    var taken := RoundTakes(cfg, s, s');
    var u, u' := Undesired(cfg, s), Undesired(cfg, s');
    if id in taken {
      assert WithId(u', id) == WithId(u, id) - {taken[id]};
      assert taken[id] in WithId(u, id);
    } else {
      assert WithId(u, id) == {} by {
        assert forall k | k in u :: k.id in Ids(u);
      }
      assert WithId(u', id) == {};
    }
  }

  function Minus(a: nat, b: nat): nat {
    if a < b then 0 else a - b
  }

  /** A full sync whose calls succeed settles any state the syncer can be in. */
  lemma FullSyncSettles(cfg: Config, t: State, s': State)
    requires StateOk(cfg, t) && t.initialSync && DesiredTagged(cfg, t)
    requires Step(cfg, t, SyncFull(true, {}, {}), s')
    ensures Settled(cfg, s')
  {
    StepKeepsWatcherInv(cfg, t, SyncFull(true, {}, {}), s');
    RewrittenOk(cfg, t, s'.(deregs := t.deregs, catalog := t.catalog), {}, {}, s');
    forall k: Key | HasReg(s'.namespaces, k.ns, k.id)
      ensures k in s'.catalog && s'.catalog[k] == s'.namespaces[k.ns][k.id].service && cfg.tag in s'.catalog[k].tags
    {
      SyncFullEffect(cfg, t, SyncFull(true, {}, {}), s', k);
    }
  }

  lemma UndesiredAfterRound(cfg: Config, s: State, t: State, s': State)
    requires t == s.(deregs := t.deregs)
    requires Step(cfg, t, SyncFull(true, {}, {}), s')
    ensures Undesired(cfg, s') == Undesired(cfg, s) - Targets(t.deregs, {})
  {
    forall k: Key | !HasReg(s.namespaces, k.ns, k.id)
      ensures k in Undesired(cfg, s') <==> k in Undesired(cfg, s) && k !in Targets(t.deregs, {})
    {
      SyncFullEffect(cfg, t, SyncFull(true, {}, {}), s', k);
    }
  }

  lemma NothingUndesired(cfg: Config, s: State)
    requires Settled(cfg, s)
    ensures Undesired(cfg, s) == {} <==> Converged(cfg, s)
  {
    forall k: Key
      ensures k in DesiredKeys(s.namespaces) ==> k in TaggedKeys(s.catalog, cfg.tag)
      ensures k in Undesired(cfg, s) <==> k in TaggedKeys(s.catalog, cfg.tag) && k !in DesiredKeys(s.namespaces)
    {
      assert HasReg(s.namespaces, k.ns, k.id) <==> k in DesiredKeys(s.namespaces);
    }
    assert Undesired(cfg, s) == TaggedKeys(s.catalog, cfg.tag) - DesiredKeys(s.namespaces);
  }

  lemma {:induction false} RoundsPerId(cfg: Config, rounds: seq<State>, n: nat, id: string)
    requires n < |rounds| && Settled(cfg, rounds[0])
    requires forall i | 0 <= i < n :: Round(cfg, rounds[i], rounds[i + 1])
    ensures Settled(cfg, rounds[n]) && SameIndexes(rounds[0], rounds[n])
    ensures |WithId(Undesired(cfg, rounds[n]), id)| == Minus(|WithId(Undesired(cfg, rounds[0]), id)|, n)
  {
    if n > 0 {
      RoundsPerId(cfg, rounds, n - 1, id);
      assert Round(cfg, rounds[n - 1], rounds[n - 1 + 1]);
      RoundPerId(cfg, rounds[n - 1], rounds[n], id);
    }
  }

  /** No ID is shared by more than n unwanted instances. */
  ghost predicate SharedAtMost(ks: set<Key>, n: nat) {
    forall id :: |WithId(ks, id)| <= n
  }

  lemma NoneShared(ks: set<Key>)
    ensures SharedAtMost(ks, 0) <==> ks == {}
  {
    if k :| k in ks {
      assert k in WithId(ks, k.id);
    }
  }

  lemma SharedAtMostAll(ks: set<Key>)
    ensures SharedAtMost(ks, |ks|)
  {
    forall id
      ensures |WithId(ks, id)| <= |ks|
    {
      assert ks == WithId(ks, id) + (ks - WithId(ks, id));
    }
  }

  /** Convergence. After n rounds, for every ID n of the unwanted instances with that ID are
      gone; so the tagged instances are exactly the desired registrations if and only if no
      ID was shared by more than n of them. */
  lemma Converges(cfg: Config, rounds: seq<State>, n: nat)
    requires n < |rounds| && Settled(cfg, rounds[0])
    requires forall i | 0 <= i < n :: Round(cfg, rounds[i], rounds[i + 1])
    ensures Settled(cfg, rounds[n]) && SameIndexes(rounds[0], rounds[n])
    ensures Converged(cfg, rounds[n]) <==> SharedAtMost(Undesired(cfg, rounds[0]), n)
  {
    forall id
      ensures Settled(cfg, rounds[n]) && SameIndexes(rounds[0], rounds[n])
      ensures |WithId(Undesired(cfg, rounds[n]), id)| == Minus(|WithId(Undesired(cfg, rounds[0]), id)|, n)
    {
      RoundsPerId(cfg, rounds, n, id);
    }
    RoundsPerId(cfg, rounds, n, "");
    NothingUndesired(cfg, rounds[n]);
    NoneShared(Undesired(cfg, rounds[n]));
  }

  // ---------------------------------------------------------------------------
  // Rounds exist

  /** A table that schedules ks. */
  lemma {:induction false} ScheduleExists(d: map<string, Key>, ks: set<Key>) returns (d': map<string, Key>)
    ensures Scheduled(d, ks, d')
  {
    if ks == {} {
      d' := d;
    } else {
      var k :| k in ks;
      var d1 := ScheduleExists(d, ks - {k});
      d' := d1[k.id := k];
      assert Ids({k}) == {k.id};
      ScheduledTwice(d, ks - {k}, d1, {k}, d');
      assert ks - {k} + {k} == ks;
    }
  }

  lemma PassExists(cfg: Config, s: State, p: Pass) returns (s': State)
    requires s.initialSync && (p.PollPass? ==> p.w in s.watchers && p.w in s.started)
    ensures TakesPass(cfg, s, p, s') && s' == s.(deregs := s'.deregs)
  {
    var d' := ScheduleExists(s.deregs, PassTargets(cfg, s, p));
    s' := s.(deregs := d');
  }

  lemma {:induction false} PassesExist(cfg: Config, s: State, ps: seq<Pass>) returns (ss: seq<State>)
    requires s.initialSync && s.watchers.Keys <= s.started && forall p | p in ps && p.PollPass? :: p.w in s.watchers
    ensures TakesPasses(cfg, ss, ps) && ss[0] == s && ss[|ps|] == s.(deregs := ss[|ps|].deregs)
  {
    if ps == [] {
      ss := [s];
    } else {
      var n := |ps| - 1;
      var init := PassesExist(cfg, s, ps[..n]);
      var last := PassExists(cfg, init[n], ps[n]);
      ss := init + [last];
    }
  }

  lemma {:induction false} FairList(ws: set<Watch>) returns (ps: seq<Pass>)
    ensures ReapPass in ps && forall w :: PollPass(w) in ps <==> w in ws
  {
    if ws == {} {
      ps := [ReapPass];
    } else {
      var w :| w in ws;
      var rest := FairList(ws - {w});
      ps := rest + [PollPass(w)];
    }
  }

  /** A full sync when the watchers are right already. */
  lemma FullSyncExists(cfg: Config, t: State) returns (s': State)
    requires WatcherInv(t) && t.watchers.Keys == ValidWatches(t.serviceNames)
    ensures Step(cfg, t, SyncFull(true, {}, {}), s')
  {
    s' := t.(deregs := map[], catalog := Rewritten(t, {}, {}));
    assert t.started + t.watchers.Keys == t.started;
    assert WatchersUpdated(t, s');
  }

  /** From every settled state there is a round. */
  lemma RoundExists(cfg: Config, s: State) returns (s': State)
    requires Settled(cfg, s)
    ensures Round(cfg, s, s')
  {
    var ps := FairList(s.watchers.Keys);
    var ss := PassesExist(cfg, s, ps);
    s' := FullSyncExists(cfg, ss[|ps|]);
    assert RoundVia(cfg, ss, ps, s') && ss[0] == s;
  }

  ghost predicate Rounds(cfg: Config, rounds: seq<State>) {
    rounds != [] && forall i | 0 <= i < |rounds| - 1 :: Round(cfg, rounds[i], rounds[i + 1])
  }

  lemma RoundsSnoc(cfg: Config, rounds: seq<State>, s: State)
    requires Rounds(cfg, rounds) && Round(cfg, rounds[|rounds| - 1], s)
    ensures Rounds(cfg, rounds + [s])
  {
    var all := rounds + [s];
    forall i | 0 <= i < |all| - 1
      ensures Round(cfg, all[i], all[i + 1])
    {
      if i < |rounds| - 1 {
        assert Round(cfg, rounds[i], rounds[i + 1]);
      }
    }
  }

  /** And hence any number of them. */
  lemma {:induction false} RoundsExist(cfg: Config, s: State, n: nat) returns (rounds: seq<State>)
    requires Settled(cfg, s)
    ensures |rounds| == n + 1 && rounds[0] == s && Rounds(cfg, rounds) && Settled(cfg, rounds[n])
  {
    if n == 0 {
      rounds := [s];
    } else {
      var init := RoundsExist(cfg, s, n - 1);
      var last := RoundExists(cfg, init[n - 1]);
      RoundsSnoc(cfg, init, last);
      RoundPerId(cfg, init[n - 1], last, "");
      rounds := init + [last];
    }
  }

  // ---------------------------------------------------------------------------
  // Instances that share an ID

  /** A syncer with nothing to register, over a catalog with one tagged instance in each
      of two namespaces, both with the same ID. */
  ghost function SharedId(tag: string, id: string, name: string): State {
    State(map[], map[], map[], map[], map[], {}, 0, true,
          map[Key("a", id) := AgentService(id, name, "a", [tag], map[], "", 0),
              Key("b", id) := AgentService(id, name, "b", [tag], map[], "", 0)])
  }

  lemma SharedIdSettled(tag: string, id: string, name: string)
    ensures Settled(Config(true, tag), SharedId(tag, id, name))
    ensures Undesired(Config(true, tag), SharedId(tag, id, name)) == {Key("a", id), Key("b", id)}
  {
    assert ValidWatches(map[]) == {};
  }

  /** It takes two rounds: no single one converges and any two do. */
  lemma SharedIdTakesTwoRounds(tag: string, id: string, name: string, s': State, s'': State)
    requires Round(Config(true, tag), SharedId(tag, id, name), s') && Round(Config(true, tag), s', s'')
    ensures !Converged(Config(true, tag), s') && Converged(Config(true, tag), s'')
  {
    SharedIdSettled(tag, id, name);
    var cfg, s, ks := Config(true, tag), SharedId(tag, id, name), {Key("a", id), Key("b", id)};
    TwoShared(id, ks);
    Converges(cfg, [s, s'], 1);
    Converges(cfg, [s, s', s''], 2);
  }

  lemma TwoShared(id: string, ks: set<Key>)
    requires ks == {Key("a", id), Key("b", id)}
    ensures !SharedAtMost(ks, 1) && SharedAtMost(ks, 2)
  {
    assert WithId(ks, id) == ks && |ks| == 2;
    forall other
      ensures |WithId(ks, other)| <= 2
    {
      assert WithId(ks, other) == if other == id then ks else {};
    }
  }
}
