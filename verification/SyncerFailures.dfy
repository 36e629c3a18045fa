/** The syncer when calls fail: failures delay convergence and do no harm. */
module SyncerFailures {
  import opened Catalog
  import opened SyncIndex
  import opened SyncerState
  import opened SyncerRuns
  import opened Convergence

  /** Every desired registration is in the catalog, and nothing desired is scheduled for
      deregistration. */
  ghost predicate Safe(cfg: Config, s: State) {
    && StateOk(cfg, s) && s.initialSync && Registered(cfg, s)
    && NoneDesired(s, s.deregs.Values)
  }

  ghost predicate NoneDesired(s: State, ks: set<Key>) {
    forall k | k in ks :: !HasReg(s.namespaces, k.ns, k.id)
  }

  lemma SettledSafe(cfg: Config, s: State)
    requires Settled(cfg, s)
    ensures Safe(cfg, s)
  {
  }

  /** A pass of any watcher, cancelled ones included, schedules nothing desired. */
  lemma PollTargets(cfg: Config, s: State, w: Watch)
    requires StateOk(cfg, s) && Registered(cfg, s) && w in s.started
    ensures NoneDesired(s, WatchTargets(cfg, s, w))
  {
  }

  lemma ReapTargetsUndesired(cfg: Config, s: State, ks: set<Key>)
    requires StateOk(cfg, s) && Registered(cfg, s) && ks <= ReapTargets(cfg, s)
    ensures NoneDesired(s, ks)
  {
    TargetsUndesired(cfg, s, ReapPass);
  }

  lemma ScheduledUndesired(s: State, ks: set<Key>, d': map<string, Key>)
    requires NoneDesired(s, s.deregs.Values) && NoneDesired(s, ks) && Scheduled(s.deregs, ks, d')
    ensures NoneDesired(s, d'.Values)
  {
    forall k | k in d'.Values
      ensures !HasReg(s.namespaces, k.ns, k.id)
    {
      var id :| id in d' && d'[id] == k;
      if id !in Ids(ks) {
        assert s.deregs[id] == k;
      }
    }
  }

  /** What a full sync leaves of a desired instance and of any other, whatever fails. */
  lemma FullSyncSafe(cfg: Config, s: State, e: Event, s': State)
    requires Safe(cfg, s) && e.SyncFull? && e.clientOk && Step(cfg, s, e, s')
    ensures Safe(cfg, s') && SameIndexes(s, s')
    ensures Undesired(cfg, s') == Undesired(cfg, s) - Targets(s.deregs, e.failedDeregs)
  {
    StepKeepsWatcherInv(cfg, s, e, s');
    RewrittenOk(cfg, s, s'.(deregs := s.deregs, catalog := s.catalog), e.failedDeregs, e.failedRegs, s');
    forall k: Key
      ensures HasReg(s.namespaces, k.ns, k.id) ==>
                k in s'.catalog && s'.catalog[k] == s.namespaces[k.ns][k.id].service && cfg.tag in s'.catalog[k].tags
      ensures k in Undesired(cfg, s') <==> k in Undesired(cfg, s) && k !in Targets(s.deregs, e.failedDeregs)
    {
      SyncFullEffect(cfg, s, e, s', k);
      assert HasReg(s.namespaces, k.ns, k.id) ==> k !in s.deregs.Values;
    }
  }

  /** Any step of the syncer, with any failures, keeps every desired instance registered.
      Only a full sync changes the unwanted instances: exactly those go whose
      deregistration was scheduled and went through. */
  lemma StepSafe(cfg: Config, s: State, e: Event, s': State)
    requires Safe(cfg, s) && Step(cfg, s, e, s') && !e.Sync? && !e.Outside?
    ensures Safe(cfg, s') && SameIndexes(s, s')
    ensures Undesired(cfg, s') ==
            if e.SyncFull? && e.clientOk then Undesired(cfg, s) - Targets(s.deregs, e.failedDeregs)
                else Undesired(cfg, s)
  {
    match e
    case Reap(ks) =>
      ReapTargetsUndesired(cfg, s, ks);
      ScheduledUndesired(s, ks, s'.deregs);
    case Poll(w, ok) =>
      PollTargets(cfg, s, w);
      ScheduledUndesired(s, if ok then WatchTargets(cfg, s, w) else {}, s'.deregs);
    case SyncFull(ok, _, _) =>
      if ok {
        FullSyncSafe(cfg, s, e, s');
      }
  }

  /** A stretch of a run in which neither the list nor anyone else interferes. */
  ghost predicate Undisturbed(cfg: Config, run: seq<State>, es: seq<Event>) {
    && |run| == |es| + 1
    && forall i | 0 <= i < |es| :: Step(cfg, run[i], es[i], run[i + 1]) && !es[i].Sync? && !es[i].Outside?
  }

  /** However many calls fail, nothing desired is ever lost and nothing unwanted appears. */
  lemma {:induction false} FailuresDoNoHarm(cfg: Config, run: seq<State>, es: seq<Event>, i: nat)
    requires Undisturbed(cfg, run, es) && i <= |es| && Safe(cfg, run[0])
    ensures Safe(cfg, run[i]) && SameIndexes(run[0], run[i])
    ensures Undesired(cfg, run[i]) <= Undesired(cfg, run[0])
  {
    if i > 0 {
      FailuresDoNoHarm(cfg, run, es, i - 1);
      StepSafe(cfg, run[i - 1], es[i - 1], run[i]);
    }
  }

  lemma FewerShared(ks: set<Key>, ls: set<Key>, n: nat)
    requires ks <= ls && SharedAtMost(ls, n)
    ensures SharedAtMost(ks, n)
  {
    forall id
      ensures |WithId(ks, id)| <= n
    {
      assert WithId(ks, id) <= WithId(ls, id);
      Smaller(WithId(ks, id), WithId(ls, id));
    }
  }

  lemma Smaller(a: set<Key>, b: set<Key>)
    requires a <= b
    ensures |a| <= |b|
  {
    assert b == a + (b - a);
  }

  /** After any stretch with failures, a full sync without failures and then rounds lead to
      convergence, after no more rounds than would have been needed before. */
  lemma RecoversFromFailures(cfg: Config, run: seq<State>, es: seq<Event>, rounds: seq<State>, n: nat)
    requires Undisturbed(cfg, run, es) && Safe(cfg, run[0])
    requires n < |rounds| && Step(cfg, run[|es|], SyncFull(true, {}, {}), rounds[0])
    requires forall i | 0 <= i < n :: Round(cfg, rounds[i], rounds[i + 1])
    requires SharedAtMost(Undesired(cfg, run[0]), n)
    ensures Converged(cfg, rounds[n]) && SameIndexes(run[0], rounds[n])
  {
    var s := run[|es|];
    FailuresDoNoHarm(cfg, run, es, |es|);
    StepSafe(cfg, s, SyncFull(true, {}, {}), rounds[0]);
    FullSyncSettles(cfg, s, rounds[0]);
    FewerShared(Undesired(cfg, rounds[0]), Undesired(cfg, run[0]), n);
    Converges(cfg, rounds, n);
  }
}
