/** What ConsulSyncer.Sync stores: the two indexes over a list of registrations. */
module SyncIndex {
  import opened Catalog
  import opened ServiceIds

  /** Namespace to the set of valid service names. */
  type NameIndex = map<string, set<string>>
  /** Namespace to service ID to registration. */
  type RegIndex = map<string, map<string, Registration>>

  function NamespacesOf(rs: seq<Registration>): set<string> {
    set r | r in rs :: r.service.ns
  }

  function NamesIn(rs: seq<Registration>, ns: string): set<string> {
    set r | r in rs && r.service.ns == ns :: r.service.name
  }

  function IdsIn(rs: seq<Registration>, ns: string): set<string> {
    set r | r in rs && r.service.ns == ns :: r.service.id
  }

  predicate Has(rs: seq<Registration>, ns: string, id: string) {
    exists r :: r in rs && r.service.ns == ns && r.service.id == id
  }

  /** The last registration of the list with this namespace and ID. */
  function Last(rs: seq<Registration>, ns: string, id: string): (r: Registration)
    requires Has(rs, ns, id)
    ensures r in rs && r.service.ns == ns && r.service.id == id
  {
    var l := rs[|rs| - 1];
    if l.service.ns == ns && l.service.id == id then l
    else
      assert forall r | r in rs :: r == l || r in rs[..|rs| - 1];
      Last(rs[..|rs| - 1], ns, id)
  }

  ghost function IndexNames(rs: seq<Registration>): NameIndex {
    map ns | ns in NamespacesOf(rs) :: NamesIn(rs, ns)
  }

  ghost function IndexRegs(rs: seq<Registration>): RegIndex {
    map ns | ns in NamespacesOf(rs) :: RegsIn(rs, ns)
  }

  ghost function RegsIn(rs: seq<Registration>, ns: string): map<string, Registration> {
    map id | id in IdsIn(rs, ns) :: Last(rs, ns, id)
  }

  /** The names a namespace's index holds; empty when the namespace is absent. */
  function NamesOf(n: NameIndex, ns: string): set<string> {
    if ns in n then n[ns] else {}
  }

  /** The desired instances a registration index stands for. */
  ghost function Desired(regs: RegIndex): map<Key, Registration> {
    map k | k in DesiredKeys(regs) :: regs[k.ns][k.id]
  }

  predicate HasReg(regs: RegIndex, ns: string, id: string) {
    ns in regs && id in regs[ns]
  }

  ghost function DesiredKeys(regs: RegIndex): (ks: set<Key>)
    ensures forall k :: k in ks <==> HasReg(regs, k.ns, k.id)
  {
    set ns, id | ns in regs && id in regs[ns] :: Key(ns, id)
  }

  // ---------------------------------------------------------------------------
  // One more registration

  lemma NoneIndexed()
    ensures IndexNames([]) == map[] && IndexRegs([]) == map[]
  {
  }

  lemma NamesSnoc(rs: seq<Registration>, r: Registration)
    ensures var n, s := IndexNames(rs), r.service;
            IndexNames(rs + [r]) == n[s.ns := NamesOf(n, s.ns) + {s.name}]
  {
    var all, s := rs + [r], r.service;
    assert forall x :: x in all <==> x in rs || x == r;
    assert r in all;
    assert NamespacesOf(all) == NamespacesOf(rs) + {s.ns};
    forall ns | ns in NamespacesOf(all)
      ensures NamesIn(all, ns) == if ns == s.ns then NamesIn(rs, ns) + {s.name} else NamesIn(rs, ns)
    {
    }
    assert s.ns !in NamespacesOf(rs) ==> NamesIn(rs, s.ns) == {};
  }

  lemma RegsInSnoc(rs: seq<Registration>, r: Registration, ns: string)
    ensures RegsIn(rs + [r], ns) ==
            if ns == r.service.ns then RegsIn(rs, ns)[r.service.id := r] else RegsIn(rs, ns)
  {
    var all, s := rs + [r], r.service;
    assert forall x :: x in all <==> x in rs || x == r;
    assert r in all && all[..|rs|] == rs;
    assert IdsIn(all, ns) == if ns == s.ns then IdsIn(rs, ns) + {s.id} else IdsIn(rs, ns);
  }

  lemma RegsSnoc(rs: seq<Registration>, r: Registration)
    ensures var g, s := IndexRegs(rs), r.service;
            IndexRegs(rs + [r]) == g[s.ns := (if s.ns in g then g[s.ns] else map[])[s.id := r]]
  {
    var all, s := rs + [r], r.service;
    assert NamespacesOf(all) == NamespacesOf(rs) + {s.ns} by {
      assert forall x :: x in all <==> x in rs || x == r;
      assert r in all;
    }
    forall ns | ns in NamespacesOf(all)
      ensures RegsIn(all, ns) == if ns == s.ns then RegsIn(rs, ns)[s.id := r] else RegsIn(rs, ns)
    {
      RegsInSnoc(rs, r, ns);
    }
    if s.ns !in NamespacesOf(rs) {
      assert IdsIn(rs, s.ns) == {};
      assert RegsIn(rs, s.ns) == map[];
    }
  }

  // ---------------------------------------------------------------------------
  // What the indexes mean

  /** Every registration carries an ID made from its name. */
  ghost predicate IdsFromNames(sha1: Digest, rs: seq<Registration>) {
    forall r | r in rs :: IdFromName(sha1, r)
  }

  ghost predicate IdFromName(sha1: Digest, r: Registration) {
    exists addr :: r.service.id == ServiceId(sha1, r.service.name, addr)
  }

  /** Within a namespace an ID belongs to one registration. */
  ghost predicate IdsUnique(rs: seq<Registration>) {
    forall r, r' | r in rs && r' in rs && SameKey(r, r') :: r == r'
  }

  predicate SameKey(r: Registration, r': Registration) {
    r.service.ns == r'.service.ns && r.service.id == r'.service.id
  }

  /** The two indexes agree: they know the same namespaces, and the valid names of
      a namespace are exactly the names of the registrations indexed there, although
      an ID that occurs twice keeps only its last registration. */
  lemma IndexesAgree(sha1: Digest, rs: seq<Registration>)
    requires IdsFromNames(sha1, rs)
    ensures IndexNames(rs).Keys == IndexRegs(rs).Keys
    ensures forall ns | ns in IndexRegs(rs) ::
              IndexNames(rs)[ns] == set id | id in IndexRegs(rs)[ns] :: IndexRegs(rs)[ns][id].service.name
  {
    forall ns | ns in IndexRegs(rs)
      ensures NamesIn(rs, ns) == set id | id in RegsIn(rs, ns) :: RegsIn(rs, ns)[id].service.name
    {
      forall r | r in rs && r.service.ns == ns
        ensures r.service.id in RegsIn(rs, ns)
        ensures RegsIn(rs, ns)[r.service.id].service.name == r.service.name
      {
        var last := Last(rs, ns, r.service.id);
        assert IdFromName(sha1, r) && IdFromName(sha1, last);
        var a :| r.service.id == ServiceId(sha1, r.service.name, a);
        var a' :| last.service.id == ServiceId(sha1, last.service.name, a');
        IdDeterminesName(sha1, r.service.name, a, last.service.name, a');
      }
    }
  }

  lemma SameMembers(rs: seq<Registration>, rs': seq<Registration>)
    requires multiset(rs) == multiset(rs')
    ensures forall r :: r in rs <==> r in rs'
  {
    forall r
      ensures r in rs <==> r in rs'
    {
      assert r in multiset(rs) <==> r in rs;
      assert r in multiset(rs') <==> r in rs';
    }
  }

  /** The index of names does not depend on the order of the list, which is that of a map
      iteration. */
  lemma NamesOrderIndependent(rs: seq<Registration>, rs': seq<Registration>)
    requires multiset(rs) == multiset(rs')
    ensures IndexNames(rs) == IndexNames(rs')
  {
    SameMembers(rs, rs');
    assert NamespacesOf(rs) == NamespacesOf(rs');
    forall ns | ns in NamespacesOf(rs)
      ensures NamesIn(rs, ns) == NamesIn(rs', ns)
    {
    }
  }

  lemma RegsOrderIndependent(rs: seq<Registration>, rs': seq<Registration>)
    requires multiset(rs) == multiset(rs') && IdsUnique(rs)
    ensures IndexRegs(rs) == IndexRegs(rs')
  {
    SameMembers(rs, rs');
    assert NamespacesOf(rs) == NamespacesOf(rs');
    forall ns | ns in NamespacesOf(rs)
      ensures RegsIn(rs, ns) == RegsIn(rs', ns)
    {
      assert IdsIn(rs, ns) == IdsIn(rs', ns);
      forall id | id in IdsIn(rs, ns)
        ensures Last(rs, ns, id) == Last(rs', ns, id)
      {
        assert SameKey(Last(rs, ns, id), Last(rs', ns, id));
      }
    }
  }

  /** Every order of the list gives the same index of registrations. */
  ghost predicate OrderFree(rs: seq<Registration>) {
    forall rs' | Permutes(rs, rs') :: IndexRegs(rs') == IndexRegs(rs)
  }

  ghost predicate Permutes(rs: seq<Registration>, rs': seq<Registration>) {
    multiset(rs) == multiset(rs')
  }

  /** A list in which a given registration comes last indexes that one. */
  lemma LastWins(rs: seq<Registration>, r: Registration) returns (rs': seq<Registration>)
    requires r in rs
    ensures Permutes(rs, rs')
    ensures HasReg(IndexRegs(rs'), r.service.ns, r.service.id) && IndexRegs(rs')[r.service.ns][r.service.id] == r
  {
    var i :| 0 <= i < |rs| && rs[i] == r;
    rs' := rs[..i] + rs[i + 1..] + [r];
    assert rs == rs[..i] + [r] + rs[i + 1..];
    RegsSnoc(rs[..i] + rs[i + 1..], r);
  }

  /** The index of registrations does not depend on the order of the list exactly when IDs
      are unique within a namespace. */
  lemma OrderFreeExactlyWhen(rs: seq<Registration>)
    ensures OrderFree(rs) <==> IdsUnique(rs)
  {
    if IdsUnique(rs) {
      forall rs' | Permutes(rs, rs')
        ensures IndexRegs(rs') == IndexRegs(rs)
      {
        RegsOrderIndependent(rs, rs');
      }
    }
    if OrderFree(rs) {
      forall r, r' | r in rs && r' in rs && SameKey(r, r')
        ensures r == r'
      {
        var a := LastWins(rs, r);
        var b := LastWins(rs, r');
        assert IndexRegs(a) == IndexRegs(rs) == IndexRegs(b);
      }
    }
  }

  /** The desired instances are those of the list; where several share a key, one of them. */
  lemma DesiredFromList(rs: seq<Registration>, k: Key)
    ensures HasReg(IndexRegs(rs), k.ns, k.id) <==> exists r :: r in rs && k == Key(r.service.ns, r.service.id)
    ensures HasReg(IndexRegs(rs), k.ns, k.id) ==>
              exists r :: r in rs && k == Key(r.service.ns, r.service.id) && IndexRegs(rs)[k.ns][k.id] == r
  {
    if HasReg(IndexRegs(rs), k.ns, k.id) {
      var r := Last(rs, k.ns, k.id);
      assert r in rs && k == Key(r.service.ns, r.service.id) && IndexRegs(rs)[k.ns][k.id] == r;
    }
    forall r | r in rs && k == Key(r.service.ns, r.service.id)
      ensures HasReg(IndexRegs(rs), k.ns, k.id)
    {
      assert r.service.ns in NamespacesOf(rs) && r.service.id in IdsIn(rs, r.service.ns);
    }
  }

  /** With unique IDs the desired instances are exactly the listed registrations. */
  lemma DesiredIsList(rs: seq<Registration>, r: Registration)
    requires IdsUnique(rs) && r in rs
    ensures HasReg(IndexRegs(rs), r.service.ns, r.service.id) && IndexRegs(rs)[r.service.ns][r.service.id] == r
  {
    var k := Key(r.service.ns, r.service.id);
    DesiredFromList(rs, k);
    var r' :| r' in rs && k == Key(r'.service.ns, r'.service.id) && IndexRegs(rs)[k.ns][k.id] == r';
    assert SameKey(r, r');
  }
}
