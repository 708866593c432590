/** What a reverse sync guarantees: under any failures, and when nothing fails. */
module SyncLaws {
  import opened PyText
  import opened Names
  import opened EnclosingZones
  import opened RecordRules
  import opened PanelState

  /** Every link's PTR answers with the link's forward name. */
  ghost predicate AllAnswer(s: Store) {
    forall p :: p in s.links ==> Answers(s, p, s.links[p])
  }

  predicate IsName(name: string) {
    name != "" && IsCanonical(name)
  }

  /** A PTR that some address asks for and that has a zone the user may edit. */
  ghost predicate IsWanted(parsers: Parsers, s: Store, user: User, zone: string, address: string, ptr: string) {
    && PtrOf(parsers, address) == Some(ptr)
    && Placement(s, zone, ptr).Some?
    && CanEdit(user, Placement(s, zone, ptr).value)
  }

  /** A target is in the right zone, for one of the addresses. */
  ghost predicate IsRight(parsers: Parsers, s: Store, user: User, zone: string, addresses: seq<string>, ptr: string,
                          target: Target)
  {
    && target.address in addresses
    && IsWanted(parsers, s, user, zone, target.address, ptr)
    && Placement(s, zone, ptr) == Some(target.reverseZone)
  }

  /** The wanted PTRs are those of the addresses that have a writable zone, each placed there for one of those
      addresses. */
  lemma {:induction false} TargetsExactly(parsers: Parsers, s: Store, user: User, zone: string, addresses: seq<string>,
                                          found: map<string, Target>)
    requires found == Targets(parsers, s, user, zone, addresses)
    ensures forall p :: p in found ==> IsRight(parsers, s, user, zone, addresses, p, found[p])
    ensures forall a, p :: a in addresses && IsWanted(parsers, s, user, zone, a, p) ==> p in found
    decreases |addresses|
  {
    hide Placement, CanEdit, PtrOf;
    if addresses != [] {
      var last := |addresses| - 1;
      var rest := Targets(parsers, s, user, zone, addresses[..last]);
      TargetsExactly(parsers, s, user, zone, addresses[..last], rest);
      assert found == AddTarget(parsers, s, user, zone, rest, addresses[last]);
      assert forall a :: a in addresses <==> a in addresses[..last] || a == addresses[last];
      forall p | p in found ensures IsRight(parsers, s, user, zone, addresses, p, found[p]) {
        if p in rest && found[p] == rest[p] {
          assert IsRight(parsers, s, user, zone, addresses[..last], p, rest[p]);
        }
      }
    }
  }

  lemma WantedIs(parsers: Parsers, s: Store, user: User, a: SyncArgs, ptr: string)
    requires ptr in Wanted(parsers, s, user, a)
    ensures a.enabled && a.owner.rtype in ADDRESS_TYPES
    ensures IsRight(parsers, s, user, a.owner.zone, a.addresses, ptr, Wanted(parsers, s, user, a)[ptr])
  {
    hide IsRight;
    TargetsExactly(parsers, s, user, a.owner.zone, a.addresses, Wanted(parsers, s, user, a));
  }

  /** A placed PTR lies in its zone, and the zone is one the forward zone is paired with or one on the server. */
  lemma PlacementFits(s: Store, zone: string, ptr: string)
    requires Placement(s, zone, ptr).Some?
    ensures var z := Placement(s, zone, ptr).value;
      z != "" && InZone(ptr, z) && z in CanonicalSet(PairedZones(s, zone)) + CanonicalSet(s.zones)
  {
    hide InZone, Canonical;
  }

  lemma PtrSetAnswers(a: SyncArgs)
    requires IsName(a.owner.name)
    ensures CanonicalContents(PtrSet(a)) == [a.owner.name]
  {
    hide StripDots;
    assert Strip(a.owner.name) != "" by { CanonicalHasShape(a.owner.name); }
    assert [a.owner.name][..0] == [];
  }

  /** What one record set holds after a sync, key by key. */
  lemma LookupAfterSync(s: Store, a: SyncArgs, wanted: map<string, Target>, written: set<string>, dropped: set<string>,
                        gone: set<string>, k: Key)
    requires written <= wanted.Keys && dropped <= s.links.Keys && gone <= dropped
    ensures Lookup(AfterSync(s, a, wanted, written, dropped, gone), k) ==
      if k.rtype == "PTR" && k.name in written && k.zone == wanted[k.name].reverseZone then Some(PtrSet(a))
      else if k.rtype == "PTR" && k.name in gone && k.zone == s.links[k.name].reverseZone then None
      else Lookup(s, k)
  {
    hide PtrSet, LinkTo;
    var p := k.name;
    if k.rtype == "PTR" {
      assert p in written && k.zone == wanted[p].reverseZone ==> k == PtrKey(wanted[p].reverseZone, p);
      assert p in gone && k.zone == s.links[p].reverseZone ==> k == PtrKey(s.links[p].reverseZone, p);
    }
  }

  /**
   Whatever calls fail, a sync keeps every link's PTR answering, leaves the record set owning only wanted
   PTRs, and keeps all other links.
   */
  lemma SyncKeepsAnswers(parsers: Parsers, s: Store, user: User, a: SyncArgs, s': Store, written: set<string>,
                         gone: set<string>)
    requires AllAnswer(s) && IsName(a.owner.name) && Synced(parsers, s, user, a, s', written, gone)
    ensures AllAnswer(s')
    ensures Owned(s', a.owner) <= Wanted(parsers, s, user, a).Keys
    ensures forall p :: p !in Wanted(parsers, s, user, a) && p !in Owned(s, a.owner) ==>
      (p in s'.links <==> p in s.links) && (p in s.links ==> s'.links[p] == s.links[p])
  {
    hide Wanted, PtrSet, CanonicalContents;
    var wanted := Wanted(parsers, s, user, a);
    var dropped := Retired(s, a, wanted);
    PtrSetAnswers(a);
    forall p | p in s'.links ensures Answers(s', p, s'.links[p]) {
      LookupAfterSync(s, a, wanted, written, dropped, gone, PtrKey(s'.links[p].reverseZone, p));
    }
  }

  /**
   Whatever calls fail, the record sets a sync changes are PTR sets: it writes the forward name at wanted
   PTRs in zones the user may edit, and deletes PTRs the record set owned, does not want and that still answered.
   */
  lemma SyncChangesOnlyItsPtrs(parsers: Parsers, s: Store, user: User, a: SyncArgs, s': Store, written: set<string>,
                               gone: set<string>, k: Key)
    requires Synced(parsers, s, user, a, s', written, gone) && Lookup(s', k) != Lookup(s, k)
    ensures k.rtype == "PTR"
    ensures var wanted := Wanted(parsers, s, user, a);
      if k.name in wanted then
        Lookup(s', k) == Some(PtrSet(a)) && CanEdit(user, k.zone) && Some(k.zone) == Placement(s, a.owner.zone, k.name)
      else
        && Lookup(s', k) == None && k.name in Owned(s, a.owner)
        && k.zone == s.links[k.name].reverseZone && Answers(s, k.name, s.links[k.name])
  {
    hide PtrSet, CanonicalContents, Placement, CanEdit;
    var wanted := Wanted(parsers, s, user, a);
    if k.name in wanted { WantedIs(parsers, s, user, a, k.name); }
    LookupAfterSync(s, a, wanted, written, Retired(s, a, wanted), gone, k);
  }

  /** A sync in which nothing fails is one of those. */
  lemma CleanIsSynced(parsers: Parsers, s: Store, user: User, a: SyncArgs)
    ensures var wanted := Wanted(parsers, s, user, a);
      Synced(parsers, s, user, a, CleanSync(parsers, s, user, a), wanted.Keys, StillOurs(s, Retired(s, a, wanted)))
  {
  }

  /** When nothing fails the record set ends up owning exactly the wanted PTRs, each answering with the forward name. */
  lemma CleanSyncOwnsWanted(parsers: Parsers, s: Store, user: User, a: SyncArgs)
    requires IsName(a.owner.name)
    ensures var wanted, s' := Wanted(parsers, s, user, a), CleanSync(parsers, s, user, a);
      && Owned(s', a.owner) == wanted.Keys
      && forall p :: p in wanted ==> s'.links[p] == LinkTo(a, wanted[p]) && Answers(s', p, s'.links[p])
  {
    hide Wanted, PtrSet, CanonicalContents, Placement, CanEdit;
    var wanted, s' := Wanted(parsers, s, user, a), CleanSync(parsers, s, user, a);
    var dropped := Retired(s, a, wanted);
    PtrSetAnswers(a);
    forall p | p in wanted ensures Answers(s', p, LinkTo(a, wanted[p])) {
      LookupAfterSync(s, a, wanted, wanted.Keys, dropped, StillOurs(s, dropped), PtrKey(wanted[p].reverseZone, p));
    }
  }

  /** Running a sync again changes nothing. */
  lemma CleanSyncIsIdempotent(parsers: Parsers, s: Store, user: User, a: SyncArgs)
    ensures var s' := CleanSync(parsers, s, user, a); CleanSync(parsers, s', user, a) == s'
  {
    hide PtrSet, LinkTo, Targets, Answers, AfterSync;
    var s' := CleanSync(parsers, s, user, a);
    var wanted := Wanted(parsers, s, user, a);
    var retired := Retired(s, a, wanted);
    AfterSyncOwns(s, a, wanted, retired, StillOurs(s, retired), s');
    assert Wanted(parsers, s', user, a) == wanted by {
      TargetsDependOn(parsers, s, s', user, a.owner.zone, a.addresses);
    }
    WritingAgain(s, a, wanted, retired, StillOurs(s, retired), s');
    assert StillOurs(s', {}) == {};
  }

  lemma AfterSyncOwns(s: Store, a: SyncArgs, wanted: map<string, Target>, dropped: set<string>, gone: set<string>,
                      s': Store)
    requires gone <= dropped <= s.links.Keys && dropped == Retired(s, a, wanted)
    requires s' == AfterSync(s, a, wanted, wanted.Keys, dropped, gone)
    ensures s'.zones == s.zones && s'.pairs == s.pairs && Retired(s', a, wanted) == {}
  {
    hide PtrSet;
  }

  lemma WritingAgain(s: Store, a: SyncArgs, wanted: map<string, Target>, dropped: set<string>, gone: set<string>,
                     s': Store)
    requires gone <= dropped <= s.links.Keys
    requires s' == AfterSync(s, a, wanted, wanted.Keys, dropped, gone)
    ensures AfterSync(s', a, wanted, wanted.Keys, {}, {}) == s'
  {
    hide PtrSet, LinkTo;
    var s'' := AfterSync(s', a, wanted, wanted.Keys, {}, {});
    assert s''.links == s'.links;
    assert s''.rrsets == s'.rrsets;
  }

  /** Targets depend on the pairings and the list of zones only. */
  lemma {:induction false} TargetsDependOn(parsers: Parsers, s: Store, t: Store, user: User, zone: string,
                                           addresses: seq<string>)
    requires s.pairs == t.pairs && s.zones == t.zones
    ensures Targets(parsers, s, user, zone, addresses) == Targets(parsers, t, user, zone, addresses)
  {
    hide PtrOf, CanEdit, Enclosing;
    if addresses != [] { TargetsDependOn(parsers, s, t, user, zone, addresses[..|addresses| - 1]); }
  }

  lemma WantedDependsOn(parsers: Parsers, s: Store, t: Store, user: User, a: SyncArgs)
    requires s.pairs == t.pairs && s.zones == t.zones
    ensures Wanted(parsers, s, user, a) == Wanted(parsers, t, user, a)
  {
    hide Targets;
    TargetsDependOn(parsers, s, t, user, a.owner.zone, a.addresses);
  }

  lemma CleanZones(parsers: Parsers, s: Store, user: User, a: SyncArgs)
    ensures CleanSync(parsers, s, user, a).zones == s.zones && CleanSync(parsers, s, user, a).pairs == s.pairs
  {
  }

  /** Retiring the old name first and syncing the new one then leaves the old name owning nothing. */
  lemma RenameLeavesNothing(parsers: Parsers, s: Store, user: User, before: Key, a: SyncArgs)
    requires before != a.owner
    ensures var retired := CleanSync(parsers, s, user, Retire(before, a.ttl));
      Owned(CleanSync(parsers, retired, user, a), before) == {}
  {
    hide Wanted, PtrSet, CanonicalContents;
    NothingWanted(parsers, s, user, before, a.ttl);
  }

  /** The sync that takes a record set's PTRs away. */
  function Retire(owner: Key, ttl: int): SyncArgs {
    SyncArgs(owner, ttl, [], false)
  }

  lemma NothingWanted(parsers: Parsers, s: Store, user: User, owner: Key, ttl: int)
    ensures Wanted(parsers, s, user, Retire(owner, ttl)) == map[]
  {
  }
}
