/** What the rows of the link table say about the record sets, and what each operation does to that. */
module LinkRows {
  import opened PyText
  import opened Names
  import opened RecordRules
  import opened PanelState
  import opened SyncLaws
  import opened ZoneHandlers

  // ----- the link invariant -----

  /** The link's forward set is there and lists the link's address, enabled. */
  predicate Lists(s: Store, link: Link) {
    var found := Lookup(s, Owner(link));
    found.Some? && Record(link.address, false) in found.value.records
  }

  /** What a row says by itself: an address record's name, and the PTR name of the row's own address. */
  predicate IsLinkRow(parsers: Parsers, ptr: string, link: Link) {
    && link.forwardType in ADDRESS_TYPES
    && IsName(link.forwardName)
    && PtrOf(parsers, link.address) == Some(ptr)
  }

  /** None of a set's records is disabled. */
  predicate IsEnabled(s: Store, k: Key) {
    k in s.rrsets ==> forall r :: r in s.rrsets[k].records ==> !r.disabled
  }

  ghost predicate AreNames(zones: set<string>) {
    forall z :: z in zones ==> IsName(z)
  }

  ghost predicate IsStored(s: Store) {
    && AreNames(s.zones)
    && (forall k :: k in s.rrsets ==> k.zone in s.zones)
    && (forall p :: p in s.pairs ==> p.1 in s.zones)
  }

  /**
   Every link ties a live, enabled address set that lists its address to a PTR set answering with the
   forward name - except that the forward sets in `forward` and the PTR sets in `reverse` may have just changed.
   */
  ghost predicate LinksHoldExcept(parsers: Parsers, s: Store, forward: set<Key>, reverse: set<Key>) {
    && AreNames(s.zones)
    && forall p :: p in s.links ==> LinkHolds(parsers, s, p, s.links[p], forward, reverse)
  }

  predicate LinkHolds(parsers: Parsers, s: Store, ptr: string, link: Link, forward: set<Key>, reverse: set<Key>) {
    && IsLinkRow(parsers, ptr, link)
    && (Owner(link) !in forward ==> Lists(s, link))
    && (PtrKey(link.reverseZone, ptr) !in reverse ==> Answers(s, ptr, link))
  }

  ghost predicate LinksHold(parsers: Parsers, s: Store) {
    IsStored(s) && LinksHoldExcept(parsers, s, {}, {})
  }

  /** A row whose forward and PTR sets read the same as before holds as before. */
  lemma RowKeeps(parsers: Parsers, s: Store, s': Store, p: string, link: Link, k: Key, forward: set<Key>,
                 reverse: set<Key>)
    requires LinkHolds(parsers, s, p, link, forward, reverse)
    requires Owner(link) != k ==> Lookup(s', Owner(link)) == Lookup(s, Owner(link))
    requires PtrKey(link.reverseZone, p) != k ==>
      Lookup(s', PtrKey(link.reverseZone, p)) == Lookup(s, PtrKey(link.reverseZone, p))
    ensures LinkHolds(parsers, s', p, link, forward + {k}, reverse + {k})
  {
    hide IsLinkRow, CanonicalContents, Lookup;
  }

  /** Changing one record set can only break what its own key says. */
  lemma OneSetChanged(parsers: Parsers, s: Store, s': Store, k: Key, forward: set<Key>, reverse: set<Key>)
    requires LinksHoldExcept(parsers, s, forward, reverse) && s'.links == s.links && s'.zones == s.zones
    requires forall j: Key :: j != k ==> Lookup(s', j) == Lookup(s, j)
    ensures LinksHoldExcept(parsers, s', forward + {k}, reverse + {k})
  {
    hide LinkHolds, IsName, Lookup;
    forall p | p in s'.links ensures LinkHolds(parsers, s', p, s'.links[p], forward + {k}, reverse + {k}) {
      RowKeeps(parsers, s, s', p, s.links[p], k, forward, reverse);
    }
  }

  /** A sync restores what its own record set's links say. */
  lemma SyncRestores(parsers: Parsers, s: Store, user: User, a: SyncArgs, forward: set<Key>, reverse: set<Key>)
    requires LinksHoldExcept(parsers, s, forward, reverse) && IsName(a.owner.name)
    requires forall p :: p in Wanted(parsers, s, user, a) ==> Lists(s, LinkTo(a, Wanted(parsers, s, user, a)[p]))
    ensures LinksHoldExcept(parsers, CleanSync(parsers, s, user, a), forward - {a.owner}, reverse)
  {
    hide Wanted, Lists, LinkHolds, Answers, IsName, CanonicalContents;
    var wanted := Wanted(parsers, s, user, a);
    var s' := CleanSync(parsers, s, user, a);
    forall p | p in s'.links ensures LinkHolds(parsers, s', p, s'.links[p], forward - {a.owner}, reverse) {
      if p in wanted {
        NewRowHolds(parsers, s, user, a, p, forward - {a.owner}, reverse);
      } else {
        OldRowHolds(parsers, s, user, a, p, forward, reverse);
      }
    }
  }

  lemma NewRowHolds(parsers: Parsers, s: Store, user: User, a: SyncArgs, p: string, forward: set<Key>,
                    reverse: set<Key>)
    requires IsName(a.owner.name) && p in Wanted(parsers, s, user, a)
    requires Lists(s, LinkTo(a, Wanted(parsers, s, user, a)[p]))
    ensures var s' := CleanSync(parsers, s, user, a);
      p in s'.links && LinkHolds(parsers, s', p, s'.links[p], forward, reverse)
  {
    hide Wanted, CanonicalContents, PtrSet, Placement, CanEdit, IsName;
    var wanted := Wanted(parsers, s, user, a);
    var dropped := Retired(s, a, wanted);
    CleanSyncOwnsWanted(parsers, s, user, a);
    WantedIs(parsers, s, user, a, p);
    LookupAfterSync(s, a, wanted, wanted.Keys, dropped, StillOurs(s, dropped), a.owner);
  }

  lemma OldRowHolds(parsers: Parsers, s: Store, user: User, a: SyncArgs, p: string, forward: set<Key>,
                    reverse: set<Key>)
    requires p !in Wanted(parsers, s, user, a) && p in CleanSync(parsers, s, user, a).links
    requires LinkHolds(parsers, s, p, s.links[p], forward, reverse)
    ensures var s' := CleanSync(parsers, s, user, a);
      s'.links[p] == s.links[p] && LinkHolds(parsers, s', p, s'.links[p], forward - {a.owner}, reverse)
  {
    hide Wanted, CanonicalContents, PtrSet, IsName, PtrOf;
    var wanted, link := Wanted(parsers, s, user, a), s.links[p];
    var dropped := Retired(s, a, wanted);
    LookupAfterSync(s, a, wanted, wanted.Keys, dropped, StillOurs(s, dropped), Owner(link));
    LookupAfterSync(s, a, wanted, wanted.Keys, dropped, StillOurs(s, dropped), PtrKey(link.reverseZone, p));
  }

  /** Forgetting a link settles what its PTR set says. */
  lemma ForgetKeeps(parsers: Parsers, s: Store, p: string, forward: set<Key>, reverse: set<Key>, rest: set<Key>)
    requires LinksHoldExcept(parsers, s, forward, reverse)
    requires forall k :: k in reverse && k.rtype == "PTR" && k.name != p ==> k in rest
    ensures LinksHoldExcept(parsers, Forgotten(s, p), forward, rest)
  {
    hide IsLinkRow, Lists, CanonicalContents, IsName;
    var s' := Forgotten(s, p);
    forall q | q in s'.links ensures LinkHolds(parsers, s', q, s'.links[q], forward, rest) {
      assert LinkHolds(parsers, s, q, s.links[q], forward, reverse);
      SameSets(s, s', s.links[q], q);
    }
  }

  lemma SameSets(s: Store, s': Store, link: Link, p: string)
    requires s.rrsets == s'.rrsets
    ensures Lists(s', link) == Lists(s, link) && Answers(s', p, link) == Answers(s, p, link)
  {
  }

  /** Handing an edited PTR back settles it: the link that stays is one the written set answers for. */
  lemma HandBackKeeps(parsers: Parsers, s: Store, k: Key, contents: seq<string>, forward: set<Key>, reverse: set<Key>,
                      rest: set<Key>)
    requires LinksHoldExcept(parsers, s, forward, reverse) && k.rtype == "PTR"
    requires forall j :: j in reverse && j.rtype == "PTR" && j != k ==> j in rest
    requires k.name in s.links && s.links[k.name].reverseZone == k.zone ==>
      k in s.rrsets && CanonicalContents(s.rrsets[k]) == AllCanonical(contents)
    ensures LinksHoldExcept(parsers, HandedBack(s, k.name, contents), forward, rest)
  {
    hide IsLinkRow, Lists, CanonicalContents, IsName, AllCanonical;
    var s' := HandedBack(s, k.name, contents);
    forall q | q in s'.links ensures LinkHolds(parsers, s', q, s'.links[q], forward, rest) {
      assert LinkHolds(parsers, s, q, s.links[q], forward, reverse);
      SameSets(s, s', s.links[q], q);
    }
  }

  /** Links are the business of address sets on one side and of PTR sets on the other, and a guarantee may be
      weakened. */
  lemma OnlyTheseMatter(parsers: Parsers, s: Store, forward: set<Key>, reverse: set<Key>, forward': set<Key>,
                        reverse': set<Key>)
    requires LinksHoldExcept(parsers, s, forward, reverse)
    requires forall k :: k in forward && k.rtype in ADDRESS_TYPES ==> k in forward'
    requires forall k :: k in reverse && k.rtype == "PTR" ==> k in reverse'
    ensures LinksHoldExcept(parsers, s, forward', reverse')
  {
    hide Lists, Answers, IsName, PtrOf;
    forall p | p in s.links ensures LinkHolds(parsers, s, p, s.links[p], forward', reverse') {
      assert LinkHolds(parsers, s, p, s.links[p], forward, reverse);
    }
  }

  // ----- a save -----

  lemma FormSetLists(f: RecordForm, address: string)
    requires address in f.Lines() && !f.disabled
    ensures Record(address, false) in f.Set().records
  {
    hide Fields;
    var i :| 0 <= i < |f.Lines()| && f.Lines()[i] == address;
    NoLineIsBlank(f);
    assert f.Set().records[i] == Record(address, false);
  }

  lemma NoLineIsBlank(f: RecordForm)
    ensures forall c :: c in f.Lines() ==> Strip(c) != ""
  {
  }

  /** The lines of the form are what the written set answers with. */
  lemma FormSetContents(f: RecordForm)
    ensures CanonicalContents(f.Set()) == AllCanonical(f.Lines())
  {
    hide Fields, Canonical;
    NoLineIsBlank(f);
  }

  /** A sync leaves the sets that are not PTRs alone. */
  lemma SyncKeepsOthers(parsers: Parsers, s: Store, user: User, a: SyncArgs, k: Key)
    requires k.rtype != "PTR"
    ensures Lookup(CleanSync(parsers, s, user, a), k) == Lookup(s, k)
  {
    hide Wanted, PtrSet;
    var wanted := Wanted(parsers, s, user, a);
    var dropped := Retired(s, a, wanted);
    LookupAfterSync(s, a, wanted, wanted.Keys, dropped, StillOurs(s, dropped), k);
  }

  /** A sync that wants nothing leaves every link it keeps with the PTR set it had. */
  lemma RetireKeepsPtrs(parsers: Parsers, s: Store, user: User, a: SyncArgs, p: string)
    requires Wanted(parsers, s, user, a) == map[]
    ensures var s' := CleanSync(parsers, s, user, a);
      p in s'.links ==>
        p in s.links && s'.links[p] == s.links[p] && forall k: Key :: k.name == p ==> Lookup(s', k) == Lookup(s, k)
  {
    hide Wanted, PtrSet;
    var dropped := Retired(s, a, map[]);
    var s' := CleanSync(parsers, s, user, a);
    forall k: Key | k.name == p && p in s'.links ensures Lookup(s', k) == Lookup(s, k) {
      LookupAfterSync(s, a, map[], {}, dropped, StillOurs(s, dropped), k);
    }
  }

  /** Retiring a record set's PTRs settles it. */
  lemma RetireRestores(parsers: Parsers, s: Store, user: User, k: Key, ttl: int, forward: set<Key>, reverse: set<Key>)
    requires LinksHoldExcept(parsers, s, forward, reverse) && IsName(k.name)
    ensures LinksHoldExcept(parsers, CleanSync(parsers, s, user, Retire(k, ttl)), forward - {k}, reverse)
  {
    hide LinksHoldExcept, CleanSync, IsName, Wanted;
    NothingWanted(parsers, s, user, k, ttl);
    SyncRestores(parsers, s, user, Retire(k, ttl), forward, reverse);
  }

  /** Syncing a saved set settles it. */
  lemma MainSyncRestores(parsers: Parsers, s: Store, user: User, f: RecordForm, forward: set<Key>, reverse: set<Key>)
    requires LinksHoldExcept(parsers, s, forward, reverse) && IsName(f.Name())
    requires f.rtype in ADDRESS_TYPES ==> Lookup(s, f.Key()) == Some(f.Set())
    ensures LinksHoldExcept(parsers, CleanSync(parsers, s, user, f.Sync()), forward - {f.Key()}, reverse)
  {
    hide LinksHoldExcept, CleanSync, IsName, Lists, Wanted, Fields, PtrOf, Placement, CanEdit, RecordsOf, Lookup;
    var wanted := Wanted(parsers, s, user, f.Sync());
    forall p | p in wanted ensures Lists(s, LinkTo(f.Sync(), wanted[p])) {
      WantedIs(parsers, s, user, f.Sync(), p);
      FormSetLists(f, wanted[p].address);
      ListsIs(s, f, wanted[p]);
    }
    SyncRestores(parsers, s, user, f.Sync(), forward, reverse);
  }

  lemma ListsIs(s: Store, f: RecordForm, target: Target)
    requires Lookup(s, f.Key()) == Some(f.Set()) && Record(target.address, false) in f.Set().records
    ensures Lists(s, LinkTo(f.Sync(), target))
  {
  }

  /** The forward keys a save touches. */
  function Touched(f: RecordForm): set<Key> {
    if f.IsRename() then {f.OldKey(), f.Key()} else {f.Key()}
  }

  /** The reverse part of a save settles the forward sets it follows. */
  lemma SyncedReverseHolds(parsers: Parsers, s: Store, user: User, f: RecordForm, forward: set<Key>, reverse: set<Key>)
    requires LinksHoldExcept(parsers, s, forward, reverse)
    requires IsName(f.Name()) && IsName(f.OldKey().name) && Lookup(s, f.Key()) == Some(f.Set())
    ensures LinksHoldExcept(parsers, SyncedReverse(parsers, s, user, f), forward - Touched(f), reverse)
  {
    hide LinksHoldExcept, CleanSync, IsName, Lookup, Canonical, AbsoluteName, ValidTtl, Fields, RecordsOf;
    var before, k := f.OldKey(), f.Key();
    if f.IsRename() {
      RetireRestores(parsers, s, user, before, f.Ttl(), forward, reverse);
      if f.rtype in ADDRESS_TYPES { SyncKeepsOthers(parsers, s, user, Retire(before, f.Ttl()), k); }
      var retired := CleanSync(parsers, s, user, Retire(before, f.Ttl()));
      MainSyncRestores(parsers, retired, user, f, forward - {before}, reverse);
      assert forward - {before} - {k} == forward - Touched(f);
    } else {
      MainSyncRestores(parsers, s, user, f, forward, reverse);
      assert forward - {k} == forward - Touched(f);
    }
  }

  /** After a PTR save the link that is still there finds the set that was written. */
  lemma SavedPtrStays(parsers: Parsers, s: Store, user: User, f: RecordForm)
    requires f.rtype == "PTR" && Lookup(s, f.Key()) == Some(f.Set())
    ensures var s' := SyncedReverse(parsers, s, user, f);
      f.Name() in s'.links ==> Lookup(s', f.Key()) == Some(f.Set())
  {
    hide CleanSync, Wanted, Lookup, Canonical, AbsoluteName, ValidTtl, Fields, RecordsOf;
    var t := if f.IsRename() then CleanSync(parsers, s, user, Retire(f.OldKey(), f.Ttl())) else s;
    if f.IsRename() {
      NothingWanted(parsers, s, user, f.OldKey(), f.Ttl());
      RetireKeepsPtrs(parsers, s, user, Retire(f.OldKey(), f.Ttl()), f.Name());
    }
    PtrsWantNothing(parsers, t, user, f);
    RetireKeepsPtrs(parsers, t, user, f.Sync(), f.Name());
  }

  lemma PtrsWantNothing(parsers: Parsers, s: Store, user: User, f: RecordForm)
    requires f.rtype == "PTR"
    ensures Wanted(parsers, s, user, f.Sync()) == map[]
  {
  }

  /** The forward part of a save. */
  lemma WrittenHolds(parsers: Parsers, s: Store, f: RecordForm, forward: set<Key>, reverse: set<Key>)
    requires LinksHoldExcept(parsers, s, forward, reverse)
    ensures LinksHoldExcept(parsers, Written(s, f), forward + Touched(f), reverse + Touched(f))
    ensures Lookup(Written(s, f), f.Key()) == Some(f.Set())
  {
    hide LinksHoldExcept, Canonical, AbsoluteName, ValidTtl, Fields, RecordsOf;
    if f.IsRename() {
      var t := Without(s, f.OldKey());
      OneSetChanged(parsers, s, t, f.OldKey(), forward, reverse);
      OneSetChanged(parsers, t, Written(s, f), f.Key(), forward + {f.OldKey()}, reverse + {f.OldKey()});
      assert forward + {f.OldKey()} + {f.Key()} == forward + Touched(f);
      assert reverse + {f.OldKey()} + {f.Key()} == reverse + Touched(f);
    } else {
      OneSetChanged(parsers, s, Written(s, f), f.Key(), forward, reverse);
    }
  }

  lemma FormNames(zones: set<string>, f: RecordForm)
    requires AreNames(zones) && f.Zone() in zones
    ensures IsName(f.Name()) && IsName(f.OldKey().name)
  {
    hide Canonical, AbsoluteName;
    FormNamesAreCanonical(f);
    assert IsName(f.Zone()) && Canonical(f.Zone()) == f.Zone();
    AbsoluteIsSome(if f.name == "" then "@" else f.name, f.Zone());
    AbsoluteIsSome(f.originalName, f.Zone());
  }

  lemma ResyncedHolds(parsers: Parsers, s: Store, user: User, f: RecordForm, forward: set<Key>, reverse: set<Key>)
    requires LinksHoldExcept(parsers, s, forward, reverse) && Lookup(s, f.Key()) == Some(f.Set())
    requires IsName(f.Name()) && IsName(f.OldKey().name)
    ensures LinksHoldExcept(parsers, Resynced(parsers, s, user, f), forward - Touched(f), reverse)
    ensures f.rtype == "PTR" && f.Name() in Resynced(parsers, s, user, f).links ==>
      Lookup(Resynced(parsers, s, user, f), f.Key()) == Some(f.Set())
  {
    hide LinksHoldExcept, SyncedReverse, IsName, Lookup, Canonical, AbsoluteName, ValidTtl, Fields, RecordsOf;
    if f.rtype in ADDRESS_TYPES || f.IsRename() {
      SyncedReverseHolds(parsers, s, user, f, forward, reverse);
      if f.rtype == "PTR" { SavedPtrStays(parsers, s, user, f); }
    } else {
      OnlyTheseMatter(parsers, s, forward, reverse, forward - Touched(f), reverse);
    }
  }

  /** The last part of a save settles the PTR sets it touched. */
  lemma UnlinkedHolds(parsers: Parsers, s: Store, f: RecordForm, forward: set<Key>, reverse: set<Key>)
    requires LinksHoldExcept(parsers, s, forward, reverse + Touched(f))
    requires f.rtype == "PTR" && f.Name() in s.links ==> Lookup(s, f.Key()) == Some(f.Set())
    ensures LinksHoldExcept(parsers, Unlinked(s, f), forward, reverse)
  {
    hide LinksHoldExcept, Lookup, HandedBack, Forgotten, Canonical, AbsoluteName, Fields, ValidTtl, RecordsOf;
    hide AllCanonical, CanonicalContents;
    var unlinked := if f.rtype == "PTR" then HandedBack(s, f.Name(), f.Lines()) else s;
    var rest := reverse + if f.rtype == "PTR" then Touched(f) - {f.Key()} else Touched(f);
    if f.rtype == "PTR" {
      FormSetContents(f);
      SetIsThere(s, f);
      HandBackKeeps(parsers, s, f.Key(), f.Lines(), forward, reverse + Touched(f), rest);
    }
    if f.IsRename() && f.originalType == "PTR" {
      ForgetKeeps(parsers, unlinked, f.OldKey().name, forward, rest, reverse);
    } else {
      OnlyTheseMatter(parsers, unlinked, forward, rest, forward, reverse);
    }
  }

  lemma SetIsThere(s: Store, f: RecordForm)
    requires f.Name() in s.links ==> Lookup(s, f.Key()) == Some(f.Set())
    ensures f.Name() in s.links ==> f.Key() in s.rrsets && s.rrsets[f.Key()] == f.Set()
  {
  }

  /** A save, rename and all, whose calls succeed settles the sets it touches and leaves nothing else to settle. */
  lemma SaveSettles(parsers: Parsers, s: Store, user: User, f: RecordForm, forward: set<Key>, reverse: set<Key>)
    requires LinksHoldExcept(parsers, s, forward, reverse) && f.Zone() in s.zones
    ensures LinksHoldExcept(parsers, Saved(parsers, s, user, f), forward - Touched(f), reverse)
  {
    hide LinksHoldExcept, Written, IsName, Lookup, Resynced, Unlinked, Touched, Canonical;
    ZonesAreNames(parsers, s, forward, reverse);
    FormNames(s.zones, f);
    WrittenHolds(parsers, s, f, forward, reverse);
    ResyncedHolds(parsers, Written(s, f), user, f, forward + Touched(f), reverse + Touched(f));
    assert forward + Touched(f) - Touched(f) == forward - Touched(f);
    UnlinkedHolds(parsers, Resynced(parsers, Written(s, f), user, f), f, forward - Touched(f), reverse);
  }

  lemma ZonesAreNames(parsers: Parsers, s: Store, forward: set<Key>, reverse: set<Key>)
    requires LinksHoldExcept(parsers, s, forward, reverse)
    ensures AreNames(s.zones)
  {
  }

  // ----- the other requests -----

  /** So does a deletion. */
  lemma DeleteSettles(parsers: Parsers, s: Store, user: User, k: Key, ttl: int, forward: set<Key>, reverse: set<Key>)
    requires LinksHoldExcept(parsers, s, forward, reverse) && IsName(k.name)
    ensures LinksHoldExcept(parsers, Deleted(parsers, s, user, k, ttl), forward - {k}, reverse)
  {
    hide LinksHoldExcept, CleanSync, IsName, Forgotten;
    var without := Without(s, k);
    var more := reverse + {k};
    OneSetChanged(parsers, s, without, k, forward, reverse);
    if k.rtype in ADDRESS_TYPES {
      RetireRestores(parsers, without, user, k, ttl, forward + {k}, more);
      OnlyTheseMatter(parsers, Deleted(parsers, s, user, k, ttl), forward + {k} - {k}, more, forward - {k}, reverse);
    } else if k.rtype == "PTR" {
      ForgetKeeps(parsers, without, k.name, forward + {k}, more, reverse);
      OnlyTheseMatter(parsers, Deleted(parsers, s, user, k, ttl), forward + {k}, reverse, forward - {k}, reverse);
    } else {
      OnlyTheseMatter(parsers, without, forward + {k}, more, forward - {k}, reverse);
    }
  }

  lemma DropZoneKeeps(parsers: Parsers, s: Store, zone: string, forward: set<Key>, reverse: set<Key>)
    requires LinksHoldExcept(parsers, s, forward, reverse)
    ensures LinksHoldExcept(parsers, ZoneDeleted(s, zone), forward, reverse)
  {
    hide IsLinkRow, CanonicalContents, IsName;
    var s' := ZoneDeleted(s, zone);
    forall p | p in s'.links ensures LinkHolds(parsers, s', p, s'.links[p], forward, reverse) {
      var link := s.links[p];
      assert LinkHolds(parsers, s, p, link, forward, reverse);
      assert Lookup(s', Owner(link)) == Lookup(s, Owner(link));
      assert Lookup(s', PtrKey(link.reverseZone, p)) == Lookup(s, PtrKey(link.reverseZone, p));
    }
  }

  /** New zones, however many of those asked for, bring apex sets only. */
  lemma CreateKeeps(parsers: Parsers, s: Store, zones: seq<string>, s': Store, forward: set<Key>, reverse: set<Key>)
    requires LinksHoldExcept(parsers, s, forward, reverse)
    requires MayCreate(s, zones, s') && forall z :: z in zones ==> IsCanonical(z)
    ensures LinksHoldExcept(parsers, s', forward, reverse)
  {
    hide CanonicalContents, IsCanonical, Lookup, PtrOf;
    forall p | p in s'.links ensures LinkHolds(parsers, s', p, s'.links[p], forward, reverse) {
      var link := s.links[p];
      assert LinkHolds(parsers, s, p, link, forward, reverse);
      assert Lookup(s', Owner(link)) == Lookup(s, Owner(link));
      assert Lookup(s', PtrKey(link.reverseZone, p)) == Lookup(s, PtrKey(link.reverseZone, p));
    }
  }

  lemma ApexReads(s: Store, zone: string, f: SettingsForm)
    ensures var ns, apex := WithNameservers(s, zone, f), ApexWritten(s, zone, f);
      && s.links == ns.links == apex.links && s.zones == ns.zones == apex.zones
      && (forall k: Key :: k != Key(zone, zone, "NS") ==> Lookup(ns, k) == Lookup(s, k))
      && (forall k: Key :: k != Key(zone, zone, "SOA") && !f.isSlave ==> Lookup(apex, k) == Lookup(ns, k))
      && (f.isSlave ==> apex == s)
  {
    hide AllCanonical, RecordsOf, StoredSoa;
  }

  lemma ApexKeeps(parsers: Parsers, s: Store, zone: string, f: SettingsForm, forward: set<Key>, reverse: set<Key>)
    requires LinksHoldExcept(parsers, s, forward, reverse)
    ensures LinksHoldExcept(parsers, WithNameservers(s, zone, f), forward, reverse)
    ensures LinksHoldExcept(parsers, ApexWritten(s, zone, f), forward, reverse)
  {
    hide LinksHoldExcept, WithNameservers, ApexWritten, Lookup;
    var ns, soa := Key(zone, zone, "NS"), Key(zone, zone, "SOA");
    ApexReads(s, zone, f);
    OneSetChanged(parsers, s, WithNameservers(s, zone, f), ns, forward, reverse);
    OnlyTheseMatter(parsers, WithNameservers(s, zone, f), forward + {ns}, reverse + {ns}, forward, reverse);
    if !f.isSlave {
      OneSetChanged(parsers, WithNameservers(s, zone, f), ApexWritten(s, zone, f), soa, forward, reverse);
      OnlyTheseMatter(parsers, ApexWritten(s, zone, f), forward + {soa}, reverse + {soa}, forward, reverse);
    }
  }

  lemma PairedKeeps(parsers: Parsers, s: Store, zone: string, paired: seq<string>, forward: set<Key>, reverse: set<Key>)
    requires LinksHoldExcept(parsers, s, forward, reverse)
    ensures LinksHoldExcept(parsers, Paired(s, zone, paired), forward, reverse)
  {
    hide IsLinkRow, CanonicalContents, IsName;
    var s' := Paired(s, zone, paired);
    forall p | p in s'.links ensures LinkHolds(parsers, s', p, s'.links[p], forward, reverse) {
      assert LinkHolds(parsers, s, p, s.links[p], forward, reverse);
      SameSets(s, s', s.links[p], p);
    }
  }
}
