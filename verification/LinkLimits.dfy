/** Where the guarantees about linked PTRs stop: what is left behind or let go, and exactly when. */
module LinkLimits {
  import opened PyText
  import opened Names
  import opened RecordRules
  import opened PanelState
  import opened SyncLaws
  import opened ZoneHandlers
  import opened LinkRows
  import opened ServedPtrs
  import opened FailingRuns

  // ----- a rename that stops half-way -----

  /** No link is tied to this record set from either side. */
  predicate IsUnlinked(s: Store, k: Key) {
    forall p :: p in s.links ==> Owner(s.links[p]) != k && PtrKey(s.links[p].reverseZone, p) != k
  }

  /**
   A rename whose delete went through and whose write did not stops before the reverse side. The links are
   still in step exactly when the set it deleted had none.
   */
  lemma HalfRenameHoldsIff(parsers: Parsers, s: Store, k: Key)
    requires LinksHold(parsers, s)
    ensures LinksHold(parsers, Without(s, k)) <==> IsUnlinked(s, k)
  {
    hide IsLinkRow, CanonicalContents, IsName;
    var s' := Without(s, k);
    if IsUnlinked(s, k) {
      forall p | p in s'.links ensures LinkHolds(parsers, s', p, s'.links[p], {}, {}) {
        var link := s.links[p];
        assert LinkHolds(parsers, s, p, link, {}, {});
        assert Lookup(s', Owner(link)) == Lookup(s, Owner(link));
        assert Lookup(s', PtrKey(link.reverseZone, p)) == Lookup(s, PtrKey(link.reverseZone, p));
      }
    } else {
      var p :| p in s.links && (Owner(s.links[p]) == k || PtrKey(s.links[p].reverseZone, p) == k);
      assert LinkHolds(parsers, s', p, s'.links[p], {}, {}) ==> k in s'.rrsets;
    }
  }

  /** It leaves every link's PTR answering if and only if the deleted set was no link's PTR. */
  lemma HalfRenameKeepsRowsIff(parsers: Parsers, s: Store, k: Key)
    requires RowsHold(parsers, s)
    ensures RowsHold(parsers, Without(s, k)) <==> !IsLinkedPtr(s, k)
  {
    hide IsLinkRow, CanonicalContents, IsName;
    var s' := Without(s, k);
    if IsLinkedPtr(s, k) { assert Answers(s', k.name, s'.links[k.name]) ==> k in s'.rrsets; }
  }

  // ----- PTRs that are left behind without a link -----

  /** A PTR set answers as a link said, and no link in the table speaks of it any more. */
  predicate IsLeftBehind(s: Store, ptr: string, link: Link) {
    Answers(s, ptr, link) && !(ptr in s.links && s.links[ptr].reverseZone == link.reverseZone)
  }

  /** Whatever fails, a sync leaves a linked PTR behind exactly when it has written that PTR in another zone, or has
      dropped the link without getting the set deleted. */
  lemma SyncLeavesBehindIff(parsers: Parsers, s: Store, user: User, a: SyncArgs, s': Store, written: set<string>,
                            gone: set<string>, p: string)
    requires Synced(parsers, s, user, a, s', written, gone) && p in s.links && Answers(s, p, s.links[p])
    ensures var wanted := Wanted(parsers, s, user, a);
      IsLeftBehind(s', p, s.links[p]) <==>
        || (p in written && wanted[p].reverseZone != s.links[p].reverseZone)
        || (p in Retired(s, a, wanted) && p !in gone)
  {
    hide Wanted, PtrSet, CanonicalContents;
    var wanted := Wanted(parsers, s, user, a);
    LookupAfterSync(s, a, wanted, written, Retired(s, a, wanted), gone, PtrKey(s.links[p].reverseZone, p));
  }

  /** A sync leaves a linked PTR behind exactly when it wants that PTR in another zone; the old set stays as it was. */
  lemma MovedPtrStaysBehindIff(parsers: Parsers, s: Store, user: User, a: SyncArgs, p: string)
    requires p in s.links && Answers(s, p, s.links[p])
    ensures var s', wanted := CleanSync(parsers, s, user, a), Wanted(parsers, s, user, a);
      var before := PtrKey(s.links[p].reverseZone, p);
      && (IsLeftBehind(s', p, s.links[p]) <==> p in wanted && wanted[p].reverseZone != s.links[p].reverseZone)
      && (IsLeftBehind(s', p, s.links[p]) ==> Lookup(s', before) == Lookup(s, before))
  {
    hide Wanted, PtrSet, CanonicalContents;
    var wanted := Wanted(parsers, s, user, a);
    var dropped := Retired(s, a, wanted);
    LookupAfterSync(s, a, wanted, wanted.Keys, dropped, StillOurs(s, dropped), PtrKey(s.links[p].reverseZone, p));
  }

  /** Deleting a zone leaves a linked PTR behind exactly when the zone held the forward side and not the PTR. */
  lemma DroppedZoneLeavesPtrIff(s: Store, zone: string, p: string)
    requires p in s.links && Answers(s, p, s.links[p])
    ensures IsLeftBehind(ZoneDeleted(s, zone), p, s.links[p]) <==>
      s.links[p].forwardZone == zone && s.links[p].reverseZone != zone
  {
    hide CanonicalContents;
  }

  // ----- links that are let go although both of their sets are in step -----

  /** Neither side of a link has changed, and the link is gone. */
  predicate IsLetGo(s: Store, ptr: string, link: Link) {
    ptr !in s.links && Lists(s, link) && Answers(s, ptr, link)
  }

  /** Deleting a record set lets such a link go exactly when it is a PTR set of the same name in another zone. */
  lemma DeletedElsewhereIff(parsers: Parsers, s: Store, user: User, k: Key, ttl: int, p: string)
    requires LinksHold(parsers, s) && p in s.links
    ensures IsLetGo(Deleted(parsers, s, user, k, ttl), p, s.links[p]) <==>
      k.rtype == "PTR" && k.name == p && k.zone != s.links[p].reverseZone
  {
    hide Wanted, PtrSet, CanonicalContents, IsName, PtrOf;
    var link, without := s.links[p], Without(s, k);
    assert LinkHolds(parsers, s, p, link, {}, {});
    if k.rtype in ADDRESS_TYPES {
      NothingWanted(parsers, without, user, k, ttl);
      SyncKeepsOthers(parsers, without, user, Retire(k, ttl), Owner(link));
      assert p !in Deleted(parsers, s, user, k, ttl).links ==> Owner(link) == k;
    }
  }

  /**
   Saving a record set lets a link go, as its sync left it, exactly when the set is a PTR set of the same name in
   another zone and does not name the link's record, or when a PTR set of that name is renamed away - from another
   zone, or in favour of the very record whose sync has just written that PTR again.
   */
  lemma ResyncedElsewhereIff(parsers: Parsers, s: Store, user: User, f: RecordForm, t: Store, p: string)
    requires LinksHold(parsers, s) && f.Zone() in s.zones && t == Resynced(parsers, Written(s, f), user, f)
    requires p in t.links
    ensures var link := t.links[p];
      IsLetGo(Saved(parsers, s, user, f), p, link) <==>
        || (f.rtype == "PTR" && f.Name() == p && f.Zone() != link.reverseZone
            && AllCanonical(f.Lines()) != [link.forwardName])
        || (f.IsRename() && f.originalType == "PTR" && f.OldKey().name == p
            && (f.Zone() != link.reverseZone || Owner(link) == f.Key()))
  {
    hide LinksHoldExcept, Resynced, IsName, Lists, Lookup, Canonical, AbsoluteName, ValidTtl, Fields, RecordsOf;
    hide AllCanonical, CanonicalContents;
    var link := t.links[p];
    ZonesAreNames(parsers, s, {}, {});
    FormNames(s.zones, f);
    WrittenHolds(parsers, s, f, {}, {});
    ResyncedHolds(parsers, Written(s, f), user, f, {} + Touched(f), {} + Touched(f));
    assert {} + Touched(f) - Touched(f) == {};
    RowOf(parsers, t, p, {} + Touched(f));
    SameSets(t, Unlinked(t, f), link, p);
    if f.rtype == "PTR" && f.Key() == PtrKey(link.reverseZone, p) {
      FormSetContents(f);
      WrittenAnswers(t, f, p);
    }
    if f.IsRename() && f.originalType == "PTR" && f.OldKey().name == p && f.Zone() == link.reverseZone {
      OldSetIsGone(s, f);
      RenamedPtrIsGone(parsers, Written(s, f), user, f, t);
    }
  }

  /** The form gives a PTR set of the link's name in another zone content that is not the link's, and does not move the
      link's own record there. */
  predicate IsEditedElsewhere(f: RecordForm, p: string, link: Link) {
    && f.rtype == "PTR" && f.Name() == p && f.Zone() != link.reverseZone
    && AllCanonical(f.Lines()) != [link.forwardName] && !(f.IsRename() && f.OldKey() == Owner(link))
  }

  /**
   The form renames a PTR set of the link's name, and the link's own sets read as before: its record still lists the
   address, and its PTR set is not the renamed one - or is, written again by the form's own sync with the same name.
   */
  predicate IsRenamedElsewhere(f: RecordForm, p: string, link: Link, wanted: map<string, Target>) {
    && f.IsRename() && f.originalType == "PTR" && f.OldKey().name == p
    && (Owner(link) == f.Key() ==> Record(link.address, false) in f.Set().records)
    && if p !in wanted then Owner(link) != f.Key() && f.Zone() != link.reverseZone
       else if wanted[p].reverseZone == link.reverseZone then link.forwardName == f.Name()
       else f.Zone() != link.reverseZone
  }

  /** Saving a record set lets a link go, with both of its sets in step, exactly in these two cases. */
  lemma SavedElsewhereIff(parsers: Parsers, s: Store, user: User, f: RecordForm, p: string)
    requires LinksHold(parsers, s) && f.Zone() in s.zones && p in s.links
    ensures IsLetGo(Saved(parsers, s, user, f), p, s.links[p]) <==>
      (IsEditedElsewhere(f, p, s.links[p])
       || IsRenamedElsewhere(f, p, s.links[p], Wanted(parsers, s, user, f.Sync())))
  {
    hide LinksHoldExcept, Resynced, IsName, Lists, Lookup, Canonical, AbsoluteName, ValidTtl, Fields, RecordsOf;
    hide AllCanonical, CanonicalContents, Wanted, Answers, IsStored;
    var link, wanted, t := s.links[p], Wanted(parsers, s, user, f.Sync()), Resynced(parsers, Written(s, f), user, f);
    RowOf(parsers, s, p, {});
    RowIs(parsers, s, p);
    ZonesAreNames(parsers, s, {}, {});
    FormNames(s.zones, f);
    UnlinkedReads(t, f, p, link);
    OwnSetAfter(parsers, s, user, f, t, link);
    if p in wanted {
      WantedAfter(parsers, s, user, f, t, p);
    } else if Owner(link) == f.Key() {
      RetiredAfter(parsers, s, user, f, t, p);
    } else if !f.IsRename() || Owner(link) != f.OldKey() {
      RowStaysInSync(parsers, s, user, f, t, p);
      ResyncedElsewhereIff(parsers, s, user, f, t, p);
    }
  }

  lemma RowIs(parsers: Parsers, s: Store, p: string)
    requires LinksHoldExcept(parsers, s, {}, {}) && p in s.links
    ensures IsLinkRow(parsers, p, s.links[p])
  {
    assert LinkHolds(parsers, s, p, s.links[p], {}, {});
  }

  /** Unlinking drops rows only, and these. */
  lemma UnlinkedReads(t: Store, f: RecordForm, p: string, link: Link)
    ensures var s' := Unlinked(t, f);
      && Lists(s', link) == Lists(t, link) && Answers(s', p, link) == Answers(t, p, link)
      && (p in s'.links ==> p in t.links)
      && (p in t.links && f.rtype in ADDRESS_TYPES ==>
            (p in s'.links <==> !(f.IsRename() && f.originalType == "PTR" && f.OldKey().name == p)))
  {
    hide Canonical, AbsoluteName, ValidTtl, Fields, RecordsOf, AllCanonical;
    SameSets(t, Unlinked(t, f), link, p);
  }

  /** The link's own forward set after the form: gone, the form's, or as it was. */
  lemma OwnSetAfter(parsers: Parsers, s: Store, user: User, f: RecordForm, t: Store, link: Link)
    requires t == Resynced(parsers, Written(s, f), user, f) && link.forwardType in ADDRESS_TYPES && Lists(s, link)
    ensures Lists(t, link) <==>
      if Owner(link) == f.Key() then Record(link.address, false) in f.Set().records
      else !(f.IsRename() && Owner(link) == f.OldKey())
  {
    hide CleanSync, Canonical, AbsoluteName, ValidTtl, Fields, RecordsOf;
    var written, o := Written(s, f), Owner(link);
    var retired := CleanSync(parsers, written, user, Retire(f.OldKey(), f.Ttl()));
    SyncKeepsOthers(parsers, written, user, Retire(f.OldKey(), f.Ttl()), o);
    SyncKeepsOthers(parsers, written, user, f.Sync(), o);
    SyncKeepsOthers(parsers, retired, user, f.Sync(), o);
    WrittenReads(s, f, o);
  }

  lemma WrittenReads(s: Store, f: RecordForm, k: Key)
    ensures Lookup(Written(s, f), k) ==
      if k == f.Key() then Some(f.Set()) else if f.IsRename() && k == f.OldKey() then None else Lookup(s, k)
  {
    hide Canonical, AbsoluteName, ValidTtl, Fields, RecordsOf;
  }

  /** The store in which the form's own sync starts. */
  ghost function BeforeSync(parsers: Parsers, s: Store, user: User, f: RecordForm): Store {
    var written := Written(s, f);
    if f.IsRename() then CleanSync(parsers, written, user, Retire(f.OldKey(), f.Ttl())) else written
  }

  /** For a link of another record than the renamed one it is the written store. */
  lemma BeforeSyncReads(parsers: Parsers, s: Store, user: User, f: RecordForm, p: string)
    requires p in s.links && (f.IsRename() ==> Owner(s.links[p]) != f.OldKey())
    ensures var u := BeforeSync(parsers, s, user, f);
      && p in u.links && u.links[p] == s.links[p]
      && (forall k: Key :: k.name == p ==> Lookup(u, k) == Lookup(Written(s, f), k))
      && Wanted(parsers, u, user, f.Sync()) == Wanted(parsers, s, user, f.Sync())
  {
    hide Wanted, PtrSet, Answers, Canonical, AbsoluteName, ValidTtl, Fields, RecordsOf;
    var u, written := BeforeSync(parsers, s, user, f), Written(s, f);
    if f.IsRename() {
      NothingWanted(parsers, written, user, f.OldKey(), f.Ttl());
      RetireKeepsPtrs(parsers, written, user, Retire(f.OldKey(), f.Ttl()), p);
      CleanZones(parsers, written, user, Retire(f.OldKey(), f.Ttl()));
    }
    WantedDependsOn(parsers, s, u, user, f.Sync());
  }

  /** A PTR that the form wants: its set after the form, seen from the link that was there. */
  lemma WantedAfter(parsers: Parsers, s: Store, user: User, f: RecordForm, t: Store, p: string)
    requires p in s.links && IsName(f.Name()) && Answers(s, p, s.links[p]) && s.links[p].forwardType in ADDRESS_TYPES
    requires t == Resynced(parsers, Written(s, f), user, f) && p in Wanted(parsers, s, user, f.Sync())
    requires f.IsRename() && f.originalType == "PTR" ==> Owner(s.links[p]) != f.OldKey()
    ensures var link, wanted := s.links[p], Wanted(parsers, s, user, f.Sync());
      && f.rtype in ADDRESS_TYPES && p in t.links
      && (f.IsRename() && f.originalType == "PTR" && f.OldKey().name == p ==>
            (Answers(t, p, link) <==>
               if wanted[p].reverseZone == link.reverseZone then link.forwardName == f.Name()
               else f.Zone() != link.reverseZone))
  {
    hide Wanted, PtrSet, CanonicalContents, IsName, Canonical, AbsoluteName, ValidTtl, Fields, RecordsOf;
    var u, a, link := BeforeSync(parsers, s, user, f), f.Sync(), s.links[p];
    WantedIs(parsers, s, user, a, p);
    UWants(parsers, s, user, f);
    var wanted := Wanted(parsers, u, user, a);
    var dropped := Retired(u, a, wanted);
    var k := PtrKey(link.reverseZone, p);
    LookupAfterSync(u, a, wanted, wanted.Keys, dropped, StillOurs(u, dropped), k);
    PtrSetAnswers(a);
    if f.IsRename() && f.originalType == "PTR" && f.OldKey().name == p {
      BeforeSyncReads(parsers, s, user, f, p);
      WrittenReads(s, f, k);
    }
  }

  lemma UWants(parsers: Parsers, s: Store, user: User, f: RecordForm)
    ensures Wanted(parsers, BeforeSync(parsers, s, user, f), user, f.Sync()) == Wanted(parsers, s, user, f.Sync())
  {
    hide Wanted, CleanSync, Canonical, AbsoluteName, ValidTtl, Fields, RecordsOf;
    CleanZones(parsers, Written(s, f), user, Retire(f.OldKey(), f.Ttl()));
    WantedDependsOn(parsers, s, BeforeSync(parsers, s, user, f), user, f.Sync());
  }

  /** A PTR of the form's own record that it does not want any more does not answer after it. */
  lemma RetiredAfter(parsers: Parsers, s: Store, user: User, f: RecordForm, t: Store, p: string)
    requires p in s.links && Owner(s.links[p]) == f.Key() && f.rtype in ADDRESS_TYPES
    requires t == Resynced(parsers, Written(s, f), user, f) && p !in Wanted(parsers, s, user, f.Sync())
    ensures !Answers(t, p, s.links[p])
  {
    hide Wanted, PtrSet, CanonicalContents, Canonical, AbsoluteName, ValidTtl, Fields, RecordsOf;
    var u, a, link := BeforeSync(parsers, s, user, f), f.Sync(), s.links[p];
    BeforeSyncReads(parsers, s, user, f, p);
    var wanted := Wanted(parsers, u, user, a);
    var dropped := Retired(u, a, wanted);
    LookupAfterSync(u, a, wanted, wanted.Keys, dropped, StillOurs(u, dropped), PtrKey(link.reverseZone, p));
  }

  /** A link of a record that the form does not touch goes through its sync unchanged, if the form does not claim it. */
  lemma RowStaysInSync(parsers: Parsers, s: Store, user: User, f: RecordForm, t: Store, p: string)
    requires p in s.links && Owner(s.links[p]) != f.Key() && (f.IsRename() ==> Owner(s.links[p]) != f.OldKey())
    requires t == Resynced(parsers, Written(s, f), user, f) && p !in Wanted(parsers, s, user, f.Sync())
    ensures p in t.links && t.links[p] == s.links[p]
  {
    hide Wanted, PtrSet, Answers, Canonical, AbsoluteName, ValidTtl, Fields, RecordsOf;
    BeforeSyncReads(parsers, s, user, f, p);
  }

  lemma RowOf(parsers: Parsers, s: Store, p: string, reverse: set<Key>)
    requires LinksHoldExcept(parsers, s, {}, reverse) && p in s.links
    ensures Lists(s, s.links[p]) && (PtrKey(s.links[p].reverseZone, p) !in reverse ==> Answers(s, p, s.links[p]))
  {
    assert LinkHolds(parsers, s, p, s.links[p], {}, reverse);
  }

  lemma OldSetIsGone(s: Store, f: RecordForm)
    requires f.IsRename()
    ensures Lookup(Written(s, f), f.OldKey()) == None
  {
    hide Canonical, AbsoluteName, ValidTtl, Fields, RecordsOf;
  }

  /** After a PTR set is renamed its old place is empty, unless the form's own sync has written there. */
  lemma RenamedPtrIsGone(parsers: Parsers, written: Store, user: User, f: RecordForm, t: Store)
    requires f.IsRename() && f.originalType == "PTR" && Lookup(written, f.OldKey()) == None && IsName(f.Name())
    requires t == Resynced(parsers, written, user, f)
    ensures var p := f.OldKey().name;
      p in t.links && t.links[p].reverseZone == f.Zone() ==>
        (Answers(t, p, t.links[p]) <==> Owner(t.links[p]) == f.Key())
  {
    hide Wanted, PtrSet, CanonicalContents, IsName, Canonical, AbsoluteName, ValidTtl, Fields, RecordsOf;
    var p := f.OldKey().name;
    var retire, a := Retire(f.OldKey(), f.Ttl()), f.Sync();
    var retired := CleanSync(parsers, written, user, retire);
    NothingWanted(parsers, written, user, f.OldKey(), f.Ttl());
    var first := Retired(written, retire, map[]);
    LookupAfterSync(written, retire, map[], {}, first, StillOurs(written, first), f.OldKey());
    var wanted := Wanted(parsers, retired, user, a);
    CleanSyncOwnsWanted(parsers, retired, user, a);
    var second := Retired(retired, a, wanted);
    LookupAfterSync(retired, a, wanted, wanted.Keys, second, StillOurs(retired, second), f.OldKey());
  }

  // ----- PTRs that a link vouches for and nobody is served -----

  /**
   A save leaves a link whose PTR serves nothing exactly when it saves that PTR set with the link's own name and
   disabled: only contents decide whether an edited PTR is handed back. A link whose record is itself renamed into the
   PTR set is gone, though.
   */
  lemma UnservedIff(parsers: Parsers, s: Store, user: User, f: RecordForm, p: string)
    requires LinksServe(parsers, s) && f.Zone() in s.zones
    ensures var s' := Saved(parsers, s, user, f);
      p in s'.links && !Serves(s', p, s'.links[p]) <==>
        (&& p in s.links && Disables(f, PtrKey(s.links[p].reverseZone, p))
         && AllCanonical(f.Lines()) == [s.links[p].forwardName]
         && !(f.IsRename() && f.OldKey() == Owner(s.links[p])))
  {
    hide LinksHold, Finished, Serves, IsEnabled, Answers, AreNames, Written, Wanted, Lookup;
    hide Canonical, AbsoluteName, ValidTtl, Fields, RecordsOf, AllCanonical;
    var s' := Saved(parsers, s, user, f);
    HoldsNames(parsers, s);
    FormNames(s.zones, f);
    if p in s'.links {
      SavedMayFinish(parsers, Written(s, f), user, f);
      SaveServes(parsers, s, user, f, s', p);
      UnservedOnlyIf(parsers, s, user, f, p);
    }
    if p in s.links && Disables(f, PtrKey(s.links[p].reverseZone, p))
       && AllCanonical(f.Lines()) == [s.links[p].forwardName] && !(f.IsRename() && f.OldKey() == Owner(s.links[p]))
    {
      UnservedIf(parsers, s, user, f, p);
    }
  }

  lemma UnservedOnlyIf(parsers: Parsers, s: Store, user: User, f: RecordForm, p: string)
    requires LinksServe(parsers, s) && p in Saved(parsers, s, user, f).links
    requires var s' := Saved(parsers, s, user, f);
      var link := s'.links[p];
      var k := PtrKey(link.reverseZone, p);
      IsUntouched(s, s', p) || (Answers(s', p, link) && (IsEnabled(s', k) || IsDisabledBy(s', f, k)))
    ensures var s' := Saved(parsers, s, user, f);
      !Serves(s', p, s'.links[p]) ==>
        && p in s.links && Disables(f, PtrKey(s.links[p].reverseZone, p))
        && AllCanonical(f.Lines()) == [s.links[p].forwardName]
        && !(f.IsRename() && f.OldKey() == Owner(s.links[p]))
  {
    hide Written, Resynced, Wanted, IsLinkRow, CanonicalContents, Lists;
    hide Canonical, AbsoluteName, ValidTtl, Fields, RecordsOf, AllCanonical;
    var s' := Saved(parsers, s, user, f);
    if IsUntouched(s, s', p) {
      assert LinkHolds(parsers, s, p, s.links[p], {}, {});
    } else if f.rtype == "PTR" {
      SavedMayFinish(parsers, Written(s, f), user, f);
      PtrFormKeepsRows(parsers, s, user, f, s', p);
      UnlinkedOnly(Resynced(parsers, Written(s, f), user, f), f, p);
      if f.IsRename() && f.OldKey() == Owner(s.links[p]) { OwnerRenamedAway(parsers, s, user, f, p); }
    }
  }

  /** A PTR form that takes the place of a link's record retires the link. */
  lemma OwnerRenamedAway(parsers: Parsers, s: Store, user: User, f: RecordForm, p: string)
    requires f.rtype == "PTR" && f.IsRename() && p in s.links && f.OldKey() == Owner(s.links[p])
    ensures p !in Resynced(parsers, Written(s, f), user, f).links
  {
    hide Wanted, PtrSet, StillOurs, Canonical, AbsoluteName, ValidTtl, Fields, RecordsOf;
    var written := Written(s, f);
    NothingWanted(parsers, written, user, f.OldKey(), f.Ttl());
    var u := CleanSync(parsers, written, user, Retire(f.OldKey(), f.Ttl()));
    assert p !in u.links;
    PtrsWantNothing(parsers, u, user, f);
  }

  lemma UnservedIf(parsers: Parsers, s: Store, user: User, f: RecordForm, p: string)
    requires LinksHold(parsers, s) && p in s.links && Disables(f, PtrKey(s.links[p].reverseZone, p))
    requires AllCanonical(f.Lines()) == [s.links[p].forwardName] && !(f.IsRename() && f.OldKey() == Owner(s.links[p]))
    ensures var s' := Saved(parsers, s, user, f); p in s'.links && !Serves(s', p, s'.links[p])
  {
    hide Written, Resynced, Unlinked, Wanted, Lists, Answers, IsEnabled, Lookup, LinksHoldExcept;
    hide Canonical, AbsoluteName, ValidTtl, Fields, RecordsOf, AllCanonical;
    var t := Resynced(parsers, Written(s, f), user, f);
    RowIs(parsers, s, p);
    PtrsWantNothing(parsers, s, user, f);
    RowStaysInSync(parsers, s, user, f, t, p);
    WrittenIsThere(s, f);
    SetAfterSync(parsers, s, user, f, t);
    SameLength(f.Lines());
    FormSetEnabled(t, f);
    StaysLinked(t, f, p);
    UnlinkedOnly(t, f, p);
  }

  lemma SameLength(contents: seq<string>)
    ensures |AllCanonical(contents)| == |contents|
  {
  }

  lemma StaysLinked(t: Store, f: RecordForm, p: string)
    requires f.rtype == "PTR" && f.Name() == p && p in t.links && AllCanonical(f.Lines()) == [t.links[p].forwardName]
    ensures p in Unlinked(t, f).links
  {
    hide Canonical, AbsoluteName, ValidTtl, Fields, RecordsOf, AllCanonical;
  }

  lemma SetAfterSync(parsers: Parsers, s: Store, user: User, f: RecordForm, t: Store)
    requires f.rtype == "PTR" && t == Resynced(parsers, Written(s, f), user, f)
    requires Lookup(Written(s, f), f.Key()) == Some(f.Set()) && f.Name() in t.links
    ensures Lookup(t, f.Key()) == Some(f.Set())
  {
    hide Written, SyncedReverse, Lookup, Canonical, AbsoluteName, ValidTtl, Fields, RecordsOf;
    if f.IsRename() { SavedPtrStays(parsers, Written(s, f), user, f); }
  }

  // ----- access -----

  /** A sync takes a PTR from a zone the user may not edit exactly when an unwanted link that still answers is there. */
  lemma RetireIgnoresAccessIff(parsers: Parsers, s: Store, user: User, a: SyncArgs)
    ensures var s', wanted := CleanSync(parsers, s, user, a), Wanted(parsers, s, user, a);
      (exists k: Key :: Lookup(s', k) != Lookup(s, k) && !CanEdit(user, k.zone)) <==>
        (exists p :: p in StillOurs(s, Retired(s, a, wanted)) && !CanEdit(user, s.links[p].reverseZone))
  {
    hide Wanted, PtrSet, CanonicalContents, CanEdit;
    var s', wanted := CleanSync(parsers, s, user, a), Wanted(parsers, s, user, a);
    var dropped := Retired(s, a, wanted);
    var ours := StillOurs(s, dropped);
    CleanIsSynced(parsers, s, user, a);
    if k: Key :| Lookup(s', k) != Lookup(s, k) && !CanEdit(user, k.zone) {
      SyncChangesOnlyItsPtrs(parsers, s, user, a, s', wanted.Keys, ours, k);
      LookupAfterSync(s, a, wanted, wanted.Keys, dropped, ours, k);
      assert k.name in ours;
    }
    if p :| p in ours && !CanEdit(user, s.links[p].reverseZone) {
      LookupAfterSync(s, a, wanted, wanted.Keys, dropped, ours, PtrKey(s.links[p].reverseZone, p));
      assert Lookup(s', PtrKey(s.links[p].reverseZone, p)) == None;
    }
  }
}
