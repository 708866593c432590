/** What the zones themselves keep over runs, whatever calls fail: names in their zones, and CNAMEs alone. */
module ZoneRules {
  import opened PyText
  import opened Names
  import opened RecordRules
  import opened PanelState
  import opened SyncLaws
  import opened ZoneHandlers
  import opened LinkRows
  import opened ZoneRuns
  import opened FailingRuns

  /** The types that may stand at a CNAME's name. */
  function Tolerated(spared: set<string>): set<string> {
    {"CNAME", "RRSIG", "NSEC", "NSEC3"} + spared
  }

  /** A CNAME is one record, not at the apex, beside no type but the tolerated ones. */
  predicate CnameIsAlone(s: Store, k: Key, spared: set<string>) {
    && k.name != k.zone
    && (k in s.rrsets ==> |s.rrsets[k].records| == 1)
    && forall j :: j in s.rrsets && j.zone == k.zone && j.name == k.name ==> j.rtype in Tolerated(spared)
  }

  ghost predicate RulesHold(s: Store, spared: set<string>) {
    && AreNames(s.zones)
    && (forall k :: k in s.rrsets ==> InZone(k.name, k.zone))
    && (forall k :: k in s.rrsets && k.rtype == "CNAME" ==> CnameIsAlone(s, k, spared))
  }

  lemma ZoneIsName(s: Store, zone: string)
    requires AreNames(s.zones) && zone in s.zones
    ensures IsName(zone) && zone != ""
  {
  }

  /** Taking sets away breaks no rule. */
  lemma FewerKeepsRules(s: Store, t: Store, spared: set<string>)
    requires RulesHold(s, spared) && AreNames(t.zones)
    requires forall k :: k in t.rrsets ==> k in s.rrsets && t.rrsets[k] == s.rrsets[k]
    ensures RulesHold(t, spared)
  {
    hide InZone, AreNames;
    forall k | k in t.rrsets && k.rtype == "CNAME" ensures CnameIsAlone(t, k, spared) {
      assert CnameIsAlone(s, k, spared);
    }
  }

  // ----- the forward part of a save -----

  /** The pre-check saw the zone as it was. */
  predicate IsPrechecked(s: Store, e: Event) {
    e.Save? ==> e.existing == TypesBeside(s, e.form.Key())
  }

  /** The types at the form's name once the set it replaces is gone. */
  function Remaining(s: Store, f: RecordForm): set<string> {
    TypesBeside(if f.IsRename() then Without(s, f.OldKey()) else s, f.Key())
  }

  /** No other type is in the way of this CNAME, and no CNAME in the way of this other type. */
  predicate HasRoom(s: Store, f: RecordForm, spared: set<string>) {
    && (f.rtype == "CNAME" ==> Remaining(s, f) <= Tolerated(spared))
    && ("CNAME" in Remaining(s, f) ==> f.rtype in Tolerated(spared))
  }

  lemma FormSetSize(f: RecordForm)
    ensures |f.Set().records| == |f.Lines()|
  {
    NoLineIsBlank(f);
  }

  lemma OthersAreKept(s: Store, f: RecordForm, k: Key)
    requires k != f.Key() && (f.IsRename() ==> k != f.OldKey())
    ensures Lookup(Written(s, f), k) == Lookup(s, k)
  {
  }

  lemma RoomKeepsRules(parsers: Parsers, s: Store, f: RecordForm, existing: set<string>, spared: set<string>)
    requires RulesHold(s, spared) && f.Zone() in s.zones && IsSavable(parsers, f, existing) && HasRoom(s, f, spared)
    ensures RulesHold(Written(s, f), spared)
  {
    hide Canonical, AbsoluteName, Fields, RecordsOf, ValidTtl, IsName, InZone, IsValidName;
    var s', k := Written(s, f), f.Key();
    FormSetSize(f);
    FormNamesAreCanonical(f);
    assert forall j :: j in s'.rrsets && j != k ==> j in s.rrsets && s'.rrsets[j] == s.rrsets[j];
    assert forall j :: j in s'.rrsets && j != k && f.IsRename() ==> j != f.OldKey();
    ZoneIsName(s, f.Zone());
    forall c | c in s'.rrsets && c.rtype == "CNAME" ensures CnameIsAlone(s', c, spared) {
      if c == k {
        forall j | j in s'.rrsets && j.zone == k.zone && j.name == k.name ensures j.rtype in Tolerated(spared) {
          if j != k { assert j.rtype in Remaining(s, f); }
        }
      } else {
        assert CnameIsAlone(s, c, spared);
        assert k.zone == c.zone && k.name == c.name ==> c.rtype in Remaining(s, f);
      }
    }
  }

  /** Where the rules still hold after the set was written, there was room for it. */
  lemma RulesMakeRoom(s: Store, f: RecordForm, t: Store, spared: set<string>)
    requires RulesHold(t, spared) && ("PTR" in spared || t == Written(s, f))
    requires forall k: Key :: k.rtype != "PTR" ==> Lookup(t, k) == Lookup(Written(s, f), k)
    ensures HasRoom(s, f, spared)
  {
    hide Canonical, AbsoluteName, Fields, RecordsOf, ValidTtl, IsName, InZone, AreNames;
    var w, k := Written(s, f), f.Key();
    assert Lookup(w, k) == Some(f.Set());
    forall r | r in Remaining(s, f) && (r == "CNAME" || f.rtype == "CNAME")
      ensures r in Tolerated(spared) && f.rtype in Tolerated(spared)
    {
      var j := Key(k.zone, k.name, r);
      assert Lookup(w, j).Some?;
      if t == w || (r != "PTR" && f.rtype != "PTR") {
        assert Lookup(t, j).Some? && Lookup(t, k).Some?;
        assert CnameIsAlone(t, if r == "CNAME" then j else k, spared);
      }
    }
  }

  /** What is written over a zone that keeps the rules keeps them if and only if there is room for it, whatever the
      pre-check had seen. */
  lemma WrittenKeepsRulesIff(parsers: Parsers, s: Store, f: RecordForm, existing: set<string>, spared: set<string>)
    requires RulesHold(s, spared) && f.Zone() in s.zones && IsSavable(parsers, f, existing)
    ensures RulesHold(Written(s, f), spared) <==> HasRoom(s, f, spared)
  {
    hide RulesHold, HasRoom, IsSavable, Written;
    if HasRoom(s, f, spared) { RoomKeepsRules(parsers, s, f, existing, spared); }
    if RulesHold(Written(s, f), spared) { RulesMakeRoom(s, f, Written(s, f), spared); }
  }

  /**
   An SOA is accepted whatever stands beside it, a CNAME too. That never puts one beside a CNAME in a store that keeps
   the rules, because an SOA is accepted at the apex only and no CNAME is there.
   */
  lemma SoaExemptionIsSafe(parsers: Parsers, s: Store, f: RecordForm, existing: set<string>, spared: set<string>)
    requires RulesHold(s, spared) && f.Zone() in s.zones && f.rtype == "SOA" && IsSavable(parsers, f, existing)
    ensures forall other: set<string> :: IsSavable(parsers, f, other)
    ensures f.Name() == f.Zone() && "CNAME" !in TypesBeside(s, f.Key())
  {
    hide Canonical, AbsoluteName, Fields, RecordsOf, ValidTtl, IsName, InZone, IsValidName;
    ZoneIsName(s, f.Zone());
    FormNamesAreCanonical(f);
    var cname := Key(f.Zone(), f.Zone(), "CNAME");
    assert cname in s.rrsets ==> CnameIsAlone(s, cname, spared);
  }

  /** A form accepted by a pre-check that saw the zone has room. */
  lemma PrecheckMakesRoom(parsers: Parsers, s: Store, f: RecordForm, spared: set<string>)
    requires RulesHold(s, spared) && f.Zone() in s.zones && IsSavable(parsers, f, TypesBeside(s, f.Key()))
    ensures HasRoom(s, f, spared)
  {
    hide Canonical, AbsoluteName, Fields, RecordsOf, ValidTtl, InZone, IsValidName, RulesHold;
    assert Remaining(s, f) <= TypesBeside(s, f.Key());
    if f.rtype == "SOA" { SoaExemptionIsSafe(parsers, s, f, TypesBeside(s, f.Key()), spared); }
  }

  /** A save the form accepts keeps the rules, whatever type is spared. */
  lemma WrittenKeepsRules(parsers: Parsers, s: Store, f: RecordForm, spared: set<string>)
    requires RulesHold(s, spared) && f.Zone() in s.zones && IsSavable(parsers, f, TypesBeside(s, f.Key()))
    ensures RulesHold(Written(s, f), spared)
  {
    hide RulesHold, HasRoom, IsSavable, Written, TypesBeside;
    PrecheckMakesRoom(parsers, s, f, spared);
    RoomKeepsRules(parsers, s, f, TypesBeside(s, f.Key()), spared);
  }

  // ----- a sync -----

  /** No CNAME sits where one of these wanted PTRs goes. */
  ghost predicate IsClear(s: Store, wanted: map<string, Target>, ptrs: set<string>) {
    forall p :: p in ptrs && p in wanted ==> Key(wanted[p].reverseZone, p, "CNAME") !in s.rrsets
  }

  lemma SyncedKey(parsers: Parsers, s: Store, user: User, a: SyncArgs, s': Store, written: set<string>,
                  gone: set<string>, k: Key)
    requires Synced(parsers, s, user, a, s', written, gone)
    ensures var wanted := Wanted(parsers, s, user, a);
      k in s'.rrsets && k !in s.rrsets ==>
        && k.rtype == "PTR" && k.name in wanted && k.zone == wanted[k.name].reverseZone && k.name in written
        && InZone(k.name, k.zone)
    ensures k.rtype != "PTR" ==> Lookup(s', k) == Lookup(s, k)
  {
    hide Wanted, PtrSet, Answers, Placement, InZone, PtrOf, CanEdit;
    var wanted := Wanted(parsers, s, user, a);
    LookupAfterSync(s, a, wanted, written, Retired(s, a, wanted), gone, k);
    if k in s'.rrsets && k !in s.rrsets {
      assert Lookup(s', k) != Lookup(s, k);
      WantedIs(parsers, s, user, a, k.name);
      PlacementFits(s, a.owner.zone, k.name);
    }
  }

  /** A sync writes PTRs without looking for a CNAME, so whatever fails in it the rules survive if PTRs are spared or no
      CNAME is in the way. */
  lemma SyncKeepsRules(parsers: Parsers, s: Store, user: User, a: SyncArgs, s': Store, spared: set<string>)
    requires RulesHold(s, spared) && MaySync(parsers, s, user, a, s')
    requires var wanted := Wanted(parsers, s, user, a); "PTR" in spared || IsClear(s, wanted, wanted.Keys)
    ensures RulesHold(s', spared) && s'.zones == s.zones && s'.pairs == s.pairs
    ensures forall k: Key :: k.rtype != "PTR" ==> Lookup(s', k) == Lookup(s, k)
  {
    hide RulesHold, Wanted, AfterSync, Answers;
    if s' != s {
      var written, gone :| Synced(parsers, s, user, a, s', written, gone);
      SyncedKeepsRules(parsers, s, user, a, s', written, gone, spared);
    }
  }

  lemma SyncedKeepsRules(parsers: Parsers, s: Store, user: User, a: SyncArgs, s': Store, written: set<string>,
                         gone: set<string>, spared: set<string>)
    requires RulesHold(s, spared) && Synced(parsers, s, user, a, s', written, gone)
    requires "PTR" in spared || IsClear(s, Wanted(parsers, s, user, a), written)
    ensures RulesHold(s', spared) && s'.zones == s.zones && s'.pairs == s.pairs
    ensures forall k: Key :: k.rtype != "PTR" ==> Lookup(s', k) == Lookup(s, k)
  {
    hide Wanted, IsName, InZone, PtrSet, Answers;
    var wanted := Wanted(parsers, s, user, a);
    forall k: Key
      ensures k in s'.rrsets && k !in s.rrsets ==>
        k.rtype == "PTR" && k.name in wanted && k.zone == wanted[k.name].reverseZone && k.name in written
      ensures k in s'.rrsets && k !in s.rrsets ==> InZone(k.name, k.zone)
      ensures k.rtype != "PTR" ==> Lookup(s', k) == Lookup(s, k)
    {
      SyncedKey(parsers, s, user, a, s', written, gone, k);
    }
    hide Synced;
    forall c | c in s'.rrsets && c.rtype == "CNAME" ensures CnameIsAlone(s', c, spared) {
      assert Lookup(s', c) == Lookup(s, c);
      assert CnameIsAlone(s, c, spared);
    }
  }

  /** Without a spared type the rules survive a sync, as far as it got, exactly when no CNAME is where it wrote. */
  lemma SyncedKeepsStrictRulesIff(parsers: Parsers, s: Store, user: User, a: SyncArgs, s': Store, written: set<string>,
                                  gone: set<string>)
    requires RulesHold(s, {}) && Synced(parsers, s, user, a, s', written, gone)
    ensures RulesHold(s', {}) <==> IsClear(s, Wanted(parsers, s, user, a), written)
  {
    hide Wanted, RulesHold, PtrSet, Answers;
    var wanted := Wanted(parsers, s, user, a);
    if IsClear(s, wanted, written) { SyncedKeepsRules(parsers, s, user, a, s', written, gone, {}); }
    if RulesHold(s', {}) {
      forall p | p in written && p in wanted ensures Key(wanted[p].reverseZone, p, "CNAME") !in s.rrsets {
        var c, k := Key(wanted[p].reverseZone, p, "CNAME"), PtrKey(wanted[p].reverseZone, p);
        SyncedKey(parsers, s, user, a, s', written, gone, c);
        LookupAfterSync(s, a, wanted, written, Retired(s, a, wanted), gone, k);
        RulesForbid(s', c, k);
      }
    }
  }

  lemma RulesForbid(s: Store, c: Key, k: Key)
    requires RulesHold(s, {}) && k in s.rrsets && k.rtype !in Tolerated({})
    requires c == Key(k.zone, k.name, "CNAME")
    ensures c !in s.rrsets
  {
    assert c in s.rrsets ==> CnameIsAlone(s, c, {});
  }

  /** A sync in which nothing fails keeps them exactly when no CNAME is where a wanted PTR goes. */
  lemma SyncKeepsStrictRulesIff(parsers: Parsers, s: Store, user: User, a: SyncArgs)
    requires RulesHold(s, {})
    ensures var wanted := Wanted(parsers, s, user, a);
      RulesHold(CleanSync(parsers, s, user, a), {}) <==> IsClear(s, wanted, wanted.Keys)
  {
    hide Wanted, RulesHold, CleanSync, Synced, Answers;
    var wanted := Wanted(parsers, s, user, a);
    CleanIsSynced(parsers, s, user, a);
    SyncedKeepsStrictRulesIff(parsers, s, user, a, CleanSync(parsers, s, user, a), wanted.Keys,
                              StillOurs(s, Retired(s, a, wanted)));
  }

  // ----- a save and a deletion, whatever fails on their reverse sides -----

  lemma RetireKeepsRules(parsers: Parsers, s: Store, user: User, k: Key, ttl: int, s': Store, spared: set<string>)
    requires RulesHold(s, spared) && MaySync(parsers, s, user, Retire(k, ttl), s')
    ensures RulesHold(s', spared) && s'.zones == s.zones && s'.pairs == s.pairs
    ensures forall j: Key :: j.rtype != "PTR" ==> Lookup(s', j) == Lookup(s, j)
  {
    hide RulesHold, MaySync, Wanted;
    NothingWanted(parsers, s, user, k, ttl);
    SyncKeepsRules(parsers, s, user, Retire(k, ttl), s', spared);
  }

  lemma FollowKeepsRules(parsers: Parsers, s: Store, user: User, f: RecordForm, s': Store, spared: set<string>)
    requires RulesHold(s, spared) && MayFollow(parsers, s, user, f, s')
    requires var wanted := Wanted(parsers, s, user, f.Sync()); "PTR" in spared || IsClear(s, wanted, wanted.Keys)
    ensures RulesHold(s', spared)
  {
    hide RulesHold, MaySync, Wanted, Canonical, AbsoluteName, Fields, ValidTtl, RecordsOf;
    if f.rtype in ADDRESS_TYPES || f.IsRename() {
      var t :| MayRetire(parsers, s, user, f.Sync(), Previous(f), t) && MaySync(parsers, t, user, f.Sync(), s');
      if f.IsRename() { RetireKeepsRules(parsers, s, user, f.OldKey(), f.Ttl(), t, spared); }
      WantedDependsOn(parsers, s, t, user, f.Sync());
      StaysClear(s, t, Wanted(parsers, s, user, f.Sync()));
      SyncKeepsRules(parsers, t, user, f.Sync(), s', spared);
    }
  }

  lemma StaysClear(s: Store, t: Store, wanted: map<string, Target>)
    requires forall k: Key :: k.rtype != "PTR" ==> Lookup(t, k) == Lookup(s, k)
    ensures IsClear(s, wanted, wanted.Keys) ==> IsClear(t, wanted, wanted.Keys)
  {
    if IsClear(s, wanted, wanted.Keys) {
      forall p | p in wanted ensures Key(wanted[p].reverseZone, p, "CNAME") !in t.rrsets {
        var c := Key(wanted[p].reverseZone, p, "CNAME");
        assert c !in s.rrsets && Lookup(t, c) == Lookup(s, c);
      }
    }
  }

  /** Handing PTRs back and forgetting links touches no record set. */
  lemma UnlinkedSets(s: Store, f: RecordForm)
    ensures Unlinked(s, f).rrsets == s.rrsets && Unlinked(s, f).zones == s.zones
  {
    hide Canonical, AbsoluteName, Fields, AllCanonical;
  }

  lemma FinishKeepsRules(parsers: Parsers, s: Store, user: User, f: RecordForm, s': Store, spared: set<string>)
    requires RulesHold(s, spared) && MayFinish(parsers, s, user, f, s')
    requires var wanted := Wanted(parsers, s, user, f.Sync()); "PTR" in spared || IsClear(s, wanted, wanted.Keys)
    ensures RulesHold(s', spared)
  {
    hide MayFollow, Unlinked, Wanted, IsClear, InZone, Canonical, AbsoluteName, CnameIsAlone;
    var t :| MayFollow(parsers, s, user, f, t) && s' == Unlinked(t, f);
    FollowKeepsRules(parsers, s, user, f, t, spared);
    UnlinkedSets(t, f);
    FewerKeepsRules(t, s', spared);
  }

  lemma DeleteKeepsRules(parsers: Parsers, s: Store, user: User, k: Key, ttl: int, s': Store, spared: set<string>)
    requires RulesHold(s, spared) && MayDelete(parsers, s, user, k, ttl, s')
    ensures RulesHold(s', spared)
  {
    hide MaySync, InZone, IsName, CnameIsAlone;
    var without := Without(s, k);
    FewerKeepsRules(s, without, spared);
    if k.rtype in ADDRESS_TYPES { RetireKeepsRules(parsers, without, user, k, ttl, s', spared); }
    else { FewerKeepsRules(without, s', spared); }
  }

  // ----- zones -----

  /** Writing a set at the apex that may not be alone there is safe because no CNAME is ever at the apex. */
  lemma ApexSetKeepsRules(s: Store, zone: string, rtype: string, set_: RRset, spared: set<string>)
    requires RulesHold(s, spared) && rtype != "CNAME"
    ensures RulesHold(With(s, Key(zone, zone, rtype), set_), spared)
  {
    hide AreNames;
    var t := With(s, Key(zone, zone, rtype), set_);
    forall c | c in t.rrsets && c.rtype == "CNAME" ensures CnameIsAlone(t, c, spared) {
      assert CnameIsAlone(s, c, spared);
    }
  }

  /** New zones, however many of those asked for, come with sets at their apex only. */
  lemma CreateKeepsRules(s: Store, zones: seq<string>, s': Store, spared: set<string>)
    requires RulesHold(s, spared) && MayCreate(s, zones, s') && forall z :: z in zones ==> IsCanonical(z)
    ensures RulesHold(s', spared)
  {
    hide IsCanonical, EndsWith;
    forall k | k in s'.rrsets ensures InZone(k.name, k.zone) {
      assert Lookup(s', k) == Lookup(s, k) || k.name == k.zone;
    }
    forall c | c in s'.rrsets && c.rtype == "CNAME" ensures CnameIsAlone(s', c, spared) {
      assert Lookup(s', c) == Lookup(s, c);
      assert CnameIsAlone(s, c, spared);
      forall j | j in s'.rrsets && j.zone == c.zone && j.name == c.name ensures j.rtype in Tolerated(spared) {
        assert Lookup(s', j) == Lookup(s, j);
      }
    }
  }

  lemma SettingsKeepRules(s: Store, zone: string, f: SettingsForm, s': Store, spared: set<string>)
    requires RulesHold(s, spared) && forall z :: z in f.created ==> IsCanonical(z)
    requires MaySettle(s, zone, f, s') || s' == WithNameservers(s, zone, f)
    ensures RulesHold(s', spared)
  {
    hide RulesHold, MayCreate, AllCanonical, RecordsOf, IsCanonical, StoredSoa;
    var named, apex := WithNameservers(s, zone, f), ApexWritten(s, zone, f);
    var ns, soa := Key(zone, zone, "NS"), Key(zone, zone, "SOA");
    ApexSetKeepsRules(s, zone, "NS", named.rrsets[ns], spared);
    if !f.isSlave { ApexSetKeepsRules(named, zone, "SOA", apex.rrsets[soa], spared); }
    if s' != named {
      var t :| MayCreate(apex, f.created, t) && s' == Paired(t, zone, AllCanonical(f.ticked + f.created));
      CreateKeepsRules(apex, f.created, t, spared);
      PairedKeepsRules(t, zone, AllCanonical(f.ticked + f.created), spared);
    }
  }

  lemma PairedKeepsRules(s: Store, zone: string, reverse: seq<string>, spared: set<string>)
    requires RulesHold(s, spared)
    ensures RulesHold(Paired(s, zone, reverse), spared)
  {
    hide IsName, CnameIsAlone, InZone;
    FewerKeepsRules(s, Paired(s, zone, reverse), spared);
  }

  lemma DropZoneKeepsRules(s: Store, zone: string, spared: set<string>)
    requires RulesHold(s, spared)
    ensures RulesHold(ZoneDeleted(s, zone), spared)
  {
    hide IsName, CnameIsAlone, InZone;
    FewerKeepsRules(s, ZoneDeleted(s, zone), spared);
  }

  // ----- runs -----

  /** A save that wrote its set had seen the zone in its pre-check, or there was room for the set anyway; and no PTR it
      may have written met a CNAME, unless PTRs are spared. */
  ghost predicate IsRuled(parsers: Parsers, s: Store, e: Event, s': Store, spared: set<string>) {
    e.Save? && s' != s && s' != Without(s, e.form.OldKey()) ==>
      && (IsPrechecked(s, e) || HasRoom(s, e.form, spared))
      && ("PTR" in spared ||
          var wanted := Wanted(parsers, s, e.user, e.form.Sync()); IsClear(Written(s, e.form), wanted, wanted.Keys))
  }

  lemma SaveKeepsRules(parsers: Parsers, s: Store, e: Event, s': Store, spared: set<string>)
    requires RulesHold(s, spared) && e.Save? && IsDone(parsers, s, e) && IsRuled(parsers, s, e, s', spared)
    requires MayFinish(parsers, Written(s, e.form), e.user, e.form, s')
    requires s' != s && s' != Without(s, e.form.OldKey())
    ensures RulesHold(s', spared)
  {
    hide RulesHold, HasRoom, Wanted, IsClear, MayFinish, IsSavable, TypesBeside, Written, Canonical, AbsoluteName;
    var f := e.form;
    if IsPrechecked(s, e) { PrecheckMakesRoom(parsers, s, f, spared); }
    RoomKeepsRules(parsers, s, f, e.existing, spared);
    SameZonesWritten(s, f);
    WantedDependsOn(parsers, s, Written(s, f), e.user, f.Sync());
    FinishKeepsRules(parsers, Written(s, f), e.user, f, s', spared);
  }

  lemma SameZonesWritten(s: Store, f: RecordForm)
    ensures Written(s, f).zones == s.zones && Written(s, f).pairs == s.pairs
  {
    hide Canonical, AbsoluteName, Fields, RecordsOf, ValidTtl;
  }

  /** Every request keeps the rules, wherever it stops. */
  lemma StepKeepsRules(parsers: Parsers, s: Store, e: Event, s': Store, spared: set<string>)
    requires RulesHold(s, spared) && MayHappen(parsers, s, e, s') && IsRuled(parsers, s, e, s', spared)
    ensures RulesHold(s', spared)
  {
    hide RulesHold, MayFinish, MayDelete, ZoneDeleted, MaySettle, MayCreate, IsSavable, HasRoom, Selectable, Written,
         IsRuled, IsCanonical, AllCanonical, Canonical, AbsoluteName, WithNameservers, TypesBeside;
    if s' != s {
      match e
      case Save(user, f, _) =>
        if s' == Without(s, f.OldKey()) { HalfRenameKeepsRules(s, f.OldKey(), spared); }
        else { SaveKeepsRules(parsers, s, e, s', spared); }
      case Delete(user, k, ttl) => DeleteKeepsRules(parsers, s, user, k, ttl, s', spared);
      case DropZone(zone) => DropZoneKeepsRules(s, zone, spared);
      case Settings(_, zone, f) => SettingsKeepRules(s, zone, f, s', spared);
      case Create(zones, _) => CreateKeepsRules(s, zones, s', spared);
    }
  }

  lemma HalfRenameKeepsRules(s: Store, k: Key, spared: set<string>)
    requires RulesHold(s, spared)
    ensures RulesHold(Without(s, k), spared)
  {
    hide IsName, CnameIsAlone, InZone;
    FewerKeepsRules(s, Without(s, k), spared);
  }

  ghost predicate IsRuledRun(parsers: Parsers, s: Store, events: seq<Event>, s': Store, spared: set<string>)
    decreases |events|
  {
    if events == [] then s' == s
    else
      exists t :: MayHappen(parsers, s, events[0], t) && IsRuled(parsers, s, events[0], t, spared)
        && IsRuledRun(parsers, t, events[1..], s', spared)
  }

  /**
   Over a run in which any calls fail and no set was written unchecked where there was no room, every set stays in its
   zone, a CNAME is one record, never at the apex and never beside another type - PTRs excepted, or none excepted if no
   linked PTR met a CNAME.
   */
  lemma {:induction false} RunKeepsRules(parsers: Parsers, s: Store, events: seq<Event>, s': Store, spared: set<string>)
    requires RulesHold(s, spared) && IsRuledRun(parsers, s, events, s', spared)
    ensures RulesHold(s', spared)
    decreases |events|
  {
    hide RulesHold, IsRuled, MayHappen;
    if events != [] {
      var t :| MayHappen(parsers, s, events[0], t) && IsRuled(parsers, s, events[0], t, spared)
        && IsRuledRun(parsers, t, events[1..], s', spared);
      StepKeepsRules(parsers, s, events[0], t, spared);
      RunKeepsRules(parsers, t, events[1..], s', spared);
    }
  }

  // ----- runs without failures are among those -----

  ghost predicate IsCleanRuledRun(parsers: Parsers, s: Store, events: seq<Event>, s': Store, spared: set<string>)
    decreases |events|
  {
    if events == [] then s' == s
    else
      var t := Next(parsers, s, events[0]);
      && IsDone(parsers, s, events[0]) && IsRuled(parsers, s, events[0], t, spared)
      && IsCleanRuledRun(parsers, t, events[1..], s', spared)
  }

  lemma {:induction false} CleanRunIsRuled(parsers: Parsers, s: Store, events: seq<Event>, s': Store,
                                           spared: set<string>)
    requires IsCleanRuledRun(parsers, s, events, s', spared)
    ensures IsRuledRun(parsers, s, events, s', spared) && IsRun(parsers, s, events, s')
    decreases |events|
  {
    hide IsDone, Next, MayHappen, IsRuled;
    if events != [] {
      NextMayHappen(parsers, s, events[0]);
      CleanRunIsRuled(parsers, Next(parsers, s, events[0]), events[1..], s', spared);
    }
  }

  lemma {:induction false} RunStaysStored(parsers: Parsers, s: Store, events: seq<Event>, s': Store)
    requires IsStored(s) && IsRun(parsers, s, events, s')
    ensures IsStored(s')
    decreases |events|
  {
    hide IsStored, IsDone, Next;
    if events != [] {
      StepStaysStored(parsers, s, events[0]);
      RunStaysStored(parsers, Next(parsers, s, events[0]), events[1..], s');
    }
  }

  /** When nothing fails, every set and every pairing also belongs to a zone that exists. */
  lemma CleanRunKeepsRules(parsers: Parsers, s: Store, events: seq<Event>, s': Store, spared: set<string>)
    requires IsStored(s) && RulesHold(s, spared) && IsCleanRuledRun(parsers, s, events, s', spared)
    ensures IsStored(s') && RulesHold(s', spared)
  {
    hide IsStored, RulesHold;
    CleanRunIsRuled(parsers, s, events, s', spared);
    RunStaysStored(parsers, s, events, s');
    RunKeepsRules(parsers, s, events, s', spared);
  }

  // ----- without a pre-check -----

  lemma FollowKeepsOthers(parsers: Parsers, s: Store, user: User, f: RecordForm, s': Store, k: Key)
    requires MayFinish(parsers, s, user, f, s') && k.rtype != "PTR"
    ensures Lookup(s', k) == Lookup(s, k)
  {
    hide MaySync, Unlinked, Canonical, AbsoluteName, Fields, ValidTtl, RecordsOf;
    var u :| MayFollow(parsers, s, user, f, u) && s' == Unlinked(u, f);
    UnlinkedSets(u, f);
    if f.rtype in ADDRESS_TYPES || f.IsRename() {
      var t :| MayRetire(parsers, s, user, f.Sync(), Previous(f), t) && MaySync(parsers, t, user, f.Sync(), u);
      if f.IsRename() { MaySyncKeepsOthers(parsers, s, user, Retire(f.OldKey(), f.Ttl()), t, k); }
      MaySyncKeepsOthers(parsers, t, user, f.Sync(), u, k);
    }
  }

  lemma MaySyncKeepsOthers(parsers: Parsers, s: Store, user: User, a: SyncArgs, s': Store, k: Key)
    requires MaySync(parsers, s, user, a, s') && k.rtype != "PTR"
    ensures Lookup(s', k) == Lookup(s, k)
  {
    hide Synced, Lookup;
    if s' != s {
      var written, gone :| Synced(parsers, s, user, a, s', written, gone);
      SyncedKey(parsers, s, user, a, s', written, gone, k);
    }
  }

  /** A save that was made keeps the rules, PTRs spared, if and only if there was room: whatever the pre-check saw or
      failed to see, and whatever failed on the reverse side. */
  lemma SaveKeepsRulesIff(parsers: Parsers, s: Store, user: User, f: RecordForm, existing: set<string>, s': Store,
                          spared: set<string>)
    requires RulesHold(s, spared) && "PTR" in spared && f.Zone() in s.zones && IsSavable(parsers, f, existing)
    requires MayFinish(parsers, Written(s, f), user, f, s')
    ensures RulesHold(s', spared) <==> HasRoom(s, f, spared)
  {
    hide RulesHold, HasRoom, IsSavable, Written, MayFinish, Wanted, Canonical, AbsoluteName, Lookup;
    if HasRoom(s, f, spared) {
      RoomKeepsRules(parsers, s, f, existing, spared);
      FinishKeepsRules(parsers, Written(s, f), user, f, s', spared);
    }
    if RulesHold(s', spared) {
      forall k: Key | k.rtype != "PTR" ensures Lookup(s', k) == Lookup(Written(s, f), k) {
        FollowKeepsOthers(parsers, Written(s, f), user, f, s', k);
      }
      RulesMakeRoom(s, f, s', spared);
    }
  }
}
