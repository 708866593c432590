/** What complete saves of zone settings, new zones and deletions of zones leave, said of the forms' own fields. */
module ZoneEffects {
  import opened PyText
  import opened Names
  import opened RecordRules
  import opened PanelState
  import opened SoaText
  import opened SoaRecord
  import opened SyncLaws
  import opened ZoneHandlers
  import opened LinkRows
  import opened ZoneRuns
  import opened SerialRuns

  // ----- settings -----

  /** The name is one of these texts, made canonical, and not blank. */
  ghost predicate IsNamedIn(texts: seq<string>, name: string) {
    name != "" && exists x :: x in texts && Canonical(x) == name
  }

  lemma AllCanonicalHas(texts: seq<string>, name: string)
    ensures name in AllCanonical(texts) <==> exists x :: x in texts && Canonical(x) == name
  {
    hide Canonical;
    var all := AllCanonical(texts);
    if x :| x in texts && Canonical(x) == name {
      var i :| 0 <= i < |texts| && texts[i] == x;
      assert all[i] == name;
    }
    if name in all {
      var i :| 0 <= i < |all| && all[i] == name;
      assert texts[i] in texts;
    }
  }

  /** After a complete save of its settings a zone is paired with the zones ticked on the form and those created, and
      with no other; the pairings of other zones stay. */
  lemma PairingsAre(s: Store, zone: string, f: SettingsForm, z: string, r: string)
    ensures (z, r) in Settled(s, zone, f).pairs <==>
      if z == zone then IsNamedIn(f.ticked, r) || IsNamedIn(f.created, r) else (z, r) in s.pairs
  {
    hide Canonical, ApexWritten, CreatedZones, AllCanonical, MayCreate;
    var apex, all := ApexWritten(s, zone, f), f.ticked + f.created;
    CreatedMayBe(apex, f.created, if f.isSlave then [] else AllCanonical(f.nameservers));
    assert CreatedZones(apex, f.created, if f.isSlave then [] else AllCanonical(f.nameservers)).pairs == s.pairs by {
      CreatedPairs(apex, f.created, if f.isSlave then [] else AllCanonical(f.nameservers));
      ApexPairs(s, zone, f);
    }
    AllCanonicalHas(all, r);
    assert forall x :: x in all <==> x in f.ticked || x in f.created;
  }

  lemma CreatedPairs(s: Store, zones: seq<string>, nameservers: seq<string>)
    ensures CreatedZones(s, zones, nameservers).pairs == s.pairs
  {
    hide CreatedZones, Lookup;
    CreatedMayBe(s, zones, nameservers);
  }

  lemma ApexPairs(s: Store, zone: string, f: SettingsForm)
    ensures ApexWritten(s, zone, f).pairs == s.pairs
  {
    hide StoredSoa, AllCanonical, RecordsOf;
  }

  /** The zones that the form offers: reverse zones on the server other than the zone itself that the user may edit. */
  lemma OfferedIff(zones: set<string>, user: User, zone: string, r: string)
    requires AreNames(zones)
    ensures r in Selectable(zones, user, zone) <==>
      && r in zones && r != zone && CanEdit(user, r)
      && (EndsWith(r, "in-addr.arpa.") || EndsWith(r, "ip6.arpa."))
  {
    hide Canonical, CanEdit, EndsWith;
    assert r in zones ==> IsName(r);
  }

  /** The apex sets of a zone that is not a slave: the nameservers in order, and one SOA that carries on the serial read
      and has the form's own fields. */
  lemma ApexIs(s: Store, zone: string, f: SettingsForm)
    requires zone in s.zones && !f.isSlave && forall x :: x in f.nameservers ==> Strip(Canonical(x)) != ""
    ensures var s', ns, soa := Settled(s, zone, f), Key(zone, zone, "NS"), Key(zone, zone, "SOA");
      && ns in s'.rrsets && soa in s'.rrsets
      && s'.rrsets[ns].ttl == f.nsTtl && s'.rrsets[soa].ttl == f.soaTtl && |s'.rrsets[soa].records| == 1
      && |s'.rrsets[ns].records| == |f.nameservers|
      && (forall i :: 0 <= i < |f.nameservers| ==>
            s'.rrsets[ns].records[i] == Record(Canonical(f.nameservers[i]), false))
      && s'.rrsets[soa].records[0] == Record(SavedContent(StoredSoa(s, zone), f.soa), false)
    ensures forall k: Key :: k.zone == zone && k.rtype != "NS" && k.rtype != "SOA" ==>
      Lookup(Settled(s, zone, f), k) == Lookup(s, k)
  {
    hide Canonical, CreatedZones, SavedContent, StoredSoa, Strip, RecordsOf, ApexWritten, WithNameservers;
    var s', apex := Settled(s, zone, f), ApexWritten(s, zone, f);
    var nameservers := AllCanonical(f.nameservers);
    ApexReads(s, zone, f);
    ApexSets(s, zone, f);
    CreatedMayBe(apex, f.created, nameservers);
    forall k: Key | k.zone == zone ensures Lookup(s', k) == Lookup(apex, k) {
      assert Lookup(CreatedZones(apex, f.created, nameservers), k) == Lookup(apex, k);
    }
    assert Lookup(s', Key(zone, zone, "NS")) == Lookup(apex, Key(zone, zone, "NS"));
    assert Lookup(s', Key(zone, zone, "SOA")) == Lookup(apex, Key(zone, zone, "SOA"));
  }

  /** The form writes nothing to the sets of a slave. */
  lemma SlaveSetsStay(s: Store, zone: string, f: SettingsForm, k: Key)
    requires zone in s.zones && f.isSlave && k.zone == zone
    ensures Lookup(Settled(s, zone, f), k) == Lookup(s, k)
  {
    hide CreatedZones, AllCanonical, WithNameservers, RecordsOf, SavedContent;
    CreatedMayBe(s, f.created, []);
    assert Lookup(CreatedZones(s, f.created, []), k) == Lookup(s, k);
  }

  lemma ApexSets(s: Store, zone: string, f: SettingsForm)
    requires !f.isSlave && forall x :: x in f.nameservers ==> Strip(Canonical(x)) != ""
    ensures var apex := ApexWritten(s, zone, f);
      && Lookup(apex, Key(zone, zone, "NS")) == Some(RRset(f.nsTtl, RecordsOf(AllCanonical(f.nameservers), false), ""))
      && Lookup(apex, Key(zone, zone, "SOA")) ==
           Some(RRset(f.soaTtl, RecordsOf([SavedContent(StoredSoa(s, zone), f.soa)], false), ""))
      && |RecordsOf([SavedContent(StoredSoa(s, zone), f.soa)], false)| == 1
      && RecordsOf([SavedContent(StoredSoa(s, zone), f.soa)], false)[0] ==
           Record(SavedContent(StoredSoa(s, zone), f.soa), false)
      && |RecordsOf(AllCanonical(f.nameservers), false)| == |f.nameservers|
      && forall i :: 0 <= i < |f.nameservers| ==>
           RecordsOf(AllCanonical(f.nameservers), false)[i] == Record(Canonical(f.nameservers[i]), false)
  {
    hide Canonical, StoredSoa, Strip, SavedContent;
    SavedIsNoBlank(StoredSoa(s, zone), f.soa);
  }

  lemma SavedIsNoBlank(stored: Option<string>, form: SoaForm)
    ensures Strip(SavedContent(stored, form)) != ""
  {
    hide Canonical, ToContent, Strip;
    var current := if stored.Some? then ParseSoa(stored.value) else None;
    ContentIsNoBlank(Soa(Canonical(form.mname), EmailToRname(form.email), SerialOf(current), form.timers));
  }

  /** The SOA that is read is the content of the first record of the apex set, if there is one. */
  lemma StoredSoaIs(s: Store, zone: string)
    ensures var k := Key(zone, zone, "SOA");
      StoredSoa(s, zone) ==
        if k in s.rrsets && |s.rrsets[k].records| > 0 then Some(s.rrsets[k].records[0].content) else None
  {
  }

  // ----- new zones -----

  /** A new zone exists afterwards with the nameservers given, in order, and all that was there before stays. */
  lemma NewZoneIs(s: Store, zone: string, nameservers: seq<string>)
    requires zone != "" && zone !in s.zones && nameservers != [] && forall x :: x in nameservers ==> Strip(x) != ""
    ensures var s', ns := CreatedZone(s, zone, nameservers), Key(zone, zone, "NS");
      && s'.zones == s.zones + {zone} && s'.links == s.links && s'.pairs == s.pairs
      && Key(zone, zone, "SOA") in s'.rrsets && ns in s'.rrsets && |s'.rrsets[ns].records| == |nameservers|
      && (forall i :: 0 <= i < |nameservers| ==> s'.rrsets[ns].records[i] == Record(nameservers[i], false))
      && forall k: Key :: k.zone != zone ==> Lookup(s', k) == Lookup(s, k)
  {
    hide Strip;
  }

  /** Of the zones asked for, each that was not there exists afterwards, with the nameservers given. */
  lemma {:induction false} CreatedHave(s: Store, zones: seq<string>, nameservers: seq<string>, z: string)
    requires z in zones && z != "" && z !in s.zones
    ensures var t := CreatedZones(s, zones, nameservers);
      && z in t.zones
      && (nameservers != [] ==>
            Lookup(t, Key(z, z, "NS")) == Some(RRset(3600, RecordsOf(nameservers, false), "")))
    decreases |zones|
  {
    hide RecordsOf;
    var front, last := zones[..|zones| - 1], zones[|zones| - 1];
    assert zones == front + [last];
    if z in front {
      CreatedHave(s, front, nameservers, z);
    } else {
      CreatedMayBe(s, front, nameservers);
    }
  }

  /** A settings form creates the zones it names, with its own nameservers unless the zone is a slave. */
  lemma SettingsCreate(s: Store, zone: string, f: SettingsForm, z: string)
    requires z in f.created && z != "" && z !in s.zones
    ensures var s' := Settled(s, zone, f);
      && z in s'.zones
      && (!f.isSlave && f.nameservers != [] ==>
            Lookup(s', Key(z, z, "NS")) == Some(RRset(3600, RecordsOf(AllCanonical(f.nameservers), false), "")))
  {
    hide CreatedZones, AllCanonical, RecordsOf, StoredSoa, SavedContent, ApexWritten;
    var apex, nameservers := ApexWritten(s, zone, f), if f.isSlave then [] else AllCanonical(f.nameservers);
    ApexReads(s, zone, f);
    CreatedHave(apex, f.created, nameservers, z);
    SameLength(f.nameservers);
  }

  lemma SameLength(texts: seq<string>)
    ensures |AllCanonical(texts)| == |texts|
  {
  }

  // ----- the deletion of a zone -----

  /** Nothing of a deleted zone is left: no set, no pairing on either side, no link on either side. All else stays. */
  lemma DeletedZoneIsGone(s: Store, zone: string, k: Key, z: string, r: string, ptr: string)
    ensures var s' := ZoneDeleted(s, zone);
      && zone !in s'.zones && (z != zone ==> (z in s'.zones <==> z in s.zones))
      && Lookup(s', k) == (if k.zone == zone then None else Lookup(s, k))
      && ((z, r) in s'.pairs <==> (z, r) in s.pairs && z != zone && r != zone)
      && (ptr in s'.links <==>
            ptr in s.links && s.links[ptr].forwardZone != zone && s.links[ptr].reverseZone != zone)
      && (ptr in s'.links ==> s'.links[ptr] == s.links[ptr])
  {
  }
}
