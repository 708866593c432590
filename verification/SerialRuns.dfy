/** The serial of a zone's stored SOA over runs of the zone requests. */
module SerialRuns {
  import opened PyText
  import opened Names
  import opened SoaText
  import opened SoaRecord
  import opened RecordRules
  import opened PanelState
  import opened SyncLaws
  import opened ZoneHandlers
  import opened LinkRows
  import opened ZoneRuns
  import opened FailingRuns
  import opened ZoneRules

  function SoaKey(zone: string): Key {
    Key(zone, zone, "SOA")
  }

  /** The serial that the settings form of the zone reads. */
  function StoredSerial(s: Store, zone: string): int {
    SerialRead(StoredSoa(s, zone))
  }

  lemma {:induction false} BlankHasNoWords(s: string)
    requires forall i :: 0 <= i < |s| ==> IsSpace(s[i])
    ensures Words(s) == []
  {
    if s != "" { BlankHasNoWords(s[1..]); }
  }

  /** What the form writes is never a blank line, so it is sent. */
  lemma ContentIsNoBlank(soa: Soa)
    ensures Strip(ToContent(soa)) != ""
  {
    hide Canonical, ToContent, Words;
    WordsOfContent(soa);
    if Strip(ToContent(soa)) == "" { BlankHasNoWords(ToContent(soa)); }
  }

  /** The settings form stores exactly the content made from what it read and its own fields. */
  lemma ApexSoaIs(s: Store, zone: string, f: SettingsForm)
    ensures StoredSoa(ApexWritten(s, zone, f), zone) ==
      if f.isSlave then StoredSoa(s, zone) else Some(SavedContent(StoredSoa(s, zone), f.soa))
  {
    hide WithNameservers, ToContent, Canonical, EmailToRname, ParseSoa;
    if !f.isSlave {
      var content := SavedContent(StoredSoa(s, zone), f.soa);
      var current := if StoredSoa(s, zone).Some? then ParseSoa(StoredSoa(s, zone).value) else None;
      ContentIsNoBlank(Soa(Canonical(f.soa.mname), EmailToRname(f.soa.email), SerialOf(current), f.soa.timers));
      assert Strip(content) != "";
      assert RecordsOf([content], false)[0] == Record(content, false);
    }
  }

  lemma SameSoaSet(s: Store, t: Store, zone: string)
    requires Lookup(t, SoaKey(zone)) == Lookup(s, SoaKey(zone))
    ensures StoredSoa(t, zone) == StoredSoa(s, zone)
  {
  }

  /** A record form that writes or replaces the zone's SOA, and the deletion of the zone. */
  predicate ReplacesSoa(e: Event, zone: string) {
    match e
    case Save(_, f, _) => f.Key() == SoaKey(zone) || (f.IsRename() && f.OldKey() == SoaKey(zone))
    case DropZone(z) => z == zone
    case _ => false
  }

  /** A settings form that saves the zone's SOA. */
  predicate SavesSoa(e: Event, zone: string) {
    e.Settings? && e.zone == zone && !e.settings.isSlave
  }

  lemma SettingsStoreSoa(s: Store, zone: string, z: string, f: SettingsForm, s': Store)
    requires zone in s.zones && (MaySettle(s, z, f, s') || (!f.isSlave && s' == WithNameservers(s, z, f)))
    ensures zone in s'.zones
    ensures StoredSoa(s', zone) == StoredSoa(s, zone) || (z == zone && !f.isSlave && MaySettle(s, z, f, s'))
    ensures z == zone && !f.isSlave && MaySettle(s, z, f, s') ==>
      StoredSoa(s', zone) == Some(SavedContent(StoredSoa(s, zone), f.soa))
  {
    hide WithNameservers, ApexWritten, StoredSoa, SavedContent, AllCanonical, Lookup;
    var apex := ApexWritten(s, z, f);
    ApexReads(s, z, f);
    if MaySettle(s, z, f, s') {
      var t :| MayCreate(apex, f.created, t) && s' == Paired(t, z, AllCanonical(f.ticked + f.created));
      SameRRsets(t, s', zone);
      SameSoaSet(apex, s', zone);
      if z == zone { ApexSoaIs(s, zone, f); } else { SameSoaSet(s, apex, zone); }
    } else {
      SameSoaSet(s, s', zone);
    }
  }

  lemma SameRRsets(s: Store, t: Store, zone: string)
    requires s.rrsets == t.rrsets
    ensures Lookup(t, SoaKey(zone)) == Lookup(s, SoaKey(zone))
  {
  }

  /** Any other request, whatever fails, leaves the zone and its SOA as they are; a settings form may store its own. */
  lemma StepStoresSoa(parsers: Parsers, s: Store, e: Event, s': Store, zone: string)
    requires zone in s.zones && MayHappen(parsers, s, e, s') && !ReplacesSoa(e, zone)
    ensures zone in s'.zones
    ensures var before, after := StoredSoa(s, zone), StoredSoa(s', zone);
      after == before || (SavesSoa(e, zone) && after == Some(SavedContent(before, e.settings.soa)))
  {
    hide MayFinish, MayDelete, MaySettle, Written, WithNameservers, StoredSoa, SavedContent, Canonical, AbsoluteName;
    hide IsSavable, Selectable, AllCanonical, IsCanonical, IsName;
    if s' != s {
      match e
      case Save(user, f, _) => SaveKeepsSoa(parsers, s, user, f, s', zone);
      case Delete(user, k, ttl) => DeleteKeepsSoa(parsers, s, user, k, ttl, s', zone);
      case DropZone(z) =>
      case Settings(_, z, f) => SettingsStoreSoa(s, zone, z, f, s');
      case Create(zones, _) => assert Lookup(s', SoaKey(zone)) == Lookup(s, SoaKey(zone));
    }
    if !e.Settings? { SameSoaSet(s, s', zone); }
  }

  lemma SaveKeepsSoa(parsers: Parsers, s: Store, user: User, f: RecordForm, s': Store, zone: string)
    requires MayFinish(parsers, Written(s, f), user, f, s') || (f.IsRename() && s' == Without(s, f.OldKey()))
    requires f.Key() != SoaKey(zone) && !(f.IsRename() && f.OldKey() == SoaKey(zone))
    ensures s'.zones == s.zones && Lookup(s', SoaKey(zone)) == Lookup(s, SoaKey(zone))
  {
    hide Canonical, AbsoluteName, Fields, RecordsOf, ValidTtl, MayFinish;
    if MayFinish(parsers, Written(s, f), user, f, s') {
      FollowKeepsOthers(parsers, Written(s, f), user, f, s', SoaKey(zone));
      OthersAreKept(s, f, SoaKey(zone));
      FinishKeepsZones(parsers, Written(s, f), user, f, s');
    }
  }

  lemma FinishKeepsZones(parsers: Parsers, s: Store, user: User, f: RecordForm, s': Store)
    requires MayFinish(parsers, s, user, f, s')
    ensures s'.zones == s.zones
  {
    hide Canonical, AbsoluteName, Fields, RecordsOf, ValidTtl, Unlinked, Wanted, Answers;
    var t :| MayFollow(parsers, s, user, f, t) && s' == Unlinked(t, f);
    UnlinkedSets(t, f);
  }

  lemma DeleteKeepsSoa(parsers: Parsers, s: Store, user: User, k: Key, ttl: int, s': Store, zone: string)
    requires MayDelete(parsers, s, user, k, ttl, s') && k.rtype != "SOA"
    ensures s'.zones == s.zones && Lookup(s', SoaKey(zone)) == Lookup(s, SoaKey(zone))
  {
    hide Wanted, Answers, PtrSet;
    if k.rtype in ADDRESS_TYPES {
      MaySyncKeepsOthers(parsers, Without(s, k), user, Retire(k, ttl), s', SoaKey(zone));
    }
  }

  /** The run may not keep the serial: a form of other than two words saves the SOA, or it is replaced otherwise. */
  predicate TouchesSerial(e: Event, zone: string) {
    ReplacesSoa(e, zone) || (SavesSoa(e, zone) && |Leading(e.settings.soa)| != 2)
  }

  /** A run of requests, any of which may fail or be cut short, ends with the serial it began with. */
  lemma {:induction false} RunKeepsStoredSerial(parsers: Parsers, s: Store, events: seq<Event>, s': Store, zone: string)
    requires zone in s.zones && MayRun(parsers, s, events, s')
    requires forall e :: e in events ==> !TouchesSerial(e, zone)
    ensures zone in s'.zones && StoredSerial(s', zone) == StoredSerial(s, zone)
    decreases |events|
  {
    hide MayHappen, ReplacesSoa, StoredSoa, SavedContent, SerialRead, Leading;
    if events != [] {
      var e := events[0];
      var t :| MayHappen(parsers, s, e, t) && MayRun(parsers, t, events[1..], s');
      assert !TouchesSerial(e, zone);
      StepStoresSoa(parsers, s, e, t, zone);
      if SavesSoa(e, zone) { SerialAfter(StoredSoa(s, zone), e.settings.soa); }
      RunKeepsStoredSerial(parsers, t, events[1..], s', zone);
    }
  }

  /** The SOA forms among the events, in order. */
  function SoaForms(events: seq<Event>, zone: string): seq<SoaForm> {
    if events == [] then []
    else (if SavesSoa(events[0], zone) then [events[0].settings.soa] else []) + SoaForms(events[1..], zone)
  }

  /** When nothing fails, the SOA at the end of a run is the first one as the forms saved in it made it, one after the
      other, whatever else was requested between them. */
  lemma {:induction false} CleanRunStoresForms(parsers: Parsers, s: Store, events: seq<Event>, s': Store, zone: string)
    requires zone in s.zones && IsRun(parsers, s, events, s')
    requires forall e :: e in events ==> !ReplacesSoa(e, zone)
    ensures zone in s'.zones && StoredSoa(s', zone) == SavedRun(StoredSoa(s, zone), SoaForms(events, zone))
    decreases |events|
  {
    hide MayHappen, IsDone, Next, ReplacesSoa, StoredSoa, SavedContent;
    if events != [] {
      var e, rest := events[0], events[1..];
      var t := Next(parsers, s, e);
      assert !ReplacesSoa(e, zone);
      NextMayHappen(parsers, s, e);
      StepStoresSoa(parsers, s, e, t, zone);
      CleanRunStoresForms(parsers, t, rest, s', zone);
      if SavesSoa(e, zone) {
        FormIsStored(parsers, s, e, zone);
        assert SoaForms(events, zone) == [e.settings.soa] + SoaForms(rest, zone);
      } else {
        assert SoaForms(events, zone) == SoaForms(rest, zone);
      }
    }
  }

  lemma FormIsStored(parsers: Parsers, s: Store, e: Event, zone: string)
    requires zone in s.zones && SavesSoa(e, zone)
    ensures StoredSoa(Next(parsers, s, e), zone) == Some(SavedContent(StoredSoa(s, zone), e.settings.soa))
  {
    hide MayCreate, CreatedZones, ApexWritten, StoredSoa, SavedContent, AllCanonical, Paired;
    var f := e.settings;
    CreatedMayBe(ApexWritten(s, zone, f), f.created, AllCanonical(f.nameservers));
    SettingsStoreSoa(s, zone, zone, f, Settled(s, zone, f));
  }
}
