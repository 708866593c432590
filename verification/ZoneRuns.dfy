/** Runs of the zone requests, and what every state they reach has in common. */
module ZoneRuns {
  import opened PyText
  import opened Names
  import opened EnclosingZones
  import opened RecordRules
  import opened PanelState
  import opened SyncLaws
  import opened SoaRecord
  import opened ZoneHandlers
  import opened LinkRows

  datatype Event =
    /** `existing` is what the pre-check saw beside the name. */
    | Save(user: User, form: RecordForm, existing: set<string>)
    | Delete(user: User, key: Key, defaultTtl: int)
    | DropZone(zone: string)
    | Settings(user: User, zone: string, settings: SettingsForm)
    | Create(zones: seq<string>, nameservers: seq<string>)

  /** A request the handlers carry out; the others change nothing. */
  ghost predicate IsDone(parsers: Parsers, s: Store, e: Event) {
    match e
    case Save(_, f, existing) => f.Zone() in s.zones && IsSavable(parsers, f, existing)
    case Delete(_, k, _) => k.zone in s.zones && IsName(k.name) && k.rtype != "SOA" && k.rtype !in MANAGED_TYPES
    case DropZone(zone) => zone in s.zones
    case Settings(user, zone, f) =>
      && zone in s.zones
      && (forall z :: z in AllCanonical(f.ticked) ==> z in Selectable(s.zones, user, zone))
      && (forall z :: z in f.created ==> IsCanonical(z))
    case Create(zones, _) => forall z :: z in zones ==> IsCanonical(z)
  }

  ghost function Next(parsers: Parsers, s: Store, e: Event): Store {
    match e
    case Save(user, f, _) => Saved(parsers, s, user, f)
    case Delete(user, k, ttl) => Deleted(parsers, s, user, k, ttl)
    case DropZone(zone) => ZoneDeleted(s, zone)
    case Settings(_, zone, f) => Settled(s, zone, f)
    case Create(zones, nameservers) => CreatedZones(s, zones, nameservers)
  }

  /** `events` can happen one after the other from `s`, and lead to `s'`. */
  ghost predicate IsRun(parsers: Parsers, s: Store, events: seq<Event>, s': Store)
    decreases |events|
  {
    if events == [] then s' == s
    else IsDone(parsers, s, events[0]) && IsRun(parsers, Next(parsers, s, events[0]), events[1..], s')
  }

  // ----- names are names, and sets and pairings belong to zones -----

  lemma SyncStaysStored(parsers: Parsers, s: Store, user: User, a: SyncArgs)
    requires IsStored(s)
    ensures IsStored(CleanSync(parsers, s, user, a))
  {
    hide Wanted, PtrSet, Answers, Enclosing, LinkTo, CanEdit;
    var wanted := Wanted(parsers, s, user, a);
    forall p | p in wanted ensures wanted[p].reverseZone in s.zones {
      WantedIs(parsers, s, user, a, p);
      PlacementFits(s, a.owner.zone, p);
    }
  }

  lemma SaveStaysStored(parsers: Parsers, s: Store, user: User, f: RecordForm)
    requires IsStored(s) && f.Zone() in s.zones
    ensures IsStored(Saved(parsers, s, user, f))
  {
    hide CleanSync, AreNames, Canonical, AbsoluteName, ValidTtl, Fields, RecordsOf, AllCanonical;
    var written := Written(s, f);
    var retired := CleanSync(parsers, written, user, Retire(f.OldKey(), f.Ttl()));
    assert IsStored(written);
    SyncStaysStored(parsers, written, user, Retire(f.OldKey(), f.Ttl()));
    SyncStaysStored(parsers, retired, user, f.Sync());
    SyncStaysStored(parsers, written, user, f.Sync());
  }

  lemma DeleteStaysStored(parsers: Parsers, s: Store, user: User, k: Key, ttl: int)
    requires IsStored(s)
    ensures IsStored(Deleted(parsers, s, user, k, ttl))
  {
    hide CleanSync, AreNames;
    SyncStaysStored(parsers, Without(s, k), user, Retire(k, ttl));
  }

  lemma {:induction false} CreatedStaysStored(s: Store, zones: seq<string>, nameservers: seq<string>)
    requires IsStored(s) && forall z :: z in zones ==> IsCanonical(z)
    ensures IsStored(CreatedZones(s, zones, nameservers)) && s.zones <= CreatedZones(s, zones, nameservers).zones
    ensures forall z :: z in zones && z != "" ==> z in CreatedZones(s, zones, nameservers).zones
    decreases |zones|
  {
    hide IsCanonical, RecordsOf;
    if zones != [] {
      var n := |zones| - 1;
      CreatedStaysStored(s, zones[..n], nameservers);
      assert forall z :: z in zones ==> z in zones[..n] || z == zones[n];
    }
  }

  lemma SettledStaysStored(parsers: Parsers, s: Store, user: User, zone: string, f: SettingsForm)
    requires IsStored(s) && IsDone(parsers, s, Settings(user, zone, f))
    ensures IsStored(Settled(s, zone, f))
  {
    hide AreNames, CreatedZones, Selectable, SavedContent, AllCanonical, RecordsOf, StoredSoa, IsCanonical;
    var apex := ApexWritten(s, zone, f);
    CreatedStaysStored(apex, f.created, if f.isSlave then [] else AllCanonical(f.nameservers));
    SelectableAreZones(s, user, zone, f);
  }

  /** Every zone a settings form may name is one that exists or is being created. */
  lemma SelectableAreZones(s: Store, user: User, zone: string, f: SettingsForm)
    requires forall z :: z in AllCanonical(f.ticked) ==> z in Selectable(s.zones, user, zone)
    requires forall z :: z in f.created ==> IsCanonical(z)
    ensures forall z :: z in AllCanonical(f.ticked + f.created) ==> z in s.zones || z in f.created
  {
    hide IsReverseZone, Canonical, CanEdit;
    var all := AllCanonical(f.ticked + f.created);
    forall i | 0 <= i < |all| ensures all[i] in s.zones || all[i] in f.created {
      if i < |f.ticked| { assert all[i] == AllCanonical(f.ticked)[i] && all[i] in AllCanonical(f.ticked); }
      else { assert all[i] == Canonical(f.created[i - |f.ticked|]) && f.created[i - |f.ticked|] in f.created; }
    }
  }

  lemma StepStaysStored(parsers: Parsers, s: Store, e: Event)
    requires IsStored(s) && IsDone(parsers, s, e)
    ensures IsStored(Next(parsers, s, e))
  {
    hide AreNames, Saved, Deleted, Settled, CreatedZones, Selectable, AllCanonical, IsCanonical;
    match e
    case Save(user, f, _) => SaveStaysStored(parsers, s, user, f);
    case Delete(user, k, ttl) => DeleteStaysStored(parsers, s, user, k, ttl);
    case DropZone(zone) => DropZoneStaysStored(s, zone);
    case Settings(user, zone, f) => SettledStaysStored(parsers, s, user, zone, f);
    case Create(zones, nameservers) => CreatedStaysStored(s, zones, nameservers);
  }

  lemma DropZoneStaysStored(s: Store, zone: string)
    requires IsStored(s)
    ensures IsStored(ZoneDeleted(s, zone))
  {
    hide IsName;
  }

  // ----- the links stay in step -----

  lemma {:induction false} CreatedMayBe(s: Store, zones: seq<string>, nameservers: seq<string>)
    ensures MayCreate(s, zones, CreatedZones(s, zones, nameservers))
    decreases |zones|
  {
    hide CreatedZone, Lookup;
    if zones != [] {
      var n := |zones| - 1;
      CreatedMayBe(s, zones[..n], nameservers);
      CreatedZoneKeeps(CreatedZones(s, zones[..n], nameservers), zones[n], nameservers);
      assert forall z :: z in zones <==> z in zones[..n] || z == zones[n];
    }
  }

  lemma SettingsKeepLinks(parsers: Parsers, s: Store, zone: string, f: SettingsForm, forward: set<Key>,
                          reverse: set<Key>)
    requires LinksHoldExcept(parsers, s, forward, reverse) && forall z :: z in f.created ==> IsCanonical(z)
    ensures LinksHoldExcept(parsers, Settled(s, zone, f), forward, reverse)
  {
    hide LinksHoldExcept, MayCreate, CreatedZones, ApexWritten, AllCanonical, IsCanonical, Paired;
    var apex := ApexWritten(s, zone, f);
    var nameservers := if f.isSlave then [] else AllCanonical(f.nameservers);
    var created := CreatedZones(apex, f.created, nameservers);
    ApexKeeps(parsers, s, zone, f, forward, reverse);
    CreatedMayBe(apex, f.created, nameservers);
    CreateKeeps(parsers, apex, f.created, created, forward, reverse);
    PairedKeeps(parsers, created, zone, AllCanonical(f.ticked + f.created), forward, reverse);
  }

  /** The forward sets a request settles when its calls succeed. */
  function Settles(e: Event): set<Key> {
    match e
    case Save(_, f, _) => Touched(f)
    case Delete(_, k, _) => {k}
    case _ => {}
  }

  /** Every request keeps what holds of the links, and settles the forward sets it changed, stale or not. */
  lemma StepSettles(parsers: Parsers, s: Store, e: Event, forward: set<Key>, reverse: set<Key>)
    requires LinksHoldExcept(parsers, s, forward, reverse) && IsDone(parsers, s, e)
    ensures LinksHoldExcept(parsers, Next(parsers, s, e), forward - Settles(e), reverse)
  {
    hide LinksHoldExcept, Saved, Deleted, ZoneDeleted, Settled, CreatedZones, Selectable, AllCanonical, IsCanonical,
         Touched, MayCreate;
    assert forward - {} == forward;
    match e
    case Save(user, f, _) => SaveSettles(parsers, s, user, f, forward, reverse);
    case Delete(user, k, ttl) => DeleteSettles(parsers, s, user, k, ttl, forward, reverse);
    case DropZone(zone) => DropZoneKeeps(parsers, s, zone, forward, reverse);
    case Settings(_, zone, f) => SettingsKeepLinks(parsers, s, zone, f, forward, reverse);
    case Create(zones, nameservers) =>
      CreatedMayBe(s, zones, nameservers);
      CreateKeeps(parsers, s, zones, CreatedZones(s, zones, nameservers), forward, reverse);
  }

  /** Every request keeps the links in step. */
  lemma StepKeepsLinks(parsers: Parsers, s: Store, e: Event)
    requires LinksHold(parsers, s) && IsDone(parsers, s, e)
    ensures LinksHold(parsers, Next(parsers, s, e))
  {
    hide LinksHoldExcept, IsStored, IsDone, Next, Settles;
    StepStaysStored(parsers, s, e);
    StepSettles(parsers, s, e, {}, {});
    assert {} - Settles(e) == {};
  }

  /**
   In every state a run of saves, renames, deletes, settings and new zones reaches, each link ties a live,
   enabled address set listing its address to a PTR set that answers with exactly the forward name.
   */
  lemma {:induction false} RunKeepsLinks(parsers: Parsers, s: Store, events: seq<Event>, s': Store)
    requires LinksHold(parsers, s) && IsRun(parsers, s, events, s')
    ensures LinksHold(parsers, s')
    decreases |events|
  {
    hide LinksHold, IsDone, Next;
    if events != [] {
      StepKeepsLinks(parsers, s, events[0]);
      RunKeepsLinks(parsers, Next(parsers, s, events[0]), events[1..], s');
    }
  }

  lemma EmptyStoreHolds(parsers: Parsers)
    ensures LinksHold(parsers, Store({}, map[], map[], {}))
  {
  }
}
