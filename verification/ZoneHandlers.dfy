/** The requests that change zones and records, and what each does when nothing fails. */
module ZoneHandlers {
  import opened PyText
  import opened PyNumbers
  import opened Names
  import opened RecordRules
  import opened SoaRecord
  import opened PanelState
  import opened ReverseSync
  import opened SyncLaws

  /** `validate_ttl`. */
  function ValidTtl(text: string): (ttl: Option<int>)
    ensures ttl.Some? ==> 0 <= ttl.value <= 2147483647
  {
    match ParseInt(text)
    case None => None
    case Some(n) => if 0 <= n <= 2147483647 then Some(n) else None
  }

  /** The record form as posted, the types in upper case and trimmed. */
  datatype RecordForm = RecordForm(zoneId: string, rtype: string, name: string, ttl: string, content: string,
                                   disabled: bool, comment: string, syncPtr: bool,
                                   originalName: string, originalType: string)
  {
    function Zone(): string { Canonical(zoneId) }

    function Name(): string { AbsoluteName(if name == "" then "@" else name, Zone()) }

    function Key(): Key { PanelState.Key(Zone(), Name(), rtype) }

    function OldKey(): Key { PanelState.Key(Zone(), AbsoluteName(originalName, Zone()), originalType) }

    function Lines(): seq<string> { Fields(content, false) }

    function Ttl(): int { ValidTtl(ttl).GetOr(0) }

    predicate IsRename() {
      originalName != "" && originalType != "" && OldKey() != Key()
    }

    function Set(): RRset { RRset(Ttl(), RecordsOf(Lines(), disabled), comment) }

    function Sync(): SyncArgs { SyncArgs(Key(), Ttl(), Lines(), syncPtr && !disabled) }
  }

  datatype Outcome =
    | Forbidden
    | Refused
    /** A call to the server failed before the reverse side was reached. */
    | Failed
    /** The change was made; `prechecked` if the zone could be listed first, `clean` if the reverse side is in step. */
    | Done(prechecked: bool, clean: bool)

  /** The other types at a name. */
  function TypesBeside(s: Store, k: Key): set<string> {
    set j | j in s.rrsets && j.zone == k.zone && j.name == k.name && j.rtype != k.rtype :: j.rtype
  }

  // ----- what the requests do when nothing fails -----

  function Without(s: Store, k: Key): Store {
    s.(rrsets := s.rrsets - {k})
  }

  function With(s: Store, k: Key, set_: RRset): Store {
    s.(rrsets := s.rrsets[k := set_])
  }

  /** `forget_ptr`. */
  function Forgotten(s: Store, ptr: string): Store {
    s.(links := s.links - {ptr})
  }

  function AllCanonical(contents: seq<string>): seq<string> {
    seq(|contents|, i requires 0 <= i < |contents| => Canonical(contents[i]))
  }

  /** `_unlink_edited_ptr`: a PTR set that no longer answers with the linked name is handed back. */
  function HandedBack(s: Store, ptr: string, contents: seq<string>): Store {
    if ptr !in s.links || AllCanonical(contents) == [s.links[ptr].forwardName] then s else Forgotten(s, ptr)
  }

  /** The forward part of a save: the old set goes, the new one is written. */
  function Written(s: Store, f: RecordForm): Store {
    With(if f.IsRename() then Without(s, f.OldKey()) else s, f.Key(), f.Set())
  }

  /** The reverse part: the old name's PTRs are retired first. */
  ghost function SyncedReverse(parsers: Parsers, s: Store, user: User, f: RecordForm): Store {
    var retired := if f.IsRename() then CleanSync(parsers, s, user, Retire(f.OldKey(), f.Ttl())) else s;
    CleanSync(parsers, retired, user, f.Sync())
  }

  /** `_sync_reverse`, for the forms that call it. */
  ghost function Resynced(parsers: Parsers, s: Store, user: User, f: RecordForm): Store {
    if f.rtype in ADDRESS_TYPES || f.IsRename() then SyncedReverse(parsers, s, user, f) else s
  }

  /** What a form does to the links of PTR sets that it edits or moves. */
  function Unlinked(s: Store, f: RecordForm): Store {
    var s' := if f.rtype == "PTR" then HandedBack(s, f.Name(), f.Lines()) else s;
    if f.IsRename() && f.originalType == "PTR" then Forgotten(s', f.OldKey().name) else s'
  }

  /** What follows the forward part of a save. */
  ghost function Finished(parsers: Parsers, written: Store, user: User, f: RecordForm): Store {
    Unlinked(Resynced(parsers, written, user, f), f)
  }

  ghost function Saved(parsers: Parsers, s: Store, user: User, f: RecordForm): Store {
    Finished(parsers, Written(s, f), user, f)
  }

  ghost function Deleted(parsers: Parsers, s: Store, user: User, k: Key, ttl: int): Store {
    var without := Without(s, k);
    if k.rtype in ADDRESS_TYPES then CleanSync(parsers, without, user, Retire(k, ttl))
    else if k.rtype == "PTR" then Forgotten(without, k.name)
    else without
  }

  /** Deleting a zone, and `forget_zone` after it. */
  function ZoneDeleted(s: Store, zone: string): Store {
    Store(s.zones - {zone},
          map k | k in s.rrsets && k.zone != zone :: s.rrsets[k],
          map p | p in s.links && s.links[p].forwardZone != zone && s.links[p].reverseZone != zone :: s.links[p],
          set p | p in s.pairs && p.0 != zone && p.1 != zone)
  }

  // ----- what they may do when calls on the reverse side fail -----

  /** The first half of `_sync_reverse`: the set that was replaced is retired. */
  ghost predicate MayRetire(parsers: Parsers, s: Store, user: User, a: SyncArgs, previous: Option<Key>, s': Store) {
    if previous.Some? && previous.value != a.owner then MaySync(parsers, s, user, Retire(previous.value, a.ttl), s')
    else s' == s
  }

  ghost predicate MayResync(parsers: Parsers, s: Store, user: User, a: SyncArgs, previous: Option<Key>, s': Store) {
    exists t :: MayRetire(parsers, s, user, a, previous, t) && MaySync(parsers, t, user, a, s')
  }

  function Previous(f: RecordForm): Option<Key> {
    if f.IsRename() then Some(f.OldKey()) else None
  }

  ghost predicate MayFollow(parsers: Parsers, s: Store, user: User, f: RecordForm, s': Store) {
    if f.rtype in ADDRESS_TYPES || f.IsRename() then MayResync(parsers, s, user, f.Sync(), Previous(f), s') else s' == s
  }

  /** What may follow the forward part of a save. */
  ghost predicate MayFinish(parsers: Parsers, written: Store, user: User, f: RecordForm, s': Store) {
    exists t :: MayFollow(parsers, written, user, f, t) && s' == Unlinked(t, f)
  }

  /** What a record's deletion may leave once the record is gone. */
  ghost predicate MayDelete(parsers: Parsers, s: Store, user: User, k: Key, ttl: int, s': Store) {
    var without := Without(s, k);
    if k.rtype in ADDRESS_TYPES then MaySync(parsers, without, user, Retire(k, ttl), s')
    else s' == if k.rtype == "PTR" then Forgotten(without, k.name) else without
  }

  /** Some of the named zones are new, seeded with SOA and NS sets at their apex; nothing else has changed. */
  ghost predicate MayCreate(s: Store, zones: seq<string>, s': Store) {
    && s'.links == s.links && s'.pairs == s.pairs
    && s.zones <= s'.zones && (forall z :: z in s'.zones ==> z in s.zones || (z in zones && z != ""))
    && forall k: Key :: Lookup(s', k) != Lookup(s, k) ==>
         k.zone in s'.zones - s.zones && k.name == k.zone && k.rtype in {"SOA", "NS"}
  }

  // ----- the requests -----

  /** Whether the form can be saved over a zone where `existing` are the other types at the name. */
  predicate IsSavable(parsers: Parsers, f: RecordForm, existing: set<string>) {
    && f.rtype !in MANAGED_TYPES && ValidTtl(f.ttl).Some?
    && IsAcceptable(parsers, f.Name(), f.rtype, f.Lines(), f.Zone(), existing)
  }

  method SaveRecord(panel: Panel, parsers: Parsers, user: User, f: RecordForm)
    returns (outcome: Outcome, existing: set<string>)
    modifies panel
    ensures outcome.Forbidden? <==> !CanEdit(user, f.Zone())
    ensures outcome.Forbidden? || outcome.Refused? ==> panel.State() == old(panel.State())
    ensures outcome.Refused? ==> !IsSavable(parsers, f, existing)
    ensures outcome.Failed? ==> IsSavable(parsers, f, existing) && panel.failures > old(panel.failures)
    ensures CanEdit(user, f.Zone()) && f.rtype !in MANAGED_TYPES && panel.failures == old(panel.failures) ==>
      existing == TypesBeside(old(panel.State()), f.Key())
    ensures outcome.Failed? ==>
      || panel.State() == old(panel.State())
      || (f.Zone() in old(panel.zones) && f.IsRename() && panel.State() == Without(old(panel.State()), f.OldKey()))
    ensures outcome.Done? ==> f.Zone() in old(panel.zones) && IsSavable(parsers, f, existing)
    ensures outcome.Done? ==> (outcome.prechecked && outcome.clean <==> panel.failures == old(panel.failures))
    ensures outcome.Done? && outcome.prechecked ==> existing == TypesBeside(old(panel.State()), f.Key())
    ensures outcome.Done? ==> MayFinish(parsers, Written(old(panel.State()), f), user, f, panel.State())
    ensures outcome.Done? && f.rtype in {"A", "AAAA"} && !(f.syncPtr && !f.disabled) ==>
      Owned(panel.State(), f.Key()) == {}
    ensures outcome.Done? && f.IsRename() ==> Owned(panel.State(), f.OldKey()) == {}
    ensures outcome.Done? && outcome.clean ==> panel.State() == Saved(parsers, old(panel.State()), user, f)
  {
    hide Canonical, AbsoluteName, ValidTtl, Fields, CanEdit, TypesBeside, Finished, IsAcceptable, RecordsOf, MayFinish;
    existing := {};
    if !CanEdit(user, f.Zone()) { return Forbidden, {}; }
    if f.rtype in MANAGED_TYPES { return Refused, {}; }
    var listed := panel.Responds(f.Zone() in panel.zones);
    if listed { existing := TypesBeside(panel.State(), f.Key()); }
    FormNamesAreCanonical(f);
    var problems := ValidateRRset(parsers, f.Name(), f.rtype, f.Lines(), f.Zone(), existing);
    if ValidTtl(f.ttl).None? || problems != [] { return Refused, existing; }
    if f.IsRename() {
      var ok := panel.DeleteRRset(f.OldKey());
      if !ok { return Failed, existing; }
    }
    var ok := panel.ReplaceRRset(f.Key(), f.Ttl(), f.Lines(), f.disabled, f.comment);
    if !ok { return Failed, existing; }
    var clean := FinishSave(panel, parsers, user, f);
    return Done(listed, clean), existing;
  }

  lemma FormNamesAreCanonical(f: RecordForm)
    ensures IsCanonical(f.Zone()) && IsCanonical(f.Name()) && IsCanonical(f.OldKey().name)
  {
    hide Canonical, AbsoluteName;
    CanonicalIdempotent(f.zoneId);
    AbsoluteIsCanonical(if f.name == "" then "@" else f.name, f.Zone());
    AbsoluteIsCanonical(f.originalName, f.Zone());
  }

  /** The reverse side of a save, and handing edited PTRs back. */
  method FinishSave(panel: Panel, parsers: Parsers, user: User, f: RecordForm) returns (clean: bool)
    modifies panel`rrsets, panel`links, panel`failures
    ensures clean <==> panel.failures == old(panel.failures)
    ensures panel.failures >= old(panel.failures)
    ensures MayFinish(parsers, old(panel.State()), user, f, panel.State())
    ensures f.rtype in {"A", "AAAA"} && !(f.syncPtr && !f.disabled) ==> Owned(panel.State(), f.Key()) == {}
    ensures f.IsRename() ==> Owned(panel.State(), f.OldKey()) == {}
    ensures clean ==> panel.State() == Finished(parsers, old(panel.State()), user, f)
  {
    hide Canonical, AbsoluteName, ValidTtl, Fields, CleanSync, HandedBack, MayResync;
    ghost var s := panel.State();
    clean := true;
    var previous := Previous(f);
    if f.rtype in ADDRESS_TYPES || previous.Some? {
      clean := SyncReverse(panel, parsers, user, f.Sync(), previous);
    }
    ghost var t := panel.State();
    assert MayFollow(parsers, s, user, f, t);
    FormNamesAreCanonical(f);
    if f.rtype == "PTR" { UnlinkEditedPtr(panel, f.Name(), f.Lines()); }
    if previous.Some? && previous.value.rtype == "PTR" {
      var found := ForgetPtr(panel, previous.value.name);
    }
    UnlinkedOwns(t, f);
  }

  lemma UnlinkedOwns(s: Store, f: RecordForm)
    ensures forall k :: Owned(Unlinked(s, f), k) <= Owned(s, k)
  {
    hide Canonical, AbsoluteName, Fields, AllCanonical;
  }

  /** Brings the PTR side of a forward record up to date, retiring the set it replaced first. */
  method SyncReverse(panel: Panel, parsers: Parsers, user: User, a: SyncArgs, previous: Option<Key>)
    returns (clean: bool)
    modifies panel`rrsets, panel`links, panel`failures
    ensures clean <==> panel.failures == old(panel.failures)
    ensures panel.failures >= old(panel.failures)
    ensures MayResync(parsers, old(panel.State()), user, a, previous, panel.State())
    ensures !IsSyncing(a) ==> Owned(panel.State(), a.owner) == {}
    ensures previous.Some? && previous.value != a.owner ==> Owned(panel.State(), previous.value) == {}
    ensures clean ==>
      var s := old(panel.State());
      var retired := if previous.Some? && previous.value != a.owner
                     then CleanSync(parsers, s, user, Retire(previous.value, a.ttl)) else s;
      panel.State() == CleanSync(parsers, retired, user, a)
  {
    hide CleanSync, Synced;
    ghost var s := panel.State();
    clean := true;
    if previous.Some? && previous.value != a.owner {
      var raised, stale := panel.SyncRecord(parsers, user, Retire(previous.value, a.ttl));
      if raised {
        // A retirement never lists the zones.
        assert false;
        return false;
      }
      clean := stale.failed == 0;
      RetiredOwnsNothing(parsers, s, user, previous.value, a.ttl, panel.State(), Members(stale.written),
                         Members(stale.removed));
    }
    ghost var t := panel.State();
    assert MayRetire(parsers, s, user, a, previous, t);
    var raised, result := panel.SyncRecord(parsers, user, a);
    clean := clean && !raised && result.failed == 0;
    if !raised {
      SyncOwns(parsers, t, user, a, panel.State(), Members(result.written), Members(result.removed));
    }
  }

  /** A sync leaves its record set owning nothing it does not want, and gives other record sets nothing. */
  lemma SyncOwns(parsers: Parsers, s: Store, user: User, a: SyncArgs, s': Store, written: set<string>,
                 gone: set<string>)
    requires Synced(parsers, s, user, a, s', written, gone)
    ensures Owned(s', a.owner) <= Wanted(parsers, s, user, a).Keys
    ensures forall k :: k != a.owner ==> Owned(s', k) <= Owned(s, k)
    ensures !IsSyncing(a) ==> Owned(s', a.owner) == {}
  {
    hide Targets, Answers, PtrSet;
  }

  lemma RetiredOwnsNothing(parsers: Parsers, s: Store, user: User, owner: Key, ttl: int, s': Store,
                           written: set<string>, gone: set<string>)
    requires Synced(parsers, s, user, Retire(owner, ttl), s', written, gone)
    ensures Owned(s', owner) == {}
  {
    hide Synced;
    SyncOwns(parsers, s, user, Retire(owner, ttl), s', written, gone);
  }

  method ForgetPtr(panel: Panel, ptr: string) returns (found: bool)
    modifies panel`links
    ensures panel.State() == Forgotten(old(panel.State()), Canonical(ptr))
    ensures found <==> Canonical(ptr) in old(panel.links)
  {
    found := Canonical(ptr) in panel.links;
    if found { panel.links := panel.links - {Canonical(ptr)}; }
  }

  method UnlinkEditedPtr(panel: Panel, ptr: string, contents: seq<string>)
    modifies panel`links
    ensures panel.State() == HandedBack(old(panel.State()), Canonical(ptr), contents)
  {
    hide Canonical;
    var name := Canonical(ptr);
    if name !in panel.links || AllCanonical(contents) == [panel.links[name].forwardName] { return; }
    CanonicalIdempotent(ptr);
    var found := ForgetPtr(panel, name);
  }

  method DeleteRecord(panel: Panel, parsers: Parsers, user: User, zoneId: string, name: string, rtype: string,
                      defaultTtl: int)
    returns (outcome: Outcome)
    modifies panel
    ensures var k := Key(Canonical(zoneId), AbsoluteName(name, Canonical(zoneId)), rtype);
      && (outcome.Forbidden? <==> !CanEdit(user, k.zone))
      && (outcome.Refused? <==> CanEdit(user, k.zone) && (rtype == "SOA" || rtype in MANAGED_TYPES))
      && (!outcome.Done? ==> panel.State() == old(panel.State()))
      && (outcome.Failed? ==> panel.failures > old(panel.failures))
      && (outcome.Done? ==> (outcome.clean <==> panel.failures == old(panel.failures)))
      && (outcome.Done? ==> k.zone in old(panel.zones))
      && (outcome.Done? ==> MayDelete(parsers, old(panel.State()), user, k, defaultTtl, panel.State()))
      && (outcome.Done? && outcome.clean ==> panel.State() == Deleted(parsers, old(panel.State()), user, k, defaultTtl))
      && (outcome.Done? && k.rtype in {"A", "AAAA"} ==> Owned(panel.State(), k) == {})
  {
    hide Canonical, AbsoluteName, CanEdit, CleanSync, Synced;
    var k := Key(Canonical(zoneId), AbsoluteName(name, Canonical(zoneId)), rtype);
    if !CanEdit(user, k.zone) { return Forbidden; }
    if rtype == "SOA" || rtype in MANAGED_TYPES { return Refused; }
    var ok := panel.DeleteRRset(k);
    if !ok { return Failed; }
    var clean := true;
    if rtype in ADDRESS_TYPES {
      ghost var s := panel.State();
      clean := SyncReverse(panel, parsers, user, Retire(k, defaultTtl), None);
      assert MayRetire(parsers, s, user, Retire(k, defaultTtl), None, s);
    } else if rtype == "PTR" {
      AbsoluteIsCanonical(name, k.zone);
      var found := ForgetPtr(panel, k.name);
    }
    return Done(true, clean);
  }

  method DeleteZone(panel: Panel, user: User, zoneId: string, confirm: string) returns (outcome: Outcome)
    modifies panel
    ensures outcome.Forbidden? <==> !user.isOperator
    ensures outcome.Refused? <==> user.isOperator && Canonical(confirm) != Canonical(zoneId)
    ensures !outcome.Done? ==> panel.State() == old(panel.State())
    ensures outcome.Failed? <==> panel.failures > old(panel.failures)
    ensures outcome.Done? ==>
      Canonical(zoneId) in old(panel.zones) && panel.State() == ZoneDeleted(old(panel.State()), Canonical(zoneId))
  {
    hide Canonical;
    if !user.isOperator { return Forbidden; }
    var zone := Canonical(zoneId);
    if Canonical(confirm) != zone { return Refused; }
    var ok := panel.Responds(zone in panel.zones);
    if !ok { return Failed; }
    panel.zones := panel.zones - {zone};
    panel.rrsets := map k | k in panel.rrsets && k.zone != zone :: panel.rrsets[k];
    CanonicalIdempotent(zoneId);
    ForgetZone(panel, zone);
    return Done(true, true);
  }

  /** `forget_zone`: the pairings first, then the links. */
  method ForgetZone(panel: Panel, zone: string)
    modifies panel`links, panel`pairs
    ensures panel.pairs == set p | p in old(panel.pairs) && p.0 != Canonical(zone) && p.1 != Canonical(zone)
    ensures panel.links == map p | p in old(panel.links)
        && old(panel.links)[p].forwardZone != Canonical(zone) && old(panel.links)[p].reverseZone != Canonical(zone)
      :: old(panel.links)[p]
  {
    var zoneC := Canonical(zone);
    panel.pairs := set p | p in panel.pairs && p.0 != zoneC && p.1 != zoneC;
    panel.links := map p | p in panel.links
        && panel.links[p].forwardZone != zoneC && panel.links[p].reverseZone != zoneC :: panel.links[p];
  }

  // ----- zone settings and new zones -----

  /** The settings form: the zone's own NS and SOA unless it is a slave, and its reverse zones, ticked and new. */
  datatype SettingsForm = SettingsForm(isSlave: bool, nameservers: seq<string>, nsTtl: int, soa: SoaForm, soaTtl: int,
                                       ticked: seq<string>, created: seq<string>)

  predicate IsReverseZone(name: string) {
    EndsWith(Canonical(name), "in-addr.arpa.") || EndsWith(Canonical(name), "ip6.arpa.")
  }

  /** `_selectable_reverse_zones`. */
  function Selectable(zones: set<string>, user: User, zone: string): set<string> {
    set z | z in zones && IsReverseZone(z) && Canonical(z) != zone && CanEdit(user, z)
  }

  /** The first record of the zone's SOA set. */
  function StoredSoa(s: Store, zone: string): Option<string> {
    match Lookup(s, Key(zone, zone, "SOA"))
    case None => None
    case Some(found) => if found.records == [] then None else Some(found.records[0].content)
  }

  function WithNameservers(s: Store, zone: string, f: SettingsForm): Store {
    With(s, Key(zone, zone, "NS"), RRset(f.nsTtl, RecordsOf(AllCanonical(f.nameservers), false), ""))
  }

  function ApexWritten(s: Store, zone: string, f: SettingsForm): Store {
    var soa := RRset(f.soaTtl, RecordsOf([SavedContent(StoredSoa(s, zone), f.soa)], false), "");
    if f.isSlave then s else With(WithNameservers(s, zone, f), Key(zone, zone, "SOA"), soa)
  }

  /** `set_linked_reverse_zones`: the zone's pairings become exactly these. */
  function Paired(s: Store, zone: string, reverse: seq<string>): Store {
    s.(pairs := (set p | p in s.pairs && p.0 != zone) + (set r | r in reverse && r != "" :: (zone, r)))
  }

  function Settled(s: Store, zone: string, f: SettingsForm): Store {
    var apex := ApexWritten(s, zone, f);
    Paired(CreatedZones(apex, f.created, if f.isSlave then [] else AllCanonical(f.nameservers)), zone,
           AllCanonical(f.ticked + f.created))
  }

  /** What saving settings may leave when zones could not be created. */
  ghost predicate MaySettle(s: Store, zone: string, f: SettingsForm, s': Store) {
    exists t ::
      MayCreate(ApexWritten(s, zone, f), f.created, t) && s' == Paired(t, zone, AllCanonical(f.ticked + f.created))
  }

  method SetLinkedReverseZones(panel: Panel, zone: string, reverse: seq<string>)
    returns (added: set<string>, removed: set<string>)
    modifies panel`pairs
    ensures panel.State() == Paired(old(panel.State()), Canonical(zone), AllCanonical(reverse))
    ensures added == (set r | r in AllCanonical(reverse) && r != "") - PairedZones(old(panel.State()), Canonical(zone))
    ensures removed ==
      PairedZones(old(panel.State()), Canonical(zone)) - (set r | r in AllCanonical(reverse) && r != "")
  {
    hide Canonical, AllCanonical;
    var zoneC := Canonical(zone);
    var wanted := set r | r in AllCanonical(reverse) && r != "";
    var existing := PairedZones(panel.State(), zoneC);
    added, removed := wanted - existing, existing - wanted;
    panel.pairs := panel.pairs + (set r | r in added :: (zoneC, r));
    panel.pairs := panel.pairs - (set r | r in removed :: (zoneC, r));
  }

  lemma CanonicalInTurn(a: seq<string>, b: seq<string>)
    ensures AllCanonical(AllCanonical(a) + b) == AllCanonical(a + b)
  {
    hide Canonical;
    var x, y := AllCanonical(AllCanonical(a) + b), AllCanonical(a + b);
    forall i | 0 <= i < |x| ensures x[i] == y[i] {
      if i < |a| { CanonicalIdempotent(a[i]); }
    }
  }

  /** Creates each zone that is not there yet; a failure leaves that one out. */
  method CreateReverseZones(panel: Panel, zones: seq<string>, nameservers: seq<string>) returns (clean: bool)
    modifies panel`zones, panel`rrsets, panel`failures
    ensures clean <==> panel.failures == old(panel.failures)
    ensures panel.failures >= old(panel.failures)
    ensures MayCreate(old(panel.State()), zones, panel.State())
    ensures clean ==> panel.State() == CreatedZones(old(panel.State()), zones, nameservers)
  {
    hide CreatedZone;
    clean := true;
    ghost var s := panel.State();
    for k := 0 to |zones|
      invariant MayCreate(s, zones[..k], panel.State())
      invariant clean <==> panel.failures == old(panel.failures)
      invariant panel.failures >= old(panel.failures)
      invariant clean ==> panel.State() == CreatedZones(s, zones[..k], nameservers)
    {
      assert zones[..k + 1][..k] == zones[..k];
      CreatedZoneKeeps(panel.State(), zones[k], nameservers);
      if zones[k] != "" && zones[k] !in panel.zones {
        var ok := panel.CreateZone(zones[k], nameservers);
        clean := clean && ok;
      }
    }
    assert zones[..|zones|] == zones;
  }

  lemma CreatedZoneKeeps(s: Store, zone: string, nameservers: seq<string>)
    ensures var t := CreatedZone(s, zone, nameservers); t.links == s.links && t.pairs == s.pairs
    ensures zone == "" || zone in s.zones ==> CreatedZone(s, zone, nameservers) == s
    ensures MayCreate(s, [zone], CreatedZone(s, zone, nameservers))
    ensures zone != "" ==> zone in CreatedZone(s, zone, nameservers).zones
  {
  }

  method SaveSettings(panel: Panel, user: User, zoneId: string, f: SettingsForm) returns (outcome: Outcome)
    modifies panel
    ensures outcome.Forbidden? <==> !CanEdit(user, Canonical(zoneId))
    ensures outcome.Forbidden? || outcome.Refused? ==> panel.State() == old(panel.State())
    ensures outcome.Refused? ==>
      || (!f.isSlave && f.nameservers == []) || (f.created != [] && !user.isOperator)
      || (exists z :: z in AllCanonical(f.ticked) && z !in Selectable(old(panel.zones), user, Canonical(zoneId)))
      || panel.failures > old(panel.failures)
    ensures panel.failures == old(panel.failures) ==> !outcome.Failed? && (outcome.Done? ==> outcome.clean)
    ensures outcome.Done? ==>
      var zone := Canonical(zoneId);
      && zone in old(panel.zones) && (f.isSlave || f.nameservers != [])
      && (forall z :: z in AllCanonical(f.ticked) ==> z in Selectable(old(panel.zones), user, zone))
      && (f.created != [] ==> user.isOperator)
    ensures outcome.Failed? && panel.State() != old(panel.State()) ==>
      var zone := Canonical(zoneId);
      && zone in old(panel.zones) && !f.isSlave && f.nameservers != []
      && (forall z :: z in AllCanonical(f.ticked) ==> z in Selectable(old(panel.zones), user, zone))
      && (f.created != [] ==> user.isOperator)
      && panel.State() == WithNameservers(old(panel.State()), zone, f)
    ensures outcome.Done? ==> MaySettle(old(panel.State()), Canonical(zoneId), f, panel.State())
    ensures outcome.Done? && outcome.clean ==> panel.State() == Settled(old(panel.State()), Canonical(zoneId), f)
  {
    hide Canonical, CanEdit, IsReverseZone, SavedContent, RecordsOf, CreatedZones, AllCanonical;
    var zone := Canonical(zoneId);
    if !CanEdit(user, zone) { return Forbidden; }
    var ok := panel.Responds(zone in panel.zones);
    if !ok { return Failed; }
    if !f.isSlave && f.nameservers == [] { return Refused; }
    ok := panel.Responds(true);
    var selectable := if ok then Selectable(panel.zones, user, zone) else {};
    if exists z :: z in AllCanonical(f.ticked) && z !in selectable { return Refused; }
    if f.created != [] && !user.isOperator { return Refused; }
    if !f.isSlave {
      var content := SavedContent(StoredSoa(panel.State(), zone), f.soa);
      ok := panel.ReplaceRRset(Key(zone, zone, "NS"), f.nsTtl, AllCanonical(f.nameservers), false, "");
      if !ok { return Failed; }
      ok := panel.ReplaceRRset(Key(zone, zone, "SOA"), f.soaTtl, [content], false, "");
      if !ok { return Failed; }
    }
    var clean := CreateReverseZones(panel, f.created, if f.isSlave then [] else AllCanonical(f.nameservers));
    CanonicalInTurn(f.ticked, f.created);
    CanonicalIdempotent(zoneId);
    var added, removed := SetLinkedReverseZones(panel, zone, AllCanonical(f.ticked) + f.created);
    return Done(true, clean);
  }

  /** The new-zone form: a zone and, beside it, the reverse zones of its networks. */
  method NewZone(panel: Panel, user: User, name: string, nameservers: seq<string>, reverse: seq<string>)
    returns (outcome: Outcome)
    modifies panel
    ensures outcome.Forbidden? <==> !user.isOperator
    ensures !outcome.Done? ==> panel.State() == old(panel.State())
    ensures !outcome.Refused?
    ensures outcome.Failed? ==> panel.failures > old(panel.failures)
    ensures outcome.Done? ==> (outcome.clean <==> panel.failures == old(panel.failures))
    ensures outcome.Done? ==>
      && Canonical(name) !in old(panel.zones) && Canonical(name) in panel.zones
      && MayCreate(old(panel.State()), [Canonical(name)] + reverse, panel.State())
    ensures outcome.Done? && outcome.clean ==>
      panel.State() == CreatedZones(old(panel.State()), [Canonical(name)] + reverse, AllCanonical(nameservers))
  {
    hide Canonical, CreatedZone, AllCanonical;
    if !user.isOperator { return Forbidden; }
    var ns := AllCanonical(nameservers);
    ghost var s := panel.State();
    var ok := panel.CreateZone(Canonical(name), ns);
    if !ok { return Failed; }
    CreatedZoneKeeps(s, Canonical(name), ns);
    var clean := CreateReverseZones(panel, reverse, ns);
    assert forall z :: z in [Canonical(name)] + reverse <==> z == Canonical(name) || z in reverse;
    CreatedInTurn(s, Canonical(name), reverse, ns);
    return Done(true, clean);
  }

  lemma {:induction false} CreatedInTurn(s: Store, zone: string, zones: seq<string>, nameservers: seq<string>)
    ensures CreatedZones(CreatedZone(s, zone, nameservers), zones, nameservers) ==
      CreatedZones(s, [zone] + zones, nameservers)
  {
    hide CreatedZone;
    if zones == [] {
      assert [zone] + [] == [zone];
      assert CreatedZones(s, [zone][..0], nameservers) == s;
    } else {
      CreatedInTurn(s, zone, zones[..|zones| - 1], nameservers);
      assert ([zone] + zones)[..|zones|] == [zone] + zones[..|zones| - 1];
    }
  }
}
