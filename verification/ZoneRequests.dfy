/** The requests as they arrive, each of them one of the events that the runs are made of. */
module ZoneRequests {
  import opened PyText
  import opened Names
  import opened ReverseNames
  import opened EnclosingZones
  import opened RecordRules
  import opened PanelState
  import opened ReverseSync
  import opened ZoneHandlers
  import opened LinkRows
  import opened ZoneRuns
  import opened FailingRuns
  import opened ZoneRules

  /** The event is what may have happened, and what has happened if the request did all its work. */
  ghost predicate IsEvent(parsers: Parsers, s: Store, e: Event, s': Store, outcome: Outcome) {
    && MayHappen(parsers, s, e, s')
    && (outcome.Done? && outcome.clean ==> IsDone(parsers, s, e) && s' == Next(parsers, s, e))
  }

  /** Unless the zone could not be listed, its pre-check is one that the runs of `ZoneRules` ask for. */
  method PostRecord(panel: Panel, parsers: Parsers, user: User, f: RecordForm)
    returns (outcome: Outcome, ghost e: Event)
    modifies panel
    ensures e.Save? && e.user == user && e.form == f
    ensures IsEvent(parsers, old(panel.State()), e, panel.State(), outcome)
    ensures (outcome.Done? ==> outcome.prechecked) ==>
      IsRuled(parsers, old(panel.State()), e, panel.State(), {"PTR"})
  {
    hide MayFinish, Saved, IsSavable, TypesBeside, Written, HasRoom, Wanted, Canonical, AbsoluteName;
    var existing: set<string>;
    outcome, existing := SaveRecord(panel, parsers, user, f);
    e := Save(user, f, existing);
  }

  method PostDeletion(panel: Panel, parsers: Parsers, user: User, zoneId: string, name: string, rtype: string, ttl: int)
    returns (outcome: Outcome, ghost e: Event)
    requires AreNames(panel.zones)
    modifies panel
    ensures e == Delete(user, Key(Canonical(zoneId), AbsoluteName(name, Canonical(zoneId)), rtype), ttl)
    ensures IsEvent(parsers, old(panel.State()), e, panel.State(), outcome)
  {
    hide MayDelete, Deleted, Canonical, AbsoluteName;
    var zone := Canonical(zoneId);
    if zone in panel.zones {
      CanonicalIdempotent(zoneId);
      AbsoluteIsSome(name, zone);
      AbsoluteIsCanonical(name, zone);
    }
    outcome := DeleteRecord(panel, parsers, user, zoneId, name, rtype, ttl);
    e := Delete(user, Key(zone, AbsoluteName(name, zone), rtype), ttl);
  }

  method PostZoneDeletion(panel: Panel, parsers: Parsers, user: User, zoneId: string, confirm: string)
    returns (outcome: Outcome, ghost e: Event)
    modifies panel
    ensures e == DropZone(Canonical(zoneId))
    ensures IsEvent(parsers, old(panel.State()), e, panel.State(), outcome)
  {
    hide ZoneDeleted, Canonical;
    outcome := DeleteZone(panel, user, zoneId, confirm);
    e := DropZone(Canonical(zoneId));
  }

  /** The settings form; what it creates are the reverse zones of the networks in its text area. */
  method PostSettings(panel: Panel, parsers: Parsers, user: User, zoneId: string, f: SettingsForm, networks: string,
                      parse: string -> Option<Network>)
    returns (outcome: Outcome, ghost e: Event)
    modifies panel
    ensures e == Settings(user, Canonical(zoneId), f.(created := FirstOnly(AllZones(Fields(networks, true), parse))))
    ensures IsEvent(parsers, old(panel.State()), e, panel.State(), outcome)
    ensures outcome.Done? ==> Rejected(Fields(networks, true), parse) == []
  {
    hide Settled, MaySettle, WithNameservers, Selectable, AllCanonical, Canonical, AllZones, Fields, CanEdit;
    AllZonesAreCanonical(Fields(networks, true), parse);
    var created, problems := ReverseZonesForNetworks(networks, parse);
    var form := f.(created := created);
    e := Settings(user, Canonical(zoneId), form);
    if !CanEdit(user, Canonical(zoneId)) { return Forbidden, e; }
    if problems != [] { return Refused, e; }
    outcome := SaveSettings(panel, user, zoneId, form);
  }

  /** The new-zone form, with the networks of its reverse zones. */
  method PostZone(panel: Panel, parsers: Parsers, user: User, name: string, nameservers: seq<string>, networks: string,
                  parse: string -> Option<Network>)
    returns (outcome: Outcome, ghost e: Event)
    modifies panel
    ensures var reverse := FirstOnly(AllZones(Fields(networks, true), parse));
      e == Create([Canonical(name)] + reverse, AllCanonical(nameservers))
    ensures IsEvent(parsers, old(panel.State()), e, panel.State(), outcome)
    ensures outcome.Done? ==> Rejected(Fields(networks, true), parse) == []
  {
    hide MayCreate, CreatedZones, AllCanonical, Canonical, AllZones, Fields;
    AllZonesAreCanonical(Fields(networks, true), parse);
    CanonicalIdempotent(name);
    var reverse, problems := ReverseZonesForNetworks(networks, parse);
    e := Create([Canonical(name)] + reverse, AllCanonical(nameservers));
    if !user.isOperator { return Forbidden, e; }
    if problems != [] { return Refused, e; }
    outcome := NewZone(panel, user, name, nameservers, reverse);
  }
}
