/** The recursor's rules, the client that saves and deletes them, and the sync that keeps local zones forwarded. */
module Recursor {
  import opened PyText
  import opened Names
  import opened ZoneIds

  datatype Kind = Native | Forwarded

  datatype Zone = Zone(name: string, kind: Kind, servers: seq<string>, recursionDesired: bool)

  /** The server keeps each zone under the identifier of the name it was created with. */
  type Stored = map<string, Zone>

  /** One stored zone per name, whatever its case, each under its own identifier. */
  ghost predicate IsKept(zones: Stored) {
    && (forall id :: id in zones ==> id == ApiId(zones[id].name))
    && (forall i, j :: i in zones && j in zones && Canonical(zones[i].name) == Canonical(zones[j].name) ==> i == j)
  }

  /** And each under a name that its identifier gives away. */
  ghost predicate IsServed(zones: Stored) {
    IsKept(zones) && forall id :: id in zones ==> IsServerName(zones[id].name)
  }

  /** The zone stored for a canonical name. */
  ghost function At(zones: Stored, name: string): Option<Zone> {
    if exists id :: id in zones && Canonical(zones[id].name) == name then
      var id :| id in zones && Canonical(zones[id].name) == name;
      Some(zones[id])
    else None
  }

  lemma AtIs(zones: Stored, id: string)
    requires IsKept(zones) && id in zones
    ensures At(zones, Canonical(zones[id].name)) == Some(zones[id])
  {
    hide Canonical, IsServerName, ApiId;
  }

  function Rule(name: string, servers: seq<string>, recursionDesired: bool): Zone {
    Zone(name, Forwarded, servers, recursionDesired)
  }

  /** Replacing whatever is stored for a canonical name. */
  ghost function Upserted(zones: Stored, rule: Zone): Stored {
    (map id | id in zones && Canonical(zones[id].name) != rule.name :: zones[id])[ApiId(rule.name) := rule]
  }

  ghost function Dropped(zones: Stored, name: string): Stored {
    map id | id in zones && Canonical(zones[id].name) != name :: zones[id]
  }

  datatype Reply = Ok | Exists | Error

  class RecursorServer {
    var zones: Stored
    /** How many calls have failed. */
    var failures: nat

    constructor ()
      ensures zones == map[] && failures == 0
    {
      zones, failures := map[], 0;
    }

    // ----- the server's API; any call may fail without effect -----

    /** Whether a call that the server would accept gets through. */
    method Responds(isFine: bool) returns (ok: bool)
      modifies this`failures
      ensures ok ==> isFine
      ensures failures == old(failures) + if ok then 0 else 1
    {
      ok := *;
      ok := ok && isFine;
      if !ok { failures := failures + 1; }
    }

    method Post(rule: Zone) returns (reply: Reply)
      modifies this
      ensures reply != Error ==> rule.name != ""
      ensures reply == Ok ==> rule.kind == Forwarded && rule.servers != []
      ensures reply == Ok ==>
        (forall id :: id in old(zones) ==> Canonical(old(zones)[id].name) != Canonical(rule.name))
        && zones == old(zones)[ApiId(rule.name) := rule]
      ensures reply == Exists ==> exists id :: id in zones && Canonical(zones[id].name) == Canonical(rule.name)
      ensures reply != Ok ==> zones == old(zones)
      ensures failures == old(failures) + if reply == Error then 1 else 0
    {
      var up := Responds(rule.name != "");
      if !up { return Error; }
      if exists id :: id in zones && Canonical(zones[id].name) == Canonical(rule.name) { return Exists; }
      if rule.kind != Forwarded || rule.servers == [] {
        failures := failures + 1;
        return Error;
      }
      zones := zones[ApiId(rule.name) := rule];
      return Ok;
    }

    /**
     Replaces the zone stored under `id`. The server deletes first and then creates, so a creation that it refused would
     lose the zone; here that leaves everything. `SaveForwardZone` never gets there: its rule is a complete one, and by
     `IsKept` no other zone has the name.
     */
    method Put(id: string, rule: Zone) returns (ok: bool)
      modifies this
      ensures ok ==> id in old(zones) && zones == (old(zones) - {id})[ApiId(rule.name) := rule]
      ensures !ok ==> zones == old(zones)
      ensures failures == old(failures) + if ok then 0 else 1
    {
      ok := Responds(id in zones);
      if !ok { return false; }
      zones := (zones - {id})[ApiId(rule.name) := rule];
      return true;
    }

    method Delete(id: string) returns (ok: bool)
      modifies this
      ensures ok ==> id in old(zones) && zones == old(zones) - {id}
      ensures !ok ==> zones == old(zones)
      ensures failures == old(failures) + if ok then 0 else 1
    {
      ok := Responds(id in zones);
      if !ok { return false; }
      zones := zones - {id};
      return true;
    }

    /** `resolve_zone_id`: the identifier the server stored, or the computed one for a name it has never heard of. */
    method ResolveZoneId(name: string) returns (id: Option<string>)
      modifies this`failures
      ensures id.Some? ==>
        if exists i :: i in zones && Canonical(zones[i].name) == Canonical(name)
        then id.value in zones && Canonical(zones[id.value].name) == Canonical(name)
        else id.value == ZoneIdFor(name)
      ensures failures == old(failures) + if id.Some? then 0 else 1
    {
      var up := Responds(true);
      if !up { return None; }
      if i :| i in zones && Canonical(zones[i].name) == Canonical(name) { return Some(i); }
      return Some(ZoneIdFor(name));
    }

    /** Creates the rule, or replaces what the server has under that name in any case and of any kind. */
    method SaveForwardZone(name: string, servers: seq<string>, recursionDesired: bool) returns (ok: bool)
      requires IsKept(zones)
      modifies this
      ensures ok ==> Canonical(name) != "" && servers != []
      ensures ok ==> zones == Upserted(old(zones), Rule(Canonical(name), servers, recursionDesired))
      ensures !ok ==> zones == old(zones)
      ensures failures >= old(failures) && (ok <==> servers != [] && failures == old(failures))
      ensures IsKept(zones)
      ensures IsServed(old(zones)) && Canonical(name) != "" && IsLatin(Canonical(name)) ==> IsServed(zones)
    {
      hide Canonical, ApiId, IsServerName, Upserted;
      if servers == [] { return false; }
      var rule := Rule(Canonical(name), servers, recursionDesired);
      CanonicalIdempotent(name);
      UpsertIsServed(zones, rule);
      ReplacedIs(zones, rule);
      var reply := Post(rule);
      if reply == Ok { return true; }
      if reply == Error { return false; }
      var id := ResolveZoneId(name);
      if id.None? { return false; }
      ok := Put(id.value, rule);
    }

    method DeleteForwardZone(name: string) returns (ok: bool)
      requires IsKept(zones)
      modifies this
      ensures ok ==>
        if At(old(zones), Canonical(name)).Some? then zones == Dropped(old(zones), Canonical(name))
        else ZoneIdFor(name) in old(zones) && zones == old(zones) - {ZoneIdFor(name)}
      ensures !ok ==> zones == old(zones)
      ensures failures >= old(failures) && (ok <==> failures == old(failures))
      ensures IsKept(zones) && (IsServed(old(zones)) ==> IsServed(zones))
    {
      hide Canonical, ApiId, IsServerName;
      var id := ResolveZoneId(name);
      if id.None? { return false; }
      ok := Delete(id.value);
      if ok && At(old(zones), Canonical(name)).Some? { assert zones == Dropped(old(zones), Canonical(name)); }
    }
  }

  /** The identifier computed for a name is under no other name. */
  lemma StoredUnder(zones: Stored, name: string, id: string)
    requires IsServed(zones) && id in zones
    ensures id == ZoneIdFor(name) && IsLatin(Canonical(name)) && Canonical(name) != "" ==>
      Canonical(zones[id].name) == Canonical(name)
  {
    hide ApiId;
    if id == ZoneIdFor(name) && IsLatin(Canonical(name)) && Canonical(name) != "" {
      ApiIdInjective(zones[id].name, Canonical(name));
      CanonicalIdempotent(name);
    }
  }

  /** A deletion takes another name's zone only for names beyond code point 255: below, a name without a zone has an
      identifier that no zone has. */
  lemma DeletesOnlyItsOwn(zones: Stored, name: string)
    requires IsServed(zones) && At(zones, Canonical(name)).None? && IsLatin(Canonical(name)) && Canonical(name) != ""
    ensures ZoneIdFor(name) !in zones
  {
    hide Canonical, ApiId, IsServerName;
    if ZoneIdFor(name) in zones { StoredUnder(zones, name, ZoneIdFor(name)); }
  }

  /** A new rule, and a rule put in the place of the one stored under its name. */
  lemma ReplacedIs(zones: Stored, rule: Zone)
    requires IsKept(zones) && IsCanonical(rule.name)
    ensures (forall id :: id in zones ==> Canonical(zones[id].name) != rule.name) ==>
      zones[ApiId(rule.name) := rule] == Upserted(zones, rule)
    ensures forall id :: id in zones && Canonical(zones[id].name) == rule.name ==>
      (zones - {id})[ApiId(rule.name) := rule] == Upserted(zones, rule)
  {
    hide Canonical, ApiId, IsServerName;
    forall id | id in zones && Canonical(zones[id].name) == rule.name
      ensures (zones - {id})[ApiId(rule.name) := rule] == Upserted(zones, rule)
    {
      assert zones - {id} == map i | i in zones && Canonical(zones[i].name) != rule.name :: zones[i];
    }
  }

  lemma UpsertIsServed(zones: Stored, rule: Zone)
    requires IsKept(zones) && IsCanonical(rule.name)
    ensures IsKept(Upserted(zones, rule))
    ensures IsServed(zones) && rule.name != "" && IsLatin(rule.name) ==> IsServed(Upserted(zones, rule))
  {
    hide ApiId;
    if rule.name != "" { CanonicalIffShape(rule.name); }
    hide Canonical;
  }

  /** Saving is an upsert: the name now forwards to the given servers, and every other name keeps what it had, unless
      it is stored under the identifier of this one. Below code point 256 none is. */
  lemma UpsertAt(zones: Stored, rule: Zone, name: string)
    requires IsKept(zones) && IsCanonical(rule.name)
    ensures var z := At(zones, name);
      At(Upserted(zones, rule), name) ==
        if name == rule.name then Some(rule)
        else if z.Some? && ApiId(z.value.name) == ApiId(rule.name) then None else z
    ensures IsServed(zones) && rule.name != "" && IsLatin(rule.name) && name != rule.name && At(zones, name).Some? ==>
      ApiId(At(zones, name).value.name) != ApiId(rule.name)
  {
    hide Canonical, ApiId, IsServerName;
    var after := Upserted(zones, rule);
    UpsertIsServed(zones, rule);
    AtIs(after, ApiId(rule.name));
    if name != rule.name && At(zones, name).Some? {
      var id :| id in zones && Canonical(zones[id].name) == name;
      AtIs(zones, id);
      if id != ApiId(rule.name) { AtIs(after, id); }
      else if IsServed(zones) && rule.name != "" && IsLatin(rule.name) { ApiIdInjective(zones[id].name, rule.name); }
    }
  }

  lemma DropIsKept(zones: Stored, name: string)
    requires IsKept(zones)
    ensures IsKept(Dropped(zones, name)) && (IsServed(zones) ==> IsServed(Dropped(zones, name)))
  {
    hide Canonical, ApiId, IsServerName;
  }

  lemma DropAt(zones: Stored, dropped: string, name: string)
    requires IsKept(zones)
    ensures At(Dropped(zones, dropped), name) == if name == dropped then None else At(zones, name)
  {
    hide Canonical, ApiId, IsServerName;
    var after := Dropped(zones, dropped);
    DropIsKept(zones, dropped);
    if name != dropped && At(zones, name).Some? {
      var id :| id in zones && Canonical(zones[id].name) == name;
      AtIs(zones, id);
      AtIs(after, id);
    }
  }
}
