/** The panel's tables and its server as objects, and the sync that keeps PTRs in step with forward records. */
module ReverseSync {
  import opened PyText
  import opened Names
  import opened ReverseNames
  import opened EnclosingZones
  import opened RecordRules
  import opened PanelState

  /** What a sync did. */
  datatype SyncResult = SyncResult(written: seq<string>, removed: seq<string>, noZone: seq<string>,
                                   denied: seq<string>, stolen: seq<string>, failed: nat)

  class Panel {
    var zones: set<string>
    var rrsets: map<Key, RRset>
    var links: map<string, Link>
    var pairs: set<(string, string)>
    /** How many calls to the server have failed. */
    var failures: nat

    function State(): Store
      reads this
    {
      Store(zones, rrsets, links, pairs)
    }

    constructor ()
      ensures State() == Store({}, map[], map[], {}) && failures == 0
    {
      zones, rrsets, links, pairs, failures := {}, map[], map[], {}, 0;
    }

    // ----- the server; any call may fail, and then changes nothing -----

    /** Whether a call that the server would accept gets through. */
    method Responds(isFine: bool) returns (ok: bool)
      modifies this`failures
      ensures ok ==> isFine
      ensures failures == old(failures) + if ok then 0 else 1
    {
      ok := *;
      ok := ok && isFine;
      if !ok { failures := failures + 1; }
    }

    method ReplaceRRset(k: Key, ttl: int, contents: seq<string>, disabled: bool, comment: string) returns (ok: bool)
      modifies this`rrsets, this`failures
      ensures ok ==> k.zone in zones && rrsets == old(rrsets)[k := RRset(ttl, RecordsOf(contents, disabled), comment)]
      ensures !ok ==> rrsets == old(rrsets)
      ensures failures == old(failures) + if ok then 0 else 1
    {
      ok := Responds(k.zone in zones);
      if ok { rrsets := rrsets[k := RRset(ttl, RecordsOf(contents, disabled), comment)]; }
    }

    method DeleteRRset(k: Key) returns (ok: bool)
      modifies this`rrsets, this`failures
      ensures ok ==> k.zone in zones && rrsets == old(rrsets) - {k}
      ensures !ok ==> rrsets == old(rrsets)
      ensures failures == old(failures) + if ok then 0 else 1
    {
      ok := Responds(k.zone in zones);
      if ok { rrsets := rrsets - {k}; }
    }

    method GetRRset(k: Key) returns (ok: bool, found: Option<RRset>)
      modifies this`failures
      ensures ok ==> k.zone in zones && found == Lookup(State(), k)
      ensures failures == old(failures) + if ok then 0 else 1
    {
      ok := Responds(k.zone in zones);
      found := Lookup(State(), k);
    }

    /** Fails for a zone that exists. */
    method CreateZone(zone: string, nameservers: seq<string>) returns (ok: bool)
      modifies this`zones, this`rrsets, this`failures
      ensures ok ==> zone != "" && zone !in old(zones) && State() == CreatedZone(old(State()), zone, nameservers)
      ensures !ok ==> State() == old(State())
      ensures failures == old(failures) + if ok then 0 else 1
    {
      ok := Responds(zone != "" && zone !in zones);
      if ok {
        var created := CreatedZone(State(), zone, nameservers);
        zones, rrsets := created.zones, created.rrsets;
      }
    }

    /** Every zone name, in an order the caller must not depend on. */
    method ListZones() returns (ok: bool, names: seq<string>)
      modifies this`failures
      ensures ok ==> Canonicals(names) == CanonicalSet(zones)
      ensures failures == old(failures) + if ok then 0 else 1
    {
      ok := Responds(true);
      names := ListOf(zones);
    }

    /** `linked_reverse_zones`. */
    method LinkedReverseZones(zone: string) returns (names: seq<string>)
      ensures Canonicals(names) == CanonicalSet(PairedZones(State(), zone))
    {
      names := ListOf(PairedZones(State(), zone));
    }

    /** The PTRs to write for a record set, in the order they came up; `None` when the zones could not be listed. */
    method FindTargets(parsers: Parsers, user: User, a: SyncArgs)
      returns (wanted: Option<map<string, Target>>, order: seq<string>, noZone: seq<string>, denied: seq<string>)
      modifies this`failures
      ensures wanted.Some? ==> wanted.value == Wanted(parsers, State(), user, a)
      ensures wanted.Some? ==> IsListing(order, wanted.value.Keys)
      ensures wanted.Some? && IsSyncing(a) ==>
        && Members(noZone) == Unplaced(parsers, State(), a.owner.zone, a.addresses)
        && Members(denied) == Denied(parsers, State(), user, a.owner.zone, a.addresses)
      ensures wanted.Some? && !IsSyncing(a) ==> noZone == denied == []
      ensures wanted.None? ==> NeedsListing(parsers, State(), a)
      ensures failures == old(failures) + if wanted.Some? then 0 else 1
    {
      hide Canonical, PtrOf, Enclosing, CanEdit, Targets, IsListing, Members, Unplaced, Denied;
      TargetsOfNone(parsers, State(), user, a.owner.zone);
      MembersPlus([], "");
      assert a.addresses[..0] == [];
      order, noZone, denied := [], [], [];
      var found: map<string, Target> := map[];
      NothingListed(found);
      if a.enabled && a.owner.rtype in ADDRESS_TYPES {
        var preferred := LinkedReverseZones(a.owner.zone);
        var everyZone: Option<seq<string>> := None;
        for k := 0 to |a.addresses|
          invariant found == Targets(parsers, State(), user, a.owner.zone, a.addresses[..k])
          invariant IsListing(order, found.Keys)
          invariant Members(noZone) == Unplaced(parsers, State(), a.owner.zone, a.addresses[..k])
          invariant Members(denied) == Denied(parsers, State(), user, a.owner.zone, a.addresses[..k])
          invariant failures == old(failures)
          invariant everyZone.Some? ==> Canonicals(everyZone.value) == CanonicalSet(zones)
        {
          TargetsOfOneMore(parsers, State(), user, a.owner.zone, a.addresses, k);
          PlacesOfOneMore(parsers, State(), user, a.owner.zone, a.addresses, k);
          var address := a.addresses[k];
          var ptr := PtrOf(parsers, address);
          if ptr.None? { continue; }
          PtrIsCanonical(parsers, address);
          var place := EnclosingZone(ptr.value, preferred);
          if place.None? {
            if everyZone.None? {
              var ok, names := ListZones();
              if !ok {
                assert address in a.addresses && IsUnpaired(parsers, State(), a.owner.zone, address);
                return None, [], [], [];
              }
              everyZone := Some(names);
            }
            place := EnclosingZone(ptr.value, everyZone.value);
          }
          if place.None? {
            MembersPlus(noZone, address);
            noZone := noZone + [address];
          } else if !CanEdit(user, place.value) {
            MembersPlus(denied, place.value);
            denied := denied + [place.value];
          } else {
            ListOneMore(order, found, ptr.value, Target(place.value, address));
            if ptr.value !in found { order := order + [ptr.value]; }
            found := found[ptr.value := Target(place.value, address)];
          }
        }
        assert a.addresses[..|a.addresses|] == a.addresses;
      }
      wanted := Some(found);
    }

    /** Deletes a PTR set that still answers with the link's forward name. */
    method DeleteIfOurs(ptr: string, link: Link) returns (gone: bool, failed: bool)
      modifies this`rrsets, this`failures
      ensures gone ==> Answers(old(State()), ptr, link) && rrsets == old(rrsets) - {PtrKey(link.reverseZone, ptr)}
      ensures !gone ==> rrsets == old(rrsets)
      ensures !failed && Answers(old(State()), ptr, link) ==> gone
      ensures failures == old(failures) + if failed then 1 else 0
    {
      var ok, current := GetRRset(PtrKey(link.reverseZone, ptr));
      if !ok { return false, true; }
      if current.None? { return false, false; }
      if CanonicalContents(current.value) != [link.forwardName] { return false, false; }
      ok := DeleteRRset(PtrKey(link.reverseZone, ptr));
      return ok, !ok;
    }

    /** Writes the wanted PTRs and links those that were written. */
    method WriteTargets(a: SyncArgs, wanted: map<string, Target>, order: seq<string>)
      returns (written: seq<string>, stolen: seq<string>, failed: nat)
      requires IsListing(order, wanted.Keys)
      modifies this`rrsets, this`links, this`failures
      ensures Members(written) <= wanted.Keys
      ensures failures == old(failures) + failed
      ensures State() == AfterSync(old(State()), a, wanted, Members(written), {}, {})
      ensures failed == 0 ==> Members(written) == wanted.Keys
      ensures forall p :: p in stolen <==> p in written && IsStolen(old(State()), p, a.owner)
    {
      hide PtrSet, AfterSync, LinkTo;
      ghost var s := State();
      written, stolen, failed := [], [], 0;
      NothingYet(s, a, wanted);
      assert Members(written) == {};
      for k := 0 to |order|
        invariant Members(written) <= Members(order[..k]) <= wanted.Keys
        invariant State() == AfterSync(s, a, wanted, Members(written), {}, {})
        invariant forall p :: p in s.links && p !in order[..k] ==> p in links && links[p] == s.links[p]
        invariant forall p :: p in links && p !in s.links ==> p in order[..k]
        invariant failed == 0 ==> Members(written) == Members(order[..k])
        invariant failures == old(failures) + failed
        invariant forall p :: p in stolen <==> p in written && IsStolen(s, p, a.owner)
      {
        var ptr := order[k];
        assert ptr in order && ptr !in order[..k] && order[..k + 1] == order[..k] + [ptr];
        MembersPlus(order[..k], ptr);
        var target := wanted[ptr];
        var ok := ReplaceRRset(PtrKey(target.reverseZone, ptr), a.ttl, [a.owner.name], false, PtrComment(a));
        if !ok {
          failed := failed + 1;
          continue;
        }
        if ptr in links && (links[ptr].forwardName != a.owner.name || links[ptr].forwardType != a.owner.rtype) {
          stolen := stolen + [ptr];
        }
        PtrSetIs(a);
        WriteStep(s, a, wanted, Members(written), ptr);
        MembersPlus(written, ptr);
        links := links[ptr := LinkTo(a, target)];
        written := written + [ptr];
      }
      assert order[..|order|] == order;
    }

    /** Forgets the links that are not wanted any more, deleting the PTR sets that still answer. */
    method RetireLinks(existing: set<string>, wanted: set<string>) returns (removed: seq<string>, failed: nat)
      requires existing <= links.Keys
      modifies this`rrsets, this`links, this`failures
      ensures failures == old(failures) + failed
      ensures Members(removed) <= StillOurs(old(State()), existing - wanted)
      ensures State() == AfterDrop(old(State()), existing - wanted, Members(removed))
      ensures failed == 0 ==> Members(removed) == StillOurs(old(State()), existing - wanted)
    {
      hide Answers, AfterDrop;
      ghost var s := State();
      removed, failed := [], 0;
      var listed := ListOf(existing - wanted);
      NothingDropped(s);
      assert Members(removed) == {} && Members(listed[..0]) == {};
      for k := 0 to |listed|
        invariant Members(listed[..k]) <= existing
        invariant Members(removed) <= StillOurs(s, Members(listed[..k]))
        invariant State() == AfterDrop(s, Members(listed[..k]), Members(removed))
        invariant failed == 0 ==> Members(removed) == StillOurs(s, Members(listed[..k]))
        invariant failures == old(failures) + failed
      {
        var ptr := listed[k];
        assert ptr in listed && ptr !in listed[..k] && listed[..k + 1] == listed[..k] + [ptr];
        MembersPlus(listed[..k], ptr);
        MembersPlus(removed, ptr);
        DropStep(s, Members(listed[..k]), Members(removed), ptr);
        var gone, fault := DeleteIfOurs(ptr, links[ptr]);
        if fault { failed := failed + 1; }
        if gone { removed := removed + [ptr]; }
        links := links - {ptr};
      }
      assert listed[..|listed|] == listed;
      assert Members(listed) == existing - wanted;
    }

    /** Makes the reverse side of one forward record set match the forward side. */
    method SyncRecord(parsers: Parsers, user: User, a: SyncArgs) returns (raised: bool, result: SyncResult)
      modifies this`rrsets, this`links, this`failures
      ensures raised ==> State() == old(State()) && NeedsListing(parsers, State(), a)
      ensures failures == old(failures) + if raised then 1 else result.failed
      ensures !raised ==>
        Synced(parsers, old(State()), user, a, State(), Members(result.written), Members(result.removed))
      ensures !raised && result.failed == 0 ==> State() == CleanSync(parsers, old(State()), user, a)
      ensures !raised ==>
        forall p :: p in result.stolen <==> p in result.written && IsStolen(old(State()), p, a.owner)
      ensures !raised && IsSyncing(a) ==>
        && Members(result.noZone) == Unplaced(parsers, old(State()), a.owner.zone, a.addresses)
        && Members(result.denied) == Denied(parsers, old(State()), user, a.owner.zone, a.addresses)
      ensures !raised && !IsSyncing(a) ==> result.noZone == result.denied == []
    {
      hide Wanted, PtrSet, AfterSync, AfterDrop, StillOurs;
      ghost var s := State();
      var existing := Owned(State(), a.owner);
      var found, order, noZone, denied := FindTargets(parsers, user, a);
      if found.None? { return true, SyncResult([], [], noZone, denied, [], 0); }
      var written, stolen, failed := WriteTargets(a, found.value, order);
      WritingKeeps(s, a, found.value, Members(written), existing);
      var removed, failed' := RetireLinks(existing, found.value.Keys);
      DropAfterWrite(s, a, found.value, Members(written), existing - found.value.Keys, Members(removed));
      return false, SyncResult(written, removed, noZone, denied, stolen, failed + failed');
    }
  }

  function Members(list: seq<string>): set<string> {
    set x | x in list
  }

  lemma MembersPlus(list: seq<string>, x: string)
    ensures Members([]) == {} && Members(list + [x]) == Members(list) + {x}
  {
  }

  lemma NothingListed(found: map<string, Target>)
    requires found == map[]
    ensures IsListing([], found.Keys)
  {
  }

  lemma ListOneMore(order: seq<string>, found: map<string, Target>, ptr: string, target: Target)
    requires IsListing(order, found.Keys)
    ensures IsListing(if ptr in found then order else order + [ptr], found[ptr := target].Keys)
  {
    assert found[ptr := target].Keys == found.Keys + {ptr};
  }

  lemma TargetsOfNone(parsers: Parsers, s: Store, user: User, zone: string)
    ensures Targets(parsers, s, user, zone, []) == map[]
    ensures Unplaced(parsers, s, zone, []) == {} && Denied(parsers, s, user, zone, []) == {}
  {
  }

  lemma PlacesOfOneMore(parsers: Parsers, s: Store, user: User, zone: string, addresses: seq<string>, k: nat)
    requires k < |addresses|
    ensures Unplaced(parsers, s, zone, addresses[..k + 1]) ==
      Unplaced(parsers, s, zone, addresses[..k]) +
        if PtrOf(parsers, addresses[k]).Some? && PlaceOf(parsers, s, zone, addresses[k]).None? then {addresses[k]}
        else {}
    ensures Denied(parsers, s, user, zone, addresses[..k + 1]) ==
      var place := PlaceOf(parsers, s, zone, addresses[k]);
      Denied(parsers, s, user, zone, addresses[..k]) +
        if place.Some? && !CanEdit(user, place.value) then {place.value} else {}
  {
    hide PlaceOf, CanEdit, PtrOf;
    assert addresses[..k + 1] == addresses[..k] + [addresses[k]];
  }

  lemma TargetsOfOneMore(parsers: Parsers, s: Store, user: User, zone: string, addresses: seq<string>, k: nat)
    requires k < |addresses|
    ensures Targets(parsers, s, user, zone, addresses[..k + 1]) ==
      AddTarget(parsers, s, user, zone, Targets(parsers, s, user, zone, addresses[..k]), addresses[k])
  {
    hide AddTarget;
    assert addresses[..k + 1][..k] == addresses[..k];
  }

  lemma NothingYet(s: Store, a: SyncArgs, wanted: map<string, Target>)
    ensures AfterSync(s, a, wanted, {}, {}, {}) == s
  {
  }

  function PtrComment(a: SyncArgs): string {
    PtrSet(a).comment
  }

  lemma PtrSetIs(a: SyncArgs)
    ensures PtrSet(a) == RRset(a.ttl, RecordsOf([a.owner.name], false), PtrComment(a))
  {
  }

  /** Writing and linking one more PTR. */
  lemma WriteStep(s: Store, a: SyncArgs, wanted: map<string, Target>, written: set<string>, ptr: string)
    requires written <= wanted.Keys && ptr in wanted
    ensures var t, t' := AfterSync(s, a, wanted, written, {}, {}), AfterSync(s, a, wanted, written + {ptr}, {}, {});
      t' == t.(rrsets := t.rrsets[PtrKey(wanted[ptr].reverseZone, ptr) := PtrSet(a)],
               links := t.links[ptr := LinkTo(a, wanted[ptr])])
  {
    hide PtrSet, LinkTo;
  }

  /** The store once the links in `dropped` are forgotten and the PTR sets of those in `gone` deleted. */
  ghost function AfterDrop(s: Store, dropped: set<string>, gone: set<string>): Store
    requires gone <= dropped <= s.links.Keys
  {
    var cuts := set p | p in gone :: PtrKey(s.links[p].reverseZone, p);
    s.(rrsets := s.rrsets - cuts, links := s.links - dropped)
  }

  lemma NothingDropped(s: Store)
    ensures AfterDrop(s, {}, {}) == s
  {
  }

  /** Forgetting one more link, and perhaps deleting its PTR set. */
  lemma DropStep(s: Store, dropped: set<string>, gone: set<string>, ptr: string)
    requires gone <= dropped <= s.links.Keys && ptr in s.links && ptr !in dropped
    ensures var t, link := AfterDrop(s, dropped, gone), s.links[ptr];
      var key := PtrKey(link.reverseZone, ptr);
      && ptr in t.links && t.links[ptr] == link
      && Answers(t, ptr, link) == Answers(s, ptr, link)
      && AfterDrop(s, dropped + {ptr}, gone) == t.(links := t.links - {ptr})
      && AfterDrop(s, dropped + {ptr}, gone + {ptr}) == t.(links := t.links - {ptr}, rrsets := t.rrsets - {key})
  {
    hide CanonicalContents;
    var t, key := AfterDrop(s, dropped, gone), PtrKey(s.links[ptr].reverseZone, ptr);
    assert Lookup(t, key) == Lookup(s, key);
    assert s.links - (dropped + {ptr}) == t.links - {ptr};
    var cuts := set p | p in gone :: PtrKey(s.links[p].reverseZone, p);
    var cuts' := set p | p in gone + {ptr} :: PtrKey(s.links[p].reverseZone, p);
    assert cuts' == cuts + {key};
    assert s.rrsets - cuts' == t.rrsets - {key};
  }

  /** The writes leave the links alone that are not wanted, and their PTR sets too. */
  lemma WritingKeeps(s: Store, a: SyncArgs, wanted: map<string, Target>, written: set<string>, ptrs: set<string>)
    requires written <= wanted.Keys && ptrs <= s.links.Keys
    ensures var t := AfterSync(s, a, wanted, written, {}, {});
      && ptrs <= t.links.Keys
      && (forall p :: p in ptrs - wanted.Keys ==>
            t.links[p] == s.links[p] && Answers(t, p, t.links[p]) == Answers(s, p, s.links[p]))
      && StillOurs(t, ptrs - wanted.Keys) == StillOurs(s, ptrs - wanted.Keys)
  {
    hide CanonicalContents, PtrSet, LinkTo;
    var t := AfterSync(s, a, wanted, written, {}, {});
    forall p | p in ptrs - wanted.Keys
      ensures t.links[p] == s.links[p] && Answers(t, p, t.links[p]) == Answers(s, p, s.links[p])
    {
      var key := PtrKey(s.links[p].reverseZone, p);
      assert Lookup(t, key) == Lookup(s, key);
    }
  }

  /** Writing first and retiring then is one sync. */
  lemma DropAfterWrite(s: Store, a: SyncArgs, wanted: map<string, Target>, written: set<string>, dropped: set<string>,
                       gone: set<string>)
    requires written <= wanted.Keys && gone <= dropped <= s.links.Keys - wanted.Keys
    requires dropped <= AfterSync(s, a, wanted, written, {}, {}).links.Keys
    ensures AfterDrop(AfterSync(s, a, wanted, written, {}, {}), dropped, gone) ==
      AfterSync(s, a, wanted, written, dropped, gone)
  {
    hide PtrSet, LinkTo;
    var t := AfterSync(s, a, wanted, written, {}, {});
    var u, v := AfterDrop(t, dropped, gone), AfterSync(s, a, wanted, written, dropped, gone);
    assert u.links == v.links;
    assert u.rrsets == v.rrsets;
  }

  ghost predicate IsListing(order: seq<string>, names: set<string>) {
    && (forall p :: p in order <==> p in names)
    && (forall i, j :: 0 <= i < j < |order| ==> order[i] != order[j])
  }

  method ListOf(names: set<string>) returns (list: seq<string>)
    ensures IsListing(list, names)
    ensures Canonicals(list) == CanonicalSet(names)
  {
    hide Canonical;
    list := [];
    var rest := names;
    while rest != {}
      invariant rest <= names && IsListing(list, names - rest)
      decreases rest
    {
      var n :| n in rest;
      list := list + [n];
      rest := rest - {n};
    }
    assert forall n :: n in list <==> n in names;
  }

  lemma PtrIsCanonical(parsers: Parsers, address: string)
    ensures PtrOf(parsers, address).Some? ==> Canonical(PtrOf(parsers, address).value) == PtrOf(parsers, address).value
  {
    hide PtrName, ZoneName, Canonical;
    var ip := parsers.address(Strip(address));
    if ip.Some? { ZoneNameIsCanonical(ip.value, 0); }
  }
}
