/** What a complete save or deletion leaves, said of the form's own fields. */
module SaveEffects {
  import opened PyText
  import opened PyNumbers
  import opened Names
  import opened RecordRules
  import opened PanelState
  import opened SyncLaws
  import opened ZoneHandlers
  import opened LinkRows
  import opened SyncEffects

  // ----- what a form says -----

  /** The record set a form is for: a blank name and `@` are the zone itself. */
  lemma FormKeyIs(f: RecordForm)
    ensures f.Key() == Key(Canonical(f.zoneId), f.Name(), f.rtype)
    ensures f.name == "" || Fold(f.name) == "" || Fold(f.name) == "@" ==> f.Name() == Canonical(f.zoneId)
    ensures f.name != "" ==> f.Name() == AbsoluteName(f.name, Canonical(f.zoneId))
    ensures f.OldKey() == Key(Canonical(f.zoneId), AbsoluteName(f.originalName, Canonical(f.zoneId)), f.originalType)
    ensures f.IsRename() <==>
      f.originalName != "" && f.originalType != "" && (f.OldKey().name != f.Name() || f.originalType != f.rtype)
  {
    hide Canonical;
    CanonicalIdempotent(f.zoneId);
    AtIsZone(f.zoneId);
  }

  lemma AtIsZone(zoneId: string)
    ensures AbsoluteName("@", Canonical(zoneId)) == Canonical(zoneId)
  {
    hide Canonical;
    CanonicalIdempotent(zoneId);
    assert Fold("@") == "@" by { assert IsTrimmed("@") && IsLower("@"); }
  }

  /** Its TTL is the number in its field, if that is one a TTL can be. */
  lemma FormTtlIs(f: RecordForm)
    ensures ValidTtl(f.ttl).Some? <==>
      ParseInt(f.ttl).Some? && 0 <= ParseInt(f.ttl).value && ParseInt(f.ttl).value <= 2147483647
    ensures ValidTtl(f.ttl).Some? ==> ParseInt(f.ttl) == Some(f.Ttl())
  {
    hide ParseInt;
  }

  // ----- the links of a saved record set -----

  /** The box is ticked and the records are enabled. */
  predicate WantsPtrs(f: RecordForm) {
    f.syncPtr && !f.disabled
  }

  /** The form moves a PTR set of this name away, which lets go of its link at the end. */
  predicate MovesPtr(f: RecordForm, ptr: string) {
    f.IsRename() && f.originalType == "PTR" && f.OldKey().name == ptr
  }

  ghost predicate IsAskedBy(parsers: Parsers, s: Store, user: User, f: RecordForm, ptr: string, place: string) {
    IsAsked(parsers, s, user, f.Zone(), Fields(f.content, false), ptr, place)
  }

  lemma FormAsks(parsers: Parsers, s: Store, t: Store, user: User, f: RecordForm, ptr: string)
    requires s.zones == t.zones && s.pairs == t.pairs
    ensures forall place :: IsAskedBy(parsers, s, user, f, ptr, place) <==>
      IsAsked(parsers, t, user, f.Sync().owner.zone, f.Sync().addresses, ptr, place)
  {
    hide IsNearest, IsAround, IsPtrOf, CanEdit, Canonical, Fields, AbsoluteName, ValidTtl;
    assert Partners(s, f.Zone()) == Partners(t, f.Zone());
  }

  lemma AskedInOnePlace(parsers: Parsers, s: Store, user: User, zone: string, addresses: seq<string>, ptr: string,
                        place: string, other: string)
    requires IsAsked(parsers, s, user, zone, addresses, ptr, place)
    requires IsAsked(parsers, s, user, zone, addresses, ptr, other)
    ensures place == other
  {
    hide Belongs, Placement, IsPtrOf, CanEdit;
    PlacementIs(s, zone, ptr);
  }

  /** The store between the retirement of a replaced set and the sync of the saved one. */
  ghost function BeforeSync(parsers: Parsers, s: Store, user: User, f: RecordForm): Store {
    if f.IsRename() then CleanSync(parsers, Written(s, f), user, Retire(f.OldKey(), f.Ttl())) else Written(s, f)
  }

  lemma SameZones(parsers: Parsers, s: Store, user: User, f: RecordForm)
    ensures var t := BeforeSync(parsers, s, user, f); t.zones == s.zones && t.pairs == s.pairs
  {
    hide Canonical, AbsoluteName, Fields, RecordsOf, ValidTtl, Wanted, Answers, PtrSet;
  }

  /** For the types that are synced, a save is that sync and then the unlinking. */
  lemma SavedIs(parsers: Parsers, s: Store, user: User, f: RecordForm)
    requires f.rtype == "A" || f.rtype == "AAAA" || f.IsRename()
    ensures Saved(parsers, s, user, f) ==
      Unlinked(CleanSync(parsers, BeforeSync(parsers, s, user, f), user, f.Sync()), f)
  {
    hide CleanSync, Written, Unlinked, Canonical, AbsoluteName;
  }

  /**
   A complete save of an address record links it to the PTR of every line that has a zone the user may write to, and to
   nothing else, if the box is ticked and the records are enabled; otherwise it leaves it owning nothing. Each linked
   PTR set is exactly the record's name, with the form's TTL. A PTR set of that name that the form itself moved away is
   written, but not linked.
   */
  lemma SaveLinksExactly(parsers: Parsers, s: Store, user: User, f: RecordForm, ptr: string)
    requires AreNames(s.zones) && f.Zone() in s.zones && (f.rtype == "A" || f.rtype == "AAAA")
    ensures var s' := Saved(parsers, s, user, f);
      && (ptr in s'.links && IsOf(s'.links[ptr], f.Key()) <==>
            f.syncPtr && !f.disabled && !MovesPtr(f, ptr)
              && exists place :: IsAskedBy(parsers, s, user, f, ptr, place))
      && (ptr in s'.links && IsOf(s'.links[ptr], f.Key()) ==>
            IsServed(parsers, s', f.Key(), f.Ttl(), Fields(f.content, false), ptr, s'.links[ptr].reverseZone))
    ensures forall place :: f.syncPtr && !f.disabled && IsAskedBy(parsers, s, user, f, ptr, place) ==>
      IsNamed(Saved(parsers, s, user, f), ptr, place, f.Key(), f.Ttl())
  {
    hide CleanSync, Canonical, AbsoluteName, Fields, RecordsOf, ValidTtl, IsAskedBy, IsPtrOf, StripDots, BeforeSync;
    hide IsAsked, AllCanonical, Written, Finished;
    var t := BeforeSync(parsers, s, user, f);
    var synced := CleanSync(parsers, t, user, f.Sync());
    FormNames(s.zones, f);
    SavedIs(parsers, s, user, f);
    SameZones(parsers, s, user, f);
    FormAsks(parsers, s, t, user, f, ptr);
    SyncLinksExactly(parsers, t, user, f.Sync(), ptr);
    forall place | WantsPtrs(f) && IsAskedBy(parsers, s, user, f, ptr, place)
      ensures IsNamed(synced, ptr, place, f.Key(), f.Ttl())
    {
      AskedInOnePlace(parsers, t, user, f.Zone(), Fields(f.content, false), ptr, place, synced.links[ptr].reverseZone);
    }
  }

  /** The row is one of the saved record set or of the one it replaces. */
  predicate IsTouchedRow(f: RecordForm, link: Link) {
    IsOf(link, f.Key()) || (f.IsRename() && IsOf(link, f.OldKey()))
  }

  /** A link of the saved record set, or of the one it replaces, that the form does not ask for: the row goes, and if
      its PTR set still said the forward name, that goes too - unless it is the very set the form writes. */
  lemma SaveRetires(parsers: Parsers, s: Store, user: User, f: RecordForm, ptr: string)
    requires f.rtype == "A" || f.rtype == "AAAA" || f.IsRename()
    requires ptr in s.links && IsTouchedRow(f, s.links[ptr])
    requires f.syncPtr && !f.disabled && (f.rtype == "A" || f.rtype == "AAAA") ==>
      forall place :: !IsAskedBy(parsers, s, user, f, ptr, place)
    ensures var s', k := Saved(parsers, s, user, f), Key(s.links[ptr].reverseZone, ptr, "PTR");
      ptr !in s'.links && (SaysName(s, ptr, s.links[ptr]) && k != f.Key() ==> Lookup(s', k) == None)
  {
    hide CleanSync, Canonical, AbsoluteName, Fields, RecordsOf, ValidTtl, IsAskedBy, IsAsked, IsPtrOf, Wanted;
    hide SaysName, Finished, AllCanonical;
    var w, t := Written(s, f), BeforeSync(parsers, s, user, f);
    var link, retire := s.links[ptr], Retire(f.OldKey(), f.Ttl());
    SavedIs(parsers, s, user, f);
    SameZones(parsers, s, user, f);
    FormAsks(parsers, s, t, user, f, ptr);
    WrittenPtr(s, f, ptr);
    if f.IsRename() {
      if IsOf(link, f.OldKey()) { SyncRetires(parsers, w, user, retire, ptr); }
      else { SyncSparesOthers(parsers, w, user, retire, ptr); }
    }
    if ptr in t.links {
      SamePtrSays(w, t, ptr, link);
      SyncRetires(parsers, t, user, f.Sync(), ptr);
    } else {
      SyncSparesOthers(parsers, t, user, f.Sync(), ptr);
    }
  }

  lemma WrittenPtr(s: Store, f: RecordForm, ptr: string)
    requires ptr in s.links
    ensures var w, k := Written(s, f), Key(s.links[ptr].reverseZone, ptr, "PTR");
      && w.links == s.links
      && (k != f.Key() ==> Lookup(w, k) == None || Lookup(w, k) == Lookup(s, k))
      && (k != f.Key() && SaysName(s, ptr, s.links[ptr]) ==> Lookup(w, k) == None || SaysName(w, ptr, s.links[ptr]))
  {
    hide Canonical, AbsoluteName, Fields, RecordsOf, ValidTtl;
  }

  lemma SamePtrSays(s: Store, t: Store, ptr: string, link: Link)
    ensures Lookup(t, Key(link.reverseZone, ptr, "PTR")) == Lookup(s, Key(link.reverseZone, ptr, "PTR")) ==>
      SaysName(t, ptr, link) == SaysName(s, ptr, link)
    ensures Lookup(t, Key(link.reverseZone, ptr, "PTR")) == None ==> !SaysName(t, ptr, link)
  {
    hide Canonical;
  }

  // ----- the record sets themselves -----

  /** The set holds the form's lines in order, all enabled or all disabled, with its TTL and its comment. */
  predicate IsFormSet(f: RecordForm, set_: RRset) {
    && set_.ttl == f.Ttl() && set_.comment == f.comment
    && |set_.records| == |Fields(f.content, false)|
    && forall i :: 0 <= i < |set_.records| ==> set_.records[i] == Record(Fields(f.content, false)[i], f.disabled)
  }

  /** After a complete save the form's set is stored, the one it replaces is gone, and no other set but PTRs has
      changed. */
  lemma SaveStoresSet(parsers: Parsers, s: Store, user: User, f: RecordForm)
    requires f.rtype != "PTR" || !f.IsRename()
    ensures var s' := Saved(parsers, s, user, f);
      && f.Key() in s'.rrsets && IsFormSet(f, s'.rrsets[f.Key()])
      && (f.IsRename() && f.originalType != "PTR" ==> f.OldKey() !in s'.rrsets)
    ensures forall k: Key :: k.rtype != "PTR" && k != f.Key() && !(f.IsRename() && k == f.OldKey()) ==>
      Lookup(Saved(parsers, s, user, f), k) == Lookup(s, k)
  {
    hide Written, Finished, Canonical, AbsoluteName, Fields, ValidTtl, RecordsOf, IsFormSet;
    var s' := Saved(parsers, s, user, f);
    WrittenSet(s, f);
    forall k: Key | k.rtype != "PTR" ensures Lookup(s', k) == Lookup(Written(s, f), k) {
      FinishedKeepsOthers(parsers, Written(s, f), user, f, k);
    }
    if f.rtype == "PTR" { PtrFormSets(parsers, Written(s, f), user, f); }
    assert Lookup(s', f.Key()) == Lookup(Written(s, f), f.Key());
    assert f.IsRename() && f.originalType != "PTR" ==> Lookup(s', f.OldKey()) == Lookup(Written(s, f), f.OldKey());
  }

  lemma WrittenSet(s: Store, f: RecordForm)
    ensures var w := Written(s, f);
      f.Key() in w.rrsets && IsFormSet(f, w.rrsets[f.Key()]) && (f.IsRename() ==> f.OldKey() !in w.rrsets)
    ensures forall k: Key :: k != f.Key() && !(f.IsRename() && k == f.OldKey()) ==>
      Lookup(Written(s, f), k) == Lookup(s, k)
  {
    hide Canonical, AbsoluteName, ValidTtl, Fields;
    NoLineIsBlank(f);
  }

  lemma FinishedKeepsOthers(parsers: Parsers, s: Store, user: User, f: RecordForm, k: Key)
    requires k.rtype != "PTR"
    ensures Lookup(Finished(parsers, s, user, f), k) == Lookup(s, k)
  {
    hide CleanSync, Canonical, AbsoluteName, ValidTtl, Fields, RecordsOf, AllCanonical;
    var retired := CleanSync(parsers, s, user, Retire(f.OldKey(), f.Ttl()));
    SyncKeepsOthers(parsers, s, user, Retire(f.OldKey(), f.Ttl()), k);
    SyncKeepsOthers(parsers, retired, user, f.Sync(), k);
    SyncKeepsOthers(parsers, s, user, f.Sync(), k);
  }

  lemma PtrFormSets(parsers: Parsers, s: Store, user: User, f: RecordForm)
    requires f.rtype == "PTR" && !f.IsRename()
    ensures Finished(parsers, s, user, f).rrsets == s.rrsets
    ensures Finished(parsers, s, user, f).links ==
      HandedBack(s, f.Name(), Fields(f.content, false)).links
  {
    hide Canonical, AbsoluteName, ValidTtl, Fields, RecordsOf, AllCanonical;
  }

  /** Editing a PTR set in place keeps the link of that name if its one line is the link's forward name, and lets it go
      otherwise. Other links stay. */
  lemma PtrFormUnlinksIff(parsers: Parsers, s: Store, user: User, f: RecordForm)
    requires f.rtype == "PTR" && !f.IsRename()
    ensures var links, s', lines := s.links, Saved(parsers, s, user, f), Fields(f.content, false);
      && (f.Name() in s'.links <==>
            f.Name() in links && |lines| == 1 && Canonical(lines[0]) == links[f.Name()].forwardName)
      && (forall p :: p in s'.links ==> p in links && s'.links[p] == links[p])
      && (forall p :: p in links && p != f.Name() ==> p in s'.links)
  {
    hide Canonical, AbsoluteName, ValidTtl, Fields, RecordsOf, Finished;
    var lines := Fields(f.content, false);
    PtrFormSets(parsers, Written(s, f), user, f);
    if |lines| == 1 { assert AllCanonical(lines) == [Canonical(lines[0])]; }
  }

  /** Moving or retyping a PTR set lets its link go, whatever else the form does. */
  lemma MovedPtrIsUnlinked(parsers: Parsers, s: Store, user: User, f: RecordForm)
    requires f.IsRename() && f.originalType == "PTR"
    ensures f.OldKey().name !in Saved(parsers, s, user, f).links
  {
    hide Resynced, Written, HandedBack, Canonical, AbsoluteName, ValidTtl, Fields;
  }

  // ----- deletions -----

  /**
   A complete deletion takes the set; of an address record also its links, and those PTR sets that still said its name;
   of a PTR set also the link of that name. No other row and, but for those PTRs, no other set changes.
   */
  lemma DeletionTakes(parsers: Parsers, s: Store, user: User, k: Key, ttl: int, ptr: string)
    requires k.rtype != "PTR"
    ensures var s' := Deleted(parsers, s, user, k, ttl);
      && k !in s'.rrsets
      && (ptr in s'.links <==>
            ptr in s.links && !((k.rtype == "A" || k.rtype == "AAAA") && IsOf(s.links[ptr], k)))
      && (ptr in s'.links ==> s'.links[ptr] == s.links[ptr])
      && (ptr in s.links && ptr !in s'.links ==>
            var p := Key(s.links[ptr].reverseZone, ptr, "PTR");
            Lookup(s', p) == if SaysName(s, ptr, s.links[ptr]) then None else Lookup(s, p))
    ensures forall j: Key :: j.rtype != "PTR" && j != k ==> Lookup(Deleted(parsers, s, user, k, ttl), j) == Lookup(s, j)
  {
    hide CleanSync, SaysName, IsAsked;
    var w, retire := Without(s, k), Retire(k, ttl);
    assert Lookup(w, k) == None && forall j: Key :: j != k ==> Lookup(w, j) == Lookup(s, j);
    if k.rtype == "A" || k.rtype == "AAAA" {
      forall j: Key | j.rtype != "PTR" ensures Lookup(CleanSync(parsers, w, user, retire), j) == Lookup(w, j) {
        SyncKeepsOthers(parsers, w, user, retire, j);
      }
      assert Lookup(CleanSync(parsers, w, user, retire), k) == None;
      if ptr in s.links && IsOf(s.links[ptr], k) {
        SamePtrSays(s, w, ptr, s.links[ptr]);
        SyncRetires(parsers, w, user, retire, ptr);
      } else {
        SyncSparesOthers(parsers, w, user, retire, ptr);
      }
    }
  }

  /** Deleting a PTR set takes it and the link of its name. */
  lemma PtrDeletionTakes(parsers: Parsers, s: Store, user: User, k: Key, ttl: int)
    requires k.rtype == "PTR"
    ensures Deleted(parsers, s, user, k, ttl) == Store(s.zones, s.rrsets - {k}, s.links - {k.name}, s.pairs)
  {
  }

  // ----- which forms are accepted -----

  /** What the pre-check sees: the other types of the sets at that name in that zone. */
  lemma TypesBesideAre(s: Store, k: Key, rtype: string)
    ensures rtype in TypesBeside(s, k) <==> rtype != k.rtype && Key(k.zone, k.name, rtype) in s.rrsets
  {
    if rtype in TypesBeside(s, k) {
      var j :| j in s.rrsets && j.zone == k.zone && j.name == k.name && j.rtype != k.rtype && j.rtype == rtype;
      assert j == Key(k.zone, k.name, rtype);
    }
  }

  /** Types that the server maintains, and the SOA, are not deleted by hand; and the former are not saved. */
  lemma ManagedTypesAre(rtype: string)
    ensures rtype in MANAGED_TYPES <==>
      rtype == "RRSIG" || rtype == "NSEC" || rtype == "NSEC3" || rtype == "NSEC3PARAM" || rtype == "DNSKEY"
      || rtype == "CDS" || rtype == "CDNSKEY"
  {
  }

  /** A form is saved over a zone with these other types at its name if and only if its type is not one the server
      maintains, its TTL is a number a TTL can be, it has lines and each is one of its type, its name is one and lies in
      the zone, and an SOA is one at the apex, a CNAME one below it beside nothing but DNSSEC's records, and anything
      else not beside a CNAME. */
  lemma SavableIff(parsers: Parsers, f: RecordForm, beside: set<string>)
    requires IsName(f.Zone())
    ensures var lines, t, n, z := Fields(f.content, false), f.rtype, f.Name(), f.Zone();
      IsSavable(parsers, f, beside) <==>
        && t != "RRSIG" && t != "NSEC" && t != "NSEC3" && t != "NSEC3PARAM" && t != "DNSKEY" && t != "CDS"
        && t != "CDNSKEY"
        && ParseInt(f.ttl).Some? && 0 <= ParseInt(f.ttl).value && ParseInt(f.ttl).value <= 2147483647
        && lines != [] && (forall c :: c in lines ==> parsers.parsesAs(t, c))
        && Strip(n) != "" && parsers.parsesAsName(n) && IsBelow(n, z)
        && (t == "SOA" ==> |lines| == 1 && n == z)
        && (t == "CNAME" ==>
              |lines| == 1 && n != z && forall b :: b in beside ==> b in {"CNAME", "RRSIG", "NSEC", "NSEC3"})
        && (t != "SOA" && t != "CNAME" ==> "CNAME" !in beside)
  {
    hide Canonical, AbsoluteName, Fields, ParseInt, Strip, EndsWith;
    FormNamesAreCanonical(f);
    BelowIsInZone(f.Name(), f.Zone());
    ManagedTypesAre(f.rtype);
  }

  lemma BelowIsInZone(name: string, zone: string)
    requires zone != ""
    ensures InZone(name, zone) <==> IsBelow(name, zone)
  {
  }
}
