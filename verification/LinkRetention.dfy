/** What keeps a link in the table: only requests about its own sets, its address or its zones can take it. */
module LinkRetention {
  import opened PyText
  import opened Names
  import opened RecordRules
  import opened PanelState
  import opened SyncLaws
  import opened ZoneHandlers
  import opened LinkRows
  import opened ZoneRuns
  import opened FailingRuns

  /** The form saves an address set that lists an address of this PTR name. */
  predicate Claims(parsers: Parsers, f: RecordForm, ptr: string) {
    f.rtype in ADDRESS_TYPES && exists address :: address in f.Lines() && PtrOf(parsers, address) == Some(ptr)
  }

  /**
   The requests that may take a link or give it to another record: a save, rename or deletion of its own forward set, a
   save that claims its address, an edit, rename or deletion of a PTR set of its name, the deletion of one of its zones.
   */
  predicate Concerns(parsers: Parsers, e: Event, ptr: string, link: Link) {
    match e
    case Save(_, f, _) =>
      || Owner(link) in Touched(f) || Claims(parsers, f, ptr)
      || (f.rtype == "PTR" && f.Name() == ptr) || (f.IsRename() && f.originalType == "PTR" && f.OldKey().name == ptr)
    case Delete(_, k, _) => k == Owner(link) || (k.rtype == "PTR" && k.name == ptr)
    case DropZone(zone) => zone == link.forwardZone || zone == link.reverseZone
    case _ => false
  }

  predicate IsRetained(s: Store, s': Store, ptr: string) {
    ptr in s.links ==> ptr in s'.links && s'.links[ptr] == s.links[ptr]
  }

  lemma SyncRetains(parsers: Parsers, s: Store, user: User, a: SyncArgs, s': Store, ptr: string)
    requires MaySync(parsers, s, user, a, s') && ptr !in Wanted(parsers, s, user, a)
    requires ptr in s.links ==> Owner(s.links[ptr]) != a.owner
    ensures IsRetained(s, s', ptr)
  {
    hide Wanted, PtrSet, Answers;
  }

  lemma RetireRetains(parsers: Parsers, s: Store, user: User, k: Key, ttl: int, s': Store, ptr: string)
    requires MaySync(parsers, s, user, Retire(k, ttl), s') && (ptr in s.links ==> Owner(s.links[ptr]) != k)
    ensures IsRetained(s, s', ptr)
  {
    hide MaySync, Wanted;
    NothingWanted(parsers, s, user, k, ttl);
    SyncRetains(parsers, s, user, Retire(k, ttl), s', ptr);
  }

  lemma FormSyncRetains(parsers: Parsers, s: Store, user: User, f: RecordForm, s': Store, ptr: string)
    requires MaySync(parsers, s, user, f.Sync(), s') && !Claims(parsers, f, ptr)
    requires ptr in s.links ==> Owner(s.links[ptr]) != f.Key()
    ensures IsRetained(s, s', ptr)
  {
    hide MaySync, Wanted, Fields, PtrOf, Placement, CanEdit, Canonical, AbsoluteName, ValidTtl;
    if ptr in Wanted(parsers, s, user, f.Sync()) { WantedIs(parsers, s, user, f.Sync(), ptr); }
    SyncRetains(parsers, s, user, f.Sync(), s', ptr);
  }

  lemma SaveRetains(parsers: Parsers, s: Store, user: User, f: RecordForm, existing: set<string>, s': Store,
                    ptr: string)
    requires ptr in s.links && !Concerns(parsers, Save(user, f, existing), ptr, s.links[ptr])
    requires MayFinish(parsers, Written(s, f), user, f, s')
    ensures IsRetained(s, s', ptr)
  {
    hide MaySync, Claims, Canonical, AbsoluteName, ValidTtl, Fields, RecordsOf, AllCanonical;
    var written := Written(s, f);
    var t :| MayFollow(parsers, written, user, f, t) && s' == Unlinked(t, f);
    if f.rtype in ADDRESS_TYPES || f.IsRename() {
      var u :| MayRetire(parsers, written, user, f.Sync(), Previous(f), u) && MaySync(parsers, u, user, f.Sync(), t);
      if f.IsRename() { RetireRetains(parsers, written, user, f.OldKey(), f.Ttl(), u, ptr); }
      FormSyncRetains(parsers, u, user, f, t, ptr);
    }
  }

  lemma DeleteRetains(parsers: Parsers, s: Store, user: User, k: Key, ttl: int, s': Store, ptr: string)
    requires ptr in s.links && !Concerns(parsers, Delete(user, k, ttl), ptr, s.links[ptr])
    requires MayDelete(parsers, s, user, k, ttl, s')
    ensures IsRetained(s, s', ptr)
  {
    hide MaySync;
    if k.rtype in ADDRESS_TYPES { RetireRetains(parsers, Without(s, k), user, k, ttl, s', ptr); }
  }

  /** Whatever calls fail, a request that does not concern a link leaves its row as it is. */
  lemma StepRetains(parsers: Parsers, s: Store, e: Event, s': Store, ptr: string)
    requires ptr in s.links && !Concerns(parsers, e, ptr, s.links[ptr]) && MayHappen(parsers, s, e, s')
    ensures IsRetained(s, s', ptr)
  {
    hide Concerns, IsDone, MayFinish, MayDelete, AllCanonical, Lookup, Canonical, AbsoluteName;
    if s' != s {
      match e
      case Save(user, f, existing) =>
        if MayFinish(parsers, Written(s, f), user, f, s') { SaveRetains(parsers, s, user, f, existing, s', ptr); }
      case Delete(user, k, ttl) => DeleteRetains(parsers, s, user, k, ttl, s', ptr);
      case DropZone(zone) => DropZoneRetains(parsers, s, zone, ptr);
      case Settings(_, zone, f) =>
      case Create(_, _) =>
    }
  }

  lemma DropZoneRetains(parsers: Parsers, s: Store, zone: string, ptr: string)
    requires ptr in s.links && !Concerns(parsers, DropZone(zone), ptr, s.links[ptr])
    ensures IsRetained(s, ZoneDeleted(s, zone), ptr)
  {
  }

  /**
   A link leaves the table, or changes in any way, only by a request that concerns it: over a run of others, with
   whatever failures, its row stays exactly as it was.
   */
  lemma {:induction false} RunRetains(parsers: Parsers, s: Store, events: seq<Event>, s': Store, ptr: string)
    requires ptr in s.links && MayRun(parsers, s, events, s')
    requires forall e :: e in events ==> !Concerns(parsers, e, ptr, s.links[ptr])
    ensures ptr in s'.links && s'.links[ptr] == s.links[ptr]
    decreases |events|
  {
    hide MayHappen, Concerns;
    if events != [] {
      var t :| MayHappen(parsers, s, events[0], t) && MayRun(parsers, t, events[1..], s');
      assert events[0] in events;
      StepRetains(parsers, s, events[0], t, ptr);
      RunRetains(parsers, t, events[1..], s', ptr);
    }
  }
}
