/** What a request may do to the PTR set of a link that stays: leave it alone, or write it so that it serves the
    link. */
module ServedPtrs {
  import opened PyText
  import opened Names
  import opened RecordRules
  import opened PanelState
  import opened SyncLaws
  import opened ZoneHandlers
  import opened LinkRows

  /** A link's PTR set is exactly its forward name, and enabled. */
  predicate Serves(s: Store, ptr: string, link: Link) {
    Answers(s, ptr, link) && IsEnabled(s, PtrKey(link.reverseZone, ptr))
  }

  /** The link in the table now is the one that was there before, and its PTR set is as it was. */
  predicate IsUntouched(s: Store, s': Store, ptr: string)
    requires ptr in s'.links
  {
    var k := PtrKey(s'.links[ptr].reverseZone, ptr);
    ptr in s.links && s.links[ptr] == s'.links[ptr] && Lookup(s', k) == Lookup(s, k)
  }

  lemma WrittenSetServes(a: SyncArgs, s: Store, ptr: string, link: Link)
    requires IsName(a.owner.name) && link.forwardName == a.owner.name
    requires Lookup(s, PtrKey(link.reverseZone, ptr)) == Some(PtrSet(a))
    ensures Serves(s, ptr, link)
  {
    hide StripDots;
    PtrSetAnswers(a);
    assert Strip(a.owner.name) != "" by { CanonicalHasShape(a.owner.name); }
    assert [a.owner.name][..0] == [];
  }

  /** After a sync, whatever failed, a link is untouched or its PTR serves it. */
  lemma MaySyncServes(parsers: Parsers, s: Store, user: User, a: SyncArgs, s': Store, ptr: string)
    requires IsName(a.owner.name) && MaySync(parsers, s, user, a, s') && ptr in s'.links
    ensures IsUntouched(s, s', ptr) || Serves(s', ptr, s'.links[ptr])
  {
    hide Wanted, PtrSet, Serves, Answers, IsName;
    if s' != s {
      var written, gone :| Synced(parsers, s, user, a, s', written, gone);
      var wanted, link := Wanted(parsers, s, user, a), s'.links[ptr];
      LookupAfterSync(s, a, wanted, written, Retired(s, a, wanted), gone, PtrKey(link.reverseZone, ptr));
      if ptr in written { WrittenSetServes(a, s', ptr, link); }
    }
  }

  lemma MayFollowServes(parsers: Parsers, s: Store, user: User, f: RecordForm, s': Store, ptr: string)
    requires IsName(f.Name()) && IsName(f.OldKey().name) && MayFollow(parsers, s, user, f, s') && ptr in s'.links
    ensures IsUntouched(s, s', ptr) || Serves(s', ptr, s'.links[ptr])
  {
    hide MaySync, IsName, Canonical, AbsoluteName, ValidTtl, Fields, RecordsOf;
    if f.rtype in ADDRESS_TYPES || f.IsRename() {
      var t :| MayRetire(parsers, s, user, f.Sync(), Previous(f), t) && MaySync(parsers, t, user, f.Sync(), s');
      MaySyncServes(parsers, t, user, f.Sync(), s', ptr);
      if IsUntouched(t, s', ptr) && f.IsRename() {
        MaySyncServes(parsers, s, user, Retire(f.OldKey(), f.Ttl()), t, ptr);
      }
    }
  }

  /** The form saves a PTR set of this key and disables it. */
  predicate Disables(f: RecordForm, k: Key) {
    f.rtype == "PTR" && f.disabled && f.Key() == k
  }

  /** The form's set is what is stored for this key, a PTR set and disabled. */
  predicate IsDisabledBy(s: Store, f: RecordForm, k: Key) {
    Disables(f, k) && Lookup(s, k) == Some(f.Set())
  }

  /** After a save, whatever failed on its reverse side, a link is untouched, or its PTR answers and is enabled unless
      the form itself disabled it. */
  lemma SaveServes(parsers: Parsers, s: Store, user: User, f: RecordForm, s': Store, ptr: string)
    requires IsName(f.Name()) && IsName(f.OldKey().name)
    requires MayFinish(parsers, Written(s, f), user, f, s') && ptr in s'.links
    ensures var link := s'.links[ptr];
      var k := PtrKey(link.reverseZone, ptr);
      IsUntouched(s, s', ptr) || (Answers(s', ptr, link) && (IsEnabled(s', k) || IsDisabledBy(s', f, k)))
  {
    hide MayFollow, Answers, IsEnabled, Lookup, IsName;
    hide Canonical, AbsoluteName, ValidTtl, Fields, RecordsOf, AllCanonical;
    var written, link := Written(s, f), s'.links[ptr];
    var k := PtrKey(link.reverseZone, ptr);
    var t :| MayFollow(parsers, written, user, f, t) && s' == Unlinked(t, f);
    UnlinkedOnly(t, f, ptr);
    MayFollowServes(parsers, written, user, f, t, ptr);
    WrittenElsewhere(s, f, k);
    if IsUntouched(written, t, ptr) && k in Touched(f) {
      assert k != f.OldKey() || !f.IsRename();
      WrittenIsThere(s, f);
      FormSetContents(f);
      WrittenAnswers(t, f, ptr);
      FormSetEnabled(t, f);
    }
  }

  /** What is still linked after the last part of a save: nothing that was renamed, and no PTR with other content. */
  lemma UnlinkedOnly(t: Store, f: RecordForm, ptr: string)
    requires ptr in Unlinked(t, f).links
    ensures var s' := Unlinked(t, f);
      && ptr in t.links && t.links[ptr] == s'.links[ptr]
      && (forall k :: Lookup(s', k) == Lookup(t, k)) && (forall k :: IsEnabled(s', k) == IsEnabled(t, k))
      && Answers(s', ptr, t.links[ptr]) == Answers(t, ptr, t.links[ptr])
    ensures f.IsRename() && f.originalType == "PTR" ==> f.OldKey().name != ptr
    ensures f.rtype == "PTR" && f.Name() == ptr ==> AllCanonical(f.Lines()) == [t.links[ptr].forwardName]
  {
    hide Canonical, AbsoluteName, ValidTtl, Fields, RecordsOf, AllCanonical;
  }

  lemma WrittenElsewhere(s: Store, f: RecordForm, k: Key)
    ensures k !in Touched(f) ==> Lookup(Written(s, f), k) == Lookup(s, k)
    ensures Written(s, f).links == s.links
  {
    hide Canonical, AbsoluteName, ValidTtl, Fields, RecordsOf;
  }

  lemma WrittenIsThere(s: Store, f: RecordForm)
    ensures Lookup(Written(s, f), f.Key()) == Some(f.Set())
  {
    hide Canonical, AbsoluteName, ValidTtl, Fields, RecordsOf;
  }

  lemma WrittenAnswers(t: Store, f: RecordForm, p: string)
    requires p in t.links && f.Key() == PtrKey(t.links[p].reverseZone, p) && Lookup(t, f.Key()) == Some(f.Set())
    requires CanonicalContents(f.Set()) == AllCanonical(f.Lines())
    ensures Answers(t, p, t.links[p]) <==> AllCanonical(f.Lines()) == [t.links[p].forwardName]
  {
  }

  /** The set a form writes is enabled unless the form says otherwise. */
  lemma FormSetEnabled(t: Store, f: RecordForm)
    requires Lookup(t, f.Key()) == Some(f.Set())
    ensures f.Lines() != [] ==> (IsEnabled(t, f.Key()) <==> !f.disabled)
    ensures !f.disabled ==> IsEnabled(t, f.Key())
  {
    hide Fields, Canonical, AbsoluteName, ValidTtl;
    NoLineIsBlank(f);
    assert forall r :: r in f.Set().records ==> r.disabled == f.disabled;
    if f.Lines() != [] { assert f.Set().records[0] in f.Set().records; }
  }

  /** A PTR form adds no link and changes none. */
  lemma PtrFormKeepsRows(parsers: Parsers, s: Store, user: User, f: RecordForm, s': Store, ptr: string)
    requires f.rtype == "PTR" && MayFinish(parsers, Written(s, f), user, f, s') && ptr in s'.links
    ensures ptr in s.links && s'.links[ptr] == s.links[ptr]
  {
    hide MaySync, Wanted, Canonical, AbsoluteName, ValidTtl, Fields, RecordsOf, AllCanonical;
    var written := Written(s, f);
    var t :| MayFollow(parsers, written, user, f, t) && s' == Unlinked(t, f);
    UnlinkedOnly(t, f, ptr);
    if f.IsRename() {
      var u :| MayRetire(parsers, written, user, f.Sync(), Previous(f), u) && MaySync(parsers, u, user, f.Sync(), t);
      NothingWanted(parsers, written, user, f.OldKey(), f.Ttl());
      PtrsWantNothing(parsers, u, user, f);
      IdleSyncKeepsRows(parsers, u, user, f.Sync(), t, ptr);
      IdleSyncKeepsRows(parsers, written, user, Retire(f.OldKey(), f.Ttl()), u, ptr);
    }
  }

  lemma IdleSyncKeepsRows(parsers: Parsers, s: Store, user: User, a: SyncArgs, s': Store, ptr: string)
    requires Wanted(parsers, s, user, a) == map[] && MaySync(parsers, s, user, a, s') && ptr in s'.links
    ensures ptr in s.links && s'.links[ptr] == s.links[ptr]
  {
    hide Wanted, PtrSet, Answers;
  }

  /** A deletion, whatever failed, leaves the links that stay untouched or served. */
  lemma DeleteServes(parsers: Parsers, s: Store, user: User, k: Key, ttl: int, s': Store, ptr: string)
    requires IsName(k.name) && MayDelete(parsers, s, user, k, ttl, s') && ptr in s'.links
    ensures IsUntouched(s, s', ptr) || Serves(s', ptr, s'.links[ptr])
  {
    hide MaySync, Serves, IsName;
    if k.rtype in ADDRESS_TYPES { MaySyncServes(parsers, Without(s, k), user, Retire(k, ttl), s', ptr); }
  }
}
