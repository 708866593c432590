/** What the panel and its server store, and what one reverse sync does to it. */
module PanelState {
  import opened PyText
  import opened Names
  import opened ReverseNames
  import opened EnclosingZones
  import opened RecordRules

  datatype Record = Record(content: string, disabled: bool)

  datatype RRset = RRset(ttl: int, records: seq<Record>, comment: string)

  /** Where a record set is stored: zone, name and type, the names canonical. */
  datatype Key = Key(zone: string, name: string, rtype: string)

  /** One row of the link table; the row's PTR name is its key there. */
  datatype Link = Link(forwardZone: string, forwardName: string, forwardType: string, address: string,
                       reverseZone: string)

  /** The server's zones and record sets, the PTR links by PTR name, and the zone pairings. */
  datatype Store = Store(zones: set<string>, rrsets: map<Key, RRset>, links: map<string, Link>,
                         pairs: set<(string, string)>)

  datatype User = User(username: string, isOperator: bool, grants: set<string>)

  function TrimmedZone(zone: string): string {
    StripDots(Lower(zone))
  }

  /** `can_see_zone`, which is also `can_edit_zone`. */
  predicate CanEdit(user: User, zone: string) {
    user.isOperator || exists g :: g in user.grants && TrimmedZone(g) == TrimmedZone(zone)
  }

  function Lookup(s: Store, k: Key): Option<RRset> {
    if k in s.rrsets then Some(s.rrsets[k]) else None
  }

  /** The records `replace_rrset` sends: one per line that is not blank. */
  function RecordsOf(contents: seq<string>, disabled: bool): (rs: seq<Record>)
    ensures (forall c :: c in contents ==> Strip(c) != "") ==>
      |rs| == |contents| && forall i :: 0 <= i < |rs| ==> rs[i] == Record(contents[i], disabled)
  {
    if contents == [] then []
    else
      var rest := RecordsOf(contents[..|contents| - 1], disabled);
      var c := contents[|contents| - 1];
      if Strip(c) == "" then rest else rest + [Record(c, disabled)]
  }

  /** A new zone: the server seeds its SOA, and its NS set from the names given. A zone that exists stays as it is. */
  function CreatedZone(s: Store, zone: string, nameservers: seq<string>): Store {
    var seed := RRset(3600, [Record("a.misconfigured.dns.server.invalid. hostmaster." + zone
                                    + " 1 10800 3600 604800 3600", false)], "");
    var ns := RRset(3600, RecordsOf(nameservers, false), "");
    if zone == "" || zone in s.zones then s
    else
      var soa := s.rrsets[Key(zone, zone, "SOA") := seed];
      s.(zones := s.zones + {zone}, rrsets := if nameservers == [] then soa else soa[Key(zone, zone, "NS") := ns])
  }

  function CreatedZones(s: Store, zones: seq<string>, nameservers: seq<string>): Store {
    if zones == [] then s
    else CreatedZone(CreatedZones(s, zones[..|zones| - 1], nameservers), zones[|zones| - 1], nameservers)
  }

  // ----- one sync -----

  /** The forward record set a sync works for, its zone and name canonical. */
  datatype SyncArgs = SyncArgs(owner: Key, ttl: int, addresses: seq<string>, enabled: bool)

  datatype Target = Target(reverseZone: string, address: string)

  function Owner(link: Link): Key {
    Key(link.forwardZone, link.forwardName, link.forwardType)
  }

  function PtrKey(zone: string, ptr: string): Key {
    Key(zone, ptr, "PTR")
  }

  /** `ptr_name`, or `None` for text that is no address. */
  function PtrOf(parsers: Parsers, address: string): Option<string> {
    match parsers.address(Strip(address))
    case None => None
    case Some(ip) => Some(PtrName(ip))
  }

  function PairedZones(s: Store, zone: string): set<string> {
    set p | p in s.pairs && p.0 == zone :: p.1
  }

  function CanonicalSet(names: set<string>): set<string> {
    set n | n in names :: Canonical(n)
  }

  /** The zone a PTR goes to: one the forward zone is paired with if any fits, otherwise any on the server. */
  ghost function Placement(s: Store, zone: string, ptr: string): Option<string> {
    var paired := Enclosing(ptr, CanonicalSet(PairedZones(s, zone)));
    if paired.Some? then paired else Enclosing(ptr, CanonicalSet(s.zones))
  }

  ghost function AddTarget(parsers: Parsers, s: Store, user: User, zone: string, wanted: map<string, Target>,
                           address: string): map<string, Target>
  {
    var ptr := PtrOf(parsers, address);
    var place := if ptr.None? then None else Placement(s, zone, ptr.value);
    if place.None? || !CanEdit(user, place.value) then wanted
    else wanted[ptr.value := Target(place.value, address)]
  }

  ghost function Targets(parsers: Parsers, s: Store, user: User, zone: string, addresses: seq<string>): map<string,
                         Target> {
    if addresses == [] then map[]
    else
      var last := |addresses| - 1;
      AddTarget(parsers, s, user, zone, Targets(parsers, s, user, zone, addresses[..last]), addresses[last])
  }

  /** The PTRs a forward record set should own, each with its zone and address. */
  ghost function Wanted(parsers: Parsers, s: Store, user: User, a: SyncArgs): map<string, Target> {
    if a.enabled && a.owner.rtype in ADDRESS_TYPES then Targets(parsers, s, user, a.owner.zone, a.addresses) else map[]
  }

  /** The zone an address's PTR goes to, if it is an address and some zone fits. */
  ghost function PlaceOf(parsers: Parsers, s: Store, zone: string, address: string): Option<string> {
    var ptr := PtrOf(parsers, address);
    if ptr.None? then None else Placement(s, zone, ptr.value)
  }

  predicate IsSyncing(a: SyncArgs) {
    a.enabled && a.owner.rtype in ADDRESS_TYPES
  }

  /** One of the addresses has no paired zone that fits, so that all zones have to be listed. */
  ghost predicate NeedsListing(parsers: Parsers, s: Store, a: SyncArgs) {
    IsSyncing(a) && exists x :: x in a.addresses && IsUnpaired(parsers, s, a.owner.zone, x)
  }

  ghost predicate IsUnpaired(parsers: Parsers, s: Store, zone: string, address: string) {
    var ptr := PtrOf(parsers, address);
    ptr.Some? && Enclosing(ptr.value, CanonicalSet(PairedZones(s, zone))).None?
  }

  /** The addresses no zone fits, which the operator is told about. */
  ghost function Unplaced(parsers: Parsers, s: Store, zone: string, addresses: seq<string>): set<string> {
    set x | x in addresses && PtrOf(parsers, x).Some? && PlaceOf(parsers, s, zone, x).None?
  }

  /** The zones that fit but that the user may not edit. */
  ghost function Denied(parsers: Parsers, s: Store, user: User, zone: string, addresses: seq<string>): set<string> {
    set x | x in addresses && PlaceOf(parsers, s, zone, x).Some? && !CanEdit(user, PlaceOf(parsers, s, zone, x).value)
      :: PlaceOf(parsers, s, zone, x).value
  }

  function Owned(s: Store, owner: Key): set<string> {
    set p | p in s.links && Owner(s.links[p]) == owner
  }

  /** The PTR belongs to a record set of another name or type, whatever its zone. */
  predicate IsStolen(s: Store, ptr: string, owner: Key) {
    ptr in s.links && (s.links[ptr].forwardName != owner.name || s.links[ptr].forwardType != owner.rtype)
  }

  /** A link's PTR set, read back, is exactly its forward name. */
  predicate Answers(s: Store, ptr: string, link: Link) {
    var found := Lookup(s, PtrKey(link.reverseZone, ptr));
    found.Some? && CanonicalContents(found.value) == [link.forwardName]
  }

  function CanonicalContents(set_: RRset): seq<string> {
    seq(|set_.records|, i requires 0 <= i < |set_.records| => Canonical(set_.records[i].content))
  }

  /** The PTR set a sync writes. */
  function PtrSet(a: SyncArgs): RRset {
    RRset(a.ttl, RecordsOf([a.owner.name], false), "Linked to " + StripDots(a.owner.name) + " " + a.owner.rtype)
  }

  function LinkTo(a: SyncArgs, target: Target): Link {
    Link(a.owner.zone, a.owner.name, a.owner.rtype, target.address, target.reverseZone)
  }

  /**
   The store once the PTRs in `written` have been written and linked, the links in `dropped` forgotten
   and the PTR sets of those in `gone` deleted.
   */
  ghost function AfterSync(s: Store, a: SyncArgs, wanted: map<string, Target>, written: set<string>,
                           dropped: set<string>, gone: set<string>): Store
    requires written <= wanted.Keys && dropped <= s.links.Keys && gone <= dropped
  {
    var puts := set p | p in written :: PtrKey(wanted[p].reverseZone, p);
    var cuts := set p | p in gone :: PtrKey(s.links[p].reverseZone, p);
    Store(s.zones,
          map k | k in (s.rrsets.Keys - cuts) + puts :: if k in puts then PtrSet(a) else s.rrsets[k],
          map p | p in (s.links.Keys - dropped) + written ::
            if p in written then LinkTo(a, wanted[p]) else s.links[p],
          s.pairs)
  }

  /** The owned links that are no longer wanted. */
  ghost function Retired(s: Store, a: SyncArgs, wanted: map<string, Target>): set<string> {
    Owned(s, a.owner) - wanted.Keys
  }

  /** The part of them whose PTR still answers with the forward name. */
  ghost function StillOurs(s: Store, ptrs: set<string>): (ours: set<string>)
    ensures ours <= ptrs
  {
    set p | p in ptrs && p in s.links && Answers(s, p, s.links[p])
  }

  /** What a sync may do whatever calls fail: write some of what is wanted, forget what is not, delete some of that. */
  ghost predicate Synced(parsers: Parsers, s: Store, user: User, a: SyncArgs, s': Store, written: set<string>,
                         gone: set<string>)
  {
    var wanted := Wanted(parsers, s, user, a);
    var retired := Retired(s, a, wanted);
    && written <= wanted.Keys
    && gone <= StillOurs(s, retired)
    && s' == AfterSync(s, a, wanted, written, retired, gone)
  }

  /** What a sync may leave: the same store if it raised, or one it did part of its work on. */
  ghost predicate MaySync(parsers: Parsers, s: Store, user: User, a: SyncArgs, s': Store) {
    s' == s || exists written, gone :: Synced(parsers, s, user, a, s', written, gone)
  }

  /** What it does when no call fails. */
  ghost function CleanSync(parsers: Parsers, s: Store, user: User, a: SyncArgs): Store {
    var wanted := Wanted(parsers, s, user, a);
    var retired := Retired(s, a, wanted);
    AfterSync(s, a, wanted, wanted.Keys, retired, StillOurs(s, retired))
  }
}
