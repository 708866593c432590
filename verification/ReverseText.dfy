/** Reverse names as text: what is written for an address and for a zone, character by character. */
module ReverseText {
  import opened PyText
  import opened PyNumbers
  import opened Names
  import opened Powers
  import opened DottedNames
  import opened ReverseNames
  import opened PanelState
  import opened ZoneHandlers

  const DECIMAL := "0123456789"
  const HEXADECIMAL := "0123456789abcdef"

  /** A number below 1000 in decimal, without leading zeros. */
  function Shown(n: nat): string
    requires n < 1000
  {
    if n < 10 then [DECIMAL[n]]
    else if n < 100 then [DECIMAL[n / 10], DECIMAL[n % 10]]
    else [DECIMAL[n / 100], DECIMAL[n / 10 % 10], DECIMAL[n % 10]]
  }

  lemma ShownIs(n: nat)
    requires n < 1000
    ensures NatText(n) == Shown(n)
  {
    hide NatText, DigitChar;
    if n < 10 { OneDigit(n); }
    else if n < 100 { TwoDecimals(n); }
    else { ThreeDecimals(n); }
  }

  lemma TwoDecimals(n: nat)
    requires 10 <= n < 100
    ensures NatText(n) == [DECIMAL[n / 10], DECIMAL[n % 10]]
  {
    hide NatText, DigitChar;
    NextDigit(n);
    OneDigit(n / 10);
    DecimalIs(n % 10);
  }

  lemma ThreeDecimals(n: nat)
    requires 100 <= n < 1000
    ensures NatText(n) == [DECIMAL[n / 100], DECIMAL[n / 10 % 10], DECIMAL[n % 10]]
  {
    hide NatText, DigitChar;
    NextDigit(n);
    TwoDecimals(n / 10);
    DecimalIs(n % 10);
    assert n / 10 / 10 == n / 100;
  }

  lemma OneDigit(d: nat)
    requires d < 10
    ensures NatText(d) == [DECIMAL[d]]
  {
  }

  lemma NextDigit(n: nat)
    requires n >= 10
    ensures NatText(n) == NatText(n / 10) + [DigitChar(n % 10)]
  {
  }

  lemma DecimalIs(d: nat)
    requires d < 10
    ensures DECIMAL[d] == DigitChar(d)
  {
  }

  lemma HexIs(d: nat)
    requires d < 16
    ensures HEXADECIMAL[d] == HexDigit(d)
  {
  }

  // ----- IPv4 -----

  /** The address written a.b.c.d. */
  function Quad(a: nat, b: nat, c: nat, d: nat): Ip {
    Ip(V4, 16777216 * a + 65536 * b + 256 * c + d)
  }

  predicate AreOctets(a: nat, b: nat, c: nat, d: nat) {
    a < 256 && b < 256 && c < 256 && d < 256
  }

  lemma PowersOf256()
    ensures Pow(256, 0) == 1 && Pow(256, 1) == 256 && Pow(256, 2) == 65536 && Pow(256, 3) == 16777216
    ensures Pow(2, 32) == 4294967296
  {
    PowOfPow(8, 4);
    assert Pow(2, 8) == 256 && Pow(256, 4) == 256 * Pow(256, 3);
  }

  lemma OctetsAre(a: nat, b: nat, c: nat, d: nat)
    requires AreOctets(a, b, c, d)
    ensures var v := Quad(a, b, c, d).value;
      && IsIp(Quad(a, b, c, d))
      && Digit(V4, v, 0) == d && Digit(V4, v, 1) == c && Digit(V4, v, 2) == b && Digit(V4, v, 3) == a
  {
    PowersOf256();
    hide Pow;
    var v := Quad(a, b, c, d).value;
    assert v / 256 == 65536 * a + 256 * b + c;
    assert v / 65536 == 256 * a + b;
    assert v / 16777216 == a;
  }

  /** The labels of an IPv4 address from number `m` on, and the suffix: `m` is how many octets a zone leaves out. */
  function QuadText(a: nat, b: nat, c: nat, d: nat, m: nat): string
    requires AreOctets(a, b, c, d) && m <= 4
    decreases 4 - m
  {
    match m
    case 0 => Shown(d) + "." + QuadText(a, b, c, d, 1)
    case 1 => Shown(c) + "." + QuadText(a, b, c, d, 2)
    case 2 => Shown(b) + "." + QuadText(a, b, c, d, 3)
    case 3 => Shown(a) + "." + QuadText(a, b, c, d, 4)
    case 4 => "in-addr.arpa."
  }

  lemma DottedMore(l: string, ls: seq<string>)
    ensures Dotted([l] + ls) == l + "." + Dotted(ls)
  {
    assert ([l] + ls)[1..] == ls;
    assert l + ("." + Dotted(ls)) == l + "." + Dotted(ls);
  }

  lemma QuadLabels(a: nat, b: nat, c: nat, d: nat)
    requires AreOctets(a, b, c, d)
    ensures BodyLabels(Quad(a, b, c, d)) == [Shown(d), Shown(c), Shown(b), Shown(a)]
  {
    hide NatText, Shown, Digit;
    OctetsAre(a, b, c, d);
    ShownIs(a);
    ShownIs(b);
    ShownIs(c);
    ShownIs(d);
  }

  lemma V4SuffixIs()
    ensures Dotted(SuffixLabels(V4)) == "in-addr.arpa."
  {
    assert ["in-addr", "arpa"][1..] == ["arpa"] && ["arpa"][1..] == [];
    assert Dotted(["arpa"]) == "arpa.";
  }

  /** One label more. */
  lemma QuadStep(a: nat, b: nat, c: nat, d: nat, m: nat)
    requires AreOctets(a, b, c, d) && m < 4
    ensures QuadText(a, b, c, d, m) == BodyLabels(Quad(a, b, c, d))[m] + "." + QuadText(a, b, c, d, m + 1)
  {
    hide Shown, BodyLabels;
    QuadLabels(a, b, c, d);
  }

  lemma {:induction false} QuadDotted(a: nat, b: nat, c: nat, d: nat, m: nat)
    requires AreOctets(a, b, c, d) && m <= 4
    ensures Dotted(BodyLabels(Quad(a, b, c, d))[m..] + SuffixLabels(V4)) == QuadText(a, b, c, d, m)
    decreases 4 - m
  {
    hide Dotted, BodyLabels, SuffixLabels;
    var ls, suffix := BodyLabels(Quad(a, b, c, d)), SuffixLabels(V4);
    if m == 4 {
      V4SuffixIs();
      assert ls[4..] + suffix == suffix;
    } else {
      hide QuadText;
      QuadDotted(a, b, c, d, m + 1);
      QuadStep(a, b, c, d, m);
      assert ls[m..] + suffix == [ls[m]] + (ls[m + 1..] + suffix);
      DottedMore(ls[m], ls[m + 1..] + suffix);
    }
  }

  /** The PTR name of a.b.c.d is d.c.b.a in front of `in-addr.arpa.`, and a zone at a boundary of `8 * k` bits has the
      last `k` of those octets. */
  lemma QuadNames(a: nat, b: nat, c: nat, d: nat, k: nat)
    requires AreOctets(a, b, c, d) && k <= 4
    ensures PtrName(Quad(a, b, c, d)) == QuadText(a, b, c, d, 0)
    ensures ZoneName(Quad(a, b, c, d), 8 * k) == QuadText(a, b, c, d, 4 - k)
  {
    hide Dotted, Shown, BodyLabels, SuffixLabels, ZoneName, QuadText;
    var ip := Quad(a, b, c, d);
    assert BodyLabels(ip)[0..] == BodyLabels(ip);
    QuadDotted(a, b, c, d, 0);
    QuadDotted(a, b, c, d, 4 - k);
    ZoneNameIsDotted(ip, 8 * k);
  }

  // ----- IPv6 -----

  /** The `i`th nibble, counted from the least significant. */
  function Nibble(v: nat, i: nat): (n: nat)
    ensures n < 16
  {
    PowPositive(2, 4 * i);
    v / Pow(2, 4 * i) % 16
  }

  lemma NibbleIs(v: nat, i: nat)
    ensures Digit(V6, v, i) == Nibble(v, i)
  {
    hide Pow;
    PowOfPow(4, i);
    assert Pow(2, 4) == 16 by { SmallPowers(); }
  }

  lemma V6SuffixIs()
    ensures Dotted(SuffixLabels(V6)) == "ip6.arpa."
  {
    assert ["ip6", "arpa"][1..] == ["arpa"] && ["arpa"][1..] == [];
    assert Dotted(["arpa"]) == "arpa.";
  }

  /** The hexadecimal digits of an address from nibble `m` on, each with a dot behind it, and `ip6.arpa.`. */
  function NibbleText(v: nat, m: nat): string
    requires m <= 32
    decreases 32 - m
  {
    if m == 32 then "ip6.arpa." else [HEXADECIMAL[Nibble(v, m)]] + "." + NibbleText(v, m + 1)
  }

  lemma {:induction false} NibblesDotted(v: nat, m: nat)
    requires m <= 32
    ensures Dotted(BodyLabels(Ip(V6, v))[m..] + SuffixLabels(V6)) == NibbleText(v, m)
    decreases 32 - m
  {
    hide Dotted, Nibble, Digit, SuffixLabels;
    var ls := BodyLabels(Ip(V6, v));
    V6SuffixIs();
    if m == 32 {
      assert ls[32..] + SuffixLabels(V6) == SuffixLabels(V6);
    } else {
      NibblesDotted(v, m + 1);
      NibbleIs(v, m);
      HexIs(Nibble(v, m));
      assert ls[m] == [HEXADECIMAL[Nibble(v, m)]];
      assert ls[m..] + SuffixLabels(V6) == [ls[m]] + (ls[m + 1..] + SuffixLabels(V6));
      DottedMore(ls[m], ls[m + 1..] + SuffixLabels(V6));
    }
  }

  /** The PTR name of an IPv6 address is its 32 hexadecimal digits from the last to the first, each with a dot behind
      it, and `ip6.arpa.`; a zone at a boundary of `4 * k` bits has the last `k` of them. */
  lemma NibbleNames(v: nat, k: nat)
    requires k <= 32
    ensures PtrName(Ip(V6, v)) == NibbleText(v, 0) && ZoneName(Ip(V6, v), 4 * k) == NibbleText(v, 32 - k)
  {
    hide Dotted, BodyLabels, SuffixLabels, ZoneName, NibbleText;
    var ip := Ip(V6, v);
    assert BodyLabels(ip)[0..] == BodyLabels(ip);
    NibblesDotted(v, 0);
    NibblesDotted(v, 32 - k);
    ZoneNameIsDotted(ip, 4 * k);
  }

  // ----- the zones of networks -----

  lemma {:induction false} DottedEnds(ls: seq<string>, rest: seq<string>)
    ensures |Dotted(rest)| <= |Dotted(ls + rest)|
    ensures Dotted(ls + rest)[|Dotted(ls + rest)| - |Dotted(rest)|..] == Dotted(rest)
  {
    if ls == [] {
      assert ls + rest == rest;
    } else {
      DottedEnds(ls[1..], rest);
      assert (ls + rest)[1..] == ls[1..] + rest;
      var s, t := Dotted(ls + rest), Dotted(ls[1..] + rest);
      assert s == ls[0] + ("." + t);
      assert s[|s| - |t|..] == t;
    }
  }

  /** A zone of an IPv4 address is under `in-addr.arpa.`, and one of an IPv6 address under `ip6.arpa.`. */
  lemma ZoneEnds(ip: Ip, boundary: nat)
    requires boundary <= Bits(ip.family)
    ensures EndsWith(ZoneName(ip, boundary), if ip.family == V4 then "in-addr.arpa." else "ip6.arpa.")
  {
    hide Dotted, BodyLabels, SuffixLabels, ZoneName;
    ZoneNameIsDotted(ip, boundary);
    V4SuffixIs();
    V6SuffixIs();
    var drop := LabelCount(ip.family) - boundary / LabelBits(ip.family);
    DottedEnds(BodyLabels(ip)[drop..], SuffixLabels(ip.family));
  }

  /** So are all the zones of a network, and each is one that the settings form may offer as a reverse zone. */
  lemma ZonesEnd(net: Cidr, z: string)
    requires IsCidr(net) && ZonesForNetwork(net).Some? && z in ZonesForNetwork(net).value
    ensures EndsWith(z, if net.ip.family == V4 then "in-addr.arpa." else "ip6.arpa.") && IsReverseZone(z)
  {
    hide ZoneName, NetworkAddress, SubnetAddress, Boundary, Canonical, EndsWith, Pow;
    var f, zones := net.ip.family, ZonesForNetwork(net).value;
    if net.prefix >= SmallestZonePrefix(f) {
      ZoneEnds(NetworkAddress(net), SmallestZonePrefix(f));
      ZoneNameIsCanonical(NetworkAddress(net), SmallestZonePrefix(f));
    } else {
      var i :| 0 <= i < |zones| && z == zones[i];
      ZoneEnds(SubnetAddress(net, i), Boundary(f, net.prefix));
      ZoneNameIsCanonical(SubnetAddress(net, i), Boundary(f, net.prefix));
    }
  }

  /** Addresses that share the leading bits of a boundary have one zone there. */
  lemma SameZone(x: Ip, y: Ip, boundary: nat)
    requires IsIp(x) && IsIp(y) && boundary <= Bits(y.family) && boundary % LabelBits(y.family) == 0
    requires SharesPrefix(x, y, boundary)
    ensures ZoneName(x, boundary) == ZoneName(y, boundary)
  {
    hide Pow, Digit, Dotted, ZoneName, Block, LabelText, SuffixLabels;
    var f := y.family;
    var m := LabelCount(f) - boundary / LabelBits(f);
    LabelsCut(f, boundary);
    SharesIffDigits(x, y, m);
    ZoneNameIsDotted(x, boundary);
    ZoneNameIsDotted(y, boundary);
    assert BodyLabels(x)[m..] == BodyLabels(y)[m..];
  }

  lemma NetworkZone(net: Cidr, boundary: nat)
    requires IsCidr(net) && boundary <= net.prefix && boundary % LabelBits(net.ip.family) == 0
    ensures ZoneName(NetworkAddress(net), boundary) == ZoneName(net.ip, boundary)
  {
    hide Pow, Block, ZoneName, NetworkAddress;
    var f := net.ip.family;
    var x, whole, count := NetworkAddress(net), Block(f, net.prefix), Pow(2, net.prefix - boundary);
    PowPositive(2, net.prefix - boundary);
    BlockSplits(f, boundary, net.prefix);
    NetworkAddressIsIp(net);
    DivDiv(x.value, count, whole);
    DivDiv(net.ip.value, count, whole);
    SameZone(x, net.ip, boundary);
  }

  /** A network of /24 or longer has the zone of its /24. */
  lemma LongQuadZone(a: nat, b: nat, c: nat, d: nat, prefix: nat)
    requires AreOctets(a, b, c, d) && 24 <= prefix <= 32
    ensures IsIp(Quad(a, b, c, d))
    ensures ZonesForNetwork(Cidr(Quad(a, b, c, d), prefix)) == Some([QuadText(a, b, c, d, 1)])
  {
    hide QuadText, ZoneName, NetworkAddress, Pow;
    OctetsAre(a, b, c, d);
    var net := Cidr(Quad(a, b, c, d), prefix);
    NetworkZone(net, 24);
    QuadNames(a, b, c, d, 3);
  }

  /** A network of /64 or longer has the zone of its /64, whose name has its first 16 hexadecimal digits. */
  lemma LongNibbleZone(v: nat, prefix: nat)
    requires IsIp(Ip(V6, v)) && 64 <= prefix <= 128
    ensures ZonesForNetwork(Cidr(Ip(V6, v), prefix)) == Some([NibbleText(v, 16)])
  {
    hide ZoneName, NetworkAddress, Pow, NibbleText;
    NetworkZone(Cidr(Ip(V6, v), prefix), 64);
    NibbleNames(v, 16);
  }

  /** The leading bits of the address are those of the network. */
  predicate IsInNetwork(ip: Ip, net: Cidr)
    requires IsCidr(net)
  {
    var rest: nat := if net.ip.family == V4 then 32 - net.prefix else 128 - net.prefix;
    PowPositive(2, rest);
    ip.family == net.ip.family && ip.value / Pow(2, rest) == net.ip.value / Pow(2, rest)
  }

  /** A shorter network has as many zones as its length is bits short of a label. */
  lemma ShortNetworkCount(net: Cidr)
    requires IsCidr(net) && ZonesForNetwork(net).Some?
    requires net.prefix < if net.ip.family == V4 then 24 else 64
    ensures var p := net.prefix;
      |ZonesForNetwork(net).value| == if net.ip.family == V4 then Pow(2, (32 - p) % 8) else Pow(2, (64 - p) % 4)
  {
    hide ZoneName, SubnetAddress, Pow;
  }

  /** And an address is in it exactly when its PTR name is in one of them. */
  lemma ShortNetworkZones(net: Cidr, ip: Ip)
    requires IsCidr(net) && IsIp(ip) && ZonesForNetwork(net).Some?
    requires net.prefix < if net.ip.family == V4 then 24 else 64
    ensures IsInNetwork(ip, net) <==> exists z :: z in ZonesForNetwork(net).value && InZone(PtrName(ip), z)
  {
    hide ZonesForNetwork, PtrName, InZone, Contains, Pow, IsInNetwork;
    NetworkHas(net, ip);
    ZonesAreTheNetwork(net, ip);
    var zones := ZonesForNetwork(net).value;
    if z :| z in zones && InZone(PtrName(ip), z) {
      var i :| 0 <= i < |zones| && zones[i] == z;
      assert InSomeZone(ip, zones);
    }
  }

  lemma NetworkHas(net: Cidr, ip: Ip)
    requires IsCidr(net)
    ensures IsInNetwork(ip, net) <==> Contains(net, ip)
  {
    hide Pow, Contains;
    ContainsIffQuotient(net, ip);
  }

  // ----- the list on the form -----

  /** The entry is a network that does not need too many zones, and this is one of them. */
  ghost predicate IsZoneOf(entry: string, parse: string -> Option<Network>, zone: string) {
    parse(entry).Some? && ZonesForNetwork(parse(entry).value).Some? && zone in ZonesForNetwork(parse(entry).value).value
  }

  /** The list has the zones of the accepted entries and no others, each once. */
  lemma {:induction false} ListedIff(entries: seq<string>, parse: string -> Option<Network>, zone: string)
    ensures zone in FirstOnly(AllZones(entries, parse)) <==>
      exists e :: e in entries && IsZoneOf(e, parse, zone)
    ensures var all := FirstOnly(AllZones(entries, parse));
      forall i, j :: 0 <= i < j < |all| ==> all[i] != all[j]
  {
    hide FirstOnly, ZonesForNetwork;
    if entries != [] {
      var front, last := entries[..|entries| - 1], entries[|entries| - 1];
      ListedIff(front, parse, zone);
      assert forall e :: e in entries <==> e in front || e == last;
      assert zone in ZonesOfEntry(last, parse) <==> IsZoneOf(last, parse, zone);
    }
  }

  /** Exactly the other entries are reported. */
  lemma {:induction false} ReportedIff(entries: seq<string>, parse: string -> Option<Network>, entry: string)
    ensures entry in Rejected(entries, parse) <==>
      entry in entries && (parse(entry).None? || ZonesForNetwork(parse(entry).value).None?)
  {
    hide ZonesForNetwork;
    if entries != [] {
      var front := entries[..|entries| - 1];
      ReportedIff(front, parse, entry);
      assert forall e :: e in entries <==> e in front || e == entries[|entries| - 1];
    }
  }
}
