/**
 Reverse DNS names: the PTR name of an address, the reverse zones of a network, and which addresses
 those zones hold.
 */
module ReverseNames {
  import opened PyText
  import opened PyNumbers
  import opened Names
  import opened Powers
  import opened DottedNames

  datatype Family = V4 | V6

  /** An address: its family and its 32 or 128 bits as a number. */
  datatype Ip = Ip(family: Family, value: nat)

  /** A network as `ipaddress` reads it, the host bits not yet cleared. */
  datatype Cidr = Cidr(ip: Ip, prefix: nat)

  const MAX_ZONES_PER_NETWORK := 16

  function Bits(f: Family): nat { if f == V4 then 32 else 128 }

  function LabelBits(f: Family): nat { if f == V4 then 8 else 4 }

  function SmallestZonePrefix(f: Family): nat { if f == V4 then 24 else 64 }

  /** How many labels one address has in front of its family's suffix. */
  function LabelCount(f: Family): nat { if f == V4 then 4 else 32 }

  function Radix(f: Family): nat { if f == V4 then 256 else 16 }

  predicate IsIp(ip: Ip) {
    ip.value < Pow(2, Bits(ip.family))
  }

  predicate IsCidr(net: Cidr) {
    IsIp(net.ip) && net.prefix <= Bits(net.ip.family)
  }

  type Address = ip: Ip | IsIp(ip) witness (PowPositive(2, 32); Ip(V4, 0))

  type Network = net: Cidr | IsCidr(net) witness (PowPositive(2, 32); Cidr(Ip(V4, 0), 0))

  /** The size of the block of addresses that share their first `prefix` bits. */
  function Block(f: Family, prefix: nat): (size: nat)
    requires prefix <= Bits(f)
    ensures 0 < size
  {
    PowPositive(2, Bits(f) - prefix);
    Pow(2, Bits(f) - prefix)
  }

  /** `network.network_address`: the host bits cleared. */
  function NetworkAddress(net: Cidr): (r: Ip)
    requires IsCidr(net)
    ensures r.family == net.ip.family
  {
    var size := Block(net.ip.family, net.prefix);
    MulMonotone(0, net.ip.value / size, size);
    net.ip.(value := net.ip.value / size * size)
  }

  /** The interval of addresses a network stands for. */
  predicate Contains(net: Cidr, ip: Ip)
    requires IsCidr(net)
  {
    var first := NetworkAddress(net).value;
    ip.family == net.ip.family && first <= ip.value < first + Block(net.ip.family, net.prefix)
  }

  /** Two addresses of one family with the same first `prefix` bits. */
  predicate SharesPrefix(ip: Ip, x: Ip, prefix: nat)
    requires prefix <= Bits(x.family)
  {
    ip.family == x.family && ip.value / Block(x.family, prefix) == x.value / Block(x.family, prefix)
  }

  // ----- names -----

  function Digit(f: Family, value: nat, i: nat): (d: nat)
    ensures d < Radix(f)
  {
    PowPositive(Radix(f), i);
    value / Pow(Radix(f), i) % Radix(f)
  }

  /** An octet in decimal, or a nibble in hexadecimal. */
  function LabelText(f: Family, d: nat): string
    requires d < Radix(f)
  {
    if f == V4 then NatText(d) else [HexDigit(d)]
  }

  function HexDigit(d: nat): char
    requires d < 16
  {
    (if d < 10 then 48 + d else 87 + d) as char
  }

  function SuffixLabels(f: Family): seq<string> {
    if f == V4 then ["in-addr", "arpa"] else ["ip6", "arpa"]
  }

  /** The labels of an address, least significant first. */
  function BodyLabels(ip: Ip): (ls: seq<string>)
    ensures |ls| == LabelCount(ip.family)
  {
    seq(LabelCount(ip.family), i requires 0 <= i => LabelText(ip.family, Digit(ip.family, ip.value, i)))
  }

  /** `canonical(ip.reverse_pointer)`. */
  function PtrName(ip: Ip): string {
    Dotted(BodyLabels(ip) + SuffixLabels(ip.family))
  }

  /** `_zone_name`: the PTR name cut down to its most significant labels. */
  function ZoneName(ip: Ip, boundary: nat): string
    requires boundary <= Bits(ip.family)
  {
    PtrLabels(ip);
    var labels := SplitDots(PtrName(ip));
    var suffix := labels[|labels| - 3..];
    var body := labels[..|labels| - 3];
    var keep := boundary / LabelBits(ip.family);
    JoinDots(body[|body| - keep..] + suffix)
  }

  lemma LabelsAreLabels(ip: Ip)
    ensures AreLabels(BodyLabels(ip) + SuffixLabels(ip.family))
  {
    hide NatText, Digit;
    forall l | l in BodyLabels(ip) ensures IsLabel(l) {
      var i :| 0 <= i < LabelCount(ip.family) && l == LabelText(ip.family, Digit(ip.family, ip.value, i));
    }
  }

  lemma PtrLabels(ip: Ip)
    ensures SplitDots(PtrName(ip)) == BodyLabels(ip) + SuffixLabels(ip.family) + [""]
  {
    hide BodyLabels, SplitDots, Dotted;
    LabelsAreLabels(ip);
    SplitOfDotted(BodyLabels(ip) + SuffixLabels(ip.family));
  }

  /** The labels a zone keeps. */
  function ZoneLabels(ip: Ip, boundary: nat): seq<string>
    requires boundary <= Bits(ip.family)
  {
    BodyLabels(ip)[LabelCount(ip.family) - boundary / LabelBits(ip.family)..] + SuffixLabels(ip.family)
  }

  lemma ZoneNameIsDotted(ip: Ip, boundary: nat)
    requires boundary <= Bits(ip.family)
    ensures ZoneName(ip, boundary) == Dotted(ZoneLabels(ip, boundary))
  {
    hide BodyLabels, SplitDots, JoinDots, Dotted, PtrName;
    PtrLabels(ip);
    var labels := SplitDots(PtrName(ip));
    var body := BodyLabels(ip);
    var drop := |body| - boundary / LabelBits(ip.family);
    assert labels[..|labels| - 3] == body;
    assert labels[|labels| - 3..] == SuffixLabels(ip.family) + [""];
    assert body[drop..] + (SuffixLabels(ip.family) + [""]) == ZoneLabels(ip, boundary) + [""];
    JoinGivesDotted(ZoneLabels(ip, boundary));
  }

  /** Labels of lower-case letters, digits and hyphens, none of them empty. */
  predicate IsPlainLabel(s: string) {
    s != "" && IsLabel(s) && IsLower(s) && HasNoSpace(s)
  }

  lemma {:induction false} DottedIsCanonical(ls: seq<string>)
    requires forall l :: l in ls ==> IsPlainLabel(l)
    ensures HasCanonicalShape(Dotted(ls)) && HasNoSpace(Dotted(ls))
    ensures ls != [] ==> |Dotted(ls)| >= 2
  {
    if ls != [] {
      assert IsPlainLabel(ls[0]);
      var head, rest := ls[0], Dotted(ls[1..]);
      DottedIsCanonical(ls[1..]);
      var s := Dotted(ls);
      assert s == head + ("." + rest);
      assert ls[1..] == [] ==> rest == "";
      assert HasNoSpace(s) && IsLower(s);
      assert rest == "" ==> s[|s| - 2] == head[|head| - 1];
    }
  }

  lemma LabelTextIsPlain(f: Family, d: nat)
    requires d < Radix(f)
    ensures IsPlainLabel(LabelText(f, d))
  {
    hide NatText;
  }

  /** PTR names and zone names come out canonical. */
  lemma ZoneNameIsCanonical(ip: Ip, boundary: nat)
    requires boundary <= Bits(ip.family)
    ensures IsCanonical(PtrName(ip)) && IsCanonical(ZoneName(ip, boundary)) && ZoneName(ip, boundary) != ""
  {
    hide ZoneName, Dotted, IsPlainLabel, LabelText, Digit, Canonical;
    var ls := BodyLabels(ip) + SuffixLabels(ip.family);
    forall l | l in ls ensures IsPlainLabel(l) {
      if l in BodyLabels(ip) {
        var i :| 0 <= i < LabelCount(ip.family) && l == LabelText(ip.family, Digit(ip.family, ip.value, i));
        LabelTextIsPlain(ip.family, Digit(ip.family, ip.value, i));
      } else {
        assert l in SuffixLabels(ip.family);
        SuffixIsPlain(ip.family);
      }
    }
    var zs := ZoneLabels(ip, boundary);
    assert forall l :: l in zs ==> l in ls;
    ZoneNameIsDotted(ip, boundary);
    DottedIsCanonical(ls);
    DottedIsCanonical(zs);
    CanonicalIffShape(PtrName(ip));
    CanonicalIffShape(ZoneName(ip, boundary));
  }

  lemma SuffixIsPlain(f: Family)
    ensures forall l :: l in SuffixLabels(f) ==> IsPlainLabel(l)
  {
  }

  // ----- which addresses a zone holds -----

  lemma LabelTextInjective(f: Family, d: nat, e: nat)
    requires d < Radix(f) && e < Radix(f) && LabelText(f, d) == LabelText(f, e)
    ensures d == e
  {
    hide NatText;
    if f == V4 {
      NatTextInjective(d, e);
    } else {
      assert [HexDigit(d)][0] == [HexDigit(e)][0];
    }
  }

  /** Two addresses have the same digits from `m` on exactly when cutting the digits below `m` leaves the same
      number. */
  lemma {:induction false} DigitsAgree(f: Family, v: nat, w: nat, m: nat)
    requires m <= LabelCount(f)
    requires v < Pow(Radix(f), LabelCount(f)) && w < Pow(Radix(f), LabelCount(f))
    ensures var p := Pow(Radix(f), m);
      0 < p && (v / p == w / p <==> forall i :: m <= i < LabelCount(f) ==> Digit(f, v, i) == Digit(f, w, i))
    decreases LabelCount(f) - m
  {
    hide Digit, Pow;
    var b, n := Radix(f), LabelCount(f);
    var p := Pow(b, m);
    PowPositive(b, m);
    if m == n {
      DivUnique(v, p, 0);
      DivUnique(w, p, 0);
    } else {
      DigitsAgree(f, v, w, m + 1);
      PowNext(b, m);
      QuotientsAgree(v, w, b, p);
      DigitIs(f, v, m);
      DigitIs(f, w, m);
    }
  }

  lemma PowNext(b: nat, m: nat)
    ensures Pow(b, m + 1) == b * Pow(b, m)
  {
  }

  lemma QuotientsAgree(v: nat, w: nat, b: nat, p: nat)
    requires 0 < b && 0 < p
    ensures 0 < b * p && (v / p == w / p <==> v / (b * p) == w / (b * p) && v / p % b == w / p % b)
  {
    DivDiv(v, b, p);
    DivDiv(w, b, p);
    QuotientAndRest(v / p, w / p, b);
  }

  lemma DigitIs(f: Family, v: nat, i: nat)
    ensures Pow(Radix(f), i) > 0 && Digit(f, v, i) == v / Pow(Radix(f), i) % Radix(f)
  {
    PowPositive(Radix(f), i);
  }

  lemma QuotientAndRest(x: nat, y: nat, b: nat)
    requires 0 < b
    ensures x == y <==> x / b == y / b && x % b == y % b
  {
    assert x == x / b * b + x % b && y == y / b * b + y % b;
  }

  /** Cutting whole labels off is dividing by a block of addresses. */
  lemma BlockOfLabels(f: Family, m: nat)
    requires m <= LabelCount(f)
    ensures LabelBits(f) * m <= Bits(f) && Pow(Radix(f), m) == Block(f, Bits(f) - LabelBits(f) * m)
  {
    hide Pow;
    RadixIsPower(f);
    PowOfPow(LabelBits(f), m);
  }

  lemma RadixIsPower(f: Family)
    ensures Pow(2, LabelBits(f)) == Radix(f)
  {
    assert Pow(2, 4) == 16;
    PowAdd(2, 4, 4);
  }

  lemma SuffixOfSameFamily(ip: Ip, x: Ip, m: nat)
    requires ip.family == x.family && m <= LabelCount(x.family)
    ensures IsSuffix(BodyLabels(ip) + SuffixLabels(ip.family), BodyLabels(x)[m..] + SuffixLabels(x.family))
      <==> forall i :: m <= i < LabelCount(x.family) ==> Digit(x.family, ip.value, i) == Digit(x.family, x.value, i)
  {
    hide Digit, LabelText, SuffixLabels;
    var f := x.family;
    var a, b, t := BodyLabels(ip), BodyLabels(x), SuffixLabels(f);
    assert (a + t)[m..] == a[m..] + t;
    if a[m..] + t == b[m..] + t {
      forall i | m <= i < |b| ensures Digit(f, ip.value, i) == Digit(f, x.value, i) {
        assert (a[m..] + t)[i - m] == a[i] && (b[m..] + t)[i - m] == b[i];
        LabelTextInjective(f, Digit(f, ip.value, i), Digit(f, x.value, i));
      }
    }
  }

  lemma ZoneIsSuffix(ip: Ip, x: Ip, boundary: nat)
    requires boundary <= Bits(x.family) && boundary % LabelBits(x.family) == 0
    ensures InZone(PtrName(ip), ZoneName(x, boundary)) <==>
      IsSuffix(BodyLabels(ip) + SuffixLabels(ip.family), ZoneLabels(x, boundary))
  {
    hide BodyLabels, Dotted, ZoneName, InZone, IsSuffix;
    var a, z := BodyLabels(ip) + SuffixLabels(ip.family), ZoneLabels(x, boundary);
    ZoneNameIsDotted(x, boundary);
    LabelsAreLabels(ip);
    LabelsAreLabels(x);
    assert AreLabels(z) by {
      assert forall l :: l in z ==> l in BodyLabels(x) + SuffixLabels(x.family);
    }
    InZoneIffSuffix(a, z);
  }

  /** How many labels a boundary cuts off. */
  lemma LabelsCut(f: Family, boundary: nat)
    requires boundary <= Bits(f) && boundary % LabelBits(f) == 0
    ensures var m := LabelCount(f) - boundary / LabelBits(f);
      0 <= m <= LabelCount(f) && boundary == Bits(f) - LabelBits(f) * m
  {
  }

  lemma SharesIffDigits(ip: Ip, x: Ip, m: nat)
    requires IsIp(ip) && IsIp(x) && ip.family == x.family && m <= LabelCount(x.family)
    requires LabelBits(x.family) * m <= Bits(x.family)
    ensures SharesPrefix(ip, x, Bits(x.family) - LabelBits(x.family) * m) <==>
      forall i :: m <= i < LabelCount(x.family) ==> Digit(x.family, ip.value, i) == Digit(x.family, x.value, i)
  {
    hide Pow, Digit;
    var f := x.family;
    BlockOfLabels(f, m);
    BlockOfLabels(f, LabelCount(f));
    DigitsAgree(f, ip.value, x.value, m);
  }

  /** An address lies in the zone cut from another exactly when the two share its leading bits. */
  lemma ZoneHolds(ip: Ip, x: Ip, boundary: nat)
    requires IsIp(ip) && IsIp(x) && boundary <= Bits(x.family) && boundary % LabelBits(x.family) == 0
    ensures InZone(PtrName(ip), ZoneName(x, boundary)) <==> SharesPrefix(ip, x, boundary)
  {
    hide BodyLabels, ZoneName, Pow, Digit, InZone, PtrName, Block;
    var f := x.family;
    var m := LabelCount(f) - boundary / LabelBits(f);
    ZoneIsSuffix(ip, x, boundary);
    LabelsCut(f, boundary);
    if ip.family == f {
      SuffixOfSameFamily(ip, x, m);
      SharesIffDigits(ip, x, m);
    } else {
      var a, z := BodyLabels(ip) + SuffixLabels(ip.family), ZoneLabels(x, boundary);
      assert a[|a| - 2] != z[|z| - 2];
    }
  }

  // ----- the zones of a network -----

  /** The next label boundary at or after `prefix`. */
  function Boundary(f: Family, prefix: nat): (b: nat)
    requires prefix <= Bits(f)
    ensures prefix <= b <= Bits(f) && b % LabelBits(f) == 0 && b < prefix + LabelBits(f)
  {
    (prefix + LabelBits(f) - 1) / LabelBits(f) * LabelBits(f)
  }

  /** How many zones a network shorter than the smallest zone expands into. */
  function ZoneCount(f: Family, prefix: nat): nat
    requires prefix <= Bits(f)
  {
    Pow(2, Boundary(f, prefix) - prefix)
  }

  predicate IsRefused(net: Cidr)
    requires IsCidr(net)
  {
    net.prefix < SmallestZonePrefix(net.ip.family) && ZoneCount(net.ip.family, net.prefix) > MAX_ZONES_PER_NETWORK
  }

  /** The first address of the `i`th subnet: `net.subnets(new_prefix=boundary)`. */
  function SubnetAddress(net: Cidr, i: nat): (r: Ip)
    requires IsCidr(net)
    ensures r.family == net.ip.family
  {
    var f := net.ip.family;
    net.ip.(value := NetworkAddress(net).value + i * Block(f, Boundary(f, net.prefix)))
  }

  /** The reverse zones covering a network, or `None` for one that would need too many. */
  function ZonesForNetwork(net: Cidr): Option<seq<string>>
    requires IsCidr(net)
  {
    var f := net.ip.family;
    var smallest := SmallestZonePrefix(f);
    if net.prefix >= smallest then Some([ZoneName(NetworkAddress(net), smallest)])
    else if IsRefused(net) then None
    else Some(seq(ZoneCount(f, net.prefix),
                  i requires 0 <= i => ZoneName(SubnetAddress(net, i), Boundary(f, net.prefix))))
  }

  /** A network is refused exactly for seven IPv4 prefix lengths and for no IPv6 one; otherwise it has 1 to 16 zones. */
  lemma RefusedExactly(net: Cidr)
    requires IsCidr(net)
    ensures ZonesForNetwork(net).None? <==>
      net.ip.family == V4 && (1 <= net.prefix <= 3 || 9 <= net.prefix <= 11 || 17 <= net.prefix <= 19)
    ensures ZonesForNetwork(net).Some? ==> 1 <= |ZonesForNetwork(net).value| <= MAX_ZONES_PER_NETWORK
  {
    hide ZoneName, SubnetAddress, NetworkAddress, Pow;
    var f := net.ip.family;
    SmallPowers();
    if f == V6 { assert Boundary(f, net.prefix) - net.prefix <= 3; }
  }

  lemma SmallPowers()
    ensures Pow(2, 0) == 1 && Pow(2, 1) == 2 && Pow(2, 2) == 4 && Pow(2, 3) == 8
    ensures Pow(2, 4) == 16 && Pow(2, 5) == 32 && Pow(2, 6) == 64 && Pow(2, 7) == 128
  {
  }

  /** Dividing by a block is sharing the network's leading bits. */
  lemma ContainsIffQuotient(net: Cidr, ip: Ip)
    requires IsCidr(net)
    ensures Contains(net, ip) <==> SharesPrefix(ip, net.ip, net.prefix)
  {
    hide Block;
    var size := Block(net.ip.family, net.prefix);
    DivBounds(ip.value, size);
    if Contains(net, ip) { DivUnique(ip.value, size, net.ip.value / size); }
  }

  /** Cutting `prefix` bits is cutting at the boundary first and then the rest. */
  lemma BlockSplits(f: Family, prefix: nat, boundary: nat)
    requires prefix <= boundary <= Bits(f)
    ensures Block(f, prefix) == Pow(2, boundary - prefix) * Block(f, boundary)
  {
    PowAdd(2, boundary - prefix, Bits(f) - boundary);
  }

  lemma NetworkAddressIsIp(net: Cidr)
    requires IsCidr(net)
    ensures IsIp(NetworkAddress(net)) && SharesPrefix(NetworkAddress(net), net.ip, net.prefix)
  {
    hide Block;
    var size := Block(net.ip.family, net.prefix);
    DivBounds(net.ip.value, size);
    DivUnique(NetworkAddress(net).value, size, net.ip.value / size);
  }

  /** The `i`th subnet starts at the `i`th multiple of its block in the network. */
  lemma SubnetQuotient(net: Cidr, i: nat)
    requires IsCidr(net) && i < ZoneCount(net.ip.family, net.prefix)
    ensures var f := net.ip.family;
      var count, size := ZoneCount(f, net.prefix), Block(f, Boundary(f, net.prefix));
      SubnetAddress(net, i).value / size == net.ip.value / Block(f, net.prefix) * count + i
    ensures IsIp(SubnetAddress(net, i))
  {
    hide Pow, Block, Boundary;
    var f := net.ip.family;
    var boundary := Boundary(f, net.prefix);
    var count, size, whole := ZoneCount(f, net.prefix), Block(f, boundary), Block(f, net.prefix);
    var h := net.ip.value / whole;
    BlockSplits(f, net.prefix, boundary);
    Associate(h, count, size);
    DivAddMultiple(h * count, i, size);
    SubnetFits(net, i);
  }

  lemma SubnetFits(net: Cidr, i: nat)
    requires IsCidr(net) && i < ZoneCount(net.ip.family, net.prefix)
    ensures IsIp(SubnetAddress(net, i))
  {
    hide Pow, Boundary;
    var f := net.ip.family;
    var boundary := Boundary(f, net.prefix);
    var count, size, whole := ZoneCount(f, net.prefix), Block(f, boundary), Block(f, net.prefix);
    var h := net.ip.value / whole;
    BlockSplits(f, net.prefix, boundary);
    var all := Pow(2, net.prefix);
    PowAdd(2, net.prefix, Bits(f) - net.prefix);
    DivBounds(net.ip.value, whole);
    if all <= h { MulMonotone(all, h, whole); }
    MulMonotone(h + 1, all, whole);
    Distribute(h, 1, whole);
    MulMonotone(i + 1, count, size);
    Distribute(i, 1, size);
  }

  /** Which numbers have quotient `h`. */
  lemma QuotientIs(q: nat, count: nat, h: nat)
    requires 0 < count
    ensures q / count == h <==> h * count <= q < h * count + count
  {
    DivBounds(q, count);
    if h * count <= q < h * count + count { DivUnique(q, count, h); }
  }

  /** The position of an address's subnet, counted from the family's first. */
  function SubnetIndex(ip: Ip, net: Cidr): nat
    requires IsCidr(net)
  {
    ip.value / Block(net.ip.family, Boundary(net.ip.family, net.prefix))
  }

  /** The position of a network's first subnet, counted the same way. */
  function FirstSubnet(net: Cidr): nat
    requires IsCidr(net)
  {
    var whole: nat, count: nat := net.ip.value / Block(net.ip.family, net.prefix), ZoneCount(net.ip.family, net.prefix);
    whole * count
  }

  lemma SubnetHolds(net: Cidr, ip: Ip, i: nat)
    requires IsCidr(net) && IsIp(ip) && i < ZoneCount(net.ip.family, net.prefix)
    ensures InZone(PtrName(ip), ZoneName(SubnetAddress(net, i), Boundary(net.ip.family, net.prefix))) <==>
      ip.family == net.ip.family && SubnetIndex(ip, net) == FirstSubnet(net) + i
  {
    hide PtrName, ZoneName, InZone, Block, Boundary, Pow;
    SubnetQuotient(net, i);
    ZoneHolds(ip, SubnetAddress(net, i), Boundary(net.ip.family, net.prefix));
  }

  lemma NetworkIsItsSubnets(net: Cidr, ip: Ip)
    requires IsCidr(net)
    ensures var first, count := FirstSubnet(net), ZoneCount(net.ip.family, net.prefix);
      Contains(net, ip) <==> (ip.family == net.ip.family && first <= SubnetIndex(ip, net) < first + count)
  {
    hide Contains, Block, Boundary, Pow;
    var f := net.ip.family;
    var boundary := Boundary(f, net.prefix);
    var count, size := ZoneCount(f, net.prefix), Block(f, boundary);
    ContainsIffQuotient(net, ip);
    BlockSplits(f, net.prefix, boundary);
    PowPositive(2, boundary - net.prefix);
    DivDiv(ip.value, count, size);
    QuotientIs(ip.value / size, count, net.ip.value / Block(f, net.prefix));
  }

  ghost predicate InSomeZone(ip: Ip, zones: seq<string>) {
    exists i :: 0 <= i < |zones| && InZone(PtrName(ip), zones[i])
  }

  ghost predicate InOneZoneAtMost(ip: Ip, zones: seq<string>) {
    forall i, j | 0 <= i < |zones| && 0 <= j < |zones| ::
      InZone(PtrName(ip), zones[i]) && InZone(PtrName(ip), zones[j]) ==> i == j
  }

  /**
   Down to the smallest zone the returned zones are the network: an address lies in the network
   exactly when its PTR name lies in one of them, and it never lies in two.
   */
  lemma ZonesAreTheNetwork(net: Cidr, ip: Ip)
    requires IsCidr(net) && IsIp(ip)
    requires net.prefix <= SmallestZonePrefix(net.ip.family) && ZonesForNetwork(net).Some?
    ensures Contains(net, ip) <==> InSomeZone(ip, ZonesForNetwork(net).value)
    ensures InOneZoneAtMost(ip, ZonesForNetwork(net).value)
  {
    hide PtrName, ZoneName, InZone, Contains, Boundary, SubnetAddress, Pow, SubnetIndex, FirstSubnet;
    var zones := ZonesForNetwork(net).value;
    if net.prefix == SmallestZonePrefix(net.ip.family) {
      hide NetworkAddress, Block;
      NetworkAddressIsIp(net);
      ContainsIffQuotient(net, ip);
      ZoneHolds(ip, NetworkAddress(net), net.prefix);
      assert zones[0] == ZoneName(NetworkAddress(net), SmallestZonePrefix(net.ip.family));
    } else {
      hide Block;
      NetworkIsItsSubnets(net, ip);
      forall i | 0 <= i < |zones|
        ensures InZone(PtrName(ip), zones[i]) <==>
          ip.family == net.ip.family && SubnetIndex(ip, net) == FirstSubnet(net) + i
      {
        SubnetHolds(net, ip, i);
      }
      if Contains(net, ip) { assert InZone(PtrName(ip), zones[SubnetIndex(ip, net) - FirstSubnet(net)]); }
    }
  }

  /** Beyond the smallest zone there is one zone, and it holds the whole network. */
  lemma LongPrefixHasOneZone(net: Cidr, ip: Ip)
    requires IsCidr(net) && IsIp(ip) && net.prefix > SmallestZonePrefix(net.ip.family) && Contains(net, ip)
    ensures var zones := ZonesForNetwork(net);
      zones.Some? && |zones.value| == 1 && InZone(PtrName(ip), zones.value[0])
  {
    hide PtrName, ZoneName, InZone, Block, Pow, NetworkAddress, Contains;
    var f := net.ip.family;
    var smallest := SmallestZonePrefix(f);
    var x, whole := NetworkAddress(net), Block(f, net.prefix);
    var count := Pow(2, net.prefix - smallest);
    PowPositive(2, net.prefix - smallest);
    BlockSplits(f, smallest, net.prefix);
    DivDiv(ip.value, count, whole);
    DivDiv(x.value, count, whole);
    ContainsIffQuotient(net, ip);
    NetworkAddressIsIp(net);
    ZoneHolds(ip, x, smallest);
  }

  /** Every address of an accepted network has a zone among those returned. */
  lemma EveryAddressHasAZone(net: Cidr, ip: Ip)
    requires IsCidr(net) && IsIp(ip) && ZonesForNetwork(net).Some? && Contains(net, ip)
    ensures InSomeZone(ip, ZonesForNetwork(net).value)
  {
    hide *;
    if net.prefix <= SmallestZonePrefix(net.ip.family) { ZonesAreTheNetwork(net, ip); }
    else { LongPrefixHasOneZone(net, ip); SomeZone(ip, ZonesForNetwork(net).value, 0); }
  }

  lemma SomeZone(ip: Ip, zones: seq<string>, i: nat)
    requires i < |zones| && InZone(PtrName(ip), zones[i])
    ensures InSomeZone(ip, zones)
  {
  }

  // ----- a form's list of networks -----

  /** The zones of every accepted network in the list, in order. */
  function AllZones(entries: seq<string>, parse: string -> Option<Network>): seq<string> {
    if entries == [] then []
    else AllZones(entries[..|entries| - 1], parse) + ZonesOfEntry(entries[|entries| - 1], parse)
  }

  function ZonesOfEntry(entry: string, parse: string -> Option<Network>): seq<string> {
    var net := parse(entry);
    if net.None? || ZonesForNetwork(net.value).None? then [] else ZonesForNetwork(net.value).value
  }

  predicate IsAccepted(entry: string, parse: string -> Option<Network>) {
    parse(entry).Some? && ZonesForNetwork(parse(entry).value).Some?
  }

  /** The entries that are not networks, or need too many zones. */
  function Rejected(entries: seq<string>, parse: string -> Option<Network>): seq<string> {
    if entries == [] then []
    else
      var entry := entries[|entries| - 1];
      Rejected(entries[..|entries| - 1], parse) + if IsAccepted(entry, parse) then [] else [entry]
  }

  method ReverseZonesForNetworks(raw: string, parse: string -> Option<Network>)
    returns (zones: seq<string>, problems: seq<string>)
    ensures zones == FirstOnly(AllZones(Fields(raw, true), parse))
    ensures problems == Rejected(Fields(raw, true), parse)
  {
    hide ZonesForNetwork, FirstOnly, Fields, AllZones, Rejected;
    var entries := Fields(raw, true);
    zones, problems := [], [];
    FirstOnlyNone();
    NoEntries(parse);
    assert entries[..0] == [];
    for k := 0 to |entries|
      invariant zones == FirstOnly(AllZones(entries[..k], parse))
      invariant problems == Rejected(entries[..k], parse)
    {
      OneMoreEntry(entries, k, parse);
      var net := parse(entries[k]);
      var found := if net.None? then None else ZonesForNetwork(net.value);
      if found.None? {
        problems := problems + [entries[k]];
        assert AllZones(entries[..k], parse) + [] == AllZones(entries[..k], parse);
      } else {
        zones := AddNew(zones, found.value, AllZones(entries[..k], parse));
      }
    }
    assert entries[..|entries|] == entries;
  }

  lemma NoEntries(parse: string -> Option<Network>)
    ensures AllZones([], parse) == [] && Rejected([], parse) == []
  {
  }

  lemma OneMoreEntry(entries: seq<string>, k: nat, parse: string -> Option<Network>)
    requires k < |entries|
    ensures AllZones(entries[..k + 1], parse) == AllZones(entries[..k], parse) + ZonesOfEntry(entries[k], parse)
    ensures Rejected(entries[..k + 1], parse) ==
      Rejected(entries[..k], parse) + if IsAccepted(entries[k], parse) then [] else [entries[k]]
  {
    hide ZonesForNetwork;
    assert entries[..k + 1][..k] == entries[..k] && entries[..k + 1][k] == entries[k];
  }

  /** The inner loop of the form: appends the zones that are not listed yet. */
  method AddNew(listed: seq<string>, found: seq<string>, ghost before: seq<string>) returns (zones: seq<string>)
    requires listed == FirstOnly(before)
    ensures zones == FirstOnly(before + found)
  {
    hide FirstOnly;
    zones := listed;
    assert before + found[..0] == before;
    for i := 0 to |found|
      invariant zones == FirstOnly(before + found[..i])
    {
      assert before + found[..i + 1] == before + found[..i] + [found[i]];
      FirstOnlyAppend(before + found[..i], found[i]);
      if found[i] !in zones { zones := zones + [found[i]]; }
    }
    assert found[..|found|] == found;
  }

  lemma {:induction false} EntryIsCollected(entries: seq<string>, k: nat, parse: string -> Option<Network>)
    requires k < |entries|
    ensures forall z :: z in ZonesOfEntry(entries[k], parse) ==> z in AllZones(entries, parse)
  {
    if k < |entries| - 1 { EntryIsCollected(entries[..|entries| - 1], k, parse); }
  }
}
