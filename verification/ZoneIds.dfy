/** The recursor's identifiers for zone names. */
module ZoneIds {
  import opened PyText
  import opened Names

  predicate IsPlainChar(c: char) {
    'A' <= c <= 'Z' || 'a' <= c <= 'z' || '0' <= c <= '9' || c == '.' || c == '-'
  }

  function HexChar(d: nat): char
    requires d < 16
  {
    (if d < 10 then 48 + d else 55 + d) as char
  }

  function HexText(n: nat): string {
    if n < 16 then [HexChar(n)] else HexText(n / 16) + [HexChar(n % 16)]
  }

  /** The `02X` format: at least two digits, and more above 255. */
  function HexPadded(n: nat): string {
    if n < 16 then "0" + HexText(n) else HexText(n)
  }

  function EncodeChar(c: char): string {
    if IsPlainChar(c) then [c] else "=" + HexPadded(c as int)
  }

  function Encode(name: string): string {
    if name == "" then "" else EncodeChar(name[0]) + Encode(name[1..])
  }

  /** `apiNameToId`, which the server applies to a name as it was given. */
  function ApiId(name: string): string {
    var id := Encode(name);
    var dotted := if EndsWith(id, ".") then id else id + ".";
    if dotted == "." then "=2E" else dotted
  }

  function ZoneIdFor(name: string): string {
    ApiId(Canonical(name))
  }

  predicate IsLatin(s: string) {
    forall i :: 0 <= i < |s| ==> s[i] as int < 256
  }

  /** The name of a rule or zone as a server holds it: dotted, over the first 256 code points. */
  predicate IsServerName(name: string) {
    name != "" && name[|name| - 1] == '.' && IsLatin(name)
  }

  // ----- reading an identifier back -----

  function HexValue(c: char): (v: nat)
    ensures v < 16
  {
    if '0' <= c <= '9' then c as int - 48 else if 'A' <= c <= 'F' then c as int - 55 else 0
  }

  function Decode(id: string): string {
    if id == "" then ""
    else if id[0] == '=' && 3 <= |id| then [(16 * HexValue(id[1]) + HexValue(id[2])) as char] + Decode(id[3..])
    else [id[0]] + Decode(id[1..])
  }

  lemma TwoDigits(n: nat)
    requires n < 256
    ensures HexPadded(n) == [HexChar(n / 16), HexChar(n % 16)]
  {
    if n >= 16 { assert HexText(n / 16) == [HexChar(n / 16)]; }
  }

  /** Every code point below 256 reads back, whatever follows it. */
  lemma {:induction false} DecodeEncode(name: string)
    requires IsLatin(name)
    ensures Decode(Encode(name)) == name
  {
    if name != "" {
      var c, rest := name[0], Encode(name[1..]);
      DecodeEncode(name[1..]);
      LatinCharReads(c, rest);
    }
  }

  /** Reading an identifier's escapes back gives the name exactly when all its code points are below 256. */
  lemma {:induction false} DecodeEncodeIff(name: string)
    ensures Decode(Encode(name)) == name <==> IsLatin(name)
  {
    if IsLatin(name) { DecodeEncode(name); }
    else if name[0] as int < 256 {
      LatinCharReads(name[0], Encode(name[1..]));
      DecodeEncodeIff(name[1..]);
      assert [name[0]] + name[1..] == name;
      assert IsLatin(name[1..]) ==> IsLatin(name);
    } else {
      WideCharReads(name[0], Encode(name[1..]));
    }
  }

  lemma LatinCharReads(c: char, rest: string)
    requires c as int < 256
    ensures Decode(EncodeChar(c) + rest) == [c] + Decode(rest)
  {
    var id := EncodeChar(c) + rest;
    if IsPlainChar(c) {
      assert id == [c] + rest && id[1..] == rest;
    } else {
      TwoDigits(c as int);
      HexReadsBack(c as int);
      assert id == ['=', HexChar(c as int / 16), HexChar(c as int % 16)] + rest;
      assert id[3..] == rest;
    }
  }

  lemma WideCharReads(c: char, rest: string)
    requires c as int >= 256
    ensures Decode(EncodeChar(c) + rest) != "" && Decode(EncodeChar(c) + rest)[0] != c
  {
    var n := c as int;
    assert |HexText(n)| >= 2 by { assert |HexText(n / 16)| >= 1; }
    var id := EncodeChar(c) + rest;
    assert id[0] == '=' && |id| >= 3;
  }

  lemma HexReadsBack(n: nat)
    requires n < 256
    ensures 16 * HexValue(HexChar(n / 16)) + HexValue(HexChar(n % 16)) == n
  {
  }

  lemma {:induction false} EncodeEndsWithDot(name: string)
    requires name != "" && name[|name| - 1] == '.'
    ensures EndsWith(Encode(name), ".") && (Encode(name) == "." ==> name == ".")
  {
    if |name| > 1 {
      EncodeEndsWithDot(name[1..]);
      var rest := Encode(name[1..]);
      assert rest != "" && EncodeChar(name[0]) != "";
    } else {
      assert name == ".";
      assert Encode(name[1..]) == "";
    }
  }

  /** Two server names with one identifier are the same name; the root's identifier is no other's. */
  lemma ApiIdInjective(a: string, b: string)
    requires IsServerName(a) && IsServerName(b) && ApiId(a) == ApiId(b)
    ensures a == b
  {
    EncodeEndsWithDot(a);
    EncodeEndsWithDot(b);
    DecodeEncode(a);
    DecodeEncode(b);
  }

  /** Different zones have different identifiers. */
  lemma ZoneIdInjective(a: string, b: string)
    requires Canonical(a) != "" && Canonical(b) != "" && IsLatin(Canonical(a)) && IsLatin(Canonical(b))
    requires ZoneIdFor(a) == ZoneIdFor(b)
    ensures Canonical(a) == Canonical(b)
  {
    hide Canonical, ApiId;
    ApiIdInjective(Canonical(a), Canonical(b));
  }

  const WIDE := [0x100 as char, '.']
  const NARROW := [0x10 as char, '0', '.']

  lemma WideNamesAreCanonical()
    ensures IsCanonical(WIDE) && IsCanonical(NARROW)
  {
    hide Canonical;
    CanonicalIffShape(WIDE);
    CanonicalIffShape(NARROW);
  }

  lemma WideNamesEncode()
    ensures Encode(WIDE) == "=100." && Encode(NARROW) == "=100."
  {
    assert HexText(16) == "10" && HexText(0x100) == "100";
    assert WIDE[1..] == "." && NARROW[1..] == "0." && "0."[1..] == ".";
    assert Encode(".") == "." + Encode("") == ".";
    assert Encode("0.") == "0" + Encode(".") == "0.";
    assert EncodeChar(WIDE[0]) == "=100" && EncodeChar(NARROW[0]) == "=10";
  }

  /** Above 255 the escape is longer and runs into what follows: two different canonical names share an identifier. */
  lemma WideNamesCollide()
    ensures IsCanonical(WIDE) && IsCanonical(NARROW) && WIDE != NARROW && ZoneIdFor(WIDE) == ZoneIdFor(NARROW)
  {
    hide Canonical, Encode;
    WideNamesAreCanonical();
    WideNamesEncode();
    assert |WIDE| != |NARROW|;
  }
}
