/**
 DNS names as the panel writes them: canonical (lower case, one trailing dot), and relative to a
 zone the way a zone file shows them.
 */
module Names {
  import opened PyText

  function Canonical(name: string): (r: string)
    ensures r != "" ==> r[|r| - 1] == '.'
  {
    var s := Fold(name);
    if s == "" then ""
    else if s == "." then "."
    else StripDots(s) + "."
  }

  predicate IsCanonical(name: string) {
    Canonical(name) == name
  }

  /** What a canonical name looks like, said without running `Canonical`. */
  predicate HasCanonicalShape(name: string) {
    name == "" || (
      && IsTrimmed(name) && IsLower(name)
      && name[|name| - 1] == '.'
      && (|name| == 1 || name[|name| - 2] != '.'))
  }

  /** The names `canonical` leaves alone are exactly the trimmed lower-case ones with one trailing dot. */
  lemma CanonicalIffShape(name: string)
    ensures IsCanonical(name) <==> HasCanonicalShape(name)
  {
    var s := Fold(name);
    if HasCanonicalShape(name) && |name| > 1 {
      var body := name[..|name| - 1];
      assert StripDots(body) == body;
      StripDotsAppended(body);
      assert body + "." == name;
    }
    if IsCanonical(name) && name != "" {
      CanonicalHasShape(name);
    }
  }

  lemma CanonicalHasShape(name: string)
    ensures HasCanonicalShape(Canonical(name))
  {
    var s := Fold(name);
    var r := Canonical(name);
    if s != "" && s != "." {
      var body := StripDots(s);
      assert body <= s;
      if body != "" {
        assert r[0] == s[0] && r[|r| - 2] == body[|body| - 1];
      }
    }
  }

  /** `canonical` is idempotent, and a non-empty result carries exactly one trailing dot. */
  lemma CanonicalIdempotent(name: string)
    ensures Canonical(Canonical(name)) == Canonical(name)
    ensures var c := Canonical(name); c == "" || c == "." || (c[|c| - 1] == '.' && c[|c| - 2] != '.')
  {
    CanonicalHasShape(name);
    CanonicalIffShape(Canonical(name));
  }

  /** `name` is `zone` or ends in a dot and `zone`: the test every caller writes out by hand. */
  predicate InZone(name: string, zone: string) {
    name == zone || EndsWith(name, "." + zone)
  }

  function RelativeName(name: string, zone: string): string {
    var nameC, zoneC := Canonical(name), Canonical(zone);
    if nameC == zoneC then "@"
    else if EndsWith(nameC, "." + zoneC) then nameC[..|nameC| - (|zoneC| + 1)]
    else StripDots(nameC)
  }

  function AbsoluteName(name: string, zone: string): string {
    var n := Fold(name);
    var zoneC := Canonical(zone);
    if n == "" || n == "@" then zoneC
    else if EndsWith(n, ".") then Canonical(n)
    else Canonical(n + "." + StripDots(zoneC))
  }

  /** Every name the record editor works with is canonical. */
  lemma AbsoluteIsCanonical(name: string, zone: string)
    ensures IsCanonical(AbsoluteName(name, zone))
  {
    CanonicalIdempotent(zone);
    CanonicalIdempotent(Fold(name));
    CanonicalIdempotent(Fold(name) + "." + StripDots(Canonical(zone)));
  }

  lemma AbsoluteIsSome(name: string, zone: string)
    requires Canonical(zone) != ""
    ensures AbsoluteName(name, zone) != ""
  {
    hide StripDots;
    var n := Fold(name);
    if n != "" && n != "@" {
      CanonicalOfStart(n);
      CanonicalOfStart(n + "." + StripDots(Canonical(zone)));
    }
  }

  lemma CanonicalOfStart(n: string)
    requires n != "" && !IsSpace(n[0])
    ensures Canonical(n) != ""
  {
  }

  /** A relative name an operator can type that means itself: not `@`, not blank, no dot or blank at the end. */
  predicate IsPlainRelative(rel: string) {
    rel != "" && rel != "@" && IsTrimmed(rel) && IsLower(rel) && rel[|rel| - 1] != '.'
  }

  /** A canonical name is empty, the root, or a dotless body and its dot. */
  lemma BodyOfCanonical(name: string)
    requires HasCanonicalShape(name)
    ensures var body := StripDots(name);
      if name == "" || name == "." then body == ""
      else body != "" && name == body + "." && body[|body| - 1] != '.'
  {
    if name != "" && name != "." {
      assert name[|name| - 2] != '.';
      assert |StripDots(name)| == |name| - 1;
    }
  }

  /** What a zone adds behind a relative name as it is shown. */
  function Behind(zone: string): (r: string)
    ensures r != "" && r[0] == '.' && |r| >= |Canonical(zone)|
  {
    if Canonical(zone) == "." then "." else "." + Canonical(zone)
  }

  /** What `absolute_name` puts behind a relative name: it strips white space before the zone's final dot, and dots then
      at the end. */
  function Added(zone: string): (r: string)
    ensures r != "" && r[0] == '.' && r[|r| - 1] == '.'
  {
    var d := StripDots(Strip(StripDots(Canonical(zone))));
    if d == "" then "." else "." + d + "."
  }

  /** A zone name with no blank before its final dot, as every zone a server accepts has. */
  predicate IsZoneName(zone: string) {
    IsTrimmed(StripDots(Canonical(zone)))
  }

  /** The two agree for those. */
  lemma AddedIsBehindIff(zone: string)
    ensures Added(zone) == Behind(zone) <==> IsZoneName(zone)
    ensures !IsZoneName(zone) ==> |Added(zone)| < |Behind(zone)| && Behind(zone) == "." + Canonical(zone)
    ensures !IsZoneName(zone) ==> |Canonical(zone)| >= 2 && IsSpace(Canonical(zone)[|Canonical(zone)| - 2])
  {
    hide Canonical, Strip;
    var z := Canonical(zone);
    var base := StripDots(z);
    CanonicalHasShape(zone);
    BodyOfCanonical(z);
    if IsTrimmed(base) { assert Strip(base) == base && StripDots(base) == base by { StripDotsTwice(z); } }
  }

  lemma StripDotsTwice(x: string)
    ensures StripDots(StripDots(x)) == StripDots(x)
  {
  }

  lemma {:induction false} DropSpaceBehind(head: string, t: string, hi: nat)
    requires head != "" && !IsSpace(head[|head| - 1]) && hi <= |t|
    ensures DropSpace(head + t, 0, |head| + hi) == |head| + DropSpace(t, 0, hi)
  {
    if hi > 0 && IsSpace(t[hi - 1]) { DropSpaceBehind(head, t, hi - 1); }
  }

  lemma {:induction false} DropDotsBehind(head: string, t: string, hi: nat)
    requires head != "" && head[|head| - 1] != '.' && hi <= |t|
    ensures DropDots(head + "." + t, |head| + 1 + hi) ==
      if DropDots(t, hi) == 0 then |head| else |head| + 1 + DropDots(t, hi)
  {
    var s := head + "." + t;
    if hi == 0 { assert s[|head|] == '.'; }
    else if t[hi - 1] == '.' { DropDotsBehind(head, t, hi - 1); }
  }

  lemma StripBehind(head: string, t: string)
    requires head != "" && !IsSpace(head[0]) && !IsSpace(head[|head| - 1]) && (t != "" ==> !IsSpace(t[0]))
    ensures Strip(head + t) == head + Strip(t)
  {
    hide DropSpace;
    DropSpaceBehind(head, t, |t|);
    assert (head + t)[0] == head[0];
    assert SkipSpace(head + t, 0) == 0 && SkipSpace(t, 0) == 0;
    var hi := DropSpace(t, 0, |t|);
    assert (head + t)[..|head| + hi] == head + t[..hi];
  }

  lemma StripDotsBehind(head: string, t: string)
    requires head != "" && head[|head| - 1] != '.'
    ensures StripDots(head + "." + t) == if StripDots(t) == "" then head else head + "." + StripDots(t)
  {
    hide DropDots;
    DropDotsBehind(head, t, |t|);
    var s, hi := head + "." + t, DropDots(t, |t|);
    assert |s| == |head| + 1 + |t|;
    if hi == 0 { assert s[..|head|] == head; }
    else { assert s[..|head| + 1 + hi] == head + "." + t[..hi]; }
  }

  /** A plain relative name in front of a base: only the base loses white space and dots. */
  lemma JoinIsCanonical(rel: string, base: string)
    requires IsPlainRelative(rel) && IsLower(base)
    requires base != "" ==> !IsSpace(base[0])
    ensures var d := StripDots(Strip(base));
      Canonical(rel + "." + base) == rel + if d == "" then "." else "." + d + "."
  {
    hide Strip, StripDots, Fold, IsLower;
    var head, t := rel + ".", Strip(base);
    var d := StripDots(t);
    assert !IsSpace(head[0]) && head[|head| - 1] == '.';
    StripBehind(head, base);
    StripDotsBehind(rel, t);
    FoldOfLower(rel, base, t);
    assert d != "" ==> rel + "." + d + "." == rel + ("." + d + ".");
  }

  lemma FoldOfLower(rel: string, base: string, t: string)
    requires IsLower(rel) && IsLower(base) && t == Strip(base) && Strip(rel + "." + base) == rel + "." + t
    ensures Fold(rel + "." + base) == rel + "." + t
  {
    StripKeepsLower(base);
    assert IsLower(rel + "." + t);
  }

  lemma StripKeepsLower(s: string)
    requires IsLower(s)
    ensures IsLower(Strip(s))
  {
  }

  lemma AbsoluteOfPlain(f: string, zone: string)
    requires IsPlainRelative(f)
    ensures AbsoluteName(f, zone) == f + Added(zone)
  {
    hide Canonical, StripDots, Strip, Fold;
    var z := Canonical(zone);
    CanonicalHasShape(zone);
    BodyOfCanonical(z);
    PrefixKeepsStart(z);
    JoinIsCanonical(f, StripDots(z));
  }

  lemma PrefixKeepsStart(z: string)
    requires HasCanonicalShape(z)
    ensures IsLower(StripDots(z)) && (StripDots(z) != "" ==> !IsSpace(StripDots(z)[0]))
  {
  }

  /** The three ways an operator's text becomes a name. */
  lemma AbsoluteCases(rel: string, zone: string)
    ensures var f, a := Fold(rel), AbsoluteName(rel, zone);
      if f == "" || f == "@" then a == Canonical(zone)
      else if f[|f| - 1] == '.' then a == Canonical(f) && |a| <= |f|
      else IsPlainRelative(f) && a == f + Added(zone)
  {
    hide Canonical, Added, Fold;
    var f := Fold(rel);
    if f != "" && f != "@" {
      if f[|f| - 1] == '.' {
        CanonicalOfDotted(f);
      } else {
        AbsoluteOfPlain(f, zone);
      }
    }
  }

  lemma CanonicalOfDotted(f: string)
    requires f != "" && f[|f| - 1] == '.'
    requires IsTrimmed(f) && IsLower(f)
    ensures |Canonical(f)| <= |f|
  {
    assert Fold(f) == f;
  }

  /** The three ways a name is shown. */
  lemma RelativeCases(name: string, zone: string)
    ensures var n, rel, b := Canonical(name), RelativeName(name, zone), Behind(zone);
      if n == Canonical(zone) then rel == "@"
      else if EndsWith(n, b) then n == rel + b
      else n == "" == rel || n == rel + "."
  {
    hide Canonical, StripDots, IsLower, IsTrimmed;
    var n, z := Canonical(name), Canonical(zone);
    CanonicalHasShape(name);
    BodyOfCanonical(n);
    if n != z {
      if z == "." {
        assert !EndsWith(n, "." + z) by { if |n| >= 2 { assert n[|n| - 2] != '.' && ("." + z)[0] == '.'; } }
      } else if EndsWith(n, "." + z) {
        assert n == n[..|n| - (|z| + 1)] + ("." + z);
      }
    }
  }

  /** When showing a name relative to its zone and expanding it again gives it back: it is the zone, or a plain name in
      a zone without a blank before its final dot - or outside a zone of which nothing is left when expanding. */
  predicate ShowsFaithfully(name: string, zone: string) {
    var n, b := Canonical(name), Behind(zone);
    || n == Canonical(zone)
    || (EndsWith(n, b) && IsPlainRelative(n[..|n| - |b|]) && IsZoneName(zone))
    || (!EndsWith(n, b) && n != "" && IsPlainRelative(n[..|n| - 1]) && Added(zone) == ".")
  }

  /** Expanding the relative form of a name gives the name back in exactly these cases. */
  lemma AbsoluteUndoesRelative(name: string, zone: string)
    ensures AbsoluteName(RelativeName(name, zone), zone) == Canonical(name) <==> ShowsFaithfully(name, zone)
  {
    hide Canonical, AbsoluteName, RelativeName, Behind, Added, Fold, IsZoneName;
    var rel := RelativeName(name, zone);
    RelativeCases(name, zone);
    AbsoluteCases(rel, zone);
    AddedIsBehindIff(zone);
    var n, b, f := Canonical(name), Behind(zone), Fold(rel);
    if n != Canonical(zone) {
      if EndsWith(n, b) { BackInZone(n, rel, f, b, Added(zone)); }
      else { BackOutside(n, rel, f, Added(zone)); }
    }
  }

  lemma BackInZone(n: string, rel: string, f: string, b: string, added: string)
    requires n == rel + b && EndsWith(n, b) && f == Fold(rel) && (added == b || |added| < |b|)
    ensures n[..|n| - |b|] == rel
    ensures f + added == n <==> f == rel && added == b
  {
    hide Fold;
    assert |f| <= |rel|;
    if f + added == rel + b { SameBefore(f, rel, b); }
  }

  lemma BackOutside(n: string, rel: string, f: string, added: string)
    requires n == "" == rel || n == rel + "."
    requires f == Fold(rel) && added != "" && added[0] == '.' && added[|added| - 1] == '.'
    ensures n != "" ==> n[..|n| - 1] == rel
    ensures f != "" && !IsSpace(f[0]) && f + added == n ==> f == rel && added == "."
  {
    FoldKeepsPlain(rel);
    if f != "" && !IsSpace(f[0]) && f + added == n { NotCutShort(rel, f, added); }
  }

  /** Folding does not cut text off at a dot. */
  lemma NotCutShort(rel: string, f: string, added: string)
    requires f != "" && !IsSpace(f[0]) && f == Fold(rel) && f + added == rel + "." && added != "" && added[0] == '.'
    requires |f| <= |rel|
    ensures f == rel && added == "."
  {
    hide Fold;
    assert rel[0] == (rel + ".")[0] == (f + added)[0] == f[0];
    if |f| < |rel| {
      assert rel[|f|] == (rel + ".")[|f|] == (f + added)[|f|] == '.';
      FoldReaches(rel, |f|);
    } else {
      SameBefore(f, rel, ".");
    }
  }

  lemma FoldReaches(s: string, i: nat)
    requires i < |s| && !IsSpace(s[0]) && !IsSpace(s[i])
    ensures |Fold(s)| > i
  {
    assert SkipSpace(s, 0) == 0 && DropSpace(s, 0, |s|) > i;
  }

  /** Where expanding loses part of the zone, a text comes back only if it loses all of it. */
  lemma ShownOfBlank(z: string, b: string, added: string, rel: string, f: string, a: string, shown: string)
    requires |z| >= 2 && IsSpace(z[|z| - 2]) && b == "." + z
    requires added != "" && added[0] == '.' && added[|added| - 1] == '.' && |added| < |b|
    requires IsPlainRelative(f) && f == Fold(rel) && a == f + added
    requires if a == z then shown == "@" else if EndsWith(a, b) then a == shown + b else a == shown + "."
    ensures shown == rel <==> IsPlainRelative(rel) && added == "."
  {
    hide Fold;
    FoldKeepsPlain(rel);
    assert added == "." ==> a[|a| - 2] == f[|f| - 1] && !IsSpace(f[|f| - 1]);
    if a != z && !EndsWith(a, b) {
      if shown == rel { NotCutShort(rel, f, added); }
      if IsPlainRelative(rel) && added == "." { SameBefore(shown, rel, "."); }
    }
  }

  lemma FoldKeepsPlain(rel: string)
    ensures IsPlainRelative(rel) || rel == "@" ==> Fold(rel) == rel
    ensures |Fold(rel)| <= |rel|
  {
  }

  lemma SameBefore(x: string, y: string, b: string)
    requires x + b == y + b
    ensures x == y
  {
    assert |x| == |y| && x == (x + b)[..|x|] && y == (y + b)[..|y|];
  }

  /** The converse: the texts that come back are `@` and the plain relative names, if the zone has no blank before its
      final dot or nothing of it is left when expanding. */
  lemma RelativeUndoesAbsolute(rel: string, zone: string)
    ensures RelativeName(AbsoluteName(rel, zone), zone) == rel <==>
      rel == "@" || (IsPlainRelative(rel) && (IsZoneName(zone) || Added(zone) == "."))
  {
    hide Canonical, AbsoluteName, RelativeName, Behind, Added, Fold, IsZoneName;
    var a := AbsoluteName(rel, zone);
    AbsoluteCases(rel, zone);
    AbsoluteIsCanonical(rel, zone);
    RelativeCases(a, zone);
    AddedIsBehindIff(zone);
    var b, f, shown := Behind(zone), Fold(rel), RelativeName(a, zone);
    if IsPlainRelative(f) {
      assert a == f + Added(zone);
      if IsZoneName(zone) {
        assert EndsWith(a, b) && shown + b == f + b;
        SameBefore(shown, f, b);
      } else {
        ShownOfBlank(Canonical(zone), b, Added(zone), rel, f, a, shown);
      }
    }
  }
}
