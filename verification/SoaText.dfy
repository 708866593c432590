/** The SOA record behind the zone settings form: the administrator's address and the record's text. */
module SoaText {
  import opened PyText
  import opened Names

  // ----- the administrator's address -----

  /** `local.replace(".", "\\.")`. */
  function EscapeDots(s: string): string {
    if s == "" then "" else (if s[0] == '.' then "\\." else [s[0]]) + EscapeDots(s[1..])
  }

  /** The last `@` in `s[..hi]`; the caller has checked that there is one. */
  function LastAt(s: string, hi: nat): (at: nat)
    requires hi <= |s| && '@' in s[..hi]
    ensures at < hi && s[at] == '@' && '@' !in s[at + 1..hi]
  {
    if s[hi - 1] == '@' then hi - 1 else LastAt(s, hi - 1)
  }

  function LocalPart(email: string): string
    requires '@' in email
  {
    email[..LastAt(email, |email|)]
  }

  function DomainPart(email: string): string
    requires '@' in email
  {
    email[LastAt(email, |email|) + 1..]
  }

  function EmailToRname(email: string): string {
    var v := Strip(email);
    if v == "" then ""
    else if '@' !in v then Canonical(v)
    else Canonical(EscapeDots(LocalPart(v)) + "." + DomainPart(v))
  }

  /** Reads one label of a name, undoing escapes: the label and what follows its dot, if there is a dot. */
  function FirstLabel(s: string): Option<(string, string)> {
    if s == "" then None
    else if s[0] == '\\' && 1 < |s| then Prepend(s[1], FirstLabel(s[2..]))
    else if s[0] == '.' then Some(("", s[1..]))
    else Prepend(s[0], FirstLabel(s[1..]))
  }

  function Prepend(c: char, r: Option<(string, string)>): Option<(string, string)> {
    if r.None? then None else Some(([c] + r.value.0, r.value.1))
  }

  function EmailOf(rname: string): string {
    var v := StripDots(Strip(rname));
    match FirstLabel(v)
    case None => v
    case Some(parts) => parts.0 + "@" + parts.1
  }

  method RnameToEmail(rname: string) returns (email: string)
    ensures email == EmailOf(rname)
  {
    hide Strip, StripDots, FirstLabel, Reading;
    var value := StripDots(Strip(rname));
    ReadingNothing(value);
    if value == "" { return ""; }
    var local := "";
    var index := 0;
    while index < |value|
      invariant 0 <= index <= |value|
      invariant FirstLabel(value) == Reading(local, value[index..])
    {
      ReadingOne(local, value, index);
      if value[index] == '\\' && index + 1 < |value| {
        local := local + [value[index + 1]];
        index := index + 2;
      } else if value[index] == '.' {
        return local + "@" + value[index + 1..];
      } else {
        local := local + [value[index]];
        index := index + 1;
      }
    }
    ReadingNothing(value[index..]);
    return value;
  }

  /** What the loop has read so far, in front of what the rest of the name will give. */
  ghost function Reading(local: string, rest: string): Option<(string, string)> {
    var r := FirstLabel(rest);
    if r.None? then None else Some((local + r.value.0, r.value.1))
  }

  lemma ReadingNothing(value: string)
    ensures Reading("", value[0..]) == FirstLabel(value)
    ensures value == "" ==> FirstLabel(value) == None && forall local :: Reading(local, value) == None
  {
    assert value[0..] == value;
    var r := FirstLabel(value);
    if r.Some? { assert "" + r.value.0 == r.value.0; }
  }

  /** One turn of the loop. */
  lemma ReadingOne(local: string, value: string, index: nat)
    requires index < |value|
    ensures var rest := value[index..];
      Reading(local, rest) ==
        if rest[0] == '\\' && 1 < |rest| then Reading(local + [value[index + 1]], value[index + 2..])
        else if rest[0] == '.' then Some((local, value[index + 1..]))
        else Reading(local + [value[index]], value[index + 1..])
  {
    var rest := value[index..];
    assert rest[1..] == value[index + 1..] && local + "" == local;
    if 1 < |rest| { assert rest[2..] == value[index + 2..]; }
    var (c, tail) := if rest[0] == '\\' && 1 < |rest| then (rest[1], rest[2..]) else (rest[0], rest[1..]);
    Appending(local, c, tail);
  }

  lemma Appending(local: string, c: char, tail: string)
    ensures var r := Prepend(c, FirstLabel(tail));
      Reading(local + [c], tail) == if r.None? then None else Some((local + r.value.0, r.value.1))
  {
    hide FirstLabel;
    var r := FirstLabel(tail);
    if r.Some? { assert local + ([c] + r.value.0) == (local + [c]) + r.value.0; }
  }

  /** Splitting at the last `@` loses nothing. */
  lemma PartsOfEmail(local: string, domain: string)
    requires '@' !in domain
    ensures LocalPart(local + "@" + domain) == local && DomainPart(local + "@" + domain) == domain
  {
    hide LastAt;
    var e := local + "@" + domain;
    assert e[..|e|] == e && e[|local| + 1..] == domain && e[..|local|] == local;
    LastAtIs(e, |e|, |local|);
  }

  lemma {:induction false} LastAtIs(s: string, hi: nat, at: nat)
    requires at < hi <= |s| && s[at] == '@' && '@' !in s[at + 1..hi]
    ensures '@' in s[..hi] && LastAt(s, hi) == at
  {
    assert s[..hi][at] == '@';
    if at + 1 < hi {
      assert s[at + 1..hi][hi - 1 - at - 1] == s[hi - 1];
      assert s[at + 1..hi - 1] <= s[at + 1..hi];
      LastAtIs(s, hi - 1, at);
    }
  }

  predicate NoBackslash(s: string) {
    forall i :: 0 <= i < |s| ==> s[i] != '\\'
  }

  /** Escaping a label's dots is undone by reading the label, unless the label held a backslash itself. */
  lemma {:induction false} FirstLabelOfEscaped(local: string, domain: string)
    requires NoBackslash(local)
    ensures FirstLabel(EscapeDots(local) + "." + domain) == Some((local, domain))
  {
    var s := EscapeDots(local) + "." + domain;
    if local == "" {
      assert s == "." + domain && s[1..] == domain;
    } else {
      var rest := EscapeDots(local[1..]) + "." + domain;
      FirstLabelOfEscaped(local[1..], domain);
      assert [local[0]] + local[1..] == local;
      if local[0] == '.' { assert s == "\\." + rest && s[2..] == rest; }
      else { assert s == [local[0]] + rest && s[1..] == rest; }
    }
  }

  /** A label that comes back at its full length, with the whole domain behind it, held no backslash. */
  lemma {:induction false} BackslashShortens(local: string, domain: string)
    ensures var r := FirstLabel(EscapeDots(local) + "." + domain);
      r.Some? && |r.value.1| == |domain| ==>
        |r.value.0| <= |local| && (|r.value.0| == |local| ==> NoBackslash(local))
  {
    var s := EscapeDots(local) + "." + domain;
    if local == "" {
    } else if local[0] == '\\' {
      LeadingBackslash(local[1..], domain);
      if |local| > 1 && local[1] != '.' { BackslashShortens(local[2..], domain); }
    } else {
      var rest := EscapeDots(local[1..]) + "." + domain;
      if local[0] == '.' { assert s == "\\." + rest && s[2..] == rest; }
      else { assert s == [local[0]] + rest && s[1..] == rest; }
      BackslashShortens(local[1..], domain);
    }
  }

  lemma LeadingBackslash(t: string, domain: string)
    ensures var r := FirstLabel(EscapeDots("\\" + t) + "." + domain);
      if t == "" || t[0] == '.' then r.Some? ==> |r.value.1| != |domain|
      else r == Prepend(t[0], FirstLabel(EscapeDots(t[1..]) + "." + domain))
  {
    var local := "\\" + t;
    assert local[1..] == t;
    var s := EscapeDots(local) + "." + domain;
    assert s == "\\" + (EscapeDots(t) + "." + domain);
    if t == "" {
      assert s == "\\." + domain && s[2..] == domain;
      FirstLabelShorter(domain);
    } else {
      var rest := EscapeDots(t[1..]) + "." + domain;
      if t[0] == '.' { assert s == "\\\\." + rest && s[2..] == "." + rest; }
      else { assert s == ['\\', t[0]] + rest && s[2..] == rest; }
    }
  }

  /** What follows the label is a proper suffix. */
  lemma {:induction false} FirstLabelShorter(s: string)
    ensures var r := FirstLabel(s);
      r.Some? ==> |r.value.1| < |s| && EndsWith(s, r.value.1) && s[|s| - |r.value.1| - 1] == '.'
  {
    if s != "" {
      FirstLabelShorter(s[1..]);
      if |s| > 1 { FirstLabelShorter(s[2..]); }
    }
  }

  lemma {:induction false} EscapeKeepsText(s: string)
    ensures IsLower(s) ==> IsLower(EscapeDots(s))
    ensures '@' in EscapeDots(s) ==> '@' in s
    ensures s == "" <==> EscapeDots(s) == ""
    ensures s != "" ==> (EscapeDots(s)[0] == s[0] || EscapeDots(s)[0] == '\\')
  {
    if s != "" { EscapeKeepsText(s[1..]); }
  }

  /** Reading a canonical name back starts from the name without its dot. */
  lemma EmailOfCanonical(x: string)
    requires x != "" && IsTrimmed(x) && IsLower(x)
    ensures var r := FirstLabel(StripDots(x));
      EmailOf(Canonical(x)) == if r.None? then StripDots(x) else r.value.0 + "@" + r.value.1
  {
    hide StripDots, FirstLabel;
    CanonicalHasShape(x);
    StripDotsTwice(x);
    if x != "." { StripDotsAppended(StripDots(x)); }
  }

  /** The name an address becomes, before `canonical` sees it. */
  function RnameText(email: string): string
    requires '@' in email
  {
    EscapeDots(LocalPart(email)) + "." + DomainPart(email)
  }

  lemma RnameTextShape(email: string)
    requires '@' in email && IsTrimmed(email) && IsLower(email)
    ensures var x := RnameText(email); x != "" && IsTrimmed(x) && IsLower(x)
    ensures email == LocalPart(email) + "@" + DomainPart(email)
    ensures '@' in RnameText(email) ==> '@' in LocalPart(email)
    ensures '@' !in DomainPart(email)
    ensures EmailToRname(email) == Canonical(RnameText(email))
    ensures RnameText(email) == EscapeDots(LocalPart(email)) + "." + DomainPart(email)
  {
    hide Strip, Canonical, EscapeDots;
    assert email[..|email|] == email;
    var at := LastAt(email, |email|);
    var local, domain := LocalPart(email), DomainPart(email);
    assert email == local + "@" + domain && local == email[..at] && domain == email[at + 1..];
    EscapeKeepsText(local);
    assert IsLower(local) && IsLower(domain);
    TrimmedText(email, at, EscapeDots(local));
  }

  lemma TrimmedText(email: string, at: nat, escaped: string)
    requires at < |email| && IsTrimmed(email)
    requires at > 0 ==> escaped != "" && (escaped[0] == email[0] || escaped[0] == '\\')
    requires at == 0 ==> escaped == ""
    ensures IsTrimmed(escaped + "." + email[at + 1..])
  {
  }

  /** An address whose name reads back as itself: no backslash in front of the `@`, no dot at the very end. */
  predicate SurvivesRname(email: string)
    requires '@' in email
  {
    NoBackslash(LocalPart(email)) && DomainPart(email) != "" && email[|email| - 1] != '.'
  }

  /** From an address to a name and back. */
  lemma EmailComesBack(email: string)
    requires IsTrimmed(email) && IsLower(email) && '@' in email && SurvivesRname(email)
    ensures EmailOf(EmailToRname(email)) == email
  {
    hide Canonical, StripDots, FirstLabel, EmailOf, EmailToRname, RnameText, LocalPart, DomainPart, EscapeDots;
    var local, domain := LocalPart(email), DomainPart(email);
    RnameTextShape(email);
    var x := RnameText(email);
    EmailOfCanonical(x);
    FirstLabelOfEscaped(local, domain);
    StripDotsIsIdentity(x);
  }

  lemma StripDotsIsIdentity(x: string)
    requires x != "" && x[|x| - 1] != '.'
    ensures StripDots(x) == x
  {
  }

  /** For the addresses the form accepts, with one `@` and a domain, there are no others that come back. */
  lemma EmailComesBackIff(email: string)
    requires IsTrimmed(email) && IsLower(email)
    requires '@' in email && '@' !in LocalPart(email) && DomainPart(email) != ""
    ensures EmailOf(EmailToRname(email)) == email <==> SurvivesRname(email)
  {
    hide Canonical, EmailOf, EmailToRname, IsLower, IsTrimmed, NoBackslash;
    if SurvivesRname(email) { EmailComesBack(email); }
    if EmailOf(EmailToRname(email)) == email { OnlyThoseComeBack(email); }
  }

  lemma OnlyThoseComeBack(email: string)
    requires IsTrimmed(email) && IsLower(email)
    requires '@' in email && '@' !in LocalPart(email) && DomainPart(email) != ""
    requires EmailOf(EmailToRname(email)) == email
    ensures SurvivesRname(email)
  {
    hide Canonical, StripDots, FirstLabel, EmailOf, EmailToRname, RnameText, LocalPart, DomainPart, EscapeDots,
         NoBackslash, IsLower, IsTrimmed;
    var local, domain := LocalPart(email), DomainPart(email);
    RnameTextShape(email);
    var x := RnameText(email);
    var v := StripDots(x);
    EmailOfCanonical(x);
    FirstLabelShorter(v);
    assert '@' !in v;
    var (l, d) := FirstLabel(v).value;
    assert '@' !in d;
    PartsOfEmail(l, d);
    assert l == local && d == domain;
    assert email[|email| - 1] == d[|d| - 1] == v[|v| - 1];
    StripDotsIsIdentity(x);
    BackslashShortens(local, domain);
  }

  /** Two that do not: a backslash before the `@`, and a dot at the end. */
  lemma BackslashIsLost()
    ensures EmailOf(EmailToRname("a\\b@c.d")) != "a\\b@c.d"
    ensures EmailOf(EmailToRname("a@b.c.")) != "a@b.c."
  {
    hide EmailOf, EmailToRname, LocalPart, DomainPart;
    PartsOfEmail("a\\b", "c.d");
    PartsOfEmail("a", "b.c.");
    assert "a\\b" + "@" + "c.d" == "a\\b@c.d" && "a" + "@" + "b.c." == "a@b.c.";
    assert "a\\b"[1] == '\\';
    assert '@' in "a\\b@c.d" && '@' in "a@b.c.";
    EmailComesBackIff("a\\b@c.d");
    EmailComesBackIff("a@b.c.");
  }

  /** Every escape in the first label is of a dot. */
  predicate EscapesOnlyDots(s: string) {
    if s == "" then true
    else if s[0] == '\\' && 1 < |s| then s[1] == '.' && EscapesOnlyDots(s[2..])
    else s[0] == '.' || EscapesOnlyDots(s[1..])
  }

  lemma {:induction false} LabelEscapesAgain(s: string)
    requires EscapesOnlyDots(s) && FirstLabel(s).Some?
    ensures var (l, d) := FirstLabel(s).value;
      EscapeDots(l) + "." + d == s && (l != "" ==> l[0] == s[0] || l[0] == '.')
  {
    var (l, d) := FirstLabel(s).value;
    if s[0] == '\\' && 1 < |s| {
      LabelEscapesAgain(s[2..]);
      var rest := FirstLabel(s[2..]).value.0;
      assert l[1..] == rest && s == "\\." + (EscapeDots(rest) + "." + d);
    } else if s[0] == '.' {
    } else {
      LabelEscapesAgain(s[1..]);
      var rest := FirstLabel(s[1..]).value.0;
      assert l[1..] == rest && s == [s[0]] + (EscapeDots(rest) + "." + d);
    }
  }

  lemma EscapeStep(c: char, s: string)
    ensures EscapeDots([c] + s) == (if c == '.' then "\\." else [c]) + EscapeDots(s)
  {
    assert ([c] + s)[1..] == s;
  }

  lemma {:induction false} EscapeConcat(a: string, b: string)
    ensures EscapeDots(a + b) == EscapeDots(a) + EscapeDots(b)
  {
    hide EscapeDots;
    if a == "" {
      assert a + b == b;
      EscapeNothing();
    } else {
      var first := if a[0] == '.' then "\\." else [a[0]];
      EscapeConcat(a[1..], b);
      EscapeStep(a[0], a[1..] + b);
      EscapeStep(a[0], a[1..]);
      assert a + b == [a[0]] + (a[1..] + b) && a == [a[0]] + a[1..];
      assert first + (EscapeDots(a[1..]) + EscapeDots(b)) == (first + EscapeDots(a[1..])) + EscapeDots(b);
    }
  }

  lemma EscapeNothing()
    ensures EscapeDots("") == ""
  {
  }

  lemma {:induction false} LabelKeepsLower(s: string)
    requires IsLower(s) && FirstLabel(s).Some?
    ensures IsLower(FirstLabel(s).value.0)
  {
    if s[0] == '\\' && 1 < |s| { LabelKeepsLower(s[2..]); }
    else if s[0] != '.' { LabelKeepsLower(s[1..]); }
  }

  /** From a name to an address and back: the name survives unless its domain holds an `@`. */
  lemma RnameComesBackIff(rname: string)
    requires HasCanonicalShape(rname) && rname != "" && rname != "."
    requires IsTrimmed(StripDots(rname)) && EscapesOnlyDots(StripDots(rname))
    requires FirstLabel(StripDots(rname)).Some?
    ensures EmailToRname(EmailOf(rname)) == rname <==> '@' !in FirstLabel(StripDots(rname)).value.1
  {
    hide Canonical, StripDots, Strip, FirstLabel, EscapesOnlyDots, RnameText, EmailToRname;
    hide LocalPart, DomainPart, EscapeDots;
    var v := StripDots(rname);
    BodyOfCanonical(rname);
    var (l, d) := FirstLabel(v).value;
    var e := l + "@" + d;
    FirstLabelShorter(v);
    LabelEscapesAgain(v);
    LabelKeepsLower(v);
    assert d != "" && d[|d| - 1] == v[|v| - 1];
    assert IsTrimmed(e) && IsLower(e) && EmailOf(rname) == e;
    assert e[|l|] == '@';
    RnameTextShape(e);
    CanonicalOfText(RnameText(e));
    if '@' !in d {
      PartsOfEmail(l, d);
      StripDotsIsIdentity(v);
    } else {
      AtMovesLeft(l, d);
      var k := |EscapeDots(l)|;
      assert StripDots(RnameText(e))[k] == '@' && v[k] == '.';
    }
  }

  /** One that does not. */
  lemma AtInDomainIsLost()
    ensures EmailToRname(EmailOf("a.b@c.")) != "a.b@c."
  {
    var rname, v := "a.b@c.", "a.b@c";
    assert rname == v + ".";
    StripDotsAppended(v);
    StripDotsIsIdentity(v);
    assert FirstLabel(".b@c") == Some(("", "b@c")) by { assert ".b@c"[1..] == "b@c"; }
    assert v[1..] == ".b@c" && ['a'] + "" == "a" && FirstLabel(v) == Some(("a", "b@c"));
    assert EscapesOnlyDots(v) by { assert EscapesOnlyDots(".b@c"); }
    hide FirstLabel, StripDots, EscapesOnlyDots, EmailToRname, EmailOf;
    assert '@' == "b@c"[1];
    RnameComesBackIff(rname);
  }

  /** With an `@` in what should be the domain, `rpartition` cuts later and the label's end is not a dot. */
  lemma AtMovesLeft(l: string, d: string)
    requires '@' in d
    ensures var x := RnameText(l + "@" + d);
      |EscapeDots(l)| < |StripDots(x)| && x[|EscapeDots(l)|] == '@'
  {
    hide EscapeDots, StripDots, RnameText;
    var d0, d1 := SplitLastAt(d);
    JoinLeft(l, d0, d1);
    TextOfParts(l, d0, d1);
    AtStays(EscapeDots(l), EscapeDots(d0), d1);
  }

  lemma SplitLastAt(d: string) returns (d0: string, d1: string)
    requires '@' in d
    ensures d == d0 + "@" + d1 && '@' !in d1
  {
    assert d[..|d|] == d;
    var at := LastAt(d, |d|);
    d0, d1 := d[..at], d[at + 1..];
  }

  lemma JoinLeft(l: string, d0: string, d1: string)
    ensures l + "@" + (d0 + "@" + d1) == (l + ("@" + d0)) + "@" + d1
  {
  }

  lemma TextOfParts(l: string, d0: string, d1: string)
    requires '@' !in d1
    ensures RnameText((l + ("@" + d0)) + "@" + d1) == (EscapeDots(l) + ("@" + EscapeDots(d0))) + "." + d1
  {
    hide EscapeDots, LocalPart, DomainPart, LastAt;
    PartsOfEmail(l + ("@" + d0), d1);
    EscapeConcat(l, "@" + d0);
    AtEscapes(d0);
  }

  lemma AtStays(a: string, b: string, c: string)
    ensures var x := (a + ("@" + b)) + "." + c;
      |a| < |StripDots(x)| && x[|a|] == '@'
  {
    hide StripDots;
    var x := (a + ("@" + b)) + "." + c;
    assert x[|a|] == '@';
  }

  lemma AtEscapes(s: string)
    ensures EscapeDots("@" + s) == "@" + EscapeDots(s)
  {
    assert ("@" + s)[1..] == s;
  }

  lemma CanonicalOfText(x: string)
    requires x != "" && IsTrimmed(x) && IsLower(x)
    ensures Canonical(x) == if x == "." then "." else StripDots(x) + "."
  {
    assert Fold(x) == x;
  }
}
