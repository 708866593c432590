/** What the text functions give, said of the characters that go in. */
module TextLaws {
  import opened PyText
  import opened PyNumbers
  import opened Names
  import opened SoaText
  import opened SoaRecord
  import opened ZoneIds

  // ----- characters -----

  /** White space of the first 256 code points. */
  lemma SpacesAre(c: char)
    ensures IsSpace(c) <==>
      var n := c as int; (9 <= n && n <= 13) || (28 <= n && n <= 32) || n == 133 || n == 160
  {
  }

  /** Lower case of the first 256 code points: 32 behind each capital of the Latin alphabet and its accented ones. */
  lemma LowerCaseIs(c: char)
    ensures var n := c as int;
      var isCapital := (65 <= n && n <= 90) || (192 <= n && n <= 222 && n != 215);
      LowerChar(c) as int == if isCapital then n + 32 else n
  {
  }

  lemma LineBreaksAre(c: char)
    ensures IsLineBreak(c) <==>
      c as int in {10, 11, 12, 13, 28, 29, 30, 133, 8232, 8233}
  {
  }

  predicate IsBlank(s: string) {
    forall i :: 0 <= i < |s| ==> IsSpace(s[i])
  }

  predicate AreDots(s: string) {
    forall i :: 0 <= i < |s| ==> s[i] == '.'
  }

  // ----- stripping -----

  /** Stripping takes exactly the white space around a text that neither begins nor ends with any. */
  lemma StripIs(before: string, body: string, behind: string)
    requires IsBlank(before) && IsBlank(behind) && IsTrimmed(body)
    ensures Strip(before + body + behind) == body
  {
    var s := before + body + behind;
    if body == "" {
      assert IsBlank(s);
      SkipsAll(s, 0);
    } else {
      SkipsTo(s, 0, |before|);
      DropsTo(s, |before|, |s|, |before| + |body|);
      assert s[|before|..|before| + |body|] == body;
    }
  }

  lemma {:induction false} SkipsTo(s: string, i: nat, at: nat)
    requires i <= at < |s| && !IsSpace(s[at]) && forall k :: i <= k < at ==> IsSpace(s[k])
    ensures SkipSpace(s, i) == at
    decreases at - i
  {
    if i < at { SkipsTo(s, i + 1, at); }
  }

  lemma {:induction false} SkipsAll(s: string, i: nat)
    requires i <= |s| && IsBlank(s)
    ensures SkipSpace(s, i) == |s|
    decreases |s| - i
  {
    if i < |s| { SkipsAll(s, i + 1); }
  }

  lemma {:induction false} DropsTo(s: string, lo: nat, hi: nat, at: nat)
    requires lo < at <= hi <= |s| && !IsSpace(s[at - 1]) && forall k :: at <= k < hi ==> IsSpace(s[k])
    ensures DropSpace(s, lo, hi) == at
  {
    if at < hi { DropsTo(s, lo, hi - 1, at); }
  }

  // ----- canonical names -----

  /** A canonical name is the text without white space around it, in lower case, and with one dot instead of any number
      behind it. */
  lemma CanonicalIs(before: string, body: string, dots: string, behind: string)
    requires IsBlank(before) && IsBlank(behind) && AreDots(dots)
    requires IsTrimmed(body) && body != "" && body[|body| - 1] != '.'
    ensures Canonical(before + (body + dots) + behind) == Lower(body) + "."
  {
    hide Strip, Lower, StripDots;
    assert !IsSpace('.');
    assert IsTrimmed(body + dots);
    StripIs(before, body + dots, behind);
    LowerDots(body, dots);
    DotsAreStripped(Lower(body), dots);
  }

  lemma LowerDots(body: string, dots: string)
    requires AreDots(dots) && body != "" && body[|body| - 1] != '.'
    ensures Lower(body + dots) == Lower(body) + dots && Lower(body)[|body| - 1] != '.' && |Lower(body)| == |body|
  {
    assert !IsUpper('.');
  }

  lemma DotsAreStripped(body: string, dots: string)
    requires AreDots(dots) && body != "" && body[|body| - 1] != '.'
    ensures StripDots(body + dots) == body
  {
    var s, t := body + dots, StripDots(body + dots);
    assert s[|body| - 1] == body[|body| - 1];
    assert forall i :: |body| <= i < |s| ==> s[i] == dots[i - |body|];
    assert |t| <= |body| <= |t|;
  }

  /** Nothing but white space is no name, and nothing but dots is the root. */
  lemma CanonicalOfLittle(before: string, dots: string, behind: string)
    requires IsBlank(before) && IsBlank(behind) && AreDots(dots)
    ensures Canonical(before + dots + behind) == if dots == "" then "" else "."
  {
    hide Strip;
    assert !IsSpace('.') && !IsUpper('.');
    StripIs(before, dots, behind);
    assert Lower(dots) == dots;
    var t := StripDots(dots);
    assert t == "";
  }

  // ----- entries of a text area -----

  /** A text area is cut at line breaks, and at commas where those are tolerated. */
  lemma {:induction false} CutAt(a: string, c: char, b: string, commas: bool)
    requires forall i :: 0 <= i < |a| ==> !IsLineBreak(a[i]) && !(commas && a[i] == ',')
    requires IsLineBreak(c) || (commas && c == ',')
    ensures Pieces(a + [c] + b, commas) == [a] + Pieces(b, commas)
  {
    var s := a + [c] + b;
    if a == "" {
      assert s[0] == c && s[1..] == b;
    } else {
      CutAt(a[1..], c, b, commas);
      assert s[0] == a[0] && s[1..] == a[1..] + [c] + b;
      assert [a[0]] + a[1..] == a;
    }
  }

  lemma {:induction false} NotCut(a: string, commas: bool)
    requires forall i :: 0 <= i < |a| ==> !IsLineBreak(a[i]) && !(commas && a[i] == ',')
    ensures Pieces(a, commas) == [a]
  {
    if a != "" {
      NotCut(a[1..], commas);
      assert [a[0]] + a[1..] == a;
    }
  }

  /** The entries are the pieces in their order, trimmed, without the blank ones. */
  lemma EntriesAre(a: string, c: char, b: string, commas: bool)
    requires forall i :: 0 <= i < |a| ==> !IsLineBreak(a[i]) && !(commas && a[i] == ',')
    requires IsLineBreak(c) || (commas && c == ',')
    ensures Fields(a, commas) == if Strip(a) == "" then [] else [Strip(a)]
    ensures Fields(a + [c] + b, commas) == Fields(a, commas) + Fields(b, commas)
  {
    hide Strip, IsLineBreak;
    CutAt(a, c, b, commas);
    NotCut(a, commas);
    assert [a][1..] == [] && ([a] + Pieces(b, commas))[1..] == Pieces(b, commas);
    assert Trimmed([a]) == (if Strip(a) == "" then [] else [Strip(a)]) + [];
  }

  // ----- addresses and SOA records -----

  lemma {:induction false} EscapesInTurn(a: string, b: string)
    ensures EscapeDots(a + b) == EscapeDots(a) + EscapeDots(b)
  {
    hide EscapeDots;
    if a == "" {
      assert a + b == b && EscapeDots("") == "" by { NothingToEscape(""); }
    } else {
      var c, rest := a[0], a[1..];
      EscapesInTurn(rest, b);
      EscapeStep(c, rest + b);
      EscapeStep(c, rest);
      assert a == [c] + rest && a + b == [c] + (rest + b);
      Joining(if c == '.' then "\\." else [c], EscapeDots(rest), EscapeDots(b));
    }
  }

  lemma Joining(x: string, y: string, z: string)
    ensures x + (y + z) == x + y + z
  {
  }

  lemma {:induction false} NothingToEscape(a: string)
    requires '.' !in a
    ensures EscapeDots(a) == a
  {
    if a != "" {
      NothingToEscape(a[1..]);
      assert [a[0]] + a[1..] == a;
    }
  }

  /** Every dot of a local part gets a backslash, and nothing else does. */
  lemma DotIsEscaped(a: string, b: string)
    requires '.' !in a
    ensures EscapeDots(a) == a && EscapeDots(a + "." + b) == a + "\\." + EscapeDots(b)
  {
    NothingToEscape(a);
    EscapesInTurn(a + ".", b);
    EscapesInTurn(a, ".");
    assert EscapeDots(".") == "\\." by { assert "."[1..] == "" && EscapeDots("") == ""; }
  }

  /** The RNAME of an address is its local part, escaped, a dot, and its domain, made canonical. */
  lemma RnameIs(local: string, domain: string)
    requires '@' !in domain && domain != "" && IsTrimmed(local + "@" + domain) && IsLower(local + "@" + domain)
    requires domain[|domain| - 1] != '.'
    ensures EmailToRname(local + "@" + domain) == EscapeDots(local) + "." + domain + "."
  {
    hide Canonical, StripDots, EscapeDots, LocalPart, DomainPart, EmailToRname;
    var email := local + "@" + domain;
    assert email[|local|] == '@';
    PartsOfEmail(local, domain);
    RnameTextShape(email);
    var x := RnameText(email);
    assert x[|x| - 1] == domain[|domain| - 1];
    CanonicalOfText(x);
    StripDotsIsIdentity(x);
  }

  /** SOA content: primary name, RNAME, serial, refresh, retry, expire, minimum, with one space between them. */
  lemma ContentIs(mname: string, rname: string, serial: int, refresh: int, retry: int, expire: int, minimum: int)
    ensures ToContent(Soa(mname, rname, serial, Timers(refresh, retry, expire, minimum))) ==
      Canonical(mname) + (" " + (rname + (" " + (IntText(serial) + (" " + (IntText(refresh) + (" " +
      (IntText(retry) + (" " + (IntText(expire) + (" " + IntText(minimum))))))))))))
  {
    hide Canonical, IntText;
    var m, r := Canonical(mname), rname;
    var ns := [IntText(serial), IntText(refresh), IntText(retry), IntText(expire), IntText(minimum)];
    assert ([m, r] + ns)[1..] == [r] + ns && ([r] + ns)[1..] == ns;
    assert ns[1..][1..] == ns[2..] && ns[2..][1..] == ns[3..] && ns[3..][1..] == ns[4..];
    assert SpaceJoined(ns[4..]) == ns[4];
    assert SpaceJoined(ns[3..]) == ns[3] + (" " + SpaceJoined(ns[4..]));
    assert SpaceJoined(ns[2..]) == ns[2] + (" " + SpaceJoined(ns[3..]));
    assert SpaceJoined(ns[1..]) == ns[1] + (" " + SpaceJoined(ns[2..]));
    assert SpaceJoined(ns) == ns[0] + (" " + SpaceJoined(ns[1..]));
    assert SpaceJoined([r] + ns) == r + (" " + SpaceJoined(ns));
    assert SpaceJoined([m, r] + ns) == m + (" " + SpaceJoined([r] + ns));
  }

  /** Words behind the seventh do not matter when SOA content is read, and fewer than seven are none. */
  lemma LaterWordsAreIgnored(content: string, more: string)
    ensures |Words(content)| >= 7 ==> ParseSoa(content + (" " + more)) == ParseSoa(content)
    ensures |Words(content)| < 7 ==> ParseSoa(content) == None
  {
    hide Words, ParseInt;
    WordsOfTwo(content, more);
  }

  // ----- numbers -----

  predicate AreDigits(s: string) {
    s != "" && forall i :: 0 <= i < |s| ==> IsDigit(s[i])
  }

  /** One underscore between digits does not matter. */
  lemma {:induction false} UnderscoreIsSkipped(a: string, b: string)
    requires AreDigits(a) && AreDigits(b)
    ensures DigitsValue(a + ("_" + b)) == DigitsValue(a + b)
    decreases |b|
  {
    var s, t, front := a + ("_" + b), a + b, b[..|b| - 1];
    if |b| == 1 {
      assert s[..|s| - 2] == a == t[..|t| - 1];
    } else {
      UnderscoreIsSkipped(a, front);
      assert s[..|s| - 1] == a + ("_" + front) && t[..|t| - 1] == a + front;
      assert IsDigit(s[|s| - 2]);
      assert t[|t| - 2] == b[|b| - 2];
    }
  }

  /** White space around a number and a sign in front of it are read as they should be. */
  lemma SignedNumberReads(before: string, digits: string, behind: string)
    requires IsBlank(before) && IsBlank(behind) && AreDigits(digits)
    ensures ParseInt(before + digits + behind) == ParseInt(digits) == ParseInt("+" + digits) == DigitsValue(digits)
    ensures var n := DigitsValue(digits);
      ParseInt("-" + digits) == if n.Some? then Some(-(n.value as int)) else None
  {
    hide Strip, DigitsValue;
    assert IsTrimmed(digits) && IsTrimmed("+" + digits) && IsTrimmed("-" + digits);
    StripIs(before, digits, behind);
    assert ("+" + digits)[1..] == digits && ("-" + digits)[1..] == digits;
  }

  // ----- the recursor's identifiers -----

  const HEXADECIMAL := "0123456789ABCDEF"

  /** Letters, digits, dots and hyphens stand for themselves, and other characters below 256 are two hexadecimal digits
      behind an equals sign. */
  lemma EscapeIs(c: char)
    requires c as int < 256
    ensures EncodeChar(c) ==
      if ('A' <= c && c <= 'Z') || ('a' <= c && c <= 'z') || ('0' <= c && c <= '9') || c == '.' || c == '-' then [c]
      else ['=', HEXADECIMAL[c as int / 16], HEXADECIMAL[c as int % 16]]
  {
    hide HexPadded, HexChar;
    TwoDigits(c as int);
    HexCharIs(c as int / 16);
    HexCharIs(c as int % 16);
  }

  lemma HexCharIs(d: nat)
    requires d < 16
    ensures HexChar(d) == HEXADECIMAL[d]
  {
  }

  /** A dotted name of such characters is its own identifier, and the root has one of its own. */
  lemma {:induction false} PlainNameEncodes(name: string)
    requires forall i :: 0 <= i < |name| ==> EncodeChar(name[i]) == [name[i]]
    ensures Encode(name) == name
  {
    if name != "" {
      PlainNameEncodes(name[1..]);
      assert [name[0]] + name[1..] == name;
    }
  }

  lemma IdentifierIs(name: string)
    requires name != "" && name[|name| - 1] == '.' && forall i :: 0 <= i < |name| ==> EncodeChar(name[i]) == [name[i]]
    ensures ApiId(name) == if name == "." then "=2E" else name
  {
    hide Encode, EncodeChar;
    PlainNameEncodes(name);
  }
}
