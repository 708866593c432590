/** Reading and writing SOA content, and what a run of settings saves does to the serial. */
module SoaRecord {
  import opened PyText
  import opened PyNumbers
  import opened Names
  import opened SoaText

  datatype Soa = Soa(mname: string, rname: string, serial: int, timers: Timers)
  datatype Timers = Timers(refresh: int, retry: int, expire: int, minimum: int)

  /** A field that text split on white space can give back. */
  predicate IsToken(s: string) {
    s != "" && HasNoSpace(s)
  }

  /** The first white space in `s` from `i` on, or the end. */
  function WordEnd(s: string, i: nat): (j: nat)
    requires i <= |s|
    ensures i <= j <= |s|
    ensures i < |s| && !IsSpace(s[i]) ==> i < j
    ensures j < |s| ==> IsSpace(s[j])
    ensures HasNoSpace(s[i..j])
    decreases |s| - i
  {
    if i < |s| && !IsSpace(s[i]) then
      assert s[i..WordEnd(s, i + 1)] == [s[i]] + s[i + 1..WordEnd(s, i + 1)];
      WordEnd(s, i + 1)
    else i
  }

  /** `str.split()`. */
  function Words(s: string): (ws: seq<string>)
    ensures forall w :: w in ws ==> IsToken(w)
  {
    if s == "" then []
    else if IsSpace(s[0]) then Words(s[1..])
    else
      var j := WordEnd(s, 0);
      [s[..j]] + Words(s[j..])
  }

  /** Fields with one space between them. */
  function SpaceJoined(ws: seq<string>): string {
    if ws == [] then ""
    else if |ws| == 1 then ws[0]
    else ws[0] + (" " + SpaceJoined(ws[1..]))
  }

  lemma {:induction false} WordEndAfter(t: string, rest: string, i: nat)
    requires HasNoSpace(t) && i <= |t| && (rest == "" || IsSpace(rest[0]))
    ensures WordEnd(t + rest, i) == |t|
    decreases |t| - i
  {
    if i < |t| {
      assert (t + rest)[i] == t[i];
      WordEndAfter(t, rest, i + 1);
    } else if rest != "" {
      assert (t + rest)[i] == rest[0];
    }
  }

  lemma WordsOfToken(t: string, rest: string)
    requires IsToken(t) && (rest == "" || IsSpace(rest[0]))
    ensures Words(t + rest) == [t] + Words(rest)
  {
    var s := t + rest;
    assert s[0] == t[0];
    WordEndAfter(t, rest, 0);
    assert s[..|t|] == t && s[|t|..] == rest;
  }

  /** Splitting undoes joining, for fields that are tokens. */
  lemma {:induction false} WordsOfJoined(ws: seq<string>)
    requires forall w :: w in ws ==> IsToken(w)
    ensures Words(SpaceJoined(ws)) == ws
  {
    if |ws| == 1 {
      assert ws[0] + "" == ws[0];
      WordsOfToken(ws[0], "");
    } else if |ws| > 1 {
      var rest := SpaceJoined(ws[1..]);
      WordsOfJoined(ws[1..]);
      WordsOfToken(ws[0], " " + rest);
      assert (" " + rest)[1..] == rest;
    }
  }

  /** `Soa.to_content`. */
  function ToContent(soa: Soa): string {
    SpaceJoined([Canonical(soa.mname), soa.rname] + Numbers(soa))
  }

  function Numbers(soa: Soa): seq<string> {
    var t := soa.timers;
    [IntText(soa.serial), IntText(t.refresh), IntText(t.retry), IntText(t.expire), IntText(t.minimum)]
  }

  function ParseSoa(content: string): Option<Soa> {
    var parts := Words(content);
    if |parts| < 7 then None
    else
      match (ParseInt(parts[2]), ParseInt(parts[3]), ParseInt(parts[4]), ParseInt(parts[5]), ParseInt(parts[6]))
      case (Some(serial), Some(refresh), Some(retry), Some(expire), Some(minimum)) =>
        Some(Soa(parts[0], parts[1], serial, Timers(refresh, retry, expire, minimum)))
      case _ => None
  }

  /** Written content reads back as the same record, its primary name canonical, exactly when both names are tokens. */
  lemma ContentComesBackIff(soa: Soa)
    ensures ParseSoa(ToContent(soa)) == Some(soa.(mname := Canonical(soa.mname)))
      <==> IsToken(Canonical(soa.mname)) && IsToken(soa.rname)
  {
    hide Canonical, Words, SpaceJoined, IsToken, IntText, ParseInt;
    var m, t := Canonical(soa.mname), soa.timers;
    if IsToken(m) && IsToken(soa.rname) {
      var ws := [m, soa.rname] + Numbers(soa);
      PrintedIsToken(soa.serial);
      PrintedIsToken(t.refresh);
      PrintedIsToken(t.retry);
      PrintedIsToken(t.expire);
      PrintedIsToken(t.minimum);
      WordsOfJoined(ws);
    }
  }

  lemma PrintedIsToken(n: int)
    ensures IsToken(IntText(n)) && ParseInt(IntText(n)) == Some(n)
  {
    ParsePrinted(n);
  }

  // ----- the settings form -----

  /** What the form supplies for the SOA once it has been validated. */
  datatype SoaForm = SoaForm(mname: string, email: string, timers: Timers)

  /** The SOA content a save writes over `stored`, the first record of the apex SOA set if there is one. */
  function SavedContent(stored: Option<string>, form: SoaForm): string {
    var current := if stored.Some? then ParseSoa(stored.value) else None;
    ToContent(Soa(Canonical(form.mname), EmailToRname(form.email), SerialOf(current), form.timers))
  }

  function SerialOf(soa: Option<Soa>): int {
    if soa.Some? then soa.value.serial else 1
  }

  function SavedRun(stored: Option<string>, forms: seq<SoaForm>): Option<string>
    decreases |forms|
  {
    if forms == [] then stored
    else SavedRun(Some(SavedContent(stored, forms[0])), forms[1..])
  }

  predicate FormIsPlain(form: SoaForm) {
    IsToken(Canonical(form.mname)) && IsToken(EmailToRname(form.email))
  }

  /** Any run of saves leaves the serial as it was first read, and the last form's other fields in force. */
  lemma {:induction false} SavesKeepSerial(stored: Option<string>, forms: seq<SoaForm>)
    requires forms != [] && forall f :: f in forms ==> FormIsPlain(f)
    ensures var last := forms[|forms| - 1];
      var first := if stored.Some? then ParseSoa(stored.value) else None;
      var after := SavedRun(stored, forms);
      after.Some? && ParseSoa(after.value) ==
        Some(Soa(Canonical(last.mname), EmailToRname(last.email), SerialOf(first), last.timers))
    decreases |forms|
  {
    hide Canonical, EmailToRname, ParseSoa, ToContent, IsToken;
    var f := forms[0];
    var current := if stored.Some? then ParseSoa(stored.value) else None;
    var soa := Soa(Canonical(f.mname), EmailToRname(f.email), SerialOf(current), f.timers);
    CanonicalIdempotent(f.mname);
    assert FormIsPlain(f);
    ContentComesBackIff(soa);
    assert ParseSoa(SavedContent(stored, f)) == Some(soa);
    var next := Some(SavedContent(stored, f));
    if |forms| > 1 {
      SavesKeepSerial(next, forms[1..]);
    } else {
      assert SavedRun(stored, forms) == SavedRun(next, forms[1..]) == next;
    }
  }

  // ----- exactly when a save keeps the serial -----

  /** The serial that the settings form reads: 1 where there is nothing readable. */
  function SerialRead(stored: Option<string>): int {
    SerialOf(if stored.Some? then ParseSoa(stored.value) else None)
  }

  /** What the form writes in front of the serial, as it will be split. */
  function Leading(form: SoaForm): seq<string> {
    Words(Canonical(form.mname)) + Words(EmailToRname(form.email))
  }

  /** The number that is read for the serial when there are more than two leading words. */
  function Misread(form: SoaForm): int {
    if |Leading(form)| > 2 then ParseInt(Leading(form)[2]).GetOr(1) else 1
  }

  lemma {:induction false} WordsOfTwo(a: string, b: string)
    ensures Words(a + (" " + b)) == Words(a) + Words(b)
    decreases |a|
  {
    var s := a + (" " + b);
    if a == "" {
      assert s[1..] == b;
    } else if IsSpace(a[0]) {
      assert s[1..] == a[1..] + (" " + b);
      WordsOfTwo(a[1..], b);
    } else {
      var j := WordEnd(a, 0);
      var rest := a[j..] + (" " + b);
      assert a == a[..j] + a[j..] && s == a[..j] + rest;
      assert HasNoSpace(a[0..j]) && a[0..j] == a[..j];
      WordsOfToken(a[..j], rest);
      WordsOfTwo(a[j..], b);
    }
  }

  /** Written content splits into the leading words and the five numbers. */
  lemma WordsOfContent(soa: Soa)
    ensures Words(ToContent(soa)) == Words(Canonical(soa.mname)) + Words(soa.rname) + Numbers(soa)
  {
    hide Canonical, Words, IntText, ParseInt, IsToken;
    var m, r, t, ns := Canonical(soa.mname), soa.rname, soa.timers, Numbers(soa);
    PrintedIsToken(soa.serial);
    PrintedIsToken(t.refresh);
    PrintedIsToken(t.retry);
    PrintedIsToken(t.expire);
    PrintedIsToken(t.minimum);
    WordsOfJoined(ns);
    assert ([m, r] + ns)[1..] == [r] + ns && ([r] + ns)[1..] == ns;
    WordsOfTwo(r, SpaceJoined(ns));
    WordsOfTwo(m, r + (" " + SpaceJoined(ns)));
    assert SpaceJoined([r] + ns) == r + (" " + SpaceJoined(ns));
    assert Words(m) + (Words(r) + ns) == Words(m) + Words(r) + ns;
  }

  /** The serial after a save: carried on behind exactly two words, and otherwise a number that has nothing to do with
      it. */
  lemma SerialAfter(stored: Option<string>, form: SoaForm)
    ensures var serial := SerialRead(Some(SavedContent(stored, form)));
      if |Leading(form)| == 2 then serial == SerialRead(stored) else serial == 1 || serial == Misread(form)
  {
    hide Canonical, EmailToRname, Words, IntText, ParseInt, ToContent;
    var soa := Soa(Canonical(form.mname), EmailToRname(form.email), SerialRead(stored), form.timers);
    var lead, parts := Leading(form), Words(ToContent(soa));
    CanonicalIdempotent(form.mname);
    WordsOfContent(soa);
    assert parts == lead + Numbers(soa);
    if |lead| == 2 {
      var t := soa.timers;
      PrintedIsToken(soa.serial);
      PrintedIsToken(t.refresh);
      PrintedIsToken(t.retry);
      PrintedIsToken(t.expire);
      PrintedIsToken(t.minimum);
      assert parts[2..] == Numbers(soa);
    } else if |lead| > 2 {
      assert parts[2] == lead[2];
    }
  }

  lemma ReadableWith(n: int) returns (stored: Option<string>)
    ensures SerialRead(stored) == n
  {
    hide Canonical, IsToken, ParseSoa, ToContent;
    var soa := Soa("a.", "h.a.", n, Timers(0, 0, 0, 0));
    assert IsToken(Canonical("a.")) && IsToken("h.a.") by { NamesAreTokens(); }
    ContentComesBackIff(soa);
    stored := Some(ToContent(soa));
  }

  lemma NamesAreTokens()
    ensures IsToken(Canonical("a.")) && IsToken("h.a.")
  {
    hide Canonical;
    CanonicalIffShape("a.");
  }

  lemma {:induction false} NotAmong(numbers: set<int>) returns (n: int)
    ensures forall m :: m in numbers ==> m < n
    decreases |numbers|
  {
    n := 0;
    if m :| m in numbers {
      var k := NotAmong(numbers - {m});
      n := if m < k then k else m + 1;
      assert forall i :: i in numbers ==> i == m || i in numbers - {m};
    }
  }

  /**
   A form keeps every serial exactly when its primary name and its RNAME make two words between them - for names that
   are not empty, when neither has white space inside.
   */
  lemma FormKeepsSerialIff(form: SoaForm)
    ensures (forall stored :: SerialRead(Some(SavedContent(stored, form))) == SerialRead(stored)) <==>
      |Leading(form)| == 2
    ensures Canonical(form.mname) != "" && EmailToRname(form.email) != "" ==>
      (|Leading(form)| == 2 <==> FormIsPlain(form))
  {
    hide SerialRead, SavedContent, Leading, Canonical, EmailToRname, FormIsPlain;
    forall stored ensures |Leading(form)| == 2 ==> SerialRead(Some(SavedContent(stored, form))) == SerialRead(stored) {
      SerialAfter(stored, form);
    }
    if |Leading(form)| != 2 {
      var n := NotAmong({1, Misread(form)});
      var stored := ReadableWith(n);
      SerialAfter(stored, form);
      assert SerialRead(Some(SavedContent(stored, form))) != SerialRead(stored);
    }
    PlainIffTwoWords(form);
  }

  lemma PlainIffTwoWords(form: SoaForm)
    ensures Canonical(form.mname) != "" && EmailToRname(form.email) != "" ==>
      (|Leading(form)| == 2 <==> FormIsPlain(form))
  {
    hide Canonical, EmailToRname, Words;
    RnameIsCanonical(form.email);
    if Canonical(form.mname) != "" && EmailToRname(form.email) != "" {
      CanonicalHasShape(form.mname);
      OneWordIff(Canonical(form.mname));
      OneWordIff(EmailToRname(form.email));
    }
  }

  lemma RnameIsCanonical(email: string)
    ensures HasCanonicalShape(EmailToRname(email))
  {
    hide Canonical, Strip, EscapeDots, LocalPart, DomainPart;
    var v := Strip(email);
    if '@' in v { CanonicalHasShape(EscapeDots(LocalPart(v)) + "." + DomainPart(v)); }
    else { CanonicalHasShape(v); }
  }

  lemma {:induction false} SomeWord(s: string)
    requires s != "" && !IsSpace(s[|s| - 1])
    ensures Words(s) != []
  {
    if IsSpace(s[0]) { SomeWord(s[1..]); }
  }

  lemma OneWordIff(s: string)
    requires s != "" && IsTrimmed(s)
    ensures |Words(s)| >= 1 && (|Words(s)| == 1 <==> IsToken(s))
  {
    var j := WordEnd(s, 0);
    if j < |s| { SomeWord(s[j..]); }
    if IsToken(s) {
      WordEndAfter(s, "", 0);
      assert s + "" == s;
    } else if j == |s| {
      assert s[0..j] == s;
    }
  }

  /** The numbers that a run with a form of other than two words can end on. */
  function Misreads(forms: seq<SoaForm>): set<int> {
    {1} + set f | f in forms :: Misread(f)
  }

  lemma {:induction false} RunEndsAmong(stored: Option<string>, forms: seq<SoaForm>)
    ensures var serial := SerialRead(SavedRun(stored, forms));
      if forall f :: f in forms ==> |Leading(f)| == 2 then serial == SerialRead(stored) else serial in Misreads(forms)
    decreases |forms|
  {
    hide SerialRead, SavedContent, Leading, Misread;
    if forms != [] {
      SerialAfter(stored, forms[0]);
      RunEndsAmong(Some(SavedContent(stored, forms[0])), forms[1..]);
      assert forall f :: f in forms <==> f == forms[0] || f in forms[1..];
    }
  }

  /** A run of saves keeps every serial exactly when each of its forms does. */
  lemma RunKeepsSerialIff(forms: seq<SoaForm>)
    ensures (forall stored :: SerialRead(SavedRun(stored, forms)) == SerialRead(stored)) <==>
      (forall f :: f in forms ==> |Leading(f)| == 2)
  {
    hide SerialRead, SavedRun, Leading, Misreads;
    if forall f :: f in forms ==> |Leading(f)| == 2 {
      forall stored ensures SerialRead(SavedRun(stored, forms)) == SerialRead(stored) { RunEndsAmong(stored, forms); }
    } else {
      var n := NotAmong(Misreads(forms));
      var stored := ReadableWith(n);
      RunEndsAmong(stored, forms);
      assert SerialRead(SavedRun(stored, forms)) != SerialRead(stored);
    }
  }

  // ----- how it is lost -----

  /** A primary name of two words makes the stored content unreadable, so the save after it starts the serial over. */
  lemma InnerBlankRestartsSerial(stored: Option<string>, form: SoaForm, next: SoaForm, left: string, right: string)
    requires IsToken(left) && IsToken(right) && Canonical(form.mname) == left + " " + right
    requires IsToken(EmailToRname(form.email)) && FormIsPlain(next)
    ensures ParseSoa(SavedContent(stored, form)) == None
    ensures var after := SavedRun(stored, [form, next]);
      after.Some? && ParseSoa(after.value).Some? && ParseSoa(after.value).value.serial == 1
  {
    hide Canonical, EmailToRname, IsToken, IntText, Words, SpaceJoined, ParseInt;
    var content := SavedContent(stored, form);
    var current := if stored.Some? then ParseSoa(stored.value) else None;
    var soa := Soa(Canonical(form.mname), EmailToRname(form.email), SerialOf(current), form.timers);
    var ws := [soa.rname] + Numbers(soa);
    CanonicalIdempotent(form.mname);
    BlankSplits(left, right, ws);
    assert [Canonical(soa.mname), soa.rname] + Numbers(soa) == [left + " " + right] + ws;
    WordsOfJoined([left, right] + ws) by {
      PrintedIsToken(soa.serial);
      PrintedIsToken(soa.timers.refresh);
      PrintedIsToken(soa.timers.retry);
      PrintedIsToken(soa.timers.expire);
      PrintedIsToken(soa.timers.minimum);
    }
    assert Words(content)[2] == soa.rname;
    RnameIsNoNumber(form.email);
    assert SavedRun(stored, [form, next]) == SavedRun(Some(content), [next]) by { assert [form, next][1..] == [next]; }
    SavesKeepSerial(Some(content), [next]);
  }

  /** Concretely: after `a b.` the serial is 1 again, whatever it was. */
  lemma SerialIsLost(serial: int, timers: Timers)
    ensures var before := ToContent(Soa("a.", "h.a.b.", serial, timers));
      var forms := [SoaForm("a b.", "h@a.b", timers), SoaForm("a.", "h@a.b", timers)];
      var after := SavedRun(Some(before), forms);
      ParseSoa(before) == Some(Soa("a.", "h.a.b.", serial, timers))
      && after.Some? && ParseSoa(after.value).Some? && ParseSoa(after.value).value.serial == 1
  {
    hide Canonical, EmailToRname, ToContent, ParseSoa, SavedContent, SavedRun;
    var before := Soa("a.", "h.a.b.", serial, timers);
    CanonicalIffShape("a.");
    CanonicalIffShape("a b.");
    HostmasterIs();
    ContentComesBackIff(before);
    assert "a b." == "a" + " " + "b.";
    var form, next := SoaForm("a b.", "h@a.b", timers), SoaForm("a.", "h@a.b", timers);
    InnerBlankRestartsSerial(Some(ToContent(before)), form, next, "a", "b.");
  }

  lemma HostmasterIs()
    ensures EmailToRname("h@a.b") == "h.a.b."
  {
    hide EscapeDots, Canonical, EmailToRname, LocalPart, DomainPart, LastAt;
    var email := "h" + "@" + "a.b";
    assert email == "h@a.b" && '@' in email;
    PartsOfEmail("h", "a.b");
    RnameTextShape(email);
    PlainEscapes();
    HostmasterIsCanonical();
    assert RnameText(email) == "h" + "." + "a.b" == "h.a.b";
  }

  lemma PlainEscapes()
    ensures EscapeDots("h") == "h"
  {
    assert "h"[1..] == "" && EscapeDots("") == "";
  }

  lemma HostmasterIsCanonical()
    ensures Canonical("h.a.b") == "h.a.b."
  {
    hide StripDots;
    CanonicalOfText("h.a.b");
    StripDotsIsIdentity("h.a.b");
  }

  lemma BlankSplits(left: string, right: string, ws: seq<string>)
    requires ws != []
    ensures SpaceJoined([left + " " + right] + ws) == SpaceJoined([left, right] + ws)
  {
    assert ([left + " " + right] + ws)[1..] == ws;
    assert ([left, right] + ws)[1..] == [right] + ws;
    assert ([right] + ws)[1..] == ws;
  }

  lemma RnameIsNoNumber(email: string)
    requires IsToken(EmailToRname(email))
    ensures ParseInt(EmailToRname(email)) == None
  {
    hide Canonical;
    var r := EmailToRname(email);
    assert Strip(r) == r && r[|r| - 1] == '.';
  }
}
