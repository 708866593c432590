/** Forwarder addresses as an operator types them and as they are stored. */
module Forwarders {
  import opened PyText
  import opened PyNumbers

  datatype Address = Address(isV6: bool, bits: nat)

  /** The address library: reading text, and printing an address in its shortest form. */
  datatype AddressLibrary = AddressLibrary(parse: string -> Option<Address>, show: Address -> string)

  predicate IsV4Char(c: char) {
    IsDigit(c) || c == '.'
  }

  predicate IsV6Char(c: char) {
    IsDigit(c) || 'a' <= c <= 'f' || c == ':' || c == '.'
  }

  function Count(s: string, c: char): nat {
    if s == "" then 0 else (if s[0] == c then 1 else 0) + Count(s[1..], c)
  }

  /** Printing is undone by reading, and each family prints in its own characters. */
  ghost predicate IsLawful(lib: AddressLibrary) {
    forall text :: lib.parse(text).Some? ==> PrintsBack(lib, lib.parse(text).value)
  }

  predicate PrintsBack(lib: AddressLibrary, a: Address) {
    var s := lib.show(a);
    && lib.parse(s) == Some(a) && s != ""
    && if a.isV6 then (forall i :: 0 <= i < |s| ==> IsV6Char(s[i])) && Count(s, ':') >= 2
       else forall i :: 0 <= i < |s| ==> IsV4Char(s[i])
  }

  /** `_port`. */
  function Port(raw: string): (port: Option<nat>)
    ensures port.Some? ==> 1 <= port.value <= 65535
  {
    match ParseInt(raw)
    case None => None
    case Some(n) => if 1 <= n <= 65535 then Some(n) else None
  }

  /** `str.find` for one character. */
  function Find(s: string, c: char): (at: Option<nat>)
    ensures at.Some? ==> at.value < |s| && s[at.value] == c && forall i :: 0 <= i < at.value ==> s[i] != c
    ensures at.None? ==> forall i :: 0 <= i < |s| ==> s[i] != c
  {
    if s == "" then None
    else if s[0] == c then Some(0)
    else match Find(s[1..], c) case None => None case Some(i) => Some(i + 1)
  }

  /** The address and the port of one entry, before the address is read. */
  function SplitServer(text: string, defaultPort: nat): Option<(string, nat)>
    requires text != ""
  {
    if text[0] == '[' then
      match Find(text, ']')
      case None => None
      case Some(closing) =>
        var address, remainder := text[1..closing], text[closing + 1..];
        if remainder == "" then Some((address, defaultPort))
        else if remainder[0] != ':' then None
        else match Port(remainder[1..]) case None => None case Some(port) => Some((address, port))
    else if Count(text, ':') == 1 then
      match Find(text, ':')
      case None => None
      case Some(at) => match Port(text[at + 1..]) case None => None case Some(port) => Some((text[..at], port))
    else
      Some((text, defaultPort))
  }

  /** How the recursor stores an address and a port. */
  function ShowServer(lib: AddressLibrary, a: Address, port: nat): string {
    (if a.isV6 then "[" + lib.show(a) + "]" else lib.show(a)) + (":" + NatText(port))
  }

  /** The address and the port that an entry stands for; `None` stands for `ValueError`. */
  function Meaning(lib: AddressLibrary, value: string, defaultPort: nat): Option<(Address, nat)> {
    var text := Strip(value);
    if text == "" then None
    else
      match SplitServer(text, defaultPort)
      case None => None
      case Some((address, port)) =>
        match lib.parse(address)
        case None => None
        case Some(a) => Some((a, port))
  }

  /** `normalise_server`. */
  function NormaliseServer(lib: AddressLibrary, value: string, defaultPort: nat): Option<string> {
    match Meaning(lib, value, defaultPort)
    case None => None
    case Some((a, port)) => Some(ShowServer(lib, a, port))
  }

  /** Text that a list can carry: one entry, without a comma, white space or a line break. */
  predicate IsPlain(s: string) {
    s != "" && forall i :: 0 <= i < |s| ==> '!' <= s[i] <= '~' && s[i] != ','
  }

  // ----- normal form -----

  lemma {:induction false} CountNone(s: string, c: char)
    requires forall i :: 0 <= i < |s| ==> s[i] != c
    ensures Count(s, c) == 0
  {
    if s != "" { CountNone(s[1..], c); }
  }

  lemma {:induction false} CountConcat(a: string, b: string, c: char)
    ensures Count(a + b, c) == Count(a, c) + Count(b, c)
  {
    if a == "" { assert a + b == b; }
    else {
      CountConcat(a[1..], b, c);
      assert (a + b)[1..] == a[1..] + b;
    }
  }

  lemma {:induction false} FindIs(s: string, c: char, at: nat)
    requires at < |s| && s[at] == c && forall i :: 0 <= i < at ==> s[i] != c
    ensures Find(s, c) == Some(at)
  {
    if at > 0 { FindIs(s[1..], c, at - 1); }
  }

  /** A printed number is a port exactly from 1 to 65535. */
  lemma PrintedPortIff(n: int)
    ensures Port(IntText(n)) == if 1 <= n <= 65535 then Some(n) else None
  {
    hide IntText, ParseInt;
    ParsePrinted(n);
  }

  /** A stored entry splits into the address and port it was made of. */
  lemma SplitShown(lib: AddressLibrary, a: Address, port: nat, defaultPort: nat)
    requires PrintsBack(lib, a) && 1 <= port <= 65535
    ensures var s := ShowServer(lib, a, port);
      s != "" && IsPlain(s) && SplitServer(s, defaultPort) == Some((lib.show(a), port))
  {
    hide NatText, Port, SplitServer, Count;
    var text, digits := lib.show(a), NatText(port);
    PrintedPortIff(port);
    if a.isV6 { SplitBracketed(text, digits, port, defaultPort); }
    else { SplitPlain(text, digits, port, defaultPort); }
  }

  lemma SplitBracketed(text: string, digits: string, port: nat, defaultPort: nat)
    requires (forall i :: 0 <= i < |text| ==> IsV6Char(text[i])) && Port(digits) == Some(port)
    ensures SplitServer("[" + text + "]" + (":" + digits), defaultPort) == Some((text, port))
  {
    hide Port, Count;
    var s := "[" + text + "]" + (":" + digits);
    FindIs(s, ']', |text| + 1);
    assert s[1..|text| + 1] == text && s[|text| + 2..] == ":" + digits && (":" + digits)[1..] == digits;
  }

  lemma SplitPlain(text: string, digits: string, port: nat, defaultPort: nat)
    requires text != "" && (forall i :: 0 <= i < |text| ==> IsV4Char(text[i])) && Port(digits) == Some(port)
    requires forall i :: 0 <= i < |digits| ==> IsDigit(digits[i])
    ensures SplitServer(text + (":" + digits), defaultPort) == Some((text, port))
  {
    hide Port;
    var s := text + (":" + digits);
    CountConcat(text, ":" + digits, ':');
    CountNone(text, ':');
    assert (":" + digits)[1..] == digits;
    CountNone(digits, ':');
    FindIs(s, ':', |text|);
    assert s[0] == text[0] && s[..|text|] == text && s[|text| + 1..] == digits;
  }

  /** Normalising an accepted entry again leaves it as it is, and it stands for the same address and port, whatever
      the default port is by then. */
  lemma NormaliseIsIdempotent(lib: AddressLibrary, value: string, defaultPort: nat, laterPort: nat)
    requires IsLawful(lib) && 1 <= defaultPort <= 65535 && NormaliseServer(lib, value, defaultPort).Some?
    ensures var s := NormaliseServer(lib, value, defaultPort).value;
      && NormaliseServer(lib, s, laterPort) == Some(s) && IsPlain(s)
      && Meaning(lib, s, laterPort) == Meaning(lib, value, defaultPort)
  {
    hide Strip, SplitServer, ShowServer, PrintsBack, IsPlain;
    var (address, port) := SplitServer(Strip(value), defaultPort).value;
    var a := lib.parse(address).value;
    SplitPort(Strip(value), defaultPort);
    SplitShown(lib, a, port, laterPort);
    var s := ShowServer(lib, a, port);
    assert Strip(s) == s by { PlainIsTrimmed(s); }
    assert lib.parse(lib.show(a)) == Some(a) by { PrintedIs(lib, a); }
  }

  /** Two accepted entries are stored alike exactly when they stand for the same address and port. */
  lemma StoredAlikeIff(lib: AddressLibrary, v: string, w: string, defaultPort: nat)
    requires IsLawful(lib) && 1 <= defaultPort <= 65535
    requires NormaliseServer(lib, v, defaultPort).Some? && NormaliseServer(lib, w, defaultPort).Some?
    ensures NormaliseServer(lib, v, defaultPort) == NormaliseServer(lib, w, defaultPort) <==>
      Meaning(lib, v, defaultPort) == Meaning(lib, w, defaultPort)
  {
    hide Meaning, IsLawful, ShowServer, IsPlain;
    NormaliseIsIdempotent(lib, v, defaultPort, defaultPort);
    NormaliseIsIdempotent(lib, w, defaultPort, defaultPort);
  }

  lemma PlainIsTrimmed(s: string)
    requires IsPlain(s)
    ensures Strip(s) == s
  {
    assert IsTrimmed(s);
  }

  lemma PrintedIs(lib: AddressLibrary, a: Address)
    requires PrintsBack(lib, a)
    ensures lib.parse(lib.show(a)) == Some(a)
  {
  }

  /** Ports are from 1 to 65535. */
  lemma SplitPort(text: string, defaultPort: nat)
    requires text != "" && 1 <= defaultPort <= 65535
    ensures SplitServer(text, defaultPort).Some? ==> 1 <= SplitServer(text, defaultPort).value.1 <= 65535
  {
    hide Port, Count;
  }

  // ----- lists -----

  /** `[normalise_server(part) for part in parts]`: the first entry refused refuses the list. */
  function NormaliseAll(lib: AddressLibrary, parts: seq<string>, defaultPort: nat): Option<seq<string>> {
    if parts == [] then Some([])
    else
      match NormaliseServer(lib, parts[0], defaultPort)
      case None => None
      case Some(first) =>
        match NormaliseAll(lib, parts[1..], defaultPort)
        case None => None
        case Some(rest) => Some([first] + rest)
  }

  lemma {:induction false} EachIsNormal(lib: AddressLibrary, parts: seq<string>, defaultPort: nat,
                                        servers: Option<seq<string>>)
    requires servers == NormaliseAll(lib, parts, defaultPort)
    ensures servers.Some? <==> forall p :: p in parts ==> NormaliseServer(lib, p, defaultPort).Some?
    ensures servers.Some? ==> IsEachNormal(lib, parts, defaultPort, servers.value)
  {
    hide NormaliseServer;
    if parts != [] {
      EachIsNormal(lib, parts[1..], defaultPort, NormaliseAll(lib, parts[1..], defaultPort));
      assert forall p :: p in parts <==> p == parts[0] || p in parts[1..];
    }
  }

  lemma {:induction false} NormalAgain(lib: AddressLibrary, list: seq<string>, defaultPort: nat)
    requires forall s :: s in list ==> NormaliseServer(lib, s, defaultPort) == Some(s)
    ensures NormaliseAll(lib, list, defaultPort) == Some(list)
  {
    hide NormaliseServer;
    if list != [] {
      NormalAgain(lib, list[1..], defaultPort);
      assert list == [list[0]] + list[1..];
    }
  }

  /** `parse_servers`; `None` stands for `ValueError`. */
  function ParseServers(lib: AddressLibrary, text: string, defaultPort: nat): Option<seq<string>> {
    match NormaliseAll(lib, Fields(text, true), defaultPort)
    case None => None
    case Some(servers) => if servers == [] then None else Some(FirstOnly(servers))
  }

  /** `ForwardZone.servers_text`, which is what the form shows again. */
  function ServersText(servers: seq<string>): string {
    if servers == [] then ""
    else if |servers| == 1 then servers[0]
    else servers[0] + ", " + ServersText(servers[1..])
  }

  /** A list is accepted exactly when it has an entry and every entry is accepted on its own. */
  lemma ListAcceptedIff(lib: AddressLibrary, text: string, defaultPort: nat)
    ensures ParseServers(lib, text, defaultPort).Some? <==>
      (Fields(text, true) != [] && forall p :: p in Fields(text, true) ==> NormaliseServer(lib, p, defaultPort).Some?)
  {
    hide NormaliseServer, Fields;
    EachIsNormal(lib, Fields(text, true), defaultPort, NormaliseAll(lib, Fields(text, true), defaultPort));
  }

  /** Wherever a value of `s` stands, all that precede it in `r` stand before it. */
  ghost predicate KeepsOrder(s: seq<string>, r: seq<string>) {
    forall q, j :: 0 <= q < |s| && 0 <= j < |r| && s[q] == r[j] ==> ComeBefore(s, q, r, j)
  }

  ghost predicate ComeBefore(s: seq<string>, q: nat, r: seq<string>, j: nat)
    requires q <= |s| && j <= |r|
  {
    forall i :: 0 <= i < j ==> r[i] in s[..q]
  }

  /** The accepted list is the normal forms of the entries, each once, in the order in which they first appear. */
  lemma ListKeepsOrder(lib: AddressLibrary, text: string, defaultPort: nat, parts: seq<string>, list: seq<string>)
    requires parts == Fields(text, true) && ParseServers(lib, text, defaultPort) == Some(list)
    ensures forall i, j :: 0 <= i < j < |list| ==> list[i] != list[j]
    ensures exists servers ::
      && IsEachNormal(lib, parts, defaultPort, servers) && KeepsOrder(servers, list)
      && forall s :: s in list <==> s in servers
  {
    hide NormaliseServer, Fields, KeepsOrder;
    var servers := NormaliseAll(lib, parts, defaultPort).value;
    EachIsNormal(lib, parts, defaultPort, Some(servers));
    FirstOnlyKeepsOrder(servers, list);
  }

  /** `servers` holds, place by place, the normal form of what the operator typed. */
  ghost predicate IsEachNormal(lib: AddressLibrary, parts: seq<string>, defaultPort: nat, servers: seq<string>) {
    && |servers| == |parts|
    && forall i :: 0 <= i < |parts| ==> NormaliseServer(lib, parts[i], defaultPort) == Some(servers[i])
  }

  lemma {:induction false} FirstOnlyKeepsOrder(s: seq<string>, r: seq<string>)
    requires r == FirstOnly(s)
    ensures KeepsOrder(s, r)
  {
    if s != [] {
      var last := |s| - 1;
      var front := s[..last];
      var before := FirstOnly(front);
      FirstOnlyKeepsOrder(front, before);
      assert s == front + [s[last]];
      forall q, j | 0 <= q < |s| && 0 <= j < |r| && s[q] == r[j] ensures ComeBefore(s, q, r, j) {
        if q < last {
          assert front[q] == r[j] && front[q] in before;
          assert j < |before| && before[j] == r[j] && front[..q] == s[..q];
          assert ComeBefore(front, q, before, j);
        } else {
          forall i | 0 <= i < j ensures r[i] in s[..q] {
            assert r[i] == before[i] && before[i] in front;
          }
        }
      }
    }
  }

  lemma {:induction false} DistinctStays(s: seq<string>)
    requires forall i, j :: 0 <= i < j < |s| ==> s[i] != s[j]
    ensures FirstOnly(s) == s
  {
    if s != [] {
      DistinctStays(s[..|s| - 1]);
      assert s == s[..|s| - 1] + [s[|s| - 1]];
    }
  }

  /** Showing an accepted list on the form and saving it again gives the same list. */
  lemma ListComesBack(lib: AddressLibrary, text: string, defaultPort: nat, laterPort: nat, list: seq<string>)
    requires IsLawful(lib) && 1 <= defaultPort <= 65535 && ParseServers(lib, text, defaultPort) == Some(list)
    ensures ParseServers(lib, ServersText(list), laterPort) == Some(list)
  {
    hide NormaliseServer, Fields, IsLawful, IsPlain, ServersText;
    var parts := Fields(text, true);
    var servers := NormaliseAll(lib, parts, defaultPort).value;
    EachIsNormal(lib, parts, defaultPort, Some(servers));
    forall s | s in list ensures NormaliseServer(lib, s, laterPort) == Some(s) && IsPlain(s) {
      var i :| 0 <= i < |servers| && servers[i] == s;
      NormaliseIsIdempotent(lib, parts[i], defaultPort, laterPort);
    }
    ShownFields(list);
    NormalAgain(lib, list, laterPort);
    DistinctStays(list);
  }

  lemma {:induction false} PiecesPlain(s: string, rest: string)
    requires IsPlain(s)
    ensures Pieces(s, true) == [s]
    ensures Pieces(s + "," + rest, true) == [s] + Pieces(rest, true)
  {
    var all := s + "," + rest;
    assert all[0] == s[0] && !IsLineBreak(s[0]) && s[0] != ',';
    if |s| == 1 {
      assert all[1..] == "," + rest && (("," + rest)[1..] == rest) && s[1..] == "";
      assert Pieces(all[1..], true) == [""] + Pieces(rest, true);
    } else {
      PiecesPlain(s[1..], rest);
      assert all[1..] == s[1..] + "," + rest;
    }
    assert [s[0]] + s[1..] == s;
  }

  lemma StripBlank(s: string)
    requires IsPlain(s)
    ensures Strip(" " + s) == s && Strip(s) == s && s != ""
  {
    var t := " " + s;
    assert IsSpace(t[0]) && t[1] == s[0] && t[|t| - 1] == s[|s| - 1];
    assert SkipSpace(t, 0) == 1 && DropSpace(t, 1, |t|) == |t|;
    assert IsTrimmed(s);
  }

  lemma ShownFields(list: seq<string>)
    requires list != [] && forall s :: s in list ==> IsPlain(s)
    ensures Fields(ServersText(list), true) == list
  {
    ShownPieces(list);
  }

  lemma BlankPiece(text: string, ps: seq<string>)
    requires ps == Pieces(text, true)
    ensures Pieces(" " + text, true) == [" " + ps[0]] + ps[1..]
  {
    assert (" " + text)[0] == ' ' && (" " + text)[1..] == text;
  }

  lemma {:induction false} ShownPieces(list: seq<string>)
    requires list != [] && forall s :: s in list ==> IsPlain(s)
    ensures Trimmed(Pieces(ServersText(list), true)) == list
    ensures Trimmed(Pieces(" " + ServersText(list), true)) == list
  {
    hide Strip, Pieces, IsPlain;
    var text, first := ServersText(list), list[0];
    var ps := Pieces(text, true);
    BlankPiece(text, ps);
    StripBlank(first);
    if |list| == 1 {
      PiecesPlain(first, "");
    } else {
      var rest := ServersText(list[1..]);
      PiecesPlain(first, " " + rest);
      assert text == first + "," + (" " + rest);
      ShownPieces(list[1..]);
      assert ps[1..] == Pieces(" " + rest, true);
    }
    assert ps[0] == first && Trimmed(ps[1..]) == list[1..];
    var shifted := [" " + first] + ps[1..];
    assert shifted[0] == " " + first && shifted[1..] == ps[1..];
  }
}
