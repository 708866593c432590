/** What each way of writing a forwarder means, and how it is stored. */
module ForwarderEffects {
  import opened PyText
  import opened PyNumbers
  import opened Forwarders

  predicate HasNo(s: string, c: char) {
    forall i :: 0 <= i < |s| ==> s[i] != c
  }

  /** An entry without white space around it. */
  predicate IsEntry(s: string) {
    s != "" && IsTrimmed(s)
  }

  /** The number from 1 to 65535 that the text is, if it is one. */
  function PortNumber(text: string): Option<nat> {
    var n := ParseInt(text);
    if n.Some? && 1 <= n.value && n.value <= 65535 then Some(n.value) else None
  }

  /** The address that the text is, with this port. */
  function WithPort(lib: AddressLibrary, text: string, port: Option<nat>): Option<(Address, nat)> {
    var a := lib.parse(text);
    if a.Some? && port.Some? then Some((a.value, port.value)) else None
  }

  lemma {:induction false} NoneToCount(s: string, c: char)
    ensures Count(s, c) == 0 <==> HasNo(s, c)
  {
    if s != "" {
      NoneToCount(s[1..], c);
      assert HasNo(s, c) <==> s[0] != c && HasNo(s[1..], c) by {
        if s[0] != c && HasNo(s[1..], c) {
          forall i | 0 <= i < |s| ensures s[i] != c { if i > 0 { assert s[i] == s[1..][i - 1]; } }
        }
      }
    }
  }

  /** An IPv4 address alone, which has no colon, has the default port. */
  lemma BareMeans(lib: AddressLibrary, text: string, defaultPort: nat)
    requires IsEntry(text) && text[0] != '[' && HasNo(text, ':')
    ensures Meaning(lib, text, defaultPort) == WithPort(lib, text, Some(defaultPort))
  {
    NoneToCount(text, ':');
  }

  /** So has an IPv6 address alone, which has more than one. */
  lemma BareV6Means(lib: AddressLibrary, a: string, b: string, c: string, defaultPort: nat)
    requires var text := a + ":" + b + ":" + c; IsEntry(text) && text[0] != '['
    ensures var text := a + ":" + b + ":" + c;
      Meaning(lib, text, defaultPort) == WithPort(lib, text, Some(defaultPort))
  {
    var text := a + ":" + b + ":" + c;
    CountConcat(a + ":" + b + ":", c, ':');
    CountConcat(a + ":" + b, ":", ':');
    CountConcat(a + ":", b, ':');
    CountConcat(a, ":", ':');
    ColonCounts();
    assert Count(text, ':') >= 2;
  }

  lemma OneColon(address: string, port: string)
    requires HasNo(address, ':') && HasNo(port, ':')
    ensures var text := address + ":" + port;
      && Count(text, ':') == 1 && Find(text, ':') == Some(|address|)
      && text[..|address|] == address && text[|address| + 1..] == port
  {
    hide Count, Find;
    var text := address + ":" + port;
    CountConcat(address + ":", port, ':');
    CountConcat(address, ":", ':');
    ColonCounts();
    NoneToCount(address, ':');
    NoneToCount(port, ':');
    FindIs(text, ':', |address|);
  }

  lemma ColonCounts()
    ensures Count(":", ':') == 1
  {
    assert ":"[1..] == "";
  }

  /** With one colon, what is behind it is the port. */
  lemma PortedMeans(lib: AddressLibrary, address: string, port: string, defaultPort: nat)
    requires var text := address + ":" + port; IsEntry(text) && text[0] != '['
    requires HasNo(address, ':') && HasNo(port, ':')
    ensures Meaning(lib, address + ":" + port, defaultPort) == WithPort(lib, address, PortNumber(port))
  {
    hide ParseInt, Count, Find, HasNo, IsTrimmed, Strip;
    OneColon(address, port);
  }

  /** In brackets, an address alone has the default port. */
  lemma BracketedMeans(lib: AddressLibrary, address: string, defaultPort: nat)
    requires HasNo(address, ']')
    ensures Meaning(lib, "[" + address + "]", defaultPort) == WithPort(lib, address, Some(defaultPort))
  {
    hide Count;
    var text := "[" + address + "]";
    assert IsTrimmed(text);
    FindIs(text, ']', |address| + 1);
    assert text[1..|address| + 1] == address && text[|address| + 2..] == "";
  }

  /** And with a colon behind the brackets, what follows is the port. */
  lemma BracketedPortMeans(lib: AddressLibrary, address: string, port: string, defaultPort: nat)
    requires HasNo(address, ']') && IsTrimmed("[" + address + "]" + (":" + port))
    ensures Meaning(lib, "[" + address + "]" + (":" + port), defaultPort) == WithPort(lib, address, PortNumber(port))
  {
    hide Count, ParseInt, Strip, IsTrimmed;
    var text := "[" + address + "]" + (":" + port);
    FindIs(text, ']', |address| + 1);
    assert text[1..|address| + 1] == address && text[|address| + 2..] == ":" + port;
    assert (":" + port)[1..] == port;
  }

  /** Anything else behind the brackets is refused, and so is a bracket that is not closed. */
  lemma OtherBracketsMeanNothing(lib: AddressLibrary, address: string, rest: string, defaultPort: nat)
    requires HasNo(address, ']')
    ensures IsTrimmed("[" + address) ==> Meaning(lib, "[" + address, defaultPort) == None
    ensures rest != "" && rest[0] != ':' && IsTrimmed("[" + address + "]" + rest) ==>
      Meaning(lib, "[" + address + "]" + rest, defaultPort) == None
  {
    hide Count;
    var open, text := "[" + address, "[" + address + "]" + rest;
    assert HasNo(open, ']');
    FindIs(text, ']', |address| + 1);
    assert text[|address| + 2..] == rest;
  }

  /** An entry is stored as the address in its shortest form, an IPv6 one in brackets, a colon and the port in
      decimal. */
  lemma StoredAs(lib: AddressLibrary, value: string, defaultPort: nat)
    ensures match Meaning(lib, value, defaultPort)
      case None => NormaliseServer(lib, value, defaultPort) == None
      case Some((a, port)) =>
        NormaliseServer(lib, value, defaultPort) ==
          Some(if a.isV6 then "[" + lib.show(a) + "]:" + IntText(port) else lib.show(a) + ":" + IntText(port))
  {
    hide Meaning, NatText;
    var m := Meaning(lib, value, defaultPort);
    if m.Some? {
      var (a, port) := m.value;
      assert "[" + lib.show(a) + "]" + (":" + NatText(port)) == "[" + lib.show(a) + "]:" + NatText(port);
      assert lib.show(a) + (":" + NatText(port)) == lib.show(a) + ":" + NatText(port);
    }
  }

  /** White space around an entry does not matter, and a blank one means nothing. */
  lemma TrimmedMeans(lib: AddressLibrary, value: string, defaultPort: nat)
    ensures Meaning(lib, value, defaultPort) ==
      if Strip(value) == "" then None else Meaning(lib, Strip(value), defaultPort)
  {
    hide Strip, SplitServer;
  }
}
