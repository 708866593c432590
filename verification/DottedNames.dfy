/** Names as label lists: what it means for one name to lie under another. */
module DottedNames {
  import opened PyText
  import opened Names

  predicate IsLabel(s: string) {
    '.' !in s
  }

  predicate AreLabels(ls: seq<string>) {
    forall l :: l in ls ==> IsLabel(l)
  }

  /** Every label followed by a dot. */
  function Dotted(ls: seq<string>): string {
    if ls == [] then "" else ls[0] + ("." + Dotted(ls[1..]))
  }

  predicate IsSuffix<T(==)>(whole: seq<T>, part: seq<T>) {
    |part| <= |whole| && whole[|whole| - |part|..] == part
  }

  /** A dot-free label cannot hide the dot a suffix starts with. */
  lemma EndsBehindLabel(head: string, rest: string, zone: string)
    requires IsLabel(head)
    ensures EndsWith(head + ("." + rest), "." + zone) <==> InZone(rest, zone)
  {
    var name, z := head + ("." + rest), "." + zone;
    var at := |name| - |z|;
    if 0 <= at < |head| {
      assert name[at] == head[at] && z[0] == '.';
    } else if at == |head| {
      assert name[at..] == "." + rest;
      assert rest == ("." + rest)[1..] && zone == z[1..];
    } else if at > |head| {
      assert name[at..] == rest[at - |head| - 1..];
    }
  }

  lemma {:induction false} DottedInjective(a: seq<string>, b: seq<string>)
    requires AreLabels(a) && AreLabels(b) && Dotted(a) == Dotted(b)
    ensures a == b
  {
    if a != [] && b != [] {
      var s := Dotted(a);
      FirstDot(a[0], Dotted(a[1..]));
      FirstDot(b[0], Dotted(b[1..]));
      assert a[0] == s[..|a[0]|] && b[0] == s[..|b[0]|];
      assert Dotted(a[1..]) == s[|a[0]| + 1..] == Dotted(b[1..]);
      DottedInjective(a[1..], b[1..]);
    }
  }

  lemma FirstDot(head: string, rest: string)
    requires IsLabel(head)
    ensures var s := head + ("." + rest); s[|head|] == '.' && forall i :: 0 <= i < |head| ==> s[i] != '.'
  {
  }

  /** The string test for "lies in the zone" is the suffix test on labels. */
  lemma {:induction false} InZoneIffSuffix(name: seq<string>, zone: seq<string>)
    requires AreLabels(name) && AreLabels(zone) && zone != []
    ensures InZone(Dotted(name), Dotted(zone)) <==> IsSuffix(name, zone)
  {
    if Dotted(name) == Dotted(zone) { DottedInjective(name, zone); }
    if name == [] {
    } else {
      EndsBehindLabel(name[0], Dotted(name[1..]), Dotted(zone));
      InZoneIffSuffix(name[1..], zone);
      if |zone| <= |name| - 1 { assert name[1..][|name| - 1 - |zone|..] == name[|name| - |zone|..]; }
      if |zone| == |name| { assert name[0..] == name; }
    }
  }

  // ----- `split(".")` and `".".join` -----

  function SplitDots(s: string): (ls: seq<string>)
    ensures ls != []
  {
    if s == "" then [""]
    else
      var rest := SplitDots(s[1..]);
      if s[0] == '.' then [""] + rest else [[s[0]] + rest[0]] + rest[1..]
  }

  function JoinDots(ls: seq<string>): string {
    if ls == [] then "" else if |ls| == 1 then ls[0] else ls[0] + ("." + JoinDots(ls[1..]))
  }

  lemma {:induction false} SplitBehindLabel(head: string, rest: string)
    requires IsLabel(head)
    ensures SplitDots(head + ("." + rest)) == [head] + SplitDots(rest)
  {
    var s := head + ("." + rest);
    if head == "" {
      assert s[1..] == rest;
    } else {
      SplitBehindLabel(head[1..], rest);
      assert s[1..] == head[1..] + ("." + rest);
      assert [head[0]] + head[1..] == head;
    }
  }

  lemma {:induction false} SplitOfDotted(ls: seq<string>)
    requires AreLabels(ls)
    ensures SplitDots(Dotted(ls)) == ls + [""]
  {
    if ls != [] {
      SplitBehindLabel(ls[0], Dotted(ls[1..]));
      SplitOfDotted(ls[1..]);
    }
  }

  lemma {:induction false} JoinGivesDotted(ls: seq<string>)
    ensures JoinDots(ls + [""]) == Dotted(ls)
  {
    if ls != [] {
      JoinGivesDotted(ls[1..]);
      assert (ls + [""])[1..] == ls[1..] + [""];
    }
  }
}
