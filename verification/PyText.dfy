/**
 The few Python string operations the panel is written in. Text is a sequence of code points; case
 and white space follow Python's tables for the first 256 of them, and other code points are left
 alone.
 */
module PyText {

  datatype Option<+T> = None | Some(value: T) {
    function GetOr(default: T): T {
      if None? then default else value
    }
  }

  /** `str.isspace` on one character. */
  predicate IsSpace(c: char) {
    var n := c as int;
    9 <= n <= 13 || 28 <= n <= 32 || n == 0x85 || n == 0xA0
  }

  predicate IsUpper(c: char) {
    var n := c as int;
    65 <= n <= 90 || (0xC0 <= n <= 0xDE && n != 0xD7)
  }

  /** `str.lower` on one character. */
  function LowerChar(c: char): (r: char)
    ensures !IsUpper(r)
    ensures !IsUpper(c) ==> r == c
    ensures IsUpper(c) ==> r != c && r != '.' && r != '@' && r != '\\'
    ensures IsSpace(r) <==> IsSpace(c)
  {
    if IsUpper(c) then (c as int + 32) as char else c
  }

  predicate IsLower(s: string) {
    forall i :: 0 <= i < |s| ==> !IsUpper(s[i])
  }

  /** `str.lower`. */
  function Lower(s: string): (r: string)
    ensures |r| == |s|
    ensures forall i :: 0 <= i < |s| ==> r[i] == LowerChar(s[i])
    ensures IsLower(r)
    ensures IsLower(s) ==> r == s
    ensures IsTrimmed(s) ==> IsTrimmed(r)
  {
    seq(|s|, i requires 0 <= i < |s| => LowerChar(s[i]))
  }

  /** Neither end of `s` is white space. */
  predicate IsTrimmed(s: string) {
    s == "" || (!IsSpace(s[0]) && !IsSpace(s[|s| - 1]))
  }

  predicate HasNoSpace(s: string) {
    forall i :: 0 <= i < |s| ==> !IsSpace(s[i])
  }

  /** The first position from `i` on that is not white space, or the length. */
  function SkipSpace(s: string, i: nat): (j: nat)
    requires i <= |s|
    ensures i <= j <= |s|
    ensures j < |s| ==> !IsSpace(s[j])
    ensures forall k :: i <= k < j ==> IsSpace(s[k])
    decreases |s| - i
  {
    if i < |s| && IsSpace(s[i]) then SkipSpace(s, i + 1) else i
  }

  /** The end of `s[lo..hi]` without its trailing white space. */
  function DropSpace(s: string, lo: nat, hi: nat): (j: nat)
    requires lo <= hi <= |s|
    ensures lo <= j <= hi
    ensures lo < j ==> !IsSpace(s[j - 1])
    ensures forall k :: j <= k < hi ==> IsSpace(s[k])
  {
    if lo < hi && IsSpace(s[hi - 1]) then DropSpace(s, lo, hi - 1) else hi
  }

  /** `str.strip`. */
  function Strip(s: string): (r: string)
    ensures IsTrimmed(r)
    ensures |r| <= |s| && (|r| == |s| ==> r == s)
    ensures IsTrimmed(s) ==> r == s
  {
    var lo := SkipSpace(s, 0);
    s[lo..DropSpace(s, lo, |s|)]
  }

  /** `s.strip().lower()`, which is how every name on a form is read. */
  function Fold(s: string): (r: string)
    ensures IsTrimmed(r) && IsLower(r)
    ensures IsTrimmed(s) && IsLower(s) ==> r == s
    ensures |r| == |Strip(s)| <= |s| && (IsLower(s) && |r| == |s| ==> r == s)
  {
    Lower(Strip(s))
  }

  predicate EndsWith(s: string, t: string) {
    |t| <= |s| && s[|s| - |t|..] == t
  }

  /** The end of `s[..hi]` without its trailing dots. */
  function DropDots(s: string, hi: nat): (j: nat)
    requires hi <= |s|
    ensures j <= hi
    ensures 0 < j ==> s[j - 1] != '.'
    ensures forall k :: j <= k < hi ==> s[k] == '.'
  {
    if 0 < hi && s[hi - 1] == '.' then DropDots(s, hi - 1) else hi
  }

  /** `str.rstrip(".")`. */
  function StripDots(s: string): (r: string)
    ensures r <= s
    ensures r == "" || r[|r| - 1] != '.'
    ensures forall k :: |r| <= k < |s| ==> s[k] == '.'
  {
    s[..DropDots(s, |s|)]
  }

  /** One more dot at the end changes nothing. */
  lemma StripDotsAppended(s: string)
    ensures StripDots(s + ".") == StripDots(s)
  {
    DropDotsPrefix(s, s + ".", |s|);
  }

  lemma {:induction false} DropDotsPrefix(s: string, t: string, hi: nat)
    requires hi <= |s| && s <= t
    ensures DropDots(t, hi) == DropDots(s, hi)
  {
    if 0 < hi && s[hi - 1] == '.' { DropDotsPrefix(s, t, hi - 1); }
  }

  /** The characters `str.splitlines` breaks at. */
  predicate IsLineBreak(c: char) {
    var n := c as int;
    10 <= n <= 13 || 28 <= n <= 30 || n == 0x85 || n == 0x2028 || n == 0x2029
  }

  /** The text between line breaks, and between commas too where a form tolerates them. */
  function Pieces(s: string, commas: bool): (ps: seq<string>)
    ensures ps != []
  {
    if s == "" then [""]
    else
      var rest := Pieces(s[1..], commas);
      if IsLineBreak(s[0]) || (commas && s[0] == ',') then [""] + rest else [[s[0]] + rest[0]] + rest[1..]
  }

  /** Text without a line break is one piece. */
  lemma {:induction false} OnePiece(s: string)
    requires forall i :: 0 <= i < |s| ==> !IsLineBreak(s[i])
    ensures Pieces(s, false) == [s]
  {
    if s != "" {
      OnePiece(s[1..]);
      assert [s[0]] + s[1..] == s;
    }
  }

  /** The pieces that are not blank, trimmed. */
  function Trimmed(ps: seq<string>): (fs: seq<string>)
    ensures forall f :: f in fs ==> f != "" && IsTrimmed(f)
  {
    if ps == [] then []
    else (if Strip(ps[0]) == "" then [] else [Strip(ps[0])]) + Trimmed(ps[1..])
  }

  /** A text area's entries. */
  function Fields(s: string, commas: bool): (fs: seq<string>)
    ensures forall f :: f in fs ==> f != "" && IsTrimmed(f)
  {
    Trimmed(Pieces(s, commas))
  }

  /** `list(dict.fromkeys(s))`: the first occurrence of everything, in order. */
  function FirstOnly(s: seq<string>): (r: seq<string>)
    ensures forall x :: x in r <==> x in s
    ensures forall i, j :: 0 <= i < j < |r| ==> r[i] != r[j]
  {
    if s == [] then []
    else
      var r := FirstOnly(s[..|s| - 1]);
      var x := s[|s| - 1];
      assert s == s[..|s| - 1] + [x];
      if x in r then r else r + [x]
  }

  lemma FirstOnlyNone()
    ensures FirstOnly([]) == []
  {
  }

  lemma FirstOnlyAppend(s: seq<string>, x: string)
    ensures FirstOnly(s + [x]) == if x in FirstOnly(s) then FirstOnly(s) else FirstOnly(s) + [x]
  {
    assert (s + [x])[..|s|] == s;
  }
}
