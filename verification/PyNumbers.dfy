/** `str(n)` and `int(s)` on decimal text, and the upper-case hexadecimal of the `02X` format. */
module PyNumbers {
  import opened PyText

  predicate IsDigit(c: char) {
    '0' <= c <= '9'
  }

  function DigitChar(d: nat): (c: char)
    requires d < 10
    ensures IsDigit(c) && DigitValue(c) == d
  {
    ('0' as int + d) as char
  }

  function DigitValue(c: char): (d: nat)
    requires IsDigit(c)
    ensures d < 10
  {
    c as int - '0' as int
  }

  /** `str(n)` for a natural number. */
  function NatText(n: nat): (s: string)
    ensures s != "" && forall i :: 0 <= i < |s| ==> IsDigit(s[i])
  {
    if n < 10 then [DigitChar(n)] else NatText(n / 10) + [DigitChar(n % 10)]
  }

  /** `str(n)`. */
  function IntText(n: int): string {
    if n < 0 then "-" + NatText(-n) else NatText(n)
  }

  /** The digits `int` accepts: at least one, with single underscores between them. */
  function DigitsValue(s: string): Option<nat> {
    if s == "" || !IsDigit(s[|s| - 1]) then None
    else if |s| == 1 then Some(DigitValue(s[0]))
    else
      var rest := DigitsValue(if s[|s| - 2] == '_' then s[..|s| - 2] else s[..|s| - 1]);
      if rest.None? then None else Some(10 * rest.value + DigitValue(s[|s| - 1]))
  }

  /** `int(s)`: `None` stands for `ValueError`. */
  function ParseInt(text: string): Option<int> {
    var s := Strip(text);
    if s != "" && (s[0] == '-' || s[0] == '+') then
      var n := DigitsValue(s[1..]);
      match n case None => None case Some(v) => Some(if s[0] == '-' then -(v as int) else v)
    else
      DigitsValue(s)
  }

  lemma {:induction false} DigitsOfNat(n: nat)
    ensures DigitsValue(NatText(n)) == Some(n)
  {
    if n >= 10 {
      var s := NatText(n);
      assert s[..|s| - 1] == NatText(n / 10) && s[|s| - 1] == DigitChar(n % 10);
      DigitsOfNat(n / 10);
    }
  }

  /** Reading a printed integer gives it back. */
  lemma ParsePrinted(n: int)
    ensures ParseInt(IntText(n)) == Some(n)
    ensures HasNoSpace(IntText(n)) && IntText(n) != ""
  {
    var s := IntText(n);
    var digits := NatText(if n < 0 then -n else n);
    DigitsOfNat(if n < 0 then -n else n);
    assert IsDigit(digits[0]);
    assert HasNoSpace(s);
    assert Strip(s) == s;
    if n < 0 { assert s[1..] == digits; }
  }

  /** Different numbers print differently. */
  lemma NatTextInjective(m: nat, n: nat)
    requires NatText(m) == NatText(n)
    ensures m == n
  {
    DigitsOfNat(m);
    DigitsOfNat(n);
  }
}
