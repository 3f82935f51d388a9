/** Characters, scanning and decimal numbers, shared by the other modules. */
module Text {
  predicate IsNewline(c: char) { c == '\r' || c == '\n' }

  predicate NotNewline(c: char) { !IsNewline(c) }

  predicate NotLineFeed(c: char) { c != '\n' }

  predicate IsBlank(c: char) { c == ' ' || c == '\t' }

  predicate IsFold(c: char) { IsBlank(c) || IsNewline(c) }

  /** std::isspace() in the C locale. */
  predicate IsSpace(c: char) { c == ' ' || ('\t' <= c <= '\r') }

  /** The first position from i on whose character is not a p. */
  function Skip(s: string, i: nat, p: char -> bool): (r: nat)
    requires i <= |s|
    ensures i <= r <= |s|
    ensures forall k :: i <= k < r ==> p(s[k])
    ensures r < |s| ==> !p(s[r])
    decreases |s| - i
  {
    if i < |s| && p(s[i]) then Skip(s, i + 1, p) else i
  }

  lemma {:induction false} SkipIs(s: string, i: nat, p: char -> bool, r: nat)
    requires i <= r <= |s| && (forall k :: i <= k < r ==> p(s[k])) && (r < |s| ==> !p(s[r]))
    ensures Skip(s, i, p) == r
    decreases r - i
  {
    if i < r {
      SkipIs(s, i + 1, p, r);
    }
  }

  function Digit(n: nat): char
    requires n < 10
  {
    "0123456789"[n]
  }

  function Decimal(n: nat): (s: string)
    ensures s != [] && forall i :: 0 <= i < |s| ==> '0' <= s[i] <= '9'
  {
    if n < 10 then [Digit(n)] else Decimal(n / 10) + [Digit(n % 10)]
  }

  lemma {:induction false} DecimalInjective(m: nat, n: nat)
    requires Decimal(m) == Decimal(n)
    ensures m == n
  {
    if m >= 10 && n >= 10 {
      var a, b := Decimal(m / 10), Decimal(n / 10);
      assert a == (a + [Digit(m % 10)])[..|Decimal(m)| - 1];
      assert b == (b + [Digit(n % 10)])[..|Decimal(n)| - 1];
      DecimalInjective(m / 10, n / 10);
      assert Decimal(m)[|Decimal(m)| - 1] == Digit(m % 10);
      assert Decimal(n)[|Decimal(n)| - 1] == Digit(n % 10);
    }
  }
}
