/** Comparing text, and comparing unsigned decimal numbers as text
    (internal/store/store.go, compareUnsignedDecimal). */
module Decimal {

  /** -1, 0 or 1, character by character, a prefix first. */
  function CompareText(x: string, y: string): int
    decreases |x|
  {
    if x == [] then if y == [] then 0 else -1
    else if y == [] then 1
    else if x[0] != y[0] then if x[0] < y[0] then -1 else 1
    else CompareText(x[1..], y[1..])
  }

  lemma {:induction false} TextOrder(x: string, y: string, z: string)
    ensures CompareText(x, y) == 0 <==> x == y
    ensures CompareText(x, y) == -CompareText(y, x)
    ensures CompareText(x, y) <= 0 && CompareText(y, z) <= 0 ==> CompareText(x, z) <= 0
    ensures CompareText(x, y) <= 0 && CompareText(y, z) < 0 ==> CompareText(x, z) < 0
    ensures CompareText(x, y) < 0 && CompareText(y, z) <= 0 ==> CompareText(x, z) < 0
    ensures CompareText(x, y) in {-1, 0, 1}
    decreases |x|
  {
    if x != [] && y != [] {
      assert x == [x[0]] + x[1..] && y == [y[0]] + y[1..];
      TextOrder(x[1..], y[1..], if z == [] then [] else z[1..]);
    } else if x != [] && z != [] {
      TextOrder(x[1..], [], z[1..]);
    }
  }

  /** The first k characters agree, and then x ends first or has the smaller character. */
  ghost predicate SmallerAt(x: string, y: string, k: nat) {
    k <= |x| && k < |y| && x[..k] == y[..k] && (k < |x| ==> x[k] < y[k])
  }

  /** The order of texts is that of a dictionary. */
  lemma {:induction false} TextIsLexicographic(x: string, y: string)
    ensures CompareText(x, y) < 0 <==> exists k: nat :: SmallerAt(x, y, k)
    decreases |x|
  {
    forall k: nat | SmallerAt(x, y, k)
      ensures k > 0 ==> x[0] == y[0]
    {
      FirstAgrees(x, y, k);
    }
    if x == [] || y == [] || x[0] != y[0] {
      if y != [] && (x == [] || x[0] < y[0]) {
        assert SmallerAt(x, y, 0);
      }
    } else {
      TextIsLexicographic(x[1..], y[1..]);
      if k: nat :| SmallerAt(x[1..], y[1..], k) {
        assert x[..k + 1] == [x[0]] + x[1..][..k] && y[..k + 1] == [y[0]] + y[1..][..k];
        assert SmallerAt(x, y, k + 1);
      }
      if k: nat :| SmallerAt(x, y, k) {
        assert k > 0;
        assert x[1..][..k - 1] == x[..k][1..] && y[1..][..k - 1] == y[..k][1..];
        assert SmallerAt(x[1..], y[1..], k - 1);
      }
    }
  }

  lemma FirstAgrees(x: string, y: string, k: nat)
    requires SmallerAt(x, y, k)
    ensures k > 0 ==> x[0] == y[0]
  {
    if k > 0 {
      assert x[..k][0] == y[..k][0];
    }
  }

  predicate Digits(s: string) {
    forall i :: 0 <= i < |s| ==> '0' <= s[i] <= '9'
  }

  function Digit(c: char): int { c as int - '0' as int }

  /** The number a string of digits stands for. */
  function Value(s: string): int {
    if s == [] then 0 else 10 * Value(s[..|s| - 1]) + Digit(s[|s| - 1])
  }

  function Power(n: nat): (p: nat)
    ensures p > 0
  {
    if n == 0 then 1 else 10 * Power(n - 1)
  }

  function TrimZeros(s: string): string {
    if s != [] && s[0] == '0' then TrimZeros(s[1..]) else s
  }

  function Trimmed(s: string): string {
    if TrimZeros(s) == [] then "0" else TrimZeros(s)
  }

  function CompareUnsigned(left: string, right: string): int {
    var l, r := Trimmed(left), Trimmed(right);
    if |l| < |r| then -1 else if |l| > |r| then 1 else CompareText(l, r)
  }

  // ---------- values ----------

  /** The value read from the front. */
  lemma {:induction false} ValueFront(s: string)
    requires s != []
    ensures Value(s) == Digit(s[0]) * Power(|s| - 1) + Value(s[1..])
  {
    if |s| == 1 {
      assert s[..0] == [] && s[1..] == [];
    } else {
      var front := s[..|s| - 1];
      ValueFront(front);
      assert s[1..][..|s| - 2] == front[1..];
      Scale(Digit(s[0]), Power(|s| - 2));
    }
  }

  lemma Scale(d: int, p: nat)
    ensures 10 * (d * p) == d * (10 * p)
  {
  }

  lemma {:induction false} ValueBounds(s: string)
    requires Digits(s)
    ensures 0 <= Value(s) < Power(|s|)
  {
    if s != [] {
      ValueBounds(s[..|s| - 1]);
    }
  }

  lemma {:induction false} TrimKeepsValue(s: string)
    requires Digits(s)
    ensures Digits(TrimZeros(s)) && Value(TrimZeros(s)) == Value(s)
    ensures TrimZeros(s) != [] ==> TrimZeros(s)[0] != '0'
  {
    if s != [] && s[0] == '0' {
      ValueFront(s);
      TrimKeepsValue(s[1..]);
    }
  }

  lemma LeadingDigit(s: string)
    requires Digits(s) && s != [] && s[0] != '0'
    ensures Value(s) >= Power(|s| - 1)
  {
    ValueFront(s);
    ValueBounds(s[1..]);
    AtLeast(Digit(s[0]), Power(|s| - 1));
  }

  lemma AtLeast(d: int, p: nat)
    requires d >= 1
    ensures d * p >= p
  {
  }

  lemma {:induction false} PowerGrows(m: nat, n: nat)
    requires m <= n
    ensures Power(m) <= Power(n)
  {
    if m < n {
      PowerGrows(m, n - 1);
    }
  }

  /** Digits of equal number compare like text. */
  lemma {:induction false} SameLength(x: string, y: string)
    requires Digits(x) && Digits(y) && |x| == |y|
    ensures CompareText(x, y) < 0 <==> Value(x) < Value(y)
    ensures CompareText(x, y) == 0 <==> Value(x) == Value(y)
    decreases |x|
  {
    if x != [] {
      ValueFront(x);
      ValueFront(y);
      ValueBounds(x[1..]);
      ValueBounds(y[1..]);
      SameLength(x[1..], y[1..]);
      if x[0] < y[0] {
        Lead(Digit(x[0]), Digit(y[0]), Power(|x| - 1));
      } else if y[0] < x[0] {
        Lead(Digit(y[0]), Digit(x[0]), Power(|x| - 1));
      }
    }
  }

  lemma Lead(c: int, d: int, p: nat)
    requires c < d
    ensures c * p + p <= d * p
  {
    AtLeast(d - c, p);
  }

  lemma TrimmedShape(s: string)
    requires Digits(s)
    ensures var t := Trimmed(s);
      Digits(t) && Value(t) == Value(s) && t != [] && (t[0] == '0' ==> |t| == 1)
  {
    TrimKeepsValue(s);
    if TrimZeros(s) == [] {
      assert "0"[..0] == [];
    }
  }

  lemma ShorterIsLess(x: string, y: string)
    requires Digits(x) && Digits(y) && |x| < |y| && x != [] && y[0] != '0'
    ensures Value(x) < Value(y)
  {
    ValueBounds(x);
    LeadingDigit(y);
    PowerGrows(|x|, |y| - 1);
  }

  /** On digits, leading zeros or none, comparing the text is comparing the numbers. */
  lemma CompareIsNumeric(left: string, right: string)
    requires Digits(left) && Digits(right)
    ensures CompareUnsigned(left, right) < 0 <==> Value(left) < Value(right)
    ensures CompareUnsigned(left, right) > 0 <==> Value(left) > Value(right)
    ensures CompareUnsigned(left, right) == 0 <==> Value(left) == Value(right)
  {
    var l, r := Trimmed(left), Trimmed(right);
    TrimmedShape(left);
    TrimmedShape(right);
    if |l| < |r| {
      ShorterIsLess(l, r);
    } else if |l| > |r| {
      ShorterIsLess(r, l);
    } else {
      SameLength(l, r);
    }
  }

  // ---------- printing ----------

  /** The decimal text of a number, as big integers print. */
  function Text(n: nat): string {
    if n < 10 then [('0' as int + n) as char] else Text(n / 10) + [('0' as int + n % 10) as char]
  }

  lemma {:induction false} TextValue(n: nat)
    ensures Digits(Text(n)) && Value(Text(n)) == n
  {
    if n < 10 {
      assert Text(n)[..0] == [];
    } else {
      TextValue(n / 10);
      assert Text(n)[..|Text(n)| - 1] == Text(n / 10);
    }
  }
}
