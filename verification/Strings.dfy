/** Blank strings, decimal rendering of counters, and the revision order of the web client. */
module Strings {

  /** Unicode White_Space, the set that Rust's `trim` removes. */
  predicate IsWhitespace(c: char) {
    || '\t' <= c <= '\r' || c == ' ' || c == '\U{85}' || c == '\U{A0}' || c == '\U{1680}'
    || '\U{2000}' <= c <= '\U{200A}' || c == '\U{2028}' || c == '\U{2029}'
    || c == '\U{202F}' || c == '\U{205F}' || c == '\U{3000}'
  }

  predicate IsBlank(s: string) {
    forall c :: c in s ==> IsWhitespace(c)
  }

  /** The set that the web client's `trim` removes. */
  predicate IsJsWhitespace(c: char) {
    c == '\U{FEFF}' || (c != '\U{85}' && IsWhitespace(c))
  }

  predicate IsJsBlank(s: string) {
    forall c :: c in s ==> IsJsWhitespace(c)
  }

  // ---- Decimal rendering ----

  const DIGITS: string := "0123456789"

  function Digit(n: nat): (c: char)
    requires n < 10
    ensures '0' <= c <= '9'
    ensures c as int == '0' as int + n
  {
    DIGITS[n]
  }

  predicate IsDigit(c: char) { '0' <= c <= '9' }

  /** The canonical decimal form: no sign, no leading zero. */
  function Decimal(n: nat): (s: string)
    ensures |s| > 0
    ensures forall c :: c in s ==> IsDigit(c)
    ensures s[0] == '0' ==> n == 0
  {
    if n < 10 then [Digit(n)] else Decimal(n / 10) + [Digit(n % 10)]
  }

  function Value(s: string): (n: nat)
    requires forall c :: c in s ==> IsDigit(c)
  {
    if s == [] then 0
    else
      assert IsDigit(s[|s| - 1]);
      Value(s[..|s| - 1]) * 10 + (s[|s| - 1] as int - '0' as int)
  }

  lemma {:induction false} ValueOfDecimal(n: nat)
    ensures Value(Decimal(n)) == n
  {
    var s := Decimal(n);
    if n < 10 {
      assert s[..0] == [];
    } else {
      ValueOfDecimal(n / 10);
      assert s[..|s| - 1] == Decimal(n / 10);
    }
  }

  lemma DecimalInjective(a: nat, b: nat)
    requires Decimal(a) == Decimal(b)
    ensures a == b
  {
    ValueOfDecimal(a);
    ValueOfDecimal(b);
  }

  /** The revision pattern the client accepts: zero, or digits without a leading zero. */
  predicate IsCanonicalRevision(s: string) {
    s == "0" || (|s| > 0 && '1' <= s[0] <= '9' && forall c :: c in s ==> IsDigit(c))
  }

  /** The pattern accepts exactly the decimal forms of counters. */
  lemma CanonicalMeansDecimal(s: string)
    ensures IsCanonicalRevision(s) <==> exists n: nat :: s == Decimal(n)
  {
    if IsCanonicalRevision(s) {
      if s == "0" {
        assert s == Decimal(0);
      } else {
        DecimalOfValue(s);
        assert s == Decimal(Value(s));
      }
    }
    if n: nat :| s == Decimal(n) {
      assert s[0] in s && IsDigit(s[0]);
      if s[0] == '0' {
        assert s == Decimal(0);
      }
    }
  }

  lemma {:induction false} DecimalOfValue(s: string)
    requires |s| > 0 && '1' <= s[0] <= '9' && forall c :: c in s ==> IsDigit(c)
    ensures Decimal(Value(s)) == s && Value(s) > 0
  {
    var n := |s| - 1;
    assert s[n] in s && IsDigit(s[n]);
    var d := s[n] as int - '0' as int;
    assert Digit(d) == s[n];
    if n == 0 {
      assert s[..0] == [];
      assert Value(s) == d;
    } else {
      DecimalOfValue(s[..n]);
      assert Value(s) / 10 == Value(s[..n]) && Value(s) % 10 == d;
      assert s == s[..n] + [s[n]];
    }
  }

  // ---- The client's revision order ----

  /** Lexicographic order on equal-length strings, as the client's `>` compares them. */
  predicate LexLess(a: string, b: string)
    requires |a| == |b|
  {
    |a| > 0 && (a[0] < b[0] || (a[0] == b[0] && LexLess(a[1..], b[1..])))
  }

  /** Longer canonical decimals are larger; equal lengths compare as text. */
  predicate IsNewerRevision(next: string, previous: string) {
    |next| > |previous| || (|next| == |previous| && LexLess(previous, next))
  }

  function Pow10(k: nat): (p: nat)
    ensures p > 0
  {
    if k == 0 then 1 else 10 * Pow10(k - 1)
  }

  lemma {:induction false} DecimalBounds(n: nat)
    ensures n < Pow10(|Decimal(n)|)
    ensures n > 0 ==> Pow10(|Decimal(n)| - 1) <= n
  {
    if n < 10 {
      assert Pow10(1) == 10 * Pow10(0);
    } else {
      DecimalBounds(n / 10);
      var k := |Decimal(n / 10)|;
      assert Pow10(k + 1) == 10 * Pow10(k);
      assert Pow10(k) == 10 * Pow10(k - 1);
    }
  }

  lemma {:induction false} Pow10Monotone(j: nat, k: nat)
    requires j <= k
    ensures Pow10(j) <= Pow10(k)
  {
    if j < k {
      Pow10Monotone(j, k - 1);
    }
  }

  /** Comparing all but the last digit first is the same order. */
  lemma {:induction false} LexLessFromTheEnd(a: string, b: string)
    requires |a| == |b| > 0
    ensures LexLess(a, b) <==>
            var k := |a| - 1; LexLess(a[..k], b[..k]) || (a[..k] == b[..k] && a[k] < b[k])
  {
    var k := |a| - 1;
    if k == 0 {
      assert a[1..] == [] && b[1..] == [];
    } else {
      LexLessFromTheEnd(a[1..], b[1..]);
      assert a[1..][..k - 1] == a[..k][1..];
      assert b[1..][..k - 1] == b[..k][1..];
      assert a[..k] == [a[0]] + a[..k][1..];
      assert b[..k] == [b[0]] + b[..k][1..];
    }
  }

  lemma {:induction false} LexIsNumeric(a: nat, b: nat)
    requires |Decimal(a)| == |Decimal(b)|
    ensures LexLess(Decimal(a), Decimal(b)) <==> a < b
  {
    var s, t := Decimal(a), Decimal(b);
    LexLessFromTheEnd(s, t);
    if a >= 10 && b >= 10 {
      assert s[..|s| - 1] == Decimal(a / 10) && t[..|t| - 1] == Decimal(b / 10);
      LexIsNumeric(a / 10, b / 10);
      if Decimal(a / 10) == Decimal(b / 10) {
        DecimalInjective(a / 10, b / 10);
      }
    } else {
      assert a < 10 && b < 10;
      assert s[..0] == [] && t[..0] == [];
    }
  }

  /** On canonical decimals the client's order is exactly the numeric order. */
  lemma NewerRevisionIsNumericOrder(next: nat, previous: nat)
    ensures IsNewerRevision(Decimal(next), Decimal(previous)) <==> next > previous
  {
    var j, k := |Decimal(next)|, |Decimal(previous)|;
    DecimalBounds(next);
    DecimalBounds(previous);
    if j == k {
      LexIsNumeric(previous, next);
    } else if j > k {
      assert next > 0;
      Pow10Monotone(k, j - 1);
    } else {
      assert previous > 0;
      Pow10Monotone(j, k - 1);
    }
  }
}
