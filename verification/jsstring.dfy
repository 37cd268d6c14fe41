/** The JavaScript string semantics the leave-request form relies on:
    the white-space class shared by `String.prototype.trim` and the regular
    expression escapes `\s`/`\S`, `trim` itself, and the relational `<` on
    strings (with its meaning on ISO `yyyy-MM-dd` dates). */
module JsString {

  /** ECMAScript WhiteSpace and LineTerminator code points: the characters
      `trim` removes and `\s` matches. */
  predicate IsSpace(c: char) {
    var n := c as int;
    || 0x09 <= n <= 0x0D   // tab, line feed, vertical tab, form feed, carriage return
    || n == 0x20 || n == 0xA0 || n == 0x1680
    || 0x2000 <= n <= 0x200A
    || n == 0x2028 || n == 0x2029 || n == 0x202F || n == 0x205F
    || n == 0x3000 || n == 0xFEFF
  }

  /** Every character of `s` is white space (vacuously true of ""). */
  predicate Blank(s: string) {
    forall i :: 0 <= i < |s| ==> IsSpace(s[i])
  }

  /** How many white-space characters `s` starts with. */
  function LeadingSpaces(s: string): (n: nat)
    ensures n <= |s|
    ensures forall i :: 0 <= i < n ==> IsSpace(s[i])
    ensures n == |s| || !IsSpace(s[n])
  {
    if |s| > 0 && IsSpace(s[0]) then
      var n := 1 + LeadingSpaces(s[1..]);
      assert forall i :: 1 <= i < n ==> s[i] == s[1..][i - 1];
      n
    else 0
  }

  /** How many white-space characters `s` ends with. */
  function TrailingSpaces(s: string): (n: nat)
    ensures n <= |s|
    ensures forall i :: |s| - n <= i < |s| ==> IsSpace(s[i])
    ensures n == |s| || !IsSpace(s[|s| - n - 1])
  {
    if |s| > 0 && IsSpace(s[|s| - 1]) then
      var n := 1 + TrailingSpaces(s[..|s| - 1]);
      assert forall i :: |s| - n <= i < |s| - 1 ==> s[i] == s[..|s| - 1][i];
      n
    else 0
  }

  /** `s.trim()`: `s` without the white space at either end. The result
      neither starts nor ends with white space, only white space was
      removed, and it is empty exactly when `s` is blank. */
  function Trim(s: string): (r: string)
    ensures |r| <= |s|
    ensures r == [] || (!IsSpace(r[0]) && !IsSpace(r[|r| - 1]))
    ensures r == [] <==> Blank(s)
    ensures r != [] ==> LeadingSpaces(s) + |r| <= |s| && r == s[LeadingSpaces(s)..LeadingSpaces(s) + |r|]
    ensures r != [] ==> Blank(s[..LeadingSpaces(s)]) && Blank(s[LeadingSpaces(s) + |r|..])
  {
    var a := LeadingSpaces(s);
    if a == |s| then []
    else
      var b := TrailingSpaces(s);
      assert b < |s| - a by {
        if b >= |s| - a { assert false; }
      }
      s[a..|s| - b]
  }

  /** JavaScript's `a < b` on strings: lexicographic order of the
      characters, a proper prefix coming first. For characters of the Basic
      Multilingual Plane, which covers every date the form produces, this is
      the UTF-16 code-unit order JavaScript uses. */
  predicate StrLess(a: string, b: string)
    decreases |a|
  {
    if |a| == 0 then |b| > 0
    else if |b| == 0 then false
    else if a[0] != b[0] then a[0] < b[0]
    else StrLess(a[1..], b[1..])
  }

  lemma {:induction false} StrLessIrreflexive(a: string)
    ensures !StrLess(a, a)
    decreases |a|
  {
    if |a| > 0 {
      StrLessIrreflexive(a[1..]);
    }
  }

  /** Distinct strings are ordered one way or the other, never both. */
  lemma {:induction false} StrLessTrichotomy(a: string, b: string)
    ensures a == b || StrLess(a, b) || StrLess(b, a)
    ensures !(StrLess(a, b) && StrLess(b, a))
    decreases |a|
  {
    if |a| > 0 && |b| > 0 && a[0] == b[0] {
      StrLessTrichotomy(a[1..], b[1..]);
      if a[1..] == b[1..] {
        assert a == [a[0]] + a[1..] && b == [b[0]] + b[1..];
      }
    }
  }

  lemma {:induction false} StrLessTransitive(a: string, b: string, c: string)
    requires StrLess(a, b) && StrLess(b, c)
    ensures StrLess(a, c)
    decreases |a|
  {
    if |a| > 0 && a[0] == b[0] && b[0] == c[0] {
      StrLessTransitive(a[1..], b[1..], c[1..]);
    }
  }

  /** Comparing two equally long strings splits at any position `k`: the
      prefixes decide unless they are equal, then the suffixes do. */
  lemma {:induction false} StrLessSplit(a: string, b: string, k: nat)
    requires |a| == |b| && k <= |a|
    ensures StrLess(a, b) == if a[..k] == b[..k] then StrLess(a[k..], b[k..]) else StrLess(a[..k], b[..k])
    decreases k
  {
    if k > 0 {
      if a[0] == b[0] {
        StrLessSplit(a[1..], b[1..], k - 1);
        assert a[1..][..k - 1] == a[1..k] && b[1..][..k - 1] == b[1..k];
        assert a[1..][k - 1..] == a[k..] && b[1..][k - 1..] == b[k..];
        assert a[..k] == [a[0]] + a[1..k] && b[..k] == [b[0]] + b[1..k];
        assert a[..k][1..] == a[1..k] && b[..k][1..] == b[1..k];
      } else {
        assert a[..k][0] == a[0] && b[..k][0] == b[0];
      }
    } else {
      assert a[..0] == b[..0];
    }
  }

  predicate IsDigit(c: char) {
    '0' <= c <= '9'
  }

  predicate AllDigits(s: string) {
    forall i :: 0 <= i < |s| ==> IsDigit(s[i])
  }

  function Pow10(n: nat): (r: nat)
    ensures r >= 1
  {
    if n == 0 then 1 else 10 * Pow10(n - 1)
  }

  function DigitValue(c: char): (d: int)
    requires IsDigit(c)
    ensures 0 <= d <= 9
  {
    (c as int) - ('0' as int)
  }

  /** The decimal value of a digit string, most significant digit first. */
  function DigitsValue(s: string): int
    requires AllDigits(s)
  {
    if |s| == 0 then 0
    else DigitValue(s[0]) * Pow10(|s| - 1) + DigitsValue(s[1..])
  }

  lemma {:induction false} DigitsValueBound(s: string)
    requires AllDigits(s)
    ensures 0 <= DigitsValue(s) < Pow10(|s|)
  {
    if |s| > 0 {
      DigitsValueBound(s[1..]);
      var d, p := DigitValue(s[0]), Pow10(|s| - 1);
      assert d * p <= 9 * p by { MulLeft(d, 9, p); }
    }
  }

  /** For digit strings of one length, string order is numeric order. */
  lemma {:induction false} DigitsOrder(a: string, b: string)
    requires AllDigits(a) && AllDigits(b) && |a| == |b|
    ensures StrLess(a, b) <==> DigitsValue(a) < DigitsValue(b)
    ensures a == b <==> DigitsValue(a) == DigitsValue(b)
  {
    if |a| > 0 {
      var ta, tb := a[1..], b[1..];
      DigitsOrder(ta, tb);
      DigitsValueBound(ta);
      DigitsValueBound(tb);
      var p := Pow10(|a| - 1);
      var da, db := DigitValue(a[0]), DigitValue(b[0]);
      assert DigitsValue(a) == da * p + DigitsValue(ta);
      assert DigitsValue(b) == db * p + DigitsValue(tb);
      if da < db {
        FirstDigitDecides(da, db, p, DigitsValue(ta), DigitsValue(tb));
        assert a[0] < b[0];
      } else if db < da {
        FirstDigitDecides(db, da, p, DigitsValue(tb), DigitsValue(ta));
        assert b[0] < a[0];
      } else {
        assert a[0] == b[0];
        assert StrLess(a, b) == StrLess(ta, tb);
        if ta == tb {
          assert a == [a[0]] + ta && b == [b[0]] + tb;
        }
      }
    }
  }

  /** A smaller leading digit makes the smaller number whatever follows. */
  lemma FirstDigitDecides(x: int, y: int, p: int, u: int, v: int)
    requires x < y && p >= 1 && 0 <= u < p && 0 <= v < p
    ensures x * p + u < y * p + v
  {
    MulLeft(x + 1, y, p);
    assert (x + 1) * p == x * p + p;
  }

  lemma MulLeft(x: int, y: int, p: int)
    requires x <= y && p >= 0
    ensures x * p <= y * p
  {
  }

  /** The shape an HTML date input submits: `yyyy-MM-dd`. */
  predicate IsIsoDate(s: string) {
    && |s| == 10
    && AllDigits(s[..4]) && s[4] == '-'
    && AllDigits(s[5..7]) && s[7] == '-'
    && AllDigits(s[8..])
  }

  /** The calendar position of an ISO date: year, then month, then day. */
  function DateKey(s: string): int
    requires IsIsoDate(s)
  {
    DigitsValue(s[..4]) * 10000 + DigitsValue(s[5..7]) * 100 + DigitsValue(s[8..])
  }

  /** On ISO dates JavaScript's string comparison is calendar order: one
      date string is less than another exactly when it falls earlier. */
  lemma IsoDateOrder(a: string, b: string)
    requires IsIsoDate(a) && IsIsoDate(b)
    ensures StrLess(a, b) <==> DateKey(a) < DateKey(b)
  {
    var ya, yb := a[..4], b[..4];
    var ma, mb := a[5..7], b[5..7];
    var da, db := a[8..], b[8..];
    DigitsOrder(ya, yb);
    DigitsOrder(ma, mb);
    DigitsOrder(da, db);
    DigitsValueBound(ma); DigitsValueBound(mb);
    DigitsValueBound(da); DigitsValueBound(db);
    assert Pow10(2) == 100;
    StrLessSplit(a, b, 4);
    if ya == yb {
      var a1, b1 := a[4..], b[4..];
      StrLessSplit(a1, b1, 1);
      assert a1[1..] == a[5..] && b1[1..] == b[5..];
      var a2, b2 := a[5..], b[5..];
      StrLessSplit(a2, b2, 2);
      assert a2[..2] == ma && b2[..2] == mb;
      if ma == mb {
        var a3, b3 := a[7..], b[7..];
        assert a2[2..] == a3 && b2[2..] == b3;
        StrLessSplit(a3, b3, 1);
        assert a3[1..] == da && b3[1..] == db;
      }
    }
  }
}
