/**
  The string operations the loaders use: Python's `str.strip()`, `str.lower()`,
  the `in` substring test, and decimal rendering and parsing of naturals
  (`str(n)` and `int(s)` on digit strings).
*/
module Text {

  /** Python's `str.isspace()` for a single character. */
  predicate IsSpace(c: char)
  {
    || ('\t' <= c <= '\r')
    || ('\U{1c}' <= c <= '\U{1f}')
    || c == ' ' || c == '\U{85}' || c == '\U{a0}' || c == '\U{1680}'
    || ('\U{2000}' <= c <= '\U{200a}')
    || c == '\U{2028}' || c == '\U{2029}' || c == '\U{202f}' || c == '\U{205f}' || c == '\U{3000}'
  }

  /** No whitespace at either end. */
  predicate Trimmed(s: string)
  {
    s == [] || (!IsSpace(s[0]) && !IsSpace(s[|s| - 1]))
  }

  /** `s.lstrip()`: the longest suffix of `s` that does not start with whitespace. */
  function StripLeft(s: string): (r: string)
    ensures |r| <= |s| && r == s[|s| - |r|..]
    ensures forall i | 0 <= i < |s| - |r| :: IsSpace(s[i])
    ensures r == [] || !IsSpace(r[0])
  {
    if s != [] && IsSpace(s[0]) then StripLeft(s[1..]) else s
  }

  /** `s.rstrip()`: the longest prefix of `s` that does not end with whitespace. */
  function StripRight(s: string): (r: string)
    ensures |r| <= |s| && r == s[..|r|]
    ensures forall i | |r| <= i < |s| :: IsSpace(s[i])
    ensures r == [] || !IsSpace(r[|r| - 1])
  {
    if s != [] && IsSpace(s[|s| - 1]) then StripRight(s[..|s| - 1]) else s
  }

  /** `s.strip()`. */
  function Strip(s: string): (r: string)
    ensures Trimmed(r)
    ensures |r| <= |s|
    ensures Trimmed(s) ==> r == s
    ensures r == [] <==> forall i | 0 <= i < |s| :: IsSpace(s[i])
  {
    var l := StripLeft(s);
    var r := StripRight(l);
    assert r != [] ==> r[0] == l[0];
    assert l == [] ==> r == [];
    r
  }

  /** Python's `str.lower()` on one character, for the ASCII letters. */
  function LowerChar(c: char): char
  {
    if 'A' <= c <= 'Z' then (c as int + 32) as char else c
  }

  predicate NoUpper(s: string)
  {
    forall i | 0 <= i < |s| :: !('A' <= s[i] <= 'Z')
  }

  /** `s.lower()`, character by character. */
  function Lower(s: string): (r: string)
    ensures |r| == |s|
    ensures forall i | 0 <= i < |s| :: r[i] == LowerChar(s[i])
  {
    seq(|s|, i requires 0 <= i < |s| => LowerChar(s[i]))
  }

  lemma LowerIsLowercase(s: string)
    ensures NoUpper(Lower(s))
    ensures Lower(Lower(s)) == Lower(s)
  {
  }

  lemma LowerKeepsLowercase(s: string)
    requires NoUpper(s)
    ensures Lower(s) == s
  {
  }

  /** Python's `sub in s` on strings. */
  predicate Contains(s: string, sub: string)
  {
    exists i | 0 <= i <= |s| :: sub <= s[i..]
  }

  /** `any(k in s for k in keywords)`. */
  predicate ContainsAny(s: string, keywords: seq<string>)
  {
    exists k | 0 <= k < |keywords| :: Contains(s, keywords[k])
  }

  lemma AnyOfOne(s: string, a: string)
    ensures ContainsAny(s, [a]) <==> Contains(s, a)
  {
    assert [a][0] == a;
  }

  lemma AnyOfTwo(s: string, a: string, b: string)
    ensures ContainsAny(s, [a, b]) <==> Contains(s, a) || Contains(s, b)
  {
    var kws := [a, b];
    assert kws[0] == a && kws[1] == b;
  }

  lemma AnyOfThree(s: string, a: string, b: string, c: string)
    ensures ContainsAny(s, [a, b, c]) <==> Contains(s, a) || Contains(s, b) || Contains(s, c)
  {
    var kws := [a, b, c];
    assert kws[0] == a && kws[1] == b && kws[2] == c;
  }

  lemma AnyOfFour(s: string, a: string, b: string, c: string, d: string)
    ensures ContainsAny(s, [a, b, c, d]) <==> Contains(s, a) || Contains(s, b) || Contains(s, c) || Contains(s, d)
  {
    var kws := [a, b, c, d];
    assert kws[0] == a && kws[1] == b && kws[2] == c && kws[3] == d;
  }

  /** A witness position proves containment. */
  lemma ContainsAt(s: string, sub: string, i: nat)
    requires i <= |s| && sub <= s[i..]
    ensures Contains(s, sub)
  {
  }

  /** A character of `sub` that does not occur in `s` disproves containment. */
  lemma AbsentChar(s: string, sub: string, c: char)
    requires c in sub && c !in s
    ensures !Contains(s, sub)
  {
    forall i | 0 <= i <= |s| ensures !(sub <= s[i..]) {
      var k :| 0 <= k < |sub| && sub[k] == c;
    }
  }

  lemma ContainsPrefix(s: string, pre: string)
    requires pre <= s
    ensures Contains(s, pre)
  {
    ContainsAt(s, pre, 0);
  }

  lemma ContainsInMiddle(a: string, sub: string, b: string)
    ensures Contains(a + sub + b, sub)
  {
    assert sub <= (a + sub + b)[|a|..];
  }

  /** `sep.join(parts)`. */
  function JoinWith(parts: seq<string>, sep: string): string
    requires |parts| >= 1
  {
    if |parts| == 1 then parts[0] else JoinWith(parts[..|parts| - 1], sep) + sep + parts[|parts| - 1]
  }

  /** Appending one more part appends the separator and the part. */
  lemma JoinWithAppend(parts: seq<string>, sep: string, x: string)
    requires |parts| >= 1
    ensures JoinWith(parts + [x], sep) == JoinWith(parts, sep) + sep + x
  {
    assert (parts + [x])[..|parts|] == parts;
  }

  // ---------------------------------------------------------------------
  // Decimal digits

  predicate IsDigit(c: char)
  {
    '0' <= c <= '9'
  }

  predicate IsDigits(s: string)
  {
    forall i | 0 <= i < |s| :: IsDigit(s[i])
  }

  function Pow10(k: nat): (p: nat)
    ensures p >= 1
  {
    if k == 0 then 1 else 10 * Pow10(k - 1)
  }

  /** `int(s)` for a string of ASCII digits. */
  function DigitsValue(s: string): (v: nat)
    requires IsDigits(s)
    ensures v < Pow10(|s|)
  {
    if s == [] then 0
    else DigitsValue(s[..|s| - 1]) * 10 + (s[|s| - 1] as int - '0' as int)
  }

  /** The value of a digit string of at most three digits, written out. */
  lemma DigitsValueShort(s: string)
    requires IsDigits(s) && 1 <= |s| <= 3
    ensures |s| == 1 ==> DigitsValue(s) == s[0] as int - '0' as int
    ensures |s| == 2 ==> DigitsValue(s) == 10 * (s[0] as int - '0' as int) + (s[1] as int - '0' as int)
    ensures |s| == 3 ==> DigitsValue(s) == 100 * (s[0] as int - '0' as int)
                                          + 10 * (s[1] as int - '0' as int) + (s[2] as int - '0' as int)
  {
    if |s| >= 2 {
      assert s[..|s| - 1][..1] == s[..1];
      assert s[..1][..0] == [];
    }
    if |s| == 3 {
      assert s[..2][..1] == s[..1];
    }
  }

  function DigitChar(d: nat): (c: char)
    requires d < 10
    ensures IsDigit(c) && c as int - '0' as int == d
  {
    ('0' as int + d) as char
  }

  /** No superfluous leading zero: what `str(n)` produces. */
  predicate Canonical(s: string)
  {
    |s| >= 1 && IsDigits(s) && (s[0] == '0' ==> |s| == 1)
  }

  /** `str(n)` for a natural number. */
  function NatToString(n: nat): (r: string)
    ensures Canonical(r) && DigitsValue(r) == n
    ensures |r| == 1 || Pow10(|r| - 1) <= n
    decreases n
  {
    if n < 10 then [DigitChar(n)]
    else
      var r := NatToString(n / 10) + [DigitChar(n % 10)];
      assert r[..|r| - 1] == NatToString(n / 10);
      r
  }

  lemma DigitsValueLeadingZero(s: string)
    requires IsDigits(s) && |s| >= 1 && s[0] == '0'
    ensures DigitsValue(s) < Pow10(|s| - 1)
  {
    if |s| > 1 {
      DigitsValueLeadingZero(s[..|s| - 1]);
    }
  }

  /** `str(int(s)) == s` for canonical digit strings. */
  lemma {:induction false} NatToStringOfValue(s: string)
    requires Canonical(s)
    ensures NatToString(DigitsValue(s)) == s
    decreases |s|
  {
    var v := DigitsValue(s);
    if |s| == 1 {
      assert v < 10;
    } else {
      var init := s[..|s| - 1];
      assert init[0] == s[0] != '0';
      NatToStringOfValue(init);
      assert v >= 10 by {
        DigitsValuePositive(init);
      }
      assert v / 10 == DigitsValue(init);
      assert NatToString(v) == NatToString(v / 10) + [DigitChar(v % 10)];
      assert s == init + [s[|s| - 1]];
    }
  }

  lemma DigitsValuePositive(s: string)
    requires IsDigits(s) && |s| >= 1 && s[0] != '0'
    ensures DigitsValue(s) >= 1
  {
    if |s| > 1 {
      DigitsValuePositive(s[..|s| - 1]);
    }
  }

  /** Strings of at most `k` digits are exactly the renderings of numbers below 10^k. */
  lemma NatToStringLength(n: nat, k: nat)
    requires n < Pow10(k) && k >= 1
    ensures |NatToString(n)| <= k
  {
    var r := NatToString(n);
    if |r| > 1 {
      Pow10Order(k, |r| - 1);
    }
  }

  lemma Pow10Order(a: nat, b: nat)
    ensures a <= b <==> Pow10(a) <= Pow10(b)
  {
    if a > 0 && b > 0 {
      Pow10Order(a - 1, b - 1);
    }
  }

  // ---------------------------------------------------------------------
  // Pieces joined by a separator

  /** `[x]` when `present`, nothing otherwise: a piece a builder appends only on a condition. */
  function Optional(present: bool, x: string): seq<string>
  {
    if present then [x] else []
  }

  /** Joining one more optional piece appends the separator and the piece, or nothing. */
  lemma JoinOptional(f: seq<string>, sep: string, d: string, piece: seq<string>)
    requires |f| >= 1 && d == JoinWith(f, sep) && |piece| <= 1
    ensures JoinWith(f + piece, sep) == if piece == [] then d else d + sep + piece[0]
  {
    if piece == [] {
      assert f + piece == f;
    } else {
      assert f + piece == f + [piece[0]];
      JoinWithAppend(f, sep, piece[0]);
    }
  }

  /** Appending `sep + tag`, then `value`, is appending `sep`, then the piece `tag + value`. */
  lemma AppendPiece(d: string, sep: string, tag: string, value: string)
    ensures d + (sep + tag) + value == d + sep + (tag + value)
  {
  }

  /** Some piece starts with `tag`. */
  predicate HasField(f: seq<string>, tag: string)
  {
    exists k | 0 <= k < |f| :: tag <= f[k]
  }

  lemma HasFieldConcat(a: seq<string>, b: seq<string>, tag: string)
    ensures HasField(a + b, tag) <==> HasField(a, tag) || HasField(b, tag)
  {
    if HasField(a + b, tag) {
      var k :| 0 <= k < |a + b| && tag <= (a + b)[k];
      if k >= |a| {
        assert tag <= b[k - |a|];
      } else {
        assert tag <= a[k];
      }
    }
    if HasField(a, tag) {
      var k :| 0 <= k < |a| && tag <= a[k];
      assert (a + b)[k] == a[k];
    }
    if HasField(b, tag) {
      var k :| 0 <= k < |b| && tag <= b[k];
      assert (a + b)[|a| + k] == b[k];
    }
  }

  lemma HasFieldOptional(present: bool, x: string, tag: string)
    ensures HasField(Optional(present, x), tag) <==> present && tag <= x
  {
    if present {
      assert Optional(present, x)[0] == x;
    }
  }

  /** `f"{amount:.2f}"` for an amount of `cents` hundredths. */
  function FormatCents(cents: int): string
    decreases if cents < 0 then 1 else 0
  {
    if cents < 0 then "-" + FormatCents(-cents)
    else NatToString(cents / 100) + "." + (if cents % 100 < 10 then "0" else "") + NatToString(cents % 100)
  }
}
