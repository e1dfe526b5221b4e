/**
  Dotted-quad IPv4 addresses: the validator the ETL pipeline applies to the
  inventory's `IP_Address` column, and the `"a.b.c.d"` strings the loaders
  synthesise for security events and activities.
*/
module Ipv4 {
  import opened Text

  /** Python's `s.split(sep)` for a one-character separator. */
  function Split(s: string, sep: char): (parts: seq<string>)
    ensures |parts| >= 1
    ensures forall k | 0 <= k < |parts| :: sep !in parts[k]
    decreases |s|
  {
    if s == [] then [[]]
    else
      var rest := Split(s[1..], sep);
      if s[0] == sep then [[]] + rest
      else [[s[0]] + rest[0]] + rest[1..]
  }

  /** The inverse of `Split`: `sep.join(parts)`. */
  function Join(parts: seq<string>, sep: char): (s: string)
    requires |parts| >= 1
  {
    if |parts| == 1 then parts[0] else parts[0] + [sep] + Join(parts[1..], sep)
  }

  lemma {:induction false} SplitFree(p: string, sep: char)
    requires sep !in p
    ensures Split(p, sep) == [p]
    decreases |p|
  {
    if p != [] {
      SplitFree(p[1..], sep);
      assert [p[0]] + p[1..] == p;
    }
  }

  lemma {:induction false} SplitAfter(p: string, sep: char, q: string)
    requires sep !in p
    ensures Split(p + [sep] + q, sep) == [p] + Split(q, sep)
    decreases |p|
  {
    var s := p + [sep] + q;
    if p == [] {
      assert s[1..] == q;
    } else {
      assert s[1..] == p[1..] + [sep] + q;
      SplitAfter(p[1..], sep, q);
      assert [p[0]] + p[1..] == p;
    }
  }

  /** Splitting undoes joining, for pieces free of the separator. */
  lemma {:induction false} SplitJoin(parts: seq<string>, sep: char)
    requires |parts| >= 1
    requires forall k | 0 <= k < |parts| :: sep !in parts[k]
    ensures Split(Join(parts, sep), sep) == parts
    decreases |parts|
  {
    if |parts| == 1 {
      SplitFree(parts[0], sep);
    } else {
      SplitJoin(parts[1..], sep);
      SplitAfter(parts[0], sep, Join(parts[1..], sep));
    }
  }

  /** Joining undoes splitting. */
  lemma {:induction false} JoinSplit(s: string, sep: char)
    ensures Join(Split(s, sep), sep) == s
    decreases |s|
  {
    if s != [] {
      JoinSplit(s[1..], sep);
      var rest := Split(s[1..], sep);
      if s[0] != sep {
        if |rest| == 1 {
          assert s == [s[0]] + rest[0];
        } else {
          assert ([s[0]] + rest[0]) + [sep] + Join(rest[1..], sep) == [s[0]] + Join(rest, sep);
          assert ([[s[0]] + rest[0]] + rest[1..])[1..] == rest[1..];
        }
      } else {
        assert ([[]] + rest)[1..] == rest;
      }
    }
  }

  lemma JoinFour(a: string, b: string, c: string, d: string, sep: char)
    ensures Join([a, b, c, d], sep) == a + [sep] + b + [sep] + c + [sep] + d
  {
    assert [c, d][1..] == [d];
    assert Join([c, d], sep) == c + [sep] + d;
    assert [b, c, d][1..] == [c, d];
    assert Join([b, c, d], sep) == b + [sep] + (c + [sep] + d);
    assert [a, b, c, d][1..] == [b, c, d];
    assert Join([a, b, c, d], sep) == a + [sep] + (b + [sep] + (c + [sep] + d));
  }

  /** One group of the pattern `\d{1,3}` whose integer value is at most 255. */
  predicate ValidOctet(p: string)
  {
    1 <= |p| <= 3 && IsDigits(p) && DigitsValue(p) <= 255
  }

  /**
    The part of the address the pattern `^(\d{1,3}\.){3}\d{1,3}$` has to match:
    under `re.match`, `$` also matches just before one final newline, and
    `int()` ignores that newline when the last group is converted.
  */
  function Body(ip: string): (b: string)
    ensures b == ip || (ip == b + ['\n'])
  {
    if |ip| > 0 && ip[|ip| - 1] == '\n' then ip[..|ip| - 1] else ip
  }

  /** `FinMarkETLPipeline._validate_ip_address`. */
  predicate ValidIpAddress(ip: string)
  {
    var parts := Split(Body(ip), '.');
    |parts| == 4 && forall k | 0 <= k < 4 :: ValidOctet(parts[k])
  }

  /** The four octet values of a valid address. */
  function Octets(ip: string): (o: seq<nat>)
    requires ValidIpAddress(ip)
    ensures |o| == 4 && forall k | 0 <= k < 4 :: o[k] <= 255
  {
    var parts := Split(Body(ip), '.');
    seq(4, k requires 0 <= k < 4 => DigitsValue(parts[k]))
  }

  /** The address `f"{a}.{b}.{c}.{d}"`. */
  function FormatQuad(a: nat, b: nat, c: nat, d: nat): string
  {
    Join([NatToString(a), NatToString(b), NatToString(c), NatToString(d)], '.')
  }

  lemma OctetText(n: nat)
    requires n <= 255
    ensures ValidOctet(NatToString(n)) && '.' !in NatToString(n) && '\n' !in NatToString(n)
  {
    NatToStringLength(n, 3);
  }

  /** Every quad of octets formats to a valid address, and reads back the same octets. */
  lemma FormatQuadValid(a: nat, b: nat, c: nat, d: nat)
    requires a <= 255 && b <= 255 && c <= 255 && d <= 255
    ensures ValidIpAddress(FormatQuad(a, b, c, d))
    ensures Octets(FormatQuad(a, b, c, d)) == [a, b, c, d]
  {
    OctetText(a);
    OctetText(b);
    OctetText(c);
    OctetText(d);
    JoinedOctets(NatToString(a), NatToString(b), NatToString(c), NatToString(d));
  }

  /** Four dot-free, newline-free valid groups joined by dots make a valid address with their values. */
  lemma JoinedOctets(p0: string, p1: string, p2: string, p3: string)
    requires ValidOctet(p0) && ValidOctet(p1) && ValidOctet(p2) && ValidOctet(p3)
    requires '.' !in p0 && '.' !in p1 && '.' !in p2 && '.' !in p3 && '\n' !in p3
    ensures ValidIpAddress(Join([p0, p1, p2, p3], '.'))
    ensures Octets(Join([p0, p1, p2, p3], '.')) == [DigitsValue(p0), DigitsValue(p1), DigitsValue(p2), DigitsValue(p3)]
  {
    var parts := [p0, p1, p2, p3];
    var s := Join(parts, '.');
    JoinFour(p0, p1, p2, p3, '.');
    assert s[|s| - 1] == p3[|p3| - 1];
    assert Body(s) == s;
    SplitJoin(parts, '.');
  }

  /**
    A valid address whose groups have no leading zeros and no trailing newline
    is exactly the formatting of its octets.
  */
  lemma FormatOctets(ip: string)
    requires ValidIpAddress(ip) && ip == Body(ip)
    requires forall k | 0 <= k < 4 :: Canonical(Split(ip, '.')[k])
    ensures FormatQuad(Octets(ip)[0], Octets(ip)[1], Octets(ip)[2], Octets(ip)[3]) == ip
  {
    var parts := Split(ip, '.');
    var o := Octets(ip);
    forall k | 0 <= k < 4 ensures NatToString(o[k]) == parts[k] {
      NatToStringOfValue(parts[k]);
    }
    assert [NatToString(o[0]), NatToString(o[1]), NatToString(o[2]), NatToString(o[3])] == parts;
    JoinSplit(ip, '.');
  }

  /** A valid address has between seven and sixteen characters. */
  lemma ValidLength(ip: string)
    requires ValidIpAddress(ip)
    ensures 7 <= |ip| <= 16
  {
    var parts := Split(Body(ip), '.');
    JoinSplit(Body(ip), '.');
    assert parts == [parts[0], parts[1], parts[2], parts[3]];
    JoinFour(parts[0], parts[1], parts[2], parts[3], '.');
  }

  /** The address made of four dotted groups is valid exactly when each group is an octet. */
  lemma QuadValidity(a: string, b: string, c: string, d: string)
    requires '.' !in a && '.' !in b && '.' !in c && '.' !in d
    requires d != [] && d[|d| - 1] != '\n'
    ensures ValidIpAddress(a + "." + b + "." + c + "." + d)
        <==> ValidOctet(a) && ValidOctet(b) && ValidOctet(c) && ValidOctet(d)
  {
    var ip := a + "." + b + "." + c + "." + d;
    JoinFour(a, b, c, d, '.');
    assert ip == Join([a, b, c, d], '.');
    assert ip[|ip| - 1] == d[|d| - 1];
    assert Body(ip) == ip;
    SplitJoin([a, b, c, d], '.');
    var parts := Split(ip, '.');
    assert parts[0] == a && parts[1] == b && parts[2] == c && parts[3] == d;
  }

  /** Fewer or more than four groups are never valid. */
  lemma GroupCount(parts: seq<string>)
    requires |parts| >= 1 && |parts| != 4
    requires forall k | 0 <= k < |parts| :: '.' !in parts[k] && '\n' !in parts[k]
    ensures !ValidIpAddress(Join(parts, '.'))
  {
    var ip := Join(parts, '.');
    assert Body(ip) == ip by {
      if |ip| > 0 && ip[|ip| - 1] == '\n' {
        JoinLast(parts, '.');
      }
    }
    SplitJoin(parts, '.');
  }

  lemma {:induction false} JoinLast(parts: seq<string>, sep: char)
    requires |parts| >= 1 && sep != '\n'
    requires forall k | 0 <= k < |parts| :: '\n' !in parts[k]
    ensures '\n' !in Join(parts, sep)
    decreases |parts|
  {
    if |parts| > 1 {
      JoinLast(parts[1..], sep);
    }
  }

  lemma AcceptedExamples()
    ensures ValidIpAddress("10.0.0.1")
  {
    assert ValidOctet("10");
    assert ValidOctet("0");
    assert ValidOctet("1");
    assert "10" + "." + "0" + "." + "0" + "." + "1" == "10.0.0.1";
    QuadValidity("10", "0", "0", "1");
  }

  lemma BroadcastAccepted()
    ensures ValidIpAddress("255.255.255.255")
  {
    DigitsValueShort("255");
    assert "255" + "." + "255" + "." + "255" + "." + "255" == "255.255.255.255";
    QuadValidity("255", "255", "255", "255");
  }

  lemma LeadingZeroAccepted()
    ensures ValidIpAddress("010.0.0.1")
  {
    DigitsValueShort("010");
    assert ValidOctet("0");
    assert ValidOctet("1");
    assert "010" + "." + "0" + "." + "0" + "." + "1" == "010.0.0.1";
    QuadValidity("010", "0", "0", "1");
  }

  lemma TrailingNewlineAccepted()
    ensures ValidIpAddress("10.0.0.1\n")
  {
    AcceptedExamples();
    assert Body("10.0.0.1\n") == "10.0.0.1";
  }

  lemma OctetOutOfRangeRejected()
    ensures !ValidIpAddress("256.1.1.1")
  {
    DigitsValueShort("256");
    assert "256" + "." + "1" + "." + "1" + "." + "1" == "256.1.1.1";
    QuadValidity("256", "1", "1", "1");
  }

  lemma LongGroupRejected()
    ensures !ValidIpAddress("1234.1.1.1")
  {
    assert !ValidOctet("1234");
    assert "1234" + "." + "1" + "." + "1" + "." + "1" == "1234.1.1.1";
    QuadValidity("1234", "1", "1", "1");
  }

  lemma NonDigitsRejected()
    ensures !ValidIpAddress("a.b.c.d")
  {
    assert !IsDigit("a"[0]);
    assert "a" + "." + "b" + "." + "c" + "." + "d" == "a.b.c.d";
    QuadValidity("a", "b", "c", "d");
  }

  lemma TooFewGroupsRejected()
    ensures !ValidIpAddress("1.2.3")
  {
    assert Join(["1", "2", "3"], '.') == "1.2.3" by {
      assert ["1", "2", "3"][1..] == ["2", "3"];
      assert ["2", "3"][1..] == ["3"];
    }
    GroupCount(["1", "2", "3"]);
  }

  lemma TooManyGroupsRejected()
    ensures !ValidIpAddress("1.2.3.4.5")
  {
    assert Join(["1", "2", "3", "4", "5"], '.') == "1.2.3.4.5" by {
      assert ["1", "2", "3", "4", "5"][1..] == ["2", "3", "4", "5"];
      JoinFour("2", "3", "4", "5", '.');
    }
    GroupCount(["1", "2", "3", "4", "5"]);
  }
}
