/**
  Text forms used when an address is rendered: the decimal form of a
  non-negative integer (what Go's `strconv.Itoa` yields for one), the
  dotted-decimal form of a 4-byte IP, and splitting a string at the last
  occurrence of a separator. Each encoder comes with its inverse so that
  the rendering can be shown to lose nothing.
 */
module Text {
  import opened Wrappers

  predicate IsDigit(c: char) {
    '0' <= c <= '9'
  }

  predicate AllDigits(s: string) {
    forall i :: 0 <= i < |s| ==> IsDigit(s[i])
  }

  /** A decimal numeral as `strconv.Itoa` writes one: digits only, at
      least one of them, and no leading zero unless the number is zero. */
  predicate IsCanonical(s: string) {
    |s| >= 1 && AllDigits(s) && (s[0] == '0' ==> |s| == 1)
  }

  function DigitChar(d: nat): (c: char)
    requires d < 10
    ensures IsDigit(c)
    ensures c as int - '0' as int == d
  {
    ('0' as int + d) as char
  }

  function DigitValue(c: char): nat
    requires IsDigit(c)
  {
    c as int - '0' as int
  }

  /** Decimal form of a non-negative integer, most significant digit first. */
  function Itoa(n: nat): (r: string)
    ensures IsCanonical(r)
    ensures |r| == 1 <==> n < 10
    ensures r[0] == '0' <==> n == 0
    decreases n
  {
    if n < 10 then [DigitChar(n)]
    else Itoa(n / 10) + [DigitChar(n % 10)]
  }

  /** Value of a string of decimal digits; the inverse of `Itoa`. */
  function ParseDecimal(s: string): nat
    requires AllDigits(s)
    decreases |s|
  {
    if |s| == 0 then 0
    else ParseDecimal(s[..|s| - 1]) * 10 + DigitValue(s[|s| - 1])
  }

  /** Reading back what `Itoa` wrote gives the number it was given. */
  lemma {:induction false} ParseItoa(n: nat)
    ensures ParseDecimal(Itoa(n)) == n
    decreases n
  {
    if n >= 10 {
      var s := Itoa(n);
      assert s[..|s| - 1] == Itoa(n / 10);
      ParseItoa(n / 10);
    }
  }

  /** A canonical numeral that does not start with '0' denotes a positive number. */
  lemma {:induction false} ParsePositive(s: string)
    requires |s| >= 1 && AllDigits(s) && s[0] != '0'
    ensures ParseDecimal(s) > 0
    decreases |s|
  {
    if |s| > 1 {
      var p := s[..|s| - 1];
      assert p[0] == s[0];
      ParsePositive(p);
    }
  }

  /** Every canonical numeral is what `Itoa` writes for its value, so
      `Itoa` is a bijection between naturals and canonical numerals. */
  lemma {:induction false} ItoaParse(s: string)
    requires IsCanonical(s)
    ensures Itoa(ParseDecimal(s)) == s
    decreases |s|
  {
    var d := DigitValue(s[|s| - 1]);
    if |s| > 1 {
      var p := s[..|s| - 1];
      assert p[0] == s[0];
      assert IsCanonical(p);
      ParsePositive(p);
      var n := ParseDecimal(s);
      assert n == ParseDecimal(p) * 10 + d;
      assert n / 10 == ParseDecimal(p) && n % 10 == d;
      ItoaParse(p);
      assert s == p + [s[|s| - 1]];
    }
  }

  /** Splits `s` at the LAST occurrence of `c`: the text before it and the
      text after it, or `None` when `c` does not occur. */
  function SplitLast(s: string, c: char): (r: Option<(string, string)>)
    ensures r.None? <==> c !in s
    ensures r.Some? ==> s == r.value.0 + [c] + r.value.1 && c !in r.value.1
    decreases |s|
  {
    if |s| == 0 then None
    else if s[|s| - 1] == c then Some((s[..|s| - 1], []))
    else
      match SplitLast(s[..|s| - 1], c)
      case None => None
      case Some((h, t)) => Some((h, t + [s[|s| - 1]]))
  }

  /** A string built as `h + [c] + t` with no `c` in `t` splits back into
      exactly `h` and `t`. */
  lemma {:induction false} SplitLastJoin(h: string, c: char, t: string)
    requires c !in t
    ensures SplitLast(h + [c] + t, c) == Some((h, t))
    decreases |t|
  {
    var s := h + [c] + t;
    if |t| == 0 {
      assert s[..|s| - 1] == h;
    } else {
      var t' := t[..|t| - 1];
      assert s[..|s| - 1] == h + [c] + t';
      assert s[|s| - 1] == t[|t| - 1];
      SplitLastJoin(h, c, t');
      assert t' + [t[|t| - 1]] == t;
    }
  }

  /** The decimal value of one dotted field, if it is a canonical numeral below 256. */
  function ParseOctet(s: string): Option<nat> {
    if IsCanonical(s) && ParseDecimal(s) < 256 then Some(ParseDecimal(s)) else None
  }

  /** Dotted-decimal text of four octets, as Go's `net.IP.String` writes a
      4-byte IP: each octet in decimal, separated by '.'. */
  function Dotted(ip: seq<nat>): string
    requires |ip| == 4
  {
    Itoa(ip[0]) + "." + Itoa(ip[1]) + "." + Itoa(ip[2]) + "." + Itoa(ip[3])
  }

  /** Reads four canonical decimal fields below 256 separated by '.'. */
  function ParseDotted(s: string): (r: Option<seq<nat>>)
    ensures r.Some? ==> |r.value| == 4 && forall i :: 0 <= i < 4 ==> r.value[i] < 256
  {
    match SplitLast(s, '.')
    case None => None
    case Some((r3, f3)) =>
      match SplitLast(r3, '.')
      case None => None
      case Some((r2, f2)) =>
        match SplitLast(r2, '.')
        case None => None
        case Some((f0, f1)) =>
          match (ParseOctet(f0), ParseOctet(f1), ParseOctet(f2), ParseOctet(f3))
          case (Some(a), Some(b), Some(c), Some(d)) => Some([a, b, c, d])
          case _ => None
  }

  lemma NonDigitNotIn(s: string, c: char)
    requires AllDigits(s) && !IsDigit(c)
    ensures c !in s
  {
  }

  lemma ParseOctetItoa(n: nat)
    requires n < 256
    ensures ParseOctet(Itoa(n)) == Some(n)
  {
    ParseItoa(n);
  }

  /** Reading back a dotted-decimal rendering of four octets gives the octets. */
  lemma DottedRoundTrip(ip: seq<nat>)
    requires |ip| == 4 && forall i :: 0 <= i < 4 ==> ip[i] < 256
    ensures ParseDotted(Dotted(ip)) == Some(ip)
  {
    var a, b, c, d := Itoa(ip[0]), Itoa(ip[1]), Itoa(ip[2]), Itoa(ip[3]);
    NonDigitNotIn(b, '.');
    NonDigitNotIn(c, '.');
    NonDigitNotIn(d, '.');
    var r2 := a + "." + b;
    var r3 := r2 + "." + c;
    assert Dotted(ip) == r3 + ['.'] + d;
    SplitLastJoin(r3, '.', d);
    assert r3 == r2 + ['.'] + c;
    SplitLastJoin(r2, '.', c);
    assert r2 == a + ['.'] + b;
    SplitLastJoin(a, '.', b);
    ParseOctetItoa(ip[0]);
    ParseOctetItoa(ip[1]);
    ParseOctetItoa(ip[2]);
    ParseOctetItoa(ip[3]);
    assert [ip[0], ip[1], ip[2], ip[3]] == ip;
  }
}
