/** Text formatting used for highlight records and clip file names:
    Python's str(int), str(datetime.timedelta(seconds=s)) and str.replace on
    single characters, written out on strings. */
module Text {

  predicate IsDigit(c: char) {
    '0' <= c <= '9'
  }

  predicate AllDigits(s: string) {
    forall k :: 0 <= k < |s| ==> IsDigit(s[k])
  }

  function DigitChar(d: nat): (c: char)
    requires d < 10
    ensures IsDigit(c)
  {
    ('0' as int + d) as char
  }

  function DigitValue(c: char): (d: nat)
    requires IsDigit(c)
    ensures d < 10
  {
    c as int - '0' as int
  }

  /** Decimal representation of a natural number, as str(n). */
  function Digits(n: nat): (s: string)
    ensures |s| >= 1 && AllDigits(s)
    ensures |s| > 1 ==> s[0] != '0'
  {
    if n < 10 then [DigitChar(n)] else Digits(n / 10) + [DigitChar(n % 10)]
  }

  /** The value of a string of decimal digits (int(s) on such strings). */
  function ParseDigits(s: string): nat
    requires AllDigits(s)
  {
    if s == [] then 0 else ParseDigits(s[..|s| - 1]) * 10 + DigitValue(s[|s| - 1])
  }

  lemma {:induction false} DigitsRoundTrip(n: nat)
    ensures ParseDigits(Digits(n)) == n
  {
    if n >= 10 {
      var s := Digits(n);
      assert s[..|s| - 1] == Digits(n / 10);
      DigitsRoundTrip(n / 10);
    }
  }

  /** Two digits with a leading zero, as "%02d" for 0 <= n < 100. */
  function Pad2(n: nat): (s: string)
    requires n < 100
    ensures |s| == 2 && AllDigits(s)
  {
    if n < 10 then ['0', DigitChar(n)] else assert |Digits(n / 10)| == 1; Digits(n)
  }

  lemma Pad2RoundTrip(n: nat)
    requires n < 100
    ensures ParseDigits(Pad2(n)) == n
  {
    DigitsRoundTrip(n);
    if n < 10 {
      assert Pad2(n)[..1] == "0";
    }
  }

  const SecondsPerDay: nat := 86400

  /** "H:MM:SS", the clock part of str(timedelta). */
  function Clock(s: nat): (t: string)
    requires s < SecondsPerDay
    ensures |t| >= 7
  {
    Digits(s / 3600) + ":" + Pad2(s % 3600 / 60) + ":" + Pad2(s % 60)
  }

  /** str(datetime.timedelta(seconds=s)) for a whole, non-negative s:
      "H:MM:SS", preceded by "D day, " or "D days, " once s reaches a day. */
  function Timedelta(s: nat): (t: string)
  {
    var days := s / SecondsPerDay;
    var clock := Clock(s % SecondsPerDay);
    if days == 0 then clock
    else Digits(days) + " day" + (if days != 1 then "s" else "") + ", " + clock
  }

  /** Reads "H:MM:SS" back as a number of seconds. */
  function ParseClock(t: string): nat
    requires |t| >= 7 && AllDigits(t[..|t| - 6])
    requires AllDigits(t[|t| - 5..|t| - 3]) && AllDigits(t[|t| - 2..])
  {
    ParseDigits(t[..|t| - 6]) * 3600 + ParseDigits(t[|t| - 5..|t| - 3]) * 60 + ParseDigits(t[|t| - 2..])
  }

  /** The three fields of "H:MM:SS", taken back apart by position. */
  lemma ClockFields(h: string, m: string, x: string)
    requires |h| >= 1 && |m| == 2 && |x| == 2
    ensures var t := h + ":" + m + ":" + x;
            t[..|t| - 6] == h && t[|t| - 5..|t| - 3] == m && t[|t| - 2..] == x
  {
  }

  lemma ClockArithmetic(s: nat)
    requires s < SecondsPerDay
    ensures s / SecondsPerDay == 0 && s % SecondsPerDay == s
    ensures s % 3600 / 60 < 60 && s % 60 < 60
    ensures s == s / 3600 * 3600 + s % 3600 / 60 * 60 + s % 60
  {
  }

  /** Within a day, the time string denotes exactly the second it was made from. */
  lemma ClockRoundTrip(s: nat)
    requires s < SecondsPerDay
    ensures var t := Timedelta(s);
            |t| >= 7 && AllDigits(t[..|t| - 6]) && AllDigits(t[|t| - 5..|t| - 3]) && AllDigits(t[|t| - 2..])
            && ParseClock(t) == s
  {
    ClockArithmetic(s);
    var h, m, x := s / 3600, s % 3600 / 60, s % 60;
    assert Timedelta(s) == Digits(h) + ":" + Pad2(m) + ":" + Pad2(x);
    ClockFields(Digits(h), Pad2(m), Pad2(x));
    DigitsRoundTrip(h);
    Pad2RoundTrip(m);
    Pad2RoundTrip(x);
  }

  /** str.replace(from, to) for single characters. */
  function ReplaceChar(s: string, from: char, to: char): (r: string)
    ensures |r| == |s|
    ensures forall k :: 0 <= k < |s| ==> r[k] == if s[k] == from then to else s[k]
  {
    if s == [] then [] else [if s[0] == from then to else s[0]] + ReplaceChar(s[1..], from, to)
  }

  /** The longest prefix made of decimal digits. */
  function LeadingDigits(s: string): (p: string)
    ensures AllDigits(p) && |p| <= |s| && p == s[..|p|]
  {
    if s != [] && IsDigit(s[0]) then [s[0]] + LeadingDigits(s[1..]) else []
  }

  lemma {:induction false} LeadingDigitsOf(d: string, rest: string)
    requires AllDigits(d)
    requires rest != [] && !IsDigit(rest[0])
    ensures LeadingDigits(d + rest) == d
  {
    if d != [] {
      assert (d + rest)[1..] == d[1..] + rest;
      LeadingDigitsOf(d[1..], rest);
    } else {
      assert d + rest == rest;
    }
  }
}
