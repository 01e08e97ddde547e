/**
 * Text helpers the Go code gets from `fmt` and `strings`: decimal rendering of
 * integers (`%d`), two-decimal rendering of a duration held in centiseconds
 * (`%.2f` of its seconds), the matching parsers that read them back, and
 * ASCII upper-casing (`strings.ToUpper` restricted to ASCII).
 */
module Text {
  import opened Wrappers

  predicate IsDigit(c: char) {
    '0' <= c <= '9'
  }

  predicate AllDigits(s: string) {
    forall i :: 0 <= i < |s| ==> IsDigit(s[i])
  }

  function DigitValue(c: char): (d: nat)
    requires IsDigit(c)
    ensures d < 10
  {
    c as int - '0' as int
  }

  function DigitChar(d: nat): (c: char)
    requires d < 10
    ensures IsDigit(c) && DigitValue(c) == d
  {
    ('0' as int + d) as char
  }

  /** Decimal rendering of a natural number, without leading zeros (Go's `%d`). */
  function NatToString(n: nat): (s: string)
    ensures |s| >= 1 && AllDigits(s)
    ensures |s| > 1 ==> s[0] != '0'
    decreases n
  {
    if n < 10 then [DigitChar(n)] else NatToString(n / 10) + [DigitChar(n % 10)]
  }

  /** Value of a string of decimal digits; the empty string reads as 0. */
  function ParseNat(s: string): nat
    requires AllDigits(s)
  {
    if s == [] then 0 else ParseNat(s[..|s| - 1]) * 10 + DigitValue(s[|s| - 1])
  }

  lemma {:induction false} ParseNatOfNatToString(n: nat)
    ensures ParseNat(NatToString(n)) == n
    decreases n
  {
    if n >= 10 {
      var s := NatToString(n);
      assert s[..|s| - 1] == NatToString(n / 10);
      ParseNatOfNatToString(n / 10);
    }
  }

  /** `%d` of a Go `int`: a minus sign before the digits of a negative number. */
  function IntToString(i: int): (s: string)
    ensures |s| >= 1
    ensures i >= 0 ==> s == NatToString(i)
    ensures i < 0 ==> s[0] == '-' && s[1..] == NatToString(-i)
  {
    if i < 0 then "-" + NatToString(-i) else NatToString(i)
  }

  /** Reads back what IntToString wrote. */
  function ParseInt(s: string): Option<int> {
    if |s| >= 1 && s[0] == '-' && |s| >= 2 && AllDigits(s[1..]) then Some(0 - ParseNat(s[1..]) as int)
    else if |s| >= 1 && AllDigits(s) then Some(ParseNat(s))
    else None
  }

  lemma ParseIntOfIntToString(i: int)
    ensures ParseInt(IntToString(i)) == Some(i)
  {
    var s := IntToString(i);
    if i < 0 {
      ParseNatOfNatToString(-i);
      assert s[1..] == NatToString(-i);
      assert |s| >= 2 && s[0] == '-' && AllDigits(s[1..]);
      assert ParseInt(s) == Some(0 - ParseNat(s[1..]) as int);
    } else {
      ParseNatOfNatToString(i);
      assert IsDigit(s[0]);
      assert ParseInt(s) == Some(ParseNat(s));
    }
  }

  /** Exactly two digits, with a leading zero below ten. */
  function TwoDigits(c: nat): (s: string)
    requires c < 100
    ensures |s| == 2 && AllDigits(s)
    ensures ParseNat(s) == c
  {
    var s := [DigitChar(c / 10), DigitChar(c % 10)];
    assert s[..1] == [DigitChar(c / 10)];
    assert s[..1][..0] == [];
    assert ParseNat(s[..1]) == c / 10;
    s
  }

  /**
   * `%.2f` of a duration of `centis` hundredths of a second: whole seconds,
   * a dot, and exactly two digits of hundredths.
   */
  function FormatCentis(centis: nat): string {
    NatToString(centis / 100) + "." + TwoDigits(centis % 100)
  }

  /** Whole seconds, a dot, and two digits of hundredths. */
  lemma FormatCentisShape(centis: nat)
    ensures var s := FormatCentis(centis);
            && |s| >= 4 && s[|s| - 3] == '.'
            && s[..|s| - 3] == NatToString(centis / 100)
            && s[|s| - 2..] == TwoDigits(centis % 100)
            && AllDigits(s[..|s| - 3]) && AllDigits(s[|s| - 2..])
  {
    var s := FormatCentis(centis);
    assert s[..|s| - 3] == NatToString(centis / 100);
    assert s[|s| - 2..] == TwoDigits(centis % 100);
  }

  /** Reads a `<seconds>.<two digits>` rendering back as centiseconds. */
  function ParseCentis(s: string): Option<nat> {
    if |s| >= 4 && s[|s| - 3] == '.' && AllDigits(s[..|s| - 3]) && AllDigits(s[|s| - 2..])
    then Some(ParseNat(s[..|s| - 3]) * 100 + ParseNat(s[|s| - 2..]))
    else None
  }

  lemma ParseCentisOfFormatCentis(centis: nat)
    ensures ParseCentis(FormatCentis(centis)) == Some(centis)
  {
    FormatCentisShape(centis);
    ParseNatOfNatToString(centis / 100);
  }

  /** The rendering of a duration uses only digits and a dot. */
  lemma FormatCentisLacks(centis: nat, c: char)
    requires !IsDigit(c) && c != '.'
    ensures c !in FormatCentis(centis)
  {
    var s := FormatCentis(centis);
    FormatCentisShape(centis);
    forall i | 0 <= i < |s|
      ensures s[i] != c
    {
      if i < |s| - 3 {
        assert s[i] == s[..|s| - 3][i];
      } else if i > |s| - 3 {
        assert s[i] == s[|s| - 2..][i - (|s| - 2)];
      }
    }
  }

  predicate IsLower(c: char) {
    'a' <= c <= 'z'
  }

  function UpperChar(c: char): char {
    if IsLower(c) then (c as int - 32) as char else c
  }

  /** `strings.ToUpper`, on ASCII letters. */
  function ToUpper(s: string): (r: string)
    ensures |r| == |s|
    ensures forall i :: 0 <= i < |s| ==> !IsLower(r[i])
    ensures forall i :: 0 <= i < |s| && !IsLower(s[i]) ==> r[i] == s[i]
    ensures forall i :: 0 <= i < |s| && IsLower(s[i]) ==> r[i] as int == s[i] as int - 32
  {
    seq(|s|, i requires 0 <= i < |s| => UpperChar(s[i]))
  }

  /** Upper-casing twice is upper-casing once. */
  lemma ToUpperIdempotent(s: string)
    ensures ToUpper(ToUpper(s)) == ToUpper(s)
  {
  }

  predicate StartsWith(s: string, prefix: string) {
    |prefix| <= |s| && s[..|prefix|] == prefix
  }

  predicate EndsWith(s: string, suffix: string) {
    |suffix| <= |s| && s[|s| - |suffix|..] == suffix
  }

  /** Number of leading decimal digits of `s`. */
  function DigitRun(s: string): (n: nat)
    ensures n <= |s|
    ensures AllDigits(s[..n])
    ensures n < |s| ==> !IsDigit(s[n])
  {
    if s == [] || !IsDigit(s[0]) then 0
    else
      var n := 1 + DigitRun(s[1..]);
      assert s[..n] == [s[0]] + s[1..][..n - 1];
      n
  }

  lemma {:induction false} DigitRunOfDigitsThen(d: string, t: string)
    requires AllDigits(d)
    requires |t| > 0 && !IsDigit(t[0])
    ensures DigitRun(d + t) == |d|
    decreases |d|
  {
    if d != [] {
      assert (d + t)[0] == d[0] && IsDigit(d[0]);
      assert (d + t)[1..] == d[1..] + t;
      assert AllDigits(d[1..]);
      DigitRunOfDigitsThen(d[1..], t);
    } else {
      assert d + t == t;
    }
  }

  /** Position of the last occurrence of `c` in `s`. */
  function LastIndexOf(s: string, c: char): (r: Option<nat>)
    ensures r.Some? ==> r.value < |s| && s[r.value] == c
    ensures r.Some? ==> forall j :: r.value < j < |s| ==> s[j] != c
    ensures r.None? <==> c !in s
  {
    if s == [] then None
    else if s[|s| - 1] == c then Some(|s| - 1)
    else
      var r := LastIndexOf(s[..|s| - 1], c);
      assert forall j :: 0 <= j < |s| - 1 ==> s[j] == s[..|s| - 1][j];
      r
  }

  lemma {:induction false} LastIndexOfAfter(p: string, c: char, t: string)
    requires c !in t
    ensures LastIndexOf(p + [c] + t, c) == Some(|p|)
    decreases |t|
  {
    var s := p + [c] + t;
    if t == [] {
      assert s[|s| - 1] == c;
    } else {
      assert s[|s| - 1] == t[|t| - 1];
      assert s[..|s| - 1] == p + [c] + t[..|t| - 1];
      LastIndexOfAfter(p, c, t[..|t| - 1]);
    }
  }
}
