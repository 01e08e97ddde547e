/**
 * Go's `fmt.Sprintf` called with a format and no operands, which is how the
 * runner's print helpers treat every report line. Text outside directives is
 * copied. A directive is a `%`, then flags, an optional argument index
 * `[n]`, a width (`*` or digits), a precision (`.` followed by an optional
 * index and `*` or digits) and one verb; with no operand to format it prints
 * `%` for the verb `%` and an error marker for any other verb.
 */
module Fmt {
  import opened Text

  const NoVerb: string := "%!(NOVERB)"
  const BadWidth: string := "%!(BADWIDTH)"
  const BadPrec: string := "%!(BADPREC)"

  /** The marker for verb `c` when no operand is left for it. */
  function MissingArg(c: char): string {
    "%!" + [c] + "(MISSING)"
  }

  /** The marker for verb `c` after an argument index that names no operand. */
  function BadArgNum(c: char): string {
    "%!" + [c] + "(BADINDEX)"
  }

  predicate IsFlag(c: char) {
    c == '#' || c == '0' || c == '+' || c == '-' || c == ' '
  }

  /** `s` after its leading flags. */
  function SkipFlags(s: string): (r: string)
    ensures |r| <= |s|
    ensures r == [] || !IsFlag(r[0])
  {
    if s != [] && IsFlag(s[0]) then SkipFlags(s[1..]) else s
  }

  /** fmt gives up on a number once the value read so far is strictly above this, before the next digit. */
  const NumLimit: nat := 1_000_000

  /** What reading a number leaves: whether one was read, and the text after it. */
  datatype Scan = Scan(isNum: bool, rest: string)

  /**
   * Leading digits of `s`, continuing a number whose value so far is `num`.
   * A number that grows past the limit swallows all of `s` and counts as
   * no number.
   */
  function ScanNum(s: string, num: nat, isNum: bool): (r: Scan)
    ensures |r.rest| <= |s|
    ensures r.rest == [] || r.rest == s || !IsDigit(r.rest[0])
  {
    if s == [] || !IsDigit(s[0]) then Scan(isNum, s)
    else if num > NumLimit then Scan(false, [])
    else ScanNum(s[1..], num * 10 + DigitValue(s[0]), true)
  }

  /** Position of the first `c` in `s`, or |s| when there is none. */
  function Find(s: string, c: char): (j: nat)
    ensures j <= |s|
    ensures j < |s| ==> s[j] == c
    ensures forall i :: 0 <= i < j ==> s[i] != c
  {
    if s == [] || s[0] == c then 0 else 1 + Find(s[1..], c)
  }

  /**
   * An argument index at the front of `s`: the text after it, whether it
   * was well formed, and whether one was attempted at all.
   */
  datatype ArgIndex = ArgIndex(rest: string, found: bool, seen: bool)

  function ArgNumber(s: string): (x: ArgIndex)
    ensures |x.rest| <= |s|
    ensures x.seen <==> s != [] && s[0] == '['
    ensures !x.seen ==> x.rest == s && !x.found
  {
    if s == [] || s[0] != '[' then ArgIndex(s, false, false)
    else if |s| < 3 then ArgIndex(s[1..], false, true)
    else
      var j := 1 + Find(s[1..], ']');
      if j == |s| then ArgIndex(s[1..], false, true)
      else
        var n := ScanNum(s[1..j], 0, false);
        ArgIndex(s[j + 1..], n.isNum && n.rest == [], true)
  }

  /**
   * A directive part-way through: what it has printed, the text still to
   * read, whether an argument index was seen, and whether the last thing
   * read was a well-formed index.
   */
  datatype Step = Step(out: string, rest: string, indexed: bool, afterIndex: bool)

  /** The width: `*` wants an operand and there is none; digits are read and dropped. */
  function Width(x: Step): (y: Step)
    ensures |y.rest| <= |x.rest|
  {
    if x.rest != [] && x.rest[0] == '*' then Step(x.out + BadWidth, x.rest[1..], x.indexed, false)
    else x.(rest := ScanNum(x.rest, 0, false).rest)
  }

  /** The precision: a dot that is not the last character, an optional index, then `*` or digits. */
  function Precision(x: Step): (y: Step)
    ensures |y.rest| <= |x.rest|
  {
    if |x.rest| >= 2 && x.rest[0] == '.' then
      var a := ArgNumber(x.rest[1..]);
      if a.rest != [] && a.rest[0] == '*' then Step(x.out + BadPrec, a.rest[1..], x.indexed || a.seen, false)
      else Step(x.out, ScanNum(a.rest, 0, false).rest, x.indexed || a.seen, a.found)
    else x
  }

  /** What one directive prints, and the text after it. */
  datatype Piece = Piece(out: string, rest: string)

  /** The directive whose `%` has just been read; `s` is the text after the `%`. */
  function Directive(s: string): (p: Piece)
    ensures |p.rest| <= |s|
  {
    var a := ArgNumber(SkipFlags(s));
    var x := Precision(Width(Step("", a.rest, a.seen, a.found)));
    var y := if x.afterIndex then x
             else var b := ArgNumber(x.rest); Step(x.out, b.rest, x.indexed || b.seen, b.found);
    if y.rest == [] then Piece(y.out + NoVerb, [])
    else
      var verb := y.rest[0];
      var marker := if verb == '%' then "%" else if y.indexed then BadArgNum(verb) else MissingArg(verb);
      Piece(y.out + marker, y.rest[1..])
  }

  /** `fmt.Sprintf(f)` with no operands. */
  function Sprintf(f: string): string
    decreases |f|, 0
  {
    if f == [] then []
    else if f[0] != '%' then [f[0]] + Sprintf(f[1..])
    else DirectiveThen(f[1..])
  }

  /** A directive, whose `%` has just been read, and everything after it. */
  function DirectiveThen(s: string): string
    decreases |s|, 1
  {
    var p := Directive(s);
    p.out + Sprintf(p.rest)
  }

  /** Text free of `%` in front of a format passes through, and the rest is formatted on its own. */
  lemma {:induction false} SprintfOfPlainPrefix(a: string, b: string)
    requires '%' !in a
    ensures Sprintf(a + b) == a + Sprintf(b)
    decreases |a|
  {
    if a == [] {
      assert a + b == b;
    } else {
      assert a + b == [a[0]] + (a[1..] + b);
      SprintfOfPlainPrefix(a[1..], b);
      SprintfOfPlainChar(a[0], a[1..] + b);
    }
  }

  /** A format without `%` is printed unchanged. */
  lemma SprintfOfPlain(f: string)
    requires '%' !in f
    ensures Sprintf(f) == f
  {
    SprintfOfPlainPrefix(f, []);
    assert f + [] == f;
  }

  lemma SprintfOfPlainChar(c: char, b: string)
    requires c != '%'
    ensures Sprintf([c] + b) == [c] + Sprintf(b)
  {
    assert ([c] + b)[1..] == b;
  }

  /** A directive that is only a verb: no flag, index, width or precision before it. */
  lemma BareVerb(c: char, b: string)
    requires !IsFlag(c) && c != '[' && c != '*' && c != '.' && !IsDigit(c)
    ensures DirectiveThen([c] + b) == (if c == '%' then "%" else MissingArg(c)) + Sprintf(b)
  {
    var s := [c] + b;
    assert s[0] == c && s[1..] == b;
    assert SkipFlags(s) == s;
    assert ArgNumber(s) == ArgIndex(s, false, false);
    assert ScanNum(s, 0, false) == Scan(false, s);
    var x := Step("", s, false, false);
    assert Width(x) == x;
    assert Precision(x) == x;
    assert Directive(s) == Piece(if c == '%' then "%" else MissingArg(c), b);
  }

  /** `%%` prints one `%` and consumes no operand. */
  lemma PercentPercent(b: string)
    ensures Sprintf(['%', '%'] + b) == "%" + Sprintf(b)
  {
    var f := ['%', '%'] + b;
    assert f[0] == '%' && f[1..] == ['%'] + b;
    BareVerb('%', b);
  }

  /**
   * A `%` followed directly by a verb that starts no flag, index, width or
   * precision prints the missing-operand marker for that verb.
   */
  lemma PlainVerbIsMissing(c: char, b: string)
    requires c != '%' && !IsFlag(c) && c != '[' && c != '*' && c != '.' && !IsDigit(c)
    ensures Sprintf(['%', c] + b) == MissingArg(c) + Sprintf(b)
  {
    var f := ['%', c] + b;
    assert f[0] == '%' && f[1..] == [c] + b;
    BareVerb(c, b);
  }

  /** A format that ends in `%` prints the no-verb marker for it. */
  lemma TrailingPercent(a: string)
    requires '%' !in a
    ensures Sprintf(a + "%") == a + NoVerb
  {
    SprintfOfPlainPrefix(a, "%");
    assert "%"[1..] == [];
    assert Directive([]) == Piece(NoVerb, []);
    assert DirectiveThen([]) == NoVerb;
  }

  /** What `%s` prints for a nil operand, such as a nil `error`. */
  const NilString: string := "%!s(<nil>)"

  /** `%s` of a nil operand, used in turn as a format, gains a second marker: `%!!(MISSING)s(<nil>)`. */
  lemma NilStringReformatted(b: string)
    requires '%' !in b
    ensures Sprintf(NilString + b) == MissingArg('!') + (NilString[2..] + b)
  {
    var t := NilString[2..] + b;
    assert '%' !in t by {
      assert '%' !in NilString[2..];
    }
    assert NilString + b == ['%', '!'] + t by {
      assert NilString == ['%', '!'] + NilString[2..];
    }
    PlainVerbIsMissing('!', t);
    SprintfOfPlain(t);
  }

  function Pow10(n: nat): (p: nat)
    ensures p >= 1
  {
    if n == 0 then 1 else 10 * Pow10(n - 1)
  }

  /** A run of at most six digits never trips the overflow guard and is read whole. */
  lemma {:induction false} ScanNumOfShortDigits(w: string, t: string, num: nat, isNum: bool)
    requires AllDigits(w) && |w| <= 6 && num < Pow10(6 - |w|)
    requires t == [] || !IsDigit(t[0])
    ensures ScanNum(w + t, num, isNum) == Scan(isNum || w != [], t)
    decreases |w|
  {
    if w == [] {
      assert w + t == t;
    } else {
      assert Pow10(6 - |w|) <= NumLimit by {
        Pow10Monotone(6 - |w|, 6);
      }
      assert (w + t)[0] == w[0] && (w + t)[1..] == w[1..] + t;
      assert Pow10(6 - |w[1..]|) == 10 * Pow10(6 - |w|);
      ScanNumOfShortDigits(w[1..], t, num * 10 + DigitValue(w[0]), true);
    }
  }

  lemma {:induction false} Pow10Monotone(m: nat, n: nat)
    requires m <= n
    ensures Pow10(m) <= Pow10(n)
    decreases n
  {
    if m < n {
      Pow10Monotone(m, n - 1);
    }
  }

  /**
   * A URL escape such as `%20` followed by a letter reads as a width and a
   * verb: the three characters become one missing-operand marker.
   */
  lemma WidthIsDropped(w: string, c: char, b: string)
    requires 1 <= |w| <= 6 && AllDigits(w) && !IsFlag(w[0])
    requires c != '%' && c != '.' && c != '[' && !IsDigit(c)
    ensures Sprintf(['%'] + w + [c] + b) == MissingArg(c) + Sprintf(b)
  {
    var s := w + ([c] + b);
    var f := ['%'] + w + [c] + b;
    assert f[0] == '%' && f[1..] == s;
    assert s[0] == w[0];
    ScanNumOfShortDigits(w, [c] + b, 0, false);
    assert Directive(s) == Piece(MissingArg(c), b);
  }

  /** A `*` width has no operand to take its value from. */
  lemma StarWidthIsBad(c: char, b: string)
    requires c != '%' && c != '.' && c != '[' && !IsDigit(c)
    ensures Sprintf(['%', '*', c] + b) == BadWidth + MissingArg(c) + Sprintf(b)
  {
    var f := ['%', '*', c] + b;
    assert f[1..] == ['*', c] + b;
    assert (['*', c] + b)[1..] == [c] + b;
    assert Directive(['*', c] + b) == Piece(BadWidth + MissingArg(c), b);
  }

  /** With no operands, even a well-formed argument index names none. */
  lemma IndexNamesNoOperand(d: char, c: char, b: string)
    requires IsDigit(d)
    requires c != '%' && c != '.' && c != '*' && !IsDigit(c)
    ensures Sprintf(['%', '[', d, ']', c] + b) == BadArgNum(c) + Sprintf(b)
  {
    var f := ['%', '[', d, ']', c] + b;
    var s := f[1..];
    assert s == ['[', d, ']', c] + b;
    assert s[1..][..1] == [d] && s[1..][1] == ']';
    assert Find(s[1..], ']') == 1;
    assert ScanNum([d], 0, false) == Scan(true, []);
    assert s[3..] == [c] + b;
    assert ArgNumber(s) == ArgIndex([c] + b, true, true);
    assert Directive(s) == Piece(BadArgNum(c), b);
  }

  /**
   * The guard tests the value read so far before each further digit, and
   * only a value strictly above the limit trips it: a width whose first seven
   * digits read exactly 1000000 takes an eighth digit.
   */
  lemma WidthAtGuard(c: char, b: string)
    requires c != '%' && c != '.' && c != '[' && !IsDigit(c)
    ensures Sprintf(['%', '1', '0', '0', '0', '0', '0', '0', '0', c] + b) == MissingArg(c) + Sprintf(b)
  {
    var f := ['%', '1', '0', '0', '0', '0', '0', '0', '0', c] + b;
    var s := f[1..];
    var t := [c] + b;
    assert s[8..] == t;
    assert ScanNum(s[8..], 10_000_000, true) == Scan(true, t);
    assert ScanNum(s[7..], 1_000_000, true) == Scan(true, t);
    assert ScanNum(s[6..], 100_000, true) == Scan(true, t);
    assert ScanNum(s[5..], 10_000, true) == Scan(true, t);
    assert ScanNum(s[4..], 1_000, true) == Scan(true, t);
    assert ScanNum(s[3..], 100, true) == Scan(true, t);
    assert ScanNum(s[2..], 10, true) == Scan(true, t);
    assert ScanNum(s[1..], 1, true) == Scan(true, t);
    assert ScanNum(s, 0, false) == Scan(true, t);
    assert SkipFlags(s) == s;
    assert Directive(s) == Piece(MissingArg(c), b);
  }

  /**
   * Once the value read so far is above the limit, the next digit makes the
   * width swallow the rest of the format, which then has no verb.
   */
  lemma WidthPastGuard(c: char, b: string)
    ensures Sprintf(['%', '1', '0', '0', '0', '0', '0', '1', '0', c] + b) == NoVerb
  {
    var f := ['%', '1', '0', '0', '0', '0', '0', '1', '0', c] + b;
    var s := f[1..];
    assert ScanNum(s[7..], 1_000_001, true) == Scan(false, []);
    assert ScanNum(s[6..], 100_000, true) == Scan(false, []);
    assert ScanNum(s[5..], 10_000, true) == Scan(false, []);
    assert ScanNum(s[4..], 1_000, true) == Scan(false, []);
    assert ScanNum(s[3..], 100, true) == Scan(false, []);
    assert ScanNum(s[2..], 10, true) == Scan(false, []);
    assert ScanNum(s[1..], 1, true) == Scan(false, []);
    assert ScanNum(s, 0, false) == Scan(false, []);
    assert SkipFlags(s) == s;
    assert Directive(s) == Piece(NoVerb, []);
    assert Sprintf([]) == [];
    assert DirectiveThen(s) == NoVerb;
  }
}
