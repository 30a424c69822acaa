/**
  The two conversions between integers and text that the bot relies on:
  Python's `f"{n}"` for an `int` (used to build callback payloads) and
  Python's `int(s)` on a `str` (used to read them back).

  `int(s)` accepts: optional leading whitespace, an optional `+` or `-`,
  one or more decimal digits in which single underscores may separate two
  digits, optional trailing whitespace. Anything else raises `ValueError`,
  which is `None` here.

  The whitespace `int()` skips is not all of `str.isspace`. CPython first
  turns every non-ASCII whitespace character into a space and leaves ASCII
  characters as they are; it then skips only ASCII `\t \n \v \f \r` and
  space. The four ASCII separators U+001C to U+001F, for which
  `str.isspace` holds, are therefore not skipped, and `int()` rejects them.
*/
module PyInt {
  import opened Wrappers

  /** The whitespace `int()` skips around its argument. */
  predicate IsSpace(c: char) {
    || ('\t' <= c <= '\r')                 // \t \n \v \f \r
    || c == ' '
    // the non-ASCII characters for which `str.isspace` holds
    || c == '\U{85}' || c == '\U{A0}' || c == '\U{1680}'
    || ('\U{2000}' <= c <= '\U{200A}')
    || c == '\U{2028}' || c == '\U{2029}' || c == '\U{202F}'
    || c == '\U{205F}' || c == '\U{3000}'
  }

  predicate IsDigit(c: char) {
    '0' <= c <= '9'
  }

  function DigitValue(c: char): (d: nat)
    requires IsDigit(c)
    ensures d < 10
  {
    (c as int) - ('0' as int)
  }

  function DigitChar(d: nat): (c: char)
    requires d < 10
    ensures IsDigit(c) && DigitValue(c) == d
  {
    ('0' as int + d) as char
  }

  ghost predicate AllSpace(s: string) {
    forall i :: 0 <= i < |s| ==> IsSpace(s[i])
  }

  /** Drops leading whitespace. */
  function TrimLeft(s: string): string {
    if s != [] && IsSpace(s[0]) then TrimLeft(s[1..]) else s
  }

  /** Drops trailing whitespace. */
  function TrimRight(s: string): string {
    if s != [] && IsSpace(s[|s| - 1]) then TrimRight(s[..|s| - 1]) else s
  }

  /** What `TrimLeft` drops is all whitespace, and what it keeps does not start with any. */
  lemma {:induction false} TrimLeftSplits(s: string)
    ensures |TrimLeft(s)| <= |s| && TrimLeft(s) == s[|s| - |TrimLeft(s)|..]
    ensures AllSpace(s[..|s| - |TrimLeft(s)|])
    ensures TrimLeft(s) != [] ==> !IsSpace(TrimLeft(s)[0])
  {
    if s != [] && IsSpace(s[0]) {
      TrimLeftSplits(s[1..]);
      var k := |s| - |TrimLeft(s)|;
      assert s[..k] == [s[0]] + s[1..][..k - 1];
    }
  }

  /** What `TrimRight` drops is all whitespace, and what it keeps does not end with any. */
  lemma {:induction false} TrimRightSplits(s: string)
    ensures |TrimRight(s)| <= |s| && TrimRight(s) == s[..|TrimRight(s)|]
    ensures AllSpace(s[|TrimRight(s)|..])
    ensures TrimRight(s) != [] ==> !IsSpace(TrimRight(s)[|TrimRight(s)| - 1])
  {
    if s != [] && IsSpace(s[|s| - 1]) {
      var init := s[..|s| - 1];
      TrimRightSplits(init);
      var k := |TrimRight(s)|;
      assert s[k..] == init[k..] + [s[|s| - 1]];
    }
  }

  function Strip(s: string): string {
    TrimRight(TrimLeft(s))
  }

  /**
    A digit run as `int()` accepts it after the sign: non-empty, only digits
    and underscores, starts and ends with a digit, no two underscores in a row.
  */
  predicate Grouped(g: string) {
    && |g| > 0
    && IsDigit(g[0])
    && IsDigit(g[|g| - 1])
    && (forall i :: 0 <= i < |g| ==> IsDigit(g[i]) || g[i] == '_')
    && (forall i, j :: 0 <= i < |g| && 0 <= j < |g| && j == i + 1 ==> g[i] == '_' ==> g[j] != '_')
  }

  /** Decimal value of the digits of `g`, underscores skipped. */
  function Value(g: string): nat {
    if g == [] then 0
    else if IsDigit(g[|g| - 1]) then 10 * Value(g[..|g| - 1]) + DigitValue(g[|g| - 1])
    else Value(g[..|g| - 1])
  }

  ghost predicate IsSign(sign: string) {
    sign == "" || sign == "+" || sign == "-"
  }

  function Signed(sign: string, v: nat): int {
    if sign == "-" then -(v as int) else v
  }

  /** The body of `int()` after whitespace is stripped. */
  function ParseSigned(t: string): Option<int> {
    if |t| > 0 && t[0] == '-' then
      if Grouped(t[1..]) then Some(-(Value(t[1..]) as int)) else None
    else if |t| > 0 && t[0] == '+' then
      if Grouped(t[1..]) then Some(Value(t[1..])) else None
    else if Grouped(t) then Some(Value(t)) else None
  }

  /** Python's `int(s)` for a `str` argument and base 10; `None` stands for `ValueError`. */
  function ParseInt(s: string): Option<int> {
    ParseSigned(Strip(s))
  }

  /** Python's `f"{n}"` for a non-negative `int`: shortest decimal form, no leading zero. */
  function FormatNat(n: nat): (s: string)
    ensures |s| > 0
    ensures forall i :: 0 <= i < |s| ==> IsDigit(s[i])
    ensures s[0] == '0' ==> n == 0
  {
    if n < 10 then [DigitChar(n)]
    else
      var high := FormatNat(n / 10);
      assert (high + [DigitChar(n % 10)])[0] == high[0];
      high + [DigitChar(n % 10)]
  }

  /** Python's `f"{n}"` for an `int`: a `-` before the digits of a negative number. */
  function FormatInt(n: int): (s: string)
    ensures |s| > (if n < 0 then 1 else 0) && (s[0] == '-' <==> n < 0)
    ensures forall i :: (if n < 0 then 1 else 0) <= i < |s| ==> IsDigit(s[i])
    ensures s[if n < 0 then 1 else 0] == '0' ==> n == 0
  {
    if n < 0 then "-" + FormatNat(-n) else FormatNat(n)
  }

  lemma {:induction false} TrimLeftOfSpacePrefix(lead: string, y: string)
    requires AllSpace(lead)
    requires y != [] && !IsSpace(y[0])
    ensures TrimLeft(lead + y) == y
  {
    if lead == [] {
      assert lead + y == y;
    } else {
      assert (lead + y)[1..] == lead[1..] + y;
      TrimLeftOfSpacePrefix(lead[1..], y);
    }
  }

  lemma {:induction false} TrimRightOfSpaceSuffix(x: string, trail: string)
    requires AllSpace(trail)
    requires x != [] && !IsSpace(x[|x| - 1])
    ensures TrimRight(x + trail) == x
  {
    if trail == [] {
      assert x + trail == x;
    } else {
      var s := x + trail;
      assert s[..|s| - 1] == x + trail[..|trail| - 1];
      TrimRightOfSpaceSuffix(x, trail[..|trail| - 1]);
    }
  }

  lemma SignedDigitsEdges(sign: string, g: string)
    requires IsSign(sign) && Grouped(g)
    ensures sign + g != [] && !IsSpace((sign + g)[0]) && !IsSpace((sign + g)[|sign + g| - 1])
  {
    var x := sign + g;
    assert x[|x| - 1] == g[|g| - 1];
    if sign == "" { assert x[0] == g[0]; }
  }

  lemma StripSurroundingSpace(lead: string, x: string, trail: string)
    requires AllSpace(lead) && AllSpace(trail)
    requires x != [] && !IsSpace(x[0]) && !IsSpace(x[|x| - 1])
    ensures Strip(lead + x + trail) == x
  {
    assert lead + x + trail == lead + (x + trail);
    TrimLeftOfSpacePrefix(lead, x + trail);
    TrimRightOfSpaceSuffix(x, trail);
  }

  lemma ParseSignedDigits(sign: string, g: string)
    requires IsSign(sign) && Grouped(g)
    ensures ParseSigned(sign + g) == Some(Signed(sign, Value(g)))
  {
    var x := sign + g;
    if sign == "" {
      assert x == g;
    } else {
      assert x[1..] == g;
    }
  }

  /** Every shape `int()` accepts is accepted, with the value it denotes. */
  lemma ParseIntAccepts(lead: string, sign: string, g: string, trail: string)
    requires AllSpace(lead) && AllSpace(trail)
    requires IsSign(sign) && Grouped(g)
    ensures ParseInt(lead + sign + g + trail) == Some(Signed(sign, Value(g)))
  {
    SignedDigitsEdges(sign, g);
    StripSurroundingSpace(lead, sign + g, trail);
    assert lead + sign + g + trail == lead + (sign + g) + trail;
    ParseSignedDigits(sign, g);
  }

  /** What `Strip` removes is whitespace on either side. */
  lemma StripSplits(s: string) returns (lead: string, trail: string)
    ensures s == lead + Strip(s) + trail
    ensures AllSpace(lead) && AllSpace(trail)
  {
    var t1 := TrimLeft(s);
    TrimLeftSplits(s);
    lead := s[..|s| - |t1|];
    assert s == lead + t1;
    var t := TrimRight(t1);
    TrimRightSplits(t1);
    trail := t1[|t|..];
    assert t1 == t + trail;
  }

  lemma ParseSignedSplits(t: string) returns (sign: string, g: string)
    requires ParseSigned(t).Some?
    ensures t == sign + g && IsSign(sign) && Grouped(g)
    ensures ParseSigned(t) == Some(Signed(sign, Value(g)))
  {
    if |t| > 0 && t[0] == '-' {
      sign, g := "-", t[1..];
    } else if |t| > 0 && t[0] == '+' {
      sign, g := "+", t[1..];
    } else {
      sign, g := "", t;
    }
    assert t == sign + g;
  }

  /** Only those shapes are accepted: an accepted string splits into whitespace, sign, digit run, whitespace. */
  lemma ParseIntSound(s: string) returns (lead: string, sign: string, g: string, trail: string)
    requires ParseInt(s).Some?
    ensures s == lead + sign + g + trail
    ensures AllSpace(lead) && AllSpace(trail)
    ensures IsSign(sign) && Grouped(g)
  {
    lead, trail := StripSplits(s);
    sign, g := ParseSignedSplits(Strip(s));
  }

  /** A sign and a digit run with no whitespace around them. */
  lemma ParseIntUnpadded(sign: string, g: string)
    requires IsSign(sign) && Grouped(g)
    ensures ParseInt(sign + g) == Some(Signed(sign, Value(g)))
  {
    SignedDigitsEdges(sign, g);
    assert Strip(sign + g) == sign + g;
    ParseSignedDigits(sign, g);
  }

  lemma {:induction false} ValueOfFormatNat(n: nat)
    ensures Grouped(FormatNat(n)) && Value(FormatNat(n)) == n
  {
    var s := FormatNat(n);
    if n >= 10 {
      ValueOfFormatNat(n / 10);
      assert s[..|s| - 1] == FormatNat(n / 10);
    }
  }

  /** Reading back what `f"{n}"` prints gives `n`. */
  lemma ParseFormatRoundTrip(n: int)
    ensures ParseInt(FormatInt(n)) == Some(n)
  {
    var sign := if n < 0 then "-" else "";
    var g := FormatNat(if n < 0 then -n else n);
    ValueOfFormatNat(if n < 0 then -n else n);
    ParseIntUnpadded(sign, g);
    assert sign + g == FormatInt(n);
  }

  lemma StripUnpadded(x: string)
    requires x != [] && !IsSpace(x[0]) && !IsSpace(x[|x| - 1])
    ensures Strip(x) == x
  {
    assert TrimLeft(x) == x;
  }

  /**
    Examples of inputs that `int()` refuses: nothing, a lone sign, a space
    after the sign, misplaced underscores, an inner space, and a leading
    file separator (U+001C, which `int()` does not skip).
  */
  lemma ParseIntRejects(s: string)
    requires || s == "" || s == "-" || s == "+" || s == "- 1" || s == "+ 1"
             || s == "_1" || s == "1_" || s == "1__0" || s == "4 2" || s == "\U{1C}1"
    ensures ParseInt(s) == None
  {
    if s != "" {
      StripUnpadded(s);
    }
    if s == "4 2" {
      assert !IsDigit(s[1]) && s[1] != '_';
    } else if s == "1__0" {
      assert s[1] == '_' && s[2] == '_';
    } else if s == "- 1" || s == "+ 1" {
      assert !IsDigit(s[1..][0]);
    }
  }

  lemma UnderscoreExampleValue()
    ensures Grouped("1_000") && Value("1_000") == 1000
  {
    var g := "1_000";
    assert g[..4] == "1_00" && "1_00"[..3] == "1_0" && "1_0"[..2] == "1_" && "1_"[..1] == "1" && "1"[..0] == "";
  }

  /** `int()` lets single underscores separate digits. */
  lemma ParseIntUnderscoreExample()
    ensures ParseInt("1_000") == Some(1000)
  {
    UnderscoreExampleValue();
    ParseIntUnpadded("", "1_000");
    assert "" + "1_000" == "1_000";
  }

  lemma PaddedExampleValue()
    ensures Grouped("007") && Value("007") == 7
  {
    var h := "007";
    assert h[..2] == "00" && "00"[..1] == "0" && "0"[..0] == "";
  }

  /** `int()` takes surrounding whitespace, a `+` sign and leading zeros. */
  lemma ParseIntPaddedExample()
    ensures ParseInt(" +007\n") == Some(7)
  {
    PaddedExampleValue();
    assert AllSpace(" ") && AllSpace("\n");
    ParseIntAccepts(" ", "+", "007", "\n");
    assert " " + "+" + "007" + "\n" == " +007\n";
  }
}
