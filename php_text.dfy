/** The few PHP string behaviours the model depends on: `trim()`, the
    decimal rendering of an integer in string interpolation, and PHP
    truthiness of a nullable string. */
module PhpText {
  import opened Wrappers

  /** The characters PHP's `trim()` strips by default:
      space, tab, line feed, carriage return, NUL and vertical tab. */
  predicate IsTrimChar(c: char) {
    c == ' ' || c == '\t' || c == '\n' || c == '\r' || c == '\0' || c == '\U{B}'
  }

  predicate AllTrimChars(s: string) {
    forall k :: 0 <= k < |s| ==> IsTrimChar(s[k])
  }

  /** The length of the run of trim characters that starts `s`. */
  function LeadingTrimCount(s: string): (n: nat)
    ensures n <= |s|
    ensures AllTrimChars(s[..n])
    ensures n < |s| ==> !IsTrimChar(s[n])
  {
    if |s| > 0 && IsTrimChar(s[0]) then
      var m := LeadingTrimCount(s[1..]);
      assert s[1..][..m] == s[1..m + 1];
      1 + m
    else 0
  }

  /** The length of the run of trim characters that ends `s`. */
  function TrailingTrimCount(s: string): (n: nat)
    ensures n <= |s|
    ensures AllTrimChars(s[|s| - n..])
    ensures n < |s| ==> !IsTrimChar(s[|s| - n - 1])
  {
    if |s| > 0 && IsTrimChar(s[|s| - 1]) then
      var m := TrailingTrimCount(s[..|s| - 1]);
      assert s[..|s| - 1][|s| - 1 - m..] == s[|s| - 1 - m..|s| - 1];
      1 + m
    else 0
  }

  /** `r` stands at offset `i` of `s` with only trim characters around it. */
  predicate PaddedAt(s: string, r: string, i: nat) {
    i <= |s| - |r| && s[i..i + |r|] == r
    && AllTrimChars(s[..i]) && AllTrimChars(s[i + |r|..])
  }

  /** PHP's `trim($s)`: `s` with its leading and trailing trim characters
      removed. The result is the unique middle part of `s` that neither
      starts nor ends with a trim character and is surrounded by trim
      characters only. */
  function Trim(s: string): (r: string)
    ensures |r| <= |s|
    ensures r != [] ==> !IsTrimChar(r[0]) && !IsTrimChar(r[|r| - 1])
    ensures exists i: nat :: PaddedAt(s, r, i)
  {
    var i := LeadingTrimCount(s);
    var j := TrailingTrimCount(s[i..]);
    TrimCore(s, i, j);
    s[i..|s| - j]
  }

  /** The facts `Trim` rests on, for the two run lengths it computes. */
  lemma TrimCore(s: string, i: nat, j: nat)
    requires i == LeadingTrimCount(s) && j == TrailingTrimCount(s[i..])
    ensures i <= |s| - j
    ensures var r := s[i..|s| - j];
      && (r != [] ==> !IsTrimChar(r[0]) && !IsTrimChar(r[|r| - 1]))
      && PaddedAt(s, r, i)
  {
    var rest := s[i..];
    var r := rest[..|rest| - j];
    assert r == s[i..|s| - j];
    assert s[i + |r|..] == rest[|rest| - j..];
    assert r != [] ==> r[0] == rest[0] && r[|r| - 1] == rest[|rest| - j - 1];
  }

  /** A string that neither starts nor ends with a trim character is its
      own trim. */
  lemma TrimUnchanged(s: string)
    requires s != [] ==> !IsTrimChar(s[0]) && !IsTrimChar(s[|s| - 1])
    ensures Trim(s) == s
  {
    assert LeadingTrimCount(s) == 0;
    assert s[0..] == s;
    assert TrailingTrimCount(s) == 0;
  }

  lemma {:induction false} LeadingOfPadded(pad: string, u: string)
    requires AllTrimChars(pad)
    requires u != [] ==> !IsTrimChar(u[0])
    ensures LeadingTrimCount(pad + u) == |pad|
  {
    if pad == [] {
      assert pad + u == u;
    } else {
      assert (pad + u)[1..] == pad[1..] + u;
      LeadingOfPadded(pad[1..], u);
    }
  }

  lemma {:induction false} TrailingOfPadded(u: string, pad: string)
    requires AllTrimChars(pad)
    requires u != [] ==> !IsTrimChar(u[|u| - 1])
    ensures TrailingTrimCount(u + pad) == |pad|
  {
    if pad == [] {
      assert u + pad == u;
    } else {
      assert (u + pad)[..|u + pad| - 1] == u + pad[..|pad| - 1];
      TrailingOfPadded(u, pad[..|pad| - 1]);
    }
  }

  /** Trimming removes exactly the padding around an untrimmable core,
      whatever trim characters stand on either side. */
  lemma TrimOfPadded(left: string, t: string, right: string)
    requires AllTrimChars(left) && AllTrimChars(right)
    requires t != [] ==> !IsTrimChar(t[0]) && !IsTrimChar(t[|t| - 1])
    ensures Trim(left + t + right) == t
  {
    var s := left + t + right;
    if t == [] {
      assert s == (left + right) + [];
      LeadingOfPadded(left + right, []);
    } else {
      assert s == left + (t + right);
      LeadingOfPadded(left, t + right);
      assert s[|left|..] == t + right;
      TrailingOfPadded(t, right);
      assert (t + right)[..|t|] == t;
    }
  }

  /** Trimming twice is trimming once. */
  lemma TrimIdempotent(s: string)
    ensures Trim(Trim(s)) == Trim(s)
  {
    TrimUnchanged(Trim(s));
  }

  /** The character for a decimal digit. */
  function DigitChar(d: nat): (c: char)
    requires d < 10
    ensures '0' <= c <= '9'
  {
    ['0', '1', '2', '3', '4', '5', '6', '7', '8', '9'][d]
  }

  /** The digit a decimal character stands for. */
  function DigitValue(c: char): (d: nat)
    requires '0' <= c <= '9'
    ensures d < 10
  {
    (c as int - '0' as int) as nat
  }

  predicate AllDigits(s: string) {
    forall k :: 0 <= k < |s| ==> '0' <= s[k] <= '9'
  }

  /** How PHP renders a non-negative integer inside a double-quoted string,
      as in `"HTTP status {$status}"`: its decimal digits, without leading
      zeros. */
  function Decimal(n: nat): (s: string)
    ensures |s| >= 1 && AllDigits(s)
    ensures s[0] == '0' ==> n == 0 && s == "0"
    decreases n
  {
    if n < 10 then [DigitChar(n)] else Decimal(n / 10) + [DigitChar(n % 10)]
  }

  /** Reads a string of decimal digits back as a number. */
  function ParseDecimal(s: string): (n: nat)
    requires AllDigits(s)
  {
    if s == [] then 0
    else ParseDecimal(s[..|s| - 1]) * 10 + DigitValue(s[|s| - 1])
  }

  lemma {:induction false} DigitRoundTrip(d: nat)
    requires d < 10
    ensures DigitValue(DigitChar(d)) == d
  {
    match d
    case 0 => case 1 => case 2 => case 3 => case 4 =>
    case 5 => case 6 => case 7 => case 8 => case 9 =>
  }

  /** The decimal rendering can be read back: the number is recoverable
      from the text, so distinct numbers render differently. */
  lemma {:induction false} DecimalRoundTrip(n: nat)
    ensures ParseDecimal(Decimal(n)) == n
    decreases n
  {
    if n < 10 {
      DigitRoundTrip(n);
      assert [DigitChar(n)][..0] == [];
    } else {
      var s := Decimal(n);
      assert s[..|s| - 1] == Decimal(n / 10);
      DecimalRoundTrip(n / 10);
      DigitRoundTrip(n % 10);
    }
  }

  lemma DecimalInjective(m: nat, n: nat)
    requires Decimal(m) == Decimal(n)
    ensures m == n
  {
    DecimalRoundTrip(m);
    DecimalRoundTrip(n);
  }

  /** PHP truthiness of a nullable string: `null`, `""` and `"0"` are
      falsy, every other string is truthy. */
  predicate Falsy(s: Option<string>) {
    s == None || s == Some("") || s == Some("0")
  }

  /** Laravel's `filled()` on a string input: present and not blank
      after trimming. */
  predicate Filled(s: Option<string>) {
    s.Some? && Trim(s.value) != ""
  }
}
